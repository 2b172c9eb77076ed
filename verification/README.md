# Verified models of the FreeSWITCH contributions

This project models the stateful parts of a collection of FreeSWITCH add-on modules and proves what they are for. Where
the code keeps its promise only sometimes, the exact condition is proved, together with an input that breaks it.

Each part has the same shape: functions on plain values say what one operation or one atomic step does; a class or a
method with loops, in the form of the source, is proved to do exactly that; and lemmas about the functions state what
holds over every history, every run or every interleaving.

| files | what they model |
|---|---|
| `RouteArrays`, `RouteArrayLaws`, `TopRoutes`, `TopRoutesExactly` | the bounded, cost-sorted route array, and when it keeps the cheapest routes |
| `RouteTries`, `TrieLookups`, `TrieTops` | the trie of digits on the heap, and what a lookup finds in it |
| `LcrLookups`, `MixedRouting`, `MixedExactly`, `CallRouting` | looking up a call by area and by inter-area carriers, and which rates it is given |
| `LcrLocking`, `LcrHistory` | publishing, reading, replacing and destroying LCR databases, and what a run publishes |
| `Lookup3`, `HashPaths`, `HashVectors` | the lookup3 hash, all its ways of reading a key, and values of it |
| `ArgTokenizer`, `ArgLines` | splitting a command line in place, and what every line stands for |
| `EventSender`, `SenderHistory`, `BreakerTrips` | the AMQP event queue, its consumer and its shutdown; what becomes of each message; the trips of the circuit breaker |
| `NibbleBilling`, `NibbleModule` | the steps of billing, pausing, resuming and resetting, and the module changed in place |
| `NibblePrices`, `NibbleCharges`, `NibbleRaces`, `NibbleLedger` | what a call is charged, when a charge is negative, and the accounts' ledger |
| `BackgroundQueue`, `DelayedCalls`, `DelayedOrder`, `Calls`, `CallEvents`, `AudioDevices` | the softphone's command queue, delayed actions, calls and audio devices |

## What is found

**Route arrays.** Values are 8 or 16 bits wide, and the size wraps at 8 bits (`WrapExactly`). For capacities 1 to 254 and
nonzero values, every history of adds leaves the whole physical array in order, shows only routes that were added, and
puts a cheapest one first. Removing a route leaves a copy of the last one behind the end. `TopRoutes` compares the array
with a reference that has no such leftovers: one add agrees with the reference exactly when it is harmless, which is a test
of the single slot that is about to become visible (`AddMatchesOfferExactly`). The array shows the cheapest routes of its
history, each key once, after every add exactly when every add was harmless (`BestThroughoutExactly`); without
replacements also with ties in arrival order, and there is only one such list (`BestIsUnique`). `StaleRouteResurfaces` goes
wrong in three adds, and nothing can go wrong in two (`TwoAddsAreHarmless`). The header calls `route_array_reset` a reset
"for a new query", but a used array answers later queries like a fresh one exactly when it had never been written
(`ResetIsFreshExactly`).

**Trie and lookups.** The heap trie refines a map from digit strings to arrays. A lookup finds a route exactly when some
prefix of the number was ever given one, and its first result costs the least of all of them. In mixed routing the two
types of results are always kept apart; that no intra-area result belongs to a carrier with an inter-area prefix holds, for
all intra-area rates, exactly when every such carrier was collected, which a repeated carrier can prevent.
Which trie a call is looked up in is proved over the rates, areas and prefixes that were loaded (`CallsAreRouted`).
Over all rates ever added, a lookup keeps exactly the cheapest per key if its path is harmless (`LookupKeepsBestOfAll`).

**LCR database.** For any number of readers and reloaders and every interleaving: no reader holds a destroyed database,
each replaced one is destroyed exactly once and after its last reader, there is no deadlock, and at rest all is cleaned up.
What is published is what the last swap brought in (`LcrHistory`).
Without a first database a reader crashes.

**lookup3.** Mixing is a bijection, so keys of equal length that differ in one full block keep different registers to the
end. The 32-bit, 16-bit and byte paths all compute one recursive function of the key's bytes; the over-read is masked.
`HashVectors` has values of it for both byte orders.

**Tokenizer.** The in-place parser computes a functional one, undoes quoting for every list of NUL-free strings, and reads
every line of bare and quoted pieces as the texts of its words (`LinesAreRead`).

**AMQP sender.** Accepted messages are freed in order, each once, and published until the loop ends; published are those
that the broker accepted, and a failed send keeps its message. Trips of the breaker
are an interval apart if the tripping handlers passed it in turn; if nobody needed the time between them to pass, the same
schedule with other readings makes them coincide. Shutdown can hang: the interrupt is lost on a consumer that has already tested the flag but
does not wait yet. `ShutdownCompletesExactly` says when.

**Nibble billing.** An operation reads the clock first, tests without the mutex next, and takes the mutex last, so a later
reading can be used first, and a resume can find that another one has ended its pause. The total is rate times talk time
exactly if no bill or reset came with a reading before the last bill, as long as every resume found a pause
(`TotalIsRateTimesTalkTimeExactly`). No charge is negative, nor doomed to be, exactly if every operation was harmless when
it got the mutex (`SafeThroughoutExactly`); `NibbleRaces` has the runs that go wrong. Failed updates, a pause before the
first bill and a hangup while paused each break something else; what exactly is proved for each.

**Softphone.** Background commands run in order, each once, and always finish. Delayed actions are each in exactly one
place and never early, and the timer is never forgotten unless an action throws in the last handler in progress, after
which nothing is ever performed again. Calls are ended exactly in terminal states, never change afterwards, and end as
Ended exactly if they were ever connected. Devices keep their guids over every history of scans.

## Model

| member | source | states |
|---|---|---|
| RouteArrays.RouteArray.constructor | crienzo/mod_simple_lcr/route_trie.c:98-103 | a new array is all empty slots |
| RouteArrays.RouteArray.GetRoute | crienzo/mod_simple_lcr/route_trie.c:110-116 | the visible route at the index, or nothing beyond the size |
| RouteArrays.RouteArray.Reset | crienzo/mod_simple_lcr/route_trie.c:118-121 | only the size changes; the slots keep their routes |
| RouteArrays.RouteArray.Contains | crienzo/mod_simple_lcr/route_trie.c:130-139 | true exactly if a visible route has the value |
| RouteArrays.RouteArray.FindByValueAndType | crienzo/mod_simple_lcr/route_trie.c:148-159 | the loop finds the first visible route with the key, else the capacity |
| RouteArrays.RouteArray.FindByCost | crienzo/mod_simple_lcr/route_trie.c:167-182 | the loop finds the first physical slot that is empty or costs more |
| RouteArrays.RouteArray.RemoveAt | crienzo/mod_simple_lcr/route_trie.c:189-198 | the in-place gap closing is Remove, which keeps the old last route behind the end |
| RouteArrays.RemoveSlot | crienzo/mod_simple_lcr/route_trie.c:189-198 | where every physical slot goes when a route is removed |
| RouteArrays.RouteArray.Insert | crienzo/mod_simple_lcr/route_trie.c:206-235 | the in-place add is Add on the whole physical array and its 8-bit size |
| RouteArrayLaws.ShiftSplices | crienzo/mod_simple_lcr/route_trie.c:224-228 | on an ordered array the swapping loop inserts the route and drops the last slot |
| RouteArrayLaws.AddSplices | crienzo/mod_simple_lcr/route_trie.c:206-235 | an add without a cheaper copy removes the old copy, inserts behind equal costs and grows by one up to the capacity |
| RouteArrayLaws.AddKeepsPacked | crienzo/mod_simple_lcr/route_trie.c:206-235 | every add keeps all slots cost-sorted, occupied ones first, with the visible part inside, and invents nothing |
| RouteArrayLaws.AddKeepsHead | crienzo/mod_simple_lcr/route_trie.c:206-235 | the first slot then costs the lesser of the old first slot and the new route |
| RouteArrayLaws.HistoryKeepsOrder | crienzo/mod_simple_lcr/route_trie.h:76-82 | after any history: sorted, nothing invented, empty only without adds, and the first route costs the minimum ever added |
| RouteArrayLaws.ZeroValueExactly | crienzo/mod_simple_lcr/route_trie.c:224-234 | a route of value 0 keeps the order exactly if the size need not grow over an empty slot |
| RouteArrayLaws.WrapExactly | crienzo/mod_simple_lcr/route_trie.c:230-234 | the 8-bit size wraps to 0 exactly for a full array of 255 and a new key |
| RouteArrayLaws.ResetAnswersStale | crienzo/mod_simple_lcr/route_trie.c:118-121 | one add after a reset of a used array answers with the stale first route |
| RouteArrayLaws.ResetIsFreshExactly | crienzo/mod_simple_lcr/route_trie.h:99-103 | a reset array answers all histories like a fresh one exactly if no slot was ever written |
| TopRoutes.AddMatchesOfferExactly | crienzo/mod_simple_lcr/route_trie.c:167-235 | one add shows what the reference lists exactly if it is harmless |
| TopRoutes.HarmlessExactly | crienzo/mod_simple_lcr/route_trie.c:167-235 | array and reference agree after every add of a history exactly if every add was harmless |
| TopRoutesExactly.BestThroughoutExactly | crienzo/mod_simple_lcr/route_trie.h:76-82 | the array shows the cheapest routes per key after every add of a history exactly if every add was harmless |
| TopRoutesExactly.HarmlessKeepsStaleKeys | crienzo/mod_simple_lcr/route_trie.c:189-235 | harmless adds keep: every stale slot has the key of a visible route |
| TopRoutesExactly.HarmfulRepeatsKey | crienzo/mod_simple_lcr/route_trie.c:206-235 | a harmful add shows some key twice |
| TopRoutesExactly.HarmfulLosesKey | crienzo/mod_simple_lcr/route_trie.c:206-235 | and loses the key that was to be added |
| TopRoutesExactly.TwoAddsAreHarmless | crienzo/mod_simple_lcr/route_trie.c:206-235 | histories of at most two adds are harmless |
| TopRoutesExactly.TwoAddsAre | crienzo/mod_simple_lcr/route_trie.c:206-235 | two adds spelled out: same value and type, the later one gives way only to a cheaper one; else both, of equal costs the first in front |
| TopRoutes.OfferKeepsBest | crienzo/mod_simple_lcr/route_trie.h:76-82 | one offer to the reference keeps it the list of the cheapest champions of the history |
| TopRoutes.OfferAllIsBest | crienzo/mod_simple_lcr/route_trie.h:76-82 | the reference lists the cheapest route of each key, ascending, cut to the capacity, ties in arrival order without repeats |
| TopRoutes.BestIsUnique | crienzo/mod_simple_lcr/route_trie.h:76-82 | with arrival order there is only one such list |
| TopRoutes.HarmlessHistoryIsBest | crienzo/mod_simple_lcr/route_trie.c:206-235 | a harmless history leaves exactly the cheapest routes per key in the array |
| TopRoutes.NoReplacementLaws | crienzo/mod_simple_lcr/route_trie.c:212-220 | a history that never replaces a stored key is harmless and leaves no stale slot |
| TopRoutes.NoReplacementIsBest | crienzo/mod_simple_lcr/route_trie.c:148-235 | without replacements the array holds exactly the cheapest routes per key, ascending, ties in arrival order, each key once |
| TopRoutes.StaleRouteResurfaces | crienzo/mod_simple_lcr/route_trie.c:167-198 | three adds after which a stale route is visible and the new one is lost, which is not the best list of any order of ties |
| RouteTries.RouteTrie.CreateChild | crienzo/mod_simple_lcr/route_trie.c:262-265 | a missing node is created and linked; no other node or array changes |
| RouteTries.RouteTrie.StepDown | crienzo/mod_simple_lcr/route_trie.c:259-271 | one turn of the loop: the child for the digit, created if missing |
| RouteTries.RouteTrie.Store | crienzo/mod_simple_lcr/route_trie.c:273-280 | the node's array, created if missing, gets the route; no other entry changes |
| RouteTries.RouteTrie.Insert | crienzo/mod_simple_lcr/route_trie.c:254-282 | on the heap only the prefix's own entry changes; success is reported exactly for digits, and a bad prefix changes no entry but may create nodes |
| RouteTries.RouteTrie.OfferAll | crienzo/mod_simple_lcr/route_trie.c:295-301 | every visible route of a node is offered in order, and the trie stays as it was |
| RouteTries.RouteTrie.Lookup | crienzo/mod_simple_lcr/route_trie.c:291-318 | the walk over the heap fills the array and reports what Find says, and leaves the trie alone |
| RouteTries.RouteTrie.FindCount | crienzo/mod_simple_lcr/route_trie.c:326-351 | the walk counts what Count says |
| RouteTries.DigitsAre | crienzo/mod_simple_lcr/route_trie.c:260-262 | the digits are 0 to 9 |
| TrieLookups.AddRouteKeepsValid | crienzo/mod_simple_lcr/route_trie.c:254-282 | after an add every node is still reachable through its prefixes, and every array has the trie's capacity |
| TrieLookups.EntriesAre | crienzo/mod_simple_lcr/route_trie.c:254-282 | after any adds the trie is the map from each digit string to the array that its own adds produced, and nothing else has an entry |
| TrieLookups.FindOffersCollected | crienzo/mod_simple_lcr/route_trie.c:291-318 | for a key of digits a lookup offers exactly the visible routes of all its prefixes, shortest first |
| TrieLookups.CountIsCollected | crienzo/mod_simple_lcr/route_trie.c:326-351 | the count is the sum of the sizes of the entries over all prefixes of the key |
| TrieLookups.BadKeyExactly | crienzo/mod_simple_lcr/route_trie.c:303-317 | with a bad character the array is filled from the digits before it, and 0 is reported exactly if the walk got that far |
| TrieLookups.BadKeyCountExactly | crienzo/mod_simple_lcr/route_trie.c:326-351 | with a bad character 0 is counted exactly if there is a node for all digits before it, and otherwise the routes of those digits |
| TrieLookups.CollectedWasAdded | crienzo/mod_simple_lcr/route_trie.c:291-318 | every offered route was added under a prefix of the key |
| TrieLookups.AddedIsMatched | crienzo/mod_simple_lcr/route_trie.c:291-318 | every add under a prefix of the key is matched by an offered route that costs no more |
| TrieLookups.LookupFindsCheapest | crienzo/mod_simple_lcr/route_trie.h:136-146 | a lookup is nonempty exactly if a prefix of the key was ever given a route; it is sorted, and its first route costs the least ever added under any prefix |
| TrieLookups.LookupKeepsBest | crienzo/mod_simple_lcr/route_trie.h:136-146 | if the routes on the path are harmless, the lookup keeps exactly the cheapest per key |
| TrieTops.LookupKeepsBestOfAll | crienzo/mod_simple_lcr/route_trie.h:136-146 | over all rates: with room in the nodes, and harmless nodes and lookup, the result is the cheapest per key of all routes ever added under any prefix of the key |
| TrieTops.Crowd | crienzo/mod_simple_lcr/route_trie.c:206-235 | routes crowded out of a full node are crowded out of the lookup as well |
| LcrLookups.LookUpArea | crienzo/mod_simple_lcr/mod_simple_lcr.c:312-332 | the area of a number is that of FindArea on the trie's entries |
| LcrLookups.InterArea | crienzo/mod_simple_lcr/mod_simple_lcr.c:341-382 | inter-area exactly if both stripped and prefixed numbers have areas and these differ |
| LcrLookups.AddChosen | crienzo/mod_simple_lcr/mod_simple_lcr.c:430-448 | each filtering loop adds exactly the chosen routes, in order |
| LcrLookups.LookUpMixed | crienzo/mod_simple_lcr/mod_simple_lcr.c:420-453 | mixed routing on the heap offers what Mixed says and leaves the tries alone |
| LcrLookups.LookUpCall | crienzo/mod_simple_lcr/mod_simple_lcr.c:392-455 | the whole lookup on the heap: which trie is searched, what the results hold, and the number reported |
| LcrLookups.Chosen | crienzo/mod_simple_lcr/mod_simple_lcr.c:430-448 | the chosen routes are exactly those of the wanted type with a carrier that is, or is not, inter-area |
| MixedRouting.MixedIsOffers | crienzo/mod_simple_lcr/mod_simple_lcr.c:420-453 | mixed routing is one history of adds: first the intra-area, then the inter-area choices, none of value 0 |
| MixedRouting.KnownCarriersHaveInterArea | crienzo/mod_simple_lcr/mod_simple_lcr.c:427-428 | every collected carrier has an inter-area prefix of the caller ID |
| MixedRouting.MixedKeepsTypesApart | crienzo/mod_simple_lcr/mod_simple_lcr.c:420-454 | results are sorted, inter-area results come from carriers with an inter-area prefix, and no carrier has both types |
| MixedRouting.RoomForAll | crienzo/mod_simple_lcr/mod_simple_lcr.c:423-428 | a harmless history no longer than the capacity keeps every carrier |
| MixedRouting.MixedKeepsIntraApart | crienzo/mod_simple_lcr/mod_simple_lcr.c:427-438 | if collecting the carriers is harmless, no intra-area result's carrier has an inter-area prefix |
| MixedRouting.DistinctCarriersKeepIntraApart | crienzo/mod_simple_lcr/mod_simple_lcr.c:427-438 | the same if no carrier repeats along the caller's path |
| MixedRouting.RepeatedCarrierIsLost | crienzo/mod_simple_lcr/route_trie.c:189-198 | a path of carriers 1, 2, 1 of equal cost leaves carrier 2 twice and loses carrier 1 |
| MixedExactly.IntraApartExactly | crienzo/mod_simple_lcr/mod_simple_lcr.c:427-438 | no intra-area result's carrier has an inter-area prefix, whatever the intra-area rates, exactly if all such carriers were collected |
| MixedExactly.MissedCarrierComesOut | crienzo/mod_simple_lcr/mod_simple_lcr.c:430-438 | a missed carrier's intra-area route is among the results |
| MixedExactly.PathIsHarmlessExactly | crienzo/mod_simple_lcr/mod_simple_lcr.c:423-428 | for prefixes loaded with one type of routes: no carrier is missing after any route of the caller's path exactly if the path is a harmless history; then all are collected |
| MixedRouting.BuiltTriesAreSound | crienzo/mod_simple_lcr/mod_simple_lcr.c:652-690 | tries built from nonzero rates show no route of value 0 |
| TrieTops.RatesKeepTypesApart | crienzo/mod_simple_lcr/mod_simple_lcr.c:420-454 | over rates: inter-area results come from carriers that were given a prefix of the caller ID, and no carrier has both types |
| TrieTops.LoadedPathIsOneKind | crienzo/mod_simple_lcr/mod_simple_lcr.c:819-826 | the prefixes that are loaded are of one type |
| CallRouting.AreaExactly | crienzo/mod_simple_lcr/mod_simple_lcr.c:312-332 | over the area rates: a number's area is the first one loaded for its shortest prefix that has any, and -1 exactly if none has |
| CallRouting.InterAreaExactly | crienzo/mod_simple_lcr/mod_simple_lcr.c:341-382 | over the area rates: inter-area exactly if both numbers are long enough and their rewritten forms have areas that differ |
| CallRouting.CountExactly | crienzo/mod_simple_lcr/route_trie.c:326-351 | the routes on a number's path are none exactly if no rate was added under a prefix of it |
| CallRouting.MixedAnswers | crienzo/mod_simple_lcr/mod_simple_lcr.c:430-454 | mixed results: something exactly if a route qualifies, nothing else, sorted, a cheapest first |
| CallRouting.CallsAreRouted | crienzo/mod_simple_lcr/mod_simple_lcr.c:392-455 | over all rates: calls between areas, or with a route per carrier on the caller's path, get what the inter-area rates give; other calls without a prefix of the caller ID what the intra-area rates give; the rest mixed results |
| CallRouting.PlusIsIgnored | crienzo/mod_simple_lcr/mod_simple_lcr.c:396-408 | a leading plus changes nothing, and without a number there is no lookup |
| LcrLocking.StepKeepsInv | crienzo/mod_simple_lcr/mod_simple_lcr.c:225-258 | every atomic step keeps the lock discipline and who is responsible for which database |
| LcrLocking.EveryRunIsSafe | crienzo/mod_simple_lcr/mod_simple_lcr.c:225-258 | in every interleaving no reader holds a destroyed database, none is destroyed twice, nobody crashes |
| LcrLocking.OnlyCurrentIsAcquired | crienzo/mod_simple_lcr/mod_simple_lcr.c:225-258 | a reader can only lock the published database; one is destroyed only after the swap and without readers |
| LcrLocking.StepsFinish | crienzo/mod_simple_lcr/mod_simple_lcr.c:461-482 | every step but the start of a procedure brings the run nearer to rest |
| LcrLocking.SomeoneCanStep | crienzo/mod_simple_lcr/mod_simple_lcr.c:461-482 | no deadlock: unless at rest, some thread can finish a step |
| LcrLocking.AtRestAllReplacedAreDestroyed | crienzo/mod_simple_lcr/mod_simple_lcr.c:858-867 | at rest every database but the published one was destroyed exactly once, and no lock is held |
| LcrLocking.ReaderNeedsDatabase | crienzo/mod_simple_lcr/mod_simple_lcr.c:229-230 | without a first database a reader crashes |
| LcrLocking.LcrModule.ReaderStep | crienzo/mod_simple_lcr/mod_simple_lcr.c:225-243 | the readers' updates of the shared state, one atomic step at a time, are those of the protocol |
| LcrLocking.LcrModule.ReloaderStep | crienzo/mod_simple_lcr/mod_simple_lcr.c:250-258 | likewise for loading, swapping and destroying |
| LcrLocking.LcrModule.Schedule | crienzo/mod_simple_lcr/mod_simple_lcr.c:858-867 | any schedule of turns takes the module where Run says |
| LcrHistory.ReloadsArePublished | crienzo/mod_simple_lcr/mod_simple_lcr.c:250-258 | in every run the published database, and the one a reader locks, is that of the last swap, as the turns alone tell it |
| LcrHistory.StaysPublished | crienzo/mod_simple_lcr/mod_simple_lcr.c:250-258 | what a thread loaded and swapped in stays so until another swap |
| LcrHistory.AtRestTheLastSwapStands | crienzo/mod_simple_lcr/mod_simple_lcr.c:858-867 | at rest it is published, and every other database that was ever loaded is destroyed once |
| LcrHistory.DestroyedWasCurrent | crienzo/mod_simple_lcr/mod_simple_lcr.c:858-867 | a destroyed database was published before, unless its loading had failed; one that entered the replacer always was |
| Lookup3.MixIsReversible | grmt/svox pico/popt/lookup3.c:65-115 | _JLU3_MIX has a two-sided inverse |
| Lookup3.FinalIsReversible | grmt/svox pico/popt/lookup3.c:119-151 | _JLU3_FINAL has a two-sided inverse |
| Lookup3.NeverMergeAgain | grmt/svox pico/popt/lookup3.c:383-424 | different registers stay different through the rest of any key |
| Lookup3.OneBlockMatters | grmt/svox pico/popt/lookup3.c:383-424 | keys that differ in exactly one full 12-byte block end with different registers |
| HashVectors.EmptyKey | grmt/svox pico/popt/lookup3.c:61 | the hash of the empty key is 0xdeadbeef plus the seed |
| HashVectors.NullKey | grmt/svox pico/popt/lookup3.c:243-251 | so is the value for a null key, plus the size |
| HashVectors.SizesWrap | grmt/svox pico/popt/lookup3.c:61 | sizes count modulo 2^32 |
| HashVectors.OneByteLittle | grmt/svox pico/popt/lookup3.c:142-151 | the hash of one byte, as a literal |
| HashVectors.OneByteBig | grmt/svox pico/popt/lookup3.c:653-775 | the same by the big-endian hash |
| HashVectors.FiveBytesLittle | grmt/svox pico/popt/lookup3.c:376-422 | the hash of five bytes, as a literal |
| HashVectors.OneBlockLittle | grmt/svox pico/popt/lookup3.c:142-151 | the hash of twelve bytes with seed 1, as a literal |
| HashVectors.OneBlockBig | grmt/svox pico/popt/lookup3.c:653-775 | the same by the big-endian hash |
| HashVectors.ThreeBlocksLittle | grmt/svox pico/popt/lookup3.c:107-151 | the hash of thirty bytes, as a literal |
| HashVectors.ThreeBlocksSeeded | grmt/svox pico/popt/lookup3.c:107-151 | the same with seed 1 |
| HashVectors.ThreeBlocksBig | grmt/svox pico/popt/lookup3.c:653-775 | the same by the big-endian hash |
| HashVectors.ThreeBlocksPair | grmt/svox pico/popt/lookup3.c:448-636 | both hashes of a pair with secondary seed 1, as literals |
| HashPaths.MaskedLoad | grmt/svox pico/popt/lookup3.c:270-296 | a masked load of the last word gives the key's own bytes whatever lies behind them |
| HashPaths.AddUpPacks | grmt/svox pico/popt/lookup3.c:386-402 | the four additions of the byte loop add one packed word |
| HashPaths.AddDownPacks | grmt/svox pico/popt/lookup3.c:404-421 | the falling-through additions add the packed rest of a word |
| HashPaths.MixInPlace | grmt/svox pico/popt/lookup3.c:107-115 | the macro's assignments compute Mix |
| HashPaths.FinalInPlace | grmt/svox pico/popt/lookup3.c:142-151 | the macro's assignments compute Final |
| HashPaths.HashWords | grmt/svox pico/popt/lookup3.c:255-296 | the 32-bit path computes the hash function of the key's bytes, never loading outside the memory's words |
| HashPaths.HashHalves | grmt/svox pico/popt/lookup3.c:319-380 | the 16-bit path computes the same function |
| HashPaths.HashBytes | grmt/svox pico/popt/lookup3.c:382-422 | the byte path computes the same function |
| HashPaths.Jlu32l | grmt/svox pico/popt/lookup3.c:243-428 | for every alignment, length and byte order of the machine the value is one function of the key's bytes; a null key gives the initial value |
| HashPaths.Jlu32lPair | grmt/svox pico/popt/lookup3.c:448-636 | both results on every path; with secondary seed 0 the primary one is that of jlu32l |
| HashPaths.Jlu32b | grmt/svox pico/popt/lookup3.c:653-775 | both paths compute the big-endian function; a null key gives the seed |
| HashPaths.Jlu32w | grmt/svox pico/popt/lookup3.c:174-206 | hashes words like their bytes in the machine's order: jlu32l's value on little-endian, jlu32b's on big-endian machines |
| ArgTokenizer.ParseArgs | gled/esl2agi/esl2agi.c:685-735 | the in-place loop leaves exactly the functional tokenizer's arguments as C strings, at most (length + 1) / 2 of them, and writes nothing behind the string |
| ArgTokenizer.ParsingUndoesQuoting | gled/esl2agi/esl2agi.c:693-730 | quoting, joining and parsing gives back any list of arguments |
| ArgTokenizer.QuotingAddsNoNul | gled/esl2agi/esl2agi.c:685-735 | a quoted list of NUL-free strings is NUL-free |
| ArgTokenizer.ParseQuoted | gled/esl2agi/esl2agi.c:685-735 | on a quoted list the buffer version gives back the list's own strings |
| ArgTokenizer.SlotsSufficeExactly | gled/esl2agi/esl2agi.c:685-733 | commands of length n fit into a vector of that many slots, the final NULL included, exactly if (n + 1) / 2 is less |
| ArgLines.LinesAreRead | gled/esl2agi/esl2agi.c:693-730 | a line of words, each of bare and quoted pieces with any characters after backslashes, between any blanks and tabs, gives the texts of its words |
| ArgLines.UnfinishedLines | gled/esl2agi/esl2agi.c:693-734 | a quote left open closes itself at the end, and a last backslash is dropped |
| ArgLines.ParsingUndoesBackslashing | gled/esl2agi/esl2agi.c:706-728 | with every blank, quote and backslash after a backslash, any list of nonempty arguments comes back |
| ArgLines.WordAndQuoteAreOne | gled/esl2agi/esl2agi.c:695-704 | a word directly before or behind a quoted text is one argument with it |
| ArgTokenizer.PlainWordIsOneArgument | gled/esl2agi/esl2agi.c:706-728 | a word between blanks is one more argument and disturbs none before it |
| EventSender.StepKeepsInv | aeriandi/mod_amqp/mod_amqp.c:917-1051 | every atomic step keeps the order of messages, what the consumer knows, the bound and the breaker |
| EventSender.NothingIsLostOrRepeated | aeriandi/mod_amqp/mod_amqp.c:917-1051 | accepted = freed, then in hand, then queued, always; freed = published until the loop has ended; the queue keeps its capacity; a waiting consumer overlooks nothing; what is left at the end came in late |
| EventSender.AllAreFreed | aeriandi/mod_amqp/mod_amqp.c:1007-1045 | with no late message, the consumer's end has freed every accepted message exactly once |
| EventSender.LostExactly | aeriandi/mod_amqp/mod_amqp.c:1023-1045 | what is lost: the messages left when the consumer is gone, and all that are accepted later; none is ever freed |
| EventSender.UnboundLosesNothing | aeriandi/mod_amqp/mod_amqp.c:469-484 | with the handler unbound before the flag, all accepted messages are freed |
| SenderHistory.PublishedAreDelivered | aeriandi/mod_amqp/mod_amqp.c:394-404 | over every run, from the actions alone: published is what the broker accepted, in order, accepted what found room, and leaked what did not |
| SenderHistory.FailedSendKeepsMessage | aeriandi/mod_amqp/mod_amqp.c:961-984 | after a failed send the same message is in hand, and until a reconnect succeeds there is no send and no pop; only the end of the consumer gives it up |
| SenderHistory.CanBeDelivered | aeriandi/mod_amqp/mod_amqp.c:924-968 | while the module runs, the consumer's own steps can deliver all that is in hand and queued, in order |
| SenderHistory.AcceptedCanBeDelivered | aeriandi/mod_amqp/mod_amqp.c:924-968 | so every accepted message can still be delivered |
| SenderHistory.PassesExactly | aeriandi/mod_amqp/mod_amqp.c:373-375 | a handler passes exactly while the module runs and an interval has gone by since the last trip |
| BreakerTrips.TripsKeepDistance | aeriandi/mod_amqp/mod_amqp.c:367-405 | a tripping handler's clock is an interval after that of the last trip before it passed the breaker |
| BreakerTrips.TripsAreApart | aeriandi/mod_amqp/mod_amqp.c:394-404 | if the tripping handlers passed the breaker in turn, trips i and j are at least j - i intervals apart, however other handlers overlap |
| BreakerTrips.StayAlone | aeriandi/mod_amqp/mod_amqp.c:367-405 | handlers that do not overlap pass in turn |
| BreakerTrips.TripsCanCoincide | aeriandi/mod_amqp/mod_amqp.c:373-405 | the converse: if nobody needed the time between two trips to pass, the same schedule with other readings in order trips twice at once |
| BreakerTrips.InTurnSparesNothing | aeriandi/mod_amqp/mod_amqp.c:373-405 | handlers that pass in turn do need that time |
| BreakerTrips.SeparatedByAnother | aeriandi/mod_amqp/mod_amqp.c:373-405 | a schedule whose handlers do not pass in turn and whose trips no readings in order can bring together, because of a third handler |
| BreakerTrips.OverlappingTrips | aeriandi/mod_amqp/mod_amqp.c:373-375 | for any capacity and interval two overlapping handlers trip at the same time |
| EventSender.OwnStepsEnd | aeriandi/mod_amqp/mod_amqp.c:924-1045 | after the flag, unless doomed, every step of the consumer brings it nearer to its end |
| EventSender.DoomedForGood | aeriandi/mod_amqp/mod_amqp.c:946-951 | a consumer that waits on an empty queue after the interrupt waits for ever |
| EventSender.ShutdownCompletesExactly | aeriandi/mod_amqp/mod_amqp.c:473-484 | after the interrupt the consumer can end exactly if it is not between its test of the flag and an empty pop |
| EventSender.MissedInterrupt | aeriandi/mod_amqp/mod_amqp.c:473-475 | a run in which the interrupt comes too early and the shutdown hangs |
| EventSender.Globals.CheckBreaker | aeriandi/mod_amqp/mod_amqp.c:373-375 | an event is ignored unless the module runs and the breaker is closed |
| EventSender.Globals.TryPush | aeriandi/mod_amqp/mod_amqp.c:394-404 | a full queue trips the breaker and leaks the message, else the message is queued |
| EventSender.Globals.ShutdownStep | aeriandi/mod_amqp/mod_amqp.c:473-475 | the flag, then the interrupt, which wakes only a consumer that waits |
| EventSender.Globals.LoopHead | aeriandi/mod_amqp/mod_amqp.c:923-944 | leave the loop, reconnect, pop or send |
| EventSender.Globals.QueuePop | aeriandi/mod_amqp/mod_amqp.c:946-951 | the oldest message, or waiting, or empty hands after an interrupt |
| EventSender.Globals.SendMessage | aeriandi/mod_amqp/mod_amqp.c:961-984 | success frees the message, failure keeps it and drops the connection |
| EventSender.Globals.EndStep | aeriandi/mod_amqp/mod_amqp.c:1007-1045 | the message in hand is freed, then at most the capacity of messages from the queue |
| NibblePrices.StepKeepsLaw | dschreiber/mod_nibblebill/mod_nibblebill.c:409-473 | every step of every operation keeps: total less adjustments is the price of the paid time up to the last bill |
| NibblePrices.BillsPayForTime | dschreiber/mod_nibblebill/mod_nibblebill.c:447-473 | after any run, in whatever order operations get the mutex, a bill that charges at a constant rate brings the charges to the price of the paid time |
| NibblePrices.StraysExactly | dschreiber/mod_nibblebill/mod_nibblebill.c:409-473 | the paid time has been set back exactly if a bill or reset got the mutex with a reading before the last bill, and credited without a pause exactly if a resume found none |
| NibblePrices.TotalIsRateTimesTalkTimeExactly | dschreiber/mod_nibblebill/mod_nibblebill.c:360-473 | readings in order, constant positive rate: the total is rate times talk time exactly if such set-backs and credits cancel out; without the one kind, exactly if the other never happened |
| NibbleCharges.BillIsHarmlessExactly | dschreiber/mod_nibblebill/mod_nibblebill.c:447-460 | a bill charges nothing negative exactly if its reading is before the last bill or not before the end of what is paid for, and never leaves a later charge negative |
| NibbleCharges.PauseIsHarmlessExactly | dschreiber/mod_nibblebill/mod_nibblebill.c:545-567 | a pause never causes a negative charge exactly if there are no data, the call is paused, or nothing is paid for beyond it; with nothing to pay back, if it is not before the last bill |
| NibbleCharges.PauseBeforePayback | dschreiber/mod_nibblebill/mod_nibblebill.c:545-567 | with a pause still to be paid back, a late pause after the last bill does cause one |
| NibbleCharges.ResumeIsHarmlessExactly | dschreiber/mod_nibblebill/mod_nibblebill.c:596-612 | the locked part of a resume, which does not test again, is harmless exactly if it finds a pause |
| NibbleCharges.ResetIsHarmlessExactly | dschreiber/mod_nibblebill/mod_nibblebill.c:644-645 | a reset in order is harmless exactly if nothing is to be paid back and no pause has begun earlier |
| NibbleCharges.SafeThroughoutExactly | dschreiber/mod_nibblebill/mod_nibblebill.c:354-654 | readings in order, used in any order, constant natural rates: all along no charge is negative, nor doomed to be, exactly if every operation was harmless when it got the mutex |
| NibbleCharges.NoChargeIsNegative | dschreiber/mod_nibblebill/mod_nibblebill.c:447-460 | if each session uses its readings in order, resumes find their pauses and resets meet nothing to pay back, no charge is negative |
| NibbleCharges.TotalIsRateTimesTalkTime | dschreiber/mod_nibblebill/mod_nibblebill.c:414-473 | then any bill while unpaused also makes the total rate times (now - answer - pauses - time left out by resets) |
| NibbleRaces.PauseOvertakenByBill | dschreiber/mod_nibblebill/mod_nibblebill.c:545-555 | a pause read at 10 that gets the mutex after a bill read at 20 leads to a charge of -10 |
| NibbleRaces.BillOvertakenByBill | dschreiber/mod_nibblebill/mod_nibblebill.c:360-412 | a bill read at 10 that gets the mutex after one read at 20 charges ten twice |
| NibbleRaces.ResumedTwice | dschreiber/mod_nibblebill/mod_nibblebill.c:596-612 | two resumes of one pause, in order, pay back the whole epoch |
| NibbleRaces.OrdinaryCall | dschreiber/mod_nibblebill/mod_nibblebill.c:414-654 | the charges of a call with a pause and a reset, as literals |
| NibbleLedger.PausedHangupIsUnpaid | dschreiber/mod_nibblebill/mod_nibblebill.c:417-424 | hanging up a paused call bills nothing, and how much of the talk time is never paid |
| NibbleLedger.SecondHangupBillRepeats | dschreiber/mod_nibblebill/mod_nibblebill.c:475-477 | a call first billed after its hangup is charged from its answer again by a second bill |
| NibbleLedger.LedgerBalances | dschreiber/mod_nibblebill/mod_nibblebill.c:294-319 | over any interleaving: cash = initial cash - charges + adjustments + what failed updates did not take |
| NibbleLedger.CashIsConservedExactly | dschreiber/mod_nibblebill/mod_nibblebill.c:306-318 | cash plus charges less adjustments is the initial cash exactly if failed updates lost nothing |
| NibbleLedger.SavedLosesNothing | dschreiber/mod_nibblebill/mod_nibblebill.c:306-314 | if all updates succeed, nothing is lost |
| NibbleLedger.UnsavedTakesNothing | dschreiber/mod_nibblebill/mod_nibblebill.c:306-318 | if no update succeeds, no account changes |
| NibbleLedger.SavedCashIsExact | dschreiber/mod_nibblebill/mod_nibblebill.c:294-319 | if all do, an account's cash is what it was, less the charges of its sessions, plus the adjustments that the actions name |
| NibbleLedger.LowBalancePausesExactly | dschreiber/mod_nibblebill/mod_nibblebill.c:475-492 | a bill leaves a call that goes on paused exactly if the cash left after the charge, or -1, is below the limit |
| NibbleLedger.TestsExactly | dschreiber/mod_nibblebill/mod_nibblebill.c:404-407 | an operation goes on exactly if it has seen an answered call, a pause or billing data |
| NibbleLedger.MutexIsKeptExactly | dschreiber/mod_nibblebill/mod_nibblebill.c:553-563 | an operation keeps the mutex exactly if it pauses a call without billing data |
| NibbleLedger.KeptMutexStopsBilling | dschreiber/mod_nibblebill/mod_nibblebill.c:409-412 | after that no other thread ever gets the mutex, and no call is ever charged |
| NibbleModule.CallSession.MayEnter | dschreiber/mod_nibblebill/mod_nibblebill.c:404-407 | the unlocked tests: answered for a bill, data and a pause for a resume, data for a reset |
| NibbleModule.CallSession.AmountDue | dschreiber/mod_nibblebill/mod_nibblebill.c:447-449 | whether a bill charges, and how much |
| NibbleModule.CallSession.BillUntil | dschreiber/mod_nibblebill/mod_nibblebill.c:426-477 | the session's data after a bill, new data included |
| NibbleModule.CallSession.SetPause | dschreiber/mod_nibblebill/mod_nibblebill.c:557-576 | the first pause counts; without data nothing changes and the mutex is not released |
| NibbleModule.CallSession.EndPause | dschreiber/mod_nibblebill/mod_nibblebill.c:601-617 | the price since `pausets` is owed back, whatever `pausets` is by then |
| NibbleModule.CallSession.ResetTime | dschreiber/mod_nibblebill/mod_nibblebill.c:639-652 | only the time of the last bill changes |
| NibbleModule.Module.ReadClock | dschreiber/mod_nibblebill/mod_nibblebill.c:360 | an operation reads the clock before anything else |
| NibbleModule.Module.TestRequest | dschreiber/mod_nibblebill/mod_nibblebill.c:385-407 | it makes its unlocked tests, or ends; a bill reads the rate |
| NibbleModule.Module.BillEvent | dschreiber/mod_nibblebill/mod_nibblebill.c:294-319 | a saved update takes the amount from the account, a failed one nothing |
| NibbleModule.Module.ChargeSession | dschreiber/mod_nibblebill/mod_nibblebill.c:426-492 | charge, ledger, new data, and the pause of a low balance |
| NibbleModule.Module.DoBilling | dschreiber/mod_nibblebill/mod_nibblebill.c:409-502 | the locked part of a bill of one session among all sessions |
| NibbleModule.Module.DoOther | dschreiber/mod_nibblebill/mod_nibblebill.c:552-654 | the locked part of a pause, resume or reset of one session; no other session changes |
| NibbleModule.Module.AdjustCall | dschreiber/mod_nibblebill/mod_nibblebill.c:689-712 | the opposite amount is billed to the session's account, without the mutex |
| BackgroundQueue.StepKeepsInv | mitchcapper/FSClient/Utils.cs:35-76 | every step keeps: submitted = finished, then running, then pending |
| BackgroundQueue.CommandsRunInOrder | mitchcapper/FSClient/Utils.cs:35-76 | in every interleaving commands run in submission order, once each, the worker is never started while busy, and a pending command is going to be fetched |
| BackgroundQueue.ExecutionsFollowSubmissions | mitchcapper/FSClient/Utils.cs:35-76 | from the actions alone: submitted = executed, then running, pending, being submitted; at rest all submitted commands were executed |
| BackgroundQueue.StepsFinish | mitchcapper/FSClient/Utils.cs:59-76 | without submissions every step brings the queue nearer to rest |
| BackgroundQueue.AtRestAllHaveFinished | mitchcapper/FSClient/Utils.cs:59-67 | at rest every submitted command has finished |
| BackgroundQueue.EverythingFinishes | mitchcapper/FSClient/Utils.cs:59-67 | from every reached state rest can be reached |
| BackgroundQueue.Utils.BeginExec | mitchcapper/FSClient/Utils.cs:45-49 | enqueue or start, decided under the lock |
| BackgroundQueue.Utils.BeginDequeue | mitchcapper/FSClient/Utils.cs:59-64 | a dequeue starts the oldest command only if the worker is idle |
| BackgroundQueue.Utils.EndLocked | mitchcapper/FSClient/Utils.cs:45-64 | what was decided happens before the lock is given back |
| BackgroundQueue.Utils.WorkerStep | mitchcapper/FSClient/Utils.cs:65-76 | the worker finishes, becomes idle and posts a dequeue |
| DelayedCalls.StepKeepsHistory | mitchcapper/FSClient/DelayedFunction.cs:15-56 | every step keeps: each scheduled action is listed, replaced by a later call with its key, or collected at its time |
| DelayedCalls.EachCallIsInOnePlace | mitchcapper/FSClient/DelayedFunction.cs:15-56 | in every interleaving, with throwing actions or not, each scheduled action is in exactly one place, at most one of a nonblank key waits, the newest, and none is collected before its time |
| DelayedOrder.ScheduledAreCalls | mitchcapper/FSClient/DelayedFunction.cs:15-30 | the scheduled actions are the calls made, with their keys, delays and clocks |
| DelayedOrder.EveryCallIsInOnePlace | mitchcapper/FSClient/DelayedFunction.cs:15-56 | each call made is in exactly one place, and is collected only by a handler that read a clock at which its delay was over |
| DelayedOrder.EarliestIsPerformed | mitchcapper/FSClient/DelayedFunction.cs:39-51 | a handler performs the earliest call it still has and keeps the others |
| DelayedCalls.NothingIsEarly | mitchcapper/FSClient/DelayedFunction.cs:38-49 | while the clock runs, an action leaves the list no sooner than its delay after its call |
| DelayedCalls.HealthyExactly | mitchcapper/FSClient/DelayedFunction.cs:50-55 | the only step that stops the timer with a nonempty list to come: the last handler in progress throws before anyone armed it again |
| DelayedCalls.DeadForever | mitchcapper/FSClient/DelayedFunction.cs:31-32 | after that nothing is ever collected or performed |
| DelayedCalls.TimerIsNeverForgotten | mitchcapper/FSClient/DelayedFunction.cs:15-56 | while no action throws, a nonempty list implies an armed timer or a handler in progress, and no action is lost |
| DelayedCalls.ThrowStopsTheTimer | mitchcapper/FSClient/DelayedFunction.cs:50-55 | a run with a throwing action after which a second call waits for ever |
| DelayedCalls.EverythingDueIsPerformed | mitchcapper/FSClient/DelayedFunction.cs:36-56 | from a healthy state in which all is due, timer and handlers can empty the list and come to rest |
| DelayedCalls.DueSplits | mitchcapper/FSClient/DelayedFunction.cs:42-48 | collecting splits the list into what is due and what stays |
| DelayedCalls.DelayedFunction.DelayedCall | mitchcapper/FSClient/DelayedFunction.cs:15-34 | the first entry with the key is replaced, the new one goes last, and the timer is armed if the flag is off |
| DelayedCalls.DelayedFunction.StopTimer | mitchcapper/FSClient/DelayedFunction.cs:37-38 | the handler stops the timer and reads the clock outside the lock |
| DelayedCalls.DelayedFunction.TakeDue | mitchcapper/FSClient/DelayedFunction.cs:41-49 | the loop that removes while it walks takes exactly the due entries and keeps the order of both parts |
| DelayedCalls.DelayedFunction.PerformNext | mitchcapper/FSClient/DelayedFunction.cs:50-51 | the next action is performed; if it throws, the rest is lost with the handler |
| DelayedCalls.DelayedFunction.EndHandler | mitchcapper/FSClient/DelayedFunction.cs:53-55 | timer and flag follow the list |
| Calls.StepKeepsInv | mitchcapper/FSClient/Call.cs:345-466 | every event keeps: ended exactly in terminal states, active call listed and live, live calls listed, no call twice; hangup is never at a loss |
| Calls.EveryRunIsConsistent | mitchcapper/FSClient/Call.cs:359-387 | the same over every sequence of events, and no event throws "Not sure what happened" |
| Calls.SingleExactly | mitchcapper/FSClient/Call.cs:361 | the query says none, one or many exactly as that many listed live calls match |
| Calls.ThrowsExactly | mitchcapper/FSClient/Call.cs:444-466 | a handler throws exactly for an ambiguous id or the answer of a held call, and has then changed nothing |
| Calls.AnsweringAHeldCallThrows | mitchcapper/FSClient/Call.cs:460-465 | ringing, answer, hold, answer ends in "Unknown state" |
| Calls.HangupPassesOn | mitchcapper/FSClient/Call.cs:381-386 | after the active call's hangup the first incoming ringing call is active, and it is live |
| Calls.StepEvolves | mitchcapper/FSClient/Call.cs:507-533 | an event moves at most one existing call, along an edge of the state graph, and keeps its identity |
| Calls.EndedForGood | mitchcapper/FSClient/Call.cs:507-533 | an ended call never changes again |
| Calls.EndTellsTheTruth | mitchcapper/FSClient/Call.cs:368-377 | an ended call shows Ended exactly if it was ever answered or held, otherwise Missed or Failed, and only incoming calls are Missed |
| CallEvents.MatchesExactly | mitchcapper/FSClient/Call.cs:345-361 | which id of a live call each query compares |
| CallEvents.RingingIsIncoming | mitchcapper/FSClient/Call.cs:401-411 | a first ring makes an incoming, ringing call, active if no call was |
| CallEvents.MadeCallIsOutgoing | mitchcapper/FSClient/Call.cs:412-428 | a made call is outgoing and active, ringing or, for the conference, answered |
| CallEvents.HeldCallIsOnHold | mitchcapper/FSClient/Call.cs:429-441 | a held call's state, and no active call if it was |
| CallEvents.ResumedCallIsAnswered | mitchcapper/FSClient/Call.cs:429-438 | a resumed call is answered and active |
| CallEvents.OutgoingCallGetsLeg | mitchcapper/FSClient/Call.cs:351-358 | only an outgoing call gets its other leg |
| CallEvents.AnsweredCallIsConnected | mitchcapper/FSClient/Call.cs:457-463 | an answered call's state, and when it becomes active |
| CallEvents.AutoAnsweredCallIsNew | mitchcapper/FSClient/Call.cs:446-461 | an answer nobody waits for is dropped, or makes an answered, active, incoming call |
| CallEvents.HungUpCallHasEnded | mitchcapper/FSClient/Call.cs:359-387 | a hangup's final state |
| CallEvents.HistoryIsCleared | mitchcapper/FSClient/Call.cs:568-577 | exactly ended calls leave the list |
| Calls.CallList.FindSingle | mitchcapper/FSClient/Call.cs:361 | the query over the list of call objects |
| Calls.CallList.UpdateCallState | mitchcapper/FSClient/Call.cs:507-533 | state, active call and the ended mark of one call object; no other object changes |
| Calls.CallList.Ringing | mitchcapper/FSClient/Call.cs:401-411 | a first ring adds a ringing call and makes it active if there was none |
| Calls.CallList.MakeCallEvent | mitchcapper/FSClient/Call.cs:412-428 | an outgoing call is added and active; a conference is answered at once |
| Calls.CallList.Held | mitchcapper/FSClient/Call.cs:429-441 | the held call's state, and no active call if it was the active one |
| Calls.CallList.Resumed | mitchcapper/FSClient/Call.cs:429-438 | the resumed call is answered and active |
| Calls.CallList.OutgoingEvent | mitchcapper/FSClient/Call.cs:351-358 | an outgoing call gets its other leg |
| Calls.CallList.FindRinging | mitchcapper/FSClient/Call.cs:385 | the first incoming ringing call but this one |
| Calls.CallList.HangupComplete | mitchcapper/FSClient/Call.cs:359-387 | the end of a call and the next active one |
| Calls.CallList.ChannelAnswerEvent | mitchcapper/FSClient/Call.cs:444-466 | every branch of an answer, an auto-answered new call included |
| Calls.CallList.RemoveCallFromHistory | mitchcapper/FSClient/Call.cs:568-573 | an ended call leaves the list, a live one does not |
| Calls.CallList.ClearCallsFromHistory | mitchcapper/FSClient/Call.cs:574-577 | exactly the live calls remain listed, in order |
| AudioDevices.PortAudio.Refresh | mitchcapper/FSClient/PortAudio.cs:115-154 | a refresh is one scan of the stored devices, or nothing while not loaded |
| AudioDevices.PortAudio.Rescan | mitchcapper/FSClient/PortAudio.cs:118-152 | all devices dead, then each entry identified in order |
| AudioDevices.PortAudio.Publish | mitchcapper/FSClient/PortAudio.cs:153 | the published devices are the live ones, in order |
| AudioDevices.PortAudio.IdentifyEntry | mitchcapper/FSClient/PortAudio.cs:130-152 | an entry revives the first dead device of its name or becomes a new device with the next guid |
| AudioDevices.PortAudio.IdOf | mitchcapper/FSClient/PortAudio.cs:55-57 | the id of the first device with the guid, or 0 |
| AudioDevices.ScanKeepsDevices | mitchcapper/FSClient/PortAudio.cs:115-154 | a scan forgets no device and changes no guid or name |
| AudioDevices.HistoryIsNumbered | mitchcapper/FSClient/PortAudio.cs:147-151 | guids are distinct and handed out in order |
| AudioDevices.GuidsReachTheirDevice | mitchcapper/FSClient/PortAudio.cs:55-57 | every device is reached through its own guid |
| AudioDevices.PublishedMatchLatestScan | mitchcapper/FSClient/PortAudio.cs:153 | the published devices match the latest scan by name and by the id that their guids stand for |
| AudioDevices.DevicesComeFromScans | mitchcapper/FSClient/PortAudio.cs:131-151 | every device has a name and channels that some scan listed, and the i-th one the guid 1000 + i |
| AudioDevices.OldestComeFirst | mitchcapper/FSClient/PortAudio.cs:138-146 | of devices with one name the older ones are alive first |
| AudioDevices.UnknownGuidIsDefault | mitchcapper/FSClient/PortAudio.cs:55-57 | an unknown guid stands for id 0 |
| AudioDevices.HistoryMatchesScans | mitchcapper/FSClient/PortAudio.cs:115-154 | after any history the live devices match the latest scan by name and id, and a name has as many devices as the fullest scan so far had |

## Left out

- Memory exhaustion: every allocation succeeds. A `NULL` prefix or key of the trie, which the code treats like the empty string.
- Destroying arrays and tries: the LCR protocol says when it happens, the model does not free objects.
- RouteTries: the ten child pointers, an array inside the C structure, are a `seq` field of the node that is reassigned.
- RouteArrayLaws and TopRoutes: capacities 1 to 254 and nonzero values, outside of which ZeroValueExactly and WrapExactly say what happens; capacity 0 keeps nothing.
- MixedRouting.MixedKeepsTypesApart: assumes that the number of collected carriers, an 8-bit parameter, is between 1 and 254.
- MixedRouting.MixedKeepsIntraApart: gives a sufficient condition only; the exact one is MixedExactly.IntraApartExactly.
- MixedExactly.IntraApartExactly: exact for a caller ID over all intra-area rates and a dialled number of digits, not for one fixed set of rates; MixedExactly.PathIsHarmlessExactly speaks of the carriers on the path instead.
- CallRouting.CallsAreRouted: for numbers of digits, with or without a plus; of other numbers only TrieLookups.BadKeyExactly, TrieLookups.BadKeyCountExactly and CallRouting.PlusIsIgnored speak.
- CallRouting.AreaExactly: for area rates of cost 0 and type 0 in a trie with one slot per node, as they are loaded.
- HashVectors: single values; that no other rotations give the same ones is not proved.
- Loading rate decks and areas from CSV and XML, conversion of costs, carriers' gateways, dial strings and the random choice of a gateway.
- LcrLocking: read-write locks and mutexes are atomic steps; lookups inside a read section, module shutdown and the reload event are not modelled.
- The branches for VALGRIND in lookup3, of which jlu32l's lacks a semicolon, and the statistical claims about the hash.
- HashPaths: memory is a sequence of bytes made of whole 32-bit words; that an aligned over-read stays within such a word is assumed of the machine.
- ArgTokenizer.ParseArgs: the vector of arguments is unbounded, while the source has 128 slots that it does not check; ArgTokenizer.SlotsSufficeExactly says which lengths they are enough for.
- The AMQP connection itself, routing keys, JSON, log messages, the command listener and configuration reload; publishing and reconnecting succeed or fail as they like.
- EventSender: pushing, popping and interrupting the queue are atomic, a wait ends only by a push or an interrupt, and times are unbounded integers.
- BreakerTrips.TripsCanCoincide: a sufficient condition; that two handlers did not pass in turn is not enough, as BreakerTrips.SeparatedByAnother shows.
- The heartbeat of nibblebill, the transfer of a call without money and the low-balance and per-call limits, which the code does not use.
- NibbleBilling: amounts are reals, so rounding of `float` is not modelled; both channel variables are set from the start and the account does not change.
- NibblePrices.BillsPayForTime: for a call whose rate never changed; after a change the ledger still balances, but the price is not rate times time.
- NibblePrices.TotalIsRateTimesTalkTimeExactly: a pause counts with the readings of its pause and its resume, even if these were used out of order; a bill with a reading before the last bill charges nothing itself.
- NibbleCharges.ResumeIsHarmlessExactly: that a second resume always does harm assumes readings that are large compared with their differences, as microseconds since 1970 are.
- NibbleBilling: the mutex is held through the locked part of an operation, which is one step; the database's answers and the clock of the pause inside a bill are parameters of it.
- BackgroundQueue: the worker's busy mark, its completion and the dispatcher are atomic steps, and the race in creating the worker is left out.
- DelayedCalls: the lazy creation of the timer. A tick is raised only while the timer is armed, but its handler may begin at any later time.
- DelayedCalls.EverythingDueIsPerformed: that the end can be reached, not that a fair scheduler reaches it.
- Calls: notes, numbers, names, accounts, gateways, conference objects, DTMF, which change no call's state, and handlers that return or throw on a malformed header before they touch a call.
- Calls.CallList.UpdateCallState: raises no notifications, and so skips the tests that only avoid them.
- AudioDevices: the rescan itself; its result is a parameter. A missing device list ends the program and is left out.
- mod_fgi, whose tokenizer is a copy of esl2agi's, and all other modules of the repository.
