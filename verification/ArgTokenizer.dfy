/** Splitting a command line into arguments inside its own buffer: the loop that reads and overwrites one buffer
    computes a plain tokenizer, and quoting is undone by it. */
module ArgTokenizer {

  const NUL := '\0'

  // ---------------------------------------------------------------------------------------------
  // The tokenizer as a function
  // ---------------------------------------------------------------------------------------------

  /** Inside quotes; after a backslash; between arguments; and the arguments so far, the last one possibly open. */
  datatype Scan = Scan(quote: bool, escaped: bool, space: bool, args: seq<string>)

  const START := Scan(false, false, true, [])

  predicate IsBlank(c: char) {
    c == ' ' || c == '\t'
  }

  function Open(args: seq<string>, space: bool): (r: seq<string>)
    requires !space ==> args != []
    ensures r != []
  {
    if space then args + [""] else args
  }

  function AppendToLast(args: seq<string>, c: char): seq<string>
    requires args != []
  {
    args[..|args| - 1] + [args[|args| - 1] + [c]]
  }

  function Feed(s: Scan, c: char): (s': Scan)
    requires !s.space ==> s.args != []
    ensures !s'.space ==> s'.args != []
  {
    if c == '"' && !s.escaped then
      if !s.quote && s.space then Scan(true, false, false, Open(s.args, true)) else s.(quote := !s.quote)
    else if IsBlank(c) && !s.quote && !s.escaped then s.(space := true)
    else if c == '\\' && !s.escaped then s.(escaped := true)
    else Scan(s.quote, false, false, AppendToLast(Open(s.args, s.space), c))
  }

  function FeedAll(s: Scan, input: string): (s': Scan)
    requires !s.space ==> s.args != []
    ensures !s'.space ==> s'.args != []
  {
    if input == "" then s else Feed(FeedAll(s, input[..|input| - 1]), input[|input| - 1])
  }

  function Tokens(input: string): seq<string> {
    FeedAll(START, input).args
  }

  lemma {:induction false} FeedAllConcat(s: Scan, a: string, b: string)
    requires !s.space ==> s.args != []
    ensures FeedAll(s, a + b) == FeedAll(FeedAll(s, a), b)
    decreases |b|
  {
    hide Feed;
    if b == "" {
      assert a + b == a;
    } else {
      var n := |b| - 1;
      FeedAllConcat(s, a, b[..n]);
      FeedAllStep(s, a + b[..n], b[n]);
      FeedAllStep(FeedAll(s, a), b[..n], b[n]);
      assert a + b == a + b[..n] + [b[n]] && b == b[..n] + [b[n]];
    }
  }

  lemma {:induction false} FeedAllStep(s: Scan, a: string, c: char)
    requires !s.space ==> s.args != []
    ensures FeedAll(s, a + [c]) == Feed(FeedAll(s, a), c)
  {
    assert (a + [c])[..|a|] == a;
  }

  lemma {:induction false} FeedAllOne(s: Scan, c: char)
    requires !s.space ==> s.args != []
    ensures FeedAll(s, [c]) == Feed(s, c)
  {
    assert [c][..0] == "";
  }

  // ---------------------------------------------------------------------------------------------
  // The loop over the buffer
  // ---------------------------------------------------------------------------------------------

  /** `arg` is the C string at offset `p`. */
  ghost predicate IsCString(buf: seq<char>, p: nat, arg: string) {
    p + |arg| < |buf| && buf[p..p + |arg|] == arg && buf[p + |arg|] == NUL && NUL !in arg
  }

  /** The buffer holds the argument, with its end at or before the write position `w`. */
  ghost predicate IsStored(buf: seq<char>, w: nat, p: nat, arg: string, closed: bool) {
    && p + |arg| <= w <= |buf|
    && buf[p..p + |arg|] == arg && NUL !in arg
    && (closed ==> p + |arg| < w && buf[p + |arg|] == NUL)
    && (!closed ==> p + |arg| == w)
  }

  ghost predicate Stored(buf: seq<char>, w: nat, argv: seq<nat>, args: seq<string>, space: bool) {
    && |argv| == |args|
    && w <= |buf|
    && forall i :: 0 <= i < |argv| ==> IsStored(buf, w, argv[i], args[i], space || i < |argv| - 1)
  }

  /** An argument that is already stored stays when something is written at or behind the write position. */
  lemma {:induction false} StoredStays(buf: seq<char>, buf': seq<char>, w: nat, p: nat, arg: string)
    requires IsStored(buf, w, p, arg, true) && |buf'| == |buf| && w < |buf| && buf'[..w] == buf[..w]
    ensures IsStored(buf', w + 1, p, arg, true)
  {
    assert buf'[p..p + |arg|] == buf'[..w][p..p + |arg|] == buf[..w][p..p + |arg|];
    assert buf'[p + |arg|] == buf'[..w][p + |arg|];
  }

  /** A new, empty argument begins at the write position. */
  lemma {:induction false} StoreNew(buf: seq<char>, w: nat, argv: seq<nat>, args: seq<string>)
    requires Stored(buf, w, argv, args, true)
    ensures Stored(buf, w, argv + [w], args + [""], false)
  {
    assert buf[w..w] == "";
  }

  /** Writing the next character of the open argument. */
  lemma {:induction false} StoreCharacter(buf: seq<char>, w: nat, argv: seq<nat>, args: seq<string>, c: char)
    requires Stored(buf, w, argv, args, false) && w < |buf| && c != NUL && args != []
    ensures Stored(buf[w := c], w + 1, argv, AppendToLast(args, c), false)
  {
    var args' := AppendToLast(args, c);
    var buf' := buf[w := c];
    forall i | 0 <= i < |argv|
      ensures IsStored(buf', w + 1, argv[i], args'[i], i < |argv| - 1)
    {
      if i < |argv| - 1 {
        StoredStays(buf, buf', w, argv[i], args[i]);
      } else {
        assert buf'[argv[i]..w + 1] == buf[argv[i]..w] + [c];
      }
    }
  }

  /** Writing the end mark behind the open argument, or another one between arguments. */
  lemma {:induction false} StoreEnd(buf: seq<char>, w: nat, argv: seq<nat>, args: seq<string>, space: bool)
    requires Stored(buf, w, argv, args, space) && w < |buf|
    ensures Stored(buf[w := NUL], w + 1, argv, args, true)
  {
    var buf' := buf[w := NUL];
    forall i | 0 <= i < |argv|
      ensures IsStored(buf', w + 1, argv[i], args[i], true)
    {
      if space || i < |argv| - 1 {
        StoredStays(buf, buf', w, argv[i], args[i]);
      } else {
        assert buf'[argv[i]..w] == buf[argv[i]..w];
      }
    }
  }

  lemma {:induction false} StoredAreCStrings(buf: seq<char>, w: nat, argv: seq<nat>, args: seq<string>)
    requires Stored(buf, w, argv, args, true)
    ensures |argv| == |args| && forall i :: 0 <= i < |argv| ==> IsCString(buf, argv[i], args[i])
  {
  }

  /** parse_args: the string in `buf`, up to its first NUL at `n`, becomes the strings that `argv` points to. */
  method ParseArgs(buf: array<char>, ghost n: nat) returns (argv: seq<nat>)
    requires n < buf.Length && buf[n] == NUL && forall i :: 0 <= i < n ==> buf[i] != NUL
    modifies buf
    ensures var args := Tokens(old(buf[..n]));
            |argv| == |args| && forall i :: 0 <= i < |argv| ==> IsCString(buf[..], argv[i], args[i])
    ensures 2 * |argv| <= n + 1
    ensures forall i :: n < i < buf.Length ==> buf[i] == old(buf[i])
  {
    hide Stored, IsStored, IsCString, AppendToLast;
    ghost var input := buf[..n];
    ghost var scan := START;
    argv := [];
    var r, w := 0, 0;
    var quote, escaped, space := false, false, true;
    NothingStored(buf[..]);
    while buf[r] != NUL
      invariant 0 <= w <= r <= n
      invariant forall i :: r <= i < buf.Length ==> buf[i] == old(buf[i])
      invariant scan == FeedAll(START, input[..r]) && (!space ==> scan.args != [])
      invariant scan.quote == quote && scan.escaped == escaped && scan.space == space
      invariant Stored(buf[..], w, argv, scan.args, space)
      invariant 2 * |argv| <= r + if space then 0 else 1
      decreases n - r
    {
      var c := buf[r];
      assert input[..r + 1] == input[..r] + [c];
      FeedAllStep(START, input[..r], c);
      ghost var before := buf[..];
      if c == '"' && !escaped {
        quote := !quote;
        if quote && space {
          StoreNew(before, w, argv, scan.args);
          argv := argv + [w];
          space := false;
        }
        escaped := false;
      } else if (c == ' ' || c == '\t') && !quote && !escaped {
        StoreEnd(before, w, argv, scan.args, space);
        space := true;
        buf[w] := NUL;
        assert buf[..] == before[w := NUL];
        w := w + 1;
      } else if c == '\\' && !escaped {
        escaped := true;
      } else {
        ghost var args := Open(scan.args, space);
        if space {
          StoreNew(before, w, argv, scan.args);
          argv := argv + [w];
          space := false;
        }
        StoreCharacter(before, w, argv, args, c);
        buf[w] := c;
        assert buf[..] == before[w := c];
        w := w + 1;
        escaped := false;
      }
      scan := Feed(scan, c);
      r := r + 1;
    }
    assert input[..r] == input;
    StoreEnd(buf[..], w, argv, scan.args, space);
    ghost var last := buf[..];
    buf[w] := NUL;
    assert buf[..] == last[w := NUL];
    StoredAreCStrings(buf[..], w + 1, argv, scan.args);
  }

  lemma {:induction false} NothingStored(buf: seq<char>)
    ensures Stored(buf, 0, [], [], true)
  {
  }

  // ---------------------------------------------------------------------------------------------
  // Quoting and back
  // ---------------------------------------------------------------------------------------------

  function Escape(arg: string): string {
    if arg == "" then ""
    else
      var c := arg[|arg| - 1];
      Escape(arg[..|arg| - 1]) + if c == '"' || c == '\\' then ['\\', c] else [c]
  }

  function Quote(arg: string): string {
    "\"" + Escape(arg) + "\""
  }

  function Join(args: seq<string>): string {
    if args == [] then ""
    else if |args| == 1 then Quote(args[0])
    else Join(args[..|args| - 1]) + " " + Quote(args[|args| - 1])
  }

  /** Inside quotes, an escaped text is appended to the open argument as it was. */
  lemma {:induction false} EscapeFeeds(args: seq<string>, arg: string)
    ensures FeedAll(Scan(true, false, false, args + [""]), Escape(arg)) == Scan(true, false, false, args + [arg])
    decreases |arg|
  {
    var s := Scan(true, false, false, args + [""]);
    if arg != "" {
      var n := |arg| - 1;
      var c := arg[n];
      EscapeFeeds(args, arg[..n]);
      var s' := Scan(true, false, false, args + [arg[..n]]);
      assert arg == arg[..n] + [c];
      assert AppendToLast(args + [arg[..n]], c) == args + [arg];
      if c == '"' || c == '\\' {
        FeedAllConcat(s, Escape(arg[..n]), ['\\', c]);
        FeedAllConcat(s', ['\\'], [c]);
        FeedAllOne(s', '\\');
        FeedAllOne(s'.(escaped := true), c);
        assert ['\\'] + [c] == ['\\', c];
      } else {
        FeedAllConcat(s, Escape(arg[..n]), [c]);
        FeedAllOne(s', c);
      }
    }
  }

  lemma {:induction false} QuoteFeeds(args: seq<string>, arg: string)
    ensures FeedAll(Scan(false, false, true, args), Quote(arg)) == Scan(false, false, false, args + [arg])
  {
    var s := Scan(false, false, true, args);
    FeedAllConcat(s, "\"" + Escape(arg), "\"");
    FeedAllConcat(s, "\"", Escape(arg));
    FeedAllOne(s, '"');
    EscapeFeeds(args, arg);
    FeedAllOne(Scan(true, false, false, args + [arg]), '"');
  }

  /** Parsing undoes quoting: any list of arguments comes back, in order. */
  lemma {:induction false} ParsingUndoesQuoting(args: seq<string>)
    ensures Tokens(Join(args)) == args
    ensures args != [] ==> FeedAll(START, Join(args)) == Scan(false, false, false, args)
    decreases |args|
  {
    hide Feed, Quote;
    if |args| == 1 {
      QuoteFeeds([], args[0]);
      assert [] + [args[0]] == args;
    } else if |args| > 1 {
      var rest, last := args[..|args| - 1], args[|args| - 1];
      ParsingUndoesQuoting(rest);
      FeedAllConcat(START, Join(rest) + " ", Quote(last));
      FeedAllConcat(START, Join(rest), " ");
      FeedAllOne(Scan(false, false, false, rest), ' ');
      BlankEnds(rest);
      QuoteFeeds(rest, last);
      assert args == rest + [last];
    }
  }

  lemma {:induction false} BlankEnds(args: seq<string>)
    requires args != []
    ensures Feed(Scan(false, false, false, args), ' ') == Scan(false, false, true, args)
  {
  }

  /** Quoting keeps a list of C strings a C string, so the buffer version undoes it as well. */
  lemma {:induction false} QuotingAddsNoNul(args: seq<string>)
    requires forall a :: a in args ==> NUL !in a
    ensures NUL !in Join(args)
    decreases |args|
  {
    if args != [] {
      var rest, last := args[..|args| - 1], args[|args| - 1];
      QuotingAddsNoNul(rest);
      EscapingAddsNoNul(last);
      EscapingAddsNoNul(args[0]);
    }
  }

  lemma {:induction false} EscapingAddsNoNul(arg: string)
    requires NUL !in arg
    ensures NUL !in Escape(arg)
    decreases |arg|
  {
    if arg != "" {
      EscapingAddsNoNul(arg[..|arg| - 1]);
    }
  }

  /** parse_args on a quoted list: `argv` points to the list's own strings. */
  method ParseQuoted(args: seq<string>, buf: array<char>) returns (argv: seq<nat>)
    requires forall a :: a in args ==> NUL !in a
    requires |Join(args)| < buf.Length && buf[..|Join(args)| + 1] == Join(args) + [NUL]
    modifies buf
    ensures |argv| == |args| && forall i :: 0 <= i < |argv| ==> IsCString(buf[..], argv[i], args[i])
  {
    hide Join, Quote, FeedAll, IsCString;
    QuotingAddsNoNul(args);
    ParsingUndoesQuoting(args);
    BufferHolds(buf[..], Join(args));
    argv := ParseArgs(buf, |Join(args)|);
  }

  lemma {:induction false} BufferHolds(buf: seq<char>, line: string)
    requires |line| < |buf| && buf[..|line| + 1] == line + [NUL] && NUL !in line
    ensures buf[..|line|] == line && buf[|line|] == NUL && forall i :: 0 <= i < |line| ==> buf[i] != NUL
  {
    assert buf[|line|] == buf[..|line| + 1][|line|];
    forall i | 0 <= i < |line| ensures buf[i] == line[i] && line[i] in line {
      assert buf[i] == buf[..|line| + 1][i];
    }
  }

  // ---------------------------------------------------------------------------------------------
  // Plain words
  // ---------------------------------------------------------------------------------------------

  /** Without quotes, backslashes and blanks. */
  predicate IsPlain(word: string) {
    word != "" && forall c :: c in word ==> c != '"' && c != '\\' && !IsBlank(c)
  }

  lemma {:induction false} PlainFeeds(args: seq<string>, word: string)
    requires IsPlain(word)
    ensures FeedAll(Scan(false, false, true, args), word) == Scan(false, false, false, args + [word])
    decreases |word|
  {
    var s := Scan(false, false, true, args);
    var n := |word| - 1;
    assert word[n] in word;
    if n == 0 {
      assert word[..0] == "" && word == [word[0]];
      assert (args + [""])[..|args|] == args && "" + [word[0]] == word;
    } else {
      assert forall c :: c in word[..n] ==> c in word;
      PlainFeeds(args, word[..n]);
      assert word == word[..n] + [word[n]];
      assert (args + [word[..n]])[..|args|] == args;
    }
  }

  lemma {:induction false} BlanksFeed(s: Scan, blanks: string)
    requires !s.quote && !s.escaped && (!s.space ==> s.args != []) && forall c :: c in blanks ==> IsBlank(c)
    ensures FeedAll(s, blanks) == if blanks == "" then s else s.(space := true)
    decreases |blanks|
  {
    if blanks != "" {
      var n := |blanks| - 1;
      assert blanks[n] in blanks;
      assert forall c :: c in blanks[..n] ==> c in blanks;
      BlanksFeed(s, blanks[..n]);
    }
  }

  /** A plain word is one argument, however many blanks surround it, and what was read before stays. */
  lemma {:induction false} PlainWordIsOneArgument(input: string, blanks: string, word: string, more: string)
    requires IsPlain(word) && blanks != "" && (forall c :: c in blanks + more ==> IsBlank(c))
    requires var s := FeedAll(START, input); !s.quote && !s.escaped
    ensures Tokens(input + blanks + word + more) == Tokens(input) + [word]
  {
    var s := FeedAll(START, input);
    assert forall c :: c in blanks ==> c in blanks + more;
    assert forall c :: c in more ==> c in blanks + more;
    FeedAllConcat(START, input + blanks + word, more);
    FeedAllConcat(START, input + blanks, word);
    FeedAllConcat(START, input, blanks);
    BlanksFeed(s, blanks);
    PlainFeeds(s.args, word);
    BlanksFeed(Scan(false, false, false, s.args + [word]), more);
  }

  // ---------------------------------------------------------------------------------------------
  // The vector of arguments
  // ---------------------------------------------------------------------------------------------

  lemma {:induction false} AtMostHalf(input: string)
    ensures var s := FeedAll(START, input); 2 * |s.args| <= |input| + if s.space then 0 else 1
    decreases |input|
  {
    if input != "" {
      AtMostHalf(input[..|input| - 1]);
    }
  }

  /** As many arguments as n characters can hold: one letter and one blank each. */
  function Widest(n: nat): (s: string)
    ensures |s| == n
  {
    if n == 0 then "" else Widest(n - 1) + [if n % 2 == 1 then 'a' else ' ']
  }

  lemma {:induction false} NothingFed()
    ensures FeedAll(START, "") == START
  {
  }

  lemma {:induction false} WidestIs(n: nat)
    ensures NUL !in Widest(n)
    ensures var s := FeedAll(START, Widest(n));
            !s.quote && !s.escaped && |s.args| == (n + 1) / 2 && s.space == (n % 2 == 0)
  {
    hide FeedAll;
    assert FeedAll(START, "") == START by { NothingFed(); }
    if n > 0 {
      WidestIs(n - 1);
      FeedAllStep(START, Widest(n - 1), if n % 2 == 1 then 'a' else ' ');
    }
  }

  /** The source has a fixed number of slots, one of them for the NULL behind the last argument, and does not check it:
      commands of length n always fit exactly if (n + 1) / 2 arguments do. */
  lemma {:induction false} SlotsSufficeExactly(n: nat, slots: nat)
    ensures (forall input: string :: |input| == n && NUL !in input ==> |Tokens(input)| < slots) <==> (n + 1) / 2 < slots
  {
    hide FeedAll, Widest;
    WidestIs(n);
    assert |Tokens(Widest(n))| == (n + 1) / 2;
    forall input: string | |input| == n ensures |Tokens(input)| <= (n + 1) / 2 {
      AtMostHalf(input);
    }
  }
}
