/** Every way to write a command line, and the arguments it stands for: words of bare and quoted pieces, with any
    character after a backslash, separated by blanks. */
module ArgLines {
  import opened ArgTokenizer

  // ---------------------------------------------------------------------------------------------
  // Writing
  // ---------------------------------------------------------------------------------------------

  /** A character as it is, or after a backslash. */
  datatype Letter = Plain(c: char) | Escaped(c: char)

  /** Letters outside or inside of quotes. */
  datatype Piece = Bare(letters: seq<Letter>) | Quoted(letters: seq<Letter>)

  /** Blanks, and the word after them. */
  datatype Word = Word(blanks: string, pieces: seq<Piece>)

  function Text(ls: seq<Letter>): string {
    if ls == [] then "" else Text(ls[..|ls| - 1]) + [ls[|ls| - 1].c]
  }

  function Written(ls: seq<Letter>): string {
    if ls == [] then ""
    else
      var last := ls[|ls| - 1];
      Written(ls[..|ls| - 1]) + (if last.Plain? then [last.c] else ['\\', last.c])
  }

  function PieceWritten(p: Piece): string {
    if p.Bare? then Written(p.letters) else "\"" + Written(p.letters) + "\""
  }

  function WordText(ps: seq<Piece>): string {
    if ps == [] then "" else WordText(ps[..|ps| - 1]) + Text(ps[|ps| - 1].letters)
  }

  function WordWritten(ps: seq<Piece>): string {
    if ps == [] then "" else WordWritten(ps[..|ps| - 1]) + PieceWritten(ps[|ps| - 1])
  }

  function LineTexts(ws: seq<Word>): seq<string> {
    if ws == [] then [] else LineTexts(ws[..|ws| - 1]) + [WordText(ws[|ws| - 1].pieces)]
  }

  function LineWritten(ws: seq<Word>): string {
    if ws == [] then ""
    else
      var last := ws[|ws| - 1];
      LineWritten(ws[..|ws| - 1]) + last.blanks + WordWritten(last.pieces)
  }

  predicate IsLetter(l: Letter, quoted: bool) {
    l.Plain? ==> l.c != '"' && l.c != '\\' && (quoted || (l.c != ' ' && l.c != '\t'))
  }

  predicate IsPiece(p: Piece) {
    forall i :: 0 <= i < |p.letters| ==> IsLetter(p.letters[i], p.Quoted?)
  }

  /** The word is there at all: empty quotes count, nothing does not. */
  predicate IsThere(ps: seq<Piece>) {
    exists i :: 0 <= i < |ps| && (ps[i].Quoted? || ps[i].letters != [])
  }

  predicate AreBlanks(s: string) {
    forall i :: 0 <= i < |s| ==> s[i] == ' ' || s[i] == '\t'
  }

  predicate IsLine(ws: seq<Word>) {
    forall i :: 0 <= i < |ws| ==>
      && AreBlanks(ws[i].blanks) && (i > 0 ==> ws[i].blanks != "")
      && IsThere(ws[i].pieces) && forall j :: 0 <= j < |ws[i].pieces| ==> IsPiece(ws[i].pieces[j])
  }

  // ---------------------------------------------------------------------------------------------
  // Reading
  // ---------------------------------------------------------------------------------------------

  function Extend(args: seq<string>, t: string): seq<string>
    requires args != []
  {
    args[..|args| - 1] + [args[|args| - 1] + t]
  }

  lemma {:induction false} ExtendTwice(args: seq<string>, t: string, u: string)
    requires args != []
    ensures Extend(Extend(args, t), u) == Extend(args, t + u) && Extend(args, "") == args
  {
    assert args[|args| - 1] + t + u == args[|args| - 1] + (t + u);
    assert args[|args| - 1] + "" == args[|args| - 1];
  }

  /** The scan once something was read into the current argument. */
  function Inside(args: seq<string>, space: bool, quote: bool, t: string): Scan
    requires !space ==> args != []
  {
    Scan(quote, false, false, Extend(Open(args, space), t))
  }

  lemma {:induction false} LetterFeeds(args: seq<string>, space: bool, quote: bool, l: Letter)
    requires (!space ==> args != []) && (space ==> !quote) && IsLetter(l, quote)
    ensures FeedAll(Scan(quote, false, space, args), if l.Plain? then [l.c] else ['\\', l.c])
         == Inside(args, space, quote, [l.c])
  {
    var s := Scan(quote, false, space, args);
    if l.Plain? {
      FeedAllOne(s, l.c);
    } else {
      FeedAllConcat(s, ['\\'], [l.c]);
      FeedAllOne(s, '\\');
      FeedAllOne(s.(escaped := true), l.c);
      assert ['\\'] + [l.c] == ['\\', l.c];
    }
  }

  lemma {:induction false} LettersFeed(args: seq<string>, space: bool, quote: bool, ls: seq<Letter>)
    requires (!space ==> args != []) && (space ==> !quote)
    requires forall i :: 0 <= i < |ls| ==> IsLetter(ls[i], quote)
    ensures var s := Scan(quote, false, space, args);
            FeedAll(s, Written(ls)) == if ls == [] then s else Inside(args, space, quote, Text(ls))
    decreases |ls|
  {
    hide Feed, IsLetter;
    if ls != [] {
      var s, n := Scan(quote, false, space, args), |ls| - 1;
      LettersFeed(args, space, quote, ls[..n]);
      FeedAllConcat(s, Written(ls[..n]), if ls[n].Plain? then [ls[n].c] else ['\\', ls[n].c]);
      if n == 0 {
        LetterFeeds(args, space, quote, ls[0]);
        assert ls[..0] == [] && "" + [ls[0].c] == [ls[0].c];
      } else {
        LetterFeeds(Extend(Open(args, space), Text(ls[..n])), false, quote, ls[n]);
        ExtendTwice(Open(args, space), Text(ls[..n]), [ls[n].c]);
      }
    }
  }

  /** One piece, at the beginning of a word or within it. */
  lemma {:induction false} PieceFeeds(args: seq<string>, space: bool, p: Piece)
    requires (!space ==> args != []) && IsPiece(p)
    ensures var s := Scan(false, false, space, args);
            FeedAll(s, PieceWritten(p))
            == if p.Bare? && p.letters == [] then s else Inside(args, space, false, Text(p.letters))
  {
    hide IsLetter;
    var s := Scan(false, false, space, args);
    if p.Bare? {
      LettersFeed(args, space, false, p.letters);
    } else {
      var open := Open(args, space);
      var inside := Scan(true, false, false, open);
      FeedAllConcat(s, "\"" + Written(p.letters), "\"");
      FeedAllConcat(s, "\"", Written(p.letters));
      FeedAllOne(s, '"');
      assert Feed(s, '"') == inside;
      LettersFeed(open, false, true, p.letters);
      ExtendTwice(open, "", "");
      var after := FeedAll(inside, Written(p.letters));
      assert after == Inside(open, false, true, Text(p.letters));
      FeedAllOne(after, '"');
    }
  }

  lemma {:induction false} WordFeeds(args: seq<string>, ps: seq<Piece>)
    requires forall j :: 0 <= j < |ps| ==> IsPiece(ps[j])
    ensures var s := Scan(false, false, true, args);
            FeedAll(s, WordWritten(ps)) == if IsThere(ps) then Scan(false, false, false, args + [WordText(ps)]) else s
    ensures !IsThere(ps) ==> WordText(ps) == ""
    decreases |ps|
  {
    hide Feed, IsPiece;
    if ps != [] {
      var s, n, rest := Scan(false, false, true, args), |ps| - 1, ps[..|ps| - 1];
      WordFeeds(args, rest);
      FeedAllConcat(s, WordWritten(rest), PieceWritten(ps[n]));
      assert IsThere(ps) <==> IsThere(rest) || ps[n].Quoted? || ps[n].letters != [] by { ThereIs(ps); }
      if IsThere(rest) {
        PieceFeeds(args + [WordText(rest)], false, ps[n]);
        Last(args, WordText(rest), Text(ps[n].letters));
      } else {
        PieceFeeds(args, true, ps[n]);
        Last(args, "", Text(ps[n].letters));
        assert WordText(rest) + Text(ps[n].letters) == Text(ps[n].letters);
      }
    }
  }

  lemma {:induction false} ThereIs(ps: seq<Piece>)
    requires ps != []
    ensures var n := |ps| - 1; IsThere(ps) <==> IsThere(ps[..n]) || ps[n].Quoted? || ps[n].letters != []
  {
    var n := |ps| - 1;
    assert forall i :: 0 <= i < n ==> ps[..n][i] == ps[i];
    if IsThere(ps) {
      var i :| 0 <= i < |ps| && (ps[i].Quoted? || ps[i].letters != []);
      assert i < n ==> ps[..n][i] == ps[i];
    }
  }

  lemma {:induction false} Last(args: seq<string>, t: string, u: string)
    ensures Extend(args + [t], u) == args + [t + u] && t + "" == t && "" + u == u
  {
  }

  /** Blanks end the word, and more of them change nothing. */
  lemma {:induction false} BlanksEnd(args: seq<string>, space: bool, blanks: string)
    requires (!space ==> args != []) && AreBlanks(blanks)
    ensures FeedAll(Scan(false, false, space, args), blanks) == Scan(false, false, space || blanks != "", args)
    decreases |blanks|
  {
    if blanks != "" {
      BlanksEnd(args, space, blanks[..|blanks| - 1]);
    }
  }

  lemma {:induction false} LineFeeds(ws: seq<Word>)
    requires IsLine(ws)
    ensures FeedAll(START, LineWritten(ws)) == Scan(false, false, ws == [], LineTexts(ws))
    decreases |ws|
  {
    hide Feed, IsPiece, IsThere, AreBlanks;
    if ws != [] {
      var n, rest, last := |ws| - 1, ws[..|ws| - 1], ws[|ws| - 1];
      LineFeeds(rest);
      FeedAllConcat(START, LineWritten(rest) + last.blanks, WordWritten(last.pieces));
      FeedAllConcat(START, LineWritten(rest), last.blanks);
      BlanksEnd(LineTexts(rest), rest == [], last.blanks);
      WordFeeds(LineTexts(rest), last.pieces);
    }
  }

  /** The main result: a line of words, each of bare and quoted pieces with any characters after backslashes, between any
      blanks, stands for the texts of its words. */
  lemma {:induction false} LinesAreRead(ws: seq<Word>, blanks: string)
    requires IsLine(ws) && AreBlanks(blanks)
    ensures Tokens(LineWritten(ws) + blanks) == LineTexts(ws)
  {
    hide Feed;
    LineFeeds(ws);
    FeedAllConcat(START, LineWritten(ws), blanks);
    BlanksEnd(LineTexts(ws), ws == [], blanks);
  }

  /** A quote left open at the end closes itself, and a backslash there is dropped. */
  lemma {:induction false} UnfinishedLines(ws: seq<Word>, blanks: string, letters: seq<Letter>)
    requires IsLine(ws) && AreBlanks(blanks) && (ws != [] ==> blanks != "")
    requires forall i :: 0 <= i < |letters| ==> IsLetter(letters[i], true)
    ensures Tokens(LineWritten(ws) + blanks + "\"" + Written(letters)) == LineTexts(ws) + [Text(letters)]
    ensures Tokens(LineWritten(ws) + blanks + "\\") == LineTexts(ws)
  {
    hide IsLetter;
    var line, args := LineWritten(ws) + blanks, LineTexts(ws);
    LineFeeds(ws);
    FeedAllConcat(START, LineWritten(ws), blanks);
    BlanksEnd(args, ws == [], blanks);
    var s := Scan(false, false, true, args);
    FeedAllConcat(START, line, "\\");
    FeedAllOne(s, '\\');
    FeedAllConcat(START, line + "\"", Written(letters));
    FeedAllConcat(START, line, "\"");
    FeedAllOne(s, '"');
    LettersFeed(args + [""], false, true, letters);
    Last(args, "", Text(letters));
  }

  // ---------------------------------------------------------------------------------------------
  // Two ways to write any arguments
  // ---------------------------------------------------------------------------------------------

  /** Every blank, quote and backslash after a backslash. */
  function Backslashed(arg: string): string {
    if arg == "" then ""
    else
      var c := arg[|arg| - 1];
      Backslashed(arg[..|arg| - 1]) + (if c == ' ' || c == '\t' || c == '"' || c == '\\' then ['\\', c] else [c])
  }

  function JoinBackslashed(args: seq<string>): string {
    if args == [] then ""
    else if |args| == 1 then Backslashed(args[0])
    else JoinBackslashed(args[..|args| - 1]) + " " + Backslashed(args[|args| - 1])
  }

  function Letters(arg: string): (ls: seq<Letter>)
    ensures |ls| == |arg| && forall i :: 0 <= i < |ls| ==> IsLetter(ls[i], false)
  {
    seq(|arg|, i requires 0 <= i < |arg| =>
      if arg[i] == ' ' || arg[i] == '\t' || arg[i] == '"' || arg[i] == '\\' then Escaped(arg[i]) else Plain(arg[i]))
  }

  lemma {:induction false} LettersAre(arg: string)
    ensures Text(Letters(arg)) == arg && Written(Letters(arg)) == Backslashed(arg)
    decreases |arg|
  {
    hide IsLetter;
    if arg != "" {
      var n := |arg| - 1;
      LettersAre(arg[..n]);
      assert Letters(arg)[..n] == Letters(arg[..n]);
      assert arg == arg[..n] + [arg[n]];
    }
  }

  lemma {:induction false} BackslashedFeeds(args: seq<string>, arg: string)
    requires arg != ""
    ensures FeedAll(Scan(false, false, true, args), Backslashed(arg)) == Scan(false, false, false, args + [arg])
  {
    hide IsLetter;
    LettersAre(arg);
    LettersFeed(args, true, false, Letters(arg));
    Last(args, "", arg);
  }

  /** Parsing undoes backslashing: any list of nonempty arguments comes back, in order. */
  lemma {:induction false} ParsingUndoesBackslashing(args: seq<string>)
    requires forall i :: 0 <= i < |args| ==> args[i] != ""
    ensures Tokens(JoinBackslashed(args)) == args
    ensures FeedAll(START, JoinBackslashed(args)) == Scan(false, false, args == [], args)
    decreases |args|
  {
    hide Feed, Backslashed;
    if |args| == 1 {
      BackslashedFeeds([], args[0]);
      assert [] + [args[0]] == args;
    } else if |args| > 1 {
      var rest, last := args[..|args| - 1], args[|args| - 1];
      ParsingUndoesBackslashing(rest);
      FeedAllConcat(START, JoinBackslashed(rest) + " ", Backslashed(last));
      FeedAllConcat(START, JoinBackslashed(rest), " ");
      BlanksEnd(rest, false, " ");
      BackslashedFeeds(rest, last);
      assert args == rest + [last];
    }
  }

  /** A bare word directly before or behind a quoted text is one argument with it. */
  lemma {:induction false} WordAndQuoteAreOne(word: string, text: string)
    requires IsPlain(word)
    ensures Tokens(word + Quote(text)) == [word + text] && Tokens(Quote(text) + word) == [text + word]
  {
    hide IsLetter, Feed, Quote, FeedAll, IsPiece;
    assert forall i :: 0 <= i < |word| ==> word[i] in word;
    PlainLetters(word);
    LettersAre(word);
    QuotedLettersAre(text);
    var p, q := Bare(Letters(word)), Quoted(QuotedLetters(text));
    assert IsPiece(p) && IsPiece(q) by { ArePieces(word, text); }
    TwoPieces(p, q);
    TwoPieces(q, p);
  }

  lemma {:induction false} ArePieces(word: string, text: string)
    ensures IsPiece(Bare(Letters(word))) && IsPiece(Quoted(QuotedLetters(text)))
  {
  }

  lemma {:induction false} TwoPieces(p: Piece, q: Piece)
    requires IsPiece(p) && IsPiece(q) && (p.Quoted? || q.Quoted?)
    ensures Tokens(PieceWritten(p) + PieceWritten(q)) == [Text(p.letters) + Text(q.letters)]
  {
    hide IsPiece, Text, PieceWritten, FeedAll;
    OnePiece(p);
    assert [p, q][..1] == [p];
    assert WordText([p, q]) == WordText([p]) + Text(q.letters);
    assert WordWritten([p, q]) == WordWritten([p]) + PieceWritten(q);
    assert IsThere([p, q]) by { assert [p, q][0].Quoted? || [p, q][1].Quoted?; }
    WordFeeds([], [p, q]);
    assert [] + [WordText([p, q])] == [WordText([p, q])];
  }

  lemma {:induction false} OnePiece(p: Piece)
    ensures WordText([p]) == Text(p.letters) && WordWritten([p]) == PieceWritten(p)
  {
    hide Text, PieceWritten;
    assert [p][..0] == [];
    assert WordText([]) == "" && WordWritten([]) == "";
    assert "" + Text(p.letters) == Text(p.letters) && "" + PieceWritten(p) == PieceWritten(p);
  }

  lemma {:induction false} PlainLetters(word: string)
    requires forall i :: 0 <= i < |word| ==> word[i] != '"' && word[i] != '\\' && !IsBlank(word[i])
    ensures Backslashed(word) == word
    decreases |word|
  {
    if word != "" {
      PlainLetters(word[..|word| - 1]);
      assert word == word[..|word| - 1] + [word[|word| - 1]];
    }
  }

  function QuotedLetters(text: string): (ls: seq<Letter>)
    ensures |ls| == |text| && forall i :: 0 <= i < |ls| ==> IsLetter(ls[i], true)
  {
    seq(|text|, i requires 0 <= i < |text| =>
      if text[i] == '"' || text[i] == '\\' then Escaped(text[i]) else Plain(text[i]))
  }

  lemma {:induction false} QuotedLettersAre(text: string)
    ensures Text(QuotedLetters(text)) == text && "\"" + Written(QuotedLetters(text)) + "\"" == Quote(text)
    decreases |text|
  {
    EscapedAre(text);
  }

  lemma {:induction false} EscapedAre(text: string)
    ensures Text(QuotedLetters(text)) == text && Written(QuotedLetters(text)) == Escape(text)
    decreases |text|
  {
    hide IsLetter;
    if text != "" {
      var n := |text| - 1;
      EscapedAre(text[..n]);
      assert QuotedLetters(text)[..n] == QuotedLetters(text[..n]);
      assert text == text[..n] + [text[n]];
    }
  }
}
