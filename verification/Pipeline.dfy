/** The shell line: quote-aware splitting into stages, grouping of neighbouring external
    stages, and their re-joining for `sh -c`. */
module Pipeline {
  import opened Text
  import Seqs

  // ---------- Splitting ----------

  /** Where the scanner is: inside which quotes, and whether a backslash is pending. */
  datatype Quote = Quote(single: bool, double: bool, escaped: bool)

  const PLAIN := Quote(false, false, false)

  function Next(q: Quote, c: char): Quote {
    if q.escaped then q.(escaped := false)
    else if c == '\\' then q.(escaped := true)
    else if c == '\'' && !q.double then q.(single := !q.single)
    else if c == '"' && !q.single then q.(double := !q.double)
    else q
  }

  /** The delimiter counts only outside quotes and escapes. */
  predicate Cuts(q: Quote, c: char, delim: char) {
    q == PLAIN && c == delim && c != '\\' && c != '\'' && c != '"'
  }

  /** The untrimmed pieces of the rest of a line, the first of which began with `current`. */
  function Pieces(rest: string, q: Quote, current: string, delim: char): (pieces: seq<string>)
    ensures pieces != []
  {
    if rest == "" then [current]
    else if Cuts(q, rest[0], delim) then [current] + Pieces(rest[1..], q, "", delim)
    else Pieces(rest[1..], Next(q, rest[0]), current + [rest[0]], delim)
  }

  function TrimAll(pieces: seq<string>): seq<string> {
    seq(|pieces|, i requires 0 <= i < |pieces| => Trim(pieces[i]))
  }

  /** The pieces trimmed; a blank last piece is no stage. */
  function Stages(pieces: seq<string>): seq<string> {
    if pieces != [] && Trim(pieces[|pieces| - 1]) == "" then TrimAll(pieces[..|pieces| - 1]) else TrimAll(pieces)
  }

  function Split(line: string, delim: char): seq<string> {
    Stages(Pieces(line, PLAIN, "", delim))
  }

  method SplitOnDelim(line: string, delim: char) returns (stages: seq<string>)
    ensures stages == Split(line, delim)
  {
    stages := [];
    var current := "";
    var single, double, escaped := false, false, false;
    ghost var done: seq<string> := [];
    ghost var rest := line;
    for i := 0 to |line|
      invariant rest == line[i..]
      invariant stages == TrimAll(done)
      invariant Pieces(line, PLAIN, "", delim) == done + Pieces(rest, Quote(single, double, escaped), current, delim)
    {
      var c := line[i];
      rest := rest[1..];
      if escaped {
        current := current + [c];
        escaped := false;
        continue;
      }
      if c == '\\' {
        escaped := true;
        current := current + [c];
      } else if c == '\'' && !double {
        single := !single;
        current := current + [c];
      } else if c == '"' && !single {
        double := !double;
        current := current + [c];
      } else if c == delim && !single && !double {
        stages := stages + [Trim(current)];
        done := done + [current];
        current := "";
      } else {
        current := current + [c];
      }
    }
    assert Pieces(line, PLAIN, "", delim) == done + [current];
    assert (done + [current])[..|done|] == done;
    var last := Trim(current);
    if last != "" {
      stages := stages + [last];
    }
  }

  // ---------- What the pieces are ----------

  /** The scanner's state after reading `s`. */
  function Scan(s: string, q: Quote): Quote {
    if s == "" then q else Scan(s[1..], Next(q, s[0]))
  }

  /** Reading `s` from `q` meets no delimiter that counts. */
  predicate Uncut(s: string, q: Quote, delim: char) {
    s == "" || (!Cuts(q, s[0], delim) && Uncut(s[1..], Next(q, s[0]), delim))
  }

  lemma {:induction false} ScanConcat(a: string, b: string, q: Quote, delim: char)
    ensures Scan(a + b, q) == Scan(b, Scan(a, q))
    ensures Uncut(a + b, q, delim) <==> Uncut(a, q, delim) && Uncut(b, Scan(a, q), delim)
  {
    if a == "" {
      assert a + b == b;
    } else {
      assert (a + b)[1..] == a[1..] + b;
      ScanConcat(a[1..], b, Next(q, a[0]), delim);
    }
  }

  /** A piece is read without a cut; one that a delimiter ends leaves no quote open. */
  predicate Whole(piece: string, delim: char) {
    Uncut(piece, PLAIN, delim)
  }

  predicate Closed(piece: string, delim: char) {
    Whole(piece, delim) && Scan(piece, PLAIN) == PLAIN
  }

  /** Nothing of the line is lost: the pieces, joined by the delimiter, are the line; and
      every piece but the last is closed. */
  lemma {:induction false} PiecesOfLine(rest: string, q: Quote, current: string, delim: char)
    requires Whole(current, delim) && Scan(current, PLAIN) == q
    ensures var pieces := Pieces(rest, q, current, delim);
            && Join(pieces, [delim]) == current + rest
            && (forall i | 0 <= i < |pieces| - 1 :: Closed(pieces[i], delim))
            && Whole(pieces[|pieces| - 1], delim)
    decreases |rest|
  {
    if rest != "" {
      if Cuts(q, rest[0], delim) {
        PiecesOfLine(rest[1..], q, "", delim);
        var tail := Pieces(rest[1..], q, "", delim);
        assert ([current] + tail)[1..] == tail;
        assert current + rest == current + [delim] + rest[1..];
      } else {
        ScanConcat(current, [rest[0]], PLAIN, delim);
        assert [rest[0]][1..] == "";
        PiecesOfLine(rest[1..], Next(q, rest[0]), current + [rest[0]], delim);
        assert current + rest == current + [rest[0]] + rest[1..];
      }
    }
  }

  // ---------- Trimming and re-joining ----------

  lemma {:induction false} ScanSpaces(s: string, q: Quote, delim: char)
    requires AllSpace(s) && !IsSpace(delim)
    ensures Uncut(s, q, delim) && Scan(s, q) == if s == "" then q else q.(escaped := false)
  {
    if s != "" {
      ScanSpaces(s[1..], Next(q, s[0]), delim);
    }
  }

  /** A trimmed piece stays in one piece; a closed one is closed again by a space after it,
      even when trimming cut off a space that was escaped. */
  lemma TrimKeepsPiece(piece: string, delim: char)
    requires Whole(piece, delim) && !IsSpace(delim)
    ensures Whole(" " + Trim(piece), delim) && Whole(Trim(piece), delim)
    ensures Closed(piece, delim) ==> Closed(Trim(piece) + " ", delim) && Closed(" " + Trim(piece) + " ", delim)
  {
    var left, right := TrimSplits(piece);
    var t := Trim(piece);
    ScanConcat(left + t, right, PLAIN, delim);
    ScanConcat(left, t, PLAIN, delim);
    ScanSpaces(left, PLAIN, delim);
    ScanSpaces(right, Scan(t, PLAIN), delim);
    ScanSpaces(" ", PLAIN, delim);
    ScanSpaces(" ", Scan(t, PLAIN), delim);
    ScanConcat(" ", t, PLAIN, delim);
    ScanConcat(t, " ", PLAIN, delim);
    ScanConcat(" " + t, " ", PLAIN, delim);
  }

  /** Reading a piece that is not cut only adds to the current one. */
  lemma {:induction false} ReadPiece(a: string, b: string, q: Quote, current: string, delim: char)
    requires Uncut(a, q, delim)
    ensures Pieces(a + b, q, current, delim) == Pieces(b, Scan(a, q), current + a, delim)
    decreases |a|
  {
    if a == "" {
      assert a + b == b && current + a == current;
    } else {
      assert (a + b)[1..] == a[1..] + b;
      ReadPiece(a[1..], b, Next(q, a[0]), current + [a[0]], delim);
      assert current + [a[0]] + a[1..] == current + a;
    }
  }

  function Spaced(delim: char): string {
    [' ', delim, ' ']
  }

  lemma TrimIsTrimmed(s: string)
    ensures Trimmed(Trim(s))
  {
    var left, right := TrimSplits(s);
  }

  ghost predicate Ordinary(delim: char) {
    !IsSpace(delim) && delim != '\\' && delim != '\'' && delim != '"'
  }

  lemma OnlyPiece(s: string, delim: char)
    requires Whole(s, delim)
    ensures Pieces(s, PLAIN, "", delim) == [s]
  {
    ReadPiece(s, "", PLAIN, "", delim);
    assert s + "" == s && "" + s == s;
  }

  lemma FirstPiece(first: string, tail: string, delim: char)
    requires Closed(first, delim) && Ordinary(delim)
    ensures Pieces(first + ([delim] + tail), PLAIN, "", delim) == [first] + Pieces(tail, PLAIN, "", delim)
  {
    ReadPiece(first, [delim] + tail, PLAIN, "", delim);
    assert ([delim] + tail)[1..] == tail && "" + first == first;
  }

  lemma TrimAllCons(a: string, rest: seq<string>)
    ensures TrimAll([a] + rest) == [Trim(a)] + TrimAll(rest)
  {
  }

  /** What splitting makes of trimmed stages joined with spaces round the delimiter, the
      first of them read after `before`. */
  lemma {:induction false} ResplitFrom(before: string, pieces: seq<string>, delim: char)
    requires pieces != [] && Ordinary(delim) && (before == "" || before == " ")
    requires forall i | 0 <= i < |pieces| - 1 :: Closed(pieces[i], delim)
    requires Whole(pieces[|pieces| - 1], delim)
    ensures TrimAll(Pieces(before + Join(TrimAll(pieces), Spaced(delim)), PLAIN, "", delim)) == TrimAll(pieces)
    decreases |pieces|
  {
    TrimAllCons(pieces[0], pieces[1..]);
    assert pieces == [pieces[0]] + pieces[1..];
    if |pieces| == 1 {
      ResplitOne(before, pieces[0], delim);
      assert TrimAll(pieces) == [Trim(pieces[0])];
    } else {
      var t, rest := Trim(pieces[0]), TrimAll(pieces[1..]);
      var tail := " " + Join(rest, Spaced(delim));
      JoinSpaced(before, t, rest, delim);
      ResplitFirst(before, pieces[0], tail, delim);
      ResplitFrom(" ", pieces[1..], delim);
    }
  }

  lemma ResplitOne(before: string, piece: string, delim: char)
    requires Ordinary(delim) && (before == "" || before == " ") && Whole(piece, delim)
    ensures TrimAll(Pieces(before + Trim(piece), PLAIN, "", delim)) == [Trim(piece)]
  {
    var t := Trim(piece);
    TrimKeepsPiece(piece, delim);
    TrimIsTrimmed(piece);
    assert before == "" ==> before + t == t;
    OnlyPiece(before + t, delim);
    TrimOf(before, t, "");
    assert before + t + "" == before + t;
  }

  lemma ResplitFirst(before: string, piece: string, tail: string, delim: char)
    requires Ordinary(delim) && (before == "" || before == " ") && Closed(piece, delim)
    ensures TrimAll(Pieces(before + Trim(piece) + " " + ([delim] + tail), PLAIN, "", delim))
            == [Trim(piece)] + TrimAll(Pieces(tail, PLAIN, "", delim))
  {
    var t := Trim(piece);
    var first := before + t + " ";
    TrimKeepsPiece(piece, delim);
    TrimIsTrimmed(piece);
    assert before == "" ==> first == t + " ";
    FirstPiece(first, tail, delim);
    TrimOf(before, t, " ");
    TrimAllCons(first, Pieces(tail, PLAIN, "", delim));
  }

  lemma JoinSpaced(before: string, t: string, rest: seq<string>, delim: char)
    requires rest != []
    ensures before + Join([t] + rest, Spaced(delim)) == before + t + " " + ([delim] + (" " + Join(rest, Spaced(delim))))
  {
    assert ([t] + rest)[1..] == rest;
    assert Spaced(delim) == " " + [delim] + " ";
  }

  /** A run of stages comes from a run of pieces, all closed but perhaps the last. */
  lemma RunOfPieces(line: string, from: nat, to: nat, delim: char) returns (some: seq<string>)
    requires from < to <= |Split(line, delim)|
    ensures some != [] && TrimAll(some) == Split(line, delim)[from..to]
    ensures forall i | 0 <= i < |some| - 1 :: Closed(some[i], delim)
    ensures Whole(some[|some| - 1], delim)
  {
    var pieces := Pieces(line, PLAIN, "", delim);
    PiecesOfLine(line, PLAIN, "", delim);
    some := pieces[from..to];
    SliceTrimmed(pieces, from, to);
    SliceTrimmed(pieces, 0, |pieces| - 1);
    assert some[|some| - 1] == pieces[to - 1];
    forall i | 0 <= i < |some| - 1
      ensures Closed(some[i], delim)
    {
      assert some[i] == pieces[from + i];
    }
    assert TrimAll(pieces)[..|pieces| - 1] == TrimAll(pieces[..|pieces| - 1]);
  }

  lemma SliceTrimmed(pieces: seq<string>, from: nat, to: nat)
    requires from <= to <= |pieces|
    ensures TrimAll(pieces)[from..to] == TrimAll(pieces[from..to])
    ensures TrimAll(pieces)[..to][from..] == TrimAll(pieces)[from..to]
  {
    forall k | 0 <= k < to - from
      ensures TrimAll(pieces)[from..to][k] == TrimAll(pieces[from..to])[k]
    {
      assert pieces[from..to][k] == pieces[from + k];
    }
  }

  lemma ResplitPieces(some: seq<string>, delim: char)
    requires some != [] && Ordinary(delim)
    requires forall i | 0 <= i < |some| - 1 :: Closed(some[i], delim)
    requires Whole(some[|some| - 1], delim)
    ensures var run := TrimAll(some);
            Split(Join(run, Spaced(delim)), delim) == if run[|run| - 1] == "" then run[..|run| - 1] else run
  {
    var joined := Join(TrimAll(some), Spaced(delim));
    ResplitFrom("", some, delim);
    Seqs.Empty(joined);
    StagesOfTrimmed(Pieces(joined, PLAIN, "", delim), TrimAll(some));
  }

  /** The re-split law: take any run of stages of any line, join them with the delimiter
      between spaces and split again. All come back, except that an empty last stage is
      dropped. */
  lemma Resplit(line: string, from: nat, to: nat, delim: char)
    requires Ordinary(delim)
    requires from < to <= |Split(line, delim)|
    ensures var run := Split(line, delim)[from..to];
            Split(Join(run, Spaced(delim)), delim) == if run[|run| - 1] == "" then run[..|run| - 1] else run
  {
    var some := RunOfPieces(line, from, to, delim);
    ResplitPieces(some, delim);
  }

  lemma StagesOfTrimmed(pieces: seq<string>, run: seq<string>)
    requires TrimAll(pieces) == run && run != []
    ensures Stages(pieces) == if run[|run| - 1] == "" then run[..|run| - 1] else run
  {
    assert TrimAll(pieces)[|run| - 1] == Trim(pieces[|pieces| - 1]);
    assert TrimAll(pieces[..|pieces| - 1]) == run[..|run| - 1];
  }

  // ---------- Quotes and escapes, told by characters ----------

  predicate IsQuote(c: char) {
    c == '\'' || c == '"'
  }

  /** No quote, backslash or delimiter. */
  predicate Bare(s: string, delim: char) {
    forall i | 0 <= i < |s| :: !IsQuote(s[i]) && s[i] != '\\' && s[i] != delim
  }

  /** What may stand between two quotes: characters other than that quote and backslashes, and
      backslashes with any character after them. */
  predicate Quotable(t: string, quote: char) {
    t == ""
    || (t[0] == '\\' && |t| > 1 && Quotable(t[2..], quote))
    || (t[0] != '\\' && t[0] != quote && Quotable(t[1..], quote))
  }

  /** The shell's words: bare characters, backslashes with any character after them, and
      stretches between two quotes of a kind. */
  ghost predicate Word(s: string, delim: char) {
    s == ""
    || (s[0] == '\\' && |s| > 1 && Word(s[2..], delim))
    || (IsQuote(s[0]) && exists k :: ClosesAt(s, k) && Word(s[k + 1..], delim))
    || (Bare(s[..1], delim) && Word(s[1..], delim))
  }

  /** The quote that `s` starts with is closed at `k`. */
  predicate ClosesAt(s: string, k: int) {
    0 < k < |s| && s[k] == s[0] && Quotable(s[1..k], s[0])
  }

  function Inside(quote: char): Quote {
    Quote(quote == '\'', quote == '"', false)
  }

  lemma {:induction false} ReadsQuotable(t: string, quote: char, delim: char)
    requires IsQuote(quote) && Quotable(t, quote)
    ensures Uncut(t, Inside(quote), delim) && Scan(t, Inside(quote)) == Inside(quote)
    decreases |t|
  {
    if t != "" {
      if t[0] == '\\' {
        assert t[1..][1..] == t[2..];
        ReadsQuotable(t[2..], quote, delim);
      } else {
        ReadsQuotable(t[1..], quote, delim);
      }
    }
  }

  /** A quote that is closed again is closed at some place. */
  lemma {:induction false} FindsClosing(t: string, quote: char) returns (k: nat)
    requires IsQuote(quote) && Scan(t, Inside(quote)) == PLAIN
    ensures k < |t| && t[k] == quote && Quotable(t[..k], quote) && Scan(t[k + 1..], PLAIN) == PLAIN
    decreases |t|
  {
    if t[0] == quote {
      k := 0;
    } else if t[0] == '\\' {
      assert |t| > 1 && t[1..][1..] == t[2..];
      var later := FindsClosing(t[2..], quote);
      k := later + 2;
      assert t[..k][2..] == t[2..][..later] && t[k + 1..] == t[2..][later + 1..];
    } else {
      var later := FindsClosing(t[1..], quote);
      k := later + 1;
      assert t[..k][1..] == t[1..][..later] && t[k + 1..] == t[1..][later + 1..];
    }
  }

  lemma QuotedIsClosed(s: string, k: nat, delim: char)
    requires s != "" && IsQuote(s[0]) && ClosesAt(s, k)
    ensures Closed(s, delim) <==> Closed(s[k + 1..], delim)
  {
    var t, rest := s[1..k], s[k + 1..];
    ReadsQuotable(t, s[0], delim);
    assert s[1..] == t + ([s[0]] + rest);
    ScanConcat(t, [s[0]] + rest, Inside(s[0]), delim);
    assert ([s[0]] + rest)[1..] == rest;
  }

  lemma EscapeIsRead(s: string, delim: char)
    requires |s| > 1 && s[0] == '\\'
    ensures Closed(s, delim) <==> Closed(s[2..], delim)
  {
    var pending := Quote(false, false, true);
    assert s[1..][1..] == s[2..] && s[1..][0] == s[1];
    assert Scan(s[1..], pending) == Scan(s[2..], PLAIN);
    assert Uncut(s[1..], pending, delim) <==> Uncut(s[2..], PLAIN, delim);
  }

  /** What the scanner reads as one closed piece is a word, and nothing else is. */
  lemma {:induction false} ClosedIffWord(s: string, delim: char)
    ensures Closed(s, delim) <==> Word(s, delim)
    decreases |s|
  {
    if s != "" {
      if s[0] == '\\' {
        if |s| > 1 {
          EscapeIsRead(s, delim);
          ClosedIffWord(s[2..], delim);
        } else {
          assert s[1..] == "" && Scan(s[1..], Quote(false, false, true)) != PLAIN;
        }
      } else if IsQuote(s[0]) {
        QuotedIffWord(s, delim);
      } else {
        ClosedIffWord(s[1..], delim);
      }
    }
  }

  lemma {:induction false} QuotedIffWord(s: string, delim: char)
    requires s != "" && IsQuote(s[0])
    ensures Closed(s, delim) <==> Word(s, delim)
    decreases |s|, 0
  {
    forall k | ClosesAt(s, k)
      ensures Closed(s, delim) <==> Word(s[k + 1..], delim)
    {
      QuotedIsClosed(s, k, delim);
      ClosedIffWord(s[k + 1..], delim);
    }
    if Closed(s, delim) {
      var k := FindsClosing(s[1..], s[0]);
      assert s[1..][..k] == s[1..k + 1];
      assert ClosesAt(s, k + 1);
    }
  }

  /** A line made of words with the delimiter between them splits into exactly those words. */
  lemma {:induction false} LineOfWords(words: seq<string>, delim: char)
    requires words != [] && Ordinary(delim) && forall i | 0 <= i < |words| :: Word(words[i], delim)
    ensures Pieces(Join(words, [delim]), PLAIN, "", delim) == words
  {
    ClosedIffWord(words[0], delim);
    if |words| == 1 {
      OnlyPiece(words[0], delim);
    } else {
      var rest := Join(words[1..], [delim]);
      LineOfWords(words[1..], delim);
      FirstPiece(words[0], rest, delim);
      Seqs.Associate(words[0], [delim], rest);
      assert words == [words[0]] + words[1..];
    }
  }

  lemma {:induction false} ReadsBare(s: string, delim: char)
    requires Bare(s, delim)
    ensures Closed(s, delim)
  {
    if s != "" {
      ReadsBare(s[1..], delim);
    }
  }

  /** Between quotes, closed or not, and after a backslash no delimiter cuts; after bare text
      each one does. */
  lemma QuotedStaysWhole(u: string, quote: char, t: string, v: string, delim: char)
    requires IsQuote(quote) && Bare(u, delim) && Quotable(t, quote) && Bare(v, delim)
    ensures Pieces(u + ([quote] + t), PLAIN, "", delim) == [u + ([quote] + t)]
    ensures Pieces(u + ([quote] + t) + ([quote] + v), PLAIN, "", delim) == [u + ([quote] + t) + ([quote] + v)]
  {
    var open := [quote] + t;
    ReadsBare(u, delim);
    ReadsBare(v, delim);
    ReadsQuotable(t, quote, delim);
    assert open[1..] == t && ([quote] + v)[1..] == v;
    ScanConcat(u, open, PLAIN, delim);
    ScanConcat(u + open, [quote] + v, PLAIN, delim);
    OnlyPiece(u + open, delim);
    OnlyPiece(u + open + ([quote] + v), delim);
  }

  lemma EscapedStaysWhole(u: string, c: char, v: string, delim: char)
    requires Bare(u, delim) && Bare(v, delim)
    ensures Pieces(u + (['\\', c] + v), PLAIN, "", delim) == [u + (['\\', c] + v)]
  {
    var escaped := ['\\', c] + v;
    ReadsBare(u, delim);
    ReadsBare(v, delim);
    assert escaped[1..][1..] == v;
    ScanConcat(u, escaped, PLAIN, delim);
    OnlyPiece(u + escaped, delim);
  }

  lemma DelimiterCuts(u: string, v: string, delim: char)
    requires Bare(u, delim) && Ordinary(delim)
    ensures Pieces(u + ([delim] + v), PLAIN, "", delim) == [u] + Pieces(v, PLAIN, "", delim)
  {
    ReadsBare(u, delim);
    FirstPiece(u, v, delim);
  }

  // ---------- Grouping ----------

  /** One stage: a verb of the tool, or an external command. */
  datatype Stage = Stage(isVerb: bool, verb: string, raw: string)

  datatype Block = Block(isVerb: bool, stages: seq<Stage>)

  const VERBS: set<string> := {
    "send", "receive", "get", "peek", "request", "reply", "respond", "move", "forward", "bridge",
    "publish", "subscribe", "manage", "ping", "help"}

  function FirstWord(s: string): string {
    if s == "" || IsSpace(s[0]) then "" else [s[0]] + FirstWord(s[1..])
  }

  function Classify(text: string): Stage {
    var first := FirstWord(TrimLeft(text));
    if first in VERBS then Stage(true, first, text) else Stage(false, "", text)
  }

  lemma {:induction false} FirstWordIs(s: string)
    ensures FirstWord(s) <= s
    ensures |FirstWord(s)| < |s| ==> IsSpace(s[|FirstWord(s)|])
    ensures forall i | 0 <= i < |FirstWord(s)| :: !IsSpace(s[i])
  {
    if s != "" && !IsSpace(s[0]) {
      FirstWordIs(s[1..]);
    }
  }

  /** The text starts, after white space, with this word. */
  predicate StartsWith(text: string, left: string, word: string) {
    var n := |left| + |word|;
    && AllSpace(left) && left + word <= text && (n < |text| ==> IsSpace(text[n]))
  }

  lemma {:induction false} FirstWordOf(word: string, s: string)
    requires word <= s && (|word| < |s| ==> IsSpace(s[|word|]))
    requires forall i | 0 <= i < |word| :: !IsSpace(word[i])
    ensures FirstWord(s) == word
  {
    if word != "" {
      FirstWordOf(word[1..], s[1..]);
      assert word == [word[0]] + word[1..];
    }
  }

  lemma VerbsHaveNoSpace(verb: string)
    requires verb in VERBS
    ensures verb != "" && forall i | 0 <= i < |verb| :: !IsSpace(verb[i])
  {
  }

  /** A stage is a verb of the tool exactly when its first word is one. */
  lemma VerbStages(text: string)
    ensures Classify(text).isVerb <==> exists left, verb :: verb in VERBS && StartsWith(text, left, verb)
    ensures Classify(text).isVerb ==> exists left :: StartsWith(text, left, Classify(text).verb)
    ensures Classify(text).raw == text
  {
    var left := TrimLeftSplits(text);
    var s := TrimLeft(text);
    FirstWordIs(s);
    assert StartsWith(text, left, FirstWord(s));
    forall other, verb | verb in VERBS && StartsWith(text, other, verb)
      ensures FirstWord(s) == verb
    {
      VerbsHaveNoSpace(verb);
      var rest := text[|other|..];
      assert text == other + rest;
      TrimLeftOf(other, rest);
      FirstWordOf(verb, rest);
    }
  }

  function ClassifyAll(texts: seq<string>): seq<Stage> {
    seq(|texts|, i requires 0 <= i < |texts| => Classify(texts[i]))
  }

  function AddStage(blocks: seq<Block>, s: Stage): seq<Block> {
    if s.isVerb then blocks + [Block(true, [s])]
    else if blocks != [] && !blocks[|blocks| - 1].isVerb then
      blocks[|blocks| - 1 := Block(false, blocks[|blocks| - 1].stages + [s])]
    else blocks + [Block(false, [s])]
  }

  function Coalesce(stages: seq<Stage>): seq<Block> {
    if stages == [] then [] else AddStage(Coalesce(stages[..|stages| - 1]), stages[|stages| - 1])
  }

  method CoalesceStages(stages: seq<Stage>) returns (blocks: seq<Block>)
    ensures blocks == Coalesce(stages)
  {
    blocks := [];
    for i := 0 to |stages|
      invariant blocks == Coalesce(stages[..i])
    {
      var s := stages[i];
      assert stages[..i + 1][..i] == stages[..i];
      if s.isVerb {
        blocks := blocks + [Block(true, [s])];
      } else if |blocks| > 0 && !blocks[|blocks| - 1].isVerb {
        blocks := blocks[|blocks| - 1 := Block(false, blocks[|blocks| - 1].stages + [s])];
      } else {
        blocks := blocks + [Block(false, [s])];
      }
    }
    assert stages[..|stages|] == stages;
  }

  function Flatten(blocks: seq<Block>): seq<Stage> {
    if blocks == [] then [] else Flatten(blocks[..|blocks| - 1]) + blocks[|blocks| - 1].stages
  }

  /** A verb alone, or a non-empty run of external stages. */
  ghost predicate GoodBlock(b: Block) {
    && b.stages != []
    && (forall i | 0 <= i < |b.stages| :: b.stages[i].isVerb == b.isVerb)
    && (b.isVerb ==> |b.stages| == 1)
  }

  ghost predicate Grouped(blocks: seq<Block>) {
    && (forall i | 0 <= i < |blocks| :: GoodBlock(blocks[i]))
    && (forall i | 0 <= i < |blocks| - 1 :: blocks[i].isVerb || blocks[i + 1].isVerb)
  }

  lemma FlattenAppend(blocks: seq<Block>, b: Block)
    ensures Flatten(blocks + [b]) == Flatten(blocks) + b.stages
  {
    assert (blocks + [b])[..|blocks|] == blocks;
  }

  lemma AddStageGroups(blocks: seq<Block>, s: Stage)
    requires Grouped(blocks)
    ensures Flatten(AddStage(blocks, s)) == Flatten(blocks) + [s] && Grouped(AddStage(blocks, s))
  {
    var more := AddStage(blocks, s);
    if |more| == |blocks| {
      var n := |blocks|;
      var last := blocks[n - 1];
      assert GoodBlock(last) && GoodBlock(more[n - 1]);
      FlattenAppend(blocks[..n - 1], more[n - 1]);
      assert more == blocks[..n - 1] + [more[n - 1]];
      assert Flatten(blocks[..n - 1]) + (last.stages + [s]) == Flatten(blocks) + [s];
    } else {
      FlattenAppend(blocks, more[|blocks|]);
      assert GoodBlock(more[|blocks|]);
    }
  }

  /** Grouping keeps every stage in order, isolates verbs, and merges all neighbours. */
  lemma {:induction false} CoalesceGroups(stages: seq<Stage>)
    ensures Flatten(Coalesce(stages)) == stages && Grouped(Coalesce(stages))
  {
    if stages != [] {
      var most, s := stages[..|stages| - 1], stages[|stages| - 1];
      assert stages == most + [s] by { Seqs.SplitAt(stages, |stages| - 1); }
      CoalesceGroups(most);
      AddStageGroups(Coalesce(most), s);
      assert Coalesce(stages) == AddStage(Coalesce(most), s);
    }
  }

  /** The grouping without the last stage, which adding that stage would give back. */
  lemma TakeLastStage(blocks: seq<Block>) returns (fewer: seq<Block>, s: Stage)
    requires Grouped(blocks) && blocks != []
    ensures Grouped(fewer) && AddStage(fewer, s) == blocks
  {
    var n := |blocks|;
    var last := blocks[n - 1];
    assert GoodBlock(last);
    var k := |last.stages|;
    s := last.stages[k - 1];
    if k == 1 {
      fewer := blocks[..n - 1];
      assert last.stages == [s] && blocks == fewer + [last];
      assert n > 1 ==> blocks[n - 2].isVerb || blocks[n - 1].isVerb;
    } else {
      var shorter := Block(false, last.stages[..k - 1]);
      fewer := blocks[n - 1 := shorter];
      assert GoodBlock(shorter);
      assert last == Block(false, shorter.stages + [s]);
      assert blocks == fewer[n - 1 := last];
    }
  }

  /** There is no other way to group them. */
  lemma {:induction false} GroupingIsUnique(blocks: seq<Block>)
    requires Grouped(blocks)
    ensures Coalesce(Flatten(blocks)) == blocks
    decreases |Flatten(blocks)|
  {
    if blocks != [] {
      var fewer, s := TakeLastStage(blocks);
      AddStageGroups(fewer, s);
      GroupingIsUnique(fewer);
      assert Flatten(blocks)[..|Flatten(blocks)| - 1] == Flatten(fewer);
    }
  }

  // ---------- The external command line ----------

  function Raws(stages: seq<Stage>): seq<string> {
    seq(|stages|, i requires 0 <= i < |stages| => stages[i].raw)
  }

  /** The text handed to `sh -c` for an external block. */
  method ExternalLine(block: Block) returns (line: string)
    ensures line == Join(Raws(block.stages), " | ")
  {
    var parts: seq<string> := [];
    for i := 0 to |block.stages|
      invariant parts == Raws(block.stages)[..i]
    {
      parts := parts + [block.stages[i].raw];
    }
    assert parts == Raws(block.stages);
    line := Join(parts, " | ");
  }

  function BlocksOf(line: string): seq<Block> {
    Coalesce(ClassifyAll(Split(line, '|')))
  }

  lemma {:induction false} BlockIsRun(blocks: seq<Block>, b: nat) returns (from: nat)
    requires b < |blocks|
    ensures from + |blocks[b].stages| <= |Flatten(blocks)|
    ensures Flatten(blocks)[from..from + |blocks[b].stages|] == blocks[b].stages
    decreases |blocks|
  {
    var n := |blocks|;
    if b == n - 1 {
      from := |Flatten(blocks[..n - 1])|;
    } else {
      from := BlockIsRun(blocks[..n - 1], b);
      assert Flatten(blocks) == Flatten(blocks[..n - 1]) + blocks[n - 1].stages;
    }
  }

  /** Whatever the line, the command built for an external block splits back into exactly
      that block's stages when, and only when, its last stage is not empty; otherwise just
      that stage is missing. */
  lemma ExternalBlockResplits(line: string, b: nat)
    requires b < |BlocksOf(line)|
    ensures var raws := Raws(BlocksOf(line)[b].stages);
            && raws != []
            && (Split(Join(raws, " | "), '|') == raws <==> raws[|raws| - 1] != "")
            && (raws[|raws| - 1] == "" ==> Split(Join(raws, " | "), '|') == raws[..|raws| - 1])
  {
    var raws := Raws(BlocksOf(line)[b].stages);
    var from, to := BlockTexts(line, b);
    assert Spaced('|') == " | ";
    Resplit(line, from, to, '|');
    assert raws[..|raws| - 1] != raws;
  }

  /** An external or verb block holds a non-empty run of the line's stages. */
  lemma BlockTexts(line: string, b: nat) returns (from: nat, to: nat)
    requires b < |BlocksOf(line)|
    ensures from < to <= |Split(line, '|')| && Raws(BlocksOf(line)[b].stages) == Split(line, '|')[from..to]
  {
    var texts, blocks := Split(line, '|'), BlocksOf(line);
    CoalesceGroups(ClassifyAll(texts));
    assert GoodBlock(blocks[b]);
    from := BlockIsRun(blocks, b);
    to := from + |blocks[b].stages|;
    ClassifiedRaws(texts, from, to);
  }

  lemma ClassifiedRaws(texts: seq<string>, from: nat, to: nat)
    requires from <= to <= |texts|
    ensures Raws(ClassifyAll(texts)[from..to]) == texts[from..to]
  {
    forall k | 0 <= k < to - from
      ensures Raws(ClassifyAll(texts)[from..to])[k] == texts[from..to][k]
    {
      assert ClassifyAll(texts)[from..to][k] == Classify(texts[from + k]);
    }
  }

  // ---------- A line that does not come back ----------

  lemma TrimWord(s: string)
    requires s != "" && !IsSpace(s[0]) && !IsSpace(s[|s| - 1])
    ensures Trim(s) == s && TrimLeft(s) == s
  {
  }

  lemma PiecesOfExample()
    ensures Split("a| |get", '|') == ["a", "", "get"]
  {
    assert "a| |get" == "a" + (['|'] + " |get") && " |get" == " " + (['|'] + "get");
    ScanSpaces(" ", PLAIN, '|');
    assert Closed("a", '|') by { assert "a"[1..] == ""; }
    assert Whole("get", '|') by { assert "get"[1..] == "et" && "et"[1..] == "t" && "t"[1..] == ""; }
    FirstPiece("a", " |get", '|');
    FirstPiece(" ", "get", '|');
    OnlyPiece("get", '|');
    assert ["a"] + ([" "] + ["get"]) == ["a", " ", "get"];
    TrimWord("a");
    TrimWord("get");
    TrimOf(" ", "", "");
    assert " " + "" + "" == " ";
  }

  lemma ClassesOfExample()
    ensures Classify("a") == Stage(false, "", "a") && Classify("") == Stage(false, "", "")
    ensures Classify("get") == Stage(true, "get", "get")
  {
    TrimWord("a");
    TrimWord("get");
    assert FirstWord("a") == "a" by { assert "a"[1..] == "" && ['a'] + "" == "a"; }
    assert FirstWord("get") == "get" by {
      assert "get"[1..] == "et" && "et"[1..] == "t" && "t"[1..] == "";
      assert ['t'] + "" == "t" && ['e'] + "t" == "et" && ['g'] + "et" == "get";
    }
  }

  lemma BlocksOfThree(a: Stage, b: Stage, c: Stage)
    requires !a.isVerb && !b.isVerb && c.isVerb
    ensures Coalesce([a, b, c]) == [Block(false, [a, b]), Block(true, [c])]
  {
    assert [a, b, c][..2] == [a, b] && [a, b][..1] == [a] && [a][..0] == [];
    assert Coalesce([a]) == [Block(false, [a])];
    assert [a] + [b] == [a, b];
    assert Coalesce([a, b]) == [Block(false, [a, b])];
  }

  /** The failing half occurs: with an empty stage before a verb, the external block before it
      loses that stage. */
  lemma EmptyLastStageOccurs()
    ensures |BlocksOf("a| |get")| == 2 && Raws(BlocksOf("a| |get")[0].stages) == ["a", ""]
    ensures Split(Join(["a", ""], " | "), '|') == ["a"]
  {
    PiecesOfExample();
    ClassesOfExample();
    var a, b, c := Classify("a"), Classify(""), Classify("get");
    assert ClassifyAll(["a", "", "get"]) == [a, b, c];
    BlocksOfThree(a, b, c);
    assert Raws([a, b]) == ["a", ""];
    ExternalBlockResplits("a| |get", 0);
    assert ["a", ""][..1] == ["a"];
  }
}
