/** The input area's soft wrap.

    The loop is proved equal to a two-step definition: cut the text into pieces, then pack
    the pieces into rows one by one. The laws are proved of that definition. */
module SoftWrap {
  import opened Text
  import opened Wrappers
  import Seqs

  const MAX_INPUT_LINES := 5

  /** Display widths of runes and of texts, as the terminal library measures them. */
  datatype Widths = Widths(rune: char -> nat, text: string -> nat)

  /** A word with the white space after it, a stretch of a word that fills a row by itself,
      or what is left at the end of the text. */
  datatype Piece = Soft(word: string) | Hard(word: string) | Last(word: string)

  function Content(p: Piece): string {
    if p.Hard? then p.word else p.word + " "
  }

  /** Cut the text; `word` is the unfinished word before it. */
  function Pieces(w: Widths, width: int, runes: string, word: string): seq<Piece> {
    if runes == "" then [Last(word)]
    else if IsSpace(runes[0]) then [Soft(word)] + Pieces(w, width, runes[1..], "")
    else
      var longer := word + [runes[0]];
      if w.text(longer) + w.rune(runes[0]) > width then [Hard(longer)] + Pieces(w, width, runes[1..], "")
      else Pieces(w, width, runes[1..], longer)
  }

  /** Must this piece start a new row after `row`? */
  predicate Breaks(w: Widths, width: int, row: string, p: Piece) {
    match p
    case Soft(word) => w.text(row) + w.text(word) + 1 > width
    case Hard(_) => row != ""
    case Last(word) => w.text(row) + w.text(word) >= width
  }

  function Place(w: Widths, width: int, rows: seq<string>, p: Piece): (r: seq<string>)
    requires rows != []
    ensures r != []
  {
    var last := rows[|rows| - 1];
    if Breaks(w, width, last, p) then rows + [Content(p)] else rows[|rows| - 1 := last + Content(p)]
  }

  function Pack(w: Widths, width: int, rows: seq<string>, pieces: seq<Piece>): (r: seq<string>)
    requires rows != []
    ensures r != []
    decreases |pieces|
  {
    if pieces == [] then rows else Pack(w, width, Place(w, width, rows, pieces[0]), pieces[1..])
  }

  function Wrap(w: Widths, width: int, runes: string): (r: seq<string>)
    ensures r != []
  {
    Pack(w, width, [""], Pieces(w, width, runes, ""))
  }

  lemma PackCons(w: Widths, width: int, rows: seq<string>, p: Piece, pieces: seq<Piece>)
    requires rows != []
    ensures Pack(w, width, rows, [p] + pieces) == Pack(w, width, Place(w, width, rows, p), pieces)
  {
    assert ([p] + pieces)[1..] == pieces;
  }

  /** Rows still to come when `rows` are laid out, `word` is under way and `runes` are unread. */
  function Onward(w: Widths, width: int, rows: seq<string>, runes: string, word: string): seq<string>
    requires rows != []
  {
    Pack(w, width, rows, Pieces(w, width, runes, word))
  }

  lemma OnwardStep(w: Widths, width: int, rows: seq<string>, runes: string, word: string)
    requires rows != [] && runes != ""
    ensures var longer := word + [runes[0]];
            Onward(w, width, rows, runes, word) ==
            if IsSpace(runes[0]) then Onward(w, width, Place(w, width, rows, Soft(word)), runes[1..], "")
            else if w.text(longer) + w.rune(runes[0]) > width
            then Onward(w, width, Place(w, width, rows, Hard(longer)), runes[1..], "")
            else Onward(w, width, rows, runes[1..], longer)
  {
    var rest := Pieces(w, width, runes[1..], "");
    PackCons(w, width, rows, Soft(word), rest);
    PackCons(w, width, rows, Hard(word + [runes[0]]), rest);
  }

  lemma OnwardEnd(w: Widths, width: int, rows: seq<string>, word: string)
    requires rows != []
    ensures Onward(w, width, rows, "", word) == Place(w, width, rows, Last(word))
  {
    PackCons(w, width, rows, Last(word), []);
    assert [Last(word)] + [] == [Last(word)];
  }

  // ---------- The loop ----------

  method TextareaWrap(w: Widths, runes: string, width: int) returns (lines: seq<string>)
    ensures lines == Wrap(w, width, runes)
  {
    lines := [""];
    var word := "";
    var row := 0;
    ghost var rest := runes;
    for i := 0 to |runes|
      invariant rest == runes[i..] && row == |lines| - 1
      invariant Onward(w, width, lines, rest, word) == Onward(w, width, [""], runes, "")
    {
      var r := runes[i];
      OnwardStep(w, width, lines, rest, word);
      rest := rest[1..];
      var spaces := 0;
      if IsSpace(r) {
        spaces := 1;
      } else {
        word := word + [r];
      }
      if spaces > 0 {
        ghost var placed := Place(w, width, lines, Soft(word));
        if w.text(lines[row]) + w.text(word) + spaces > width {
          row := row + 1;
          lines := lines + [word + " "];
        } else {
          lines := lines[row := lines[row] + (word + " ")];
        }
        assert lines == placed;
        word := "";
      } else if w.text(word) + w.rune(word[|word| - 1]) > width {
        ghost var placed := Place(w, width, lines, Hard(word));
        if |lines[row]| > 0 {
          row := row + 1;
          lines := lines + [""];
        }
        lines := lines[row := lines[row] + word];
        assert lines[row] == placed[row];
        assert lines == placed;
        word := "";
      }
    }
    OnwardEnd(w, width, lines, word);
    if w.text(lines[row]) + w.text(word) >= width {
      lines := lines + [word + " "];
    } else {
      lines := lines[row := lines[row] + (word + " ")];
    }
  }

  // ---------- Nothing is lost ----------

  function Concat(rows: seq<string>): string {
    if rows == [] then "" else rows[0] + Concat(rows[1..])
  }

  function Contents(pieces: seq<Piece>): string {
    if pieces == [] then "" else Content(pieces[0]) + Contents(pieces[1..])
  }

  /** Every white-space rune turned into a blank. */
  function Blanked(runes: string): string {
    seq(|runes|, i requires 0 <= i < |runes| => if IsSpace(runes[i]) then ' ' else runes[i])
  }

  lemma {:induction false} ConcatAppend(rows: seq<string>, row: string)
    ensures Concat(rows + [row]) == Concat(rows) + row
  {
    if rows == [] {
      assert [row][1..] == [];
    } else {
      assert (rows + [row])[1..] == rows[1..] + [row];
      ConcatAppend(rows[1..], row);
    }
  }

  lemma PlaceKeepsContent(w: Widths, width: int, rows: seq<string>, p: Piece)
    requires rows != []
    ensures Concat(Place(w, width, rows, p)) == Concat(rows) + Content(p)
  {
    var n, content := |rows| - 1, Content(p);
    if Breaks(w, width, rows[n], p) {
      ConcatAppend(rows, content);
    } else {
      ConcatAppend(rows[..n], rows[n]);
      ConcatAppend(rows[..n], rows[n] + content);
      assert rows == rows[..n] + [rows[n]];
      assert rows[n := rows[n] + content] == rows[..n] + [rows[n] + content];
    }
  }

  lemma {:induction false} PackKeepsContent(w: Widths, width: int, rows: seq<string>, pieces: seq<Piece>)
    requires rows != []
    ensures Concat(Pack(w, width, rows, pieces)) == Concat(rows) + Contents(pieces)
    decreases |pieces|
  {
    if pieces != [] {
      PlaceKeepsContent(w, width, rows, pieces[0]);
      PackKeepsContent(w, width, Place(w, width, rows, pieces[0]), pieces[1..]);
    }
  }

  lemma ContentsCons(p: Piece, pieces: seq<Piece>)
    ensures Contents([p] + pieces) == Content(p) + Contents(pieces)
  {
    assert ([p] + pieces)[1..] == pieces;
  }

  lemma BlankedCons(runes: string)
    requires runes != ""
    ensures Blanked(runes) == [if IsSpace(runes[0]) then ' ' else runes[0]] + Blanked(runes[1..])
  {
  }

  lemma MoveRune(word: string, c: char, rest: string)
    ensures word + ([c] + rest) + " " == word + [c] + ("" + rest + " ") == word + [c] + rest + " "
  {
  }

  lemma {:induction false} PiecesKeepContent(w: Widths, width: int, runes: string, word: string)
    ensures Contents(Pieces(w, width, runes, word)) == word + Blanked(runes) + " "
  {
    if runes == "" {
      ContentsCons(Last(word), []);
      assert [Last(word)] + [] == [Last(word)];
      assert word + Blanked(runes) == word;
    } else {
      var rest := runes[1..];
      BlankedCons(runes);
      if IsSpace(runes[0]) {
        PiecesKeepContent(w, width, rest, "");
        ContentsCons(Soft(word), Pieces(w, width, rest, ""));
        MoveRune(word, ' ', Blanked(rest));
      } else {
        var longer := word + [runes[0]];
        MoveRune(word, runes[0], Blanked(rest));
        if w.text(longer) + w.rune(runes[0]) > width {
          PiecesKeepContent(w, width, rest, "");
          ContentsCons(Hard(longer), Pieces(w, width, rest, ""));
        } else {
          PiecesKeepContent(w, width, rest, longer);
        }
      }
    }
  }

  /** However widths are measured, the rows one after another are the text with each white
      space turned into a blank, and one blank more at the end. */
  lemma WrapKeepsContent(w: Widths, width: int, runes: string)
    ensures Concat(Wrap(w, width, runes)) == Blanked(runes) + " "
  {
    PiecesKeepContent(w, width, runes, "");
    PackKeepsContent(w, width, [""], Pieces(w, width, runes, ""));
    assert [""][1..] == [];
    assert "" + Blanked(runes) == Blanked(runes);
  }

  // ---------- How wide rows get ----------

  /** Text is as wide as its runes together, each between one and `most` cells; a blank is one. */
  ghost predicate Additive(w: Widths, most: nat) {
    && w.text("") == 0
    && (forall s: string, c: char :: w.text(s + [c]) == w.text(s) + w.rune(c))
    && (forall c :: 1 <= w.rune(c) <= most)
    && w.rune(' ') == 1
  }

  lemma {:induction false} WidthOfConcat(w: Widths, most: nat, a: string, b: string)
    requires Additive(w, most)
    ensures w.text(a + b) == w.text(a) + w.text(b)
    ensures b != "" ==> w.text(b) >= 1
    decreases |b|
  {
    if b == "" {
      assert a + b == a;
    } else {
      var n := |b| - 1;
      WidthOfConcat(w, most, a, b[..n]);
      assert a + b == a + b[..n] + [b[n]] && b == b[..n] + [b[n]];
    }
  }

  /** A word under way leaves room for its last rune again, or is empty. */
  predicate Room(w: Widths, width: int, word: string) {
    word != "" ==> w.text(word) + w.rune(word[|word| - 1]) <= width
  }

  /** A stretch that fills a row is within the limit; a word leaves room for its last rune. */
  predicate PieceFits(w: Widths, width: int, limit: int, p: Piece) {
    if p.Hard? then p.word != "" && w.text(p.word) <= limit else Room(w, width, p.word)
  }

  lemma {:induction false} PiecesFit(w: Widths, width: int, most: nat, runes: string, word: string)
    requires Additive(w, most) && width >= 1 && Room(w, width, word)
    ensures forall p :: p in Pieces(w, width, runes, word) ==> PieceFits(w, width, width + most - 1, p)
  {
    if runes != "" {
      var longer := word + [runes[0]];
      assert Room(w, width, "");
      if IsSpace(runes[0]) || w.text(longer) + w.rune(runes[0]) > width {
        PiecesFit(w, width, most, runes[1..], "");
      } else {
        PiecesFit(w, width, most, runes[1..], longer);
      }
    }
  }

  predicate RowsFit(w: Widths, limit: int, rows: seq<string>) {
    forall i | 0 <= i < |rows| :: w.text(rows[i]) <= limit
  }

  lemma PlaceFits(w: Widths, width: int, most: nat, limit: int, rows: seq<string>, p: Piece)
    requires Additive(w, most) && 1 <= width <= limit && rows != []
    requires RowsFit(w, limit, rows) && PieceFits(w, width, limit, p)
    ensures RowsFit(w, limit, Place(w, width, rows, p))
  {
    var last := rows[|rows| - 1];
    WidthOfConcat(w, most, p.word, " ");
    WidthOfConcat(w, most, "", " ");
    assert "" + " " == " " && w.text("" + [' ']) == 1;
    WidthOfConcat(w, most, last, Content(p));
    if last == "" {
      assert last + Content(p) == Content(p);
    }
  }

  lemma {:induction false} PackFits(w: Widths, width: int, most: nat, limit: int, rows: seq<string>, pieces: seq<Piece>)
    requires Additive(w, most) && 1 <= width <= limit && rows != [] && RowsFit(w, limit, rows)
    requires forall p :: p in pieces ==> PieceFits(w, width, limit, p)
    ensures RowsFit(w, limit, Pack(w, width, rows, pieces))
    decreases |pieces|
  {
    if pieces != [] {
      PlaceFits(w, width, most, limit, rows, pieces[0]);
      PackFits(w, width, most, limit, Place(w, width, rows, pieces[0]), pieces[1..]);
    }
  }

  /** No row is wider than the width by more than the widest rune is wider than one cell. */
  lemma RowsAlmostFit(w: Widths, width: int, most: nat, runes: string)
    requires Additive(w, most) && width >= 1
    ensures RowsFit(w, width + most - 1, Wrap(w, width, runes))
  {
    PiecesFit(w, width, most, runes, "");
    PackFits(w, width, most, width + most - 1, [""], Pieces(w, width, runes, ""));
  }

  /** With runes of one cell, every row fits, and width one is as narrow as that works. */
  lemma UnitRowsFit(w: Widths, width: int, runes: string)
    requires Additive(w, 1)
    ensures RowsFit(w, width, Wrap(w, width, runes)) <==> width >= 1
  {
    if width >= 1 {
      RowsAlmostFit(w, width, 1, runes);
    } else {
      var rows := Wrap(w, width, runes);
      WrapKeepsContent(w, width, runes);
      NonEmptyRow(w, rows);
    }
  }

  lemma {:induction false} NonEmptyRow(w: Widths, rows: seq<string>)
    requires Additive(w, 1) && Concat(rows) != ""
    ensures exists i :: 0 <= i < |rows| && w.text(rows[i]) >= 1
  {
    if rows[0] == "" {
      NonEmptyRow(w, rows[1..]);
      var i :| 0 <= i < |rows| - 1 && w.text(rows[1..][i]) >= 1;
      assert w.text(rows[i + 1]) >= 1;
    } else {
      WidthOfConcat(w, 1, "", rows[0]);
    }
  }

  // ---------- Exactly when every row fits ----------

  lemma PlaceKeepsRow(w: Widths, width: int, rows: seq<string>, p: Piece, i: nat)
    requires i < |rows|
    ensures |Place(w, width, rows, p)| >= |rows| && rows[i] <= Place(w, width, rows, p)[i]
  {
  }

  lemma {:induction false} PackKeepsRow(w: Widths, width: int, rows: seq<string>, pieces: seq<Piece>, i: nat)
    requires i < |rows|
    ensures |Pack(w, width, rows, pieces)| >= |rows| && rows[i] <= Pack(w, width, rows, pieces)[i]
    decreases |pieces|
  {
    if pieces != [] {
      PlaceKeepsRow(w, width, rows, pieces[0], i);
      PackKeepsRow(w, width, Place(w, width, rows, pieces[0]), pieces[1..], i);
    }
  }

  /** A stretch that fills a row starts one. */
  lemma {:induction false} HardStartsRow(w: Widths, width: int, rows: seq<string>, pieces: seq<Piece>, p: Piece)
    returns (i: nat)
    requires rows != [] && p in pieces && p.Hard?
    ensures i < |Pack(w, width, rows, pieces)| && p.word <= Pack(w, width, rows, pieces)[i]
    decreases |pieces|
  {
    var placed := Place(w, width, rows, pieces[0]);
    if p == pieces[0] {
      i := |placed| - 1;
      assert rows[|rows| - 1] == "" ==> "" + p.word == p.word;
      PackKeepsRow(w, width, placed, pieces[1..], i);
    } else {
      i := HardStartsRow(w, width, placed, pieces[1..], p);
    }
  }

  predicate NoWideStretch(w: Widths, width: int, pieces: seq<Piece>) {
    forall p | p in pieces && p.Hard? :: w.text(p.word) <= width
  }

  /** Every row fits if and only if no stretch that had to be cut inside a word is too wide. */
  lemma RowsFitIff(w: Widths, width: int, most: nat, runes: string)
    requires Additive(w, most) && width >= 1
    ensures RowsFit(w, width, Wrap(w, width, runes)) <==> NoWideStretch(w, width, Pieces(w, width, runes, ""))
  {
    var pieces := Pieces(w, width, runes, "");
    if NoWideStretch(w, width, pieces) {
      PiecesFit(w, width, most, runes, "");
      PackFits(w, width, most, width, [""], pieces);
    } else {
      var p :| p in pieces && p.Hard? && w.text(p.word) > width;
      var i := HardStartsRow(w, width, [""], pieces, p);
      var row := Wrap(w, width, runes)[i];
      Seqs.Prefix(p.word, row);
      WidthOfConcat(w, most, p.word, row[|p.word|..]);
    }
  }

  /** Inside words, no rune is wider than the one before it. */
  predicate Narrowing(w: Widths, runes: string) {
    forall i | 0 <= i < |runes| - 1 && !IsSpace(runes[i]) && !IsSpace(runes[i + 1]) ::
      w.rune(runes[i + 1]) <= w.rune(runes[i])
  }

  lemma {:induction false} NarrowingPieces(w: Widths, width: int, most: nat, runes: string, word: string)
    requires Additive(w, most) && width >= most && Room(w, width, word)
    requires Narrowing(w, runes)
    requires word != "" && runes != "" && !IsSpace(runes[0]) ==> w.rune(runes[0]) <= w.rune(word[|word| - 1])
    ensures NoWideStretch(w, width, Pieces(w, width, runes, word))
  {
    if runes != "" {
      var rest, longer := runes[1..], word + [runes[0]];
      assert forall i | 0 <= i < |rest| :: rest[i] == runes[i + 1];
      if IsSpace(runes[0]) {
        NarrowingPieces(w, width, most, rest, "");
      } else if w.text(longer) + w.rune(runes[0]) > width {
        NarrowingPieces(w, width, most, rest, "");
      } else {
        NarrowingPieces(w, width, most, rest, longer);
      }
    }
  }

  /** So a text whose words only narrow fits every width its widest rune fits. */
  lemma NarrowingFits(w: Widths, width: int, most: nat, runes: string)
    requires Additive(w, most) && 1 <= width && most <= width && Narrowing(w, runes)
    ensures RowsFit(w, width, Wrap(w, width, runes))
  {
    NarrowingPieces(w, width, most, runes, "");
    RowsFitIff(w, width, most, runes);
  }

  lemma {:induction false} ReadsOn(w: Widths, width: int, runes: string, word: string, j: nat)
    requires j <= |runes| && (if j == 0 then word == "" else IsSpace(runes[j - 1]))
    ensures forall p :: p in Pieces(w, width, runes[j..], "") ==> p in Pieces(w, width, runes, word)
  {
    if j == 0 {
      assert runes[0..] == runes;
    } else {
      var longer := word + [runes[0]];
      assert runes[1..][j - 1..] == runes[j..];
      if IsSpace(runes[0]) || w.text(longer) + w.rune(runes[0]) > width {
        ReadsOn(w, width, runes[1..], "", j - 1);
      } else {
        ReadsOn(w, width, runes[1..], longer, j - 1);
      }
    }
  }

  lemma {:induction false} WordStart(runes: string, i: nat) returns (j: nat)
    requires i < |runes| && !IsSpace(runes[i])
    ensures j <= i && (j == 0 || IsSpace(runes[j - 1])) && forall k | j <= k <= i :: !IsSpace(runes[k])
  {
    if i == 0 || IsSpace(runes[i - 1]) {
      j := i;
    } else {
      j := WordStart(runes, i - 1);
    }
  }

  /** In a width one more than the word up to a one-cell rune, a two-cell rune after it is cut
      off one cell too late. */
  lemma {:induction false} WideAfterNarrow(w: Widths, width: int, word: string, more: string, r: char, rest: string)
    requires Additive(w, 2) && word + more != "" && w.rune((word + more)[|word + more| - 1]) == 1
    requires width == w.text(word + more) + 1 && w.rune(r) == 2 && !IsSpace(r) && forall c | c in more :: !IsSpace(c)
    ensures Hard(word + more + [r]) in Pieces(w, width, more + ([r] + rest), word)
    decreases |more|
  {
    if more == "" {
      assert word + more == word && more + ([r] + rest) == [r] + rest;
    } else {
      var longer, left := word + [more[0]], more[1..];
      assert word + more == longer + left && (more + ([r] + rest))[1..] == left + ([r] + rest);
      WidthOfConcat(w, 2, longer, left);
      if left == "" {
        assert longer + left == longer;
      }
      WideAfterNarrow(w, width, longer, left, r, rest);
    }
  }

  lemma WideningOverflows(w: Widths, runes: string, i: nat) returns (width: int)
    requires Additive(w, 2) && i + 1 < |runes| && !IsSpace(runes[i]) && !IsSpace(runes[i + 1])
    requires w.rune(runes[i + 1]) > w.rune(runes[i])
    ensures width >= 2 && !RowsFit(w, width, Wrap(w, width, runes))
  {
    var j := WordStart(runes, i);
    var word, r := runes[j..i + 1], runes[i + 1];
    width := w.text(word) + 1;
    WidthOfConcat(w, 2, "", word);
    Seqs.Empty(word);
    assert runes[j..] == word + ([r] + runes[i + 2..]);
    WideAfterNarrow(w, width, "", word, r, runes[i + 2..]);
    ReadsOn(w, width, runes, "", j);
    assert Hard(word + [r]) in Pieces(w, width, runes, "");
    RowsFitIff(w, width, 2, runes);
  }

  /** With runes of one and two cells, a text fits every width from two on if and only if in no
      word a two-cell rune comes right after a one-cell rune. */
  lemma TwoCellRunesFitIff(w: Widths, runes: string)
    requires Additive(w, 2)
    ensures (forall width: int | width >= 2 :: RowsFit(w, width, Wrap(w, width, runes))) <==> Narrowing(w, runes)
  {
    if Narrowing(w, runes) {
      forall width: int | width >= 2
        ensures RowsFit(w, width, Wrap(w, width, runes))
      {
        NarrowingFits(w, width, 2, runes);
      }
    } else {
      var i :| 0 <= i < |runes| - 1 && !IsSpace(runes[i]) && !IsSpace(runes[i + 1]) &&
               w.rune(runes[i + 1]) > w.rune(runes[i]);
      var width := WideningOverflows(w, runes, i);
    }
  }

  lemma ThreeRunes(w: Widths, a: char, b: char, c: char)
    requires Additive(w, 2) && w.rune(a) == 1 && w.rune(b) == 1 && w.rune(c) == 2
    ensures w.text([a]) == 1 && w.text([a, b]) == 2 && w.text([a, b, c]) == 4
  {
    assert w.text("" + [a]) == 1 && "" + [a] == [a];
    assert w.text([a] + [b]) == 2 && [a] + [b] == [a, b];
    assert w.text([a, b] + [c]) == 4 && [a, b] + [c] == [a, b, c];
  }

  lemma ThreeRunesInPieces(w: Widths, a: char, b: char, c: char)
    requires w.text([a]) == 1 && w.text([a, b]) == 2 && w.text([a, b, c]) == 4
    requires w.rune(a) == 1 && w.rune(b) == 1 && w.rune(c) == 2 && !IsSpace(a) && !IsSpace(b) && !IsSpace(c)
    ensures Pieces(w, 3, [a, b, c], "") == [Hard([a, b, c]), Last("")]
  {
    assert [a, b, c][1..] == [b, c] && [b, c][1..] == [c] && [c][1..] == [];
    assert "" + [a] == [a] && [a] + [b] == [a, b] && [a, b] + [c] == [a, b, c];
    assert Pieces(w, 3, [c], [a, b]) == [Hard([a, b, c])] + Pieces(w, 3, [], "");
    assert Pieces(w, 3, [b, c], [a]) == Pieces(w, 3, [c], [a, b]);
  }

  /** The excess is real: a two-cell rune after two one-cell runes makes a row of four in a
      width of three. */
  lemma WideRuneExceeds(w: Widths, a: char, b: char, c: char)
    requires Additive(w, 2) && w.rune(a) == 1 && w.rune(b) == 1 && w.rune(c) == 2
    requires !IsSpace(a) && !IsSpace(b) && !IsSpace(c)
    ensures Wrap(w, 3, [a, b, c])[0] == [a, b, c] && w.text([a, b, c]) == 4
  {
    ThreeRunes(w, a, b, c);
    ThreeRunesInPieces(w, a, b, c);
    PackCons(w, 3, [""], Hard([a, b, c]), [Last("")]);
    assert Place(w, 3, [""], Hard([a, b, c])) == [[a, b, c]] by { Seqs.Empty([a, b, c]); }
    PackCons(w, 3, [[a, b, c]], Last(""), []);
    assert Breaks(w, 3, [a, b, c], Last("")) by { assert w.text("") == 0; }
  }

  // ---------- Rows break only where they must ----------

  function Flat(groups: seq<seq<Piece>>): seq<Piece> {
    if groups == [] then [] else groups[0] + Flat(groups[1..])
  }

  /** The pieces `group` make the row: the first starts a row only because it could not go on
      the row before, and each later one did go on what was there. */
  ghost predicate RowOf(w: Widths, width: int, before: Option<string>, row: string, group: seq<Piece>) {
    && row == Contents(group)
    && (before.Some? ==> group != [] && Breaks(w, width, before.value, group[0]))
    && forall j | 0 <= j < |group| && (j > 0 || before.None?) :: !Breaks(w, width, Contents(group[..j]), group[j])
  }

  function Before(rows: seq<string>, k: nat): Option<string>
    requires k < |rows|
  {
    if k == 0 then None else Some(rows[k - 1])
  }

  ghost predicate Grouped(w: Widths, width: int, rows: seq<string>, groups: seq<seq<Piece>>) {
    && |rows| == |groups|
    && (rows != [] ==>
          var n := |rows| - 1;
          Grouped(w, width, rows[..n], groups[..n]) && RowOf(w, width, Before(rows, n), rows[n], groups[n]))
  }

  lemma RowGrows(w: Widths, width: int, before: Option<string>, row: string, group: seq<Piece>, p: Piece)
    requires RowOf(w, width, before, row, group) && !Breaks(w, width, row, p) && (before.Some? ==> group != [])
    ensures RowOf(w, width, before, row + Content(p), group + [p])
  {
    ContentsAppend(group, p);
    forall j | 0 <= j < |group + [p]| && (j > 0 || before.None?)
      ensures !Breaks(w, width, Contents((group + [p])[..j]), (group + [p])[j])
    {
      assert (group + [p])[..j] == group[..j];
      assert group[..|group|] == group;
    }
  }

  lemma {:induction false} FlatAppend(groups: seq<seq<Piece>>, group: seq<Piece>)
    ensures Flat(groups + [group]) == Flat(groups) + group
  {
    if groups == [] {
      assert [group][1..] == [];
    } else {
      assert (groups + [group])[1..] == groups[1..] + [group];
      FlatAppend(groups[1..], group);
    }
  }

  lemma {:induction false} ContentsAppend(pieces: seq<Piece>, p: Piece)
    ensures Contents(pieces + [p]) == Contents(pieces) + Content(p)
  {
    if pieces == [] {
      assert [p][1..] == [];
    } else {
      assert (pieces + [p])[1..] == pieces[1..] + [p];
      ContentsAppend(pieces[1..], p);
    }
  }

  lemma AddGroup(w: Widths, width: int, rows: seq<string>, groups: seq<seq<Piece>>, row: string, group: seq<Piece>)
    requires rows != [] && Grouped(w, width, rows, groups)
    requires RowOf(w, width, Some(rows[|rows| - 1]), row, group)
    ensures Grouped(w, width, rows + [row], groups + [group])
  {
    var rs, gs, n := rows + [row], groups + [group], |rows|;
    assert rs[..n] == rows && gs[..n] == groups;
    assert Before(rs, n) == Some(rows[n - 1]);
  }

  lemma SetGroup(w: Widths, width: int, rows: seq<string>, groups: seq<seq<Piece>>, row: string, group: seq<Piece>)
    requires rows != [] && Grouped(w, width, rows, groups)
    requires RowOf(w, width, Before(rows, |rows| - 1), row, group)
    ensures Grouped(w, width, rows[|rows| - 1 := row], groups[|rows| - 1 := group])
  {
    var n := |rows| - 1;
    var rs, gs := rows[n := row], groups[n := group];
    assert rs[..n] == rows[..n] && gs[..n] == groups[..n];
    assert Before(rs, n) == Before(rows, n);
  }

  lemma FlatSetLast(groups: seq<seq<Piece>>, p: Piece)
    requires groups != []
    ensures var n := |groups| - 1; Flat(groups[n := groups[n] + [p]]) == Flat(groups) + [p]
  {
    var n := |groups| - 1;
    FlatAppend(groups[..n], groups[n]);
    FlatAppend(groups[..n], groups[n] + [p]);
    assert groups == groups[..n] + [groups[n]];
    assert groups[n := groups[n] + [p]] == groups[..n] + [groups[n] + [p]];
    assert Flat(groups[..n]) + (groups[n] + [p]) == Flat(groups[..n]) + groups[n] + [p];
  }

  /** The groups of the rows so far, once `p` is placed. */
  ghost function Regrouped(w: Widths, width: int, rows: seq<string>, groups: seq<seq<Piece>>, p: Piece)
    : (r: seq<seq<Piece>>)
    requires rows != [] && |rows| == |groups|
    ensures |r| == |Place(w, width, rows, p)|
  {
    var n := |rows| - 1;
    if Breaks(w, width, rows[n], p) then groups + [[p]] else groups[n := groups[n] + [p]]
  }

  lemma PlaceGrouped(w: Widths, width: int, rows: seq<string>, groups: seq<seq<Piece>>, p: Piece)
    requires rows != [] && Grouped(w, width, rows, groups)
    ensures Grouped(w, width, Place(w, width, rows, p), Regrouped(w, width, rows, groups, p))
  {
    var n := |rows| - 1;
    if Breaks(w, width, rows[n], p) {
      ContentsAppend([], p);
      assert [] + [p] == [p];
      AddGroup(w, width, rows, groups, Content(p), [p]);
    } else {
      RowGrows(w, width, Before(rows, n), rows[n], groups[n], p);
      SetGroup(w, width, rows, groups, rows[n] + Content(p), groups[n] + [p]);
    }
  }

  ghost function Groups(w: Widths, width: int, rows: seq<string>, groups: seq<seq<Piece>>, pieces: seq<Piece>)
    : seq<seq<Piece>>
    requires rows != [] && |rows| == |groups|
    decreases |pieces|
  {
    if pieces == [] then groups
    else Groups(w, width, Place(w, width, rows, pieces[0]), Regrouped(w, width, rows, groups, pieces[0]), pieces[1..])
  }

  lemma {:induction false} PackGrouped(w: Widths, width: int, rows: seq<string>, groups: seq<seq<Piece>>,
                                       pieces: seq<Piece>)
    requires rows != [] && Grouped(w, width, rows, groups)
    ensures Grouped(w, width, Pack(w, width, rows, pieces), Groups(w, width, rows, groups, pieces))
    decreases |pieces|
  {
    if pieces != [] {
      PlaceGrouped(w, width, rows, groups, pieces[0]);
      var regrouped := Regrouped(w, width, rows, groups, pieces[0]);
      PackGrouped(w, width, Place(w, width, rows, pieces[0]), regrouped, pieces[1..]);
    }
  }

  lemma RegroupedAppends(w: Widths, width: int, rows: seq<string>, groups: seq<seq<Piece>>, p: Piece)
    requires rows != [] && |rows| == |groups|
    ensures Flat(Regrouped(w, width, rows, groups, p)) == Flat(groups) + [p]
  {
    if Breaks(w, width, rows[|rows| - 1], p) {
      FlatAppend(groups, [p]);
    } else {
      FlatSetLast(groups, p);
    }
  }

  lemma {:induction false} GroupsAreThePieces(w: Widths, width: int, rows: seq<string>, groups: seq<seq<Piece>>,
                                              pieces: seq<Piece>)
    requires rows != [] && |rows| == |groups|
    ensures Flat(Groups(w, width, rows, groups, pieces)) == Flat(groups) + pieces
    decreases |pieces|
  {
    if pieces == [] {
      assert Flat(groups) + pieces == Flat(groups);
    } else {
      var p, before := pieces[0], Flat(groups);
      assert before + [p] + pieces[1..] == before + pieces;
      RegroupedAppends(w, width, rows, groups, p);
      GroupsAreThePieces(w, width, Place(w, width, rows, p), Regrouped(w, width, rows, groups, p), pieces[1..]);
    }
  }

  /** The rows are the pieces of the text in order, each row taking as many as it can. */
  lemma WrapIsGreedy(w: Widths, width: int, runes: string)
    ensures exists groups ::
              Flat(groups) == Pieces(w, width, runes, "") && Grouped(w, width, Wrap(w, width, runes), groups)
  {
    var pieces, none := Pieces(w, width, runes, ""), [[]];
    assert Flat(none) == [] by { assert none[1..] == []; }
    assert Before([""], 0).None?;
    assert RowOf(w, width, None, "", []);
    assert Grouped(w, width, [""][..0], none[..0]);
    PackGrouped(w, width, [""], none, pieces);
    GroupsAreThePieces(w, width, [""], none, pieces);
    assert [] + pieces == pieces;
  }

  // ---------- Told in widths ----------

  /** A word that has not filled a row: its last rune would still fit once more. */
  predicate Unfilled(w: Widths, width: int, word: string) {
    word == "" || w.text(word) + w.rune(word[|word| - 1]) <= width
  }

  /** A piece is as long as it can be: it holds no white space, it could go on after each of
      its runes but the last, and it is cut inside a word exactly when it could not go on. */
  predicate AsLongAsCan(w: Widths, width: int, p: Piece) {
    && (forall i | 0 <= i < |p.word| :: !IsSpace(p.word[i]) && (i > 0 ==> Unfilled(w, width, p.word[..i])))
    && (p.Hard? <==> !Unfilled(w, width, p.word))
  }

  lemma {:induction false} PiecesAreLong(w: Widths, width: int, runes: string, word: string)
    requires AsLongAsCan(w, width, Last(word))
    ensures forall p :: p in Pieces(w, width, runes, word) ==> AsLongAsCan(w, width, p)
  {
    if runes != "" {
      var longer := word + [runes[0]];
      assert AsLongAsCan(w, width, Last(""));
      if IsSpace(runes[0]) {
        PiecesAreLong(w, width, runes[1..], "");
      } else {
        GrowsLong(w, width, word, runes[0]);
        PiecesAreLong(w, width, runes[1..], if Unfilled(w, width, longer) then longer else "");
      }
    }
  }

  lemma GrowsLong(w: Widths, width: int, word: string, r: char)
    requires AsLongAsCan(w, width, Last(word)) && !IsSpace(r)
    ensures var longer := word + [r];
            AsLongAsCan(w, width, if Unfilled(w, width, longer) then Last(longer) else Hard(longer))
  {
    var longer := word + [r];
    forall i | 0 <= i < |longer|
      ensures !IsSpace(longer[i]) && (i > 0 ==> Unfilled(w, width, longer[..i]))
    {
      if i < |word| {
        assert longer[..i] == word[..i];
      } else {
        assert longer[..i] == word;
      }
    }
  }

  /** A piece starts a new row exactly when the row with it would be wider than the width, or
      when it fills a row and the row has something in it already. */
  lemma BreaksIff(w: Widths, width: int, most: nat, row: string, p: Piece)
    requires Additive(w, most)
    ensures Breaks(w, width, row, p) <==> if p.Hard? then row != "" else w.text(row + p.word + " ") > width
  {
    WidthOfConcat(w, most, row, p.word);
    WidthOfConcat(w, most, row + p.word, " ");
    Seqs.Empty(" ");
    assert w.text("" + [' ']) == w.text("") + w.rune(' ');
  }

  /** The rows are the groups laid side by side: a row after the first starts with a piece that
      would have made the row before too wide, or fills a row; a piece after the first of its
      row leaves it within the width. */
  ghost predicate BreaksWhenFull(w: Widths, width: int, rows: seq<string>, groups: seq<seq<Piece>>) {
    |rows| == |groups| && forall k | 0 <= k < |rows| :: RowIsFull(w, width, rows, groups, k)
  }

  predicate RowIsFull(w: Widths, width: int, rows: seq<string>, groups: seq<seq<Piece>>, k: nat)
    requires k < |rows| == |groups|
  {
    && rows[k] == Contents(groups[k])
    && (k > 0 ==> groups[k] != [] && StartsNew(w, width, rows[k - 1], groups[k][0]))
    && (forall j | 0 < j < |groups[k]| :: GoesOn(w, width, Contents(groups[k][..j]), groups[k][j]))
  }

  predicate StartsNew(w: Widths, width: int, row: string, p: Piece) {
    if p.Hard? then row != "" else w.text(row + p.word + " ") > width
  }

  predicate GoesOn(w: Widths, width: int, row: string, p: Piece) {
    if p.Hard? then row == "" else w.text(row + p.word + " ") <= width
  }

  lemma {:induction false} GroupsBreakWhenFull(w: Widths, width: int, most: nat, rows: seq<string>,
                                               groups: seq<seq<Piece>>, k: nat)
    requires Additive(w, most) && Grouped(w, width, rows, groups) && k < |rows|
    ensures RowIsFull(w, width, rows, groups, k)
  {
    var n := |rows| - 1;
    if k == n {
      LastRowBreaks(w, width, most, Before(rows, n), rows[n], groups[n]);
    } else {
      GroupsBreakWhenFull(w, width, most, rows[..n], groups[..n], k);
      assert groups[..n][k] == groups[k] && rows[..n][k] == rows[k] && (k > 0 ==> rows[..n][k - 1] == rows[k - 1]);
    }
  }

  lemma LastRowBreaks(w: Widths, width: int, most: nat, before: Option<string>, row: string, group: seq<Piece>)
    requires Additive(w, most) && RowOf(w, width, before, row, group)
    ensures row == Contents(group)
    ensures before.Some? ==> group != [] && StartsNew(w, width, before.value, group[0])
    ensures forall j | 0 < j < |group| :: GoesOn(w, width, Contents(group[..j]), group[j])
  {
    if before.Some? {
      BreaksIff(w, width, most, before.value, group[0]);
    }
    forall j | 0 < j < |group|
      ensures GoesOn(w, width, Contents(group[..j]), group[j])
    {
      BreaksIff(w, width, most, Contents(group[..j]), group[j]);
    }
  }

  /** Measured in cells: the rows are pieces of the text in order, each piece as long as it can
      be and each row broken only where the next piece would have made it too wide. */
  lemma WrapBreaksWhenFull(w: Widths, width: int, most: nat, runes: string)
    requires Additive(w, most)
    ensures forall p :: p in Pieces(w, width, runes, "") ==> AsLongAsCan(w, width, p)
    ensures Contents(Pieces(w, width, runes, "")) == Blanked(runes) + " "
    ensures exists groups ::
              Flat(groups) == Pieces(w, width, runes, "") && BreaksWhenFull(w, width, Wrap(w, width, runes), groups)
  {
    PiecesAreLong(w, width, runes, "");
    PiecesKeepContent(w, width, runes, "");
    Seqs.Empty(Blanked(runes));
    WrapIsGreedy(w, width, runes);
    var groups :| Flat(groups) == Pieces(w, width, runes, "") && Grouped(w, width, Wrap(w, width, runes), groups);
    forall k: nat | k < |groups|
      ensures RowIsFull(w, width, Wrap(w, width, runes), groups, k)
    {
      GroupsBreakWhenFull(w, width, most, Wrap(w, width, runes), groups, k);
    }
  }

  // ---------- The height of the input area ----------

  function SplitLines(value: string, line: string): seq<string> {
    if value == "" then [line]
    else if value[0] == '\n' then [line] + SplitLines(value[1..], "")
    else SplitLines(value[1..], line + [value[0]])
  }

  function RowTotal(w: Widths, width: int, lines: seq<string>): (r: nat)
    ensures lines != [] ==> r >= 1
  {
    if lines == [] then 0 else |Wrap(w, width, lines[0])| + RowTotal(w, width, lines[1..])
  }

  /** Rows the widget needs for `value`, at most the maximum; there is always one. */
  method ComputeInputLines(w: Widths, inner: int, value: string) returns (n: nat)
    ensures var rows := RowTotal(w, if inner < 1 then 1 else inner, SplitLines(value, ""));
            1 <= n <= 5 && n == if rows > 5 then 5 else rows
  {
    var width := if inner < 1 then 1 else inner;
    var lines := SplitLines(value, "");
    var total: int := 0;
    ghost var rest := lines;
    for i := 0 to |lines|
      invariant rest == lines[i..]
      invariant total + RowTotal(w, width, rest) == RowTotal(w, width, lines)
    {
      rest := rest[1..];
      var rows := TextareaWrap(w, lines[i], width);
      total := total + |rows|;
    }
    if total < 1 {
      total := 1;
    }
    if total > MAX_INPUT_LINES {
      total := MAX_INPUT_LINES;
    }
    LinesExist(value, "");
    n := total;
  }

  /** The lines hold no line break and, joined by line breaks, are the text. */
  lemma {:induction false} LinesOfValue(value: string, line: string)
    requires '\n' !in line
    ensures var lines := SplitLines(value, line);
            && lines != [] && Join(lines, "\n") == line + value
            && forall i | 0 <= i < |lines| :: '\n' !in lines[i]
  {
    if value == "" {
      Seqs.Empty(line);
    } else if value[0] == '\n' {
      LinesOfValue(value[1..], "");
      var rest := SplitLines(value[1..], "");
      assert ([line] + rest)[1..] == rest;
      assert line + "\n" + ("" + value[1..]) == line + value;
    } else {
      LinesOfValue(value[1..], line + [value[0]]);
      assert line + [value[0]] + value[1..] == line + value;
    }
  }

  lemma LinesExist(value: string, line: string)
    ensures SplitLines(value, line) != []
  {
  }
}
