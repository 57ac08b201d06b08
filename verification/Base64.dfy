/** Standard base64 with padding, section 4 of RFC 4648. */
module Base64 {
  import opened Wrappers

  type Octet = n: int | 0 <= n < 256 witness 0

  function Symbol(n: int): char
    requires 0 <= n < 64
  {
    if n < 26 then ('A' as int + n) as char
    else if n < 52 then ('a' as int + n - 26) as char
    else if n < 62 then ('0' as int + n - 52) as char
    else if n == 62 then '+' else '/'
  }

  function SymbolValue(c: char): (r: Option<int>)
    ensures r.Some? ==> 0 <= r.value < 64
  {
    if 'A' <= c <= 'Z' then Some(c as int - 'A' as int)
    else if 'a' <= c <= 'z' then Some(c as int - 'a' as int + 26)
    else if '0' <= c <= '9' then Some(c as int - '0' as int + 52)
    else if c == '+' then Some(62) else if c == '/' then Some(63) else None
  }

  /** Four groups of six bits. */
  datatype Quad = Quad(w: int, x: int, y: int, z: int)

  predicate IsQuad(q: Quad) {
    0 <= q.w < 64 && 0 <= q.x < 64 && 0 <= q.y < 64 && 0 <= q.z < 64
  }

  function Split(a: Octet, b: Octet, c: Octet): (q: Quad)
    ensures IsQuad(q)
  {
    Quad(a / 4, a % 4 * 16 + b / 16, b % 16 * 4 + c / 64, c % 64)
  }

  /** The three bytes that four groups make. */
  function Join(q: Quad): (Octet, Octet, Octet)
    requires IsQuad(q)
  {
    (q.w * 4 + q.x / 16, q.x % 16 * 16 + q.y / 4, q.y % 4 * 64 + q.z)
  }

  lemma JoinSplit(a: Octet, b: Octet, c: Octet)
    ensures Join(Split(a, b, c)) == (a, b, c)
  {
  }

  /** The symbols of the first groups, and padding for the others. */
  function Symbols(q: Quad, groups: int): (s: string)
    requires IsQuad(q) && 2 <= groups <= 4
    ensures |s| == 4
  {
    [Symbol(q.w), Symbol(q.x), if groups > 2 then Symbol(q.y) else '=', if groups > 3 then Symbol(q.z) else '=']
  }

  function Encode(data: seq<Octet>): (r: string)
    ensures data == [] <==> r == ""
  {
    if data == [] then ""
    else if |data| == 1 then Symbols(Split(data[0], 0, 0), 2)
    else if |data| == 2 then Symbols(Split(data[0], data[1], 0), 3)
    else Symbols(Split(data[0], data[1], data[2]), 4) + Encode(data[3..])
  }

  /** Four symbols at a time; padding only at the very end. */
  function DecodeQuads(s: string): Option<seq<Octet>> {
    if s == "" then Some([])
    else if |s| < 4 || SymbolValue(s[0]).None? || SymbolValue(s[1]).None? then None
    else
      var a, b := SymbolValue(s[0]).value, SymbolValue(s[1]).value;
      var first := a * 4 + b / 16;
      if s[2..] == "==" then Some([first])
      else if SymbolValue(s[2]).None? then None
      else
        var c := SymbolValue(s[2]).value;
        var second := b % 16 * 16 + c / 4;
        if s[3..] == "=" then Some([first, second])
        else if SymbolValue(s[3]).None? then None
        else
          match DecodeQuads(s[4..])
          case Some(rest) => Some([first, second, c % 4 * 64 + SymbolValue(s[3]).value] + rest)
          case None => None
  }

  /** Line breaks within the text are passed over. */
  function DropBreaks(s: string): string {
    if s == "" then "" else if s[0] == '\r' || s[0] == '\n' then DropBreaks(s[1..]) else [s[0]] + DropBreaks(s[1..])
  }

  function Decode(s: string): Option<seq<Octet>> {
    DecodeQuads(DropBreaks(s))
  }

  lemma SymbolValues(n: int)
    requires 0 <= n < 64
    ensures SymbolValue(Symbol(n)) == Some(n)
  {
  }

  lemma DecodePadded(q: Quad)
    requires IsQuad(q)
    ensures DecodeQuads(Symbols(q, 2)) == Some([Join(q).0])
    ensures DecodeQuads(Symbols(q, 3)) == Some([Join(q).0, Join(q).1])
  {
    SymbolValues(q.w);
    SymbolValues(q.x);
    SymbolValues(q.y);
    assert Symbols(q, 2)[2..] == "==";
    assert Symbols(q, 3)[2..] != "==" by { assert Symbols(q, 3)[2..][0] != '='; }
    assert Symbols(q, 3)[3..] == "=";
  }

  lemma DecodeFull(q: Quad, rest: string)
    requires IsQuad(q) && DecodeQuads(rest).Some?
    ensures DecodeQuads(Symbols(q, 4) + rest) == Some([Join(q).0, Join(q).1, Join(q).2] + DecodeQuads(rest).value)
  {
    SymbolValues(q.w);
    SymbolValues(q.x);
    SymbolValues(q.y);
    SymbolValues(q.z);
    var s := Symbols(q, 4) + rest;
    assert s[0] == Symbol(q.w) && s[1] == Symbol(q.x) && s[2] == Symbol(q.y) && s[3] == Symbol(q.z);
    assert s[2..] != "==" by { assert s[2..][0] != '='; }
    assert s[3..] != "=" by { assert s[3..][0] != '='; }
    assert s[4..] == rest;
  }

  lemma DecodeThree(a: Octet, b: Octet, c: Octet, rest: string)
    requires DecodeQuads(rest).Some?
    ensures DecodeQuads(Symbols(Split(a, b, c), 4) + rest) == Some([a, b, c] + DecodeQuads(rest).value)
  {
    JoinSplit(a, b, c);
    DecodeFull(Split(a, b, c), rest);
  }

  lemma {:induction false} DecodeQuadsEncode(data: seq<Octet>)
    ensures DecodeQuads(Encode(data)) == Some(data)
  {
    if |data| == 1 {
      JoinSplit(data[0], 0, 0);
      DecodePadded(Split(data[0], 0, 0));
      assert data == [data[0]];
    } else if |data| == 2 {
      JoinSplit(data[0], data[1], 0);
      DecodePadded(Split(data[0], data[1], 0));
      assert data == [data[0], data[1]];
    } else if data != [] {
      DecodeQuadsEncode(data[3..]);
      DecodeThree(data[0], data[1], data[2], Encode(data[3..]));
      assert data == [data[0], data[1], data[2]] + data[3..];
    }
  }

  lemma OnlySymbols(q: Quad, groups: int)
    requires IsQuad(q) && 2 <= groups <= 4
    ensures forall c | c in Symbols(q, groups) :: c == '=' || SymbolValue(c).Some?
  {
    SymbolValues(q.w);
    SymbolValues(q.x);
    SymbolValues(q.y);
    SymbolValues(q.z);
  }

  lemma {:induction false} NoBreaks(data: seq<Octet>)
    ensures forall c | c in Encode(data) :: c == '=' || SymbolValue(c).Some?
  {
    if |data| == 1 {
      OnlySymbols(Split(data[0], 0, 0), 2);
    } else if |data| == 2 {
      OnlySymbols(Split(data[0], data[1], 0), 3);
    } else if data != [] {
      OnlySymbols(Split(data[0], data[1], data[2]), 4);
      NoBreaks(data[3..]);
    }
  }

  lemma {:induction false} DropNothing(s: string)
    requires '\r' !in s && '\n' !in s
    ensures DropBreaks(s) == s
  {
    if s != "" {
      DropNothing(s[1..]);
      assert s == [s[0]] + s[1..];
    }
  }

  /** Decoding undoes encoding, for every length. */
  lemma DecodeEncode(data: seq<Octet>)
    ensures Decode(Encode(data)) == Some(data)
  {
    NoBreaks(data);
    DropNothing(Encode(data));
    DecodeQuadsEncode(data);
  }

  /** The alphabet, section 4. */
  lemma SymbolsAre(n: nat)
    requires n < 26
    ensures Symbol(n) == "ABCDEFGHIJKLMNOPQRSTUVWXYZ"[n] && Symbol(26 + n) == "abcdefghijklmnopqrstuvwxyz"[n]
    ensures n < 10 ==> Symbol(52 + n) == "0123456789"[n]
    ensures Symbol(62) == '+' && Symbol(63) == '/'
  {
  }

  /** The bits of a group in base 64: three bytes, read as one number, are four digits. */
  lemma QuadIsTheNumber(a: Octet, b: Octet, c: Octet)
    ensures var q := Split(a, b, c); ((q.w * 64 + q.x) * 64 + q.y) * 64 + q.z == (a * 256 + b) * 256 + c
  {
  }

  lemma SymbolsEnd(q: Quad, groups: int)
    requires IsQuad(q) && 2 <= groups <= 4
    ensures Symbols(q, groups)[3] == '=' <==> groups < 4
    ensures Symbols(q, groups)[2] == '=' <==> groups < 3
  {
    SymbolValues(q.y);
    SymbolValues(q.z);
  }

  lemma EndOf(first: string, rest: string)
    requires |first| == 4 && |rest| >= 2
    ensures var r := first + rest; r[|r| - 1] == rest[|rest| - 1] && r[|r| - 2] == rest[|rest| - 2]
  {
  }

  lemma Quads(n: nat)
    ensures (n + 5) / 3 == (n + 2) / 3 + 1
  {
  }

  lemma {:induction false} EncodedLength(data: seq<Octet>)
    ensures |Encode(data)| == (|data| + 2) / 3 * 4
  {
    if |data| >= 3 {
      EncodedLength(data[3..]);
      Quads(|data| - 3);
      assert |Encode(data)| == 4 + |Encode(data[3..])|;
    } else if data != [] {
      assert |Encode(data)| == 4 && (|data| + 2) / 3 == 1;
    }
  }

  /** Four symbols for every three bytes begun, padded at the end for those that are missing. */
  lemma {:induction false} PaddingTells(data: seq<Octet>)
    requires data != []
    ensures var r, missing := Encode(data), 2 - (|data| + 2) % 3;
            && |r| == (|data| + 2) / 3 * 4
            && (r[|r| - 1] == '=' <==> missing > 0) && (r[|r| - 2] == '=' <==> missing > 1)
  {
    EncodedLength(data);
    if |data| > 3 {
      PaddingTells(data[3..]);
      EndOf(Symbols(Split(data[0], data[1], data[2]), 4), Encode(data[3..]));
    } else if |data| == 3 {
      SymbolsEnd(Split(data[0], data[1], data[2]), 4);
      assert data[3..] == [];
    } else {
      SymbolsEnd(if |data| == 1 then Split(data[0], 0, 0) else Split(data[0], data[1], 0), |data| + 1);
    }
  }

  /** Only the alphabet is read, each symbol as its own value. */
  lemma OnlySymbolsRead(c: char)
    ensures SymbolValue(c).Some? ==> Symbol(SymbolValue(c).value) == c
  {
  }

  lemma {:induction false} BreaksDropped(a: string, b: string)
    ensures DropBreaks(a + b) == DropBreaks(a) + DropBreaks(b)
  {
    if a == "" {
      assert a + b == b;
    } else {
      assert (a + b)[1..] == a[1..] + b;
      BreaksDropped(a[1..], b);
    }
  }

  /** A line break is passed over wherever it stands. */
  lemma BreaksAreIgnored(a: string, c: char, b: string)
    requires c == '\n' || c == '\r'
    ensures Decode(a + [c] + b) == Decode(a + b)
  {
    BreaksDropped(a + [c], b);
    BreaksDropped(a, [c]);
    BreaksDropped(a, b);
    assert DropBreaks([c]) == "" && DropBreaks(a) + "" == DropBreaks(a) by { assert [c][1..] == ""; }
  }

  /** What is decoded holds nothing but symbols, padding and line breaks. */
  lemma {:induction false} OnlySymbolsDecode(s: string, c: char)
    requires DecodeQuads(s).Some? && c in s
    ensures c == '=' || SymbolValue(c).Some?
    decreases |s|
  {
    if s[2..] == "==" {
      assert s[2] == '=' && s[3] == '=';
    } else if s[3..] == "=" {
      assert s[3] == '=';
    } else if c in s[4..] {
      OnlySymbolsDecode(s[4..], c);
    }
  }
}
