/** Which byte strings are UTF-8, RFC 3629. */
module Utf8 {
  import opened Base64

  /** A Unicode scalar value. */
  type Rune = n: int | 0 <= n < 0xd800 || 0xe000 <= n <= 0x10ffff witness 0

  /** Section 3: the encoding of one character. */
  function EncodeRune(r: Rune): (s: seq<Octet>)
    ensures s != []
  {
    if r < 0x80 then [r]
    else if r < 0x800 then [0xc0 + r / 64, 0x80 + r % 64]
    else if r < 0x10000 then [0xe0 + r / 64 / 64, 0x80 + r / 64 % 64, 0x80 + r % 64]
    else [0xf0 + r / 64 / 64 / 64, 0x80 + r / 64 / 64 % 64, 0x80 + r / 64 % 64, 0x80 + r % 64]
  }

  function EncodeRunes(rs: seq<Rune>): seq<Octet> {
    if rs == [] then [] else EncodeRune(rs[0]) + EncodeRunes(rs[1..])
  }

  predicate Tail(b: Octet) {
    0x80 <= b <= 0xbf
  }

  /** Section 4: the length of the character a byte string starts with; zero when it starts
      with none. */
  function Lead(s: seq<Octet>): (n: nat)
    ensures n <= |s|
  {
    if s == [] then 0
    else if s[0] <= 0x7f then 1
    else if |s| >= 2 && 0xc2 <= s[0] <= 0xdf && Tail(s[1]) then 2
    else if |s| >= 3 && 0xe0 <= s[0] <= 0xef
            && (if s[0] == 0xe0 then 0xa0 else 0x80) <= s[1] <= (if s[0] == 0xed then 0x9f else 0xbf) && Tail(s[2])
    then 3
    else if |s| >= 4 && 0xf0 <= s[0] <= 0xf4
            && (if s[0] == 0xf0 then 0x90 else 0x80) <= s[1] <= (if s[0] == 0xf4 then 0x8f else 0xbf)
            && Tail(s[2]) && Tail(s[3])
    then 4
    else 0
  }

  predicate Valid(s: seq<Octet>) {
    s == [] || (Lead(s) > 0 && Valid(s[Lead(s)..]))
  }

  /** The character that a byte string starts with. */
  function FirstRune(s: seq<Octet>): Rune
    requires Lead(s) > 0
  {
    var n := Lead(s);
    var a: int := s[0];
    if n == 1 then a
    else
      var b: int := s[1] - 0x80;
      if n == 2 then (a - 0xc0) * 64 + b
      else
        var c: int := s[2] - 0x80;
        if n == 3 then ((a - 0xe0) * 64 + b) * 64 + c
        else
          var d: int := s[3] - 0x80;
          (((a - 0xf0) * 64 + b) * 64 + c) * 64 + d
  }

  lemma Digits(hi: int, lo: int)
    requires 0 <= lo < 64
    ensures (hi * 64 + lo) / 64 == hi && (hi * 64 + lo) % 64 == lo
  {
  }

  lemma EncodesTwo(a: int, b: int)
    requires 0xc2 <= a <= 0xdf && 0x80 <= b <= 0xbf
    ensures EncodeRune((a - 0xc0) * 64 + (b - 0x80)) == [a, b]
  {
    Digits(a - 0xc0, b - 0x80);
  }

  lemma EncodesThree(a: int, b: int, c: int)
    requires 0xe0 <= a <= 0xef && 0x80 <= c <= 0xbf
    requires (if a == 0xe0 then 0xa0 else 0x80) <= b <= (if a == 0xed then 0x9f else 0xbf)
    ensures EncodeRune(((a - 0xe0) * 64 + (b - 0x80)) * 64 + (c - 0x80)) == [a, b, c]
  {
    Digits(a - 0xe0, b - 0x80);
    Digits((a - 0xe0) * 64 + (b - 0x80), c - 0x80);
  }

  lemma EncodesFour(a: int, b: int, c: int, d: int)
    requires 0xf0 <= a <= 0xf4 && 0x80 <= c <= 0xbf && 0x80 <= d <= 0xbf
    requires (if a == 0xf0 then 0x90 else 0x80) <= b <= (if a == 0xf4 then 0x8f else 0xbf)
    ensures EncodeRune((((a - 0xf0) * 64 + (b - 0x80)) * 64 + (c - 0x80)) * 64 + (d - 0x80)) == [a, b, c, d]
  {
    Digits(a - 0xf0, b - 0x80);
    Digits((a - 0xf0) * 64 + (b - 0x80), c - 0x80);
    Digits(((a - 0xf0) * 64 + (b - 0x80)) * 64 + (c - 0x80), d - 0x80);
  }

  lemma FirstRuneEncodes(s: seq<Octet>)
    requires Lead(s) > 0
    ensures EncodeRune(FirstRune(s)) == s[..Lead(s)]
  {
    match Lead(s)
    case 1 =>
    case 2 => EncodesTwo(s[0], s[1]);
    case 3 => EncodesThree(s[0], s[1], s[2]);
    case _ => EncodesFour(s[0], s[1], s[2], s[3]);
  }

  lemma LeadOfEncoded(r: Rune, rest: seq<Octet>)
    ensures Lead(EncodeRune(r) + rest) == |EncodeRune(r)|
  {
  }

  lemma {:induction false} EncodedIsValid(rs: seq<Rune>)
    ensures Valid(EncodeRunes(rs))
  {
    if rs != [] {
      var first, rest := EncodeRune(rs[0]), EncodeRunes(rs[1..]);
      LeadOfEncoded(rs[0], rest);
      assert (first + rest)[|first|..] == rest;
      EncodedIsValid(rs[1..]);
    }
  }

  lemma {:induction false} ValidIsEncoded(s: seq<Octet>) returns (rs: seq<Rune>)
    requires Valid(s)
    ensures EncodeRunes(rs) == s
  {
    rs := [];
    if s != [] {
      FirstRuneEncodes(s);
      assert s == s[..Lead(s)] + s[Lead(s)..];
      var rest := ValidIsEncoded(s[Lead(s)..]);
      rs := [FirstRune(s)] + rest;
      assert rs[1..] == rest;
    }
  }

  /** The byte patterns of section 4 are the encodings of section 3. */
  lemma ValidIffEncoded(s: seq<Octet>)
    ensures Valid(s) <==> exists rs :: EncodeRunes(rs) == s
  {
    if Valid(s) {
      var rs := ValidIsEncoded(s);
    }
    if rs :| EncodeRunes(rs) == s {
      EncodedIsValid(rs);
    }
  }

  /** Characters from the examples of section 7. */
  lemma Examples()
    ensures EncodeRune(0x41) == [0x41] && EncodeRune(0x391) == [0xce, 0x91]
    ensures EncodeRune(0x2262) == [0xe2, 0x89, 0xa2] && EncodeRune(0x233b4) == [0xf0, 0xa3, 0x8e, 0xb4]
  {
  }
}
