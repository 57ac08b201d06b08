/** RabbitMQ addresses: names are percent-encoded into them and read back out of them. */
module RabbitAddress {
  import opened Wrappers

  /** A text is its bytes. */
  type Byte = c: char | c as int < 256 witness 'a'
  type Bytes = seq<Byte>

  const EXCHANGES: Bytes := "/exchanges/"
  const QUEUES: Bytes := "/queues/"
  const DEFAULT_EXCHANGE: Bytes := "amq.topic"

  /** The unreserved set of section 2.3 of RFC 3986. */
  predicate IsUnreserved(c: Byte) {
    'a' <= c <= 'z' || 'A' <= c <= 'Z' || '0' <= c <= '9' || c == '-' || c == '.' || c == '_' || c == '~'
  }

  function HexDigit(n: int): Byte
    requires 0 <= n < 16
  {
    if n < 10 then ('0' as int + n) as char else ('A' as int + n - 10) as char
  }

  /** The value of a hexadecimal digit in either case. */
  function HexValue(c: Byte): (r: Option<int>)
    ensures r.Some? ==> 0 <= r.value < 16
  {
    if '0' <= c <= '9' then Some(c as int - '0' as int)
    else if 'a' <= c <= 'f' then Some(c as int - 'a' as int + 10)
    else if 'A' <= c <= 'F' then Some(c as int - 'A' as int + 10)
    else None
  }

  function EscapeByte(c: Byte): (r: Bytes)
    ensures r != [] && forall d | d in r :: d == '%' || IsUnreserved(d)
  {
    if IsUnreserved(c) then [c] else ['%', HexDigit(c as int / 16), HexDigit(c as int % 16)]
  }

  /** Percent-encoding, section 2.1 of RFC 3986. */
  function Escape(s: Bytes): (r: Bytes)
    ensures forall d | d in r :: d == '%' || IsUnreserved(d)
    ensures |r| >= |s|
  {
    if s == [] then [] else EscapeByte(s[0]) + Escape(s[1..])
  }

  /** Percent-decoding; nothing when a percent sign is not followed by two digits. */
  function PathUnescape(s: Bytes): (r: Option<Bytes>)
    ensures r.Some? ==> |r.value| <= |s|
  {
    if s == [] then Some([])
    else if s[0] != '%' then
      match PathUnescape(s[1..])
      case Some(rest) => Some([s[0]] + rest)
      case None => None
    else if |s| < 3 then None
    else
      match (HexValue(s[1]), HexValue(s[2]), PathUnescape(s[3..]))
      case (Some(hi), Some(lo), Some(rest)) => Some([(16 * hi + lo) as char] + rest)
      case _ => None
  }

  lemma HexDigits(c: Byte)
    ensures var hi, lo := c as int / 16, c as int % 16;
            HexValue(HexDigit(hi)) == Some(hi) && HexValue(HexDigit(lo)) == Some(lo) && 16 * hi + lo == c as int
  {
  }

  lemma UnescapeDigits(hi: Byte, lo: Byte, s: Bytes)
    requires HexValue(hi).Some? && HexValue(lo).Some? && PathUnescape(s).Some?
    ensures PathUnescape(['%', hi, lo] + s) ==
            Some([(16 * HexValue(hi).value + HexValue(lo).value) as char] + PathUnescape(s).value)
  {
    var t: Bytes := ['%', hi, lo] + s;
    assert t[0] == '%' && t[1] == hi && t[2] == lo && t[3..] == s;
  }

  lemma EscapeByteUnescapes(c: Byte, s: Bytes)
    requires PathUnescape(s).Some?
    ensures PathUnescape(EscapeByte(c) + s) == Some([c] + PathUnescape(s).value)
  {
    if IsUnreserved(c) {
      assert (EscapeByte(c) + s)[1..] == s;
    } else {
      HexDigits(c);
      UnescapeDigits(HexDigit(c as int / 16), HexDigit(c as int % 16), s);
    }
  }

  /** Decoding undoes encoding, whatever the bytes. */
  lemma {:induction false} UnescapeEscape(s: Bytes)
    ensures PathUnescape(Escape(s)) == Some(s)
  {
    if s != [] {
      UnescapeEscape(s[1..]);
      EscapeByteUnescapes(s[0], Escape(s[1..]));
      assert s == [s[0]] + s[1..];
    }
  }

  lemma {:induction false} EscapeUnreserved(s: Bytes)
    requires forall c | c in s :: IsUnreserved(c)
    ensures Escape(s) == s
  {
    if s != [] {
      EscapeUnreserved(s[1..]);
      assert s == [s[0]] + s[1..];
    }
  }

  lemma {:induction false} EscapeAppend(s: Bytes, c: Byte)
    ensures Escape(s + [c]) == Escape(s) + EscapeByte(c)
  {
    if s == [] {
      assert [c][1..] == [];
      assert [] + [c] == [c];
      assert EscapeByte(c) + [] == EscapeByte(c);
    } else {
      assert (s + [c])[1..] == s[1..] + [c];
      EscapeAppend(s[1..], c);
    }
  }

  method EscapeName(s: Bytes) returns (r: Bytes)
    ensures r == Escape(s)
  {
    var needsEscape := false;
    var i := 0;
    while i < |s|
      invariant i <= |s| && (needsEscape || forall j | 0 <= j < i :: IsUnreserved(s[j]))
    {
      if !IsUnreserved(s[i]) {
        needsEscape := true;
        break;
      }
      i := i + 1;
    }
    if !needsEscape {
      EscapeUnreserved(s);
      return s;
    }
    r := [];
    for k := 0 to |s|
      invariant r == Escape(s[..k])
    {
      EscapeAppend(s[..k], s[k]);
      assert s[..k + 1] == s[..k] + [s[k]];
      var c := s[k];
      if IsUnreserved(c) {
        r := r + [c];
      } else {
        r := r + ['%', HexDigit(c as int / 16), HexDigit(c as int % 16)];
      }
    }
    assert s[..|s|] == s;
  }

  // ---------- Addresses ----------

  predicate IsAbsolute(name: Bytes) {
    name != [] && name[0] == '/'
  }

  /** The address for the routing flags, or nothing when there is no name at all. */
  function ResolveTarget(isTopic: bool, to: Bytes, exchange: Bytes, queue: Bytes): Option<Bytes> {
    if IsAbsolute(to) then Some(to)
    else if queue != [] then Some(QUEUES + Escape(queue))
    else if exchange != [] then
      Some(EXCHANGES + Escape(exchange) + if to != [] then "/" + Escape(to) else [])
    else if to == [] then None
    else if isTopic then Some(EXCHANGES + DEFAULT_EXCHANGE + "/" + Escape(to))
    else Some(QUEUES + Escape(to))
  }

  function TopicAddress(name: Bytes, key: Bytes): Bytes {
    if IsAbsolute(name) then name
    else if key != [] then EXCHANGES + Escape(name) + "/" + Escape(key)
    else EXCHANGES + DEFAULT_EXCHANGE + "/" + Escape(name)
  }

  /** What comes before the first slash, and what comes after it. */
  function Cut(s: Bytes): (r: (Bytes, Bytes))
    ensures |r.0| + |r.1| <= |s|
  {
    if s == [] then ([], [])
    else if s[0] == '/' then ([], s[1..])
    else var (before, after) := Cut(s[1..]); ([s[0]] + before, after)
  }

  function UnescapeOrRaw(raw: Bytes): (r: Bytes)
    ensures |r| <= |raw|
  {
    match PathUnescape(raw)
    case Some(s) => s
    case None => raw
  }

  /** The exchange and the routing key in an exchange address. */
  function ParseExchangeAddress(addr: Bytes): Option<(Bytes, Bytes)> {
    if !(EXCHANGES <= addr) then None
    else
      var (rawExchange, rawKey) := Cut(addr[|EXCHANGES|..]);
      Some((UnescapeOrRaw(rawExchange), UnescapeOrRaw(rawKey)))
  }

  lemma {:induction false} CutAt(before: Bytes, after: Bytes)
    requires '/' !in before
    ensures Cut(before + "/" + after) == (before, after)
    ensures Cut(before) == (before, [])
  {
    if before == [] {
      assert ([] + "/" + after)[1..] == after;
    } else {
      assert (before + "/" + after)[1..] == before[1..] + "/" + after;
      assert before == [before[0]] + before[1..];
      CutAt(before[1..], after);
    }
  }

  lemma UnescapedName(s: Bytes)
    ensures UnescapeOrRaw(Escape(s)) == s
  {
    UnescapeEscape(s);
  }

  lemma ParsePrefixed(rest: Bytes)
    ensures ParseExchangeAddress(EXCHANGES + rest) == Some((UnescapeOrRaw(Cut(rest).0), UnescapeOrRaw(Cut(rest).1)))
  {
    assert (EXCHANGES + rest)[|EXCHANGES|..] == rest;
  }

  lemma ParseShorter(addr: Bytes)
    ensures var p := ParseExchangeAddress(addr); p.Some? ==> |p.value.1| < |addr|
  {
  }

  /** Every exchange and key come back out of the address made of them. */
  lemma ParseBuilt(exchange: Bytes, key: Bytes)
    ensures ParseExchangeAddress(EXCHANGES + Escape(exchange) + "/" + Escape(key)) == Some((exchange, key))
    ensures ParseExchangeAddress(EXCHANGES + Escape(exchange)) == Some((exchange, []))
  {
    var e, k := Escape(exchange), Escape(key);
    CutAt(e, k);
    UnescapedName(exchange);
    UnescapedName(key);
    ParsePrefixed(e + "/" + k);
    ParsePrefixed(e);
    AssociateParts(EXCHANGES, e, "/", k);
  }

  lemma AssociateParts(a: Bytes, b: Bytes, c: Bytes, d: Bytes)
    ensures a + b + c + d == a + (b + c + d) == a + b + (c + d)
  {
  }

  lemma DefaultIsUnreserved()
    ensures Escape(DEFAULT_EXCHANGE) == DEFAULT_EXCHANGE
  {
    EscapeUnreserved(DEFAULT_EXCHANGE);
  }

  lemma DefaultExchange(to: Bytes)
    ensures ParseExchangeAddress(EXCHANGES + DEFAULT_EXCHANGE + "/" + Escape(to)) == Some((DEFAULT_EXCHANGE, to))
  {
    DefaultIsUnreserved();
    ParseBuilt(DEFAULT_EXCHANGE, to);
  }

  /** Publishing to an exchange with a key: the pair comes back exactly when the key is not
      taken for an address of its own. */
  lemma ExchangeRoundTrip(isTopic: bool, to: Bytes, exchange: Bytes)
    requires exchange != [] && to != []
    ensures var addr := ResolveTarget(isTopic, to, exchange, []);
            addr.Some? && (ParseExchangeAddress(addr.value) == Some((exchange, to)) <==> !IsAbsolute(to))
  {
    ParseBuilt(exchange, to);
    ParseShorter(to);
    AssociateParts(EXCHANGES, Escape(exchange), "/", Escape(to));
  }

  /** The other targets: an exchange alone, a bare topic, and queues, which are no exchange
      address. */
  lemma OtherTargets(isTopic: bool, name: Bytes, queue: Bytes)
    requires name != []
    ensures ParseExchangeAddress(ResolveTarget(isTopic, [], name, []).value) == Some((name, []))
    ensures !IsAbsolute(name) ==>
              ParseExchangeAddress(ResolveTarget(isTopic, name, [], []).value) ==
              if isTopic then Some((DEFAULT_EXCHANGE, name)) else None
    ensures !IsAbsolute(name) && queue != [] ==>
              ParseExchangeAddress(ResolveTarget(isTopic, name, [], queue).value) == None
  {
    ParseBuilt(name, []);
    DefaultExchange(name);
    assert EXCHANGES + Escape(name) + [] == EXCHANGES + Escape(name);
    NoExchange(Escape(name));
    NoExchange(Escape(queue));
  }

  /** A queue's address is "/queues/" and then what decodes to the queue, whether it was named
      as a queue or as a bare target. */
  lemma QueueRoundTrip(isTopic: bool, to: Bytes, exchange: Bytes, queue: Bytes)
    requires !IsAbsolute(to)
    ensures queue != [] ==>
              var addr := ResolveTarget(isTopic, to, exchange, queue);
              addr.Some? && "/queues/" <= addr.value && PathUnescape(addr.value[8..]) == Some(queue)
    ensures to != [] ==>
              var addr := ResolveTarget(false, to, [], []);
              addr.Some? && "/queues/" <= addr.value && PathUnescape(addr.value[8..]) == Some(to)
  {
    UnescapeEscape(queue);
    UnescapeEscape(to);
    assert (QUEUES + Escape(queue))[8..] == Escape(queue) && (QUEUES + Escape(to))[8..] == Escape(to);
  }

  /** The fixed parts of exchange addresses: "/exchanges/", then the exchange, and after a slash
      the key; a bare topic goes to "amq.topic". */
  lemma ExchangeAddressParts(to: Bytes, exchange: Bytes)
    requires to != [] && !IsAbsolute(to)
    ensures exchange != [] ==>
              ResolveTarget(true, to, exchange, []) == Some("/exchanges/" + Escape(exchange) + "/" + Escape(to))
    ensures exchange != [] ==> ResolveTarget(true, [], exchange, []) == Some("/exchanges/" + Escape(exchange))
    ensures ResolveTarget(true, to, [], []) == Some("/exchanges/amq.topic/" + Escape(to))
  {
    assert EXCHANGES + Escape(exchange) + [] == EXCHANGES + Escape(exchange);
    AssociateParts(EXCHANGES, Escape(exchange), "/", Escape(to));
    assert EXCHANGES + DEFAULT_EXCHANGE + "/" == "/exchanges/amq.topic/";
  }

  /** Letters, digits and "-._~" stay; any other byte becomes a percent sign and its two upper-case
      hexadecimal digits. */
  lemma EscapedBytes(c: Byte)
    ensures EscapeByte(c) == [c] <==> c in "-._~" || 'a' <= c <= 'z' || 'A' <= c <= 'Z' || '0' <= c <= '9'
    ensures EscapeByte(c) != [c] ==>
              EscapeByte(c) == ['%', "0123456789ABCDEF"[c as int / 16], "0123456789ABCDEF"[c as int % 16]]
  {
    var digits := "0123456789ABCDEF";
    assert c as int / 16 < 16 && c as int % 16 < 16;
    assert forall n | 0 <= n < 16 :: HexDigit(n) == digits[n];
  }

  /** Hexadecimal digits are read in either case, and nothing else is. */
  lemma HexDigitsRead(c: Byte, n: nat)
    requires n < 16
    ensures HexValue("0123456789ABCDEF"[n]) == HexValue("0123456789abcdef"[n]) == Some(n)
    ensures HexValue(c).Some? <==> c in "0123456789abcdefABCDEF"
  {
  }

  /** A name whose percent signs are not all followed by two digits is taken as it is. */
  lemma {:induction false} MalformedStays(before: Bytes, after: Bytes)
    requires '%' !in before && (|after| < 2 || HexValue(after[0]).None? || HexValue(after[1]).None?)
    ensures UnescapeOrRaw(before + "%" + after) == before + "%" + after
    ensures PathUnescape(before + "%" + after).None?
  {
    if before == [] {
      assert before + "%" + after == "%" + after;
    } else {
      assert (before + "%" + after)[1..] == before[1..] + "%" + after;
      MalformedStays(before[1..], after);
    }
  }

  lemma NoExchange(s: Bytes)
    ensures ParseExchangeAddress(QUEUES + s) == None
  {
    assert (QUEUES + s)[1] == 'q' && EXCHANGES[1] == 'e';
  }

  /** Different exchanges or keys have different addresses. */
  lemma AddressesDiffer(e1: Bytes, k1: Bytes, e2: Bytes, k2: Bytes)
    requires EXCHANGES + Escape(e1) + "/" + Escape(k1) == EXCHANGES + Escape(e2) + "/" + Escape(k2)
    ensures e1 == e2 && k1 == k2
  {
    ParseBuilt(e1, k1);
    ParseBuilt(e2, k2);
  }

  /** So have different queues, and no queue has the address of an exchange. */
  lemma QueuesDiffer(q1: Bytes, q2: Bytes, rest: Bytes)
    ensures QUEUES + Escape(q1) == QUEUES + Escape(q2) ==> q1 == q2
    ensures QUEUES + Escape(q1) != EXCHANGES + rest
  {
    UnescapeEscape(q1);
    UnescapeEscape(q2);
    assert (QUEUES + Escape(q1))[|QUEUES|..] == Escape(q1);
    assert (QUEUES + Escape(q2))[|QUEUES|..] == Escape(q2);
    NoExchange(Escape(q1));
    ParsePrefixed(rest);
  }

  /** A resolved address is absolute, so the topic adapter takes it as it is; and where the
      adapter makes the address itself, it makes the same one. */
  lemma ResolvedIsFinal(isTopic: bool, to: Bytes, exchange: Bytes, queue: Bytes, key: Bytes)
    ensures var addr := ResolveTarget(isTopic, to, exchange, queue);
            && (addr == None <==> to == [] && exchange == [] && queue == [])
            && (addr.Some? ==> IsAbsolute(addr.value) && TopicAddress(addr.value, key) == addr.value)
    ensures to != [] ==> ResolveTarget(true, to, [], []) == Some(TopicAddress(to, []))
    ensures exchange != [] && !IsAbsolute(exchange) && to != [] && !IsAbsolute(to) ==>
              ResolveTarget(true, to, exchange, []) == Some(TopicAddress(exchange, to))
  {
    AssociateParts(EXCHANGES, Escape(exchange), "/", Escape(to));
  }
}
