/** Output templates: field tokens and escapes in a format string. */
module Template {
  import opened Wrappers
  import Seqs

  /** A message as templates see it: texts are byte strings, and each property value is
      already printed. `allProperties` is the list that %h prints. */
  datatype Message = Message(data: string, messageID: string, correlationID: string, replyTo: string,
                             contentType: string, priority: int, persistent: bool, allProperties: string,
                             properties: map<string, string>, internalMetadata: map<string, string>)

  // ---------- Decimal numbers ----------

  function Digits(n: nat): (r: string)
    ensures r != ""
  {
    if n < 10 then [(n + '0' as int) as char] else Digits(n / 10) + [(n % 10 + '0' as int) as char]
  }

  function Itoa(n: int): string {
    if n < 0 then "-" + Digits(-n) else Digits(n)
  }

  function DigitsValue(s: string): int {
    if s == "" then 0 else DigitsValue(s[..|s| - 1]) * 10 + (s[|s| - 1] as int - '0' as int)
  }

  lemma {:induction false} DigitsRead(n: nat)
    ensures DigitsValue(Digits(n)) == n && forall c | c in Digits(n) :: '0' <= c <= '9'
  {
    if n >= 10 {
      DigitsRead(n / 10);
      assert Digits(n)[..|Digits(n)| - 1] == Digits(n / 10);
    }
  }

  // ---------- Tokens ----------

  datatype Token = Lit(text: string) | Field(name: char) | Property(key: string) | Metadata(key: string)

  predicate IsField(c: char) {
    c == 's' || c == 'S' || c == 'i' || c == 'c' || c == 'r' || c == 'y' || c == 'P' || c == 'u' || c == 'h'
  }

  function Lookup(values: map<string, string>, key: string): string {
    if key in values then values[key] else ""
  }

  function FieldText(m: Message, name: char): string {
    match name
    case 's' => m.data
    case 'S' => Itoa(|m.data|)
    case 'i' => m.messageID
    case 'c' => m.correlationID
    case 'r' => m.replyTo
    case 'y' => m.contentType
    case 'P' => Itoa(m.priority)
    case 'u' => if m.persistent then "true" else "false"
    case _ => m.allProperties
  }

  function TokenText(m: Message, t: Token): string {
    match t
    case Lit(text) => text
    case Field(name) => FieldText(m, name)
    case Property(key) => Lookup(m.properties, key)
    case Metadata(key) => Lookup(m.internalMetadata, key)
  }

  /** The place of a character in a text, or the text's length. */
  function IndexOf(s: string, c: char): (n: nat)
    ensures n <= |s| && c !in s[..n] && (n < |s| ==> s[n] == c)
  {
    if s == "" || s[0] == c then 0 else 1 + IndexOf(s[1..], c)
  }

  function Escaped(c: char): string {
    match c
    case 'n' => "\n"
    case 't' => "\t"
    case 'r' => "\r"
    case '\\' => "\\"
    case _ => "\\" + [c]
  }

  /** The name in braces that a text starts with, if it does. */
  function BraceName(s: string): Option<string> {
    if s == "" || s[0] != '{' || IndexOf(s, '}') == |s| then None else Some(s[1..IndexOf(s, '}')])
  }

  /** The token a format starts with, and its length there. */
  function FirstToken(f: string): (r: (Token, nat))
    requires f != ""
    ensures 0 < r.1 <= |f|
  {
    if f[0] == '\\' then
      if |f| == 1 then (Lit("\\"), 1) else (Lit(Escaped(f[1])), 2)
    else if f[0] == '%' then
      if |f| == 1 then (Lit("%"), 1)
      else if IsField(f[1]) then (Field(f[1]), 2)
      else if (f[1] == 'p' || f[1] == 'm') && BraceName(f[2..]).Some? then
        var key := BraceName(f[2..]).value;
        (if f[1] == 'p' then Property(key) else Metadata(key), |key| + 4)
      else if f[1] == '%' then (Lit("%"), 2)
      else (Lit("%" + [f[1]]), 2)
    else (Lit([f[0]]), 1)
  }

  function Tokens(f: string): seq<Token>
    decreases |f|
  {
    if f == "" then [] else var (t, n) := FirstToken(f); [t] + Tokens(f[n..])
  }

  function Render(m: Message, tokens: seq<Token>): string {
    if tokens == [] then "" else TokenText(m, tokens[0]) + Render(m, tokens[1..])
  }

  /** The message printed by the format. */
  function Formatted(m: Message, f: string): string {
    Render(m, Tokens(f))
  }

  lemma FormattedStep(m: Message, f: string)
    requires f != ""
    ensures var (t, n) := FirstToken(f); Formatted(m, f) == TokenText(m, t) + Formatted(m, f[n..])
  {
    var (t, n) := FirstToken(f);
    assert ([t] + Tokens(f[n..]))[1..] == Tokens(f[n..]);
  }

  // ---------- The interpreter ----------

  /** The name in braces at index `j`, with the index of the closing brace. */
  method BraceArg(format: string, j: nat) returns (key: string, end: nat, ok: bool)
    requires j <= |format|
    ensures ok <==> BraceName(format[j..]).Some?
    ensures ok ==> key == BraceName(format[j..]).value && end == j + |key| + 1 < |format|
  {
    if j >= |format| || format[j] != '{' {
      return "", 0, false;
    }
    var rel := IndexOf(format[j..], '}');
    if rel == |format[j..]| {
      return "", 0, false;
    }
    end := j + rel;
    key := format[j + 1..end];
    assert key == format[j..][1..rel];
    ok := true;
  }

  /** Appends what the escape at index `i` stands for; gives the index of its last byte. */
  method WriteEscape(b: string, format: string, i: nat) returns (out: string, last: nat)
    requires i < |format| && format[i] == '\\'
    ensures i <= last < |format| && last + 1 - i == FirstToken(format[i..]).1
    ensures FirstToken(format[i..]).0.Lit? && out == b + FirstToken(format[i..]).0.text
  {
    if i + 1 >= |format| {
      return b + "\\", i;
    }
    match format[i + 1] {
      case 'n' => out := b + "\n";
      case 't' => out := b + "\t";
      case 'r' => out := b + "\r";
      case '\\' => out := b + "\\";
      case _ =>
        out := b + "\\";
        out := out + [format[i + 1]];
    }
    last := i + 1;
    assert out == b + Escaped(format[i + 1]);
  }

  /** Appends what the token at index `i` stands for; gives the index of its last byte. */
  method WriteToken(b: string, m: Message, format: string, i: nat) returns (out: string, last: nat)
    requires i < |format| && format[i] == '%'
    ensures i <= last < |format| && last + 1 - i == FirstToken(format[i..]).1
    ensures out == b + TokenText(m, FirstToken(format[i..]).0)
  {
    if i + 1 >= |format| {
      return b + "%", i;
    }
    last := i + 1;
    assert format[i..][2..] == format[i + 2..];
    match format[i + 1] {
      case 's' => out := b + m.data;
      case 'S' => out := b + Itoa(|m.data|);
      case 'i' => out := b + m.messageID;
      case 'c' => out := b + m.correlationID;
      case 'r' => out := b + m.replyTo;
      case 'y' => out := b + m.contentType;
      case 'P' => out := b + Itoa(m.priority);
      case 'u' => out := b + if m.persistent then "true" else "false";
      case 'h' => out := b + m.allProperties;
      case 'p' =>
        var key, end, ok := BraceArg(format, i + 2);
        if ok {
          return b + Lookup(m.properties, key), end;
        }
        out := b + "%p";
      case 'm' =>
        var key, end, ok := BraceArg(format, i + 2);
        if ok {
          return b + Lookup(m.internalMetadata, key), end;
        }
        out := b + "%m";
      case '%' => out := b + "%";
      case _ => out := b + ("%" + [format[i + 1]]);
    }
  }

  /** What the format prints from index `i` on. */
  function PrintedFrom(m: Message, format: string, i: nat): string
    requires i <= |format|
  {
    Formatted(m, format[i..])
  }

  lemma StepAt(m: Message, format: string, i: nat, b: string, out: string, next: nat)
    requires i < |format|
    requires next == i + FirstToken(format[i..]).1 && out == b + TokenText(m, FirstToken(format[i..]).0)
    ensures out + PrintedFrom(m, format, next) == b + PrintedFrom(m, format, i)
  {
    FormattedStep(m, format[i..]);
    Seqs.DropTwice(format, i, next - i);
    Seqs.Associate(b, TokenText(m, FirstToken(format[i..]).0), PrintedFrom(m, format, next));
  }

  /** The token at `i`, appended, and the index behind it. */
  method WriteNext(b: string, m: Message, format: string, i: nat) returns (out: string, next: nat)
    requires i < |format|
    ensures next == i + FirstToken(format[i..]).1 && out == b + TokenText(m, FirstToken(format[i..]).0)
  {
    var last := i;
    if format[i] == '\\' {
      out, last := WriteEscape(b, format, i);
    } else if format[i] == '%' {
      out, last := WriteToken(b, m, format, i);
    } else {
      out := b + [format[i]];
    }
    next := last + 1;
  }

  /** One turn of the loop leaves the same to print. */
  method Turn(b: string, m: Message, format: string, i: nat) returns (out: string, next: nat)
    requires i < |format|
    ensures i < next <= |format| && out + PrintedFrom(m, format, next) == b + PrintedFrom(m, format, i)
  {
    out, next := WriteNext(b, m, format, i);
    StepAt(m, format, i, b, out, next);
  }

  lemma PrintedEnds(m: Message, format: string, b: string)
    ensures PrintedFrom(m, format, 0) == Formatted(m, format)
    ensures "" + PrintedFrom(m, format, 0) == PrintedFrom(m, format, 0)
    ensures b + PrintedFrom(m, format, |format|) == b
  {
    assert format[0..] == format && format[|format|..] == "";
  }

  method FormatMessage(m: Message, format: string) returns (b: string)
    ensures b == Formatted(m, format)
  {
    b := "";
    var i := 0;
    PrintedEnds(m, format, "");
    while i < |format|
      invariant i <= |format|
      invariant b + PrintedFrom(m, format, i) == Formatted(m, format)
    {
      b, i := Turn(b, m, format, i);
    }
    PrintedEnds(m, format, b);
  }

  // ---------- Laws ----------

  /** The spans of the tokens in the format. */
  function Spans(f: string): seq<string>
    decreases |f|
  {
    if f == "" then [] else var n := FirstToken(f).1; [f[..n]] + Spans(f[n..])
  }

  function Concat(parts: seq<string>): string {
    if parts == [] then "" else parts[0] + Concat(parts[1..])
  }

  /** A literal is its own span, but for the five escapes: nothing is dropped silently. */
  predicate FailsSoft(t: Token, span: string) {
    t.Lit? ==>
      t.text == if span == "\\n" then "\n" else if span == "\\t" then "\t" else if span == "\\r" then "\r"
                else if span == "\\\\" then "\\" else if span == "%%" then "%" else span
  }

  lemma FirstFailsSoft(f: string)
    requires f != ""
    ensures FailsSoft(FirstToken(f).0, f[..FirstToken(f).1])
  {
    if |f| == 1 {
      assert f[..1] == [f[0]];
    } else {
      assert f[..1] == [f[0]] && f[..2] == [f[0], f[1]];
    }
  }

  /** The spans cover the format, byte for byte and in order. */
  lemma {:induction false} SpansCover(f: string)
    ensures Concat(Spans(f)) == f && |Spans(f)| == |Tokens(f)|
    ensures forall k | 0 <= k < |Spans(f)| :: FailsSoft(Tokens(f)[k], Spans(f)[k])
    decreases |f|
  {
    if f != "" {
      var (t, n) := FirstToken(f);
      SpansCover(f[n..]);
      assert f == f[..n] + f[n..];
      FirstFailsSoft(f);
    }
  }

  /** Every percent sign and every backslash twice. */
  function Doubled(s: string): string {
    if s == "" then ""
    else (if s[0] == '%' || s[0] == '\\' then [s[0], s[0]] else [s[0]]) + Doubled(s[1..])
  }

  lemma DoubledStep(m: Message, c: char, f: string)
    ensures Formatted(m, (if c == '%' || c == '\\' then [c, c] else [c]) + f) == [c] + Formatted(m, f)
  {
    var head := if c == '%' || c == '\\' then [c, c] else [c];
    FormattedStep(m, head + f);
    assert (head + f)[|head|..] == f;
  }

  /** Doubled text stands for itself, whatever comes after it. */
  lemma {:induction false} DoubledIsLiteral(m: Message, s: string, f: string)
    ensures Formatted(m, Doubled(s) + f) == s + Formatted(m, f)
  {
    if s == "" {
      assert Doubled(s) + f == f && s + Formatted(m, f) == Formatted(m, f);
    } else {
      var head := if s[0] == '%' || s[0] == '\\' then [s[0], s[0]] else [s[0]];
      Seqs.Associate(head, Doubled(s[1..]), f);
      DoubledStep(m, s[0], Doubled(s[1..]) + f);
      DoubledIsLiteral(m, s[1..], f);
      Seqs.Associate([s[0]], s[1..], Formatted(m, f));
      assert s == [s[0]] + s[1..];
    }
  }

  /** Doubling renders back to the text. */
  lemma DoublingRoundTrip(m: Message, s: string)
    ensures Formatted(m, Doubled(s)) == s
  {
    DoubledIsLiteral(m, s, "");
    Seqs.Empty(Doubled(s));
    Seqs.Empty(s);
  }

  lemma FieldFirst(m: Message, name: char, f: string)
    requires IsField(name)
    ensures Formatted(m, ['%', name] + f) == FieldText(m, name) + Formatted(m, f)
  {
    FormattedStep(m, ['%', name] + f);
    Seqs.Drop(['%', name], f, 0);
  }

  /** Literal text round anything that renders by itself in front of literal text. */
  lemma BetweenLiterals(m: Message, before: string, token: string, text: string, after: string)
    requires Formatted(m, token + Doubled(after)) == text + Formatted(m, Doubled(after))
    ensures Formatted(m, Doubled(before) + (token + Doubled(after))) == before + (text + after)
  {
    DoubledIsLiteral(m, before, token + Doubled(after));
    DoublingRoundTrip(m, after);
  }

  /** A field between literal texts: its text is put there as it is, and is never read as a
      format itself, whatever it holds. */
  lemma FieldIsSubstitutedOnce(m: Message, before: string, name: char, after: string)
    requires IsField(name)
    ensures Formatted(m, Doubled(before) + (['%', name] + Doubled(after))) == before + (FieldText(m, name) + after)
  {
    FieldFirst(m, name, Doubled(after));
    BetweenLiterals(m, before, ['%', name], FieldText(m, name), after);
  }

  /** What each letter prints, wherever it stands between literal texts. */
  lemma LettersPrint(m: Message, before: string, after: string)
    ensures Formatted(m, Doubled(before) + ("%s" + Doubled(after))) == before + (m.data + after)
    ensures Formatted(m, Doubled(before) + ("%i" + Doubled(after))) == before + (m.messageID + after)
    ensures Formatted(m, Doubled(before) + ("%c" + Doubled(after))) == before + (m.correlationID + after)
    ensures Formatted(m, Doubled(before) + ("%r" + Doubled(after))) == before + (m.replyTo + after)
    ensures Formatted(m, Doubled(before) + ("%y" + Doubled(after))) == before + (m.contentType + after)
    ensures Formatted(m, Doubled(before) + ("%h" + Doubled(after))) == before + (m.allProperties + after)
    ensures Formatted(m, Doubled(before) + ("%u" + Doubled(after))) ==
            before + ((if m.persistent then "true" else "false") + after)
  {
    FieldIsSubstitutedOnce(m, before, 's', after);
    FieldIsSubstitutedOnce(m, before, 'i', after);
    FieldIsSubstitutedOnce(m, before, 'c', after);
    FieldIsSubstitutedOnce(m, before, 'r', after);
    FieldIsSubstitutedOnce(m, before, 'y', after);
    FieldIsSubstitutedOnce(m, before, 'h', after);
    FieldIsSubstitutedOnce(m, before, 'u', after);
  }

  /** The number that a text with an optional minus sign stands for, in decimal. */
  function Reads(s: string): int {
    if s != "" && s[0] == '-' then -DigitsValue(s[1..]) else DigitsValue(s)
  }

  /** A number is printed in the least number of decimal digits. */
  lemma {:induction false} NoLeadingZero(n: nat)
    ensures n > 0 ==> Digits(n)[0] != '0'
  {
    if n >= 10 {
      NoLeadingZero(n / 10);
      assert Digits(n)[0] == Digits(n / 10)[0];
    }
  }

  lemma PrintedNumber(n: int)
    ensures Reads(Itoa(n)) == n && Itoa(n) != ""
    ensures n > 0 ==> Itoa(n)[0] != '0'
  {
    DigitsRead(if n < 0 then -n else n);
    NoLeadingZero(if n < 0 then -n else n);
    if n < 0 {
      assert Itoa(n)[1..] == Digits(-n);
    } else {
      assert Digits(n)[0] in Digits(n);
    }
  }

  /** The letters for numbers print what reads back as the size and the priority. */
  lemma NumbersPrint(m: Message, before: string, after: string) returns (size: string, priority: string)
    ensures Reads(size) == |m.data| && Reads(priority) == m.priority
    ensures Formatted(m, Doubled(before) + ("%S" + Doubled(after))) == before + (size + after)
    ensures Formatted(m, Doubled(before) + ("%P" + Doubled(after))) == before + (priority + after)
  {
    size, priority := Itoa(|m.data|), Itoa(m.priority);
    PrintedNumber(|m.data|);
    PrintedNumber(m.priority);
    FieldIsSubstitutedOnce(m, before, 'S', after);
    FieldIsSubstitutedOnce(m, before, 'P', after);
  }

  lemma EscapeFirst(m: Message, c: char, f: string)
    ensures Formatted(m, ['\\', c] + f) == Escaped(c) + Formatted(m, f)
  {
    FormattedStep(m, ['\\', c] + f);
    Seqs.Drop(['\\', c], f, 0);
  }

  /** What a backslash and the character after it print: a line break, a tab, a carriage return,
      a backslash, and otherwise both as they are. */
  lemma EscapesPrint(m: Message, before: string, c: char, after: string) returns (text: string)
    ensures Formatted(m, Doubled(before) + (['\\', c] + Doubled(after))) == before + (text + after)
    ensures c == 'n' ==> text == "\n"
    ensures c == 't' ==> text == "\t"
    ensures c == 'r' ==> text == "\r"
    ensures c == '\\' ==> text == "\\"
    ensures c !in "ntr\\" ==> text == ['\\', c]
  {
    text := Escaped(c);
    EscapeFirst(m, c, Doubled(after));
    BetweenLiterals(m, before, ['\\', c], text, after);
  }

  /** A percent sign prints as itself in front of any character that is no letter of a field and
      not another percent sign, except a name in braces after `p` or `m`. */
  lemma UnknownPrintsItself(m: Message, before: string, c: char, after: string)
    requires c !in "sSicryPuhpm%\\"
    ensures Formatted(m, Doubled(before) + (['%', c] + Doubled(after))) == before + (['%', c] + after)
  {
    FormattedStep(m, ['%', c] + Doubled(after));
    Seqs.Drop(['%', c], Doubled(after), 0);
    BetweenLiterals(m, before, ['%', c], ['%', c], after);
  }

  lemma {:induction false} IndexAt(before: string, c: char, after: string)
    requires c !in before
    ensures IndexOf(before + ([c] + after), c) == |before|
  {
    if before == "" {
      Seqs.Empty([c] + after);
    } else {
      assert (before + ([c] + after))[1..] == before[1..] + ([c] + after);
      IndexAt(before[1..], c, after);
    }
  }

  lemma NamedFirst(m: Message, c: char, key: string, f: string)
    requires (c == 'p' || c == 'm') && '}' !in key
    ensures Formatted(m, (['%', c, '{'] + key + ['}']) + f) ==
            Lookup(if c == 'p' then m.properties else m.internalMetadata, key) + Formatted(m, f)
  {
    var token := ['%', c, '{'] + key + ['}'];
    var braces := ['{'] + key + (['}'] + f);
    IndexAt(['{'] + key, '}', f);
    assert token + f == ['%', c] + braces;
    Seqs.Drop(['%', c], braces, 0);
    assert braces[1..|key| + 1] == key;
    assert BraceName(braces) == Some(key);
    FormattedStep(m, token + f);
    Seqs.Drop(token, f, 0);
  }

  /** The same for a property or metadata value named in braces. */
  lemma NamedValueIsSubstitutedOnce(m: Message, before: string, c: char, key: string, after: string)
    requires (c == 'p' || c == 'm') && '}' !in key
    ensures var values := if c == 'p' then m.properties else m.internalMetadata;
            Formatted(m, Doubled(before) + ((['%', c, '{'] + key + ['}']) + Doubled(after))) ==
            before + ((if key in values then values[key] else "") + after)
  {
    var value := Lookup(if c == 'p' then m.properties else m.internalMetadata, key);
    NamedFirst(m, c, key, Doubled(after));
    BetweenLiterals(m, before, ['%', c, '{'] + key + ['}'], value, after);
  }
}
