/** Messages as lines of JSON, one record per line, out and in again. */
module Ndjson {
  import opened Base64
  import opened Prune
  import opened Text
  import opened Wrappers
  import Seqs
  import Utf8

  datatype Message = Message(data: seq<Octet>, key: string, messageID: string, correlationID: string, replyTo: string,
                             contentType: string, priority: int, persistent: bool, properties: map<string, Value>)

  /** A payload that is UTF-8 goes into `data` as it is, any other into `dataBase64`. */
  datatype Record = Record(data: seq<Octet>, dataBase64: string, key: string, messageID: string, correlationID: string,
                           replyTo: string, contentType: string, priority: int, persistent: bool,
                           properties: map<string, Value>)

  function NewMessageRecord(m: Message, includePayload: bool): Record {
    var text := includePayload && Utf8.Valid(m.data);
    var binary := includePayload && !Utf8.Valid(m.data);
    Record(if text then m.data else [], if binary then Encode(m.data) else "", m.key, m.messageID, m.correlationID,
           m.replyTo, m.contentType, m.priority, m.persistent, PruneMap(m.properties))
  }

  function Payload(r: Record): Option<seq<Octet>> {
    if r.dataBase64 != "" then Decode(r.dataBase64) else Some(r.data)
  }

  /** A record gives back every payload byte for byte, the empty one included, and only UTF-8
      is ever put where JSON wants text. */
  lemma RecordKeepsPayload(m: Message)
    ensures Payload(NewMessageRecord(m, true)) == Some(m.data)
    ensures Utf8.Valid(NewMessageRecord(m, true).data)
  {
    DecodeEncode(m.data);
  }

  /** A record field by field: UTF-8 payloads as they are, others as what decodes to them, none
      if it is not wanted; of the properties those with something worth keeping. */
  lemma RecordFields(m: Message, includePayload: bool, k: string)
    ensures var r := NewMessageRecord(m, includePayload);
            && r.key == m.key && r.messageID == m.messageID && r.correlationID == m.correlationID
            && r.replyTo == m.replyTo && r.contentType == m.contentType && r.priority == m.priority
            && r.persistent == m.persistent
            && (!includePayload ==> r.data == [] && r.dataBase64 == "")
            && (includePayload && Utf8.Valid(m.data) ==> r.data == m.data && r.dataBase64 == "")
            && (includePayload && !Utf8.Valid(m.data) ==> r.data == [] && Decode(r.dataBase64) == Some(m.data))
            && (k in r.properties <==> k in m.properties && Solid(m.properties[k]))
            && (k in m.properties && Clean(m.properties[k]) ==> k in r.properties && r.properties[k] == m.properties[k])
  {
    DecodeEncode(m.data);
    if k in m.properties {
      PruneCleans(m.properties[k]);
      PruneFixesClean(m.properties[k]);
    }
  }

  // ---------- The JSON library ----------

  /** The library as a pair of functions. */
  datatype Codec = Codec(marshal: Record -> string, unmarshal: string -> Option<Record>)

  /** JSON turns the kinds of numbers into one, so only values without them come back the same. */
  predicate NoScalars(v: Value) {
    match v
    case Null => true
    case Str(_) => true
    case Scalar(_) => false
    case List(items) => forall i | 0 <= i < |items| :: NoScalars(items[i])
    case Map(entries) => forall k | k in entries :: NoScalars(entries[k])
  }

  predicate NoScalarIn(entries: map<string, Value>) {
    forall k | k in entries :: NoScalars(entries[k])
  }

  /** What is taken for granted of the library: a record becomes one line that is not blank and
      has no white space at its ends; reading it back gives valid text and base64 unchanged,
      and the whole record if it has no numbers among its properties. */
  ghost predicate Faithful(c: Codec) {
    forall r: Record :: FaithfulOn(c, r, c.marshal(r))
  }

  predicate FaithfulOn(c: Codec, r: Record, line: string) {
    && line != "" && Trimmed(line) && '\n' !in line
    && c.unmarshal(line).Some?
    && var back := c.unmarshal(line).value;
       && (Utf8.Valid(r.data) ==> back.data == r.data)
       && back.dataBase64 == r.dataBase64
       && (Utf8.Valid(r.data) && NoScalarIn(r.properties) ==> back == r)
  }

  // ---------- Reading ----------

  /** The scanner's buffer: a line must be shorter, in bytes. */
  const MAX_LINE := 16 * 1024 * 1024

  function ByteSize(s: string): nat {
    if s == "" then 0
    else
      (if s[0] as int < 0x80 then 1 else if s[0] as int < 0x800 then 2 else if s[0] as int < 0x10000 then 3 else 4)
      + ByteSize(s[1..])
  }

  datatype End = Done | BadRecord | Refused | TooLong

  /** The records that were visited without an error, and how the scan ended. */
  datatype Outcome = Outcome(visited: seq<Record>, end: End)

  /** Where the first line ends. */
  function LineEnd(text: string): (n: nat)
    ensures n <= |text| && '\n' !in text[..n] && (n < |text| ==> text[n] == '\n')
  {
    if text == "" || text[0] == '\n' then 0 else 1 + LineEnd(text[1..])
  }

  function AfterLine(text: string): (rest: string)
    ensures text != "" ==> |rest| < |text|
  {
    var n := LineEnd(text);
    if n < |text| then text[n + 1..] else ""
  }

  function DropCR(line: string): string {
    if line != "" && line[|line| - 1] == '\r' then line[..|line| - 1] else line
  }

  /** What a line is. */
  datatype LineRead = Long | Blank | Bad | Good(record: Record)

  function ReadLine(c: Codec, raw: string): LineRead {
    if ByteSize(raw) >= MAX_LINE then Long
    else
      var line := Trim(DropCR(raw));
      if line == "" then Blank
      else
        match c.unmarshal(line)
        case None => Bad
        case Some(r) => Good(r.(properties := PruneMap(r.properties)))
  }

  /** A text as lines; the last one may lack its line break. */
  function Lines(c: Codec, text: string): seq<LineRead>
    decreases |text|
  {
    if text == "" then [] else [ReadLine(c, text[..LineEnd(text)])] + Lines(c, AfterLine(text))
  }

  function Prepend(visited: seq<Record>, later: Outcome): Outcome {
    Outcome(visited + later.visited, later.end)
  }

  lemma PrependTwice(a: seq<Record>, b: seq<Record>, later: Outcome)
    ensures Prepend(a, Prepend(b, later)) == Prepend(a + b, later)
    ensures Prepend([], later) == later
  {
    assert a + (b + later.visited) == a + b + later.visited;
  }

  /** What a line comes to after `k` records, given what the lines after it come to. */
  function Take(accept: (nat, Record) -> bool, line: LineRead, k: nat, later: Outcome): Outcome {
    match line
    case Long => Outcome([], TooLong)
    case Bad => Outcome([], BadRecord)
    case Blank => later
    case Good(record) => if accept(k, record) then Prepend([record], later) else Outcome([], Refused)
  }

  /** What lines come to, after `k` records; `accept` says whether the visit of a record works. */
  function Scan(accept: (nat, Record) -> bool, lines: seq<LineRead>, k: nat): Outcome
    decreases |lines|
  {
    if lines == [] then Outcome([], Done)
    else Take(accept, lines[0], k, Scan(accept, lines[1..], if lines[0].Good? then k + 1 else k))
  }

  /** The records of the good lines, in order. */
  function Goods(lines: seq<LineRead>): seq<Record> {
    if lines == [] then [] else (if lines[0].Good? then [lines[0].record] else []) + Goods(lines[1..])
  }

  /** The scan stopped at line `n`, or at the end, having visited the good lines before. */
  ghost predicate StoppedAt(accept: (nat, Record) -> bool, lines: seq<LineRead>, k: nat, n: nat, o: Outcome) {
    && n <= |lines| && o.visited == Goods(lines[..n])
    && (forall i | 0 <= i < n :: lines[i].Good? || lines[i].Blank?)
    && (forall j | 0 <= j < |o.visited| :: accept(k + j, o.visited[j]))
    && match o.end
       case Done => n == |lines|
       case TooLong => n < |lines| && lines[n].Long?
       case BadRecord => n < |lines| && lines[n].Bad?
       case Refused => n < |lines| && lines[n].Good? && !accept(k + |o.visited|, lines[n].record)
  }

  lemma GoodsCons(lines: seq<LineRead>, n: nat)
    requires lines != [] && n < |lines|
    ensures Goods(lines[..n + 1]) == (if lines[0].Good? then [lines[0].record] else []) + Goods(lines[1..][..n])
  {
    assert lines[..n + 1][1..] == lines[1..][..n];
  }

  lemma GoodOrBlankLater(lines: seq<LineRead>, n: nat)
    requires lines != [] && n < |lines| && (lines[0].Good? || lines[0].Blank?)
    requires forall i | 0 <= i < n :: lines[1..][i].Good? || lines[1..][i].Blank?
    ensures forall i | 0 <= i < n + 1 :: lines[i].Good? || lines[i].Blank?
  {
    forall i | 0 <= i < n + 1
      ensures lines[i].Good? || lines[i].Blank?
    {
      assert i > 0 ==> lines[1..][i - 1] == lines[i];
    }
  }

  lemma AcceptedLater(accept: (nat, Record) -> bool, k: nat, first: Record, visited: seq<Record>)
    requires accept(k, first) && forall j | 0 <= j < |visited| :: accept(k + 1 + j, visited[j])
    ensures forall j | 0 <= j < |[first] + visited| :: accept(k + j, ([first] + visited)[j])
  {
    forall j | 0 <= j < |[first] + visited|
      ensures accept(k + j, ([first] + visited)[j])
    {
      if j > 0 {
        assert accept(k + 1 + (j - 1), visited[j - 1]);
      }
    }
  }

  lemma StoppedAfterBlank(accept: (nat, Record) -> bool, lines: seq<LineRead>, k: nat, n: nat, later: Outcome)
    requires lines != [] && lines[0].Blank? && StoppedAt(accept, lines[1..], k, n, later)
    ensures StoppedAt(accept, lines, k, n + 1, later)
  {
    GoodsCons(lines, n);
    GoodOrBlankLater(lines, n);
    Seqs.Empty(Goods(lines[1..][..n]));
  }

  lemma StoppedAfterGood(accept: (nat, Record) -> bool, lines: seq<LineRead>, k: nat, n: nat, later: Outcome)
    requires lines != [] && lines[0].Good? && accept(k, lines[0].record)
    requires StoppedAt(accept, lines[1..], k + 1, n, later)
    ensures StoppedAt(accept, lines, k, n + 1, Prepend([lines[0].record], later))
  {
    GoodsCons(lines, n);
    GoodOrBlankLater(lines, n);
    AcceptedLater(accept, k, lines[0].record, later.visited);
  }

  /** A scan visits the records of the good lines up to the first line that ends it: one that is
      too long, no record, or a record whose visit fails. Blank lines do nothing. */
  lemma {:induction false} ScanTells(accept: (nat, Record) -> bool, lines: seq<LineRead>, k: nat) returns (n: nat)
    ensures StoppedAt(accept, lines, k, n, Scan(accept, lines, k))
    decreases |lines|
  {
    n := 0;
    if lines != [] && lines[0].Blank? {
      n := ScanTells(accept, lines[1..], k);
      StoppedAfterBlank(accept, lines, k, n, Scan(accept, lines[1..], k));
      n := n + 1;
    } else if lines != [] && lines[0].Good? && accept(k, lines[0].record) {
      n := ScanTells(accept, lines[1..], k + 1);
      StoppedAfterGood(accept, lines, k, n, Scan(accept, lines[1..], k + 1));
      n := n + 1;
    }
  }

  lemma AllSpaceIffTrimsToNothing(s: string)
    ensures Trim(s) == "" <==> AllSpace(s)
  {
    var left, right := TrimSplits(s);
    if Trim(s) == "" {
      assert s == left + right;
    }
    if AllSpace(s) {
      TrimOf(s, "", "");
      assert s + "" + "" == s;
    }
  }

  /** What a line is: too long in bytes of UTF-8, blank if it is nothing but white space, and
      otherwise what the library makes of it, with its properties pruned. */
  lemma LineTells(c: Codec, raw: string)
    ensures var line := ReadLine(c, raw);
            && (line.Long? <==> |Utf8.EncodeRunes(Runes(raw))| >= 16 * 1024 * 1024)
            && (line.Blank? <==> !line.Long? && AllSpace(raw))
            && (line.Good? ==> forall k :: k in line.record.properties ==> Clean(line.record.properties[k]))
  {
    ByteSizeIsUtf8(raw);
    var short := DropCR(raw);
    AllSpaceIffTrimsToNothing(short);
    if short != raw {
      assert raw == short + ['\r'];
      assert AllSpace(raw) <==> AllSpace(short);
    }
    if ReadLine(c, raw).Good? {
      PruneMapTwice(c.unmarshal(Trim(short)).value.properties);
    }
  }

  function Runes(s: string): seq<Utf8.Rune> {
    seq(|s|, i requires 0 <= i < |s| => s[i] as int)
  }

  lemma {:induction false} ByteSizeIsUtf8(s: string)
    ensures ByteSize(s) == |Utf8.EncodeRunes(Runes(s))|
  {
    if s != "" {
      ByteSizeIsUtf8(s[1..]);
      assert Runes(s) == [s[0] as int] + Runes(s[1..]);
    }
  }

  method ForEachRecord(c: Codec, accept: (nat, Record) -> bool, text: string) returns (processed: nat, o: Outcome)
    ensures o == Scan(accept, Lines(c, text), 0) && processed == |o.visited|
  {
    processed := 0;
    var visited: seq<Record> := [];
    var rest := text;
    PrependTwice([], [], Scan(accept, Lines(c, text), 0));
    while rest != ""
      invariant processed == |visited|
      invariant Scan(accept, Lines(c, text), 0) == Prepend(visited, Scan(accept, Lines(c, rest), processed))
      decreases |rest|
    {
      var raw := rest[..LineEnd(rest)];
      rest := AfterLine(rest);
      var line := ReadLine(c, raw);
      ghost var lines := [line] + Lines(c, rest);
      assert lines[0] == line && lines[1..] == Lines(c, rest);
      match line {
        case Long => return processed, Outcome(visited, TooLong);
        case Blank =>
        case Bad => return processed, Outcome(visited, BadRecord);
        case Good(record) =>
          if !accept(processed, record) {
            return processed, Outcome(visited, Refused);
          }
          PrependTwice(visited, [record], Scan(accept, Lines(c, rest), processed + 1));
          visited := visited + [record];
          processed := processed + 1;
      }
    }
    return processed, Outcome(visited, Done);
  }

  // ---------- Out and in again ----------

  function Line(c: Codec, m: Message): string {
    c.marshal(NewMessageRecord(m, true))
  }

  function Export(c: Codec, messages: seq<Message>): string {
    if messages == [] then "" else Line(c, messages[0]) + "\n" + Export(c, messages[1..])
  }

  lemma {:induction false} LineEndAt(line: string, rest: string)
    requires '\n' !in line
    ensures LineEnd(line + "\n" + rest) == |line| && AfterLine(line + "\n" + rest) == rest
  {
    var text := line + "\n" + rest;
    if line != "" {
      assert text[1..] == line[1..] + "\n" + rest;
      LineEndAt(line[1..], rest);
    }
    assert text[|line| + 1..] == rest;
  }

  lemma LinesStep(c: Codec, line: string, rest: string)
    requires '\n' !in line
    ensures Lines(c, line + "\n" + rest) == [ReadLine(c, line)] + Lines(c, rest)
  {
    LineEndAt(line, rest);
    assert (line + "\n" + rest)[..|line|] == line;
  }

  /** What import makes of an exported message. */
  function Imported(c: Codec, m: Message): Record
    requires Faithful(c)
  {
    assert FaithfulOn(c, NewMessageRecord(m, true), Line(c, m));
    var r := c.unmarshal(Line(c, m)).value;
    r.(properties := PruneMap(r.properties))
  }

  lemma {:induction false} PruneKeepsNoScalars(v: Value)
    requires NoScalars(v)
    ensures PruneValue(v).Some? ==> NoScalars(PruneValue(v).value)
    decreases v
  {
    match v
    case List(items) => PruneItemsKeepNoScalars(items);
    case Map(entries) =>
      forall k | k in entries
        ensures PruneValue(entries[k]).Some? ==> NoScalars(PruneValue(entries[k]).value)
      {
        PruneKeepsNoScalars(entries[k]);
      }
    case _ =>
  }

  lemma {:induction false} PruneItemsKeepNoScalars(items: seq<Value>)
    requires forall i | 0 <= i < |items| :: NoScalars(items[i])
    ensures forall i | 0 <= i < |PruneItems(items)| :: NoScalars(PruneItems(items)[i])
    decreases items
  {
    if items != [] {
      PruneKeepsNoScalars(items[0]);
      PruneItemsKeepNoScalars(items[1..]);
    }
  }

  /** Import gives every payload back, and without numbers among the properties the very
      record that was exported: the prune on import finds nothing left to drop. */
  lemma ImportUndoesExport(c: Codec, m: Message)
    requires Faithful(c)
    ensures Payload(Imported(c, m)) == Some(m.data)
    ensures NoScalarIn(m.properties) ==> Imported(c, m) == NewMessageRecord(m, true)
  {
    var r := NewMessageRecord(m, true);
    assert FaithfulOn(c, r, Line(c, m));
    RecordKeepsPayload(m);
    PruneMapTwice(m.properties);
    if NoScalarIn(m.properties) {
      forall k | k in r.properties
        ensures NoScalars(r.properties[k])
      {
        PruneKeepsNoScalars(m.properties[k]);
      }
    }
  }

  lemma ReadExported(c: Codec, m: Message)
    requires Faithful(c)
    ensures ReadLine(c, Line(c, m)) == if ByteSize(Line(c, m)) >= MAX_LINE then Long else Good(Imported(c, m))
  {
    var line := Line(c, m);
    assert FaithfulOn(c, NewMessageRecord(m, true), line);
    TrimOf("", line, "");
    assert "" + line + "" == line;
  }

  /** How many messages come before the first whose line is too long. */
  function Fitting(c: Codec, messages: seq<Message>): (n: nat)
    ensures n <= |messages|
    ensures forall i | 0 <= i < n :: ByteSize(Line(c, messages[i])) < MAX_LINE
    ensures n < |messages| ==> ByteSize(Line(c, messages[n])) >= MAX_LINE
  {
    if messages == [] || ByteSize(Line(c, messages[0])) >= MAX_LINE then 0 else 1 + Fitting(c, messages[1..])
  }

  /** An exported batch, as the scanner reads it. */
  function ExportedLines(c: Codec, messages: seq<Message>): seq<LineRead>
    requires Faithful(c)
  {
    if messages == [] then []
    else [if ByteSize(Line(c, messages[0])) >= MAX_LINE then Long else Good(Imported(c, messages[0]))]
         + ExportedLines(c, messages[1..])
  }

  lemma {:induction false} LinesOfExport(c: Codec, messages: seq<Message>)
    requires Faithful(c)
    ensures Lines(c, Export(c, messages)) == ExportedLines(c, messages)
  {
    if messages != [] {
      assert FaithfulOn(c, NewMessageRecord(messages[0], true), Line(c, messages[0]));
      LinesStep(c, Line(c, messages[0]), Export(c, messages[1..]));
      ReadExported(c, messages[0]);
      LinesOfExport(c, messages[1..]);
    }
  }

  lemma ScanCons(accept: (nat, Record) -> bool, line: LineRead, lines: seq<LineRead>, k: nat)
    ensures Scan(accept, [line] + lines, k) ==
            Take(accept, line, k, Scan(accept, lines, if line.Good? then k + 1 else k))
  {
    assert ([line] + lines)[1..] == lines;
  }

  /** The first `Fitting` messages are visited, and that is all if a line is too long. */
  ghost predicate Visits(c: Codec, messages: seq<Message>, o: Outcome)
    requires Faithful(c)
  {
    && |o.visited| == Fitting(c, messages)
    && (forall i | 0 <= i < |o.visited| :: o.visited[i] == Imported(c, messages[i]))
    && o.end == if |o.visited| == |messages| then Done else TooLong
  }

  lemma VisitsCons(c: Codec, messages: seq<Message>, first: Record, o: Outcome)
    requires Faithful(c) && messages != [] && first == Imported(c, messages[0])
    requires ByteSize(Line(c, messages[0])) < MAX_LINE && Visits(c, messages[1..], o)
    ensures Visits(c, messages, Prepend([first], o))
  {
    assert Fitting(c, messages) == 1 + Fitting(c, messages[1..]);
    var all := Prepend([first], o);
    forall i | 0 <= i < |all.visited|
      ensures all.visited[i] == Imported(c, messages[i])
    {
      if i > 0 {
        assert o.visited[i - 1] == Imported(c, messages[1..][i - 1]);
      }
    }
  }

  lemma {:induction false} ScanExported(c: Codec, accept: (nat, Record) -> bool, messages: seq<Message>, k: nat)
    requires Faithful(c) && forall j, r :: accept(j, r)
    ensures Visits(c, messages, Scan(accept, ExportedLines(c, messages), k))
    decreases messages
  {
    if messages != [] {
      var first, later := ExportedLines(c, messages)[0], ExportedLines(c, messages[1..]);
      ScanCons(accept, first, later, k);
      if ByteSize(Line(c, messages[0])) < MAX_LINE {
        ScanExported(c, accept, messages[1..], k + 1);
        VisitsCons(c, messages, Imported(c, messages[0]), Scan(accept, later, k + 1));
      }
    }
  }

  /** Importing an export visits the messages in order, up to the first whose line is too
      long; so it is done with all of them exactly when every line is short enough. */
  lemma BatchRoundTrip(c: Codec, accept: (nat, Record) -> bool, messages: seq<Message>)
    requires Faithful(c) && forall j, r :: accept(j, r)
    ensures Visits(c, messages, Scan(accept, Lines(c, Export(c, messages)), 0))
  {
    LinesOfExport(c, messages);
    ScanExported(c, accept, messages, 0);
  }

  /** Every payload of a batch comes back byte for byte, in order. */
  lemma BatchKeepsPayloads(c: Codec, accept: (nat, Record) -> bool, messages: seq<Message>)
    requires Faithful(c) && forall j, r :: accept(j, r)
    requires forall i | 0 <= i < |messages| :: ByteSize(Line(c, messages[i])) < MAX_LINE
    ensures var o := Scan(accept, Lines(c, Export(c, messages)), 0);
            && o.end.Done? && |o.visited| == |messages|
            && forall i | 0 <= i < |messages| :: Payload(o.visited[i]) == Some(messages[i].data)
  {
    BatchRoundTrip(c, accept, messages);
    forall i | 0 <= i < |messages|
      ensures Payload(Imported(c, messages[i])) == Some(messages[i].data)
    {
      ImportUndoesExport(c, messages[i]);
    }
  }

  lemma FirstLine(a: string) returns (line: string, rest: string)
    requires a != "" && a[|a| - 1] == '\n'
    ensures a == line + "\n" + rest && '\n' !in line && (rest == "" || rest[|rest| - 1] == '\n')
  {
    var n := LineEnd(a);
    assert n < |a|;
    line, rest := a[..n], a[n + 1..];
  }

  lemma JoinRest(line: string, rest: string, b: string)
    ensures line + "\n" + rest + b == line + "\n" + (rest + b)
  {
  }

  /** Two files one after the other have the lines of the one and then those of the other, if
      the first ends with its last line. */
  lemma {:induction false} LinesConcatenate(c: Codec, a: string, b: string)
    requires a == "" || a[|a| - 1] == '\n'
    ensures Lines(c, a + b) == Lines(c, a) + Lines(c, b)
    decreases |a|
  {
    if a == "" {
      assert a + b == b && [] + Lines(c, b) == Lines(c, b);
    } else {
      var line, rest := FirstLine(a);
      JoinRest(line, rest, b);
      LinesStep(c, line, rest);
      LinesStep(c, line, rest + b);
      LinesConcatenate(c, rest, b);
      Seqs.Associate([ReadLine(c, line)], Lines(c, rest), Lines(c, b));
    }
  }

  lemma TakePrepended(accept: (nat, Record) -> bool, line: LineRead, k: nat, later: Outcome, more: Outcome)
    requires Take(accept, line, k, later).end.Done?
    ensures later.end.Done?
    ensures var taken := Take(accept, line, k, later).visited;
            && |taken| == |later.visited| + (if line.Good? then 1 else 0)
            && Take(accept, line, k, Prepend(later.visited, more)) == Prepend(taken, more)
  {
    if line.Good? {
      PrependTwice([line.record], later.visited, more);
    }
  }

  /** So the records of the second file are read as if the first had just been read. */
  lemma {:induction false} ScanConcatenates(accept: (nat, Record) -> bool, a: seq<LineRead>, b: seq<LineRead>, k: nat)
    requires Scan(accept, a, k).end.Done?
    ensures var first := Scan(accept, a, k).visited;
            Scan(accept, a + b, k) == Prepend(first, Scan(accept, b, k + |first|))
    decreases |a|
  {
    if a == [] {
      assert a + b == b;
      PrependTwice([], [], Scan(accept, b, k));
    } else {
      var next := if a[0].Good? then k + 1 else k;
      var later := Scan(accept, a[1..], next);
      TakePrepended(accept, a[0], k, later, Scan(accept, b, next + |later.visited|));
      ScanConcatenates(accept, a[1..], b, next);
      assert (a + b)[0] == a[0] && (a + b)[1..] == a[1..] + b;
    }
  }
}
