/** Independent subscribers on a Redis stream: a cursor of last-seen entry ids. */
module RedisTopic {
  import Seqs

  /** An entry id, `ms-seq`. */
  datatype Id = Id(ms: nat, seqNo: nat)

  predicate Less(a: Id, b: Id) {
    a.ms < b.ms || (a.ms == b.ms && a.seqNo < b.seqNo)
  }

  /** A strict order on ids: the time decides, then the number. */
  lemma LessIsAnOrder(a: Id, b: Id, c: Id)
    ensures a.ms < b.ms ==> Less(a, b)
    ensures !Less(a, a) && (Less(a, b) || Less(b, a) || a == b)
    ensures Less(a, b) && Less(b, c) ==> Less(a, c)
    ensures a.ms == b.ms ==> (Less(a, b) <==> a.seqNo < b.seqNo)
  {
  }

  const ORIGIN := Id(0, 0)

  /** The start of a stream comes before every other id. */
  lemma OriginIsFirst(a: Id)
    ensures a == ORIGIN || Less(ORIGIN, a)
  {
  }

  datatype Entry = Entry(id: Id, payload: string)

  /** A stream on the server, with the last id it ever generated. */
  datatype Stream = Stream(entries: seq<Entry>, lastGenerated: Id)

  type Server = map<string, Stream>

  /** A stream's ids grow, from above the origin to no more than the last one generated. */
  predicate StreamOk(s: Stream) {
    && (forall i, j | 0 <= i < j < |s.entries| :: Less(s.entries[i].id, s.entries[j].id))
    && (forall i | 0 <= i < |s.entries| :: Less(ORIGIN, s.entries[i].id) && !Less(s.lastGenerated, s.entries[i].id))
  }

  ghost predicate ServerOk(server: Server) {
    forall key | key in server :: StreamOk(server[key])
  }

  function Log(server: Server, key: string): seq<Entry> {
    if key in server then server[key].entries else []
  }

  /** The server adds an entry, or refuses an id that is not above all earlier ones. */
  function Publish(server: Server, key: string, e: Entry): Server {
    var s := if key in server then server[key] else Stream([], ORIGIN);
    if Less(s.lastGenerated, e.id) then server[key := Stream(s.entries + [e], e.id)] else server
  }

  function PublishAll(server: Server, posts: seq<(string, Entry)>): Server
    decreases |posts|
  {
    if posts == [] then server
    else PublishAll(Publish(server, posts[0].0, posts[0].1), posts[1..])
  }

  /** The first entry above an id, if there is one. */
  function ReadAfter(log: seq<Entry>, id: Id): (r: seq<Entry>)
    ensures |r| <= 1
  {
    if log == [] then [] else if Less(id, log[0].id) then [log[0]] else ReadAfter(log[1..], id)
  }

  datatype Answer = Message(entry: Entry) | NoMessage | InfoError | ReadError

  type Cursors = map<string, Id>

  /** Where a call starts to read, given the server as the position request finds it. */
  function StartId(lastID: Cursors, key: string, atInfo: Server): Id {
    if key in lastID then lastID[key] else if key in atInfo then atInfo[key].lastGenerated else ORIGIN
  }

  /** What one call answers and leaves as cursors. The server is as the position request
      finds it, then as the read finds it; either request may fail. */
  function Subscribed(lastID: Cursors, key: string, atInfo: Server, infoFails: bool, atRead: Server, readFails: bool):
    (Answer, Cursors)
  {
    if key !in lastID && infoFails then (InfoError, lastID)
    else
      var start := StartId(lastID, key, atInfo);
      var found := ReadAfter(Log(atRead, key), start);
      if readFails then (ReadError, lastID[key := start])
      else if found == [] then (NoMessage, lastID[key := start])
      else (Message(found[0]), lastID[key := found[0].id])
  }

  class TopicAdapter {
    var lastID: Cursors

    constructor ()
      ensures lastID == map[]
    {
      lastID := map[];
    }

    method SubscribeIndependent(key: string, atInfo: Server, infoFails: bool, atRead: Server, readFails: bool)
      returns (answer: Answer)
      modifies this
      ensures (answer, lastID) == Subscribed(old(lastID), key, atInfo, infoFails, atRead, readFails)
    {
      var startID;
      if key in lastID {
        startID := lastID[key];
      } else {
        if infoFails {
          return InfoError;
        } else if key in atInfo {
          startID := atInfo[key].lastGenerated;
        } else {
          startID := ORIGIN;
        }
        lastID := lastID[key := startID];
      }
      if readFails {
        assert lastID == old(lastID)[key := startID];
        return ReadError;
      }
      var found := ReadAfter(Log(atRead, key), startID);
      if found == [] {
        assert lastID == old(lastID)[key := startID];
        return NoMessage;
      }
      lastID := lastID[key := found[0].id];
      assert lastID == old(lastID)[key := found[0].id];
      return Message(found[0]);
    }
  }

  // ---------- Runs ----------

  /** A post by anyone, or one call with the posts that come between its two requests. */
  datatype Event =
    | Post(key: string, entry: Entry)
    | Call(key: string, infoFails: bool, meanwhile: seq<(string, Entry)>, readFails: bool)

  /** The server and the cursors, with what was delivered for each key and how long the log
      was when the key's position was fixed. */
  datatype World = World(server: Server, lastID: Cursors, delivered: map<string, seq<Entry>>, start: map<string, nat>)

  function Delivered(w: World, key: string): seq<Entry> {
    if key in w.delivered then w.delivered[key] else []
  }

  /** The world once the position for `key` is known. */
  function Positioned(w: World, key: string): World {
    w.(lastID := w.lastID[key := StartId(w.lastID, key, w.server)],
       start := if key in w.lastID then w.start else w.start[key := |Log(w.server, key)|])
  }

  /** The world after a read that found these entries. */
  function Read(w: World, key: string, found: seq<Entry>): World
    requires |found| <= 1
  {
    if found == [] then w
    else w.(lastID := w.lastID[key := found[0].id], delivered := w.delivered[key := Delivered(w, key) + found])
  }

  function CallAnswer(w: World, e: Event): (Answer, Cursors)
    requires e.Call?
  {
    Subscribed(w.lastID, e.key, w.server, e.infoFails, PublishAll(w.server, e.meanwhile), e.readFails)
  }

  function Step(w: World, e: Event): World {
    match e
    case Post(key, entry) => w.(server := Publish(w.server, key, entry))
    case Call(key, infoFails, meanwhile, readFails) =>
      var after := PublishAll(w.server, meanwhile);
      if key !in w.lastID && infoFails then w.(server := after)
      else
        var reading := Positioned(w, key).(server := after);
        if readFails then reading else Read(reading, key, ReadAfter(Log(after, key), reading.lastID[key]))
  }

  /** The entries that a call finds, if it comes to reading. */
  function Found(w: World, e: Event): seq<Entry>
    requires e.Call?
  {
    ReadAfter(Log(PublishAll(w.server, e.meanwhile), e.key), StartId(w.lastID, e.key, w.server))
  }

  lemma CallAnswerIs(w: World, e: Event)
    requires e.Call?
    ensures CallAnswer(w, e).0 ==
            if e.key !in w.lastID && e.infoFails then InfoError
            else if e.readFails then ReadError
            else if Found(w, e) == [] then NoMessage else Message(Found(w, e)[0])
  {
  }

  lemma CursorsAlike(lastID: Cursors, key: string, start: Id, last: Id)
    ensures lastID[key := start][key := last] == lastID[key := last]
  {
  }

  /** A call in a run is a call of the adapter: same cursors, and what it answers is what is
      delivered. */
  lemma CallIsSubscribed(w: World, e: Event)
    requires e.Call?
    ensures var (answer, cursors) := CallAnswer(w, e);
            && Step(w, e).lastID == cursors
            && Delivered(Step(w, e), e.key) == Delivered(w, e.key) + if answer.Message? then [answer.entry] else []
  {
    var found := Found(w, e);
    Seqs.Empty(Delivered(w, e.key));
    if !(e.key !in w.lastID && e.infoFails) && !e.readFails && found != [] {
      CursorsAlike(w.lastID, e.key, StartId(w.lastID, e.key, w.server), found[0].id);
      assert found == [found[0]];
    }
  }

  function Run(w: World, events: seq<Event>): World
    decreases |events|
  {
    if events == [] then w else Run(Step(w, events[0]), events[1..])
  }

  /** The first `n` entries are at or below the id, the others above. */
  predicate SplitsAt(log: seq<Entry>, id: Id, n: nat) {
    && n <= |log|
    && (forall i | 0 <= i < n :: !Less(id, log[i].id))
    && (forall i | n <= i < |log| :: Less(id, log[i].id))
  }

  /** No cursor runs ahead of its stream. */
  predicate Reached(server: Server, key: string, id: Id) {
    if key in server then !Less(server[key].lastGenerated, id) else id == ORIGIN
  }

  /** What was delivered is the log from the fixed position on, without gap, repeat or
      reordering, and the cursor stands behind it. */
  ghost predicate KeyOk(w: World, key: string) {
    if key !in w.lastID then Delivered(w, key) == [] && key !in w.start
    else
      && key in w.start
      && var from, to := w.start[key], w.start[key] + |Delivered(w, key)|;
         && Reached(w.server, key, w.lastID[key])
         && SplitsAt(Log(w.server, key), w.lastID[key], to)
         && Delivered(w, key) == Log(w.server, key)[from..to]
  }

  ghost predicate Inv(w: World) {
    ServerOk(w.server) && forall key :: KeyOk(w, key)
  }

  // ---------- Posts ----------

  /** A later server: logs are longer, and what is new is above every id generated before. */
  ghost predicate Extends(before: Server, after: Server) {
    && ServerOk(after)
    && forall key :: LogExtends(before, after, key)
  }

  ghost predicate LogExtends(before: Server, after: Server, key: string) {
    var old_, new_ := Log(before, key), Log(after, key);
    && old_ <= new_
    && (key in before ==> key in after && !Less(after[key].lastGenerated, before[key].lastGenerated))
    && forall i | |old_| <= i < |new_| ::
         Less(ORIGIN, new_[i].id) && (key in before ==> Less(before[key].lastGenerated, new_[i].id))
  }

  lemma PublishExtends(server: Server, key: string, e: Entry)
    requires ServerOk(server)
    ensures Extends(server, Publish(server, key, e))
  {
    var after := Publish(server, key, e);
    forall k
      ensures LogExtends(server, after, k)
    {
      if k != key {
        assert Log(after, k) == Log(server, k);
      }
    }
    forall k | k in after
      ensures StreamOk(after[k])
    {
      if k != key {
        assert k in server && after[k] == server[k];
      } else if key in server {
        assert StreamOk(server[key]);
      }
    }
  }

  lemma ExtendsTransitive(a: Server, b: Server, c: Server)
    requires Extends(a, b) && Extends(b, c)
    ensures Extends(a, c)
  {
    forall key
      ensures LogExtends(a, c, key)
    {
      assert LogExtends(a, b, key) && LogExtends(b, c, key);
    }
  }

  lemma {:induction false} PublishAllExtends(server: Server, posts: seq<(string, Entry)>)
    requires ServerOk(server)
    ensures Extends(server, PublishAll(server, posts))
    decreases |posts|
  {
    if posts == [] {
      forall key
        ensures LogExtends(server, server, key)
      {
      }
    } else {
      var next := Publish(server, posts[0].0, posts[0].1);
      PublishExtends(server, posts[0].0, posts[0].1);
      PublishAllExtends(next, posts[1..]);
      ExtendsTransitive(server, next, PublishAll(server, posts));
    }
  }

  // ---------- Every step keeps it ----------

  lemma {:induction false} ReadAfterSplit(log: seq<Entry>, id: Id, n: nat)
    requires SplitsAt(log, id, n)
    ensures ReadAfter(log, id) == if n < |log| then [log[n]] else []
  {
    if n > 0 {
      ReadAfterSplit(log[1..], id, n - 1);
    }
  }

  /** A cursor splits a longer log at the same place. */
  lemma SplitsLater(before: Server, after: Server, key: string, id: Id, n: nat)
    requires ServerOk(before) && Extends(before, after) && SplitsAt(Log(before, key), id, n)
    requires Reached(before, key, id)
    ensures Reached(after, key, id) && SplitsAt(Log(after, key), id, n)
  {
    assert LogExtends(before, after, key);
    var new_ := Log(after, key);
    forall i | n <= i < |new_|
      ensures Less(id, new_[i].id)
    {
      if i < |Log(before, key)| {
        assert new_[i] == Log(before, key)[i];
      }
    }
  }

  lemma KeyOkLater(w: World, after: Server, key: string)
    requires ServerOk(w.server) && Extends(w.server, after) && KeyOk(w, key)
    ensures KeyOk(w.(server := after), key)
  {
    if key in w.lastID {
      var from, to := w.start[key], w.start[key] + |Delivered(w, key)|;
      SplitsLater(w.server, after, key, w.lastID[key], to);
      assert LogExtends(w.server, after, key);
      assert Log(after, key)[from..to] == Log(w.server, key)[from..to];
    }
  }

  /** The first position request puts the cursor behind the whole log. */
  lemma PositionIsEnd(server: Server, key: string)
    requires ServerOk(server)
    ensures var id := StartId(map[], key, server);
            Reached(server, key, id) && SplitsAt(Log(server, key), id, |Log(server, key)|)
  {
    if key in server {
      assert StreamOk(server[key]);
    }
  }

  lemma PositionedOk(w: World, key: string, k: string)
    requires Inv(w)
    ensures KeyOk(Positioned(w, key), k)
  {
    assert KeyOk(w, k) && KeyOk(w, key);
    if key !in w.lastID {
      PositionIsEnd(w.server, key);
    }
  }

  lemma SplitsAtEntry(s: Stream, n: nat)
    requires StreamOk(s) && n < |s.entries|
    ensures SplitsAt(s.entries, s.entries[n].id, n + 1)
  {
  }

  lemma ReadFindsNext(w: World, key: string)
    requires KeyOk(w, key) && key in w.lastID
    ensures var log, to := Log(w.server, key), w.start[key] + |Delivered(w, key)|;
            to <= |log| && ReadAfter(log, w.lastID[key]) == if to < |log| then [log[to]] else []
  {
    ReadAfterSplit(Log(w.server, key), w.lastID[key], w.start[key] + |Delivered(w, key)|);
  }

  lemma ReadOk(w: World, key: string)
    requires ServerOk(w.server) && KeyOk(w, key) && key in w.lastID
    ensures KeyOk(Read(w, key, ReadAfter(Log(w.server, key), w.lastID[key])), key)
  {
    var log, from, to := Log(w.server, key), w.start[key], w.start[key] + |Delivered(w, key)|;
    ReadFindsNext(w, key);
    if to < |log| {
      SplitsAtEntry(w.server[key], to);
      assert log[from..to + 1] == log[from..to] + [log[to]];
    }
  }

  lemma PostKeepsKey(w: World, key: string, e: Entry, k: string)
    requires Inv(w)
    ensures ServerOk(Step(w, Post(key, e)).server) && KeyOk(Step(w, Post(key, e)), k)
  {
    PublishExtends(w.server, key, e);
    KeyOkLater(w, Publish(w.server, key, e), k);
  }

  /** What a call reads from. */
  lemma ReadingOk(w: World, key: string, meanwhile: seq<(string, Entry)>, k: string)
    requires Inv(w)
    ensures var after := PublishAll(w.server, meanwhile);
            ServerOk(after) && KeyOk(w.(server := after), k) && KeyOk(Positioned(w, key).(server := after), k)
  {
    PublishAllExtends(w.server, meanwhile);
    PositionedOk(w, key, k);
    KeyOkLater(w, PublishAll(w.server, meanwhile), k);
    KeyOkLater(Positioned(w, key), PublishAll(w.server, meanwhile), k);
  }

  lemma ReadElsewhere(w: World, key: string, found: seq<Entry>, k: string)
    requires |found| <= 1 && k != key && KeyOk(w, k)
    ensures KeyOk(Read(w, key, found), k)
  {
    assert Delivered(Read(w, key, found), k) == Delivered(w, k);
  }

  lemma StepKeepsKey(w: World, e: Event, k: string)
    requires Inv(w)
    ensures ServerOk(Step(w, e).server) && KeyOk(Step(w, e), k)
  {
    match e
    case Post(key, entry) => PostKeepsKey(w, key, entry, k);
    case Call(key, infoFails, meanwhile, readFails) =>
      ReadingOk(w, key, meanwhile, k);
      var reading := Positioned(w, key).(server := PublishAll(w.server, meanwhile));
      if k == key {
        ReadOk(reading, key);
      } else {
        ReadElsewhere(reading, key, ReadAfter(Log(reading.server, key), reading.lastID[key]), k);
      }
  }

  lemma StepKeepsInv(w: World, e: Event)
    requires Inv(w)
    ensures Inv(Step(w, e))
  {
    forall k
      ensures KeyOk(Step(w, e), k)
    {
      StepKeepsKey(w, e, k);
    }
    StepKeepsKey(w, e, "");
  }

  lemma {:induction false} RunKeepsInv(w: World, events: seq<Event>)
    requires Inv(w)
    ensures Inv(Run(w, events))
    decreases |events|
  {
    if events != [] {
      StepKeepsInv(w, events[0]);
      RunKeepsInv(Step(w, events[0]), events[1..]);
    }
  }

  function Begin(server: Server): World {
    World(server, map[], map[], map[])
  }

  /** Over any run, what a subscriber was given is a stretch of the log that starts where the
      first call found its end: no gap, no repeat, nothing out of order. */
  lemma DeliveredIsAPrefix(server: Server, events: seq<Event>, key: string)
    requires ServerOk(server)
    ensures var w := Run(Begin(server), events);
            && (key !in w.start ==> Delivered(w, key) == [])
            && (key in w.start ==>
                  && w.start[key] <= |Log(w.server, key)|
                  && Delivered(w, key) <= Log(w.server, key)[w.start[key]..])
  {
    RunKeepsInv(Begin(server), events);
    var w := Run(Begin(server), events);
    assert KeyOk(w, key);
  }

  lemma StepFixesPosition(w: World, e: Event, key: string)
    requires KeyOk(w, key)
    ensures key in w.start ==> key in Step(w, e).start && Step(w, e).start[key] == w.start[key]
    ensures e.Call? && e.key == key && key !in w.start && !e.infoFails ==>
              key in Step(w, e).start && Step(w, e).start[key] == |Log(w.server, key)|
  {
  }

  /** The position never moves once it is fixed, and the first call that learns it fixes it
      at the end of the log as it then is. */
  lemma {:induction false} PositionIsFixedOnce(w: World, events: seq<Event>, key: string)
    requires Inv(w)
    ensures key in w.start ==> key in Run(w, events).start && Run(w, events).start[key] == w.start[key]
    ensures events != [] && events[0].Call? && events[0].key == key && key !in w.start && !events[0].infoFails ==>
              key in Run(w, events).start && Run(w, events).start[key] == |Log(w.server, key)|
    decreases |events|
  {
    if events != [] {
      assert KeyOk(w, key);
      StepFixesPosition(w, events[0], key);
      StepKeepsInv(w, events[0]);
      PositionIsFixedOnce(Step(w, events[0]), events[1..], key);
    }
  }

  /** A call that says there is no message has nothing left to deliver; a call that gives one
      gives the next of the log. */
  lemma CallGivesTheNext(w: World, e: Event)
    requires Inv(w) && e.Call?
    ensures var log, next := Log(PublishAll(w.server, e.meanwhile), e.key), Step(w, e);
            match CallAnswer(w, e).0
            case InfoError => e.key !in next.start
            case ReadError => e.readFails
            case NoMessage => e.key in next.start && next.start[e.key] + |Delivered(w, e.key)| == |log|
            case Message(entry) =>
              && e.key in next.start && next.start[e.key] + |Delivered(w, e.key)| < |log|
              && entry == log[next.start[e.key] + |Delivered(w, e.key)|]
  {
    CallAnswerIs(w, e);
    CallPositions(w, e);
    if !(e.key !in w.lastID && e.infoFails) {
      ReadingOk(w, e.key, e.meanwhile, e.key);
      ReadFindsNext(Positioned(w, e.key).(server := PublishAll(w.server, e.meanwhile)), e.key);
    }
  }

  lemma CallPositions(w: World, e: Event)
    requires Inv(w) && e.Call?
    ensures Step(w, e).start == if e.key !in w.lastID && e.infoFails then w.start else Positioned(w, e.key).start
    ensures e.key !in w.lastID && e.infoFails ==> e.key !in w.start
  {
    assert KeyOk(w, e.key);
  }
}
