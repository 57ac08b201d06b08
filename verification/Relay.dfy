/** The two relays: `forward`, which keeps polling and may pipe each message through a command,
    and `move`, which drains a queue. */
module Relay {
  import opened Wrappers

  datatype Message = Message(id: string, key: string, correlationID: string, replyTo: string, contentType: string,
                             priority: int, persistent: bool, properties: map<string, string>, data: string)

  datatype Read = Canceled | Deadline | NoMessage | Failed | Got(message: Message)

  /** One turn of a relay loop: was the context over by then, what the read gives, what the
      command makes of the payload (nothing when it fails), and whether the write works. */
  datatype Turn = Turn(over: bool, read: Read, piped: Option<string>, sent: bool)

  datatype Kind = Forward | Move

  /** What becomes of a message that was read. */
  datatype Effect = Delivered(message: Message) | Recovered(payload: string)

  datatype End =
    | Refused       // source and destination are the same
    | Full          // as many deliveries as asked for
    | Interrupted   // the context was over before a read
    | Stopped       // canceled, or nothing left to move
    | ReadError
    | WriteError
    | Running       // the turns seen so far have not ended the loop

  datatype Result = Result(effects: seq<Effect>, forwarded: nat, taken: nat, end: End)

  /** Both kinds keep the properties; a moved message gets a new id from its destination, and
      loses its key. */
  function Outgoing(kind: Kind, m: Message, body: string): Message {
    match kind
    case Forward => m.(data := body)
    case Move => m.(data := body, id := "", key := "")
  }

  /** What is sent, unless the command fails. Only `forward` has one. */
  function Body(kind: Kind, command: bool, t: Turn): Option<string>
    requires t.read.Got?
  {
    if kind.Forward? && command then t.piped else Some(t.read.message.data)
  }

  function Fate(kind: Kind, command: bool, t: Turn): Effect
    requires t.read.Got?
  {
    var body := Body(kind, command, t);
    if body.Some? && t.sent then Delivered(Outgoing(kind, t.read.message, body.value))
    else Recovered(t.read.message.data)
  }

  /** The turns among the first `n` that read a message. */
  function Consumed(turns: seq<Turn>, n: nat): (r: seq<Turn>)
    requires n <= |turns|
    ensures forall t | t in r :: t.read.Got?
  {
    if n == 0 then []
    else if turns[n - 1].read.Got? then Consumed(turns, n - 1) + [turns[n - 1]]
    else Consumed(turns, n - 1)
  }

  function Fates(kind: Kind, command: bool, consumed: seq<Turn>): (r: seq<Effect>)
    requires forall t | t in consumed :: t.read.Got?
  {
    seq(|consumed|, i requires 0 <= i < |consumed| => Fate(kind, command, consumed[i]))
  }

  function Deliveries(effects: seq<Effect>): (r: nat)
    ensures r <= |effects|
  {
    if effects == [] then 0
    else
      var n := |effects| - 1;
      Deliveries(effects[..n]) + if effects[n].Delivered? then 1 else 0
  }

  function Forwarded(kind: Kind, command: bool, turns: seq<Turn>, n: nat): nat
    requires n <= |turns|
  {
    Deliveries(Fates(kind, command, Consumed(turns, n)))
  }

  /** `forward` takes every count below one as no limit, `move` only zero. */
  predicate Wanting(kind: Kind, count: int, forwarded: nat) {
    (if kind.Forward? then count <= 0 else count == 0) || forwarded < count
  }

  predicate GoesOn(kind: Kind, command: bool, t: Turn) {
    && !(kind.Forward? && t.over)
    && match t.read
       case Got(_) => Body(kind, command, t).None? || t.sent
       case Deadline => kind.Forward?
       case NoMessage => kind.Forward?
       case _ => false
  }

  predicate StopsAt(kind: Kind, command: bool, t: Turn, end: End) {
    && !(kind.Forward? && t.over)
    && match t.read
       case Canceled => end.Stopped?
       case Deadline => kind.Move? && end.Stopped?
       case NoMessage => kind.Move? && end.Stopped?
       case Failed => end.ReadError?
       case Got(_) => Body(kind, command, t).Some? && !t.sent && end.WriteError?
  }

  /** The turn ends the loop by what it meets. */
  predicate EndsHere(kind: Kind, command: bool, t: Turn, end: End) {
    StopsAt(kind, command, t, end) && (end.Stopped? || end.ReadError? || end.WriteError?)
  }

  predicate AllGoOn(kind: Kind, command: bool, turns: seq<Turn>, n: nat)
    requires n <= |turns|
  {
    forall i | 0 <= i < n :: GoesOn(kind, command, turns[i])
  }

  predicate EndsRightly(kind: Kind, count: int, command: bool, turns: seq<Turn>, n: nat, end: End)
    requires n <= |turns|
  {
    var wanting := Wanting(kind, count, Forwarded(kind, command, turns, n));
    match end
    case Refused => false
    case Full => AllGoOn(kind, command, turns, n) && !wanting
    case Running => AllGoOn(kind, command, turns, n) && wanting && n == |turns|
    case Interrupted => AllGoOn(kind, command, turns, n) && wanting && n < |turns| && turns[n].over && kind.Forward?
    case _ => n > 0 && AllGoOn(kind, command, turns, n - 1) && StopsAt(kind, command, turns[n - 1], end)
  }

  ghost predicate WantingBefore(kind: Kind, count: int, command: bool, turns: seq<Turn>, n: nat)
    requires n <= |turns|
  {
    forall i | 0 <= i < n :: Wanting(kind, count, Forwarded(kind, command, turns, i))
  }

  /** What a run of a relay is, without its counters. */
  ghost predicate IsRelay(kind: Kind, count: int, command: bool, turns: seq<Turn>, r: Result) {
    && r.taken <= |turns|
    && r.effects == Fates(kind, command, Consumed(turns, r.taken))
    && r.forwarded == Deliveries(r.effects)
    && WantingBefore(kind, count, command, turns, r.taken)
    && EndsRightly(kind, count, command, turns, r.taken, r.end)
  }

  /** What turn `i` adds. */
  lemma TurnCounts(kind: Kind, command: bool, turns: seq<Turn>, i: nat)
    requires i < |turns|
    ensures Consumed(turns, i + 1) == if turns[i].read.Got? then Consumed(turns, i) + [turns[i]] else Consumed(turns, i)
    ensures Fates(kind, command, Consumed(turns, i + 1)) ==
            Fates(kind, command, Consumed(turns, i))
            + if turns[i].read.Got? then [Fate(kind, command, turns[i])] else []
    ensures Forwarded(kind, command, turns, i + 1) ==
            Forwarded(kind, command, turns, i)
            + if turns[i].read.Got? && Fate(kind, command, turns[i]).Delivered? then 1 else 0
  {
    var before, after := Fates(kind, command, Consumed(turns, i)), Fates(kind, command, Consumed(turns, i + 1));
    if turns[i].read.Got? {
      assert after == before + [Fate(kind, command, turns[i])];
      assert after[..|before|] == before;
    } else {
      assert after == before + [];
    }
  }

  /** What holds of the loops when turn `i` is taken. */
  lemma TurnTaken(kind: Kind, count: int, command: bool, turns: seq<Turn>, i: nat)
    requires i < |turns| && AllGoOn(kind, command, turns, i) && WantingBefore(kind, count, command, turns, i)
    requires Wanting(kind, count, Forwarded(kind, command, turns, i))
    ensures WantingBefore(kind, count, command, turns, i + 1)
    ensures GoesOn(kind, command, turns[i]) ==> AllGoOn(kind, command, turns, i + 1)
  {
  }

  lemma PassedTurn(kind: Kind, count: int, command: bool, turns: seq<Turn>, r: Result, i: nat)
    requires IsRelay(kind, count, command, turns, r) && i < r.taken
    ensures Wanting(kind, count, Forwarded(kind, command, turns, i))
    ensures kind.Forward? ==> !turns[i].over
    ensures i < r.taken - 1 || r.end.Full? || r.end.Running? || r.end.Interrupted? ==> GoesOn(kind, command, turns[i])
  {
    var n := if AllGoOn(kind, command, turns, r.taken) then r.taken else r.taken - 1;
    assert i < n ==> GoesOn(kind, command, turns[i]);
  }

  // ---------- Topology ----------

  /** A broker with one kind of destination has no choice; otherwise the flags decide. */
  function ResolveTopology(queues: bool, topics: bool, fromTopicFlag: bool, toTopicFlag: bool): (bool, bool) {
    if topics && !queues then (true, true)
    else if queues && !topics then (false, false)
    else (fromTopicFlag, toTopicFlag)
  }

  // ---------- The loops ----------

  /** The same name is let through only where it can name both a queue and a topic, and the
      flags make it do so. */
  method DoForward(source: string, destination: string, queues: bool, topics: bool, fromTopicFlag: bool,
                   toTopicFlag: bool, count: int, command: bool, turns: seq<Turn>) returns (r: Result)
    ensures r.end.Refused? <==> source == destination && !(queues == topics && fromTopicFlag != toTopicFlag)
    ensures r.end.Refused? ==> r == Result([], 0, 0, Refused)
    ensures !r.end.Refused? ==> IsRelay(Forward, count, command, turns, r)
  {
    var (fromTopic, toTopic) := ResolveTopology(queues, topics, fromTopicFlag, toTopicFlag);
    if source == destination && fromTopic == toTopic {
      return Result([], 0, 0, Refused);
    }
    var effects: seq<Effect> := [];
    var forwarded := 0;
    var i := 0;
    while count <= 0 || forwarded < count
      invariant i <= |turns| && forwarded == Forwarded(Forward, command, turns, i)
      invariant effects == Fates(Forward, command, Consumed(turns, i))
      invariant AllGoOn(Forward, command, turns, i) && WantingBefore(Forward, count, command, turns, i)
      decreases |turns| - i
    {
      if i == |turns| {
        return Result(effects, forwarded, i, Running);
      }
      if turns[i].over {
        return Result(effects, forwarded, i, Interrupted);
      }
      TurnCounts(Forward, command, turns, i);
      TurnTaken(Forward, count, command, turns, i);
      var more, sent, stop, end := ForwardTurn(command, turns[i]);
      i := i + 1;
      effects := effects + more;
      if sent {
        forwarded := forwarded + 1;
      }
      if stop {
        return Result(effects, forwarded, i, end);
      }
    }
    return Result(effects, forwarded, i, Full);
  }

  /** One turn of `forward`: what becomes of its message, whether that is a delivery, and
      whether and how the loop ends. */
  method ForwardTurn(command: bool, t: Turn) returns (more: seq<Effect>, sent: bool, stop: bool, end: End)
    requires !t.over
    ensures more == if t.read.Got? then [Fate(Forward, command, t)] else []
    ensures sent <==> t.read.Got? && Fate(Forward, command, t).Delivered?
    ensures if stop then EndsHere(Forward, command, t, end) else GoesOn(Forward, command, t)
  {
    more, sent, stop, end := [], false, true, Running;
    match t.read {
      case Canceled => end := Stopped;
      case Deadline => stop := false;
      case NoMessage => stop := false;
      case Failed => end := ReadError;
      case Got(message) =>
        if command && t.piped.None? {
          more, stop := [Recovered(message.data)], false;
        } else {
          var body := if command then t.piped.value else message.data;
          if !t.sent {
            more, end := [Recovered(message.data)], WriteError;
          } else {
            more, sent, stop := [Delivered(message.(data := body))], true, false;
          }
        }
    }
  }

  method DoMove(source: string, destination: string, count: int, turns: seq<Turn>) returns (r: Result)
    ensures source == destination ==> r == Result([], 0, 0, Refused)
    ensures source != destination ==> IsRelay(Move, count, false, turns, r)
  {
    if source == destination {
      return Result([], 0, 0, Refused);
    }
    var effects: seq<Effect> := [];
    var moved := 0;
    var i := 0;
    while count == 0 || moved < count
      invariant i <= |turns| && moved == Forwarded(Move, false, turns, i)
      invariant effects == Fates(Move, false, Consumed(turns, i))
      invariant AllGoOn(Move, false, turns, i) && WantingBefore(Move, count, false, turns, i)
      decreases |turns| - i
    {
      if i == |turns| {
        return Result(effects, moved, i, Running);
      }
      TurnCounts(Move, false, turns, i);
      TurnTaken(Move, count, false, turns, i);
      var more, sent, stop, end := MoveTurn(turns[i]);
      i := i + 1;
      effects := effects + more;
      if sent {
        moved := moved + 1;
      }
      if stop {
        return Result(effects, moved, i, end);
      }
    }
    return Result(effects, moved, i, Full);
  }

  /** One turn of `move`. */
  method MoveTurn(t: Turn) returns (more: seq<Effect>, sent: bool, stop: bool, end: End)
    ensures more == if t.read.Got? then [Fate(Move, false, t)] else []
    ensures sent <==> t.read.Got? && Fate(Move, false, t).Delivered?
    ensures if stop then EndsHere(Move, false, t, end) else GoesOn(Move, false, t)
  {
    more, sent, stop, end := [], false, true, Stopped;
    match t.read {
      case Canceled =>
      case Deadline =>
      case NoMessage =>
      case Failed => end := ReadError;
      case Got(message) =>
        if !t.sent {
          more, end := [Recovered(message.data)], WriteError;
        } else {
          more, sent, stop := [Delivered(message.(id := "", key := ""))], true, false;
        }
    }
  }

  // ---------- Conservation ----------

  /** The message this effect is the fate of: delivered as it is sent on, or its payload
      written out as it was read. */
  predicate FateOf(kind: Kind, m: Message, body: Option<string>, e: Effect) {
    match e
    case Delivered(sent) => body.Some? && sent == Outgoing(kind, m, body.value)
    case Recovered(payload) => payload == m.data
  }

  lemma {:induction false} ConsumedBefore(turns: seq<Turn>, n: nat, k: nat)
    requires n <= |turns| && k < |Consumed(turns, n)|
    ensures exists i :: 0 <= i < n && Consumed(turns, n)[k] == turns[i] && (k < |Consumed(turns, n)| - 1 ==> i < n - 1)
  {
    if k == |Consumed(turns, n)| - 1 && turns[n - 1].read.Got? {
      assert Consumed(turns, n)[k] == turns[n - 1];
    } else {
      ConsumedBefore(turns, n - 1, k);
    }
  }

  /** Each message read is, in order, exactly one of delivered and written out for recovery.
      Only the last one read can be lost to a failed write; every other one that is written
      out had a failed command. */
  lemma Conservation(kind: Kind, count: int, command: bool, turns: seq<Turn>, r: Result, k: nat)
    requires IsRelay(kind, count, command, turns, r) && k < |Consumed(turns, r.taken)|
    ensures var consumed := Consumed(turns, r.taken);
            && |r.effects| == |consumed|
            && FateOf(kind, consumed[k].read.message, Body(kind, command, consumed[k]), r.effects[k])
            && (k == |consumed| - 1 && r.end.WriteError? ==> r.effects[k].Recovered?)
            && (k < |consumed| - 1 || !r.end.WriteError? ==>
                  (r.effects[k].Delivered? <==> Body(kind, command, consumed[k]).Some?))
  {
    var consumed := Consumed(turns, r.taken);
    if k == |consumed| - 1 && r.end.WriteError? {
      TurnCounts(kind, command, turns, r.taken - 1);
    } else {
      ConsumedBefore(turns, r.taken, k);
      var i :| 0 <= i < r.taken && consumed[k] == turns[i] && (k < |consumed| - 1 ==> i < r.taken - 1);
      PassedTurn(kind, count, command, turns, r, i);
    }
  }

  /** What is delivered of the message read `k`th, field by field: a move takes over everything
      but id and key, a forward these too; the data is the command's output if there is a
      command, and else the message's own. */
  lemma DeliveredFields(kind: Kind, count: int, command: bool, turns: seq<Turn>, r: Result, k: nat)
    requires IsRelay(kind, count, command, turns, r) && k < |Consumed(turns, r.taken)|
    ensures k < |r.effects|
    ensures r.effects[k].Delivered? ==>
              var turn, sent := Consumed(turns, r.taken)[k], r.effects[k].message;
              var read := turn.read.message;
              && turn.sent
              && sent.correlationID == read.correlationID && sent.replyTo == read.replyTo
              && sent.contentType == read.contentType && sent.priority == read.priority
              && sent.persistent == read.persistent && sent.properties == read.properties
              && (if kind.Forward? then sent.id == read.id && sent.key == read.key else sent.id == "" && sent.key == "")
              && (if kind.Forward? && command then turn.piped == Some(sent.data) else sent.data == read.data)
    ensures r.effects[k].Recovered? ==>
              var turn := Consumed(turns, r.taken)[k];
              && r.effects[k].payload == turn.read.message.data
              && (!turn.sent || (kind.Forward? && command && turn.piped.None?))
  {
    assert r.effects[k] == Fate(kind, command, Consumed(turns, r.taken)[k]);
  }

  /** How a run ends, by what its last turn met: a read that was canceled, or that found nothing
      where `move` drains a queue; a read that failed; a write that failed. */
  lemma EndTells(kind: Kind, count: int, command: bool, turns: seq<Turn>, r: Result)
    requires IsRelay(kind, count, command, turns, r) && r.taken > 0
    ensures var t := turns[r.taken - 1];
            && (r.end.Stopped? <==> t.read.Canceled? || (kind.Move? && (t.read.Deadline? || t.read.NoMessage?)))
            && (r.end.ReadError? <==> t.read.Failed?)
            && (r.end.WriteError? <==>
                  t.read.Got? && !t.sent && !(kind.Forward? && command && t.piped.None?))
  {
    PassedTurn(kind, count, command, turns, r, r.taken - 1);
  }

  /** A run that goes on to its end is interrupted only where `forward` finds its context over;
      a count of zero is no limit to either. */
  lemma LimitTells(kind: Kind, count: int, command: bool, turns: seq<Turn>, r: Result)
    requires IsRelay(kind, count, command, turns, r)
    ensures r.end.Interrupted? ==> kind.Forward? && r.taken < |turns| && turns[r.taken].over
    ensures r.end.Running? ==> r.taken == |turns|
    ensures count == 0 ==> !r.end.Full?
    ensures kind.Forward? ==> forall i | 0 <= i < r.taken :: !turns[i].over
  {
    forall i | 0 <= i < r.taken
      ensures kind.Forward? ==> !turns[i].over
    {
      PassedTurn(kind, count, command, turns, r, i);
    }
  }

  /** The messages read are those of the turns taken, in their order: number `k` comes from the
      turn before which `k` messages had been read. */
  lemma {:induction false} ConsumedFrom(turns: seq<Turn>, n: nat, k: nat) returns (i: nat)
    requires n <= |turns| && k < |Consumed(turns, n)|
    ensures i < n && |Consumed(turns, i)| == k && turns[i] == Consumed(turns, n)[k]
  {
    if turns[n - 1].read.Got? && k == |Consumed(turns, n)| - 1 {
      i := n - 1;
    } else {
      i := ConsumedFrom(turns, n - 1, k);
    }
  }

  lemma {:induction false} EachMessageIsConsumed(turns: seq<Turn>, n: nat, i: nat)
    requires i < n <= |turns| && turns[i].read.Got?
    ensures |Consumed(turns, i)| < |Consumed(turns, n)| && Consumed(turns, n)[|Consumed(turns, i)|] == turns[i]
  {
    if i < n - 1 {
      EachMessageIsConsumed(turns, n - 1, i);
    }
  }

  lemma ForwardedIs(kind: Kind, count: int, command: bool, turns: seq<Turn>, r: Result)
    requires IsRelay(kind, count, command, turns, r)
    ensures r.forwarded == Forwarded(kind, command, turns, r.taken)
  {
  }

  lemma DeliveredGoesOn(kind: Kind, command: bool, t: Turn)
    requires t.read.Got? && Fate(kind, command, t).Delivered? && !(kind.Forward? && t.over)
    ensures GoesOn(kind, command, t)
  {
  }

  lemma LastTurnCounts(kind: Kind, count: int, command: bool, turns: seq<Turn>, r: Result)
    requires IsRelay(kind, count, command, turns, r) && r.taken > 0 && count > 0
    ensures var n := r.taken - 1;
            && Forwarded(kind, command, turns, n) < count
            && r.forwarded <= Forwarded(kind, command, turns, n) + 1
            && (r.forwarded > Forwarded(kind, command, turns, n) ==> GoesOn(kind, command, turns[n]))
  {
    var n := r.taken - 1;
    ForwardedIs(kind, count, command, turns, r);
    TurnCounts(kind, command, turns, n);
    PassedTurn(kind, count, command, turns, r, n);
    if turns[n].read.Got? && Fate(kind, command, turns[n]).Delivered? {
      DeliveredGoesOn(kind, command, turns[n]);
    }
  }

  /** A positive count is never passed, and met exactly when the loop ends for it. */
  lemma CountIsKept(kind: Kind, count: int, command: bool, turns: seq<Turn>, r: Result)
    requires IsRelay(kind, count, command, turns, r) && count > 0
    ensures r.forwarded <= count && (r.forwarded == count <==> r.end.Full?)
  {
    if r.taken > 0 {
      LastTurnCounts(kind, count, command, turns, r);
    }
  }

  lemma WriteErrorReads(kind: Kind, count: int, command: bool, turns: seq<Turn>, r: Result)
    requires IsRelay(kind, count, command, turns, r)
    ensures r.end.WriteError? ==> Consumed(turns, r.taken) != []
  {
  }

  lemma {:induction false} AllDelivered(effects: seq<Effect>)
    requires forall k | 0 <= k < |effects| :: effects[k].Delivered?
    ensures Deliveries(effects) == |effects|
  {
    if effects != [] {
      AllDelivered(effects[..|effects| - 1]);
    }
  }

  /** A move delivers all that it reads, or all but the last, which it writes out. */
  lemma MoveDeliversAllButOne(count: int, turns: seq<Turn>, r: Result)
    requires IsRelay(Move, count, false, turns, r)
    ensures var consumed := Consumed(turns, r.taken);
            && (!r.end.WriteError? ==> r.forwarded == |consumed| == |r.effects|)
            && (r.end.WriteError? ==>
                  && r.forwarded == |consumed| - 1 && |r.effects| == |consumed|
                  && r.effects[r.forwarded] == Recovered(consumed[r.forwarded].read.message.data))
  {
    var n := |r.effects|;
    forall k | 0 <= k < n
      ensures if k == n - 1 && r.end.WriteError?
              then r.effects[k] == Recovered(Consumed(turns, r.taken)[k].read.message.data)
              else r.effects[k].Delivered?
    {
      Conservation(Move, count, false, turns, r, k);
    }
    WriteErrorReads(Move, count, false, turns, r);
    if r.end.WriteError? {
      AllDelivered(r.effects[..n - 1]);
    } else {
      AllDelivered(r.effects);
    }
  }

  /** A negative count means no limit to `forward`, and no message at all to `move`. */
  lemma NegativeCounts(command: bool, turns: seq<Turn>, f: Result, m: Result, count: int)
    requires count < 0 && IsRelay(Forward, count, command, turns, f) && IsRelay(Move, count, false, turns, m)
    ensures !f.end.Full? && m == Result([], 0, 0, Full)
  {
    if m.taken > 0 {
      PassedTurn(Move, count, false, turns, m, 0);
    }
  }

  lemma NoLongerRelay(kind: Kind, count: int, command: bool, turns: seq<Turn>, a: Result, b: Result)
    requires IsRelay(kind, count, command, turns, a) && IsRelay(kind, count, command, turns, b)
    ensures a.taken >= b.taken
  {
    if a.taken < b.taken {
      if a.end.Full? || a.end.Interrupted? {
        PassedTurn(kind, count, command, turns, b, a.taken);
      } else if !a.end.Running? {
        PassedTurn(kind, count, command, turns, b, a.taken - 1);
      }
    }
  }

  lemma EndsAlike(kind: Kind, count: int, command: bool, turns: seq<Turn>, n: nat, a: End, b: End)
    requires n <= |turns|
    requires EndsRightly(kind, count, command, turns, n, a) && EndsRightly(kind, count, command, turns, n, b)
    ensures a == b
  {
    if n > 0 && AllGoOn(kind, command, turns, n) {
      assert GoesOn(kind, command, turns[n - 1]);
    }
  }

  /** The definition leaves nothing open: it has one outcome for given turns. */
  lemma RelayIsUnique(kind: Kind, count: int, command: bool, turns: seq<Turn>, a: Result, b: Result)
    requires IsRelay(kind, count, command, turns, a) && IsRelay(kind, count, command, turns, b)
    ensures a == b
  {
    NoLongerRelay(kind, count, command, turns, a, b);
    NoLongerRelay(kind, count, command, turns, b, a);
    EndsAlike(kind, count, command, turns, a.taken, a.end, b.end);
  }
}
