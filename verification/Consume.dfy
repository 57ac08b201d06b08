/** The read loop behind receive, peek and subscribe, over a source that may answer anything. */
module Consume {

  /** What one read gives. `written` says whether writing the message out works, should it
      come to that. */
  datatype Answer<M> = Canceled | Deadline | NoMessage | Failed | Msg(message: M, written: bool)

  /** One turn of the loop: was the context over by then, and what the read gives. */
  datatype Poll<M> = Poll(over: bool, answer: Answer<M>)

  /** How the loop ends; `Running` when the turns seen so far have not ended it. */
  datatype End =
    | Full          // as many messages as asked for
    | Interrupted   // the context was over before a read
    | Drained       // the source has no more, or was canceled
    | NothingThere  // "no message available": not one message came
    | ReadError
    | WriteError
    | Running

  datatype Result<M> = Result(output: seq<M>, taken: nat, end: End)

  /** The messages that the first `i` turns read. */
  function Got<M>(polls: seq<Poll<M>>, i: nat): (r: seq<M>)
    requires i <= |polls|
    ensures |r| <= i
  {
    if i == 0 then []
    else if polls[i - 1].answer.Msg? then Got(polls, i - 1) + [polls[i - 1].answer.message]
    else Got(polls, i - 1)
  }

  function Clamp(n: int): nat {
    if n < 0 then 0 else n
  }

  /** Turn `i` keeps the loop going. */
  predicate GoesOn<M>(omit: int, follow: bool, polls: seq<Poll<M>>, i: nat)
    requires i < |polls|
  {
    && !polls[i].over
    && match polls[i].answer
       case Msg(_, written) => |Got(polls, i)| < omit || written
       case Deadline => follow
       case NoMessage => follow
       case _ => false
  }

  predicate AllGoOn<M>(omit: int, follow: bool, polls: seq<Poll<M>>, n: nat)
    requires n <= |polls|
  {
    forall i | 0 <= i < n :: GoesOn(omit, follow, polls, i)
  }

  /** What is written of `got`: all but the first `omit`, and not one that could not be written. */
  function Kept<M>(got: seq<M>, omit: int, lost: bool): seq<M> {
    var rest := if Clamp(omit) <= |got| then got[Clamp(omit)..] else [];
    if lost && rest != [] then rest[..|rest| - 1] else rest
  }

  /** How many messages past the first `omit` the first `i` turns read. */
  function Due<M>(omit: int, polls: seq<Poll<M>>, i: nat): nat
    requires i <= |polls|
  {
    Clamp(|Got(polls, i)| - Clamp(omit))
  }

  /** A count of zero or less is no limit. */
  predicate Wanting<M>(count: int, omit: int, polls: seq<Poll<M>>, i: nat)
    requires i <= |polls|
  {
    count > 0 ==> Due(omit, polls, i) < count
  }

  /** Why the loop is over after `n` turns. */
  predicate EndsRightly<M>(count: int, omit: int, follow: bool, polls: seq<Poll<M>>, n: nat, end: End)
    requires n <= |polls|
  {
    match end
    case Full => AllGoOn(omit, follow, polls, n) && count > 0 && Due(omit, polls, n) == count
    case Running => AllGoOn(omit, follow, polls, n) && Wanting(count, omit, polls, n) && n == |polls|
    case Interrupted =>
      AllGoOn(omit, follow, polls, n) && Wanting(count, omit, polls, n) && n < |polls| && polls[n].over
    case _ => n > 0 && AllGoOn(omit, follow, polls, n - 1) && StopsAt(count, omit, follow, polls, n - 1, end)
  }

  /** Turn `i` ends the loop by what it reads. */
  predicate StopsAt<M>(count: int, omit: int, follow: bool, polls: seq<Poll<M>>, i: nat, end: End)
    requires i < |polls|
  {
    && !polls[i].over
    && match polls[i].answer
       case Canceled => end == Drained
       case Deadline => !follow && end == Drained
       case NoMessage => !follow && end == if Due(omit, polls, i) == 0 && count > 0 then NothingThere else Drained
       case Failed => end == ReadError
       case Msg(_, written) => !written && |Got(polls, i)| >= omit && end == WriteError
  }

  ghost predicate WantingBefore<M>(count: int, omit: int, polls: seq<Poll<M>>, n: nat)
    requires n <= |polls|
  {
    forall i | 0 <= i < n :: Wanting(count, omit, polls, i)
  }

  /** What a run of the loop is, without its counters. */
  ghost predicate IsRun<M>(count: int, omit: int, follow: bool, polls: seq<Poll<M>>, r: Result<M>) {
    && r.taken <= |polls|
    && r.output == Kept(Got(polls, r.taken), omit, r.end.WriteError?)
    && WantingBefore(count, omit, polls, r.taken)
    && EndsRightly(count, omit, follow, polls, r.taken, r.end)
  }

  lemma KeptStep<M>(got: seq<M>, omit: int, m: M)
    ensures Kept(got + [m], omit, false) == Kept(got, omit, false) + if |got| < omit then [] else [m]
    ensures |got| >= omit ==> Kept(got + [m], omit, true) == Kept(got, omit, false)
    ensures |Kept(got, omit, false)| == Clamp(|got| - Clamp(omit))
  {
    if |got| >= Clamp(omit) {
      assert (got + [m])[Clamp(omit)..] == got[Clamp(omit)..] + [m];
    }
  }

  /** What turn `i` does to the counters when it does not end the loop. */
  lemma TurnCounts<M>(omit: int, polls: seq<Poll<M>>, i: nat)
    requires i < |polls|
    ensures var before, after := Got(polls, i), Got(polls, i + 1);
            && Due(omit, polls, i) == |Kept(before, omit, false)|
            && (if polls[i].answer.Msg? && |before| >= omit
                then
                  && Due(omit, polls, i + 1) == Due(omit, polls, i) + 1
                  && Kept(after, omit, false) == Kept(before, omit, false) + [polls[i].answer.message]
                  && Kept(after, omit, true) == Kept(before, omit, false)
                else
                  && Due(omit, polls, i + 1) == Due(omit, polls, i)
                  && Kept(after, omit, false) == Kept(before, omit, false))
  {
    if polls[i].answer.Msg? {
      KeptStep(Got(polls, i), omit, polls[i].answer.message);
    }
  }

  /** What holds of the loop when turn `i` is taken. */
  lemma TurnTaken<M>(count: int, omit: int, follow: bool, polls: seq<Poll<M>>, i: nat)
    requires i < |polls| && AllGoOn(omit, follow, polls, i)
    requires WantingBefore(count, omit, polls, i) && Wanting(count, omit, polls, i)
    ensures WantingBefore(count, omit, polls, i + 1)
    ensures GoesOn(omit, follow, polls, i) ==> AllGoOn(omit, follow, polls, i + 1)
  {
  }

  /** What the loop's variables hold after `i` turns. */
  ghost predicate Holds<M>(omit: int, polls: seq<Poll<M>>, i: nat, received: nat, omitted: nat, output: seq<M>)
    requires i <= |polls|
  {
    && received == Due(omit, polls, i) && omitted == |Got(polls, i)| - received
    && output == Kept(Got(polls, i), omit, false)
  }

  lemma TurnHolds<M>(omit: int, polls: seq<Poll<M>>, i: nat, received: nat, omitted: nat, output: seq<M>)
    requires i < |polls| && Holds(omit, polls, i, received, omitted, output)
    ensures !polls[i].answer.Msg? ==> Holds(omit, polls, i + 1, received, omitted, output)
    ensures polls[i].answer.Msg? && omitted < omit ==>
              |Got(polls, i)| < omit && Holds(omit, polls, i + 1, received, omitted + 1, output)
    ensures polls[i].answer.Msg? && omitted >= omit ==>
              && |Got(polls, i)| >= omit
              && Holds(omit, polls, i + 1, received + 1, omitted, output + [polls[i].answer.message])
              && Kept(Got(polls, i + 1), omit, true) == output
  {
    TurnCounts(omit, polls, i);
  }

  /** Does turn `i` end the loop, and how? */
  method EndAt<M>(count: int, omit: int, follow: bool, polls: seq<Poll<M>>, i: nat, received: nat, omitted: nat)
    returns (stop: bool, end: End)
    requires i < |polls| && !polls[i].over
    requires received == Due(omit, polls, i) && omitted == |Got(polls, i)| - received
    ensures !stop ==> GoesOn(omit, follow, polls, i)
    ensures stop ==> StopsAt(count, omit, follow, polls, i, end) && !(end.Full? || end.Running? || end.Interrupted?)
  {
    var unbounded := count <= 0;
    stop, end := true, Drained;
    match polls[i].answer {
      case Canceled =>
      case Deadline => stop := !follow;
      case NoMessage =>
        stop := !follow;
        if received == 0 && !unbounded {
          end := NothingThere;
        }
      case Failed => end := ReadError;
      case Msg(_, written) =>
        stop := omitted >= omit && !written;
        end := WriteError;
    }
  }

  /** The loop, on the turns as they come. */
  method ConsumeMessages<M>(count: int, omit: int, follow: bool, polls: seq<Poll<M>>) returns (r: Result<M>)
    ensures IsRun(count, omit, follow, polls, r)
  {
    var unbounded := count <= 0;
    var received: nat, omitted: nat := 0, 0;
    var output: seq<M> := [];
    var i := 0;
    while unbounded || received < count
      invariant i <= |polls| && Holds(omit, polls, i, received, omitted, output)
      invariant AllGoOn(omit, follow, polls, i) && WantingBefore(count, omit, polls, i)
      invariant count > 0 ==> received <= count
      decreases |polls| - i
    {
      if i == |polls| {
        return Result(output, i, Running);
      }
      if polls[i].over {
        return Result(output, i, Interrupted);
      }
      TurnTaken(count, omit, follow, polls, i);
      TurnHolds(omit, polls, i, received, omitted, output);
      var stop, end := EndAt(count, omit, follow, polls, i, received, omitted);
      if stop {
        return Result(output, i + 1, end);
      }
      var answer := polls[i].answer;
      i := i + 1;
      if answer.Msg? {
        if omitted < omit {
          omitted := omitted + 1;
        } else {
          output := output + [answer.message];
          received := received + 1;
        }
      }
    }
    return Result(output, i, Full);
  }

  function Skipped<M>(got: seq<M>, omit: int): seq<M> {
    if |got| < Clamp(omit) then got else got[..Clamp(omit)]
  }

  lemma KeptSplits<M>(got: seq<M>, omit: int)
    ensures got == Skipped(got, omit) + Kept(got, omit, false)
    ensures |got| > Clamp(omit) ==> got == Skipped(got, omit) + Kept(got, omit, true) + [got[|got| - 1]]
  {
    if |got| > Clamp(omit) {
      var rest := got[Clamp(omit)..];
      assert rest == rest[..|rest| - 1] + [got[|got| - 1]];
    }
  }

  lemma LostIsLast<M>(count: int, omit: int, follow: bool, polls: seq<Poll<M>>, r: Result<M>)
    requires IsRun(count, omit, follow, polls, r) && r.end.WriteError?
    ensures |Got(polls, r.taken)| > Clamp(omit)
  {
    assert StopsAt(count, omit, follow, polls, r.taken - 1, WriteError);
  }

  /** Everything read is skipped, written, or the one message whose writing failed; and no
      source is read deeper than what is skipped and what is asked for. */
  lemma NothingElseIsRead<M>(count: int, omit: int, follow: bool, polls: seq<Poll<M>>, r: Result<M>)
    requires IsRun(count, omit, follow, polls, r)
    ensures var got := Got(polls, r.taken);
            && (!r.end.WriteError? ==> got == Skipped(got, omit) + r.output)
            && (r.end.WriteError? ==> got != [] && got == Skipped(got, omit) + r.output + [got[|got| - 1]])
            && (count > 0 ==> |got| <= Clamp(omit) + count)
  {
    KeptSplits(Got(polls, r.taken), omit);
    if r.taken > 0 {
      PassedTurn(count, omit, follow, polls, r, r.taken - 1);
    }
    if r.end.WriteError? {
      LostIsLast(count, omit, follow, polls, r);
    }
  }

  lemma PassedTurn<M>(count: int, omit: int, follow: bool, polls: seq<Poll<M>>, r: Result<M>, i: nat)
    requires IsRun(count, omit, follow, polls, r) && i < r.taken
    ensures !polls[i].over && Wanting(count, omit, polls, i)
    ensures i < r.taken - 1 ==> GoesOn(omit, follow, polls, i)
  {
    var n := if AllGoOn(omit, follow, polls, r.taken) then r.taken else r.taken - 1;
    assert i < n ==> GoesOn(omit, follow, polls, i);
  }

  /** How a run ends, by what its last turn met; a read that failed is never told as the end of
      the source. */
  lemma EndTells<M>(count: int, omit: int, follow: bool, polls: seq<Poll<M>>, r: Result<M>)
    requires IsRun(count, omit, follow, polls, r) && r.taken > 0
    ensures var answer := polls[r.taken - 1].answer;
            && (r.end.ReadError? <==> answer.Failed?)
            && (r.end.WriteError? <==> answer.Msg? && !answer.written && |Got(polls, r.taken)| > omit)
            && (r.end.NothingThere? <==> answer.NoMessage? && !follow && count > 0 && r.output == [])
            && (r.end.Drained? <==>
                  || answer.Canceled? || (answer.Deadline? && !follow)
                  || (answer.NoMessage? && !follow && (count <= 0 || r.output != [])))
  {
    TurnCounts(omit, polls, r.taken - 1);
    PassedTurn(count, omit, follow, polls, r, r.taken - 1);
    EndOfTurn(count, omit, follow, polls, r);
  }

  lemma EndOfTurn<M>(count: int, omit: int, follow: bool, polls: seq<Poll<M>>, r: Result<M>)
    requires IsRun(count, omit, follow, polls, r) && r.taken > 0
    ensures r.end.Full? || r.end.Running? || r.end.Interrupted? ==> GoesOn(omit, follow, polls, r.taken - 1)
    ensures !(r.end.Full? || r.end.Running? || r.end.Interrupted?) ==>
              StopsAt(count, omit, follow, polls, r.taken - 1, r.end)
  {
  }

  /** How many messages are written: all past the first `omit`, but for one that could not be;
      all `count` exactly when the run ends for it. */
  lemma OutputLength<M>(count: int, omit: int, follow: bool, polls: seq<Poll<M>>, r: Result<M>)
    requires IsRun(count, omit, follow, polls, r)
    ensures var got, skipped := |Got(polls, r.taken)|, if omit < 0 then 0 else omit;
            |r.output| == if r.end.WriteError? then got - skipped - 1 else if got < skipped then 0 else got - skipped
    ensures count > 0 ==> |r.output| <= count && (|r.output| == count <==> r.end.Full?)
    ensures count <= 0 ==> !r.end.Full?
  {
    KeptLength(Got(polls, r.taken), omit);
    if r.end.WriteError? {
      LostIsLast(count, omit, follow, polls, r);
    }
    if r.taken > 0 {
      DueOfLast(count, omit, follow, polls, r);
    }
  }

  lemma KeptLength<M>(got: seq<M>, omit: int)
    ensures |Kept(got, omit, false)| == Clamp(|got| - Clamp(omit))
    ensures |got| > Clamp(omit) ==> |Kept(got, omit, true)| == |got| - Clamp(omit) - 1
  {
  }

  lemma DueOfLast<M>(count: int, omit: int, follow: bool, polls: seq<Poll<M>>, r: Result<M>)
    requires IsRun(count, omit, follow, polls, r) && r.taken > 0
    ensures count > 0 ==> Due(omit, polls, r.taken) <= count
    ensures count > 0 && Due(omit, polls, r.taken) == count ==> r.end.Full? || r.end.WriteError?
  {
    TurnCounts(omit, polls, r.taken - 1);
    PassedTurn(count, omit, follow, polls, r, r.taken - 1);
    EndOfTurn(count, omit, follow, polls, r);
  }

  /** What is written, message by message: the `omit`th message read and those after it. */
  lemma OutputIs<M>(count: int, omit: int, follow: bool, polls: seq<Poll<M>>, r: Result<M>, k: nat)
    requires IsRun(count, omit, follow, polls, r) && k < |r.output|
    ensures var got, skipped := Got(polls, r.taken), if omit < 0 then 0 else omit;
            skipped + k < |got| && r.output[k] == got[skipped + k]
  {
  }

  /** The messages read are those of the turns taken, in their order: message `k` comes from the
      turn before which `k` messages had been read. */
  lemma {:induction false} GotFrom<M>(polls: seq<Poll<M>>, n: nat, k: nat) returns (i: nat)
    requires n <= |polls| && k < |Got(polls, n)|
    ensures i < n && polls[i].answer.Msg? && |Got(polls, i)| == k && polls[i].answer.message == Got(polls, n)[k]
  {
    if polls[n - 1].answer.Msg? && k == |Got(polls, n)| - 1 {
      i := n - 1;
    } else {
      i := GotFrom(polls, n - 1, k);
    }
  }

  lemma {:induction false} EachMessageIsGot<M>(polls: seq<Poll<M>>, n: nat, i: nat)
    requires i < n <= |polls| && polls[i].answer.Msg?
    ensures |Got(polls, i)| < |Got(polls, n)| && Got(polls, n)[|Got(polls, i)|] == polls[i].answer.message
  {
    if i < n - 1 {
      EachMessageIsGot(polls, n - 1, i);
    }
  }

  /** Of two runs on the same turns, neither is longer: a run cannot pass a turn that ends it. */
  lemma NoLongerRun<M>(count: int, omit: int, follow: bool, polls: seq<Poll<M>>, a: Result<M>, b: Result<M>)
    requires IsRun(count, omit, follow, polls, a) && IsRun(count, omit, follow, polls, b)
    ensures a.taken >= b.taken
  {
    if a.taken < b.taken {
      if a.end.Full? || a.end.Interrupted? {
        PassedTurn(count, omit, follow, polls, b, a.taken);
      } else if !a.end.Running? {
        PassedTurn(count, omit, follow, polls, b, a.taken - 1);
      }
    }
  }

  /** The definition leaves nothing open: it has one outcome for given turns. */
  lemma RunIsUnique<M>(count: int, omit: int, follow: bool, polls: seq<Poll<M>>, a: Result<M>, b: Result<M>)
    requires IsRun(count, omit, follow, polls, a) && IsRun(count, omit, follow, polls, b)
    ensures a == b
  {
    NoLongerRun(count, omit, follow, polls, a, b);
    NoLongerRun(count, omit, follow, polls, b, a);
    EndsAlike(count, omit, follow, polls, a.taken, a.end, b.end);
  }

  lemma EndsAlike<M>(count: int, omit: int, follow: bool, polls: seq<Poll<M>>, n: nat, a: End, b: End)
    requires n <= |polls|
    requires EndsRightly(count, omit, follow, polls, n, a) && EndsRightly(count, omit, follow, polls, n, b)
    ensures a == b
  {
    if n > 0 && (AllGoOn(omit, follow, polls, n)) {
      assert GoesOn(omit, follow, polls, n - 1);
    }
  }
}
