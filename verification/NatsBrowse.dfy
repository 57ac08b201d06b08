/** The queue browser: a cursor over the sequence numbers a stream had when browsing began. */
module NatsBrowse {
  import opened Consume

  /** One past the largest unsigned 64-bit number. */
  const WRAP := 0x1_0000_0000_0000_0000

  type uint64 = n: int | 0 <= n < WRAP witness 0

  /** Unsigned numbers go round. */
  function Wrapped(n: int): uint64
    requires 0 <= n <= WRAP
  {
    if n == WRAP then 0 else n
  }

  /** What reading one sequence number gives: a message, a gap, or an error. */
  datatype Lookup<M> = Found(message: M) | Missing | Broken

  /** The messages stored from `s` up to `last`, in order. */
  function Stored<M>(get: int -> Lookup<M>, s: nat, last: uint64): seq<M>
    decreases last + 1 - s
  {
    if s == 0 || s > last then []
    else (if get(s).Found? then [get(s).message] else []) + Stored(get, s + 1, last)
  }

  ghost predicate Intact<M>(get: int -> Lookup<M>, first: nat, last: uint64) {
    first == 0 || forall s | first <= s <= last :: !get(s).Broken?
  }

  /** The first number from `s` on that is no gap, or one past the last. */
  function NextStored<M>(get: int -> Lookup<M>, s: nat, last: uint64): (k: nat)
    requires 0 < s <= last + 1
    ensures s <= k <= last + 1
    ensures forall j | s <= j < k :: get(j).Missing?
    ensures k <= last ==> !get(k).Missing?
    decreases last + 1 - s
  {
    if s <= last && get(s).Missing? then NextStored(get, s + 1, last) else s
  }

  /** What a call of Next answers at cursor `seq`, and where it leaves the cursor. */
  function NextAnswer<M>(get: int -> Lookup<M>, at: uint64, last: uint64): (Answer<M>, uint64) {
    if at == 0 || at > last then (NoMessage, at)
    else
      var k := NextStored(get, at, last);
      if k > last then (NoMessage, Wrapped(k))
      else (if get(k).Found? then Msg(get(k).message, true) else Failed, Wrapped(k + 1))
  }

  class QueueBrowser<M> {
    var at: uint64
    const last: uint64

    constructor (first: uint64, last: uint64)
      ensures this.at == first && this.last == last
    {
      this.at := first;
      this.last := last;
    }

    /** Ends for every range, the one up to the largest number included: the cursor then
        wraps to zero, which stands for an exhausted range. */
    method Next(get: int -> Lookup<M>) returns (answer: Answer<M>)
      modifies this`at
      ensures (answer, at) == NextAnswer(get, old(at), last)
    {
      ghost var start, s := at, at as int;
      while at != 0 && at <= last
        invariant start == 0 || start > last ==> s == start
        invariant 0 < start <= last ==>
                    start <= s <= last + 1 && NextStored(get, start, last) == NextStored(get, s, last)
        invariant at == Wrapped(s)
        decreases if at == 0 then 0 else WRAP - at
      {
        var raw := get(at);
        at := Wrapped(at + 1);
        match raw {
          case Missing =>
            s := s + 1;
          case Broken => return Failed;
          case Found(m) => return Msg(m, true);
        }
      }
      answer := NoMessage;
    }
  }

  // ---------- Browsing and the read loop together ----------

  /** The turns read from the browser one call of Next after the other, with nothing
      interrupting and nothing failing to be written. */
  predicate FromBrowser<M(==)>(get: int -> Lookup<M>, at: uint64, last: uint64, polls: seq<Poll<M>>)
    decreases |polls|
  {
    polls == [] ||
    (var (answer, after) := NextAnswer(get, at, last);
     polls[0] == Poll(false, answer) && FromBrowser(get, after, last, polls[1..]))
  }

  lemma {:induction false} StoredFrom<M>(get: int -> Lookup<M>, s: nat, last: uint64)
    requires 0 < s <= last + 1
    ensures Stored(get, s, last) == Stored(get, NextStored(get, s, last), last)
    decreases last + 1 - s
  {
    if s <= last && get(s).Missing? {
      StoredFrom(get, s + 1, last);
    }
  }

  /** One call of Next takes the first stored message and leaves the rest, also when the
      cursor wraps past the largest number. */
  lemma NextTakesFirst<M>(get: int -> Lookup<M>, at: uint64, last: uint64)
    requires Intact(get, at, last)
    ensures var (answer, after) := NextAnswer(get, at, last);
            && Intact(get, after, last)
            && (Stored(get, at, last) == [] ==> answer == NoMessage && Stored(get, after, last) == [])
            && (Stored(get, at, last) != [] ==>
                  answer.Msg? && answer.written && Stored(get, at, last) == [answer.message] + Stored(get, after, last))
  {
    if 0 < at <= last {
      StoredFrom(get, at, last);
    }
  }

  /** A call of Next by what is stored: the first number from the cursor on that is no gap gives
      its message, or a failure if it cannot be read; only gaps up to the end, or a cursor
      past it, mean that there is no message. */
  lemma NextTells<M>(get: int -> Lookup<M>, at: uint64, last: uint64, k: int)
    requires at <= k <= last + 1 && forall j | at <= j < k :: get(j).Missing?
    ensures var (answer, after) := NextAnswer(get, at, last);
            && (at == 0 || k > last ==> answer == NoMessage)
            && (at == 0 || at > last ==> after == at)
            && (0 < at <= last < k ==> after == (last + 1) % 0x1_0000_0000_0000_0000)
            && (0 < at && k <= last && !get(k).Missing? ==>
                  && after == (k + 1) % 0x1_0000_0000_0000_0000
                  && answer == if get(k).Broken? then Failed else Msg(get(k).message, true))
  {
    if 0 < at <= last {
      var n := NextStored(get, at, last);
      assert k <= last && !get(k).Missing? ==> n == k;
      assert k > last ==> n == last + 1;
      Wraps(n);
      Wraps(n + 1);
    }
  }

  lemma Wraps(n: int)
    ensures 0 <= n <= WRAP ==> Wrapped(n) == n % WRAP
  {
  }

  /** The turns say one stored message after the other, then that there are no more. */
  ghost predicate Tells<M>(stored: seq<M>, polls: seq<Poll<M>>) {
    forall k | 0 <= k < |polls| :: polls[k] == Poll(false, if k < |stored| then Msg(stored[k], true) else NoMessage)
  }

  /** Call by call, Next gives the stored messages in order, each once, and from then on that
      there are no more. */
  lemma {:induction false} BrowserStory<M>(get: int -> Lookup<M>, at: uint64, last: uint64, polls: seq<Poll<M>>)
    requires Intact(get, at, last) && FromBrowser(get, at, last, polls)
    ensures Tells(Stored(get, at, last), polls)
    decreases |polls|
  {
    if polls != [] {
      var stored := Stored(get, at, last);
      var (answer, after) := NextAnswer(get, at, last);
      NextTakesFirst(get, at, last);
      BrowserStory(get, after, last, polls[1..]);
      forall i | 0 <= i < |polls|
        ensures polls[i] == Poll(false, if i < |stored| then Msg(stored[i], true) else NoMessage)
      {
        if i > 0 {
          assert polls[i] == polls[1..][i - 1];
        }
      }
    }
  }

  lemma {:induction false} GotStored<M>(stored: seq<M>, polls: seq<Poll<M>>, i: nat)
    requires i <= |polls| && Tells(stored, polls)
    ensures Got(polls, i) == stored[..if i < |stored| then i else |stored|]
  {
    if i > 0 {
      GotStored(stored, polls, i - 1);
    }
  }

  /** The slice that peek promises. */
  function Slice<M>(stored: seq<M>, omit: int, count: int): seq<M> {
    var rest := if Clamp(omit) <= |stored| then stored[Clamp(omit)..] else [];
    if 0 < count < |rest| then rest[..count] else rest
  }

  /** Peeking at an unchanging stream writes the stored messages without the first `omit` and
      at most `count` of them, and is over after one read more than there are messages. */
  lemma PeekIsASlice<M>(get: int -> Lookup<M>, first: uint64, last: uint64, count: int, omit: int,
                        polls: seq<Poll<M>>, r: Result<M>)
    requires Intact(get, first, last) && FromBrowser(get, first, last, polls)
    requires |polls| > |Stored(get, first, last)| && IsRun(count, omit, false, polls, r)
    ensures r.output == Slice(Stored(get, first, last), omit, count)
    ensures r.taken <= |Stored(get, first, last)| + 1
    ensures r.end == if count > 0 && |r.output| == count then Full
                     else if count > 0 && r.output == [] then NothingThere else Drained
  {
    var stored := Stored(get, first, last);
    BrowserStory(get, first, last, polls);
    PeekOf(stored, count, omit, polls, r);
  }

  /** The run that such turns make, told outright. */
  function Peeked<M>(stored: seq<M>, count: int, omit: int): Result<M> {
    var rest := if Clamp(omit) <= |stored| then |stored| - Clamp(omit) else 0;
    var output := Slice(stored, omit, count);
    if 0 < count <= rest then Result(output, Clamp(omit) + count, Full)
    else Result(output, |stored| + 1, if count > 0 && rest == 0 then NothingThere else Drained)
  }

  lemma StoryGoesOn<M>(stored: seq<M>, count: int, omit: int, polls: seq<Poll<M>>, n: nat)
    requires Tells(stored, polls) && n <= |stored| < |polls|
    requires count <= 0 || n <= Clamp(omit) + count
    ensures AllGoOn(omit, false, polls, n)
    ensures WantingBefore(count, omit, polls, n)
  {
    forall i | 0 <= i < n
      ensures Wanting(count, omit, polls, i)
    {
      GotStored(stored, polls, i);
    }
  }

  lemma PeekedFullIsRun<M>(stored: seq<M>, count: int, omit: int, polls: seq<Poll<M>>)
    requires Tells(stored, polls) && |polls| > |stored| && Peeked(stored, count, omit).end.Full?
    ensures IsRun(count, omit, false, polls, Peeked(stored, count, omit))
  {
    var n := Peeked(stored, count, omit).taken;
    StoryGoesOn(stored, count, omit, polls, n);
    GotStored(stored, polls, n);
  }

  lemma PeekedDrainedIsRun<M>(stored: seq<M>, count: int, omit: int, polls: seq<Poll<M>>)
    requires Tells(stored, polls) && |polls| > |stored| && !Peeked(stored, count, omit).end.Full?
    ensures IsRun(count, omit, false, polls, Peeked(stored, count, omit))
  {
    var p, n := Peeked(stored, count, omit), |stored|;
    StoryGoesOn(stored, count, omit, polls, n);
    GotStored(stored, polls, n);
    GotStored(stored, polls, n + 1);
    TurnTaken(count, omit, false, polls, n);
    assert StopsAt(count, omit, false, polls, n, p.end);
  }

  lemma PeekOf<M>(stored: seq<M>, count: int, omit: int, polls: seq<Poll<M>>, r: Result<M>)
    requires Tells(stored, polls) && |polls| > |stored| && IsRun(count, omit, false, polls, r)
    ensures r == Peeked(stored, count, omit)
  {
    if Peeked(stored, count, omit).end.Full? {
      PeekedFullIsRun(stored, count, omit, polls);
    } else {
      PeekedDrainedIsRun(stored, count, omit, polls);
    }
    RunIsUnique(count, omit, false, polls, r, Peeked(stored, count, omit));
  }
}
