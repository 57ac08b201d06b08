/** A buffer that keeps the last bytes written to it, trimming only now and then. */
module CappedBuffer {
  import Seqs

  type Byte = n: int | 0 <= n < 256 witness 0

  /** The last `max` bytes; all of them when `max` is no cap. */
  function Last(all: seq<Byte>, max: int): seq<Byte> {
    if 0 < max < |all| then all[|all| - max..] else all
  }

  /** What the storage holds after a write: it grows up to twice the cap before it is cut. */
  function Stored(contents: seq<Byte>, p: seq<Byte>, max: int): seq<Byte> {
    var all := contents + p;
    if 0 < 2 * max < |all| then all[|all| - max..] else all
  }

  /** The storage is a block of memory of which the first `len` bytes are in use. */
  class Buffer {
    var data: array<Byte>
    var len: nat
    const max: int

    ghost predicate Valid()
      reads this
    {
      len <= data.Length
    }

    ghost function Contents(): seq<Byte>
      requires Valid()
      reads this, data
    {
      data[..len]
    }

    constructor (max: int)
      ensures Valid() && this.max == max && Contents() == [] && fresh(data)
    {
      data := new Byte[0];
      len := 0;
      this.max := max;
    }

    /** Room for `n` more bytes, in a larger block if need be. */
    method Grow(n: nat)
      requires Valid()
      modifies this
      ensures Valid() && Contents() == old(Contents()) && len == old(len) && len + n <= data.Length
      ensures data == old(data) || fresh(data)
    {
      if len + n > data.Length {
        var more := new Byte[2 * data.Length + n];
        for i := 0 to len
          modifies more
          invariant more[..i] == data[..i]
        {
          more[i] := data[i];
        }
        data := more;
      }
    }

    method Append(p: seq<Byte>)
      requires Valid() && len + |p| <= data.Length
      modifies this`len, data
      ensures Valid() && Contents() == old(Contents()) + p
    {
      for i := 0 to |p|
        modifies data
        invariant data[..len] == old(data[..len]) && data[len..len + i] == p[..i]
      {
        data[len + i] := p[i];
      }
      assert data[..len + |p|] == data[..len] + data[len..len + |p|];
      len := len + |p|;
    }

    /** Moves the last `max` bytes to the front, in place. The two stretches do not overlap,
        so a copy from the first byte on overwrites nothing that it still has to read. */
    method Trim()
      requires Valid() && 0 < 2 * max < len
      modifies this`len, data
      ensures Valid() && Contents() == old(Contents())[old(len) - max..]
    {
      var from := len - max;
      assert max < from;
      for i := 0 to max
        modifies data
        invariant data[..i] == old(data[from..from + i])
        invariant data[from..len] == old(data[from..len])
      {
        assert data[from..len][i] == data[from + i] && old(data[from..len])[i] == old(data[from + i]);
        data[i] := data[from + i];
      }
      len := max;
    }

    method Write(p: seq<Byte>) returns (n: nat)
      requires Valid()
      modifies this, data
      ensures Valid() && Contents() == Stored(old(Contents()), p, max) && n == |p|
      ensures data == old(data) || fresh(data)
    {
      n := |p|;
      Grow(|p|);
      Append(p);
      if max > 0 && len > 2 * max {
        Trim();
      }
    }

    method String() returns (s: seq<Byte>)
      requires Valid()
      ensures s == Last(Contents(), max)
    {
      if max > 0 && len > max {
        s := data[len - max..len];
        assert s == data[..len][len - max..];
      } else {
        s := data[..len];
      }
    }
  }

  // ---------- Whole runs ----------

  /** What the storage holds after some writes. */
  function StoredAfter(contents: seq<Byte>, writes: seq<seq<Byte>>, max: int): seq<Byte>
    decreases |writes|
  {
    if writes == [] then contents else StoredAfter(Stored(contents, writes[0], max), writes[1..], max)
  }

  function Written(writes: seq<seq<Byte>>): seq<Byte> {
    if writes == [] then [] else writes[0] + Written(writes[1..])
  }

  /** The storage stands for a history: it is its end, and long enough for the cap. */
  predicate StandsFor(contents: seq<Byte>, history: seq<Byte>, max: int) {
    && |contents| <= |history| && contents == history[|history| - |contents|..]
    && (|contents| < |history| ==> 0 < max <= |contents|)
    && (max > 0 ==> |contents| <= 2 * max)
  }

  lemma WriteStandsFor(contents: seq<Byte>, history: seq<Byte>, p: seq<Byte>, max: int)
    requires StandsFor(contents, history, max)
    ensures StandsFor(Stored(contents, p, max), history + p, max)
  {
    var all := contents + p;
    assert all == (history + p)[|history + p| - |all|..];
  }

  lemma {:induction false} WritesStandFor(contents: seq<Byte>, history: seq<Byte>, writes: seq<seq<Byte>>, max: int)
    requires StandsFor(contents, history, max)
    ensures StandsFor(StoredAfter(contents, writes, max), history + Written(writes), max)
    decreases |writes|
  {
    if writes == [] {
      Seqs.Empty(history);
    } else {
      WriteStandsFor(contents, history, writes[0], max);
      WritesStandFor(Stored(contents, writes[0], max), history + writes[0], writes[1..], max);
      Seqs.Associate(history, writes[0], Written(writes[1..]));
    }
  }

  /** After any writes to an empty buffer the text is the last `max` bytes of all that was
      written, and everything when there is no cap; and the storage is at most twice the cap. */
  lemma TextIsTheLastBytes(writes: seq<seq<Byte>>, max: int)
    ensures Last(StoredAfter([], writes, max), max) == Last(Written(writes), max)
    ensures max > 0 ==> |StoredAfter([], writes, max)| <= 2 * max
    ensures max <= 0 ==> StoredAfter([], writes, max) == Written(writes)
  {
    WritesStandFor([], [], writes, max);
    Seqs.Empty(Written(writes));
    LastAlike(StoredAfter([], writes, max), Written(writes), max);
  }

  /** The text is the end of everything written, min(max, total) bytes of it, and everything
      without a cap. */
  lemma TextIsTheEnd(writes: seq<seq<Byte>>, max: int)
    ensures var text, all := Last(StoredAfter([], writes, max), max), Written(writes);
            && |text| == (if 0 < max < |all| then max else |all|)
            && all == all[..|all| - |text|] + text
  {
    TextIsTheLastBytes(writes, max);
    Seqs.Empty(Written(writes));
  }

  /** Nothing is cut before the cap is passed twice over. */
  lemma {:induction false} KeepsUpToTwice(contents: seq<Byte>, writes: seq<seq<Byte>>, max: int)
    requires |contents + Written(writes)| <= 2 * max
    ensures StoredAfter(contents, writes, max) == contents + Written(writes)
    decreases |writes|
  {
    if writes == [] {
      Seqs.Empty(contents);
    } else {
      Seqs.Associate(contents, writes[0], Written(writes[1..]));
      KeepsUpToTwice(contents + writes[0], writes[1..], max);
    }
  }

  lemma LastAlike(contents: seq<Byte>, history: seq<Byte>, max: int)
    requires StandsFor(contents, history, max)
    ensures Last(contents, max) == Last(history, max)
  {
  }
}
