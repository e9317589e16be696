/** The agent's ring buffer of violations (internal/violationbuf/buffer.go). */
module ViolationBuffer {

  const MAX_BUFFER_ENTRIES: nat := 10_000

  /** The last `n` elements, or all of them if there are fewer. */
  function Last<T>(s: seq<T>, n: nat): seq<T> {
    if |s| <= n then s else s[|s| - n..]
  }

  function Reversed<T>(s: seq<T>): (r: seq<T>)
    ensures |r| == |s| && forall i | 0 <= i < |s| :: r[i] == s[|s| - 1 - i]
  {
    if s == [] then [] else [s[|s| - 1]] + Reversed(s[..|s| - 1])
  }

  /** Two positions less than a buffer apart lie in different slots. */
  lemma SlotsApart(i: nat, j: nat)
    requires i < j < i + MAX_BUFFER_ENTRIES
    ensures i % MAX_BUFFER_ENTRIES != j % MAX_BUFFER_ENTRIES
  {
  }

  class Buffer<T> {
    const buf: array<T>
    var pos: nat
    /** Everything recorded since the last drain. */
    ghost var log: seq<T>

    ghost predicate Valid()
      reads this, buf
    {
      && buf.Length == MAX_BUFFER_ENTRIES && pos == |log|
      && forall i | 0 <= i < pos && pos <= i + MAX_BUFFER_ENTRIES :: buf[i % MAX_BUFFER_ENTRIES] == log[i]
    }

    constructor (zero: T)
      ensures Valid() && fresh(buf) && log == []
    {
      buf := new T[MAX_BUFFER_ENTRIES](_ => zero);
      pos, log := 0, [];
    }

    /** One more record is kept; `dropped` tells whether the oldest one was lost for it. */
    method Record(rec: T) returns (dropped: bool)
      requires Valid()
      modifies this`pos, this`log, buf
      ensures Valid() && log == old(log) + [rec]
      ensures dropped <==> |Last(old(log), MAX_BUFFER_ENTRIES)| == MAX_BUFFER_ENTRIES
      ensures Last(log, MAX_BUFFER_ENTRIES) ==
              (if dropped then Last(old(log), MAX_BUFFER_ENTRIES)[1..] else Last(old(log), MAX_BUFFER_ENTRIES)) + [rec]
    {
      dropped := pos >= MAX_BUFFER_ENTRIES;
      forall i | 0 <= i < pos && pos + 1 <= i + MAX_BUFFER_ENTRIES
        ensures i % MAX_BUFFER_ENTRIES != pos % MAX_BUFFER_ENTRIES
      {
        SlotsApart(i, pos);
      }
      buf[pos % MAX_BUFFER_ENTRIES] := rec;
      pos, log := pos + 1, log + [rec];
    }

    /** Hands out what is kept, newest first, and starts over. */
    method Drain() returns (records: seq<T>)
      requires Valid()
      modifies this`pos, this`log
      ensures Valid() && log == []
      ensures records == Reversed(Last(old(log), MAX_BUFFER_ENTRIES))
    {
      var n := if pos < MAX_BUFFER_ENTRIES then pos else MAX_BUFFER_ENTRIES;
      records := [];
      for i := 0 to n
        invariant |records| == i && forall k | 0 <= k < i :: records[k] == log[pos - 1 - k]
      {
        var idx := (pos - 1 - i) % MAX_BUFFER_ENTRIES;
        assert buf[idx] == log[pos - 1 - i];
        records := records + [buf[idx]];
      }
      assert records == Reversed(Last(log, MAX_BUFFER_ENTRIES));
      pos, log := 0, [];
    }
  }
}
