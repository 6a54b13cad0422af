/** The bounded sample history of plugins/http/sample-ring.go. */
module SampleRings {
  import opened Words

  datatype Sample = Sample(timestamp: Int64, value: Int32)

  /** The last min(n, capacity) of n elements, oldest first. */
  function Last<T>(s: seq<T>, capacity: nat): (r: seq<T>)
    ensures |r| == if |s| < capacity then |s| else capacity
    ensures forall i :: 0 <= i < |r| ==> r[i] == s[|s| - |r| + i]
  {
    if |s| <= capacity then s else s[|s| - capacity..]
  }

  /** The index that lies a number of appends before the write position. */
  function Slot(next: nat, length: nat, back: nat): (slot: nat)
    requires next < length && back <= length
    ensures slot < length || back == 0
  {
    if back <= next then next - back else next + length - back
  }

  /** Stepping the write position with the remainder operator moves every slot
      one append further back. */
  lemma SlotStep(next: nat, length: nat, back: nat)
    requires next < length && back < length
    ensures (next + 1) % length < length
    ensures Slot((next + 1) % length, length, back + 1) == Slot(next, length, back)
  {
    Remainder(next + 1, length);
  }

  /** Counting forward from the oldest sample reaches the slots counted back
      from the write position. */
  lemma SlotForward(next: nat, count: nat, length: nat, index: nat)
    requires next < length && count <= length && index < count
    ensures (if next < count then next - count + length else next - count) + index >= 0
    ensures ((if next < count then next - count + length else next - count) + index) % length
         == Slot(next, length, count - index)
  {
    Remainder((if next < count then next - count + length else next - count) + index, length);
  }

  /** Below twice the divisor the remainder subtracts it at most once. */
  lemma Remainder(at: nat, length: nat)
    requires at < 2 * length
    ensures at % length == if at < length then at else at - length
  {
    var q := at / length;
    if q >= 2 {
      AtLeastTwice(length, q);
    }
  }

  lemma AtLeastTwice(length: nat, q: nat)
    requires q >= 2
    ensures length * q >= 2 * length
  {
    assert length * q == 2 * length + length * (q - 2);
  }

  class SampleRing {
    const samples: array<Sample>
    var next: nat
    var count: nat
    ghost var history: seq<Sample>

    /** The slot `back` appends ago holds the sample appended then. */
    ghost predicate Valid()
      reads this, samples
    {
      && next < samples.Length
      && count == (if |history| < samples.Length then |history| else samples.Length)
      && (count < samples.Length ==> next == count)
      && (forall back :: 1 <= back <= count ==>
            samples[Slot(next, samples.Length, back)] == history[|history| - back])
    }

    constructor (capacity: nat)
      requires capacity >= 1
      ensures Valid() && fresh(samples) && samples.Length == capacity && history == []
    {
      samples := new Sample[capacity](_ => Sample(0, 0));
      next, count, history := 0, 0, [];
    }

    method Append(sample: Sample)
      requires Valid()
      modifies this, samples
      ensures Valid() && history == old(history) + [sample]
    {
      forall back | 0 <= back < samples.Length
        ensures Slot((next + 1) % samples.Length, samples.Length, back + 1) == Slot(next, samples.Length, back)
      {
        SlotStep(next, samples.Length, back);
      }
      samples[next] := sample;
      next := (next + 1) % samples.Length;
      if count < samples.Length {
        count := count + 1;
      }
      history := history + [sample];
      forall back | 1 <= back <= count
        ensures samples[Slot(next, samples.Length, back)] == history[|history| - back]
      {
        assert Slot(next, samples.Length, back - 1 + 1) == Slot(old(next), samples.Length, back - 1);
      }
    }

    /** Snapshot returns the last min(n, capacity) of the n samples appended. */
    method Snapshot() returns (result: seq<Sample>)
      requires Valid()
      ensures result == Last(history, samples.Length)
    {
      hide Last, Slot;
      var start := next - count;
      if start < 0 {
        start := start + samples.Length;
      }
      result := [];
      while |result| < count
        invariant |result| <= count
        invariant forall i :: 0 <= i < |result| ==> result[i] == history[|history| - count + i]
      {
        SlotForward(next, count, samples.Length, |result|);
        result := result + [samples[(start + |result|) % samples.Length]];
      }
      IsLast(history, samples.Length, result);
    }
  }

  lemma IsLast<T>(s: seq<T>, capacity: nat, r: seq<T>)
    requires |r| == if |s| < capacity then |s| else capacity
    requires forall i :: 0 <= i < |r| ==> r[i] == s[|s| - |r| + i]
    ensures r == Last(s, capacity)
  {
  }
}
