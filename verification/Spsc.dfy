/** The bounded ring buffer as one thread sees it (crates/ssm-engine/src/spsc.rs).
    `SpscProtocol` models the same calls step by step under two threads. */
module Spsc {
  import opened MachineWords
  import opened Domain

  datatype PushResult<+T> = Accepted | Rejected(value: T)

  /** The abstract object: a FIFO queue of bounded length. */
  function Offer<T>(capacity: nat, q: seq<T>, v: T): (PushResult<T>, seq<T>) {
    if |q| >= capacity then (Rejected(v), q) else (Accepted, q + [v])
  }

  function Poll<T>(q: seq<T>): (Option<T>, seq<T>) {
    if q == [] then (None, q) else (Some(q[0]), q[1..])
  }

  /** The exponent of the least power of two that is at least `n`. */
  function NextPowerOfTwo(n: nat, k: nat := 0): (e: nat)
    requires k == 0 || Pow2(k - 1) < n
    ensures k <= e && n <= Pow2(e)
    ensures e == 0 || Pow2(e - 1) < n
    decreases n - Pow2(k)
  {
    if n <= Pow2(k) then k else NextPowerOfTwo(n, k + 1)
  }

  /** Slot `i % |slots|` holds the value numbered `i` when it is buffered; the slots of the
      numbers after the buffered ones are uninitialised. `popped` values came before. */
  ghost predicate SlotsHold<T>(slots: seq<Option<T>>, popped: nat, contents: seq<T>) {
    && 0 < |slots|
    && |contents| <= |slots|
    && forall i :: popped <= i < popped + |slots| ==>
         slots[i % |slots|] == Numbered(popped, contents, i)
  }

  ghost function Numbered<T>(popped: nat, contents: seq<T>, i: int): Option<T> {
    if popped <= i < popped + |contents| then Some(contents[i - popped]) else None
  }

  lemma DistinctSlots(popped: nat, capacity: nat, i: int, j: int)
    requires 0 < capacity && i != j
    requires popped <= i < popped + capacity && popped <= j < popped + capacity
    ensures i % capacity != j % capacity
  {
    if i < j {
      ResiduesDiffer(i, j, capacity);
    } else {
      ResiduesDiffer(j, i, capacity);
    }
  }

  lemma SlotsAfterPush<T>(slots: seq<Option<T>>, popped: nat, contents: seq<T>, value: T)
    requires SlotsHold(slots, popped, contents) && |contents| < |slots|
    ensures SlotsHold(slots[(popped + |contents|) % |slots| := Some(value)], popped, contents + [value])
  {
    var n := popped + |contents|;
    var slots' := slots[n % |slots| := Some(value)];
    forall i | popped <= i < popped + |slots|
      ensures slots'[i % |slots|] == Numbered(popped, contents + [value], i)
    {
      if i != n {
        DistinctSlots(popped, |slots|, i, n);
      }
    }
  }

  lemma SlotsAfterPop<T>(slots: seq<Option<T>>, popped: nat, contents: seq<T>)
    requires SlotsHold(slots, popped, contents) && contents != []
    ensures slots[popped % |slots|] == Some(contents[0])
    ensures SlotsHold(slots[popped % |slots| := None], popped + 1, contents[1..])
  {
    assert slots[popped % |slots|] == Numbered(popped, contents, popped);
    var slots' := slots[popped % |slots| := None];
    forall i | popped + 1 <= i < popped + 1 + |slots|
      ensures slots'[i % |slots|] == Numbered(popped + 1, contents[1..], i)
    {
      if i == popped + |slots| {
        ResidueShift(popped, |slots|);
      } else {
        DistinctSlots(popped, |slots|, popped, i);
        assert slots[i % |slots|] == Numbered(popped, contents, i);
      }
    }
  }

  class RingBuffer<T> {
    var head: nat
    var tail: nat
    const buffer: array<Option<T>>
    const mask: nat

    ghost const exponent: nat
    ghost var popped: nat
    ghost var contents: seq<T>

    /** `popped` counts completed pops without wrapping. */
    ghost predicate Valid()
      reads this, buffer
    {
      && exponent <= 63 && buffer.Length == Pow2(exponent) && mask == buffer.Length - 1
      && tail == popped % TWO_64
      && head == (popped + |contents|) % TWO_64
      && SlotsHold(buffer[..], popped, contents)
    }

    constructor (capacity: nat)
      requires 0 < capacity <= TWO_63
      ensures Valid() && contents == [] && fresh(buffer)
      ensures capacity <= buffer.Length
      ensures buffer.Length == 1 || buffer.Length < 2 * capacity
      ensures capacity == 4096 ==> buffer.Length == 4096
    {
      hide NextPowerOfTwo, WrappingAdd, WrappingSub;
      var k := NextPowerOfTwo(capacity);
      Pow2Of64();
      if 63 < k {
        Pow2Monotone(63, k - 1);
      }
      if capacity == 4096 {
        Exponent4096();
      }
      buffer := new Option<T>[Pow2(k)](_ => None);
      mask := Pow2(k) - 1;
      head, tail := 0, 0;
      exponent := k;
      popped, contents := 0, [];
    }

    method Push(value: T) returns (r: PushResult<T>)
      requires Valid()
      modifies this`head, this`contents, buffer
      ensures Valid()
      ensures (r, contents) == Offer(buffer.Length, old(contents), value)
    {
      InFlight();
      if WrappingSub(head, tail) >= buffer.Length {
        return Rejected(value);
      }
      ghost var n := popped + |contents|;
      MaskedCounter(n, exponent);
      SlotsAfterPush(buffer[..], popped, contents, value);
      var slot := BitAnd(head, mask);
      buffer[slot] := Some(value);
      WrappedIncrement(n, 1);
      head := WrappingAdd(head, 1);
      contents := contents + [value];
      r := Accepted;
    }

    method Pop() returns (r: Option<T>)
      requires Valid()
      modifies this`tail, this`popped, this`contents, buffer
      ensures Valid()
      ensures (r, contents) == Poll(old(contents))
    {
      InFlight();
      if tail == head {
        WrappedEqual(popped, popped + |contents|);
        return None;
      }
      MaskedCounter(popped, exponent);
      SlotsAfterPop(buffer[..], popped, contents);
      var slot := BitAnd(tail, mask);
      // The value is moved out, which leaves the slot uninitialised.
      r := buffer[slot];
      buffer[slot] := None;
      WrappedIncrement(popped, 1);
      tail := WrappingAdd(tail, 1);
      popped := popped + 1;
      contents := contents[1..];
    }

    /** Dropping the ring pops until it is empty; `dropped` lists the values destroyed. */
    method Drop() returns (dropped: seq<T>)
      requires Valid()
      modifies this`tail, this`popped, this`contents, buffer
      ensures Valid() && contents == []
      ensures dropped == old(contents)
    {
      dropped := [];
      var more := true;
      while more
        invariant Valid()
        invariant dropped + contents == old(contents)
        invariant !more ==> contents == []
        decreases |contents|, more
      {
        var r := Pop();
        more := r.Some?;
        if more {
          dropped := dropped + [r.value];
        }
      }
    }

    method Len() returns (n: nat)
      requires Valid()
      ensures n == |contents|
    {
      InFlight();
      n := WrappingSub(head, tail);
    }

    lemma InFlight()
      requires Valid()
      ensures WrappingSub(head, tail) == |contents| < TWO_64
    {
      Pow2Of64();
      Pow2Monotone(exponent, 63);
      WrappedDistance(popped + |contents|, popped);
    }
  }

  lemma Exponent4096()
    ensures NextPowerOfTwo(4096) == 12 && Pow2(12) == 4096
  {
    assert Pow2(6) == 64;
    Pow2Add(6, 6);
    var e := NextPowerOfTwo(4096);
    if e < 12 {
      Pow2Monotone(e, 11);
    } else if 12 < e {
      Pow2Monotone(12, e - 1);
    }
  }
}
