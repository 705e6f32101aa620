/** The versioned parameter cell as one thread at a time uses it
    (crates/ssm-engine/src/seqlock.rs). `SeqLockProtocol` models the same calls step by
    step with a writer and readers running at once. */
module SeqLocks {
  import opened MachineWords

  /** What `read_if_changed` leaves in `(result, last_seq, cached)`. */
  function Refresh<T>(sequence: nat, published: T, lastSeq: nat, cached: T): (bool, nat, T) {
    if lastSeq == sequence then (false, lastSeq, cached) else (true, sequence, published)
  }

  /** A reader's cache that can be stale only when its sequence number shows it. */
  ghost predicate Coherent<T(!new)>(sequence: nat, published: T, lastSeq: nat, cached: T) {
    lastSeq <= sequence && (lastSeq == sequence ==> cached == published)
  }

  class SeqLock<T(!new)> {
    var sequence: nat
    var data: T
    ghost var writes: nat

    ghost predicate Valid()
      reads this
    {
      sequence == (2 * writes) % TWO_64
    }

    constructor (initial: T)
      ensures Valid() && sequence == 0 && data == initial && writes == 0
    {
      sequence, data, writes := 0, initial, 0;
    }

    method Write(value: T)
      requires Valid()
      modifies this
      ensures Valid() && data == value && writes == old(writes) + 1
      ensures sequence == WrappingAdd(old(sequence), 2)
      ensures writes < TWO_63 ==> sequence == old(sequence) + 2
    {
      var seq0 := sequence;
      sequence := WrappingAdd(seq0, 1);
      data := value;
      sequence := WrappingAdd(seq0, 2);
      writes := writes + 1;
    }

    /** With no writer running, the first attempt always validates. */
    method Read() returns (value: T)
      requires Valid()
      ensures value == data
    {
      var seq1 := sequence;
      assert seq1 % 2 == 0;
      value := data;
      var seq2 := sequence;
      assert seq1 == seq2;
    }

    method ReadIfChanged(lastSeq: nat, cached: T)
        returns (changed: bool, lastSeq': nat, cached': T)
      requires Valid()
      ensures (changed, lastSeq', cached') == Refresh(sequence, data, lastSeq, cached)
      ensures Coherent(sequence, data, lastSeq, cached) ==> cached' == data && lastSeq' == sequence
    {
      var currentSeq := sequence;
      if lastSeq == currentSeq {
        return false, lastSeq, cached;
      }
      cached' := Read();
      lastSeq' := sequence;
      changed := true;
    }
  }

  /** A `false` answer means the cache holds the published value, for every cache that was
      coherent before the writes of the last 2^63 - 1 publications. */
  lemma UnchangedMeansCurrent<T(!new)>(writes: nat, seen: nat, versions: seq<T>, cached: T)
    requires seen <= writes < |versions| && writes - seen < TWO_63
    requires cached == versions[seen]
    ensures var r := Refresh((2 * writes) % TWO_64, versions[writes], (2 * seen) % TWO_64, cached);
      r.2 == versions[writes] && (r.0 <==> seen != writes)
  {
    WrappedEqual(2 * seen, 2 * writes);
  }

  /** The bound is exact: after 2^63 publications the sequence number repeats and the
      check answers `false` whatever the cache holds. */
  lemma SequenceRepeats<T(!new)>(seen: nat, published: T, cached: T)
    ensures Refresh((2 * (seen + TWO_63)) % TWO_64, published, (2 * seen) % TWO_64, cached)
      == (false, (2 * seen) % TWO_64, cached)
  {
    assert 2 * (seen + TWO_63) == 2 * seen + TWO_64;
    ResidueShift(2 * seen, TWO_64);
  }
}
