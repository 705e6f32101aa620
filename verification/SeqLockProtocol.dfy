/** The versioned parameter cell with one writer and any number of readers, one atomic
    access per step (crates/ssm-engine/src/seqlock.rs). The protected value is a tuple of
    machine words copied word by word, so a reader can see a mixture of two versions;
    the protocol has to discard it. Memory is sequentially consistent. */
module SeqLockProtocol {
  import opened MachineWords
  import opened Domain

  // ---------------------------------------------------------------------
  // The machine
  // ---------------------------------------------------------------------

  datatype Writer<W> =
    | WIdle
    | WLoad(value: seq<W>)
    | WBegin(value: seq<W>, base: nat)
    | WCopy(value: seq<W>, base: nat, done: nat)

  /** Where a reader is: `Check` compares `last_seq` with the sequence, `LoadFirst` and
      `Copy` are the attempt loop of `read`, `Reload` is the load that refreshes `last_seq`. */
  datatype Pc<W> =
    | Idle
    | Check
    | LoadFirst
    | Copy(first: nat, taken: seq<W>)
    | Reload

  /** A completed `read`: when it was called, when its last attempt loaded the sequence
      first and validated it, and what was published at that first load. */
  datatype ReadRecord<W> = ReadRecord(
    value: seq<W>, calledAt: nat, startedAt: nat, validatedAt: nat, publishedThen: seq<W>)

  /** A `read_if_changed` that answered `false`, and what was published at that instant. */
  datatype HitRecord<W> = HitRecord(
    value: seq<W>, cachedFrom: nat, cachedUntil: nat, lastAt: nat, at: nat, publishedNow: seq<W>)

  /** History variables; no step consults them. Instants are counted in sequence
      increments, without wrapping (see `Clock`). */
  datatype Past<W> = Past(
    calledAt: nat, startedAt: nat, publishedThen: seq<W>,
    cachedFrom: nat, cachedUntil: nat, cachedPublished: seq<W>, lastAt: nat, refreshed: bool,
    readLog: seq<ReadRecord<W>>, hitLog: seq<HitRecord<W>>)

  datatype Reader<W> = Reader(
    pc: Pc<W>, refreshing: bool, lastSeq: nat, cached: seq<W>, past: Past<W>)

  /** `versions` lists every value published so far, the initial one first. */
  datatype State<W> = State(
    sequence: nat, data: seq<W>, writer: Writer<W>, readers: seq<Reader<W>>, versions: seq<seq<W>>)

  datatype Choice<W> =
    | WriterCalls(value: seq<W>)
    | WriterMoves
    | ReaderJoins
    | ReaderReads(reader: nat)
    | ReaderRefreshes(reader: nat)
    | ReaderMoves(reader: nat)

  function Init<W>(initial: seq<W>): State<W> {
    State(0, initial, WIdle, [], [initial])
  }

  /** How often the sequence number has been incremented. */
  function Clock<W>(s: State<W>): int {
    2 * (|s.versions| - 1) + (if s.writer.WCopy? then 1 else 0)
  }

  predicate Shape<W>(width: nat, s: State<W>) {
    && |s.data| == width
    && s.versions != []
    && (!s.writer.WIdle? ==> |s.writer.value| == width)
    && (s.writer.WCopy? ==> s.writer.done <= width)
    && (forall i :: 0 <= i < |s.readers| ==> ReaderShape(width, s.readers[i]))
  }

  predicate ReaderShape<W>(width: nat, r: Reader<W>) {
    r.pc.Copy? ==> |r.pc.taken| <= width
  }

  function WriterStep<W>(width: nat, s: State<W>): State<W>
    requires Shape(width, s)
  {
    match s.writer
    case WIdle => s
    case WLoad(v) => s.(writer := WBegin(v, s.sequence))
    case WBegin(v, base) => s.(sequence := WrappingAdd(base, 1), writer := WCopy(v, base, 0))
    case WCopy(v, base, j) =>
      if j < width then
        s.(data := s.data[j := v[j]], writer := WCopy(v, base, j + 1))
      else
        s.(sequence := WrappingAdd(base, 2), writer := WIdle, versions := s.versions + [v])
  }

  /** One step of a reader; readers change nothing but themselves. */
  function ReaderStep<W>(width: nat, s: State<W>, r: Reader<W>): Reader<W>
    requires Shape(width, s) && ReaderShape(width, r) && 0 <= Clock(s)
  {
    var now: nat := Clock(s);
    var past := r.past;
    match r.pc
    case Idle => r
    case Check =>
      if r.lastSeq == s.sequence then
        r.(pc := Idle, past := past.(hitLog := past.hitLog + [HitRecord(
          r.cached, past.cachedFrom, past.cachedUntil, past.lastAt, now, Last(s.versions))]))
      else
        r.(pc := LoadFirst, past := past.(calledAt := now))
    case LoadFirst =>
      if BitAnd(s.sequence, 1) != 0 then r
      else r.(pc := Copy(s.sequence, []), past := past.(startedAt := now, publishedThen := Last(s.versions)))
    case Copy(first, taken) =>
      if |taken| < width then
        r.(pc := Copy(first, taken + [s.data[|taken|]]))
      else if first != s.sequence then
        r.(pc := LoadFirst)
      else
        var past' := past.(readLog := past.readLog +
          [ReadRecord(taken, past.calledAt, past.startedAt, now, past.publishedThen)]);
        if r.refreshing then
          r.(pc := Reload, cached := taken, past := past'.(
            cachedFrom := past.startedAt, cachedUntil := now, cachedPublished := past.publishedThen))
        else
          r.(pc := Idle, past := past')
    case Reload =>
      r.(pc := Idle, lastSeq := s.sequence, past := past.(lastAt := now, refreshed := true))
  }

  /** A reader that joins starts from the value last published and `last_seq` 0, as a new
      core does; it joins while the writer is between two writes. */
  function NewReader<W>(s: State<W>): Reader<W>
    requires s.versions != [] && 0 <= Clock(s)
  {
    var now: nat := Clock(s);
    Reader(Idle, false, 0, Last(s.versions),
           Past(0, 0, [], now, now, Last(s.versions), 0, false, [], []))
  }

  function Step<W>(width: nat, s: State<W>, choice: Choice<W>): State<W>
    requires Shape(width, s)
  {
    ClockIsNat(width, s);
    match choice
    case WriterCalls(v) =>
      if s.writer.WIdle? && |v| == width then s.(writer := WLoad(v)) else s
    case WriterMoves => WriterStep(width, s)
    case ReaderJoins =>
      if s.writer.WIdle? then s.(readers := s.readers + [NewReader(s)]) else s
    case ReaderReads(i) =>
      if i < |s.readers| && s.readers[i].pc.Idle? then
        var r := s.readers[i];
        s.(readers := s.readers[i := r.(pc := LoadFirst, refreshing := false,
                                        past := r.past.(calledAt := Clock(s)))])
      else s
    case ReaderRefreshes(i) =>
      if i < |s.readers| && s.readers[i].pc.Idle? then
        s.(readers := s.readers[i := s.readers[i].(pc := Check, refreshing := true)])
      else s
    case ReaderMoves(i) =>
      if i < |s.readers| then
        s.(readers := s.readers[i := ReaderStep(width, s, s.readers[i])])
      else s
  }

  lemma ClockIsNat<W>(width: nat, s: State<W>)
    requires Shape(width, s)
    ensures 0 <= Clock(s)
  {
  }

  lemma StepKeepsShape<W>(width: nat, s: State<W>, choice: Choice<W>)
    requires Shape(width, s)
    ensures Shape(width, Step(width, s, choice))
  {
  }

  function Run<W>(initial: seq<W>, schedule: seq<Choice<W>>): (s: State<W>)
    ensures Shape(|initial|, s)
  {
    if schedule == [] then Init(initial)
    else
      var s := Run(initial, Front(schedule));
      StepKeepsShape(|initial|, s, Last(schedule));
      Step(|initial|, s, Last(schedule))
  }

  // ---------------------------------------------------------------------
  // The invariant
  // ---------------------------------------------------------------------

  ghost predicate MemoryInv<W>(width: nat, s: State<W>) {
    && Shape(width, s)
    && (forall i :: 0 <= i < |s.versions| ==> |s.versions[i]| == width)
    && s.sequence == Clock(s) % TWO_64
    && (s.writer.WBegin? ==> s.writer.base == s.sequence)
    && (s.writer.WCopy? ==>
          && s.writer.base == (Clock(s) - 1) % TWO_64
          && s.data == s.writer.value[..s.writer.done] + Last(s.versions)[s.writer.done..])
    && (!s.writer.WCopy? ==> s.data == Last(s.versions))
  }

  /** Versions are what was current when the clock stood at twice their number. */
  ghost predicate VersionAt<W>(versions: seq<seq<W>>, instant: nat, value: seq<W>) {
    instant / 2 < |versions| && versions[instant / 2] == value
  }

  ghost predicate ReadOk<W>(versions: seq<seq<W>>, now: int, rec: ReadRecord<W>) {
    && rec.calledAt <= rec.startedAt <= rec.validatedAt <= now
    && VersionAt(versions, rec.startedAt, rec.publishedThen)
    && (rec.validatedAt - rec.startedAt < TWO_64 ==> rec.value == rec.publishedThen)
  }

  ghost predicate HitOk<W>(versions: seq<seq<W>>, now: int, hit: HitRecord<W>) {
    && hit.cachedFrom <= hit.cachedUntil <= hit.at <= now
    && hit.lastAt <= hit.at
    && hit.at % TWO_64 == hit.lastAt % TWO_64
    && VersionAt(versions, hit.at, hit.publishedNow)
    && (hit.cachedUntil - hit.cachedFrom < TWO_64 ==>
          hit.cachedFrom == hit.cachedUntil && VersionAt(versions, hit.cachedFrom, hit.value))
  }

  ghost predicate CacheInv<W>(versions: seq<seq<W>>, now: int, r: Reader<W>) {
    && r.past.cachedFrom <= r.past.cachedUntil <= now
    && VersionAt(versions, r.past.cachedFrom, r.past.cachedPublished)
    && (r.past.cachedUntil - r.past.cachedFrom < TWO_64 ==>
          r.past.cachedFrom == r.past.cachedUntil && r.cached == r.past.cachedPublished)
    && r.past.lastAt <= now
    && r.lastSeq == r.past.lastAt % TWO_64
    && (r.past.refreshed && !r.pc.Reload? ==> r.past.cachedUntil <= r.past.lastAt)
  }

  ghost predicate AttemptInv<W>(s: State<W>, r: Reader<W>) {
    (r.pc.LoadFirst? || r.pc.Copy?) ==>
      && r.past.calledAt <= Clock(s)
      && (forall k :: 0 <= k < |r.past.readLog| ==> r.past.readLog[k].validatedAt <= r.past.calledAt)
      && (r.pc.Copy? ==>
            && r.past.calledAt <= r.past.startedAt <= Clock(s)
            && r.past.startedAt % 2 == 0
            && r.pc.first == r.past.startedAt % TWO_64
            && VersionAt(s.versions, r.past.startedAt, r.past.publishedThen)
            && |r.pc.taken| <= |s.data|
            && (r.past.startedAt == Clock(s) ==> r.pc.taken == s.data[..|r.pc.taken|]))
  }

  ghost predicate LogInv<W>(versions: seq<seq<W>>, now: int, past: Past<W>) {
    && (forall k :: 0 <= k < |past.readLog| ==> ReadOk(versions, now, past.readLog[k]))
    && (forall k, m :: 0 <= k < m < |past.readLog| ==>
          past.readLog[k].validatedAt <= past.readLog[m].calledAt)
    && (forall k :: 0 <= k < |past.hitLog| ==> HitOk(versions, now, past.hitLog[k]))
  }

  ghost predicate ReaderInv<W>(s: State<W>, r: Reader<W>) {
    && CacheInv(s.versions, Clock(s), r)
    && AttemptInv(s, r)
    && LogInv(s.versions, Clock(s), r.past)
  }

  ghost predicate Inv<W>(width: nat, s: State<W>) {
    && MemoryInv(width, s)
    && (forall i :: 0 <= i < |s.readers| ==> ReaderInv(s, s.readers[i]))
  }

  // ---------------------------------------------------------------------
  // Every step keeps it
  // ---------------------------------------------------------------------

  lemma WriterStepMemory<W>(width: nat, s: State<W>)
    requires MemoryInv(width, s)
    ensures MemoryInv(width, WriterStep(width, s))
  {
    var s' := WriterStep(width, s);
    match s.writer
    case WBegin(v, base) =>
      WrappedIncrement(Clock(s), 1);
      assert s'.data == v[..0] + Last(s'.versions)[0..];
    case WCopy(v, base, j) =>
      if j < width {
        assert s'.data == v[..j + 1] + Last(s.versions)[j + 1..];
      } else {
        WrappedIncrement(Clock(s) - 1, 2);
        assert s'.data == v;
      }
    case _ =>
  }

  /** What a reader knows survives a step of the writer: the clock and the list of
      versions only grow, and data changes only while the clock is odd. */
  lemma ReaderSurvivesWriter<W>(width: nat, s: State<W>, r: Reader<W>)
    requires MemoryInv(width, s) && ReaderInv(s, r)
    ensures ReaderInv(WriterStep(width, s), r)
  {
    var s' := WriterStep(width, s);
    assert Clock(s) <= Clock(s');
    assert s.versions <= s'.versions;
    if r.pc.Copy? && r.past.startedAt == Clock(s') {
      assert r.past.startedAt == Clock(s) && !s.writer.WCopy?;
    }
  }

  lemma NewVersion<W>(width: nat, s: State<W>)
    requires MemoryInv(width, s)
    ensures 0 <= Clock(s) && VersionAt(s.versions, Clock(s), Last(s.versions))
  {
  }

  lemma CheckStep<W>(width: nat, s: State<W>, r: Reader<W>)
    requires MemoryInv(width, s) && ReaderInv(s, r) && ReaderShape(width, r) && r.pc.Check?
    ensures 0 <= Clock(s) && ReaderInv(s, ReaderStep(width, s, r))
  {
    NewVersion(width, s);
    var r' := ReaderStep(width, s, r);
    forall k | 0 <= k < |r'.past.hitLog|
      ensures HitOk(s.versions, Clock(s), r'.past.hitLog[k])
    {
      if k < |r.past.hitLog| {
        assert r'.past.hitLog[k] == r.past.hitLog[k];
      }
    }
  }

  lemma ValidateStep<W>(width: nat, s: State<W>, r: Reader<W>)
    requires MemoryInv(width, s) && ReaderInv(s, r) && r.pc.Copy? && |r.pc.taken| == width
    ensures 0 <= Clock(s) && ReaderInv(s, ReaderStep(width, s, r))
  {
    NewVersion(width, s);
    var r' := ReaderStep(width, s, r);
    if r.pc.first == s.sequence {
      if Clock(s) - r.past.startedAt < TWO_64 {
        WrappedEqual(r.past.startedAt, Clock(s));
        assert r.pc.taken == s.data;
      }
      forall k | 0 <= k < |r'.past.readLog|
        ensures ReadOk(s.versions, Clock(s), r'.past.readLog[k])
      {
        if k < |r.past.readLog| {
          assert r'.past.readLog[k] == r.past.readLog[k];
        }
      }
    }
  }

  lemma EvenSequence(clock: nat)
    ensures BitAnd(clock % TWO_64, 1) == 0 <==> clock % 2 == 0
  {
    MaskedCounter(clock, 1);
    assert Pow2(1) == 2;
  }

  lemma ReaderStepInv<W>(width: nat, s: State<W>, r: Reader<W>)
    requires MemoryInv(width, s) && ReaderInv(s, r) && ReaderShape(width, r)
    ensures 0 <= Clock(s) && ReaderInv(s, ReaderStep(width, s, r))
  {
    NewVersion(width, s);
    if r.pc.Check? {
      CheckStep(width, s, r);
    } else if r.pc.Copy? && |r.pc.taken| == width {
      ValidateStep(width, s, r);
    } else if r.pc.LoadFirst? {
      EvenSequence(Clock(s));
    }
  }

  /** A step that leaves the memory and the versions alone keeps what readers know. */
  lemma SameMemory<W>(width: nat, s: State<W>, s': State<W>)
    requires MemoryInv(width, s) && Shape(width, s')
    requires s'.sequence == s.sequence && s'.data == s.data && s'.versions == s.versions
    requires s'.writer == s.writer || (s.writer.WIdle? && s'.writer.WLoad?)
    ensures MemoryInv(width, s')
    ensures forall r :: ReaderInv(s, r) ==> ReaderInv(s', r)
  {
  }

  lemma ReaderUpdateInv<W>(width: nat, s: State<W>, i: nat, r: Reader<W>)
    requires Inv(width, s) && i < |s.readers| && ReaderInv(s, r) && ReaderShape(width, r)
    ensures Inv(width, s.(readers := s.readers[i := r]))
  {
    SameMemory(width, s, s.(readers := s.readers[i := r]));
  }

  lemma WriterMovesInv<W>(width: nat, s: State<W>)
    requires Inv(width, s)
    ensures Inv(width, WriterStep(width, s))
  {
    WriterStepMemory(width, s);
    forall i | 0 <= i < |s.readers|
      ensures ReaderInv(WriterStep(width, s), s.readers[i])
    {
      ReaderSurvivesWriter(width, s, s.readers[i]);
    }
  }

  lemma ReaderJoinsInv<W>(width: nat, s: State<W>)
    requires Inv(width, s) && s.writer.WIdle?
    ensures 0 <= Clock(s) && Inv(width, s.(readers := s.readers + [NewReader(s)]))
  {
    NewVersion(width, s);
    SameMemory(width, s, s.(readers := s.readers + [NewReader(s)]));
  }

  lemma StepInv<W>(width: nat, s: State<W>, choice: Choice<W>)
    requires Inv(width, s)
    ensures Inv(width, Step(width, s, choice))
  {
    var s' := Step(width, s, choice);
    match choice
    case WriterCalls(_) => SameMemory(width, s, s');
    case WriterMoves => WriterMovesInv(width, s);
    case ReaderJoins =>
      if s.writer.WIdle? {
        ReaderJoinsInv(width, s);
      }
    case ReaderMoves(i) =>
      if i < |s.readers| {
        ReaderStepInv(width, s, s.readers[i]);
        ReaderUpdateInv(width, s, i, s'.readers[i]);
      }
    case ReaderReads(i) =>
      if s' != s {
        ReaderUpdateInv(width, s, i, s'.readers[i]);
      }
    case ReaderRefreshes(i) =>
      if s' != s {
        ReaderUpdateInv(width, s, i, s'.readers[i]);
      }
  }

  lemma {:induction false} RunInv<W>(initial: seq<W>, schedule: seq<Choice<W>>)
    ensures Inv(|initial|, Run(initial, schedule))
  {
    if schedule != [] {
      RunInv(initial, Front(schedule));
      StepInv(|initial|, Run(initial, Front(schedule)), Last(schedule));
    }
  }

  // ---------------------------------------------------------------------
  // What every interleaving guarantees
  // ---------------------------------------------------------------------

  /** Atomicity: with fewer than 2^63 writes during its last attempt, a read returns one
      whole published version, the one current when that attempt loaded the sequence,
      which lies between the call and the return. */
  lemma {:induction false} ReadsReturnWholeVersions<W>(initial: seq<W>, schedule: seq<Choice<W>>, i: nat, k: nat)
    requires i < |Run(initial, schedule).readers|
    requires k < |Run(initial, schedule).readers[i].past.readLog|
    ensures var s := Run(initial, schedule);
      var rec := s.readers[i].past.readLog[k];
      && rec.calledAt <= rec.startedAt <= rec.validatedAt <= Clock(s)
      && rec.startedAt / 2 < |s.versions|
      && rec.publishedThen == s.versions[rec.startedAt / 2]
      && (rec.validatedAt - rec.startedAt < TWO_64 ==> rec.value == rec.publishedThen)
  {
    RunInv(initial, schedule);
    var s := Run(initial, schedule);
    assert ReaderInv(s, s.readers[i]);
  }

  /** One reader's versions never go backwards. */
  lemma {:induction false} ReadsNeverGoBack<W>(initial: seq<W>, schedule: seq<Choice<W>>, i: nat, k: nat, m: nat)
    requires i < |Run(initial, schedule).readers|
    requires k < m < |Run(initial, schedule).readers[i].past.readLog|
    ensures var log := Run(initial, schedule).readers[i].past.readLog;
      log[k].startedAt / 2 <= log[m].startedAt / 2
  {
    RunInv(initial, schedule);
    var s := Run(initial, schedule);
    assert ReaderInv(s, s.readers[i]);
    assert ReadOk(s.versions, Clock(s), s.readers[i].past.readLog[k]);
    assert ReadOk(s.versions, Clock(s), s.readers[i].past.readLog[m]);
  }

  /** Between calls, a refreshed cache is a whole version that is never newer than the
      remembered sequence number says. */
  lemma {:induction false} CacheNeverOutrunsSequence<W>(initial: seq<W>, schedule: seq<Choice<W>>, i: nat)
    requires i < |Run(initial, schedule).readers|
    ensures var s := Run(initial, schedule);
      var r := s.readers[i];
      && r.lastSeq == r.past.lastAt % TWO_64 && r.past.lastAt <= Clock(s)
      && (r.past.cachedUntil - r.past.cachedFrom < TWO_64 ==>
            r.past.cachedFrom / 2 < |s.versions| && r.cached == s.versions[r.past.cachedFrom / 2])
      && (r.pc.Idle? && r.past.refreshed ==> r.past.cachedFrom / 2 <= r.past.lastAt / 2)
  {
    RunInv(initial, schedule);
    var s := Run(initial, schedule);
    assert ReaderInv(s, s.readers[i]);
  }

  ghost predicate Distinct<T(!new)>(xs: seq<T>) {
    forall a, b :: 0 <= a < b < |xs| ==> xs[a] != xs[b]
  }

  /** How stale a `false` answer can be: behind the published version by exactly the number
      of writes that completed between the validation of the read that filled the cache and
      the load that refreshed `last_seq`. So it is current if and only if there was none. */
  lemma {:induction false} UnchangedLag<W(!new)>(initial: seq<W>, schedule: seq<Choice<W>>, i: nat, k: nat)
    requires i < |Run(initial, schedule).readers|
    requires k < |Run(initial, schedule).readers[i].past.hitLog|
    ensures var s := Run(initial, schedule);
      var hit := s.readers[i].past.hitLog[k];
      var missed := hit.lastAt / 2 - hit.cachedUntil / 2;
      (hit.cachedUntil - hit.cachedFrom < TWO_64 && hit.at - hit.lastAt < TWO_64 ==>
        && 0 <= missed <= hit.at / 2 < |s.versions|
        && hit.publishedNow == s.versions[hit.at / 2]
        && hit.value == s.versions[hit.at / 2 - missed]
        && (missed == 0 ==> hit.value == hit.publishedNow)
        && (Distinct(s.versions) ==> (hit.value == hit.publishedNow <==> missed == 0)))
  {
    RunInv(initial, schedule);
    var s := Run(initial, schedule);
    var hit := s.readers[i].past.hitLog[k];
    assert ReaderInv(s, s.readers[i]);
    assert HitOk(s.versions, Clock(s), hit);
    if hit.at - hit.lastAt < TWO_64 {
      WrappedEqual(hit.lastAt, hit.at);
    }
  }

  // ---------------------------------------------------------------------
  // A stale `false`
  // ---------------------------------------------------------------------

  lemma {:induction false} RunSnoc<W>(initial: seq<W>, schedule: seq<Choice<W>>, choice: Choice<W>)
    ensures Shape(|initial|, Run(initial, schedule))
    ensures Run(initial, schedule + [choice]) == Step(|initial|, Run(initial, schedule), choice)
  {
    assert Front(schedule + [choice]) == schedule;
  }

  /** A whole `write` of a one-word value. */
  function WriteCall(v: int): seq<Choice<int>> {
    [WriterCalls([v]), WriterMoves, WriterMoves, WriterMoves, WriterMoves]
  }

  lemma {:induction false} WriterMove<W>(initial: seq<W>, schedule: seq<Choice<W>>, s: State<W>)
    requires Run(initial, schedule) == s && Shape(|initial|, s)
    ensures Run(initial, schedule + [WriterMoves]) == WriterStep(|initial|, s)
  {
    RunSnoc(initial, schedule, WriterMoves);
  }

  lemma {:induction false} WriterCall<W>(initial: seq<W>, schedule: seq<Choice<W>>, v: seq<W>)
    requires Run(initial, schedule).writer.WIdle? && |v| == |initial|
    ensures Run(initial, schedule + [WriterCalls(v)]) == Run(initial, schedule).(writer := WLoad(v))
  {
    RunSnoc(initial, schedule, WriterCalls(v));
  }

  lemma {:induction false} WriteOneWord(initial: seq<int>, schedule: seq<Choice<int>>, v: int)
    requires |initial| == 1
    requires Run(initial, schedule).writer.WIdle? && Run(initial, schedule).sequence < 100
    ensures var s := Run(initial, schedule);
      Run(initial, schedule + WriteCall(v)) ==
        s.(sequence := s.sequence + 2, data := [v], versions := s.versions + [[v]])
  {
    var s := Run(initial, schedule);
    var t1 := schedule + [WriterCalls([v])];
    var t2 := t1 + [WriterMoves];
    var t3 := t2 + [WriterMoves];
    var t4 := t3 + [WriterMoves];
    WriterCall(initial, schedule, [v]);
    WriterMove(initial, t1, s.(writer := WLoad([v])));
    WriterMove(initial, t2, s.(writer := WBegin([v], s.sequence)));
    var s3 := s.(sequence := s.sequence + 1, writer := WCopy([v], s.sequence, 0));
    WriterMove(initial, t3, s3);
    WriterMove(initial, t4, s3.(data := [v], writer := WCopy([v], s.sequence, 1)));
    WriteCallSplit(schedule, v);
  }

  lemma WriteCallSplit(schedule: seq<Choice<int>>, v: int)
    ensures schedule + WriteCall(v) ==
      schedule + [WriterCalls([v])] + [WriterMoves] + [WriterMoves] + [WriterMoves] + [WriterMoves]
  {
  }

  /** A refresh up to and including the validation of its read. */
  function RefreshToReload(): seq<Choice<int>> {
    [ReaderRefreshes(0), ReaderMoves(0), ReaderMoves(0), ReaderMoves(0), ReaderMoves(0)]
  }

  lemma {:induction false} ReaderMove<W>(initial: seq<W>, schedule: seq<Choice<W>>, s: State<W>, r: Reader<W>)
    requires Run(initial, schedule) == s && Shape(|initial|, s) && s.readers == [r]
    requires 0 <= Clock(s) && ReaderShape(|initial|, r)
    ensures Run(initial, schedule + [ReaderMoves(0)]) ==
      s.(readers := [ReaderStep(|initial|, s, r)])
  {
    RunSnoc(initial, schedule, ReaderMoves(0));
  }

  lemma {:induction false} ReaderRefresh<W>(initial: seq<W>, schedule: seq<Choice<W>>, s: State<W>, r: Reader<W>)
    requires Run(initial, schedule) == s && s.readers == [r] && r.pc.Idle?
    ensures Run(initial, schedule + [ReaderRefreshes(0)]) ==
      s.(readers := [r.(pc := Check, refreshing := true)])
  {
    RunSnoc(initial, schedule, ReaderRefreshes(0));
  }

  lemma {:induction false} RefreshOneWord(schedule: seq<Choice<int>>, s: State<int>, r: Reader<int>)
      returns (r': Reader<int>)
    requires Run([0], schedule) == s && s.readers == [r]
    requires r.pc.Idle? && s.writer.WIdle? && s.sequence == 2 && r.lastSeq == 0 && s.data == [1]
    ensures Run([0], schedule + RefreshToReload()) == s.(readers := [r'])
    ensures r'.pc.Reload? && r'.cached == [1] && r'.past.hitLog == r.past.hitLog
  {
    var t1 := schedule + [ReaderRefreshes(0)];
    var t2 := t1 + [ReaderMoves(0)];
    var t3 := t2 + [ReaderMoves(0)];
    var t4 := t3 + [ReaderMoves(0)];
    ReaderRefresh([0], schedule, s, r);
    var r1 := r.(pc := Check, refreshing := true);
    ReaderMove([0], t1, s.(readers := [r1]), r1);
    var r2 := ReaderStep(1, s.(readers := [r1]), r1);
    ReaderMove([0], t2, s.(readers := [r2]), r2);
    assert BitAnd(2, 1) == 0;
    var r3 := ReaderStep(1, s.(readers := [r2]), r2);
    ReaderMove([0], t3, s.(readers := [r3]), r3);
    var r4 := ReaderStep(1, s.(readers := [r3]), r3);
    ReaderMove([0], t4, s.(readers := [r4]), r4);
    r' := ReaderStep(1, s.(readers := [r4]), r4);
    assert schedule + RefreshToReload() == t4 + [ReaderMoves(0)];
  }

  function StaleSchedule(): seq<Choice<int>> {
    [ReaderJoins] + WriteCall(1) + RefreshToReload() + WriteCall(2)
      + [ReaderMoves(0)] + [ReaderRefreshes(0)] + [ReaderMoves(0)]
  }

  /** The second write lands between the validated read and the reload of the sequence:
      the next check answers `false` while the cache holds the overwritten value. */
  lemma {:induction false} StaleCacheTrace()
    ensures var s := Run([0], StaleSchedule());
      && |s.readers| == 1 && |s.readers[0].past.hitLog| == 1
      && s.readers[0].past.hitLog[0].value == [1]
      && s.readers[0].past.hitLog[0].publishedNow == [2]
      && s.readers[0].cached == [1] && Last(s.versions) == [2]
  {
    var t0: seq<Choice<int>> := [ReaderJoins];
    RunSnoc([0], [], ReaderJoins);
    assert [] + [ReaderJoins] == t0;
    var t1 := t0 + WriteCall(1);
    WriteOneWord([0], t0, 1);
    var s1 := Run([0], t1);
    var t2 := t1 + RefreshToReload();
    var r2 := RefreshOneWord(t1, s1, s1.readers[0]);
    var t3 := t2 + WriteCall(2);
    WriteOneWord([0], t2, 2);
    StaleAnswer(t3, Run([0], t3), r2);
  }

  lemma {:induction false} StaleAnswer(schedule: seq<Choice<int>>, s: State<int>, r: Reader<int>)
    requires Run([0], schedule) == s && s.readers == [r] && Shape(1, s) && r.pc.Reload?
    ensures var s' := Run([0], schedule + [ReaderMoves(0)] + [ReaderRefreshes(0)] + [ReaderMoves(0)]);
      && s'.versions == s.versions && |s'.readers| == 1 && s'.readers[0].cached == r.cached
      && |s'.readers[0].past.hitLog| == |r.past.hitLog| + 1
      && Last(s'.readers[0].past.hitLog).value == r.cached
      && Last(s'.readers[0].past.hitLog).publishedNow == Last(s.versions)
  {
    ReaderMove([0], schedule, s, r);
    var r1 := ReaderStep(1, s, r);
    ReaderRefresh([0], schedule + [ReaderMoves(0)], s.(readers := [r1]), r1);
    var r2 := r1.(pc := Check, refreshing := true);
    ReaderMove([0], schedule + [ReaderMoves(0)] + [ReaderRefreshes(0)], s.(readers := [r2]), r2);
  }
}
