/** What every finished call of the versioned cell did, whatever ran in between
    (crates/ssm-engine/src/seqlock.rs:54-122). `SeqLockProtocol` logs what readers observe;
    here no call can end without having been logged, and as what it was. */
module SeqLockCalls {
  import opened MachineWords
  import opened Domain
  import opened SeqLockProtocol

  /** The state once `call` was made after `prefix` and `rest` has happened since. */
  function Since<W>(initial: seq<W>, prefix: seq<Choice<W>>, call: Choice<W>, rest: seq<Choice<W>>): State<W> {
    Run(initial, prefix + [call] + rest)
  }

  lemma {:induction false} SinceIsRun<W>(initial: seq<W>, prefix: seq<Choice<W>>, call: Choice<W>, rest: seq<Choice<W>>)
    ensures Since(initial, prefix, call, rest) == Run(initial, prefix + [call] + rest)
  {
  }

  lemma {:induction false} SinceStep<W>(initial: seq<W>, prefix: seq<Choice<W>>, call: Choice<W>, rest: seq<Choice<W>>)
    requires rest != []
    ensures Shape(|initial|, Since(initial, prefix, call, Front(rest)))
    ensures Since(initial, prefix, call, rest) ==
      Step(|initial|, Since(initial, prefix, call, Front(rest)), Last(rest))
  {
    assert prefix + [call] + rest == prefix + [call] + Front(rest) + [Last(rest)];
    RunSnoc(initial, prefix + [call] + Front(rest), Last(rest));
  }

  lemma {:induction false} SinceStart<W>(initial: seq<W>, prefix: seq<Choice<W>>, call: Choice<W>)
    ensures Shape(|initial|, Run(initial, prefix))
    ensures Since(initial, prefix, call, []) == Step(|initial|, Run(initial, prefix), call)
  {
    assert prefix + [call] + [] == prefix + [call];
    RunSnoc(initial, prefix, call);
  }

  // ---------------------------------------------------------------------
  // Readers
  // ---------------------------------------------------------------------

  ghost predicate ReaderIdle<W>(s: State<W>, i: nat) {
    i < |s.readers| && s.readers[i].pc.Idle?
  }

  /** The reader was free to make the call, and has been in it ever since. */
  ghost predicate InCall<W>(initial: seq<W>, prefix: seq<Choice<W>>, call: Choice<W>, i: nat, rest: seq<Choice<W>>) {
    && ReaderIdle(Run(initial, prefix), i)
    && forall m :: 0 <= m < |rest| ==> !ReaderIdle(Since(initial, prefix, call, rest[..m]), i)
  }

  lemma {:induction false} InCallBefore<W>(initial: seq<W>, prefix: seq<Choice<W>>, call: Choice<W>, i: nat,
                                           rest: seq<Choice<W>>)
    requires rest != [] && InCall(initial, prefix, call, i, rest)
    ensures InCall(initial, prefix, call, i, Front(rest))
    ensures !ReaderIdle(Since(initial, prefix, call, Front(rest)), i)
  {
    hide Since, ReaderIdle;
    var before := Front(rest);
    forall m | 0 <= m < |before|
      ensures !ReaderIdle(Since(initial, prefix, call, before[..m]), i)
    {
      assert before[..m] == rest[..m];
    }
    assert before == rest[..|before|];
  }

  /** A step moves reader `i` only if it is that reader's own. */
  lemma OtherStepsSpareReader<W>(width: nat, s: State<W>, choice: Choice<W>, i: nat)
    requires Shape(width, s) && i < |s.readers| && !s.readers[i].pc.Idle?
    ensures var s' := Step(width, s, choice);
      && 0 <= Clock(s) <= Clock(s') && i < |s'.readers|
      && s'.readers[i] == if choice == ReaderMoves(i) then ReaderStep(width, s, s.readers[i]) else s.readers[i]
  {
    hide ReaderStep;
  }

  /** Nothing that a caller can see has changed since `r0`. */
  ghost predicate Unseen<W>(r0: Reader<W>, r: Reader<W>) {
    && r.cached == r0.cached && r.lastSeq == r0.lastSeq
    && r.past.readLog == r0.past.readLog && r.past.hitLog == r0.past.hitLog
  }

  /** One read was completed and logged; the caller still has its old cache. */
  ghost predicate ReadOnce<W>(r0: Reader<W>, r: Reader<W>, calledAt: int) {
    && r.cached == r0.cached && r.lastSeq == r0.lastSeq && r.past.hitLog == r0.past.hitLog
    && |r.past.readLog| == |r0.past.readLog| + 1 && Front(r.past.readLog) == r0.past.readLog
    && Last(r.past.readLog).calledAt == calledAt
  }

  /** How far a plain `read` is. */
  ghost predicate ReadProgress<W>(initial: seq<W>, prefix: seq<Choice<W>>, i: nat, rest: seq<Choice<W>>) {
    var s := Since(initial, prefix, ReaderReads(i), rest);
    i < |Run(initial, prefix).readers| && i < |s.readers| &&
    var r0, r := Run(initial, prefix).readers[i], s.readers[i];
    match r.pc
    case Idle => ReadOnce(r0, r, Clock(Run(initial, prefix)))
    case LoadFirst => !r.refreshing && Unseen(r0, r) && r.past.calledAt == Clock(Run(initial, prefix))
    case Copy(_, _) => !r.refreshing && Unseen(r0, r) && r.past.calledAt == Clock(Run(initial, prefix))
    case _ => false
  }

  lemma {:induction false} ReadProgresses<W>(initial: seq<W>, prefix: seq<Choice<W>>, i: nat, rest: seq<Choice<W>>)
    requires InCall(initial, prefix, ReaderReads(i), i, rest)
    ensures ReadProgress(initial, prefix, i, rest)
  {
    hide Run;
    if rest == [] {
      SinceStart(initial, prefix, ReaderReads(i));
    } else {
      InCallBefore(initial, prefix, ReaderReads(i), i, rest);
      ReadProgresses(initial, prefix, i, Front(rest));
      SinceStep(initial, prefix, ReaderReads(i), rest);
      OtherStepsSpareReader(|initial|, Since(initial, prefix, ReaderReads(i), Front(rest)), Last(rest), i);
    }
  }

  /** A `read` that has returned completed exactly one read, called when it was, and changed
      nothing else. */
  lemma {:induction false} ReadEndsLogged<W>(initial: seq<W>, prefix: seq<Choice<W>>, i: nat, rest: seq<Choice<W>>)
    requires InCall(initial, prefix, ReaderReads(i), i, rest)
    requires ReaderIdle(Since(initial, prefix, ReaderReads(i), rest), i)
    ensures ReadOnce(Run(initial, prefix).readers[i], Since(initial, prefix, ReaderReads(i), rest).readers[i],
                     Clock(Run(initial, prefix)))
  {
    ReadProgresses(initial, prefix, i, rest);
  }

  /** At the `m`-th step since the call the reader compared the sequence with the one it
      remembers, and found it `changed` or not. */
  ghost predicate ComparedAt<W>(initial: seq<W>, prefix: seq<Choice<W>>, i: nat, rest: seq<Choice<W>>, m: nat,
                                changed: bool) {
    && i < |Run(initial, prefix).readers|
    && m < |rest| && rest[m] == ReaderMoves(i)
    && (changed <==>
          Since(initial, prefix, ReaderRefreshes(i), rest[..m]).sequence != Run(initial, prefix).readers[i].lastSeq)
  }

  /** It had changed, and that is when the read was called. */
  ghost predicate ReadSince<W>(initial: seq<W>, prefix: seq<Choice<W>>, i: nat, rest: seq<Choice<W>>, calledAt: int) {
    exists m: nat ::
      && ComparedAt(initial, prefix, i, rest, m, true)
      && calledAt == Clock(Since(initial, prefix, ReaderRefreshes(i), rest[..m]))
  }

  lemma {:induction false} ReadSinceLonger<W>(initial: seq<W>, prefix: seq<Choice<W>>, i: nat, rest: seq<Choice<W>>,
                                              calledAt: int)
    requires rest != [] && ReadSince(initial, prefix, i, Front(rest), calledAt)
    ensures ReadSince(initial, prefix, i, rest, calledAt)
  {
    hide Since, Run, Clock;
    var m: nat :| ComparedAt(initial, prefix, i, Front(rest), m, true)
      && calledAt == Clock(Since(initial, prefix, ReaderRefreshes(i), Front(rest)[..m]));
    assert Front(rest)[..m] == rest[..m];
    assert ComparedAt(initial, prefix, i, rest, m, true);
  }

  /** The comparison was the last step, and it ended the call: the answer is `false`. */
  ghost predicate Hit<W>(initial: seq<W>, prefix: seq<Choice<W>>, i: nat, rest: seq<Choice<W>>)
    requires i < |Run(initial, prefix).readers| && i < |Since(initial, prefix, ReaderRefreshes(i), rest).readers|
  {
    var r0, r := Run(initial, prefix).readers[i], Since(initial, prefix, ReaderRefreshes(i), rest).readers[i];
    && rest != [] && ComparedAt(initial, prefix, i, rest, |rest| - 1, false)
    && r.cached == r0.cached && r.lastSeq == r0.lastSeq && r.past.readLog == r0.past.readLog
    && |r.past.hitLog| == |r0.past.hitLog| + 1 && Front(r.past.hitLog) == r0.past.hitLog
    && var hit := Last(r.past.hitLog);
       hit.value == r0.cached && hit.at == Clock(Since(initial, prefix, ReaderRefreshes(i), Front(rest)))
  }

  /** A read was made and its value cached; the remembered sequence was loaded last, after
      that read: the answer is `true`. */
  ghost predicate Refreshed<W>(initial: seq<W>, prefix: seq<Choice<W>>, i: nat, rest: seq<Choice<W>>)
    requires i < |Run(initial, prefix).readers| && i < |Since(initial, prefix, ReaderRefreshes(i), rest).readers|
  {
    var r0, r := Run(initial, prefix).readers[i], Since(initial, prefix, ReaderRefreshes(i), rest).readers[i];
    && r.past.hitLog == r0.past.hitLog
    && |r.past.readLog| == |r0.past.readLog| + 1 && Front(r.past.readLog) == r0.past.readLog
    && var rec := Last(r.past.readLog);
       && r.cached == rec.value
       && ReadSince(initial, prefix, i, rest, rec.calledAt)
       && rest != [] && Last(rest) == ReaderMoves(i)
       && rec.validatedAt <= Clock(Since(initial, prefix, ReaderRefreshes(i), Front(rest)))
       && r.lastSeq == Since(initial, prefix, ReaderRefreshes(i), Front(rest)).sequence
  }

  /** How far a `read_if_changed` is. */
  ghost predicate RefreshProgress<W>(initial: seq<W>, prefix: seq<Choice<W>>, i: nat, rest: seq<Choice<W>>) {
    var s := Since(initial, prefix, ReaderRefreshes(i), rest);
    i < |Run(initial, prefix).readers| && i < |s.readers| &&
    var r0, r := Run(initial, prefix).readers[i], s.readers[i];
    r.refreshing &&
    match r.pc
    case Idle => Hit(initial, prefix, i, rest) || Refreshed(initial, prefix, i, rest)
    case Check => Unseen(r0, r)
    case LoadFirst => Unseen(r0, r) && ReadSince(initial, prefix, i, rest, r.past.calledAt)
    case Copy(_, _) => Unseen(r0, r) && ReadSince(initial, prefix, i, rest, r.past.calledAt)
    case Reload =>
      && r.lastSeq == r0.lastSeq && r.past.hitLog == r0.past.hitLog
      && |r.past.readLog| == |r0.past.readLog| + 1 && Front(r.past.readLog) == r0.past.readLog
      && var rec := Last(r.past.readLog);
         && r.cached == rec.value && rec.validatedAt <= Clock(s)
         && ReadSince(initial, prefix, i, rest, rec.calledAt)
  }

  lemma {:induction false} RefreshProgressStep<W>(initial: seq<W>, prefix: seq<Choice<W>>, i: nat, rest: seq<Choice<W>>)
    requires rest != [] && InCall(initial, prefix, ReaderRefreshes(i), i, rest)
    requires RefreshProgress(initial, prefix, i, Front(rest))
    requires !ReaderIdle(Since(initial, prefix, ReaderRefreshes(i), Front(rest)), i)
    ensures RefreshProgress(initial, prefix, i, rest)
  {
    hide Since, Run, ReadSince;
    var s, s' := Since(initial, prefix, ReaderRefreshes(i), Front(rest)), Since(initial, prefix, ReaderRefreshes(i), rest);
    var r := s.readers[i];
    SinceStep(initial, prefix, ReaderRefreshes(i), rest);
    OtherStepsSpareReader(|initial|, s, Last(rest), i);
    assert rest[..|rest| - 1] == Front(rest);
    if r.pc.Check? {
      if Last(rest) == ReaderMoves(i) {
        ComparedNow(initial, prefix, i, rest);
      }
    } else {
      ReadSinceLonger(initial, prefix, i, rest,
                      if r.pc.Reload? then Last(r.past.readLog).calledAt else r.past.calledAt);
    }
  }

  lemma {:induction false} ComparedNow<W>(initial: seq<W>, prefix: seq<Choice<W>>, i: nat, rest: seq<Choice<W>>)
    requires rest != [] && Last(rest) == ReaderMoves(i) && i < |Run(initial, prefix).readers|
    ensures var s := Since(initial, prefix, ReaderRefreshes(i), Front(rest));
      var changed := s.sequence != Run(initial, prefix).readers[i].lastSeq;
      && ComparedAt(initial, prefix, i, rest, |rest| - 1, changed)
      && (changed ==> ReadSince(initial, prefix, i, rest, Clock(s)))
  {
    hide Since, Run, Clock;
    assert rest[..|rest| - 1] == Front(rest);
  }

  lemma {:induction false} RefreshProgresses<W>(initial: seq<W>, prefix: seq<Choice<W>>, i: nat, rest: seq<Choice<W>>)
    requires InCall(initial, prefix, ReaderRefreshes(i), i, rest)
    ensures RefreshProgress(initial, prefix, i, rest)
  {
    hide Run, Since, RefreshProgress;
    if rest == [] {
      RefreshStarts(initial, prefix, i);
    } else {
      InCallBefore(initial, prefix, ReaderRefreshes(i), i, rest);
      RefreshProgresses(initial, prefix, i, Front(rest));
      RefreshProgressStep(initial, prefix, i, rest);
    }
  }

  lemma {:induction false} RefreshStarts<W>(initial: seq<W>, prefix: seq<Choice<W>>, i: nat)
    requires ReaderIdle(Run(initial, prefix), i)
    ensures RefreshProgress(initial, prefix, i, [])
  {
    SinceStart(initial, prefix, ReaderRefreshes(i));
  }

  /** A `read_if_changed` that has returned either found the remembered sequence, logged a
      hit and changed nothing, or found another, made exactly one read after that, cached its
      value and remembered a sequence loaded later still; never both. */
  lemma {:induction false} RefreshHitsOrReads<W>(initial: seq<W>, prefix: seq<Choice<W>>, i: nat, rest: seq<Choice<W>>)
    requires InCall(initial, prefix, ReaderRefreshes(i), i, rest)
    requires ReaderIdle(Since(initial, prefix, ReaderRefreshes(i), rest), i)
    ensures Hit(initial, prefix, i, rest) || Refreshed(initial, prefix, i, rest)
    ensures !(Hit(initial, prefix, i, rest) && Refreshed(initial, prefix, i, rest))
  {
    hide Run, Since, ReadSince;
    RefreshProgresses(initial, prefix, i, rest);
  }

  // ---------------------------------------------------------------------
  // Calls while the writer rests
  // ---------------------------------------------------------------------

  ghost predicate NoWrites<W>(rest: seq<Choice<W>>) {
    forall k :: 0 <= k < |rest| ==> !rest[k].WriterCalls?
  }

  /** The same memory, the same versions, and the writer still at rest. */
  ghost predicate SameCell<W>(s: State<W>, s': State<W>) {
    && s'.sequence == s.sequence && s'.data == s.data && s'.versions == s.versions
    && s.writer.WIdle? && s'.writer.WIdle?
  }

  lemma QuietStep<W>(width: nat, s: State<W>, choice: Choice<W>)
    requires Shape(width, s) && s.writer.WIdle? && !choice.WriterCalls?
    ensures SameCell(s, Step(width, s, choice))
  {
    hide ReaderStep;
  }

  lemma {:induction false} CellRests<W>(initial: seq<W>, prefix: seq<Choice<W>>, call: Choice<W>, rest: seq<Choice<W>>)
    requires Run(initial, prefix).writer.WIdle? && !call.WriterCalls? && NoWrites(rest)
    ensures SameCell(Run(initial, prefix), Since(initial, prefix, call, rest))
  {
    hide Run;
    if rest == [] {
      SinceStart(initial, prefix, call);
      QuietStep(|initial|, Run(initial, prefix), call);
    } else {
      CellRests(initial, prefix, call, Front(rest));
      SinceStep(initial, prefix, call, rest);
      QuietStep(|initial|, Since(initial, prefix, call, Front(rest)), Last(rest));
    }
  }

  /** At rest, the cell holds the newest version. */
  lemma {:induction false} RestingCell<W>(initial: seq<W>, schedule: seq<Choice<W>>)
    requires Run(initial, schedule).writer.WIdle?
    ensures var s := Run(initial, schedule);
      && s.versions != [] && s.data == Last(s.versions)
      && Clock(s) == 2 * (|s.versions| - 1) && s.sequence == Clock(s) % TWO_64
  {
    RunInv(initial, schedule);
  }

  /** The read of a refresh under a resting writer returns the published value. */
  lemma {:induction false} QuietReadIsCurrent<W>(initial: seq<W>, prefix: seq<Choice<W>>, i: nat, rest: seq<Choice<W>>)
    requires Run(initial, prefix).writer.WIdle? && NoWrites(rest)
    requires i < |Run(initial, prefix).readers| && i < |Since(initial, prefix, ReaderRefreshes(i), rest).readers|
    requires Refreshed(initial, prefix, i, rest)
    ensures var s := Since(initial, prefix, ReaderRefreshes(i), rest);
      Last(s.readers[i].past.readLog).value == s.data
  {
    hide Run, Since;
    var s := Since(initial, prefix, ReaderRefreshes(i), rest);
    var log := s.readers[i].past.readLog;
    SinceIsRun(initial, prefix, ReaderRefreshes(i), rest);
    CellRests(initial, prefix, ReaderRefreshes(i), rest);
    var m: nat :| ComparedAt(initial, prefix, i, rest, m, true)
      && Last(log).calledAt == Clock(Since(initial, prefix, ReaderRefreshes(i), rest[..m]));
    CellRests(initial, prefix, ReaderRefreshes(i), rest[..m]);
    RestingCell(initial, prefix + [ReaderRefreshes(i)] + rest);
    ReadsReturnWholeVersions(initial, prefix + [ReaderRefreshes(i)] + rest, i, |log| - 1);
  }

  /** With the writer at rest a finished `read_if_changed` leaves the published sequence
      remembered, and unless it was already, the published value cached. */
  lemma {:induction false} QuietRefreshIsCurrent<W>(initial: seq<W>, prefix: seq<Choice<W>>, i: nat,
                                                    rest: seq<Choice<W>>)
    requires Run(initial, prefix).writer.WIdle? && NoWrites(rest)
    requires InCall(initial, prefix, ReaderRefreshes(i), i, rest)
    requires ReaderIdle(Since(initial, prefix, ReaderRefreshes(i), rest), i)
    ensures var r0, s := Run(initial, prefix).readers[i], Since(initial, prefix, ReaderRefreshes(i), rest);
      var r := s.readers[i];
      && SameCell(Run(initial, prefix), s)
      && r.lastSeq == s.sequence
      && r.cached == if r0.lastSeq == s.sequence then r0.cached else s.data
  {
    hide Run, Since;
    var s := Since(initial, prefix, ReaderRefreshes(i), rest);
    CellRests(initial, prefix, ReaderRefreshes(i), rest);
    RefreshHitsOrReads(initial, prefix, i, rest);
    if Hit(initial, prefix, i, rest) {
      CellRests(initial, prefix, ReaderRefreshes(i), rest[..|rest| - 1]);
    } else {
      QuietReadIsCurrent(initial, prefix, i, rest);
      CellRests(initial, prefix, ReaderRefreshes(i), Front(rest));
      var rec := Last(s.readers[i].past.readLog);
      var m: nat :| ComparedAt(initial, prefix, i, rest, m, true)
        && rec.calledAt == Clock(Since(initial, prefix, ReaderRefreshes(i), rest[..m]));
      CellRests(initial, prefix, ReaderRefreshes(i), rest[..m]);
    }
  }

  // ---------------------------------------------------------------------
  // A reader left alone finishes
  // ---------------------------------------------------------------------

  function OwnMoves<W>(i: nat, n: nat): seq<Choice<W>> {
    seq(n, _ => ReaderMoves(i))
  }

  lemma {:induction false} OwnMove<W>(initial: seq<W>, prefix: seq<Choice<W>>, call: Choice<W>, i: nat, n: nat)
    requires i < |Since(initial, prefix, call, OwnMoves(i, n)).readers|
    ensures var s := Since(initial, prefix, call, OwnMoves(i, n));
      && Shape(|initial|, s) && 0 <= Clock(s)
      && Since(initial, prefix, call, OwnMoves(i, n + 1)) ==
           s.(readers := s.readers[i := ReaderStep(|initial|, s, s.readers[i])])
  {
    hide Run, ReaderStep;
    assert Front(OwnMoves<W>(i, n + 1)) == OwnMoves(i, n);
    SinceStep(initial, prefix, call, OwnMoves(i, n + 1));
    ClockIsNat(|initial|, Since(initial, prefix, call, OwnMoves(i, n)));
  }

  /** The attempt of `read`, `k` words into it. */
  lemma {:induction false} SoloCopies<W>(initial: seq<W>, prefix: seq<Choice<W>>, call: Choice<W>, i: nat, n: nat, k: nat)
    requires k <= |initial|
    requires var s := Since(initial, prefix, call, OwnMoves(i, n));
      s.writer.WIdle? && i < |s.readers| && s.readers[i].pc.LoadFirst?
    ensures var s, s' := Since(initial, prefix, call, OwnMoves(i, n)), Since(initial, prefix, call, OwnMoves(i, n + 1 + k));
      && SameCell(s, s') && |s'.readers| == |s.readers| && |s'.data| == |initial|
      && s'.readers[i].pc == Copy(s.sequence, s.data[..k])
      && s'.readers[i].refreshing == s.readers[i].refreshing && s'.readers[i].lastSeq == s.readers[i].lastSeq
  {
    hide Run, Since;
    var s := Since(initial, prefix, call, OwnMoves(i, n));
    if k == 0 {
      OwnMove(initial, prefix, call, i, n);
      SinceIsRun(initial, prefix, call, OwnMoves(i, n));
      RestingCell(initial, prefix + [call] + OwnMoves(i, n));
      EvenSequence(Clock(s));
    } else {
      SoloCopies(initial, prefix, call, i, n, k - 1);
      OwnMove(initial, prefix, call, i, n + k);
      assert s.data[..k] == s.data[..k - 1] + [s.data[k - 1]];
    }
  }

  /** With the writer at rest and the sequence changed, a `read_if_changed` of a value of
      `|initial|` words returns after that many steps and four, cache and sequence current. */
  lemma {:induction false} SoloRefreshFinishes<W>(initial: seq<W>, prefix: seq<Choice<W>>, i: nat)
    requires ReaderIdle(Run(initial, prefix), i) && Run(initial, prefix).writer.WIdle?
    requires Run(initial, prefix).readers[i].lastSeq != Run(initial, prefix).sequence
    ensures var s, s' := Run(initial, prefix), Since(initial, prefix, ReaderRefreshes(i), OwnMoves(i, |initial| + 4));
      && ReaderIdle(s', i) && SameCell(s, s')
      && s'.readers[i].cached == s.data && s'.readers[i].lastSeq == s.sequence
  {
    hide Run, Since;
    var width := |initial|;
    var call: Choice<W> := ReaderRefreshes(i);
    SinceStart(initial, prefix, call);
    assert OwnMoves<W>(i, 0) == [];
    OwnMove(initial, prefix, call, i, 0);
    SoloCopies(initial, prefix, call, i, 1, width);
    OwnMove(initial, prefix, call, i, width + 2);
    OwnMove(initial, prefix, call, i, width + 3);
  }

  /** With the writer at rest a `read` returns after two steps and one for each word. */
  lemma {:induction false} SoloReadFinishes<W>(initial: seq<W>, prefix: seq<Choice<W>>, i: nat)
    requires ReaderIdle(Run(initial, prefix), i) && Run(initial, prefix).writer.WIdle?
    ensures var s, s' := Run(initial, prefix), Since(initial, prefix, ReaderReads(i), OwnMoves(i, |initial| + 2));
      && ReaderIdle(s', i) && SameCell(s, s')
      && s'.readers[i].past.readLog != [] && Last(s'.readers[i].past.readLog).value == s.data
  {
    hide Run, Since;
    var width := |initial|;
    var call: Choice<W> := ReaderReads(i);
    SinceStart(initial, prefix, call);
    assert OwnMoves<W>(i, 0) == [];
    SoloCopies(initial, prefix, call, i, 0, width);
    OwnMove(initial, prefix, call, i, width + 1);
  }

  // ---------------------------------------------------------------------
  // The writer
  // ---------------------------------------------------------------------

  ghost predicate InWrite<W>(initial: seq<W>, prefix: seq<Choice<W>>, v: seq<W>, rest: seq<Choice<W>>) {
    && Run(initial, prefix).writer.WIdle? && |v| == |initial|
    && forall m :: 0 <= m < |rest| ==> !Since(initial, prefix, WriterCalls(v), rest[..m]).writer.WIdle?
  }

  lemma VersionsStep<W>(width: nat, s: State<W>, choice: Choice<W>, v: seq<W>)
    requires Shape(width, s) && !s.writer.WIdle? && s.writer.value == v
    ensures var s' := Step(width, s, choice);
      if s'.writer.WIdle? then s'.versions == s.versions + [v]
      else s'.writer.value == v && s'.versions == s.versions
  {
    hide ReaderStep;
  }

  lemma {:induction false} WriteProgresses<W>(initial: seq<W>, prefix: seq<Choice<W>>, v: seq<W>, rest: seq<Choice<W>>)
    requires InWrite(initial, prefix, v, rest)
    ensures var s, s' := Run(initial, prefix), Since(initial, prefix, WriterCalls(v), rest);
      if s'.writer.WIdle? then s'.versions == s.versions + [v]
      else s'.writer.value == v && s'.versions == s.versions
  {
    hide Run;
    if rest == [] {
      SinceStart(initial, prefix, WriterCalls(v));
    } else {
      var before := Front(rest);
      assert before == rest[..|before|];
      assert forall m :: 0 <= m < |before| ==> before[..m] == rest[..m];
      WriteProgresses(initial, prefix, v, before);
      SinceStep(initial, prefix, WriterCalls(v), rest);
      VersionsStep(|initial|, Since(initial, prefix, WriterCalls(v), before), Last(rest), v);
    }
  }

  /** A `write` that has returned published its value and nothing else, whole, and moved the
      sequence on by two. */
  lemma {:induction false} WriteEndsPublished<W>(initial: seq<W>, prefix: seq<Choice<W>>, v: seq<W>, rest: seq<Choice<W>>)
    requires InWrite(initial, prefix, v, rest) && Since(initial, prefix, WriterCalls(v), rest).writer.WIdle?
    ensures var s, s' := Run(initial, prefix), Since(initial, prefix, WriterCalls(v), rest);
      s'.versions == s.versions + [v] && s'.data == v && s'.sequence == WrappingAdd(s.sequence, 2)
  {
    WriteProgresses(initial, prefix, v, rest);
    RestingCell(initial, prefix);
    RestingCell(initial, prefix + [WriterCalls(v)] + rest);
    WrappedIncrement(Clock(Run(initial, prefix)), 2);
  }
}
