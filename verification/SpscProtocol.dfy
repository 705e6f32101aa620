/** The ring buffer's `push` and `pop` under two threads, one atomic access per step
    (crates/ssm-engine/src/spsc.rs). A value is `width` machine words, copied word by
    word. A schedule chooses which thread moves next, so "for every schedule" is "for
    every interleaving" of a sequentially consistent memory. */
module SpscProtocol {
  import opened MachineWords
  import opened Domain
  import opened Spsc

  datatype Config = Config(exponent: nat, width: nat) {
    predicate Valid() { exponent <= 63 }
    function Capacity(): nat { Pow2(exponent) }
    function Mask(): nat { Pow2(exponent) - 1 }
  }

  // ---------------------------------------------------------------------
  // The machine
  // ---------------------------------------------------------------------

  /** Where the producer is inside `push`. */
  datatype Producer<W> =
    | PIdle
    | PLoadHead(value: seq<W>)
    | PLoadTail(value: seq<W>, head: nat)
    | PWrite(value: seq<W>, head: nat, done: nat)
    | PReturnOk
    | PReturnErr(value: seq<W>)

  /** Where the consumer is inside `pop`. */
  datatype Consumer<W> =
    | CIdle
    | CLoadTail
    | CLoadHead(tail: nat)
    | CRead(tail: nat, taken: seq<W>)
    | CReturnSome(value: seq<W>)
    | CReturnNone

  /** `fault` is raised by a read of an uninitialised word or a write over a live one. */
  datatype State<W> = State(
    head: nat, tail: nat, slots: seq<seq<Option<W>>>,
    producer: Producer<W>, consumer: Consumer<W>, fault: bool)

  /** What a step does to the outside: calls and returns, and between them the
      effect on the abstract queue. */
  datatype Label<W> =
    | Internal
    | CallPush(value: seq<W>)
    | Pushed(value: seq<W>)
    | SawFull
    | ReturnOk
    | ReturnErr(value: seq<W>)
    | CallPop
    | Popped(value: seq<W>)
    | SawEmpty
    | ReturnSome(value: seq<W>)
    | ReturnNone

  datatype Choice<W> = ProducerCalls(value: seq<W>) | ProducerMoves | ConsumerCalls | ConsumerMoves

  function Blank<W>(width: nat): seq<Option<W>> {
    seq(width, _ => None)
  }

  function Init<W>(c: Config): State<W> {
    State(0, 0, seq(c.Capacity(), _ => Blank(c.width)), PIdle, CIdle, false)
  }

  function Slot(c: Config, index: nat): nat {
    BitAnd(index, c.Mask())
  }

  function ProducerStep<W>(c: Config, s: State<W>): (State<W>, Label<W>)
    requires Shape(c, s)
  {
    match s.producer
    case PIdle => (s, Internal)
    case PLoadHead(v) => (s.(producer := PLoadTail(v, s.head)), Internal)
    case PLoadTail(v, head) =>
      if WrappingSub(head, s.tail) >= c.Capacity() then
        (s.(producer := PReturnErr(v)), SawFull)
      else
        (s.(producer := PWrite(v, head, 0)), Internal)
    case PWrite(v, head, j) =>
      if j < c.width then
        var k := SlotInRange(c, head);
        (s.(slots := s.slots[k := s.slots[k][j := Some(v[j])]],
            producer := PWrite(v, head, j + 1),
            fault := s.fault || s.slots[k][j].Some?), Internal)
      else
        (s.(head := WrappingAdd(head, 1), producer := PReturnOk), Pushed(v))
    case PReturnOk => (s.(producer := PIdle), ReturnOk)
    case PReturnErr(v) => (s.(producer := PIdle), ReturnErr(v))
  }

  function ConsumerStep<W>(c: Config, s: State<W>): (State<W>, Label<W>)
    requires Shape(c, s)
  {
    match s.consumer
    case CIdle => (s, Internal)
    case CLoadTail => (s.(consumer := CLoadHead(s.tail)), Internal)
    case CLoadHead(tail) =>
      if tail == s.head then (s.(consumer := CReturnNone), SawEmpty)
      else (s.(consumer := CRead(tail, [])), Internal)
    case CRead(tail, taken) =>
      if |taken| < c.width then
        var k := SlotInRange(c, tail);
        var j := |taken|;
        match s.slots[k][j] {
          case None => (s.(fault := true), Internal)
          case Some(w) =>
            (s.(slots := s.slots[k := s.slots[k][j := None]],
                consumer := CRead(tail, taken + [w])), Internal)
        }
      else
        (s.(tail := WrappingAdd(tail, 1), consumer := CReturnSome(taken)), Popped(taken))
    case CReturnSome(v) => (s.(consumer := CIdle), ReturnSome(v))
    case CReturnNone => (s.(consumer := CIdle), ReturnNone)
  }

  /** One step of a schedule. A thread that is told to call while it is inside a call, or
      with a value of the wrong size, stays where it is. */
  function Step<W>(c: Config, s: State<W>, choice: Choice<W>): (State<W>, Label<W>)
    requires Shape(c, s)
  {
    match choice
    case ProducerCalls(v) =>
      if s.producer.PIdle? && |v| == c.width then (s.(producer := PLoadHead(v)), CallPush(v))
      else (s, Internal)
    case ProducerMoves => ProducerStep(c, s)
    case ConsumerCalls =>
      if s.consumer.CIdle? then (s.(consumer := CLoadTail), CallPop) else (s, Internal)
    case ConsumerMoves => ConsumerStep(c, s)
  }

  /** The typing of the memory and of the two program counters. */
  predicate Shape<W>(c: Config, s: State<W>) {
    && c.Valid()
    && |s.slots| == c.Capacity()
    && (forall k :: 0 <= k < |s.slots| ==> |s.slots[k]| == c.width)
    && (s.producer.PWrite? ==> s.producer.done <= c.width)
    && ((s.producer.PLoadHead? || s.producer.PLoadTail? || s.producer.PWrite?) ==>
          |s.producer.value| == c.width)
    && (s.consumer.CRead? ==> |s.consumer.taken| <= c.width)
  }

  function SlotInRange(c: Config, index: nat): (k: nat)
    ensures k < c.Capacity() && k == index % c.Capacity() == Slot(c, index)
  {
    MaskIsRemainder(index, c.exponent);
    Slot(c, index)
  }

  lemma StepKeepsShape<W>(c: Config, s: State<W>, choice: Choice<W>)
    requires Shape(c, s)
    ensures Shape(c, Step(c, s, choice).0)
  {
  }

  function Run<W>(c: Config, schedule: seq<Choice<W>>): (r: (State<W>, seq<Label<W>>))
    requires c.Valid()
    ensures Shape(c, r.0)
  {
    if schedule == [] then (Init(c), [])
    else
      var (s, trace) := Run(c, Front(schedule));
      StepKeepsShape(c, s, Last(schedule));
      var (s', l) := Step(c, s, Last(schedule));
      (s', trace + [l])
  }

  // ---------------------------------------------------------------------
  // Histories read off a trace
  // ---------------------------------------------------------------------

  /** The values accepted by `push`, in order. */
  ghost function Accepted<W>(trace: seq<Label<W>>): seq<seq<W>> {
    if trace == [] then []
    else Accepted(Front(trace)) + (if Last(trace).Pushed? then [Last(trace).value] else [])
  }

  /** The values taken by `pop`, in order. */
  ghost function Taken<W>(trace: seq<Label<W>>): seq<seq<W>> {
    if trace == [] then []
    else Taken(Front(trace)) + (if Last(trace).Popped? then [Last(trace).value] else [])
  }

  /** The abstract queue after an effect, or None when the effect is not what the queue
      would have answered. */
  ghost function NextQueue<W>(capacity: nat, q: seq<seq<W>>, l: Label<W>): Option<seq<seq<W>>> {
    match l
    case Pushed(v) =>
      if Offer(capacity, q, v).0.Accepted? then Some(Offer(capacity, q, v).1) else None
    case SawFull => if |q| >= capacity then Some(q) else None
    case Popped(v) => if Poll(q).0 == Some(v) then Some(Poll(q).1) else None
    case SawEmpty => if Poll(q).0 == None then Some(q) else None
    case _ => Some(q)
  }

  /** Replays the effects of a trace on the abstract bounded queue. */
  ghost function Replay<W>(capacity: nat, trace: seq<Label<W>>): Option<seq<seq<W>>> {
    if trace == [] then Some([])
    else
      match Replay(capacity, Front(trace))
      case None => None
      case Some(q) => NextQueue(capacity, q, Last(trace))
  }

  /** How far one thread is in the cycle call, effect, return. */
  datatype Phase<W> = Ready | Called(value: seq<W>) | Effective(answer: Label<W>) | Broken

  ghost function NextPushPhase<W>(p: Phase<W>, l: Label<W>): Phase<W> {
    match l
    case CallPush(v) => if p == Ready then Called(v) else Broken
    case Pushed(v) => if p == Called(v) then Effective(ReturnOk) else Broken
    case SawFull => if p.Called? then Effective(ReturnErr(p.value)) else Broken
    case ReturnOk => if p == Effective(ReturnOk) then Ready else Broken
    case ReturnErr(v) => if p == Effective(ReturnErr(v)) then Ready else Broken
    case _ => p
  }

  ghost function NextPopPhase<W>(p: Phase<W>, l: Label<W>): Phase<W> {
    match l
    case CallPop => if p == Ready then Called([]) else Broken
    case Popped(v) => if p.Called? then Effective(ReturnSome(v)) else Broken
    case SawEmpty => if p.Called? then Effective(ReturnNone) else Broken
    case ReturnSome(v) => if p == Effective(ReturnSome(v)) then Ready else Broken
    case ReturnNone => if p == Effective(ReturnNone) then Ready else Broken
    case _ => p
  }

  ghost function ProducerPhase<W>(p: Producer<W>): Phase<W> {
    match p
    case PIdle => Ready
    case PReturnOk => Effective(ReturnOk)
    case PReturnErr(v) => Effective(ReturnErr(v))
    case _ => Called(p.value)
  }

  ghost function ConsumerPhase<W>(p: Consumer<W>): Phase<W> {
    match p
    case CIdle => Ready
    case CReturnSome(v) => Effective(ReturnSome(v))
    case CReturnNone => Effective(ReturnNone)
    case _ => Called([])
  }

  ghost function PushPhase<W>(trace: seq<Label<W>>): Phase<W> {
    if trace == [] then Ready else NextPushPhase(PushPhase(Front(trace)), Last(trace))
  }

  ghost function PopPhase<W>(trace: seq<Label<W>>): Phase<W> {
    if trace == [] then Ready else NextPopPhase(PopPhase(Front(trace)), Last(trace))
  }

  // ---------------------------------------------------------------------
  // The invariant
  // ---------------------------------------------------------------------

  /** The content of the slot that counter `i` maps to, given that `accepted` values were
      published and `taken` of them consumed: whole values in between, less the words
      already moved out of the oldest and plus the words written of the next. */
  ghost function SlotContent<W>(c: Config, s: State<W>, acc: seq<seq<W>>, t: nat, i: nat): seq<Option<W>>
    requires (forall k :: 0 <= k < |acc| ==> |acc[k]| == c.width) && Shape(c, s)
  {
    var moved := if s.consumer.CRead? && i == t then |s.consumer.taken| else 0;
    var written := if s.producer.PWrite? then s.producer.done else 0;
    if i < |acc| then
      seq(c.width, j requires 0 <= j < c.width => if moved <= j then Some(acc[i][j]) else None)
    else if i == |acc| && s.producer.PWrite? then
      seq(c.width, j requires 0 <= j < c.width => if j < written then Some(s.producer.value[j]) else None)
    else
      Blank(c.width)
  }

  ghost predicate SlotsAgree<W>(c: Config, s: State<W>, acc: seq<seq<W>>, t: nat)
    requires (forall k :: 0 <= k < |acc| ==> |acc[k]| == c.width) && Shape(c, s)
  {
    forall i :: t <= i < t + c.Capacity() ==>
      s.slots[i % c.Capacity()] == SlotContent(c, s, acc, t, i)
  }

  ghost predicate IndicesAgree<W>(c: Config, s: State<W>, acc: seq<seq<W>>, t: nat) {
    && t <= |acc| <= t + c.Capacity()
    && s.head == |acc| % TWO_64
    && s.tail == t % TWO_64
    && (s.producer.PLoadTail? || s.producer.PWrite? ==> s.producer.head == s.head)
    && (s.producer.PWrite? ==> |acc| < t + c.Capacity())
    && (s.consumer.CLoadHead? || s.consumer.CRead? ==> s.consumer.tail == s.tail)
    && (s.consumer.CRead? ==>
          t < |acc| && s.consumer.taken <= acc[t])
  }

  ghost predicate Inv<W>(c: Config, s: State<W>, acc: seq<seq<W>>, t: nat) {
    && Shape(c, s)
    && (forall k :: 0 <= k < |acc| ==> |acc[k]| == c.width)
    && IndicesAgree(c, s, acc, t)
    && SlotsAgree(c, s, acc, t)
    && !s.fault
  }

  lemma InitInv<W>(c: Config)
    requires c.Valid()
    ensures Inv(c, Init<W>(c), [], 0)
  {
  }

  /** The counters behind a step: how the history grows. */
  ghost function AccAfter<W>(acc: seq<seq<W>>, l: Label<W>): seq<seq<W>> {
    if l.Pushed? then acc + [l.value] else acc
  }

  ghost function TakenAfter<W>(t: nat, l: Label<W>): nat {
    if l.Popped? then t + 1 else t
  }

  lemma CapacityFits(c: Config)
    requires c.Valid()
    ensures 0 < c.Capacity() < TWO_64
  {
    Pow2Of64();
    Pow2Monotone(c.exponent, 63);
  }

  lemma SlotOfCounter(c: Config, n: nat)
    requires c.Valid()
    ensures SlotInRange(c, n % TWO_64) == n % c.Capacity()
  {
    MaskedCounter(n, c.exponent);
  }

  lemma WriteWord<W>(c: Config, s: State<W>, acc: seq<seq<W>>, t: nat)
    requires Inv(c, s, acc, t) && s.producer.PWrite? && s.producer.done < c.width
    ensures Inv(c, ProducerStep(c, s).0, acc, t)
  {
    var h := |acc|;
    SlotOfCounter(c, h);
    var s' := ProducerStep(c, s).0;
    assert s.slots[h % c.Capacity()] == SlotContent(c, s, acc, t, h);
    forall i | t <= i < t + c.Capacity()
      ensures s'.slots[i % c.Capacity()] == SlotContent(c, s', acc, t, i)
    {
      assert s.slots[i % c.Capacity()] == SlotContent(c, s, acc, t, i);
      if i != h {
        DistinctSlots(t, c.Capacity(), i, h);
        assert SlotContent(c, s', acc, t, i) == SlotContent(c, s, acc, t, i);
      }
    }
  }

  lemma PublishHead<W>(c: Config, s: State<W>, acc: seq<seq<W>>, t: nat)
    requires Inv(c, s, acc, t) && s.producer.PWrite? && s.producer.done == c.width
    ensures Inv(c, ProducerStep(c, s).0, acc + [s.producer.value], t)
  {
    var s' := ProducerStep(c, s).0;
    var acc' := acc + [s.producer.value];
    WrappedIncrement(|acc|, 1);
    forall i | t <= i < t + c.Capacity()
      ensures s'.slots[i % c.Capacity()] == SlotContent(c, s', acc', t, i)
    {
      assert s.slots[i % c.Capacity()] == SlotContent(c, s, acc, t, i);
      assert SlotContent(c, s', acc', t, i) == SlotContent(c, s, acc, t, i);
    }
  }

  lemma ReadWord<W>(c: Config, s: State<W>, acc: seq<seq<W>>, t: nat)
    requires Inv(c, s, acc, t) && s.consumer.CRead? && |s.consumer.taken| < c.width
    ensures Inv(c, ConsumerStep(c, s).0, acc, t)
  {
    SlotOfCounter(c, t);
    var s' := ConsumerStep(c, s).0;
    var j := |s.consumer.taken|;
    assert s.slots[t % c.Capacity()] == SlotContent(c, s, acc, t, t);
    assert s.slots[t % c.Capacity()][j] == Some(acc[t][j]);
    forall i | t <= i < t + c.Capacity()
      ensures s'.slots[i % c.Capacity()] == SlotContent(c, s', acc, t, i)
    {
      assert s.slots[i % c.Capacity()] == SlotContent(c, s, acc, t, i);
      if i != t {
        DistinctSlots(t, c.Capacity(), i, t);
        assert SlotContent(c, s', acc, t, i) == SlotContent(c, s, acc, t, i);
      }
    }
  }

  lemma ReleaseTail<W>(c: Config, s: State<W>, acc: seq<seq<W>>, t: nat)
    requires Inv(c, s, acc, t) && s.consumer.CRead? && |s.consumer.taken| == c.width
    ensures s.consumer.taken == acc[t]
    ensures Inv(c, ConsumerStep(c, s).0, acc, t + 1)
  {
    var s' := ConsumerStep(c, s).0;
    WrappedIncrement(t, 1);
    forall i | t + 1 <= i < t + 1 + c.Capacity()
      ensures s'.slots[i % c.Capacity()] == SlotContent(c, s', acc, t + 1, i)
    {
      if i == t + c.Capacity() {
        ResidueShift(t, c.Capacity());
        assert s.slots[t % c.Capacity()] == SlotContent(c, s, acc, t, t);
        assert SlotContent(c, s', acc, t + 1, i) == SlotContent(c, s, acc, t, t);
      } else {
        assert s.slots[i % c.Capacity()] == SlotContent(c, s, acc, t, i);
        assert SlotContent(c, s', acc, t + 1, i) == SlotContent(c, s, acc, t, i);
      }
    }
  }

  /** A step that touches no slot and no published index. */
  lemma Bookkeeping<W>(c: Config, s: State<W>, s': State<W>, acc: seq<seq<W>>, t: nat)
    requires Inv(c, s, acc, t) && Shape(c, s') && IndicesAgree(c, s', acc, t)
    requires s'.slots == s.slots && !s'.fault
    requires s'.producer.PWrite? ==> s'.producer.done == (if s.producer.PWrite? then s.producer.done else 0)
    requires s'.producer.PWrite? && s.producer.PWrite? ==> s'.producer == s.producer
    requires s.producer.PWrite? ==> s'.producer == s.producer
    requires s'.consumer.CRead? ==>
      |s'.consumer.taken| == (if s.consumer.CRead? then |s.consumer.taken| else 0)
    requires s.consumer.CRead? ==> s'.consumer == s.consumer
    ensures Inv(c, s', acc, t)
  {
    forall i | t <= i < t + c.Capacity()
      ensures s'.slots[i % c.Capacity()] == SlotContent(c, s', acc, t, i)
    {
      assert s.slots[i % c.Capacity()] == SlotContent(c, s, acc, t, i);
      assert SlotContent(c, s', acc, t, i) == SlotContent(c, s, acc, t, i);
    }
  }

  lemma ProducerStepInv<W>(c: Config, s: State<W>, acc: seq<seq<W>>, t: nat)
    requires Inv(c, s, acc, t)
    ensures var (s', l) := ProducerStep(c, s);
      Inv(c, s', AccAfter(acc, l), TakenAfter(t, l))
  {
    if s.producer.PWrite? {
      if s.producer.done < c.width {
        WriteWord(c, s, acc, t);
      } else {
        PublishHead(c, s, acc, t);
      }
    } else {
      CapacityFits(c);
      WrappedDistance(|acc|, t);
      Bookkeeping(c, s, ProducerStep(c, s).0, acc, t);
    }
  }

  lemma ConsumerStepInv<W>(c: Config, s: State<W>, acc: seq<seq<W>>, t: nat)
    requires Inv(c, s, acc, t)
    ensures var (s', l) := ConsumerStep(c, s);
      Inv(c, s', AccAfter(acc, l), TakenAfter(t, l)) && (l.Popped? ==> t < |acc| && l.value == acc[t])
  {
    if s.consumer.CRead? {
      if |s.consumer.taken| < c.width {
        ReadWord(c, s, acc, t);
      } else {
        ReleaseTail(c, s, acc, t);
      }
    } else {
      CapacityFits(c);
      WrappedEqual(t, |acc|);
      Bookkeeping(c, s, ConsumerStep(c, s).0, acc, t);
    }
  }

  lemma StepInv<W>(c: Config, s: State<W>, choice: Choice<W>, acc: seq<seq<W>>, t: nat)
    requires Inv(c, s, acc, t)
    ensures var (s', l) := Step(c, s, choice);
      Inv(c, s', AccAfter(acc, l), TakenAfter(t, l)) && (l.Popped? ==> t < |acc| && l.value == acc[t])
  {
    match choice
    case ProducerMoves => ProducerStepInv(c, s, acc, t);
    case ConsumerMoves => ConsumerStepInv(c, s, acc, t);
    case _ =>
      if Step(c, s, choice).0 != s {
        Bookkeeping(c, s, Step(c, s, choice).0, acc, t);
      }
  }

  // ---------------------------------------------------------------------
  // Every interleaving
  // ---------------------------------------------------------------------

  lemma {:induction false} HistoryStep<W>(trace: seq<Label<W>>, l: Label<W>)
    ensures Accepted(trace + [l]) == AccAfter(Accepted(trace), l)
    ensures Taken(trace + [l]) == Taken(trace) + (if l.Popped? then [l.value] else [])
  {
    assert Front(trace + [l]) == trace;
  }

  lemma {:induction false} RunStep<W>(c: Config, schedule: seq<Choice<W>>)
      returns (s: State<W>, trace: seq<Label<W>>, s': State<W>, l: Label<W>)
    requires c.Valid() && schedule != []
    ensures (s, trace) == Run(c, Front(schedule)) && Shape(c, s)
    ensures (s', l) == Step(c, s, Last(schedule))
    ensures Run(c, schedule) == (s', trace + [l])
  {
    var r := Run(c, Front(schedule));
    s, trace := r.0, r.1;
    StepKeepsShape(c, s, Last(schedule));
    var n := Step(c, s, Last(schedule));
    s', l := n.0, n.1;
  }

  ghost predicate HistoryInv<W>(c: Config, s: State<W>, trace: seq<Label<W>>) {
    Inv(c, s, Accepted(trace), |Taken(trace)|) && Taken(trace) <= Accepted(trace)
  }

  lemma HistoryStepInv<W>(c: Config, s: State<W>, trace: seq<Label<W>>, s': State<W>, l: Label<W>)
    requires HistoryInv(c, s, trace)
    requires Inv(c, s', AccAfter(Accepted(trace), l), TakenAfter(|Taken(trace)|, l))
    requires l.Popped? ==> |Taken(trace)| < |Accepted(trace)| && l.value == Accepted(trace)[|Taken(trace)|]
    ensures HistoryInv(c, s', trace + [l])
  {
    HistoryStep(trace, l);
  }

  lemma {:induction false} RunInv<W>(c: Config, schedule: seq<Choice<W>>)
    requires c.Valid()
    ensures HistoryInv(c, Run(c, schedule).0, Run(c, schedule).1)
  {
    if schedule == [] {
      InitInv<W>(c);
    } else {
      RunInv(c, Front(schedule));
      var s, trace, s', l := RunStep(c, schedule);
      StepInv(c, s, Last(schedule), Accepted(trace), |Taken(trace)|);
      HistoryStepInv(c, s, trace, s', l);
    }
  }

  /** The values still in the ring, decoded from the two indices and the slots; the words
      of the oldest one that a pop has already moved out are read from its copy. */
  ghost function InRing<W>(c: Config, s: State<W>): seq<seq<Option<W>>>
    requires Shape(c, s)
  {
    seq(WrappingSub(s.head, s.tail), i requires 0 <= i => RingValue(c, s, i))
  }

  ghost function RingValue<W>(c: Config, s: State<W>, i: nat): seq<Option<W>>
    requires Shape(c, s)
  {
    var slot := s.slots[(s.tail + i) % c.Capacity()];
    if i == 0 && s.consumer.CRead? then Words(s.consumer.taken) + slot[|s.consumer.taken|..] else slot
  }

  lemma RingValueIsAccepted<W>(c: Config, s: State<W>, acc: seq<seq<W>>, t: nat, i: nat)
    requires Inv(c, s, acc, t) && i < |acc| - t
    ensures RingValue(c, s, i) == Words(acc[t + i])
  {
    Pow2Of64();
    Pow2Add(c.exponent, 64 - c.exponent);
    ResidueOfResidue(t, c.Capacity(), Pow2(64 - c.exponent));
    SameResidueOffset(t, s.tail, i, c.Capacity());
    assert s.slots[(t + i) % c.Capacity()] == SlotContent(c, s, acc, t, t + i);
  }

  ghost function Words<W>(v: seq<W>): seq<Option<W>> {
    seq(|v|, j requires 0 <= j < |v| => Some(v[j]))
  }

  /** Nothing is lost or duplicated: at every instant of every interleaving the pops so far
      returned a prefix of the accepted pushes, and the ring holds exactly the rest. */
  lemma {:induction false} AcceptedIsTakenPlusRing<W>(c: Config, schedule: seq<Choice<W>>)
    requires c.Valid()
    ensures var (s, trace) := Run(c, schedule);
      var acc, taken, ring := Accepted(trace), Taken(trace), InRing(c, s);
      && |acc| == |taken| + |ring|
      && acc[..|taken|] == taken
      && (forall i :: 0 <= i < |ring| ==> ring[i] == Words(acc[|taken| + i]))
  {
    RunInv(c, schedule);
    var (s, trace) := Run(c, schedule);
    var acc, t := Accepted(trace), |Taken(trace)|;
    CapacityFits(c);
    WrappedDistance(|acc|, t);
    forall i | 0 <= i < |acc| - t
      ensures InRing(c, s)[i] == Words(acc[t + i])
    {
      RingValueIsAccepted(c, s, acc, t, i);
    }
  }

  lemma SameResidueOffset(a: nat, b: nat, i: nat, d: nat)
    requires 0 < d && a % d == b % d
    ensures (a + i) % d == (b + i) % d
  {
    var q, r := (b + i) / d, (b + i) % d;
    assert a + i == d * (q + a / d - b / d) + r by {
      assert a == d * (a / d) + a % d && b == d * (b / d) + b % d && b + i == d * q + r;
    }
    DivModUnique(a + i, d, q + a / d - b / d, r);
  }

  lemma StepIsQueueStep<W>(c: Config, s: State<W>, choice: Choice<W>, acc: seq<seq<W>>, t: nat)
    requires Inv(c, s, acc, t)
    ensures var (s', l) := Step(c, s, choice);
      && TakenAfter(t, l) <= |AccAfter(acc, l)|
      && NextQueue(c.Capacity(), acc[t..], l) == Some(AccAfter(acc, l)[TakenAfter(t, l)..])
  {
    StepInv(c, s, choice, acc, t);
    CapacityFits(c);
    WrappedDistance(|acc|, t);
    WrappedEqual(t, |acc|);
    var l := Step(c, s, choice).1;
    assert AccAfter(acc, l)[TakenAfter(t, l)..] ==
      match l { case Pushed(v) => acc[t..] + [v] case Popped(_) => acc[t..][1..] case _ => acc[t..] };
  }

  /** Each effect is the answer the bounded FIFO queue gives at that instant; in particular
      a push fails only when the queue was full, and a pop only when it was empty, at the
      moment the other side's index was loaded. */
  lemma {:induction false} EffectsAreAQueueHistory<W>(c: Config, schedule: seq<Choice<W>>)
    requires c.Valid()
    ensures var trace := Run(c, schedule).1;
      && |Taken(trace)| <= |Accepted(trace)|
      && Replay(c.Capacity(), trace) == Some(Accepted(trace)[|Taken(trace)|..])
  {
    if schedule != [] {
      EffectsAreAQueueHistory(c, Front(schedule));
      RunInv(c, Front(schedule));
      var s, trace, s', l := RunStep(c, schedule);
      StepIsQueueStep(c, s, Last(schedule), Accepted(trace), |Taken(trace)|);
      HistoryStep(trace, l);
      assert Front(trace + [l]) == trace;
    }
  }

  lemma StepPhases<W>(c: Config, s: State<W>, choice: Choice<W>)
    requires Shape(c, s)
    ensures var (s', l) := Step(c, s, choice);
      && ProducerPhase(s'.producer) == NextPushPhase(ProducerPhase(s.producer), l)
      && ConsumerPhase(s'.consumer) == NextPopPhase(ConsumerPhase(s.consumer), l)
  {
  }

  /** Linearizability: every call has exactly one effect between its call and its return,
      carrying the same value and the same answer. */
  lemma {:induction false} EachCallTakesEffectOnce<W>(c: Config, schedule: seq<Choice<W>>)
    requires c.Valid()
    ensures var (s, trace) := Run(c, schedule);
      && PushPhase(trace) == ProducerPhase(s.producer) != Broken
      && PopPhase(trace) == ConsumerPhase(s.consumer) != Broken
  {
    if schedule != [] {
      EachCallTakesEffectOnce(c, Front(schedule));
      var s, trace, s', l := RunStep(c, schedule);
      StepPhases(c, s, Last(schedule));
      assert Front(trace + [l]) == trace;
    }
  }

  /** No slot is written and read at the same time, no pop reads an uninitialised word, no
      push overwrites a live one, and the wrapped difference is the true number in flight. */
  lemma {:induction false} SlotsAreExclusive<W>(c: Config, schedule: seq<Choice<W>>)
    requires c.Valid()
    ensures var (s, trace) := Run(c, schedule);
      && !s.fault
      && WrappingSub(s.head, s.tail) == |Accepted(trace)| - |Taken(trace)| <= c.Capacity()
      && Slot(c, s.head) == |Accepted(trace)| % c.Capacity()
      && Slot(c, s.tail) == |Taken(trace)| % c.Capacity()
      && (s.producer.PWrite? && s.consumer.CRead? ==>
            Slot(c, s.producer.head) != Slot(c, s.consumer.tail))
  {
    RunInv(c, schedule);
    var (s, trace) := Run(c, schedule);
    var h, t := |Accepted(trace)|, |Taken(trace)|;
    CapacityFits(c);
    WrappedDistance(h, t);
    SlotOfCounter(c, h);
    SlotOfCounter(c, t);
    if t < h < t + c.Capacity() {
      ResiduesDiffer(t, h, c.Capacity());
    }
  }

  // ---------------------------------------------------------------------
  // Drop
  // ---------------------------------------------------------------------

  function Moves<W>(n: nat): seq<Choice<W>> {
    seq(n, _ => ConsumerMoves)
  }

  /** A whole call of `pop` on a non-empty ring, with the producer at rest. */
  function PopCall<W>(c: Config): seq<Choice<W>> {
    [ConsumerCalls] + Moves(c.width + 4)
  }

  /** A whole call of `pop` on an empty one. */
  function EmptyCall<W>(): seq<Choice<W>> {
    [ConsumerCalls, ConsumerMoves, ConsumerMoves, ConsumerMoves]
  }

  /** `while self.pop().is_some() {}` on a ring of `n` values. */
  function DropCalls<W>(c: Config, n: nat): seq<Choice<W>> {
    if n == 0 then EmptyCall() else PopCall(c) + DropCalls(c, n - 1)
  }

  lemma {:induction false} RunExtend<W>(c: Config, schedule: seq<Choice<W>>, choice: Choice<W>)
    requires c.Valid()
    ensures var (s, trace) := Run(c, schedule);
      var (s', l) := Step(c, s, choice);
      && Run(c, schedule + [choice]) == (s', trace + [l])
      && Accepted(trace + [l]) == AccAfter(Accepted(trace), l)
      && Taken(trace + [l]) == Taken(trace) + (if l.Popped? then [l.value] else [])
  {
    var (s, trace) := Run(c, schedule);
    var (s', l) := Step(c, s, choice);
    assert Front(schedule + [choice]) == schedule;
    assert Front(trace + [l]) == trace;
  }

  lemma {:induction false} ReadOneWord<W>(c: Config, schedule: seq<Choice<W>>)
    requires c.Valid()
    requires Run(c, schedule).0.consumer.CRead? && |Run(c, schedule).0.consumer.taken| < c.width
    ensures var (s, trace) := Run(c, schedule);
      var (s', trace') := Run(c, schedule + [ConsumerMoves]);
      && s'.producer == s.producer && s'.consumer.CRead?
      && |s'.consumer.taken| == |s.consumer.taken| + 1
      && Accepted(trace') == Accepted(trace) && Taken(trace') == Taken(trace)
  {
    var (s, trace) := Run(c, schedule);
    RunInv(c, schedule);
    ReadWord(c, s, Accepted(trace), |Taken(trace)|);
    assert ConsumerStep(c, s).1 == Internal;
    RunExtend(c, schedule, ConsumerMoves);
  }

  lemma MovesSnoc<W>(schedule: seq<Choice<W>>, m: nat)
    requires 0 < m
    ensures schedule + Moves(m) == schedule + Moves(m - 1) + [ConsumerMoves]
  {
  }

  lemma {:induction false} ReadAllWords<W>(c: Config, schedule: seq<Choice<W>>, m: nat)
    requires c.Valid() && m <= c.width
    requires Run(c, schedule).0.consumer.CRead? && Run(c, schedule).0.consumer.taken == []
    ensures var (s, trace) := Run(c, schedule);
      var (s', trace') := Run(c, schedule + Moves(m));
      && s'.producer == s.producer && s'.consumer.CRead? && |s'.consumer.taken| == m
      && Accepted(trace') == Accepted(trace) && Taken(trace') == Taken(trace)
  {
    if m == 0 {
      assert schedule + Moves(0) == schedule;
    } else {
      ReadAllWords(c, schedule, m - 1);
      MovesSnoc(schedule, m);
      ReadOneWord(c, schedule + Moves(m - 1));
    }
  }

  /** The two index loads that open a `pop`. */
  lemma {:induction false} EnterPop<W>(c: Config, schedule: seq<Choice<W>>)
    requires c.Valid()
    requires Run(c, schedule).0.consumer.CIdle?
    ensures var (s, trace) := Run(c, schedule);
      var (s', trace') := Run(c, schedule + [ConsumerCalls] + [ConsumerMoves] + [ConsumerMoves]);
      && s'.producer == s.producer && Accepted(trace') == Accepted(trace) && Taken(trace') == Taken(trace)
      && s'.consumer == (if s.tail == s.head then CReturnNone else CRead(s.tail, []))
  {
    hide Run, Accepted, Taken;
    RunExtend(c, schedule, ConsumerCalls);
    RunExtend(c, schedule + [ConsumerCalls], ConsumerMoves);
    RunExtend(c, schedule + [ConsumerCalls] + [ConsumerMoves], ConsumerMoves);
  }

  /** The store and the return that close it. */
  lemma {:induction false} LeavePop<W>(c: Config, schedule: seq<Choice<W>>)
    requires c.Valid()
    requires Run(c, schedule).0.consumer.CRead? && |Run(c, schedule).0.consumer.taken| == c.width
    ensures var (s, trace) := Run(c, schedule);
      var (s', trace') := Run(c, schedule + [ConsumerMoves] + [ConsumerMoves]);
      && s'.producer == s.producer && s'.consumer.CIdle?
      && Accepted(trace') == Accepted(trace) && |Taken(trace')| == |Taken(trace)| + 1
  {
    hide Run, Accepted, Taken;
    RunExtend(c, schedule, ConsumerMoves);
    RunExtend(c, schedule + [ConsumerMoves], ConsumerMoves);
  }

  lemma {:induction false} PopTakesOne<W>(c: Config, schedule: seq<Choice<W>>)
    requires c.Valid()
    requires Run(c, schedule).0.consumer.CIdle?
    requires |Taken(Run(c, schedule).1)| < |Accepted(Run(c, schedule).1)|
    ensures var (s, trace) := Run(c, schedule);
      var (s', trace') := Run(c, schedule + PopCall(c));
      && s'.producer == s.producer && s'.consumer.CIdle?
      && Accepted(trace') == Accepted(trace) && |Taken(trace')| == |Taken(trace)| + 1
  {
    RunInv(c, schedule);
    CapacityFits(c);
    WrappedEqual(|Taken(Run(c, schedule).1)|, |Accepted(Run(c, schedule).1)|);
    EnterPop(c, schedule);
    var reading := schedule + [ConsumerCalls] + [ConsumerMoves] + [ConsumerMoves];
    ReadAllWords(c, reading, c.width);
    LeavePop(c, reading + Moves(c.width));
    assert schedule + PopCall(c) == reading + Moves(c.width) + [ConsumerMoves] + [ConsumerMoves];
  }

  lemma {:induction false} LeaveEmptyPop<W>(c: Config, schedule: seq<Choice<W>>)
    requires c.Valid()
    requires Run(c, schedule).0.consumer.CReturnNone?
    ensures var (s, trace) := Run(c, schedule);
      var (s', trace') := Run(c, schedule + [ConsumerMoves]);
      && s'.producer == s.producer && s'.consumer.CIdle? && Last(trace') == ReturnNone
      && Accepted(trace') == Accepted(trace) && Taken(trace') == Taken(trace)
  {
    RunExtend(c, schedule, ConsumerMoves);
  }

  lemma {:induction false} EmptyPop<W>(c: Config, schedule: seq<Choice<W>>)
    requires c.Valid()
    requires Run(c, schedule).0.consumer.CIdle?
    requires |Taken(Run(c, schedule).1)| == |Accepted(Run(c, schedule).1)|
    ensures var (s, trace) := Run(c, schedule);
      var (s', trace') := Run(c, schedule + EmptyCall());
      && s'.producer == s.producer && s'.consumer.CIdle? && Last(trace') == ReturnNone
      && Accepted(trace') == Accepted(trace) && Taken(trace') == Taken(trace)
  {
    RunInv(c, schedule);
    EnterPop(c, schedule);
    LeaveEmptyPop(c, schedule + [ConsumerCalls] + [ConsumerMoves] + [ConsumerMoves]);
    EmptyCallSplit(schedule);
  }

  lemma EmptyCallSplit<W>(schedule: seq<Choice<W>>)
    ensures schedule + EmptyCall() ==
      schedule + [ConsumerCalls] + [ConsumerMoves] + [ConsumerMoves] + [ConsumerMoves]
  {
  }

  /** Drop, entered with both threads at rest after any interleaving, pops exactly the
      values still in the ring, in order, and leaves every slot uninitialised. */
  lemma {:induction false} DropConsumesRemainder<W>(c: Config, schedule: seq<Choice<W>>, n: nat)
    requires c.Valid()
    requires Run(c, schedule).0.producer.PIdle? && Run(c, schedule).0.consumer.CIdle?
    requires n == |Accepted(Run(c, schedule).1)| - |Taken(Run(c, schedule).1)|
    ensures var trace := Run(c, schedule).1;
      var (s', trace') := Run(c, schedule + DropCalls(c, n));
      && Taken(trace') == Accepted(trace') == Accepted(trace)
      && Last(trace') == ReturnNone
      && (forall k :: 0 <= k < c.Capacity() ==> s'.slots[k] == Blank(c.width))
    decreases n
  {
    if n == 0 {
      EmptyPop(c, schedule);
      assert DropCalls<W>(c, 0) == EmptyCall();
      RunInv(c, schedule + DropCalls(c, 0));
      var (s', trace') := Run(c, schedule + DropCalls(c, 0));
      var t := |Taken(trace')|;
      forall k | 0 <= k < c.Capacity()
        ensures s'.slots[k] == Blank(c.width)
      {
        var i := CounterFor(t, c.Capacity(), k);
        assert s'.slots[i % c.Capacity()] == SlotContent(c, s', Accepted(trace'), t, i);
      }
    } else {
      PopTakesOne(c, schedule);
      DropConsumesRemainder(c, schedule + PopCall(c), n - 1);
      assert schedule + DropCalls(c, n) == schedule + PopCall(c) + DropCalls(c, n - 1);
    }
  }

  /** Every slot belongs to some counter of the current window. */
  lemma CounterFor(t: nat, capacity: nat, k: nat) returns (i: nat)
    requires k < capacity
    ensures t <= i < t + capacity && i % capacity == k
  {
    var q, r := t / capacity, t % capacity;
    assert t == capacity * q + r;
    i := if r <= k then t - r + k else t - r + k + capacity;
    if r <= k {
      DivModUnique(i, capacity, q, k);
    } else {
      assert i == capacity * (q + 1) + k;
      DivModUnique(i, capacity, q + 1, k);
    }
  }
}
