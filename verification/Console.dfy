/** The logging queue of src/console.h as a state machine.

    Every load, compare-exchange and store on an atomic is one step, so a run is an
    arbitrary interleaving of any number of producers inside `PushAndNotify`, the single
    worker thread inside `Worker`, and one thread inside `Shutdown`. */
module Console {
  import opened Options

  const BUFFER_SIZE: nat := 4096

  /** `pos & BUFFER_MASK`; the mask is one less than a power of two. */
  function SlotOf(pos: nat): nat {
    pos % BUFFER_SIZE
  }

  datatype Message = Message(text: string, channel: nat, level: nat)

  /** A buffer cell. `message` is `None` before the first write and after a move out. */
  datatype Slot = Slot(sequence: nat, message: Option<Message>)

  /** Where a producer stands in `PushAndNotify`. A ticket is the value of `head_` that
      the producer's compare-exchange replaced. */
  datatype ProducerPc =
    | Outside
    | LoadHead
    | LoadSequence(pos: nat)
    | CompareExchange(pos: nat)
    | Yield
    | WriteMessage(ticket: nat)
    | Publish(ticket: nat)
    | AddCounter(ticket: nat)
    | NotifyOne(ticket: nat)

  datatype Producer = Producer(pc: ProducerPc, message: Option<Message>)

  /** Where the worker stands. `final` tells the drain after the loop from the one inside. */
  datatype WorkerPc =
    | FirstLoad
    | CheckStop
    | PopLoadTail(final: bool)
    | PopLoadSequence(pos: nat, final: bool)
    | StoreTail(pos: nat, final: bool)
    | ReadSlot(pos: nat, final: bool)
    | ReleaseSlot(pos: nat, final: bool)
    | Process(final: bool)
    | Wait
    | Blocked
    | Reload
    | Exited

  datatype ShutdownPc = NotCalled | RequestStop | CountUp | WakeWorker | Join | Closed

  /** `claimed[t]` records which producer won ticket `t`, and with what message. */
  datatype Claim = Claim(producer: nat, message: Message)

  datatype State = State(
    slots: seq<Slot>,
    head: nat,
    tail: nat,
    counter: nat,
    stop: bool,
    running: bool,
    producers: seq<Producer>,
    worker: WorkerPc,
    observed: nat,
    out: Option<Message>,
    shutdown: ShutdownPc,
    claimed: seq<Claim>,
    processed: seq<Message>)

  datatype Action =
    | Call(p: nat, message: Message)       // a thread calls PushAndNotify
    | ProducerStep(p: nat, spurious: bool) // `spurious`: the weak compare-exchange may fail for no reason
    | WorkerStep
    | SpuriousWake
    | CallShutdown
    | ShutdownStep

  /** What `Initialize` leaves behind, for `n` producer threads. */
  function Init(n: nat): State {
    State(seq(BUFFER_SIZE, i requires 0 <= i < BUFFER_SIZE => Slot(i, None)), 0, 0, 0, false, true,
          seq(n, _ => Producer(Outside, None)), FirstLoad, 0, None, NotCalled, [], [])
  }

  // ---------------------------------------------------------------- steps

  function At(s: State, p: nat, pc: ProducerPc): State
    requires p < |s.producers|
  {
    s.(producers := s.producers[p := s.producers[p].(pc := pc)])
  }

  /** `notify_one` makes a blocked worker compare the counter again. */
  function Woken(s: State): State {
    if s.worker == Blocked then s.(worker := Wait) else s
  }

  function StepProducer(s: State, p: nat, spurious: bool): Option<State>
    requires |s.slots| == BUFFER_SIZE && p < |s.producers|
  {
    var me := s.producers[p];
    match me.pc
    case Outside => None
    case LoadHead => Some(At(s, p, LoadSequence(s.head)))
    case LoadSequence(pos) =>
      var sequence := s.slots[SlotOf(pos)].sequence;
      Some(At(s, p, if sequence == pos then CompareExchange(pos)
                    else if sequence < pos then Yield
                    else LoadHead))
    case CompareExchange(pos) =>
      if s.head == pos && !spurious && me.message.Some? then
        Some(At(s, p, WriteMessage(pos)).(head := pos + 1, claimed := s.claimed + [Claim(p, me.message.value)]))
      else
        Some(At(s, p, LoadSequence(s.head)))
    case Yield => Some(At(s, p, LoadHead))
    case WriteMessage(t) =>
      var slot := s.slots[SlotOf(t)];
      Some(s.(slots := s.slots[SlotOf(t) := slot.(message := me.message)],
              producers := s.producers[p := Producer(Publish(t), None)]))
    case Publish(t) =>
      var slot := s.slots[SlotOf(t)];
      Some(At(s, p, AddCounter(t)).(slots := s.slots[SlotOf(t) := slot.(sequence := t + 1)]))
    case AddCounter(t) => Some(At(s, p, NotifyOne(t)).(counter := s.counter + 1))
    case NotifyOne(t) => Some(Woken(At(s, p, Outside)))
  }

  function StepWorker(s: State): Option<State>
    requires |s.slots| == BUFFER_SIZE
  {
    match s.worker
    case FirstLoad => Some(s.(observed := s.counter, worker := CheckStop))
    case CheckStop => Some(s.(worker := PopLoadTail(s.stop)))
    case PopLoadTail(final) => Some(s.(worker := PopLoadSequence(s.tail, final)))
    case PopLoadSequence(pos, final) =>
      if s.slots[SlotOf(pos)].sequence == pos + 1 then Some(s.(worker := StoreTail(pos, final)))
      else Some(s.(worker := if final then Exited else Wait))
    case StoreTail(pos, final) => Some(s.(tail := pos + 1, worker := ReadSlot(pos, final)))
    case ReadSlot(pos, final) =>
      var slot := s.slots[SlotOf(pos)];
      Some(s.(out := slot.message, slots := s.slots[SlotOf(pos) := slot.(message := None)],
              worker := ReleaseSlot(pos, final)))
    case ReleaseSlot(pos, final) =>
      var slot := s.slots[SlotOf(pos)];
      Some(s.(slots := s.slots[SlotOf(pos) := slot.(sequence := pos + BUFFER_SIZE)], worker := Process(final)))
    case Process(final) =>
      if s.out.Some? then
        Some(s.(processed := s.processed + [s.out.value], worker := PopLoadTail(final)))
      else None
    case Wait => Some(s.(worker := if s.counter == s.observed then Blocked else Reload))
    case Blocked => None
    case Reload => Some(s.(observed := s.counter, worker := CheckStop))
    case Exited => None
  }

  function StepShutdown(s: State): Option<State> {
    match s.shutdown
    case NotCalled => None
    case RequestStop => Some(s.(stop := true, shutdown := CountUp))
    case CountUp => Some(s.(counter := s.counter + 1, shutdown := WakeWorker))
    case WakeWorker => Some(Woken(s.(shutdown := Join)))
    case Join => if s.worker == Exited then Some(s.(shutdown := Closed)) else None
    case Closed => None
  }

  function Step(s: State, a: Action): (r: Option<State>)
    requires |s.slots| == BUFFER_SIZE
    ensures r.Some? ==> |r.value.slots| == BUFFER_SIZE && |r.value.producers| == |s.producers|
  {
    match a
    case Call(p, m) =>
      if p < |s.producers| && s.producers[p].pc == Outside then
        Some(s.(producers := s.producers[p := Producer(LoadHead, Some(m))]))
      else None
    case ProducerStep(p, spurious) => if p < |s.producers| then StepProducer(s, p, spurious) else None
    case WorkerStep => StepWorker(s)
    case SpuriousWake => if s.worker == Blocked then Some(s.(worker := Wait)) else None
    case CallShutdown =>
      if !s.running then Some(s)
      else if s.shutdown == NotCalled then Some(s.(running := false, shutdown := RequestStop))
      else None
    case ShutdownStep => StepShutdown(s)
  }

  /** The state after a schedule, if every action in it can be taken. */
  function Exec(s: State, schedule: seq<Action>): (r: Option<State>)
    requires |s.slots| == BUFFER_SIZE
    ensures r.Some? ==> |r.value.slots| == BUFFER_SIZE && |r.value.producers| == |s.producers|
    decreases |schedule|
  {
    if schedule == [] then Some(s)
    else
      var next := Step(s, schedule[0]);
      if next.None? then None else Exec(next.value, schedule[1..])
  }

  ghost predicate Reachable(s: State) {
    exists n: nat, schedule: seq<Action> :: Exec(Init(n), schedule) == Some(s)
  }

  // ---------------------------------------------------------------- what a state means

  /** Tickets below this have been copied out and their slots handed back. */
  function Released(s: State): int {
    if s.worker.ReadSlot? || s.worker.ReleaseSlot? then s.tail - 1 else s.tail
  }

  function Messages(claims: seq<Claim>): (r: seq<Message>)
    ensures |r| == |claims|
  {
    seq(|claims|, i requires 0 <= i < |claims| => claims[i].message)
  }

  function OwnerPc(s: State, t: nat): ProducerPc
    requires t < |s.claimed|
  {
    var p := s.claimed[t].producer;
    if p < |s.producers| then s.producers[p].pc else Outside
  }

  predicate Unpublished(s: State, t: nat) {
    t < |s.claimed| && (OwnerPc(s, t) == WriteMessage(t) || OwnerPc(s, t) == Publish(t))
  }

  /** The message has been claimed but the wake-up counter does not show it yet. */
  predicate Uncounted(s: State, t: nat) {
    Unpublished(s, t) || (t < |s.claimed| && OwnerPc(s, t) == AddCounter(t))
  }

  predicate InProgress(s: State, t: nat) {
    Uncounted(s, t) || (t < |s.claimed| && OwnerPc(s, t) == NotifyOne(t))
  }

  predicate Returned(s: State, t: nat) {
    t < |s.claimed| && !InProgress(s, t)
  }

  // ---------------------------------------------------------------- the invariant

  ghost predicate SlotOk(s: State, t: nat)
    requires |s.slots| == BUFFER_SIZE && s.head == |s.claimed|
  {
    var slot := s.slots[SlotOf(t)];
    if t >= s.head then slot.sequence == t
    else if Unpublished(s, t) then
      slot.sequence == t && (OwnerPc(s, t) == Publish(t) ==> slot.message == Some(s.claimed[t].message))
    else
      slot.sequence == t + 1
      && (t != Released(s) || !s.worker.ReleaseSlot? ==> slot.message == Some(s.claimed[t].message))
  }

  ghost predicate SlotsOk(s: State) {
    && |s.slots| == BUFFER_SIZE
    && 0 <= Released(s) <= s.head <= Released(s) + BUFFER_SIZE
    && s.head == |s.claimed|
    && forall t: nat :: Released(s) <= t < Released(s) + BUFFER_SIZE ==> SlotOk(s, t)
  }

  ghost predicate ProducerOk(s: State, p: nat)
    requires p < |s.producers|
  {
    var me := s.producers[p];
    match me.pc
    case Outside => true
    case LoadHead => me.message.Some?
    case Yield => me.message.Some?
    case LoadSequence(pos) => me.message.Some? && pos <= s.head
    case CompareExchange(pos) => me.message.Some? && pos <= s.head && pos < Released(s) + BUFFER_SIZE
    case WriteMessage(t) => s.tail <= t < |s.claimed| && me.message.Some? && s.claimed[t] == Claim(p, me.message.value)
    case Publish(t) => s.tail <= t < |s.claimed| && s.claimed[t].producer == p
    case AddCounter(t) => t < |s.claimed| && s.claimed[t].producer == p
    case NotifyOne(t) => t < |s.claimed| && s.claimed[t].producer == p
  }

  ghost predicate ProducersOk(s: State) {
    forall p :: 0 <= p < |s.producers| ==> ProducerOk(s, p)
  }

  /** How many messages the worker has finished with. */
  function Finished(s: State): int {
    if s.worker.ReadSlot? || s.worker.ReleaseSlot? || s.worker.Process? then s.tail - 1 else s.tail
  }

  ghost predicate WorkerOk(s: State) {
    && 0 <= Finished(s) <= |s.claimed|
    && s.processed == Messages(s.claimed[..Finished(s)])
    && (s.worker.PopLoadSequence? ==> s.worker.pos == s.tail)
    && (s.worker.StoreTail? ==> s.worker.pos == s.tail < s.head && !Unpublished(s, s.tail))
    && (s.worker.ReadSlot? || s.worker.ReleaseSlot? || s.worker.Process? ==>
          1 <= s.tail <= |s.claimed| && !Unpublished(s, s.tail - 1))
    && (s.worker.ReadSlot? || s.worker.ReleaseSlot? ==> s.worker.pos == s.tail - 1)
    && (s.worker.ReleaseSlot? || s.worker.Process? ==> s.out == Some(s.claimed[s.tail - 1].message))
  }

  /** The worker sleeps only while the front of the queue is empty or still being pushed. */
  ghost predicate WakeOk(s: State) {
    && s.observed <= s.counter
    && (s.worker == Wait || s.worker == Blocked ==>
          s.counter == s.observed && s.tail < s.head ==> Uncounted(s, s.tail))
    && (s.worker == Blocked && s.tail < s.head ==> InProgress(s, s.tail))
  }

  predicate InMainLoop(w: WorkerPc) {
    match w
    case PopLoadTail(final) => !final
    case PopLoadSequence(_, final) => !final
    case StoreTail(_, final) => !final
    case ReadSlot(_, final) => !final
    case ReleaseSlot(_, final) => !final
    case Process(final) => !final
    case Wait => true
    case Blocked => true
    case _ => false
  }

  predicate InFinalDrain(w: WorkerPc) {
    match w
    case PopLoadTail(final) => final
    case PopLoadSequence(_, final) => final
    case StoreTail(_, final) => final
    case ReadSlot(_, final) => final
    case ReleaseSlot(_, final) => final
    case Process(final) => final
    case Exited => true
    case _ => false
  }

  ghost predicate ShutdownOk(s: State) {
    && (s.running <==> s.shutdown == NotCalled)
    && (s.stop <==> s.shutdown != NotCalled && s.shutdown != RequestStop)
    && (InFinalDrain(s.worker) ==> s.stop)
    && (InMainLoop(s.worker) && (s.shutdown == WakeWorker || s.shutdown == Join || s.shutdown == Closed) ==>
          s.observed < s.counter)
    && (s.shutdown == Join || s.shutdown == Closed ==> s.worker != Blocked)
    && (s.shutdown == Closed ==> s.worker == Exited)
  }

  ghost predicate Inv(s: State) {
    SlotsOk(s) && ProducersOk(s) && WorkerOk(s) && WakeOk(s) && ShutdownOk(s)
  }

  // ---------------------------------------------------------------- arithmetic of the window

  lemma WindowDistinct(t: nat, u: nat)
    requires t < u < t + BUFFER_SIZE
    ensures SlotOf(t) != SlotOf(u)
  {
  }

  lemma SlotOfSum(k: nat, r: nat)
    requires r < BUFFER_SIZE
    ensures SlotOf(k * BUFFER_SIZE + r) == r
  {
  }

  /** Which ticket of the window of `BUFFER_SIZE` tickets starting at `base` uses the slot of `pos`. */
  lemma WindowTicket(base: nat, pos: nat) returns (t: nat)
    ensures base <= t < base + BUFFER_SIZE && SlotOf(t) == SlotOf(pos)
    ensures base <= pos < base + BUFFER_SIZE ==> t == pos
  {
    if base <= pos < base + BUFFER_SIZE {
      t := pos;
    } else {
      var k, r := base / BUFFER_SIZE, SlotOf(pos);
      t := k * BUFFER_SIZE + r;
      SlotOfSum(k, r);
      if t < base {
        t := (k + 1) * BUFFER_SIZE + r;
        SlotOfSum(k + 1, r);
      }
    }
  }

  // ---------------------------------------------------------------- the invariant is inductive

  lemma InitInv(n: nat)
    ensures Inv(Init(n))
  {
  }

  // A step that leaves a part of the state alone keeps the part of the invariant that reads it.

  ghost predicate SamePublication(s: State, s': State) {
    |s.claimed| <= |s'.claimed| &&
    forall t: nat :: t < |s.claimed| ==>
      Unpublished(s', t) == Unpublished(s, t) && (OwnerPc(s', t) == Publish(t) <==> OwnerPc(s, t) == Publish(t))
  }

  lemma SlotsFrame(s: State, s': State)
    requires SlotsOk(s) && SamePublication(s, s')
    requires s'.slots == s.slots && s'.head == s.head && s'.claimed == s.claimed
    requires Released(s') == Released(s) && s'.worker.ReleaseSlot? == s.worker.ReleaseSlot?
    ensures SlotsOk(s')
  {
    forall t: nat | Released(s') <= t < Released(s') + BUFFER_SIZE ensures SlotOk(s', t) {
      assert SlotOk(s, t);
      assert t < |s.claimed| ==> Unpublished(s', t) == Unpublished(s, t);
    }
  }

  lemma ProducersFrame(s: State, s': State, p: nat)
    requires ProducersOk(s)
    requires |s'.producers| == |s.producers|
    requires forall q :: 0 <= q < |s.producers| && q != p ==> s'.producers[q] == s.producers[q]
    requires p < |s.producers| ==> ProducerOk(s', p)
    requires s.claimed <= s'.claimed && s.head <= s'.head && s'.tail == s.tail && Released(s) <= Released(s')
    ensures ProducersOk(s')
  {
    forall q | 0 <= q < |s'.producers| ensures ProducerOk(s', q) {
      assert ProducerOk(s, q);
    }
  }

  ghost predicate SameWorker(s: State, s': State) {
    && s'.worker == s.worker && s'.tail == s.tail && s'.observed == s.observed && s'.out == s.out
    && s'.processed == s.processed && s'.stop == s.stop && s'.running == s.running && s'.shutdown == s.shutdown
  }

  /** A producer moves between program points where it holds no unpublished ticket. */
  lemma QuietProducer(s: State, p: nat, s': State)
    requires Inv(s) && p < |s.producers| && SameWorker(s, s')
    requires s'.slots == s.slots && s'.head == s.head && s'.claimed == s.claimed && s'.counter == s.counter
    requires |s'.producers| == |s.producers|
    requires forall q :: 0 <= q < |s.producers| && q != p ==> s'.producers[q] == s.producers[q]
    requires ProducerOk(s', p)
    requires s.producers[p].pc in {Outside, LoadHead, Yield} || s.producers[p].pc.LoadSequence?
             || s.producers[p].pc.CompareExchange?
    requires s'.producers[p].pc in {LoadHead, Yield} || s'.producers[p].pc.LoadSequence?
             || s'.producers[p].pc.CompareExchange?
    ensures Inv(s')
  {
    forall t: nat | t < |s.claimed| ensures s.claimed[t].producer != p ==> OwnerPc(s', t) == OwnerPc(s, t) {}
    assert SamePublication(s, s');
    SlotsFrame(s, s');
    ProducersFrame(s, s', p);
  }

  lemma CallInv(s: State, p: nat, m: Message, s': State)
    requires Inv(s) && Step(s, Call(p, m)) == Some(s')
    ensures Inv(s')
  {
    QuietProducer(s, p, s');
  }

  /** Loading `head_`, loading a sequence number, yielding, and a failed compare-exchange. */
  lemma ProducerLocalInv(s: State, p: nat, spurious: bool, s': State)
    requires Inv(s) && p < |s.producers| && StepProducer(s, p, spurious) == Some(s')
    requires s.producers[p].pc in {LoadHead, Yield} || s.producers[p].pc.LoadSequence?
             || (s.producers[p].pc.CompareExchange? && s'.head == s.head)
    ensures Inv(s')
  {
    assert ProducerOk(s, p);
    if s.producers[p].pc.LoadSequence? {
      var t := WindowTicket(Released(s), s.producers[p].pc.pos);
      assert SlotOk(s, t);
    }
    QuietProducer(s, p, s');
  }

  lemma ClaimSlots(s: State, p: nat, s': State)
    requires SlotsOk(s) && ProducersOk(s) && p < |s.producers| && StepProducer(s, p, false) == Some(s')
    requires s.producers[p].pc.CompareExchange? && s'.head != s.head
    ensures SlotsOk(s') && SamePublication(s, s')
  {
    assert ProducerOk(s, p);
    assert forall t: nat :: t < |s.claimed| ==> s'.claimed[t] == s.claimed[t];
    assert SamePublication(s, s');
    forall t: nat | Released(s') <= t < Released(s') + BUFFER_SIZE ensures SlotOk(s', t) {
      assert SlotOk(s, t);
      assert t < |s.claimed| ==> Unpublished(s', t) == Unpublished(s, t);
    }
  }

  lemma ClaimInv(s: State, p: nat, s': State)
    requires Inv(s) && p < |s.producers| && StepProducer(s, p, false) == Some(s')
    requires s.producers[p].pc.CompareExchange? && s'.head != s.head
    ensures Inv(s')
  {
    hide SlotOk;
    hide WorkerOk;
    hide WakeOk;
    TailBehindHead(s);
    assert ProducerOk(s, p);
    ClaimSlots(s, p, s');
    ClaimRest(s, p, s');
    ProducersFrame(s, s', p);
  }

  lemma TailBehindHead(s: State)
    requires Inv(s)
    ensures s.tail <= s.head
  {
  }

  lemma ClaimRest(s: State, p: nat, s': State)
    requires s.head == |s.claimed| && |s.slots| == BUFFER_SIZE && WorkerOk(s) && WakeOk(s)
    requires p < |s.producers| && StepProducer(s, p, false) == Some(s') && ProducerOk(s, p)
    requires s.producers[p].pc.CompareExchange? && s'.head != s.head && SamePublication(s, s')
    ensures WorkerOk(s') && WakeOk(s')
  {
    assert s'.head == s.head + 1 && s'.claimed == s.claimed + [Claim(p, s.producers[p].message.value)] && SameWorker(s, s');
    assert s'.counter == s.counter && OwnerPc(s', s.head) == WriteMessage(s.head);
    hide StepProducer;
    hide OwnerPc;
    ClaimWorker(s, s');
    ClaimWake(s, p, s');
  }

  lemma ClaimWorker(s: State, s': State)
    requires WorkerOk(s) && SameWorker(s, s') && SamePublication(s, s') && s'.head == s.head + 1 && s.head == |s.claimed|
    requires s.claimed < s'.claimed && |s'.claimed| == |s.claimed| + 1
    ensures WorkerOk(s')
  {
    assert s'.claimed[..Finished(s)] == s.claimed[..Finished(s)];
    assert forall t: nat :: t < |s.claimed| ==> s'.claimed[t] == s.claimed[t];
  }

  /** The new ticket is the front of the queue only if the queue was empty; then it is not counted yet. */
  lemma ClaimWake(s: State, p: nat, s': State)
    requires WakeOk(s) && SameWorker(s, s') && s'.counter == s.counter && s.head == |s.claimed| && s'.head == s.head + 1
    requires p < |s.producers| && s.producers[p].pc.CompareExchange? && |s'.producers| == |s.producers|
    requires forall q :: 0 <= q < |s.producers| && q != p ==> s'.producers[q] == s.producers[q]
    requires s'.producers[p].pc == WriteMessage(s.head)
    requires s.claimed < s'.claimed && |s'.claimed| == |s.claimed| + 1 && s'.claimed[s.head].producer == p
    ensures WakeOk(s')
  {
    assert forall t: nat :: t < |s.claimed| ==> s'.claimed[t] == s.claimed[t];
  }

  lemma WriteInv(s: State, p: nat, spurious: bool, s': State)
    requires Inv(s) && p < |s.producers| && StepProducer(s, p, spurious) == Some(s')
    requires s.producers[p].pc.WriteMessage?
    ensures Inv(s')
  {
    assert ProducerOk(s, p);
    var t0 := s.producers[p].pc.ticket;
    forall t: nat | Released(s') <= t < Released(s') + BUFFER_SIZE ensures SlotOk(s', t) {
      assert SlotOk(s, t);
      if t < t0 { WindowDistinct(t, t0); } else if t0 < t { WindowDistinct(t0, t); }
    }
    ProducersFrame(s, s', p);
  }

  lemma PublishInv(s: State, p: nat, spurious: bool, s': State)
    requires Inv(s) && p < |s.producers| && StepProducer(s, p, spurious) == Some(s')
    requires s.producers[p].pc.Publish?
    ensures Inv(s')
  {
    assert ProducerOk(s, p);
    var t0 := s.producers[p].pc.ticket;
    forall t: nat | Released(s') <= t < Released(s') + BUFFER_SIZE ensures SlotOk(s', t) {
      assert SlotOk(s, t);
      if t < t0 { WindowDistinct(t, t0); } else if t0 < t { WindowDistinct(t0, t); }
    }
    ProducersFrame(s, s', p);
  }

  lemma NotifyInv(s: State, p: nat, spurious: bool, s': State)
    requires Inv(s) && p < |s.producers| && StepProducer(s, p, spurious) == Some(s')
    requires s.producers[p].pc.AddCounter? || s.producers[p].pc.NotifyOne?
    ensures Inv(s')
  {
    NotifySlots(s, p, spurious, s');
    NotifyRest(s, p, spurious, s');
  }

  lemma NotifySlots(s: State, p: nat, spurious: bool, s': State)
    requires SlotsOk(s) && ProducersOk(s) && p < |s.producers| && StepProducer(s, p, spurious) == Some(s')
    requires s.producers[p].pc.AddCounter? || s.producers[p].pc.NotifyOne?
    ensures SlotsOk(s') && ProducersOk(s')
  {
    hide SlotOk;
    assert ProducerOk(s, p);
    assert SamePublication(s, s');
    SlotsFrame(s, s');
    ProducersFrame(s, s', p);
  }

  lemma NotifyRest(s: State, p: nat, spurious: bool, s': State)
    requires |s.slots| == BUFFER_SIZE && ProducersOk(s) && WorkerOk(s) && WakeOk(s) && ShutdownOk(s)
    requires p < |s.producers| && StepProducer(s, p, spurious) == Some(s')
    requires s.producers[p].pc.AddCounter? || s.producers[p].pc.NotifyOne?
    ensures WorkerOk(s') && WakeOk(s') && ShutdownOk(s')
  {
    assert ProducerOk(s, p);
    NotifyWorker(s, p, spurious, s');
    NotifyShutdown(s, p, spurious, s');
    if s.producers[p].pc.AddCounter? { CountWake(s, p, spurious, s'); } else { NotifyWake(s, p, spurious, s'); }
  }

  /** Neither step publishes a ticket, or takes one back. */
  lemma NotifyPublishes(s: State, p: nat, spurious: bool, s': State, t: nat)
    requires |s.slots| == BUFFER_SIZE && p < |s.producers| && ProducerOk(s, p)
    requires StepProducer(s, p, spurious) == Some(s')
    requires s.producers[p].pc.AddCounter? || s.producers[p].pc.NotifyOne?
    ensures Unpublished(s', t) == Unpublished(s, t)
  {
  }

  lemma NotifyWorker(s: State, p: nat, spurious: bool, s': State)
    requires |s.slots| == BUFFER_SIZE && p < |s.producers| && ProducerOk(s, p) && WorkerOk(s)
    requires StepProducer(s, p, spurious) == Some(s')
    requires s.producers[p].pc.AddCounter? || s.producers[p].pc.NotifyOne?
    ensures WorkerOk(s')
  {
    hide Unpublished;
    NotifyPublishes(s, p, spurious, s', s.tail);
    if s.tail > 0 { NotifyPublishes(s, p, spurious, s', s.tail - 1); }
  }

  lemma NotifyShutdown(s: State, p: nat, spurious: bool, s': State)
    requires |s.slots| == BUFFER_SIZE && p < |s.producers| && ShutdownOk(s)
    requires StepProducer(s, p, spurious) == Some(s')
    requires s.producers[p].pc.AddCounter? || s.producers[p].pc.NotifyOne?
    ensures ShutdownOk(s')
  {
  }

  /** A counter that has gone up since the worker looked at it does not let it sleep. */
  lemma CountWake(s: State, p: nat, spurious: bool, s': State)
    requires |s.slots| == BUFFER_SIZE && p < |s.producers| && ProducerOk(s, p) && WakeOk(s)
    requires StepProducer(s, p, spurious) == Some(s') && s.producers[p].pc.AddCounter?
    ensures WakeOk(s')
  {
  }

  /** The worker it wakes looks at the counter again. */
  lemma NotifyWake(s: State, p: nat, spurious: bool, s': State)
    requires |s.slots| == BUFFER_SIZE && p < |s.producers| && ProducerOk(s, p) && WakeOk(s)
    requires StepProducer(s, p, spurious) == Some(s') && s.producers[p].pc.NotifyOne?
    ensures WakeOk(s')
  {
  }

  lemma ProducerInv(s: State, p: nat, spurious: bool, s': State)
    requires Inv(s) && p < |s.producers| && StepProducer(s, p, spurious) == Some(s')
    ensures Inv(s')
  {
    match s.producers[p].pc
    case WriteMessage(_) => WriteInv(s, p, spurious, s');
    case Publish(_) => PublishInv(s, p, spurious, s');
    case AddCounter(_) => NotifyInv(s, p, spurious, s');
    case NotifyOne(_) => NotifyInv(s, p, spurious, s');
    case CompareExchange(_) =>
      if s'.head == s.head { ProducerLocalInv(s, p, spurious, s'); } else { ClaimInv(s, p, s'); }
    case _ => ProducerLocalInv(s, p, spurious, s');
  }

  lemma LoadSequenceInv(s: State, s': State)
    requires Inv(s) && StepWorker(s) == Some(s')
    requires s.worker.PopLoadSequence?
    ensures Inv(s')
  {
    assert SlotOk(s, s.tail);
    assert SamePublication(s, s');
    SlotsFrame(s, s');
    ProducersFrame(s, s', |s.producers|);
  }

  lemma ProcessInv(s: State, s': State)
    requires Inv(s) && StepWorker(s) == Some(s')
    requires s.worker.Process?
    ensures Inv(s')
  {
    assert SamePublication(s, s');
    SlotsFrame(s, s');
    ProducersFrame(s, s', |s.producers|);
    assert s.claimed[..s.tail] == s.claimed[..s.tail - 1] + [s.claimed[s.tail - 1]];
  }

  /** Steps of the worker outside `Pop`. */
  lemma WorkerLocalInv(s: State, s': State)
    requires Inv(s) && StepWorker(s) == Some(s')
    requires s.worker in {FirstLoad, CheckStop, Wait, Reload} || s.worker.PopLoadTail?
    ensures Inv(s')
  {
    assert SamePublication(s, s');
    SlotsFrame(s, s');
    ProducersFrame(s, s', |s.producers|);
  }

  lemma StoreTailInv(s: State, s': State)
    requires Inv(s) && StepWorker(s) == Some(s')
    requires s.worker.StoreTail?
    ensures Inv(s')
  {
    assert SamePublication(s, s');
    SlotsFrame(s, s');
    forall q | 0 <= q < |s'.producers| ensures ProducerOk(s', q) {
      assert ProducerOk(s, q);
    }
  }

  lemma ReadInv(s: State, s': State)
    requires Inv(s) && StepWorker(s) == Some(s')
    requires s.worker.ReadSlot?
    ensures Inv(s')
  {
    var t0 := s.tail - 1;
    assert SlotOk(s, t0);
    forall t: nat | Released(s') <= t < Released(s') + BUFFER_SIZE ensures SlotOk(s', t) {
      assert SlotOk(s, t);
      if t0 < t { WindowDistinct(t0, t); }
    }
    ProducersFrame(s, s', |s.producers|);
  }

  lemma ReleaseInv(s: State, s': State)
    requires Inv(s) && StepWorker(s) == Some(s')
    requires s.worker.ReleaseSlot?
    ensures Inv(s')
  {
    var t0 := s.tail - 1;
    assert SlotOk(s, t0);
    forall t: nat | Released(s') <= t < Released(s') + BUFFER_SIZE ensures SlotOk(s', t) {
      if t < t0 + BUFFER_SIZE {
        assert SlotOk(s, t);
        WindowDistinct(t0, t);
      }
    }
    ProducersFrame(s, s', |s.producers|);
  }

  lemma WorkerInv(s: State, s': State)
    requires Inv(s) && StepWorker(s) == Some(s')
    ensures Inv(s')
  {
    match s.worker
    case ReadSlot(_, _) => ReadInv(s, s');
    case ReleaseSlot(_, _) => ReleaseInv(s, s');
    case StoreTail(_, _) => StoreTailInv(s, s');
    case PopLoadSequence(_, _) => LoadSequenceInv(s, s');
    case Process(_) => ProcessInv(s, s');
    case _ => WorkerLocalInv(s, s');
  }

  lemma ControlInv(s: State, a: Action, s': State)
    requires Inv(s) && Step(s, a) == Some(s')
    requires a.SpuriousWake? || a.CallShutdown? || a.ShutdownStep?
    ensures Inv(s')
  {
    assert SamePublication(s, s');
    SlotsFrame(s, s');
    ProducersFrame(s, s', |s.producers|);
  }

  lemma StepInv(s: State, a: Action, s': State)
    requires Inv(s) && Step(s, a) == Some(s')
    ensures Inv(s')
  {
    match a
    case Call(p, m) => CallInv(s, p, m, s');
    case ProducerStep(p, spurious) => ProducerInv(s, p, spurious, s');
    case WorkerStep => WorkerInv(s, s');
    case _ => ControlInv(s, a, s');
  }

  lemma {:induction false} ExecInv(s: State, schedule: seq<Action>, s': State)
    requires Inv(s) && Exec(s, schedule) == Some(s')
    ensures Inv(s')
    decreases |schedule|
  {
    hide Step;
    if schedule == [] {
    } else {
      var next := Step(s, schedule[0]).value;
      StepInv(s, schedule[0], next);
      ExecInv(next, schedule[1..], s');
    }
  }

  lemma ReachableInv(s: State)
    requires Reachable(s)
    ensures Inv(s)
  {
    var n: nat, schedule: seq<Action> :| Exec(Init(n), schedule) == Some(s);
    InitInv(n);
    ExecInv(Init(n), schedule, s);
  }

  // ---------------------------------------------------------------- order and exactly once

  /** The worker has handled exactly the messages of tickets `0, 1, ..., n - 1`, in that order. */
  lemma ProcessedInTicketOrder(s: State)
    requires Reachable(s)
    ensures s.processed <= Messages(s.claimed)
    ensures s.worker != Exited && !s.worker.ReadSlot? && !s.worker.ReleaseSlot? && !s.worker.Process?
            ==> |s.processed| == s.tail
  {
    ReachableInv(s);
    assert Messages(s.claimed[..Finished(s)]) == Messages(s.claimed)[..Finished(s)];
  }

  /** The messages producer `p` has won tickets for, in ticket order. */
  function ClaimedBy(claims: seq<Claim>, p: nat): seq<Message> {
    if claims == [] then []
    else
      var last := claims[|claims| - 1];
      ClaimedBy(claims[..|claims| - 1], p) + (if last.producer == p then [last.message] else [])
  }

  /** The message producer `p` is still trying to place, if any. */
  function Unclaimed(s: State, p: nat): seq<Message> {
    if p < |s.producers| && s.producers[p].message.Some? && !s.producers[p].pc.WriteMessage? then
      [s.producers[p].message.value]
    else []
  }

  /** The messages producer `p` passes to `PushAndNotify` during a schedule. */
  function Calls(schedule: seq<Action>, p: nat): seq<Message> {
    if schedule == [] then []
    else (if schedule[0].Call? && schedule[0].p == p then [schedule[0].message] else []) + Calls(schedule[1..], p)
  }

  ghost predicate MessageHeld(s: State) {
    forall p :: 0 <= p < |s.producers| ==>
      (s.producers[p].message.Some? <==>
         s.producers[p].pc in {LoadHead, Yield} || s.producers[p].pc.LoadSequence?
         || s.producers[p].pc.CompareExchange? || s.producers[p].pc.WriteMessage?)
  }

  lemma CallKeeps(s: State, q: nat, m: Message, s': State, p: nat)
    requires MessageHeld(s) && |s.slots| == BUFFER_SIZE && Step(s, Call(q, m)) == Some(s')
    ensures MessageHeld(s') && s'.claimed == s.claimed
    ensures Unclaimed(s', p) == Unclaimed(s, p) + (if q == p then [m] else [])
  {
  }

  lemma ClaimKeeps(s: State, q: nat, s': State, p: nat)
    requires MessageHeld(s) && |s.slots| == BUFFER_SIZE && q < |s.producers|
    requires StepProducer(s, q, false) == Some(s') && s'.claimed != s.claimed
    ensures MessageHeld(s')
    ensures ClaimedBy(s'.claimed, p) + Unclaimed(s', p) == ClaimedBy(s.claimed, p) + Unclaimed(s, p)
  {
    assert s'.claimed[..|s'.claimed| - 1] == s.claimed;
  }

  lemma ProducerKeeps(s: State, q: nat, spurious: bool, s': State, p: nat)
    requires MessageHeld(s) && |s.slots| == BUFFER_SIZE && q < |s.producers|
    requires StepProducer(s, q, spurious) == Some(s') && s'.claimed == s.claimed
    ensures MessageHeld(s') && Unclaimed(s', p) == Unclaimed(s, p)
  {
    hide SlotOf;
    assert forall r :: 0 <= r < |s.producers| && r != q ==> s'.producers[r] == s.producers[r];
  }

  lemma StepCalls(s: State, a: Action, s': State, p: nat)
    requires Inv(s) && MessageHeld(s) && Step(s, a) == Some(s')
    ensures MessageHeld(s')
    ensures ClaimedBy(s'.claimed, p) + Unclaimed(s', p)
            == ClaimedBy(s.claimed, p) + Unclaimed(s, p) + Calls([a], p)
  {
    match a
    case Call(q, m) => CallKeeps(s, q, m, s', p);
    case ProducerStep(q, spurious) =>
      if s'.claimed != s.claimed { ClaimKeeps(s, q, s', p); } else { ProducerKeeps(s, q, spurious, s', p); }
    case _ =>
      assert s'.producers == s.producers && s'.claimed == s.claimed;
  }

  lemma {:induction false} ExecCalls(s: State, schedule: seq<Action>, s': State, p: nat)
    requires Inv(s) && MessageHeld(s) && Exec(s, schedule) == Some(s')
    ensures MessageHeld(s')
    ensures ClaimedBy(s'.claimed, p) + Unclaimed(s', p)
            == ClaimedBy(s.claimed, p) + Unclaimed(s, p) + Calls(schedule, p)
    decreases |schedule|
  {
    hide Step;
    hide Inv;
    hide MessageHeld;
    hide ClaimedBy;
    hide Unclaimed;
    InvSize(s);
    if schedule == [] {
      assert ClaimedBy(s.claimed, p) + Unclaimed(s, p) + [] == ClaimedBy(s.claimed, p) + Unclaimed(s, p);
    } else {
      var next := Step(s, schedule[0]).value;
      StepInv(s, schedule[0], next);
      InvSize(next);
      StepCalls(s, schedule[0], next, p);
      ExecCalls(next, schedule[1..], s', p);
      CallsCons(schedule, p);
      Associate(ClaimedBy(s.claimed, p) + Unclaimed(s, p), Calls([schedule[0]], p), Calls(schedule[1..], p));
    }
  }

  lemma InvSize(s: State)
    requires Inv(s)
    ensures |s.slots| == BUFFER_SIZE
  {
  }

  lemma CallsCons(schedule: seq<Action>, p: nat)
    requires schedule != []
    ensures Calls(schedule, p) == Calls([schedule[0]], p) + Calls(schedule[1..], p)
  {
    assert [schedule[0]][1..] == [];
  }

  lemma Associate(a: seq<Message>, b: seq<Message>, c: seq<Message>)
    ensures (a + b) + c == a + (b + c)
  {
  }

  /** Over any run, each call of `PushAndNotify` wins exactly one ticket: once no producer is
      inside, the tickets of `p` carry the messages `p` pushed, each once and in its order. */
  lemma EachCallWinsOneTicket(n: nat, schedule: seq<Action>, s: State, p: nat)
    requires Exec(Init(n), schedule) == Some(s)
    requires p < n ==> s.producers[p].pc == Outside
    ensures ClaimedBy(s.claimed, p) == Calls(schedule, p)
  {
    InitInv(n);
    ExecCalls(Init(n), schedule, s, p);
    assert ClaimedBy([], p) + Unclaimed(Init(n), p) == [];
    assert MessageHeld(Init(n));
    assert Unclaimed(s, p) == [];
    assert ClaimedBy(s.claimed, p) + [] == ClaimedBy(s.claimed, p);
    assert [] + Calls(schedule, p) == Calls(schedule, p);
  }

  // ---------------------------------------------------------------- access to a slot

  /** While a producer writes a slot, the slot has been handed back by the worker, the worker is
      not touching it, and no other producer is writing it. */
  lemma WriterIsAlone(s: State, p: nat)
    requires Reachable(s) && p < |s.producers| && s.producers[p].pc.WriteMessage?
    ensures var i := SlotOf(s.producers[p].pc.ticket);
            && s.slots[i].sequence == s.producers[p].pc.ticket
            && (s.worker.ReadSlot? || s.worker.ReleaseSlot? ==> SlotOf(s.worker.pos) != i)
            && forall q :: 0 <= q < |s.producers| && q != p && s.producers[q].pc.WriteMessage?
                 ==> SlotOf(s.producers[q].pc.ticket) != i
  {
    ReachableInv(s);
    var t := s.producers[p].pc.ticket;
    assert ProducerOk(s, p) && SlotOk(s, t);
    if s.worker.ReadSlot? || s.worker.ReleaseSlot? {
      WindowDistinct(s.worker.pos, t);
    }
    forall q | 0 <= q < |s.producers| && q != p && s.producers[q].pc.WriteMessage?
      ensures SlotOf(s.producers[q].pc.ticket) != SlotOf(t)
    {
      assert ProducerOk(s, q);
      var u := s.producers[q].pc.ticket;
      if t < u { WindowDistinct(t, u); } else { WindowDistinct(u, t); }
    }
  }

  /** When the worker reads a slot, it finds the message of the ticket it is at, published. */
  lemma ReaderSeesItsTicket(s: State)
    requires Reachable(s) && s.worker.ReadSlot?
    ensures s.worker.pos < |s.claimed| && !Unpublished(s, s.worker.pos)
    ensures s.slots[SlotOf(s.worker.pos)] == Slot(s.worker.pos + 1, Some(s.claimed[s.worker.pos].message))
  {
    ReachableInv(s);
    assert SlotOk(s, s.tail - 1);
  }

  /** `Push` gives up exactly when it looks at the current head of a full buffer, and then still
      holds its message. */
  lemma PushFailsOnlyWhenFull(s: State, p: nat, s': State)
    requires Reachable(s) && Step(s, ProducerStep(p, false)) == Some(s')
    requires s.producers[p].pc.LoadSequence?
    ensures s'.producers[p].pc == Yield
            <==> s.producers[p].pc.pos == s.head && |s.claimed| - Released(s) == BUFFER_SIZE
    ensures s'.producers[p].message == s.producers[p].message && s'.producers[p].message.Some?
    ensures s'.slots == s.slots && s'.claimed == s.claimed
  {
    ReachableInv(s);
    assert ProducerOk(s, p);
    var t := WindowTicket(Released(s), s.producers[p].pc.pos);
    assert SlotOk(s, t);
  }

  // ---------------------------------------------------------------- a push comes back

  /** Producer `p` is inside `PushAndNotify` and has no ticket yet. */
  predicate BeforeClaim(s: State, p: nat) {
    && p < |s.producers|
    && (s.producers[p].pc in {LoadHead, Yield} || s.producers[p].pc.LoadSequence? || s.producers[p].pc.CompareExchange?)
  }

  predicate HasRoom(s: State) {
    s.head < Released(s) + BUFFER_SIZE
  }

  /** `k` steps of one producer, none of which fails for no reason. */
  function Alone(p: nat, k: nat): (r: seq<Action>)
    ensures |r| == k && forall i :: 0 <= i < k ==> r[i] == ProducerStep(p, false)
  {
    seq(k, _ => ProducerStep(p, false))
  }

  lemma AloneStep(s: State, p: nat, k: nat, mid: State, s': State)
    requires |s.slots| == BUFFER_SIZE && Step(s, ProducerStep(p, false)) == Some(mid) && Exec(mid, Alone(p, k)) == Some(s')
    ensures Exec(s, Alone(p, k + 1)) == Some(s')
  {
    hide Step;
    assert Alone(p, k + 1)[1..] == Alone(p, k);
  }

  /** With room, every step before the claim comes closer to it, and changes nothing but the program point. */
  function StepsToClaim(s: State, p: nat): nat
    requires p < |s.producers|
  {
    match s.producers[p].pc
    case LoadSequence(pos) => if pos == s.head then 2 else 4
    case CompareExchange(pos) => if pos == s.head then 1 else 3
    case LoadHead => 3
    case Yield => 4
    case _ => 0
  }

  lemma ComesCloser(s: State, p: nat) returns (s': State)
    requires Inv(s) && BeforeClaim(s, p) && HasRoom(s) && s.producers[p].pc != CompareExchange(s.head)
    ensures Step(s, ProducerStep(p, false)) == Some(s') && Inv(s') && BeforeClaim(s', p)
    ensures s' == At(s, p, s'.producers[p].pc) && StepsToClaim(s', p) < StepsToClaim(s, p)
  {
    assert ProducerOk(s, p);
    assert SlotOk(s, s.head);
    if s.producers[p].pc.LoadSequence? {
      var t := WindowTicket(Released(s), s.producers[p].pc.pos);
      assert SlotOk(s, t);
    }
    s' := Step(s, ProducerStep(p, false)).value;
    StepInv(s, ProducerStep(p, false), s');
  }

  lemma {:induction false} ReachesExchange(s: State, p: nat) returns (k: nat, s': State)
    requires Inv(s) && BeforeClaim(s, p) && HasRoom(s)
    ensures |s.slots| == BUFFER_SIZE && k + 1 <= StepsToClaim(s, p) && Exec(s, Alone(p, k)) == Some(s')
    ensures Inv(s') && s' == At(s, p, CompareExchange(s.head)) && s.producers[p].message.Some?
    decreases StepsToClaim(s, p)
  {
    hide Step;
    hide SlotOk;
    assert ProducerOk(s, p);
    if s.producers[p].pc == CompareExchange(s.head) {
      k, s' := 0, s;
      assert s.producers[p := s.producers[p].(pc := CompareExchange(s.head))] == s.producers;
      assert Exec(s, Alone(p, 0)) == Some(s);
    } else {
      var next := ComesCloser(s, p);
      k, s' := ReachesExchange(next, p);
      AloneStep(s, p, k, next, s');
      k := k + 1;
      assert s'.producers == s.producers[p := s.producers[p].(pc := CompareExchange(s.head))];
    }
  }

  /** The state a finished push leaves behind: the next ticket, its message in its slot, and a worker that looks again. */
  function Pushed(s: State, p: nat): State
    requires |s.slots| == BUFFER_SIZE && p < |s.producers| && s.producers[p].message.Some?
  {
    var m := s.producers[p].message;
    Woken(s.(head := s.head + 1, claimed := s.claimed + [Claim(p, m.value)], counter := s.counter + 1,
             slots := s.slots[SlotOf(s.head) := Slot(s.head + 1, m)],
             producers := s.producers[p := Producer(Outside, None)]))
  }

  lemma Pushes(s: State, p: nat) returns (s': State)
    requires |s.slots| == BUFFER_SIZE && p < |s.producers| && s.producers[p].message.Some?
    requires s.producers[p].pc == CompareExchange(s.head)
    ensures s' == Pushed(s, p) && Exec(s, Alone(p, 5)) == Some(s')
  {
    hide Step;
    hide Exec;
    hide SlotOf;
    var s1, s2, s3 := ClaimsAndWrites(s, p);
    var s4;
    s4, s' := Announces(s3, p, s.head);
    assert s3.producers[p := Producer(Outside, None)] == s.producers[p := Producer(Outside, None)];
    ExecNothing(s');
    AloneStep(s4, p, 0, s', s');
    AloneStep(s3, p, 1, s4, s');
    AloneStep(s2, p, 2, s3, s');
    AloneStep(s1, p, 3, s2, s');
    AloneStep(s, p, 4, s1, s');
  }

  lemma ClaimsAndWrites(s: State, p: nat) returns (s1: State, s2: State, s3: State)
    requires |s.slots| == BUFFER_SIZE && p < |s.producers| && s.producers[p].message.Some?
    requires s.producers[p].pc == CompareExchange(s.head)
    ensures |s1.slots| == |s2.slots| == |s3.slots| == BUFFER_SIZE
    ensures Step(s, ProducerStep(p, false)) == Some(s1) && Step(s1, ProducerStep(p, false)) == Some(s2)
    ensures Step(s2, ProducerStep(p, false)) == Some(s3)
    ensures s3 == s.(head := s.head + 1, claimed := s.claimed + [Claim(p, s.producers[p].message.value)],
                     slots := s.slots[SlotOf(s.head) := Slot(s.head + 1, s.producers[p].message)],
                     producers := s.producers[p := Producer(AddCounter(s.head), None)])
  {
    s1 := Step(s, ProducerStep(p, false)).value;
    s2 := Step(s1, ProducerStep(p, false)).value;
    s3 := Step(s2, ProducerStep(p, false)).value;
    assert s3.slots == s.slots[SlotOf(s.head) := Slot(s.head + 1, s.producers[p].message)];
    assert s3.producers == s.producers[p := Producer(AddCounter(s.head), None)];
  }

  lemma Announces(s: State, p: nat, t: nat) returns (s4: State, s': State)
    requires |s.slots| == BUFFER_SIZE && p < |s.producers| && s.producers[p] == Producer(AddCounter(t), None)
    ensures |s4.slots| == BUFFER_SIZE && Step(s, ProducerStep(p, false)) == Some(s4) && Step(s4, ProducerStep(p, false)) == Some(s')
    ensures s' == Woken(s.(counter := s.counter + 1, producers := s.producers[p := Producer(Outside, None)]))
  {
    hide SlotOf;
    s4 := Step(s, ProducerStep(p, false)).value;
    s' := Step(s4, ProducerStep(p, false)).value;
    assert s'.producers == s.producers[p := Producer(Outside, None)];
  }

  /** With room in the buffer, at most eight steps of the producer alone end its call, wherever in it the producer
      stands: it has won the next ticket for its message, published and announced it. */
  lemma PushComesBack(s: State, p: nat) returns (k: nat, s': State)
    requires Reachable(s) && BeforeClaim(s, p) && HasRoom(s)
    ensures |s.slots| == BUFFER_SIZE && k <= 8 && Exec(s, Alone(p, k)) == Some(s')
    ensures s.producers[p].message.Some? && s' == Pushed(s, p)
    ensures s'.producers[p].pc == Outside && s'.claimed == s.claimed + [Claim(p, s.producers[p].message.value)]
  {
    hide Step;
    hide Reachable;
    hide Inv;
    ReachableInv(s);
    var ahead, mid := ReachesExchange(s, p);
    s' := Pushes(mid, p);
    k := ahead + 5;
    ExecConcat(s, Alone(p, ahead), mid, Alone(p, 5), s');
    assert Alone(p, ahead) + Alone(p, 5) == Alone(p, k);
    assert s'.producers == s.producers[p := Producer(Outside, None)];
  }

  // ---------------------------------------------------------------- the front of the queue is handled

  lemma ExecCons(s: State, a: Action, mid: State, schedule: seq<Action>, s': State)
    requires |s.slots| == BUFFER_SIZE && Step(s, a) == Some(mid) && Exec(mid, schedule) == Some(s')
    ensures Exec(s, [a] + schedule) == Some(s')
  {
    hide Step;
    assert ([a] + schedule)[1..] == schedule;
  }

  function StepsToReturn(pc: ProducerPc): nat {
    match pc
    case WriteMessage(_) => 4
    case Publish(_) => 3
    case AddCounter(_) => 2
    case NotifyOne(_) => 1
    case _ => 0
  }

  /** Whoever holds a ticket can always go on, and is the only one to move. */
  lemma OwnerMoves(s: State, t: nat) returns (p: nat, s': State)
    requires Inv(s) && InProgress(s, t)
    ensures p == s.claimed[t].producer && p < |s.producers| && |s.slots| == BUFFER_SIZE
    ensures Step(s, ProducerStep(p, false)) == Some(s') && Inv(s')
    ensures s'.head == s.head && s'.claimed == s.claimed && s'.tail == s.tail && s'.processed == s.processed
    ensures s'.worker == s.worker || (s.worker == Blocked && s'.worker == Wait)
    ensures s.producers[p].pc != NotifyOne(t) ==> InProgress(s', t)
    ensures s.producers[p].pc == NotifyOne(t) ==> !InProgress(s', t) && s'.worker != Blocked
    ensures StepsToReturn(OwnerPc(s', t)) < StepsToReturn(OwnerPc(s, t)) <= 4
    ensures forall q :: 0 <= q < |s.producers| && q != p ==> s'.producers[q] == s.producers[q]
  {
    hide SlotOk;
    hide WorkerOk;
    hide WakeOk;
    hide ShutdownOk;
    p := s.claimed[t].producer;
    assert ProducerOk(s, p);
    s' := Step(s, ProducerStep(p, false)).value;
    StepInv(s, ProducerStep(p, false), s');
  }

  /** Left alone, the owner of a ticket returns; the worker is awake then. */
  lemma {:induction false} OwnerReturns(s: State, t: nat) returns (schedule: seq<Action>, s': State)
    requires Inv(s) && InProgress(s, t)
    ensures |s.slots| == BUFFER_SIZE && Exec(s, schedule) == Some(s') && Inv(s')
    ensures |schedule| <= StepsToReturn(OwnerPc(s, t)) <= 4
    ensures forall a :: a in schedule ==> a == ProducerStep(s.claimed[t].producer, false)
    ensures s'.head == s.head && s'.claimed == s.claimed && s'.tail == s.tail && s'.processed == s.processed
    ensures !InProgress(s', t) && s'.worker != Blocked && (s.worker != Exited ==> s'.worker != Exited)
    ensures |s'.producers| == |s.producers|
    ensures forall q :: 0 <= q < |s.producers| && q != s.claimed[t].producer ==> s'.producers[q] == s.producers[q]
    decreases StepsToReturn(OwnerPc(s, t))
  {
    hide Step;
    hide Inv;
    InvSize(s);
    var p, next := OwnerMoves(s, t);
    var rest;
    if s.producers[p].pc == NotifyOne(t) {
      rest, s' := [], next;
      assert Exec(next, []) == Some(next);
    } else {
      rest, s' := OwnerReturns(next, t);
    }
    ExecCons(s, ProducerStep(p, false), next, rest, s');
    schedule := [ProducerStep(p, false)] + rest;
  }

  /** The worker is on its way to ticket `t`, which is announced, or has it in its hands. */
  ghost predicate WorksOn(s: State, t: nat) {
    && s.worker != Exited && s.worker != Blocked
    && ((s.tail == t < s.head && !InProgress(s, t))
        || (s.tail == t + 1 && (s.worker.ReadSlot? || s.worker.ReleaseSlot? || s.worker.Process?)))
  }

  /** How far the worker is from having handled it. */
  function StepsToHandle(s: State, t: nat): nat {
    match s.worker
    case ReadSlot(_, _) => if s.tail <= t then 9 else 3
    case ReleaseSlot(_, _) => if s.tail <= t then 8 else 2
    case Process(_) => if s.tail <= t then 7 else 1
    case Wait => 9
    case FirstLoad => 8
    case Reload => 8
    case CheckStop => 7
    case PopLoadTail(_) => 6
    case PopLoadSequence(_, _) => 5
    case StoreTail(_, _) => 4
    case _ => 0
  }

  lemma WorkerNearer(s: State, t: nat) returns (s': State)
    requires Inv(s) && WorksOn(s, t)
    ensures |s.slots| == BUFFER_SIZE && Step(s, WorkerStep) == Some(s') && Inv(s')
    ensures s'.head == s.head && s'.claimed == s.claimed && s'.producers == s.producers
    ensures if StepsToHandle(s, t) == 1 then s'.tail == t + 1 && s'.worker.PopLoadTail?
            else WorksOn(s', t) && StepsToHandle(s', t) < StepsToHandle(s, t)
    ensures 1 <= StepsToHandle(s, t)
  {
    FrontIsThere(s, t);
    s' := WorkerGoesOn(s, t);
    hide StepWorker;
    WorkerInv(s, s');
    hide Inv;
    if StepsToHandle(s, t) != 1 { NobodyInside(s, s', t); }
  }

  lemma FrontIsThere(s: State, t: nat)
    requires Inv(s) && WorksOn(s, t)
    ensures |s.slots| == BUFFER_SIZE
    ensures s.worker.PopLoadSequence? ==> s.worker.pos == s.tail && s.slots[SlotOf(s.tail)].sequence == s.tail + 1
  {
    hide ProducersOk;
    hide WakeOk;
    hide ShutdownOk;
    if s.worker.PopLoadSequence? { assert SlotOk(s, s.tail); }
  }

  lemma WorkerGoesOn(s: State, t: nat) returns (s': State)
    requires |s.slots| == BUFFER_SIZE && WorkerOk(s) && WakeOk(s) && WorksOn(s, t)
    requires s.worker.PopLoadSequence? ==> s.worker.pos == s.tail && s.slots[SlotOf(s.tail)].sequence == s.tail + 1
    ensures StepWorker(s) == Some(s') && s'.head == s.head && s'.claimed == s.claimed && s'.producers == s.producers
    ensures s'.worker != Exited && s'.worker != Blocked
    ensures 1 <= StepsToHandle(s, t)
    ensures if StepsToHandle(s, t) == 1 then s'.tail == t + 1 && s'.worker.PopLoadTail?
            else StepsToHandle(s', t) < StepsToHandle(s, t)
                 && ((s'.tail == t < s'.head && s.tail == t)
                     || (s'.tail == t + 1 && (s'.worker.ReadSlot? || s'.worker.ReleaseSlot? || s'.worker.Process?)))
  {
    hide SlotOf;
    s' := StepWorker(s).value;
  }

  lemma NobodyInside(s: State, s': State, t: nat)
    requires WorksOn(s, t) && s'.claimed == s.claimed && s'.producers == s.producers && s'.head == s.head
    requires s'.worker != Exited && s'.worker != Blocked
    requires (s'.tail == t < s'.head && s.tail == t)
             || (s'.tail == t + 1 && (s'.worker.ReadSlot? || s'.worker.ReleaseSlot? || s'.worker.Process?))
    ensures WorksOn(s', t)
  {
  }

  lemma {:induction false} WorkerHandles(s: State, t: nat) returns (schedule: seq<Action>, s': State)
    requires Inv(s) && WorksOn(s, t)
    ensures |s.slots| == BUFFER_SIZE && Exec(s, schedule) == Some(s') && Inv(s')
    ensures |schedule| <= StepsToHandle(s, t) && forall a :: a in schedule ==> a == WorkerStep
    ensures s'.head == s.head && s'.claimed == s.claimed && s'.producers == s.producers
    ensures s'.tail == t + 1 && s'.worker.PopLoadTail?
    decreases StepsToHandle(s, t)
  {
    hide Step;
    hide Inv;
    hide WorksOn;
    InvSize(s);
    var next := WorkerNearer(s, t);
    var rest;
    if StepsToHandle(s, t) == 1 {
      rest, s' := [], next;
      assert Exec(next, []) == Some(next);
    } else {
      rest, s' := WorkerHandles(next, t);
    }
    ExecCons(s, WorkerStep, next, rest, s');
    schedule := [WorkerStep] + rest;
  }

  /** What a state has in common with another where one ticket more has been handled. */
  ghost predicate Handled(s: State, t: nat, s': State) {
    && s'.head == s.head && s'.claimed == s.claimed && |s'.producers| == |s.producers|
    && s'.tail == Released(s') == t + 1 && t < |s.claimed|
    && s'.processed == Messages(s.claimed[..t + 1])
    && s'.worker != Exited && s'.worker != Blocked
    && forall q :: 0 <= q < |s.producers| && !(InProgress(s, t) && q == s.claimed[t].producer) ==>
                     s'.producers[q] == s.producers[q]
  }

  /** As long as the worker has not ended, whatever is claimed at the front of the queue can be handled: at most four
      steps of the producer that holds the ticket, and then at most nine of the worker. */
  lemma FrontIsHandled(s: State) returns (owner: seq<Action>, work: seq<Action>, s': State)
    requires Reachable(s) && s.worker != Exited && s.tail < s.head
    ensures |s.slots| == BUFFER_SIZE && Exec(s, owner + work) == Some(s') && Handled(s, s.tail, s')
    ensures |owner| <= 4 && forall a :: a in owner ==> a == ProducerStep(s.claimed[s.tail].producer, false)
    ensures |work| <= 9 && forall a :: a in work ==> a == WorkerStep
    ensures !InProgress(s, s.tail) ==> owner == []
  {
    ReachableInv(s);
    hide Step;
    hide Exec;
    hide SlotsOk;
    hide ProducersOk;
    hide ShutdownOk;
    hide InProgress;
    var t, mid := s.tail, s;
    owner := [];
    ExecNothing(s);
    if InProgress(s, t) {
      owner, mid := OwnerReturns(s, t);
    } else {
      AwakeForFront(s);
    }
    HeadBound(s);
    work, s' := WorkerHandles(mid, t);
    ExecConcat(s, owner, mid, work, s');
  }

  lemma ExecNothing(s: State)
    requires |s.slots| == BUFFER_SIZE
    ensures Exec(s, []) == Some(s)
  {
  }

  lemma HeadBound(s: State)
    requires Inv(s)
    ensures s.head == |s.claimed| && |s.slots| == BUFFER_SIZE
  {
  }

  lemma AwakeForFront(s: State)
    requires WakeOk(s) && s.tail < s.head && !InProgress(s, s.tail)
    ensures s.worker != Blocked
  {
  }

  lemma ReachableExec(s: State, schedule: seq<Action>, s': State)
    requires Reachable(s) && |s.slots| == BUFFER_SIZE && Exec(s, schedule) == Some(s')
    ensures Reachable(s')
  {
    hide Exec;
    var n: nat, first: seq<Action> :| Exec(Init(n), first) == Some(s);
    ExecConcat(Init(n), first, s, schedule, s');
  }

  /** A full buffer whose worker has ended stays that way, and nobody wins a ticket. */
  lemma StaysStuck(s: State, a: Action, s': State, p: nat)
    requires Inv(s) && Step(s, a) == Some(s') && s.worker == Exited && !HasRoom(s) && BeforeClaim(s, p)
    ensures s'.worker == Exited && !HasRoom(s') && BeforeClaim(s', p) && s'.claimed == s.claimed
  {
    hide SlotOk;
    hide WorkerOk;
    hide WakeOk;
    hide ShutdownOk;
    if a.ProducerStep? { ProducerStuck(s, a.p, a.spurious, s', p); }
  }

  lemma ProducerStuck(s: State, q: nat, spurious: bool, s': State, p: nat)
    requires ProducersOk(s) && |s.slots| == BUFFER_SIZE && q < |s.producers| && StepProducer(s, q, spurious) == Some(s')
    requires s.worker == Exited && !HasRoom(s) && BeforeClaim(s, p)
    ensures s'.worker == Exited && s'.head == s.head && s'.tail == s.tail && s'.claimed == s.claimed && BeforeClaim(s', p)
  {
    assert ProducerOk(s, q);
    NoClaim(s, q, spurious, s');
    if q == p { StaysBefore(s, p, spurious, s'); }
  }

  lemma NoClaim(s: State, q: nat, spurious: bool, s': State)
    requires |s.slots| == BUFFER_SIZE && q < |s.producers| && StepProducer(s, q, spurious) == Some(s') && ProducerOk(s, q)
    requires s.worker == Exited && !HasRoom(s)
    ensures s'.worker == Exited && s'.head == s.head && s'.tail == s.tail && s'.claimed == s.claimed
    ensures |s'.producers| == |s.producers| && forall r :: 0 <= r < |s.producers| && r != q ==> s'.producers[r] == s.producers[r]
  {
    hide SlotOf;
  }

  lemma StaysBefore(s: State, p: nat, spurious: bool, s': State)
    requires |s.slots| == BUFFER_SIZE && BeforeClaim(s, p) && StepProducer(s, p, spurious) == Some(s') && s'.head == s.head
    ensures BeforeClaim(s', p)
  {
    hide SlotOf;
  }

  lemma {:induction false} ExecStuck(s: State, schedule: seq<Action>, s': State, p: nat)
    requires Inv(s) && Exec(s, schedule) == Some(s') && s.worker == Exited && !HasRoom(s) && BeforeClaim(s, p)
    ensures BeforeClaim(s', p) && s'.claimed == s.claimed
    decreases |schedule|
  {
    hide Step;
    hide HasRoom;
    hide BeforeClaim;
    if schedule == [] {
    } else {
      var next := Step(s, schedule[0]).value;
      StepInv(s, schedule[0], next);
      StaysStuck(s, schedule[0], next, p);
      ExecStuck(next, schedule[1..], s', p);
    }
  }

  /** A waiting push makes room for itself: the front is handled, and then it comes back. */
  lemma PushComesBackLater(s: State, p: nat) returns (schedule: seq<Action>, s': State)
    requires Reachable(s) && BeforeClaim(s, p) && !HasRoom(s) && s.worker != Exited
    ensures |s.slots| == BUFFER_SIZE && |schedule| <= 21 && Exec(s, schedule) == Some(s')
    ensures |s'.producers| == |s.producers| && s'.producers[p].pc == Outside
    ensures s.producers[p].message.Some? && s'.claimed == s.claimed + [Claim(p, s.producers[p].message.value)]
  {
    hide Exec;
    hide Reachable;
    hide Handled;
    ReachableInv(s);
    FullIsNotEmpty(s);
    var owner, work, mid := FrontIsHandled(s);
    ReachableExec(s, owner + work, mid);
    ReachableInv(mid);
    RoomBehindFront(s, p, mid);
    var k;
    k, s' := PushComesBack(mid, p);
    ExecConcat(s, owner + work, mid, Alone(p, k), s');
    schedule := (owner + work) + Alone(p, k);
  }

  lemma FullIsNotEmpty(s: State)
    requires Inv(s) && !HasRoom(s)
    ensures s.tail < s.head
  {
  }

  lemma RoomBehindFront(s: State, p: nat, mid: State)
    requires Inv(s) && Inv(mid) && BeforeClaim(s, p) && Handled(s, s.tail, mid)
    ensures HasRoom(mid) && BeforeClaim(mid, p) && mid.producers[p] == s.producers[p] && mid.claimed == s.claimed
    ensures |mid.slots| == BUFFER_SIZE && |mid.producers| == |s.producers|
  {
    if p == s.claimed[s.tail].producer { assert ProducerOk(s, p); }
  }

  /** A push that has not won its ticket can still come back, on some schedule, exactly as long as there is room or the
      worker has not ended. In front of a full buffer that nobody empties any more it goes on trying for ever. */
  lemma PushCanComeBackIff(s: State, p: nat)
    requires Reachable(s) && BeforeClaim(s, p)
    ensures |s.slots| == BUFFER_SIZE
    ensures (exists schedule, s' :: Exec(s, schedule) == Some(s') && s'.producers[p].pc == Outside)
            <==> HasRoom(s) || s.worker != Exited
  {
    hide Exec;
    ReachableInv(s);
    if HasRoom(s) {
      var k, s' := PushComesBack(s, p);
      assert Exec(s, Alone(p, k)) == Some(s') && s'.producers[p].pc == Outside;
    } else if s.worker != Exited {
      var schedule, s' := PushComesBackLater(s, p);
    } else {
      forall schedule, s' | Exec(s, schedule) == Some(s') ensures s'.producers[p].pc != Outside {
        ExecStuck(s, schedule, s', p);
      }
    }
  }

  /** As long as the worker has not ended, all that is claimed can be handled. */
  lemma {:induction false} AllCanBeHandled(s: State) returns (schedule: seq<Action>, s': State)
    requires Reachable(s) && s.worker != Exited
    ensures |s.slots| == BUFFER_SIZE && Exec(s, schedule) == Some(s')
    ensures s'.claimed == s.claimed && s'.processed == Messages(s.claimed)
    decreases s.head - s.tail
  {
    hide Exec;
    hide Reachable;
    ReachableInv(s);
    HeadBound(s);
    if s.tail < s.head {
      var owner, work, mid := FrontIsHandled(s);
      ReachableExec(s, owner + work, mid);
      var rest;
      rest, s' := AllCanBeHandled(mid);
      ExecConcat(s, owner + work, mid, rest, s');
      schedule := (owner + work) + rest;
    } else {
      schedule, s' := LastIsHandled(s);
    }
  }

  /** The worker finishes what it has taken out. */
  lemma LastIsHandled(s: State) returns (schedule: seq<Action>, s': State)
    requires Inv(s) && s.worker != Exited && s.tail == s.head
    ensures |s.slots| == BUFFER_SIZE && Exec(s, schedule) == Some(s')
    ensures s'.claimed == s.claimed && s'.processed == Messages(s.claimed)
  {
    hide Exec;
    HeadBound(s);
    ExecNothing(s);
    if s.worker.ReadSlot? || s.worker.ReleaseSlot? || s.worker.Process? {
      schedule, s' := WorkerHandles(s, s.tail - 1);
    } else {
      schedule, s' := [], s;
    }
    AllTaken(s');
  }

  lemma AllTaken(s: State)
    requires Inv(s) && s.tail == s.head && !s.worker.ReadSlot? && !s.worker.ReleaseSlot? && !s.worker.Process?
    ensures s.processed == Messages(s.claimed)
  {
    assert s.claimed[..s.tail] == s.claimed;
  }

  // ---------------------------------------------------------------- no lost wake-up

  /** A sleeping worker with no producer inside `PushAndNotify` has handled every message. */
  lemma NoLostWakeUp(s: State)
    requires Reachable(s) && s.worker == Blocked
    requires forall p :: 0 <= p < |s.producers| ==> s.producers[p].pc == Outside
    ensures s.processed == Messages(s.claimed)
  {
    ReachableInv(s);
    assert s.tail == s.head;
    assert s.claimed[..s.tail] == s.claimed;
  }

  /** `Shutdown` never waits in `join` for a worker that cannot move. */
  lemma ShutdownIsNotStuck(s: State)
    requires Reachable(s) && s.shutdown == Join
    ensures s.worker == Exited || Step(s, WorkerStep).Some?
  {
    ReachableInv(s);
  }

  // ---------------------------------------------------------------- shutdown drains the queue, or not

  ghost predicate PublishedUpTo(s: State, t: nat) {
    t < |s.claimed| && forall u: nat :: u <= t ==> !Unpublished(s, u)
  }

  /** No step takes a published ticket back. */
  lemma StaysPublished(s: State, a: Action, s': State, t: nat)
    requires Inv(s) && Step(s, a) == Some(s') && t < |s.claimed| && !Unpublished(s, t)
    ensures t < |s'.claimed| && !Unpublished(s', t)
  {
    hide SlotOk;
    hide WorkerOk;
    hide WakeOk;
    hide ShutdownOk;
    if a.ProducerStep? {
      ProducerPublishes(s, a.p, a.spurious, s', t);
    }
  }

  lemma ProducerPublishes(s: State, p: nat, spurious: bool, s': State, t: nat)
    requires ProducersOk(s) && |s.slots| == BUFFER_SIZE && s.head == |s.claimed|
    requires p < |s.producers| && StepProducer(s, p, spurious) == Some(s') && t < |s.claimed| && !Unpublished(s, t)
    ensures t < |s'.claimed| && !Unpublished(s', t)
  {
    assert ProducerOk(s, p);
  }

  lemma StepPublished(s: State, a: Action, s': State, t: nat)
    requires Inv(s) && Step(s, a) == Some(s') && PublishedUpTo(s, t)
    requires s.worker == Exited ==> t < s.tail
    ensures PublishedUpTo(s', t)
    ensures s'.worker == Exited ==> t < s'.tail
  {
    hide Unpublished;
    hide Step;
    hide Inv;
    InvSize(s);
    ExitsBehind(s, a, s', t);
    StaysPublished(s, a, s', t);
    forall u: nat | u <= t ensures u < |s'.claimed| && !Unpublished(s', u) {
      StaysPublished(s, a, s', u);
    }
  }

  /** The worker leaves the last drain only where nothing is published. */
  lemma ExitsBehind(s: State, a: Action, s': State, t: nat)
    requires Inv(s) && Step(s, a) == Some(s') && PublishedUpTo(s, t)
    requires s.worker == Exited ==> t < s.tail
    ensures s'.worker == Exited ==> t < s'.tail
  {
    hide SlotsOk;
    hide ProducersOk;
    hide WorkerOk;
    hide WakeOk;
    hide ShutdownOk;
    hide PublishedUpTo;
    InvSize(s);
    if a == WorkerStep { WorkerExitsBehind(s, s', t); }
  }

  lemma WorkerExitsBehind(s: State, s': State, t: nat)
    requires SlotsOk(s) && WorkerOk(s) && StepWorker(s) == Some(s') && PublishedUpTo(s, t)
    requires s.worker == Exited ==> t < s.tail
    ensures s'.worker == Exited ==> t < s'.tail
  {
    hide Unpublished;
    hide SlotOk;
    if s.worker.PopLoadSequence? && s.tail < |s.claimed| {
      NextIsReady(s, t);
    }
  }

  /** What is published at the front of the queue carries the sequence number the worker looks for. */
  lemma NextIsReady(s: State, t: nat)
    requires SlotsOk(s) && PublishedUpTo(s, t) && s.worker.PopLoadSequence? && s.tail < |s.claimed|
    ensures s.tail <= t ==> s.slots[SlotOf(s.tail)].sequence == s.tail + 1
  {
    assert SlotOk(s, s.tail);
  }

  lemma {:induction false} ExecPublished(s: State, schedule: seq<Action>, s': State, t: nat)
    requires Inv(s) && Exec(s, schedule) == Some(s') && PublishedUpTo(s, t)
    requires s.worker == Exited ==> t < s.tail
    ensures Inv(s')
    ensures s'.worker == Exited ==> t < s'.tail
    decreases |schedule|
  {
    hide Step;
    if schedule == [] {
    } else {
      var next := Step(s, schedule[0]).value;
      StepInv(s, schedule[0], next);
      StepPublished(s, schedule[0], next, t);
      ExecPublished(next, schedule[1..], s', t);
    }
  }

  function WorkerPhase(w: WorkerPc): nat {
    if InMainLoop(w) then 2 else if InFinalDrain(w) then 0 else 1
  }

  function WorkerRank(w: WorkerPc): nat {
    match w
    case ReadSlot(_, _) => 7
    case ReleaseSlot(_, _) => 6
    case Process(_) => 5
    case PopLoadTail(_) => 4
    case PopLoadSequence(_, _) => 3
    case StoreTail(_, _) => 2
    case Wait => 1
    case FirstLoad => 1
    case Reload => 1
    case _ => 0
  }

  /** After `Shutdown` has woken it, the worker can always take a step towards its end. */
  lemma WorkerMoves(s: State, u: nat) returns (next: State)
    requires Inv(s) && s.shutdown == Join && Unpublished(s, u) && s.worker != Exited
    ensures Step(s, WorkerStep) == Some(next) && Inv(next)
    ensures next.shutdown == Join && Unpublished(next, u) && next.tail <= u
    ensures || WorkerPhase(next.worker) < WorkerPhase(s.worker)
            || (WorkerPhase(next.worker) == WorkerPhase(s.worker)
                && (s.tail < next.tail || (s.tail == next.tail && WorkerRank(next.worker) < WorkerRank(s.worker))))
  {
    hide SlotOk;
    next := Step(s, WorkerStep).value;
    WorkerInv(s, next);
    assert ProducerOk(next, s.claimed[u].producer);
  }

  /** Left alone, the worker runs to its end and stops in front of an unpublished ticket. */
  lemma {:induction false} WorkerStopsAt(s: State, u: nat) returns (schedule: seq<Action>, s': State)
    requires Inv(s) && s.shutdown == Join && Unpublished(s, u) && s.tail <= u
    ensures Exec(s, schedule) == Some(s') && Inv(s')
    ensures s'.worker == Exited && s'.shutdown == Join && s'.tail <= u
    decreases WorkerPhase(s.worker), u - s.tail, WorkerRank(s.worker)
  {
    hide Step;
    if s.worker == Exited {
      schedule, s' := [], s;
    } else {
      var next := WorkerMoves(s, u);
      var rest;
      rest, s' := WorkerStopsAt(next, u);
      schedule := [WorkerStep] + rest;
      assert schedule[1..] == rest;
    }
  }

  lemma ExecConcat(s: State, first: seq<Action>, mid: State, second: seq<Action>, s': State)
    requires |s.slots| == BUFFER_SIZE && Exec(s, first) == Some(mid) && Exec(mid, second) == Some(s')
    ensures Exec(s, first + second) == Some(s')
    decreases |first|
  {
    hide Step;
    if first == [] {
      assert first + second == second;
    } else {
      var next := Step(s, first[0]).value;
      ExecConcat(next, first[1..], mid, second, s');
      assert (first + second)[1..] == first[1..] + second;
    }
  }

  /** A ticket unpublished when `Shutdown` is called can be left unpublished until the end. */
  lemma StalledTicketStopsDrain(s: State, u: nat) returns (schedule: seq<Action>, s': State)
    requires Inv(s) && s.shutdown == RequestStop && Unpublished(s, u)
    ensures Exec(s, schedule) == Some(s')
    ensures s'.shutdown == Closed && |s'.processed| <= u
  {
    hide Inv;
    hide Exec;
    var s3 := StopRequested(s, u);
    var drain, s4 := WorkerStopsAt(s3, u);
    s' := Step(s4, ShutdownStep).value;
    InvSize(s);
    InvSize(s3);
    InvSize(s4);
    ControlInv(s4, ShutdownStep, s');
    FewHandled(s', u);
    var begin := [ShutdownStep, ShutdownStep, ShutdownStep];
    ExecOne(s4, ShutdownStep, s');
    ExecConcat(s3, drain, s4, [ShutdownStep], s');
    ExecThree(s, ShutdownStep, s3);
    ExecConcat(s, begin, s3, drain + [ShutdownStep], s');
    schedule := begin + (drain + [ShutdownStep]);
  }

  /** `Shutdown` as far as its join. */
  lemma StopRequested(s: State, u: nat) returns (s3: State)
    requires Inv(s) && s.shutdown == RequestStop && Unpublished(s, u)
    ensures Inv(s3) && s3.shutdown == Join && Unpublished(s3, u) && s3.tail <= u
    ensures |s.slots| == BUFFER_SIZE
    ensures var s1 := Step(s, ShutdownStep);
            s1.Some? && var s2 := Step(s1.value, ShutdownStep);
            s2.Some? && Step(s2.value, ShutdownStep) == Some(s3)
  {
    var s1 := Step(s, ShutdownStep).value;
    ControlInv(s, ShutdownStep, s1);
    var s2 := Step(s1, ShutdownStep).value;
    ControlInv(s1, ShutdownStep, s2);
    s3 := Step(s2, ShutdownStep).value;
    ControlInv(s2, ShutdownStep, s3);
    assert Unpublished(s3, u) && ProducerOk(s3, s.claimed[u].producer);
  }

  lemma FewHandled(s: State, u: nat)
    requires Inv(s) && s.tail <= u
    ensures |s.processed| <= u
  {
    hide SlotsOk;
    hide ProducersOk;
    hide WakeOk;
    hide ShutdownOk;
  }

  lemma ExecOne(s: State, a: Action, s': State)
    requires |s.slots| == BUFFER_SIZE && Step(s, a) == Some(s')
    ensures Exec(s, [a]) == Some(s')
  {
    hide Step;
    assert [a][1..] == [] && Exec(s', []) == Some(s');
  }

  lemma ExecThree(s: State, a: Action, s3: State)
    requires |s.slots| == BUFFER_SIZE
    requires var s1 := Step(s, a);
             s1.Some? && var s2 := Step(s1.value, a);
             s2.Some? && Step(s2.value, a) == Some(s3)
    ensures Exec(s, [a, a, a]) == Some(s3)
  {
    hide Step;
    hide Exec;
    var s1 := Step(s, a).value;
    var s2 := Step(s1, a).value;
    ExecOne(s, a, s1);
    ExecOne(s1, a, s2);
    ExecOne(s2, a, s3);
    ExecConcat(s1, [a], s2, [a], s3);
    ExecConcat(s, [a], s1, [a] + [a], s3);
    assert [a] + ([a] + [a]) == [a, a, a];
  }

  /** A message is sure to be handled before `Shutdown` passes its `join`, whatever the schedule,
      exactly when every ticket up to its own was published at the time `Shutdown` was called. */
  lemma HandledBeforeJoinIff(s: State, t: nat)
    requires Reachable(s) && s.shutdown == RequestStop && t < |s.claimed|
    ensures PublishedUpTo(s, t)
            <==> forall schedule, s' :: Exec(s, schedule) == Some(s') && s'.shutdown == Closed ==> t < |s'.processed|
  {
    ReachableInv(s);
    if PublishedUpTo(s, t) {
      forall schedule, s' | Exec(s, schedule) == Some(s') && s'.shutdown == Closed
        ensures t < |s'.processed|
      {
        ExecPublished(s, schedule, s', t);
      }
    } else {
      var u: nat :| u <= t && Unpublished(s, u);
      var schedule, s' := StalledTicketStopsDrain(s, u);
    }
  }

  lemma ReachableStep(s: State, a: Action, s': State)
    requires Reachable(s) && |s.slots| == BUFFER_SIZE && Step(s, a) == Some(s')
    ensures Reachable(s')
  {
    hide Step;
    var n: nat, schedule: seq<Action> :| Exec(Init(n), schedule) == Some(s);
    var one := [a];
    assert one[1..] == [];
    assert Exec(s', []) == Some(s');
    assert Exec(s, one) == Some(s');
    ExecConcat(Init(n), schedule, s, one, s');
  }

  lemma Take(s: State, a: Action) returns (s': State)
    requires Reachable(s) && |s.slots| == BUFFER_SIZE && Step(s, a).Some?
    ensures Some(s') == Step(s, a) && Reachable(s') && |s'.slots| == BUFFER_SIZE
  {
    s' := Step(s, a).value;
    ReachableStep(s, a, s');
  }

  /** A call of `PushAndNotify` up to and including a successful compare-exchange. */
  lemma CallAndClaim(s: State, p: nat, m: Message) returns (s': State)
    requires Reachable(s) && |s.slots| == BUFFER_SIZE && p < |s.producers| && s.producers[p].pc == Outside
    requires s.slots[SlotOf(s.head)].sequence == s.head
    ensures Reachable(s')
    ensures s' == s.(producers := s.producers[p := Producer(WriteMessage(s.head), Some(m))],
                     head := s.head + 1, claimed := s.claimed + [Claim(p, m)])
  {
    s' := CallUpToExchange(s, p, m);
    s' := Take(s', ProducerStep(p, false));
  }

  lemma CallUpToExchange(s: State, p: nat, m: Message) returns (s': State)
    requires Reachable(s) && |s.slots| == BUFFER_SIZE && p < |s.producers| && s.producers[p].pc == Outside
    requires s.slots[SlotOf(s.head)].sequence == s.head
    ensures Reachable(s') && s' == s.(producers := s.producers[p := Producer(CompareExchange(s.head), Some(m))])
  {
    hide Reachable;
    hide SlotOf;
    s' := Take(s, Call(p, m));
    s' := Take(s', ProducerStep(p, false));
    s' := Take(s', ProducerStep(p, false));
  }

  lemma WriteAndPublish(s: State, p: nat) returns (s': State)
    requires Reachable(s) && |s.slots| == BUFFER_SIZE && p < |s.producers| && s.producers[p].pc.WriteMessage?
    ensures Reachable(s') && |s'.slots| == BUFFER_SIZE
    ensures s' == s.(slots := s'.slots,
                     producers := s.producers[p := Producer(AddCounter(s.producers[p].pc.ticket), None)])
  {
    hide Reachable;
    var written := Take(s, ProducerStep(p, false));
    assert written == s.(slots := written.slots, producers := s.producers[p := Producer(Publish(s.producers[p].pc.ticket), None)]);
    s' := Take(written, ProducerStep(p, false));
    assert s'.producers == s.producers[p := Producer(AddCounter(s.producers[p].pc.ticket), None)];
  }

  lemma CountAndNotify(s: State, p: nat) returns (s': State)
    requires Reachable(s) && |s.slots| == BUFFER_SIZE && p < |s.producers| && s.producers[p].pc.AddCounter?
    requires s.worker != Blocked
    ensures Reachable(s') && |s'.slots| == BUFFER_SIZE
    ensures s' == s.(producers := s.producers[p := s.producers[p].(pc := Outside)], counter := s.counter + 1)
  {
    hide Reachable;
    var counted := Take(s, ProducerStep(p, false));
    assert counted == At(s, p, NotifyOne(s.producers[p].pc.ticket)).(counter := s.counter + 1);
    s' := Take(counted, ProducerStep(p, false));
    assert s'.producers == s.producers[p := s.producers[p].(pc := Outside)];
  }

  lemma TakeCallShutdown(s: State) returns (s': State)
    requires Reachable(s) && |s.slots| == BUFFER_SIZE && s.running && s.shutdown == NotCalled
    ensures Reachable(s') && s' == s.(running := false, shutdown := RequestStop)
  {
    s' := Take(s, CallShutdown);
  }

  lemma InitReachable(n: nat)
    ensures Reachable(Init(n))
  {
    assert Exec(Init(n), []) == Some(Init(n));
  }

  /** Two producers have claimed a ticket each, and neither has written its slot. */
  lemma TwoClaims(first: Message, second: Message) returns (s: State)
    ensures Reachable(s) && |s.slots| == BUFFER_SIZE && s.worker == FirstLoad && s.running && s.shutdown == NotCalled
    ensures s.producers == [Producer(WriteMessage(0), Some(first)), Producer(WriteMessage(1), Some(second))]
    ensures s.claimed == [Claim(0, first), Claim(1, second)]
  {
    hide Step;
    hide Reachable;
    hide Exec;
    s := Init(2);
    InitReachable(2);
    assert SlotOf(0) == 0 && SlotOf(1) == 1;
    s := CallAndClaim(s, 0, first);
    s := CallAndClaim(s, 1, second);
  }

  /** That a push has returned is not enough: producer 0 stops between its compare-exchange and its
      store while producer 1 pushes, notifies and returns; the message of producer 1 can be lost. */
  lemma ReturnedMessageCanBeLost(first: Message, second: Message)
    returns (s: State, schedule: seq<Action>, s': State)
    ensures Reachable(s) && s.shutdown == RequestStop && Returned(s, 1) && s.claimed[1] == Claim(1, second)
    ensures Exec(s, schedule) == Some(s') && s'.shutdown == Closed && |s'.processed| == 0
  {
    hide Step;
    hide Exec;
    hide Reachable;
    hide Inv;
    s := TwoClaims(first, second);
    s := WriteAndPublish(s, 1);
    s := CountAndNotify(s, 1);
    s := TakeCallShutdown(s);
    assert s.producers == [Producer(WriteMessage(0), Some(first)), Producer(Outside, None)];
    assert Unpublished(s, 0);
    ReachableInv(s);
    schedule, s' := StalledTicketStopsDrain(s, 0);
  }
}
