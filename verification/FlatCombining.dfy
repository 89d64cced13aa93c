/** Flat-combining append: appenders push a slot on a queue; whoever finds no active combiner
    becomes it, numbers and writes the whole queue, marks the slots done and hands the role on.
    Every load, store and queue section is a step of its own. */
module FlatCombining {

  import opened Options
  import opened CommitState

  /** One queued append: whose it is and which of that thread's operations. */
  type Ticket = (Tid, nat)

  datatype Mark = Pending | Done | BecomeCombiner

  datatype Slot = Slot(mark: Mark, seqNo: nat)

  datatype Pc =
    | Idle
    | Waiting
    | Combining
    | Numbering(batch: seq<Ticket>, n: nat)   // n slots of the batch numbered
    | Marking(batch: seq<Ticket>, n: nat)     // n slots of the batch marked done
    | CheckOwn

  /** `done` counts finished appends; `place` is history: where the current ticket is in `order`. */
  datatype Thread = Thread(pc: Pc, slot: Slot, done: nat, place: nat)

  /** `order` (tickets in queueing order), `boss` (who holds or was handed the combiner role) and
      `returned` (what each append returned) are history: no step reads them. */
  datatype State = State(
    items: seq<Ticket>,
    combining: bool,
    nextSeq: nat,
    file: seq<Record>,
    threads: seq<Thread>,
    order: seq<Ticket>,
    boss: Option<Tid>,
    returned: map<Ticket, nat>)

  datatype Step =
    | Enqueue(t: Tid)
    | SeeDone(t: Tid)
    | SeeHandoff(t: Tid)
    | Take(t: Tid)
    | NumberOne(t: Tid)
    | Write(t: Tid)
    | MarkOne(t: Tid)
    | MarkedAll(t: Tid)
    | Again(t: Tid)
    | Handoff(t: Tid)

  function Init(appenders: nat): State {
    State([], false, 0, [], seq(appenders, _ => Thread(Idle, Slot(Pending, 0), 0, 0)), [], None, map[])
  }

  function With(s: State, t: Tid, th: Thread): State
    requires t < |s.threads|
  {
    s.(threads := s.threads[t := th])
  }

  function To(s: State, t: Tid, pc: Pc): State
    requires t < |s.threads|
  {
    With(s, t, s.threads[t].(pc := pc))
  }

  function SetSlot(s: State, u: Tid, slot: Slot): State
    requires u < |s.threads|
  {
    With(s, u, s.threads[u].(slot := slot))
  }

  /** `append_fc` returns the number stored in its slot. */
  function Returned(s: State, t: Tid): State
    requires t < |s.threads|
  {
    var th := s.threads[t];
    With(s, t, th.(pc := Idle, done := th.done + 1)).(returned := s.returned[(t, th.done) := th.slot.seqNo])
  }

  predicate Enabled(s: State, step: Step) {
    step.t < |s.threads| &&
    var pc, slot := s.threads[step.t].pc, s.threads[step.t].slot;
    match step
    case Enqueue(t) => pc.Idle?
    case SeeDone(t) => pc.Waiting? && slot.mark.Done?
    case SeeHandoff(t) => pc.Waiting? && slot.mark.BecomeCombiner?
    case Take(t) => pc.Combining?
    case NumberOne(t) => pc.Numbering? && pc.n < |pc.batch| && pc.batch[pc.n].0 < |s.threads|
    case Write(t) => pc.Numbering? && pc.n >= |pc.batch|
    case MarkOne(t) => pc.Marking? && pc.n < |pc.batch| && pc.batch[pc.n].0 < |s.threads|
    case MarkedAll(t) => pc.Marking? && pc.n >= |pc.batch|
    case Again(t) => pc.CheckOwn? && !slot.mark.Done?
    case Handoff(t) => pc.CheckOwn? && slot.mark.Done? && (s.items != [] ==> s.items[0].0 < |s.threads|)
  }

  /** The frames of a batch whose first slot gets number `first`. */
  function Frames(batch: seq<Ticket>, first: nat): seq<Record> {
    seq(|batch|, i requires 0 <= i < |batch| => Record(first + i, batch[i].0, batch[i].1))
  }

  function Apply(s: State, step: Step): State
    requires Enabled(s, step)
  {
    var th := s.threads[step.t];
    match step
    case Enqueue(t) =>
      var ticket := (t, th.done);
      With(s, t, Thread(if s.combining then Waiting else Combining, Slot(Pending, 0), th.done, |s.order|))
        .(items := s.items + [ticket], combining := true, order := s.order + [ticket],
          boss := if s.combining then s.boss else Some(t))
    case SeeDone(t) => Returned(s, t)
    case SeeHandoff(t) => To(s, t, Combining)
    case Take(t) => To(s, t, Numbering(s.items, 0)).(items := [])
    case NumberOne(t) =>
      var u := th.pc.batch[th.pc.n].0;
      var s1 := SetSlot(s, u, s.threads[u].slot.(seqNo := s.nextSeq + 1));
      To(s1, t, Numbering(th.pc.batch, th.pc.n + 1)).(nextSeq := s.nextSeq + 1)
    case Write(t) =>
      To(s, t, Marking(th.pc.batch, 0))
        .(file := s.file + Frames(th.pc.batch, |s.file| + 1))
    case MarkOne(t) =>
      var u := th.pc.batch[th.pc.n].0;
      var s1 := SetSlot(s, u, s.threads[u].slot.(mark := Done));
      To(s1, t, Marking(th.pc.batch, th.pc.n + 1))
    case MarkedAll(t) => To(s, t, CheckOwn)
    case Again(t) => To(s, t, Combining)
    case Handoff(t) =>
      if s.items != [] then
        var u := s.items[0].0;
        Returned(SetSlot(s, u, s.threads[u].slot.(mark := BecomeCombiner)), t).(boss := Some(u))
      else
        Returned(s, t).(combining := false, boss := None)
  }

  ghost predicate IsRun(appenders: nat, run: seq<State>, steps: seq<Step>) {
    && |run| == |steps| + 1
    && run[0] == Init(appenders)
    && forall i :: 0 <= i < |steps| ==> Enabled(run[i], steps[i]) && run[i + 1] == Apply(run[i], steps[i])
  }

  // ------------------------------------------------------------------------------------------
  // The invariant
  // ------------------------------------------------------------------------------------------

  predicate IsCombiner(pc: Pc) {
    pc.Combining? || pc.Numbering? || pc.Marking? || pc.CheckOwn?
  }

  /** The role is held by at most one thread, or on its way to exactly one. */
  ghost predicate RoleOk(s: State, t: Tid)
    requires t < |s.threads|
  {
    var th := s.threads[t];
    && (IsCombiner(th.pc) ==> s.boss == Some(t))
    && (th.pc.Waiting? && th.slot.mark.BecomeCombiner? ==> s.boss == Some(t))
    && (s.boss == Some(t) ==> IsCombiner(th.pc) || (th.pc.Waiting? && th.slot.mark.BecomeCombiner?))
  }

  ghost predicate RoleInv(s: State) {
    && s.combining == s.boss.Some?
    && (s.boss.Some? ==> s.boss.value < |s.threads|)
    && (forall t :: 0 <= t < |s.threads| ==> RoleOk(s, t))
  }

  function BossPc(s: State): Pc {
    if s.boss.Some? && s.boss.value < |s.threads| then s.threads[s.boss.value].pc else Idle
  }

  /** Tickets taken off the queue and not yet written. */
  function InHand(s: State): seq<Ticket> {
    if BossPc(s).Numbering? then BossPc(s).batch else []
  }

  /** How many tickets, in queueing order, have been marked done. */
  function MarkedCount(s: State): int {
    if BossPc(s).Marking? then |s.file| - |BossPc(s).batch| + BossPc(s).n else |s.file|
  }

  function NumberedCount(s: State): nat {
    if BossPc(s).Numbering? then |s.file| + BossPc(s).n else |s.file|
  }

  function Payload(file: seq<Record>): seq<Ticket> {
    seq(|file|, i requires 0 <= i < |file| => (file[i].writer, file[i].op))
  }

  /** The queueing order is what is written, then what the combiner carries, then the queue; the
      file is numbered 1, 2, 3, ... */
  ghost predicate OrderInv(s: State) {
    && s.order == Payload(s.file) + InHand(s) + s.items
    && s.nextSeq == NumberedCount(s)
    && (forall i :: 0 <= i < |s.file| ==> s.file[i].seqNo == i + 1)
    && (BossPc(s).Marking? ==>
          && BossPc(s).n <= |BossPc(s).batch| <= |s.file|
          && Payload(s.file[|s.file| - |BossPc(s).batch|..]) == BossPc(s).batch)
    && (BossPc(s).Numbering? ==> BossPc(s).n <= |BossPc(s).batch|)
    && (s.boss.None? ==> s.items == [])
  }

  /** An append under way: its ticket is in the order; it is marked exactly when its turn has come;
      once numbered, its number is its place; and the role holder is part of its own round. */
  ghost predicate AppendOk(s: State, t: Tid)
    requires t < |s.threads|
  {
    var th := s.threads[t];
    !th.pc.Idle? ==>
      && th.place < |s.order| && s.order[th.place] == (t, th.done)
      && (th.slot.mark.Done? <==> th.place < MarkedCount(s))
      && (th.place < NumberedCount(s) ==> th.slot.seqNo == th.place + 1)
      && (th.pc.Combining? ==> !th.slot.mark.Done?)
      && (th.pc.Numbering? ==> |s.file| <= th.place < |s.file| + |th.pc.batch|)
      && (th.pc.Marking? ==> |s.file| - |th.pc.batch| <= th.place < |s.file|)
      && (th.pc.CheckOwn? ==> th.place < |s.file|)
  }

  /** Every ticket not yet marked belongs to a thread still inside that append. */
  ghost predicate TicketOk(s: State, i: nat)
    requires i < |s.order|
  {
    var (u, k) := s.order[i];
    && u < |s.threads|
    && (i >= MarkedCount(s) ==> !s.threads[u].pc.Idle? && s.threads[u].done == k && s.threads[u].place == i)
    && (k < s.threads[u].done || (k == s.threads[u].done && !s.threads[u].pc.Idle? && s.threads[u].place == i))
  }

  ghost predicate AppendInv(s: State) {
    && (forall t :: 0 <= t < |s.threads| ==> AppendOk(s, t))
    && (forall i :: 0 <= i < |s.order| ==> TicketOk(s, i))
    && (forall i, j :: 0 <= i < j < |s.order| && s.order[i].0 == s.order[j].0 ==> s.order[i].1 < s.order[j].1)
  }

  /** What has been returned: the append's place in the queueing order, with its frame written. */
  ghost predicate ReturnOk(s: State, ticket: Ticket)
    requires ticket in s.returned
  {
    var q := s.returned[ticket];
    1 <= q <= |s.file| <= |s.order| && s.order[q - 1] == ticket
  }

  ghost predicate ReturnedInv(s: State) {
    forall ticket :: ticket in s.returned ==> ReturnOk(s, ticket)
  }

  ghost predicate Inv(s: State) {
    RoleInv(s) && OrderInv(s) && AppendInv(s) && ReturnedInv(s)
  }

  lemma BossActs(s: State, t: Tid)
    requires RoleInv(s) && t < |s.threads| && IsCombiner(s.threads[t].pc)
    ensures s.boss == Some(t) && BossPc(s) == s.threads[t].pc
  {
    assert RoleOk(s, t);
  }

  /** The head of the queue is an appender waiting for its turn, never the combiner itself. */
  lemma HeadWaits(s: State, t: Tid)
    requires Inv(s) && t < |s.threads| && s.threads[t].pc.CheckOwn? && s.items != []
    ensures s.items[0].0 < |s.threads| && s.items[0].0 != t && s.threads[s.items[0].0].pc.Waiting?
    ensures s.threads[s.items[0].0].slot.mark.Pending?
  {
    BossActs(s, t);
    assert s.order[|s.file|] == s.items[0];
    assert TicketOk(s, |s.file|) && AppendOk(s, t);
    var u := s.items[0].0;
    assert RoleOk(s, u) && AppendOk(s, u);
  }

  /** The slot the combiner is about to number or mark. */
  lemma SlotInHand(s: State, t: Tid)
    requires Inv(s) && t < |s.threads|
    requires s.threads[t].pc.Numbering? || s.threads[t].pc.Marking?
    requires s.threads[t].pc.n < |s.threads[t].pc.batch|
    ensures var pc := s.threads[t].pc;
      var i := if pc.Numbering? then |s.file| + pc.n else |s.file| - |pc.batch| + pc.n;
      && BossPc(s) == pc && 0 <= i < |s.order|
      && s.order[i] == pc.batch[pc.n] && pc.batch[pc.n].0 < |s.threads|
      && var th := s.threads[pc.batch[pc.n].0]; !th.pc.Idle? && th.place == i && !th.slot.mark.Done?
  {
    BossActs(s, t);
    var pc := s.threads[t].pc;
    if pc.Numbering? {
      assert s.order[|s.file| + pc.n] == InHand(s)[pc.n];
      assert TicketOk(s, |s.file| + pc.n);
    } else {
      var i := |s.file| - |pc.batch| + pc.n;
      assert s.order[i] == Payload(s.file)[i] == Payload(s.file[|s.file| - |pc.batch|..])[pc.n];
      assert TicketOk(s, i);
    }
    assert AppendOk(s, pc.batch[pc.n].0);
  }

  lemma RolesKept(s: State, step: Step)
    requires Inv(s) && Enabled(s, step) && !step.Handoff? && !step.MarkOne?
    ensures RoleInv(Apply(s, step))
  {
    var s', t := Apply(s, step), step.t;
    assert RoleOk(s, t);
    forall x | 0 <= x < |s'.threads|
      ensures RoleOk(s', x)
    {
      assert RoleOk(s, x);
    }
  }

  lemma RolesKeptByMark(s: State, t: Tid)
    requires Inv(s) && Enabled(s, MarkOne(t))
    ensures RoleInv(Apply(s, MarkOne(t)))
  {
    var s' := Apply(s, MarkOne(t));
    BossActs(s, t);
    forall x | 0 <= x < |s'.threads|
      ensures RoleOk(s', x)
    {
      assert RoleOk(s, x);
    }
  }

  lemma RolesKeptByHandoff(s: State, t: Tid)
    requires Inv(s) && Enabled(s, Handoff(t))
    ensures RoleInv(Apply(s, Handoff(t)))
  {
    var s' := Apply(s, Handoff(t));
    BossActs(s, t);
    if s.items != [] {
      HeadWaits(s, t);
    }
    forall x | 0 <= x < |s'.threads|
      ensures RoleOk(s', x)
    {
      assert RoleOk(s, x);
    }
  }

  lemma OrderKeptBySlots(s: State, step: Step)
    requires Inv(s) && Enabled(s, step) && (step.NumberOne? || step.MarkOne?)
    ensures OrderInv(Apply(s, step))
  {
    SlotInHand(s, step.t);
    assert RoleOk(s, step.t);
  }

  lemma OrderKeptByRest(s: State, step: Step)
    requires Inv(s) && Enabled(s, step) && !step.Write? && !step.Handoff? && !step.NumberOne? && !step.MarkOne?
    ensures OrderInv(Apply(s, step))
  {
    var s', t := Apply(s, step), step.t;
    assert RoleOk(s, t) && AppendOk(s, t);
    assert s'.boss == s.boss || step.Enqueue?;
  }

  lemma OrderKept(s: State, step: Step)
    requires Inv(s) && Enabled(s, step) && !step.Write? && !step.Handoff?
    ensures OrderInv(Apply(s, step))
  {
    if step.NumberOne? || step.MarkOne? {
      OrderKeptBySlots(s, step);
    } else {
      OrderKeptByRest(s, step);
    }
  }

  lemma OrderKeptByWrite(s: State, t: Tid)
    requires Inv(s) && Enabled(s, Write(t))
    ensures OrderInv(Apply(s, Write(t)))
  {
    var s', batch := Apply(s, Write(t)), s.threads[t].pc.batch;
    BossActs(s, t);
    assert Payload(s'.file) == Payload(s.file) + batch;
    assert s'.file[|s'.file| - |batch|..] == Frames(batch, |s.file| + 1);
    assert BossPc(s') == Marking(batch, 0);
  }

  lemma OrderKeptByHandoff(s: State, t: Tid)
    requires Inv(s) && Enabled(s, Handoff(t))
    ensures OrderInv(Apply(s, Handoff(t)))
  {
    BossActs(s, t);
    if s.items != [] {
      HeadWaits(s, t);
    }
  }

  lemma AppendsKeptByEnqueue(s: State, t: Tid)
    requires Inv(s) && Enabled(s, Enqueue(t))
    ensures AppendInv(Apply(s, Enqueue(t)))
  {
    var s' := Apply(s, Enqueue(t));
    assert RoleOk(s, t);
    assert MarkedCount(s') == MarkedCount(s) && NumberedCount(s') == NumberedCount(s);
    forall x | 0 <= x < |s'.threads|
      ensures AppendOk(s', x)
    {
      assert AppendOk(s, x);
    }
    forall i | 0 <= i < |s'.order|
      ensures TicketOk(s', i)
    {
      if i < |s.order| {
        assert s'.order[i] == s.order[i] && TicketOk(s, i);
      } else {
        assert s'.order[i] == (t, s.threads[t].done);
      }
    }
    forall i, j | 0 <= i < j < |s'.order| && s'.order[i].0 == s'.order[j].0
      ensures s'.order[i].1 < s'.order[j].1
    {
      assert TicketOk(s, i);
    }
  }

  /** Writing the batch moves nobody's ticket. */
  lemma AppendsKeptByWrite(s: State, t: Tid)
    requires Inv(s) && Enabled(s, Write(t))
    ensures AppendInv(Apply(s, Write(t)))
  {
    var s' := Apply(s, Write(t));
    assert RoleOk(s, t) && AppendOk(s, t);
    BossActs(s, t);
    assert MarkedCount(s') == MarkedCount(s) && NumberedCount(s') == NumberedCount(s);
    forall x | 0 <= x < |s'.threads|
      ensures AppendOk(s', x)
    {
      assert AppendOk(s, x) && RoleOk(s, x);
    }
    forall i | 0 <= i < |s'.order|
      ensures TicketOk(s', i)
    {
      assert TicketOk(s, i);
    }
  }

  /** Nor do taking and finishing a round and seeing the handoff. */
  lemma AppendsKeptByRound(s: State, step: Step)
    requires Inv(s) && Enabled(s, step)
    requires step.SeeHandoff? || step.Take? || step.MarkedAll? || step.Again?
    ensures AppendInv(Apply(s, step))
  {
    var s', t := Apply(s, step), step.t;
    assert RoleOk(s, t) && AppendOk(s, t);
    if IsCombiner(s.threads[t].pc) {
      BossActs(s, t);
    }
    assert MarkedCount(s') == MarkedCount(s) && NumberedCount(s') == NumberedCount(s);
    forall x | 0 <= x < |s'.threads|
      ensures AppendOk(s', x)
    {
      assert AppendOk(s, x) && RoleOk(s, x);
    }
    forall i | 0 <= i < |s'.order|
      ensures TicketOk(s', i)
    {
      assert TicketOk(s, i);
    }
  }

  lemma AppendsKeptByNumber(s: State, t: Tid)
    requires Inv(s) && Enabled(s, NumberOne(t))
    ensures AppendInv(Apply(s, NumberOne(t)))
  {
    var s' := Apply(s, NumberOne(t));
    SlotInHand(s, t);
    BossActs(s, t);
    var u := s.threads[t].pc.batch[s.threads[t].pc.n].0;
    assert MarkedCount(s') == MarkedCount(s) && NumberedCount(s') == NumberedCount(s) + 1;
    forall x | 0 <= x < |s'.threads|
      ensures AppendOk(s', x)
    {
      assert AppendOk(s, x);
      if x != u && !s.threads[x].pc.Idle? {
        assert s.threads[x].place != NumberedCount(s);
      }
    }
    forall i | 0 <= i < |s'.order|
      ensures TicketOk(s', i)
    {
      assert TicketOk(s, i);
    }
  }

  lemma AppendsKeptByMark(s: State, t: Tid)
    requires Inv(s) && Enabled(s, MarkOne(t))
    ensures AppendInv(Apply(s, MarkOne(t)))
  {
    var s' := Apply(s, MarkOne(t));
    SlotInHand(s, t);
    BossActs(s, t);
    var u := s.threads[t].pc.batch[s.threads[t].pc.n].0;
    assert MarkedCount(s') == MarkedCount(s) + 1 && NumberedCount(s') == NumberedCount(s);
    forall x | 0 <= x < |s'.threads|
      ensures AppendOk(s', x)
    {
      assert AppendOk(s, x) && RoleOk(s, x);
      if x != u && !s.threads[x].pc.Idle? {
        assert s.threads[x].place != MarkedCount(s);
      }
    }
    forall i | 0 <= i < |s'.order|
      ensures TicketOk(s', i)
    {
      assert TicketOk(s, i);
    }
  }

  lemma FileWithinOrder(s: State)
    requires OrderInv(s)
    ensures |s.file| <= |s.order| && Payload(s.file) == s.order[..|s.file|]
  {
    assert s.order[..|s.file|] == Payload(s.file);
  }

  lemma ReturnLeavesRest(s: State, step: Step)
    requires Inv(s) && Enabled(s, step) && (step.SeeDone? || step.Handoff?)
    ensures var s' := Apply(s, step);
      && s'.order == s.order && s'.file == s.file
      && MarkedCount(s') == MarkedCount(s) == |s.file| - (if BossPc(s).Marking? then |BossPc(s).batch| - BossPc(s).n else 0)
      && NumberedCount(s') == NumberedCount(s)
      && s'.threads[step.t].pc.Idle?
      && s'.threads[step.t].done == s.threads[step.t].done + 1
      && (forall x | 0 <= x < |s.threads| && x != step.t ::
            s'.threads[x].(slot := s.threads[x].slot) == s.threads[x]
            && s'.threads[x].slot.seqNo == s.threads[x].slot.seqNo
            && s'.threads[x].slot.mark.Done? == s.threads[x].slot.mark.Done?)
  {
    var t := step.t;
    assert RoleOk(s, t);
    if step.Handoff? {
      BossActs(s, t);
      if s.items != [] { HeadWaits(s, t); }
    }
  }

  lemma AppendsKeptByReturn(s: State, step: Step)
    requires Inv(s) && Enabled(s, step) && (step.SeeDone? || step.Handoff?)
    ensures AppendInv(Apply(s, step))
  {
    var s', t := Apply(s, step), step.t;
    ReturnLeavesRest(s, step);
    assert AppendOk(s, t);
    forall x | 0 <= x < |s'.threads|
      ensures AppendOk(s', x)
    {
      assert AppendOk(s, x);
    }
    forall i | 0 <= i < |s'.order|
      ensures TicketOk(s', i)
    {
      assert TicketOk(s, i);
    }
  }

  /** The number a returning append carries is its place in the order, and its frame is written. */
  lemma ReturnedNumber(s: State, t: Tid)
    requires OrderInv(s) && t < |s.threads| && AppendOk(s, t) && !s.threads[t].pc.Idle? && s.threads[t].slot.mark.Done?
    requires MarkedCount(s) <= NumberedCount(s) && MarkedCount(s) <= |s.file|
    ensures var q := s.threads[t].slot.seqNo; 1 <= q <= |s.file| <= |s.order| && s.order[q - 1] == (t, s.threads[t].done)
  {
    FileWithinOrder(s);
  }

  /** A return recorded earlier stays good while the order and the file stay. */
  lemma ReturnsStay(s: State, s': State, latest: Ticket, q: nat)
    requires ReturnedInv(s) && s'.order == s.order && s'.file == s.file && s'.returned == s.returned[latest := q]
    requires 1 <= q <= |s.file| <= |s.order| && s.order[q - 1] == latest
    ensures ReturnedInv(s')
  {
    forall ticket | ticket in s'.returned
      ensures ReturnOk(s', ticket)
    {
      if ticket != latest {
        assert ReturnOk(s, ticket);
      }
    }
  }

  lemma ReturnRecorded(s: State, step: Step)
    requires OrderInv(s) && ReturnedInv(s) && Enabled(s, step) && (step.SeeDone? || step.Handoff?)
    requires AppendOk(s, step.t) && MarkedCount(s) <= NumberedCount(s) && MarkedCount(s) <= |s.file|
    ensures ReturnedInv(Apply(s, step))
  {
    var th := s.threads[step.t];
    ReturnedNumber(s, step.t);
    ReturnsStay(s, Apply(s, step), (step.t, th.done), th.slot.seqNo);
  }

  lemma ReturnedKept(s: State, step: Step)
    requires Inv(s) && Enabled(s, step) && !step.SeeDone? && !step.Handoff?
    ensures ReturnedInv(Apply(s, step))
  {
    var s' := Apply(s, step);
    assert s'.returned == s.returned && s.order <= s'.order && |s.file| <= |s'.file|;
    if step.Write? {
      BossActs(s, step.t);
    }
    forall ticket | ticket in s'.returned
      ensures ReturnOk(s', ticket)
    {
      assert ReturnOk(s, ticket);
    }
  }

  lemma StepKeepsInv(s: State, step: Step)
    requires Inv(s) && Enabled(s, step)
    ensures Inv(Apply(s, step))
  {
    match step
    case Enqueue(t) =>
      RolesKept(s, step); OrderKept(s, step); AppendsKeptByEnqueue(s, t); ReturnedKept(s, step);
    case NumberOne(t) =>
      RolesKept(s, step); OrderKept(s, step); AppendsKeptByNumber(s, t); ReturnedKept(s, step);
    case MarkOne(t) =>
      RolesKeptByMark(s, t); OrderKept(s, step); AppendsKeptByMark(s, t); ReturnedKept(s, step);
    case Write(t) =>
      RolesKept(s, step); OrderKeptByWrite(s, t); AppendsKeptByWrite(s, t); ReturnedKept(s, step);
    case Handoff(t) =>
      RolesKeptByHandoff(s, t); OrderKeptByHandoff(s, t); AppendsKeptByReturn(s, step); ReturnLeavesRest(s, step); ReturnRecorded(s, step);
    case SeeDone(t) =>
      RolesKept(s, step); OrderKept(s, step); AppendsKeptByReturn(s, step); ReturnLeavesRest(s, step); ReturnRecorded(s, step);
    case _ =>
      RolesKept(s, step); OrderKept(s, step); AppendsKeptByRound(s, step); ReturnedKept(s, step);
  }

  lemma InitInv(appenders: nat)
    ensures Inv(Init(appenders))
  {
  }

  lemma {:induction false} RunInv(appenders: nat, run: seq<State>, steps: seq<Step>, i: nat)
    requires IsRun(appenders, run, steps) && i < |run|
    ensures Inv(run[i])
  {
    if i == 0 {
      InitInv(appenders);
    } else {
      RunInv(appenders, run, steps, i - 1);
      StepKeepsInv(run[i - 1], steps[i - 1]);
    }
  }

  // ------------------------------------------------------------------------------------------
  // Theorems over every run
  // ------------------------------------------------------------------------------------------

  /** Holding the combiner role or having been handed it. */
  predicate HasRole(th: Thread) {
    IsCombiner(th.pc) || (th.pc.Waiting? && th.slot.mark.BecomeCombiner?)
  }

  /** At most one combiner or pending hand-off; one exists exactly while the flag is up; and a
      non-empty queue always has one. */
  lemma OneCombiner(appenders: nat, run: seq<State>, steps: seq<Step>, i: nat)
    requires IsRun(appenders, run, steps) && i < |run|
    ensures forall t, u | 0 <= t < |run[i].threads| && 0 <= u < |run[i].threads| ::
      HasRole(run[i].threads[t]) && HasRole(run[i].threads[u]) ==> t == u
    ensures run[i].combining <==> exists t :: 0 <= t < |run[i].threads| && HasRole(run[i].threads[t])
    ensures run[i].items != [] ==> run[i].combining
  {
    var s := run[i];
    RunInv(appenders, run, steps, i);
    forall t | 0 <= t < |s.threads| && HasRole(s.threads[t])
      ensures s.boss == Some(t)
    {
      assert RoleOk(s, t);
    }
    if s.boss.Some? {
      assert RoleOk(s, s.boss.value);
      assert HasRole(s.threads[s.boss.value]);
    }
  }

  /** The combiner's loop body runs exactly once: its own slot is in the batch it takes, so after one
      round its slot is always done and the loop never goes around again. */
  lemma OneRound(appenders: nat, run: seq<State>, steps: seq<Step>, i: nat, t: Tid)
    requires IsRun(appenders, run, steps) && i < |run| && t < |run[i].threads|
    ensures run[i].threads[t].pc.Combining? ==> (t, run[i].threads[t].done) in run[i].items
    ensures run[i].threads[t].pc.Numbering? || run[i].threads[t].pc.Marking? ==>
      (t, run[i].threads[t].done) in run[i].threads[t].pc.batch
    ensures !Enabled(run[i], Again(t))
  {
    var s, th := run[i], run[i].threads[t];
    RunInv(appenders, run, steps, i);
    assert AppendOk(s, t);
    if IsCombiner(th.pc) {
      BossActs(s, t);
      if th.pc.Combining? {
        assert s.order[th.place] == s.items[th.place - |s.file|];
      }
      if th.pc.Numbering? {
        assert s.order[th.place] == InHand(s)[th.place - |s.file|];
      }
      if th.pc.Marking? {
        var from := |s.file| - |th.pc.batch|;
        assert s.order[th.place] == Payload(s.file)[th.place] == Payload(s.file[from..])[th.place - from];
      }
    }
  }

  /** Nobody gets stuck: while any append is under way, the holder of the role has a next step, or, when
      there is none, the append's own slot is done and it returns. */
  lemma SomebodyMoves(appenders: nat, run: seq<State>, steps: seq<Step>, i: nat, t: Tid) returns (next: Step)
    requires IsRun(appenders, run, steps) && i < |run| && t < |run[i].threads| && !run[i].threads[t].pc.Idle?
    ensures Enabled(run[i], next) && !next.Enqueue? && (next.t == t || run[i].boss == Some(next.t))
  {
    var s := run[i];
    RunInv(appenders, run, steps, i);
    assert RoleOk(s, t) && AppendOk(s, t);
    if s.boss.Some? {
      next := BossStep(s, s.boss.value);
    } else {
      next := SeeDone(t);
      WaiterIsDone(s, t);
    }
  }

  lemma WaiterIsDone(s: State, t: Tid)
    requires Inv(s) && s.boss.None? && t < |s.threads| && !s.threads[t].pc.Idle?
    ensures s.threads[t].pc.Waiting? && s.threads[t].slot.mark.Done?
  {
    assert RoleOk(s, t) && AppendOk(s, t);
    FileWithinOrder(s);
  }

  lemma BossStep(s: State, b: Tid) returns (next: Step)
    requires Inv(s) && s.boss == Some(b) && b < |s.threads|
    ensures Enabled(s, next) && !next.Enqueue? && next.t == b
  {
    assert RoleOk(s, b) && AppendOk(s, b);
    var th := s.threads[b];
    match th.pc
    case Waiting => next := SeeHandoff(b);
    case Combining => next := Take(b);
    case Numbering(batch, n) =>
      next := if n < |batch| then NumberOne(b) else Write(b);
      if n < |batch| { SlotInHand(s, b); }
    case Marking(batch, n) =>
      next := if n < |batch| then MarkOne(b) else MarkedAll(b);
      if n < |batch| { SlotInHand(s, b); }
    case CheckOwn =>
      next := if th.slot.mark.Done? then Handoff(b) else Again(b);
      if s.items != [] { HeadWaits(s, b); }
  }

  lemma ReturnedFrame(s: State, ticket: Ticket)
    requires OrderInv(s) && ReturnedInv(s) && ticket in s.returned
    ensures 1 <= s.returned[ticket] <= |s.file|
    ensures s.file[s.returned[ticket] - 1] == Record(s.returned[ticket], ticket.0, ticket.1)
  {
    assert ReturnOk(s, ticket);
    FileWithinOrder(s);
    assert Payload(s.file)[s.returned[ticket] - 1] == s.order[s.returned[ticket] - 1];
  }

  /** Linearization at the queue: the file is the queueing order so far, and an append returns the
      place of its own ticket in it, with its frame in the file by then. */
  lemma ReturnsQueuePlace(appenders: nat, run: seq<State>, steps: seq<Step>, i: nat, ticket: Ticket)
    requires IsRun(appenders, run, steps) && i < |run| && ticket in run[i].returned
    ensures |run[i].file| <= |run[i].order| && Payload(run[i].file) == run[i].order[..|run[i].file|]
    ensures 1 <= run[i].returned[ticket] <= |run[i].file|
    ensures run[i].order[run[i].returned[ticket] - 1] == ticket
    ensures run[i].file[run[i].returned[ticket] - 1] == Record(run[i].returned[ticket], ticket.0, ticket.1)
  {
    RunInv(appenders, run, steps, i);
    FileWithinOrder(run[i]);
    assert ReturnOk(run[i], ticket);
    ReturnedFrame(run[i], ticket);
  }

  /** Each append is queued once, and no number is returned to two appends. */
  lemma TicketsAreUnique(appenders: nat, run: seq<State>, steps: seq<Step>, i: nat)
    requires IsRun(appenders, run, steps) && i < |run|
    ensures forall a, b :: 0 <= a < b < |run[i].order| ==> run[i].order[a] != run[i].order[b]
    ensures forall x, y :: x in run[i].returned && y in run[i].returned && run[i].returned[x] == run[i].returned[y] ==> x == y
  {
    RunInv(appenders, run, steps, i);
    var s := run[i];
    forall x, y | x in s.returned && y in s.returned && s.returned[x] == s.returned[y]
      ensures x == y
    {
      assert ReturnOk(s, x) && ReturnOk(s, y);
    }
  }

  lemma ReturnKeepsReturned(s: State, step: Step, ticket: Ticket)
    requires Inv(s) && Enabled(s, step) && ticket in s.returned
    ensures ticket in Apply(s, step).returned && Apply(s, step).returned[ticket] == s.returned[ticket]
  {
    if (step.SeeDone? || step.Handoff?) && ticket == (step.t, s.threads[step.t].done) {
      ReturnsAgree(s, step.t, ticket);
    }
  }

  /** An append about to return was not told another number before. */
  lemma ReturnsAgree(s: State, t: Tid, ticket: Ticket)
    requires Inv(s) && ticket in s.returned && t < |s.threads|
    requires !s.threads[t].pc.Idle? && s.threads[t].slot.mark.Done? && ticket == (t, s.threads[t].done)
    ensures s.returned[ticket] == s.threads[t].slot.seqNo
  {
    assert ReturnOk(s, ticket) && AppendOk(s, t);
    ReturnedNumber(s, t);
  }

  /** And none is returned again: what an append returned never changes. */
  lemma {:induction false} ReturnedStays(appenders: nat, run: seq<State>, steps: seq<Step>, i: nat, j: nat, ticket: Ticket)
    requires IsRun(appenders, run, steps) && i <= j < |run| && ticket in run[i].returned
    ensures ticket in run[j].returned && run[j].returned[ticket] == run[i].returned[ticket]
    decreases j - i
  {
    if i < j {
      ReturnedStays(appenders, run, steps, i, j - 1, ticket);
      RunInv(appenders, run, steps, j - 1);
      ReturnKeepsReturned(run[j - 1], steps[j - 1], ticket);
    }
  }

  /** The appender behind the `a`-th slot of a fully numbered batch. */
  lemma BatchEntry(s: State, t: Tid, a: nat)
    requires Inv(s) && Enabled(s, Write(t)) && a < |s.threads[t].pc.batch|
    ensures |s.file| + a < |s.order| && s.order[|s.file| + a] == s.threads[t].pc.batch[a]
    ensures var (u, k) := s.threads[t].pc.batch[a];
      u < |s.threads| && !s.threads[u].pc.Idle? && s.threads[u].done == k && s.threads[u].slot.seqNo == |s.file| + a + 1
  {
    BossActs(s, t);
    assert s.order[|s.file| + a] == InHand(s)[a];
    assert TicketOk(s, |s.file| + a);
    assert AppendOk(s, s.threads[t].pc.batch[a].0);
  }

  lemma BatchDistinct(s: State, t: Tid, a: nat, b: nat)
    requires Inv(s) && Enabled(s, Write(t)) && a < b < |s.threads[t].pc.batch|
    ensures s.threads[t].pc.batch[a].0 != s.threads[t].pc.batch[b].0
  {
    BatchEntry(s, t, a);
    BatchEntry(s, t, b);
  }

  /** Every round is a round of the commit protocol: the batch holds distinct appenders, each inside
      the queued append and holding its number, and the frames written are exactly the ones
      `CommitState.NumberedAll` writes. */
  lemma RoundIsBatchAppend(appenders: nat, run: seq<State>, steps: seq<Step>, i: nat, t: Tid, c: Core)
    requires IsRun(appenders, run, steps) && i < |run| && Enabled(run[i], Write(t))
    requires c.file == run[i].file && c.nextSeq == |run[i].file|
    ensures var batch, next := run[i].threads[t].pc.batch, NumberedAll(CommitState.FlatCombining, c, run[i].threads[t].pc.batch);
      && next.file == Apply(run[i], Write(t)).file && next.nextSeq == run[i].nextSeq
      && (forall a, b :: 0 <= a < b < |batch| ==> batch[a].0 != batch[b].0)
      && (forall a :: 0 <= a < |batch| ==>
            batch[a].0 < |run[i].threads| && run[i].threads[batch[a].0].slot.seqNo == |run[i].file| + a + 1)
  {
    var s, batch := run[i], run[i].threads[t].pc.batch;
    RunInv(appenders, run, steps, i);
    BossActs(s, t);
    RoundIsConsecutive(CommitState.FlatCombining, c, batch);
    assert Frames(batch, |s.file| + 1)
        == seq(|batch|, k requires 0 <= k < |batch| => Record(c.nextSeq + k + 1, batch[k].0, batch[k].1));
    forall a | 0 <= a < |batch|
      ensures batch[a].0 < |s.threads| && s.threads[batch[a].0].slot.seqNo == |s.file| + a + 1
    {
      BatchEntry(s, t, a);
    }
    forall a, b | 0 <= a < b < |batch|
      ensures batch[a].0 != batch[b].0
    {
      BatchDistinct(s, t, a, b);
    }
  }
}
