/** The group-commit prototype as a step system: any number of writer threads, each with a program
    counter, one mutex `st`, the atomic watermark, and a disk whose `sync_all` has a beginning and
    an end. When a leader closes its batch is left open, so every batch-closing policy (window,
    EMA, cohort, quiet time) is covered. */
module GroupCommit {

  import opened Options
  import opened CommitState

  /** Where a writer stands. `q` is the sequence number of its current record. */
  datatype Pc =
    | Idle
    | Queued
    | Appending(mine: nat)                             // holds st; 0 until its own record is numbered
    | Check(q: nat)                                    // top of await_durable
    | Contend(q: nat)
    | Deciding(q: nat)                                 // holds st
    | Waiting(q: nat)
    | ParkTest(q: nat)
    | Parked(q: nat)
    | Unparked(q: nat)
    | Peeking(q: nat)                                  // holds st
    | Leading(q: nat)                                  // the batch window
    | Collecting(q: nat)                               // holds st
    | Writing(q: nat, max: nat, pending: seq<Record>)
    | SyncReady(q: nat, max: nat)
    | Syncing(q: nat, max: nat, covered: nat)          // covered: file length when the sync began
    | Synced(q: nat, max: nat)
    | Publishing(q: nat, max: nat)                     // holds st
    | Draining(q: nat, max: nat)                       // holds st, watermark already stored
    | Waking(q: nat, wake: seq<Tid>)

  datatype Thread = Thread(pc: Pc, acked: nat)

  /** `log`, `stamps`, `acks`, `collector` and `flusher` are history: no step reads them. */
  datatype State = State(
    core: Core,
    lock: Option<Tid>,
    threads: seq<Thread>,
    tokens: set<Tid>,               // pending unparks
    synced: nat,                    // file length the last completed sync is known to cover
    syncs: nat,                     // completed syncs
    log: seq<Record>,               // every record numbered so far
    stamps: seq<nat>,               // stamps[i]: completed syncs when log[i] was appended
    acks: map<(Tid, nat), nat>,     // (writer, operation) -> acknowledged sequence number
    collector: Option<Tid>,
    flusher: Option<Tid>)

  datatype Step =
    | Enqueue(t: Tid)
    | LockAppend(t: Tid)
    | Number(t: Tid, u: Tid)
    | UnlockAppend(t: Tid)
    | FastAck(t: Tid)
    | FastMiss(t: Tid)
    | LockDecide(t: Tid)
    | SlowAck(t: Tid)
    | Lead(t: Tid)
    | Wait(t: Tid)
    | Notified(t: Tid)
    | ParkExit(t: Tid)
    | ParkSleep(t: Tid)
    | ParkReturn(t: Tid)
    | LockPeek(t: Tid)
    | Peek(t: Tid)
    | LockCollect(t: Tid)
    | YieldFlush(t: Tid)
    | Collect(t: Tid)
    | WriteOne(t: Tid)
    | WriteDone(t: Tid)
    | SyncBegin(t: Tid)
    | SyncEnd(t: Tid)
    | LockPublish(t: Tid)
    | Store(t: Tid)
    | Drain(t: Tid)
    | WakeOne(t: Tid)
    | WakeDone(t: Tid)

  function Init(writers: nat): State {
    State(EMPTY, None, seq(writers, _ => Thread(Idle, 0)), {}, 0, 0, [], [], map[], None, None)
  }

  function To(s: State, t: Tid, pc: Pc): State
    requires t < |s.threads|
  {
    s.(threads := s.threads[t := s.threads[t].(pc := pc)])
  }

  /** `await_durable` returns: the writer's operation is acknowledged. */
  function Acked(s: State, t: Tid, q: nat): State
    requires t < |s.threads|
  {
    s.(threads := s.threads[t := Thread(Idle, s.threads[t].acked + 1)],
       acks := s.acks[(t, s.threads[t].acked) := q])
  }

  predicate Enabled(v: Variant, s: State, step: Step) {
    step.t < |s.threads| &&
    var pc := s.threads[step.t].pc;
    match step
    case Enqueue(t) => pc.Idle?
    case LockAppend(t) => pc.Queued? && s.lock.None?
    case Number(t, u) =>
      pc.Appending? && u < |s.threads| &&
      if u == t then pc.mine == 0 else v.FlatCombining? && s.threads[u].pc.Queued?
    case UnlockAppend(t) => pc.Appending? && pc.mine > 0
    case FastAck(t) => pc.Check? && s.core.durable >= pc.q
    case FastMiss(t) => pc.Check? && s.core.durable < pc.q
    case LockDecide(t) => pc.Contend? && s.lock.None?
    case SlowAck(t) => pc.Deciding? && s.core.durable >= pc.q
    case Lead(t) => pc.Deciding? && s.core.durable < pc.q && !s.core.leaderActive
    case Wait(t) => pc.Deciding? && s.core.durable < pc.q && s.core.leaderActive
    case Notified(t) => pc.Waiting?
    case ParkExit(t) => pc.ParkTest? && s.core.durable >= pc.q
    case ParkSleep(t) => pc.ParkTest? && s.core.durable < pc.q
    case ParkReturn(t) => pc.Parked?
    case LockPeek(t) => pc.Unparked? && s.lock.None?
    case Peek(t) => pc.Peeking?
    case LockCollect(t) => pc.Leading? && s.lock.None?
    case YieldFlush(t) => pc.Collecting? && v.Pipelined? && s.core.flushing
    case Collect(t) => pc.Collecting? && !(v.Pipelined? && s.core.flushing)
    case WriteOne(t) => pc.Writing? && pc.pending != []
    case WriteDone(t) => pc.Writing? && pc.pending == []
    case SyncBegin(t) => pc.SyncReady?
    case SyncEnd(t) => pc.Syncing?
    case LockPublish(t) => pc.Synced? && s.lock.None?
    case Store(t) => pc.Publishing?
    case Drain(t) => pc.Draining?
    case WakeOne(t) => pc.Waking? && pc.wake != []
    case WakeDone(t) => pc.Waking? && pc.wake == []
  }

  function Apply(v: Variant, s: State, step: Step): State
    requires Enabled(v, s, step)
  {
    var pc := s.threads[step.t].pc;
    match step
    case Enqueue(t) => To(s, t, Queued)
    case LockAppend(t) => To(s, t, Appending(0)).(lock := Some(t))
    case Number(t, u) =>
      var seqNo := s.core.nextSeq + 1;
      var op := s.threads[u].acked;
      To(s, u, if u == t then Appending(seqNo) else Check(seqNo))
        .(core := Numbered(v, s.core, u, op),
          log := s.log + [Record(seqNo, u, op)],
          stamps := s.stamps + [s.syncs])
    case UnlockAppend(t) => To(s, t, Check(pc.mine)).(lock := None)
    case FastAck(t) => Acked(s, t, pc.q)
    case FastMiss(t) => To(s, t, Contend(pc.q))
    case LockDecide(t) => To(s, t, Deciding(pc.q)).(lock := Some(t))
    case SlowAck(t) => Acked(s, t, pc.q).(lock := None)
    case Lead(t) => To(s, t, Leading(pc.q)).(core := Elected(s.core), lock := None, collector := Some(t))
    case Wait(t) =>
      if v.Park? then To(s, t, ParkTest(pc.q)).(core := Registered(s.core, pc.q, t), lock := None)
      else To(s, t, Waiting(pc.q)).(lock := None)
    case Notified(t) => To(s, t, Check(pc.q))
    case ParkExit(t) => To(s, t, Check(pc.q))
    case ParkSleep(t) => To(s, t, Parked(pc.q))
    case ParkReturn(t) => To(s, t, Unparked(pc.q)).(tokens := s.tokens - {t})
    case LockPeek(t) => To(s, t, Peeking(pc.q)).(lock := Some(t))
    case Peek(t) => To(s, t, if s.core.leaderActive then ParkTest(pc.q) else Check(pc.q)).(lock := None)
    case LockCollect(t) => To(s, t, Collecting(pc.q)).(lock := Some(t))
    case YieldFlush(t) => To(s, t, Leading(pc.q)).(lock := None)
    case Collect(t) =>
      To(s, t, Writing(pc.q, s.core.nextSeq, Taken(v, s.core)))
        .(core := Collected(v, s.core), lock := None, collector := None, flusher := Some(t))
    case WriteOne(t) =>
      To(s, t, Writing(pc.q, pc.max, pc.pending[1..]))
        .(core := s.core.(file := s.core.file + [pc.pending[0]]))
    case WriteDone(t) => To(s, t, SyncReady(pc.q, pc.max))
    case SyncBegin(t) => To(s, t, Syncing(pc.q, pc.max, |s.core.file|))
    case SyncEnd(t) =>
      To(s, t, Synced(pc.q, pc.max))
        .(synced := if s.synced < pc.covered then pc.covered else s.synced, syncs := s.syncs + 1)
    case LockPublish(t) => To(s, t, Publishing(pc.q, pc.max)).(lock := Some(t))
    case Store(t) =>
      var s1 := s.(core := Stored(v, s.core, pc.max), flusher := None);
      if v.Park? then To(s1, t, Draining(pc.q, pc.max)) else To(s1, t, Check(pc.q)).(lock := None)
    case Drain(t) =>
      To(s, t, Waking(pc.q, Woken(s.core.waiters, pc.max)))
        .(core := s.core.(waiters := Kept(s.core.waiters, pc.max)), lock := None)
    case WakeOne(t) => To(s, t, Waking(pc.q, pc.wake[1..])).(tokens := s.tokens + {pc.wake[0]})
    case WakeDone(t) => To(s, t, Check(pc.q))
  }

  /** A run: the states passed through, one more than the steps taken. */
  ghost predicate IsRun(v: Variant, writers: nat, run: seq<State>, steps: seq<Step>) {
    && |run| == |steps| + 1
    && run[0] == Init(writers)
    && forall i :: 0 <= i < |steps| ==> Enabled(v, run[i], steps[i]) && run[i + 1] == Apply(v, run[i], steps[i])
  }

  // ------------------------------------------------------------------------------------------
  // The invariant
  // ------------------------------------------------------------------------------------------

  predicate HoldsLock(pc: Pc) {
    pc.Appending? || pc.Deciding? || pc.Peeking? || pc.Collecting? || pc.Publishing? || pc.Draining?
  }

  predicate IsCollecting(pc: Pc) {
    pc.Leading? || pc.Collecting?
  }

  /** From closing the batch until its watermark is stored. */
  predicate IsFlushing(pc: Pc) {
    pc.Writing? || pc.SyncReady? || pc.Syncing? || pc.Synced? || pc.Publishing?
  }

  /** The current record's number, 0 while there is none. */
  function SeqOf(pc: Pc): nat {
    if pc.Idle? || pc.Queued? then 0 else if pc.Appending? then pc.mine else pc.q
  }

  predicate HasSeq(pc: Pc) {
    !(pc.Idle? || pc.Queued? || pc.Appending?)
  }

  /** How many records of `w` are in `log`. */
  function CountOf(log: seq<Record>, w: Tid): nat {
    if log == [] then 0
    else CountOf(log[..|log| - 1], w) + if log[|log| - 1].writer == w then 1 else 0
  }

  function PendingOf(s: State): seq<Record> {
    if s.flusher.Some? && s.flusher.value < |s.threads| && s.threads[s.flusher.value].pc.Writing?
    then s.threads[s.flusher.value].pc.pending
    else []
  }

  /** Lock and roles: each has exactly the owner the program counters say. */
  ghost predicate RoleOk(s: State, t: Tid)
    requires t < |s.threads|
  {
    var pc := s.threads[t].pc;
    && (HoldsLock(pc) <==> s.lock == Some(t))
    && (IsCollecting(pc) <==> s.collector == Some(t))
    && (IsFlushing(pc) <==> s.flusher == Some(t))
  }

  /** The shared flags say whether the roles are taken. */
  predicate FlagsOk(v: Variant, s: State) {
    if v.Pipelined? then s.core.leaderActive == s.collector.Some? && s.core.flushing == s.flusher.Some?
    else s.core.leaderActive == (s.collector.Some? || s.flusher.Some?)
         && !(s.collector.Some? && s.flusher.Some?) && !s.core.flushing
  }

  ghost predicate RoleInv(v: Variant, s: State) {
    && (s.lock.Some? ==> s.lock.value < |s.threads|)
    && (s.collector.Some? ==> s.collector.value < |s.threads|)
    && (s.flusher.Some? ==> s.flusher.value < |s.threads|)
    && FlagsOk(v, s)
    && (forall t :: 0 <= t < |s.threads| ==> RoleOk(s, t))
  }

  /** The log is numbered 1, 2, 3, ... and each writer's operations appear in it in order. */
  ghost predicate EntryOk(s: State, i: nat)
    requires i < |s.log|
  {
    && s.log[i].seqNo == i + 1
    && s.log[i].writer < |s.threads|
    && s.log[i].op == CountOf(s.log[..i], s.log[i].writer)
  }

  ghost predicate SeqOk(s: State, t: Tid)
    requires t < |s.threads|
  {
    var q, acked := SeqOf(s.threads[t].pc), s.threads[t].acked;
    && (HasSeq(s.threads[t].pc) ==> q > 0)
    && (q > 0 ==> q <= |s.log| && s.log[q - 1] == Record(q, t, acked))
    && CountOf(s.log, t) == acked + (if q > 0 then 1 else 0)
  }

  ghost predicate LogInv(s: State) {
    && |s.log| == s.core.nextSeq
    && (forall i :: 0 <= i < |s.log| ==> EntryOk(s, i))
    && (forall t :: 0 <= t < |s.threads| ==> SeqOk(s, t))
  }

  ghost predicate FlushOk(s: State, pc: Pc) {
    match pc
    case Writing(_, max, pending) => s.core.durable <= max <= |s.core.file| + |pending|
    case SyncReady(_, max) => s.core.durable <= max <= |s.core.file|
    case Syncing(_, max, covered) => s.core.durable <= max <= covered <= |s.core.file|
    case Synced(_, max) => s.core.durable <= max <= s.synced
    case Publishing(_, max) => s.core.durable <= max <= s.synced
    case _ => true
  }

  /** Where the log is: in the file, in the flushing leader's hands, or in the buffer; and how much
      of the file the watermark and the completed syncs cover. */
  ghost predicate DiskInv(v: Variant, s: State) {
    && s.core.file + PendingOf(s) + s.core.buf == s.log
    && (!v.LogBuffer? ==> s.core.buf == [] && PendingOf(s) == [])
    && s.core.durable <= s.synced <= |s.core.file|
    && (forall t :: 0 <= t < |s.threads| ==> FlushOk(s, s.threads[t].pc))
  }

  ghost predicate AckOk(s: State, w: Tid, op: nat)
    requires (w, op) in s.acks
  {
    && w < |s.threads| && op < s.threads[w].acked
    && 1 <= s.acks[(w, op)] <= s.core.durable <= |s.log|
    && s.log[s.acks[(w, op)] - 1] == Record(s.acks[(w, op)], w, op)
  }

  ghost predicate AckInv(s: State) {
    && (forall w, op :: (w, op) in s.acks ==> AckOk(s, w, op))
    && (forall w, op :: 0 <= w < |s.threads| && 0 <= op < s.threads[w].acked ==> (w, op) in s.acks)
  }

  predicate PreSync(pc: Pc) {
    pc.Writing? || pc.SyncReady? || pc.Syncing?
  }

  predicate PostSync(pc: Pc) {
    pc.Synced? || pc.Publishing?
  }

  /** Every record from `from` on was appended after at least `k` completed syncs. */
  ghost predicate StampedFrom(s: State, from: nat, k: int) {
    forall i :: from <= i < |s.stamps| ==> s.stamps[i] >= k
  }

  ghost predicate StampOk(s: State, pc: Pc) {
    && (PreSync(pc) ==> StampedFrom(s, pc.max, s.syncs))
    && (PostSync(pc) ==> StampedFrom(s, pc.max, s.syncs - 1))
  }

  /** Records the protocol has not covered yet were appended recently, counted in syncs. */
  ghost predicate StampInv(s: State) {
    && |s.stamps| == |s.log|
    && (forall i :: 0 <= i < |s.stamps| ==> s.stamps[i] <= s.syncs)
    && StampedFrom(s, s.synced, s.syncs - 1)
    && (forall t :: 0 <= t < |s.threads| ==> StampOk(s, s.threads[t].pc))
    && (!Unpublished(s) ==> StampedFrom(s, s.core.durable, s.syncs - 1))
  }

  /** Some sync has completed whose watermark is not stored yet. */
  predicate Unpublished(s: State) {
    s.flusher.Some? && s.flusher.value < |s.threads| && PostSync(s.threads[s.flusher.value].pc)
  }

  ghost predicate Inv(v: Variant, s: State) {
    RoleInv(v, s) && LogInv(s) && DiskInv(v, s) && AckInv(s) && StampInv(s)
  }

  // ------------------------------------------------------------------------------------------
  // Every step keeps the invariant, one part at a time
  // ------------------------------------------------------------------------------------------

  // The steps, grouped by what a thread is doing.

  predicate IsAppendStep(step: Step) {
    step.Enqueue? || step.LockAppend? || step.Number? || step.UnlockAppend?
  }

  predicate IsAckStep(step: Step) {
    step.FastAck? || step.FastMiss? || step.LockDecide? || step.SlowAck?
  }

  predicate IsWaitStep(step: Step) {
    step.Lead? || step.Wait? || step.Notified?
  }

  predicate IsParkStep(step: Step) {
    step.ParkExit? || step.ParkSleep? || step.ParkReturn?
  }

  predicate IsPeekStep(step: Step) {
    step.LockPeek? || step.Peek?
  }

  predicate IsCollectStep(step: Step) {
    step.LockCollect? || step.YieldFlush? || step.Collect?
  }

  predicate IsWriteStep(step: Step) {
    step.WriteOne? || step.WriteDone? || step.SyncBegin?
  }

  predicate IsPublishStep(step: Step) {
    step.SyncEnd? || step.LockPublish? || step.Store?
  }

  predicate IsWakeStep(step: Step) {
    step.Drain? || step.WakeOne? || step.WakeDone?
  }

  /** The steps of a leader between closing its batch and storing its watermark. */
  predicate IsFlushStep(step: Step) {
    IsWriteStep(step) || IsPublishStep(step)
  }

  predicate MovesOne(s: State, s': State, t: Tid) {
    t < |s.threads| == |s'.threads| && s'.threads == s.threads[t := s'.threads[t]]
  }

  /** A role stays where it is, or passes between `t` and nobody. */
  predicate Passes(o: Option<Tid>, o': Option<Tid>, t: Tid) {
    o' == o || ((o.None? || o == Some(t)) && (o'.None? || o' == Some(t)))
  }

  /** The thread's number and count go on as they are, or its operation is acknowledged. */
  predicate Carries(a: Thread, b: Thread) {
    || (SeqOf(b.pc) == SeqOf(a.pc) && b.acked == a.acked && (HasSeq(b.pc) ==> HasSeq(a.pc) || SeqOf(a.pc) > 0))
    || (HasSeq(a.pc) && b == Thread(Idle, a.acked + 1))
  }

  /** What a step of `t` that numbers no record does to the roles and to `t`. */
  ghost predicate Moves(v: Variant, s: State, s': State, t: Tid) {
    && RolesMove(v, s, s', t) && Carries(s.threads[t], s'.threads[t])
    && s'.log == s.log && s'.core.nextSeq == s.core.nextSeq
  }

  ghost predicate RolesMove(v: Variant, s: State, s': State, t: Tid) {
    && MovesOne(s, s', t) && RoleOk(s', t) && FlagsOk(v, s')
    && Passes(s.lock, s'.lock, t) && Passes(s.collector, s'.collector, t) && Passes(s.flusher, s'.flusher, t)
  }

  lemma NumberMoves(v: Variant, s: State, t: Tid, u: Tid)
    requires RoleInv(v, s) && Enabled(v, s, Number(t, u))
    ensures RolesMove(v, s, Apply(v, s, Number(t, u)), u)
  {
    assert RoleOk(s, t) && RoleOk(s, u);
  }

  lemma AppendMoves(v: Variant, s: State, step: Step)
    requires RoleInv(v, s) && Enabled(v, s, step) && IsAppendStep(step) && !step.Number?
    ensures Moves(v, s, Apply(v, s, step), step.t)
  {
    assert RoleOk(s, step.t);
  }

  lemma AckMoves(v: Variant, s: State, step: Step)
    requires RoleInv(v, s) && Enabled(v, s, step) && IsAckStep(step)
    ensures Moves(v, s, Apply(v, s, step), step.t)
  {
    assert RoleOk(s, step.t);
  }

  lemma WaitMoves(v: Variant, s: State, step: Step)
    requires RoleInv(v, s) && Enabled(v, s, step) && IsWaitStep(step)
    ensures Moves(v, s, Apply(v, s, step), step.t)
  {
    assert RoleOk(s, step.t);
  }

  lemma ParkMoves(v: Variant, s: State, step: Step)
    requires RoleInv(v, s) && Enabled(v, s, step) && IsParkStep(step)
    ensures Moves(v, s, Apply(v, s, step), step.t)
  {
    assert RoleOk(s, step.t);
  }

  lemma PeekMoves(v: Variant, s: State, step: Step)
    requires RoleInv(v, s) && Enabled(v, s, step) && IsPeekStep(step)
    ensures Moves(v, s, Apply(v, s, step), step.t)
  {
    assert RoleOk(s, step.t);
  }

  lemma CollectMoves(v: Variant, s: State, step: Step)
    requires RoleInv(v, s) && Enabled(v, s, step) && IsCollectStep(step)
    ensures Moves(v, s, Apply(v, s, step), step.t)
  {
    assert RoleOk(s, step.t);
  }

  lemma WriteMoves(v: Variant, s: State, step: Step)
    requires RoleInv(v, s) && Enabled(v, s, step) && IsWriteStep(step)
    ensures Moves(v, s, Apply(v, s, step), step.t)
  {
    assert RoleOk(s, step.t);
  }

  lemma PublishMoves(v: Variant, s: State, step: Step)
    requires RoleInv(v, s) && Enabled(v, s, step) && IsPublishStep(step) && !step.Store?
    ensures Moves(v, s, Apply(v, s, step), step.t)
  {
    assert RoleOk(s, step.t);
  }

  lemma WakeMoves(v: Variant, s: State, step: Step)
    requires RoleInv(v, s) && Enabled(v, s, step) && IsWakeStep(step) && !step.Drain?
    ensures Moves(v, s, Apply(v, s, step), step.t)
  {
    assert RoleOk(s, step.t);
  }

  lemma StoreMoves(v: Variant, s: State, t: Tid)
    requires RoleInv(v, s) && Enabled(v, s, Store(t))
    ensures Moves(v, s, Apply(v, s, Store(t)), t)
  {
    assert RoleOk(s, t);
  }

  lemma DrainMoves(v: Variant, s: State, t: Tid)
    requires RoleInv(v, s) && Enabled(v, s, Drain(t))
    ensures Moves(v, s, Apply(v, s, Drain(t)), t)
  {
    assert RoleOk(s, t);
  }

  lemma StepMoves(v: Variant, s: State, step: Step)
    requires RoleInv(v, s) && Enabled(v, s, step) && !step.Number?
    ensures Moves(v, s, Apply(v, s, step), step.t)
  {
    if IsAppendStep(step) {
      AppendMoves(v, s, step);
    } else if IsAckStep(step) {
      AckMoves(v, s, step);
    } else if IsWaitStep(step) {
      WaitMoves(v, s, step);
    } else if IsParkStep(step) {
      ParkMoves(v, s, step);
    } else if IsPeekStep(step) {
      PeekMoves(v, s, step);
    } else if IsCollectStep(step) {
      CollectMoves(v, s, step);
    } else if IsWriteStep(step) {
      WriteMoves(v, s, step);
    } else if step.Store? {
      StoreMoves(v, s, step.t);
    } else if IsPublishStep(step) {
      PublishMoves(v, s, step);
    } else if step.Drain? {
      DrainMoves(v, s, step.t);
    } else {
      WakeMoves(v, s, step);
    }
  }

  lemma RolesKeptByOne(v: Variant, s: State, s': State, t: Tid)
    requires RoleInv(v, s) && RolesMove(v, s, s', t)
    ensures RoleInv(v, s')
  {
    forall x | 0 <= x < |s'.threads|
      ensures RoleOk(s', x)
    {
      assert RoleOk(s, x);
    }
  }

  lemma RolesKept(v: Variant, s: State, step: Step)
    requires RoleInv(v, s) && Enabled(v, s, step)
    ensures RoleInv(v, Apply(v, s, step))
  {
    if step.Number? {
      NumberMoves(v, s, step.t, step.u);
      RolesKeptByOne(v, s, Apply(v, s, step), step.u);
    } else {
      StepMoves(v, s, step);
      RolesKeptByOne(v, s, Apply(v, s, step), step.t);
    }
  }

  lemma CountGrows(log: seq<Record>, r: Record, w: Tid)
    ensures CountOf(log + [r], w) == CountOf(log, w) + if r.writer == w then 1 else 0
  {
    assert (log + [r])[..|log|] == log;
  }

  lemma NumberKeepsEntry(s: State, s': State, r: Record, i: nat)
    requires LogInv(s) && s'.log == s.log + [r] && |s'.threads| == |s.threads| && i < |s'.log|
    requires r.seqNo == |s.log| + 1 && r.writer < |s.threads| && r.op == CountOf(s.log, r.writer)
    ensures EntryOk(s', i)
  {
    assert s'.log[..i] == s.log[..i];
    if i < |s.log| {
      assert EntryOk(s, i);
    } else {
      assert s.log[..i] == s.log;
    }
  }

  lemma NumberKeepsSeq(v: Variant, s: State, t: Tid, u: Tid, x: Tid)
    requires LogInv(s) && Enabled(v, s, Number(t, u)) && x < |s.threads|
    ensures SeqOk(Apply(v, s, Number(t, u)), x)
  {
    var s', r := Apply(v, s, Number(t, u)), Record(s.core.nextSeq + 1, u, s.threads[u].acked);
    assert SeqOk(s, x);
    assert s'.log == s.log + [r];
    CountGrows(s.log, r, x);
  }

  lemma LogKeptByNumber(v: Variant, s: State, t: Tid, u: Tid)
    requires LogInv(s) && Enabled(v, s, Number(t, u))
    ensures LogInv(Apply(v, s, Number(t, u)))
  {
    var s' := Apply(v, s, Number(t, u));
    assert SeqOk(s, u);
    forall i | 0 <= i < |s'.log|
      ensures EntryOk(s', i)
    {
      NumberKeepsEntry(s, s', Record(s.core.nextSeq + 1, u, s.threads[u].acked), i);
    }
    forall x | 0 <= x < |s'.threads|
      ensures SeqOk(s', x)
    {
      NumberKeepsSeq(v, s, t, u, x);
    }
  }

  lemma LogKeptByOne(v: Variant, s: State, s': State, t: Tid)
    requires LogInv(s) && Moves(v, s, s', t)
    ensures LogInv(s')
  {
    forall i | 0 <= i < |s'.log|
      ensures EntryOk(s', i)
    {
      assert EntryOk(s, i);
    }
    forall x | 0 <= x < |s'.threads|
      ensures SeqOk(s', x)
    {
      assert SeqOk(s, x);
    }
  }

  /** The file and what is to be written stay as they are, and the flusher's own marks stay right. */
  ghost predicate FlushMoves(s: State, s': State, t: Tid) {
    && MovesOne(s, s', t) && PendingOf(s) == PendingOf(s') == [] && FlushOk(s', s'.threads[t].pc)
    && s'.core.file == s.core.file && s'.core.buf == s.core.buf && s'.log == s.log
    && s'.core.durable <= s'.synced <= |s'.core.file|
  }

  lemma DiskKeptByFlusher(v: Variant, s: State, s': State, t: Tid)
    requires RoleInv(v, s) && DiskInv(v, s) && FlushMoves(s, s', t) && IsFlushing(s.threads[t].pc)
    ensures DiskInv(v, s')
  {
    assert RoleOk(s, t);
    forall x | 0 <= x < |s'.threads|
      ensures FlushOk(s', s'.threads[x].pc)
    {
      assert RoleOk(s, x);
    }
  }

  lemma WrittenMoves(v: Variant, s: State, step: Step)
    requires RoleInv(v, s) && DiskInv(v, s) && Enabled(v, s, step) && (step.WriteDone? || step.SyncBegin?)
    ensures FlushMoves(s, Apply(v, s, step), step.t)
  {
    assert RoleOk(s, step.t) && FlushOk(s, s.threads[step.t].pc);
  }

  lemma SyncedMoves(v: Variant, s: State, step: Step)
    requires RoleInv(v, s) && DiskInv(v, s) && Enabled(v, s, step) && IsPublishStep(step)
    ensures FlushMoves(s, Apply(v, s, step), step.t)
  {
    assert RoleOk(s, step.t) && FlushOk(s, s.threads[step.t].pc);
  }

  lemma DiskKeptByFlush(v: Variant, s: State, step: Step)
    requires RoleInv(v, s) && DiskInv(v, s) && Enabled(v, s, step) && IsFlushStep(step) && !step.WriteOne?
    ensures DiskInv(v, Apply(v, s, step))
  {
    if IsPublishStep(step) {
      SyncedMoves(v, s, step);
    } else {
      WrittenMoves(v, s, step);
    }
    DiskKeptByFlusher(v, s, Apply(v, s, step), step.t);
  }

  lemma FirstWritten(file: seq<Record>, pending: seq<Record>, buf: seq<Record>)
    requires pending != []
    ensures file + [pending[0]] + pending[1..] + buf == file + pending + buf
  {
  }

  lemma DiskKeptByWrite(v: Variant, s: State, t: Tid)
    requires RoleInv(v, s) && DiskInv(v, s) && Enabled(v, s, WriteOne(t))
    ensures DiskInv(v, Apply(v, s, WriteOne(t)))
  {
    var s', p := Apply(v, s, WriteOne(t)), s.threads[t].pc.pending;
    assert RoleOk(s, t) && FlushOk(s, s.threads[t].pc);
    assert PendingOf(s) == p && PendingOf(s') == p[1..];
    FirstWritten(s.core.file, p, s.core.buf);
    forall x | 0 <= x < |s'.threads|
      ensures FlushOk(s', s'.threads[x].pc)
    {
      assert RoleOk(s, x) && FlushOk(s, s.threads[x].pc);
    }
  }

  lemma DiskKeptByNumber(v: Variant, s: State, t: Tid, u: Tid)
    requires RoleInv(v, s) && DiskInv(v, s) && Enabled(v, s, Number(t, u))
    ensures DiskInv(v, Apply(v, s, Number(t, u)))
  {
    var s' := Apply(v, s, Number(t, u));
    assert RoleOk(s, t) && RoleOk(s, u);
    assert PendingOf(s') == PendingOf(s);
    forall x | 0 <= x < |s'.threads|
      ensures FlushOk(s', s'.threads[x].pc)
    {
      assert FlushOk(s, s.threads[x].pc);
    }
  }

  lemma DiskKeptByCollect(v: Variant, s: State, t: Tid)
    requires RoleInv(v, s) && DiskInv(v, s) && |s.log| == s.core.nextSeq && Enabled(v, s, Collect(t))
    ensures DiskInv(v, Apply(v, s, Collect(t)))
  {
    var s' := Apply(v, s, Collect(t));
    assert RoleOk(s, t);
    assert PendingOf(s) == [] && PendingOf(s') == Taken(v, s.core);
    forall x | 0 <= x < |s'.threads|
      ensures FlushOk(s', s'.threads[x].pc)
    {
      assert FlushOk(s, s.threads[x].pc);
    }
  }

  /** What the other steps leave alone. */
  ghost predicate SameDisk(s: State, s': State) {
    && s'.core.file == s.core.file && s'.core.buf == s.core.buf && s'.log == s.log && s'.stamps == s.stamps
    && s'.core.durable == s.core.durable && s'.synced == s.synced && s'.syncs == s.syncs
    && s'.core.nextSeq == s.core.nextSeq && s'.flusher == s.flusher && |s'.threads| == |s.threads|
  }

  /** A thread that flushes has not moved; one that moved does not flush. */
  predicate SameFlush(s: State, s': State, x: Tid)
    requires x < |s.threads| && x < |s'.threads|
  {
    s'.threads[x].pc == s.threads[x].pc || (!IsFlushing(s.threads[x].pc) && !IsFlushing(s'.threads[x].pc))
  }

  ghost predicate DiskAside(s: State, s': State) {
    SameDisk(s, s') && forall x :: 0 <= x < |s.threads| ==> SameFlush(s, s', x)
  }

  /** A step by which a thread that does not flush moves to a place where it does not flush. */
  ghost predicate MovesAside(s: State, s': State, t: Tid) {
    && t < |s.threads| && SameDisk(s, s')
    && !IsFlushing(s.threads[t].pc) && !IsFlushing(s'.threads[t].pc)
  }

  lemma AckStepsAside(v: Variant, s: State, step: Step)
    requires Enabled(v, s, step) && IsAckStep(step)
    ensures MovesAside(s, Apply(v, s, step), step.t)
  {
  }

  lemma WaitStepsAside(v: Variant, s: State, step: Step)
    requires Enabled(v, s, step) && IsWaitStep(step)
    ensures MovesAside(s, Apply(v, s, step), step.t)
  {
  }

  lemma AppendStepsAside(v: Variant, s: State, step: Step)
    requires Enabled(v, s, step) && IsAppendStep(step) && !step.Number?
    ensures MovesAside(s, Apply(v, s, step), step.t)
  {
  }

  lemma ParkStepsAside(v: Variant, s: State, step: Step)
    requires Enabled(v, s, step) && IsParkStep(step)
    ensures MovesAside(s, Apply(v, s, step), step.t)
  {
  }

  lemma PeekStepsAside(v: Variant, s: State, step: Step)
    requires Enabled(v, s, step) && IsPeekStep(step)
    ensures MovesAside(s, Apply(v, s, step), step.t)
  {
  }

  lemma CollectStepsAside(v: Variant, s: State, step: Step)
    requires Enabled(v, s, step) && IsCollectStep(step) && !step.Collect?
    ensures MovesAside(s, Apply(v, s, step), step.t)
  {
  }

  lemma DrainAside(v: Variant, s: State, t: Tid)
    requires Enabled(v, s, Drain(t))
    ensures MovesAside(s, Apply(v, s, Drain(t)), t)
  {
  }

  lemma WakeStepsAside(v: Variant, s: State, step: Step)
    requires Enabled(v, s, step) && IsWakeStep(step) && !step.Drain?
    ensures MovesAside(s, Apply(v, s, step), step.t)
  {
  }

  lemma AsideByOne(s: State, s': State, t: Tid)
    requires MovesOne(s, s', t) && MovesAside(s, s', t)
    ensures DiskAside(s, s')
  {
  }

  lemma DiskKeptAside(v: Variant, s: State, s': State)
    requires DiskInv(v, s) && DiskAside(s, s')
    ensures DiskInv(v, s')
  {
    assert s.flusher.Some? && s.flusher.value < |s.threads| ==> SameFlush(s, s', s.flusher.value);
    assert PendingOf(s') == PendingOf(s);
    forall x | 0 <= x < |s'.threads|
      ensures FlushOk(s', s'.threads[x].pc)
    {
      assert SameFlush(s, s', x) && FlushOk(s, s.threads[x].pc);
    }
  }

  lemma StepIsAside(v: Variant, s: State, step: Step)
    requires RoleInv(v, s) && Enabled(v, s, step) && !IsFlushStep(step) && !step.Number? && !step.Collect?
    ensures DiskAside(s, Apply(v, s, step))
  {
    if IsAckStep(step) {
      AckStepsAside(v, s, step);
    } else if IsWaitStep(step) {
      WaitStepsAside(v, s, step);
    } else if IsCollectStep(step) {
      CollectStepsAside(v, s, step);
    } else if step.Drain? {
      DrainAside(v, s, step.t);
    } else if IsWakeStep(step) {
      WakeStepsAside(v, s, step);
    } else if IsParkStep(step) {
      ParkStepsAside(v, s, step);
    } else if IsPeekStep(step) {
      PeekStepsAside(v, s, step);
    } else {
      AppendStepsAside(v, s, step);
    }
    StepMoves(v, s, step);
    AsideByOne(s, Apply(v, s, step), step.t);
  }

  /** An acknowledgement stays good while the log, the watermark and the writer's count only grow. */
  lemma AckStays(s: State, s': State, w: Tid, op: nat)
    requires (w, op) in s.acks && AckOk(s, w, op) && (w, op) in s'.acks && s'.acks[(w, op)] == s.acks[(w, op)]
    requires s.log <= s'.log && s.core.durable <= s'.core.durable <= |s'.log| && |s.threads| == |s'.threads|
    requires s.threads[w].acked <= s'.threads[w].acked
    ensures AckOk(s', w, op)
  {
  }

  lemma AcksKeptByAck(v: Variant, s: State, step: Step)
    requires LogInv(s) && DiskInv(v, s) && AckInv(s) && Enabled(v, s, step) && (step.FastAck? || step.SlowAck?)
    ensures AckInv(Apply(v, s, step))
  {
    var s', t := Apply(v, s, step), step.t;
    assert SeqOk(s, t);
    forall w, op | (w, op) in s'.acks
      ensures AckOk(s', w, op)
    {
      if (w, op) in s.acks {
        assert AckOk(s, w, op);
        AckStays(s, s', w, op);
      }
    }
  }

  lemma AcksKeptByOthers(v: Variant, s: State, step: Step)
    requires DiskInv(v, s) && AckInv(s) && Enabled(v, s, step) && !step.FastAck? && !step.SlowAck?
    ensures AckInv(Apply(v, s, step))
  {
    var s', t := Apply(v, s, step), step.t;
    assert FlushOk(s, s.threads[t].pc);
    assert s'.acks == s.acks && |s'.threads| == |s.threads| && s.log <= s'.log;
    assert s.core.durable <= s'.core.durable <= |s'.log|;
    assert forall x :: 0 <= x < |s.threads| ==> s'.threads[x].acked == s.threads[x].acked;
    forall w, op | (w, op) in s'.acks
      ensures AckOk(s', w, op)
    {
      assert AckOk(s, w, op);
      AckStays(s, s', w, op);
    }
  }

  lemma AcksKept(v: Variant, s: State, step: Step)
    requires LogInv(s) && DiskInv(v, s) && AckInv(s) && Enabled(v, s, step)
    ensures AckInv(Apply(v, s, step))
  {
    if step.FastAck? || step.SlowAck? {
      AcksKeptByAck(v, s, step);
    } else {
      AcksKeptByOthers(v, s, step);
    }
  }

  /** Writing, and moving on without a completed sync or a stored watermark. */
  lemma StampsKeptByWrite(v: Variant, s: State, step: Step)
    requires RoleInv(v, s) && StampInv(s) && Enabled(v, s, step)
    requires step.WriteOne? || step.WriteDone? || step.SyncBegin? || step.LockPublish?
    ensures StampInv(Apply(v, s, step))
  {
    var s', t := Apply(v, s, step), step.t;
    assert RoleOk(s, t) && StampOk(s, s.threads[t].pc);
    forall x | 0 <= x < |s'.threads|
      ensures StampOk(s', s'.threads[x].pc)
    {
      assert StampOk(s, s.threads[x].pc);
    }
  }

  lemma StampsKeptBySync(v: Variant, s: State, t: Tid)
    requires RoleInv(v, s) && DiskInv(v, s) && StampInv(s) && Enabled(v, s, SyncEnd(t))
    ensures StampInv(Apply(v, s, SyncEnd(t)))
  {
    var s' := Apply(v, s, SyncEnd(t));
    assert RoleOk(s, t) && FlushOk(s, s.threads[t].pc) && StampOk(s, s.threads[t].pc);
    forall x | 0 <= x < |s'.threads|
      ensures StampOk(s', s'.threads[x].pc)
    {
      assert RoleOk(s, x) && StampOk(s, s.threads[x].pc);
    }
  }

  lemma StampsKeptByStore(v: Variant, s: State, t: Tid)
    requires RoleInv(v, s) && StampInv(s) && Enabled(v, s, Store(t))
    ensures StampInv(Apply(v, s, Store(t)))
  {
    var s' := Apply(v, s, Store(t));
    assert RoleOk(s, t) && StampOk(s, s.threads[t].pc);
    forall x | 0 <= x < |s'.threads|
      ensures StampOk(s', s'.threads[x].pc)
    {
      assert RoleOk(s, x) && StampOk(s, s.threads[x].pc);
    }
  }

  lemma StampsKeptAside(s: State, s': State)
    requires StampInv(s) && DiskAside(s, s')
    ensures StampInv(s')
  {
    assert s.flusher.Some? && s.flusher.value < |s.threads| ==> SameFlush(s, s', s.flusher.value);
    assert Unpublished(s') == Unpublished(s);
    forall x | 0 <= x < |s'.threads|
      ensures StampOk(s', s'.threads[x].pc)
    {
      assert SameFlush(s, s', x) && StampOk(s, s.threads[x].pc);
    }
  }

  lemma StampsKeptByCollect(v: Variant, s: State, t: Tid)
    requires RoleInv(v, s) && StampInv(s) && |s.log| == s.core.nextSeq && Enabled(v, s, Collect(t))
    ensures StampInv(Apply(v, s, Collect(t)))
  {
    var s' := Apply(v, s, Collect(t));
    assert RoleOk(s, t);
    assert !Unpublished(s) && !Unpublished(s');
    forall x | 0 <= x < |s'.threads|
      ensures StampOk(s', s'.threads[x].pc)
    {
      assert StampOk(s, s.threads[x].pc);
    }
  }

  lemma StampsKeptByNumber(v: Variant, s: State, t: Tid, u: Tid)
    requires RoleInv(v, s) && StampInv(s) && Enabled(v, s, Number(t, u))
    ensures StampInv(Apply(v, s, Number(t, u)))
  {
    var s' := Apply(v, s, Number(t, u));
    assert RoleOk(s, u) && RoleOk(s, t);
    assert Unpublished(s') == Unpublished(s);
    forall x | 0 <= x < |s'.threads|
      ensures StampOk(s', s'.threads[x].pc)
    {
      assert StampOk(s, s.threads[x].pc);
    }
  }

  // ------------------------------------------------------------------------------------------
  // The park form
  // ------------------------------------------------------------------------------------------

  /** The leader has stored its watermark but not yet drained the waiters, still under the lock. */
  predicate MidDrain(s: State) {
    s.lock.Some? && s.lock.value < |s.threads| && s.threads[s.lock.value].pc.Draining?
  }

  /** A leader has taken `t` off the list and is about to unpark it. */
  ghost predicate WakeComing(s: State, t: Tid) {
    exists u :: 0 <= u < |s.threads| && s.threads[u].pc.Waking? && t in s.threads[u].pc.wake
  }

  /** A thread in the park loop is registered, or its record is already durable; and if it sleeps
      on a durable record, its unpark is pending or under way. */
  ghost predicate ParkOk(s: State, t: Tid)
    requires t < |s.threads|
  {
    match s.threads[t].pc
    case ParkTest(q) => Waiter(q, t) in s.core.waiters || q <= s.core.durable
    case Unparked(q) => Waiter(q, t) in s.core.waiters || q <= s.core.durable
    case Peeking(q) => Waiter(q, t) in s.core.waiters || q <= s.core.durable
    case Parked(q) =>
      Waiter(q, t) in s.core.waiters || (q <= s.core.durable && (t in s.tokens || WakeComing(s, t)))
    case Draining(_, max) => s.core.durable == max
    case _ => true
  }

  ghost predicate ParkInv(v: Variant, s: State) {
    && (!v.Park? ==> s.core.waiters == [])
    && (!MidDrain(s) ==> forall w :: w in s.core.waiters ==> w.seqNo > s.core.durable)
    && (forall t :: 0 <= t < |s.threads| ==> ParkOk(s, t))
  }

  lemma ParkOkAfterDrain(v: Variant, s: State, t: Tid, x: Tid)
    requires ParkInv(v, s) && Enabled(v, s, Drain(t)) && x < |s.threads|
    ensures ParkOk(Apply(v, s, Drain(t)), x)
  {
    var s', max, ws := Apply(v, s, Drain(t)), s.threads[t].pc.max, s.core.waiters;
    assert ParkOk(s, t) && ParkOk(s, x);
    var w := Waiter(SeqOf(s.threads[x].pc), x);
    if w in ws {
      DrainMembers(ws, max, w);
      if x in Woken(ws, max) {
        assert s'.threads[t].pc.Waking? && x in s'.threads[t].pc.wake;
      }
    } else if s.threads[x].pc.Parked? && x !in s.tokens {
      var u :| 0 <= u < |s.threads| && s.threads[u].pc.Waking? && x in s.threads[u].pc.wake;
      assert s'.threads[u] == s.threads[u];
    }
  }

  lemma KeptAbove(ws: seq<Waiter>, max: nat)
    ensures forall w :: w in Kept(ws, max) ==> w.seqNo > max
    ensures ws == [] ==> Kept(ws, max) == []
  {
    DrainPartitions(ws, max);
  }

  lemma ParkKeptByDrain(v: Variant, s: State, t: Tid)
    requires ParkInv(v, s) && Enabled(v, s, Drain(t))
    ensures ParkInv(v, Apply(v, s, Drain(t)))
  {
    var s' := Apply(v, s, Drain(t));
    assert ParkOk(s, t);
    KeptAbove(s.core.waiters, s.threads[t].pc.max);
    forall x | 0 <= x < |s'.threads|
      ensures ParkOk(s', x)
    {
      ParkOkAfterDrain(v, s, t, x);
    }
  }

  /** Unparks under way stay under way while somebody else moves. */
  lemma WakeStaysComing(s: State, s': State, t: Tid, x: Tid)
    requires WakeComing(s, x) && MovesOne(s, s', t) && !s.threads[t].pc.Waking?
    ensures WakeComing(s', x)
  {
    var u :| 0 <= u < |s.threads| && s.threads[u].pc.Waking? && x in s.threads[u].pc.wake;
    assert s'.threads[u] == s.threads[u];
  }

  lemma ParkKeptByWake(v: Variant, s: State, step: Step)
    requires RoleInv(v, s) && ParkInv(v, s) && Enabled(v, s, step) && (step.WakeOne? || step.WakeDone?)
    ensures ParkInv(v, Apply(v, s, step))
  {
    var s', t := Apply(v, s, step), step.t;
    assert RoleOk(s, t);
    forall x | 0 <= x < |s'.threads|
      ensures ParkOk(s', x)
    {
      assert ParkOk(s, x);
      if s.threads[x].pc.Parked? && WakeComing(s, x) && x !in s'.tokens {
        var u :| 0 <= u < |s.threads| && s.threads[u].pc.Waking? && x in s.threads[u].pc.wake;
        assert x in s'.threads[u].pc.wake;
      }
    }
  }

  lemma ParkOkAfterStore(v: Variant, s: State, t: Tid, x: Tid)
    requires RoleInv(v, s) && DiskInv(v, s) && ParkInv(v, s) && Enabled(v, s, Store(t)) && x < |s.threads|
    ensures ParkOk(Apply(v, s, Store(t)), x)
  {
    var s' := Apply(v, s, Store(t));
    assert RoleOk(s, t) && FlushOk(s, s.threads[t].pc) && ParkOk(s, x) && RoleOk(s, x);
    if WakeComing(s, x) {
      WakeStaysComing(s, s', t, x);
    }
  }

  lemma ParkKeptByStore(v: Variant, s: State, t: Tid)
    requires RoleInv(v, s) && DiskInv(v, s) && ParkInv(v, s) && Enabled(v, s, Store(t))
    ensures ParkInv(v, Apply(v, s, Store(t)))
  {
    var s' := Apply(v, s, Store(t));
    assert RoleOk(s, t) && FlushOk(s, s.threads[t].pc);
    forall x | 0 <= x < |s'.threads|
      ensures ParkOk(s', x)
    {
      ParkOkAfterStore(v, s, t, x);
    }
  }

  /** A step of `t` by which nobody is unparked and nothing becomes durable. */
  ghost predicate ParkAside(v: Variant, s: State, s': State, t: Tid) {
    && t < |s.threads| == |s'.threads| && s'.core.durable == s.core.durable && s.tokens - {t} <= s'.tokens
    && (s'.core.waiters == s.core.waiters || (v.Park? && Registers(s, s', t)))
    && !s.threads[t].pc.Waking? && !s.threads[t].pc.Draining? && !s'.threads[t].pc.Draining?
    && ParkOk(s', t)
  }

  predicate Registers(s: State, s': State, t: Tid)
    requires t < |s.threads|
  {
    var q := SeqOf(s.threads[t].pc);
    s'.core.waiters == s.core.waiters + [Waiter(q, t)] && q > s.core.durable
  }

  lemma ParkKeptByOne(v: Variant, s: State, s': State, t: Tid)
    requires ParkInv(v, s) && RolesMove(v, s, s', t) && ParkAside(v, s, s', t)
    ensures ParkInv(v, s')
  {
    assert MidDrain(s) ==> MidDrain(s');
    forall x | 0 <= x < |s'.threads|
      ensures ParkOk(s', x)
    {
      assert ParkOk(s, x);
      if WakeComing(s, x) {
        WakeStaysComing(s, s', t, x);
      }
    }
  }

  lemma AppendParksAside(v: Variant, s: State, step: Step)
    requires ParkInv(v, s) && Enabled(v, s, step) && IsAppendStep(step)
    ensures ParkAside(v, s, Apply(v, s, step), if step.Number? then step.u else step.t)
  {
    assert ParkOk(s, step.t);
  }

  lemma AckParksAside(v: Variant, s: State, step: Step)
    requires ParkInv(v, s) && Enabled(v, s, step) && IsAckStep(step)
    ensures ParkAside(v, s, Apply(v, s, step), step.t)
  {
    assert ParkOk(s, step.t);
  }

  lemma WaitParksAside(v: Variant, s: State, step: Step)
    requires ParkInv(v, s) && Enabled(v, s, step) && IsWaitStep(step)
    ensures ParkAside(v, s, Apply(v, s, step), step.t)
  {
    assert ParkOk(s, step.t);
  }

  lemma SleepParksAside(v: Variant, s: State, step: Step)
    requires ParkInv(v, s) && Enabled(v, s, step) && IsParkStep(step)
    ensures ParkAside(v, s, Apply(v, s, step), step.t)
  {
    assert ParkOk(s, step.t);
  }

  lemma PeekParksAside(v: Variant, s: State, step: Step)
    requires ParkInv(v, s) && Enabled(v, s, step) && IsPeekStep(step)
    ensures ParkAside(v, s, Apply(v, s, step), step.t)
  {
    assert ParkOk(s, step.t);
  }

  lemma CollectParksAside(v: Variant, s: State, step: Step)
    requires ParkInv(v, s) && Enabled(v, s, step) && IsCollectStep(step)
    ensures ParkAside(v, s, Apply(v, s, step), step.t)
  {
    assert ParkOk(s, step.t);
  }

  lemma WriteParksAside(v: Variant, s: State, step: Step)
    requires ParkInv(v, s) && Enabled(v, s, step) && IsWriteStep(step)
    ensures ParkAside(v, s, Apply(v, s, step), step.t)
  {
    assert ParkOk(s, step.t);
  }

  lemma SyncParksAside(v: Variant, s: State, step: Step)
    requires ParkInv(v, s) && Enabled(v, s, step) && (step.SyncEnd? || step.LockPublish?)
    ensures ParkAside(v, s, Apply(v, s, step), step.t)
  {
    assert ParkOk(s, step.t);
  }

  // ------------------------------------------------------------------------------------------
  // Whole runs
  // ------------------------------------------------------------------------------------------

  ghost predicate Good(v: Variant, s: State) {
    Inv(v, s) && ParkInv(v, s)
  }

  lemma StepKeepsLog(v: Variant, s: State, step: Step)
    requires RoleInv(v, s) && LogInv(s) && Enabled(v, s, step)
    ensures LogInv(Apply(v, s, step))
  {
    if step.Number? {
      LogKeptByNumber(v, s, step.t, step.u);
    } else {
      StepMoves(v, s, step);
      LogKeptByOne(v, s, Apply(v, s, step), step.t);
    }
  }

  lemma StepKeepsDisk(v: Variant, s: State, step: Step)
    requires RoleInv(v, s) && DiskInv(v, s) && |s.log| == s.core.nextSeq && Enabled(v, s, step)
    ensures DiskInv(v, Apply(v, s, step))
  {
    if step.WriteOne? {
      DiskKeptByWrite(v, s, step.t);
    } else if IsFlushStep(step) {
      DiskKeptByFlush(v, s, step);
    } else if step.Number? {
      DiskKeptByNumber(v, s, step.t, step.u);
    } else if step.Collect? {
      DiskKeptByCollect(v, s, step.t);
    } else {
      StepIsAside(v, s, step);
      DiskKeptAside(v, s, Apply(v, s, step));
    }
  }

  lemma StepKeepsStamps(v: Variant, s: State, step: Step)
    requires RoleInv(v, s) && DiskInv(v, s) && StampInv(s) && |s.log| == s.core.nextSeq && Enabled(v, s, step)
    ensures StampInv(Apply(v, s, step))
  {
    if step.Number? {
      StampsKeptByNumber(v, s, step.t, step.u);
    } else if step.SyncEnd? {
      StampsKeptBySync(v, s, step.t);
    } else if step.Store? {
      StampsKeptByStore(v, s, step.t);
    } else if IsFlushStep(step) {
      StampsKeptByWrite(v, s, step);
    } else if step.Collect? {
      StampsKeptByCollect(v, s, step.t);
    } else {
      StepIsAside(v, s, step);
      StampsKeptAside(s, Apply(v, s, step));
    }
  }

  lemma StepParksAside(v: Variant, s: State, step: Step)
    requires ParkInv(v, s) && Enabled(v, s, step) && !IsWakeStep(step) && !step.Store?
    ensures ParkAside(v, s, Apply(v, s, step), if step.Number? then step.u else step.t)
  {
    if IsAppendStep(step) {
      AppendParksAside(v, s, step);
    } else if IsAckStep(step) {
      AckParksAside(v, s, step);
    } else if IsWaitStep(step) {
      WaitParksAside(v, s, step);
    } else if IsParkStep(step) {
      SleepParksAside(v, s, step);
    } else if IsPeekStep(step) {
      PeekParksAside(v, s, step);
    } else if IsCollectStep(step) {
      CollectParksAside(v, s, step);
    } else if IsWriteStep(step) {
      WriteParksAside(v, s, step);
    } else {
      SyncParksAside(v, s, step);
    }
  }

  lemma StepKeepsPark(v: Variant, s: State, step: Step)
    requires RoleInv(v, s) && DiskInv(v, s) && ParkInv(v, s) && Enabled(v, s, step)
    ensures ParkInv(v, Apply(v, s, step))
  {
    if step.Drain? {
      ParkKeptByDrain(v, s, step.t);
    } else if step.WakeOne? || step.WakeDone? {
      ParkKeptByWake(v, s, step);
    } else if step.Store? {
      ParkKeptByStore(v, s, step.t);
    } else {
      StepParksAside(v, s, step);
      if step.Number? {
        NumberMoves(v, s, step.t, step.u);
        ParkKeptByOne(v, s, Apply(v, s, step), step.u);
      } else {
        StepMoves(v, s, step);
        ParkKeptByOne(v, s, Apply(v, s, step), step.t);
      }
    }
  }

  lemma StepKeepsGood(v: Variant, s: State, step: Step)
    requires Good(v, s) && Enabled(v, s, step)
    ensures Good(v, Apply(v, s, step))
  {
    RolesKept(v, s, step);
    StepKeepsLog(v, s, step);
    StepKeepsDisk(v, s, step);
    AcksKept(v, s, step);
    StepKeepsStamps(v, s, step);
    StepKeepsPark(v, s, step);
  }

  lemma InitGood(v: Variant, writers: nat)
    ensures Good(v, Init(writers))
  {
  }

  lemma {:induction false} RunGood(v: Variant, writers: nat, run: seq<State>, steps: seq<Step>, i: nat)
    requires IsRun(v, writers, run, steps) && i < |run|
    ensures Good(v, run[i])
  {
    if i == 0 {
      InitGood(v, writers);
    } else {
      RunGood(v, writers, run, steps, i - 1);
      StepKeepsGood(v, run[i - 1], steps[i - 1]);
    }
  }

  /** The durability oracle: what recovery must find after a crash that leaves `survivors` on disk. */
  ghost predicate Recovered(s: State, survivors: seq<Record>) {
    // gap-free from 1
    && (forall i :: 0 <= i < |survivors| ==> survivors[i].seqNo == i + 1)
    // every acknowledged operation, at its acknowledged number, with its own payload
    && (forall w, op :: (w, op) in s.acks ==>
          && 1 <= s.acks[(w, op)] <= |survivors|
          && survivors[s.acks[(w, op)] - 1] == Record(s.acks[(w, op)], w, op))
    // per writer a contiguous prefix 0, 1, 2, ... with at most the one operation in flight beyond the acknowledged ones
    && (forall i :: 0 <= i < |survivors| ==> survivors[i].op == CountOf(survivors[..i], survivors[i].writer))
    && (forall w :: 0 <= w < |s.threads| ==>
          s.threads[w].acked <= CountOf(survivors, w) <= s.threads[w].acked + 1)
  }

  lemma {:induction false} CountMonotone(log: seq<Record>, k: nat, w: Tid)
    requires k <= |log|
    ensures CountOf(log[..k], w) <= CountOf(log, w)
    decreases |log|
  {
    if k < |log| {
      var front := log[..|log| - 1];
      CountMonotone(front, k, w);
      assert front[..k] == log[..k];
    } else {
      assert log[..k] == log;
    }
  }

  /** At the number of its latest acknowledged operation, a writer's count is its acknowledged ones. */
  lemma CountAtAck(v: Variant, s: State, w: Tid, q: nat)
    requires Inv(v, s) && w < |s.threads| && s.threads[w].acked > 0
    requires (w, s.threads[w].acked - 1) in s.acks && q == s.acks[(w, s.threads[w].acked - 1)]
    ensures 1 <= q <= s.core.durable <= |s.log| && CountOf(s.log[..q], w) == s.threads[w].acked
  {
    assert AckOk(s, w, s.threads[w].acked - 1) && EntryOk(s, q - 1);
    assert s.log[..q][..q - 1] == s.log[..q - 1];
  }

  lemma SurvivorCount(v: Variant, s: State, k: nat, w: Tid)
    requires Inv(v, s) && s.synced <= k <= |s.core.file| && w < |s.threads|
    ensures s.core.file[..k] == s.log[..k]
    ensures s.threads[w].acked <= CountOf(s.log[..k], w) <= s.threads[w].acked + 1
  {
    assert s.core.file[..k] == s.log[..k];
    assert SeqOk(s, w);
    CountMonotone(s.log, k, w);
    var acked := s.threads[w].acked;
    if acked > 0 {
      var q := s.acks[(w, acked - 1)];
      CountAtAck(v, s, w, q);
      assert s.log[..k][..q] == s.log[..q];
      CountMonotone(s.log[..k], q, w);
    }
  }

  /** Crash safety. At every state of every run of every variant, whatever prefix of the file at
      least as long as the last completed sync covers happens to survive, it passes the oracle. */
  lemma CrashSafety(v: Variant, writers: nat, run: seq<State>, steps: seq<Step>, i: nat, k: nat)
    requires IsRun(v, writers, run, steps) && i < |run|
    requires run[i].synced <= k <= |run[i].core.file|
    ensures run[i].core.durable <= run[i].synced
    ensures Recovered(run[i], run[i].core.file[..k])
  {
    var s := run[i];
    RunGood(v, writers, run, steps, i);
    var image := s.core.file[..k];
    assert image == s.log[..k];
    forall j | 0 <= j < |image|
      ensures image[j].seqNo == j + 1 && image[j].op == CountOf(image[..j], image[j].writer)
    {
      assert EntryOk(s, j);
      assert image[..j] == s.log[..j];
    }
    forall w, op | (w, op) in s.acks
      ensures 1 <= s.acks[(w, op)] <= |image| && image[s.acks[(w, op)] - 1] == Record(s.acks[(w, op)], w, op)
    {
      assert AckOk(s, w, op);
    }
    forall w | 0 <= w < |s.threads|
      ensures s.threads[w].acked <= CountOf(image, w) <= s.threads[w].acked + 1
    {
      SurvivorCount(v, s, k, w);
    }
  }

  /** At most one collecting leader, one flush in flight and one lock holder, in every variant. */
  lemma OneOfEach(v: Variant, writers: nat, run: seq<State>, steps: seq<Step>, i: nat, t: Tid, u: Tid)
    requires IsRun(v, writers, run, steps) && i < |run| && t < |run[i].threads| && u < |run[i].threads|
    ensures IsCollecting(run[i].threads[t].pc) && IsCollecting(run[i].threads[u].pc) ==> t == u
    ensures IsFlushing(run[i].threads[t].pc) && IsFlushing(run[i].threads[u].pc) ==> t == u
    ensures HoldsLock(run[i].threads[t].pc) && HoldsLock(run[i].threads[u].pc) ==> t == u
    ensures !v.Pipelined? && IsCollecting(run[i].threads[t].pc) ==> !IsFlushing(run[i].threads[u].pc)
  {
    RunGood(v, writers, run, steps, i);
    assert RoleOk(run[i], t) && RoleOk(run[i], u);
  }

  /** What no step ever takes back. */
  ghost predicate Grows(s: State, s': State) {
    && s.core.durable <= s'.core.durable
    && s.synced <= s'.synced
    && s.syncs <= s'.syncs
    && s.core.file <= s'.core.file
    && s.log <= s'.log
    && s.stamps <= s'.stamps
    && (forall key :: key in s.acks ==> key in s'.acks && s'.acks[key] == s.acks[key])
  }

  lemma AcksOnlyAdded(v: Variant, s: State, step: Step, key: (Tid, nat))
    requires AckInv(s) && Enabled(v, s, step) && key in s.acks
    ensures key in Apply(v, s, step).acks && Apply(v, s, step).acks[key] == s.acks[key]
  {
    assert AckOk(s, key.0, key.1);
  }

  lemma WriteGrows(v: Variant, s: State, step: Step)
    requires Enabled(v, s, step) && IsWriteStep(step)
    ensures Grows(s, Apply(v, s, step))
  {
  }

  lemma StoreGrows(v: Variant, s: State, t: Tid)
    requires Enabled(v, s, Store(t)) && FlushOk(s, s.threads[t].pc)
    ensures Grows(s, Apply(v, s, Store(t)))
  {
  }

  lemma PublishGrows(v: Variant, s: State, step: Step)
    requires Enabled(v, s, step) && IsPublishStep(step) && !step.Store?
    ensures Grows(s, Apply(v, s, step))
  {
  }

  lemma AppendGrows(v: Variant, s: State, step: Step)
    requires Enabled(v, s, step) && (step.Number? || step.Collect?)
    ensures Grows(s, Apply(v, s, step))
  {
  }

  lemma StepGrows(v: Variant, s: State, step: Step)
    requires RoleInv(v, s) && DiskInv(v, s) && AckInv(s) && Enabled(v, s, step)
    ensures Grows(s, Apply(v, s, step))
  {
    if IsWriteStep(step) {
      WriteGrows(v, s, step);
    } else if step.Store? {
      StoreGrows(v, s, step.t);
    } else if IsPublishStep(step) {
      PublishGrows(v, s, step);
    } else if step.Number? || step.Collect? {
      AppendGrows(v, s, step);
    } else {
      StepIsAside(v, s, step);
      forall key | key in s.acks
        ensures key in Apply(v, s, step).acks && Apply(v, s, step).acks[key] == s.acks[key]
      {
        AcksOnlyAdded(v, s, step, key);
      }
    }
  }

  lemma GrowsTransitive(a: State, b: State, c: State)
    requires Grows(a, b) && Grows(b, c)
    ensures Grows(a, c)
  {
  }

  lemma NextGrows(v: Variant, writers: nat, run: seq<State>, steps: seq<Step>, i: nat)
    requires IsRun(v, writers, run, steps) && i < |steps|
    ensures Grows(run[i], run[i + 1])
  {
    RunGood(v, writers, run, steps, i);
    StepGrows(v, run[i], steps[i]);
  }

  lemma {:induction false} GrowsAlong(run: seq<State>, i: nat, j: nat)
    requires i <= j < |run|
    requires forall k :: 0 <= k < |run| - 1 ==> Grows(run[k], run[k + 1])
    ensures Grows(run[i], run[j])
    decreases j - i
  {
    if i < j {
      GrowsAlong(run, i, j - 1);
      GrowsTransitive(run[i], run[j - 1], run[j]);
    }
  }

  /** The watermark never decreases, the file is only appended to, and no acknowledgement changes. */
  lemma RunGrows(v: Variant, writers: nat, run: seq<State>, steps: seq<Step>, i: nat, j: nat)
    requires IsRun(v, writers, run, steps) && i <= j < |run|
    ensures Grows(run[i], run[j])
  {
    forall k | 0 <= k < |run| - 1
      ensures Grows(run[k], run[k + 1])
    {
      NextGrows(v, writers, run, steps, k);
    }
    GrowsAlong(run, i, j);
  }

  /** Bounded delay: a record appended by state `i` is on disk once two further syncs have
      completed, and under the watermark once the second of them is published. */
  lemma DurableBySecondSync(v: Variant, writers: nat, run: seq<State>, steps: seq<Step>, i: nat, j: nat, r: nat)
    requires IsRun(v, writers, run, steps) && i <= j < |run|
    requires r < |run[i].log| && run[j].syncs >= run[i].syncs + 2
    ensures r < run[j].synced
    ensures !Unpublished(run[j]) ==> r < run[j].core.durable
    ensures r < |run[j].core.file| && run[j].core.file[r] == run[i].log[r]
  {
    RunGood(v, writers, run, steps, i);
    RunGood(v, writers, run, steps, j);
    RunGrows(v, writers, run, steps, i, j);
    assert run[j].stamps[r] == run[i].stamps[r] <= run[i].syncs;
  }

  /** No lost wake-up: while the lock is free every registered waiter is still above the watermark,
      a sleeper whose record is durable has its unpark pending or under way, and a sleeper whose
      record is not durable is registered. */
  lemma NoLostWakeup(v: Variant, writers: nat, run: seq<State>, steps: seq<Step>, i: nat)
    requires IsRun(v, writers, run, steps) && i < |run| && run[i].lock.None?
    ensures forall w :: w in run[i].core.waiters ==> w.seqNo > run[i].core.durable
    ensures forall t :: 0 <= t < |run[i].threads| && run[i].threads[t].pc.Parked? ==>
      if run[i].threads[t].pc.q <= run[i].core.durable
      then t in run[i].tokens || WakeComing(run[i], t)
      else Waiter(run[i].threads[t].pc.q, t) in run[i].core.waiters
  {
    var s := run[i];
    RunGood(v, writers, run, steps, i);
    forall t | 0 <= t < |s.threads| && s.threads[t].pc.Parked?
      ensures if s.threads[t].pc.q <= s.core.durable then t in s.tokens || WakeComing(s, t)
              else Waiter(s.threads[t].pc.q, t) in s.core.waiters
    {
      assert ParkOk(s, t);
    }
  }

  /** Nobody is running: every thread is between operations or asleep with no unpark pending. */
  ghost predicate Quiescent(s: State) {
    forall t :: 0 <= t < |s.threads| ==>
      s.threads[t].pc.Idle? || (s.threads[t].pc.Parked? && t !in s.tokens)
  }

  lemma OwnersAct(v: Variant, s: State)
    requires RoleInv(v, s)
    ensures s.lock.Some? ==> HoldsLock(s.threads[s.lock.value].pc)
    ensures s.collector.Some? ==> IsCollecting(s.threads[s.collector.value].pc)
    ensures s.flusher.Some? ==> IsFlushing(s.threads[s.flusher.value].pc)
  {
    assert s.lock.Some? ==> RoleOk(s, s.lock.value);
    assert s.collector.Some? ==> RoleOk(s, s.collector.value);
    assert s.flusher.Some? ==> RoleOk(s, s.flusher.value);
  }

  /** What the park timeout is for: when nobody runs, a sleeper's record is not durable and the
      leader slot is free, so the sleeper that times out elects itself. */
  lemma SleepersCanLead(v: Variant, writers: nat, run: seq<State>, steps: seq<Step>, i: nat, t: Tid)
    requires IsRun(v, writers, run, steps) && i < |run| && Quiescent(run[i])
    requires t < |run[i].threads| && run[i].threads[t].pc.Parked?
    ensures run[i].lock.None? && !run[i].core.leaderActive
    ensures run[i].threads[t].pc.q > run[i].core.durable
  {
    var s := run[i];
    RunGood(v, writers, run, steps, i);
    assert ParkOk(s, t);
    OwnersAct(v, s);
  }
}
