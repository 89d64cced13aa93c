/** Going on from a state of the commit protocol: steps taken in order, how a sleeper that times out
    elects itself, and exactly when one is left asleep. */
module CommitRuns {

  import opened Options
  import opened CommitState
  import opened GroupCommit

  /** The state after taking the steps in order, if each is enabled. */
  function AfterSteps(v: Variant, s: State, steps: seq<Step>): Option<State>
    decreases |steps|
  {
    if steps == [] then Some(s)
    else if Enabled(v, s, steps[0]) then AfterSteps(v, Apply(v, s, steps[0]), steps[1..])
    else None
  }

  lemma {:induction false} StepsJoin(v: Variant, s: State, a: seq<Step>, b: seq<Step>)
    ensures AfterSteps(v, s, a + b) == (match AfterSteps(v, s, a) case None => None case Some(s') => AfterSteps(v, s', b))
    decreases |a|
  {
    if a == [] {
      assert a + b == b;
    } else {
      assert (a + b)[1..] == a[1..] + b;
      if Enabled(v, s, a[0]) {
        StepsJoin(v, Apply(v, s, a[0]), a[1..], b);
      }
    }
  }

  lemma OneStep(v: Variant, s: State, step: Step, rest: seq<Step>)
    requires Enabled(v, s, step)
    ensures AfterSteps(v, s, [step] + rest) == AfterSteps(v, Apply(v, s, step), rest)
  {
    assert ([step] + rest)[1..] == rest;
  }

  /** The places at which a thread is about to take the lock. */
  predicate NeedsLock(pc: Pc) {
    pc.Queued? || pc.Contend? || pc.Unparked? || pc.Leading? || pc.Synced?
  }

  /** Nobody gets stuck: a thread inside an operation has a step of its own that moves it on, unless it is
      about to take the lock and somebody has it; and whoever has the lock has such a step. */
  lemma NobodyStuck(v: Variant, writers: nat, run: seq<State>, steps: seq<Step>, i: nat, t: Tid) returns (next: Step)
    requires IsRun(v, writers, run, steps) && i < |run| && t < |run[i].threads|
    requires !run[i].threads[t].pc.Idle? && (NeedsLock(run[i].threads[t].pc) ==> run[i].lock.None?)
    ensures Enabled(v, run[i], next) && next.t == t
    ensures var s' := Apply(v, run[i], next); t < |s'.threads| && s'.threads[t].pc != run[i].threads[t].pc
    ensures run[i].lock.Some? ==> run[i].lock.value < |run[i].threads|
    ensures run[i].lock.Some? ==>
      !run[i].threads[run[i].lock.value].pc.Idle? && !NeedsLock(run[i].threads[run[i].lock.value].pc)
  {
    RunGood(v, writers, run, steps, i);
    var s := run[i];
    OwnersAct(v, s);
    NextIsEnabled(v, s, t);
    next := NextStep(v, s, t);
    if IsAppendStep(next) || IsAckStep(next) || IsWaitStep(next) {
      WriterGoesOn(v, s, t);
    } else if IsWriteStep(next) {
      LeaderGoesOn(v, s, t);
    } else if IsPublishStep(next) {
      PublisherGoesOn(v, s, t);
    } else if IsWakeStep(next) {
      WakerGoesOn(v, s, t);
    } else {
      SleeperGoesOn(v, s, t);
    }
  }

  /** The next step of a thread, by where it is. */
  function NextStep(v: Variant, s: State, t: Tid): Step
    requires t < |s.threads| && !s.threads[t].pc.Idle?
  {
    match s.threads[t].pc
    case Queued => LockAppend(t)
    case Appending(mine) => if mine == 0 then Number(t, t) else UnlockAppend(t)
    case Check(q) => if s.core.durable >= q then FastAck(t) else FastMiss(t)
    case Contend(_) => LockDecide(t)
    case Deciding(q) => if s.core.durable >= q then SlowAck(t) else if s.core.leaderActive then Wait(t) else Lead(t)
    case Waiting(_) => Notified(t)
    case ParkTest(q) => if s.core.durable >= q then ParkExit(t) else ParkSleep(t)
    case Parked(_) => ParkReturn(t)
    case Unparked(_) => LockPeek(t)
    case Peeking(_) => Peek(t)
    case Leading(_) => LockCollect(t)
    case Collecting(_) => if v.Pipelined? && s.core.flushing then YieldFlush(t) else Collect(t)
    case Writing(_, _, pending) => if pending == [] then WriteDone(t) else WriteOne(t)
    case SyncReady(_, _) => SyncBegin(t)
    case Syncing(_, _, _) => SyncEnd(t)
    case Synced(_, _) => LockPublish(t)
    case Publishing(_, _) => Store(t)
    case Draining(_, _) => Drain(t)
    case Waking(_, wake) => if wake == [] then WakeDone(t) else WakeOne(t)
  }

  lemma NextIsEnabled(v: Variant, s: State, t: Tid)
    requires t < |s.threads| && !s.threads[t].pc.Idle? && (NeedsLock(s.threads[t].pc) ==> s.lock.None?)
    ensures NextStep(v, s, t).t == t && Enabled(v, s, NextStep(v, s, t))
  {
  }

  lemma WriterGoesOn(v: Variant, s: State, t: Tid)
    requires t < |s.threads| && !s.threads[t].pc.Idle? && Enabled(v, s, NextStep(v, s, t))
    requires var step := NextStep(v, s, t); IsAppendStep(step) || IsAckStep(step) || IsWaitStep(step)
    ensures var s' := Apply(v, s, NextStep(v, s, t)); t < |s'.threads| && s'.threads[t].pc != s.threads[t].pc
  {
  }

  lemma SleeperGoesOn(v: Variant, s: State, t: Tid)
    requires t < |s.threads| && !s.threads[t].pc.Idle? && Enabled(v, s, NextStep(v, s, t))
    requires var step := NextStep(v, s, t); IsParkStep(step) || IsPeekStep(step) || IsCollectStep(step)
    ensures var s' := Apply(v, s, NextStep(v, s, t)); t < |s'.threads| && s'.threads[t].pc != s.threads[t].pc
  {
  }

  lemma LeaderGoesOn(v: Variant, s: State, t: Tid)
    requires t < |s.threads| && !s.threads[t].pc.Idle? && Enabled(v, s, NextStep(v, s, t))
    requires IsWriteStep(NextStep(v, s, t))
    ensures var s' := Apply(v, s, NextStep(v, s, t)); t < |s'.threads| && s'.threads[t].pc != s.threads[t].pc
  {
  }

  lemma PublisherGoesOn(v: Variant, s: State, t: Tid)
    requires t < |s.threads| && !s.threads[t].pc.Idle? && Enabled(v, s, NextStep(v, s, t))
    requires IsPublishStep(NextStep(v, s, t))
    ensures var s' := Apply(v, s, NextStep(v, s, t)); t < |s'.threads| && s'.threads[t].pc != s.threads[t].pc
  {
  }

  lemma WakerGoesOn(v: Variant, s: State, t: Tid)
    requires t < |s.threads| && !s.threads[t].pc.Idle? && Enabled(v, s, NextStep(v, s, t))
    requires IsWakeStep(NextStep(v, s, t))
    ensures var s' := Apply(v, s, NextStep(v, s, t)); t < |s'.threads| && s'.threads[t].pc != s.threads[t].pc
  {
  }

  lemma ExtendOnce(v: Variant, writers: nat, run: seq<State>, steps: seq<Step>, step: Step)
    requires IsRun(v, writers, run, steps) && Enabled(v, run[|steps|], step)
    ensures IsRun(v, writers, run + [Apply(v, run[|steps|], step)], steps + [step])
  {
    var run', steps' := run + [Apply(v, run[|steps|], step)], steps + [step];
    forall i | 0 <= i < |steps'|
      ensures Enabled(v, run'[i], steps'[i]) && run'[i + 1] == Apply(v, run'[i], steps'[i])
    {
      if i < |steps| {
        assert run'[i] == run[i] && run'[i + 1] == run[i + 1] && steps'[i] == steps[i];
      }
    }
  }

  /** A run goes on with any steps that can be taken from its last state. */
  lemma {:induction false} ExtendRun(v: Variant, writers: nat, run: seq<State>, steps: seq<Step>, more: seq<Step>)
    returns (longer: seq<State>, path: seq<Step>)
    requires IsRun(v, writers, run, steps) && AfterSteps(v, run[|steps|], more).Some?
    ensures IsRun(v, writers, longer, path) && longer[|path|] == AfterSteps(v, run[|steps|], more).value
    decreases |more|
  {
    if more == [] {
      longer, path := run, steps;
    } else {
      ExtendOnce(v, writers, run, steps, more[0]);
      longer, path := ExtendRun(v, writers, run + [Apply(v, run[|steps|], more[0])], steps + [more[0]], more[1..]);
    }
  }

  function WakeUp(t: Tid): seq<Step> {
    [ParkReturn(t)] + ([LockPeek(t)] + ([Peek(t)] + []))
  }

  function TakeLead(t: Tid): seq<Step> {
    [FastMiss(t)] + ([LockDecide(t)] + ([Lead(t)] + []))
  }

  lemma WakesUp(v: Variant, s: State, t: Tid)
    requires t < |s.threads| && s.threads[t].pc.Parked? && s.lock.None?
    ensures var end, q := AfterSteps(v, s, WakeUp(t)), s.threads[t].pc.q;
      && end.Some? && end.value.core == s.core && end.value.lock.None? && |end.value.threads| == |s.threads|
      && end.value.threads[t].pc == if s.core.leaderActive then ParkTest(q) else Check(q)
  {
    var s1 := Apply(v, s, ParkReturn(t));
    var s2 := Apply(v, s1, LockPeek(t));
    OneStep(v, s, ParkReturn(t), [LockPeek(t)] + ([Peek(t)] + []));
    OneStep(v, s1, LockPeek(t), [Peek(t)] + []);
    OneStep(v, s2, Peek(t), []);
  }

  lemma TakesLead(v: Variant, s: State, t: Tid)
    requires t < |s.threads| && s.threads[t].pc.Check? && s.lock.None? && !s.core.leaderActive
    requires s.threads[t].pc.q > s.core.durable
    ensures var end := AfterSteps(v, s, TakeLead(t));
      && end.Some? && |end.value.threads| == |s.threads|
      && end.value.threads[t].pc == Leading(s.threads[t].pc.q) && end.value.core == Elected(s.core)
  {
    var s1 := Apply(v, s, FastMiss(t));
    var s2 := Apply(v, s1, LockDecide(t));
    OneStep(v, s, FastMiss(t), [LockDecide(t)] + ([Lead(t)] + []));
    OneStep(v, s1, LockDecide(t), [Lead(t)] + []);
    OneStep(v, s2, Lead(t), []);
  }

  /** The sleeper that times out does elect itself: its own steps, each of them enabled, make it leader. */
  lemma SleeperElectsItself(v: Variant, writers: nat, run: seq<State>, steps: seq<Step>, i: nat, t: Tid)
    requires IsRun(v, writers, run, steps) && i < |run| && Quiescent(run[i])
    requires t < |run[i].threads| && run[i].threads[t].pc.Parked?
    ensures var end := AfterSteps(v, run[i], WakeUp(t) + TakeLead(t));
      && end.Some? && |end.value.threads| == |run[i].threads|
      && end.value.threads[t].pc == Leading(run[i].threads[t].pc.q) && end.value.core.leaderActive
  {
    SleepersCanLead(v, writers, run, steps, i, t);
    StepsJoin(v, run[i], WakeUp(t), TakeLead(t));
    WakesUp(v, run[i], t);
    TakesLead(v, AfterSteps(v, run[i], WakeUp(t)).value, t);
  }

  /** A sleeper that times out while somebody leads goes back to the test before sleeping, and nothing shared
      has changed: it does not register again. */
  lemma SleeperWaitsOn(v: Variant, s: State, t: Tid)
    requires t < |s.threads| && s.threads[t].pc.Parked? && s.lock.None? && s.core.leaderActive
    ensures var end := AfterSteps(v, s, WakeUp(t));
      && end.Some? && end.value.core == s.core && |end.value.threads| == |s.threads|
      && end.value.threads[t].pc == ParkTest(s.threads[t].pc.q)
  {
    WakesUp(v, s, t);
  }

  /** The steps by which a writer whose record is durable returns. */
  function Return(pc: Pc, t: Tid): seq<Step> {
    match pc
    case Check(_) => [FastAck(t)]
    case Waiting(_) => [Notified(t), FastAck(t)]
    case ParkTest(_) => [ParkExit(t), FastAck(t)]
    case Contend(_) => [LockDecide(t), SlowAck(t)]
    case Deciding(_) => [SlowAck(t)]
    case _ => []
  }

  /** A writer whose record is durable returns by its own steps, and without the lock unless it is already
      on its way to it. */
  lemma DurableReturns(v: Variant, s: State, t: Tid)
    requires t < |s.threads| && Return(s.threads[t].pc, t) != [] && s.core.durable >= s.threads[t].pc.q
    requires s.threads[t].pc.Contend? ==> s.lock.None?
    ensures var end := AfterSteps(v, s, Return(s.threads[t].pc, t));
      && end.Some? && |end.value.threads| == |s.threads| && end.value.core == s.core
      && end.value.threads[t] == Thread(Idle, s.threads[t].acked + 1)
      && end.value.acks == s.acks[(t, s.threads[t].acked) := s.threads[t].pc.q]
  {
    match s.threads[t].pc
    case Check(_) => OneMove(v, s, FastAck(t));
    case Deciding(_) => OneMove(v, s, SlowAck(t));
    case Waiting(_) => TwoMoves(v, s, Notified(t), FastAck(t));
    case ParkTest(_) => TwoMoves(v, s, ParkExit(t), FastAck(t));
    case Contend(_) => TwoMoves(v, s, LockDecide(t), SlowAck(t));
  }

  lemma TwoMoves(v: Variant, s: State, a: Step, b: Step)
    requires Enabled(v, s, a) && Enabled(v, Apply(v, s, a), b)
    ensures AfterSteps(v, s, [a, b]) == Some(Apply(v, Apply(v, s, a), b))
  {
    OneStep(v, s, a, [b]);
    OneMove(v, Apply(v, s, a), b);
    assert [a] + [b] == [a, b];
  }

  lemma OneMove(v: Variant, s: State, step: Step)
    requires Enabled(v, s, step)
    ensures AfterSteps(v, s, [step]) == Some(Apply(v, s, step))
  {
    OneStep(v, s, step, []);
    assert [step] + [] == [step];
  }

  /** A leader's batch holds its own record. */
  predicate OwnInBatch(pc: Pc) {
    pc.Writing? || pc.SyncReady? || pc.Syncing? || pc.Synced? || pc.Publishing? || pc.Draining? ==> pc.q <= pc.max
  }

  lemma CollectOwns(v: Variant, s: State, step: Step)
    requires Enabled(v, s, step) && IsCollectStep(step) && s.threads[step.t].pc.q <= s.core.nextSeq
    ensures OwnInBatch(Apply(v, s, step).threads[step.t].pc)
  {
  }

  lemma FlushOwns(v: Variant, s: State, step: Step)
    requires Enabled(v, s, step) && IsFlushStep(step) && OwnInBatch(s.threads[step.t].pc)
    ensures OwnInBatch(Apply(v, s, step).threads[step.t].pc)
  {
  }

  lemma OthersOwn(v: Variant, s: State, step: Step)
    requires Enabled(v, s, step) && !IsCollectStep(step) && !IsFlushStep(step) && !step.Number?
    ensures OwnInBatch(Apply(v, s, step).threads[step.t].pc)
  {
  }

  lemma OwnInBatchKept(v: Variant, s: State, step: Step, t: Tid)
    requires Good(v, s) && Enabled(v, s, step) && t < |s.threads| && OwnInBatch(s.threads[t].pc)
    ensures |Apply(v, s, step).threads| == |s.threads| && OwnInBatch(Apply(v, s, step).threads[t].pc)
  {
    assert SeqOk(s, t);
    if step.Number? {
      NumberMoves(v, s, step.t, step.u);
    } else {
      StepMoves(v, s, step);
      if t == step.t {
        if IsCollectStep(step) {
          CollectOwns(v, s, step);
        } else if IsFlushStep(step) {
          FlushOwns(v, s, step);
        } else {
          OthersOwn(v, s, step);
        }
      }
    }
  }

  lemma {:induction false} OwnInBatchHolds(v: Variant, writers: nat, run: seq<State>, steps: seq<Step>, i: nat, t: Tid)
    requires IsRun(v, writers, run, steps) && i < |run| && t < writers
    ensures t < |run[i].threads| && OwnInBatch(run[i].threads[t].pc)
  {
    if i > 0 {
      OwnInBatchHolds(v, writers, run, steps, i - 1, t);
      OwnInBatchNext(v, writers, run, steps, i - 1, i, t);
    }
  }

  lemma OwnInBatchNext(v: Variant, writers: nat, run: seq<State>, steps: seq<Step>, i: nat, next: nat, t: Tid)
    requires IsRun(v, writers, run, steps) && i < |steps| && next == i + 1
    requires t < |run[i].threads| && OwnInBatch(run[i].threads[t].pc)
    ensures t < |run[next].threads| && OwnInBatch(run[next].threads[t].pc)
  {
    RunGood(v, writers, run, steps, i);
    OwnInBatchKept(v, run[i], steps[i], t);
  }

  lemma {:induction false} WritersStay(v: Variant, writers: nat, run: seq<State>, steps: seq<Step>, i: nat)
    requires IsRun(v, writers, run, steps) && i < |run|
    ensures |run[i].threads| == writers
  {
    if i > 0 {
      WritersStay(v, writers, run, steps, i - 1);
      RunGood(v, writers, run, steps, i - 1);
      ThreadsStay(v, run[i - 1], steps[i - 1]);
    }
  }

  lemma ThreadsStay(v: Variant, s: State, step: Step)
    requires RoleInv(v, s) && Enabled(v, s, step)
    ensures |Apply(v, s, step).threads| == |s.threads|
  {
    if step.Number? {
      NumberMoves(v, s, step.t, step.u);
    } else {
      StepMoves(v, s, step);
    }
  }

  /** A leader that has stored its watermark is done: its own record is covered, and it acknowledges at once,
      or in the park form as soon as it has drained the list and unparked the covered ones. */
  lemma LeaderReturns(v: Variant, writers: nat, run: seq<State>, steps: seq<Step>, i: nat, t: Tid)
    requires IsRun(v, writers, run, steps) && i < |steps| && steps[i] == Store(t)
    ensures !v.Park? ==> Enabled(v, run[i + 1], FastAck(t))
    ensures v.Park? ==> Enabled(v, run[i + 1], Drain(t)) && run[i + 1].core.durable >= run[i + 1].threads[t].pc.q
  {
    WritersStay(v, writers, run, steps, i);
    OwnInBatchHolds(v, writers, run, steps, i, t);
  }

  /** Step `j` unparks `t`. */
  ghost predicate Unparks(run: seq<State>, steps: seq<Step>, j: nat, t: Tid)
    requires |run| == |steps| + 1 && j < |steps|
  {
    && steps[j].WakeOne? && steps[j].t < |run[j].threads| && run[j].threads[steps[j].t].pc.Waking?
    && run[j].threads[steps[j].t].pc.wake != [] && run[j].threads[steps[j].t].pc.wake[0] == t
  }

  ghost predicate TokenFrom(run: seq<State>, steps: seq<Step>, j: nat, i: nat, t: Tid)
    requires |run| == |steps| + 1 && j < i < |run|
  {
    Unparks(run, steps, j, t) && forall k :: j < k < i ==> steps[k] != ParkReturn(t)
  }

  /** Some unpark was made since the thread last came back from sleep. */
  ghost predicate UnparkedSince(run: seq<State>, steps: seq<Step>, i: nat, t: Tid)
    requires |run| == |steps| + 1 && i < |run|
  {
    exists j: nat :: j < i && TokenFrom(run, steps, j, i, t)
  }

  /** An unpark is pending exactly when one was made since the thread last came back from sleep: each of them
      wakes it once, and none is made up. */
  lemma {:induction false} TokenExactly(v: Variant, writers: nat, run: seq<State>, steps: seq<Step>, i: nat, t: Tid)
    requires IsRun(v, writers, run, steps) && i < |run|
    ensures t in run[i].tokens <==> UnparkedSince(run, steps, i, t)
  {
    if i > 0 {
      TokenExactly(v, writers, run, steps, i - 1, t);
      TokenStep(v, run[i - 1], steps[i - 1], t);
      TokenLater(run, steps, i - 1, i, t);
      assert Unparks(run, steps, i - 1, t) <==> steps[i - 1].WakeOne? && run[i - 1].threads[steps[i - 1].t].pc.wake[0] == t;
    }
  }

  /** What one more step does to the latest unpark. */
  lemma TokenLater(run: seq<State>, steps: seq<Step>, i: nat, next: nat, t: Tid)
    requires |run| == |steps| + 1 && i < |steps| && next == i + 1
    ensures UnparkedSince(run, steps, next, t)
      <==> Unparks(run, steps, i, t) || (steps[i] != ParkReturn(t) && UnparkedSince(run, steps, i, t))
  {
    if Unparks(run, steps, i, t) {
      assert TokenFrom(run, steps, i, next, t);
    } else if steps[i] != ParkReturn(t) && UnparkedSince(run, steps, i, t) {
      var j: nat :| j < i && TokenFrom(run, steps, j, i, t);
      assert TokenFrom(run, steps, j, next, t);
    }
    if UnparkedSince(run, steps, next, t) {
      var j: nat :| j < next && TokenFrom(run, steps, j, next, t);
      assert j < i ==> TokenFrom(run, steps, j, i, t);
    }
  }

  lemma TokenStep(v: Variant, s: State, step: Step, t: Tid)
    requires Enabled(v, s, step)
    ensures t in Apply(v, s, step).tokens
      <==> (step.WakeOne? && s.threads[step.t].pc.wake[0] == t) || (t in s.tokens && step != ParkReturn(t))
  {
  }

  /** An acknowledged operation has one record, at its acknowledged number and under the watermark. */
  lemma AckedRecordIs(s: State, i: nat)
    requires LogInv(s) && AckInv(s) && i < |s.log| && (s.log[i].writer, s.log[i].op) in s.acks
    ensures s.acks[(s.log[i].writer, s.log[i].op)] == i + 1 <= s.core.durable
  {
    var w, op := s.log[i].writer, s.log[i].op;
    assert AckOk(s, w, op);
    var j := s.acks[(w, op)] - 1;
    assert EntryOk(s, i) && EntryOk(s, j);
    if j < i {
      EarlierCounts(s.log, j, i);
    } else if i < j {
      EarlierCounts(s.log, i, j);
    }
  }

  lemma EarlierCounts(log: seq<Record>, a: nat, b: nat)
    requires a < b < |log|
    ensures CountOf(log[..a], log[a].writer) < CountOf(log[..b], log[a].writer)
  {
    assert log[..a + 1][..a] == log[..a];
    CountMonotone(log[..b], a + 1, log[a].writer);
    assert log[..b][..a + 1] == log[..a + 1];
  }

  /** When nobody is in an operation, everything in the log is durable. */
  lemma IdleMeansDurable(v: Variant, s: State)
    requires Inv(v, s) && forall t :: 0 <= t < |s.threads| ==> s.threads[t].pc.Idle?
    ensures s.core.durable == s.core.nextSeq
  {
    if s.core.durable < s.core.nextSeq {
      var i := s.core.durable;
      var w, op := s.log[i].writer, s.log[i].op;
      assert EntryOk(s, i) && SeqOk(s, w);
      assert s.log[..i + 1][..i] == s.log[..i];
      CountMonotone(s.log, i + 1, w);
      AckedRecordIs(s, i);
    }
  }

  /** Exactly when a sleeper is left behind: in a state where nobody runs, of any run of any variant, some
      writer is asleep if and only if some record is not durable. */
  lemma StrandedExactly(v: Variant, writers: nat, run: seq<State>, steps: seq<Step>, i: nat)
    requires IsRun(v, writers, run, steps) && i < |run| && Quiescent(run[i])
    ensures (exists t :: 0 <= t < |run[i].threads| && run[i].threads[t].pc.Parked?)
      <==> run[i].core.durable < run[i].core.nextSeq
  {
    var s := run[i];
    RunGood(v, writers, run, steps, i);
    if t :| 0 <= t < |s.threads| && s.threads[t].pc.Parked? {
      SleepersCanLead(v, writers, run, steps, i, t);
      assert SeqOk(s, t);
    } else {
      IdleMeansDurable(v, s);
    }
  }
}
