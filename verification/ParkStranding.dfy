/** A concrete run of the park form that ends with a writer asleep behind nobody: its record is not
    durable, no leader is active and no unpark is coming. Only the 50 ms park timeout moves it. */
module ParkStranding {

  import opened Options
  import opened CommitState
  import opened GroupCommit

  const ONE: seq<Record> := [Record(1, 0, 0)]
  const TWO: seq<Record> := [Record(1, 0, 0), Record(2, 1, 0)]
  const ASLEEP: seq<Waiter> := [Waiter(2, 1)]

  /** Two writers before the first sync completes. */
  function Pair(log: seq<Record>, leader: bool, ws: seq<Waiter>, lock: Option<Tid>, pc0: Pc, pc1: Pc,
                collector: Option<Tid>, flusher: Option<Tid>): State {
    var stamps := if log == [] then [] else if |log| == 1 then [0] else [0, 0];
    State(Core(|log|, log, [], leader, false, ws, 0), lock, [Thread(pc0, 0), Thread(pc1, 0)], {},
          0, 0, log, stamps, map[], collector, flusher)
  }

  /** The same two after it, writer 1 asleep and still registered. */
  function Asleep(leader: bool, durable: nat, lock: Option<Tid>, pc0: Pc, acked: nat, acks: map<(Tid, nat), nat>,
                  flusher: Option<Tid>): State {
    State(Core(2, TWO, [], leader, false, ASLEEP, durable), lock, [Thread(pc0, acked), Thread(Parked(2), 0)], {},
          2, 1, TWO, [0, 0], acks, None, flusher)
  }

  /** The state before step `i`. */
  function StateAt(i: nat): State {
    match i
    case 0 => Pair([], false, [], None, Idle, Idle, None, None)
    case 1 => Pair([], false, [], None, Queued, Idle, None, None)
    case 2 => Pair([], false, [], Some(0), Appending(0), Idle, None, None)
    case 3 => Pair(ONE, false, [], Some(0), Appending(1), Idle, None, None)
    case 4 => Pair(ONE, false, [], None, Check(1), Idle, None, None)
    case 5 => Pair(ONE, false, [], None, Contend(1), Idle, None, None)
    case 6 => Pair(ONE, false, [], Some(0), Deciding(1), Idle, None, None)
    case 7 => Pair(ONE, true, [], None, Leading(1), Idle, Some(0), None)
    case 8 => Pair(ONE, true, [], Some(0), Collecting(1), Idle, Some(0), None)
    case 9 => Pair(ONE, true, [], None, Writing(1, 1, []), Idle, None, Some(0))
    case 10 => Pair(ONE, true, [], None, SyncReady(1, 1), Idle, None, Some(0))
    case 11 => Pair(ONE, true, [], None, SyncReady(1, 1), Queued, None, Some(0))
    case 12 => Pair(ONE, true, [], Some(1), SyncReady(1, 1), Appending(0), None, Some(0))
    case 13 => Pair(TWO, true, [], Some(1), SyncReady(1, 1), Appending(2), None, Some(0))
    case 14 => Pair(TWO, true, [], None, SyncReady(1, 1), Check(2), None, Some(0))
    case 15 => Pair(TWO, true, [], None, SyncReady(1, 1), Contend(2), None, Some(0))
    case 16 => Pair(TWO, true, [], Some(1), SyncReady(1, 1), Deciding(2), None, Some(0))
    case 17 => Pair(TWO, true, ASLEEP, None, SyncReady(1, 1), ParkTest(2), None, Some(0))
    case 18 => Pair(TWO, true, ASLEEP, None, SyncReady(1, 1), Parked(2), None, Some(0))
    case 19 => Pair(TWO, true, ASLEEP, None, Syncing(1, 1, 2), Parked(2), None, Some(0))
    case 20 => Asleep(true, 0, None, Synced(1, 1), 0, map[], Some(0))
    case 21 => Asleep(true, 0, Some(0), Publishing(1, 1), 0, map[], Some(0))
    case 22 => Asleep(false, 1, Some(0), Draining(1, 1), 0, map[], None)
    case 23 => Asleep(false, 1, None, Waking(1, []), 0, map[], None)
    case 24 => Asleep(false, 1, None, Check(1), 0, map[], None)
    case _ => STRANDED
  }

  const STRANDED: State := Asleep(false, 1, None, Idle, 1, map[(0, 0) := 1], None)

  function StepAt(i: nat): Step {
    match i
    // writer 0 appends, leads and writes its batch
    case 0 => Enqueue(0)
    case 1 => LockAppend(0)
    case 2 => Number(0, 0)
    case 3 => UnlockAppend(0)
    case 4 => FastMiss(0)
    case 5 => LockDecide(0)
    case 6 => Lead(0)
    case 7 => LockCollect(0)
    case 8 => Collect(0)
    case 9 => WriteDone(0)
    // writer 1 appends and falls asleep meanwhile
    case 10 => Enqueue(1)
    case 11 => LockAppend(1)
    case 12 => Number(1, 1)
    case 13 => UnlockAppend(1)
    case 14 => FastMiss(1)
    case 15 => LockDecide(1)
    case 16 => Wait(1)
    case 17 => ParkSleep(1)
    // writer 0 syncs, publishes and finishes
    case 18 => SyncBegin(0)
    case 19 => SyncEnd(0)
    case 20 => LockPublish(0)
    case 21 => Store(0)
    case 22 => Drain(0)
    case 23 => WakeDone(0)
    case _ => FastAck(0)
  }

  predicate Goes(i: nat) {
    Enabled(Park, StateAt(i), StepAt(i)) && Apply(Park, StateAt(i), StepAt(i)) == StateAt(i + 1)
  }

  lemma FirstAppends(i: nat)
    requires i < 4
    ensures Goes(i)
  {
  }

  lemma FirstLeads(i: nat)
    requires 4 <= i < 10
    ensures Goes(i)
  {
  }

  lemma SecondAppends(i: nat)
    requires 10 <= i < 14
    ensures Goes(i)
  {
  }

  lemma SecondSleeps(i: nat)
    requires 14 <= i < 18
    ensures Goes(i)
  {
  }

  lemma FirstSyncs(i: nat)
    requires 18 <= i < 22
    ensures Goes(i)
  {
  }

  lemma FirstWakesNobody()
    ensures Goes(22)
  {
    assert ASLEEP[..|ASLEEP| - 1] == [];
    assert Kept(ASLEEP, 1) == ASLEEP && Woken(ASLEEP, 1) == [];
  }

  lemma FirstFinishes(i: nat)
    requires 23 <= i < 25
    ensures Goes(i)
  {
  }

  lemma EachGoes(i: nat)
    requires i < 25
    ensures Goes(i)
  {
    if i < 4 {
      FirstAppends(i);
    } else if i < 10 {
      FirstLeads(i);
    } else if i < 14 {
      SecondAppends(i);
    } else if i < 18 {
      SecondSleeps(i);
    } else if i < 22 {
      FirstSyncs(i);
    } else if i == 22 {
      FirstWakesNobody();
    } else {
      FirstFinishes(i);
    }
  }

  lemma StatesMakeRun(state: nat -> State, step: nat -> Step, n: nat) returns (run: seq<State>, steps: seq<Step>)
    requires state(0) == Init(2)
    requires forall i: nat :: i < n ==> Enabled(Park, state(i), step(i)) && Apply(Park, state(i), step(i)) == state(i + 1)
    ensures IsRun(Park, 2, run, steps) && |steps| == n && run[n] == state(n)
  {
    run, steps := seq(n + 1, i requires 0 <= i => state(i)), seq(n, i requires 0 <= i => step(i));
  }

  lemma RunFound() returns (run: seq<State>, steps: seq<Step>)
    ensures IsRun(Park, 2, run, steps) && |steps| == 25 && run[25] == StateAt(25)
  {
    assert StateAt(0) == Init(2);
    forall i: nat | i < 25
      ensures Enabled(Park, StateAt(i), StepAt(i)) && Apply(Park, StateAt(i), StepAt(i)) == StateAt(i + 1)
    {
      EachGoes(i);
    }
    run, steps := StatesMakeRun(StateAt, StepAt, 25);
  }

  /** No lost wake-up is not progress: there is a run that ends quiescent, with writer 1 asleep above the
      watermark, its leader gone and nothing on its way to wake it. */
  lemma SleeperStranded() returns (run: seq<State>, steps: seq<Step>)
    ensures IsRun(Park, 2, run, steps) && run[|steps|] == STRANDED
    ensures Quiescent(STRANDED) && STRANDED.threads[1].pc == Parked(2) && STRANDED.core.durable == 1
    ensures !STRANDED.core.leaderActive && !WakeComing(STRANDED, 1)
  {
    run, steps := RunFound();
  }
}
