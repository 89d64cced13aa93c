/** The session registry under concurrency. Whoever holds the `sessions` lock works in steps, taking
    the `meta` lock for each access to `meta`; `finish` needs only the `meta` lock and may run between
    any two of those steps. */
module SessionInterleaving {

  import opened Options
  import opened SqlSessions

  /** Who holds the `sessions` lock and what is left to do. */
  datatype Busy =
    | Free
    | Counting(p: string, txn: Txn)
    | Inserting(p: string, txn: Txn)                 // below the cap, lock on meta released again
    | Recording(id: Id, p: string, at: Time)         // in sessions, not yet in meta
    | Marking(id: Id, s: Session)                    // taken, not yet marked executing
    | Dropping(id: Id)                               // found expired and rolled back, still in meta
    | Refreshing(id: Id)                             // put_back has the lock
    | Restoring(id: Id, created: Time)               // meta refreshed, session not yet inserted
    | Reaping(todo: set<Id>)
    | ReapDropping(id: Id, todo: set<Id>)
    | Clearing                                       // shutdown: drained, meta not yet cleared

  /** A transaction in a statement's hands; `returning` is set once `put_back` has read the clock. */
  datatype Lease = Lease(principal: string, txn: Txn, returning: Option<Return>)

  datatype Return = Return(now: Time, fallback: Time)

  /** Where a transaction is. */
  datatype Home = Creating | Held(id: Id) | Out(id: Id) | Reversed | Finished

  /** `home` and `begun` (when each session's BEGIN ran) are history: no step reads them. */
  datatype State = State(
    reg: Registry,
    busy: Busy,
    out: map<Id, Lease>,
    now: Time,
    home: map<Txn, Home>,
    begun: map<Id, Time>)

  const START: State := State(Registry(map[], map[]), Free, map[], 0, map[], map[])

  datatype Step =
    | Tick
    | CreateLock(p: string, txn: Txn)
    | CreateCount
    | CreateInsert(id: Id)
    | CreateRecord
    | TakeLook(id: Id, p: string)
    | TakeMark
    | TakeDrop
    | PutBackNow(id: Id, fallback: Time)
    | PutBackLock(id: Id)
    | PutBackRefresh
    | PutBackRestore
    | Finish(id: Id)
    | ReapLock
    | ReapOne(id: Id)
    | ReapDrop
    | ReapDone
    | ShutdownLock
    | ShutdownClear

  predicate Enabled(s: State, step: Step) {
    match step
    case Tick => true
    case CreateLock(p, txn) => s.busy.Free? && txn !in s.home
    case CreateCount => s.busy.Counting?
    case CreateInsert(id) => s.busy.Inserting? && id !in s.begun
    case CreateRecord => s.busy.Recording?
    case TakeLook(id, p) => s.busy.Free?
    case TakeMark => s.busy.Marking?
    case TakeDrop => s.busy.Dropping?
    case PutBackNow(id, _) => id in s.out && s.out[id].returning.None?
    case PutBackLock(id) => s.busy.Free? && id in s.out && s.out[id].returning.Some?
    case PutBackRefresh => s.busy.Refreshing? && s.busy.id in s.out && s.out[s.busy.id].returning.Some?
    case PutBackRestore => s.busy.Restoring? && s.busy.id in s.out && s.out[s.busy.id].returning.Some?
    case Finish(id) => id in s.out && s.out[id].returning.None?
    case ReapLock => s.busy.Free?
    case ReapOne(id) => s.busy.Reaping? && id in s.busy.todo && id in s.reg.sessions
    case ReapDrop => s.busy.ReapDropping?
    case ReapDone => s.busy.Reaping? && s.busy.todo == {}
    case ShutdownLock => s.busy.Free?
    case ShutdownClear => s.busy.Clearing?
  }

  function Transactions(sessions: map<Id, Session>): set<Txn> {
    set id | id in sessions :: sessions[id].txn
  }

  function Apply(l: Limits, s: State, step: Step): State
    requires Enabled(s, step)
  {
    var sessions, meta := s.reg.sessions, s.reg.meta;
    match step
    case Tick => s.(now := s.now + 1)
    case CreateLock(p, txn) => s.(busy := Counting(p, txn), home := s.home[txn := Creating])
    case CreateCount =>
      if |OwnedBy(meta, s.busy.p)| >= l.maxPerPrincipal
      then s.(busy := Free, home := s.home[s.busy.txn := Reversed])
      else s.(busy := Inserting(s.busy.p, s.busy.txn))
    case CreateInsert(id) =>
      s.(reg := Registry(sessions[id := Session(s.busy.p, s.busy.txn, s.now, s.now)], meta),
         busy := Recording(id, s.busy.p, s.now),
         home := s.home[s.busy.txn := Held(id)],
         begun := s.begun[id := s.now])
    case CreateRecord =>
      s.(reg := Registry(sessions, meta[s.busy.id := Meta(s.busy.p, s.busy.at, s.busy.at, false)]), busy := Free)
    case TakeLook(id, p) =>
      (match TakeResult(l, s.reg, id, p, s.now)
       case NotFound => s
       case RolledBack(txn) =>
         s.(reg := Registry(sessions - {id}, meta), busy := Dropping(id), home := s.home[txn := Reversed])
       case Taken(txn) =>
         s.(reg := Registry(sessions - {id}, meta), busy := Marking(id, sessions[id]), home := s.home[txn := Out(id)]))
    case TakeMark =>
      s.(reg := Registry(sessions, Executing(meta, s.busy.id)), busy := Free,
         out := s.out[s.busy.id := Lease(s.busy.s.principal, s.busy.s.txn, None)])
    case TakeDrop => s.(reg := Registry(sessions, meta - {s.busy.id}), busy := Free)
    case PutBackNow(id, fallback) => s.(out := s.out[id := s.out[id].(returning := Some(Return(s.now, fallback)))])
    case PutBackLock(id) => s.(busy := Refreshing(id))
    case PutBackRefresh =>
      var id := s.busy.id;
      var back := s.out[id].returning.value;
      if id in meta
      then s.(reg := Registry(sessions, meta[id := meta[id].(executing := false, lastActive := back.now)]),
              busy := Restoring(id, meta[id].createdAt))
      else s.(busy := Restoring(id, back.fallback))
    case PutBackRestore =>
      var id := s.busy.id;
      var lease := s.out[id];
      s.(reg := Registry(sessions[id := Session(lease.principal, lease.txn, s.busy.created, lease.returning.value.now)], meta),
         busy := Free, out := s.out - {id}, home := s.home[lease.txn := Held(id)])
    case Finish(id) =>
      s.(reg := Registry(sessions, meta - {id}), out := s.out - {id}, home := s.home[s.out[id].txn := Finished])
    case ReapLock => s.(busy := Reaping(ExpiredIds(l, sessions, s.now)))
    case ReapOne(id) =>
      s.(reg := Registry(sessions - {id}, meta), busy := ReapDropping(id, s.busy.todo - {id}),
         home := s.home[sessions[id].txn := Reversed])
    case ReapDrop => s.(reg := Registry(sessions, meta - {s.busy.id}), busy := Reaping(s.busy.todo))
    case ReapDone => s.(busy := Free)
    case ShutdownLock =>
      s.(reg := Registry(map[], meta), busy := Clearing,
         home := map x | x in s.home :: if x in Transactions(sessions) then Reversed else s.home[x])
    case ShutdownClear => s.(reg := Registry(sessions, map[]), busy := Free)
  }

  /** The state after taking the steps in order, if each is enabled. */
  function After(l: Limits, s: State, steps: seq<Step>): Option<State>
    decreases |steps|
  {
    if steps == [] then Some(s)
    else if Enabled(s, steps[0]) then After(l, Apply(l, s, steps[0]), steps[1..])
    else None
  }

  ghost predicate IsRun(l: Limits, run: seq<State>, steps: seq<Step>) {
    && |run| == |steps| + 1
    && run[0] == START
    && forall i :: 0 <= i < |steps| ==> Enabled(run[i], steps[i]) && run[i + 1] == Apply(l, run[i], steps[i])
  }

  /** The side condition: no statement is out when a shutdown clears `meta`. */
  ghost predicate Orderly(run: seq<State>, steps: seq<Step>)
    requires |run| == |steps| + 1
  {
    forall i :: 0 <= i < |steps| ==> steps[i].ShutdownClear? ==> run[i].out == map[]
  }

  // ------------------------------------------------------------------------------------------
  // The cap
  // ------------------------------------------------------------------------------------------

  ghost predicate CapInv(l: Limits, s: State) {
    && (forall p :: |OwnedBy(s.reg.meta, p)| <= l.maxPerPrincipal)
    && (s.busy.Inserting? || s.busy.Recording? ==> |OwnedBy(s.reg.meta, s.busy.p)| < l.maxPerPrincipal)
  }

  lemma SubsetSize(a: set<Id>, b: set<Id>)
    requires a <= b
    ensures |a| <= |b|
  {
    if a != b {
      assert b == a + (b - a);
      assert |b| == |a| + |b - a|;
    }
  }

  /** No step adds to anybody's sessions except recording a new one. */
  lemma OwnedShrinks(l: Limits, s: State, step: Step, p: string)
    requires Enabled(s, step) && !step.CreateRecord?
    ensures OwnedBy(Apply(l, s, step).reg.meta, p) <= OwnedBy(s.reg.meta, p)
  {
  }

  lemma CapKept(l: Limits, s: State, step: Step)
    requires CapInv(l, s) && Enabled(s, step)
    ensures CapInv(l, Apply(l, s, step))
  {
    var s' := Apply(l, s, step);
    forall p
      ensures (step.CreateRecord? && p == s.busy.p) || |OwnedBy(s'.reg.meta, p)| <= |OwnedBy(s.reg.meta, p)|
      ensures |OwnedBy(s'.reg.meta, p)| <= l.maxPerPrincipal
    {
      if step.CreateRecord? {
        if p == s.busy.p {
          SubsetSize(OwnedBy(s'.reg.meta, p), OwnedBy(s.reg.meta, p) + {s.busy.id});
        } else {
          SubsetSize(OwnedBy(s'.reg.meta, p), OwnedBy(s.reg.meta, p));
        }
      } else {
        OwnedShrinks(l, s, step, p);
        SubsetSize(OwnedBy(s'.reg.meta, p), OwnedBy(s.reg.meta, p));
      }
    }
  }

  /** In every interleaving the records of a principal are at most its cap. */
  lemma {:induction false} RecordsCapped(l: Limits, run: seq<State>, steps: seq<Step>, i: nat)
    requires IsRun(l, run, steps) && i < |run|
    ensures CapInv(l, run[i])
  {
    if i == 0 {
      assert forall p :: OwnedBy(map[], p) == {};
    } else {
      RecordsCapped(l, run, steps, i - 1);
      CapKept(l, run[i - 1], steps[i - 1]);
    }
  }

  // ------------------------------------------------------------------------------------------
  // Agreement of the two maps
  // ------------------------------------------------------------------------------------------

  /** The registry once the holder of the lock has done what is left of its call. */
  function Settled(s: State): Registry {
    var sessions, meta := s.reg.sessions, s.reg.meta;
    match s.busy
    case Recording(id, p, at) => Registry(sessions, meta[id := Meta(p, at, at, false)])
    case Marking(id, _) => Registry(sessions, Executing(meta, id))
    case Dropping(id) => Registry(sessions, meta - {id})
    case ReapDropping(id, _) => Registry(sessions, meta - {id})
    case Refreshing(id) =>
      if id in s.out && s.out[id].returning.Some?
      then AfterPutBack(s.reg, id, s.out[id].principal, s.out[id].txn, s.out[id].returning.value.fallback, s.out[id].returning.value.now)
      else s.reg
    case Restoring(id, created) =>
      if id in s.out && s.out[id].returning.Some?
      then Registry(sessions[id := Session(s.out[id].principal, s.out[id].txn, created, s.out[id].returning.value.now)], meta)
      else s.reg
    case Clearing => Registry(sessions, map[])
    case _ => s.reg
  }

  /** The sessions checked out at that point. */
  function SettledOut(s: State): set<Id> {
    match s.busy
    case Marking(id, _) => s.out.Keys + {id}
    case Refreshing(id) => s.out.Keys - {id}
    case Restoring(id, _) => s.out.Keys - {id}
    case Clearing => {}
    case _ => s.out.Keys
  }

  /** What the holder of the lock relies on. */
  ghost predicate BusyOk(s: State) {
    var sessions, meta := s.reg.sessions, s.reg.meta;
    match s.busy
    case Recording(id, _, _) => id in sessions && id !in meta && id !in s.out
    case Marking(id, x) => id !in sessions && id !in s.out && id in meta && meta[id].principal == x.principal
    case Dropping(id) => id !in sessions && id !in s.out
    case ReapDropping(id, todo) => id !in sessions && id !in s.out && todo <= sessions.Keys
    case Refreshing(id) => id in s.out && s.out[id].returning.Some? && id !in sessions && id in meta
    case Restoring(id, _) => id in s.out && s.out[id].returning.Some? && id !in sessions && id in meta
    case Reaping(todo) => todo <= sessions.Keys
    case Clearing => sessions == map[]
    case _ => true
  }

  ghost predicate LeaseOk(s: State, id: Id) {
    id in s.out ==> id in s.reg.meta && s.reg.meta[id].principal == s.out[id].principal
  }

  /** Every id in either map, or out, was handed out by a `create`. */
  predicate KnownOk(s: State, id: Id) {
    id in s.reg.sessions || id in s.reg.meta || id in s.out ==> id in s.begun
  }

  ghost predicate MapsInv(s: State) {
    && Agree(Settled(s), SettledOut(s))
    && BusyOk(s)
    && (forall id :: LeaseOk(s, id))
    && (forall id :: KnownOk(s, id))
  }

  lemma KnownKept(l: Limits, s: State, step: Step)
    requires MapsInv(s) && Enabled(s, step)
    ensures forall id :: KnownOk(Apply(l, s, step), id)
  {
    var s' := Apply(l, s, step);
    forall id
      ensures KnownOk(s', id)
    {
      assert KnownOk(s, id);
      if s.busy.Recording? || s.busy.Marking? || s.busy.Refreshing? || s.busy.Restoring? {
        assert KnownOk(s, s.busy.id);
      }
    }
  }

  lemma LeaseKept(l: Limits, s: State, step: Step)
    requires MapsInv(s) && Enabled(s, step)
    requires step.ShutdownClear? ==> s.out == map[]
    ensures forall id :: LeaseOk(Apply(l, s, step), id)
  {
    var s' := Apply(l, s, step);
    forall id
      ensures LeaseOk(s', id)
    {
      assert LeaseOk(s, id);
    }
  }

  lemma BusyKept(l: Limits, s: State, step: Step)
    requires MapsInv(s) && Enabled(s, step)
    ensures BusyOk(Apply(l, s, step))
  {
    match step
    case CreateInsert(id) => assert KnownOk(s, id);
    case TakeLook(id, _) => assert AgreeOn(s.reg, s.out.Keys, id);
    case PutBackLock(id) => assert AgreeOn(s.reg, s.out.Keys, id);
    case ReapOne(id) => assert AgreeOn(s.reg, s.out.Keys, id);
    case _ =>
  }

  /** Ending a statement's session takes it out of `meta` and out of the checked-out ones alike, whoever
      holds the lock meanwhile. */
  lemma FinishAgrees(r: Registry, out: set<Id>, id: Id)
    requires Agree(r, out) && id in out
    ensures Agree(Registry(r.sessions, r.meta - {id}), out - {id})
  {
    forall x
      ensures AgreeOn(Registry(r.sessions, r.meta - {id}), out - {id}, x)
    {
      assert AgreeOn(r, out, x);
    }
  }

  lemma FinishSettles(l: Limits, s: State, id: Id)
    requires MapsInv(s) && Enabled(s, Finish(id)) && !s.busy.Clearing?
    ensures id in SettledOut(s)
    ensures Settled(Apply(l, s, Finish(id))) == Registry(Settled(s).sessions, Settled(s).meta - {id})
    ensures SettledOut(Apply(l, s, Finish(id))) == SettledOut(s) - {id}
  {
    var s' := Apply(l, s, Finish(id));
    assert s'.out.Keys == s.out.Keys - {id};
    assert Settled(s').meta == Settled(s).meta - {id};
  }

  /** A step inside a locked section leaves the outcome of that section alone. */
  lemma InsideSettles(l: Limits, s: State, step: Step)
    requires MapsInv(s) && Enabled(s, step)
    requires step.Tick? || step.CreateLock? || step.CreateCount? || step.CreateRecord? || step.TakeMark? || step.TakeDrop?
      || step.PutBackNow? || step.PutBackRefresh? || step.PutBackRestore? || step.ReapLock? || step.ReapDrop?
      || step.ReapDone? || step.ShutdownClear? || (step.Finish? && s.busy.Clearing?)
    requires step.ShutdownClear? ==> s.out == map[]
    ensures Settled(Apply(l, s, step)) == Settled(s)
    ensures SettledOut(Apply(l, s, step)) == SettledOut(s)
  {
  }

  lemma EntryAgrees(l: Limits, s: State, step: Step)
    requires MapsInv(s) && Enabled(s, step)
    requires step.CreateInsert? || step.TakeLook? || step.PutBackLock? || step.ReapOne? || step.ShutdownLock?
    ensures Agree(Settled(Apply(l, s, step)), SettledOut(Apply(l, s, step)))
  {
    var s' := Apply(l, s, step);
    match step
    case CreateInsert(id) =>
      assert KnownOk(s, id);
      OpenedAgrees(s.reg, s.out.Keys, id, s.busy.p, s.busy.txn, s.now);
      assert Settled(s') == Opened(s.reg, id, s.busy.p, s.busy.txn, s.now);
    case TakeLook(id, p) =>
      TakeAgrees(l, s.reg, s.out.Keys, id, p, s.now);
      assert Settled(s') == AfterTake(l, s.reg, id, p, s.now);
    case PutBackLock(id) =>
      assert AgreeOn(s.reg, s.out.Keys, id) && LeaseOk(s, id);
      var lease := s.out[id];
      PutBackAgreesExactly(s.reg, s.out.Keys, id, lease.principal, lease.txn, lease.returning.value.fallback, lease.returning.value.now);
    case ReapOne(id) =>
      forall x
        ensures AgreeOn(Settled(s'), SettledOut(s'), x)
      {
        assert AgreeOn(s.reg, s.out.Keys, x);
      }
    case ShutdownLock =>
  }

  lemma MapsKept(l: Limits, s: State, step: Step)
    requires MapsInv(s) && Enabled(s, step)
    requires step.ShutdownClear? ==> s.out == map[]
    ensures MapsInv(Apply(l, s, step))
  {
    KnownKept(l, s, step);
    LeaseKept(l, s, step);
    BusyKept(l, s, step);
    if step.Finish? && !s.busy.Clearing? {
      FinishSettles(l, s, step.id);
      FinishAgrees(Settled(s), SettledOut(s), step.id);
    } else if step.CreateInsert? || step.TakeLook? || step.PutBackLock? || step.ReapOne? || step.ShutdownLock? {
      EntryAgrees(l, s, step);
    } else {
      InsideSettles(l, s, step);
    }
  }

  lemma {:induction false} MapsHold(l: Limits, run: seq<State>, steps: seq<Step>, i: nat)
    requires IsRun(l, run, steps) && Orderly(run, steps) && i < |run|
    ensures MapsInv(run[i])
  {
    if i > 0 {
      MapsHold(l, run, steps, i - 1);
      MapsKept(l, run[i - 1], steps[i - 1]);
    }
  }

  /** In every interleaving, whenever nobody is inside the `sessions` lock the two maps agree: every
      session held is recorded as not executing, with the same owner and times; every session checked
      out is recorded as executing; and nothing else is recorded. */
  lemma AgreeBetweenCalls(l: Limits, run: seq<State>, steps: seq<Step>, i: nat)
    requires IsRun(l, run, steps) && Orderly(run, steps) && i < |run| && run[i].busy.Free?
    ensures Agree(run[i].reg, run[i].out.Keys)
  {
    MapsHold(l, run, steps, i);
  }

  /** And only without it: a run in which `meta` is cleared while a statement is out has a state with the
      lock free, right after the clearing, where the maps disagree. */
  lemma AgreeExactly(l: Limits, run: seq<State>, steps: seq<Step>)
    requires IsRun(l, run, steps)
    ensures Orderly(run, steps)
      <==> forall i :: 0 <= i < |run| && run[i].busy.Free? ==> Agree(run[i].reg, run[i].out.Keys)
  {
    if Orderly(run, steps) {
      forall i | 0 <= i < |run| && run[i].busy.Free?
        ensures Agree(run[i].reg, run[i].out.Keys)
      {
        AgreeBetweenCalls(l, run, steps, i);
      }
    } else {
      var i :| 0 <= i < |steps| && steps[i].ShutdownClear? && run[i].out != map[];
      var id :| id in run[i].out;
      assert run[i + 1].busy.Free? && !AgreeOn(run[i + 1].reg, run[i + 1].out.Keys, id);
    }
  }

  function HeldBy(sessions: map<Id, Session>, p: string): set<Id> {
    set id | id in sessions && sessions[id].principal == p
  }

  /** The principal's open sessions: held in the registry, or in a statement's hands. */
  function Open(s: State, p: string): set<Id> {
    HeldBy(s.reg.sessions, p)
    + (set id | id in s.out && s.out[id].principal == p)
    + (if s.busy.Marking? && s.busy.s.principal == p then {s.busy.id} else {})
  }

  /** The session just inserted and not yet recorded, if it is the principal's. */
  function Unrecorded(s: State, p: string): set<Id> {
    if s.busy.Recording? && s.busy.p == p then {s.busy.id} else {}
  }

  lemma OpenIsRecorded(s: State, p: string, id: Id)
    requires MapsInv(s) && id in Open(s, p)
    ensures id in OwnedBy(s.reg.meta, p) + Unrecorded(s, p)
  {
    assert AgreeOn(Settled(s), SettledOut(s), id) && LeaseOk(s, id);
  }

  /** The per-principal cap holds of the open sessions, checked-out ones included, in every state of
      every interleaving in which no shutdown clears `meta` while a statement is out. */
  lemma CapHolds(l: Limits, run: seq<State>, steps: seq<Step>, i: nat, p: string)
    requires IsRun(l, run, steps) && Orderly(run, steps) && i < |run|
    ensures |Open(run[i], p)| <= l.maxPerPrincipal
  {
    var s := run[i];
    MapsHold(l, run, steps, i);
    RecordsCapped(l, run, steps, i);
    var recorded, latest := OwnedBy(s.reg.meta, p), Unrecorded(s, p);
    forall id | id in Open(s, p)
      ensures id in recorded + latest
    {
      OpenIsRecorded(s, p, id);
    }
    SubsetSize(Open(s, p), recorded + latest);
  }

  // ------------------------------------------------------------------------------------------
  // Shutting down while a statement is out
  // ------------------------------------------------------------------------------------------

  /** Beginning a session, and a statement taking it and starting to put it back. */
  function Begin(p: string, x: Txn, id: Id): seq<Step> {
    [CreateLock(p, x), CreateCount, CreateInsert(id), CreateRecord]
  }

  function Statement(p: string, id: Id, fallback: Time): seq<Step> {
    [TakeLook(id, p), TakeMark, PutBackNow(id, fallback)]
  }

  const SHUTDOWN: seq<Step> := [ShutdownLock, ShutdownClear]

  function PutBack(id: Id): seq<Step> {
    [PutBackLock(id), PutBackRefresh, PutBackRestore]
  }

  lemma {:induction false} AfterJoin(l: Limits, s: State, a: seq<Step>, b: seq<Step>)
    ensures After(l, s, a + b) == (match After(l, s, a) case None => None case Some(s') => After(l, s', b))
    decreases |a|
  {
    if a == [] {
      assert a + b == b;
    } else {
      assert (a + b)[1..] == a[1..] + b;
      if Enabled(s, a[0]) {
        AfterJoin(l, Apply(l, s, a[0]), a[1..], b);
      }
    }
  }

  /** Steps that can be taken from the start make a run. */
  lemma {:induction false} AfterIsRun(l: Limits, s: State, steps: seq<Step>) returns (run: seq<State>)
    requires After(l, s, steps).Some?
    ensures |run| == |steps| + 1 && run[0] == s && run[|steps|] == After(l, s, steps).value
    ensures forall i :: 0 <= i < |steps| ==> Enabled(run[i], steps[i]) && run[i + 1] == Apply(l, run[i], steps[i])
    decreases |steps|
  {
    if steps == [] {
      run := [s];
    } else {
      var rest := AfterIsRun(l, Apply(l, s, steps[0]), steps[1..]);
      run := [s] + rest;
      forall i | 0 <= i < |steps|
        ensures Enabled(run[i], steps[i]) && run[i + 1] == Apply(l, run[i], steps[i])
      {
        if i > 0 {
          assert run[i] == rest[i - 1] && steps[i] == steps[1..][i - 1] && run[i + 1] == rest[i];
        }
      }
    }
  }

  lemma BeginOpens(l: Limits, s: State, p: string, x: Txn, id: Id)
    requires s.busy.Free? && x !in s.home && id !in s.begun && |OwnedBy(s.reg.meta, p)| < l.maxPerPrincipal
    ensures After(l, s, Begin(p, x, id)) == Some(s.(
        reg := Opened(s.reg, id, p, x, s.now), home := s.home[x := Creating][x := Held(id)], begun := s.begun[id := s.now]))
  {
    var s1 := Apply(l, s, CreateLock(p, x));
    var s2 := Apply(l, s1, CreateCount);
    var s3 := Apply(l, s2, CreateInsert(id));
    var s4 := Apply(l, s3, CreateRecord);
    assert After(l, s3, [CreateRecord]) == Some(s4);
    assert After(l, s2, [CreateInsert(id), CreateRecord]) == Some(s4);
    assert After(l, s1, [CreateCount, CreateInsert(id), CreateRecord]) == Some(s4);
  }

  lemma StatementStarts(l: Limits, s: State, p: string, id: Id, fallback: Time)
    requires s.busy.Free? && TakeResult(l, s.reg, id, p, s.now).Taken? && id in s.reg.meta
    ensures var end := After(l, s, Statement(p, id, fallback));
      && end.Some? && end.value.busy.Free? && end.value.now == s.now && end.value.begun == s.begun
      && end.value.home.Keys == s.home.Keys + {s.reg.sessions[id].txn}
      && end.value.out == s.out[id := Lease(p, s.reg.sessions[id].txn, Some(Return(s.now, fallback)))]
  {
    var s1 := Apply(l, s, TakeLook(id, p));
    var s2 := Apply(l, s1, TakeMark);
    var s3 := Apply(l, s2, PutBackNow(id, fallback));
    assert After(l, s2, [PutBackNow(id, fallback)]) == Some(s3);
    assert After(l, s1, [TakeMark, PutBackNow(id, fallback)]) == Some(s3);
  }

  lemma ShutdownClears(l: Limits, s: State)
    requires s.busy.Free?
    ensures var end := After(l, s, SHUTDOWN);
      && end.Some? && end.value.busy.Free? && end.value.reg == Registry(map[], map[])
      && end.value.out == s.out && end.value.begun == s.begun && end.value.home.Keys == s.home.Keys
  {
    var s1 := Apply(l, s, ShutdownLock);
    var s2 := Apply(l, s1, ShutdownClear);
    assert After(l, s1, [ShutdownClear]) == Some(s2);
  }

  lemma PutBackInserts(l: Limits, s: State, id: Id)
    requires s.busy.Free? && id in s.out && s.out[id].returning.Some? && id !in s.reg.meta
    ensures var end, lease := After(l, s, PutBack(id)), s.out[id];
      && end.Some? && end.value.busy.Free? && end.value.out == s.out - {id} && end.value.reg.meta == s.reg.meta
      && end.value.reg.sessions
         == s.reg.sessions[id := Session(lease.principal, lease.txn, lease.returning.value.fallback, lease.returning.value.now)]
  {
    var s1 := Apply(l, s, PutBackLock(id));
    var s2 := Apply(l, s1, PutBackRefresh);
    var s3 := Apply(l, s2, PutBackRestore);
    assert After(l, s2, [PutBackRestore]) == Some(s3);
    assert After(l, s1, [PutBackRefresh, PutBackRestore]) == Some(s3);
  }

  /** What such a shutdown leads to. From any state with a statement on its way back and the lock free, a
      shutdown first leaves that session in the registry without a record: the maps disagree, the
      session does not count against the cap, and its age restarts. */
  lemma ShutdownWhileOut(l: Limits, s: State, id: Id)
    requires s.busy.Free? && id in s.out && s.out[id].returning.Some?
    ensures var end := After(l, s, SHUTDOWN + PutBack(id));
      && end.Some? && end.value.busy.Free?
      && id in end.value.reg.sessions && id !in end.value.reg.meta
      && end.value.reg.sessions[id].createdAt == s.out[id].returning.value.fallback
      && !Agree(end.value.reg, end.value.out.Keys)
  {
    AfterJoin(l, s, SHUTDOWN, PutBack(id));
    ShutdownClears(l, s);
    PutBackInserts(l, After(l, s, SHUTDOWN).value, id);
    var end := After(l, s, SHUTDOWN + PutBack(id)).value;
    assert !AgreeOn(end.reg, end.out.Keys, id);
  }

  /** One session begun, its statement on its way back. */
  function OneOut(p: string, fallback: Time): seq<Step> {
    Begin(p, 0, 0) + Statement(p, 0, fallback)
  }

  /** With room for a session at all, such a state is reached from the start. */
  lemma OneOutReached(l: Limits, p: string, fallback: Time)
    requires l.maxPerPrincipal >= 1
    ensures var end := After(l, START, OneOut(p, fallback));
      && end.Some? && end.value.busy.Free? && end.value.begun.Keys == {0} && end.value.home.Keys == {0}
      && end.value.out == map[0 := Lease(p, 0, Some(Return(0, fallback)))]
  {
    assert OwnedBy(START.reg.meta, p) == {};
    AfterJoin(l, START, Begin(p, 0, 0), Statement(p, 0, fallback));
    BeginOpens(l, START, p, 0, 0);
    var s := After(l, START, Begin(p, 0, 0)).value;
    StatementStarts(l, s, p, 0, fallback);
    assert s.begun.Keys == {0} && s.home.Keys == {0};
  }

  /** So agreement is lost on a run from the start, whatever the limits, if they admit a session. */
  lemma AgreementLost(l: Limits, p: string, fallback: Time) returns (run: seq<State>, steps: seq<Step>)
    requires l.maxPerPrincipal >= 1
    ensures IsRun(l, run, steps) && !Orderly(run, steps)
    ensures var end := run[|steps|];
      end.busy.Free? && !Agree(end.reg, end.out.Keys) && 0 in end.reg.sessions && end.reg.sessions[0].createdAt == fallback
  {
    var out, rest := OneOut(p, fallback), SHUTDOWN + PutBack(0);
    OneOutReached(l, p, fallback);
    AfterJoin(l, START, out, rest);
    ShutdownWhileOut(l, After(l, START, out).value, 0);
    steps := out + rest;
    run := AfterIsRun(l, START, steps);
    AgreeExactly(l, run, steps);
  }

  /** The `n` sessions after number `m`, begun one after the other. */
  function BeginAll(p: string, m: nat, n: nat): seq<Step> {
    if n == 0 then [] else BeginAll(p, m, n - 1) + Begin(p, m + n, m + n)
  }

  /** After them: `n` recorded and held, every number used at most `m + n`, and none of the ones held
      or recorded from before. */
  ghost predicate Begun(s: State, out: map<Id, Lease>, p: string, m: nat, n: nat) {
    && s.busy.Free? && s.out == out
    && (forall x :: x in s.home ==> x <= m + n)
    && (forall id :: id in s.begun ==> id <= m + n)
    && (forall id :: id in s.reg.meta || id in s.reg.sessions ==> m < id <= m + n)
    && |OwnedBy(s.reg.meta, p)| == n && |HeldBy(s.reg.sessions, p)| == n
  }

  lemma OneMoreOwned(meta: map<Id, Meta>, id: Id, m: Meta)
    requires id !in meta
    ensures |OwnedBy(meta[id := m], m.principal)| == |OwnedBy(meta, m.principal)| + 1
  {
    assert OwnedBy(meta[id := m], m.principal) == OwnedBy(meta, m.principal) + {id};
  }

  lemma OneMoreHeld(sessions: map<Id, Session>, id: Id, x: Session)
    requires id !in sessions
    ensures |HeldBy(sessions[id := x], x.principal)| == |HeldBy(sessions, x.principal)| + 1
  {
    assert HeldBy(sessions[id := x], x.principal) == HeldBy(sessions, x.principal) + {id};
  }

  lemma OneMoreBegun(s: State, s': State, out: map<Id, Lease>, p: string, m: nat, n: nat, k: nat)
    requires n >= 1 && k == m + n && Begun(s, out, p, m, n - 1)
    requires s' == s.(reg := Opened(s.reg, k, p, k, s.now), home := s.home[k := Creating][k := Held(k)], begun := s.begun[k := s.now])
    ensures Begun(s', out, p, m, n)
  {
    OneMoreOwned(s.reg.meta, k, Meta(p, s.now, s.now, false));
    OneMoreHeld(s.reg.sessions, k, Session(p, k, s.now, s.now));
  }

  lemma {:induction false} BeginAllOpens(l: Limits, s: State, p: string, m: nat, n: nat)
    requires Begun(s, s.out, p, m, 0) && n <= l.maxPerPrincipal
    ensures After(l, s, BeginAll(p, m, n)).Some? && Begun(After(l, s, BeginAll(p, m, n)).value, s.out, p, m, n)
  {
    if n > 0 {
      var k := m + n;
      BeginAllOpens(l, s, p, m, n - 1);
      AfterJoin(l, s, BeginAll(p, m, n - 1), Begin(p, k, k));
      var s1 := After(l, s, BeginAll(p, m, n - 1)).value;
      BeginOpens(l, s1, p, k, k);
      OneMoreBegun(s1, After(l, s1, Begin(p, k, k)).value, s.out, p, m, n, k);
    }
  }

  /** The cap is lost the same way, for every cap that admits a session: after the shutdown the
      principal opens as many as it allows, and then the one that was out comes back. */
  lemma CapLost(l: Limits, p: string, fallback: Time) returns (run: seq<State>, steps: seq<Step>)
    requires l.maxPerPrincipal >= 1
    ensures IsRun(l, run, steps) && !Orderly(run, steps)
    ensures run[|steps|].busy.Free? && |Open(run[|steps|], p)| == l.maxPerPrincipal + 1
  {
    var n := l.maxPerPrincipal;
    var out, all := OneOut(p, fallback), BeginAll(p, 0, n);
    OneOutReached(l, p, fallback);
    AfterJoin(l, START, out, SHUTDOWN);
    var s1 := After(l, START, out).value;
    ShutdownClears(l, s1);
    var s2 := After(l, START, out + SHUTDOWN).value;
    AfterJoin(l, START, out + SHUTDOWN, all);
    NothingBegun(s2, p, 0);
    BeginAllOpens(l, s2, p, 0, n);
    var s3 := After(l, START, out + SHUTDOWN + all).value;
    AfterJoin(l, START, out + SHUTDOWN + all, PutBack(0));
    PutBackInserts(l, s3, 0);
    steps := out + SHUTDOWN + all + PutBack(0);
    run := AfterIsRun(l, START, steps);
    OpenAfterReturn(s3.reg.sessions, run[|steps|], p, n);
    CapHeldOrFail(l, run, steps, p);
  }

  lemma NothingBegun(s: State, p: string, m: nat)
    requires s.busy.Free? && s.reg == Registry(map[], map[])
    requires forall x :: x in s.home.Keys + s.begun.Keys ==> x <= m
    ensures Begun(s, s.out, p, m, 0)
  {
    assert OwnedBy(s.reg.meta, p) == {} && HeldBy(s.reg.sessions, p) == {};
    assert forall x :: x in s.home ==> x in s.home.Keys + s.begun.Keys;
    assert forall id :: id in s.begun ==> id in s.home.Keys + s.begun.Keys;
  }

  lemma OpenAfterReturn(held: map<Id, Session>, end: State, p: string, n: nat)
    requires |HeldBy(held, p)| == n && 0 !in held && end.busy.Free? && end.out.Keys == {}
    requires 0 in end.reg.sessions && end.reg.sessions[0].principal == p && end.reg.sessions == held[0 := end.reg.sessions[0]]
    ensures |Open(end, p)| == n + 1
  {
    assert Open(end, p) == HeldBy(end.reg.sessions, p) == HeldBy(held, p) + {0};
  }

  lemma CapHeldOrFail(l: Limits, run: seq<State>, steps: seq<Step>, p: string)
    requires IsRun(l, run, steps) && |Open(run[|steps|], p)| > l.maxPerPrincipal
    ensures !Orderly(run, steps)
  {
    if Orderly(run, steps) {
      CapHolds(l, run, steps, |steps|, p);
    }
  }

  lemma {:induction false} Bounded(numbers: set<nat>) returns (m: nat)
    ensures forall x :: x in numbers ==> x <= m
    decreases |numbers|
  {
    if numbers == {} {
      m := 0;
    } else {
      var x :| x in numbers;
      var rest := Bounded(numbers - {x});
      m := if x > rest then x else rest;
      assert forall y :: y in numbers ==> y == x || y in numbers - {x};
    }
  }

  /** Whatever else happened before: with a principal's statement out and the registry empty, the
      principal can open as many sessions again as the cap allows. */
  lemma CapExceeded(l: Limits, s: State, id: Id) returns (more: seq<Step>)
    requires s.busy.Free? && s.reg == Registry(map[], map[]) && id in s.out && id in s.begun
    ensures After(l, s, more).Some? && |Open(After(l, s, more).value, s.out[id].principal)| > l.maxPerPrincipal
    ensures forall step :: step in more ==> !step.ShutdownClear?
  {
    var p, n := s.out[id].principal, l.maxPerPrincipal;
    var m := Bounded(s.home.Keys + s.begun.Keys);
    NothingBegun(s, p, m);
    BeginAllOpens(l, s, p, m, n);
    more := BeginAll(p, m, n);
    BeginAllClearsNothing(p, m, n);
    var end := After(l, s, more).value;
    SubsetSize(HeldBy(end.reg.sessions, p) + {id}, Open(end, p));
  }

  lemma {:induction false} BeginAllClearsNothing(p: string, m: nat, n: nat)
    ensures forall step :: step in BeginAll(p, m, n) ==> !step.ShutdownClear?
  {
    if n > 0 {
      BeginAllClearsNothing(p, m, n - 1);
    }
  }

  /** The run `prefix` goes on by clearing `meta` and then without another shutdown getting that far. */
  ghost predicate GoesOn(l: Limits, prefix: seq<Step>, run: seq<State>, steps: seq<Step>) {
    && IsRun(l, run, steps) && |prefix| < |steps|
    && steps[..|prefix|] == prefix && steps[|prefix|] == ShutdownClear
    && forall i :: |prefix| < i < |steps| ==> !steps[i].ShutdownClear?
  }

  ghost predicate Capped(l: Limits, s: State) {
    forall p :: |Open(s, p)| <= l.maxPerPrincipal
  }

  /** The exact condition for the cap, at the moment a shutdown is about to clear `meta`: the cap is safe
      however the run goes on if and only if no statement is out. */
  lemma CapExactly(l: Limits, run: seq<State>, steps: seq<Step>)
    requires IsRun(l, run, steps) && Orderly(run, steps) && run[|steps|].busy.Clearing?
    ensures run[|steps|].out == map[]
      <==> forall run', steps' :: GoesOn(l, steps, run', steps') ==> Capped(l, run'[|steps'|])
  {
    var s := run[|steps|];
    if s.out == map[] {
      forall run', steps' | GoesOn(l, steps, run', steps')
        ensures Capped(l, run'[|steps'|])
      {
        SamePrefix(l, run, steps, run', steps', |steps|);
        GoesOnOrderly(l, run, steps, run', steps');
        forall p
          ensures |Open(run'[|steps'|], p)| <= l.maxPerPrincipal
        {
          CapHolds(l, run', steps', |steps'|, p);
        }
      }
    } else {
      var id :| id in s.out;
      var run', steps' := UncappedRun(l, run, steps, id);
      assert GoesOn(l, steps, run', steps') && !Capped(l, run'[|steps'|]);
    }
  }

  lemma {:induction false} SamePrefix(l: Limits, run: seq<State>, steps: seq<Step>, run': seq<State>, steps': seq<Step>, i: nat)
    requires IsRun(l, run, steps) && IsRun(l, run', steps') && |steps| <= |steps'| && steps'[..|steps|] == steps
    requires i < |run|
    ensures run'[i] == run[i]
  {
    if i > 0 {
      SamePrefix(l, run, steps, run', steps', i - 1);
      assert steps'[i - 1] == steps'[..|steps|][i - 1];
    }
  }

  lemma GoesOnOrderly(l: Limits, run: seq<State>, steps: seq<Step>, run': seq<State>, steps': seq<Step>)
    requires IsRun(l, run, steps) && Orderly(run, steps) && GoesOn(l, steps, run', steps')
    requires run[|steps|].out == map[]
    ensures Orderly(run', steps')
  {
    forall i | 0 <= i < |steps'| && steps'[i].ShutdownClear?
      ensures run'[i].out == map[]
    {
      SamePrefix(l, run, steps, run', steps', i);
      if i < |steps| {
        assert steps'[i] == steps'[..|steps|][i];
      }
    }
  }

  lemma UncappedRun(l: Limits, run: seq<State>, steps: seq<Step>, id: Id)
    returns (run': seq<State>, steps': seq<Step>)
    requires IsRun(l, run, steps) && Orderly(run, steps) && run[|steps|].busy.Clearing? && id in run[|steps|].out
    ensures GoesOn(l, steps, run', steps') && !Capped(l, run'[|steps'|])
  {
    var s := run[|steps|];
    MapsHold(l, run, steps, |steps|);
    assert KnownOk(s, id);
    var s1 := Apply(l, s, ShutdownClear);
    var more := CapExceeded(l, s1, id);
    var rest := AfterIsRun(l, s1, more);
    run', steps' := run + rest, steps + [ShutdownClear] + more;
    JoinedIsRun(l, run, steps, rest, more);
    assert steps'[..|steps|] == steps;
    assert |Open(run'[|steps'|], s1.out[id].principal)| > l.maxPerPrincipal;
  }

  lemma JoinedIsRun(l: Limits, run: seq<State>, steps: seq<Step>, rest: seq<State>, more: seq<Step>)
    requires IsRun(l, run, steps) && Enabled(run[|steps|], ShutdownClear)
    requires |rest| == |more| + 1 && rest[0] == Apply(l, run[|steps|], ShutdownClear)
    requires forall i :: 0 <= i < |more| ==> Enabled(rest[i], more[i]) && rest[i + 1] == Apply(l, rest[i], more[i])
    ensures IsRun(l, run + rest, steps + [ShutdownClear] + more)
  {
    var run', steps' := run + rest, steps + [ShutdownClear] + more;
    forall i | 0 <= i < |steps'|
      ensures Enabled(run'[i], steps'[i]) && run'[i + 1] == Apply(l, run'[i], steps'[i])
    {
      if i > |steps| {
        var j := i - |run|;
        assert run'[i] == rest[j] && steps'[i] == more[j] && run'[i + 1] == rest[j + 1];
      }
    }
  }

  // ------------------------------------------------------------------------------------------
  // Ages
  // ------------------------------------------------------------------------------------------

  /** Every creation time on record is the time of that session's BEGIN. */
  predicate AgeOk(s: State, id: Id) {
    && (id in s.reg.sessions ==> id in s.begun && s.reg.sessions[id].createdAt == s.begun[id])
    && (id in s.reg.meta ==> id in s.begun && s.reg.meta[id].createdAt == s.begun[id])
    && (id in s.begun ==> s.begun[id] <= s.now)
  }

  ghost predicate AgeInv(s: State) {
    && (forall id :: AgeOk(s, id))
    && (s.busy.Recording? ==> s.busy.id in s.begun && s.busy.at == s.begun[s.busy.id])
    && (s.busy.Restoring? ==> s.busy.id in s.begun && s.busy.created == s.begun[s.busy.id])
  }

  lemma AgeKept(l: Limits, s: State, step: Step)
    requires MapsInv(s) && AgeInv(s) && Enabled(s, step)
    ensures AgeInv(Apply(l, s, step))
  {
    var s' := Apply(l, s, step);
    forall id
      ensures AgeOk(s', id)
    {
      assert AgeOk(s, id) && KnownOk(s, id);
    }
    if step.PutBackRefresh? {
      assert AgeOk(s, s.busy.id);
    }
  }

  lemma {:induction false} AgesHold(l: Limits, run: seq<State>, steps: seq<Step>, i: nat)
    requires IsRun(l, run, steps) && Orderly(run, steps) && i < |run|
    ensures AgeInv(run[i])
  {
    if i > 0 {
      AgesHold(l, run, steps, i - 1);
      MapsHold(l, run, steps, i - 1);
      AgeKept(l, run[i - 1], steps[i - 1]);
    }
  }

  /** The lifetime bound is real: however many statements a session has run, one that is handed out is
      no older than the maximum lifetime, counted from its BEGIN, and belongs to whoever asked. */
  lemma HandedOutInTime(l: Limits, run: seq<State>, steps: seq<Step>, i: nat)
    requires IsRun(l, run, steps) && Orderly(run, steps) && i < |steps|
    requires steps[i].TakeLook? && run[i + 1].busy.Marking?
    ensures var id := steps[i].id;
      && id in run[i].begun && run[i].now - run[i].begun[id] <= l.maxLifetime
      && run[i].reg.sessions[id].principal == steps[i].p
      && Since(run[i].now, run[i].reg.sessions[id].lastActive) <= l.idleTimeout
  {
    AgesHold(l, run, steps, i);
    assert AgeOk(run[i], steps[i].id);
  }

  // ------------------------------------------------------------------------------------------
  // Listing, which takes only the lock on `meta`
  // ------------------------------------------------------------------------------------------

  /** Handed to a statement and not yet back. */
  predicate IsOut(s: State, id: Id) {
    id in s.out || (s.busy.Marking? && s.busy.id == id)
  }

  /** Whoever holds the lock has the session between its change to `sessions` and its change to `meta`. */
  predicate Midway(s: State, id: Id) {
    (s.busy.Marking? || s.busy.Restoring?) && s.busy.id == id
  }

  predicate MarkOk(s: State, id: Id) {
    IsOut(s, id) ==> id in s.reg.meta && (s.reg.meta[id].executing <==> !Midway(s, id))
  }

  lemma MarkKept(l: Limits, s: State, step: Step, id: Id)
    requires MapsInv(s) && MarkOk(s, id) && Enabled(s, step)
    requires step.ShutdownClear? ==> s.out == map[]
    ensures MarkOk(Apply(l, s, step), id)
  {
    assert LeaseOk(s, id);
    if step.TakeLook? {
      assert AgreeOn(s.reg, s.out.Keys, step.id);
    }
  }

  lemma {:induction false} MarksHold(l: Limits, run: seq<State>, steps: seq<Step>, i: nat, id: Id)
    requires IsRun(l, run, steps) && Orderly(run, steps) && i < |run|
    ensures MarkOk(run[i], id)
  {
    if i > 0 {
      MarksHold(l, run, steps, i - 1, id);
      MapsHold(l, run, steps, i - 1);
      MarkKept(l, run[i - 1], steps[i - 1], id);
    }
  }

  /** A session in a statement's hands is listed, and listed as executing except while `take` has not
      marked it yet or `put_back` has already refreshed its record. So `list` calls a running session
      expired exactly then, if its recorded times are past a limit. */
  lemma ListOfRunning(l: Limits, run: seq<State>, steps: seq<Step>, i: nat, id: Id, now: Time)
    requires IsRun(l, run, steps) && Orderly(run, steps) && i < |run| && IsOut(run[i], id)
    ensures id in run[i].reg.meta
    ensures run[i].reg.meta[id].executing <==> !Midway(run[i], id)
    ensures var m := run[i].reg.meta[id];
      ViewOf(l, id, m, now).state != Active
      <==> Midway(run[i], id) && (Since(now, m.lastActive) > l.idleTimeout || Since(now, m.createdAt) > l.maxLifetime)
  {
    MarksHold(l, run, steps, i, id);
  }

  /** A session in the registry is listed, except while `create` has not recorded it yet, and is called
      expired, by a `list` at any moment of any orderly run, exactly when it is. */
  lemma ListOfHeld(l: Limits, run: seq<State>, steps: seq<Step>, i: nat, id: Id, now: Time)
    requires IsRun(l, run, steps) && Orderly(run, steps) && i < |run|
    requires id in run[i].reg.sessions
    ensures id in run[i].reg.meta <==> !(run[i].busy.Recording? && run[i].busy.id == id)
    ensures id in run[i].reg.meta ==>
      (ViewOf(l, id, run[i].reg.meta[id], now).state != Active <==> id in ExpiredIds(l, run[i].reg.sessions, now))
  {
    MapsHold(l, run, steps, i);
    assert AgreeOn(Settled(run[i]), SettledOut(run[i]), id);
  }

  function Ticks(n: nat): seq<Step> {
    seq(n, _ => Tick)
  }

  lemma {:induction false} TimePasses(l: Limits, s: State, n: nat)
    ensures After(l, s, Ticks(n)) == Some(s.(now := s.now + n))
    decreases n
  {
    if n > 0 {
      TimePasses(l, Apply(l, s, Tick), n - 1);
      assert Ticks(n)[1..] == Ticks(n - 1);
    }
  }

  /** It does happen, whatever the limits, if they admit a session: when the idle timeout passes between
      the two halves of `take`, the session just handed out is listed as expired. */
  lemma RunningListedExpired(l: Limits, p: string) returns (run: seq<State>, steps: seq<Step>)
    requires l.maxPerPrincipal >= 1
    ensures IsRun(l, run, steps) && Orderly(run, steps)
    ensures var end := run[|steps|];
      IsOut(end, 0) && 0 in end.reg.meta && ViewOf(l, 0, end.reg.meta[0], end.now).state == IdleExpired
  {
    var begin, look, wait := Begin(p, 0, 0), [TakeLook(0, p)], Ticks(l.idleTimeout + 1);
    assert OwnedBy(START.reg.meta, p) == {};
    BeginOpens(l, START, p, 0, 0);
    var s := After(l, START, begin).value;
    var s1 := Apply(l, s, TakeLook(0, p));
    assert After(l, s, look) == Some(s1);
    AfterJoin(l, START, begin, look);
    TimePasses(l, s1, l.idleTimeout + 1);
    AfterJoin(l, START, begin + look, wait);
    steps := begin + look + wait;
    run := AfterIsRun(l, START, steps);
    assert forall i :: 0 <= i < |steps| ==> !steps[i].ShutdownClear?;
  }

  // ------------------------------------------------------------------------------------------
  // Every transaction in one place
  // ------------------------------------------------------------------------------------------

  /** The transaction `x` is where its history says, and nowhere else. */
  predicate HomeOk(s: State, x: Txn) {
    && (x in s.home && s.home[x].Held? ==>
          s.home[x].id in s.reg.sessions && s.reg.sessions[s.home[x].id].txn == x)
    && (x in s.home && s.home[x].Out? ==>
          || (s.home[x].id in s.out && s.out[s.home[x].id].txn == x)
          || (s.busy.Marking? && s.busy.id == s.home[x].id && s.busy.s.txn == x))
    && (x in s.home && s.home[x].Creating? ==> (s.busy.Counting? || s.busy.Inserting?) && s.busy.txn == x)
  }

  predicate PlaceOk(s: State, id: Id) {
    && (id in s.reg.sessions ==> HomeIs(s, s.reg.sessions[id].txn, Held(id)))
    && (id in s.out ==> HomeIs(s, s.out[id].txn, Out(id)))
  }

  predicate HomeIs(s: State, x: Txn, h: Home) {
    x in s.home && s.home[x] == h
  }

  ghost predicate HomeInv(s: State) {
    && (forall x :: HomeOk(s, x))
    && (forall id :: PlaceOk(s, id))
    && (s.busy.Counting? || s.busy.Inserting? ==> HomeIs(s, s.busy.txn, Creating))
    && (s.busy.Marking? ==> HomeIs(s, s.busy.s.txn, Out(s.busy.id)))
  }

  /** No id is in the registry and in a statement's hands, or either before `create` handed it out;
      this does not depend on `meta`, and so not on how the registry is shut down. */
  predicate ApartOk(s: State, id: Id) {
    && (id in s.reg.sessions ==> id !in s.out)
    && (id in s.reg.sessions || id in s.out ==> id in s.begun)
  }

  ghost predicate Apart(s: State) {
    && (forall id :: ApartOk(s, id))
    && (s.busy.Marking? ==> s.busy.id !in s.reg.sessions && s.busy.id !in s.out && s.busy.id in s.begun)
    && (s.busy.Refreshing? || s.busy.Restoring? ==> s.busy.id in s.out && s.out[s.busy.id].returning.Some?)
  }

  lemma ApartKept(l: Limits, s: State, step: Step)
    requires Apart(s) && Enabled(s, step)
    ensures Apart(Apply(l, s, step))
  {
    var s' := Apply(l, s, step);
    forall id
      ensures ApartOk(s', id)
    {
      assert ApartOk(s, id);
      if step.PutBackRestore? {
        assert ApartOk(s, s.busy.id);
      }
    }
    if step.TakeLook? {
      assert ApartOk(s, step.id);
    }
  }

  lemma PlaceKept(l: Limits, s: State, step: Step, id: Id)
    requires HomeInv(s) && Apart(s) && Enabled(s, step)
    ensures PlaceOk(Apply(l, s, step), id)
  {
    assert PlaceOk(s, id) && ApartOk(s, id);
    match step
    case ShutdownLock =>
      forall x | x in s.reg.sessions
        ensures id in s.out ==> s.reg.sessions[x].txn != s.out[id].txn
      {
        assert PlaceOk(s, x);
      }
    case TakeLook(x, _) => assert PlaceOk(s, x);
    case ReapOne(x) => assert PlaceOk(s, x);
    case Finish(x) => assert PlaceOk(s, x);
    case PutBackRestore => assert PlaceOk(s, s.busy.id);
    case _ =>
  }

  lemma HomeKeptByReturn(l: Limits, s: State, step: Step, x: Txn)
    requires HomeInv(s) && Apart(s) && Enabled(s, step) && (step.PutBackRestore? || step.Finish?)
    ensures HomeOk(Apply(l, s, step), x)
  {
    var id := if step.Finish? then step.id else s.busy.id;
    assert HomeOk(s, x) && PlaceOk(s, id) && ApartOk(s, id);
  }

  lemma HomeKept(l: Limits, s: State, step: Step, x: Txn)
    requires HomeInv(s) && Apart(s) && Enabled(s, step)
    ensures HomeOk(Apply(l, s, step), x)
  {
    assert HomeOk(s, x);
    match step
    case CreateInsert(id) => assert ApartOk(s, id);
    case TakeLook(id, _) => assert PlaceOk(s, id);
    case ReapOne(id) => assert PlaceOk(s, id);
    case Finish(_) => HomeKeptByReturn(l, s, step, x);
    case PutBackRestore => HomeKeptByReturn(l, s, step, x);
    case _ =>
  }

  lemma HomesKept(l: Limits, s: State, step: Step)
    requires HomeInv(s) && Apart(s) && Enabled(s, step)
    ensures HomeInv(Apply(l, s, step))
  {
    forall id
      ensures PlaceOk(Apply(l, s, step), id)
    {
      PlaceKept(l, s, step, id);
    }
    forall x
      ensures HomeOk(Apply(l, s, step), x)
    {
      HomeKept(l, s, step, x);
    }
    if step.Finish? {
      assert PlaceOk(s, step.id);
    }
  }

  lemma {:induction false} HomesHold(l: Limits, run: seq<State>, steps: seq<Step>, i: nat)
    requires IsRun(l, run, steps) && i < |run|
    ensures HomeInv(run[i]) && Apart(run[i])
  {
    if i > 0 {
      HomesHold(l, run, steps, i - 1);
      ApartKept(l, run[i - 1], steps[i - 1]);
      HomesKept(l, run[i - 1], steps[i - 1]);
    }
  }

  /** The places a transaction can be in a state of the system. */
  ghost predicate InRegistry(s: State, x: Txn, id: Id) {
    id in s.reg.sessions && s.reg.sessions[id].txn == x
  }

  ghost predicate CheckedOut(s: State, x: Txn, id: Id) {
    || (id in s.out && s.out[id].txn == x)
    || (s.busy.Marking? && s.busy.id == id && s.busy.s.txn == x)
  }

  /** No transaction is ever in two places: not under two ids, and not in the registry and in a
      statement's hands. */
  lemma OnePlace(l: Limits, run: seq<State>, steps: seq<Step>, i: nat, x: Txn, a: Id, b: Id)
    requires IsRun(l, run, steps) && i < |run|
    ensures InRegistry(run[i], x, a) && InRegistry(run[i], x, b) ==> a == b
    ensures CheckedOut(run[i], x, a) && CheckedOut(run[i], x, b) ==> a == b
    ensures !(InRegistry(run[i], x, a) && CheckedOut(run[i], x, b))
  {
    HomesHold(l, run, steps, i);
    assert PlaceOk(run[i], a) && PlaceOk(run[i], b);
  }

  /** And none gets lost: every transaction handed to `create` is being created, in the registry, in a
      statement's hands, rolled back or finished. */
  lemma SomePlace(l: Limits, run: seq<State>, steps: seq<Step>, i: nat, x: Txn)
    requires IsRun(l, run, steps) && i < |run| && x in run[i].home
    ensures
      || ((run[i].busy.Counting? || run[i].busy.Inserting?) && run[i].busy.txn == x)
      || (exists id :: InRegistry(run[i], x, id))
      || (exists id :: CheckedOut(run[i], x, id))
      || Ended(run[i], x)
  {
    HomesHold(l, run, steps, i);
    var s := run[i];
    assert HomeOk(s, x);
    match s.home[x]
    case Held(id) => assert InRegistry(s, x, id);
    case Out(id) => assert CheckedOut(s, x, id);
    case _ =>
  }

  /** One step of it. */
  lemma RunningStays(l: Limits, s: State, step: Step, x: Txn, id: Id)
    requires HomeInv(s) && Apart(s) && Enabled(s, step) && CheckedOut(s, x, id)
    ensures var s' := Apply(l, s, step);
      CheckedOut(s', x, id) || (step == PutBackRestore && InRegistry(s', x, id)) || step == Finish(id)
  {
    assert PlaceOk(s, id) && ApartOk(s, id);
    if step.TakeLook? {
      assert PlaceOk(s, step.id);
    }
  }

  lemma RunningNotReversed(l: Limits, s: State, step: Step, x: Txn, id: Id)
    requires HomeInv(s) && Enabled(s, step) && CheckedOut(s, x, id)
    ensures var s' := Apply(l, s, step); x in s'.home && !s'.home[x].Reversed?
  {
    assert PlaceOk(s, id);
    match step
    case CreateCount => assert HomeOk(s, s.busy.txn);
    case TakeLook(y, _) => assert PlaceOk(s, y);
    case ReapOne(y) => assert PlaceOk(s, y);
    case ShutdownLock =>
      forall y | y in s.reg.sessions
        ensures s.reg.sessions[y].txn != x
      {
        assert PlaceOk(s, y);
      }
    case _ =>
  }

  /** Nobody rolls back a transaction a statement is using: from a statement's hands it only goes back
      to the registry, under its own id, or ends with the statement. */
  lemma RunningIsLeftAlone(l: Limits, run: seq<State>, steps: seq<Step>, i: nat, x: Txn, id: Id)
    requires IsRun(l, run, steps) && i < |steps| && CheckedOut(run[i], x, id)
    ensures x in run[i + 1].home
    ensures !run[i + 1].home[x].Reversed?
    ensures CheckedOut(run[i + 1], x, id) || (steps[i] == PutBackRestore && InRegistry(run[i + 1], x, id)) || steps[i] == Finish(id)
  {
    HomesHold(l, run, steps, i);
    RunningStays(l, run[i], steps[i], x, id);
    RunningNotReversed(l, run[i], steps[i], x, id);
  }

  predicate Ended(s: State, x: Txn) {
    x in s.home && (s.home[x].Reversed? || s.home[x].Finished?)
  }

  lemma {:induction false} EndStays(l: Limits, run: seq<State>, steps: seq<Step>, i: nat, j: nat, x: Txn)
    requires IsRun(l, run, steps) && i <= j < |run| && Ended(run[i], x)
    ensures Ended(run[j], x) && run[j].home[x] == run[i].home[x]
    decreases j - i
  {
    if i < j {
      EndStays(l, run, steps, i, j - 1, x);
      HomesHold(l, run, steps, j - 1);
      StaysEnded(l, run[j - 1], steps[j - 1], x);
    }
  }

  /** A transaction ends at most once: after its rollback, or after its statement ended it, it is
      nowhere and stays nowhere. */
  lemma EndedForGood(l: Limits, run: seq<State>, steps: seq<Step>, i: nat, j: nat, x: Txn, id: Id)
    requires IsRun(l, run, steps) && i <= j < |run| && Ended(run[i], x)
    ensures Ended(run[j], x) && run[j].home[x] == run[i].home[x]
    ensures !InRegistry(run[j], x, id) && !CheckedOut(run[j], x, id)
  {
    EndStays(l, run, steps, i, j, x);
    HomesHold(l, run, steps, j);
    assert PlaceOk(run[j], id);
  }

  lemma StaysEnded(l: Limits, s: State, step: Step, x: Txn)
    requires HomeInv(s) && Enabled(s, step) && Ended(s, x)
    ensures x in Apply(l, s, step).home && Apply(l, s, step).home[x] == s.home[x]
  {
    match step
    case TakeLook(id, _) => assert PlaceOk(s, id);
    case ReapOne(id) => assert PlaceOk(s, id);
    case Finish(id) => assert PlaceOk(s, id);
    case PutBackRestore => assert PlaceOk(s, s.busy.id);
    case ShutdownLock =>
      forall id | id in s.reg.sessions
        ensures s.reg.sessions[id].txn != x
      {
        assert PlaceOk(s, id);
      }
    case _ =>
  }

  // ------------------------------------------------------------------------------------------
  // What `take` decides, and who is rolled back
  // ------------------------------------------------------------------------------------------

  /** An expired session is rolled back, whoever asks for it; a live one goes to its owner; anybody else's
      `take` changes nothing at all. */
  lemma TakeDecides(l: Limits, run: seq<State>, steps: seq<Step>, i: nat, id: Id, p: string)
    requires IsRun(l, run, steps) && i < |steps| && steps[i] == TakeLook(id, p)
    ensures id !in run[i].reg.sessions ==> run[i + 1] == run[i]
    ensures id in run[i].reg.sessions ==>
      var s, s' := run[i], run[i + 1];
      var x := s.reg.sessions[id];
      if Since(s.now, x.lastActive) > l.idleTimeout || Since(s.now, x.createdAt) > l.maxLifetime then
        HomeIs(s', x.txn, Reversed) && s'.reg == Registry(s.reg.sessions - {id}, s.reg.meta) && s'.out == s.out
      else if x.principal != p then
        s' == s
      else
        HomeIs(s', x.txn, Out(id)) && s'.reg == Registry(s.reg.sessions - {id}, s.reg.meta) && IsOut(s', id)
  {
  }

  /** What a sweep has still to remove was expired when it began, and is expired now. */
  ghost predicate SweepOk(l: Limits, s: State) {
    s.busy.Reaping? || s.busy.ReapDropping? ==>
      forall id :: id in s.busy.todo && id in s.reg.sessions ==> Expired(l, s.reg.sessions[id], s.now)
  }

  lemma SweepKept(l: Limits, s: State, step: Step)
    requires SweepOk(l, s) && Enabled(s, step)
    ensures SweepOk(l, Apply(l, s, step))
  {
  }

  lemma {:induction false} SweepsHold(l: Limits, run: seq<State>, steps: seq<Step>, i: nat)
    requires IsRun(l, run, steps) && i < |run|
    ensures SweepOk(l, run[i])
  {
    if i > 0 {
      SweepsHold(l, run, steps, i - 1);
      SweepKept(l, run[i - 1], steps[i - 1]);
    }
  }

  /** A transaction in the registry is rolled back only by a shutdown, or when its session was idle or open
      too long at that moment, by the times on record; on every interleaving. */
  lemma RolledBackOnlyLate(l: Limits, run: seq<State>, steps: seq<Step>, i: nat, x: Txn, id: Id)
    requires IsRun(l, run, steps) && i < |steps|
    requires HomeIs(run[i], x, Held(id)) && HomeIs(run[i + 1], x, Reversed)
    ensures InRegistry(run[i], x, id)
    ensures steps[i].ShutdownLock?
      || Since(run[i].now, run[i].reg.sessions[id].lastActive) > l.idleTimeout
      || Since(run[i].now, run[i].reg.sessions[id].createdAt) > l.maxLifetime
  {
    HomesHold(l, run, steps, i);
    SweepsHold(l, run, steps, i);
    var s, step := run[i], steps[i];
    assert HomeOk(s, x);
    match step
    case TakeLook(y, _) => assert PlaceOk(s, y);
    case ReapOne(y) => assert PlaceOk(s, y);
    case _ =>
  }

  /** The sweep that began at step `i` is still going on before step `k`. */
  ghost predicate Sweeping(run: seq<State>, i: nat, k: nat)
    requires i < k < |run|
  {
    forall j :: i < j <= k ==> run[j].busy.Reaping? || run[j].busy.ReapDropping?
  }

  lemma {:induction false} SweepListsAll(l: Limits, run: seq<State>, steps: seq<Step>, i: nat, k: nat, id: Id)
    requires IsRun(l, run, steps) && i < k < |run| && steps[i] == ReapLock && Sweeping(run, i, k)
    requires id in run[i].reg.sessions && Expired(l, run[i].reg.sessions[id], run[i].now)
    ensures id in run[k].reg.sessions ==> id in run[k].busy.todo
    decreases k
  {
    if k == i + 1 {
      SweepBegins(l, run[i], id);
    } else {
      assert Sweeping(run, i, k - 1);
      SweepListsAll(l, run, steps, i, k - 1, id);
      SweepStep(l, run[k - 1], steps[k - 1], id);
    }
  }

  lemma SweepBegins(l: Limits, s: State, id: Id)
    requires s.busy.Free? && id in s.reg.sessions && Expired(l, s.reg.sessions[id], s.now)
    ensures var s' := Apply(l, s, ReapLock); s'.busy.Reaping? && id in s'.busy.todo
  {
  }

  lemma SweepStep(l: Limits, s: State, step: Step, id: Id)
    requires Enabled(s, step) && (s.busy.Reaping? || s.busy.ReapDropping?)
    requires id in s.reg.sessions ==> id in s.busy.todo
    ensures var s' := Apply(l, s, step);
      (s'.busy.Reaping? || s'.busy.ReapDropping?) && id in s'.reg.sessions ==> id in s'.busy.todo
  {
  }

  /** A sweep misses nobody: when it is done, every session that was idle or open too long when it began is
      gone from the registry. */
  lemma SweepRemovesAll(l: Limits, run: seq<State>, steps: seq<Step>, i: nat, k: nat, id: Id)
    requires IsRun(l, run, steps) && i < k < |steps| && steps[i] == ReapLock && Sweeping(run, i, k) && steps[k] == ReapDone
    requires id in run[i].reg.sessions
    requires Since(run[i].now, run[i].reg.sessions[id].lastActive) > l.idleTimeout
      || Since(run[i].now, run[i].reg.sessions[id].createdAt) > l.maxLifetime
    ensures id !in run[k + 1].reg.sessions
  {
    SweepListsAll(l, run, steps, i, k, id);
  }

  /** What a sweep has still to remove is there to be removed. */
  ghost predicate TodoOk(s: State) {
    s.busy.Reaping? || s.busy.ReapDropping? ==> s.busy.todo <= s.reg.sessions.Keys
  }

  lemma {:induction false} TodosHold(l: Limits, run: seq<State>, steps: seq<Step>, i: nat)
    requires IsRun(l, run, steps) && i < |run|
    ensures TodoOk(run[i])
  {
    if i > 0 {
      TodosHold(l, run, steps, i - 1);
      TodoKept(l, run[i - 1], steps[i - 1]);
    }
  }

  lemma TodoKept(l: Limits, s: State, step: Step)
    requires TodoOk(s) && Enabled(s, step)
    ensures TodoOk(Apply(l, s, step))
  {
  }

  /** Nobody gets stuck holding the lock: on every interleaving its holder has a next step. */
  lemma HolderGoesOn(l: Limits, run: seq<State>, steps: seq<Step>, i: nat) returns (next: Step)
    requires IsRun(l, run, steps) && i < |run| && !run[i].busy.Free?
    ensures Enabled(run[i], next) && Apply(l, run[i], next).busy != run[i].busy
  {
    TodosHold(l, run, steps, i);
    HomesHold(l, run, steps, i);
    var s := run[i];
    match s.busy
    case Counting(_, _) => next := CreateCount;
    case Inserting(_, _) =>
      var id := FreshId(s.begun.Keys);
      next := CreateInsert(id);
    case Recording(_, _, _) => next := CreateRecord;
    case Marking(_, _) => next := TakeMark;
    case Dropping(_) => next := TakeDrop;
    case Refreshing(_) => next := PutBackRefresh;
    case Restoring(_, _) => next := PutBackRestore;
    case ReapDropping(_, _) => next := ReapDrop;
    case Clearing => next := ShutdownClear;
    case Reaping(todo) =>
      if todo == {} {
        next := ReapDone;
      } else {
        var id :| id in todo;
        next := ReapOne(id);
      }
  }

  lemma FreshId(ids: set<Id>) returns (id: Id)
    ensures id !in ids
  {
    var m := Bounded(ids);
    id := m + 1;
  }

  // ------------------------------------------------------------------------------------------
  // Since when a session is idle
  // ------------------------------------------------------------------------------------------

  /** When the session's latest `put_back` among the first `i` steps read the clock. */
  function LastReturn(run: seq<State>, steps: seq<Step>, i: nat, id: Id): Option<Time>
    requires |run| == |steps| + 1 && i < |run|
  {
    if i == 0 then None
    else if steps[i - 1].PutBackNow? && steps[i - 1].id == id then Some(run[i - 1].now)
    else LastReturn(run, steps, i - 1, id)
  }

  ghost predicate IdleOk(s: State, last: Option<Time>, id: Id) {
    && (id in s.reg.sessions && id in s.begun ==>
          s.reg.sessions[id].lastActive == (if last.Some? then last.value else s.begun[id]))
    && (id in s.out && s.out[id].returning.Some? ==> last == Some(s.out[id].returning.value.now))
    && (id !in s.begun ==> last == None)
    && (id in s.begun ==> s.begun[id] <= s.now)
    && (last.Some? ==> last.value <= s.now)
  }

  lemma IdleKept(l: Limits, s: State, step: Step, last: Option<Time>, id: Id)
    requires Apart(s) && IdleOk(s, last, id) && Enabled(s, step)
    ensures IdleOk(Apply(l, s, step), if step.PutBackNow? && step.id == id then Some(s.now) else last, id)
  {
    assert ApartOk(s, id);
    if step.PutBackNow? || step.PutBackRestore? || step.CreateInsert? {
      IdleKeptByReturn(l, s, step, last, id);
    }
  }

  lemma IdleKeptByReturn(l: Limits, s: State, step: Step, last: Option<Time>, id: Id)
    requires Apart(s) && IdleOk(s, last, id) && Enabled(s, step) && (step.PutBackNow? || step.PutBackRestore? || step.CreateInsert?)
    ensures IdleOk(Apply(l, s, step), if step.PutBackNow? && step.id == id then Some(s.now) else last, id)
  {
    assert ApartOk(s, id);
  }

  lemma {:induction false} IdlesHold(l: Limits, run: seq<State>, steps: seq<Step>, i: nat, id: Id)
    requires IsRun(l, run, steps) && i < |run|
    ensures IdleOk(run[i], LastReturn(run, steps, i, id), id)
  {
    if i > 0 {
      IdlesHold(l, run, steps, i - 1, id);
      HomesHold(l, run, steps, i - 1);
      IdleKept(l, run[i - 1], steps[i - 1], LastReturn(run, steps, i - 1, id), id);
    }
  }

  /** Idle time counts from the session's latest `put_back`, or from its BEGIN before the first; on every
      interleaving. */
  lemma IdleSinceReturn(l: Limits, run: seq<State>, steps: seq<Step>, i: nat, id: Id)
    requires IsRun(l, run, steps) && i < |run| && id in run[i].reg.sessions
    ensures id in run[i].begun
    ensures run[i].reg.sessions[id].lastActive
         == match LastReturn(run, steps, i, id) case Some(t) => t case None => run[i].begun[id]
  {
    HomesHold(l, run, steps, i);
    IdlesHold(l, run, steps, i, id);
    assert ApartOk(run[i], id);
  }

  /** What `list` tells between calls: whether a statement has the session, how long ago its BEGIN was, how
      long ago its latest `put_back`, and how much of each limit is left. */
  lemma ListTells(l: Limits, run: seq<State>, steps: seq<Step>, i: nat, id: Id)
    requires IsRun(l, run, steps) && Orderly(run, steps) && i < |run| && run[i].busy.Free? && id in run[i].reg.meta
    ensures id in run[i].begun
    ensures var s, v := run[i], ViewOf(l, id, run[i].reg.meta[id], run[i].now);
      && v.id == id && v.executing == (id in s.out)
      && v.age + s.begun[id] == s.now
      && (if v.age <= l.maxLifetime then v.age + v.lifetimeRemaining == l.maxLifetime else v.lifetimeRemaining == 0)
      && (v.executing ==> v.idle == 0 && v.idleRemaining == None)
      && (!v.executing ==>
            && v.idle + (match LastReturn(run, steps, i, id) case Some(t) => t case None => s.begun[id]) == s.now
            && v.idleRemaining.Some?
            && (if v.idle <= l.idleTimeout then v.idle + v.idleRemaining.value == l.idleTimeout else v.idleRemaining.value == 0))
  {
    AgreeBetweenCalls(l, run, steps, i);
    AgesHold(l, run, steps, i);
    IdlesHold(l, run, steps, i, id);
    assert AgreeOn(run[i].reg, run[i].out.Keys, id) && AgeOk(run[i], id);
  }
}
