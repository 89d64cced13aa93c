/** The SQL session registry: open transactions by session id in `sessions`, and what stays known
    about each of them, also while a statement has it checked out, in `meta`. */
module SqlSessions {

  import opened Options

  type Id = nat
  type Txn = nat
  type Time = nat

  datatype Session = Session(principal: string, txn: Txn, createdAt: Time, lastActive: Time)

  datatype Meta = Meta(principal: string, createdAt: Time, lastActive: Time, executing: bool)

  datatype Limits = Limits(maxPerPrincipal: nat, idleTimeout: nat, maxLifetime: nat)

  datatype Registry = Registry(sessions: map<Id, Session>, meta: map<Id, Meta>)

  /** `duration_since` saturates at zero. */
  function Since(now: Time, earlier: Time): nat {
    if now >= earlier then now - earlier else 0
  }

  predicate Expired(l: Limits, s: Session, now: Time) {
    Since(now, s.lastActive) > l.idleTimeout || Since(now, s.createdAt) > l.maxLifetime
  }

  /** The principal's open sessions, checked-out ones included. */
  function OwnedBy(meta: map<Id, Meta>, p: string): set<Id> {
    set id | id in meta && meta[id].principal == p
  }

  function ExpiredIds(l: Limits, sessions: map<Id, Session>, now: Time): set<Id> {
    set id | id in sessions && Expired(l, sessions[id], now)
  }

  // ---- the operations, as functions of the two maps ----------------------------------------

  function Opened(r: Registry, id: Id, p: string, txn: Txn, now: Time): Registry {
    Registry(r.sessions[id := Session(p, txn, now, now)], r.meta[id := Meta(p, now, now, false)])
  }

  datatype TakeOutcome = NotFound | RolledBack(txn: Txn) | Taken(txn: Txn)

  /** What `take` finds; an expired session is rolled back on the way. */
  function TakeResult(l: Limits, r: Registry, id: Id, p: string, now: Time): TakeOutcome {
    if id !in r.sessions then NotFound
    else if Expired(l, r.sessions[id], now) then RolledBack(r.sessions[id].txn)
    else if r.sessions[id].principal != p then NotFound
    else Taken(r.sessions[id].txn)
  }

  function Executing(meta: map<Id, Meta>, id: Id): map<Id, Meta> {
    if id in meta then meta[id := meta[id].(executing := true)] else meta
  }

  function AfterTake(l: Limits, r: Registry, id: Id, p: string, now: Time): Registry {
    match TakeResult(l, r, id, p, now)
    case NotFound => r
    case RolledBack(_) => Registry(r.sessions - {id}, r.meta - {id})
    case Taken(_) => Registry(r.sessions - {id}, Executing(r.meta, id))
  }

  /** The fallback creation time counts only for a session without a record. */
  function AfterPutBack(r: Registry, id: Id, p: string, txn: Txn, fallback: Time, now: Time): Registry {
    var created := if id in r.meta then r.meta[id].createdAt else fallback;
    Registry(r.sessions[id := Session(p, txn, created, now)],
             if id in r.meta then r.meta[id := r.meta[id].(executing := false, lastActive := now)] else r.meta)
  }

  function AfterReap(l: Limits, r: Registry, now: Time): Registry {
    var gone := ExpiredIds(l, r.sessions, now);
    Registry(r.sessions - gone, r.meta - gone)
  }

  // ---- agreement ---------------------------------------------------------------------------

  /** The two maps agree about `id`, given whether a statement has it checked out. */
  predicate AgreeOn(r: Registry, out: set<Id>, id: Id) {
    && (id in r.sessions ==>
          && id in r.meta && id !in out
          && r.meta[id] == Meta(r.sessions[id].principal, r.sessions[id].createdAt, r.sessions[id].lastActive, false))
    && (id in out ==> id in r.meta && r.meta[id].executing)
    && (id in r.meta ==> id in r.sessions || id in out)
  }

  ghost predicate Agree(r: Registry, out: set<Id>) {
    forall id :: AgreeOn(r, out, id)
  }

  lemma OpenedAgrees(r: Registry, out: set<Id>, id: Id, p: string, txn: Txn, now: Time)
    requires Agree(r, out) && id !in r.meta
    ensures Agree(Opened(r, id, p, txn, now), out)
  {
    forall x
      ensures AgreeOn(Opened(r, id, p, txn, now), out, x)
    {
      assert AgreeOn(r, out, x);
    }
  }

  lemma TakeAgrees(l: Limits, r: Registry, out: set<Id>, id: Id, p: string, now: Time)
    requires Agree(r, out)
    ensures Agree(AfterTake(l, r, id, p, now), if TakeResult(l, r, id, p, now).Taken? then out + {id} else out)
  {
    var r', out' := AfterTake(l, r, id, p, now), if TakeResult(l, r, id, p, now).Taken? then out + {id} else out;
    forall x
      ensures AgreeOn(r', out', x)
    {
      assert AgreeOn(r, out, x) && AgreeOn(r, out, id);
    }
  }

  lemma ReapAgrees(l: Limits, r: Registry, out: set<Id>, now: Time)
    requires Agree(r, out)
    ensures Agree(AfterReap(l, r, now), out)
  {
    forall x
      ensures AgreeOn(AfterReap(l, r, now), out, x)
    {
      assert AgreeOn(r, out, x);
    }
  }

  /** Putting a statement's transaction back keeps the maps in agreement exactly when the session
      still has its record: the other branch of `put_back` creates a session `meta` knows nothing of. */
  lemma PutBackAgreesExactly(r: Registry, out: set<Id>, id: Id, p: string, txn: Txn, fallback: Time, now: Time)
    requires id in out
    requires forall x :: x != id ==> AgreeOn(r, out, x)
    requires id !in r.sessions && (id in r.meta ==> r.meta[id].principal == p)
    ensures Agree(AfterPutBack(r, id, p, txn, fallback, now), out - {id}) <==> id in r.meta
  {
    var r' := AfterPutBack(r, id, p, txn, fallback, now);
    if id in r.meta {
      forall x
        ensures AgreeOn(r', out - {id}, x)
      {
        assert x != id ==> AgreeOn(r, out, x);
      }
    } else {
      assert !AgreeOn(r', out - {id}, id);
    }
  }

  // ---- what a client is told ---------------------------------------------------------------

  datatype TimeoutState = Active | IdleExpired | LifetimeExpired

  datatype View = View(id: Id, executing: bool, age: nat, idle: nat, idleRemaining: Option<nat>,
                       lifetimeRemaining: nat, state: TimeoutState)

  function SaturatingSub(a: nat, b: nat): nat {
    if a >= b then a - b else 0
  }

  function ViewOf(l: Limits, id: Id, m: Meta, now: Time): View {
    var age := Since(now, m.createdAt);
    var idle := if m.executing then 0 else Since(now, m.lastActive);
    View(id, m.executing, age, idle,
         if m.executing then None else Some(SaturatingSub(l.idleTimeout, idle)),
         SaturatingSub(l.maxLifetime, age),
         if m.executing then Active
         else if idle > l.idleTimeout then IdleExpired
         else if age > l.maxLifetime then LifetimeExpired
         else Active)
  }

  /** Between calls, `list` says expired exactly when `take` would refuse the owner and the reaper would
      remove the session at that moment; and it does not say so of a running one. */
  lemma ListPredictsTake(l: Limits, r: Registry, out: set<Id>, id: Id, now: Time)
    requires Agree(r, out) && id in r.meta
    ensures !r.meta[id].executing <==> id in r.sessions
    ensures id in r.sessions ==>
      (ViewOf(l, id, r.meta[id], now).state != Active <==> !TakeResult(l, r, id, r.sessions[id].principal, now).Taken?)
    ensures ViewOf(l, id, r.meta[id], now).state != Active <==> id in ExpiredIds(l, r.sessions, now)
    ensures id in out ==> ViewOf(l, id, r.meta[id], now).state == Active
  {
    assert AgreeOn(r, out, id);
  }

  // ---- the registry object -----------------------------------------------------------------

  method Smallest(ids: set<Id>) returns (least: Id)
    requires ids != {}
    ensures least in ids && forall x :: x in ids ==> least <= x
  {
    least :| least in ids;
    var rest := ids - {least};
    while rest != {}
      invariant least in ids && rest <= ids
      invariant forall x :: x in ids && x !in rest ==> least <= x
      decreases rest
    {
      var x :| x in rest;
      if x < least {
        least := x;
      }
      rest := rest - {x};
    }
  }

  /** The `limit` smallest ids, in order. */
  method FirstIds(ids: set<Id>, limit: nat) returns (r: seq<Id>)
    ensures |r| == if limit < |ids| then limit else |ids|
    ensures forall i :: 0 <= i < |r| ==> r[i] in ids
    ensures forall i, j :: 0 <= i < j < |r| ==> r[i] < r[j]
    ensures forall i, x :: 0 <= i < |r| && x in ids ==> r[i] < x || x in r
  {
    r := [];
    var rest := ids;
    while rest != {} && |r| < limit
      invariant rest <= ids && |r| + |rest| == |ids| && |r| <= limit
      invariant forall i :: 0 <= i < |r| ==> r[i] in ids
      invariant forall i, j :: 0 <= i < j < |r| ==> r[i] < r[j]
      invariant forall i, x :: 0 <= i < |r| && x in rest ==> r[i] < x
      invariant forall x :: x in ids ==> x in rest || x in r
      decreases rest
    {
      var least := Smallest(rest);
      r := r + [least];
      rest := rest - {least};
    }
  }

  predicate Shown(views: seq<View>, id: Id) {
    exists j :: 0 <= j < |views| && views[j].id == id
  }

  class SqlSessionRegistry {
    const limits: Limits
    var sessions: map<Id, Session>
    var meta: map<Id, Meta>

    function State(): Registry
      reads this
    {
      Registry(sessions, meta)
    }

    constructor (limits: Limits)
      ensures this.limits == limits && State() == Registry(map[], map[])
    {
      this.limits := limits;
      sessions, meta := map[], map[];
    }

    method Create(p: string, txn: Txn, freshId: Id, now: Time) returns (r: Option<Id>)
      modifies this
      ensures r == if |OwnedBy(old(meta), p)| >= limits.maxPerPrincipal then None else Some(freshId)
      ensures State() == if r.Some? then Opened(old(State()), freshId, p, txn, now) else old(State())
    {
      if |OwnedBy(meta, p)| >= limits.maxPerPrincipal {
        return None;
      }
      sessions := sessions[freshId := Session(p, txn, now, now)];
      meta := meta[freshId := Meta(p, now, now, false)];
      r := Some(freshId);
    }

    /** An expired session is rolled back, whoever asks; a live one is its owner's, and for anybody else
        it might as well not exist. */
    method Take(id: Id, p: string, now: Time) returns (r: TakeOutcome)
      modifies this
      ensures r == TakeResult(limits, old(State()), id, p, now)
      ensures State() == AfterTake(limits, old(State()), id, p, now)
      ensures id !in old(sessions) ==> r == NotFound && State() == old(State())
      ensures id in old(sessions) ==>
        var s := old(sessions)[id];
        if Since(now, s.lastActive) > limits.idleTimeout || Since(now, s.createdAt) > limits.maxLifetime then
          r == RolledBack(s.txn) && State() == Registry(old(sessions) - {id}, old(meta) - {id})
        else if s.principal != p then
          r == NotFound && State() == old(State())
        else
          r == Taken(s.txn) && sessions == old(sessions) - {id} && meta.Keys == old(meta).Keys
          && forall x :: x in meta ==> meta[x] == old(meta)[x].(executing := x == id || old(meta)[x].executing)
    {
      if id !in sessions {
        return NotFound;
      }
      var s := sessions[id];
      var expired := Since(now, s.lastActive) > limits.idleTimeout || Since(now, s.createdAt) > limits.maxLifetime;
      if s.principal != p || expired {
        if expired {
          sessions := sessions - {id};
          meta := meta - {id};
          return RolledBack(s.txn);
        }
        return NotFound;
      }
      sessions := sessions - {id};
      if id in meta {
        meta := meta[id := meta[id].(executing := true)];
      }
      r := Taken(s.txn);
    }

    /** The session is active as of now; its age goes on from the creation time on record. */
    method PutBack(id: Id, p: string, txn: Txn, createdAt: Time, now: Time)
      modifies this
      ensures State() == AfterPutBack(old(State()), id, p, txn, createdAt, now)
      ensures id in sessions && sessions[id] == Session(p, txn, if id in old(meta) then old(meta)[id].createdAt else createdAt, now)
      ensures id in old(meta) ==> meta == old(meta)[id := Meta(old(meta)[id].principal, old(meta)[id].createdAt, now, false)]
      ensures id !in old(meta) ==> meta == old(meta)
    {
      var created := createdAt;
      if id in meta {
        created := meta[id].createdAt;
        meta := meta[id := meta[id].(executing := false, lastActive := now)];
      }
      sessions := sessions[id := Session(p, txn, created, now)];
    }

    method Finish(id: Id)
      modifies this
      ensures State() == Registry(old(sessions), old(meta) - {id})
    {
      meta := meta - {id};
    }

    /** Removes exactly the expired sessions from both maps and reports whose transactions it rolled back. */
    method ReapExpired(now: Time) returns (count: nat, rolledBack: set<Txn>)
      modifies this
      ensures State() == AfterReap(limits, old(State()), now)
      ensures count == |ExpiredIds(limits, old(sessions), now)|
      ensures rolledBack == set id | id in ExpiredIds(limits, old(sessions), now) :: old(sessions)[id].txn
    {
      var expired := ExpiredIds(limits, sessions, now);
      var todo := expired;
      count, rolledBack := |expired|, {};
      while todo != {}
        invariant todo <= expired
        invariant sessions == old(sessions) - (expired - todo)
        invariant meta == old(meta) - (expired - todo)
        invariant rolledBack == set id | id in expired - todo :: old(sessions)[id].txn
        decreases todo
      {
        var id :| id in todo;
        assert expired - (todo - {id}) == (expired - todo) + {id};
        rolledBack := rolledBack + {sessions[id].txn};
        sessions := sessions - {id};
        meta := meta - {id};
        todo := todo - {id};
      }
      assert expired - todo == expired;
    }

    method Shutdown() returns (rolledBack: set<Txn>)
      modifies this
      ensures State() == Registry(map[], map[])
      ensures rolledBack == set id | id in old(sessions) :: old(sessions)[id].txn
    {
      rolledBack := set id | id in sessions :: sessions[id].txn;
      sessions, meta := map[], map[];
    }

    /** The `limit` smallest ids in order, each with its view, and the number of open sessions. */
    method List(limit: nat, now: Time) returns (views: seq<View>, total: nat)
      ensures total == |meta| && |views| == if limit < |meta| then limit else |meta|
      ensures forall i :: 0 <= i < |views| ==>
        views[i].id in meta && views[i] == ViewOf(limits, views[i].id, meta[views[i].id], now)
      ensures forall i, j :: 0 <= i < j < |views| ==> views[i].id < views[j].id
      ensures forall i, id :: 0 <= i < |views| && id in meta ==> views[i].id < id || Shown(views, id)
    {
      total := |meta|;
      var ids := FirstIds(meta.Keys, limit);
      var m := meta;
      views := seq(|ids|, i requires 0 <= i < |ids| && ids[i] in m => ViewOf(limits, ids[i], m[ids[i]], now));
      forall i, id | 0 <= i < |views| && id in meta
        ensures views[i].id < id || Shown(views, id)
      {
        assert ids[i] == views[i].id;
        if ids[i] >= id {
          var j :| 0 <= j < |ids| && ids[j] == id;
          assert views[j].id == id;
        }
      }
    }
  }
}
