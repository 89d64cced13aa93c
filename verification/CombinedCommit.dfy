/** Flat combining in front of the commit protocol: the two step systems side by side. A combining
    round's write is the protocol's numbering of the batch in one hold of the lock; everything else
    belongs to one side. The protocol's side of every joint run is a run of the protocol, so what
    holds in all of those holds here. */
module CombinedCommit {

  import opened Options
  import opened CommitState
  import F = FlatCombining
  import G = GroupCommit
  import R = CommitRuns

  const V: Variant := Variant.FlatCombining

  // ---- a batch numbered in one hold of the lock --------------------------------------------

  function NumberAll(t: Tid, batch: seq<F.Ticket>): seq<G.Step> {
    if batch == [] then []
    else
      var last := |batch| - 1;
      NumberAll(t, batch[..last]) + [G.Number(t, batch[last].0)]
  }

  /** Distinct threads, each queued with the operation the ticket names; `t` holds the lock. */
  ghost predicate Numberable(s: G.State, t: Tid, batch: seq<F.Ticket>) {
    && t < |s.threads| && s.threads[t].pc == G.Appending(0)
    && (forall a, b :: 0 <= a < b < |batch| ==> batch[a].0 != batch[b].0)
    && (forall a :: 0 <= a < |batch| ==> IsQueued(s, t, batch[a]))
  }

  predicate IsQueued(s: G.State, t: Tid, ticket: F.Ticket) {
    && ticket.0 < |s.threads| && s.threads[ticket.0].acked == ticket.1
    && (ticket.0 != t ==> s.threads[ticket.0].pc == G.Queued)
  }

  /** What numbering the batch leaves: the shared state of the batch append, each appender past its append
      with its number, everybody else where they were. */
  ghost predicate IsNumbered(s: G.State, s': G.State, t: Tid, batch: seq<F.Ticket>) {
    && s'.core == NumberedAll(V, s.core, batch) && s'.lock == s.lock && |s'.threads| == |s.threads|
    && (forall a :: 0 <= a < |batch| ==> GotNumber(s, s', t, batch, a))
    && (forall x :: 0 <= x < |s.threads| ==> Untouched(s, s', batch, x))
  }

  predicate GotNumber(s: G.State, s': G.State, t: Tid, batch: seq<F.Ticket>, a: nat)
    requires a < |batch|
  {
    var u, q := batch[a].0, s.core.nextSeq + a + 1;
    && u < |s'.threads| && s'.threads[u].acked == batch[a].1
    && s'.threads[u].pc == if u == t then G.Appending(q) else G.Check(q)
  }

  predicate Untouched(s: G.State, s': G.State, batch: seq<F.Ticket>, x: Tid)
    requires x < |s.threads| && |s'.threads| == |s.threads|
  {
    (forall a :: 0 <= a < |batch| ==> batch[a].0 != x) ==> s'.threads[x] == s.threads[x]
  }

  lemma NumberEnabled(s: G.State, s1: G.State, t: Tid, batch: seq<F.Ticket>)
    requires batch != [] && Numberable(s, t, batch) && IsNumbered(s, s1, t, batch[..|batch| - 1])
    ensures var u := batch[|batch| - 1].0;
      u < |s1.threads| && s1.threads[u] == s.threads[u] && G.Enabled(V, s1, G.Number(t, u))
  {
    var front, last := batch[..|batch| - 1], batch[|batch| - 1];
    assert IsQueued(s, t, last) && Untouched(s, s1, front, last.0);
    TStaysAppending(s, s1, t, front);
  }

  lemma NumberMovesOne(s1: G.State, t: Tid, u: Tid)
    requires G.Enabled(V, s1, G.Number(t, u))
    ensures var s2, q := G.Apply(V, s1, G.Number(t, u)), s1.core.nextSeq + 1;
      && s2.core == Numbered(V, s1.core, u, s1.threads[u].acked) && s2.lock == s1.lock
      && s2.threads == s1.threads[u := G.Thread(if u == t then G.Appending(q) else G.Check(q), s1.threads[u].acked)]
  {
  }

  lemma OneMoreNumber(s: G.State, s1: G.State, t: Tid, batch: seq<F.Ticket>)
    requires batch != [] && Numberable(s, t, batch) && IsNumbered(s, s1, t, batch[..|batch| - 1])
    requires s1.core.nextSeq == s.core.nextSeq + |batch| - 1
    ensures G.Enabled(V, s1, G.Number(t, batch[|batch| - 1].0))
    ensures IsNumbered(s, G.Apply(V, s1, G.Number(t, batch[|batch| - 1].0)), t, batch)
  {
    var u := batch[|batch| - 1].0;
    NumberEnabled(s, s1, t, batch);
    NumberMovesOne(s1, t, u);
    assert IsQueued(s, t, batch[|batch| - 1]);
    LastNumbered(s, s1, G.Apply(V, s1, G.Number(t, u)), t, batch);
  }

  lemma LastNumbered(s: G.State, s1: G.State, s2: G.State, t: Tid, batch: seq<F.Ticket>)
    requires batch != [] && Numberable(s, t, batch) && IsNumbered(s, s1, t, batch[..|batch| - 1])
    requires batch[|batch| - 1].0 < |s1.threads|
    requires var last, q := batch[|batch| - 1], s.core.nextSeq + |batch|;
      && s2.core == Numbered(V, s1.core, last.0, last.1) && s2.lock == s1.lock
      && s2.threads == s1.threads[last.0 := G.Thread(if last.0 == t then G.Appending(q) else G.Check(q), last.1)]
    ensures IsNumbered(s, s2, t, batch)
  {
    var last := |batch| - 1;
    forall a | 0 <= a < |batch|
      ensures GotNumber(s, s2, t, batch, a)
    {
      if a < last {
        assert batch[a].0 != batch[last].0;
        StillNumbered(s, s1, s2, t, batch, a);
      }
    }
    forall x | 0 <= x < |s.threads|
      ensures Untouched(s, s2, batch, x)
    {
      StillUntouched(s, s1, s2, batch, x);
    }
  }

  lemma StillNumbered(s: G.State, s1: G.State, s2: G.State, t: Tid, batch: seq<F.Ticket>, a: nat)
    requires a < |batch| - 1 && IsNumbered(s, s1, t, batch[..|batch| - 1])
    requires |s2.threads| == |s1.threads| && (batch[a].0 < |s1.threads| ==> s2.threads[batch[a].0] == s1.threads[batch[a].0])
    ensures GotNumber(s, s2, t, batch, a)
  {
    var front := batch[..|batch| - 1];
    assert front[a] == batch[a] && GotNumber(s, s1, t, front, a);
  }

  lemma StillUntouched(s: G.State, s1: G.State, s2: G.State, batch: seq<F.Ticket>, x: Tid)
    requires batch != [] && x < |s.threads| && |s1.threads| == |s2.threads| == |s.threads|
    requires Untouched(s, s1, batch[..|batch| - 1], x) && (x != batch[|batch| - 1].0 ==> s2.threads[x] == s1.threads[x])
    ensures Untouched(s, s2, batch, x)
  {
    var front := batch[..|batch| - 1];
    assert forall a :: 0 <= a < |front| ==> front[a] == batch[a];
  }

  lemma TStaysAppending(s: G.State, s1: G.State, t: Tid, front: seq<F.Ticket>)
    requires t < |s.threads| && s.threads[t].pc == G.Appending(0) && IsNumbered(s, s1, t, front)
    ensures s1.threads[t].pc.Appending?
  {
    if a :| 0 <= a < |front| && front[a].0 == t {
      assert GotNumber(s, s1, t, front, a);
    } else {
      assert Untouched(s, s1, front, t);
    }
  }

  lemma {:induction false} NumbersBatch(s: G.State, t: Tid, batch: seq<F.Ticket>)
    requires Numberable(s, t, batch)
    ensures var end := R.AfterSteps(V, s, NumberAll(t, batch)); end.Some? && IsNumbered(s, end.value, t, batch)
  {
    if batch != [] {
      var last := |batch| - 1;
      var front := batch[..last];
      FrontNumberable(s, t, batch);
      NumbersBatch(s, t, front);
      var s1 := R.AfterSteps(V, s, NumberAll(t, front)).value;
      RoundIsConsecutive(V, s.core, front);
      OneMoreNumber(s, s1, t, batch);
      R.StepsJoin(V, s, NumberAll(t, front), [G.Number(t, batch[last].0)]);
      R.OneStep(V, s1, G.Number(t, batch[last].0), []);
      assert [G.Number(t, batch[last].0)] + [] == [G.Number(t, batch[last].0)];
    }
  }

  lemma FrontNumberable(s: G.State, t: Tid, batch: seq<F.Ticket>)
    requires batch != [] && Numberable(s, t, batch)
    ensures Numberable(s, t, batch[..|batch| - 1])
  {
    var front := batch[..|batch| - 1];
    assert forall a :: 0 <= a < |front| ==> front[a] == batch[a];
  }

  /** The protocol's steps of one combining round. */
  function Round(t: Tid, batch: seq<F.Ticket>): seq<G.Step> {
    [G.LockAppend(t)] + (NumberAll(t, batch) + [G.UnlockAppend(t)])
  }

  predicate Waits(s: G.State, ticket: F.Ticket) {
    ticket.0 < |s.threads| && s.threads[ticket.0] == G.Thread(G.Queued, ticket.1)
  }

  /** After the round: the batch append, the lock free again, each appender waiting for its number. */
  ghost predicate RoundDone(s: G.State, s': G.State, batch: seq<F.Ticket>) {
    && s'.core == NumberedAll(V, s.core, batch) && s'.lock.None? && |s'.threads| == |s.threads|
    && (forall a :: 0 <= a < |batch| ==> AwaitsNumber(s, s', batch, a))
    && (forall x :: 0 <= x < |s.threads| ==> Untouched(s, s', batch, x))
  }

  predicate AwaitsNumber(s: G.State, s': G.State, batch: seq<F.Ticket>, a: nat)
    requires a < |batch|
  {
    batch[a].0 < |s'.threads| && s'.threads[batch[a].0] == G.Thread(G.Check(s.core.nextSeq + a + 1), batch[a].1)
  }

  lemma UnlockEnds(s: G.State, s1: G.State, s2: G.State, t: Tid, batch: seq<F.Ticket>, own: nat)
    requires G.Enabled(V, s, G.LockAppend(t)) && s1 == G.Apply(V, s, G.LockAppend(t)) && IsNumbered(s1, s2, t, batch)
    requires own < |batch| && batch[own].0 == t
    requires forall a, b :: 0 <= a < b < |batch| ==> batch[a].0 != batch[b].0
    ensures G.Enabled(V, s2, G.UnlockAppend(t)) && RoundDone(s, G.Apply(V, s2, G.UnlockAppend(t)), batch)
  {
    assert GotNumber(s1, s2, t, batch, own);
    var s3 := G.Apply(V, s2, G.UnlockAppend(t));
    forall a | 0 <= a < |batch|
      ensures AwaitsNumber(s, s3, batch, a)
    {
      assert GotNumber(s1, s2, t, batch, a);
      assert a != own ==> batch[a].0 != t;
    }
    forall x | 0 <= x < |s.threads|
      ensures Untouched(s, s3, batch, x)
    {
      assert Untouched(s1, s2, batch, x);
      if forall a :: 0 <= a < |batch| ==> batch[a].0 != x {
        assert batch[own].0 != x;
      }
    }
  }

  /** With the lock free and the batch queued, the combiner's own thread among it, the protocol can take
      those steps, and they amount to the batch append. */
  lemma RoundRuns(s: G.State, t: Tid, batch: seq<F.Ticket>, own: nat)
    requires s.lock.None? && own < |batch| && batch[own].0 == t
    requires forall a :: 0 <= a < |batch| ==> Waits(s, batch[a])
    requires forall a, b :: 0 <= a < b < |batch| ==> batch[a].0 != batch[b].0
    ensures var end := R.AfterSteps(V, s, Round(t, batch)); end.Some? && RoundDone(s, end.value, batch)
  {
    assert Waits(s, batch[own]);
    var s1 := G.Apply(V, s, G.LockAppend(t));
    forall a | 0 <= a < |batch|
      ensures IsQueued(s1, t, batch[a])
    {
      assert Waits(s, batch[a]);
    }
    NumbersBatch(s1, t, batch);
    var s2 := R.AfterSteps(V, s1, NumberAll(t, batch)).value;
    UnlockEnds(s, s1, s2, t, batch, own);
    var unlock := [G.UnlockAppend(t)];
    R.OneStep(V, s, G.LockAppend(t), NumberAll(t, batch) + unlock);
    R.StepsJoin(V, s1, NumberAll(t, batch), unlock);
    R.OneStep(V, s2, G.UnlockAppend(t), []);
    assert unlock + [] == unlock;
  }

  // ---- the joint system --------------------------------------------------------------------

  datatype Both = Both(fc: F.State, gc: G.State)

  /** A step of the queue, or of a thread that has returned from its append. */
  datatype Move = Queue(f: F.Step) | Commit(g: G.Step)

  predicate IsAppendStep(g: G.Step) {
    g.Enqueue? || g.LockAppend? || g.Number? || g.UnlockAppend?
  }

  /** A writer appends again only after its previous record was acknowledged; the write of a round needs
      the lock. */
  predicate Enabled(s: Both, m: Move) {
    match m
    case Queue(f) =>
      && F.Enabled(s.fc, f)
      && (f.Enqueue? ==> G.Enabled(V, s.gc, G.Enqueue(f.t)))
      && (f.Write? ==> s.gc.lock.None?)
    case Commit(g) =>
      !IsAppendStep(g) && G.Enabled(V, s.gc, g) && g.t < |s.fc.threads| && s.fc.threads[g.t].pc.Idle?
  }

  /** The protocol's steps a move stands for. */
  function CommitSteps(s: Both, m: Move): seq<G.Step>
    requires Enabled(s, m)
  {
    match m
    case Queue(f) =>
      if f.Enqueue? then [G.Enqueue(f.t)]
      else if f.Write? then Round(f.t, s.fc.threads[f.t].pc.batch)
      else []
    case Commit(g) => [g]
  }

  /** The protocol's side follows; `Linked` below says that it always can. */
  function Apply(s: Both, m: Move): Both
    requires Enabled(s, m)
  {
    var end := R.AfterSteps(V, s.gc, CommitSteps(s, m));
    Both(if m.Queue? then F.Apply(s.fc, m.f) else s.fc, if end.Some? then end.value else s.gc)
  }

  ghost predicate IsRun(writers: nat, run: seq<Both>, moves: seq<Move>) {
    && |run| == |moves| + 1
    && run[0] == Both(F.Init(writers), G.Init(writers))
    && forall i :: 0 <= i < |moves| ==> Enabled(run[i], moves[i]) && run[i + 1] == Apply(run[i], moves[i])
  }

  // ---- the two sides agree -----------------------------------------------------------------

  /** Where a thread is on the two sides: out of the queue it awaits its number or is between operations;
      with an unwritten ticket it is queued; with a written one it is about to await its number. */
  predicate Linked(s: Both, x: Tid)
    requires x < |s.fc.threads| && x < |s.gc.threads|
  {
    var f, g := s.fc.threads[x], s.gc.threads[x];
    if f.pc.Idle? then
      && !g.pc.Queued? && !g.pc.Appending?
      && f.done == g.acked + (if g.pc.Idle? then 0 else 1)
    else if f.place >= |s.fc.file| then g == G.Thread(G.Queued, f.done)
    else g == G.Thread(G.Check(f.place + 1), f.done)
  }

  ghost predicate LinkInv(s: Both) {
    && s.gc.core.file == s.fc.file && s.gc.core.nextSeq == |s.fc.file| && |s.gc.threads| == |s.fc.threads|
    && forall x :: 0 <= x < |s.fc.threads| ==> Linked(s, x)
  }

  /** In this variant a leader carries nothing to write. */
  lemma NothingPending(s: G.State, t: Tid)
    requires G.DiskInv(V, s) && G.RoleInv(V, s) && t < |s.threads| && s.threads[t].pc.Writing?
    ensures s.threads[t].pc.pending == []
  {
    assert G.RoleOk(s, t);
    assert G.PendingOf(s) == s.threads[t].pc.pending;
  }

  lemma FlushKeepsCore(s: G.State, g: G.Step)
    requires G.Enabled(V, s, g) && (G.IsFlushStep(g) || g.Collect?) && !g.WriteOne?
    ensures var s' := G.Apply(V, s, g);
      s'.core.file == s.core.file && s'.core.nextSeq == s.core.nextSeq && |s'.threads| == |s.threads|
  {
  }

  lemma CommitKeepsCore(s: G.State, g: G.Step)
    requires G.DiskInv(V, s) && G.RoleInv(V, s) && G.Enabled(V, s, g) && !IsAppendStep(g)
    ensures var s' := G.Apply(V, s, g);
      s'.core.file == s.core.file && s'.core.nextSeq == s.core.nextSeq && |s'.threads| == |s.threads|
  {
    if g.WriteOne? {
      NothingPending(s, g.t);
    } else if G.IsFlushStep(g) || g.Collect? {
      FlushKeepsCore(s, g);
    } else {
      G.StepIsAside(V, s, g);
    }
  }

  /** Away from its append a thread keeps its record until it is acknowledged. */
  lemma CommitKeepsOthers(s: G.State, g: G.Step, x: Tid)
    requires G.Enabled(V, s, g) && !IsAppendStep(g) && x < |s.threads|
    ensures var s' := G.Apply(V, s, g); |s'.threads| == |s.threads| && (x != g.t ==> s'.threads[x] == s.threads[x])
  {
  }

  lemma CommitMovesOne(s: G.State, g: G.Step)
    requires G.Enabled(V, s, g) && !IsAppendStep(g)
    ensures var a, b := s.threads[g.t], G.Apply(V, s, g).threads[g.t];
      && !b.pc.Queued? && !b.pc.Appending? && !a.pc.Idle?
      && b.acked + (if b.pc.Idle? then 0 else 1) == a.acked + 1
  {
  }

  lemma LinksKeptByCommit(s: Both, g: G.Step)
    requires LinkInv(s) && G.Good(V, s.gc) && Enabled(s, Commit(g))
    ensures R.AfterSteps(V, s.gc, [g]) == Some(G.Apply(V, s.gc, g)) && LinkInv(Apply(s, Commit(g)))
  {
    R.OneStep(V, s.gc, g, []);
    assert [g] + [] == [g];
    var s' := Apply(s, Commit(g));
    CommitKeepsCore(s.gc, g);
    forall x | 0 <= x < |s'.fc.threads|
      ensures Linked(s', x)
    {
      assert Linked(s, x);
      CommitKeepsOthers(s.gc, g, x);
      CommitMovesOne(s.gc, g);
    }
  }

  lemma LinksKeptByEnqueue(s: Both, t: Tid)
    requires LinkInv(s) && F.Inv(s.fc) && Enabled(s, Queue(F.Enqueue(t)))
    ensures R.AfterSteps(V, s.gc, [G.Enqueue(t)]).Some? && LinkInv(Apply(s, Queue(F.Enqueue(t))))
  {
    var steps := [G.Enqueue(t)];
    R.OneStep(V, s.gc, G.Enqueue(t), []);
    assert steps + [] == steps;
    var s' := Apply(s, Queue(F.Enqueue(t)));
    F.FileWithinOrder(s.fc);
    forall x | 0 <= x < |s'.fc.threads|
      ensures Linked(s', x)
    {
      assert Linked(s, x);
    }
  }

  /** The appender behind each ticket of a numbered batch is queued on the protocol's side. */
  lemma BatchWaits(s: Both, t: Tid, a: nat)
    requires LinkInv(s) && F.Inv(s.fc) && F.Enabled(s.fc, F.Write(t)) && a < |s.fc.threads[t].pc.batch|
    ensures Waits(s.gc, s.fc.threads[t].pc.batch[a])
    ensures s.fc.threads[s.fc.threads[t].pc.batch[a].0].place == |s.fc.file| + a
  {
    F.BossActs(s.fc, t);
    F.BatchEntry(s.fc, t, a);
    var u := s.fc.threads[t].pc.batch[a].0;
    assert F.TicketOk(s.fc, |s.fc.file| + a);
    assert Linked(s, u);
  }

  /** The combiner's own ticket is in its batch. */
  lemma OwnTicket(s: F.State, t: Tid) returns (own: nat)
    requires F.Inv(s) && F.Enabled(s, F.Write(t))
    ensures own < |s.threads[t].pc.batch| && s.threads[t].pc.batch[own].0 == t
  {
    F.BossActs(s, t);
    assert F.AppendOk(s, t);
    own := s.threads[t].place - |s.file|;
    assert s.order[s.threads[t].place] == F.InHand(s)[own];
  }

  /** On the protocol's side the write of a round can always follow, and it is the round. */
  lemma WriteFollows(s: Both, t: Tid)
    requires LinkInv(s) && F.Inv(s.fc) && Enabled(s, Queue(F.Write(t)))
    ensures var batch := s.fc.threads[t].pc.batch; var end := R.AfterSteps(V, s.gc, Round(t, batch));
      end.Some? && RoundDone(s.gc, end.value, batch)
  {
    var batch := s.fc.threads[t].pc.batch;
    var own := OwnTicket(s.fc, t);
    forall a | 0 <= a < |batch|
      ensures Waits(s.gc, batch[a])
    {
      BatchWaits(s, t, a);
    }
    forall a, b | 0 <= a < b < |batch|
      ensures batch[a].0 != batch[b].0
    {
      F.BatchDistinct(s.fc, t, a, b);
    }
    RoundRuns(s.gc, t, batch, own);
  }

  lemma WriteMoves(s: F.State, t: Tid, x: Tid)
    requires F.Enabled(s, F.Write(t)) && x < |s.threads|
    ensures var s' := F.Apply(s, F.Write(t));
      && |s'.file| == |s.file| + |s.threads[t].pc.batch| && |s'.threads| == |s.threads|
      && s'.threads[x].done == s.threads[x].done && s'.threads[x].place == s.threads[x].place
      && (s'.threads[x].pc.Idle? <==> s.threads[x].pc.Idle?)
  {
  }

  lemma WriteLinksMember(s: Both, s': Both, t: Tid, a: nat)
    requires LinkInv(s) && F.Inv(s.fc) && F.Enabled(s.fc, F.Write(t)) && a < |s.fc.threads[t].pc.batch|
    requires s'.fc == F.Apply(s.fc, F.Write(t)) && RoundDone(s.gc, s'.gc, s.fc.threads[t].pc.batch)
    ensures var x := s.fc.threads[t].pc.batch[a].0; x < |s'.fc.threads| && x < |s'.gc.threads| && Linked(s', x)
  {
    var batch := s.fc.threads[t].pc.batch;
    BatchWaits(s, t, a);
    F.BatchEntry(s.fc, t, a);
    WriteMoves(s.fc, t, batch[a].0);
    assert AwaitsNumber(s.gc, s'.gc, batch, a);
  }

  lemma WriteLinksOther(s: Both, s': Both, t: Tid, x: Tid)
    requires LinkInv(s) && F.Inv(s.fc) && F.Enabled(s.fc, F.Write(t)) && x < |s.fc.threads|
    requires s'.fc == F.Apply(s.fc, F.Write(t)) && RoundDone(s.gc, s'.gc, s.fc.threads[t].pc.batch)
    requires forall a :: 0 <= a < |s.fc.threads[t].pc.batch| ==> s.fc.threads[t].pc.batch[a].0 != x
    ensures Linked(s', x)
  {
    assert Linked(s, x) && Untouched(s.gc, s'.gc, s.fc.threads[t].pc.batch, x);
    WriteMoves(s.fc, t, x);
    if !s.fc.threads[x].pc.Idle? {
      PlaceInBatch(s.fc, t, x);
    }
  }

  lemma WriteLinks(s: Both, s': Both, t: Tid, x: Tid)
    requires LinkInv(s) && F.Inv(s.fc) && F.Enabled(s.fc, F.Write(t)) && x < |s.fc.threads|
    requires s'.fc == F.Apply(s.fc, F.Write(t)) && RoundDone(s.gc, s'.gc, s.fc.threads[t].pc.batch)
    ensures |s'.fc.threads| == |s.fc.threads| == |s'.gc.threads| && Linked(s', x)
  {
    var batch := s.fc.threads[t].pc.batch;
    WriteMoves(s.fc, t, x);
    if a :| 0 <= a < |batch| && batch[a].0 == x {
      WriteLinksMember(s, s', t, a);
    } else {
      WriteLinksOther(s, s', t, x);
    }
  }

  /** A ticket between the file and the end of the batch is the batch's. */
  lemma PlaceInBatch(s: F.State, t: Tid, x: Tid)
    requires F.Inv(s) && F.Enabled(s, F.Write(t)) && x < |s.threads| && !s.threads[x].pc.Idle?
    ensures var i := s.threads[x].place - |s.file|; 0 <= i < |s.threads[t].pc.batch| ==> s.threads[t].pc.batch[i].0 == x
  {
    F.BossActs(s, t);
    assert F.AppendOk(s, x);
    var place := s.threads[x].place;
    if 0 <= place - |s.file| < |s.threads[t].pc.batch| {
      assert s.order[place] == F.InHand(s)[place - |s.file|];
    }
  }

  lemma WriteSameFile(s: F.State, core: Core, t: Tid)
    requires F.Enabled(s, F.Write(t)) && core.file == s.file && core.nextSeq == |s.file|
    ensures var next := NumberedAll(V, core, s.threads[t].pc.batch);
      next.file == F.Apply(s, F.Write(t)).file && next.nextSeq == |next.file|
  {
    var batch := s.threads[t].pc.batch;
    RoundIsConsecutive(V, core, batch);
    assert F.Frames(batch, |s.file| + 1)
        == seq(|batch|, k requires 0 <= k < |batch| => Record(|s.file| + k + 1, batch[k].0, batch[k].1));
  }

  lemma LinksAfterRound(s: Both, s': Both, t: Tid)
    requires LinkInv(s) && F.Inv(s.fc) && F.Enabled(s.fc, F.Write(t))
    requires s'.fc == F.Apply(s.fc, F.Write(t)) && RoundDone(s.gc, s'.gc, s.fc.threads[t].pc.batch)
    ensures LinkInv(s')
  {
    WriteSameFile(s.fc, s.gc.core, t);
    WriteMoves(s.fc, t, t);
    forall x | 0 <= x < |s.fc.threads|
      ensures Linked(s', x)
    {
      WriteLinks(s, s', t, x);
    }
  }

  lemma LinksKeptByWrite(s: Both, t: Tid)
    requires LinkInv(s) && F.Inv(s.fc) && Enabled(s, Queue(F.Write(t)))
    ensures LinkInv(Apply(s, Queue(F.Write(t))))
  {
    WriteFollows(s, t);
    LinksAfterRound(s, Apply(s, Queue(F.Write(t))), t);
  }

  predicate IsReturn(f: F.Step) {
    f.SeeDone? || f.Handoff?
  }

  lemma ReturnMovesOne(s: F.State, f: F.Step, x: Tid)
    requires F.Inv(s) && F.Enabled(s, f) && IsReturn(f) && x < |s.threads|
    ensures var s' := F.Apply(s, f);
      && s'.file == s.file && |s'.threads| == |s.threads|
      && (x == f.t ==> !s.threads[x].pc.Idle? && s'.threads[x].pc.Idle? && s'.threads[x].done == s.threads[x].done + 1
                       && s.threads[x].place < |s.file|)
      && (x != f.t ==> s'.threads[x].pc == s.threads[x].pc && s'.threads[x].done == s.threads[x].done
                       && s'.threads[x].place == s.threads[x].place)
  {
    assert F.AppendOk(s, f.t);
  }

  lemma LinksKeptByReturn(s: Both, f: F.Step)
    requires LinkInv(s) && F.Inv(s.fc) && Enabled(s, Queue(f)) && IsReturn(f)
    ensures LinkInv(Apply(s, Queue(f)))
  {
    var s' := Apply(s, Queue(f));
    ReturnMovesOne(s.fc, f, f.t);
    forall x | 0 <= x < |s.fc.threads|
      ensures Linked(s', x)
    {
      assert Linked(s, x);
      ReturnMovesOne(s.fc, f, x);
    }
  }

  lemma QueueStaysPut(s: F.State, f: F.Step, x: Tid)
    requires F.Inv(s) && F.Enabled(s, f) && !f.Enqueue? && !f.Write? && !IsReturn(f) && x < |s.threads|
    ensures var s' := F.Apply(s, f);
      && s'.file == s.file && |s'.threads| == |s.threads|
      && s'.threads[x].done == s.threads[x].done && s'.threads[x].place == s.threads[x].place
      && (s'.threads[x].pc.Idle? <==> s.threads[x].pc.Idle?)
  {
  }

  lemma LinksKeptByQueue(s: Both, f: F.Step)
    requires LinkInv(s) && F.Inv(s.fc) && Enabled(s, Queue(f)) && !f.Enqueue? && !f.Write? && !IsReturn(f)
    ensures LinkInv(Apply(s, Queue(f)))
  {
    var s' := Apply(s, Queue(f));
    QueueStaysPut(s.fc, f, f.t);
    forall x | 0 <= x < |s.fc.threads|
      ensures Linked(s', x)
    {
      assert Linked(s, x);
      QueueStaysPut(s.fc, f, x);
    }
  }

  // ---- every joint run -----------------------------------------------------------------------

  /** The queue's side of a joint run keeps the queue's invariant. */
  lemma {:induction false} QueueHolds(writers: nat, run: seq<Both>, moves: seq<Move>, i: nat)
    requires IsRun(writers, run, moves) && i < |run|
    ensures F.Inv(run[i].fc)
  {
    if i == 0 {
      F.InitInv(writers);
    } else {
      QueueHolds(writers, run, moves, i - 1);
      if moves[i - 1].Queue? {
        F.StepKeepsInv(run[i - 1].fc, moves[i - 1].f);
      }
    }
  }

  lemma MoveFollows(s: Both, m: Move)
    requires LinkInv(s) && F.Inv(s.fc) && G.Good(V, s.gc) && Enabled(s, m)
    ensures R.AfterSteps(V, s.gc, CommitSteps(s, m)) == Some(Apply(s, m).gc) && LinkInv(Apply(s, m))
  {
    match m
    case Commit(g) => LinksKeptByCommit(s, g);
    case Queue(f) =>
      if f.Enqueue? {
        LinksKeptByEnqueue(s, f.t);
      } else if f.Write? {
        WriteFollows(s, f.t);
        LinksKeptByWrite(s, f.t);
      } else if IsReturn(f) {
        LinksKeptByReturn(s, f);
      } else {
        LinksKeptByQueue(s, f);
      }
  }

  lemma FollowMove(writers: nat, before: seq<G.State>, done: seq<G.Step>, s: Both, m: Move)
    returns (gRun: seq<G.State>, gSteps: seq<G.Step>)
    requires G.IsRun(V, writers, before, done) && before[|done|] == s.gc
    requires LinkInv(s) && F.Inv(s.fc) && Enabled(s, m)
    ensures G.IsRun(V, writers, gRun, gSteps) && gRun[|gSteps|] == Apply(s, m).gc && LinkInv(Apply(s, m))
  {
    G.RunGood(V, writers, before, done, |done|);
    MoveFollows(s, m);
    gRun, gSteps := R.ExtendRun(V, writers, before, done, CommitSteps(s, m));
  }

  /** The protocol's side of every joint run is itself a run of the protocol, and the two sides have the
      same file and agree about every thread. */
  lemma {:induction false} Simulates(writers: nat, run: seq<Both>, moves: seq<Move>, i: nat)
    returns (gRun: seq<G.State>, gSteps: seq<G.Step>)
    requires IsRun(writers, run, moves) && i < |run|
    ensures G.IsRun(V, writers, gRun, gSteps) && gRun[|gSteps|] == run[i].gc && LinkInv(run[i])
  {
    if i == 0 {
      gRun, gSteps := [G.Init(writers)], [];
    } else {
      var before, done := Simulates(writers, run, moves, i - 1);
      QueueHolds(writers, run, moves, i - 1);
      gRun, gSteps := FollowMove(writers, before, done, run[i - 1], moves[i - 1]);
    }
  }

  /** So flat combining is crash safe: in every state of every joint run, whatever part of the queue's file
      at least as long as the last completed sync survives passes the recovery oracle. */
  lemma CombiningCrashSafety(writers: nat, run: seq<Both>, moves: seq<Move>, i: nat, k: nat)
    requires IsRun(writers, run, moves) && i < |run|
    requires run[i].gc.synced <= k <= |run[i].fc.file|
    ensures G.Recovered(run[i].gc, run[i].fc.file[..k])
  {
    var gRun, gSteps := Simulates(writers, run, moves, i);
    G.CrashSafety(V, writers, gRun, gSteps, |gSteps|, k);
  }
}
