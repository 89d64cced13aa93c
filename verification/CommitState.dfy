/** The lock-protected state of the group-commit prototype and its critical sections.
    Each function below is the effect of one critical section of the `st` mutex; the class
    `Shared` runs the same sections in place, and `GroupCommit` interleaves them. */
module CommitState {

  type Tid = nat

  /** How a variant appends and wakes: `Direct` stands for `condvar`, `condvar-fill` and `fcs`
      (they differ only in when a batch closes and which condition variable is notified);
      `LogBuffer` for `buf*`; `Pipelined` for `pipe*`; `Park` for `park` and `fcp`. */
  datatype Variant = Direct | FlatCombining | LogBuffer | Pipelined | Park

  /** One WAL frame: the sequence number it was given and whose operation it carries. */
  datatype Record = Record(seqNo: nat, writer: Tid, op: nat)

  datatype Waiter = Waiter(seqNo: nat, thread: Tid)

  datatype Core = Core(
    nextSeq: nat,
    file: seq<Record>,
    buf: seq<Record>,
    leaderActive: bool,
    flushing: bool,
    waiters: seq<Waiter>,
    durable: nat)

  const EMPTY: Core := Core(0, [], [], false, false, [], 0)

  /** A record enters the log: into the file, or into the in-memory buffer of `buf*`. */
  function Numbered(v: Variant, c: Core, writer: Tid, op: nat): Core {
    var rec := Record(c.nextSeq + 1, writer, op);
    if v.LogBuffer? then c.(nextSeq := c.nextSeq + 1, buf := c.buf + [rec])
    else c.(nextSeq := c.nextSeq + 1, file := c.file + [rec])
  }

  function Elected(c: Core): Core {
    c.(leaderActive := true)
  }

  function Registered(c: Core, seqNo: nat, thread: Tid): Core {
    c.(waiters := c.waiters + [Waiter(seqNo, thread)])
  }

  /** What the closing leader carries away to write itself. */
  function Taken(v: Variant, c: Core): seq<Record> {
    if v.Pipelined? then [] else c.buf
  }

  /** The leader closes its batch. Only the pipelined form frees the leader slot here. */
  function Collected(v: Variant, c: Core): Core {
    if v.Pipelined? then c.(flushing := true, leaderActive := false) else c.(buf := [])
  }

  /** The completed flush is published as the new watermark. */
  function Stored(v: Variant, c: Core, max: nat): Core {
    if v.Pipelined? then c.(durable := max, flushing := false)
    else c.(durable := max, leaderActive := false)
  }

  /** The waiters that stay registered after a flush up to `max`. */
  function Kept(ws: seq<Waiter>, max: nat): seq<Waiter> {
    if ws == [] then []
    else
      var last := ws[|ws| - 1];
      Kept(ws[..|ws| - 1], max) + if last.seqNo <= max then [] else [last]
  }

  /** The registrations a flush up to `max` removes. */
  function Covered(ws: seq<Waiter>, max: nat): seq<Waiter> {
    if ws == [] then []
    else
      var last := ws[|ws| - 1];
      Covered(ws[..|ws| - 1], max) + if last.seqNo <= max then [last] else []
  }

  /** The threads a flush up to `max` wakes. */
  function Woken(ws: seq<Waiter>, max: nat): seq<Tid> {
    if ws == [] then []
    else
      var last := ws[|ws| - 1];
      Woken(ws[..|ws| - 1], max) + if last.seqNo <= max then [last.thread] else []
  }

  /** One registration's way through the drain. */
  lemma DrainStep(front: seq<Waiter>, last: Waiter, max: nat)
    ensures Kept(front + [last], max) == Kept(front, max) + if last.seqNo <= max then [] else [last]
    ensures Covered(front + [last], max) == Covered(front, max) + if last.seqNo <= max then [last] else []
    ensures Woken(front + [last], max) == Woken(front, max) + if last.seqNo <= max then [last.thread] else []
  {
    assert (front + [last])[..|front|] == front;
  }

  lemma OneMore(ws: seq<Waiter>, w: Waiter)
    ensures multiset(ws + [w]) == multiset(ws) + multiset{w}
  {
  }

  /** One more on either side. */
  lemma OneMoreConserved(ws: seq<Waiter>, a: seq<Waiter>, b: seq<Waiter>, w: Waiter)
    requires multiset(ws) == multiset(a) + multiset(b)
    ensures multiset(ws + [w]) == multiset(a + [w]) + multiset(b)
    ensures multiset(ws + [w]) == multiset(a) + multiset(b + [w])
  {
    OneMore(ws, w);
    OneMore(a, w);
    OneMore(b, w);
  }

  ghost predicate Conserved(ws: seq<Waiter>, max: nat) {
    multiset(ws) == multiset(Kept(ws, max)) + multiset(Covered(ws, max))
  }

  lemma DrainStepConserves(front: seq<Waiter>, last: Waiter, max: nat)
    requires Conserved(front, max)
    ensures Conserved(front + [last], max)
  {
    var kept, covered := Kept(front, max), Covered(front, max);
    DrainStep(front, last, max);
    OneMoreConserved(front, kept, covered, last);
    if last.seqNo <= max {
      assert kept + [] == kept;
    } else {
      assert covered + [] == covered;
    }
  }

  lemma FrontAndLast(ws: seq<Waiter>)
    requires ws != []
    ensures ws == ws[..|ws| - 1] + [ws[|ws| - 1]]
  {
  }

  lemma {:induction false} DrainConserves(ws: seq<Waiter>, max: nat)
    ensures Conserved(ws, max)
  {
    if ws == [] {
      assert Kept(ws, max) == [] && Covered(ws, max) == [];
    } else {
      DrainConserves(ws[..|ws| - 1], max);
      DrainStepConserves(ws[..|ws| - 1], ws[|ws| - 1], max);
      FrontAndLast(ws);
    }
  }

  lemma {:induction false} DrainSides(ws: seq<Waiter>, max: nat)
    ensures forall w :: w in Kept(ws, max) ==> w.seqNo > max
    ensures |Woken(ws, max)| == |Covered(ws, max)|
    ensures forall i :: 0 <= i < |Covered(ws, max)| ==>
      Covered(ws, max)[i].seqNo <= max && Woken(ws, max)[i] == Covered(ws, max)[i].thread
  {
    if ws != [] {
      var front, last := ws[..|ws| - 1], ws[|ws| - 1];
      DrainSides(front, max);
      DrainStep(front, last, max);
      assert ws == front + [last];
    }
  }

  /** Draining is a partition: no registration is lost, duplicated or moved to the wrong side,
      and one thread is woken for each registration removed. */
  lemma DrainPartitions(ws: seq<Waiter>, max: nat)
    ensures multiset(ws) == multiset(Kept(ws, max)) + multiset(Covered(ws, max))
    ensures forall w :: w in Kept(ws, max) ==> w.seqNo > max
    ensures |Woken(ws, max)| == |Covered(ws, max)|
    ensures forall i :: 0 <= i < |Covered(ws, max)| ==>
      Covered(ws, max)[i].seqNo <= max && Woken(ws, max)[i] == Covered(ws, max)[i].thread
  {
    DrainConserves(ws, max);
    DrainSides(ws, max);
  }

  /** Membership form of the partition: a registration is kept or its thread is woken. */
  lemma DrainMembers(ws: seq<Waiter>, max: nat, w: Waiter)
    requires w in ws
    ensures w.seqNo > max ==> w in Kept(ws, max)
    ensures w.seqNo <= max ==> w.thread in Woken(ws, max)
  {
    DrainPartitions(ws, max);
    assert w in multiset(ws);
    if w.seqNo <= max {
      assert w in multiset(Covered(ws, max));
      var i :| 0 <= i < |Covered(ws, max)| && Covered(ws, max)[i] == w;
      assert Woken(ws, max)[i] == w.thread;
    }
  }

  /** The effect of one flat-combining round: the batch is numbered in queue order. */
  function NumberedAll(v: Variant, c: Core, batch: seq<(Tid, nat)>): Core {
    if batch == [] then c
    else
      var last := |batch| - 1;
      Numbered(v, NumberedAll(v, c, batch[..last]), batch[last].0, batch[last].1)
  }

  /** A combining round gives the batch consecutive numbers and writes the frames in that order. */
  lemma {:induction false} RoundIsConsecutive(v: Variant, c: Core, batch: seq<(Tid, nat)>)
    requires !v.LogBuffer?
    ensures NumberedAll(v, c, batch).nextSeq == c.nextSeq + |batch|
    ensures NumberedAll(v, c, batch).file
         == c.file + seq(|batch|, i requires 0 <= i < |batch| => Record(c.nextSeq + i + 1, batch[i].0, batch[i].1))
    ensures NumberedAll(v, c, batch) == c.(nextSeq := c.nextSeq + |batch|, file := NumberedAll(v, c, batch).file)
  {
    if batch != [] {
      RoundIsConsecutive(v, c, batch[..|batch| - 1]);
    }
  }

  /** The mutex-protected fields of `State` and the atomic watermark, updated in place. */
  class Shared {
    const variant: Variant
    var nextSeq: nat
    var file: seq<Record>
    var buf: seq<Record>
    var leaderActive: bool
    var flushing: bool
    var waiters: seq<Waiter>
    var durable: nat

    function View(): Core
      reads this
    {
      Core(nextSeq, file, buf, leaderActive, flushing, waiters, durable)
    }

    constructor (variant: Variant)
      ensures this.variant == variant && View() == EMPTY
    {
      this.variant := variant;
      nextSeq, file, buf, leaderActive, flushing, waiters, durable := 0, [], [], false, false, [], 0;
    }

    method Append(writer: Tid, op: nat) returns (seqNo: nat)
      modifies this
      ensures View() == Numbered(variant, old(View()), writer, op)
      ensures seqNo == nextSeq == old(nextSeq) + 1
    {
      nextSeq := nextSeq + 1;
      seqNo := nextSeq;
      var rec := Record(seqNo, writer, op);
      if variant.LogBuffer? {
        buf := buf + [rec];
      } else {
        file := file + [rec];
      }
    }

    /** The combiner's numbering loop over one batch, and its single write. */
    method AppendBatch(batch: seq<(Tid, nat)>) returns (seqs: seq<nat>)
      requires variant.FlatCombining?
      modifies this
      ensures View() == NumberedAll(variant, old(View()), batch)
      ensures |seqs| == |batch|
      ensures forall i :: 0 <= i < |seqs| ==> seqs[i] == old(nextSeq) + i + 1
    {
      var frames: seq<Record> := [];
      seqs := [];
      for i := 0 to |batch|
        invariant nextSeq == old(nextSeq) + i
        invariant View() == old(View()).(nextSeq := nextSeq)
        invariant |seqs| == i && forall k :: 0 <= k < i ==> seqs[k] == old(nextSeq) + k + 1
        invariant frames == seq(i, k requires 0 <= k < i => Record(old(nextSeq) + k + 1, batch[k].0, batch[k].1))
      {
        nextSeq := nextSeq + 1;
        seqs := seqs + [nextSeq];
        frames := frames + [Record(nextSeq, batch[i].0, batch[i].1)];
      }
      file := file + frames;
      RoundIsConsecutive(variant, old(View()), batch);
    }

    /** The slow path of `await_durable` under the lock: acknowledged, elected, or told to wait. */
    method Decide(seqNo: nat, thread: Tid) returns (done: bool, lead: bool)
      modifies this
      ensures done == (old(durable) >= seqNo)
      ensures lead == (!done && !old(leaderActive))
      ensures View() == if lead then Elected(old(View()))
                        else if !done && variant.Park? then Registered(old(View()), seqNo, thread)
                        else old(View())
    {
      done, lead := durable >= seqNo, false;
      if !done {
        if !leaderActive {
          leaderActive, lead := true, true;
        } else if variant.Park? {
          waiters := waiters + [Waiter(seqNo, thread)];
        }
      }
    }

    /** Closing a batch; the pipelined form is refused while a flush is in flight. */
    method Collect() returns (ok: bool, max: nat, pending: seq<Record>)
      modifies this
      ensures ok == !(variant.Pipelined? && old(flushing))
      ensures View() == if ok then Collected(variant, old(View())) else old(View())
      ensures ok ==> max == nextSeq && pending == Taken(variant, old(View()))
    {
      ok, max, pending := true, nextSeq, [];
      if variant.Pipelined? {
        if flushing {
          ok := false;
        } else {
          flushing, leaderActive := true, false;
        }
      } else {
        pending, buf := buf, [];
      }
    }

    /** Publishing the watermark and, in the park form, draining the waiter list. */
    method Publish(max: nat) returns (wake: seq<Tid>)
      modifies this
      ensures variant.Park? ==>
        View() == Stored(variant, old(View()), max).(waiters := Kept(old(waiters), max))
        && wake == Woken(old(waiters), max)
      ensures !variant.Park? ==> View() == Stored(variant, old(View()), max) && wake == []
    {
      durable, wake := max, [];
      if variant.Pipelined? {
        flushing := false;
      } else {
        leaderActive := false;
      }
      if variant.Park? {
        var keep: seq<Waiter> := [];
        for i := 0 to |waiters|
          invariant waiters == old(waiters)
          invariant keep == Kept(waiters[..i], max) && wake == Woken(waiters[..i], max)
          invariant View() == Stored(variant, old(View()), max)
        {
          assert waiters[..i + 1][..i] == waiters[..i];
          if waiters[i].seqNo <= max {
            wake := wake + [waiters[i].thread];
          } else {
            keep := keep + [waiters[i]];
          }
        }
        assert waiters[..|waiters|] == waiters;
        waiters := keep;
      }
    }
  }
}
