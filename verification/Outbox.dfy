/** The transactional outbox: rows appended by commands, published by any number of workers that may
    overlap or die at any point, and marked only afterwards. */
module Outbox {

  datatype Status = Pending | Published

  /** A worker's batch: the rows it claimed, how many it has tried, and those the broker accepted. */
  datatype Worker = Idle | Publishing(batch: seq<string>, tried: nat, accepted: seq<string>)

  datatype System = System(
    rows: map<string, Status>,      // by event id
    broker: seq<string>,            // every event that reached the broker, repeats included
    workers: map<int, Worker>)
  {
    function WorkerAt(w: int): Worker { if w in workers then workers[w] else Idle }
    function With(w: int, worker: Worker): System { this.(workers := workers[w := worker]) }
  }

  const START := System(map[], [], map[])

  /** What the worker learns of one publish. */
  datatype Delivery =
    | Accepted        // on the broker, and reported so
    | Unreported      // on the broker, but reported as failed
    | Failed          // not on the broker

  datatype Step =
    | Append(id: string)
    | Fetch(w: int, batch: seq<string>)   // overlapping claims are possible once the claim commits
    | Publish(w: int, delivery: Delivery)
    | Mark(w: int, written: bool)
    | Crash(w: int)

  predicate Enabled(s: System, step: Step) {
    match step
    case Append(id) => id !in s.rows
    case Fetch(w, batch) => s.WorkerAt(w).Idle? && forall id | id in batch :: id in s.rows && s.rows[id].Pending?
    case Publish(w, _) => s.WorkerAt(w).Publishing? && s.WorkerAt(w).tried < |s.WorkerAt(w).batch|
    case Mark(w, _) => s.WorkerAt(w).Publishing? && s.WorkerAt(w).tried == |s.WorkerAt(w).batch|
    case Crash(w) => s.WorkerAt(w).Publishing?
  }

  /** Only a row still pending is marked. */
  function MarkAll(rows: map<string, Status>, ids: seq<string>): map<string, Status> {
    map id | id in rows :: if id in ids then Published else rows[id]
  }

  /** Workers whose batches overlap may mark in either order, and again: the marks combine, commute and
      repeat without effect, and no published row returns to pending. */
  lemma MarksCombine(rows: map<string, Status>, a: seq<string>, b: seq<string>)
    ensures MarkAll(MarkAll(rows, a), b) == MarkAll(rows, a + b) == MarkAll(MarkAll(rows, b), a)
    ensures MarkAll(MarkAll(rows, a), a) == MarkAll(rows, a)
    ensures forall id | id in rows && rows[id].Published? :: MarkAll(rows, a)[id].Published?
  {
    var once, both := MarkAll(rows, a), MarkAll(MarkAll(rows, a), b);
    forall id | id in rows
      ensures both[id] == MarkAll(rows, a + b)[id] == MarkAll(MarkAll(rows, b), a)[id]
      ensures MarkAll(once, a)[id] == once[id]
    {
      assert id in a + b <==> id in a || id in b;
    }
    assert both.Keys == MarkAll(rows, a + b).Keys;
    assert MarkAll(once, a).Keys == once.Keys;
  }

  function Tried(wk: Worker, delivery: Delivery): Worker
    requires wk.Publishing? && wk.tried < |wk.batch|
  {
    wk.(tried := wk.tried + 1,
        accepted := if delivery.Accepted? then wk.accepted + [wk.batch[wk.tried]] else wk.accepted)
  }

  function Next(s: System, step: Step): System
    requires Enabled(s, step)
  {
    match step
    case Append(id) => s.(rows := s.rows[id := Pending])
    case Fetch(w, batch) => s.With(w, Publishing(batch, 0, []))
    case Publish(w, delivery) =>
      var wk := s.WorkerAt(w);
      s.(broker := if delivery.Failed? then s.broker else s.broker + [wk.batch[wk.tried]]).With(w, Tried(wk, delivery))
    case Mark(w, written) =>
      (if written then s.(rows := MarkAll(s.rows, s.WorkerAt(w).accepted)) else s).With(w, Idle)
    case Crash(w) => s.With(w, Idle)
  }

  predicate Possible(s: System, steps: seq<Step>)
    decreases |steps|
  {
    steps == [] || (Enabled(s, steps[0]) && Possible(Next(s, steps[0]), steps[1..]))
  }

  function Run(s: System, steps: seq<Step>): System
    requires Possible(s, steps)
    decreases |steps|
  {
    if steps == [] then s else Run(Next(s, steps[0]), steps[1..])
  }

  // ----- nothing is lost, nothing is claimed that did not happen

  ghost predicate Honest(s: System) {
    && (forall id | id in s.rows && s.rows[id].Published? :: id in s.broker)
    && (forall id | id in s.broker :: id in s.rows)
    && (forall w | w in s.workers && s.workers[w].Publishing? ::
          && (forall id | id in s.workers[w].batch :: id in s.rows)
          && (forall id | id in s.workers[w].accepted :: id in s.broker))
  }

  lemma StepIsHonest(s: System, step: Step)
    requires Honest(s) && Enabled(s, step)
    ensures Honest(Next(s, step))
    ensures s.broker <= Next(s, step).broker && s.rows.Keys <= Next(s, step).rows.Keys
    ensures forall id | id in s.rows && s.rows[id].Published? :: Next(s, step).rows[id].Published?
  {
    if step.Publish? {
      var wk := s.WorkerAt(step.w);
      assert wk.batch[wk.tried] in wk.batch;
    }
  }

  /** A command's event enters as a pending row of its own, and rows enter in no other way. */
  lemma RowsAreAppended(s: System, step: Step, id: string)
    requires Enabled(s, step)
    ensures id in Next(s, step).rows <==> id in s.rows || step == Append(id)
    ensures step == Append(id) ==> Next(s, step) == System(s.rows[id := Pending], s.broker, s.workers)
  {
  }

  lemma {:induction false} RunIsHonest(s: System, steps: seq<Step>)
    requires Honest(s) && Possible(s, steps)
    ensures Honest(Run(s, steps))
    decreases |steps|
  {
    if steps != [] {
      StepIsHonest(s, steps[0]);
      RunIsHonest(Next(s, steps[0]), steps[1..]);
    }
  }

  // ----- the consumers' side

  /** The first delivery of each event: what is left after deduplication by event id. */
  function Deduplicated(log: seq<string>): seq<string> {
    if log == [] then []
    else
      var rest := Deduplicated(log[..|log| - 1]);
      if log[|log| - 1] in rest then rest else rest + [log[|log| - 1]]
  }

  lemma {:induction false} DeduplicatedOnce(log: seq<string>)
    ensures forall i, j | 0 <= i < j < |Deduplicated(log)| :: Deduplicated(log)[i] != Deduplicated(log)[j]
    ensures forall id :: id in Deduplicated(log) <==> id in log
    decreases |log|
  {
    if log != [] {
      DeduplicatedOnce(log[..|log| - 1]);
      assert log == log[..|log| - 1] + [log[|log| - 1]];
    }
  }

  /** In every run, with any number of workers and crashes anywhere: a row marked published reached the
      broker; every row is pending or on the broker; and after deduplication by event id the consumers see
      each event that reached the broker once, every published one among them, and nothing else. */
  lemma PublishedMeansDelivered(steps: seq<Step>)
    requires Possible(START, steps)
    ensures var s := Run(START, steps); var seen := Deduplicated(s.broker);
      && (forall id | id in s.rows :: s.rows[id].Pending? || id in s.broker)
      && (forall id | id in s.rows && s.rows[id].Published? :: id in seen)
      && (forall i, j | 0 <= i < j < |seen| :: seen[i] != seen[j])
      && (forall id | id in seen :: id in s.rows)
  {
    RunIsHonest(START, steps);
    DeduplicatedOnce(Run(START, steps).broker);
  }

  // ----- the code of one poll

  /** The batch's events that reached the broker, and those it reported. */
  function Reached(batch: seq<string>, deliveries: seq<Delivery>): seq<string>
    requires |deliveries| == |batch|
  {
    if batch == [] then []
    else Reached(batch[..|batch| - 1], deliveries[..|batch| - 1])
         + if deliveries[|batch| - 1].Failed? then [] else [batch[|batch| - 1]]
  }

  function Reported(batch: seq<string>, deliveries: seq<Delivery>): seq<string>
    requires |deliveries| == |batch|
  {
    if batch == [] then []
    else Reported(batch[..|batch| - 1], deliveries[..|batch| - 1])
         + if deliveries[|batch| - 1].Accepted? then [batch[|batch| - 1]] else []
  }

  /** On the broker is exactly what was accepted, reported or not; reported is exactly what was accepted and
      known to be. */
  lemma {:induction false} DeliveriesDecide(batch: seq<string>, deliveries: seq<Delivery>, id: string)
    requires |deliveries| == |batch|
    ensures id in Reached(batch, deliveries) <==>
      exists k | 0 <= k < |batch| :: batch[k] == id && (deliveries[k] == Accepted || deliveries[k] == Unreported)
    ensures id in Reported(batch, deliveries) <==>
      exists k | 0 <= k < |batch| :: batch[k] == id && deliveries[k] == Accepted
    ensures |Reported(batch, deliveries)| <= |Reached(batch, deliveries)| <= |batch|
    decreases |batch|
  {
    if batch != [] {
      var n := |batch| - 1;
      DeliveriesDecide(batch[..n], deliveries[..n], id);
      if id in Reached(batch[..n], deliveries[..n]) {
        var k :| 0 <= k < n && batch[..n][k] == id && !deliveries[..n][k].Failed?;
        assert batch[k] == id && deliveries[k] == deliveries[..n][k];
      }
      if id in Reported(batch[..n], deliveries[..n]) {
        var k :| 0 <= k < n && batch[..n][k] == id && deliveries[..n][k] == Accepted;
        assert batch[k] == id && deliveries[k] == deliveries[..n][k];
      }
      if k :| 0 <= k < n && batch[k] == id && !deliveries[k].Failed? {
        assert batch[..n][k] == id && deliveries[..n][k] == deliveries[k];
      }
      if k :| 0 <= k < n && batch[k] == id && deliveries[k] == Accepted {
        assert batch[..n][k] == id && deliveries[..n][k] == deliveries[k];
      }
    }
  }

  /** A whole poll of one worker, as the steps it takes. */
  function Attempts(w: int, deliveries: seq<Delivery>): seq<Step> {
    if deliveries == [] then []
    else Attempts(w, deliveries[..|deliveries| - 1]) + [Publish(w, deliveries[|deliveries| - 1])]
  }

  lemma RunThen(s: System, steps: seq<Step>, last: Step)
    requires Possible(s, steps) && Enabled(Run(s, steps), last)
    ensures Possible(s, steps + [last]) && Run(s, steps + [last]) == Next(Run(s, steps), last)
    decreases |steps|
  {
    if steps == [] {
      assert ([] + [last])[1..] == [];
    } else {
      RunThen(Next(s, steps[0]), steps[1..], last);
      assert (steps + [last])[1..] == steps[1..] + [last];
    }
  }

  /** A worker part of the way through its batch. */
  function Midway(s: System, w: int, batch: seq<string>, k: nat, deliveries: seq<Delivery>): System
    requires k <= |batch| == |deliveries|
  {
    s.(broker := s.broker + Reached(batch[..k], deliveries[..k]))
     .With(w, Publishing(batch, k, Reported(batch[..k], deliveries[..k])))
  }

  lemma OneAttempt(s: System, w: int, batch: seq<string>, k: nat, deliveries: seq<Delivery>)
    requires k < |batch| == |deliveries|
    ensures var mid := Midway(s, w, batch, k, deliveries);
      && Enabled(mid, Publish(w, deliveries[k]))
      && Next(mid, Publish(w, deliveries[k])) == Midway(s, w, batch, k + 1, deliveries)
  {
    var mid, next := Midway(s, w, batch, k, deliveries), Midway(s, w, batch, k + 1, deliveries);
    assert deliveries[..k + 1][..k] == deliveries[..k] && batch[..k + 1][..k] == batch[..k];
    var more := if deliveries[k].Failed? then [] else [batch[k]];
    assert next.broker == mid.broker + more;
    var accepted := Reported(batch[..k], deliveries[..k]);
    assert accepted + [] == accepted && mid.broker + [] == mid.broker;
    assert Tried(mid.WorkerAt(w), deliveries[k]) == next.WorkerAt(w);
    assert mid.workers[w := next.workers[w]] == next.workers;
  }

  lemma {:induction false} AttemptsLead(s: System, w: int, batch: seq<string>, k: nat, deliveries: seq<Delivery>)
    requires Enabled(s, Fetch(w, batch)) && k <= |batch| == |deliveries|
    ensures var steps := [Fetch(w, batch)] + Attempts(w, deliveries[..k]);
      Possible(s, steps) && Run(s, steps) == Midway(s, w, batch, k, deliveries)
  {
    hide Next, Midway;
    var steps := [Fetch(w, batch)] + Attempts(w, deliveries[..k]);
    if k == 0 {
      assert steps[1..] == [];
      Fetched(s, w, batch, deliveries);
    } else {
      AttemptsLead(s, w, batch, k - 1, deliveries);
      OneAttempt(s, w, batch, k - 1, deliveries);
      assert deliveries[..k][..k - 1] == deliveries[..k - 1];
      var before := [Fetch(w, batch)] + Attempts(w, deliveries[..k - 1]);
      RunThen(s, before, Publish(w, deliveries[k - 1]));
      assert steps == before + [Publish(w, deliveries[k - 1])];
    }
  }

  lemma Fetched(s: System, w: int, batch: seq<string>, deliveries: seq<Delivery>)
    requires Enabled(s, Fetch(w, batch)) && |batch| == |deliveries|
    ensures Next(s, Fetch(w, batch)) == Midway(s, w, batch, 0, deliveries)
  {
    assert batch[..0] == [] && deliveries[..0] == [];
    assert s.broker + [] == s.broker;
  }

  /** Where a whole poll leads. */
  lemma {:induction false} PollLeads(s: System, w: int, batch: seq<string>, deliveries: seq<Delivery>, written: bool)
    requires Enabled(s, Fetch(w, batch)) && |deliveries| == |batch|
    ensures var steps := [Fetch(w, batch)] + Attempts(w, deliveries) + [Mark(w, written)];
      && Possible(s, steps)
      && Run(s, steps) == System(if written then MarkAll(s.rows, Reported(batch, deliveries)) else s.rows,
                                 s.broker + Reached(batch, deliveries), s.workers[w := Idle])
  {
    hide Run, Possible, Attempts, MarkAll, Reported, Reached;
    assert batch[..|batch|] == batch && deliveries[..|batch|] == deliveries;
    AttemptsLead(s, w, batch, |batch|, deliveries);
    RunThen(s, [Fetch(w, batch)] + Attempts(w, deliveries), Mark(w, written));
    var all := Midway(s, w, batch, |batch|, deliveries);
    assert all.workers[w := Idle] == s.workers[w := Idle];
  }

  lemma MarkNothing(rows: map<string, Status>)
    ensures MarkAll(rows, []) == rows
  {
  }

  /** Everything is published, and whoever is at work found nothing to do. */
  ghost predicate EmptyHanded(s: System) {
    && (forall id | id in s.rows :: s.rows[id].Published?)
    && (forall w | w in s.workers && s.workers[w].Publishing? :: s.workers[w].batch == [])
  }

  lemma NoWorkFound(s: System, step: Step)
    requires EmptyHanded(s) && Enabled(s, step) && !step.Append?
    ensures EmptyHanded(Next(s, step)) && Next(s, step).broker == s.broker
  {
    match step
    case Fetch(_, batch) => NoPendingBatch(s, batch);
    case _ =>
  }

  lemma NoPendingBatch(s: System, batch: seq<string>)
    requires EmptyHanded(s) && forall id | id in batch :: id in s.rows && s.rows[id].Pending?
    ensures batch == []
  {
    FirstIsInside(batch);
  }

  lemma FirstIsInside(batch: seq<string>)
    ensures batch != [] ==> batch[0] in batch
  {
  }

  /** Then the broker gets nothing more until a row is appended: published rows are not fetched again. */
  lemma {:induction false} NothingIsPublishedAnew(s: System, steps: seq<Step>)
    requires EmptyHanded(s) && Possible(s, steps) && forall i | 0 <= i < |steps| :: !steps[i].Append?
    ensures Run(s, steps).broker == s.broker
    decreases |steps|
  {
    if steps != [] {
      NoWorkFound(s, steps[0]);
      NothingIsPublishedAnew(Next(s, steps[0]), steps[1..]);
    }
  }

  /** Nothing stays behind: from any state a pending row can still be fetched by an idle worker, reach the
      broker and be marked. */
  lemma PendingCanFinish(s: System, id: string, w: int)
    requires id in s.rows && s.rows[id].Pending? && s.WorkerAt(w).Idle?
    ensures var steps := [Fetch(w, [id])] + Attempts(w, [Accepted]) + [Mark(w, true)];
      && Possible(s, steps)
      && var after := Run(s, steps);
         id in after.rows && after.rows[id].Published? && id in after.broker && after.WorkerAt(w).Idle?
  {
    PollLeads(s, w, [id], [Accepted], true);
    assert Reported([id], [Accepted]) == [id] && Reached([id], [Accepted]) == [id];
    var after := Run(s, [Fetch(w, [id])] + Attempts(w, [Accepted]) + [Mark(w, true)]);
    assert after.broker == s.broker + [id];
  }

  class Publisher {
    var rows: map<string, Status>
    var broker: seq<string>
    ghost var workers: map<int, Worker>

    ghost function Current(): System
      reads this
    {
      System(rows, broker, workers)
    }

    /** Publishes one claimed batch and marks what the broker acknowledged; the count is of the events it
        acknowledged, and any failure is reported after the whole batch was tried. */
    method PublishBatch(w: int, pending: seq<string>, deliveries: seq<Delivery>, written: bool) returns (count: nat,
        failed: bool)
      requires Enabled(Current(), Fetch(w, pending)) && |deliveries| == |pending|
      modifies this
      ensures var steps := [Fetch(w, pending)] + Attempts(w, deliveries) + [Mark(w, written)];
        Possible(old(Current()), steps) && Current() == Run(old(Current()), steps)
      ensures broker == old(broker) + Reached(pending, deliveries)
      ensures rows == if written then MarkAll(old(rows), Reported(pending, deliveries)) else old(rows)
      ensures count == |Reported(pending, deliveries)|
      ensures failed <==> (exists i | 0 <= i < |deliveries| :: !deliveries[i].Accepted?) || (!written && count > 0)
    {
      hide Next, Run, Possible, Attempts, Enabled, MarkAll;
      PollLeads(Current(), w, pending, deliveries, written);
      var published: seq<string> := [];
      failed := false;
      for k := 0 to |pending|
        invariant rows == old(rows) && workers == old(workers)
        invariant broker == old(broker) + Reached(pending[..k], deliveries[..k])
        invariant published == Reported(pending[..k], deliveries[..k])
        invariant failed <==> exists i | 0 <= i < k :: !deliveries[i].Accepted?
      {
        assert pending[..k + 1][..k] == pending[..k] && deliveries[..k + 1][..k] == deliveries[..k];
        if !deliveries[k].Failed? {
          broker := broker + [pending[k]];
        }
        if deliveries[k].Accepted? {
          published := published + [pending[k]];
        } else {
          failed := true;
        }
      }
      assert pending[..|pending|] == pending && deliveries[..|deliveries|] == deliveries;
      if published != [] {
        if written {
          rows := MarkAll(rows, published);
        } else {
          failed := true;
        }
      }
      MarkNothing(rows);
      workers := workers[w := Idle];
      return |published|, failed;
    }
  }
}
