/** The in-flight job table: one lock, one FIFO thread, and snapshots that arrive in any order. */
module Inflight {
  import opened Text

  /** The table by value: dedupe key to job kind, and a counter of its changes. */
  datatype Table = Table(jobs: map<string, string>, generation: nat)

  /** `BusySnapshot`, with its sorted lists as sets. */
  datatype Snapshot = Snapshot(generation: nat, kinds: set<string>, keys: set<string>)

  function SnapshotOf(t: Table): Snapshot {
    Snapshot(t.generation, t.jobs.Values, t.jobs.Keys)
  }

  function Inserted(t: Table, key: string, kind: string): Table {
    Table(t.jobs[key := kind], t.generation + 1)
  }

  function Removed(t: Table, key: string): Table {
    if key in t.jobs then Table(t.jobs - {key}, t.generation + 1) else t
  }

  /** The table behind the mutex; each method is one critical section. */
  class SharedTable {
    var jobs: map<string, string>
    var generation: nat

    constructor ()
      ensures Value() == Table(map[], 0)
    {
      jobs := map[];
      generation := 0;
    }

    function Value(): Table
      reads this
    {
      Table(jobs, generation)
    }

    /** The locked part of `spawn`: a key in flight is refused, a new one is entered and snapshotted. */
    method TryInsert(key: string, kind: string) returns (queued: Option<Snapshot>)
      modifies this
      ensures old(key in jobs) ==> queued == None && Value() == old(Value())
      ensures old(key !in jobs) ==>
                && Value() == Inserted(old(Value()), key, kind)
                && queued == Some(SnapshotOf(Value()))
    {
      if key in jobs {
        return None;
      }
      jobs := jobs[key := kind];
      generation := generation + 1;
      queued := Some(Snapshot(generation, jobs.Values, jobs.Keys));
    }

    /** `remove_inflight` */
    method Remove(key: string)
      modifies this
      ensures Value() == Removed(old(Value()), key)
    {
      if key in jobs {
        jobs := jobs - {key};
        generation := generation + 1;
      }
    }
  }

  // ---- The protocol as steps -------------------------------------------------------------------------------

  /** Entered: in the table, not yet sent. Cleared: out of the table, its finish not yet reported. Lost: dropped by a
      dead thread. */
  datatype Phase = Entered | Queued | Running | Cleared | Gone | Lost

  /** `queued` is the snapshot taken at the insert; `reported` once it was forwarded, or never will be. */
  datatype Job = Job(key: string, kind: string, phase: Phase, queued: Snapshot, reported: bool)

  /** What the frontend last applied. */
  datatype Applied = Applied(generation: int, kinds: set<string>)

  datatype State = State(
    table: Table,
    history: seq<map<string, string>>,  // the table at each generation
    jobs: seq<Job>,
    queue: seq<nat>,                     // the channel, oldest first
    running: Option<nat>,
    alive: bool,
    transit: set<Snapshot>,              // sent to the frontend, in no order
    applied: Applied,
    lossless: bool)                      // no report was lost so far

  datatype Step =
    | Spawn(key: string, kind: string)
    | Send(job: nat)
    | Forward(job: nat)
    | Receive
    | Progress
    | Finish
    | Report
    | ReportLost
    | Poll
    | Deliver(snapshot: Snapshot)
    | Lose(snapshot: Snapshot)
    | Die

  const START := State(Table(map[], 0), [map[]], [], [], None, true, {}, Applied(-1, {}), true)

  predicate Enabled(s: State, step: Step) {
    match step
    case Spawn(_, _) => true
    case Send(i) => i < |s.jobs| && s.jobs[i].phase == Entered
    case Forward(i) => i < |s.jobs| && s.jobs[i].phase != Entered && !s.jobs[i].reported
    case Receive => s.alive && s.running.None? && s.queue != []
    case Progress => IsRunning(s, Running)
    case Finish => IsRunning(s, Running)
    case Report => IsRunning(s, Cleared)
    case ReportLost => IsRunning(s, Cleared)
    case Poll => true
    case Deliver(x) => x in s.transit
    case Lose(x) => x in s.transit
    case Die => s.alive
  }

  predicate IsRunning(s: State, phase: Phase) {
    s.running.Some? && s.running.value < |s.jobs| && s.jobs[s.running.value].phase == phase
  }

  function SetPhase(jobs: seq<Job>, i: nat, phase: Phase): seq<Job>
    requires i < |jobs|
  {
    jobs[i := jobs[i].(phase := phase)]
  }

  /** The table after a change, with its history. */
  function Changed(s: State, t: Table): State {
    if t == s.table then s else s.(table := t, history := s.history + [t.jobs])
  }

  /** A dying thread drops the job it runs and every queued one; their entries stay. */
  function Dropped(jobs: seq<Job>): (r: seq<Job>)
    ensures |r| == |jobs|
    ensures forall i :: 0 <= i < |jobs| ==>
              r[i] == if jobs[i].phase == Queued || jobs[i].phase == Running then jobs[i].(phase := Lost)
                      else if jobs[i].phase == Cleared then jobs[i].(phase := Gone) else jobs[i]
  {
    seq(|jobs|, i requires 0 <= i < |jobs| =>
      if jobs[i].phase == Queued || jobs[i].phase == Running then jobs[i].(phase := Lost)
      else if jobs[i].phase == Cleared then jobs[i].(phase := Gone) else jobs[i])
  }

  /** `applyBusy`: a snapshot older than the applied one is dropped. */
  function Apply(a: Applied, x: Snapshot): Applied {
    if x.generation < a.generation then a else Applied(x.generation, x.kinds)
  }

  function After(s: State, step: Step): State
    requires Enabled(s, step)
  {
    match step
    case Spawn(key, kind) =>
      if key in s.table.jobs then s
      else
        var t := Inserted(s.table, key, kind);
        Changed(s, t).(jobs := s.jobs + [Job(key, kind, Entered, SnapshotOf(t), false)])
    case Send(i) =>
      if s.alive then s.(jobs := SetPhase(s.jobs, i, Queued), queue := s.queue + [i])
      else
        var t := Changed(s, Removed(s.table, s.jobs[i].key));
        t.(jobs := s.jobs[i := s.jobs[i].(phase := Gone, reported := true)])
    case Forward(i) => s.(jobs := s.jobs[i := s.jobs[i].(reported := true)], transit := s.transit + {s.jobs[i].queued})
    case Receive =>
      if s.queue[0] < |s.jobs|
      then s.(jobs := SetPhase(s.jobs, s.queue[0], Running), running := Some(s.queue[0]), queue := s.queue[1..])
      else s
    case Progress => s.(transit := s.transit + {SnapshotOf(s.table)})
    case Finish =>
      var i := s.running.value;
      Changed(s, Removed(s.table, s.jobs[i].key)).(jobs := SetPhase(s.jobs, i, Cleared))
    case Report =>
      s.(jobs := SetPhase(s.jobs, s.running.value, Gone), running := None, transit := s.transit + {SnapshotOf(s.table)})
    case ReportLost => s.(jobs := SetPhase(s.jobs, s.running.value, Gone), running := None, lossless := false)
    case Poll => s.(transit := s.transit + {SnapshotOf(s.table)})
    case Deliver(x) => s.(transit := s.transit - {x}, applied := Apply(s.applied, x))
    case Lose(x) => s.(transit := s.transit - {x}, lossless := false)
    case Die => s.(alive := false, jobs := Dropped(s.jobs), queue := [], running := None)
  }

  // ---- The invariant ---------------------------------------------------------------------------------------

  /** Inserted and not yet removed. */
  predicate InFlight(j: Job) {
    j.phase == Entered || j.phase == Queued || j.phase == Running || j.phase == Lost
  }

  /** The keys are exactly those of the jobs in flight, at most one a key, under their kinds. */
  ghost predicate TableOfJobs(t: Table, jobs: seq<Job>) {
    && (forall i :: 0 <= i < |jobs| && InFlight(jobs[i]) ==>
          jobs[i].key in t.jobs && t.jobs[jobs[i].key] == jobs[i].kind)
    && (forall i, j :: 0 <= i < j < |jobs| && InFlight(jobs[i]) && InFlight(jobs[j]) ==> jobs[i].key != jobs[j].key)
    && (forall k :: k in t.jobs ==> exists i :: 0 <= i < |jobs| && InFlight(jobs[i]) && jobs[i].key == k)
  }

  /** The channel holds exactly the queued jobs, once each, and the thread the running one. */
  ghost predicate QueueOfJobs(s: State) {
    && ChannelOfJobs(s.queue, s.jobs)
    && (s.running.Some? ==> IsRunning(s, Running) || IsRunning(s, Cleared))
    && (forall i :: 0 <= i < |s.jobs| && (s.jobs[i].phase == Running || s.jobs[i].phase == Cleared) ==>
          s.running == Some(i))
  }

  ghost predicate ChannelOfJobs(queue: seq<nat>, jobs: seq<Job>) {
    && (forall a :: 0 <= a < |queue| ==> queue[a] < |jobs| && jobs[queue[a]].phase == Queued)
    && (forall a, b :: 0 <= a < b < |queue| ==> queue[a] != queue[b])
    && (forall i :: 0 <= i < |jobs| && jobs[i].phase == Queued ==> i in queue)
  }

  function RemovedCount(jobs: seq<Job>): nat {
    if jobs == [] then 0
    else RemovedCount(jobs[..|jobs| - 1]) + if InFlight(jobs[|jobs| - 1]) then 0 else 1
  }

  /** One generation a change: every job was inserted once, and each that left the table was removed once. */
  ghost predicate Counted(s: State) {
    && s.table.generation == |s.jobs| + RemovedCount(s.jobs)
    && |s.history| == s.table.generation + 1
    && s.history[s.table.generation] == s.table.jobs
  }

  /** A snapshot is the table as it stood at its generation. */
  ghost predicate Truthful(history: seq<map<string, string>>, x: Snapshot) {
    x.generation < |history| && x == SnapshotOf(Table(history[x.generation], x.generation))
  }

  ghost predicate AllTruthful(s: State) {
    && (forall x :: x in s.transit ==> Truthful(s.history, x))
    && (forall i :: 0 <= i < |s.jobs| ==> Truthful(s.history, s.jobs[i].queued))
    && s.applied.generation < |s.history|
    && (s.applied.generation >= 0 ==> s.applied.kinds == s.history[s.applied.generation].Values)
    && (s.applied.generation < 0 ==> s.applied.kinds == {})
    && |s.history| > 0 && s.history[0] == map[]
  }

  ghost predicate Reports(s: State, g: int) {
    || s.applied.generation == g
    || (exists x :: x in s.transit && x.generation == g)
    || (exists i :: 0 <= i < |s.jobs| && !s.jobs[i].reported && s.jobs[i].queued.generation == g)
    || IsRunning(s, Cleared)
  }

  /** Unless a report was lost, the newest generation is applied, on its way, or about to be sent. */
  ghost predicate NewestOnItsWay(s: State) {
    s.lossless && s.alive && s.table.generation > 0 ==> Reports(s, s.table.generation)
  }

  ghost predicate Inv(s: State) {
    && Counted(s)
    && TableOfJobs(s.table, s.jobs)
    && QueueOfJobs(s)
    && AllTruthful(s)
    && NewestOnItsWay(s)
  }

  // ---- It holds in every interleaving ----------------------------------------------------------------------

  lemma StartHolds()
    ensures Inv(START)
  {
  }

  lemma {:induction false} RemovedCountUpdate(jobs: seq<Job>, i: nat, j: Job)
    requires i < |jobs|
    ensures RemovedCount(jobs[i := j])
            == RemovedCount(jobs) - (if InFlight(jobs[i]) then 0 else 1) + (if InFlight(j) then 0 else 1)
    decreases |jobs|
  {
    var n := |jobs| - 1;
    if i == n {
      assert jobs[i := j][..n] == jobs[..n];
    } else {
      assert jobs[i := j][..n] == jobs[..n][i := j];
      RemovedCountUpdate(jobs[..n], i, j);
    }
  }

  lemma {:induction false} RemovedCountDropped(jobs: seq<Job>)
    ensures RemovedCount(Dropped(jobs)) == RemovedCount(jobs)
    decreases |jobs|
  {
    if jobs != [] {
      var n := |jobs| - 1;
      assert Dropped(jobs)[..n] == Dropped(jobs[..n]);
      RemovedCountDropped(jobs[..n]);
    }
  }

  /** Whenever an entry is removed it is there: no removal misses. */
  lemma RemovalFinds(s: State, i: nat)
    requires Inv(s) && i < |s.jobs| && InFlight(s.jobs[i])
    ensures Removed(s.table, s.jobs[i].key) == Table(s.table.jobs - {s.jobs[i].key}, s.table.generation + 1)
  {
  }

  lemma CountedStep(s: State, step: Step)
    requires Inv(s) && Enabled(s, step)
    ensures Counted(After(s, step))
  {
    hide TableOfJobs, AllTruthful, NewestOnItsWay, RemovedCount;
    var t := After(s, step);
    match step
    case Spawn(key, kind) =>
      if key !in s.table.jobs {
        AddedCount(s.jobs, t.jobs[|s.jobs|]);
      }
    case Send(i) =>
      if !s.alive { RemovalFinds(s, i); }
      RemovedCountUpdate(s.jobs, i, t.jobs[i]);
    case Forward(i) => RemovedCountUpdate(s.jobs, i, t.jobs[i]);
    case Receive => RemovedCountUpdate(s.jobs, s.queue[0], t.jobs[s.queue[0]]);
    case Finish =>
      RemovalFinds(s, s.running.value);
      RemovedCountUpdate(s.jobs, s.running.value, t.jobs[s.running.value]);
    case Report => RemovedCountUpdate(s.jobs, s.running.value, t.jobs[s.running.value]);
    case ReportLost => RemovedCountUpdate(s.jobs, s.running.value, t.jobs[s.running.value]);
    case Die => RemovedCountDropped(s.jobs);
    case _ =>
  }

  lemma AddedCount(jobs: seq<Job>, j: Job)
    ensures RemovedCount(jobs + [j]) == RemovedCount(jobs) + if InFlight(j) then 0 else 1
  {
    assert (jobs + [j])[..|jobs|] == jobs;
  }

  /** Removing one job's key leaves the other jobs' entries. */
  lemma TableWithout(t: Table, jobs: seq<Job>, i: nat, j: Job)
    requires TableOfJobs(t, jobs) && i < |jobs| && InFlight(jobs[i]) && !InFlight(j) && j.key == jobs[i].key
    ensures TableOfJobs(Removed(t, jobs[i].key), jobs[i := j])
  {
    var r := Removed(t, jobs[i].key);
    var next := jobs[i := j];
    forall k | k in r.jobs ensures exists a :: 0 <= a < |next| && InFlight(next[a]) && next[a].key == k {
      var a :| 0 <= a < |jobs| && InFlight(jobs[a]) && jobs[a].key == k;
      assert next[a] == jobs[a];
    }
  }

  lemma TableSame(t: Table, jobs: seq<Job>, i: nat, j: Job)
    requires TableOfJobs(t, jobs) && i < |jobs| && InFlight(jobs[i]) == InFlight(j)
    requires j.key == jobs[i].key && j.kind == jobs[i].kind
    ensures TableOfJobs(t, jobs[i := j])
  {
    var next := jobs[i := j];
    forall k | k in t.jobs ensures exists a :: 0 <= a < |next| && InFlight(next[a]) && next[a].key == k {
      var a :| 0 <= a < |jobs| && InFlight(jobs[a]) && jobs[a].key == k;
      assert InFlight(next[a]) && next[a].key == k;
    }
  }

  lemma TableWith(t: Table, jobs: seq<Job>, j: Job)
    requires TableOfJobs(t, jobs) && j.key !in t.jobs && InFlight(j)
    ensures TableOfJobs(Inserted(t, j.key, j.kind), jobs + [j])
  {
    var r, more := Inserted(t, j.key, j.kind), jobs + [j];
    forall k | k in r.jobs ensures exists a :: 0 <= a < |more| && InFlight(more[a]) && more[a].key == k {
      if k == j.key {
        assert more[|jobs|] == j;
      } else {
        var a :| 0 <= a < |jobs| && InFlight(jobs[a]) && jobs[a].key == k;
        assert more[a] == jobs[a];
      }
    }
  }

  lemma TableDropped(t: Table, jobs: seq<Job>)
    requires TableOfJobs(t, jobs)
    ensures TableOfJobs(t, Dropped(jobs))
  {
    var d := Dropped(jobs);
    assert forall i :: 0 <= i < |jobs| ==>
             InFlight(d[i]) == InFlight(jobs[i]) && d[i].key == jobs[i].key && d[i].kind == jobs[i].kind;
    forall k | k in t.jobs ensures exists a :: 0 <= a < |d| && InFlight(d[a]) && d[a].key == k {
      var a :| 0 <= a < |jobs| && InFlight(jobs[a]) && jobs[a].key == k;
      assert InFlight(d[a]) && d[a].key == k;
    }
  }

  lemma TableSend(s: State, i: nat)
    requires TableOfJobs(s.table, s.jobs) && Enabled(s, Send(i))
    ensures TableOfJobs(After(s, Send(i)).table, After(s, Send(i)).jobs)
  {
    hide TableOfJobs;
    var t := After(s, Send(i));
    if s.alive { TableSame(s.table, s.jobs, i, t.jobs[i]); } else { TableWithout(s.table, s.jobs, i, t.jobs[i]); }
  }

  lemma TableFinish(s: State)
    requires TableOfJobs(s.table, s.jobs) && Enabled(s, Finish)
    ensures TableOfJobs(After(s, Finish).table, After(s, Finish).jobs)
  {
    hide TableOfJobs;
    var t := After(s, Finish);
    TableWithout(s.table, s.jobs, s.running.value, t.jobs[s.running.value]);
  }

  lemma TableReported(s: State, step: Step)
    requires TableOfJobs(s.table, s.jobs) && Enabled(s, step) && (step == Report || step == ReportLost)
    ensures TableOfJobs(After(s, step).table, After(s, step).jobs)
  {
    hide TableOfJobs;
    var t := After(s, step);
    TableSame(s.table, s.jobs, s.running.value, t.jobs[s.running.value]);
  }

  lemma TableReceive(s: State)
    requires TableOfJobs(s.table, s.jobs) && Enabled(s, Receive) && QueueOfJobs(s)
    ensures TableOfJobs(After(s, Receive).table, After(s, Receive).jobs)
  {
    hide TableOfJobs;
    var t := After(s, Receive);
    TableSame(s.table, s.jobs, s.queue[0], t.jobs[s.queue[0]]);
  }

  lemma TableForward(s: State, i: nat)
    requires TableOfJobs(s.table, s.jobs) && Enabled(s, Forward(i))
    ensures TableOfJobs(After(s, Forward(i)).table, After(s, Forward(i)).jobs)
  {
    hide TableOfJobs;
    TableSame(s.table, s.jobs, i, After(s, Forward(i)).jobs[i]);
  }

  lemma TableSpawn(s: State, key: string, kind: string)
    requires TableOfJobs(s.table, s.jobs)
    ensures TableOfJobs(After(s, Spawn(key, kind)).table, After(s, Spawn(key, kind)).jobs)
  {
    hide TableOfJobs;
    var t := After(s, Spawn(key, kind));
    if key !in s.table.jobs { TableWith(s.table, s.jobs, t.jobs[|s.jobs|]); }
  }

  lemma TableStep(s: State, step: Step)
    requires Inv(s) && Enabled(s, step)
    ensures TableOfJobs(After(s, step).table, After(s, step).jobs)
  {
    match step
    case Spawn(key, kind) => TableSpawn(s, key, kind);
    case Send(i) => TableSend(s, i);
    case Forward(i) => TableForward(s, i);
    case Receive => TableReceive(s);
    case Finish => TableFinish(s);
    case Report => TableReported(s, step);
    case ReportLost => TableReported(s, step);
    case Die => TableDropped(s.table, s.jobs);
    case Progress => assert After(s, step).jobs == s.jobs && After(s, step).table == s.table;
    case Poll => assert After(s, step).jobs == s.jobs && After(s, step).table == s.table;
    case Deliver(x) => assert After(s, step).jobs == s.jobs && After(s, step).table == s.table;
    case Lose(x) => assert After(s, step).jobs == s.jobs && After(s, step).table == s.table;
  }

  lemma ChannelAppend(queue: seq<nat>, jobs: seq<Job>, i: nat)
    requires ChannelOfJobs(queue, jobs) && i < |jobs| && jobs[i].phase != Queued
    ensures ChannelOfJobs(queue + [i], SetPhase(jobs, i, Queued))
  {
    var q, next := queue + [i], SetPhase(jobs, i, Queued);
    forall j | 0 <= j < |next| && next[j].phase == Queued ensures j in q {
      if j != i {
        assert j in queue;
      }
    }
  }

  lemma ChannelSame(queue: seq<nat>, jobs: seq<Job>, i: nat, j: Job)
    requires ChannelOfJobs(queue, jobs) && i < |jobs| && jobs[i].phase != Queued && j.phase != Queued
    ensures ChannelOfJobs(queue, jobs[i := j])
  {
  }

  lemma QueueSend(s: State, i: nat)
    requires QueueOfJobs(s) && Enabled(s, Send(i))
    ensures QueueOfJobs(After(s, Send(i)))
  {
    hide ChannelOfJobs;
    if s.alive {
      ChannelAppend(s.queue, s.jobs, i);
    } else {
      ChannelSame(s.queue, s.jobs, i, After(s, Send(i)).jobs[i]);
    }
  }

  lemma ChannelReceive(queue: seq<nat>, jobs: seq<Job>)
    requires ChannelOfJobs(queue, jobs) && queue != []
    ensures ChannelOfJobs(queue[1..], SetPhase(jobs, queue[0], Running))
    ensures queue[0] < |jobs| && jobs[queue[0]].phase == Queued
  {
    var rest, next := queue[1..], SetPhase(jobs, queue[0], Running);
    assert forall a :: 0 <= a < |rest| ==> rest[a] == queue[a + 1] && rest[a] != queue[0];
    forall j | 0 <= j < |next| && next[j].phase == Queued ensures j in rest {
      assert j in queue;
      var a :| 0 <= a < |queue| && queue[a] == j;
      assert rest[a - 1] == j;
    }
  }

  lemma QueueReceive(s: State)
    requires QueueOfJobs(s) && Enabled(s, Receive)
    ensures QueueOfJobs(After(s, Receive))
  {
    ChannelReceive(s.queue, s.jobs);
    hide ChannelOfJobs;
  }

  lemma QueueSpawn(s: State, key: string, kind: string)
    requires QueueOfJobs(s)
    ensures QueueOfJobs(After(s, Spawn(key, kind)))
  {
  }

  lemma QueueForward(s: State, i: nat)
    requires QueueOfJobs(s) && Enabled(s, Forward(i))
    ensures QueueOfJobs(After(s, Forward(i)))
  {
  }

  lemma QueueFinish(s: State, step: Step)
    requires QueueOfJobs(s) && Enabled(s, step) && (step == Finish || step == Report || step == ReportLost)
    ensures QueueOfJobs(After(s, step))
  {
    hide ChannelOfJobs;
    ChannelSame(s.queue, s.jobs, s.running.value, After(s, step).jobs[s.running.value]);
  }

  lemma QueueStep(s: State, step: Step)
    requires Inv(s) && Enabled(s, step)
    ensures QueueOfJobs(After(s, step))
  {
    hide QueueOfJobs;
    match step
    case Spawn(key, kind) => QueueSpawn(s, key, kind);
    case Send(i) => QueueSend(s, i);
    case Forward(i) => QueueForward(s, i);
    case Receive => QueueReceive(s);
    case Finish => QueueFinish(s, step);
    case Report => QueueFinish(s, step);
    case ReportLost => QueueFinish(s, step);
    case Die => QueueDie(s);
    case Progress => QueueSame(s, After(s, step));
    case Poll => QueueSame(s, After(s, step));
    case Deliver(x) => QueueSame(s, After(s, step));
    case Lose(x) => QueueSame(s, After(s, step));
  }

  lemma QueueSame(s: State, t: State)
    requires QueueOfJobs(s) && t.queue == s.queue && t.jobs == s.jobs && t.running == s.running
    ensures QueueOfJobs(t)
  {
  }

  lemma QueueDie(s: State)
    requires QueueOfJobs(s) && Enabled(s, Die)
    ensures QueueOfJobs(After(s, Die))
  {
  }

  lemma TruthKept(s: State, history: seq<map<string, string>>, x: Snapshot)
    requires Truthful(s.history, x) && (history == s.history || exists m :: history == s.history + [m])
    ensures Truthful(history, x)
  {
  }

  lemma TruthfulStep(s: State, step: Step)
    requires Inv(s) && Enabled(s, step)
    ensures AllTruthful(After(s, step))
  {
    hide TableOfJobs, QueueOfJobs, NewestOnItsWay, RemovedCount;
    CountedStep(s, step);
    HistoryStep(s, step);
    var t := After(s, step);
    hide After, Enabled;
    assert Truthful(t.history, SnapshotOf(t.table)) && Truthful(s.history, SnapshotOf(s.table));
    forall x | x in t.transit ensures Truthful(t.history, x) {
      TruthOfTransit(s, step, x);
      TruthKept(s, t.history, x);
    }
    forall i | 0 <= i < |t.jobs| ensures Truthful(t.history, t.jobs[i].queued) {
      if i < |s.jobs| { TruthKept(s, t.history, s.jobs[i].queued); }
    }
    assert forall g :: 0 <= g < |s.history| ==> t.history[g] == s.history[g];
  }

  lemma TruthOfTransit(s: State, step: Step, x: Snapshot)
    requires Inv(s) && Enabled(s, step) && x in After(s, step).transit
    ensures Truthful(s.history, x)
  {
    hide TableOfJobs, QueueOfJobs, NewestOnItsWay;
    assert Truthful(s.history, SnapshotOf(s.table));
  }

  lemma NewestStep(s: State, step: Step)
    requires Inv(s) && Enabled(s, step)
    ensures NewestOnItsWay(After(s, step))
  {
    hide TableOfJobs, RemovedCount;
    var t := After(s, step);
    var g := t.table.generation;
    if t.lossless && t.alive && g > 0 {
      match step
      case Spawn(key, kind) =>
        if key !in s.table.jobs {
          assert t.jobs[|s.jobs|].queued.generation == g;
        } else {
          assert t == s;
        }
      case Finish => assert IsRunning(t, Cleared);
      case Report => assert SnapshotOf(t.table) in t.transit;
      case Deliver(x) => KeptByDelivery(s, x);
      case Forward(i) => KeptByForward(s, i);
      case Send(i) => KeptByPhase(s, t);
      case Receive => KeptByPhase(s, t);
      case Progress => KeptByPhase(s, t);
      case Poll => KeptByPhase(s, t);
      case _ =>
    }
  }

  lemma KeptByPhase(s: State, t: State)
    requires Reports(s, s.table.generation) && t.table == s.table && t.applied == s.applied && s.transit <= t.transit
    requires |t.jobs| == |s.jobs|
    requires forall i :: 0 <= i < |s.jobs| ==>
               t.jobs[i].reported == s.jobs[i].reported && t.jobs[i].queued == s.jobs[i].queued
    requires IsRunning(s, Cleared) ==> IsRunning(t, Cleared)
    ensures Reports(t, t.table.generation)
  {
    var g := s.table.generation;
    if i :| 0 <= i < |s.jobs| && !s.jobs[i].reported && s.jobs[i].queued.generation == g {
      assert !t.jobs[i].reported && t.jobs[i].queued.generation == g;
    }
  }

  lemma KeptByForward(s: State, i: nat)
    requires Enabled(s, Forward(i)) && Reports(s, s.table.generation)
    ensures Reports(After(s, Forward(i)), s.table.generation)
  {
    var g := s.table.generation;
    var t := After(s, Forward(i));
    assert s.jobs[i].queued in t.transit;
    if j :| 0 <= j < |s.jobs| && !s.jobs[j].reported && s.jobs[j].queued.generation == g {
      if j != i { assert t.jobs[j] == s.jobs[j]; }
    }
  }

  lemma KeptByDelivery(s: State, x: Snapshot)
    requires Inv(s) && x in s.transit && Reports(s, s.table.generation)
    ensures Reports(After(s, Deliver(x)), s.table.generation)
  {
    hide TableOfJobs, QueueOfJobs, RemovedCount;
    var g := s.table.generation;
    var t := After(s, Deliver(x));
    assert x.generation <= g && s.applied.generation <= g by { assert Truthful(s.history, x); }
    if x.generation == g {
      assert t.applied.generation == g;
    } else if y :| y in s.transit && y.generation == g {
      assert y in t.transit;
    }
  }

  /** Every step keeps the invariant. */
  lemma InvStep(s: State, step: Step)
    requires Inv(s) && Enabled(s, step)
    ensures Inv(After(s, step))
  {
    CountedStep(s, step);
    TableStep(s, step);
    QueueStep(s, step);
    TruthfulStep(s, step);
    NewestStep(s, step);
    hide *;
  }

  // ---- Whole runs ------------------------------------------------------------------------------------------

  /** `run` starts empty and takes `steps`, any enabled steps in any order. */
  ghost predicate Run(run: seq<State>, steps: seq<Step>) {
    && |run| == |steps| + 1
    && run[0] == START
    && forall n :: 0 <= n < |steps| ==> Enabled(run[n], steps[n]) && run[n + 1] == After(run[n], steps[n])
  }

  lemma {:induction false} RunHolds(run: seq<State>, steps: seq<Step>, n: nat)
    requires Run(run, steps) && n < |run|
    ensures Inv(run[n])
    decreases n
  {
    if n == 0 {
      StartHolds();
    } else {
      RunHolds(run, steps, n - 1);
      InvStep(run[n - 1], steps[n - 1]);
    }
  }

  /** At every point of every run: the table holds exactly the jobs in flight, each entered and removed once. */
  lemma TableIsExact(run: seq<State>, steps: seq<Step>, n: nat)
    requires Run(run, steps) && n < |run|
    ensures TableOfJobs(run[n].table, run[n].jobs)
    ensures run[n].table.generation == |run[n].jobs| + RemovedCount(run[n].jobs)
  {
    RunHolds(run, steps, n);
  }

  lemma HistoryStep(s: State, step: Step)
    requires Enabled(s, step)
    ensures var t := After(s, step); t.history == s.history || t.history == s.history + [t.table.jobs]
    ensures s.history <= After(s, step).history
  {
  }

  lemma {:induction false} HistoryGrows(run: seq<State>, steps: seq<Step>, m: nat, n: nat)
    requires Run(run, steps) && m <= n < |run|
    ensures run[m].history <= run[n].history
    decreases n
  {
    hide After, Enabled;
    if m < n {
      HistoryGrows(run, steps, m, n - 1);
      HistoryStep(run[n - 1], steps[n - 1]);
    }
  }

  /** A generation names one table: equal generations, seen at any two times, mean equal contents. */
  lemma GenerationDetermines(run: seq<State>, steps: seq<Step>, m: nat, n: nat, x: Snapshot, y: Snapshot)
    requires Run(run, steps) && m <= n < |run|
    requires x in run[m].transit && y in run[n].transit && x.generation == y.generation
    ensures x == y
  {
    RunHolds(run, steps, m);
    RunHolds(run, steps, n);
    HistoryGrows(run, steps, m, n);
    assert Truthful(run[m].history, x) && Truthful(run[n].history, y);
  }

  /** The frontend never goes back to an older table. */
  lemma {:induction false} NeverBackwards(run: seq<State>, steps: seq<Step>, m: nat, n: nat)
    requires Run(run, steps) && m <= n < |run|
    ensures run[m].applied.generation <= run[n].applied.generation
    decreases n
  {
    if m < n {
      NeverBackwards(run, steps, m, n - 1);
    }
  }

  /** Applying the newest snapshot, whenever it arrives, shows what is in flight. */
  lemma NewestShowsTable(run: seq<State>, steps: seq<Step>, n: nat)
    requires Run(run, steps) && n < |run|
    requires run[n].applied.generation == run[n].table.generation
    ensures run[n].applied.kinds == run[n].table.jobs.Values
  {
    RunHolds(run, steps, n);
  }

  /** Once nothing is on its way any more and no report was lost, the frontend shows exactly the kinds in flight. */
  lemma SettledShowsTable(run: seq<State>, steps: seq<Step>, n: nat)
    requires Run(run, steps) && n < |run|
    requires run[n].lossless && run[n].alive && run[n].transit == {} && !IsRunning(run[n], Cleared)
    requires forall i :: 0 <= i < |run[n].jobs| ==> run[n].jobs[i].reported
    ensures run[n].applied.kinds == run[n].table.jobs.Values
  {
    RunHolds(run, steps, n);
  }
}
