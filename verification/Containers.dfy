/**
 Container records under the CRI calls that change them, the background supervisors and
 daemon restarts (crates/cri/src/server.rs:1557-1788, 2123-2156 and 2982-3030), with the
 state machine of crates/metadata/src/records.rs:29-41.
 */
module Containers {
  import opened Bytes

  type Id = nat
  type Time = nat

  datatype State = Created | Running | Exited | Unknown

  predicate CanTransitionTo(from: State, next: State) {
    match (from, next)
    case (Created, Running) => true
    case (Created, Exited) => true
    case (Running, Exited) => true
    case (_, Unknown) => true
    case (Unknown, Running) => true
    case (Unknown, Exited) => true
    case (a, b) => a == b
  }

  /** The fields of `ContainerRecord` that the calls below read or write. */
  datatype Record = Record(
    state: State,
    startedAt: Option<Time>,
    finishedAt: Option<Time>,
    exitCode: Option<int>,
    reason: Option<string>,
    resources: Option<nat>,
    crunRoot: Option<string>,
    pid: Option<int>)

  const CRUN_ROOT := "crun"

  /** What `crun state` answers: unknown (or an error), running, or any other status. */
  datatype Probe = Gone | Alive(pid: Option<int>) | NotRunning

  // ---- what each call does to one record ----

  function NewRecord(resources: Option<nat>): Record {
    Record(Created, None, None, None, None, resources, None, None)
  }

  function Started(r: Record, now: Time): Record {
    r.(state := Running, startedAt := Some(now), crunRoot := Some(CRUN_ROOT))
  }

  /** The supervisor's final write. */
  function Finished(r: Record, code: int, now: Time): Record {
    r.(state := Exited, exitCode := Some(code), finishedAt := Some(now),
       reason := Some(if code == 0 then "Completed" else "Error"))
  }

  /** The forced exit `stop_container` records when nobody else has. */
  function ForceStopped(r: Record, now: Time): Record {
    if r.state == Exited then r
    else r.(state := Exited, finishedAt := Some(now), exitCode := Some(-1), reason := Some("Error"))
  }

  /** One record through `reconcile`. */
  function Reconciled(r: Record, probe: Probe, now: Time): Record {
    if r.state != Running then r
    else
      match probe
      case Alive(pid) => r.(crunRoot := Some(CRUN_ROOT), pid := if pid.Some? then pid else r.pid)
      case NotRunning =>
        var r := r.(state := Exited, finishedAt := if r.finishedAt.None? then Some(now) else r.finishedAt);
        if r.exitCode.None? then r.(exitCode := Some(-1), reason := Some("Unknown")) else r
      case Gone => r.(state := Unknown)
  }

  // ---- the daemon as a state machine ----

  /**
   The record table, every id ever handed out, the running supervisors, the stop calls waiting
   between their first read and their final re-read, and whether the daemon serves calls (it
   does not while a restart is reconciling).
   */
  datatype Daemon = Daemon(
    records: map<Id, Record>,
    issued: set<Id>,
    supervisors: set<Id>,
    stopping: multiset<Id>,
    serving: bool)

  datatype Action =
    | Create(id: Id, resources: Option<nat>)
    | Start(id: Id, now: Time)
    | SupervisorExit(id: Id, code: int, now: Time)
    | StopBegin(id: Id)
    | StopFinish(id: Id, now: Time)
    | Resize(id: Id, limits: nat)
    | Remove(id: Id)
    | Crash
    | ReconcileOne(id: Id, probe: Probe, now: Time)
    | Serve

  predicate Enabled(d: Daemon, a: Action) {
    match a
    case Create(id, _) => d.serving && id !in d.issued
    case Start(id, _) => d.serving && id in d.records && d.records[id].state == Created
    case SupervisorExit(id, _, _) => id in d.supervisors
    case StopBegin(id) => d.serving && id in d.records && d.records[id].state != Exited
    case StopFinish(id, _) => id in d.stopping
    case Resize(id, _) => d.serving && id in d.records
    case Remove(_) => d.serving
    case Crash => true
    case ReconcileOne(id, _, _) => !d.serving && id in d.records
    case Serve => !d.serving
  }

  function Next(d: Daemon, a: Action): Daemon
    requires Enabled(d, a)
  {
    match a
    case Create(id, res) => d.(records := d.records[id := NewRecord(res)], issued := d.issued + {id})
    case Start(id, now) =>
      d.(records := d.records[id := Started(d.records[id], now)], supervisors := d.supervisors + {id})
    case SupervisorExit(id, code, now) =>
      var d := d.(supervisors := d.supervisors - {id});
      if id in d.records then d.(records := d.records[id := Finished(d.records[id], code, now)]) else d
    case StopBegin(id) => d.(stopping := d.stopping + multiset{id})
    case StopFinish(id, now) =>
      var d := d.(stopping := d.stopping - multiset{id});
      if id in d.records then d.(records := d.records[id := ForceStopped(d.records[id], now)]) else d
    case Resize(id, res) => d.(records := d.records[id := d.records[id].(resources := Some(res))])
    case Remove(id) => d.(records := d.records - {id})
    case Crash => d.(supervisors := {}, stopping := multiset{}, serving := false)
    case ReconcileOne(id, probe, now) =>
      d.(records := d.records[id := Reconciled(d.records[id], probe, now)])
    case Serve => d.(serving := true)
  }

  const BOOT := Daemon(map[], {}, {}, multiset{}, true)

  ghost predicate IsRun(states: seq<Daemon>, actions: seq<Action>) {
    && |states| == |actions| + 1 && states[0] == BOOT
    && forall i {:trigger actions[i]} | 0 <= i < |actions| :: Enabled(states[i], actions[i]) && states[i + 1] == Next(states[i], actions[i])
  }

  // ---- invariants ----

  /** Exit code and finish time are set exactly on Exited records. */
  predicate WellFormed(r: Record) {
    && (r.exitCode.Some? <==> r.state == Exited)
    && (r.finishedAt.Some? <==> r.state == Exited)
    && (r.state == Created ==> r.startedAt.None?)
  }

  /** A record is well-formed, and Created only before it is supervised. */
  predicate RecordOk(d: Daemon, id: Id) {
    && (id in d.records ==> id in d.issued && WellFormed(d.records[id]))
    && (id in d.supervisors ==> id in d.issued && (id in d.records ==> d.records[id].state != Created))
  }

  ghost predicate Inv(d: Daemon) {
    forall id :: RecordOk(d, id)
  }

  lemma NextKeepsRecord(d: Daemon, a: Action, id: Id)
    requires RecordOk(d, id) && Enabled(d, a)
    ensures RecordOk(Next(d, a), id)
  {
  }

  lemma NextKeepsInv(d: Daemon, a: Action)
    requires Inv(d) && Enabled(d, a)
    ensures Inv(Next(d, a))
  {
    hide RecordOk, Next, Enabled;
    forall id ensures RecordOk(Next(d, a), id) {
      NextKeepsRecord(d, a, id);
    }
  }

  lemma {:induction false} RunKeepsInv(states: seq<Daemon>, actions: seq<Action>, i: nat)
    requires IsRun(states, actions) && i < |states|
    ensures Inv(states[i])
  {
    if i > 0 {
      RunKeepsInv(states, actions, i - 1);
      NextKeepsInv(states[i - 1], actions[i - 1]);
    }
  }

  predicate SameExit(a: Record, b: Record) {
    a.exitCode == b.exitCode && a.finishedAt == b.finishedAt && a.reason == b.reason
  }

  /** The record is Exited, or gone, and unsupervised. */
  predicate Sealed(d: Daemon, id: Id) {
    id in d.issued && id !in d.supervisors && (id in d.records ==> d.records[id].state == Exited)
  }

  /** A step keeps an id issued, never brings a record back, and moves states along the legal edges. */
  lemma StepIsLegal(d: Daemon, a: Action, id: Id)
    requires RecordOk(d, id) && Enabled(d, a) && id in d.issued
    ensures var d' := Next(d, a);
            && id in d'.issued
            && (id !in d.records ==> id !in d'.records)
            && (id in d.records && id in d'.records ==>
                  && CanTransitionTo(d.records[id].state, d'.records[id].state)
                  && (d.records[id].state == Exited ==> d'.records[id].state == Exited))
  {
  }

  /** A step leaves an exit that nobody supervises any more as it is. */
  lemma SealedStep(d: Daemon, a: Action, id: Id)
    requires Enabled(d, a) && Sealed(d, id)
    ensures var d' := Next(d, a);
            && Sealed(d', id)
            && (id in d'.records ==> id in d.records && SameExit(d'.records[id], d.records[id]))
  {
  }

  /**
   In every run, from any moment `i` to any later moment `j`: an id stays issued, a record that
   was deleted is not back, and a record that was Exited is Exited or gone.
   */
  lemma {:induction false} ExitedAndDeletedAreFinal(states: seq<Daemon>, actions: seq<Action>, i: nat, j: nat, id: Id)
    requires IsRun(states, actions) && i <= j < |states| && id in states[i].issued
    ensures id in states[j].issued
    ensures id !in states[i].records ==> id !in states[j].records
    ensures id in states[i].records && states[i].records[id].state == Exited && id in states[j].records ==>
              states[j].records[id].state == Exited
    decreases j - i
  {
    if i < j {
      hide RecordOk, Next, Enabled;
      ExitedAndDeletedAreFinal(states, actions, i, j - 1, id);
      RunKeepsInv(states, actions, j - 1);
      StepIsLegal(states[j - 1], actions[j - 1], id);
    }
  }

  lemma {:induction false} SealedStays(states: seq<Daemon>, actions: seq<Action>, i: nat, j: nat, id: Id)
    requires IsRun(states, actions) && i <= j < |states| && Sealed(states[i], id)
    ensures Sealed(states[j], id)
    ensures id in states[j].records ==> id in states[i].records && SameExit(states[j].records[id], states[i].records[id])
    decreases j - i
  {
    if i < j {
      hide Next, Enabled, Sealed;
      SealedStays(states, actions, i, j - 1, id);
      SealedStep(states[j - 1], actions[j - 1], id);
    }
  }

  /**
   In every run of create, start, stop, supervisor exit, resize, remove, crash and reconcile:
   each step moves a record's state along `can_transition_to`, and exit code and finish time
   are set exactly when it is Exited.
   */
  lemma EveryStepIsLegal(states: seq<Daemon>, actions: seq<Action>, i: nat, id: Id)
    requires IsRun(states, actions) && i < |actions| && id in states[i].records
    ensures WellFormed(states[i].records[id])
    ensures id in states[i + 1].records ==>
              CanTransitionTo(states[i].records[id].state, states[i + 1].records[id].state)
  {
    RunKeepsInv(states, actions, i);
    StepIsLegal(states[i], actions[i], id);
  }

  /** Once the supervisor has recorded its exit, code, time and reason never change again. */
  lemma SupervisorHasTheLastWord(states: seq<Daemon>, actions: seq<Action>, i: nat, j: nat)
    requires IsRun(states, actions) && i < j < |states| && actions[i].SupervisorExit?
    ensures var id := actions[i].id;
            id in states[j].records ==>
              && states[j].records[id].state == Exited
              && states[j].records[id].exitCode == Some(actions[i].code)
              && states[j].records[id].finishedAt == Some(actions[i].now)
              && states[j].records[id].reason == Some(if actions[i].code == 0 then "Completed" else "Error")
  {
    var id := actions[i].id;
    RunKeepsInv(states, actions, i);
    assert RecordOk(states[i], id) && Sealed(states[i + 1], id);
    SealedStays(states, actions, i + 1, j, id);
  }

  // ---- a finer grain ----

  /**
   `update_container_resources` reads the record, awaits `crun update`, then writes back the
   record it read.  Taken as two steps: what the write puts over `now`.
   */
  function WriteBack(read: Record, limits: nat): Record {
    read.(resources := Some(limits))
  }

  /** What the run theorems protect of a record that a resize overwrites: legal moves, Exited for good, the exit itself. */
  predicate Respects(now: Record, written: Record) {
    && CanTransitionTo(now.state, written.state) && (now.state == Exited ==> written.state == Exited)
    && SameExit(now, written)
  }

  /** While the daemon is up a record only moves forward, and nothing but its exit and limits change without a move. */
  predicate Forward(was: Record, now: Record) {
    && (now.state == was.state || now.state == Exited || (was.state == Created && now.state == Running))
    && (now.state == was.state ==>
          now.startedAt == was.startedAt && now.crunRoot == was.crunRoot && now.pid == was.pid)
  }

  lemma ForwardStep(d: Daemon, a: Action, id: Id, was: Record)
    requires RecordOk(d, id) && Enabled(d, a) && d.serving && a != Crash && id in d.issued
    requires id in d.records ==> Forward(was, d.records[id])
    ensures Next(d, a).serving
    ensures id in Next(d, a).records ==> id in d.records && Forward(was, Next(d, a).records[id])
  {
  }

  lemma {:induction false} ForwardUntilCrash(states: seq<Daemon>, actions: seq<Action>, i: nat, j: nat, id: Id)
    requires IsRun(states, actions) && i <= j < |states| && id in states[i].records && states[i].serving
    requires forall k | i <= k < j :: actions[k] != Crash
    ensures states[j].serving && id in states[j].issued
    ensures id in states[j].records ==> Forward(states[i].records[id], states[j].records[id])
    decreases j - i
  {
    RunKeepsInv(states, actions, i);
    assert RecordOk(states[i], id);
    if i < j {
      ForwardUntilCrash(states, actions, i, j - 1, id);
      RunKeepsInv(states, actions, j - 1);
      hide RecordOk, Next, Enabled, Forward;
      ForwardStep(states[j - 1], actions[j - 1], id, states[i].records[id]);
      StepIsLegal(states[j - 1], actions[j - 1], id);
    }
  }

  /**
   The exact condition, for a read at `i` and a write at `j` in one daemon lifetime: the write
   respects what the run theorems protect if and only if the record is still there with the
   state, exit code, finish time and reason that were read.  It is then the same as a resize
   done in one step at `j`.
   */
  lemma SplitResizeIsSafeExactlyWhenUnmoved(states: seq<Daemon>, actions: seq<Action>, i: nat, j: nat, id: Id, limits: nat)
    requires IsRun(states, actions) && i <= j < |states| && id in states[i].records && states[i].serving
    requires forall k | i <= k < j :: actions[k] != Crash
    ensures var d, read := states[j], states[i].records[id];
            var written := WriteBack(read, limits);
            var unmoved := id in d.records && d.records[id].state == read.state && SameExit(d.records[id], read);
            && ((id in d.records && Respects(d.records[id], written)) <==> unmoved)
            && (unmoved ==>
                  && Enabled(d, Resize(id, limits))
                  && d.(records := d.records[id := written]) == Next(d, Resize(id, limits)))
  {
    hide Inv, IsRun;
    ForwardUntilCrash(states, actions, i, j, id);
  }

  lemma RunGrows(states: seq<Daemon>, actions: seq<Action>, a: Action)
    requires IsRun(states, actions) && Enabled(states[|actions|], a)
    ensures IsRun(states + [Next(states[|actions|], a)], actions + [a])
  {
    hide Enabled, Next;
  }

  /** A run that starts a container. */
  lemma StartedRun(d: Daemon)
    requires d == Daemon(map[0 := Started(NewRecord(None), 1)], {0}, {0}, multiset{}, true)
    ensures var created := Next(BOOT, Create(0, None));
            && IsRun([BOOT, created, d], [Create(0, None), Start(0, 1)])
  {
    var created := Next(BOOT, Create(0, None));
    assert Next(created, Start(0, 1)) == d;
    RunGrows([BOOT], [], Create(0, None));
    RunGrows([BOOT, created], [Create(0, None)], Start(0, 1));
    assert [BOOT] + [created] == [BOOT, created] && [BOOT, created] + [d] == [BOOT, created, d];
  }

  /** A run in which such a write undoes an exit: create, start, read, exit, write. */
  lemma SplitResizeCanUndoAnExit(limits: nat)
    ensures exists states: seq<Daemon>, actions: seq<Action> ::
              && IsRun(states, actions) && actions == [Create(0, None), Start(0, 1), SupervisorExit(0, 0, 3)]
              && 0 in states[2].records && states[2].serving && 0 in states[3].records
              && states[3].records[0].state == Exited
              && WriteBack(states[2].records[0], limits).state == Running
              && !Respects(states[3].records[0], WriteBack(states[2].records[0], limits))
  {
    var d := Daemon(map[0 := Started(NewRecord(None), 1)], {0}, {0}, multiset{}, true);
    var created, exited := Next(BOOT, Create(0, None)), Next(d, SupervisorExit(0, 0, 3));
    StartedRun(d);
    RunGrows([BOOT, created, d], [Create(0, None), Start(0, 1)], SupervisorExit(0, 0, 3));
    assert [BOOT, created, d] + [exited] == [BOOT, created, d, exited];
    hide IsRun;
  }

  /** A run in which a stop has forced the exit of a started container. */
  lemma ForcedStopRun(forced: Daemon) returns (states: seq<Daemon>, actions: seq<Action>)
    requires forced == Daemon(map[0 := ForceStopped(Started(NewRecord(None), 1), 2)], {0}, {0}, multiset{}, true)
    ensures IsRun(states, actions) && actions == [Create(0, None), Start(0, 1), StopBegin(0), StopFinish(0, 2)]
    ensures states[4] == forced
  {
    var d := Daemon(map[0 := Started(NewRecord(None), 1)], {0}, {0}, multiset{}, true);
    var waiting := Next(d, StopBegin(0));
    StartedRun(d);
    states, actions := [BOOT, Next(BOOT, Create(0, None)), d], [Create(0, None), Start(0, 1)];
    RunGrows(states, actions, StopBegin(0));
    states, actions := states + [waiting], actions + [StopBegin(0)];
    assert Next(waiting, StopFinish(0, 2)) == forced;
    RunGrows(states, actions, StopFinish(0, 2));
    states, actions := states + [forced], actions + [StopFinish(0, 2)];
    hide IsRun;
  }

  /** A run in which it leaves the record Exited but puts a forced stop's -1 over the real exit code. */
  lemma SplitResizeCanUndoAnExitCode(limits: nat)
    ensures exists states: seq<Daemon>, actions: seq<Action> ::
              && IsRun(states, actions)
              && actions == [Create(0, None), Start(0, 1), StopBegin(0), StopFinish(0, 2), SupervisorExit(0, 0, 3)]
              && 0 in states[4].records && states[4].serving && 0 in states[5].records
              && states[5].records[0].exitCode == Some(0)
              && WriteBack(states[4].records[0], limits).state == states[5].records[0].state == Exited
              && WriteBack(states[4].records[0], limits).exitCode == Some(-1)
  {
    var forced := Daemon(map[0 := ForceStopped(Started(NewRecord(None), 1), 2)], {0}, {0}, multiset{}, true);
    var exited := Next(forced, SupervisorExit(0, 0, 3));
    var states, actions := ForcedStopRun(forced);
    RunGrows(states, actions, SupervisorExit(0, 0, 3));
    hide IsRun;
    assert actions + [SupervisorExit(0, 0, 3)]
        == [Create(0, None), Start(0, 1), StopBegin(0), StopFinish(0, 2), SupervisorExit(0, 0, 3)];
    assert (states + [exited])[4] == forced && (states + [exited])[5] == exited;
  }

  // ---- the calls as the service makes them ----

  datatype Status = Done | NotFound | FailedPrecondition | Internal

  class RuntimeSvc {
    var records: map<Id, Record>
    var issued: set<Id>
    var supervisors: set<Id>
    var stopping: multiset<Id>
    var serving: bool

    function Snapshot(): Daemon
      reads this
    {
      Daemon(records, issued, supervisors, stopping, serving)
    }

    constructor ()
      ensures Snapshot() == BOOT
    {
      records, issued, supervisors, stopping, serving := map[], {}, {}, multiset{}, true;
    }

    /** `gen_id` salts with the clock; the id is taken to be new. */
    method CreateContainer(id: Id, resources: Option<nat>)
      requires serving && id !in issued
      modifies this
      ensures Snapshot() == Next(old(Snapshot()), Create(id, resources))
    {
      records := records[id := NewRecord(resources)];
      issued := issued + {id};
    }

    /** `bundled` says whether the bundle's config.json is there. */
    method StartContainer(id: Id, bundled: bool, now: Time) returns (status: Status)
      requires serving
      modifies this
      ensures status == (if id !in old(records) then NotFound
                         else if old(records)[id].state != Created then FailedPrecondition
                         else if !bundled then Internal else Done)
      ensures Snapshot() == (if status == Done then Next(old(Snapshot()), Start(id, now)) else old(Snapshot()))
    {
      if id !in records {
        return NotFound;
      }
      var rec := records[id];
      if rec.state != Created {
        return FailedPrecondition;
      }
      if !bundled {
        return Internal;
      }
      rec := rec.(state := Running, startedAt := Some(now), crunRoot := Some(CRUN_ROOT));
      records := records[id := rec];
      supervisors := supervisors + {id};
      status := Done;
    }

    /** The task spawned by `start_container`, once `crun run` has returned `code`. */
    method SuperviseEnds(id: Id, code: int, now: Time)
      requires id in supervisors
      modifies this
      ensures Snapshot() == Next(old(Snapshot()), SupervisorExit(id, code, now))
    {
      supervisors := supervisors - {id};
      if id in records {
        var r := records[id].(state := Exited, exitCode := Some(code), finishedAt := Some(now));
        r := r.(reason := Some(if code == 0 then "Completed" else "Error"));
        records := records[id := r];
      }
    }

    /** The first read of `stop_container`: whether it goes on to signal and wait. */
    method StopContainerBegin(id: Id) returns (waits: bool)
      requires serving
      modifies this
      ensures waits == (id in old(records) && old(records)[id].state != Exited)
      ensures Snapshot() == (if waits then Next(old(Snapshot()), StopBegin(id)) else old(Snapshot()))
    {
      waits := id in records && records[id].state != Exited;
      if waits {
        stopping := stopping + multiset{id};
      }
    }

    /** Its re-read and write after the grace period. */
    method StopContainerFinish(id: Id, now: Time)
      requires id in stopping
      modifies this
      ensures Snapshot() == Next(old(Snapshot()), StopFinish(id, now))
    {
      stopping := stopping - multiset{id};
      if id in records {
        var updated := records[id];
        if updated.state != Exited {
          updated := updated.(state := Exited, finishedAt := Some(now), exitCode := Some(-1), reason := Some("Error"));
        }
        records := records[id := updated];
      }
    }

    /** `updated` says whether `crun update` succeeded; a request may come without limits. */
    method UpdateContainerResources(id: Id, limits: Option<nat>, updated: bool) returns (status: Status)
      requires serving
      modifies this
      ensures status == if id !in old(records) then NotFound else if !updated then Internal else Done
      ensures Snapshot() == (if status == Done && limits.Some? then Next(old(Snapshot()), Resize(id, limits.value))
                             else old(Snapshot()))
    {
      if id !in records {
        return NotFound;
      }
      var rec := records[id];
      if !updated {
        return Internal;
      }
      if limits.Some? {
        records := records[id := rec.(resources := limits)];
      }
      status := Done;
    }

    method RemoveContainer(id: Id)
      requires serving
      modifies this
      ensures Snapshot() == Next(old(Snapshot()), Remove(id))
    {
      records := records - {id};
    }

    /**
     `reconcile`, over the listing `order` of the records.  `deleted` collects the ids handed to
     `crun delete --force`.
     */
    method Reconcile(order: seq<Id>, probe: Id -> Probe, now: Id -> Time) returns (report: Report, deleted: set<Id>)
      requires forall i, j | 0 <= i < j < |order| :: order[i] != order[j]
      requires (set id <- order) == records.Keys
      modifies this`records
      ensures records == ReconcileAll(old(records), probe, now)
      ensures report == ReportOf(old(records), probe)
      ensures deleted == ToDelete(old(records), probe)
    {
      hide Half, Part, ToDelete, ReportOf, Reconciled, Counted;
      report, deleted := Report(0, 0, 0), {};
      ghost var before := records;
      EmptyListing(before, probe, now);
      for i := 0 to |order|
        invariant records == Half(before, order[..i], probe, now)
        invariant report == ReportOf(Part(before, order[..i]), probe)
        invariant deleted == ToDelete(Part(before, order[..i]), probe)
      {
        var id := order[i];
        HalfStep(before, order, i, probe, now);
        ReportAdd(Part(before, order[..i]), id, before[id], probe);
        ToDeleteAdd(Part(before, order[..i]), id, before[id], probe);
        var c := records[id];
        if c.state == Running {
          c := ReconcileRecord(c, probe(id), now(id));
          report := Counted(report, probe(id));
          if !probe(id).Alive? {
            deleted := deleted + {id};
          }
        }
        records := records[id := c];
      }
      assert order[..|order|] == order;
      WholeListing(before, order, probe, now);
    }
  }

  /** The three arms of the `match` in `reconcile`. */
  method ReconcileRecord(r: Record, st: Probe, now: Time) returns (c: Record)
    requires r.state == Running
    ensures c == Reconciled(r, st, now)
  {
    c := r;
    match st {
      case Alive(pid) =>
        c := c.(crunRoot := Some(CRUN_ROOT));
        if pid.Some? {
          c := c.(pid := pid);
        }
      case NotRunning =>
        c := c.(state := Exited);
        if c.finishedAt.None? {
          c := c.(finishedAt := Some(now));
        }
        if c.exitCode.None? {
          c := c.(exitCode := Some(-1), reason := Some("Unknown"));
        }
      case Gone =>
        c := c.(state := Unknown);
    }
  }

  // ---- reconcile ----

  datatype Report = Report(readopted: nat, reaped: nat, markedUnknown: nat)

  function ReconcileAll(records: map<Id, Record>, probe: Id -> Probe, now: Id -> Time): map<Id, Record> {
    map id | id in records :: Reconciled(records[id], probe(id), now(id))
  }

  function RunningIds(records: map<Id, Record>): set<Id> {
    set id | id in records && records[id].state == Running
  }

  /** The Running containers that crun still reports as running. */
  function Readopted(records: map<Id, Record>, probe: Id -> Probe): set<Id> {
    set id | id in records && records[id].state == Running && probe(id).Alive?
  }

  function Reaped(records: map<Id, Record>, probe: Id -> Probe): set<Id> {
    set id | id in records && records[id].state == Running && probe(id).NotRunning?
  }

  function MarkedUnknown(records: map<Id, Record>, probe: Id -> Probe): set<Id> {
    set id | id in records && records[id].state == Running && probe(id).Gone?
  }

  function ReportOf(records: map<Id, Record>, probe: Id -> Probe): Report {
    Report(|Readopted(records, probe)|, |Reaped(records, probe)|, |MarkedUnknown(records, probe)|)
  }

  /** What reconcile hands to `crun delete --force`: never a container crun reports as running. */
  function ToDelete(records: map<Id, Record>, probe: Id -> Probe): set<Id> {
    Reaped(records, probe) + MarkedUnknown(records, probe)
  }

  function Counted(r: Report, p: Probe): Report {
    match p
    case Alive(_) => r.(readopted := r.readopted + 1)
    case NotRunning => r.(reaped := r.reaped + 1)
    case Gone => r.(markedUnknown := r.markedUnknown + 1)
  }

  ghost function Part(records: map<Id, Record>, ids: seq<Id>): map<Id, Record> {
    map id | id in records && id in ids :: records[id]
  }

  ghost function Half(records: map<Id, Record>, ids: seq<Id>, probe: Id -> Probe, now: Id -> Time): map<Id, Record> {
    map id | id in records :: if id in ids then Reconciled(records[id], probe(id), now(id)) else records[id]
  }

  lemma EmptyListing(records: map<Id, Record>, probe: Id -> Probe, now: Id -> Time)
    ensures Half(records, [], probe, now) == records
    ensures ReportOf(Part(records, []), probe) == Report(0, 0, 0) && ToDelete(Part(records, []), probe) == {}
  {
    var none := Part(records, []);
    assert Readopted(none, probe) == {} && Reaped(none, probe) == {} && MarkedUnknown(none, probe) == {};
  }

  /** The set `now` is `was`, with `id` added when `hit`. */
  predicate Grows(was: set<Id>, now: set<Id>, id: Id, hit: bool) {
    if hit then id !in was && now == was + {id} else now == was
  }

  lemma GrowsByOne(was: set<Id>, now: set<Id>, id: Id, hit: bool)
    requires Grows(was, now, id, hit)
    ensures |now| == |was| + if hit then 1 else 0
  {
  }

  lemma ReadoptedAdd(p: map<Id, Record>, id: Id, r: Record, probe: Id -> Probe)
    requires id !in p
    ensures Grows(Readopted(p, probe), Readopted(p[id := r], probe), id, r.state == Running && probe(id).Alive?)
  {
  }

  lemma ReapedAdd(p: map<Id, Record>, id: Id, r: Record, probe: Id -> Probe)
    requires id !in p
    ensures Grows(Reaped(p, probe), Reaped(p[id := r], probe), id, r.state == Running && probe(id).NotRunning?)
  {
  }

  lemma MarkedUnknownAdd(p: map<Id, Record>, id: Id, r: Record, probe: Id -> Probe)
    requires id !in p
    ensures Grows(MarkedUnknown(p, probe), MarkedUnknown(p[id := r], probe), id, r.state == Running && probe(id).Gone?)
  {
  }

  /** One more record in the listing. */
  lemma ReportAdd(p: map<Id, Record>, id: Id, r: Record, probe: Id -> Probe)
    requires id !in p
    ensures ReportOf(p[id := r], probe)
            == if r.state == Running then Counted(ReportOf(p, probe), probe(id)) else ReportOf(p, probe)
  {
    hide Readopted, Reaped, MarkedUnknown, Grows;
    var q, running := p[id := r], r.state == Running;
    ReadoptedAdd(p, id, r, probe);
    GrowsByOne(Readopted(p, probe), Readopted(q, probe), id, running && probe(id).Alive?);
    ReapedAdd(p, id, r, probe);
    GrowsByOne(Reaped(p, probe), Reaped(q, probe), id, running && probe(id).NotRunning?);
    MarkedUnknownAdd(p, id, r, probe);
    GrowsByOne(MarkedUnknown(p, probe), MarkedUnknown(q, probe), id, running && probe(id).Gone?);
  }

  lemma ToDeleteAdd(p: map<Id, Record>, id: Id, r: Record, probe: Id -> Probe)
    requires id !in p
    ensures ToDelete(p[id := r], probe)
            == if r.state == Running && !probe(id).Alive? then ToDelete(p, probe) + {id} else ToDelete(p, probe)
  {
    hide Readopted, Reaped, MarkedUnknown;
    ReapedAdd(p, id, r, probe);
    MarkedUnknownAdd(p, id, r, probe);
  }

  lemma HalfStep(records: map<Id, Record>, order: seq<Id>, i: nat, probe: Id -> Probe, now: Id -> Time)
    requires i < |order| && order[i] in records && order[i] !in order[..i]
    ensures var id, r := order[i], records[order[i]];
            && order[i] !in Part(records, order[..i])
            && Part(records, order[..i + 1]) == Part(records, order[..i])[id := r]
            && id in Half(records, order[..i], probe, now) && Half(records, order[..i], probe, now)[id] == r
            && Half(records, order[..i + 1], probe, now)
               == Half(records, order[..i], probe, now)
                    [id := if r.state == Running then Reconciled(r, probe(id), now(id)) else r]
  {
    assert order[..i + 1] == order[..i] + [order[i]];
  }

  lemma WholeListing(records: map<Id, Record>, order: seq<Id>, probe: Id -> Probe, now: Id -> Time)
    requires (set id <- order) == records.Keys
    ensures Half(records, order, probe, now) == ReconcileAll(records, probe, now) && Part(records, order) == records
  {
    assert forall id :: id in order <==> id in (set id <- order);
  }

  /** Every Running record is counted once. */
  lemma ReportCountsEachRunningOnce(records: map<Id, Record>, probe: Id -> Probe)
    ensures var r := ReportOf(records, probe); r.readopted + r.reaped + r.markedUnknown == |RunningIds(records)|
  {
    var a, b, c := Readopted(records, probe), Reaped(records, probe), MarkedUnknown(records, probe);
    assert RunningIds(records) == a + b + c;
    assert a !! b && (a + b) !! c;
  }

  /** A record that had ended while the daemon was down: Exited, with an exit if it had none. */
  predicate ReapedAs(was: Record, now: Record, at: Time) {
    && now == was.(state := Exited, finishedAt := now.finishedAt, exitCode := now.exitCode, reason := now.reason)
    && now.finishedAt == (if was.finishedAt.Some? then was.finishedAt else Some(at))
    && (if was.exitCode.Some? then now.exitCode == was.exitCode && now.reason == was.reason
        else now.exitCode == Some(-1) && now.reason == Some("Unknown"))
  }

  /**
   The three counters count outcomes: the Running records for which crun gave some other status
   are exactly those now Exited, with code -1, the time of the pass and reason "Unknown"; the ones
   it does not know are exactly those now Unknown and otherwise as they were; the ones it reports
   as running are exactly those still Running, with the reported pid.
   */
  lemma ReconcileOutcomes(records: map<Id, Record>, probe: Id -> Probe, now: Id -> Time)
    ensures var once := ReconcileAll(records, probe, now);
            && once.Keys == records.Keys
            && Reaped(records, probe) == (set id | id in RunningIds(records) && once[id].state == Exited)
            && MarkedUnknown(records, probe) == (set id | id in RunningIds(records) && once[id].state == Unknown)
            && Readopted(records, probe) == (set id | id in RunningIds(records) && once[id].state == Running)
            && (forall id <- Reaped(records, probe) :: probe(id) == NotRunning && ReapedAs(records[id], once[id], now(id)))
            && (forall id <- MarkedUnknown(records, probe) ::
                  probe(id) == Gone && once[id] == records[id].(state := Unknown))
            && (forall id <- Readopted(records, probe) ::
                  && probe(id).Alive?
                  && once[id] == records[id].(crunRoot := Some(CRUN_ROOT),
                                              pid := if probe(id).pid.Some? then probe(id).pid else records[id].pid))
  {
    var once := ReconcileAll(records, probe, now);
    forall id <- RunningIds(records)
      ensures match probe(id)
              case Alive(_) => once[id].state == Running
              case NotRunning => once[id].state == Exited && ReapedAs(records[id], once[id], now(id))
              case Gone => once[id] == records[id].(state := Unknown)
    {
    }
  }

  /** The only moves `can_transition_to` forbids: back to Created, and from Exited to Running. */
  lemma ForbiddenMoves(from: State, next: State)
    ensures !CanTransitionTo(from, next) <==> (next == Created && from != Created) || (from == Exited && next == Running)
  {
  }

  /**
   Reconcile touches only Running records, moves them legally, and keeps what crun reports as
   running; run again with the same answers it changes nothing and reaps or marks nothing.
   */
  lemma ReconcileIsLegalAndIdempotent(
    records: map<Id, Record>, probe: Id -> Probe, now: Id -> Time, later: Id -> Time)
    ensures var once := ReconcileAll(records, probe, now);
            && (forall id <- records ::
                  && (records[id].state != Running ==> once[id] == records[id])
                  && CanTransitionTo(records[id].state, once[id].state)
                  && (records[id].state == Running && probe(id).Alive? ==> once[id].state == Running))
            && (forall id <- ToDelete(records, probe) :: !probe(id).Alive?)
            && ReconcileAll(once, probe, later) == once && ToDelete(once, probe) == {}
            && ReportOf(once, probe).reaped == 0 && ReportOf(once, probe).markedUnknown == 0
            && ReportOf(once, probe).readopted == ReportOf(records, probe).readopted
  {
    var once := ReconcileAll(records, probe, now);
    assert Reaped(once, probe) == {} && MarkedUnknown(once, probe) == {};
    assert Readopted(once, probe) == Readopted(records, probe);
  }
}
