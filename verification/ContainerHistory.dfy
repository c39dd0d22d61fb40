/**
 A container record as the history of the calls made: in every run of the machine in
 `Containers`, what is in the table follows from the actions alone
 (crates/cri/src/server.rs:1355-1788, 2125-2159 and 2982-3030).
 */
module ContainerHistory {
  import opened Bytes
  import opened Runs
  import opened Containers

  function Creates(actions: seq<Action>, id: Id): nat -> bool {
    (k: nat) => k < |actions| && actions[k].Create? && actions[k].id == id
  }

  function Removes(actions: seq<Action>, id: Id): nat -> bool {
    (k: nat) => k < |actions| && actions[k] == Remove(id)
  }

  function Starts(actions: seq<Action>, id: Id): nat -> bool {
    (k: nat) => k < |actions| && actions[k].Start? && actions[k].id == id
  }

  /** A supervisor's exit, a finished stop, or a removal. */
  predicate Ends(a: Action, id: Id) {
    a == Remove(id) || ((a.SupervisorExit? || a.StopFinish?) && a.id == id)
  }

  /** Whatever ends a Created record's state: it is started, or ended. */
  function StartsOrEnds(actions: seq<Action>, id: Id): nat -> bool {
    (k: nat) => k < |actions| && ((actions[k].Start? && actions[k].id == id) || Ends(actions[k], id))
  }

  /** Whatever ends a Running record's state: it is ended, or found by a reconcile not to run. */
  function StopsRunning(actions: seq<Action>, id: Id): nat -> bool {
    (k: nat) => k < |actions| && (Ends(actions[k], id) || (actions[k].ReconcileOne? && actions[k].id == id && !actions[k].probe.Alive?))
  }

  predicate InState(d: Daemon, id: Id, state: State) { id in d.records && d.records[id].state == state }

  /** One step, seen from one id. */
  lemma HistoryStep(d: Daemon, a: Action, id: Id)
    requires RecordOk(d, id) && Enabled(d, a)
    ensures var d' := Next(d, a);
            && (id in d'.records <==> (a.Create? && a.id == id) || (id in d.records && a != Remove(id)))
            && (InState(d', id, Created) <==>
                  || (a.Create? && a.id == id)
                  || (InState(d, id, Created) && !(a.Start? && a.id == id) && !Ends(a, id)))
            && (InState(d', id, Running) <==>
                  || (a.Start? && a.id == id)
                  || (InState(d, id, Running) && !Ends(a, id) && !(a.ReconcileOne? && a.id == id && !a.probe.Alive?)))
  {
  }

  /**
   In every run: a record is there exactly when its container was created and has not been
   removed since; it is Created exactly when it has not been started or ended since; it is
   Running exactly when it was started and has not been stopped, reported ended, removed, or
   found by a reconcile not to run since.
   */
  lemma {:induction false} RecordFollowsTheCalls(states: seq<Daemon>, actions: seq<Action>, i: nat, id: Id)
    requires IsRun(states, actions) && i < |states|
    ensures id in states[i].records <==> Since(i, Creates(actions, id), Removes(actions, id))
    ensures InState(states[i], id, Created) <==> Since(i, Creates(actions, id), StartsOrEnds(actions, id))
    ensures InState(states[i], id, Running) <==> Since(i, Starts(actions, id), StopsRunning(actions, id))
  {
    hide Next, Enabled, RecordOk, Ends, Since;
    if i == 0 {
      NothingYet(Creates(actions, id), Removes(actions, id));
      NothingYet(Creates(actions, id), StartsOrEnds(actions, id));
      NothingYet(Starts(actions, id), StopsRunning(actions, id));
    } else {
      RecordFollowsTheCalls(states, actions, i - 1, id);
      RunKeepsInv(states, actions, i - 1);
      HistoryStep(states[i - 1], actions[i - 1], id);
      SinceNext(i - 1, Creates(actions, id), Removes(actions, id));
      SinceNext(i - 1, Creates(actions, id), StartsOrEnds(actions, id));
      SinceNext(i - 1, Starts(actions, id), StopsRunning(actions, id));
    }
  }

  // ---- the daemon's own tasks ----

  /** A supervisor ends by reporting, and with the daemon. */
  function EndsTask(actions: seq<Action>, id: Id): nat -> bool {
    (k: nat) => k < |actions| && (actions[k] == Crash || (actions[k].SupervisorExit? && actions[k].id == id))
  }

  function Crashes(actions: seq<Action>): nat -> bool {
    (k: nat) => k < |actions| && actions[k] == Crash
  }

  function ServesAgain(actions: seq<Action>): nat -> bool {
    (k: nat) => k < |actions| && actions[k] == Serve
  }

  /** Stop calls for `id` begun and not finished, in this daemon's lifetime. */
  function StopsWaiting(actions: seq<Action>, id: Id): int {
    if actions == [] then 0
    else
      var n := |actions| - 1;
      var before := StopsWaiting(actions[..n], id);
      match actions[n]
      case StopBegin(c) => if c == id then before + 1 else before
      case StopFinish(c, _) => if c == id then before - 1 else before
      case Crash => 0
      case _ => before
  }

  lemma TaskStep(d: Daemon, a: Action, id: Id)
    requires Enabled(d, a)
    ensures var d' := Next(d, a);
            && (id in d'.supervisors <==>
                  (a.Start? && a.id == id) || (id in d.supervisors && a != Crash && !(a.SupervisorExit? && a.id == id)))
            && (!d'.serving <==> a == Crash || (!d.serving && a != Serve))
            && d'.stopping[id] == match a
                                  case StopBegin(c) => if c == id then d.stopping[id] + 1 else d.stopping[id]
                                  case StopFinish(c, _) => if c == id then d.stopping[id] - 1 else d.stopping[id]
                                  case Crash => 0
                                  case _ => d.stopping[id]
  {
  }

  /**
   In every run: a container is supervised exactly when it was started and its supervisor has
   not reported since, in this daemon's lifetime; the daemon serves exactly when it has not
   crashed, or has finished reconciling since; and as many stops are waiting as were begun and
   not finished since the last crash.
   */
  lemma {:induction false} TasksFollowTheCalls(states: seq<Daemon>, actions: seq<Action>, i: nat, id: Id)
    requires IsRun(states, actions) && i < |states|
    ensures id in states[i].supervisors <==> Since(i, Starts(actions, id), EndsTask(actions, id))
    ensures !states[i].serving <==> Since(i, Crashes(actions), ServesAgain(actions))
    ensures states[i].stopping[id] == StopsWaiting(actions[..i], id)
  {
    hide Next, Enabled, Since;
    if i == 0 {
      NothingYet(Starts(actions, id), EndsTask(actions, id));
      NothingYet(Crashes(actions), ServesAgain(actions));
    } else {
      TasksFollowTheCalls(states, actions, i - 1, id);
      assert Enabled(states[i - 1], actions[i - 1]);
      TaskStep(states[i - 1], actions[i - 1], id);
      SinceNext(i - 1, Starts(actions, id), EndsTask(actions, id));
      SinceNext(i - 1, Crashes(actions), ServesAgain(actions));
      assert actions[..i][..i - 1] == actions[..i - 1] && actions[..i][i - 1] == actions[i - 1];
    }
  }

  // ---- the other fields ----

  /** The limits last asked for the container by its creation or a resize. */
  function LimitsAsked(actions: seq<Action>, id: Id): Option<nat> {
    if actions == [] then None
    else
      var n := |actions| - 1;
      match actions[n]
      case Create(c, limits) => if c == id then limits else LimitsAsked(actions[..n], id)
      case Resize(c, limits) => if c == id then Some(limits) else LimitsAsked(actions[..n], id)
      case _ => LimitsAsked(actions[..n], id)
  }

  /** The time of the container's start, if it was started. */
  function StartTime(actions: seq<Action>, id: Id): Option<Time> {
    if actions == [] then None
    else
      var n := |actions| - 1;
      match actions[n]
      case Create(c, _) => if c == id then None else StartTime(actions[..n], id)
      case Start(c, now) => if c == id then Some(now) else StartTime(actions[..n], id)
      case _ => StartTime(actions[..n], id)
  }

  lemma FieldsStep(d: Daemon, a: Action, id: Id)
    requires RecordOk(d, id) && Enabled(d, a) && id in Next(d, a).records
    ensures var r := Next(d, a).records[id];
            if a.Create? && a.id == id then r.resources == a.resources && r.startedAt == None
            else
              && id in d.records
              && r.resources == (if a.Resize? && a.id == id then Some(a.limits) else d.records[id].resources)
              && r.startedAt == (if a.Start? && a.id == id then Some(a.now) else d.records[id].startedAt)
  {
  }

  /** In every run a record has the limits last asked for and the time it was started. */
  lemma {:induction false} LimitsAndStartAreTheLastAsked(states: seq<Daemon>, actions: seq<Action>, i: nat, id: Id)
    requires IsRun(states, actions) && i < |states| && id in states[i].records
    ensures states[i].records[id].resources == LimitsAsked(actions[..i], id)
    ensures states[i].records[id].startedAt == StartTime(actions[..i], id)
  {
    hide Next, Enabled, RecordOk;
    if i > 0 {
      RunKeepsInv(states, actions, i - 1);
      FieldsStep(states[i - 1], actions[i - 1], id);
      assert actions[..i][..i - 1] == actions[..i - 1] && actions[..i][i - 1] == actions[i - 1];
      if id in states[i - 1].records {
        LimitsAndStartAreTheLastAsked(states, actions, i - 1, id);
      }
    }
  }

  // ---- exits ----

  /** The exit that step `a` gives the record of its container, found in state `was`. */
  predicate GivesExit(was: Record, a: Action, r: Record) {
    match a
    case SupervisorExit(_, code, now) =>
      && r.exitCode == Some(code) && r.finishedAt == Some(now)
      && r.reason == Some(if code == 0 then "Completed" else "Error")
    case StopFinish(_, now) =>
      was.state != Exited && r.exitCode == Some(-1) && r.finishedAt == Some(now) && r.reason == Some("Error")
    case ReconcileOne(_, probe, now) =>
      && was.state == Running && probe == NotRunning
      && r.exitCode == Some(-1) && r.finishedAt == Some(now) && r.reason == Some("Unknown")
    case _ => false
  }

  ghost predicate ExitedAt(states: seq<Daemon>, actions: seq<Action>, k: nat, id: Id, r: Record)
    requires |states| == |actions| + 1
  {
    && k < |actions| && !actions[k].Crash? && !actions[k].Serve? && actions[k].id == id
    && id in states[k].records && GivesExit(states[k].records[id], actions[k], r)
  }

  /** The steps that can end a record. */
  predicate MayExit(a: Action, id: Id) {
    (a.SupervisorExit? || a.StopFinish? || a.ReconcileOne?) && a.id == id
  }

  lemma OtherStepsKeepExits(d: Daemon, a: Action, id: Id)
    requires RecordOk(d, id) && Enabled(d, a) && InState(Next(d, a), id, Exited) && !MayExit(a, id)
    ensures InState(d, id, Exited) && SameExit(d.records[id], Next(d, a).records[id])
  {
  }

  lemma ExitsAreGiven(d: Daemon, a: Action, id: Id)
    requires RecordOk(d, id) && Enabled(d, a) && InState(Next(d, a), id, Exited) && MayExit(a, id)
    ensures id in d.records
    ensures var r, r' := d.records[id], Next(d, a).records[id];
            GivesExit(r, a, r') || (r.state == Exited && SameExit(r, r') && !a.SupervisorExit?)
  {
  }

  lemma ExitStep(d: Daemon, a: Action, id: Id)
    requires RecordOk(d, id) && Enabled(d, a) && InState(Next(d, a), id, Exited)
    ensures id in d.records
    ensures var r, r' := d.records[id], Next(d, a).records[id];
            || (!a.Crash? && !a.Serve? && a.id == id && GivesExit(r, a, r'))
            || (r.state == Exited && SameExit(r, r') && !(a.SupervisorExit? && a.id == id))
  {
    hide Next, Enabled, RecordOk, GivesExit, SameExit;
    if MayExit(a, id) {
      ExitsAreGiven(d, a, id);
    } else {
      OtherStepsKeepExits(d, a, id);
    }
  }

  /** Step `k` gave the record the exit it has at `i`, and no supervisor has reported for it since. */
  ghost predicate LastExit(states: seq<Daemon>, actions: seq<Action>, i: nat, id: Id, k: nat)
    requires |states| == |actions| + 1 && i < |states| && id in states[i].records
  {
    && k < i && ExitedAt(states, actions, k, id, states[i].records[id])
    && forall m | k < m < i :: !(actions[m].SupervisorExit? && actions[m].id == id)
  }

  /**
   In every run the exit of an Exited record is that of a step: a supervisor's code and time, a
   forced stop's -1 and time, or a reconcile's -1 and time with reason "Unknown"; and no
   supervisor has reported for it since.
   */
  lemma {:induction false} EveryExitIsSomebodys(states: seq<Daemon>, actions: seq<Action>, i: nat, id: Id)
    requires IsRun(states, actions) && i < |states| && InState(states[i], id, Exited)
    ensures exists k: nat :: LastExit(states, actions, i, id, k)
  {
    hide Next, Enabled, RecordOk, GivesExit;
    RunKeepsInv(states, actions, i - 1);
    ExitStep(states[i - 1], actions[i - 1], id);
    if ExitedAt(states, actions, i - 1, id, states[i].records[id]) {
      assert LastExit(states, actions, i, id, i - 1);
    } else {
      EveryExitIsSomebodys(states, actions, i - 1, id);
      var k: nat :| LastExit(states, actions, i - 1, id, k);
      SameExitGiven(states[k].records[id], actions[k], states[i - 1].records[id], states[i].records[id]);
      assert LastExit(states, actions, i, id, k);
    }
  }

  lemma SameExitGiven(was: Record, a: Action, r: Record, r': Record)
    requires GivesExit(was, a, r) && SameExit(r, r')
    ensures GivesExit(was, a, r')
  {
  }

  /** After a finished stop, and after a supervisor's exit, a record that is there is Exited. */
  lemma StoppedMeansExited(states: seq<Daemon>, actions: seq<Action>, i: nat, j: nat, id: Id)
    requires IsRun(states, actions) && i < j < |states|
    requires (actions[i].StopFinish? || actions[i].SupervisorExit?) && actions[i].id == id && id in states[j].records
    requires id in states[i].records
    ensures states[j].records[id].state == Exited
  {
    assert Enabled(states[i], actions[i]);
    assert id in states[i + 1].records && states[i + 1].records[id].state == Exited;
    RunKeepsInv(states, actions, i + 1);
    assert RecordOk(states[i + 1], id);
    ExitedAndDeletedAreFinal(states, actions, i + 1, j, id);
  }
}
