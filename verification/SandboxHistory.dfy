/**
 A sandbox record as the history of the calls made: in every run of the machine in
 `Sandboxes`, what is in the table follows from the actions alone
 (crates/cri/src/server.rs:696-922 and 1037-1086).
 */
module SandboxHistory {
  import opened Bytes
  import opened Runs
  import opened Sandboxes

  /**
   RunPodSandbox goes through: the user namespace is the host's, or the pod's with exactly one
   mapping of users and one of groups, both from id 0; and the pod is on the host network or its
   CNI network came up.
   */
  predicate GoesThrough(a: Action) {
    && a.Run?
    && match a.req.opts
       case None => a.cni == Up
       case Some(opts) =>
         && (opts.network == NodeMode || a.cni == Up)
         && match opts.userns
            case None => true
            case Some(Userns(NodeMode, _, _)) => true
            case Some(Userns(PodMode, uids, gids)) => |uids| == |gids| == 1 && uids[0] == gids[0] == 0
            case _ => false
  }

  predicate StopsOrRemoves(a: Action, id: Id) { a == Stop(id) || a == Remove(id) }

  function ComesUp(actions: seq<Action>, id: Id): nat -> bool {
    (k: nat) => k < |actions| && GoesThrough(actions[k]) && actions[k].id == id
  }

  function Removes(actions: seq<Action>, id: Id): nat -> bool {
    (k: nat) => k < |actions| && actions[k] == Remove(id)
  }

  function RunsPod(actions: seq<Action>, id: Id, pod: Pod): nat -> bool {
    (k: nat) => k < |actions| && GoesThrough(actions[k]) && actions[k].id == id && actions[k].req.pod == pod
  }

  /** The sandbox is stopped or removed, or another one of its pod is run. */
  function Retires(actions: seq<Action>, id: Id, pod: Pod): nat -> bool {
    (k: nat) => k < |actions| && (StopsOrRemoves(actions[k], id) || (GoesThrough(actions[k]) && actions[k].req.pod == pod))
  }

  /** A run that wants a shared PID or IPC namespace, for which the holder `pid` was spawned. */
  function RunsHolder(actions: seq<Action>, id: Id, pid: Pid): nat -> bool {
    (k: nat) =>
      && k < |actions| && GoesThrough(actions[k]) && actions[k].id == id && actions[k].spawned == Some(pid)
      && actions[k].req.opts.Some? && (actions[k].req.opts.value.pid == PodMode || actions[k].req.opts.value.ipc == PodMode)
  }

  function DropsHolder(actions: seq<Action>, id: Id): nat -> bool {
    (k: nat) => k < |actions| && StopsOrRemoves(actions[k], id)
  }

  lemma AcceptedMeans(a: Action)
    requires a.Run?
    ensures Accepted(a.req, a.cni) <==> GoesThrough(a)
  {
  }

  predicate ReadyFor(n: Node, id: Id, pod: Pod) { id in n.records && n.records[id].ready && n.records[id].pod == pod }

  /** One step, seen from one sandbox. */
  lemma HistoryStep(n: Node, a: Action, id: Id, pod: Pod)
    requires Enabled(n, a) && n.records.Keys <= n.issued
    ensures var n' := Next(n, a);
            && (id in n'.records <==> (GoesThrough(a) && a.id == id) || (id in n.records && a != Remove(id)))
            && (ReadyFor(n', id, pod) <==>
                  || (GoesThrough(a) && a.id == id && a.req.pod == pod)
                  || (ReadyFor(n, id, pod) && !StopsOrRemoves(a, id) && !(GoesThrough(a) && a.req.pod == pod)))
  {
    if a.Run? {
      AcceptedMeans(a);
    }
    hide GoesThrough, Accepted;
  }

  lemma HolderStep(n: Node, a: Action, id: Id, pid: Pid)
    requires Enabled(n, a) && n.records.Keys <= n.issued
    ensures Owns(Next(n, a).records, id, pid) <==>
            || (&& GoesThrough(a) && a.id == id && a.spawned == Some(pid)
                && a.req.opts.Some? && (a.req.opts.value.pid == PodMode || a.req.opts.value.ipc == PodMode))
            || (Owns(n.records, id, pid) && !StopsOrRemoves(a, id))
  {
    if a.Run? {
      AcceptedMeans(a);
    }
    hide GoesThrough, Accepted;
  }

  /**
   In every run: a sandbox is there exactly when its RunPodSandbox went through and it has not
   been removed since; it is Ready exactly when besides it has not been stopped since and no
   later RunPodSandbox of the same pod went through; and it has the holder `pid` exactly when
   that was spawned for it, its PID or IPC namespace being shared, and it has not been stopped
   or removed since.
   */
  lemma {:induction false} RecordFollowsTheCalls(
    states: seq<Node>, actions: seq<Action>, i: nat, id: Id, pod: Pod, pid: Pid)
    requires IsRun(states, actions) && i < |states|
    ensures id in states[i].records <==> Since(i, ComesUp(actions, id), Removes(actions, id))
    ensures ReadyFor(states[i], id, pod) <==> Since(i, RunsPod(actions, id, pod), Retires(actions, id, pod))
    ensures Owns(states[i].records, id, pid) <==> Since(i, RunsHolder(actions, id, pid), DropsHolder(actions, id))
  {
    hide Next, Enabled, OneReadyPerPod, HoldersMatch, NetnsMatch, GoesThrough, Since;
    if i == 0 {
      NothingYet(ComesUp(actions, id), Removes(actions, id));
      NothingYet(RunsPod(actions, id, pod), Retires(actions, id, pod));
      NothingYet(RunsHolder(actions, id, pid), DropsHolder(actions, id));
    } else {
      RecordFollowsTheCalls(states, actions, i - 1, id, pod, pid);
      RunKeepsInv(states, actions, i - 1);
      HistoryStep(states[i - 1], actions[i - 1], id, pod);
      HolderStep(states[i - 1], actions[i - 1], id, pid);
      SinceNext(i - 1, ComesUp(actions, id), Removes(actions, id));
      SinceNext(i - 1, RunsPod(actions, id, pod), Retires(actions, id, pod));
      SinceNext(i - 1, RunsHolder(actions, id, pid), DropsHolder(actions, id));
    }
  }

  // ---- the fields that never change ----

  /** What a request asks for; without options, a network for the pod and each container's own PID and IPC namespaces. */
  function OptionsOf(req: Request): Options {
    if req.opts.Some? then req.opts.value else Options(PodMode, ContainerMode, ContainerMode, None)
  }

  /** The record shows what its request asked for. */
  predicate Shows(s: Sandbox, id: Id, req: Request) {
    var opts := OptionsOf(req);
    && s.pod == req.pod
    && s.hostNetwork == (opts.network == NodeMode) && s.netns == (if opts.network == NodeMode then Host else Named(id))
    && s.hostPid == (opts.pid == NodeMode) && s.sharedPid == (opts.pid == PodMode)
    && s.hostIpc == (opts.ipc == NodeMode) && s.sharedIpc == (opts.ipc == PodMode)
    && s.mapped == (opts.userns.Some? && opts.userns.value.mode == PodMode)
  }

  lemma ShowsStep(n: Node, a: Action, id: Id, req: Request)
    requires Enabled(n, a) && n.records.Keys <= n.issued && id in Next(n, a).records
    ensures || (a.Run? && GoesThrough(a) && a.id == id && Shows(Next(n, a).records[id], id, a.req))
            || (id in n.records && (Shows(n.records[id], id, req) ==> Shows(Next(n, a).records[id], id, req)))
  {
    if a.Run? {
      AcceptedMeans(a);
    }
    hide GoesThrough, Accepted;
  }

  ghost predicate ShownBy(actions: seq<Action>, k: nat, s: Sandbox, id: Id) {
    k < |actions| && actions[k].Run? && GoesThrough(actions[k]) && actions[k].id == id && Shows(s, id, actions[k].req)
  }

  /** In every run a record shows what its own RunPodSandbox asked for. */
  lemma {:induction false} RecordShowsItsRequest(states: seq<Node>, actions: seq<Action>, i: nat, id: Id)
    requires IsRun(states, actions) && i < |states| && id in states[i].records
    ensures exists k: nat :: k < i && ShownBy(actions, k, states[i].records[id], id)
  {
    hide Next, Enabled, OneReadyPerPod, HoldersMatch, NetnsMatch, GoesThrough, Shows;
    if i > 0 {
      RunKeepsInv(states, actions, i - 1);
      assert Enabled(states[i - 1], actions[i - 1]);
      if !ShownBy(actions, i - 1, states[i].records[id], id) {
        ShowsStep(states[i - 1], actions[i - 1], id, Request(("", "", ""), None));
        RecordShowsItsRequest(states, actions, i - 1, id);
        var k: nat :| k < i - 1 && ShownBy(actions, k, states[i - 1].records[id], id);
        ShowsStep(states[i - 1], actions[i - 1], id, actions[k].req);
        assert ShownBy(actions, k, states[i].records[id], id);
      }
    }
  }
}
