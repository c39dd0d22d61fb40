/**
 Pod sandboxes (crates/cri/src/server.rs:697-922 and 1037-1086) with the host resources they
 own: a network namespace made and torn down by crates/sandbox/src/cni.rs:150-278 and a
 PID/IPC namespace holder process.
 */
module Sandboxes {
  import opened Bytes

  type Id = nat
  type Pid = int

  /** The pod a sandbox belongs to: (namespace, name, uid). */
  type Pod = (string, string, string)

  datatype Netns = Host | Named(id: Id)

  datatype Sandbox = Sandbox(
    pod: Pod,
    ready: bool,
    netns: Netns,
    hostNetwork: bool,
    hostPid: bool,
    hostIpc: bool,
    sharedPid: bool,
    sharedIpc: bool,
    holder: Option<Pid>,
    mapped: bool)

  datatype Mode = PodMode | ContainerMode | NodeMode | TargetMode

  /** The user namespace options: of each mapping, the container id it starts at. */
  datatype Userns = Userns(mode: Mode, uids: seq<nat>, gids: seq<nat>)

  datatype Options = Options(network: Mode, pid: Mode, ipc: Mode, userns: Option<Userns>)

  /** What RunPodSandbox is asked for. */
  datatype Request = Request(pod: Pod, opts: Option<Options>) {
    predicate HostNetwork() { opts.Some? && opts.value.network == NodeMode }

    predicate HostPid() { opts.Some? && opts.value.pid == NodeMode }

    predicate HostIpc() { opts.Some? && opts.value.ipc == NodeMode }

    predicate SharedPid() { !HostPid() && opts.Some? && opts.value.pid == PodMode }

    predicate SharedIpc() { !HostIpc() && opts.Some? && opts.value.ipc == PodMode }

    predicate Mapped() { opts.Some? && opts.value.userns.Some? && opts.value.userns.value.mode == PodMode }

    /** Only the host's or the pod's user namespace, the latter with one mapping each, from id 0. */
    predicate UsernsValid() {
      opts.Some? && opts.value.userns.Some? ==>
        var u := opts.value.userns.value;
        u.mode == NodeMode || (u.mode == PodMode && u.uids == [0] && u.gids == [0])
    }
  }

  /** How `create_netns` and then `setup` went. */
  datatype Cni = CreateFailed | SetupFailed | Up

  /** The sandbox records and the host's live holders and named network namespaces. */
  datatype Node = Node(records: map<Id, Sandbox>, holders: set<Pid>, netns: set<Id>, issued: set<Id>)

  datatype Action =
    | Run(id: Id, req: Request, cni: Cni, spawned: Option<Pid>)
    | Stop(id: Id)
    | Remove(id: Id)

  /** Every Ready sandbox of the same pod, other than `id`, becomes NotReady. */
  function Demoted(records: map<Id, Sandbox>, id: Id, pod: Pod): map<Id, Sandbox> {
    map k | k in records ::
      if k != id && records[k].pod == pod then records[k].(ready := false) else records[k]
  }

  function Holder(req: Request, spawned: Option<Pid>): Option<Pid> {
    if req.SharedPid() || req.SharedIpc() then spawned else None
  }

  function NewSandbox(id: Id, req: Request, spawned: Option<Pid>): Sandbox {
    Sandbox(req.pod, true, if req.HostNetwork() then Host else Named(id), req.HostNetwork(),
            req.HostPid(), req.HostIpc(), req.SharedPid(), req.SharedIpc(), Holder(req, spawned), req.Mapped())
  }

  predicate Accepted(req: Request, cni: Cni) {
    req.UsernsValid() && (req.HostNetwork() || cni.Up?)
  }

  function AsSet(p: Option<Pid>): set<Pid> {
    if p.Some? then {p.value} else {}
  }

  /** Ids come from a clock-salted hash and are new; the kernel hands out pids that are not in use. */
  predicate Enabled(n: Node, a: Action) {
    a.Run? ==> a.id !in n.issued && (a.spawned.Some? ==> a.spawned.value !in n.holders)
  }

  function Next(n: Node, a: Action): Node {
    match a
    case Run(id, req, cni, spawned) =>
      var n := n.(issued := n.issued + {id});
      if !Accepted(req, cni) then n
      else
        n.(records := Demoted(n.records, id, req.pod)[id := NewSandbox(id, req, spawned)],
           holders := n.holders + AsSet(Holder(req, spawned)),
           netns := if req.HostNetwork() then n.netns else n.netns + {id})
    case Stop(id) =>
      if id !in n.records then n
      else
        var rec := n.records[id];
        n.(records := n.records[id := rec.(ready := false, holder := None)],
           holders := n.holders - AsSet(rec.holder))
    case Remove(id) =>
      if id !in n.records then n
      else
        var rec := n.records[id];
        n.(records := n.records - {id},
           holders := n.holders - AsSet(rec.holder),
           netns := if rec.netns != Host then n.netns - {id} else n.netns)
  }

  const BOOT := Node(map[], {}, {}, {})

  ghost predicate IsRun(states: seq<Node>, actions: seq<Action>) {
    && |states| == |actions| + 1 && states[0] == BOOT
    && forall i {:trigger actions[i]} | 0 <= i < |actions| :: Enabled(states[i], actions[i]) && states[i + 1] == Next(states[i], actions[i])
  }

  // ---- what every run keeps ----

  ghost predicate OneReadyPerPod(records: map<Id, Sandbox>) {
    forall a <- records, b <- records | records[a].ready && records[b].ready && records[a].pod == records[b].pod :: a == b
  }

  predicate Owns(records: map<Id, Sandbox>, id: Id, pid: Pid) {
    id in records && records[id].holder == Some(pid)
  }

  ghost predicate HoldersMatch(n: Node) {
    && (forall pid :: pid in n.holders <==> exists id :: Owns(n.records, id, pid))
    && (forall a, b, pid | Owns(n.records, a, pid) && Owns(n.records, b, pid) :: a == b)
  }

  /** A sandbox's namespace is live exactly while its record is there and not on the host network. */
  predicate NetnsOk(n: Node, id: Id) {
    && (id in n.records ==> n.records[id].netns == if n.records[id].hostNetwork then Host else Named(id))
    && (id in n.netns <==> id in n.records && !n.records[id].hostNetwork)
  }

  ghost predicate NetnsMatch(n: Node) {
    forall id :: NetnsOk(n, id)
  }

  /** A namespace is the host's or shared, not both. */
  predicate Consistent(s: Sandbox) { !(s.hostPid && s.sharedPid) && !(s.hostIpc && s.sharedIpc) }

  ghost predicate Inv(n: Node) {
    && n.records.Keys <= n.issued && (forall id <- n.records :: Consistent(n.records[id]))
    && OneReadyPerPod(n.records) && HoldersMatch(n) && NetnsMatch(n)
  }

  /** Only a new sandbox gains a holder, and only the sandbox acted on loses one. */
  lemma OwnershipStep(n: Node, a: Action, id: Id, pid: Pid)
    requires Inv(n)
    ensures Owns(Next(n, a).records, id, pid) <==>
            if a.Run? && id == a.id && Accepted(a.req, a.cni) then Holder(a.req, a.spawned) == Some(pid)
            else Owns(n.records, id, pid) && !(id == a.id && !a.Run?)
  {
  }

  /** Whose holder a step ends or starts. */
  lemma HolderStep(n: Node, a: Action, pid: Pid)
    requires Inv(n) && Enabled(n, a)
    ensures pid in Next(n, a).holders <==>
            || (pid in n.holders && !(!a.Run? && Owns(n.records, a.id, pid)))
            || (a.Run? && Accepted(a.req, a.cni) && Holder(a.req, a.spawned) == Some(pid))
  {
  }

  lemma HoldersKept(n: Node, a: Action)
    requires Inv(n) && Enabled(n, a)
    ensures HoldersMatch(Next(n, a))
  {
    var n' := Next(n, a);
    forall id, pid {
      OwnershipStep(n, a, id, pid);
    }
    forall pid ensures pid in n'.holders <==> exists id :: Owns(n'.records, id, pid) {
      HolderStep(n, a, pid);
      if id :| Owns(n.records, id, pid) && id != a.id {
        assert Owns(n'.records, id, pid);
      }
      if a.Run? && Accepted(a.req, a.cni) && Holder(a.req, a.spawned) == Some(pid) {
        assert Owns(n'.records, a.id, pid);
      }
    }
    hide Next;
    if a.Run? && Accepted(a.req, a.cni) && Holder(a.req, a.spawned).Some? {
      assert forall id :: !Owns(n.records, id, a.spawned.value);
    }
  }

  lemma ReadyKept(n: Node, a: Action)
    requires Inv(n) && Enabled(n, a)
    ensures OneReadyPerPod(Next(n, a).records)
  {
    hide HoldersMatch, NetnsMatch, Accepted;
    if a.Run? && Accepted(a.req, a.cni) {
      DemotedReady(n.records, a.id, a.req.pod);
    }
  }

  /** After the demotion no other sandbox of the pod is Ready. */
  lemma DemotedReady(records: map<Id, Sandbox>, id: Id, pod: Pod)
    requires OneReadyPerPod(records)
    ensures OneReadyPerPod(Demoted(records, id, pod))
    ensures forall k <- Demoted(records, id, pod) | k != id && Demoted(records, id, pod)[k].ready ::
              Demoted(records, id, pod)[k].pod != pod
  {
  }

  lemma NetnsKeptAt(n: Node, a: Action, id: Id)
    requires Enabled(n, a) && n.records.Keys <= n.issued && NetnsOk(n, id) && NetnsOk(n, a.id)
    ensures NetnsOk(Next(n, a), id)
  {
  }

  lemma NetnsKept(n: Node, a: Action)
    requires Inv(n) && Enabled(n, a)
    ensures NetnsMatch(Next(n, a))
  {
    hide Next, OneReadyPerPod, HoldersMatch, NetnsOk;
    forall id ensures NetnsOk(Next(n, a), id) {
      NetnsKeptAt(n, a, id);
    }
  }

  lemma RecordsKept(n: Node, a: Action)
    requires Inv(n) && Enabled(n, a)
    ensures Next(n, a).records.Keys <= Next(n, a).issued
    ensures forall id <- Next(n, a).records :: Consistent(Next(n, a).records[id])
  {
    hide OneReadyPerPod, HoldersMatch, NetnsMatch;
  }

  lemma NextKeepsInv(n: Node, a: Action)
    requires Inv(n) && Enabled(n, a)
    ensures Inv(Next(n, a))
  {
    HoldersKept(n, a);
    ReadyKept(n, a);
    NetnsKept(n, a);
    RecordsKept(n, a);
    hide Next, OneReadyPerPod, HoldersMatch, NetnsMatch;
  }

  /**
   In every run of sandbox run, stop and remove, with CNI setup and holder spawning failing at
   will: a pod has at most one Ready sandbox, the live holders are exactly the pids in records
   with none in two records, and the live network namespaces are exactly those of the records
   that are not on the host network.
   */
  lemma {:induction false} RunKeepsInv(states: seq<Node>, actions: seq<Action>, i: nat)
    requires IsRun(states, actions) && i < |states|
    ensures Inv(states[i])
  {
    if i > 0 {
      RunKeepsInv(states, actions, i - 1);
      NextKeepsInv(states[i - 1], actions[i - 1]);
    }
  }

  /** A rejected RunPodSandbox, and a pod removed whole, leave nothing behind on the host. */
  lemma NothingLeaks(states: seq<Node>, actions: seq<Action>, i: nat)
    requires IsRun(states, actions) && i < |states|
    ensures states[i].records == map[] ==> states[i].holders == {} && states[i].netns == {}
    ensures i < |actions| && actions[i].Run? && !Accepted(actions[i].req, actions[i].cni) ==>
              && states[i + 1].records == states[i].records
              && states[i + 1].holders == states[i].holders && states[i + 1].netns == states[i].netns
  {
    RunKeepsInv(states, actions, i);
    var n := states[i];
    if n.records == map[] {
      forall pid ensures pid !in n.holders {
        assert forall id :: !Owns(n.records, id, pid);
      }
      forall id ensures id !in n.netns {
        assert NetnsOk(n, id);
      }
      assert n.holders == {} && n.netns == {};
    }
  }

  // ---- the demotion, one record at a time ----

  function DemotedRecord(s: Sandbox, pod: Pod): Sandbox {
    if s.pod == pod then s.(ready := false) else s
  }

  /** Demoted as far as the listing has got. */
  ghost function DemotedAmong(records: map<Id, Sandbox>, ids: seq<Id>, id: Id, pod: Pod): map<Id, Sandbox> {
    map k | k in records :: if k in ids && k != id then DemotedRecord(records[k], pod) else records[k]
  }

  lemma NoneDemoted(records: map<Id, Sandbox>, id: Id, pod: Pod)
    ensures DemotedAmong(records, [], id, pod) == records
  {
    hide DemotedRecord;
  }

  lemma AllDemoted(records: map<Id, Sandbox>, ids: seq<Id>, id: Id, pod: Pod)
    requires (set k <- ids) == records.Keys
    ensures DemotedAmong(records, ids[..|ids|], id, pod) == Demoted(records, id, pod)
  {
    assert ids[..|ids|] == ids;
    assert forall k <- records :: k in (set k <- ids);
  }

  lemma DemotedStep(records: map<Id, Sandbox>, ids: seq<Id>, i: nat, id: Id, pod: Pod)
    requires i < |ids| && ids[i] in records
    ensures var was, k := DemotedAmong(records, ids[..i], id, pod), ids[i];
            && k in was
            && DemotedAmong(records, ids[..i + 1], id, pod)
               == if k != id && was[k].ready && was[k].pod == pod then was[k := was[k].(ready := false)] else was
  {
    assert ids[..i + 1] == ids[..i] + [ids[i]];
    var was, now := DemotedAmong(records, ids[..i], id, pod), DemotedAmong(records, ids[..i + 1], id, pod);
    forall k <- records | k != ids[i] ensures now[k] == was[k] {
      assert k in ids[..i + 1] <==> k in ids[..i];
    }
  }

  // ---- the service ----

  datatype Status = Done | InvalidArgument | Unavailable

  class PodSvc {
    var records: map<Id, Sandbox>
    var holders: set<Pid>
    var netns: set<Id>
    var issued: set<Id>

    function Snapshot(): Node
      reads this
    {
      Node(records, holders, netns, issued)
    }

    constructor ()
      ensures Snapshot() == BOOT
    {
      records, holders, netns, issued := map[], {}, {}, {};
    }

    /** The loop that demotes prior sandboxes of the pod, over the listing `existing` of the records. */
    method Demote(existing: seq<Id>, id: Id, pod: Pod)
      requires (set k <- existing) == records.Keys
      modifies this`records
      ensures records == Demoted(old(records), id, pod)
    {
      ghost var before := records;
      NoneDemoted(before, id, pod);
      for i := 0 to |existing|
        invariant records == DemotedAmong(before, existing[..i], id, pod)
      {
        var other := existing[i];
        assert other in (set k <- existing);
        DemotedStep(before, existing, i, id, pod);
        if other != id && records[other].ready && records[other].pod == pod {
          records := records[other := records[other].(ready := false)];
        }
      }
      AllDemoted(before, existing, id, pod);
    }

    method RunPodSandbox(existing: seq<Id>, id: Id, req: Request, cni: Cni, spawned: Option<Pid>) returns (status: Status)
      requires Inv(Snapshot()) && Enabled(Snapshot(), Run(id, req, cni, spawned))
      requires (set k <- existing) == records.Keys
      modifies this
      ensures Snapshot() == Next(old(Snapshot()), Run(id, req, cni, spawned))
      ensures status == (if !req.UsernsValid() then InvalidArgument
                         else if Accepted(req, cni) then Done else Unavailable)
    {
      assert NetnsOk(Snapshot(), id);
      issued := issued + {id};
      if !req.UsernsValid() {
        return InvalidArgument;
      }
      var ns := Host;
      if !req.HostNetwork() {
        if cni != CreateFailed {
          netns := netns + {id};
        }
        if cni != Up {
          netns := netns - {id};  // teardown
          return Unavailable;
        }
        ns := Named(id);
      }
      var holder: Option<Pid> := None;
      if req.SharedPid() || req.SharedIpc() {
        holder := spawned;
        holders := holders + AsSet(spawned);
      }
      Demote(existing, id, req.pod);
      records := records[id := Sandbox(req.pod, true, ns, req.HostNetwork(), req.HostPid(), req.HostIpc(),
                                  req.SharedPid(), req.SharedIpc(), holder, req.Mapped())];
      status := Done;
    }

    method StopPodSandbox(id: Id)
      modifies this
      ensures Snapshot() == Next(old(Snapshot()), Stop(id))
    {
      if id in records {
        var rec := records[id].(ready := false);
        if rec.holder.Some? {
          holders := holders - {rec.holder.value};
          rec := rec.(holder := None);
        }
        records := records[id := rec];
      }
    }

    method RemovePodSandbox(id: Id)
      modifies this
      ensures Snapshot() == Next(old(Snapshot()), Remove(id))
    {
      if id in records {
        var rec := records[id];
        if rec.netns != Host {
          netns := netns - {id};
        }
        if rec.holder.Some? {
          holders := holders - {rec.holder.value};
        }
      }
      records := records - {id};
    }
  }
}
