/**
 The namespace list of a container's OCI spec: the paths CreateContainer derives from the
 sandbox (crates/cri/src/server.rs:1196-1208) and the rewrites `generate_spec` applies in order
 (crates/runtime/src/bundle.rs:645-666, 698-730 and 991-1054).
 */
module Namespaces {
  import opened Bytes
  import Sandboxes

  datatype Kind = Pid | Ipc | Network | User | Uts | Mount | Cgroup

  /** The paths that occur: the word "host", a CNI network namespace, a file under a holder's /proc. */
  datatype Where = HostWord | NetnsFile(id: nat) | HolderNs(pid: int, kind: Kind)

  datatype Ns = Ns(kind: Kind, path: Option<Where>)

  type Spec = seq<Ns>

  /** The entries of one kind, in order. */
  function Entries(ns: Spec, k: Kind): Spec {
    if ns == [] then [] else (if ns[0].kind == k then [ns[0]] else []) + Entries(ns[1..], k)
  }

  /** `namespaces.retain(|n| n.typ() != k)`. */
  function Without(ns: Spec, k: Kind): Spec {
    if ns == [] then [] else (if ns[0].kind == k then [] else [ns[0]]) + Without(ns[1..], k)
  }

  function SetNetworkNamespace(ns: Spec, path: Option<Where>): Spec {
    var ns := Without(ns, Network);
    if path.None? || path == Some(HostWord) then ns else ns + [Ns(Network, path)]
  }

  function ApplyHostNamespaces(ns: Spec, hostPid: bool, hostIpc: bool): Spec {
    var ns := if hostPid then Without(ns, Pid) else ns;
    if hostIpc then Without(ns, Ipc) else ns
  }

  function ApplyUserNamespace(ns: Spec, mapped: bool): Spec {
    if mapped && Entries(ns, User) == [] then ns + [Ns(User, None)] else ns
  }

  function JoinNamespace(ns: Spec, k: Kind, path: Option<Where>): Spec {
    if path.None? then ns else Without(ns, k) + [Ns(k, path)]
  }

  /** The namespace fields of a `ContainerRequest`. */
  datatype Request = Request(
    netnsPath: Option<Where>, hostPid: bool, hostIpc: bool, mapped: bool,
    pidNsPath: Option<Where>, ipcNsPath: Option<Where>)

  /** The rewrites in the order of `generate_spec`. */
  function Generate(base: Spec, req: Request): Spec {
    var ns := SetNetworkNamespace(base, req.netnsPath);
    var ns := ApplyHostNamespaces(ns, req.hostPid, req.hostIpc);
    var ns := ApplyUserNamespace(ns, req.mapped);
    var ns := JoinNamespace(ns, Pid, req.pidNsPath);
    JoinNamespace(ns, Ipc, req.ipcNsPath)
  }

  // ---- from the sandbox to the request ----

  function HolderPath(shared: bool, holder: Option<int>, k: Kind): Option<Where> {
    if shared && holder.Some? then Some(HolderNs(holder.value, k)) else None
  }

  /** CreateContainer. */
  function RequestFor(s: Sandboxes.Sandbox): Request {
    var netns := match s.netns case Host => HostWord case Named(id) => NetnsFile(id);
    Request(Some(netns), s.hostPid, s.hostIpc, s.mapped,
            HolderPath(s.sharedPid, s.holder, Pid), HolderPath(s.sharedIpc, s.holder, Ipc))
  }

  // ---- what comes out ----

  lemma {:induction false} EntriesWithout(ns: Spec, k: Kind, j: Kind)
    ensures Entries(Without(ns, k), j) == if j == k then [] else Entries(ns, j)
  {
    if ns != [] {
      EntriesWithout(ns[1..], k, j);
      if ns[0].kind != k {
        var w := [ns[0]] + Without(ns[1..], k);
        assert w[1..] == Without(ns[1..], k);
      } else {
        assert [] + Without(ns[1..], k) == Without(ns[1..], k);
        assert j != k ==> [] + Entries(ns[1..], j) == Entries(ns[1..], j);
      }
    }
  }

  lemma {:induction false} EntriesAppend(ns: Spec, e: Ns, j: Kind)
    ensures Entries(ns + [e], j) == Entries(ns, j) + if e.kind == j then [e] else []
  {
    var last := if e.kind == j then [e] else [];
    if ns == [] {
      assert [e][1..] == [] && ns + [e] == [e];
      assert last + [] == last && [] + last == last;
    } else {
      var first := if ns[0].kind == j then [ns[0]] else [];
      assert (ns + [e])[0] == ns[0] && (ns + [e])[1..] == ns[1..] + [e];
      EntriesAppend(ns[1..], e, j);
      assert first + (Entries(ns[1..], j) + last) == first + Entries(ns[1..], j) + last;
    }
  }

  lemma SetNetworkEntries(ns: Spec, path: Option<Where>, j: Kind)
    ensures Entries(SetNetworkNamespace(ns, path), j)
            == if j != Network then Entries(ns, j)
               else if path.None? || path == Some(HostWord) then [] else [Ns(Network, path)]
  {
    EntriesWithout(ns, Network, j);
    EntriesAppend(Without(ns, Network), Ns(Network, path), j);
  }

  lemma HostEntries(ns: Spec, hostPid: bool, hostIpc: bool, j: Kind)
    ensures Entries(ApplyHostNamespaces(ns, hostPid, hostIpc), j)
            == if (j == Pid && hostPid) || (j == Ipc && hostIpc) then [] else Entries(ns, j)
  {
    EntriesWithout(ns, Pid, j);
    EntriesWithout(ns, Ipc, j);
    EntriesWithout(Without(ns, Pid), Ipc, j);
  }

  lemma UserEntries(ns: Spec, mapped: bool, j: Kind)
    ensures Entries(ApplyUserNamespace(ns, mapped), j)
            == if j == User && mapped && Entries(ns, User) == [] then [Ns(User, None)] else Entries(ns, j)
  {
    EntriesAppend(ns, Ns(User, None), j);
  }

  lemma JoinEntries(ns: Spec, k: Kind, path: Option<Where>, j: Kind)
    ensures Entries(JoinNamespace(ns, k, path), j) == if j == k && path.Some? then [Ns(k, path)] else Entries(ns, j)
  {
    EntriesWithout(ns, k, j);
    EntriesAppend(Without(ns, k), Ns(k, path), j);
  }

  /** The entries of every kind after the whole pipeline, for any request. */
  lemma GenerateEntries(base: Spec, req: Request, j: Kind)
    ensures Entries(Generate(base, req), j)
            == match j
               case Network =>
                 if req.netnsPath.None? || req.netnsPath == Some(HostWord) then [] else [Ns(Network, req.netnsPath)]
               case Pid =>
                 if req.pidNsPath.Some? then [Ns(Pid, req.pidNsPath)] else if req.hostPid then [] else Entries(base, Pid)
               case Ipc =>
                 if req.ipcNsPath.Some? then [Ns(Ipc, req.ipcNsPath)] else if req.hostIpc then [] else Entries(base, Ipc)
               case User => if req.mapped && Entries(base, User) == [] then [Ns(User, None)] else Entries(base, User)
               case _ => Entries(base, j)
  {
    var a := SetNetworkNamespace(base, req.netnsPath);
    var b := ApplyHostNamespaces(a, req.hostPid, req.hostIpc);
    var c := ApplyUserNamespace(b, req.mapped);
    var d := JoinNamespace(c, Pid, req.pidNsPath);
    SetNetworkEntries(base, req.netnsPath, j);
    SetNetworkEntries(base, req.netnsPath, User);
    HostEntries(a, req.hostPid, req.hostIpc, j);
    HostEntries(a, req.hostPid, req.hostIpc, User);
    UserEntries(b, req.mapped, j);
    JoinEntries(c, Pid, req.pidNsPath, j);
    JoinEntries(d, Ipc, req.ipcNsPath, j);
  }

  /** What a container of the sandbox `s` gets for the kind `j`. */
  function ContainerEntries(base: Spec, s: Sandboxes.Sandbox, j: Kind): Spec {
    Entries(Generate(base, RequestFor(s)), j)
  }

  /**
   For every namespace request, holder outcome and base spec with at most one entry per kind,
   a container's spec has at most one entry per kind.  Its PID and IPC entries are absent for
   host mode, the holder's when shared and a holder runs, else the base's private one; its
   network entry is the pod's, or absent on the host network.
   */
  lemma ContainerNamespaces(base: Spec, id: nat, req: Sandboxes.Request, spawned: Option<int>, j: Kind)
    requires forall k :: |Entries(base, k)| <= 1
    ensures var got := ContainerEntries(base, Sandboxes.NewSandbox(id, req, spawned), j);
            var mode := if req.opts.None? then Sandboxes.ContainerMode
                        else match j
                             case Pid => req.opts.value.pid
                             case Ipc => req.opts.value.ipc
                             case _ => req.opts.value.network;
            && |got| <= 1
            && (j == Pid || j == Ipc ==>
                  got == match mode
                         case NodeMode => []
                         case PodMode => if spawned.Some? then [Ns(j, Some(HolderNs(spawned.value, j)))] else Entries(base, j)
                         case _ => Entries(base, j))
            && (j == Network ==> got == if mode == Sandboxes.NodeMode then [] else [Ns(Network, Some(NetnsFile(id)))])
            && (j == User ==>
                  got == if req.Mapped() && Entries(base, User) == [] then [Ns(User, None)] else Entries(base, User))
  {
    hide Generate, Entries;
    GenerateEntries(base, RequestFor(Sandboxes.NewSandbox(id, req, spawned)), j);
  }

  /**
   In every run of sandbox run, stop and remove: a container created in a sandbox joins the PID
   and IPC namespaces of a holder only if that holder is alive and no other sandbox's, and
   a network namespace only if it is live; it gets no private PID or IPC namespace in host mode.
   */
  lemma ContainersJoinLiveNamespaces(
    base: Spec, states: seq<Sandboxes.Node>, actions: seq<Sandboxes.Action>, i: nat, id: nat, j: Kind)
    requires Sandboxes.IsRun(states, actions) && i < |states| && id in states[i].records
    ensures var n := states[i];
            var s, got := n.records[id], ContainerEntries(base, n.records[id], j);
            && (j == Pid || j == Ipc ==>
                  var host, shared := if j == Pid then s.hostPid else s.hostIpc, if j == Pid then s.sharedPid else s.sharedIpc;
                  if host then got == []
                  else if shared && s.holder.Some? then
                    && got == [Ns(j, Some(HolderNs(s.holder.value, j)))] && s.holder.value in n.holders
                    && forall other <- n.records | n.records[other].holder == s.holder :: other == id
                  else got == Entries(base, j))
            && (j == Network ==>
                  if s.hostNetwork then got == [] else got == [Ns(Network, Some(NetnsFile(id)))] && id in n.netns)
  {
    hide Generate, Entries;
    Sandboxes.RunKeepsInv(states, actions, i);
    var n := states[i];
    var s := n.records[id];
    GenerateEntries(base, RequestFor(s), j);
    assert Sandboxes.Consistent(s) && Sandboxes.NetnsOk(n, id);
    if s.holder.Some? {
      assert Sandboxes.Owns(n.records, id, s.holder.value);
      forall other <- n.records | n.records[other].holder == s.holder ensures other == id {
        assert Sandboxes.Owns(n.records, other, s.holder.value);
      }
    }
  }

  /** The order and the earlier facts matter: a request both host and joined would end up joined. */
  lemma JoinWouldOverrideHost(base: Spec, pid: int)
    ensures Entries(Generate(base, Request(Some(HostWord), true, false, false, Some(HolderNs(pid, Pid)), None)), Pid)
            == [Ns(Pid, Some(HolderNs(pid, Pid)))]
    ensures forall id, req, spawned ::
              var r := RequestFor(Sandboxes.NewSandbox(id, req, spawned));
              !(r.hostPid && r.pidNsPath.Some?) && !(r.hostIpc && r.ipcNsPath.Some?)
  {
    GenerateEntries(base, Request(Some(HostWord), true, false, false, Some(HolderNs(pid, Pid)), None), Pid);
  }

  // ---- the spec as it is rewritten ----

  /** The namespace list of a `Spec`, which each helper of `generate_spec` edits in place. */
  class OciSpec {
    var namespaces: Spec

    constructor (base: Spec)
      ensures namespaces == base
    {
      namespaces := base;
    }

    method Retain(k: Kind)
      modifies this
      ensures namespaces == Without(old(namespaces), k)
    {
      namespaces := Without(namespaces, k);
    }

    method Push(n: Ns)
      modifies this
      ensures namespaces == old(namespaces) + [n]
    {
      namespaces := namespaces + [n];
    }

    method Join(k: Kind, path: Option<Where>)
      modifies this
      ensures namespaces == JoinNamespace(old(namespaces), k, path)
    {
      if path.Some? {
        Retain(k);
        Push(Ns(k, path));
      }
    }

    /** The namespace rewrites of `generate_spec`, one after the other. */
    method GenerateSpec(req: Request)
      modifies this
      ensures namespaces == Generate(old(namespaces), req)
    {
      hide Without, Entries;
      Retain(Network);
      if req.netnsPath.Some? && req.netnsPath != Some(HostWord) {
        Push(Ns(Network, req.netnsPath));
      }
      if req.hostPid {
        Retain(Pid);
      }
      if req.hostIpc {
        Retain(Ipc);
      }
      if req.mapped && Entries(namespaces, User) == [] {
        Push(Ns(User, None));
      }
      Join(Pid, req.pidNsPath);
      Join(Ipc, req.ipcNsPath);
    }
  }
}
