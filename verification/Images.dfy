/**
 Image records, the blobs they name and their reclaim: `pull_with_options`
 (crates/images/src/pull.rs:201-302), PullImage and RemoveImage
 (crates/cri/src/server.rs:2286-2335 and 2371-2404) and crates/images/src/gc.rs.
 The registry, JSON and decompression are oracles carried by the `Offer`.
 */
module Images {
  import opened Bytes
  import opened Digests
  import Content

  /** SHA-256 of blob bytes and of digest text. */
  datatype Sha = Sha(ofBytes: bytes -> Digest, ofText: string -> Digest) {
    ghost predicate WellTyped() {
      (forall b :: Valid(ofBytes(b))) && forall s :: Valid(ofText(s))
    }
  }

  datatype ImageRecord = ImageRecord(
    name: string,
    targetDigest: string,
    imageId: string,
    repoTags: seq<string>,
    repoDigests: seq<string>,
    size: nat,
    layerDigests: seq<string>,
    chainIds: seq<string>)

  /** The metadata table of images, the blob store's blobs, and the snapshot directories. */
  datatype Node = Node(records: map<string, ImageRecord>, blobs: map<Digest, bytes>, snapshots: set<string>)

  // ---- pull ----

  /**
   One layer of a manifest as the registry serves it: the descriptor, the chunks, whether the
   stream ends well, the diffID its content decompresses to, and whether it unpacks.
   */
  datatype Layer = Layer(
    digest: string, size: int, chunks: seq<bytes>, streamOk: bool, diffId: Option<Digest>, unpackOk: bool)

  /** A reference with its config blob, the config's diffIDs if it parses, the layers and the manifest digest. */
  datatype Offer = Offer(
    reference: string, config: bytes, diffIds: Option<seq<string>>, layers: seq<Layer>, manifestDigest: string)

  datatype Pulled = Pulled(
    imageId: Digest, manifestDigest: Option<Digest>, size: nat, chainIds: seq<Digest>, layerDigests: seq<Digest>)

  /** The store's blobs and snapshot directories, what has been pulled so far, and whether to go on. */
  datatype Progress = Progress(
    blobs: map<Digest, bytes>, snapshots: set<string>, layerDigests: seq<Digest>, total: nat, ok: bool)

  function WithBlob(blobs: map<Digest, bytes>, d: Digest, data: bytes): map<Digest, bytes> {
    if d in blobs then blobs else blobs[d := data]
  }

  /** One turn of the layer loop. */
  function PullLayer(sha: Sha, p: Progress, layer: Layer, diffId: Digest, chainId: Digest): Progress {
    var stop := p.(ok := false);
    var data := Content.Concat(layer.chunks);
    match Parse(layer.digest)
    case Parsed(d) =>
      if layer.size < 0 || !layer.streamOk || |data| != layer.size || sha.ofBytes(data) != d then stop
      else
        var blobs := WithBlob(p.blobs, d, data);
        if layer.diffId != Some(diffId) then stop.(blobs := blobs)
        else if !layer.unpackOk then stop.(blobs := blobs, snapshots := p.snapshots + {chainId.hex})
        else
          Progress(blobs, p.snapshots + {chainId.hex}, p.layerDigests + [d], p.total + layer.size, true)
    case _ => stop
  }

  function PullLayers(sha: Sha, p: Progress, layers: seq<Layer>, diffIds: seq<Digest>, chain: seq<Digest>): Progress
    requires |layers| == |diffIds| == |chain|
  {
    if layers == [] then p
    else
      var n := |layers| - 1;
      var q := PullLayers(sha, p, layers[..n], diffIds[..n], chain[..n]);
      if q.ok then PullLayer(sha, q, layers[n], diffIds[n], chain[n]) else q
  }

  function ParseAll(ss: seq<string>): Option<seq<Digest>> {
    if ss == [] then Some([])
    else
      var rest, d := ParseAll(ss[..|ss| - 1]), Parse(ss[|ss| - 1]);
      if rest.Some? && d.Parsed? then Some(rest.value + [d.digest]) else None
  }

  /** All chainIDs of a stack. */
  function Chain(hash: string -> Digest, diffIds: seq<Digest>): (chain: seq<Digest>)
    ensures |chain| == |diffIds|
  {
    seq(|diffIds|, i requires 0 <= i < |diffIds| => ChainId(hash, diffIds[..i + 1]))
  }

  /** The config blob goes in first, under its own digest. */
  function WithConfig(sha: Sha, blobs: map<Digest, bytes>, snapshots: set<string>, offer: Offer): Progress {
    Progress(WithBlob(blobs, sha.ofBytes(offer.config), offer.config), snapshots, [], |offer.config|, true)
  }

  /** The config's diffIDs, one per layer of the manifest. */
  function DiffIds(offer: Offer): Option<seq<Digest>> {
    var ids := if offer.diffIds.Some? then ParseAll(offer.diffIds.value) else None;
    if ids.Some? && |ids.value| == |offer.layers| then ids else None
  }

  /** `None` for a manifest without a digest header, `Some` when it parses. */
  function ManifestDigest(offer: Offer): Option<Option<Digest>> {
    if offer.manifestDigest == "" then Some(None)
    else match Parse(offer.manifestDigest) case Parsed(d) => Some(Some(d)) case _ => None
  }

  /** `pull_with_options` after the manifest has arrived. */
  function Pull(sha: Sha, blobs: map<Digest, bytes>, snapshots: set<string>, offer: Offer): (Progress, Option<Pulled>) {
    var p, ids := WithConfig(sha, blobs, snapshots, offer), DiffIds(offer);
    if ids.None? || |ids.value| != |offer.layers| then (p, None)
    else
      var chain := Chain(sha.ofText, ids.value);
      var q, m := PullLayers(sha, p, offer.layers, ids.value, chain), ManifestDigest(offer);
      if !q.ok || m.None? then (q, None)
      else (q, Some(Pulled(sha.ofBytes(offer.config), m.value, q.total, chain, q.layerDigests)))
  }

  // ---- references ----

  /** Index of the last `c` in `s`, or -1. */
  function LastIndex(s: string, c: char): (i: int)
    ensures -1 <= i < |s| && (i >= 0 ==> s[i] == c)
  {
    if s == "" then -1 else if s[|s| - 1] == c then |s| - 1 else LastIndex(s[..|s| - 1], c)
  }

  function RepoName(ref: string): string {
    var start := LastIndex(ref, '/') + 1;
    var rel := LastIndex(ref[start..], ':');
    if rel >= 0 then ref[..start + rel] else ref
  }

  predicate IsDigestRef(ref: string) { '@' in ref }

  function Normalize(ref: string): string {
    if IsDigestRef(ref) || RepoName(ref) != ref then ref else ref + ":latest"
  }

  // ---- the records ----

  function Prints(ds: seq<Digest>): (ss: seq<string>)
    ensures |ss| == |ds|
  {
    seq(|ds|, i requires 0 <= i < |ds| => Print(ds[i]))
  }

  function DigestRef(ref: string, pulled: Pulled): Option<string> {
    if IsDigestRef(ref) then Some(ref)
    else if pulled.manifestDigest.Some? then Some(RepoName(ref) + "@" + Print(pulled.manifestDigest.value))
    else None
  }

  function TagRef(ref: string): Option<string> {
    if IsDigestRef(ref) then None else Some(Normalize(ref))
  }

  function AddOnce(xs: seq<string>, x: Option<string>): seq<string> {
    if x.Some? && x.value !in xs then xs + [x.value] else xs
  }

  function NewRecord(ref: string, pulled: Pulled): ImageRecord {
    ImageRecord(
      if TagRef(ref).Some? then TagRef(ref).value else ref,
      if pulled.manifestDigest.Some? then Print(pulled.manifestDigest.value) else "",
      Print(pulled.imageId), [], [], pulled.size, Prints(pulled.layerDigests), Prints(pulled.chainIds))
  }

  /** Multiple references of the same image collapse to one record, keyed by image id. */
  function Recorded(records: map<string, ImageRecord>, ref: string, pulled: Pulled): map<string, ImageRecord> {
    var id := Print(pulled.imageId);
    var rec := if id in records then records[id] else NewRecord(ref, pulled);
    records[id := rec.(repoTags := AddOnce(rec.repoTags, TagRef(ref)),
                       repoDigests := AddOnce(rec.repoDigests, DigestRef(ref, pulled)))]
  }

  // ---- reclaim ----

  /** `referenced_blobs`: the config, then the layers. */
  function Refs(rec: ImageRecord): seq<string> {
    [rec.imageId] + rec.layerDigests
  }

  function AllRefs(records: map<string, ImageRecord>): set<string> {
    set id, s | id in records && s in Refs(records[id]) :: s
  }

  function AllChains(records: map<string, ImageRecord>): set<string> {
    set id, s | id in records && s in records[id].chainIds :: s
  }

  /** The digests named and not kept alive. */
  function Doomed(names: seq<string>, live: set<string>): set<Digest> {
    set s | s in names && s !in live && Parse(s).Parsed? :: Parse(s).digest
  }

  function DoomedDirs(chains: seq<string>, live: set<string>): set<string> {
    set s | s in chains && s !in live
  }

  datatype Report = Report(blobsRemoved: nat, snapshotsRemoved: nat)

  /** One name in the blob loop. */
  method ReclaimBlob(store: Content.BlobStore, name: string, live: set<string>) returns (removed: bool)
    requires store.Valid()
    modifies store
    ensures store.Valid()
    ensures var d := Parse(name);
            if name !in live && d.Parsed?
            then store.blobs == old(store.blobs) - {d.digest} && removed == (d.digest in old(store.blobs))
            else store.blobs == old(store.blobs) && !removed
  {
    hide Parse, Content.Inv, Content.Next;
    removed := false;
    if name !in live {
      var d := Parse(name);
      if d.Parsed? {
        removed := store.RemoveDigest(d.digest);
      }
    }
  }

  /** The blob loop of `reclaim`. */
  method ReclaimBlobs(store: Content.BlobStore, names: seq<string>, live: set<string>) returns (count: nat)
    requires store.Valid()
    modifies store
    ensures store.Valid() && store.blobs == old(store.blobs) - Doomed(names, live)
    ensures count == |Doomed(names, live) * old(store.blobs).Keys|
  {
    hide Doomed, Parse, Content.BlobStore.Valid;
    ghost var had := store.blobs;
    count := 0;
    DoomedNone(live, had.Keys);
    for i := 0 to |names|
      invariant store.Valid() && store.blobs == had - Doomed(names[..i], live)
      invariant count == |Doomed(names[..i], live) * had.Keys|
    {
      DoomedStep(names, i, live, had.Keys);
      var removed := ReclaimBlob(store, names[i], live);
      if Parse(names[i]).Parsed? {
        SubtractMore(had, Doomed(names[..i], live), Parse(names[i]).digest);
      }
      if removed {
        count := count + 1;
      }
    }
    assert names[..|names|] == names;
  }

  lemma SubtractMore(had: map<Digest, bytes>, was: set<Digest>, d: Digest)
    ensures had - was - {d} == had - (was + {d})
    ensures d in had - was <==> d in had.Keys && d !in was
  {
  }

  /** The snapshot loop of `reclaim`. */
  method ReclaimDirs(dirs: set<string>, chains: seq<string>, live: set<string>) returns (dirs': set<string>, count: nat)
    ensures dirs' == dirs - DoomedDirs(chains, live)
    ensures count == |DoomedDirs(chains, live) * dirs|
  {
    hide DoomedDirs;
    dirs', count := dirs, 0;
    DoomedDirsNone(live, dirs);
    for i := 0 to |chains|
      invariant dirs' == dirs - DoomedDirs(chains[..i], live)
      invariant count == |DoomedDirs(chains[..i], live) * dirs|
    {
      DoomedDirsStep(chains, i, live, dirs);
      if chains[i] !in live && chains[i] in dirs' {
        dirs', count := dirs' - {chains[i]}, count + 1;
      }
    }
    assert chains[..|chains|] == chains;
  }

  lemma DoomedNone(live: set<string>, had: set<Digest>)
    ensures Doomed([], live) == {} && Doomed([], live) * had == {}
  {
  }

  lemma DoomedDirsNone(live: set<string>, dirs: set<string>)
    ensures DoomedDirs([], live) == {} && DoomedDirs([], live) * dirs == {}
  {
  }

  /** One more element in a set that is counted inside `had`. */
  lemma CountStep<T>(was: set<T>, d: T, had: set<T>)
    ensures |(was + {d}) * had| == |was * had| + if d in had && d !in was then 1 else 0
  {
    if d in had && d !in was {
      assert (was + {d}) * had == was * had + {d};
    } else {
      assert (was + {d}) * had == was * had;
    }
  }

  lemma DoomedStep(names: seq<string>, i: nat, live: set<string>, had: set<Digest>)
    requires i < |names|
    ensures var was, now, p := Doomed(names[..i], live), Doomed(names[..i + 1], live), Parse(names[i]);
            if names[i] !in live && p.Parsed?
            then && now == was + {p.digest}
                 && |now * had| == |was * had| + if p.digest in had && p.digest !in was then 1 else 0
            else now == was
  {
    hide Parse;
    var was, now, p := Doomed(names[..i], live), Doomed(names[..i + 1], live), Parse(names[i]);
    assert names[..i + 1] == names[..i] + [names[i]];
    if names[i] !in live && p.Parsed? {
      forall d ensures d in now <==> d in was + {p.digest} {
        if d in now {
          var s :| s in names[..i + 1] && s !in live && Parse(s).Parsed? && Parse(s).digest == d;
        }
      }
      assert now == was + {p.digest};
      CountStep(was, p.digest, had);
    } else {
      assert now == was;
    }
  }

  lemma DoomedDirsStep(chains: seq<string>, i: nat, live: set<string>, dirs: set<string>)
    requires i < |chains|
    ensures var was, now, c := DoomedDirs(chains[..i], live), DoomedDirs(chains[..i + 1], live), chains[i];
            if c !in live
            then now == was + {c} && |now * dirs| == |was * dirs| + if c in dirs && c !in was then 1 else 0
            else now == was
  {
    var was, now, c := DoomedDirs(chains[..i], live), DoomedDirs(chains[..i + 1], live), chains[i];
    assert chains[..i + 1] == chains[..i] + [c];
    if c !in live {
      assert now == was + {c};
      CountStep(was, c, dirs);
    } else {
      assert now == was;
    }
  }

  // ---- whole steps ----

  datatype Action =
    | PullImage(offer: Offer)
    | RemoveImage(key: string, victim: Option<string>)

  /** `find_image`: the record stored under the key, else any record the key names. */
  predicate Matches(rec: ImageRecord, key: string) {
    rec.imageId == key || key in rec.repoTags || Normalize(key) in rec.repoTags || key in rec.repoDigests
  }

  predicate Finds(records: map<string, ImageRecord>, key: string, found: Option<string>) {
    if key in records then found == Some(key)
    else if found.Some? then found.value in records && Matches(records[found.value], key)
    else forall id <- records :: !Matches(records[id], key)
  }

  predicate Enabled(n: Node, a: Action) {
    a.RemoveImage? ==> Finds(n.records, a.key, a.victim)
  }

  function Next(sha: Sha, n: Node, a: Action): Node
    requires Enabled(n, a)
  {
    match a
    case PullImage(offer) =>
      if offer.reference == "" then n
      else
        var (p, pulled) := Pull(sha, n.blobs, n.snapshots, offer);
        var n := n.(blobs := p.blobs, snapshots := p.snapshots);
        if pulled.Some? then n.(records := Recorded(n.records, offer.reference, pulled.value)) else n
    case RemoveImage(key, victim) =>
      if victim.None? then n
      else
        var rec := n.records[victim.value];
        var left := n.records - {rec.imageId};
        Node(left, n.blobs - Doomed(Refs(rec), AllRefs(left)), n.snapshots - DoomedDirs(rec.chainIds, AllChains(left)))
  }

  ghost predicate IsRun(sha: Sha, states: seq<Node>, actions: seq<Action>) {
    && |states| == |actions| + 1 && states[0] == Node(map[], map[], {})
    && forall i {:trigger actions[i]} | 0 <= i < |actions| :: Enabled(states[i], actions[i]) && states[i + 1] == Next(sha, states[i], actions[i])
  }

  // ---- what every run keeps ----

  ghost predicate NoDup(xs: seq<string>) {
    forall i, j | 0 <= i < j < |xs| :: xs[i] != xs[j]
  }

  /** A record is keyed by its own id, with canonical digest strings and no repeated references. */
  ghost predicate RecordInv(id: string, rec: ImageRecord) {
    && rec.imageId == id
    && (forall s <- Refs(rec) :: Canonical(s)) && (forall s <- rec.chainIds :: Canonical(s))
    && NoDup(rec.repoTags) && NoDup(rec.repoDigests)
  }

  ghost predicate Present(rec: ImageRecord, blobs: map<Digest, bytes>) {
    forall s <- Refs(rec) :: Parse(s).Parsed? && Parse(s).digest in blobs
  }

  /** Snapshot directories are named by bare hex. */
  ghost predicate BareNames(snapshots: set<string>) {
    forall s <- snapshots :: |s| == 64
  }

  ghost predicate Inv(sha: Sha, n: Node) {
    && Content.Addressed(sha.ofBytes, n.blobs) && BareNames(n.snapshots)
    && forall id <- n.records :: RecordInv(id, n.records[id]) && Present(n.records[id], n.blobs)
  }

  /** `more` has every blob of `blobs`, unchanged. */
  ghost predicate Extends(blobs: map<Digest, bytes>, more: map<Digest, bytes>) {
    forall d <- blobs :: d in more && more[d] == blobs[d]
  }

  ghost predicate Stored(ds: seq<Digest>, blobs: map<Digest, bytes>) {
    forall i | 0 <= i < |ds| :: Valid(ds[i]) && ds[i] in blobs
  }

  /** What a pull in progress has left in the store. */
  ghost predicate PullInv(sha: Sha, blobs: map<Digest, bytes>, p: Progress) {
    && Extends(blobs, p.blobs) && Content.Addressed(sha.ofBytes, p.blobs)
    && BareNames(p.snapshots) && Stored(p.layerDigests, p.blobs)
  }

  lemma PullLayerKeeps(sha: Sha, blobs: map<Digest, bytes>, p: Progress, layer: Layer, diffId: Digest, chainId: Digest)
    requires PullInv(sha, blobs, p) && Valid(chainId)
    ensures PullInv(sha, blobs, PullLayer(sha, p, layer, diffId, chainId))
  {
  }

  lemma {:induction false} PullLayersKeeps(
    sha: Sha, blobs: map<Digest, bytes>, p: Progress, layers: seq<Layer>, diffIds: seq<Digest>, chain: seq<Digest>)
    requires |layers| == |diffIds| == |chain| && PullInv(sha, blobs, p) && AllValid(chain)
    ensures PullInv(sha, blobs, PullLayers(sha, p, layers, diffIds, chain))
  {
    hide PullInv, PullLayer;
    if layers != [] {
      var n := |layers| - 1;
      PullLayersKeeps(sha, blobs, p, layers[..n], diffIds[..n], chain[..n]);
      var q := PullLayers(sha, p, layers[..n], diffIds[..n], chain[..n]);
      PullLayerKeeps(sha, blobs, q, layers[n], diffIds[n], chain[n]);
    }
  }

  lemma {:induction false} ParseAllValid(ss: seq<string>)
    ensures ParseAll(ss).Some? ==> AllValid(ParseAll(ss).value)
  {
    hide Parse;
    if ss != [] {
      ParseAllValid(ss[..|ss| - 1]);
    }
  }

  lemma ChainValid(sha: Sha, ds: seq<Digest>)
    requires sha.WellTyped() && AllValid(ds)
    ensures AllValid(Chain(sha.ofText, ds))
  {
    hide Valid, Chained;
    forall i | 0 <= i < |ds| ensures Valid(Chain(sha.ofText, ds)[i]) {
      ChainedIsValid(sha, ds[..i + 1]);
    }
  }

  lemma ChainedIsValid(sha: Sha, ds: seq<Digest>)
    requires sha.WellTyped() && AllValid(ds) && ds != []
    ensures Valid(ChainId(sha.ofText, ds))
  {
  }

  /** A pull, finished or not, only adds blobs; a finished one has stored all it names. */
  lemma PullKeeps(sha: Sha, blobs: map<Digest, bytes>, snapshots: set<string>, offer: Offer)
    requires sha.WellTyped() && Content.Addressed(sha.ofBytes, blobs) && BareNames(snapshots)
    ensures var (p, pulled) := Pull(sha, blobs, snapshots, offer);
            && PullInv(sha, blobs, p)
            && (pulled.Some? ==>
                  && Stored([pulled.value.imageId], p.blobs) && Stored(pulled.value.layerDigests, p.blobs)
                  && AllValid(pulled.value.chainIds))
  {
    hide PullLayers, DiffIds, Chain, ManifestDigest, WithConfig, PullInv, AllValid, Extends;
    var p, ids := WithConfig(sha, blobs, snapshots, offer), DiffIds(offer);
    ConfigKept(sha, blobs, snapshots, offer);
    if ids.Some? && |ids.value| == |offer.layers| {
      DiffIdsValid(offer);
      ChainValid(sha, ids.value);
      var chain := Chain(sha.ofText, ids.value);
      PullLayersKeeps(sha, blobs, p, offer.layers, ids.value, chain);
      PullLayersKeeps(sha, p.blobs, p, offer.layers, ids.value, chain);
      StoredStays(sha, p.blobs, PullLayers(sha, p, offer.layers, ids.value, chain), [sha.ofBytes(offer.config)]);
    }
  }

  lemma ConfigKept(sha: Sha, blobs: map<Digest, bytes>, snapshots: set<string>, offer: Offer)
    requires sha.WellTyped() && Content.Addressed(sha.ofBytes, blobs) && BareNames(snapshots)
    ensures var p := WithConfig(sha, blobs, snapshots, offer);
            PullInv(sha, blobs, p) && PullInv(sha, p.blobs, p) && Stored([sha.ofBytes(offer.config)], p.blobs)
  {
  }

  lemma DiffIdsValid(offer: Offer)
    ensures DiffIds(offer).Some? ==> AllValid(DiffIds(offer).value)
  {
    if offer.diffIds.Some? {
      ParseAllValid(offer.diffIds.value);
    }
  }

  lemma StoredStays(sha: Sha, blobs: map<Digest, bytes>, p: Progress, ds: seq<Digest>)
    requires PullInv(sha, blobs, p) && Stored(ds, blobs)
    ensures Stored(ds, p.blobs) && Stored(p.layerDigests, p.blobs)
  {
  }

  /** An image's own names, printed, are canonical and present. */
  lemma PrintedRefs(ds: seq<Digest>, blobs: map<Digest, bytes>)
    requires Stored(ds, blobs)
    ensures forall s <- Prints(ds) :: Canonical(s) && Parse(s).Parsed? && Parse(s).digest in blobs
  {
    hide Parse, Canonical, Print;
    forall i | 0 <= i < |ds|
      ensures Canonical(Prints(ds)[i]) && Parse(Prints(ds)[i]).Parsed? && Parse(Prints(ds)[i]).digest in blobs
    {
      PrintParse(ds[i]);
    }
  }

  lemma PrintedChains(ds: seq<Digest>)
    requires AllValid(ds)
    ensures forall s <- Prints(ds) :: Canonical(s)
  {
    hide Canonical, Print;
    forall i | 0 <= i < |ds| ensures Canonical(Prints(ds)[i]) {
      PrintParse(ds[i]);
    }
  }

  lemma NewRecordKept(ref: string, pulled: Pulled, blobs: map<Digest, bytes>)
    requires Stored([pulled.imageId], blobs) && Stored(pulled.layerDigests, blobs) && AllValid(pulled.chainIds)
    ensures var rec := NewRecord(ref, pulled); RecordInv(Print(pulled.imageId), rec) && Present(rec, blobs)
  {
    PrintedRefs([pulled.imageId], blobs);
    PrintedRefs(pulled.layerDigests, blobs);
    PrintedChains(pulled.chainIds);
    hide Canonical, Parse, Print;
    var rec := NewRecord(ref, pulled);
    assert Prints([pulled.imageId])[0] == rec.imageId;
    assert forall s <- Refs(rec) :: s == rec.imageId || s in rec.layerDigests;
  }

  lemma AddOnceNoDup(xs: seq<string>, x: Option<string>)
    requires NoDup(xs)
    ensures NoDup(AddOnce(xs, x)) && (x.Some? ==> x.value in AddOnce(xs, x)) && forall y <- xs :: y in AddOnce(xs, x)
  {
  }

  lemma PresentStays(rec: ImageRecord, blobs: map<Digest, bytes>, more: map<Digest, bytes>)
    requires Present(rec, blobs) && Extends(blobs, more)
    ensures Present(rec, more)
  {
    hide Parse;
  }

  lemma PullStepKeepsInv(sha: Sha, n: Node, offer: Offer)
    requires sha.WellTyped() && Inv(sha, n)
    ensures Inv(sha, Next(sha, n, PullImage(offer)))
  {
    if offer.reference != "" {
      PullKeeps(sha, n.blobs, n.snapshots, offer);
      var (p, pulled) := Pull(sha, n.blobs, n.snapshots, offer);
      hide Pull, Canonical, Parse, Print, Normalize, RepoName;
      forall id <- n.records ensures Present(n.records[id], p.blobs) {
        PresentStays(n.records[id], n.blobs, p.blobs);
      }
      if pulled.Some? {
        RecordedKept(n.records, p.blobs, offer.reference, pulled.value);
      }
    }
  }

  lemma RecordedKept(records: map<string, ImageRecord>, blobs: map<Digest, bytes>, ref: string, pulled: Pulled)
    requires forall id <- records :: RecordInv(id, records[id]) && Present(records[id], blobs)
    requires Stored([pulled.imageId], blobs) && Stored(pulled.layerDigests, blobs) && AllValid(pulled.chainIds)
    ensures var now := Recorded(records, ref, pulled); forall id <- now :: RecordInv(id, now[id]) && Present(now[id], blobs)
  {
    hide Canonical, Parse, Print, DigestRef, TagRef, AddOnce;
    var id := Print(pulled.imageId);
    NewRecordKept(ref, pulled, blobs);
    var rec := if id in records then records[id] else NewRecord(ref, pulled);
    AddOnceNoDup(rec.repoTags, TagRef(ref));
    AddOnceNoDup(rec.repoDigests, DigestRef(ref, pulled));
    var now := Recorded(records, ref, pulled)[id];
    assert Refs(now) == Refs(rec);
  }

  /** A blob that a remaining record names is not doomed: names are canonical, so digests do not alias. */
  lemma LiveBlobsSurvive(sha: Sha, n: Node, gone: string, id: string, s: string)
    requires Inv(sha, n) && gone in n.records && id in n.records && id != gone && s in Refs(n.records[id])
    ensures Parse(s).Parsed? && Parse(s).digest !in Doomed(Refs(n.records[gone]), AllRefs(n.records - {gone}))
  {
    hide Parse;
    var left := n.records - {gone};
    var live := AllRefs(left);
    assert id in left && s in Refs(left[id]);
    assert RecordInv(id, n.records[id]) && RecordInv(gone, n.records[gone]);
    forall t <- Refs(n.records[gone]) | t !in live && Parse(t).Parsed? ensures Parse(t).digest != Parse(s).digest {
      if Parse(t).digest == Parse(s).digest {
        CanonicalIsUnique(s, t);
      }
    }
  }

  lemma RemoveStepKeepsInv(sha: Sha, n: Node, key: string, victim: Option<string>)
    requires Inv(sha, n) && Enabled(n, RemoveImage(key, victim))
    ensures Inv(sha, Next(sha, n, RemoveImage(key, victim)))
  {
    if victim.Some? {
      var gone := victim.value;
      assert RecordInv(gone, n.records[gone]);
      var n' := Next(sha, n, RemoveImage(key, victim));
      forall id <- n'.records ensures Present(n'.records[id], n'.blobs) {
        forall s <- Refs(n.records[id]) ensures Parse(s).Parsed? && Parse(s).digest in n'.blobs {
          LiveBlobsSurvive(sha, n, gone, id, s);
          assert Present(n.records[id], n.blobs);
        }
      }
    }
  }

  lemma NextKeepsInv(sha: Sha, n: Node, a: Action)
    requires sha.WellTyped() && Inv(sha, n) && Enabled(n, a)
    ensures Inv(sha, Next(sha, n, a))
  {
    hide Next, Inv, Enabled;
    match a
    case PullImage(offer) => PullStepKeepsInv(sha, n, offer);
    case RemoveImage(key, victim) => RemoveStepKeepsInv(sha, n, key, victim);
  }

  lemma {:induction false} RunKeepsInv(sha: Sha, states: seq<Node>, actions: seq<Action>, i: nat)
    requires sha.WellTyped() && IsRun(sha, states, actions) && i < |states|
    ensures Inv(sha, states[i])
  {
    hide Next, Enabled, RecordInv, Present, Sha.WellTyped;
    if i > 0 {
      hide Inv;
      RunKeepsInv(sha, states, actions, i - 1);
      NextKeepsInv(sha, states[i - 1], actions[i - 1]);
    }
  }

  /**
   In every run of finished or failed PullImage and of RemoveImage: records are keyed by their
   image id, their digest strings are canonical, tag and digest lists have no duplicates, and
   every blob a record names is present and hashes to its name.
   */
  lemma EveryNamedBlobIsThere(sha: Sha, states: seq<Node>, actions: seq<Action>, i: nat, id: string)
    requires sha.WellTyped() && IsRun(sha, states, actions) && i < |states| && id in states[i].records
    ensures var n := states[i];
            && RecordInv(id, n.records[id])
            && forall s <- [n.records[id].imageId] + n.records[id].layerDigests ::
                 && Parse(s).Parsed? && Print(Parse(s).digest) == s
                 && Parse(s).digest in n.blobs && sha.ofBytes(n.blobs[Parse(s).digest]) == Parse(s).digest
  {
    RunKeepsInv(sha, states, actions, i);
    hide Parse, Print;
  }

  /**
   In every run a removal deletes exactly the blobs that the removed record names and no
   remaining record names, all of them were there (so `blobs_removed` is their number), and it
   deletes no snapshot directory: records hold `sha256:` chainIDs, directories bare hex.
   */
  lemma RemovalReclaimsExactly(sha: Sha, states: seq<Node>, actions: seq<Action>, i: nat)
    requires sha.WellTyped() && IsRun(sha, states, actions) && i < |actions|
    requires actions[i].RemoveImage? && actions[i].victim.Some?
    ensures var n, n', gone := states[i], states[i + 1], actions[i].victim.value;
            var doomed := Doomed(Refs(n.records[gone]), AllRefs(n'.records));
            && n'.records == n.records - {gone}
            && n'.blobs == n.blobs - doomed && doomed <= n.blobs.Keys
            && |doomed * n.blobs.Keys| == |n.blobs| - |n'.blobs| == |doomed|
            && (forall s <- Refs(n.records[gone]) ::
                  Parse(s).Parsed? && (Parse(s).digest in doomed <==> s !in AllRefs(n'.records)))
            && DoomedDirs(n.records[gone].chainIds, AllChains(n'.records)) * n.snapshots == {}
            && n'.snapshots == n.snapshots
  {
    RunKeepsInv(sha, states, actions, i);
    var n, n', gone := states[i], states[i + 1], actions[i].victim.value;
    var rec := n.records[gone];
    assert RecordInv(gone, rec) && Present(rec, n.blobs);
    var doomed := Doomed(Refs(rec), AllRefs(n'.records));
    NamedAreDoomed(rec, AllRefs(n'.records), n.records - {gone}, sha, n, gone);
    assert doomed * n.blobs.Keys == doomed;
    assert n'.blobs.Keys == n.blobs.Keys - doomed;
    forall c <- rec.chainIds ensures |c| == 71 {
      CanonicalLength(c);
    }
    assert DoomedDirs(rec.chainIds, AllChains(n'.records)) * n.snapshots == {};
    assert n'.snapshots == n.snapshots;
  }

  lemma CanonicalLength(s: string)
    requires Canonical(s)
    ensures |s| == 71
  {
    PrintParse(Parse(s).digest);
  }

  lemma NamedAreDoomed(rec: ImageRecord, live: set<string>, left: map<string, ImageRecord>, sha: Sha, n: Node, gone: string)
    requires Inv(sha, n) && gone in n.records && rec == n.records[gone] && left == n.records - {gone} && live == AllRefs(left)
    ensures Doomed(Refs(rec), live) <= n.blobs.Keys
    ensures forall s <- Refs(rec) :: Parse(s).Parsed? && (Parse(s).digest in Doomed(Refs(rec), live) <==> s !in live)
  {
    assert RecordInv(gone, rec) && Present(rec, n.blobs);
    hide Parse;
    forall s <- Refs(rec) ensures Parse(s).digest in Doomed(Refs(rec), live) <==> s !in live {
      if s in live {
        var id, t :| id in left && t in Refs(left[id]) && t == s;
        LiveBlobsSurvive(sha, n, gone, id, s);
      }
    }
  }

  /** A pulled reference is listed on the record of the image it was pulled as. */
  lemma PulledReferenceIsListed(sha: Sha, n: Node, offer: Offer)
    requires sha.WellTyped() && Inv(sha, n) && offer.reference != ""
    ensures var pulled := Pull(sha, n.blobs, n.snapshots, offer).1;
            pulled.Some? ==>
              var id := Print(sha.ofBytes(offer.config));
              var n' := Next(sha, n, PullImage(offer));
              && id in n'.records
              && (if IsDigestRef(offer.reference) then offer.reference in n'.records[id].repoDigests
                  else Normalize(offer.reference) in n'.records[id].repoTags)
              && forall other <- n.records | other != id :: other in n'.records && n'.records[other] == n.records[other]
  {
    hide PullLayers, Chain, DiffIds, ManifestDigest, WithConfig, Print, RepoName;
  }

  // ---- the service ----

  class ImageSvc {
    const sha: Sha
    const store: Content.BlobStore
    var records: map<string, ImageRecord>
    var snapshots: set<string>

    ghost predicate Ready()
      reads this, store
    {
      store.Valid() && store.hash == sha.ofBytes
    }

    ghost function Snapshot(): Node
      reads this, store
    {
      Node(records, store.blobs, snapshots)
    }

    constructor (sha: Sha)
      ensures Ready() && fresh(store) && this.sha == sha && Snapshot() == Node(map[], map[], {})
    {
      this.sha := sha;
      store := new Content.BlobStore(sha.ofBytes);
      records, snapshots := map[], {};
    }

    /** RemoveImage, with the record `victim` that `find_image` returned for `key`. */
    method Remove(key: string, victim: Option<string>) returns (report: Report)
      requires Ready() && Enabled(Snapshot(), RemoveImage(key, victim))
      modifies this, store
      ensures Ready() && Snapshot() == Next(sha, old(Snapshot()), RemoveImage(key, victim))
      ensures victim.Some? ==>
                var rec := old(records)[victim.value];
                && report.blobsRemoved == |Doomed(Refs(rec), AllRefs(records)) * old(store.blobs).Keys|
                && report.snapshotsRemoved == |DoomedDirs(rec.chainIds, AllChains(records)) * old(snapshots)|
    {
      hide Doomed, DoomedDirs, Refs, AllRefs, AllChains, Content.Inv;
      report := Report(0, 0);
      if victim.Some? {
        var rec := records[victim.value];
        records := records - {rec.imageId};
        var blobs := ReclaimBlobs(store, Refs(rec), AllRefs(records));
        var dirs, count := ReclaimDirs(snapshots, rec.chainIds, AllChains(records));
        snapshots := dirs;
        report := Report(blobs, count);
      }
    }

    /** One turn of the layer loop of `pull_with_options`. */
    method FetchLayer(ref: bytes, layer: Layer, diffId: Digest, chainId: Digest, ghost p: Progress) returns (digest: Option<Digest>)
      requires Ready() && p == Progress(store.blobs, snapshots, p.layerDigests, p.total, true)
      modifies this`snapshots, store
      ensures Ready()
      ensures var q := PullLayer(sha, p, layer, diffId, chainId);
              && q == Progress(store.blobs, snapshots, q.layerDigests, q.total, digest.Some?)
              && (digest.Some? ==> layer.size >= 0 && q.layerDigests == p.layerDigests + [digest.value]
                                   && q.total == p.total + layer.size)
    {
      hide Content.Inv, Content.Next, Content.Concat;
      var expected := Parse(layer.digest);
      hide Parse;
      if !expected.Parsed? || layer.size < 0 {
        return None;
      }
      if !layer.streamOk {
        var w := store.OpenWriter(ref);
        store.DropWriter(w);
        return None;
      }
      var r := store.WriteBlob(ref, layer.chunks, layer.size, expected.digest);
      if !r.Committed? || layer.diffId != Some(diffId) {
        return None;
      }
      snapshots := snapshots + {chainId.hex};
      if !layer.unpackOk {
        return None;
      }
      digest := Some(expected.digest);
    }

    /** The layer loop; `total` starts at the size of the config. */
    method FetchLayers(refs: nat -> bytes, layers: seq<Layer>, diffIds: seq<Digest>, chain: seq<Digest>, start: nat)
      returns (ok: bool, layerDigests: seq<Digest>, total: nat)
      requires Ready() && |layers| == |diffIds| == |chain|
      modifies this`snapshots, store
      ensures Ready()
      ensures var q := PullLayers(sha, Progress(old(store.blobs), old(snapshots), [], start, true), layers, diffIds, chain);
              && ok == q.ok && store.blobs == q.blobs && snapshots == q.snapshots
              && (ok ==> layerDigests == q.layerDigests && total == q.total)
    {
      hide PullLayer, Content.Inv, Content.Next;
      layerDigests, total := [], start;
      ghost var p := Progress(store.blobs, snapshots, [], start, true);
      for i := 0 to |layers|
        invariant Ready()
        invariant PullLayers(sha, p, layers[..i], diffIds[..i], chain[..i])
                  == Progress(store.blobs, snapshots, layerDigests, total, true)
      {
        assert layers[..i + 1][..i] == layers[..i] && diffIds[..i + 1][..i] == diffIds[..i] && chain[..i + 1][..i] == chain[..i];
        ghost var q := Progress(store.blobs, snapshots, layerDigests, total, true);
        var d := FetchLayer(refs(i), layers[i], diffIds[i], chain[i], q);
        if d.None? {
          StoppedStays(sha, p, layers, diffIds, chain, i + 1);
          return false, [], 0;
        }
        layerDigests := layerDigests + [d.value];
        total := total + layers[i].size;
      }
      assert layers[..|layers|] == layers && diffIds[..|layers|] == diffIds && chain[..|layers|] == chain;
      ok := true;
    }

    /** PullImage, with what the registry answered for the reference and the ingest refs of the layers. */
    method PullRef(offer: Offer, refs: nat -> bytes) returns (pulled: Option<Pulled>)
      requires Ready()
      modifies this, store
      ensures Ready() && Snapshot() == Next(sha, old(Snapshot()), PullImage(offer))
      ensures pulled == (if offer.reference == "" then None
                         else Pull(sha, old(store.blobs), old(snapshots), offer).1)
    {
      hide PullLayers, Content.Inv, Content.Next, ParseAll, Parse;
      if offer.reference == "" {
        return None;
      }
      var imageId := sha.ofBytes(offer.config);
      Content.ConcatOne(offer.config);
      var written := store.WriteBlob([], [offer.config], |offer.config|, imageId);
      var ids := DiffIds(offer);
      if ids.None? {
        return None;
      }
      var chain := ChainIds(sha.ofText, ids.value);
      assert chain == Chain(sha.ofText, ids.value);
      var ok, layerDigests, total := FetchLayers(refs, offer.layers, ids.value, chain, |offer.config|);
      var m := ManifestDigest(offer);
      if !ok || m.None? {
        return None;
      }
      var p := Pulled(imageId, m.value, total, chain, layerDigests);
      records := Recorded(records, offer.reference, p);
      pulled := Some(p);
    }
  }

  lemma {:induction false} StoppedStays(
    sha: Sha, p: Progress, layers: seq<Layer>, diffIds: seq<Digest>, chain: seq<Digest>, k: nat)
    requires |layers| == |diffIds| == |chain| && k <= |layers|
    requires !PullLayers(sha, p, layers[..k], diffIds[..k], chain[..k]).ok
    ensures PullLayers(sha, p, layers, diffIds, chain) == PullLayers(sha, p, layers[..k], diffIds[..k], chain[..k])
    decreases |layers|
  {
    hide PullLayer;
    var n := |layers|;
    if k < n {
      assert layers[..n - 1][..k] == layers[..k] && diffIds[..n - 1][..k] == diffIds[..k] && chain[..n - 1][..k] == chain[..k];
      StoppedStays(sha, p, layers[..n - 1], diffIds[..n - 1], chain[..n - 1], k);
    } else {
      assert layers[..k] == layers && diffIds[..k] == diffIds && chain[..k] == chain;
    }
  }
}
