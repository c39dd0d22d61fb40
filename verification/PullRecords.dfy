/**
 What a finished PullImage has to show for it: the record it leaves names exactly the content
 that was offered (crates/images/src/pull.rs:197-312, crates/cri/src/server.rs:2286-2335).
 */
module PullRecords {
  import opened Bytes
  import opened Digests
  import opened Images
  import Content

  function DataOf(l: Layer): bytes { Content.Concat(l.chunks) }

  /** A layer whose bytes are those its descriptor promises, whose content is the config's, and which unpacks. */
  predicate LayerGood(sha: Sha, l: Layer, diffId: Digest) {
    && Parse(l.digest) == Parsed(sha.ofBytes(DataOf(l)))
    && l.streamOk && |DataOf(l)| == l.size
    && l.diffId == Some(diffId) && l.unpackOk
  }

  ghost predicate AllGood(sha: Sha, layers: seq<Layer>, diffIds: seq<Digest>)
    requires |layers| == |diffIds|
  {
    forall i | 0 <= i < |layers| :: LayerGood(sha, layers[i], diffIds[i])
  }

  /** The digests of the bytes of the layers, in manifest order. */
  function DigestsOf(sha: Sha, layers: seq<Layer>): (ds: seq<Digest>)
    ensures |ds| == |layers|
  {
    seq(|layers|, i requires 0 <= i < |layers| => sha.ofBytes(DataOf(layers[i])))
  }

  function SizeOf(layers: seq<Layer>): nat {
    if layers == [] then 0 else SizeOf(layers[..|layers| - 1]) + |DataOf(layers[|layers| - 1])|
  }

  function Dirs(chain: seq<Digest>): set<string> {
    set c | c in chain :: c.hex
  }

  lemma GoodLayer(sha: Sha, p: Progress, l: Layer, diffId: Digest, chainId: Digest)
    requires p.ok
    ensures var q, d := PullLayer(sha, p, l, diffId, chainId), sha.ofBytes(DataOf(l));
            && (q.ok <==> LayerGood(sha, l, diffId))
            && (q.ok ==>
                  q == Progress(WithBlob(p.blobs, d, DataOf(l)), p.snapshots + {chainId.hex},
                                p.layerDigests + [d], p.total + |DataOf(l)|, true))
  {
    hide Parse;
  }

  lemma AllGoodStep(sha: Sha, layers: seq<Layer>, diffIds: seq<Digest>)
    requires |layers| == |diffIds| > 0
    ensures var n := |layers| - 1;
            AllGood(sha, layers, diffIds) <==> AllGood(sha, layers[..n], diffIds[..n]) && LayerGood(sha, layers[n], diffIds[n])
  {
    hide LayerGood;
    var n := |layers| - 1;
    assert forall i | 0 <= i < n :: layers[..n][i] == layers[i] && diffIds[..n][i] == diffIds[i];
  }

  lemma DigestsStep(sha: Sha, layers: seq<Layer>, chain: seq<Digest>)
    requires |layers| == |chain| > 0
    ensures var n := |layers| - 1;
            && DigestsOf(sha, layers) == DigestsOf(sha, layers[..n]) + [sha.ofBytes(DataOf(layers[n]))]
            && Dirs(chain) == Dirs(chain[..n]) + {chain[n].hex}
  {
    var n := |layers| - 1;
    assert chain == chain[..n] + [chain[n]];
  }

  /** The layer loop goes through if and only if every layer is good, and has then taken exactly them. */
  lemma {:induction false} LoopFinishes(sha: Sha, p: Progress, layers: seq<Layer>, diffIds: seq<Digest>, chain: seq<Digest>)
    requires p.ok && |layers| == |diffIds| == |chain|
    ensures var q := PullLayers(sha, p, layers, diffIds, chain);
            && (q.ok <==> AllGood(sha, layers, diffIds))
            && (q.ok ==>
                  && q.layerDigests == p.layerDigests + DigestsOf(sha, layers)
                  && q.total == p.total + SizeOf(layers)
                  && q.snapshots == p.snapshots + Dirs(chain))
  {
    if layers == [] {
      assert p.layerDigests + [] == p.layerDigests;
      assert p.snapshots + {} == p.snapshots;
    } else {
      var n := |layers| - 1;
      hide PullLayer, LayerGood, AllGood, DigestsOf, Dirs, DataOf;
      LoopFinishes(sha, p, layers[..n], diffIds[..n], chain[..n]);
      var q := PullLayers(sha, p, layers[..n], diffIds[..n], chain[..n]);
      if q.ok {
        GoodLayer(sha, q, layers[n], diffIds[n], chain[n]);
      }
      AllGoodStep(sha, layers, diffIds);
      DigestsStep(sha, layers, chain);
    }
  }

  /** Its blobs are the ones there were, unchanged, and one under each layer's digest. */
  lemma {:induction false} LoopStores(
    sha: Sha, p: Progress, layers: seq<Layer>, diffIds: seq<Digest>, chain: seq<Digest>, d: Digest)
    requires |layers| == |diffIds| == |chain| && p.ok && PullLayers(sha, p, layers, diffIds, chain).ok
    ensures var blobs := PullLayers(sha, p, layers, diffIds, chain).blobs;
            && (d in blobs <==> d in p.blobs || d in DigestsOf(sha, layers))
            && (d in p.blobs ==> blobs[d] == p.blobs[d])
  {
    if layers != [] {
      var n := |layers| - 1;
      hide PullLayer, DigestsOf, DataOf;
      var q := PullLayers(sha, p, layers[..n], diffIds[..n], chain[..n]);
      LoopStores(sha, p, layers[..n], diffIds[..n], chain[..n], d);
      GoodLayer(sha, q, layers[n], diffIds[n], chain[n]);
      DigestsStep(sha, layers, chain);
    }
  }

  /** The first layer with a new digest is the one stored under it. */
  lemma {:induction false} LoopStoresFirst(
    sha: Sha, p: Progress, layers: seq<Layer>, diffIds: seq<Digest>, chain: seq<Digest>, i: nat, d: Digest)
    requires |layers| == |diffIds| == |chain| && p.ok && PullLayers(sha, p, layers, diffIds, chain).ok
    requires i < |layers| && FirstWith(sha, layers, i, d) && d !in p.blobs
    ensures var blobs := PullLayers(sha, p, layers, diffIds, chain).blobs; d in blobs && blobs[d] == DataOf(layers[i])
  {
    var n := |layers| - 1;
    hide PullLayer, DigestsOf, DataOf, FirstWith;
    var q := PullLayers(sha, p, layers[..n], diffIds[..n], chain[..n]);
    GoodLayer(sha, q, layers[n], diffIds[n], chain[n]);
    FirstWithStep(sha, layers, i, d);
    if i < n {
      LoopStoresFirst(sha, p, layers[..n], diffIds[..n], chain[..n], i, d);
    } else {
      LoopStores(sha, p, layers[..n], diffIds[..n], chain[..n], d);
    }
  }

  /** Layer `i` is the first whose bytes hash to `d`. */
  predicate FirstWith(sha: Sha, layers: seq<Layer>, i: nat, d: Digest)
    requires i < |layers|
  {
    sha.ofBytes(DataOf(layers[i])) == d && d !in DigestsOf(sha, layers[..i])
  }

  lemma FirstWithStep(sha: Sha, layers: seq<Layer>, i: nat, d: Digest)
    requires i < |layers|
    ensures var n := |layers| - 1;
            FirstWith(sha, layers, i, d) <==>
            if i < n then FirstWith(sha, layers[..n], i, d)
            else sha.ofBytes(DataOf(layers[n])) == d && d !in DigestsOf(sha, layers[..n])
  {
    hide DigestsOf, DataOf;
    var n := |layers| - 1;
    if i < n {
      assert layers[..n][..i] == layers[..i] && layers[..n][i] == layers[i];
    }
  }

  // ---- the config ----

  /** The diffIDs the config lists, read as digests. */
  ghost predicate Lists(config: seq<string>, diffIds: seq<Digest>) {
    |config| == |diffIds| && forall i | 0 <= i < |config| :: Parse(config[i]) == Parsed(diffIds[i])
  }

  lemma {:induction false} ParseAllLists(config: seq<string>)
    ensures match ParseAll(config)
            case Some(ds) => Lists(config, ds)
            case None => exists i | 0 <= i < |config| :: !Parse(config[i]).Parsed?
  {
    hide Parse;
    if config != [] {
      var n := |config| - 1;
      ParseAllLists(config[..n]);
      assert forall i | 0 <= i < n :: config[..n][i] == config[i];
    }
  }

  /** The config's diffIDs are the manifest's layers in order, and every layer is good for its own. */
  ghost predicate ConfigMatches(sha: Sha, offer: Offer, diffIds: seq<Digest>) {
    && offer.diffIds.Some? && Lists(offer.diffIds.value, diffIds)
    && |diffIds| == |offer.layers| && AllGood(sha, offer.layers, diffIds)
  }

  lemma ListsOnce(config: seq<string>, a: seq<Digest>, b: seq<Digest>)
    requires Lists(config, a) && Lists(config, b)
    ensures a == b
  {
    hide Parse;
    assert forall i | 0 <= i < |config| :: Parse(config[i]) == Parsed(a[i]) && a[i] == b[i];
  }

  lemma ConfigDiffIds(offer: Offer, diffIds: seq<Digest>)
    ensures DiffIds(offer) == Some(diffIds) <==>
            offer.diffIds.Some? && Lists(offer.diffIds.value, diffIds) && |diffIds| == |offer.layers|
  {
    hide Parse, ParseAll;
    if offer.diffIds.Some? {
      ParseAllLists(offer.diffIds.value);
      if Lists(offer.diffIds.value, diffIds) {
        if ParseAll(offer.diffIds.value).Some? {
          ListsOnce(offer.diffIds.value, ParseAll(offer.diffIds.value).value, diffIds);
        }
      }
    }
  }

  /**
   A pull finishes if and only if the config lists one readable diffID per layer of the manifest,
   every layer arrives with the size and digest its descriptor promises, decompresses to its
   diffID and unpacks, and the manifest digest is absent or readable.
   */
  lemma PullFinishesExactlyWhenAllIsWell(sha: Sha, blobs: map<Digest, bytes>, snapshots: set<string>, offer: Offer)
    ensures Pull(sha, blobs, snapshots, offer).1.Some? <==>
            && (exists diffIds :: ConfigMatches(sha, offer, diffIds))
            && (offer.manifestDigest == "" || Parse(offer.manifestDigest).Parsed?)
  {
    hide Parse, PullLayers, Lists, AllGood, DiffIds, Chain;
    if diffIds :| ConfigMatches(sha, offer, diffIds) {
      ConfigDiffIds(offer, diffIds);
    }
    if DiffIds(offer).Some? {
      var ids := DiffIds(offer).value;
      ConfigDiffIds(offer, ids);
      LoopFinishes(sha, WithConfig(sha, blobs, snapshots, offer), offer.layers, ids, Chain(sha.ofText, ids));
      assert Pull(sha, blobs, snapshots, offer).1.Some? ==> ConfigMatches(sha, offer, ids);
    }
  }

  // ---- the record ----

  /** What a finished pull hands over, in terms of the offer alone. */
  lemma FinishedPull(sha: Sha, blobs: map<Digest, bytes>, snapshots: set<string>, offer: Offer, diffIds: seq<Digest>)
    requires ConfigMatches(sha, offer, diffIds) && (offer.manifestDigest == "" || Parse(offer.manifestDigest).Parsed?)
    ensures var (p, pulled) := Pull(sha, blobs, snapshots, offer);
            var start := WithConfig(sha, blobs, snapshots, offer);
            && pulled == Some(Pulled(
                  sha.ofBytes(offer.config),
                  if offer.manifestDigest == "" then None else Some(Parse(offer.manifestDigest).digest),
                  |offer.config| + SizeOf(offer.layers), Chain(sha.ofText, diffIds), DigestsOf(sha, offer.layers)))
            && p == PullLayers(sha, start, offer.layers, diffIds, Chain(sha.ofText, diffIds)) && p.ok
            && p.snapshots == snapshots + Dirs(Chain(sha.ofText, diffIds))
  {
    hide Parse, PullLayers, Lists, AllGood, DiffIds, Chain, DigestsOf, Dirs;
    ConfigDiffIds(offer, diffIds);
    var start, chain := WithConfig(sha, blobs, snapshots, offer), Chain(sha.ofText, diffIds);
    LoopFinishes(sha, start, offer.layers, diffIds, chain);
    assert [] + DigestsOf(sha, offer.layers) == DigestsOf(sha, offer.layers);
  }

  /** Layer `i` as a record has to show it. */
  ghost predicate ShowsLayer(sha: Sha, offer: Offer, diffIds: seq<Digest>, rec: ImageRecord, n: Node, n': Node, i: nat)
    requires i < |offer.layers| == |diffIds| == |rec.layerDigests| == |rec.chainIds|
  {
    var data := DataOf(offer.layers[i]);
    var d, chainId := sha.ofBytes(data), ChainId(sha.ofText, diffIds[..i + 1]);
    && Parse(offer.layers[i].digest) == Parsed(d) && offer.layers[i].diffId == Some(diffIds[i])
    && rec.layerDigests[i] == Print(d) && rec.chainIds[i] == Print(chainId) && chainId.hex in n'.snapshots
    && d in n'.blobs && sha.ofBytes(n'.blobs[d]) == d
    && (FirstWith(sha, offer.layers, i, d) && d !in n.blobs && d != sha.ofBytes(offer.config) ==> n'.blobs[d] == data)
  }

  /**
   After a finished PullImage of an image that had no record, its record names exactly what was
   offered: as many layers and chainIDs as the manifest has, in its order, each layer by the
   printed digest of its descriptor with that layer's bytes under it (or, where the digest was
   stored already, bytes that hash to it), each chainID that of the config's diffIDs so far; the
   image by the digest of the config, which is stored too; and the size of it all.
   */
  lemma NewRecordNamesWhatWasPulled(sha: Sha, n: Node, offer: Offer, diffIds: seq<Digest>)
    requires sha.WellTyped() && Inv(sha, n) && offer.reference != ""
    requires ConfigMatches(sha, offer, diffIds) && (offer.manifestDigest == "" || Parse(offer.manifestDigest).Parsed?)
    requires Print(sha.ofBytes(offer.config)) !in n.records
    ensures var n', id := Next(sha, n, PullImage(offer)), Print(sha.ofBytes(offer.config));
            && id in n'.records && n'.records.Keys == n.records.Keys + {id}
            && var rec := n'.records[id];
               && rec.imageId == id && rec.size == |offer.config| + SizeOf(offer.layers)
               && |rec.layerDigests| == |rec.chainIds| == |offer.layers| == |diffIds|
               && (forall i | 0 <= i < |offer.layers| :: ShowsLayer(sha, offer, diffIds, rec, n, n', i))
               && sha.ofBytes(offer.config) in n'.blobs
               && (sha.ofBytes(offer.config) !in n.blobs ==> n'.blobs[sha.ofBytes(offer.config)] == offer.config)
               && rec.targetDigest == if offer.manifestDigest == "" then "" else Print(Parse(offer.manifestDigest).digest)
  {
    hide Parse, PullLayers, Lists, AllGood, Print, ChainId, ShowsLayer, Inv, Sha.WellTyped;
    FinishedPull(sha, n.blobs, n.snapshots, offer, diffIds);
    hide Pull;
    var start, chain := WithConfig(sha, n.blobs, n.snapshots, offer), Chain(sha.ofText, diffIds);
    var n' := Next(sha, n, PullImage(offer));
    LoopStores(sha, start, offer.layers, diffIds, chain, sha.ofBytes(offer.config));
    var rec := n'.records[Print(sha.ofBytes(offer.config))];
    assert rec.layerDigests == Prints(DigestsOf(sha, offer.layers)) && rec.chainIds == Prints(chain);
    forall i | 0 <= i < |offer.layers| ensures ShowsLayer(sha, offer, diffIds, rec, n, n', i) {
      RecordShowsLayer(sha, n, offer, diffIds, rec, n', i);
    }
  }

  /**
   And it is listed under the reference: a digest reference as it is; any other under its
   normalized form, and, with a manifest digest, under its repository at that digest.
   */
  lemma NewRecordReferences(sha: Sha, n: Node, offer: Offer, diffIds: seq<Digest>)
    requires offer.reference != "" && Print(sha.ofBytes(offer.config)) !in n.records
    requires ConfigMatches(sha, offer, diffIds) && (offer.manifestDigest == "" || Parse(offer.manifestDigest).Parsed?)
    ensures Print(sha.ofBytes(offer.config)) in Next(sha, n, PullImage(offer)).records
    ensures var ref, rec := offer.reference, Next(sha, n, PullImage(offer)).records[Print(sha.ofBytes(offer.config))];
            if '@' in ref then rec.name == ref && rec.repoTags == [] && rec.repoDigests == [ref]
            else
              && rec.name == Normalize(ref) && rec.repoTags == [Normalize(ref)]
              && rec.repoDigests
                 == if offer.manifestDigest == "" then [] else [RepoName(ref) + "@" + Print(Parse(offer.manifestDigest).digest)]
  {
    FinishedPull(sha, n.blobs, n.snapshots, offer, diffIds);
    var pulled := Pull(sha, n.blobs, n.snapshots, offer).1.value;
    RecordedReferences(n.records, offer.reference, pulled);
    hide Pull, Parse, ConfigMatches, PullLayers, Chain, DigestsOf, Normalize, RepoName, Print, Recorded;
  }

  lemma RecordedReferences(records: map<string, ImageRecord>, ref: string, pulled: Pulled)
    requires Print(pulled.imageId) !in records
    ensures Print(pulled.imageId) in Recorded(records, ref, pulled)
    ensures var rec := Recorded(records, ref, pulled)[Print(pulled.imageId)];
            if '@' in ref then rec.name == ref && rec.repoTags == [] && rec.repoDigests == [ref]
            else
              && rec.name == Normalize(ref) && rec.repoTags == [Normalize(ref)]
              && rec.repoDigests
                 == if pulled.manifestDigest.None? then [] else [RepoName(ref) + "@" + Print(pulled.manifestDigest.value)]
  {
    hide Normalize, RepoName, Print;
  }

  lemma RecordShowsLayer(sha: Sha, n: Node, offer: Offer, diffIds: seq<Digest>, rec: ImageRecord, n': Node, i: nat)
    requires sha.WellTyped() && Inv(sha, n) && offer.reference != "" && n' == Next(sha, n, PullImage(offer))
    requires ConfigMatches(sha, offer, diffIds) && i < |offer.layers|
    requires var chain := Chain(sha.ofText, diffIds);
             var q := PullLayers(sha, WithConfig(sha, n.blobs, n.snapshots, offer), offer.layers, diffIds, chain);
             && q.ok && n'.blobs == q.blobs && n'.snapshots == n.snapshots + Dirs(chain)
             && rec.layerDigests == Prints(DigestsOf(sha, offer.layers)) && rec.chainIds == Prints(chain)
    ensures ShowsLayer(sha, offer, diffIds, rec, n, n', i)
  {
    hide Parse, PullLayers, Lists, Print, ChainId, Next, FirstWith, DataOf, Inv, WithConfig;
    var chain, d := Chain(sha.ofText, diffIds), sha.ofBytes(DataOf(offer.layers[i]));
    assert LayerGood(sha, offer.layers[i], diffIds[i]);
    assert d == DigestsOf(sha, offer.layers)[i];
    LayerIsStored(sha, n, offer, diffIds, n', i, d);
    assert chain[i] in chain && chain[i].hex in Dirs(chain);
    hide DigestsOf, Dirs;
  }

  lemma LayerIsStored(sha: Sha, n: Node, offer: Offer, diffIds: seq<Digest>, n': Node, i: nat, d: Digest)
    requires sha.WellTyped() && Inv(sha, n) && offer.reference != "" && n' == Next(sha, n, PullImage(offer))
    requires ConfigMatches(sha, offer, diffIds) && i < |offer.layers| && d == sha.ofBytes(DataOf(offer.layers[i]))
    requires var q := PullLayers(sha, WithConfig(sha, n.blobs, n.snapshots, offer), offer.layers, diffIds, Chain(sha.ofText, diffIds));
             q.ok && n'.blobs == q.blobs
    ensures d in n'.blobs && sha.ofBytes(n'.blobs[d]) == d
    ensures FirstWith(sha, offer.layers, i, d) && d !in n.blobs && d != sha.ofBytes(offer.config) ==>
              n'.blobs[d] == DataOf(offer.layers[i])
  {
    var start, chain := WithConfig(sha, n.blobs, n.snapshots, offer), Chain(sha.ofText, diffIds);
    hide PullLayers, Lists, AllGood, ChainId, Next, FirstWith, DataOf;
    assert d == DigestsOf(sha, offer.layers)[i];
    LoopStores(sha, start, offer.layers, diffIds, chain, d);
    PullStepKeepsInv(sha, n, offer);
    hide DigestsOf, Chain, RecordInv, Present;
    if FirstWith(sha, offer.layers, i, d) && d !in start.blobs {
      LoopStoresFirst(sha, start, offer.layers, diffIds, chain, i, d);
    }
  }

  /** A record that was there keeps all it named; only the reference is added, at the end. */
  lemma KnownRecordOnlyGainsTheReference(sha: Sha, n: Node, offer: Offer)
    requires offer.reference != "" && Print(sha.ofBytes(offer.config)) in n.records
    requires Pull(sha, n.blobs, n.snapshots, offer).1.Some?
    ensures var n', id := Next(sha, n, PullImage(offer)), Print(sha.ofBytes(offer.config));
            && n'.records.Keys == n.records.Keys
            && var was, now := n.records[id], n'.records[id];
               && now == was.(repoTags := now.repoTags, repoDigests := now.repoDigests)
               && was.repoTags <= now.repoTags && was.repoDigests <= now.repoDigests
               && |now.repoTags| <= |was.repoTags| + 1 && |now.repoDigests| <= |was.repoDigests| + 1
  {
    hide PullLayers, Chain, DiffIds, ManifestDigest, WithConfig, Print, RepoName, Parse, TagRef, DigestRef;
  }

  // ---- a pull that fails ----

  /** A pull that does not finish changes no record, only what it stored on the way. */
  lemma FailedPullRecordsNothing(sha: Sha, n: Node, offer: Offer)
    requires !(exists diffIds :: ConfigMatches(sha, offer, diffIds))
             || (offer.manifestDigest != "" && !Parse(offer.manifestDigest).Parsed?)
    ensures Next(sha, n, PullImage(offer)).records == n.records
    ensures forall d <- n.blobs :: d in Next(sha, n, PullImage(offer)).blobs
  {
    PullFinishesExactlyWhenAllIsWell(sha, n.blobs, n.snapshots, offer);
    PullOnlyAdds(sha, n.blobs, n.snapshots, offer);
    hide Pull, ConfigMatches, Parse;
  }

  lemma PullOnlyAdds(sha: Sha, blobs: map<Digest, bytes>, snapshots: set<string>, offer: Offer)
    ensures forall d <- blobs :: d in Pull(sha, blobs, snapshots, offer).0.blobs
  {
    var start, ids := WithConfig(sha, blobs, snapshots, offer), DiffIds(offer);
    if ids.Some? {
      LoopOnlyAdds(sha, start, offer.layers, ids.value, Chain(sha.ofText, ids.value));
    }
    hide PullLayers, DiffIds, Chain;
  }

  lemma {:induction false} LoopOnlyAdds(sha: Sha, p: Progress, layers: seq<Layer>, diffIds: seq<Digest>, chain: seq<Digest>)
    requires |layers| == |diffIds| == |chain|
    ensures forall d <- p.blobs :: d in PullLayers(sha, p, layers, diffIds, chain).blobs
  {
    if layers != [] {
      var n := |layers| - 1;
      LoopOnlyAdds(sha, p, layers[..n], diffIds[..n], chain[..n]);
      hide Parse;
    }
  }

  /** The bytes are those the descriptor promises. */
  predicate Arrives(sha: Sha, l: Layer) {
    Parse(l.digest) == Parsed(sha.ofBytes(DataOf(l))) && l.streamOk && |DataOf(l)| == l.size
  }

  /**
   A pull whose layer `i` is the first that is not good stops there: it leaves the layers before
   it, the blob of layer `i` exactly if its bytes arrived as promised, and its snapshot
   directory exactly if besides they decompress to the diffID.
   */
  lemma FailedLoopLeavesExactly(
    sha: Sha, p: Progress, layers: seq<Layer>, diffIds: seq<Digest>, chain: seq<Digest>, i: nat)
    requires p.ok && i < |layers| == |diffIds| == |chain|
    requires AllGood(sha, layers[..i], diffIds[..i]) && !LayerGood(sha, layers[i], diffIds[i])
    ensures var q, l := PullLayers(sha, p, layers, diffIds, chain), layers[i];
            && !q.ok
            && (forall d: Digest ::
                  d in q.blobs <==>
                  d in p.blobs || d in DigestsOf(sha, layers[..i]) || (Arrives(sha, l) && d == sha.ofBytes(DataOf(l))))
            && q.snapshots == p.snapshots + Dirs(chain[..i])
                              + if Arrives(sha, l) && l.diffId == Some(diffIds[i]) then {chain[i].hex} else {}
  {
    var older := PullLayers(sha, p, layers[..i], diffIds[..i], chain[..i]);
    LoopFinishes(sha, p, layers[..i], diffIds[..i], chain[..i]);
    BadLayer(sha, older, layers[i], diffIds[i], chain[i]);
    hide PullLayer, LayerGood, AllGood, DigestsOf, Dirs, DataOf, Arrives, PullLayers;
    LoopStopsAt(sha, p, layers, diffIds, chain, i);
    forall d: Digest ensures d in older.blobs <==> d in p.blobs || d in DigestsOf(sha, layers[..i]) {
      LoopStores(sha, p, layers[..i], diffIds[..i], chain[..i], d);
    }
  }

  lemma LoopStopsAt(sha: Sha, p: Progress, layers: seq<Layer>, diffIds: seq<Digest>, chain: seq<Digest>, i: nat)
    requires i < |layers| == |diffIds| == |chain|
    requires var older := PullLayers(sha, p, layers[..i], diffIds[..i], chain[..i]);
             older.ok && !PullLayer(sha, older, layers[i], diffIds[i], chain[i]).ok
    ensures PullLayers(sha, p, layers, diffIds, chain)
            == PullLayer(sha, PullLayers(sha, p, layers[..i], diffIds[..i], chain[..i]), layers[i], diffIds[i], chain[i])
  {
    hide PullLayer;
    assert layers[..i + 1][..i] == layers[..i] && diffIds[..i + 1][..i] == diffIds[..i] && chain[..i + 1][..i] == chain[..i];
    StoppedStays(sha, p, layers, diffIds, chain, i + 1);
  }

  lemma BadLayer(sha: Sha, p: Progress, l: Layer, diffId: Digest, chainId: Digest)
    requires p.ok && !LayerGood(sha, l, diffId)
    ensures var q := PullLayer(sha, p, l, diffId, chainId);
            && !q.ok
            && (forall d: Digest :: d in q.blobs <==> d in p.blobs || (Arrives(sha, l) && d == sha.ofBytes(DataOf(l))))
            && q.snapshots == p.snapshots + if Arrives(sha, l) && l.diffId == Some(diffId) then {chainId.hex} else {}
  {
    hide Parse;
    assert p.snapshots + {} == p.snapshots;
  }

  // ---- over runs ----

  /** The record names the content of the offer, all of it and in order. */
  ghost predicate NamesOffer(sha: Sha, rec: ImageRecord, offer: Offer, diffIds: seq<Digest>) {
    && ConfigMatches(sha, offer, diffIds)
    && rec.imageId == Print(sha.ofBytes(offer.config))
    && rec.layerDigests == Prints(DigestsOf(sha, offer.layers)) && rec.chainIds == Prints(Chain(sha.ofText, diffIds))
  }

  ghost predicate CameFrom(sha: Sha, rec: ImageRecord, a: Action) {
    a.PullImage? && exists diffIds :: NamesOffer(sha, rec, a.offer, diffIds)
  }

  predicate SameContent(a: ImageRecord, b: ImageRecord) {
    a.imageId == b.imageId && a.layerDigests == b.layerDigests && a.chainIds == b.chainIds
  }

  lemma StepNames(sha: Sha, n: Node, a: Action, id: string)
    requires Inv(sha, n) && Enabled(n, a) && id in Next(sha, n, a).records
    ensures || (id in n.records && SameContent(n.records[id], Next(sha, n, a).records[id]))
            || CameFrom(sha, Next(sha, n, a).records[id], a)
  {
    hide Parse, PullLayers, DiffIds, Chain, DigestsOf, Print, Prints, Inv, Doomed, ConfigMatches, Lists, Normalize, RepoName;
    if a.PullImage? && a.offer.reference != "" {
      var offer := a.offer;
      PullFinishesExactlyWhenAllIsWell(sha, n.blobs, n.snapshots, offer);
      if diffIds :| Pull(sha, n.blobs, n.snapshots, offer).1.Some? && ConfigMatches(sha, offer, diffIds) {
        FinishedPull(sha, n.blobs, n.snapshots, offer, diffIds);
        hide Pull;
        if !(id in n.records) {
          assert NamesOffer(sha, Next(sha, n, a).records[id], offer, diffIds);
        }
      }
    }
  }

  /** In every run, a live record names the config, layers and chainIDs of some finished pull, all of them and in order. */
  lemma {:induction false} EveryRecordNamesAPulledImage(
    sha: Sha, states: seq<Node>, actions: seq<Action>, i: nat, id: string)
    requires sha.WellTyped() && IsRun(sha, states, actions) && i < |states| && id in states[i].records
    ensures exists k | 0 <= k < i :: CameFrom(sha, states[i].records[id], actions[k])
  {
    hide Next, Enabled, Inv, NamesOffer, Sha.WellTyped;
    if i > 0 {
      RunKeepsInv(sha, states, actions, i - 1);
      StepNames(sha, states[i - 1], actions[i - 1], id);
      if !CameFrom(sha, states[i].records[id], actions[i - 1]) {
        EveryRecordNamesAPulledImage(sha, states, actions, i - 1, id);
        var k :| 0 <= k < i - 1 && CameFrom(sha, states[i - 1].records[id], actions[k]);
        SameContentCameFrom(sha, states[i - 1].records[id], states[i].records[id], actions[k]);
      }
    }
  }

  lemma SameContentCameFrom(sha: Sha, a: ImageRecord, b: ImageRecord, action: Action)
    requires SameContent(a, b) && CameFrom(sha, a, action)
    ensures CameFrom(sha, b, action)
  {
    hide ConfigMatches;
    var diffIds :| NamesOffer(sha, a, action.offer, diffIds);
    assert NamesOffer(sha, b, action.offer, diffIds);
  }

  // ---- removal ----

  /** The record names the blob `d`: as its config or as one of its layers. */
  predicate NamesBlob(rec: ImageRecord, d: Digest) {
    rec.imageId == Print(d) || Print(d) in rec.layerDigests
  }

  lemma CanonicalIsPrinted(s: string, d: Digest)
    requires Canonical(s) && Valid(d)
    ensures Parse(s).digest == d <==> s == Print(d)
  {
    PrintParse(d);
  }

  lemma BlobIsReferenced(sha: Sha, n: Node, id: string, d: Digest)
    requires Inv(sha, n) && id in n.records && Valid(d)
    ensures NamesBlob(n.records[id], d) <==> Print(d) in Refs(n.records[id])
    ensures forall s <- Refs(n.records[id]) :: Parse(s).Parsed? && (Parse(s).digest == d <==> s == Print(d))
  {
    assert RecordInv(id, n.records[id]);
    hide Parse, Print;
    forall s <- Refs(n.records[id]) ensures Parse(s).digest == d <==> s == Print(d) {
      CanonicalIsPrinted(s, d);
    }
  }

  /**
   In every run a removal deletes a blob if and only if the removed image names it, as its config
   or as a layer, and no remaining image does; every other blob stays as it is.
   */
  lemma RemovalDeletesExactlyTheUnshared(sha: Sha, states: seq<Node>, actions: seq<Action>, i: nat, d: Digest)
    requires sha.WellTyped() && IsRun(sha, states, actions) && i < |actions| && d in states[i].blobs
    requires actions[i].RemoveImage? && actions[i].victim.Some?
    ensures var n, n', gone := states[i], states[i + 1], actions[i].victim.value;
            && gone in n.records && n'.records == n.records - {gone}
            && (d !in n'.blobs <==>
                  NamesBlob(n.records[gone], d) && forall id <- n'.records :: !NamesBlob(n'.records[id], d))
            && (d in n'.blobs ==> n'.blobs[d] == n.blobs[d])
  {
    hide Next, Doomed, Parse, Print, NamesBlob;
    RunKeepsInv(sha, states, actions, i);
    RemovalReclaimsExactly(sha, states, actions, i);
    var n, n', gone := states[i], states[i + 1], actions[i].victim.value;
    assert Enabled(n, actions[i]);
    assert sha.ofBytes(n.blobs[d]) == d;
    BlobIsReferenced(sha, n, gone, d);
    forall id <- n'.records ensures NamesBlob(n'.records[id], d) <==> Print(d) in Refs(n'.records[id]) {
      BlobIsReferenced(sha, n, id, d);
    }
    DoomedMeans(Refs(n.records[gone]), AllRefs(n'.records), d);
  }

  lemma DoomedMeans(names: seq<string>, live: set<string>, d: Digest)
    requires forall s <- names :: Parse(s).Parsed? && (Parse(s).digest == d <==> s == Print(d))
    ensures d in Doomed(names, live) <==> Print(d) in names && Print(d) !in live
  {
    hide Parse, Print;
  }

  // ---- references ----

  lemma {:induction false} LastIndexIs(a: string, c: char, b: string)
    requires c !in b
    ensures LastIndex(a + [c] + b, c) == |a|
    decreases |b|
  {
    var s, n := a + [c] + b, |b| - 1;
    if b == "" {
      assert s == a + [c];
    } else {
      assert s[|s| - 1] == b[n] && b[n] in b && s[..|s| - 1] == a + [c] + b[..n];
      LastIndexIs(a, c, b[..n]);
    }
  }

  lemma {:induction false} NoIndex(s: string, c: char)
    requires c !in s
    ensures LastIndex(s, c) == -1
    decreases |s|
  {
    if s != "" {
      NoIndex(s[..|s| - 1], c);
    }
  }

  /** The part of a reference after its last slash. */
  lemma LastPart(dir: string, part: string)
    requires (dir == "" || dir[|dir| - 1] == '/') && '/' !in part
    ensures var start := LastIndex(dir + part, '/') + 1; start == |dir| && (dir + part)[start..] == part
  {
    if dir == "" {
      assert dir + part == part;
      NoIndex(part, '/');
    } else {
      assert dir + part == dir[..|dir| - 1] + ['/'] + part;
      LastIndexIs(dir[..|dir| - 1], '/', part);
    }
  }

  /** The part of a reference before its name: empty, or up to a slash; it may hold a port. */
  predicate Directory(dir: string) { (dir == "" || dir[|dir| - 1] == '/') && '@' !in dir }

  predicate Word(s: string) { '/' !in s && ':' !in s && '@' !in s }

  /** A reference without a tag means `:latest`. */
  lemma UntaggedMeansLatest(dir: string, name: string)
    requires Directory(dir) && Word(name)
    ensures Normalize(dir + name) == dir + name + ":latest" && RepoName(dir + name) == dir + name
  {
    hide LastIndex;
    LastPart(dir, name);
    NoIndex(name, ':');
  }

  /** With a tag it means itself, and its repository is what comes before the tag. */
  lemma TaggedMeansItself(dir: string, name: string, tag: string)
    requires Directory(dir) && Word(name) && Word(tag)
    ensures var ref := dir + name + ":" + tag;
            Normalize(ref) == ref && RepoName(ref) == dir + name && !IsDigestRef(ref)
  {
    hide LastIndex;
    var ref, part := dir + name + ":" + tag, name + [':'] + tag;
    assert ref == dir + part && part == name + [':'] + tag && '/' !in part;
    LastPart(dir, part);
    LastIndexIs(name, ':', tag);
    assert ref[|dir| + |name|] == ':' && |ref| > |dir| + |name|;
    assert ref[..|dir| + |name|] == dir + name;
  }

  /** So does a digest reference. */
  lemma DigestReferenceMeansItself(before: string, after: string)
    ensures var ref := before + "@" + after; IsDigestRef(ref) && Normalize(ref) == ref
  {
    var ref := before + "@" + after;
    assert ref[|before|] == '@';
    hide RepoName;
  }

  /** After a finished pull, looking the same reference up finds a record that lists it. */
  lemma PulledReferenceIsFound(sha: Sha, n: Node, offer: Offer, found: Option<string>)
    requires sha.WellTyped() && Inv(sha, n) && offer.reference != ""
    requires Pull(sha, n.blobs, n.snapshots, offer).1.Some?
    requires Finds(Next(sha, n, PullImage(offer)).records, offer.reference, found)
    ensures found.Some? && found.value in Next(sha, n, PullImage(offer)).records
    ensures var rec, ref := Next(sha, n, PullImage(offer)).records[found.value], offer.reference;
            || rec.imageId == ref || ref in rec.repoTags || Normalize(ref) in rec.repoTags || ref in rec.repoDigests
  {
    PulledReferenceIsListed(sha, n, offer);
    PullStepKeepsInv(sha, n, offer);
    hide Next, Pull, Normalize, Canonical, Print;
    var records := Next(sha, n, PullImage(offer)).records;
    var id := Print(sha.ofBytes(offer.config));
    assert Matches(records[id], offer.reference);
    assert RecordInv(found.value, records[found.value]);
  }
}
