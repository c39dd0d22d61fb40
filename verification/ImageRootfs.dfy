/**
 The rootfs of a container made from a pulled image: `create_container` unpacks the layer
 digests of the image's record (crates/cri/src/server.rs:482-497).
 */
module ImageRootfs {
  import opened Bytes
  import opened Digests
  import Images
  import Layers

  /**
   In every run of pulls and removals, the layers of a live record are all readable, with the
   content their digests name.  Unpacked over any tree they fail only if a layer's archive is
   broken or its entries clash, and otherwise give the OCI merge exactly when no path is lost.
   */
  lemma LiveImageUnpacksToItsMerge(
    sha: Images.Sha, states: seq<Images.Node>, actions: seq<Images.Action>, i: nat, id: string,
    base: Layers.Tree, open: bytes -> Layers.Archive)
    requires sha.WellTyped() && Images.IsRun(sha, states, actions) && i < |states| && id in states[i].records
    requires Layers.PrefixClosed(base)
    ensures var names, blobs := states[i].records[id].layerDigests, states[i].blobs;
            var layers := Layers.Contents(names, blobs, open);
            var rootfs := Layers.UnpackBlobs(base, names, blobs, open);
            && (forall s <- names :: Layers.Readable(s, blobs) && sha.ofBytes(blobs[Parse(s).digest]) == Parse(s).digest)
            && (rootfs.Ok? <==>
                  && Layers.AllWhole(names, blobs, open)
                  && forall k | 0 <= k < |Layers.Entries(layers)| :: !Layers.Clashes(base, Layers.Entries(layers), k))
            && (rootfs.Ok? ==>
                  ((forall q :: Layers.Get(rootfs.value, q) == Layers.Merged(base, layers, q))
                   <==> forall q :: !Layers.LostInTheEnd(layers, q)))
  {
    hide Layers.Clashes, Layers.LostInTheEnd, Layers.Merged, Layers.UnpackBlobs, Layers.Unpack, Layers.PrefixClosed;
    hide Layers.AllWhole, Layers.Contents, Parse, Images.Next, Images.IsRun;
    var names, blobs := states[i].records[id].layerDigests, states[i].blobs;
    var layers := Layers.Contents(names, blobs, open);
    Images.EveryNamedBlobIsThere(sha, states, actions, i, id);
    forall s <- names ensures Layers.Readable(s, blobs) && sha.ofBytes(blobs[Parse(s).digest]) == Parse(s).digest {
      assert s in [states[i].records[id].imageId] + states[i].records[id].layerDigests;
    }
    Layers.UnpackBlobsIsUnpack(base, names, blobs, open);
    Layers.StackUnpacksExactlyWithoutClashes(base, layers);
    if Layers.Unpack(base, layers).Ok? {
      Layers.UnpackIsOciExactlyWhenNothingIsLost(base, layers);
    }
  }
}
