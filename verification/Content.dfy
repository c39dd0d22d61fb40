/**
 The content-addressable blob store (crates/content/src/lib.rs): staged writers whose digest
 and size are verified at commit.  SHA-256 is the parameter `hash`.
 */
module Content {
  import opened Bytes
  import opened Digests

  /** A staging file name: the hash of the ingest ref and the per-process sequence number. */
  type StageName = (Digest, nat)

  /** An open writer: its staging file, the bytes fed to the hasher, and the byte count. */
  datatype Writer = Writer(staging: StageName, hashed: bytes, written: nat)

  /** The directory `blobs/sha256`, the directory `ingest`, the open writers and the ingest counter. */
  datatype Store = Store(
    blobs: map<Digest, bytes>,
    staging: map<StageName, bytes>,
    writers: map<nat, Writer>,
    seqNo: nat)

  datatype Outcome = Committed(digest: Digest) | SizeMismatch | DigestMismatch

  datatype Op =
    | Open(ref: bytes)
    | Write(w: nat, buf: bytes, n: nat)
    | Commit(w: nat, size: nat, expected: Digest)
    | Drop(w: nat)
    | RemoveBlob(digest: Digest)

  /** A write may be short: only the first `n` bytes of the buffer reach the file. */
  predicate Enabled(s: Store, op: Op) {
    match op
    case Open(_) => true
    case Write(w, buf, n) => w in s.writers && n <= |buf|
    case Commit(w, _, _) => w in s.writers
    case Drop(w) => w in s.writers
    case RemoveBlob(_) => true
  }

  /** What commit decides from the writer's fields alone. */
  function Verdict(hash: bytes -> Digest, w: Writer, size: nat, expected: Digest): Outcome {
    if w.written != size then SizeMismatch
    else if hash(w.hashed) != expected then DigestMismatch
    else Committed(expected)
  }

  /** `rename` moves the staging file itself into place, unless the blob is already there. */
  function Next(hash: bytes -> Digest, s: Store, op: Op): Store
    requires Enabled(s, op)
  {
    match op
    case Open(ref) =>
      var name := (hash(ref), s.seqNo);
      s.(staging := s.staging[name := []], writers := s.writers[s.seqNo := Writer(name, [], 0)], seqNo := s.seqNo + 1)
    case Write(w, buf, n) =>
      var wr := s.writers[w];
      var file := if wr.staging in s.staging then s.staging[wr.staging] else [];
      s.(staging := s.staging[wr.staging := file + buf[..n]],
         writers := s.writers[w := wr.(hashed := wr.hashed + buf[..n], written := wr.written + n)])
    case Commit(w, size, expected) =>
      var wr := s.writers[w];
      var s' := s.(staging := s.staging - {wr.staging}, writers := s.writers - {w});
      if Verdict(hash, wr, size, expected).Committed? && expected !in s.blobs && wr.staging in s.staging
      then s'.(blobs := s.blobs[expected := s.staging[wr.staging]])
      else s'
    case Drop(w) => s.(staging := s.staging - {s.writers[w].staging}, writers := s.writers - {w})
    case RemoveBlob(d) => s.(blobs := s.blobs - {d})
  }

  const EMPTY := Store(map[], map[], map[], 0)

  ghost predicate IsRun(hash: bytes -> Digest, states: seq<Store>, ops: seq<Op>) {
    && |states| == |ops| + 1 && states[0] == EMPTY
    && forall i {:trigger ops[i]} | 0 <= i < |ops| :: Enabled(states[i], ops[i]) && states[i + 1] == Next(hash, states[i], ops[i])
  }

  /** Every blob hashes to its name. */
  ghost predicate Addressed(hash: bytes -> Digest, blobs: map<Digest, bytes>) {
    forall d <- blobs :: hash(blobs[d]) == d
  }

  /** Writer `k` owns a staging file whose content is what its hasher has seen. */
  ghost predicate WriterInv(s: Store, k: nat)
    requires k in s.writers
  {
    var w := s.writers[k];
    && w.staging.1 == k < s.seqNo
    && w.staging in s.staging && s.staging[w.staging] == w.hashed && w.written == |w.hashed|
  }

  ghost predicate Inv(hash: bytes -> Digest, s: Store) {
    && Addressed(hash, s.blobs)
    && (forall k <- s.writers :: WriterInv(s, k))
    && (forall name <- s.staging :: name.1 in s.writers && s.writers[name.1].staging == name)
  }

  lemma NextKeepsInv(hash: bytes -> Digest, s: Store, op: Op)
    requires Inv(hash, s) && Enabled(s, op)
    ensures Inv(hash, Next(hash, s, op))
  {
    var s' := Next(hash, s, op);
    forall k <- s'.writers ensures WriterInv(s', k) {
      assert k in s.writers ==> WriterInv(s, k);
      match op
      case Open(_) =>
      case RemoveBlob(_) =>
      case _ => assert WriterInv(s, op.w);
    }
    if op.Commit? {
      assert WriterInv(s, op.w);
    }
  }

  /**
   For every interleaving of writers (open, short writes, commit, drop) and removals: every
   committed blob hashes to its name, no two open writers share a staging file, and once all
   writers are finished the staging area is empty.
   */
  lemma {:induction false} EveryRunIsClean(hash: bytes -> Digest, states: seq<Store>, ops: seq<Op>, i: nat)
    requires IsRun(hash, states, ops) && i < |states|
    ensures Inv(hash, states[i])
    ensures Addressed(hash, states[i].blobs)
    ensures forall a <- states[i].writers, b <- states[i].writers |
              states[i].writers[a].staging == states[i].writers[b].staging :: a == b
    ensures states[i].writers == map[] ==> states[i].staging == map[]
  {
    if i > 0 {
      EveryRunIsClean(hash, states, ops, i - 1);
      NextKeepsInv(hash, states[i - 1], ops[i - 1]);
    }
    var s := states[i];
    forall k <- s.writers ensures s.writers[k].staging.1 == k {
      assert WriterInv(s, k);
    }
  }

  /**
   What a commit does, in every run: it accepts exactly the writers whose bytes have the size
   and digest asked for; a rejected one leaves the blobs unchanged; an accepted one leaves
   those bytes (or an older blob with the same digest) under that digest and nothing else new.
   */
  lemma CommitStoresWhatWasWritten(hash: bytes -> Digest, s: Store, w: nat, size: nat, expected: Digest)
    requires Inv(hash, s) && w in s.writers
    ensures var data, s' := s.writers[w].hashed, Next(hash, s, Commit(w, size, expected));
            var accepted := Verdict(hash, s.writers[w], size, expected).Committed?;
            && (accepted <==> |data| == size && hash(data) == expected)
            && (!accepted ==> s'.blobs == s.blobs)
            && (accepted ==> s'.blobs == if expected in s.blobs then s.blobs else s.blobs[expected := data])
  {
    assert WriterInv(s, w);
  }

  // ---- the store as the daemon drives it ----

  class BlobStore {
    const hash: bytes -> Digest
    var blobs: map<Digest, bytes>
    var staging: map<StageName, bytes>
    var writers: map<nat, Writer>
    var seqNo: nat

    ghost function Snapshot(): Store
      reads this
    {
      Store(blobs, staging, writers, seqNo)
    }

    ghost predicate Valid()
      reads this
    {
      Inv(hash, Snapshot())
    }

    constructor (hash: bytes -> Digest)
      ensures this.hash == hash && Snapshot() == EMPTY && Valid()
    {
      this.hash := hash;
      blobs, staging, writers, seqNo := map[], map[], map[], 0;
    }

    /** `Store::writer`. */
    method OpenWriter(ref: bytes) returns (w: nat)
      requires Valid()
      modifies this
      ensures Valid() && Snapshot() == Next(hash, old(Snapshot()), Open(ref))
      ensures blobs == old(blobs) && w == old(seqNo) && w !in old(writers) && w in writers && writers[w].hashed == []
    {
      NextKeepsInv(hash, Snapshot(), Open(ref));
      FreshWriter(hash, Snapshot(), ref);
      hide Inv;
      w := seqNo;
      seqNo := seqNo + 1;
      var name := (hash(ref), w);
      staging := staging[name := []];
      writers := writers[w := Writer(name, [], 0)];
    }

    /** `Writer::write`, which may take only part of the buffer. */
    method WriteSome(w: nat, buf: bytes, n: nat)
      requires Valid() && w in writers && n <= |buf|
      modifies this
      ensures Valid() && Snapshot() == Next(hash, old(Snapshot()), Write(w, buf, n))
    {
      NextKeepsInv(hash, Snapshot(), Write(w, buf, n));
      assert WriterInv(Snapshot(), w);
      hide Inv;
      var wr := writers[w];
      staging := staging[wr.staging := staging[wr.staging] + buf[..n]];
      writers := writers[w := wr.(hashed := wr.hashed + buf[..n], written := wr.written + n)];
    }

    /** `Writer::commit`. */
    method CommitWriter(w: nat, size: nat, expected: Digest) returns (r: Outcome)
      requires Valid() && w in writers
      modifies this
      ensures Valid() && Snapshot() == Next(hash, old(Snapshot()), Commit(w, size, expected))
      ensures r == Verdict(hash, old(writers)[w], size, expected)
    {
      NextKeepsInv(hash, Snapshot(), Commit(w, size, expected));
      assert WriterInv(Snapshot(), w);
      hide Inv;
      var wr := writers[w];
      writers := writers - {w};
      if wr.written != size {
        staging := staging - {wr.staging};
        return SizeMismatch;
      }
      var computed := hash(wr.hashed);
      if computed != expected {
        staging := staging - {wr.staging};
        return DigestMismatch;
      }
      if computed !in blobs {
        blobs := blobs[computed := staging[wr.staging]];
      }
      staging := staging - {wr.staging};
      r := Committed(computed);
    }

    /** `Drop for Writer`. */
    method DropWriter(w: nat)
      requires Valid() && w in writers
      modifies this
      ensures Valid() && Snapshot() == Next(hash, old(Snapshot()), Drop(w)) && blobs == old(blobs)
    {
      hide Inv;
      NextKeepsInv(hash, Snapshot(), Drop(w));
      staging := staging - {writers[w].staging};
      writers := writers - {w};
    }

    /** `Store::remove`. */
    method RemoveDigest(digest: Digest) returns (existed: bool)
      requires Valid()
      modifies this
      ensures Valid() && Snapshot() == Next(hash, old(Snapshot()), RemoveBlob(digest))
      ensures existed == (digest in old(blobs)) && blobs == old(blobs) - {digest}
    {
      hide Inv;
      NextKeepsInv(hash, Snapshot(), RemoveBlob(digest));
      existed := digest in blobs;
      blobs := blobs - {digest};
    }

    /** A whole blob through a writer, as `pull` does for each layer: chunks in, then commit. */
    method WriteBlob(ref: bytes, chunks: seq<bytes>, size: nat, expected: Digest) returns (r: Outcome)
      requires Valid()
      modifies this
      ensures Valid() && staging == old(staging) && writers == old(writers)
      ensures r == (if |Concat(chunks)| != size then SizeMismatch
                    else if hash(Concat(chunks)) != expected then DigestMismatch else Committed(expected))
      ensures blobs == (if r.Committed? && expected !in old(blobs)
                        then old(blobs)[expected := Concat(chunks)] else old(blobs))
    {
      hide Inv, Next, WithWriter, Verdict;
      ghost var s0, name := Snapshot(), (hash(ref), seqNo);
      FreshWriter(hash, s0, ref);
      var w := OpenWriter(ref);
      for i := 0 to |chunks|
        invariant Valid() && Snapshot() == WithWriter(s0, name, Concat(chunks[..i])) && w == name.1
      {
        ConcatSnoc(chunks, i);
        WriterHolds(hash, s0, name, Concat(chunks[..i]), chunks[i]);
        WriteSome(w, chunks[i], |chunks[i]|);
      }
      assert chunks[..|chunks|] == chunks;
      WriterHolds(hash, s0, name, Concat(chunks), []);
      WriterCommits(hash, s0, name, Concat(chunks), size, expected);
      r := CommitWriter(w, size, expected);
    }
  }

  /** The store `s` with one more writer, which has taken `data` so far. */
  ghost function WithWriter(s: Store, name: StageName, data: bytes): Store {
    s.(staging := s.staging[name := data], writers := s.writers[name.1 := Writer(name, data, |data|)], seqNo := s.seqNo + 1)
  }

  lemma FreshWriter(hash: bytes -> Digest, s: Store, ref: bytes)
    requires Inv(hash, s)
    ensures var name := (hash(ref), s.seqNo);
            && name !in s.staging && s.seqNo !in s.writers
            && Next(hash, s, Open(ref)) == WithWriter(s, name, [])
  {
    forall k <- s.writers ensures k < s.seqNo {
      assert WriterInv(s, k);
    }
  }

  lemma WriterHolds(hash: bytes -> Digest, s: Store, name: StageName, data: bytes, buf: bytes)
    ensures name.1 in WithWriter(s, name, data).writers
    ensures Next(hash, WithWriter(s, name, data), Write(name.1, buf, |buf|)) == WithWriter(s, name, data + buf)
  {
    assert buf[..|buf|] == buf;
  }

  lemma WriterCommits(hash: bytes -> Digest, s: Store, name: StageName, data: bytes, size: nat, expected: Digest)
    requires name !in s.staging && name.1 !in s.writers
    ensures var s1 := WithWriter(s, name, data);
            var s' := Next(hash, s1, Commit(name.1, size, expected));
            var r := if |data| != size then SizeMismatch
                     else if hash(data) != expected then DigestMismatch else Committed(expected);
            && Verdict(hash, s1.writers[name.1], size, expected) == r
            && s'.staging == s.staging && s'.writers == s.writers
            && s'.blobs == if r.Committed? && expected !in s.blobs then s.blobs[expected := data] else s.blobs
  {
    var s1 := WithWriter(s, name, data);
    assert s1.staging - {name} == s.staging && s1.writers - {name.1} == s.writers;
  }

  function Concat(chunks: seq<bytes>): bytes {
    if chunks == [] then [] else Concat(chunks[..|chunks| - 1]) + chunks[|chunks| - 1]
  }

  lemma ConcatSnoc(chunks: seq<bytes>, i: nat)
    requires i < |chunks|
    ensures Concat(chunks[..i + 1]) == Concat(chunks[..i]) + chunks[i]
  {
    assert chunks[..i + 1][..i] == chunks[..i];
  }

  lemma ConcatOne(data: bytes)
    ensures Concat([data]) == data
  {
    assert [data][..0] == [];
  }
}
