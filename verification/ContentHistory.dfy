/**
 The content store as the history of its operations: in every run of the machine in `Content`,
 its open writers, what they have taken and its blobs follow from the operations alone
 (crates/content/src/lib.rs:71-214).
 */
module ContentHistory {
  import opened Bytes
  import opened Digests
  import opened Runs
  import opened Content

  function Opens(ops: seq<Op>): nat {
    if ops == [] then 0 else Opens(ops[..|ops| - 1]) + if ops[|ops| - 1].Open? then 1 else 0
  }

  predicate Finishes(op: Op, w: nat) { (op.Commit? || op.Drop?) && op.w == w }

  ghost predicate Finished(ops: seq<Op>, w: nat) {
    exists op <- ops :: Finishes(op, w)
  }

  /** The bytes that writer `w` has been given and that reached its file. */
  function Taken(ops: seq<Op>, w: nat): bytes {
    if ops == [] then []
    else
      var n := |ops| - 1;
      Taken(ops[..n], w) + if ops[n].Write? && ops[n].w == w && ops[n].n <= |ops[n].buf| then ops[n].buf[..ops[n].n] else []
  }

  /** One operation, seen from one writer. */
  lemma WriterStep(hash: bytes -> Digest, s: Store, op: Op, w: nat)
    requires Inv(hash, s) && Enabled(s, op)
    ensures var s' := Next(hash, s, op);
            && s'.seqNo == s.seqNo + (if op.Open? then 1 else 0)
            && (w in s'.writers <==> (op.Open? && w == s.seqNo) || (w in s.writers && !Finishes(op, w)))
            && (w in s.writers && w in s'.writers ==>
                  s'.writers[w].hashed
                  == if op.Write? && op.w == w then s.writers[w].hashed + op.buf[..op.n] else s.writers[w].hashed)
            && (w !in s.writers && w in s'.writers ==> s'.writers[w].hashed == [])
  {
    assert w in s.writers ==> WriterInv(s, w);
    hide Inv;
  }

  /**
   In every run the open writers are exactly those opened and neither committed nor dropped
   since, and each has hashed exactly the bytes written to it, in order.
   */
  lemma {:induction false} WritersFollowTheOperations(hash: bytes -> Digest, states: seq<Store>, ops: seq<Op>, i: nat, w: nat)
    requires IsRun(hash, states, ops) && i < |states|
    ensures states[i].seqNo == Opens(ops[..i])
    ensures w in states[i].writers <==> w < Opens(ops[..i]) && !Finished(ops[..i], w)
    ensures w !in states[i].writers && w >= Opens(ops[..i]) ==> !Finished(ops[..i], w) && Taken(ops[..i], w) == []
    ensures w in states[i].writers ==> states[i].writers[w].hashed == Taken(ops[..i], w)
  {
    hide Next, Enabled, Inv, Opens, Finished, Finishes, Taken;
    if i == 0 {
      NoOpsYet(w);
    } else {
      WritersFollowTheOperations(hash, states, ops, i - 1, w);
      EveryRunIsClean(hash, states, ops, i - 1);
      WriterStep(hash, states[i - 1], ops[i - 1], w);
      OpsStep(ops, i, w);
      if w in states[i - 1].writers {
        WritersBelow(hash, states[i - 1], w);
      }
      OnlyOpenFinish(states[i - 1], ops[i - 1], w);
    }
  }

  lemma NoOpsYet(w: nat)
    ensures Opens([]) == 0 && !Finished([], w) && Taken([], w) == []
  {
  }

  /** What one more operation adds to what has been opened, finished and taken. */
  lemma OpsStep(ops: seq<Op>, i: nat, w: nat)
    requires 0 < i <= |ops|
    ensures var op, older := ops[i - 1], ops[..i - 1];
            && Opens(ops[..i]) == Opens(older) + (if op.Open? then 1 else 0)
            && (Finished(ops[..i], w) <==> Finished(older, w) || Finishes(op, w))
            && Taken(ops[..i], w)
               == if op.Write? && op.w == w && op.n <= |op.buf| then Taken(older, w) + op.buf[..op.n] else Taken(older, w)
  {
    hide Finishes;
    var op, older := ops[i - 1], ops[..i - 1];
    assert ops[..i] == older + [op] && ops[..i][..i - 1] == older;
    assert Taken(older, w) + [] == Taken(older, w);
  }

  lemma WritersBelow(hash: bytes -> Digest, s: Store, w: nat)
    requires Inv(hash, s) && w in s.writers
    ensures w < s.seqNo
  {
    assert WriterInv(s, w);
  }

  lemma OnlyOpenFinish(s: Store, op: Op, w: nat)
    requires Enabled(s, op)
    ensures Finishes(op, w) || (op.Write? && op.w == w) ==> w in s.writers
    ensures op.Write? ==> op.n <= |op.buf|
  {
  }

  // ---- blobs ----

  /** Step `k` commits exactly `size` bytes that hash to `d`. */
  function Commits(hash: bytes -> Digest, ops: seq<Op>, d: Digest): nat -> bool {
    (k: nat) =>
      && k < |ops| && ops[k].Commit? && ops[k].expected == d
      && |Taken(ops[..k], ops[k].w)| == ops[k].size && hash(Taken(ops[..k], ops[k].w)) == d
  }

  function Removes(ops: seq<Op>, d: Digest): nat -> bool {
    (k: nat) => k < |ops| && ops[k] == RemoveBlob(d)
  }

  lemma BlobStep(hash: bytes -> Digest, s: Store, op: Op, d: Digest)
    requires Inv(hash, s) && Enabled(s, op)
    ensures d in Next(hash, s, op).blobs <==>
            || (op.Commit? && op.expected == d && |s.writers[op.w].hashed| == op.size && hash(s.writers[op.w].hashed) == d)
            || (d in s.blobs && op != RemoveBlob(d))
    ensures d in s.blobs && d in Next(hash, s, op).blobs ==> Next(hash, s, op).blobs[d] == s.blobs[d]
  {
    if op.Commit? {
      assert WriterInv(s, op.w);
    }
    hide Inv;
  }

  /**
   In every run a blob is there exactly when some writer was committed under its digest with
   the bytes, size and digest that its writes amount to, and it has not been removed since.
   */
  lemma {:induction false} BlobsFollowTheOperations(hash: bytes -> Digest, states: seq<Store>, ops: seq<Op>, i: nat, d: Digest)
    requires IsRun(hash, states, ops) && i < |states|
    ensures d in states[i].blobs <==> Since(i, Commits(hash, ops, d), Removes(ops, d))
  {
    hide Since, Next, Inv, Enabled;
    if i == 0 {
      NothingYet(Commits(hash, ops, d), Removes(ops, d));
    } else {
      var op := ops[i - 1];
      BlobsFollowTheOperations(hash, states, ops, i - 1, d);
      EveryRunIsClean(hash, states, ops, i - 1);
      assert Enabled(states[i - 1], op);
      if op.Commit? {
        CommitHasWriter(states[i - 1], op);
        WritersFollowTheOperations(hash, states, ops, i - 1, op.w);
      }
      BlobStep(hash, states[i - 1], op, d);
      SinceNext(i - 1, Commits(hash, ops, d), Removes(ops, d));
    }
  }

  lemma CommitHasWriter(s: Store, op: Op)
    requires op.Commit? && Enabled(s, op)
    ensures op.w in s.writers
  {
  }
}
