/**
 Content digests (crates/core-types/src/lib.rs:32-92) and layer chainIDs
 (crates/images/src/identity.rs:14-32).  SHA-256 itself is a parameter.
 */
module Digests {
  datatype Digest = Digest(hex: string)

  predicate LowerHex(c: char) { '0' <= c <= '9' || 'a' <= c <= 'f' }

  predicate HexDigit(c: char) { LowerHex(c) || 'A' <= c <= 'F' }

  function ToLower(c: char): char {
    if 'A' <= c <= 'Z' then 'a' + (c - 'A') else c
  }

  function Lower(s: string): (r: string)
    ensures |r| == |s|
  {
    seq(|s|, i requires 0 <= i < |s| => ToLower(s[i]))
  }

  /** The value every constructor produces: 64 lower-case hex digits. */
  predicate Valid(d: Digest) {
    |d.hex| == 64 && forall c <- d.hex :: LowerHex(c)
  }

  const ALGO := "sha256"

  function Print(d: Digest): string {
    ALGO + ":" + d.hex
  }

  datatype Parsed = Parsed(digest: Digest) | InvalidDigest | UnsupportedAlgorithm | DigestLength

  /** The index of the first ':' in `s`, or `|s|`. */
  function FirstColon(s: string): (i: nat)
    ensures i <= |s| && (i < |s| ==> s[i] == ':') && forall j | 0 <= j < i :: s[j] != ':'
  {
    if s == [] then 0 else if s[0] == ':' then 0 else 1 + FirstColon(s[1..])
  }

  /** `Digest::from_str`. */
  function Parse(s: string): (p: Parsed)
    ensures p.Parsed? ==> Valid(p.digest)
  {
    var i := FirstColon(s);
    if i == |s| then InvalidDigest
    else if s[..i] != ALGO then UnsupportedAlgorithm
    else
      var hex := s[i + 1..];
      if |hex| != 64 then DigestLength
      else if !(forall c <- hex :: HexDigit(c)) then InvalidDigest
      else
        LowerHexDigits(hex);
        Parsed(Digest(Lower(hex)))
  }

  lemma LowerHexDigits(hex: string)
    requires forall c <- hex :: HexDigit(c)
    ensures forall c <- Lower(hex) :: LowerHex(c)
  {
    forall k | 0 <= k < |hex| ensures LowerHex(Lower(hex)[k]) {
      assert HexDigit(hex[k]);
    }
  }

  /** A digest string as the daemon itself prints it. */
  predicate Canonical(s: string) {
    Parse(s).Parsed? && Print(Parse(s).digest) == s
  }

  lemma ColonOfPrinted(hex: string)
    ensures FirstColon(ALGO + ":" + hex) == 6
  {
    var s := ALGO + ":" + hex;
    assert s[..6] == ALGO && s[6] == ':';
    var i := FirstColon(s);
    assert forall j | 0 <= j < 6 :: s[j] == ALGO[j];
  }

  /** Printing then parsing is the identity, and printed strings are exactly the canonical ones. */
  lemma PrintParse(d: Digest)
    requires Valid(d)
    ensures Parse(Print(d)) == Parsed(d) && Canonical(Print(d)) && |Print(d)| == 71
  {
    ColonOfPrinted(d.hex);
    var s := Print(d);
    assert s[..6] == ALGO && s[7..] == d.hex;
    assert forall k | 0 <= k < 64 :: d.hex[k] in d.hex;
    assert Lower(d.hex) == d.hex;
  }

  lemma PrintInjective(d: Digest, e: Digest)
    requires Print(d) == Print(e)
    ensures d == e
  {
    assert Print(d)[7..] == d.hex && Print(e)[7..] == e.hex;
  }

  /** Two spellings of one digest differ as strings only when one is not canonical. */
  lemma CanonicalIsUnique(s: string, t: string)
    requires Canonical(s) && Canonical(t) && Parse(s).digest == Parse(t).digest
    ensures s == t
  {
  }

  /** Letter case is the only freedom a digest string has. */
  lemma ParseAcceptsAnyCase(s: string)
    ensures Parse(s).Parsed? <==>
            && |s| == 71 && s[..7] == "sha256:" && forall k | 7 <= k < 71 :: HexDigit(s[k])
    ensures Parse(s).Parsed? ==> Print(Parse(s).digest) == "sha256:" + Lower(s[7..])
  {
    assert ALGO + ":" == "sha256:";
    if |s| >= 7 && s[..7] == ALGO + ":" {
      assert s == ALGO + ":" + s[7..];
      ColonOfPrinted(s[7..]);
      assert s[..6] == (ALGO + ":")[..6] == ALGO;
      assert forall k | 7 <= k < |s| :: s[7..][k - 7] == s[k];
    } else if FirstColon(s) == 6 && 6 < |s| {
      assert s[..7] == s[..6] + ":";
    }
  }

  // ---- chainIDs ----

  /** The "Layer ChainID" definition of the OCI image-spec's config.md. */
  function ChainId(hash: string -> Digest, diffIds: seq<Digest>): Digest
    requires diffIds != []
  {
    var n := |diffIds| - 1;
    if n == 0 then diffIds[0] else Chained(hash, ChainId(hash, diffIds[..n]), diffIds[n])
  }

  function Chained(hash: string -> Digest, below: Digest, diffId: Digest): Digest {
    hash(Print(below) + " " + Print(diffId))
  }

  /** `chain_ids`: each element comes from the one before it. */
  method ChainIds(hash: string -> Digest, diffIds: seq<Digest>) returns (chain: seq<Digest>)
    ensures |chain| == |diffIds|
    ensures forall i | 0 <= i < |diffIds| :: chain[i] == ChainId(hash, diffIds[..i + 1])
  {
    chain := [];
    for i := 0 to |diffIds|
      invariant |chain| == i
      invariant forall k | 0 <= k < i :: chain[k] == ChainId(hash, diffIds[..k + 1])
    {
      assert diffIds[..i + 1][..i] == diffIds[..i];
      if i == 0 {
        chain := chain + [diffIds[0]];
      } else {
        chain := chain + [hash(Print(chain[i - 1]) + " " + Print(diffIds[i]))];
      }
    }
  }

  /** The texts that are hashed on the way to the chainID of a stack, one per layer above the first. */
  function Texts(hash: string -> Digest, diffIds: seq<Digest>): set<string>
    requires diffIds != []
  {
    var n := |diffIds| - 1;
    if n == 0 then {}
    else Texts(hash, diffIds[..n]) + {Print(ChainId(hash, diffIds[..n])) + " " + Print(diffIds[n])}
  }

  /** The hash does not collide on the texts of the two stacks. */
  ghost predicate CollisionFree(hash: string -> Digest, a: seq<Digest>, b: seq<Digest>)
    requires a != [] && b != []
  {
    forall s <- Texts(hash, a), t <- Texts(hash, b) | hash(s) == hash(t) :: s == t
  }

  /** SHA-256 as a value is always a well-formed digest. */
  ghost predicate WellTyped(hash: string -> Digest) {
    forall s :: Valid(hash(s))
  }

  ghost predicate AllValid(ds: seq<Digest>) {
    forall i | 0 <= i < |ds| :: Valid(ds[i])
  }

  lemma ChainIdValid(hash: string -> Digest, ds: seq<Digest>)
    requires WellTyped(hash) && ds != [] && AllValid(ds)
    ensures Valid(ChainId(hash, ds))
  {
  }

  /** Fixed-length printing keeps the two digests of the hashed text apart. */
  lemma TextInjective(a: Digest, b: Digest, c: Digest, d: Digest)
    requires Valid(a) && Valid(b) && Valid(c) && Valid(d)
    requires Print(a) + " " + Print(b) == Print(c) + " " + Print(d)
    ensures a == c && b == d
  {
    var s := Print(a) + " " + Print(b);
    assert s[..71] == Print(a) && s[72..] == Print(b);
    assert s[..71] == Print(c) && s[72..] == Print(d);
    PrintInjective(a, c);
    PrintInjective(b, d);
  }

  /**
   Two layer stacks of the same height have the same chainID exactly when they are the same
   stack, provided the hash does not collide on the texts it was given for them.
   */
  lemma {:induction false} ChainIdIdentifiesStack(hash: string -> Digest, a: seq<Digest>, b: seq<Digest>)
    requires WellTyped(hash) && |a| == |b| > 0 && AllValid(a) && AllValid(b)
    requires CollisionFree(hash, a, b)
    ensures ChainId(hash, a) == ChainId(hash, b) <==> a == b
  {
    hide Print, Valid, WellTyped;
    var n := |a| - 1;
    if n == 0 {
      assert a == [a[0]] && b == [b[0]];
    } else {
      var below, below' := a[..n], b[..n];
      assert a == below + [a[n]] && b == below' + [b[n]];
      ChainIdValid(hash, below);
      ChainIdValid(hash, below');
      ChainIdIdentifiesStack(hash, below, below');
      if ChainId(hash, a) == ChainId(hash, b) {
        TextInjective(ChainId(hash, below), a[n], ChainId(hash, below'), b[n]);
      }
    }
  }

  /** Two images share the chainID at index `i` exactly when their first `i + 1` diffIDs agree. */
  lemma SharedChainMeansSharedLayers(
    hash: string -> Digest, a: seq<Digest>, chainA: seq<Digest>, b: seq<Digest>, chainB: seq<Digest>, i: nat)
    requires WellTyped(hash) && i < |a| && i < |b| && AllValid(a) && AllValid(b)
    requires CollisionFree(hash, a[..i + 1], b[..i + 1])
    requires |chainA| == |a| && forall k | 0 <= k < |a| :: chainA[k] == ChainId(hash, a[..k + 1])
    requires |chainB| == |b| && forall k | 0 <= k < |b| :: chainB[k] == ChainId(hash, b[..k + 1])
    ensures chainA[i] == chainB[i] <==> a[..i + 1] == b[..i + 1]
  {
    ChainIdIdentifiesStack(hash, a[..i + 1], b[..i + 1]);
  }

  /**
   The text of the definition: one layer's chainID is its diffID; each further layer's is the
   hash of the printed chainID below it, one blank, and its own printed diffID.
   */
  lemma ChainIdText(hash: string -> Digest, ds: seq<Digest>, d: Digest)
    ensures ChainId(hash, [d]) == d
    ensures ds != [] ==>
              ChainId(hash, ds + [d]) == hash("sha256:" + ChainId(hash, ds).hex + " " + ("sha256:" + d.hex))
  {
    assert (ds + [d])[..|ds|] == ds;
    assert ALGO + ":" == "sha256:";
    assert Print(d) == "sha256:" + d.hex;
    assert ds != [] ==> Print(ChainId(hash, ds)) == "sha256:" + ChainId(hash, ds).hex;
  }

  /** Adding layers on top leaves the chainIDs below alone. */
  lemma ChainStableUnderAppend(hash: string -> Digest, ds: seq<Digest>, more: seq<Digest>, i: nat)
    requires i < |ds|
    ensures ChainId(hash, (ds + more)[..i + 1]) == ChainId(hash, ds[..i + 1])
  {
    assert (ds + more)[..i + 1] == ds[..i + 1];
  }
}
