/**
 Capabilities (crates/runtime/src/bundle.rs:242-424 and 510-526) and the resolution of the
 RuntimeDefault seccomp profile against them (crates/runtime/src/seccomp.rs:97-155).
 */
module Seccomp {
  import opened Bytes

  // ---- capability names ----

  const CAPABILITIES_A_TO_L: set<string> := {
    "AUDIT_CONTROL", "AUDIT_READ", "AUDIT_WRITE", "BLOCK_SUSPEND", "BPF", "CHECKPOINT_RESTORE", "CHOWN",
    "DAC_OVERRIDE", "DAC_READ_SEARCH", "FOWNER", "FSETID", "IPC_LOCK", "IPC_OWNER", "KILL", "LEASE"}

  const CAPABILITIES_L_TO_S: set<string> := {
    "LINUX_IMMUTABLE", "MAC_ADMIN", "MAC_OVERRIDE", "MKNOD", "NET_ADMIN", "NET_BIND_SERVICE",
    "NET_BROADCAST", "NET_RAW", "PERFMON", "SETFCAP", "SETGID", "SETPCAP", "SETUID"}

  const CAPABILITIES_S_TO_W: set<string> := {
    "SYS_ADMIN", "SYS_BOOT", "SYS_CHROOT", "SYS_MODULE", "SYS_NICE", "SYS_PACCT", "SYS_PTRACE", "SYS_RAWIO",
    "SYS_RESOURCE", "SYS_TIME", "SYS_TTY_CONFIG", "SYSLOG", "WAKE_ALARM"}

  const ALL_CAPABILITIES: set<string> := CAPABILITIES_A_TO_L + CAPABILITIES_L_TO_S + CAPABILITIES_S_TO_W

  const DEFAULT_CAPABILITIES: set<string> := {
    "AUDIT_WRITE", "CHOWN", "DAC_OVERRIDE", "FOWNER", "FSETID", "KILL", "MKNOD", "NET_BIND_SERVICE",
    "NET_RAW", "SETFCAP", "SETGID", "SETPCAP", "SETUID", "SYS_CHROOT"}

  predicate Space(c: char) { c == ' ' || '\t' <= c <= '\r' }

  function TrimStart(s: string): string {
    if s != "" && Space(s[0]) then TrimStart(s[1..]) else s
  }

  function TrimEnd(s: string): string {
    if s != "" && Space(s[|s| - 1]) then TrimEnd(s[..|s| - 1]) else s
  }

  function UpperChar(c: char): char {
    if 'a' <= c <= 'z' then 'A' + (c - 'a') else c
  }

  function Upper(s: string): (r: string)
    ensures |r| == |s|
  {
    seq(|s|, i requires 0 <= i < |s| => UpperChar(s[i]))
  }

  const CAP := "CAP_"

  /** Any number of leading "CAP_". */
  function StripCap(s: string): string {
    if CAP <= s then StripCap(s[|CAP|..]) else s
  }

  /** The normalised name that `parse_cap` and `apply_capabilities` work with. */
  function Key(name: string): string {
    StripCap(Upper(TrimEnd(TrimStart(name))))
  }

  /** `parse_cap`: none for "ALL" and for unknown names. */
  function ParseCap(name: string): Option<string> {
    var key := Key(name);
    if key != "ALL" && key in ALL_CAPABILITIES then Some(key) else None
  }

  lemma {:induction false} TrimStartUpper(s: string)
    ensures Upper(TrimStart(s)) == TrimStart(Upper(s))
  {
    if s != "" && Space(s[0]) {
      TrimStartUpper(s[1..]);
      assert Upper(s)[1..] == Upper(s[1..]);
    }
  }

  lemma {:induction false} TrimEndUpper(s: string)
    ensures Upper(TrimEnd(s)) == TrimEnd(Upper(s))
  {
    var n := |s| - 1;
    if s != "" && Space(s[n]) {
      TrimEndUpper(s[..n]);
      assert Upper(s)[..n] == Upper(s[..n]);
    }
  }

  /** Letter case does not matter. */
  lemma KeyIgnoresCase(s: string, t: string)
    requires Upper(s) == Upper(t)
    ensures Key(s) == Key(t)
  {
    TrimStartUpper(s);
    TrimStartUpper(t);
    TrimEndUpper(TrimStart(s));
    TrimEndUpper(TrimStart(t));
  }

  lemma {:induction false} TrimEndAfterCap(s: string)
    ensures TrimEnd(CAP + s) == CAP + TrimEnd(s)
  {
    var n := |s| - 1;
    if s == "" {
      assert CAP + s == CAP;
    } else if Space(s[n]) {
      assert (CAP + s)[..|CAP + s| - 1] == CAP + s[..n];
      TrimEndAfterCap(s[..n]);
    }
  }

  /** Nor does a CAP_ prefix, unless white space follows it. */
  lemma KeyIgnoresPrefix(s: string)
    requires s == "" || !Space(s[0])
    ensures Key(CAP + s) == Key(s)
  {
    var t := TrimEnd(s);
    TrimEndAfterCap(s);
    assert TrimStart(CAP + s) == CAP + s && TrimStart(s) == s;
    assert Upper(CAP + t) == CAP + Upper(t);
    assert (CAP + Upper(t))[|CAP|..] == Upper(t);
  }

  // ---- what a name spells ----

  /** Tab, line feed, vertical tab, form feed, carriage return and blank. */
  predicate White(s: string) {
    forall i | 0 <= i < |s| :: s[i] as int in {9, 10, 11, 12, 13, 32}
  }

  /** The letters of `word`, each in upper or lower case. */
  predicate SameLetters(s: string, word: string) {
    |s| == |word| && forall i | 0 <= i < |s| :: s[i] == word[i] || ('A' <= word[i] <= 'Z' && s[i] as int == word[i] as int + 32)
  }

  /** "CAP_" `n` times, then `word`. */
  function Prefixed(n: nat, word: string): string {
    if n == 0 then word else "CAP_" + Prefixed(n - 1, word)
  }

  /** White space, any number of "CAP_", the word in any letter case, white space. */
  ghost predicate Spells(name: string, word: string) {
    exists before, middle, after, n: nat :: SpelledAs(name, word, before, middle, after, n)
  }

  predicate SpelledAs(name: string, word: string, before: string, middle: string, after: string, n: nat) {
    name == before + middle + after && White(before) && White(after) && SameLetters(middle, Prefixed(n, word))
  }

  /** A capability name: upper-case letters and underscores, without the prefix. */
  predicate Plain(word: string) {
    word != "" && !("CAP_" <= word) && Capitals(word)
  }

  predicate Capitals(word: string) {
    forall i | 0 <= i < |word| :: 'A' <= word[i] <= 'Z' || word[i] == '_'
  }

  lemma {:induction false} TrimStartDrops(before: string, rest: string)
    requires White(before) && (rest == "" || !Space(rest[0]))
    ensures TrimStart(before + rest) == rest
  {
    if before == "" {
      assert before + rest == rest;
    } else {
      assert (before + rest)[0] == before[0] && (before + rest)[1..] == before[1..] + rest;
      TrimStartDrops(before[1..], rest);
    }
  }

  lemma {:induction false} TrimEndDrops(rest: string, after: string)
    requires White(after) && (rest == "" || !Space(rest[|rest| - 1]))
    ensures TrimEnd(rest + after) == rest
    decreases |after|
  {
    var n := |after| - 1;
    if after == "" {
      assert rest + after == rest;
    } else {
      assert (rest + after)[|rest + after| - 1] == after[n] && (rest + after)[..|rest + after| - 1] == rest + after[..n];
      TrimEndDrops(rest, after[..n]);
    }
  }

  lemma {:induction false} TrimStartKeeps(s: string) returns (k: nat)
    ensures k <= |s| && TrimStart(s) == s[k..] && White(s[..k])
  {
    k := 0;
    if s != "" && Space(s[0]) {
      k := TrimStartKeeps(s[1..]);
      assert s[1..][k..] == s[k + 1..];
      assert forall i | 0 <= i < k :: s[i + 1] == s[1..][..k][i];
      k := k + 1;
    }
  }

  lemma {:induction false} TrimEndKeeps(s: string) returns (k: nat)
    ensures k <= |s| && TrimEnd(s) == s[..k] && White(s[k..])
  {
    var n := |s| - 1;
    k := |s|;
    if s != "" && Space(s[n]) {
      k := TrimEndKeeps(s[..n]);
      assert s[..n][..k] == s[..k];
      assert forall i | k <= i < n :: s[i] == s[..n][k..][i - k];
    }
  }

  /** Text that is already in upper case. */
  predicate IsUpper(s: string) { forall i | 0 <= i < |s| :: !('a' <= s[i] <= 'z') }

  lemma UpperOfSpelling(s: string, word: string)
    requires IsUpper(word)
    ensures SameLetters(s, word) <==> Upper(s) == word
  {
    if SameLetters(s, word) {
      assert forall i | 0 <= i < |s| :: Upper(s)[i] == word[i];
    }
    if Upper(s) == word {
      forall i | 0 <= i < |s| ensures s[i] == word[i] || ('A' <= word[i] <= 'Z' && s[i] as int == word[i] as int + 32) {
        assert Upper(s)[i] == word[i];
      }
    }
  }

  lemma {:induction false} StripPrefixed(n: nat, word: string)
    requires !("CAP_" <= word)
    ensures StripCap(Prefixed(n, word)) == word
  {
    if n > 0 {
      assert Prefixed(n, word)[4..] == Prefixed(n - 1, word);
      StripPrefixed(n - 1, word);
    }
  }

  lemma {:induction false} StripKeeps(s: string) returns (n: nat)
    ensures s == Prefixed(n, StripCap(s))
  {
    if CAP <= s {
      n := StripKeeps(s[4..]);
      n := n + 1;
      assert s == "CAP_" + s[4..];
    } else {
      n := 0;
    }
  }

  lemma {:induction false} PrefixedIsPlain(n: nat, word: string)
    requires Plain(word)
    ensures var p := Prefixed(n, word); p != "" && Capitals(p)
  {
    if n > 0 {
      PrefixedIsPlain(n - 1, word);
    }
  }

  lemma SpellingEnds(s: string, word: string)
    requires SameLetters(s, word) && word != "" && Capitals(word)
    ensures s != "" && !Space(s[0]) && !Space(s[|s| - 1]) && IsUpper(word)
  {
  }

  /** The key of a name is a word exactly when the name spells it. */
  lemma KeyIsWhatIsSpelled(name: string, word: string)
    requires Plain(word)
    ensures Key(name) == word <==> Spells(name, word)
  {
    hide TrimStart, TrimEnd, Upper, StripCap, White, SameLetters, Prefixed;
    if before, middle, after, n: nat :| SpelledAs(name, word, before, middle, after, n) {
      PrefixedIsPlain(n, word);
      SpellingEnds(middle, Prefixed(n, word));
      assert before + middle + after == before + (middle + after);
      TrimStartDrops(before, middle + after);
      TrimEndDrops(middle, after);
      UpperOfSpelling(middle, Prefixed(n, word));
      StripPrefixed(n, word);
    }
    if Key(name) == word {
      var k := TrimStartKeeps(name);
      var rest := name[k..];
      var j := TrimEndKeeps(rest);
      var before, middle, after := name[..k], rest[..j], rest[j..];
      var n := StripKeeps(Upper(middle));
      PrefixedIsPlain(n, word);
      assert IsUpper(Prefixed(n, word));
      UpperOfSpelling(middle, Prefixed(n, word));
      assert before + middle + after == before + (middle + after);
      assert SpelledAs(name, word, before, middle, after, n);
    }
  }

  /** Some name of the list spells the word. */
  ghost predicate Named(names: seq<string>, word: string) {
    exists name <- names :: Spells(name, word)
  }

  lemma NamedIsInKeys(names: seq<string>, word: string)
    requires Plain(word)
    ensures word in Keys(names) <==> Named(names, word)
  {
    hide Key, Spells;
    forall name ensures Key(name) == word <==> Spells(name, word) {
      KeyIsWhatIsSpelled(name, word);
    }
  }

  // ---- applying add and drop lists ----

  function Keys(names: seq<string>): set<string> {
    set n | n in names :: Key(n)
  }

  /** (base minus drops) plus adds, with ALL clearing or filling. */
  function Adjusted(base: set<string>, add: set<string>, drop: set<string>): set<string> {
    (if "ALL" in drop then {} else base - drop)
    + (if "ALL" in add then ALL_CAPABILITIES else add * ALL_CAPABILITIES)
  }

  lemma KeysAppend(names: seq<string>, i: nat)
    requires i < |names|
    ensures Keys(names[..i + 1]) == Keys(names[..i]) + {Key(names[i])}
  {
    hide Key;
    assert names[..i + 1] == names[..i] + [names[i]];
  }

  /** The drop loop of `apply_capabilities`. */
  method DropCaps(base: set<string>, drop: seq<string>) returns (caps: set<string>)
    requires base <= ALL_CAPABILITIES
    ensures caps == if "ALL" in Keys(drop) then {} else base - Keys(drop)
  {
    hide Key;
    caps := base;
    for i := 0 to |drop|
      invariant caps == if "ALL" in Keys(drop[..i]) then {} else base - Keys(drop[..i])
    {
      KeysAppend(drop, i);
      var cap := ParseCap(drop[i]);
      if Key(drop[i]) == "ALL" {
        caps := {};
      } else if cap.Some? {
        caps := caps - {cap.value};
      }
    }
    assert drop[..|drop|] == drop;
  }

  /** The add loop. */
  method AddCaps(base: set<string>, add: seq<string>) returns (caps: set<string>)
    ensures caps == base + if "ALL" in Keys(add) then ALL_CAPABILITIES else Keys(add) * ALL_CAPABILITIES
  {
    hide Key;
    caps := base;
    for i := 0 to |add|
      invariant caps == base + if "ALL" in Keys(add[..i]) then ALL_CAPABILITIES else Keys(add[..i]) * ALL_CAPABILITIES
    {
      KeysAppend(add, i);
      var cap := ParseCap(add[i]);
      if Key(add[i]) == "ALL" {
        caps := caps + ALL_CAPABILITIES;
      } else if cap.Some? {
        caps := caps + {cap.value};
      }
    }
    assert add[..|add|] == add;
  }

  /** A name of two letters at least that does not start with "CA". */
  predicate Unprefixed(cap: string) { |cap| >= 2 && (cap[0] != 'C' || cap[1] != 'A') }

  lemma CapitalsAToL(cap: string)
    requires cap in CAPABILITIES_A_TO_L
    ensures Capitals(cap)
  {
  }

  lemma UnprefixedAToL(cap: string)
    requires cap in CAPABILITIES_A_TO_L
    ensures Unprefixed(cap)
  {
  }

  lemma CapitalsLToS(cap: string)
    requires cap in CAPABILITIES_L_TO_S
    ensures Capitals(cap)
  {
  }

  lemma UnprefixedLToS(cap: string)
    requires cap in CAPABILITIES_L_TO_S
    ensures Unprefixed(cap)
  {
  }

  lemma CapitalsSToW(cap: string)
    requires cap in CAPABILITIES_S_TO_W
    ensures Capitals(cap)
  {
  }

  lemma UnprefixedSToW(cap: string)
    requires cap in CAPABILITIES_S_TO_W
    ensures Unprefixed(cap)
  {
  }

  lemma CapabilityIsCapitals(cap: string)
    requires cap in ALL_CAPABILITIES
    ensures Capitals(cap) && Unprefixed(cap)
  {
    hide Capitals, Unprefixed;
    if cap in CAPABILITIES_A_TO_L {
      CapitalsAToL(cap);
      UnprefixedAToL(cap);
    } else if cap in CAPABILITIES_L_TO_S {
      CapitalsLToS(cap);
      UnprefixedLToS(cap);
    } else {
      CapitalsSToW(cap);
      UnprefixedSToW(cap);
    }
  }

  lemma CapabilityIsPlain(cap: string)
    requires cap in ALL_CAPABILITIES || cap == "ALL"
    ensures Plain(cap)
  {
    hide Capitals;
    assert "CAP_"[0] == 'C' && "CAP_"[1] == 'A';
    if cap in ALL_CAPABILITIES {
      CapabilityIsCapitals(cap);
    } else {
      AllIsCapitals();
    }
  }

  lemma AllIsCapitals()
    ensures Capitals("ALL") && "ALL"[0] == 'A'
  {
  }

  /**
   What add and drop lists leave of the defaults, by what their names spell: a capability is
   held exactly when it or ALL is added, or it is a default and neither it nor ALL is dropped.
   Names that spell nothing known change nothing.
   */
  lemma AdjustedByName(add: seq<string>, drop: seq<string>, cap: string)
    ensures cap in Adjusted(DEFAULT_CAPABILITIES, Keys(add), Keys(drop)) <==>
            && cap in ALL_CAPABILITIES
            && (|| Named(add, cap) || Named(add, "ALL")
                || (cap in DEFAULT_CAPABILITIES && !Named(drop, cap) && !Named(drop, "ALL")))
  {
    hide Keys, Named, Plain;
    CapabilityIsPlain("ALL");
    NamedIsInKeys(add, "ALL");
    NamedIsInKeys(drop, "ALL");
    if cap in ALL_CAPABILITIES {
      CapabilityIsPlain(cap);
      NamedIsInKeys(add, cap);
      NamedIsInKeys(drop, cap);
    }
  }

  /** `process.capabilities`: four equal sets and the ambient one. */
  datatype Capabilities = Capabilities(granted: set<string>, ambient: set<string>)

  /** `apply_capabilities` on the spec's default process, then `apply_privileged` if asked. */
  method ProcessCapabilities(privileged: bool, add: seq<string>, drop: seq<string>) returns (c: Capabilities)
    ensures c.granted == if privileged then ALL_CAPABILITIES else Adjusted(DEFAULT_CAPABILITIES, Keys(add), Keys(drop))
    ensures c.ambient == if privileged || add != [] || drop != [] then c.granted else {}
    ensures forall cap: string ::
              cap in c.granted <==>
              && cap in ALL_CAPABILITIES
              && (|| privileged || Named(add, cap) || Named(add, "ALL")
                  || (cap in DEFAULT_CAPABILITIES && !Named(drop, cap) && !Named(drop, "ALL")))
  {
    hide Key, Named;
    forall cap: string {
      AdjustedByName(add, drop, cap);
    }
    c := Capabilities(DEFAULT_CAPABILITIES, {});
    if privileged {
      return Capabilities(ALL_CAPABILITIES, ALL_CAPABILITIES);
    }
    if add == [] && drop == [] {
      return;
    }
    var caps := DropCaps(DEFAULT_CAPABILITIES, drop);
    caps := AddCaps(caps, add);
    c := Capabilities(caps, caps);
  }

  // ---- the seccomp profile ----

  const ALLOW := "SCMP_ACT_ALLOW"

  datatype Filter = Filter(caps: seq<string>, arches: seq<string>, minKernel: Option<string>)
  const NO_FILTER := Filter([], [], None)

  /** A condition on a call's arguments; what it means is the kernel's business. */
  type Arg = nat

  datatype Block = Block(names: seq<string>, action: string, args: seq<Arg>, includes: Filter, excludes: Filter)

  /** The two match closures: some name of the list is held. */
  predicate AnyOf(names: seq<string>, held: set<string>) {
    exists n <- names :: n in held
  }

  /** Excludes first, then every include that is present; `minKernel` counts as satisfied. */
  predicate Kept(b: Block, arch: set<string>, caps: set<string>) {
    && !(b.excludes.arches != [] && AnyOf(b.excludes.arches, arch))
    && !(b.excludes.caps != [] && AnyOf(b.excludes.caps, caps))
    && (b.includes.arches == [] || AnyOf(b.includes.arches, arch))
    && (b.includes.caps == [] || AnyOf(b.includes.caps, caps))
    && b.excludes.minKernel.None?
  }

  function KeptBlocks(profile: seq<Block>, arch: set<string>, caps: set<string>): seq<Block> {
    if profile == [] then []
    else
      var n := |profile| - 1;
      KeptBlocks(profile[..n], arch, caps) + if Kept(profile[n], arch, caps) then [profile[n]] else []
  }

  /** The block loop of `runtime_default`; `arch` holds the host's token, if it has one. */
  method RuntimeDefault(profile: seq<Block>, arch: set<string>, caps: set<string>) returns (out: seq<Block>)
    ensures out == KeptBlocks(profile, arch, caps)
  {
    out := [];
    for i := 0 to |profile|
      invariant out == KeptBlocks(profile[..i], arch, caps)
    {
      assert profile[..i + 1][..i] == profile[..i];
      var b := profile[i];
      if b.excludes.arches != [] && AnyOf(b.excludes.arches, arch) {
        continue;
      }
      if b.excludes.caps != [] && AnyOf(b.excludes.caps, caps) {
        continue;
      }
      if b.includes.arches != [] && !AnyOf(b.includes.arches, arch) {
        continue;
      }
      if b.includes.caps != [] && !AnyOf(b.includes.caps, caps) {
        continue;
      }
      if b.excludes.minKernel.Some? {
        continue;
      }
      out := out + [b];
    }
    assert profile[..|profile|] == profile;
  }

  /**
   A block is emitted if and only if it is in the profile, no capability it excludes is held and
   no architecture it excludes is the host's, of those it includes one is held or is the host's
   unless it names none, and it excludes no kernel version.
   */
  lemma {:induction false} KeptBlocksAre(profile: seq<Block>, arch: set<string>, caps: set<string>, b: Block)
    ensures b in KeptBlocks(profile, arch, caps) <==> b in profile && Kept(b, arch, caps)
    ensures b in KeptBlocks(profile, arch, caps) <==>
            && b in profile
            && (forall c <- b.excludes.caps :: c !in caps) && (forall a <- b.excludes.arches :: a !in arch)
            && (b.includes.caps == [] || exists c <- b.includes.caps :: c in caps)
            && (b.includes.arches == [] || exists a <- b.includes.arches :: a in arch)
            && b.excludes.minKernel == None
  {
    KeptMeans(b, arch, caps);
    hide Kept;
    if profile != [] {
      var n := |profile| - 1;
      KeptBlocksAre(profile[..n], arch, caps, b);
      assert profile == profile[..n] + [profile[n]];
    }
  }

  lemma KeptMeans(b: Block, arch: set<string>, caps: set<string>)
    ensures Kept(b, arch, caps) <==>
            && (forall c <- b.excludes.caps :: c !in caps) && (forall a <- b.excludes.arches :: a !in arch)
            && (b.includes.caps == [] || exists c <- b.includes.caps :: c in caps)
            && (b.includes.arches == [] || exists a <- b.includes.arches :: a in arch)
            && b.excludes.minKernel == None
  {
  }

  /** A system call: its name and which argument conditions it meets. */
  datatype Call = Call(name: string, meets: Arg -> bool)

  ghost predicate Allows(b: Block, call: Call) {
    b.action == ALLOW && call.name in b.names && forall a <- b.args :: call.meets(a)
  }

  ghost predicate Allowed(blocks: seq<Block>, call: Call) {
    exists b <- blocks :: Allows(b, call)
  }

  /** An ALLOW block for `name`, whatever the arguments, that holding `cap` alone keeps. */
  predicate Grants(b: Block, cap: string, name: string) {
    && b.action == ALLOW && name in b.names && b.args == []
    && cap in b.includes.caps && b.includes.arches == [] && b.excludes == NO_FILTER
  }

  /** Whatever a capability takes away by excluding a block, it gives back unconditionally. */
  ghost predicate Compensated(profile: seq<Block>) {
    forall b <- profile, cap, name | b.action == ALLOW && cap in b.excludes.caps && name in b.names ::
      exists g <- profile :: Grants(g, cap, name)
  }

  /** `g` allows `name` on no more conditions than `b` does. */
  predicate Covers(g: Block, b: Block, name: string) {
    g.action == ALLOW && name in g.names && forall a <- g.args :: a in b.args
  }

  /** A call `name` that `b` allows when `caps` are held is covered when `cap`, which excludes `b`, is held too. */
  ghost predicate CoveredAt(profile: seq<Block>, arch: set<string>, b: Block, caps: set<string>, cap: string, name: string) {
    b in profile && b.action == ALLOW && Kept(b, arch, caps) && cap in b.excludes.caps && name in b.names ==>
      exists g <- profile :: Kept(g, arch, caps + {cap}) && Covers(g, b, name)
  }

  /** Whatever one more capability excludes is covered by a block that is then kept. */
  ghost predicate Covered(profile: seq<Block>, arch: set<string>) {
    forall b, caps, cap, name :: CoveredAt(profile, arch, b, caps, cap, name)
  }

  ghost predicate AllowedCall(profile: seq<Block>, arch: set<string>, caps: set<string>, call: Call) {
    Allowed(KeptBlocks(profile, arch, caps), call)
  }

  /** More capabilities never mean fewer allowed calls. */
  ghost predicate Monotone(profile: seq<Block>, arch: set<string>) {
    forall caps, more, call | caps <= more && AllowedCall(profile, arch, caps, call) :: AllowedCall(profile, arch, more, call)
  }

  /** A call is allowed when some kept block allows it. */
  lemma AllowedMeans(profile: seq<Block>, arch: set<string>, caps: set<string>, call: Call)
    ensures AllowedCall(profile, arch, caps, call) <==> exists b <- profile :: Kept(b, arch, caps) && Allows(b, call)
  {
    forall b ensures b in KeptBlocks(profile, arch, caps) <==> b in profile && Kept(b, arch, caps) {
      KeptBlocksAre(profile, arch, caps, b);
    }
  }

  lemma OneMoreCap(profile: seq<Block>, arch: set<string>, caps: set<string>, cap: string, call: Call)
    requires Covered(profile, arch) && AllowedCall(profile, arch, caps, call)
    ensures AllowedCall(profile, arch, caps + {cap}, call)
  {
    AllowedMeans(profile, arch, caps, call);
    AllowedMeans(profile, arch, caps + {cap}, call);
    var b :| b in profile && Kept(b, arch, caps) && Allows(b, call);
    if cap in b.excludes.caps {
      assert CoveredAt(profile, arch, b, caps, cap, call.name);
      var g :| g in profile && Kept(g, arch, caps + {cap}) && Covers(g, b, call.name);
      assert Allows(g, call);
    } else {
      assert Kept(b, arch, caps + {cap});
    }
  }

  lemma {:induction false} CoveredAllowsMore(
    profile: seq<Block>, arch: set<string>, caps: set<string>, more: set<string>, call: Call)
    requires Covered(profile, arch) && caps <= more && AllowedCall(profile, arch, caps, call)
    ensures AllowedCall(profile, arch, more, call)
    decreases more - caps
  {
    hide Covered, AllowedCall;
    if more - caps == {} {
      forall c <- more ensures c in caps {
        assert c !in more - caps;
      }
      assert caps == more;
    } else {
      var cap :| cap in more - caps;
      OneMoreCap(profile, arch, caps, cap, call);
      CoveredAllowsMore(profile, arch, caps + {cap}, more, call);
    }
  }

  lemma MonotoneCovers(profile: seq<Block>, arch: set<string>, b: Block, caps: set<string>, cap: string, name: string)
    requires Monotone(profile, arch)
    ensures CoveredAt(profile, arch, b, caps, cap, name)
  {
    var call := Call(name, a => a in b.args);
    AllowedMeans(profile, arch, caps, call);
    AllowedMeans(profile, arch, caps + {cap}, call);
    hide AllowedCall, Kept;
    if b in profile && b.action == ALLOW && Kept(b, arch, caps) && name in b.names {
      assert Allows(b, call);
      assert caps <= caps + {cap};
      var g :| g in profile && Kept(g, arch, caps + {cap}) && Allows(g, call);
      assert Covers(g, b, name);
    }
  }

  /**
   For every profile and host: enlarging the capability set never takes an allowed call away if
   and only if what a capability excludes is always covered.
   */
  lemma MonotoneExactlyWhenCovered(profile: seq<Block>, arch: set<string>)
    ensures Monotone(profile, arch) <==> Covered(profile, arch)
  {
    hide CoveredAt, AllowedCall;
    if Covered(profile, arch) {
      forall caps, more, call | caps <= more && AllowedCall(profile, arch, caps, call)
        ensures AllowedCall(profile, arch, more, call)
      {
        CoveredAllowsMore(profile, arch, caps, more, call);
      }
    }
    if Monotone(profile, arch) {
      forall b, caps, cap, name ensures CoveredAt(profile, arch, b, caps, cap, name) {
        MonotoneCovers(profile, arch, b, caps, cap, name);
      }
    }
  }

  /** In particular when each capability gives back unconditionally what it excludes. */
  lemma MoreCapsAllowMore(profile: seq<Block>, arch: set<string>)
    requires Compensated(profile)
    ensures Monotone(profile, arch)
  {
    MonotoneExactlyWhenCovered(profile, arch);
    forall b, caps, cap, name ensures CoveredAt(profile, arch, b, caps, cap, name) {
      if b in profile && b.action == ALLOW && cap in b.excludes.caps && name in b.names {
        var g :| g in profile && Grants(g, cap, name);
        assert Kept(g, arch, caps + {cap}) && Covers(g, b, name);
      }
    }
    hide CoveredAt, AllowedCall;
  }

  /** Without that, they can: a block excluded by a capability that grants nothing. */
  lemma UncompensatedCapCanForbid(call: Call)
    requires call.name == "clone"
    ensures var profile := [Block(["clone"], ALLOW, [], NO_FILTER, NO_FILTER.(caps := ["CAP_SYS_ADMIN"]))];
            && Allowed(KeptBlocks(profile, {}, {}), call)
            && !Allowed(KeptBlocks(profile, {}, {"CAP_SYS_ADMIN"}), call)
  {
    var b := Block(["clone"], ALLOW, [], NO_FILTER, NO_FILTER.(caps := ["CAP_SYS_ADMIN"]));
    KeptBlocksAre([b], {}, {}, b);
    assert b in KeptBlocks([b], {}, {}) && Allows(b, call);
    assert "CAP_SYS_ADMIN" in b.excludes.caps;
    assert [b][..0] == [] && KeptBlocks([b], {}, {"CAP_SYS_ADMIN"}) == [];
  }

  /**
   The vendored profile: the blocks gated by CAP_SYS_ADMIN (`gives` lists the other calls the
   capability allows) among blocks that no capability excludes.
   */
  function VendoredProfile(before: seq<Block>, gives: seq<string>, mask0: Arg, mask1: Arg, after: seq<Block>): seq<Block> {
    before
    + [Block(["bpf", "clone", "clone3"] + gives, ALLOW, [], NO_FILTER.(caps := ["CAP_SYS_ADMIN"]), NO_FILTER),
       Block(["clone"], ALLOW, [mask0], NO_FILTER, Filter(["CAP_SYS_ADMIN"], ["s390", "s390x"], None)),
       Block(["clone"], ALLOW, [mask1], NO_FILTER.(arches := ["s390", "s390x"]), NO_FILTER.(caps := ["CAP_SYS_ADMIN"])),
       Block(["clone3"], "SCMP_ACT_ERRNO", [], NO_FILTER, NO_FILTER.(caps := ["CAP_SYS_ADMIN"]))]
    + after
  }

  lemma VendoredProfileIsCompensated(before: seq<Block>, gives: seq<string>, mask0: Arg, mask1: Arg, after: seq<Block>)
    requires forall b <- before + after :: b.excludes.caps == []
    ensures Compensated(VendoredProfile(before, gives, mask0, mask1, after))
  {
    var profile := VendoredProfile(before, gives, mask0, mask1, after);
    var g := profile[|before|];
    assert g in profile && "clone" in g.names;
    forall b <- profile, cap, name | b.action == ALLOW && cap in b.excludes.caps && name in b.names
      ensures exists g <- profile :: Grants(g, cap, name)
    {
      assert b !in before + after;
      assert b in profile[|before|..|before| + 4];
      assert cap == "CAP_SYS_ADMIN" && name == "clone";
      assert Grants(g, cap, name);
    }
  }

  /** `effective_capabilities`: the bounding set as `CAP_*` strings. */
  function Effective(granted: set<string>): set<string> {
    set c | c in granted :: CAP + c
  }

  lemma AdjustedGrows(base: set<string>, add: set<string>, drop: set<string>, add': set<string>, drop': set<string>)
    requires add <= add' && drop' <= drop
    ensures Effective(Adjusted(base, add, drop)) <= Effective(Adjusted(base, add', drop'))
  {
    assert Adjusted(base, add, drop) <= Adjusted(base, add', drop');
    hide Adjusted;
  }

  /** Asking for more capabilities, or dropping fewer, never takes a call away under RuntimeDefault. */
  lemma AddingCapabilitiesNeverForbids(
    profile: seq<Block>, arch: set<string>, base: set<string>,
    add: seq<string>, drop: seq<string>, add': seq<string>, drop': seq<string>, call: Call)
    requires Compensated(profile) && Keys(add) <= Keys(add') && Keys(drop') <= Keys(drop)
    requires Allowed(KeptBlocks(profile, arch, Effective(Adjusted(base, Keys(add), Keys(drop)))), call)
    ensures Allowed(KeptBlocks(profile, arch, Effective(Adjusted(base, Keys(add'), Keys(drop')))), call)
  {
    hide Compensated, Allowed, KeptBlocks, Keys, Adjusted, Effective;
    AdjustedGrows(base, Keys(add), Keys(drop), Keys(add'), Keys(drop'));
    MoreCapsAllowMore(profile, arch);
    assert AllowedCall(profile, arch, Effective(Adjusted(base, Keys(add), Keys(drop))), call);
  }

  lemma EffectiveHas(granted: set<string>, cap: string)
    ensures CAP + cap in Effective(granted) <==> cap in granted
  {
    forall c <- granted ensures CAP + c == CAP + cap ==> c == cap {
      assert (CAP + c)[4..] == c && (CAP + cap)[4..] == cap;
    }
  }

  /**
   Under the vendored profile, when no other block names `clone`: a `clone` that meets neither
   mask is allowed exactly to a process that holds SYS_ADMIN; one that meets its host's mask is
   allowed to every process.
   */
  lemma CloneIsGatedBySysAdmin(
    before: seq<Block>, gives: seq<string>, mask0: Arg, mask1: Arg, after: seq<Block>,
    arch: set<string>, granted: set<string>, call: Call)
    requires call.name == "clone" && forall b <- before + after :: "clone" !in b.names
    ensures var allowed := Allowed(KeptBlocks(VendoredProfile(before, gives, mask0, mask1, after), arch, Effective(granted)), call);
            var swapped := "s390" in arch || "s390x" in arch;
            allowed <==> "SYS_ADMIN" in granted || call.meets(if swapped then mask1 else mask0)
  {
    var profile, caps := VendoredProfile(before, gives, mask0, mask1, after), Effective(granted);
    EffectiveHas(granted, "SYS_ADMIN");
    assert CAP + "SYS_ADMIN" == "CAP_SYS_ADMIN";
    AllowedMeans(profile, arch, caps, call);
    hide Effective, KeptBlocks, Allowed, Allows, Kept;
    var n := |before|;
    CloneOnlyThere(before, gives, mask0, mask1, after, call);
    CloneBlocks(profile[n], profile[n + 1], profile[n + 2], gives, mask0, mask1, arch, caps, call);
    hide VendoredProfile;
  }

  lemma CloneOnlyThere(before: seq<Block>, gives: seq<string>, mask0: Arg, mask1: Arg, after: seq<Block>, call: Call)
    requires call.name == "clone" && forall b <- before + after :: "clone" !in b.names
    ensures var profile, n := VendoredProfile(before, gives, mask0, mask1, after), |before|;
            && |profile| >= n + 3 && profile[n] in profile && profile[n + 1] in profile && profile[n + 2] in profile
            && forall b <- profile | Allows(b, call) :: b == profile[n] || b == profile[n + 1] || b == profile[n + 2]
  {
    var profile, n := VendoredProfile(before, gives, mask0, mask1, after), |before|;
    assert profile[n + 3].action != ALLOW;
    forall b <- profile | Allows(b, call) ensures b == profile[n] || b == profile[n + 1] || b == profile[n + 2] {
      assert b !in before + after;
      assert b in profile[n..n + 4];
    }
  }

  /** The three blocks of the vendored profile that allow `clone`, one by one. */
  lemma CloneBlocks(
    all: Block, first: Block, second: Block, gives: seq<string>, mask0: Arg, mask1: Arg,
    arch: set<string>, caps: set<string>, call: Call)
    requires all == Block(["bpf", "clone", "clone3"] + gives, ALLOW, [], NO_FILTER.(caps := ["CAP_SYS_ADMIN"]), NO_FILTER)
    requires first == Block(["clone"], ALLOW, [mask0], NO_FILTER, Filter(["CAP_SYS_ADMIN"], ["s390", "s390x"], None))
    requires second == Block(["clone"], ALLOW, [mask1], NO_FILTER.(arches := ["s390", "s390x"]), NO_FILTER.(caps := ["CAP_SYS_ADMIN"]))
    requires call.name == "clone"
    ensures var privileged, swapped := "CAP_SYS_ADMIN" in caps, "s390" in arch || "s390x" in arch;
            && (Kept(all, arch, caps) <==> privileged) && Allows(all, call)
            && (Kept(first, arch, caps) <==> !privileged && !swapped) && (Allows(first, call) <==> call.meets(mask0))
            && (Kept(second, arch, caps) <==> !privileged && swapped) && (Allows(second, call) <==> call.meets(mask1))
  {
    assert all.names[1] == "clone";
    forall names: seq<string>, held: set<string> | names == ["CAP_SYS_ADMIN"]
      ensures AnyOf(names, held) <==> "CAP_SYS_ADMIN" in held
    {
      assert "CAP_SYS_ADMIN" in names;
    }
    assert "s390" in ["s390", "s390x"] && "s390x" in ["s390", "s390x"];
    assert AnyOf(["s390", "s390x"], arch) <==> "s390" in arch || "s390x" in arch;
  }
}
