/**
 The write half of a SPDY connection (crates/cri/src/spdy.rs:591-656): any number of tasks
 hold clones of one `SpdyWriter`; a mutex covers printing a frame, which advances the
 shared deflate stream, and pushing its bytes to the transport.
 */
module SharedWriter {
  import opened Bytes
  import opened Frames
  import opened Multiplexer

  /** The wire image of `fs`, printed in order by a compressor that has seen `sent`. */
  function Wire(c: Codec, sent: seq<bytes>, fs: seq<Frame>): bytes
    decreases |fs|
  {
    if fs == [] then [] else Encode(c, sent, fs[0]) + Wire(c, Sent(sent, fs[0]), fs[1..])
  }

  function SentAll(sent: seq<bytes>, fs: seq<Frame>): seq<bytes>
    decreases |fs|
  {
    if fs == [] then sent else SentAll(Sent(sent, fs[0]), fs[1..])
  }

  /** Every frame is in range when its turn to be printed comes. */
  ghost predicate AllInRange(c: Codec, sent: seq<bytes>, fs: seq<Frame>)
    decreases |fs|
  {
    fs == [] || (WellFormed(c, fs[0]) && InRange(c, sent, fs[0]) && AllInRange(c, Sent(sent, fs[0]), fs[1..]))
  }

  lemma {:induction false} WireAppend(c: Codec, sent: seq<bytes>, fs: seq<Frame>, f: Frame)
    ensures Wire(c, sent, fs + [f]) == Wire(c, sent, fs) + Encode(c, SentAll(sent, fs), f)
    ensures SentAll(sent, fs + [f]) == Sent(SentAll(sent, fs), f)
    ensures AllInRange(c, sent, fs + [f]) <==>
            AllInRange(c, sent, fs) && WellFormed(c, f) && InRange(c, SentAll(sent, fs), f)
    decreases |fs|
  {
    hide Encode, Sent, InRange, WellFormed;
    if fs == [] {
      assert fs + [f] == [f] && [f][1..] == [];
      assert Wire(c, Sent(sent, f), []) == [];
    } else {
      assert (fs + [f])[1..] == fs[1..] + [f];
      WireAppend(c, Sent(sent, fs[0]), fs[1..], f);
    }
  }

  lemma FirstFrameIn(c: Codec, sent: seq<bytes>, f: Frame, rest: bytes)
    requires c.Lawful() && WellFormed(c, f) && InRange(c, sent, f)
    ensures FramesIn(c, c.Compressed(sent), Encode(c, sent, f) + rest)
            == [f] + FramesIn(c, c.Compressed(Sent(sent, f)), rest)
  {
    FrameRoundTrip(c, sent, f, rest);
    hide Encode, Sent, Parse, InRange, WellFormed;
    var w := Encode(c, sent, f);
    assert (w + rest)[|w|..] == rest;
  }

  /** A peer that starts with a matching inflate state reads back exactly the frames printed. */
  lemma {:induction false} PeerRecovers(c: Codec, sent: seq<bytes>, fs: seq<Frame>, tail: bytes)
    requires c.Lawful() && AllInRange(c, sent, fs)
    requires FramesIn(c, c.Compressed(SentAll(sent, fs)), tail) == []
    ensures FramesIn(c, c.Compressed(sent), Wire(c, sent, fs) + tail) == fs
    decreases |fs|
  {
    hide Encode, Sent, FramesIn, InRange, WellFormed, Wire;
    WireUnfold(c, sent, fs, tail);
    if fs != [] {
      FirstFrameIn(c, sent, fs[0], Wire(c, Sent(sent, fs[0]), fs[1..]) + tail);
      PeerRecovers(c, Sent(sent, fs[0]), fs[1..], tail);
    }
  }

  lemma WireUnfold(c: Codec, sent: seq<bytes>, fs: seq<Frame>, tail: bytes)
    ensures fs == [] ==> Wire(c, sent, fs) + tail == tail
    ensures fs != [] ==>
              && fs == [fs[0]] + fs[1..]
              && Wire(c, sent, fs) + tail == Encode(c, sent, fs[0]) + (Wire(c, Sent(sent, fs[0]), fs[1..]) + tail)
  {
    hide Encode, Sent;
  }

  /** `SpdyWriter::write`, the critical section as one call. */
  class SpdyWriter {
    const nv: NvCodec
    var wire: bytes
    ghost var log: seq<Frame>
    ghost var intact: bool

    /** The deflate state has seen every frame printed; until a write is cut short, so has the wire. */
    ghost predicate Valid()
      reads this, nv
    {
      nv.sent == SentAll([], log) && (intact ==> wire == Wire(nv.codec, [], log))
    }

    constructor (codec: Codec)
      ensures Valid() && fresh(nv) && nv.codec == codec && log == [] && intact && wire == []
    {
      nv := new NvCodec(codec);
      wire, log, intact := [], [], true;
    }

    /** `accepted` bytes go out before the transport fails, if it does; `flushed` says how the flush goes. */
    method Write(f: Frame, accepted: nat, flushed: bool) returns (ok: bool)
      requires Valid()
      modifies this, nv`sent
      ensures Valid() && log == old(log) + [f]
      ensures var image := Encode(nv.codec, old(nv.sent), f);
              && wire == old(wire) + (if accepted < |image| then image[..accepted] else image)
              && intact == (old(intact) && accepted >= |image|)
              && ok == (accepted >= |image| && flushed)
    {
      hide Encode, Sent, InRange, WellFormed, AllInRange, Wire, SentAll;
      WireAppend(nv.codec, [], log, f);
      ghost var image := Encode(nv.codec, nv.sent, f);
      var buf := WriteFrame([], f, nv);
      assert buf == image;
      log := log + [f];
      if accepted < |buf| {
        intact := false;
        wire := wire + buf[..accepted];
        return false;
      }
      wire := wire + buf;
      ok := flushed;
    }
  }

  // ---- every interleaving ----

  /**
   A connection shared by `|done|` tasks: who holds the mutex, the bytes of its frame not yet
   pushed, the wire, the deflate history, how far each task is, and the frames printed (with the
   task that printed them) up to the first write that was cut short, together with what was on
   the wire then and what was still to be pushed.
   */
  datatype Link = Link(
    holder: Option<nat>,
    pending: bytes,
    wire: bytes,
    sent: seq<bytes>,
    log: seq<(nat, Frame)>,
    done: seq<nat>,
    cut: Option<(bytes, bytes)>)
  {
    /** The wire as far as the log describes it, and the part of the last frame that is missing from it. */
    function Sound(): bytes { if cut.Some? then cut.value.0 else wire }

    function Missing(): bytes { if cut.Some? then cut.value.1 else pending }
  }

  datatype Action = Acquire(task: nat) | Push(n: nat) | Release | Cut

  ghost predicate Init(programs: seq<seq<Frame>>, s: Link) {
    s == Link(None, [], [], [], [], seq(|programs|, _ => 0), None)
  }

  /**
   Each task writes the frames of its program in order; the mutex admits one at a time.  A write
   is cut when the transport fails or the call is dropped; later writes still try the transport.
   */
  ghost predicate Step(c: Codec, programs: seq<seq<Frame>>, s: Link, a: Action, s': Link) {
    match a
    case Acquire(t) =>
      && s.holder.None? && t < |programs| == |s.done| && s.done[t] < |programs[t]|
      && var f := programs[t][s.done[t]];
         s' == s.(holder := Some(t), sent := Sent(s.sent, f), done := s.done[t := s.done[t] + 1],
                  pending := Encode(c, s.sent, f), log := if s.cut.Some? then s.log else s.log + [(t, f)])
    case Push(n) =>
      && s.holder.Some? && n <= |s.pending|
      && s' == s.(wire := s.wire + s.pending[..n], pending := s.pending[n..])
    case Release => s.holder.Some? && s.pending == [] && s' == s.(holder := None)
    case Cut =>
      && s.holder.Some?
      && s' == s.(holder := None, pending := [],
                  cut := if s.cut.Some? || s.pending == [] then s.cut else Some((s.wire, s.pending)))
  }

  ghost predicate IsRun(c: Codec, programs: seq<seq<Frame>>, states: seq<Link>, actions: seq<Action>) {
    && |states| == |actions| + 1 && Init(programs, states[0])
    && forall i {:trigger actions[i]} | 0 <= i < |actions| :: Step(c, programs, states[i], actions[i], states[i + 1])
  }

  function Printed(log: seq<(nat, Frame)>): (fs: seq<Frame>)
    ensures |fs| == |log|
  {
    seq(|log|, i requires 0 <= i < |log| => log[i].1)
  }

  function ByTask(log: seq<(nat, Frame)>, t: nat): seq<Frame> {
    if log == [] then []
    else ByTask(log[..|log| - 1], t) + if log[|log| - 1].0 == t then [log[|log| - 1].1] else []
  }

  /** The logged frames are what is on the wire and, of the last one, what is missing from it. */
  ghost predicate WireInv(c: Codec, s: Link) {
    && s.Sound() + s.Missing() == Wire(c, [], Printed(s.log))
    && s.Sound() <= s.wire
    && (s.cut.None? ==> s.sent == SentAll([], Printed(s.log)) && (s.holder.None? ==> s.pending == []))
    && (s.Missing() != [] ==> s.log != [] && |s.Missing()| <= |LastFrame(c, s.log)|)
  }

  ghost predicate Inv(c: Codec, programs: seq<seq<Frame>>, s: Link) {
    |s.done| == |programs| && WireInv(c, s) && forall t | 0 <= t < |programs| :: TaskInv(programs, s, t)
  }

  ghost predicate TaskInv(programs: seq<seq<Frame>>, s: Link, t: nat)
    requires t < |programs| == |s.done|
  {
    && s.done[t] <= |programs[t]| && ByTask(s.log, t) <= programs[t][..s.done[t]]
    && (s.cut.None? ==> ByTask(s.log, t) == programs[t][..s.done[t]])
  }

  /** The bytes of the frame printed last. */
  function LastFrame(c: Codec, log: seq<(nat, Frame)>): bytes
    requires log != []
  {
    Encode(c, SentAll([], Printed(log[..|log| - 1])), log[|log| - 1].1)
  }

  lemma LogGrows(c: Codec, log: seq<(nat, Frame)>, t: nat, f: Frame)
    ensures var fs, log' := Printed(log), log + [(t, f)];
            && Wire(c, [], Printed(log')) == Wire(c, [], fs) + Encode(c, SentAll([], fs), f)
            && SentAll([], Printed(log')) == Sent(SentAll([], fs), f)
            && LastFrame(c, log') == Encode(c, SentAll([], fs), f)
  {
    hide Encode, Sent, Wire, SentAll, AllInRange, WellFormed, InRange;
    var fs, log' := Printed(log), log + [(t, f)];
    assert Printed(log') == fs + [f];
    assert log'[..|log|] == log;
    WireAppend(c, [], fs, f);
  }

  lemma AcquireKeepsWire(c: Codec, programs: seq<seq<Frame>>, s: Link, t: nat, s': Link)
    requires WireInv(c, s) && Step(c, programs, s, Acquire(t), s')
    ensures WireInv(c, s')
  {
    hide Encode, Sent, Wire, SentAll, LastFrame, Printed;
    LogGrows(c, s.log, t, programs[t][s.done[t]]);
    assert s.wire + [] == s.wire;
  }

  lemma AcquireAdvances(c: Codec, programs: seq<seq<Frame>>, s: Link, t: nat, s': Link, u: nat)
    requires |s.done| == |programs| && Step(c, programs, s, Acquire(t), s') && u < |programs| && TaskInv(programs, s, u)
    ensures TaskInv(programs, s', u)
  {
    hide Encode, Sent;
    var f := programs[t][s.done[t]];
    assert s.cut.None? ==> s'.log[..|s.log|] == s.log;
    assert u == t ==> programs[t][..s.done[t] + 1] == programs[t][..s.done[t]] + [f];
  }

  lemma AcquireKeepsInv(c: Codec, programs: seq<seq<Frame>>, s: Link, t: nat, s': Link)
    requires Inv(c, programs, s) && Step(c, programs, s, Acquire(t), s')
    ensures Inv(c, programs, s')
  {
    AcquireKeepsWire(c, programs, s, t, s');
    hide Encode, Sent, WireInv, TaskInv;
    forall u | 0 <= u < |programs| ensures TaskInv(programs, s', u) {
      AcquireAdvances(c, programs, s, t, s', u);
    }
  }

  /** A step that prints nothing leaves the tasks alone. */
  lemma TasksKept(c: Codec, programs: seq<seq<Frame>>, s: Link, s': Link)
    requires Inv(c, programs, s) && s'.log == s.log && s'.done == s.done && (s'.cut.None? ==> s.cut.None?)
    ensures forall u | 0 <= u < |programs| :: TaskInv(programs, s', u)
  {
    hide ByTask, WireInv;
    forall u | 0 <= u < |programs| ensures TaskInv(programs, s', u) {
      assert TaskInv(programs, s, u);
    }
  }

  lemma Pushed(wire: bytes, pending: bytes, n: nat)
    requires n <= |pending|
    ensures wire + pending == wire + pending[..n] + pending[n..]
    ensures wire <= wire + pending[..n]
  {
  }

  lemma PushKeepsWire(c: Codec, programs: seq<seq<Frame>>, s: Link, n: nat, s': Link)
    requires WireInv(c, s) && Step(c, programs, s, Push(n), s')
    ensures WireInv(c, s')
  {
    hide Encode, Sent, Wire, SentAll, LastFrame, Printed;
    Pushed(s.wire, s.pending, n);
  }

  lemma StepKeepsInv(c: Codec, programs: seq<seq<Frame>>, s: Link, a: Action, s': Link)
    requires Inv(c, programs, s) && Step(c, programs, s, a, s')
    ensures Inv(c, programs, s')
  {
    match a
    case Acquire(t) =>
      AcquireKeepsInv(c, programs, s, t, s');
    case Push(n) =>
      TasksKept(c, programs, s, s');
      PushKeepsWire(c, programs, s, n, s');
      hide WireInv, TaskInv;
    case _ =>
      TasksKept(c, programs, s, s');
      hide Encode, Sent, Wire, SentAll, LastFrame, Printed, TaskInv;
  }

  lemma InitInv(c: Codec, programs: seq<seq<Frame>>, s: Link)
    requires Init(programs, s)
    ensures Inv(c, programs, s)
  {
    assert Printed([]) == [];
  }

  lemma {:induction false} RunKeepsInv(c: Codec, programs: seq<seq<Frame>>, states: seq<Link>, actions: seq<Action>, i: nat)
    requires IsRun(c, programs, states, actions) && i < |states|
    ensures Inv(c, programs, states[i])
  {
    hide Step, Inv;
    if i == 0 {
      InitInv(c, programs, states[0]);
    } else {
      RunKeepsInv(c, programs, states, actions, i - 1);
      StepKeepsInv(c, programs, states[i - 1], actions[i - 1], states[i]);
    }
  }

  /** The wire when a frame is not all on it: whole frames, then a strict prefix of the last one. */
  lemma CutFrameIsInvisible(c: Codec, s: Link)
    requires c.Lawful() && AllInRange(c, [], Printed(s.log))
    requires s.log != [] && s.Missing() != [] && |s.Missing()| <= |LastFrame(c, s.log)|
    requires s.Sound() + s.Missing() == Wire(c, [], Printed(s.log))
    ensures FramesIn(c, [], s.Sound()) == Printed(s.log[..|s.log| - 1])
  {
    hide Encode, Sent, FramesIn, InRange, WellFormed, Wire, SentAll, AllInRange;
    var older, f := Printed(s.log[..|s.log| - 1]), s.log[|s.log| - 1].1;
    assert Printed(s.log) == older + [f];
    WireAppend(c, [], older, f);
    var whole, w, sound := Wire(c, [], older), LastFrame(c, s.log), s.Sound();
    var k := |w| - |s.Missing()|;
    assert sound == (sound + s.Missing())[..|sound|] == (whole + w)[..|sound|] == whole + w[..k];
    CutFrameWaits(c, SentAll([], older), f, k);
    PeerRecovers(c, [], older, w[..k]);
  }

  lemma CutFrameWaits(c: Codec, sent: seq<bytes>, f: Frame, k: nat)
    requires InRange(c, sent, f) && k < |Encode(c, sent, f)|
    ensures FramesIn(c, c.Compressed(sent), Encode(c, sent, f)[..k]) == [] && c.Compressed([]) == []
  {
    PartialFrameWaits(c, sent, c.Compressed(sent), f, k);
  }

  /**
   In every run, at every moment: a peer with a fresh inflate state reads from the wire exactly
   the frames printed so far in lock order (all but the last one while its bytes are still
   being pushed), and each task's frames among them are the beginning of its program.  Once a
   write has been cut short the same holds of what was on the wire at that moment, which stays
   the beginning of the wire whatever later writes add.
   */
  lemma WireIsWholeFramesInLockOrder(
    c: Codec, programs: seq<seq<Frame>>, states: seq<Link>, actions: seq<Action>, i: nat)
    requires c.Lawful() && IsRun(c, programs, states, actions) && i < |states|
    requires AllInRange(c, [], Printed(states[i].log))
    ensures var s := states[i];
            && s.Sound() <= s.wire && (s.cut.None? ==> s.Sound() == s.wire)
            && (s.Missing() != [] ==> s.log != [])
            && FramesIn(c, [], s.Sound()) == Printed(if s.Missing() == [] then s.log else s.log[..|s.log| - 1])
            && forall t | 0 <= t < |programs| :: ByTask(s.log, t) <= programs[t]
  {
    hide Encode, Sent, InRange, WellFormed, Wire, SentAll, AllInRange, LastFrame;
    RunKeepsInv(c, programs, states, actions, i);
    var s := states[i];
    if s.Missing() == [] {
      assert s.Sound() + [] == s.Sound() && c.Compressed([]) == [];
      PeerRecovers(c, [], Printed(s.log), []);
    } else {
      CutFrameIsInvisible(c, s);
    }
    forall t | 0 <= t < |programs| ensures ByTask(s.log, t) <= programs[t] {
      assert TaskInv(programs, s, t);
    }
  }

  /** A server reading that wire, in whatever chunks, serves exactly the streams the client's frames open. */
  lemma ClientFramesReachTheServer(c: Codec, w: World, fs: seq<Frame>, chunks: seq<bytes>)
    requires c.Lawful() && AllInRange(c, [], fs) && Seen(chunks) == Wire(c, [], fs)
    ensures var st := Drain(c, w, FRESH, Seen(chunks)).0;
            Fates(st) == Streams(w, 0, fs) && st.replies == Answers(w, 0, fs)
  {
    hide Wire, AllInRange, Streams, Answers, Drain;
    assert Wire(c, [], fs) + [] == Wire(c, [], fs) && c.Compressed([]) == [];
    PeerRecovers(c, [], fs, []);
    StreamsReceiveTheirData(c, w, Wire(c, [], fs));
  }
}
