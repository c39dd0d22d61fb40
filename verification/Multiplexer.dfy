/**
 The read loop of a SPDY connection (crates/cri/src/spdy.rs:695-780): it buffers an
 arbitrarily chunked byte stream, parses frames off its front and routes DATA payloads
 to the accepted streams.
 */
module Multiplexer {
  import opened Bytes
  import opened NvBlock
  import opened Frames

  /** An accepted stream and what its receiver has been sent. */
  datatype Stream = Stream(id: u32, headers: seq<Header>, data: seq<bytes>)

  /**
   What the loop holds: the inflate history, the table from stream id to (the index of) the
   stream it feeds, every stream handed to `accept`, the frames handed to the writer, and
   whether the loop is still running.
   */
  datatype Conn = Conn(
    received: seq<bytes>,
    table: map<u32, nat>,
    streams: seq<Stream>,
    replies: seq<Frame>,
    open: bool)

  const FRESH := Conn([], map[], [], [], true)

  /** The outside world: whether the k-th SYN_REPLY can be written and the k-th stream is taken. */
  datatype World = World(replyOk: nat -> bool, acceptOk: nat -> bool) {
    predicate Takes(k: nat) { replyOk(k) && acceptOk(k) }
  }

  ghost predicate Valid(st: Conn) {
    forall id <- st.table :: st.table[id] < |st.streams| && st.streams[st.table[id]].id == id
  }

  predicate Fin(flags: byte) { flags % 2 == 1 }

  /** One frame through the `match` of the read loop. */
  function Dispatch(w: World, st: Conn, f: Frame): Conn
    requires Valid(st)
  {
    match f
    case SynStream(id, _, hs) =>
      var st := st.(replies := st.replies + [SynReply(id, 0, [])]);
      if !w.Takes(|st.streams|) then st.(open := false)
      else st.(table := st.table[id := |st.streams|], streams := st.streams + [Stream(id, hs, [])])
    case Data(id, flags, payload) =>
      var st := if payload != [] && id in st.table then Deliver(st, st.table[id], payload) else st;
      if Fin(flags) then st.(table := st.table - {id}) else st
    case Ping(id) => st.(replies := st.replies + [Ping(id)])
    case RstStream(id, _) => st.(table := st.table - {id})
    case GoAway(_, _) => st.(open := false)
    case _ => st
  }

  function Deliver(st: Conn, k: nat, payload: bytes): Conn
    requires k < |st.streams|
  {
    var s := st.streams[k];
    st.(streams := st.streams[k := s.(data := s.data + [payload])])
  }

  /** Frames dispatched until the loop returns. */
  function Run(w: World, st: Conn, fs: seq<Frame>): Conn
    requires Valid(st)
    decreases |fs|
  {
    if fs == [] || !st.open then st
    else
      DispatchKeepsValid(w, st, fs[0]);
      Run(w, Dispatch(w, st, fs[0]), fs[1..])
  }

  lemma DispatchKeepsValid(w: World, st: Conn, f: Frame)
    requires Valid(st)
    ensures Valid(Dispatch(w, st, f))
  {
  }

  /** The inner loop: every complete frame at the front of `buf`, and what stays buffered. */
  function Drain(c: Codec, w: World, st: Conn, buf: bytes): (Conn, bytes)
    requires Valid(st)
    decreases |buf|
  {
    if !st.open then (st, buf)
    else
      match Parse(c, st.received, buf)
      case Incomplete => (st, buf)
      case Complete(f, n, r) =>
        DispatchKeepsValid(w, st.(received := r), f);
        Drain(c, w, Dispatch(w, st.(received := r), f), buf[n..])
      case _ => (st.(open := false), buf)
  }

  lemma {:induction false} DrainKeepsValid(c: Codec, w: World, st: Conn, buf: bytes)
    requires Valid(st)
    ensures Valid(Drain(c, w, st, buf).0)
    decreases |buf|
  {
    if st.open {
      match Parse(c, st.received, buf)
      case Complete(f, n, r) =>
        DispatchKeepsValid(w, st.(received := r), f);
        DrainKeepsValid(c, w, Dispatch(w, st.(received := r), f), buf[n..]);
      case _ =>
    }
  }

  /** Draining `a`, then what is left of it with `b` behind, is draining `a + b`. */
  lemma {:induction false} DrainAppend(c: Codec, w: World, st: Conn, a: bytes, b: bytes)
    requires Valid(st)
    ensures Valid(Drain(c, w, st, a).0)
    ensures Drain(c, w, st, a + b) == var (st', left) := Drain(c, w, st, a); Drain(c, w, st', left + b)
    decreases |a|
  {
    DrainKeepsValid(c, w, st, a);
    if st.open && !Parse(c, st.received, a).Incomplete? {
      ParseIgnoresWhatFollows(c, st.received, a, b);
      match Parse(c, st.received, a)
      case Complete(f, n, r) =>
        DispatchKeepsValid(w, st.(received := r), f);
        assert (a + b)[n..] == a[n..] + b;
        DrainAppend(c, w, Dispatch(w, st.(received := r), f), a[n..], b);
      case _ =>
    }
  }

  /** The bytes the loop can see: reads up to the first empty one, which is end of input. */
  function Seen(chunks: seq<bytes>): bytes {
    if chunks == [] || chunks[0] == [] then [] else chunks[0] + Seen(chunks[1..])
  }

  /** The inner loop as the source runs it, over the buffer and the codec it owns. */
  method DrainBuffer(w: World, nv: NvCodec, st: Conn, buf: bytes) returns (st': Conn, buf': bytes)
    requires Valid(st) && st.open && nv.received == st.received
    modifies nv`received
    ensures (st', buf') == Drain(nv.codec, w, st, buf)
    ensures st'.open ==> nv.received == st'.received
  {
    hide Dispatch, Parse;
    st', buf' := st, buf;
    while true
      invariant Valid(st') && st'.open && nv.received == st'.received
      invariant Drain(nv.codec, w, st', buf') == Drain(nv.codec, w, st, buf)
      decreases |buf'|
    {
      var p := ParseFrame(buf', nv);
      match p {
        case Incomplete => return;
        case Complete(f, n, r) =>
          buf' := buf'[n..];
          DispatchKeepsValid(w, st'.(received := r), f);
          DispatchIgnoresHistory(w, st', r, f);
          st' := Dispatch(w, st'.(received := r), f);
          if !st'.open {
            return;
          }
        case _ =>
          st' := st'.(open := false);
          return;
      }
    }
  }

  /**
   `read_loop` over the reads `chunks`.  The state it ends in, hence every stream, payload
   and reply, is a function of the bytes alone: how reads split them does not matter.
   */
  method ReadLoop(c: Codec, w: World, chunks: seq<bytes>) returns (st: Conn)
    ensures st == Drain(c, w, FRESH, Seen(chunks)).0
  {
    var nv := new NvCodec(c);
    var buf: bytes := [];
    st := FRESH;
    var i := 0;
    assert chunks[0..] == chunks && buf + Seen(chunks) == Seen(chunks);
    while true
      invariant i <= |chunks|
      invariant Valid(st) && st.open && nv.codec == c && nv.received == st.received
      invariant Drain(c, w, st, buf + Seen(chunks[i..])) == Drain(c, w, FRESH, Seen(chunks))
      decreases |chunks| - i
    {
      ghost var rest, was := Seen(chunks[i..]), buf;
      DrainAppend(c, w, st, buf, rest);
      st, buf := DrainBuffer(w, nv, st, buf);
      if !st.open {
        return;
      }
      if i == |chunks| || chunks[i] == [] {
        assert rest == [] && was + rest == was;
        return;
      }
      assert chunks[i..][1..] == chunks[i + 1..];
      assert buf + rest == buf + chunks[i] + Seen(chunks[i + 1..]);
      buf := buf + chunks[i];
      i := i + 1;
    }
  }

  // ---- frames ----

  /** The frames that parse off the front of `buf`. */
  function FramesIn(c: Codec, received: seq<bytes>, buf: bytes): seq<Frame>
    decreases |buf|
  {
    match Parse(c, received, buf)
    case Complete(f, n, r) => [f] + FramesIn(c, r, buf[n..])
    case _ => []
  }

  /** How the parse of what is left after these frames ends: waiting for more, or in an error. */
  function Leftover(c: Codec, received: seq<bytes>, buf: bytes): Parsed
    decreases |buf|
  {
    match Parse(c, received, buf)
    case Complete(_, n, r) => Leftover(c, r, buf[n..])
    case p => p
  }

  lemma DispatchIgnoresHistory(w: World, st: Conn, r: seq<bytes>, f: Frame)
    requires Valid(st)
    ensures Dispatch(w, st.(received := r), f) == Dispatch(w, st, f).(received := r)
  {
  }

  /** Draining bytes accepts the same streams, with the same data and replies, as running their frames, and ends no later. */
  lemma {:induction false} DrainRunsFrames(c: Codec, w: World, st: Conn, st2: Conn, buf: bytes)
    requires Valid(st) && Valid(st2) && st2 == st.(received := st2.received)
    ensures var got, want := Drain(c, w, st, buf).0, Run(w, st2, FramesIn(c, st.received, buf));
            && got.streams == want.streams && got.replies == want.replies && got.table == want.table
            && (got.open <==> want.open && Leftover(c, st.received, buf).Incomplete?)
    decreases |buf|
  {
    hide Dispatch, Parse;
    if st.open {
      match Parse(c, st.received, buf)
      case Complete(f, n, r) =>
        var next, next2 := Dispatch(w, st.(received := r), f), Dispatch(w, st2, f);
        DispatchKeepsValid(w, st.(received := r), f);
        DispatchKeepsValid(w, st2, f);
        DispatchIgnoresHistory(w, st2, r, f);
        var fs := FramesIn(c, st.received, buf);
        assert fs[0] == f && fs[1..] == FramesIn(c, r, buf[n..]);
        DrainRunsFrames(c, w, next, next2, buf[n..]);
      case _ =>
    }
  }

  // ---- what each stream receives ----

  /** The loop returns at GOAWAY and at a SYN_STREAM (the k-th) that cannot be answered or taken. */
  predicate Stops(w: World, k: nat, f: Frame) {
    f.GoAway? || (f.SynStream? && !w.Takes(k))
  }

  function Opened(k: nat, f: Frame): nat { if f.SynStream? then k + 1 else k }

  /**
   The payloads owed to a stream `id` by the frames `fs` that come after its SYN_STREAM:
   its non-empty DATA, up to and including its FIN, or up to RST_STREAM, another SYN_STREAM
   with the same id, or the frame the loop stops at.
   */
  function Owed(w: World, k: nat, fs: seq<Frame>, id: u32): seq<bytes>
    decreases |fs|
  {
    if fs == [] || Stops(w, k, fs[0]) then []
    else
      var f := fs[0];
      var rest := Owed(w, Opened(k, f), fs[1..], id);
      if f.Data? && f.streamId == id then
        (if f.payload != [] then [f.payload] else []) + (if Fin(f.flags) then [] else rest)
      else if (f.SynStream? || f.RstStream?) && f.streamId == id then []
      else rest
  }

  /** Whether these frames take the stream `id` out of the table: a FIN, a RST_STREAM or another SYN_STREAM with its id. */
  function Detached(w: World, k: nat, fs: seq<Frame>, id: u32): bool
    decreases |fs|
  {
    if fs == [] || Stops(w, k, fs[0]) then false
    else
      var f := fs[0];
      || (f.Data? && f.streamId == id && Fin(f.flags))
      || ((f.SynStream? || f.RstStream?) && f.streamId == id)
      || Detached(w, Opened(k, f), fs[1..], id)
  }

  /** The loop has returned because of one of the frames. */
  function Ended(w: World, k: nat, fs: seq<Frame>): bool
    decreases |fs|
  {
    fs != [] && (Stops(w, k, fs[0]) || Ended(w, Opened(k, fs[0]), fs[1..]))
  }

  /** A stream with what its receiver has been sent, and whether its sender is out of the table. */
  datatype Fate = Fate(stream: Stream, detached: bool)

  /** The streams the frames open, each with what it is owed. */
  function Streams(w: World, k: nat, fs: seq<Frame>): seq<Fate>
    decreases |fs|
  {
    if fs == [] || Stops(w, k, fs[0]) then []
    else
      (if fs[0].SynStream? then [NewFate(w, k + 1, fs[0].streamId, fs[0].headers, fs[1..])] else [])
      + Streams(w, Opened(k, fs[0]), fs[1..])
  }

  function NewFate(w: World, k: nat, id: u32, headers: seq<Header>, fs: seq<Frame>): Fate {
    Fate(Stream(id, headers, Owed(w, k, fs, id)), Detached(w, k, fs, id))
  }

  function AnswerTo(f: Frame): seq<Frame> {
    if f.SynStream? then [SynReply(f.streamId, 0, [])] else if f.Ping? then [f] else []
  }

  /** One SYN_REPLY per SYN_STREAM and one echo per PING, in order. */
  function Answers(w: World, k: nat, fs: seq<Frame>): seq<Frame>
    decreases |fs|
  {
    if fs == [] then []
    else AnswerTo(fs[0]) + if Stops(w, k, fs[0]) then [] else Answers(w, Opened(k, fs[0]), fs[1..])
  }

  predicate Attached(st: Conn, j: nat)
    requires j < |st.streams|
  {
    st.streams[j].id in st.table && st.table[st.streams[j].id] == j
  }

  /** A receiver sees the end of its data when its sender is dropped: by leaving the table, or with the loop. */
  predicate Closed(st: Conn, j: nat)
    requires j < |st.streams|
  {
    !st.open || !Attached(st, j)
  }

  function Fates(st: Conn): (fates: seq<Fate>)
    ensures |fates| == |st.streams|
  {
    seq(|st.streams|, j requires 0 <= j < |st.streams| => Fate(st.streams[j], !Attached(st, j)))
  }

  /** What stream `j` ends with when the frames `fs` are still to come. */
  function Final(w: World, st: Conn, fs: seq<Frame>, j: nat): Fate
    requires j < |st.streams|
  {
    var s := st.streams[j];
    if st.open && Attached(st, j) then
      Fate(s.(data := s.data + Owed(w, |st.streams|, fs, s.id)), Detached(w, |st.streams|, fs, s.id))
    else Fate(s, !Attached(st, j))
  }

  /** Dispatching a frame moves what it owes from the future into the streams. */
  lemma DispatchSettles(w: World, st: Conn, fs: seq<Frame>, j: nat)
    requires Valid(st) && st.open && fs != [] && j < |st.streams|
    ensures var next := Dispatch(w, st, fs[0]); |next.streams| >= |st.streams| && Final(w, next, fs[1..], j) == Final(w, st, fs, j)
  {
    var f, s := fs[0], st.streams[j];
    if f.Data? && f.streamId == s.id && Attached(st, j) {
      var more := Owed(w, |st.streams|, fs[1..], s.id);
      assert s.data + [f.payload] + more == s.data + ([f.payload] + more);
      assert s.data + ([] + more) == s.data + more;
      assert s.data + [f.payload] + [] == s.data + [f.payload];
      assert [f.payload] + [] == [f.payload];
      assert s.data + [] == s.data;
    } else {
      assert s.data + [] == s.data;
    }
  }

  /** What one dispatch does to the number of streams and to the replies. */
  lemma DispatchOpens(w: World, st: Conn, f: Frame)
    requires Valid(st) && st.open
    ensures var n, next := |st.streams|, Dispatch(w, st, f);
            && next.open == !Stops(w, n, f) && next.replies == st.replies + AnswerTo(f)
            && |next.streams| == (if next.open then Opened(n, f) else n)
            && (f.SynStream? && next.open ==>
                  Attached(next, n) && next.streams[n] == Stream(f.streamId, f.headers, []))
  {
    assert st.replies + [] == st.replies;
  }

  lemma {:induction false} RunAnswers(w: World, st: Conn, fs: seq<Frame>)
    requires Valid(st) && st.open
    ensures Run(w, st, fs).replies == st.replies + Answers(w, |st.streams|, fs)
    decreases |fs|
  {
    hide Dispatch, Valid, AnswerTo;
    if fs == [] {
      assert st.replies + [] == st.replies;
    } else {
      var next := Dispatch(w, st, fs[0]);
      DispatchKeepsValid(w, st, fs[0]);
      DispatchOpens(w, st, fs[0]);
      var more := if next.open then Answers(w, |next.streams|, fs[1..]) else [];
      assert st.replies + AnswerTo(fs[0]) + more == st.replies + (AnswerTo(fs[0]) + more);
      if next.open {
        RunAnswers(w, next, fs[1..]);
      } else {
        assert next.replies + [] == next.replies;
      }
    }
  }

  /** The streams that exist now, as they end. */
  function Finals(w: World, st: Conn, fs: seq<Frame>): (fates: seq<Fate>)
    ensures |fates| == |st.streams|
  {
    seq(|st.streams|, j requires 0 <= j < |st.streams| => Final(w, st, fs, j))
  }

  /** Those, then the ones the frames open. */
  function Ending(w: World, st: Conn, fs: seq<Frame>): seq<Fate> {
    Finals(w, st, fs) + if st.open then Streams(w, |st.streams|, fs) else []
  }

  lemma NothingToCome(w: World, st: Conn, fs: seq<Frame>)
    requires fs == [] || !st.open
    ensures Ending(w, st, fs) == Fates(st)
  {
    forall j | 0 <= j < |st.streams| ensures Final(w, st, fs, j) == Fates(st)[j] {
      assert st.streams[j].data + [] == st.streams[j].data;
    }
  }

  /** One dispatch settles the streams there were, and one it opens is owed all that follows. */
  lemma FinalsSettle(w: World, st: Conn, fs: seq<Frame>)
    requires Valid(st) && st.open && fs != []
    ensures var n, next := |st.streams|, Dispatch(w, st, fs[0]);
            Finals(w, next, fs[1..])
            == Finals(w, st, fs)
               + if fs[0].SynStream? && next.open then [NewFate(w, n + 1, fs[0].streamId, fs[0].headers, fs[1..])] else []
  {
    var n, next := |st.streams|, Dispatch(w, st, fs[0]);
    DispatchOpens(w, st, fs[0]);
    hide Dispatch, Valid, Owed, Detached, Stops, Final;
    forall j | 0 <= j < n ensures Final(w, next, fs[1..], j) == Final(w, st, fs, j) {
      DispatchSettles(w, st, fs, j);
    }
    if fs[0].SynStream? && next.open {
      NewStreamEnds(w, next, fs[1..]);
    }
  }

  lemma DispatchEndsTheSame(w: World, st: Conn, fs: seq<Frame>)
    requires Valid(st) && st.open && fs != []
    ensures Ending(w, Dispatch(w, st, fs[0]), fs[1..]) == Ending(w, st, fs)
  {
    var n, next := |st.streams|, Dispatch(w, st, fs[0]);
    DispatchOpens(w, st, fs[0]);
    FinalsSettle(w, st, fs);
    hide Dispatch, Valid, Owed, Detached, Stops, Finals, NewFate;
    if next.open {
      var newest := if fs[0].SynStream? then [NewFate(w, n + 1, fs[0].streamId, fs[0].headers, fs[1..])] else [];
      assert Streams(w, n, fs) == newest + Streams(w, Opened(n, fs[0]), fs[1..]);
      assert Finals(w, st, fs) + newest + Streams(w, |next.streams|, fs[1..])
          == Finals(w, st, fs) + (newest + Streams(w, |next.streams|, fs[1..]));
    }
  }

  /** A stream just opened is owed everything that follows. */
  lemma NewStreamEnds(w: World, st: Conn, fs: seq<Frame>)
    requires st.open && st.streams != [] && Attached(st, |st.streams| - 1) && st.streams[|st.streams| - 1].data == []
    ensures var s := st.streams[|st.streams| - 1];
            Final(w, st, fs, |st.streams| - 1) == NewFate(w, |st.streams|, s.id, s.headers, fs)
  {
    var n := |st.streams|;
    hide Owed, Detached;
    var owed := Owed(w, n, fs, st.streams[n - 1].id);
    assert [] + owed == owed;
  }

  lemma {:induction false} RunEnds(w: World, st: Conn, fs: seq<Frame>)
    requires Valid(st)
    ensures Fates(Run(w, st, fs)) == Ending(w, st, fs)
    decreases |fs|
  {
    hide Dispatch, Valid, Ending;
    if fs == [] || !st.open {
      NothingToCome(w, st, fs);
    } else {
      DispatchKeepsValid(w, st, fs[0]);
      DispatchEndsTheSame(w, st, fs);
      RunEnds(w, Dispatch(w, st, fs[0]), fs[1..]);
    }
  }

  lemma {:induction false} RunIsOpen(w: World, st: Conn, fs: seq<Frame>)
    requires Valid(st) && st.open
    ensures Run(w, st, fs).open <==> !Ended(w, |st.streams|, fs)
    decreases |fs|
  {
    hide Dispatch, Valid, Stops;
    if fs != [] {
      DispatchKeepsValid(w, st, fs[0]);
      DispatchOpens(w, st, fs[0]);
      if !Stops(w, |st.streams|, fs[0]) {
        RunIsOpen(w, Dispatch(w, st, fs[0]), fs[1..]);
      }
    }
  }

  /**
   For every byte stream, however it is split into reads: the accepted streams, their data
   and the replies are exactly what the frames in it owe.  The loop still runs exactly when no
   frame ended it and what is left is not an error, and a stream is closed exactly when a frame
   took it out of the table or the loop has ended.
   */
  lemma StreamsReceiveTheirData(c: Codec, w: World, input: bytes)
    ensures var st, fs := Drain(c, w, FRESH, input).0, FramesIn(c, [], input);
            && Fates(st) == Streams(w, 0, fs) && st.replies == Answers(w, 0, fs)
            && (st.open <==> !Ended(w, 0, fs) && Leftover(c, [], input).Incomplete?)
            && |Streams(w, 0, fs)| == |st.streams|
            && forall j | 0 <= j < |st.streams| :: Closed(st, j) <==> !st.open || Streams(w, 0, fs)[j].detached
  {
    var fs := FramesIn(c, [], input);
    DrainRunsFrames(c, w, FRESH, FRESH, input);
    RunAnswers(w, FRESH, fs);
    RunEnds(w, FRESH, fs);
    RunIsOpen(w, FRESH, fs);
    hide Drain, Run, FramesIn, Dispatch, Leftover, Ended, Streams, Answers;
    var st, run := Drain(c, w, FRESH, input).0, Run(w, FRESH, fs);
    hide Parse, Valid, Final, Owed, Detached;
    assert Ending(w, FRESH, fs) == Streams(w, 0, fs);
    SameFates(st, run);
  }

  lemma SameFates(a: Conn, b: Conn)
    requires a.streams == b.streams && a.table == b.table
    ensures Fates(a) == Fates(b)
  {
  }
}
