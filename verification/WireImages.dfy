/**
 The bytes on the wire, written out: one frame of each type (section 2.2 and sections 2.6.1 to
 2.6.8 of SPDY Protocol Draft 3), a name/value block (section 2.6.10) and what the FIN flag does.
 */
module WireImages {
  import opened Bytes
  import opened NvBlock
  import opened Frames
  import opened Multiplexer

  /** Integers are big-endian. */
  lemma Integers()
    ensures U32(0x01020304) == [1, 2, 3, 4] && U24(0x010203) == [1, 2, 3]
    ensures ReadU32([1, 2, 3, 4]) == 0x01020304 && ReadU24([1, 2, 3]) == 0x010203
    ensures U32(0) == [0, 0, 0, 0] && U32(1) == [0, 0, 0, 1] && U32(5) == [0, 0, 0, 5]
    ensures U24(4) == [0, 0, 4] && U24(8) == [0, 0, 8] && U24(12) == [0, 0, 12]
  {
  }

  /** A block with the one pair `:a`, `bc`. */
  lemma NameValueBlock()
    ensures Block([([58, 97], [98, 99, 100])])
            == [0, 0, 0, 1] + [0, 0, 0, 2, 58, 97] + [0, 0, 0, 3, 98, 99, 100]
  {
    var h: Header := ([58, 97], [98, 99, 100]);
    assert [h][1..] == [];
    assert Pairs([h]) == Str(h.0) + Str(h.1) + Pairs([]);
    assert U32(1) == [0, 0, 0, 1] && U32(2) == [0, 0, 0, 2] && U32(3) == [0, 0, 0, 3];
    assert Str(h.0) == [0, 0, 0, 2, 58, 97] && Str(h.1) == [0, 0, 0, 3, 98, 99, 100];
  }

  /** A printed frame, from its parts. */
  lemma Parts(c: Codec, sent: seq<bytes>, f: Frame, body: bytes)
    requires Body(c, sent, f) == body
    ensures Encode(c, sent, f) == Lead(f) + [FlagsOf(f)] + U24(|body|) + body
  {
  }

  lemma RstStreamImage(c: Codec, sent: seq<bytes>)
    ensures Encode(c, sent, RstStream(5, 1)) == [0x80, 3, 0, 3, 0, 0, 0, 8, 0, 0, 0, 5, 0, 0, 0, 1]
  {
    Integers();
    hide U32, U24, Encode;
    Parts(c, sent, RstStream(5, 1), [0, 0, 0, 5, 0, 0, 0, 1]);
  }

  lemma PingImage(c: Codec, sent: seq<bytes>)
    ensures Encode(c, sent, Ping(5)) == [0x80, 3, 0, 6, 0, 0, 0, 4, 0, 0, 0, 5]
  {
    Integers();
    hide U32, U24, Encode;
    Parts(c, sent, Ping(5), [0, 0, 0, 5]);
  }

  lemma GoAwayImage(c: Codec, sent: seq<bytes>)
    ensures Encode(c, sent, GoAway(5, 1)) == [0x80, 3, 0, 7, 0, 0, 0, 8, 0, 0, 0, 5, 0, 0, 0, 1]
  {
    Integers();
    hide U32, U24, Encode;
    Parts(c, sent, GoAway(5, 1), [0, 0, 0, 5, 0, 0, 0, 1]);
  }

  lemma WindowUpdateImage(c: Codec, sent: seq<bytes>)
    ensures Encode(c, sent, WindowUpdate(5, 1)) == [0x80, 3, 0, 9, 0, 0, 0, 8, 0, 0, 0, 5, 0, 0, 0, 1]
  {
    Integers();
    hide U32, U24, Encode;
    Parts(c, sent, WindowUpdate(5, 1), [0, 0, 0, 5, 0, 0, 0, 1]);
  }

  lemma SettingsImage(c: Codec, sent: seq<bytes>)
    ensures Encode(c, sent, Settings([(4, 1)])) == [0x80, 3, 0, 4, 0, 0, 0, 12, 0, 0, 0, 1, 0, 0, 0, 4, 0, 0, 0, 1]
  {
    Integers();
    hide U32, U24, Encode;
    assert EntryBytes([(4, 1)]) == [0] + U24(4) + U32(1) by {
      assert [(4, 1)][1..] == [];
    }
    Parts(c, sent, Settings([(4, 1)]), [0, 0, 0, 1, 0, 0, 0, 4, 0, 0, 0, 1]);
  }

  lemma DataImage(c: Codec, sent: seq<bytes>)
    ensures Encode(c, sent, Data(5, 1, [7, 8, 9, 10])) == [0, 0, 0, 5, 1, 0, 0, 4, 7, 8, 9, 10]
  {
    Integers();
    hide U32, U24, Encode;
    Parts(c, sent, Data(5, 1, [7, 8, 9, 10]), [7, 8, 9, 10]);
  }

  /** The three types that carry headers, around what the compressor makes of the block. */
  lemma SynStreamImage(c: Codec, sent: seq<bytes>, flags: byte, hs: seq<Header>)
    ensures var raw := c.deflate(sent, Block(hs));
            Encode(c, sent, SynStream(5, flags, hs))
            == [0x80, 3, 0, 1] + [flags] + U24(10 + |raw|) + ([0, 0, 0, 5, 0, 0, 0, 0, 0, 0] + raw)
  {
    Integers();
    hide U32, U24, Encode, Block;
    var raw := c.deflate(sent, Block(hs));
    assert U32(5) + U32(0) + [0, 0] == [0, 0, 0, 5, 0, 0, 0, 0, 0, 0];
    Parts(c, sent, SynStream(5, flags, hs), [0, 0, 0, 5, 0, 0, 0, 0, 0, 0] + raw);
  }

  lemma SynReplyImage(c: Codec, sent: seq<bytes>, flags: byte, hs: seq<Header>)
    ensures var raw := c.deflate(sent, Block(hs));
            Encode(c, sent, SynReply(5, flags, hs)) == [0x80, 3, 0, 2] + [flags] + U24(4 + |raw|) + ([0, 0, 0, 5] + raw)
  {
    Integers();
    hide U32, U24, Encode, Block;
    Parts(c, sent, SynReply(5, flags, hs), [0, 0, 0, 5] + c.deflate(sent, Block(hs)));
  }

  lemma HeadersImage(c: Codec, sent: seq<bytes>, flags: byte, hs: seq<Header>)
    ensures var raw := c.deflate(sent, Block(hs));
            Encode(c, sent, Headers(5, flags, hs)) == [0x80, 3, 0, 8] + [flags] + U24(4 + |raw|) + ([0, 0, 0, 5] + raw)
  {
    Integers();
    hide U32, U24, Encode, Block;
    Parts(c, sent, Headers(5, flags, hs), [0, 0, 0, 5] + c.deflate(sent, Block(hs)));
  }

  /** The top bit of an id is not sent, nor that of a window. */
  lemma TopBitIsDropped(c: Codec, sent: seq<bytes>)
    ensures Encode(c, sent, RstStream(0x8000_0005, 1)) == Encode(c, sent, RstStream(5, 1))
    ensures Encode(c, sent, WindowUpdate(0x8000_0005, 0x8000_0001)) == Encode(c, sent, WindowUpdate(5, 1))
    ensures Encode(c, sent, Ping(0x8000_0005)) != Encode(c, sent, Ping(5))
  {
    hide U32, U24;
    assert Encode(c, sent, Ping(0x8000_0005))[8..] == U32(0x8000_0005);
    assert Encode(c, sent, Ping(5))[8..] == U32(5);
    assert ReadU32(U32(0x8000_0005)) != ReadU32(U32(5));
  }

  /** An unknown control type is consumed as an empty SETTINGS; 5, NOOP, is one. */
  lemma UnknownTypeIsSkipped(c: Codec, received: seq<bytes>, ftype: byte, flags: byte)
    requires ftype == 5 || ftype > 9
    ensures Parse(c, received, [0x80, 3, 0, ftype, flags, 0, 0, 0]) == Complete(Settings([]), 8, received)
  {
    var buf := [0x80, 3, 0, ftype, flags, 0, 0, 0];
    assert buf[5..8] == [0, 0, 0] && buf[..8] == buf;
  }

  /** A GOAWAY that stops after the id has status 0. */
  lemma ShortGoAway(c: Codec, received: seq<bytes>)
    ensures Parse(c, received, [0x80, 3, 0, 7, 0, 0, 0, 4] + [0, 0, 0, 5]) == Complete(GoAway(5, 0), 12, received)
  {
    Integers();
    var buf := [0x80, 3, 0, 7, 0, 0, 0, 4] + [0, 0, 0, 5];
    assert buf[5..8] == [0, 0, 4] && ReadU24([0, 0, 4]) == 4;
    assert buf[..12] == buf && buf[8..] == [0, 0, 0, 5] && [0, 0, 0, 5][..4] == [0, 0, 0, 5];
    assert ReadU32([0, 0, 0, 5]) == 5;
    hide ReadU32, ReadU24;
  }

  /** A SETTINGS that counts more entries than it holds has those it holds. */
  lemma ShortSettings(c: Codec, received: seq<bytes>, n: u32, entry: (u32, u32))
    requires n >= 1 && entry.0 < 0x100_0000
    ensures PlainFrame(4, U32(n) + [0] + U24(entry.0) + U32(entry.1)) == Settings([entry])
  {
    var body := U32(n) + [0] + U24(entry.0) + U32(entry.1);
    var b := [0] + U24(entry.0) + U32(entry.1);
    assert body[..4] == U32(n) && body[4..] == b;
    assert b[1..4] == U24(entry.0) && b[4..8] == U32(entry.1) && b[8..] == [];
    hide U32, U24, ReadU32, ReadU24;
    assert ReadEntries(n - 1, []) == [];
    assert ReadEntries(n, b) == [entry];
  }

  // ---- flags in the read loop ----

  /** FIN is bit 0 of the flags and nothing else: with it a DATA frame takes its stream out of the table. */
  lemma FinIsBitZero(w: World, st: Conn, id: u32, flags: byte, payload: bytes)
    requires Valid(st) && id in st.table
    ensures var next := Dispatch(w, st, Data(id, flags, payload));
            && (id in next.table <==> (flags as bv8) & 1 == 0)
            && next.table - {id} == st.table - {id} && next.open == st.open && next.replies == st.replies
            && next.streams[st.table[id]].data
               == st.streams[st.table[id]].data + if payload == [] then [] else [payload]
  {
    LowBit(flags);
    var data := st.streams[st.table[id]].data;
    assert data + [] == data;
  }

  lemma LowBit(flags: byte)
    ensures (flags as bv8) & 1 == 0 <==> flags % 2 == 0
  {
    var b := flags as bv8;
    assert b & 1 == b % 2;
    assert (b % 2) as int == flags % 2;
  }

  /** A stream is opened exactly when its reply is written and its receiver is still there to take it. */
  lemma SynStreamIsTaken(w: World, st: Conn, id: u32, flags: byte, hs: seq<Header>)
    requires Valid(st) && st.open
    ensures var n, next := |st.streams|, Dispatch(w, st, SynStream(id, flags, hs));
            && next.replies == st.replies + [SynReply(id, 0, [])]
            && (next.open <==> w.replyOk(n) && w.acceptOk(n))
            && (next.open ==> next.streams == st.streams + [Stream(id, hs, [])] && next.table == st.table[id := n])
  {
  }

  /** What the other frames do to the table and to the loop. */
  lemma OtherFramesInTheLoop(w: World, st: Conn, id: u32, n: u32, hs: seq<Header>, entries: seq<(u32, u32)>, flags: byte)
    requires Valid(st)
    ensures Dispatch(w, st, Ping(n)) == st.(replies := st.replies + [Ping(n)])
    ensures Dispatch(w, st, RstStream(id, n)) == st.(table := st.table - {id})
    ensures Dispatch(w, st, GoAway(id, n)) == st.(open := false)
    ensures forall f <- {Settings(entries), WindowUpdate(id, n), SynReply(id, flags, hs), Headers(id, flags, hs)} :: Dispatch(w, st, f) == st
  {
  }

  function Joined(chunks: seq<bytes>): bytes {
    if chunks == [] then [] else chunks[0] + Joined(chunks[1..])
  }

  /** The loop sees everything read before the first empty read, and nothing after it. */
  lemma {:induction false} ReadsUpToEndOfInput(before: seq<bytes>, after: seq<bytes>)
    requires forall c <- before :: c != []
    ensures Seen(before) == Joined(before) == Seen(before + [[]] + after)
    decreases |before|
  {
    if before == [] {
      assert before + [[]] + after == [[]] + after;
    } else {
      assert before[0] in before && forall c <- before[1..] :: c in before;
      assert (before + [[]] + after)[1..] == before[1..] + [[]] + after;
      ReadsUpToEndOfInput(before[1..], after);
    }
  }
}
