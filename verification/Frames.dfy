/**
 SPDY/3 frames on the wire (section 2.2 and sections 2.6.1 to 2.6.8 of SPDY Protocol
 Draft 3), as crates/cri/src/spdy.rs prints and parses them.
 */
module Frames {
  import opened Bytes
  import opened NvBlock

  const SYN_STREAM := 1
  const SYN_REPLY := 2
  const RST_STREAM := 3
  const SETTINGS := 4
  const PING := 6
  const GOAWAY := 7
  const HEADERS := 8
  const WINDOW_UPDATE := 9

  datatype Frame =
    | SynStream(streamId: u32, flags: byte, headers: seq<Header>)
    | SynReply(streamId: u32, flags: byte, headers: seq<Header>)
    | RstStream(streamId: u32, status: u32)
    | Settings(entries: seq<(u32, u32)>)
    | Ping(id: u32)
    | GoAway(lastGood: u32, status: u32)
    | Headers(streamId: u32, flags: byte, headers: seq<Header>)
    | WindowUpdate(streamId: u32, delta: u32)
    | Data(streamId: u32, flags: byte, payload: bytes)
  {
    predicate HasHeaders() { SynStream? || SynReply? || Headers? }
  }

  /**
   The header compressor.  A zlib stream is deterministic, so its state is the list of
   blocks it has seen: `deflate(hist, plain)` compresses `plain` after `hist`, and
   `inflate(hist, raw)` decompresses `raw` after the compressed blocks `hist`.
   */
  datatype Codec = Codec(
    deflate: (seq<bytes>, bytes) -> bytes,
    inflate: (seq<bytes>, bytes) -> Result<bytes>,
    lossy: bytes -> bytes)
  {
    /** What the compressor emitted for the blocks `hist`. */
    function Compressed(hist: seq<bytes>): (out: seq<bytes>)
      ensures |out| == |hist|
    {
      if hist == [] then []
      else
        var older := hist[..|hist| - 1];
        Compressed(older) + [deflate(older, hist[|hist| - 1])]
    }

    /** The one law of the foreign library: inflate undoes deflate when both have seen the same blocks. */
    ghost predicate Lawful() {
      forall hist, plain :: inflate(Compressed(hist), deflate(hist, plain)) == Ok(plain)
    }

    /** `decompress_nv`. */
    function ReadHeaders(received: seq<bytes>, raw: bytes): Result<seq<Header>> {
      match inflate(received, raw)
      case Err => Err
      case Ok(plain) => ReadBlock(lossy, plain)
    }
  }

  /** The law is not empty: a compressor that copies its input obeys it. */
  lemma CopyingIsLawful(lossy: bytes -> bytes)
    ensures Codec((_, plain) => plain, (_, raw) => Ok(raw), lossy).Lawful()
  {
  }

  // ---- printing ----

  /** `v & 0x7fff_ffff` on 32 bits. */
  function Mask31(v: u32): (m: u32)
    ensures m < 0x8000_0000 && (m == v <==> v < 0x8000_0000)
  {
    if v < 0x8000_0000 then v else v - 0x8000_0000
  }

  function EntryBytes(entries: seq<(u32, u32)>): bytes {
    if entries == [] then []
    else [0] + U24(entries[0].0) + U32(entries[0].1) + EntryBytes(entries[1..])
  }

  function TypeOf(f: Frame): (t: byte)
    requires !f.Data?
    ensures f.HasHeaders() <==> t in {SYN_STREAM, SYN_REPLY, HEADERS}
  {
    match f
    case SynStream(_, _, _) => SYN_STREAM
    case SynReply(_, _, _) => SYN_REPLY
    case RstStream(_, _) => RST_STREAM
    case Settings(_) => SETTINGS
    case Ping(_) => PING
    case GoAway(_, _) => GOAWAY
    case Headers(_, _, _) => HEADERS
    case WindowUpdate(_, _) => WINDOW_UPDATE
  }

  /** What follows the eight header bytes, printed by a compressor that has seen `sent`. */
  function Body(c: Codec, sent: seq<bytes>, f: Frame): bytes {
    match f
    case SynStream(id, _, hs) => U32(Mask31(id)) + U32(0) + [0, 0] + c.deflate(sent, Block(hs))
    case SynReply(id, _, hs) => U32(Mask31(id)) + c.deflate(sent, Block(hs))
    case RstStream(id, status) => U32(Mask31(id)) + U32(status)
    case Settings(entries) => U32(|entries|) + EntryBytes(entries)
    case Ping(id) => U32(id)
    case GoAway(id, status) => U32(Mask31(id)) + U32(status)
    case Headers(id, _, hs) => U32(Mask31(id)) + c.deflate(sent, Block(hs))
    case WindowUpdate(id, delta) => U32(Mask31(id)) + U32(Mask31(delta))
    case Data(_, _, payload) => payload
  }

  function FlagsOf(f: Frame): byte {
    if f.Data? || f.HasHeaders() then f.flags else 0
  }

  /** The first four bytes: version and type of a control frame, or the stream of a data frame. */
  function Lead(f: Frame): (b: bytes)
    ensures |b| == 4
  {
    if f.Data? then U32(Mask31(f.streamId)) else [0x80, 3, 0, TypeOf(f)]
  }

  function Encode(c: Codec, sent: seq<bytes>, f: Frame): (b: bytes)
    ensures |b| == 8 + |Body(c, sent, f)|
  {
    Lead(f) + [FlagsOf(f)] + U24(|Body(c, sent, f)|) + Body(c, sent, f)
  }

  /** The compressor's history after `f` is printed. */
  function Sent(sent: seq<bytes>, f: Frame): seq<bytes> {
    if f.HasHeaders() then sent + [Block(f.headers)] else sent
  }

  // ---- parsing ----

  /**
   `Ok(None)`, `Ok(Some(..))`, `Err` and a slice index out of range, which panics.
   `received` is the inflate history after the frame.
   */
  datatype Parsed =
    | Incomplete
    | Complete(frame: Frame, consumed: nat, received: seq<bytes>)
    | Failed
    | Panicked

  function ReadEntries(n: nat, b: bytes): seq<(u32, u32)> {
    if n == 0 || |b| < 8 then []
    else [(ReadU24(b[1..4]), ReadU32(b[4..8]))] + ReadEntries(n - 1, b[8..])
  }

  /** Bytes of body that parsing a control frame of this type indexes unconditionally. */
  function MinBody(ftype: nat): nat {
    if ftype == SYN_STREAM then 10
    else if ftype == RST_STREAM || ftype == WINDOW_UPDATE then 8
    else if ftype in {SYN_REPLY, SETTINGS, PING, GOAWAY, HEADERS} then 4
    else 0
  }

  function HeaderFrame(ftype: nat, id: u32, flags: byte, hs: seq<Header>): Frame {
    if ftype == SYN_STREAM then SynStream(id, flags, hs)
    else if ftype == SYN_REPLY then SynReply(id, flags, hs)
    else Headers(id, flags, hs)
  }

  function ParseHeaderFrame(c: Codec, received: seq<bytes>, ftype: nat, flags: byte, body: bytes, total: nat): Parsed
    requires ftype in {SYN_STREAM, SYN_REPLY, HEADERS} && MinBody(ftype) <= |body|
  {
    var raw := body[MinBody(ftype)..];
    match c.ReadHeaders(received, raw)
    case Err => Failed
    case Ok(hs) => Complete(HeaderFrame(ftype, Mask31(ReadU32(body[..4])), flags, hs), total, received + [raw])
  }

  /** The control frames without headers; an unknown type is consumed as an empty SETTINGS. */
  function PlainFrame(ftype: nat, body: bytes): Frame
    requires MinBody(ftype) <= |body|
  {
    if ftype == RST_STREAM then RstStream(Mask31(ReadU32(body[..4])), ReadU32(body[4..8]))
    else if ftype == SETTINGS then Settings(ReadEntries(ReadU32(body[..4]), body[4..]))
    else if ftype == PING then Ping(ReadU32(body[..4]))
    else if ftype == GOAWAY then
      GoAway(Mask31(ReadU32(body[..4])), if |body| >= 8 then ReadU32(body[4..8]) else 0)
    else if ftype == WINDOW_UPDATE then
      WindowUpdate(Mask31(ReadU32(body[..4])), Mask31(ReadU32(body[4..8])))
    else Settings([])
  }

  function ParseControl(c: Codec, received: seq<bytes>, ftype: nat, flags: byte, body: bytes, total: nat): Parsed {
    if |body| < MinBody(ftype) then Panicked
    else if ftype in {SYN_STREAM, SYN_REPLY, HEADERS} then
      ParseHeaderFrame(c, received, ftype, flags, body, total)
    else Complete(PlainFrame(ftype, body), total, received)
  }

  function TypeField(buf: bytes): nat
    requires |buf| >= 8
  {
    buf[2] as nat * 0x100 + buf[3] as nat
  }

  function FrameLength(buf: bytes): (n: nat)
    requires |buf| >= 8
    ensures 8 <= n < 8 + 0x100_0000
  {
    8 + ReadU24(buf[5..8])
  }

  /** Parses a buffer that holds exactly one frame. */
  function ParseWhole(c: Codec, received: seq<bytes>, w: bytes): Parsed
    requires |w| >= 8
  {
    if w[0] < 0x80 then Complete(Data(Mask31(ReadU32(w[..4])), w[4], w[8..]), |w|, received)
    else ParseControl(c, received, TypeField(w), w[4], w[8..], |w|)
  }

  predicate Buffered(buf: bytes) {
    |buf| >= 8 && FrameLength(buf) <= |buf|
  }

  /** One frame from the front of `buf`, with the inflate history `received`. */
  function Parse(c: Codec, received: seq<bytes>, buf: bytes): (p: Parsed)
    ensures p.Incomplete? <==> !Buffered(buf)
    ensures p.Complete? ==> p.consumed == FrameLength(buf) <= |buf|
  {
    if !Buffered(buf) then Incomplete else ParseWhole(c, received, buf[..FrameLength(buf)])
  }

  // ---- what a parse depends on ----

  /** A parse that is not waiting for more is unchanged by the bytes that follow. */
  lemma ParseIgnoresWhatFollows(c: Codec, received: seq<bytes>, buf: bytes, more: bytes)
    requires !Parse(c, received, buf).Incomplete?
    ensures Parse(c, received, buf + more) == Parse(c, received, buf)
  {
    assert (buf + more)[5..8] == buf[5..8];
    assert (buf + more)[..FrameLength(buf)] == buf[..FrameLength(buf)];
  }

  /** The parser panics exactly on a complete control frame shorter than its type needs. */
  lemma PanicsExactlyOnShortBody(c: Codec, received: seq<bytes>, buf: bytes)
    ensures Parse(c, received, buf).Panicked? <==>
            && Buffered(buf) && buf[0] >= 0x80
            && var ftype, length := TypeField(buf), FrameLength(buf) - 8;
               || (ftype == 1 && length < 10)
               || (ftype in {3, 9} && length < 8)
               || (ftype in {2, 4, 6, 7, 8} && length < 4)
  {
    if Buffered(buf) {
      var w := buf[..FrameLength(buf)];
      assert TypeField(w) == TypeField(buf) && |w[8..]| == FrameLength(buf) - 8;
    }
  }

  const EMPTY_RST_STREAM: bytes := [0x80, 3, 0, 3, 0, 0, 0, 0]

  /** A RST_STREAM frame with an empty body is one such input. */
  lemma EmptyRstStreamPanics(c: Codec, received: seq<bytes>)
    ensures Parse(c, received, EMPTY_RST_STREAM).Panicked?
  {
    PanicsExactlyOnShortBody(c, received, EMPTY_RST_STREAM);
    hide Parse;
    assert EMPTY_RST_STREAM[5..8] == [0, 0, 0];
  }

  // ---- round trip ----

  /** Header strings are Rust `String`s within 32-bit lengths. */
  ghost predicate WellFormed(c: Codec, f: Frame) {
    f.HasHeaders() ==> Sized(f.headers) && Utf8(c.lossy, f.headers)
  }

  /** The fields survive the 31-bit masks and the 24-bit settings ids. */
  predicate FieldsFit(f: Frame) {
    match f
    case GoAway(id, _) => id < 0x8000_0000
    case WindowUpdate(id, delta) => id < 0x8000_0000 && delta < 0x8000_0000
    case Settings(entries) => forall i | 0 <= i < |entries| :: entries[i].0 < 0x100_0000
    case Ping(_) => true
    case _ => f.streamId < 0x8000_0000
  }

  predicate InRange(c: Codec, sent: seq<bytes>, f: Frame) {
    FieldsFit(f) && |Body(c, sent, f)| < 0x100_0000
  }

  lemma EncodedFields(c: Codec, sent: seq<bytes>, f: Frame, rest: bytes)
    ensures var buf := Encode(c, sent, f) + rest;
            && buf[..4] == Lead(f) && buf[4] == FlagsOf(f)
            && (FrameLength(buf) == |Encode(c, sent, f)| <==> |Body(c, sent, f)| < 0x100_0000)
            && buf[..|Encode(c, sent, f)|] == Encode(c, sent, f)
  {
    var body := Body(c, sent, f);
    var buf := Encode(c, sent, f) + rest;
    assert buf[5..8] == U24(|body|);
    assert buf[..4] == Lead(f);
    assert buf[..|Encode(c, sent, f)|] == Encode(c, sent, f);
  }

  /** A settings entry keeps the low 24 bits of its id. */
  function MaskedEntry(e: (u32, u32)): (m: (u32, u32))
    ensures m == e <==> e.0 < 0x100_0000
  {
    (ReadU24(U24(e.0)), e.1)
  }

  lemma {:induction false} EntriesRead(entries: seq<(u32, u32)>)
    ensures |EntryBytes(entries)| == 8 * |entries|
    ensures |ReadEntries(|entries|, EntryBytes(entries))| == |entries|
    ensures forall i | 0 <= i < |entries| ::
              ReadEntries(|entries|, EntryBytes(entries))[i] == MaskedEntry(entries[i])
  {
    if entries != [] {
      var e, tail := entries[0], EntryBytes(entries[1..]);
      var b := EntryBytes(entries);
      EntriesRead(entries[1..]);
      assert b[1..4] == U24(e.0) && b[4..8] == U32(e.1) && b[8..] == tail;
      assert ReadU32(b[4..8]) == e.1;
    }
  }

  lemma HeadersRead(c: Codec, sent: seq<bytes>, hs: seq<Header>)
    requires c.Lawful() && Sized(hs) && Utf8(c.lossy, hs)
    ensures c.ReadHeaders(c.Compressed(sent), c.deflate(sent, Block(hs))) == Ok(hs)
    ensures c.Compressed(sent) + [c.deflate(sent, Block(hs))] == c.Compressed(sent + [Block(hs)])
  {
    assert Block(hs) + [] == Block(hs);
    BlockRoundTrip(c.lossy, hs, []);
    assert (sent + [Block(hs)])[..|sent|] == sent;
  }

  lemma WordsRead(a: u32, b: u32, tail: bytes)
    ensures (U32(a) + U32(b) + tail)[..4] == U32(a) && (U32(a) + U32(b) + tail)[4..8] == U32(b)
    ensures ReadU32(U32(a)) == a && ReadU32(U32(b)) == b
  {
  }

  /** `f` as the masks leave it. */
  function Masked(f: Frame): (g: Frame)
    ensures g == f <==> FieldsFit(f)
  {
    match f
    case SynStream(id, fl, hs) => SynStream(Mask31(id), fl, hs)
    case SynReply(id, fl, hs) => SynReply(Mask31(id), fl, hs)
    case RstStream(id, status) => RstStream(Mask31(id), status)
    case Settings(entries) =>
      var masked: seq<(u32, u32)> :=
        seq(|entries|, i requires 0 <= i < |entries| => MaskedEntry(entries[i]));
      assert masked == entries <==> forall i | 0 <= i < |entries| :: masked[i] == entries[i];
      Settings(masked)
    case Ping(id) => f
    case GoAway(id, status) => GoAway(Mask31(id), status)
    case Headers(id, fl, hs) => Headers(Mask31(id), fl, hs)
    case WindowUpdate(id, delta) => WindowUpdate(Mask31(id), Mask31(delta))
    case Data(id, fl, payload) => Data(Mask31(id), fl, payload)
  }

  lemma HeaderBodyParts(c: Codec, sent: seq<bytes>, f: Frame)
    requires f.HasHeaders()
    ensures var body := Body(c, sent, f);
            && MinBody(TypeOf(f)) <= |body| && ReadU32(body[..4]) == Mask31(f.streamId)
            && body[MinBody(TypeOf(f))..] == c.deflate(sent, Block(f.headers))
  {
    var body := Body(c, sent, f);
    assert body[MinBody(TypeOf(f))..] == c.deflate(sent, Block(f.headers));
    assert body[..4] == U32(Mask31(f.streamId));
  }

  lemma HeaderBodyRead(c: Codec, sent: seq<bytes>, f: Frame, total: nat)
    requires c.Lawful() && WellFormed(c, f) && f.HasHeaders()
    ensures MinBody(TypeOf(f)) <= |Body(c, sent, f)|
    ensures ParseHeaderFrame(c, c.Compressed(sent), TypeOf(f), f.flags, Body(c, sent, f), total)
            == Complete(Masked(f), total, c.Compressed(Sent(sent, f)))
  {
    hide Body, U32, Mask31, Codec.Lawful, Codec.ReadHeaders, Codec.Compressed;
    HeaderBodyParts(c, sent, f);
    HeadersRead(c, sent, f.headers);
  }

  lemma SettingsRead(c: Codec, sent: seq<bytes>, f: Frame)
    requires f.Settings? && |f.entries| < 0x1_0000_0000
    ensures PlainFrame(SETTINGS, Body(c, sent, f)) == Masked(f)
  {
    var body, n := Body(c, sent, f), |f.entries|;
    EntriesRead(f.entries);
    assert body[..4] == U32(n) && body[4..] == EntryBytes(f.entries);
    assert ReadU32(body[..4]) == n;
    assert ReadEntries(n, EntryBytes(f.entries)) == Masked(f).entries;
  }

  lemma BodyRead(c: Codec, sent: seq<bytes>, f: Frame, total: nat)
    requires c.Lawful() && WellFormed(c, f) && !f.Data? && |Body(c, sent, f)| < 0x100_0000
    ensures ParseControl(c, c.Compressed(sent), TypeOf(f), FlagsOf(f), Body(c, sent, f), total)
            == Complete(Masked(f), total, c.Compressed(Sent(sent, f)))
  {
    if f.HasHeaders() {
      HeaderBodyRead(c, sent, f, total);
    } else if f.Settings? {
      EntriesRead(f.entries);
      SettingsRead(c, sent, f);
    } else if f.Ping? {
      var body := Body(c, sent, f);
      assert body[..4] == U32(f.id) && ReadU32(U32(f.id)) == f.id;
    } else {
      PairRead(c, sent, f, total);
    }
  }

  lemma PairRead(c: Codec, sent: seq<bytes>, f: Frame, total: nat)
    requires f.RstStream? || f.GoAway? || f.WindowUpdate?
    ensures |Body(c, sent, f)| == 8 && PlainFrame(TypeOf(f), Body(c, sent, f)) == Masked(f)
  {
    var a := Mask31(if f.GoAway? then f.lastGood else f.streamId);
    var b := if f.WindowUpdate? then Mask31(f.delta) else f.status;
    var body := Body(c, sent, f);
    assert U32(a) + U32(b) + [] == body;
    WordsRead(a, b, []);
    assert ReadU32(body[..4]) == a && ReadU32(body[4..8]) == b;
  }

  /** Where the fields of a printed frame sit; its body reaches the length its type needs. */
  lemma EncodedParts(c: Codec, sent: seq<bytes>, f: Frame)
    ensures var w := Encode(c, sent, f);
            && w[..4] == Lead(f) && w[0] == Lead(f)[0] && w[4] == FlagsOf(f) && w[8..] == Body(c, sent, f)
            && (!f.Data? ==> w[0] == 0x80 && TypeField(w) == TypeOf(f) && MinBody(TypeOf(f)) <= |w| - 8)
            && (f.Data? ==> w[0] < 0x80 && ReadU32(w[..4]) == Mask31(f.streamId))
  {
    var w := Encode(c, sent, f);
    assert w[..4] == Lead(f) && w[8..] == Body(c, sent, f);
    assert forall i | 0 <= i < 4 :: w[i] == Lead(f)[i];
    if f.Data? {
      assert ReadU32(Lead(f)) == Mask31(f.streamId);
    }
  }

  lemma WholeRead(c: Codec, sent: seq<bytes>, f: Frame)
    requires c.Lawful() && WellFormed(c, f) && |Body(c, sent, f)| < 0x100_0000
    ensures ParseWhole(c, c.Compressed(sent), Encode(c, sent, f))
            == Complete(Masked(f), |Encode(c, sent, f)|, c.Compressed(Sent(sent, f)))
  {
    EncodedParts(c, sent, f);
    if !f.Data? {
      BodyRead(c, sent, f, |Encode(c, sent, f)|);
    }
  }

  /**
   Parsing what was printed for `f`, whatever follows it, gives back `f`, its exact length
   and the matching inflate history if and only if `f` is in range.
   */
  lemma FrameRoundTrip(c: Codec, sent: seq<bytes>, f: Frame, rest: bytes)
    requires c.Lawful() && WellFormed(c, f)
    ensures InRange(c, sent, f) <==>
            Parse(c, c.Compressed(sent), Encode(c, sent, f) + rest)
            == Complete(f, |Encode(c, sent, f)|, c.Compressed(Sent(sent, f)))
  {
    EncodedFields(c, sent, f, rest);
    if |Body(c, sent, f)| < 0x100_0000 {
      WholeRead(c, sent, f);
    }
  }

  /** A frame cut short is waited for. */
  lemma PartialFrameWaits(c: Codec, sent: seq<bytes>, received: seq<bytes>, f: Frame, k: nat)
    requires InRange(c, sent, f) && k < |Encode(c, sent, f)|
    ensures Parse(c, received, Encode(c, sent, f)[..k]) == Incomplete
  {
    hide Encode, Body, InRange;
    var w := Encode(c, sent, f);
    if k >= 8 {
      LengthFieldIsEarly(w, k);
      InRangeIsWhole(c, sent, f);
    }
  }

  lemma LengthFieldIsEarly(w: bytes, k: nat)
    requires 8 <= k <= |w|
    ensures FrameLength(w[..k]) == FrameLength(w)
  {
    assert w[..k][5..8] == w[5..8];
  }

  lemma InRangeIsWhole(c: Codec, sent: seq<bytes>, f: Frame)
    requires InRange(c, sent, f)
    ensures FrameLength(Encode(c, sent, f)) == |Encode(c, sent, f)|
  {
    EncodedFields(c, sent, f, []);
    hide Encode, Body, FrameLength;
    assert Encode(c, sent, f) + [] == Encode(c, sent, f);
  }

  // ---- the imperative codec ----

  /** `NvCodec`: one zlib stream per direction, each standing for the blocks it has seen. */
  class NvCodec {
    const codec: Codec
    var sent: seq<bytes>
    var received: seq<bytes>

    constructor (codec: Codec)
      ensures this.codec == codec && sent == [] && received == []
    {
      this.codec := codec;
      sent, received := [], [];
    }

    method CompressNv(headers: seq<Header>) returns (raw: bytes)
      modifies this`sent
      ensures raw == codec.deflate(old(sent), Block(headers))
      ensures sent == old(sent) + [Block(headers)]
    {
      var plain := WriteNvBlock(headers);
      raw := codec.deflate(sent, plain);
      sent := sent + [plain];
    }

    method DecompressNv(raw: bytes) returns (r: Result<seq<Header>>)
      modifies this`received
      ensures r == codec.ReadHeaders(old(received), raw)
      ensures received == old(received) + [raw]
    {
      var plain := codec.inflate(received, raw);
      received := received + [raw];
      if plain.Err? {
        return Err;
      }
      r := ReadNvBlock(codec.lossy, plain.value);
    }
  }

  /** The SETTINGS loop of `write_frame`. */
  method SettingsBody(entries: seq<(u32, u32)>) returns (body: bytes)
    ensures body == U32(|entries|) + EntryBytes(entries)
  {
    body := U32(|entries|);
    for i := 0 to |entries|
      invariant body + EntryBytes(entries[i..]) == U32(|entries|) + EntryBytes(entries)
    {
      var e := [0] + U24(entries[i].0) + U32(entries[i].1);
      assert entries[i..][1..] == entries[i + 1..];
      assert EntryBytes(entries[i..]) == e + EntryBytes(entries[i + 1..]);
      assert body + e + EntryBytes(entries[i + 1..]) == body + EntryBytes(entries[i..]);
      body := body + e;
    }
    assert entries[|entries|..] == [];
  }

  method HeaderBody(f: Frame, nv: NvCodec) returns (body: bytes)
    requires f.HasHeaders()
    modifies nv`sent
    ensures body == Body(nv.codec, old(nv.sent), f) && nv.sent == Sent(old(nv.sent), f)
  {
    var raw := nv.CompressNv(f.headers);
    body := U32(Mask31(f.streamId));
    if f.SynStream? {
      body := body + U32(0) + [0, 0];
    }
    body := body + raw;
  }

  /** `write_frame`: appends one frame to `out`. */
  method WriteFrame(out: bytes, f: Frame, nv: NvCodec) returns (out': bytes)
    modifies nv`sent
    ensures out' == out + Encode(nv.codec, old(nv.sent), f)
    ensures nv.sent == Sent(old(nv.sent), f)
  {
    var lead, body: bytes := if f.Data? then U32(Mask31(f.streamId)) else [0x80, 3, 0, TypeOf(f)], [];
    match f {
      case Data(_, _, payload) => body := payload;
      case Settings(entries) => body := SettingsBody(entries);
      case Ping(id) => body := U32(id);
      case RstStream(id, status) => body := U32(Mask31(id)) + U32(status);
      case GoAway(id, status) => body := U32(Mask31(id)) + U32(status);
      case WindowUpdate(id, delta) => body := U32(Mask31(id)) + U32(Mask31(delta));
      case _ => body := HeaderBody(f, nv);
    }
    assert body == Body(nv.codec, old(nv.sent), f);
    out' := out + (lead + [FlagsOf(f)] + U24(|body|) + body);
  }

  /** The SETTINGS loop of `parse_frame`. */
  method ParseEntries(n: nat, body: bytes) returns (entries: seq<(u32, u32)>)
    requires |body| >= 4
    ensures entries == ReadEntries(n, body[4..])
  {
    entries := [];
    var off := 4;
    for i := 0 to n
      invariant 4 <= off <= |body|
      invariant entries + ReadEntries(n - i, body[off..]) == ReadEntries(n, body[4..])
    {
      if off + 8 > |body| {
        break;
      }
      var e: (u32, u32) := (ReadU24(body[off + 1..off + 4]), ReadU32(body[off + 4..off + 8]));
      assert body[off..][1..4] == body[off + 1..off + 4] && body[off..][4..8] == body[off + 4..off + 8];
      assert body[off..][8..] == body[off + 8..];
      assert entries + ([e] + ReadEntries(n - i - 1, body[off + 8..]))
          == entries + [e] + ReadEntries(n - i - 1, body[off + 8..]);
      entries := entries + [e];
      off := off + 8;
    }
  }

  /** `parse_frame`: an incomplete frame leaves the inflate state untouched. */
  method ParseFrame(buf: bytes, nv: NvCodec) returns (p: Parsed)
    modifies nv`received
    ensures p == Parse(nv.codec, old(nv.received), buf)
    ensures p.Incomplete? ==> nv.received == old(nv.received)
    ensures p.Complete? ==> nv.received == p.received
  {
    if |buf| < 8 {
      return Incomplete;
    }
    var total := 8 + ReadU24(buf[5..8]);
    if |buf| < total {
      return Incomplete;
    }
    ghost var w := buf[..total];
    var body := buf[8..total];
    assert body == w[8..] && w[..4] == buf[..4] && TypeField(w) == TypeField(buf);
    if buf[0] < 0x80 {
      return Complete(Data(Mask31(ReadU32(buf[..4])), buf[4], body), total, nv.received);
    }
    var ftype := TypeField(buf);
    if |body| < MinBody(ftype) {
      return Panicked;
    }
    if ftype in {SYN_STREAM, SYN_REPLY, HEADERS} {
      var hs := nv.DecompressNv(body[MinBody(ftype)..]);
      if hs.Err? {
        return Failed;
      }
      return Complete(HeaderFrame(ftype, Mask31(ReadU32(body[..4])), buf[4], hs.value), total, nv.received);
    }
    var f := PlainFrame(ftype, body);
    if ftype == SETTINGS {
      var entries := ParseEntries(ReadU32(body[..4]), body);
      f := Settings(entries);
    }
    p := Complete(f, total, nv.received);
  }
}
