/**
 The plaintext name/value block of SPDY/3 (section 2.6.10 of SPDY Protocol Draft 3):
 a 32-bit count, then per pair a length-prefixed name and a length-prefixed value.

 A Rust `String` is modelled by its UTF-8 bytes.  The reader decodes with
 `from_utf8_lossy`, which is a parameter here; a byte sequence is the content of a
 `String` exactly when lossy decoding leaves it alone.
 */
module NvBlock {
  import opened Bytes

  type Header = (bytes, bytes)

  function Str(s: bytes): (b: bytes)
    ensures |b| == 4 + |s|
  {
    U32(|s|) + s
  }

  function Pairs(hs: seq<Header>): bytes {
    if hs == [] then [] else Str(hs[0].0) + Str(hs[0].1) + Pairs(hs[1..])
  }

  function Block(hs: seq<Header>): bytes {
    U32(|hs|) + Pairs(hs)
  }

  /** One length-prefixed string and what follows it. */
  function TakeStr(lossy: bytes -> bytes, buf: bytes): Result<(bytes, bytes)> {
    if |buf| < 4 then Err
    else
      var n := ReadU32(buf);
      if 4 + n > |buf| then Err else Ok((lossy(buf[4..4 + n]), buf[4 + n..]))
  }

  function ReadPairs(lossy: bytes -> bytes, count: nat, buf: bytes): Result<seq<Header>> {
    if count == 0 then Ok([])
    else
      match TakeStr(lossy, buf)
      case Err => Err
      case Ok((name, rest)) =>
        match TakeStr(lossy, rest)
        case Err => Err
        case Ok((value, rest')) =>
          var more := ReadPairs(lossy, count - 1, rest');
          if more.Err? then Err else Ok([(name, value)] + more.value)
  }

  function ReadBlock(lossy: bytes -> bytes, buf: bytes): Result<seq<Header>> {
    if |buf| < 4 then Ok([]) else ReadPairs(lossy, ReadU32(buf), buf[4..])
  }

  /** The length prefixes hold: a count and string lengths below 2^32. */
  ghost predicate Sized(hs: seq<Header>) {
    && |hs| < 0x1_0000_0000
    && forall h <- hs :: |h.0| < 0x1_0000_0000 && |h.1| < 0x1_0000_0000
  }

  /** Every name and value is the content of a `String`. */
  ghost predicate Utf8(lossy: bytes -> bytes, hs: seq<Header>) {
    forall h <- hs :: lossy(h.0) == h.0 && lossy(h.1) == h.1
  }

  lemma TakeWritten(lossy: bytes -> bytes, s: bytes, rest: bytes)
    requires |s| < 0x1_0000_0000
    ensures TakeStr(lossy, Str(s) + rest) == Ok((lossy(s), rest))
  {
    var buf := Str(s) + rest;
    assert buf == U32(|s|) + (s + rest);
    ReadFront(|s|, s + rest);
    assert buf[4..4 + |s|] == s && buf[4 + |s|..] == rest;
  }

  lemma ReadCounted(lossy: bytes -> bytes, count: nat, tail: bytes)
    requires count < 0x1_0000_0000
    ensures ReadBlock(lossy, U32(count) + tail) == ReadPairs(lossy, count, tail)
  {
    ReadFront(count, tail);
  }

  /** Every name and value as the reader decodes it. */
  function Decoded(lossy: bytes -> bytes, hs: seq<Header>): (ds: seq<Header>)
    ensures |ds| == |hs|
  {
    seq(|hs|, i requires 0 <= i < |hs| => (lossy(hs[i].0), lossy(hs[i].1)))
  }

  lemma DecodedStep(lossy: bytes -> bytes, hs: seq<Header>)
    requires hs != []
    ensures Decoded(lossy, hs) == [(lossy(hs[0].0), lossy(hs[0].1))] + Decoded(lossy, hs[1..])
  {
  }

  lemma {:induction false} ReadPairsWritten(lossy: bytes -> bytes, hs: seq<Header>, rest: bytes)
    requires Sized(hs)
    ensures ReadPairs(lossy, |hs|, Pairs(hs) + rest) == Ok(Decoded(lossy, hs))
  {
    hide Str, TakeStr;
    if hs != [] {
      var (k, v) := hs[0];
      assert hs[0] in hs;
      assert Pairs(hs) + rest == Str(k) + (Str(v) + (Pairs(hs[1..]) + rest));
      TakeWritten(lossy, k, Str(v) + (Pairs(hs[1..]) + rest));
      TakeWritten(lossy, v, Pairs(hs[1..]) + rest);
      ReadPairsWritten(lossy, hs[1..], rest);
      DecodedStep(lossy, hs);
      hide Decoded;
    }
  }

  /**
   Reading back a written block, whatever bytes follow it, gives the pairs decoded: the original
   pairs when they are the contents of `String`s.
   */
  lemma BlockRoundTrip(lossy: bytes -> bytes, hs: seq<Header>, rest: bytes)
    requires Sized(hs)
    ensures ReadBlock(lossy, Block(hs) + rest) == Ok(Decoded(lossy, hs))
    ensures Decoded(lossy, hs) == hs <==> Utf8(lossy, hs)
  {
    assert Block(hs) + rest == U32(|hs|) + (Pairs(hs) + rest);
    ReadCounted(lossy, |hs|, Pairs(hs) + rest);
    ReadPairsWritten(lossy, hs, rest);
    DecodedIsUtf8(lossy, hs);
  }

  lemma DecodedIsUtf8(lossy: bytes -> bytes, hs: seq<Header>)
    ensures Decoded(lossy, hs) == hs <==> Utf8(lossy, hs)
  {
    if Decoded(lossy, hs) == hs {
      forall h <- hs ensures lossy(h.0) == h.0 && lossy(h.1) == h.1 {
        var i :| 0 <= i < |hs| && hs[i] == h;
        assert Decoded(lossy, hs)[i] == h;
      }
    }
    if Utf8(lossy, hs) {
      forall i | 0 <= i < |hs| ensures Decoded(lossy, hs)[i] == hs[i] {
        assert hs[i] in hs;
      }
    }
  }

  lemma TakeTruncated(lossy: bytes -> bytes, s: bytes, k: nat)
    requires |s| < 0x1_0000_0000 && k < |Str(s)|
    ensures TakeStr(lossy, Str(s)[..k]) == Err
  {
    if k >= 4 {
      assert Str(s)[..k] == U32(|s|) + s[..k - 4];
      ReadFront(|s|, s[..k - 4]);
    }
  }

  lemma {:induction false} ReadPairsTruncated(lossy: bytes -> bytes, hs: seq<Header>, k: nat)
    requires Sized(hs) && k < |Pairs(hs)|
    ensures ReadPairs(lossy, |hs|, Pairs(hs)[..k]) == Err
  {
    hide Str, TakeStr;
    var (n, v) := hs[0];
    assert hs[0] in hs;
    var tail := Pairs(hs[1..]);
    var a, b := |Str(n)|, |Str(v)|;
    if k < a {
      assert Pairs(hs)[..k] == Str(n)[..k];
      TakeTruncated(lossy, n, k);
    } else if k < a + b {
      assert Pairs(hs)[..k] == Str(n) + Str(v)[..k - a];
      TakeWritten(lossy, n, Str(v)[..k - a]);
      TakeTruncated(lossy, v, k - a);
    } else {
      assert Pairs(hs)[..k] == Str(n) + (Str(v) + tail[..k - a - b]);
      TakeWritten(lossy, n, Str(v) + tail[..k - a - b]);
      TakeWritten(lossy, v, tail[..k - a - b]);
      ReadPairsTruncated(lossy, hs[1..], k - a - b);
    }
  }

  /** A block cut anywhere after its count is rejected; cut inside the count it reads as empty. */
  lemma TruncatedBlock(lossy: bytes -> bytes, hs: seq<Header>, k: nat)
    requires Sized(hs) && k < |Block(hs)|
    ensures ReadBlock(lossy, Block(hs)[..k]) == if k < 4 then Ok([]) else Err
  {
    hide U32, Pairs, ReadPairs;
    if k >= 4 {
      assert Block(hs)[..k] == U32(|hs|) + Pairs(hs)[..k - 4];
      hide Block, ReadBlock;
      ReadCounted(lossy, |hs|, Pairs(hs)[..k - 4]);
      ReadPairsTruncated(lossy, hs, k - 4);
    }
  }

  /** `write_nv_block`. */
  method WriteNvBlock(headers: seq<Header>) returns (out: bytes)
    ensures out == Block(headers)
  {
    out := U32(|headers|);
    for i := 0 to |headers|
      invariant out + Pairs(headers[i..]) == Block(headers)
    {
      var (k, v) := headers[i];
      assert Pairs(headers[i..]) == Str(k) + Str(v) + Pairs(headers[i + 1..]) by {
        assert headers[i..][0] == headers[i] && headers[i..][1..] == headers[i + 1..];
      }
      ghost var was := out;
      out := out + U32(|k|) + k + U32(|v|) + v;
      assert out == was + (Str(k) + Str(v));
      assert out + Pairs(headers[i + 1..]) == was + Pairs(headers[i..]);
    }
    assert headers[|headers|..] == [];
  }

  /** The outcome of a read that already has `pairs` in hand. */
  ghost function After(pairs: seq<Header>, more: Result<seq<Header>>): Result<seq<Header>> {
    if more.Ok? then Ok(pairs + more.value) else Err
  }

  lemma AfterNone(pairs: seq<Header>, more: Result<seq<Header>>)
    ensures After([], more) == more && After(pairs, Ok([])) == Ok(pairs)
  {
    assert pairs + [] == pairs;
    if more.Ok? {
      assert [] + more.value == more.value;
    }
  }

  lemma AfterOne(pairs: seq<Header>, h: Header, more: Result<seq<Header>>)
    ensures After(pairs, After([h], more)) == After(pairs + [h], more)
  {
    if more.Ok? {
      assert pairs + ([h] + more.value) == pairs + [h] + more.value;
    }
  }

  /** `read_nv_block`, which walks an offset through the buffer. */
  method ReadNvBlock(lossy: bytes -> bytes, buf: bytes) returns (r: Result<seq<Header>>)
    ensures r == ReadBlock(lossy, buf)
  {
    if |buf| < 4 {
      return Ok([]);
    }
    var count := ReadU32(buf);
    var off, pairs := 4, [];
    AfterNone([], ReadPairs(lossy, count, buf[4..]));
    for i := 0 to count
      invariant 4 <= off <= |buf|
      invariant ReadBlock(lossy, buf) == After(pairs, ReadPairs(lossy, count - i, buf[off..]))
    {
      var name := Take(lossy, buf, off);
      if name.Err? {
        return Err;
      }
      var value := Take(lossy, buf, name.value.1);
      if value.Err? {
        return Err;
      }
      AfterOne(pairs, (name.value.0, value.value.0), ReadPairs(lossy, count - i - 1, buf[value.value.1..]));
      off, pairs := value.value.1, pairs + [(name.value.0, value.value.0)];
    }
    AfterNone(pairs, Err);
    r := Ok(pairs);
  }

  /** The reader's `take` closure: the decoded string and the advanced offset. */
  method Take(lossy: bytes -> bytes, buf: bytes, off: nat) returns (r: Result<(bytes, nat)>)
    requires off <= |buf|
    ensures match TakeStr(lossy, buf[off..])
            case Err => r == Err
            case Ok((s, rest)) => r.Ok? && r.value.0 == s && off + 4 <= r.value.1 <= |buf| && rest == buf[r.value.1..]
  {
    if off + 4 > |buf| {
      return Err;
    }
    var n := ReadU32(buf[off..off + 4]);
    if off + 4 + n > |buf| {
      return Err;
    }
    assert buf[off..][4..4 + n] == buf[off + 4..off + 4 + n];
    assert buf[off..][4 + n..] == buf[off + 4 + n..];
    r := Ok((lossy(buf[off + 4..off + 4 + n]), off + 4 + n));
  }
}
