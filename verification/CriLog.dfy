/**
 CRI container logs: `cri_log_line` and `pump_stream` (crates/cri/src/server.rs:2679-2733)
 against a reader that, as the kubelet does, adds a newline back for `F` records only.
 */
module CriLog {
  import opened Bytes

  const NL: byte := 10
  const SP: byte := 32
  const FULL: byte := 70
  const PARTIAL: byte := 80

  /** The index of the first `b` in `s`, or `|s|`. */
  function IndexOf(s: bytes, b: byte): (i: nat)
    ensures i <= |s| && (i < |s| ==> s[i] == b)
  {
    if s == [] || s[0] == b then 0 else 1 + IndexOf(s[1..], b)
  }

  /** What stands before a line: the timestamp and stream name are words. */
  datatype Stamp = Stamp(time: bytes, stream: bytes) {
    predicate Valid() { SP !in time && NL !in time && SP !in stream && NL !in stream }

    function Record(tag: byte, line: bytes): bytes {
      time + [SP] + stream + [SP] + [tag] + [SP] + line + [NL]
    }
  }

  /** `cri_log_line`: full lines but the empty ones, then a partial line if the chunk does not end in one. */
  function LogLines(s: Stamp, data: bytes): bytes
    decreases |data|
  {
    if data == [] then []
    else
      var i := IndexOf(data, NL);
      if i == |data| then s.Record(PARTIAL, data)
      else (if i == 0 then [] else s.Record(FULL, data[..i])) + LogLines(s, data[i + 1..])
  }

  // ---- reading back ----

  function AfterWord(r: bytes): bytes {
    var i := IndexOf(r, SP);
    if i < |r| then r[i + 1..] else []
  }

  /** The content of one record (without its newline). */
  function ReadRecord(r: bytes): bytes {
    var body := AfterWord(AfterWord(r));
    if |body| < 2 then [] else if body[0] == FULL then body[2..] + [NL] else body[2..]
  }

  /** Its stream name, the second word. */
  function StreamOf(r: bytes): bytes {
    var rest := AfterWord(r);
    rest[..IndexOf(rest, SP)]
  }

  /** What a reader of the streams `who` gets from a log. */
  function ReadLog(who: set<bytes>, log: bytes): bytes
    decreases |log|
  {
    var i := IndexOf(log, NL);
    if i == |log| then []
    else (if StreamOf(log[..i]) in who then ReadRecord(log[..i]) else []) + ReadLog(who, log[i + 1..])
  }

  function Only(who: set<bytes>, s: Stamp, data: bytes): bytes {
    if s.stream in who then data else []
  }

  // ---- what survives ----

  /** `data` without its empty full lines. */
  function WithoutEmptyLines(data: bytes): bytes
    decreases |data|
  {
    if data == [] then []
    else
      var i := IndexOf(data, NL);
      if i == |data| then data
      else (if i == 0 then [] else data[..i + 1]) + WithoutEmptyLines(data[i + 1..])
  }

  /** A newline at the start of the chunk or right after another. */
  predicate EmptyLineAt(data: bytes, i: nat) {
    i < |data| && data[i] == NL && (i == 0 || data[i - 1] == NL)
  }

  ghost predicate HasEmptyLine(data: bytes) {
    exists i: nat :: EmptyLineAt(data, i)
  }

  function NonNewlines(s: bytes): bytes {
    if s == [] then [] else (if s[0] == NL then [] else [s[0]]) + NonNewlines(s[1..])
  }

  lemma {:induction false} IndexOfFirst(s: bytes, b: byte)
    ensures b !in s[..IndexOf(s, b)]
  {
    if s != [] && s[0] != b {
      IndexOfFirst(s[1..], b);
      var i := IndexOf(s[1..], b);
      assert s[..i + 1] == [s[0]] + s[1..][..i];
    }
  }

  lemma {:induction false} IndexIs(before: bytes, b: byte, after: bytes)
    requires b !in before
    ensures IndexOf(before + [b] + after, b) == |before|
  {
    var s := before + [b] + after;
    if before != [] {
      assert before[0] in before && s[0] == before[0] && s[1..] == before[1..] + [b] + after;
      IndexIs(before[1..], b, after);
    }
  }

  lemma AfterWordIs(word: bytes, rest: bytes)
    requires SP !in word
    ensures AfterWord(word + [SP] + rest) == rest
  {
    var r := word + [SP] + rest;
    IndexIs(word, SP, rest);
    hide IndexOf;
    assert r[|word| + 1..] == rest;
  }

  lemma FirstWordIs(word: bytes, rest: bytes)
    requires SP !in word
    ensures var r := word + [SP] + rest; IndexOf(r, SP) == |word| && r[..|word|] == word
  {
    var r := word + [SP] + rest;
    IndexIs(word, SP, rest);
    hide IndexOf;
  }

  lemma {:induction false} ContentOfRecord(s: Stamp, tag: byte, line: bytes)
    requires s.Valid() && tag in {FULL, PARTIAL}
    ensures var r := RecordText(s, tag, line);
            StreamOf(r) == s.stream && ReadRecord(r) == line + if tag == FULL then [NL] else []
  {
    var body := [tag] + [SP] + line;
    AfterWordIs(s.time, s.stream + [SP] + body);
    AfterWordIs(s.stream, body);
    FirstWordIs(s.stream, body);
    hide AfterWord, IndexOf;
    assert body[2..] == line;
    assert line + [] == line;
  }

  /** The text of a record without its newline. */
  function RecordText(s: Stamp, tag: byte, line: bytes): bytes {
    s.time + [SP] + (s.stream + [SP] + ([tag] + [SP] + line))
  }

  lemma RecordIsOneLine(s: Stamp, tag: byte, line: bytes, more: bytes)
    requires s.Valid() && NL !in line && tag in {FULL, PARTIAL}
    ensures NL !in RecordText(s, tag, line)
    ensures s.Record(tag, line) + more == RecordText(s, tag, line) + [NL] + more
  {
  }

  lemma {:induction false} OneMoreLine(who: set<bytes>, r: bytes, more: bytes)
    requires NL !in r
    ensures ReadLog(who, r + [NL] + more)
            == (if StreamOf(r) in who then ReadRecord(r) else []) + ReadLog(who, more)
  {
    hide IndexOf, StreamOf, ReadRecord;
    var log := r + [NL] + more;
    IndexIs(r, NL, more);
    assert log[..|r|] == r && log[|r| + 1..] == more;
  }

  lemma {:induction false} RecordReadsBack(who: set<bytes>, s: Stamp, tag: byte, line: bytes, more: bytes)
    requires s.Valid() && NL !in line && tag in {FULL, PARTIAL}
    ensures ReadLog(who, s.Record(tag, line) + more)
            == Only(who, s, line + if tag == FULL then [NL] else []) + ReadLog(who, more)
  {
    hide *;
    RecordIsOneLine(s, tag, line, more);
    ContentOfRecord(s, tag, line);
    OneMoreLine(who, RecordText(s, tag, line), more);
    OnlyIs(who, s, line + if tag == FULL then [NL] else []);
  }

  lemma OnlyIs(who: set<bytes>, s: Stamp, data: bytes)
    ensures Only(who, s, data) == if s.stream in who then data else []
  {
  }

  /** One chunk, whatever follows it in the log, reads back as itself minus its empty full lines. */
  lemma {:induction false} ChunkReadsBack(who: set<bytes>, s: Stamp, data: bytes, more: bytes)
    requires s.Valid()
    ensures ReadLog(who, LogLines(s, data) + more) == Only(who, s, WithoutEmptyLines(data)) + ReadLog(who, more)
    decreases |data|
  {
    hide ReadLog, Stamp.Record, Stamp.Valid;
    var i := IndexOf(data, NL);
    if data == [] {
      assert LogLines(s, data) + more == more && Only(who, s, []) + ReadLog(who, more) == ReadLog(who, more);
    } else if i == |data| {
      IndexOfFirst(data, NL);
      assert data[..|data|] == data;
      RecordReadsBack(who, s, PARTIAL, data, more);
      assert data + [] == data;
    } else {
      ChunkReadsBack(who, s, data[i + 1..], more);
      FirstLineReadsBack(who, s, data, i, more);
    }
  }

  lemma {:induction false} FirstLineReadsBack(who: set<bytes>, s: Stamp, data: bytes, i: nat, more: bytes)
    requires s.Valid() && i < |data| && i == IndexOf(data, NL)
    requires ReadLog(who, LogLines(s, data[i + 1..]) + more)
             == Only(who, s, WithoutEmptyLines(data[i + 1..])) + ReadLog(who, more)
    ensures ReadLog(who, LogLines(s, data) + more) == Only(who, s, WithoutEmptyLines(data)) + ReadLog(who, more)
  {
    FirstLine(s, data, i);
    hide *;
    if i > 0 {
      FullLineThen(who, s, data[..i], LogLines(s, data[i + 1..]), WithoutEmptyLines(data[i + 1..]), more);
    }
  }

  lemma {:induction false} FullLineThen(who: set<bytes>, s: Stamp, line: bytes, lines: bytes, kept: bytes, more: bytes)
    requires s.Valid() && NL !in line && ReadLog(who, lines + more) == Only(who, s, kept) + ReadLog(who, more)
    ensures ReadLog(who, s.Record(FULL, line) + lines + more)
            == Only(who, s, line + [NL] + kept) + ReadLog(who, more)
  {
    hide *;
    RecordReadsBack(who, s, FULL, line, lines + more);
    Assoc(s.Record(FULL, line), lines, more);
    Assoc(Only(who, s, line + [NL]), Only(who, s, kept), ReadLog(who, more));
    OnlyAppend(who, s, line + [NL], kept);
  }

  lemma OnlyAppend(who: set<bytes>, s: Stamp, a: bytes, b: bytes)
    ensures Only(who, s, a + b) == Only(who, s, a) + Only(who, s, b)
  {
  }

  lemma Assoc(a: bytes, b: bytes, c: bytes)
    ensures a + b + c == a + (b + c)
  {
  }

  lemma LineEnds(data: bytes, i: nat)
    requires i < |data| && i == IndexOf(data, NL)
    ensures data[i] == NL && NL !in data[..i] && data[..i] + [NL] == data[..i + 1] && data == data[..i + 1] + data[i + 1..]
  {
    IndexOfFirst(data, NL);
    hide IndexOf;
    SplitAt(data, i);
  }

  lemma SplitAt(data: bytes, i: nat)
    requires i < |data|
    ensures data[..i] + [data[i]] == data[..i + 1] && data == data[..i + 1] + data[i + 1..]
  {
  }

  lemma {:induction false} FirstLine(s: Stamp, data: bytes, i: nat)
    requires i < |data| && i == IndexOf(data, NL)
    ensures NL !in data[..i] && data[..i] + [NL] == data[..i + 1]
    ensures var rest := data[i + 1..];
            && LogLines(s, data) == (if i == 0 then LogLines(s, rest) else s.Record(FULL, data[..i]) + LogLines(s, rest))
            && WithoutEmptyLines(data) == if i == 0 then WithoutEmptyLines(rest) else data[..i] + [NL] + WithoutEmptyLines(rest)
  {
    LineEnds(data, i);
    hide IndexOf, Stamp.Record;
  }

  /** Nothing is lost from a chunk exactly when it has no empty full line; otherwise it gets shorter. */
  lemma {:induction false} KeptExactlyWithoutEmptyLines(data: bytes)
    ensures |WithoutEmptyLines(data)| <= |data|
    ensures WithoutEmptyLines(data) == data <==> |WithoutEmptyLines(data)| == |data|
    ensures WithoutEmptyLines(data) == data <==> !HasEmptyLine(data)
    decreases |data|
  {
    if data != [] {
      var i := IndexOf(data, NL);
      if i < |data| {
        var rest := data[i + 1..];
        KeptExactlyWithoutEmptyLines(rest);
        EmptyLineStep(data, i);
        LineEnds(data, i);
        KeptStep(data[..i + 1], rest, WithoutEmptyLines(rest));
        hide HasEmptyLine, IndexOf;
      } else {
        IndexOfFirst(data, NL);
        assert data[..i] == data;
      }
    }
  }

  lemma KeptStep(line: bytes, rest: bytes, kept: bytes)
    requires |kept| <= |rest| && (kept == rest <==> |kept| == |rest|)
    ensures |line + kept| <= |line + rest|
    ensures line + kept == line + rest <==> kept == rest
    ensures line + kept == line + rest <==> |line + kept| == |line + rest|
  {
  }

  lemma EmptyLineStep(data: bytes, i: nat)
    requires i < |data| && i == IndexOf(data, NL)
    ensures HasEmptyLine(data) <==> i == 0 || HasEmptyLine(data[i + 1..])
  {
    LineEnds(data, i);
    hide IndexOf, EmptyLineAt;
    var rest := data[i + 1..];
    if j: nat :| EmptyLineAt(data, j) {
      EmptyLineMoves(data, i, j);
    }
    if j: nat :| EmptyLineAt(rest, j) {
      EmptyLineMoves(data, i, j);
    }
    EmptyLineMoves(data, i, 0);
  }

  /** Up to and including the first newline only an empty first line counts; after it, the rest's. */
  lemma EmptyLineMoves(data: bytes, i: nat, j: nat)
    requires i < |data| && data[i] == NL && NL !in data[..i]
    ensures j <= i ==> (EmptyLineAt(data, j) <==> i == j == 0)
    ensures j > i ==> (EmptyLineAt(data, j) <==> EmptyLineAt(data[i + 1..], j - i - 1))
    ensures EmptyLineAt(data[i + 1..], j) <==> EmptyLineAt(data, i + 1 + j)
  {
    if j < i {
      assert data[..i][j] == data[j];
    }
  }

  lemma {:induction false} NonNewlinesAppend(a: bytes, b: bytes)
    ensures NonNewlines(a + b) == NonNewlines(a) + NonNewlines(b)
  {
    if a == [] {
      assert a + b == b;
    } else {
      assert (a + b)[0] == a[0] && (a + b)[1..] == a[1..] + b;
      NonNewlinesAppend(a[1..], b);
      var first := if a[0] == NL then [] else [a[0]];
      assert first + (NonNewlines(a[1..]) + NonNewlines(b)) == first + NonNewlines(a[1..]) + NonNewlines(b);
    }
  }

  /** Every byte that is not a newline survives, in order. */
  lemma {:induction false} NonNewlinesSurvive(data: bytes)
    ensures NonNewlines(WithoutEmptyLines(data)) == NonNewlines(data)
    decreases |data|
  {
    if data != [] {
      var i := IndexOf(data, NL);
      if i < |data| {
        var rest := data[i + 1..];
        NonNewlinesSurvive(rest);
        assert data == data[..i + 1] + rest;
        NonNewlinesAppend(data[..i + 1], rest);
        NonNewlinesAppend(data[..i + 1], WithoutEmptyLines(rest));
        if i == 0 {
          assert data[..1] == [NL] && NonNewlines([NL]) == [] by {
            assert [NL][1..] == [];
          }
          assert [] + WithoutEmptyLines(rest) == WithoutEmptyLines(rest);
          assert [] + NonNewlines(rest) == NonNewlines(rest);
        }
      }
    }
  }

  // ---- streams of chunks ----

  function Joined(chunks: seq<bytes>): bytes {
    if chunks == [] then [] else chunks[0] + Joined(chunks[1..])
  }

  function Survivors(chunks: seq<bytes>): seq<bytes> {
    seq(|chunks|, i requires 0 <= i < |chunks| => WithoutEmptyLines(chunks[i]))
  }

  /** The log after `chunks` were written in turn, each under its stamp. */
  function LogOf(stamps: seq<Stamp>, chunks: seq<bytes>): bytes
    requires |stamps| == |chunks|
  {
    if chunks == [] then [] else LogLines(stamps[0], chunks[0]) + LogOf(stamps[1..], chunks[1..])
  }

  /** The chunks that came from the streams `who`, in order. */
  function From(who: set<bytes>, stamps: seq<Stamp>, chunks: seq<bytes>): seq<bytes>
    requires |stamps| == |chunks|
  {
    if chunks == [] then []
    else (if stamps[0].stream in who then [chunks[0]] else []) + From(who, stamps[1..], chunks[1..])
  }

  /**
   For every sequence of output chunks: the records of the streams `who` read back as the chunks
   of those streams minus their empty full lines, so they keep every non-newline byte in order,
   and the output reads back exactly if and only if none of these chunks contains an empty full line.
   */
  lemma LogReadsBack(who: set<bytes>, stamps: seq<Stamp>, chunks: seq<bytes>)
    requires |stamps| == |chunks| && forall s <- stamps :: s.Valid()
    ensures var got, sent := ReadLog(who, LogOf(stamps, chunks)), From(who, stamps, chunks);
            && got == Joined(Survivors(sent)) && NonNewlines(got) == NonNewlines(Joined(sent))
            && (got == Joined(sent) <==> forall c <- sent :: !HasEmptyLine(c))
  {
    hide WithoutEmptyLines, HasEmptyLine, LogLines, ReadLog, From, LogOf, NonNewlines, Joined, Survivors;
    LogIsSurvivors(who, stamps, chunks);
    SurvivorsOf(From(who, stamps, chunks));
  }

  const STDOUT: bytes := [115, 116, 100, 111, 117, 116]
  const STDERR: bytes := [115, 116, 100, 101, 114, 114]

  /** The log's turns are those of a pump that writes `out` and a pump that writes `err`, interleaved. */
  ghost predicate Interleaves(stamps: seq<Stamp>, chunks: seq<bytes>, out: seq<bytes>, err: seq<bytes>)
    requires |stamps| == |chunks|
  {
    && (forall s <- stamps :: s.Valid() && s.stream in {STDOUT, STDERR})
    && From({STDOUT}, stamps, chunks) == out && From({STDERR}, stamps, chunks) == err
  }

  /**
   However the two pumps of a container take turns on its log, reading back the records of one
   stream gives that stream's own output, minus its empty full lines, and nothing of the other.
   */
  lemma EachStreamReadsBack(stamps: seq<Stamp>, chunks: seq<bytes>, out: seq<bytes>, err: seq<bytes>)
    requires |stamps| == |chunks| && Interleaves(stamps, chunks, out, err)
    ensures var log := LogOf(stamps, chunks);
            && ReadLog({STDOUT}, log) == Joined(Survivors(out)) && ReadLog({STDERR}, log) == Joined(Survivors(err))
            && (ReadLog({STDOUT}, log) == Joined(out) <==> forall c <- out :: !HasEmptyLine(c))
            && (ReadLog({STDERR}, log) == Joined(err) <==> forall c <- err :: !HasEmptyLine(c))
  {
    hide HasEmptyLine, ReadLog, From, LogOf, Joined, Survivors, NonNewlines;
    LogReadsBack({STDOUT}, stamps, chunks);
    LogReadsBack({STDERR}, stamps, chunks);
  }

  lemma {:induction false} LogIsSurvivors(who: set<bytes>, stamps: seq<Stamp>, chunks: seq<bytes>)
    requires |stamps| == |chunks| && forall s <- stamps :: s.Valid()
    ensures ReadLog(who, LogOf(stamps, chunks)) == Joined(Survivors(From(who, stamps, chunks)))
    decreases |chunks|
  {
    hide ReadLog;
    if chunks == [] {
      NothingReadsBack(who);
    } else {
      hide WithoutEmptyLines, LogLines, Stamp.Valid;
      var rest := From(who, stamps[1..], chunks[1..]);
      assert stamps[0] in stamps;
      ChunkReadsBack(who, stamps[0], chunks[0], LogOf(stamps[1..], chunks[1..]));
      LogIsSurvivors(who, stamps[1..], chunks[1..]);
      if stamps[0].stream in who {
        SurvivorsCons(chunks[0], rest);
      } else {
        assert [] + rest == rest && [] + Joined(Survivors(rest)) == Joined(Survivors(rest));
      }
    }
  }

  lemma NothingReadsBack(who: set<bytes>)
    ensures ReadLog(who, []) == []
  {
  }

  lemma SurvivorsCons(first: bytes, rest: seq<bytes>)
    ensures Joined(Survivors([first] + rest)) == WithoutEmptyLines(first) + Joined(Survivors(rest))
  {
    hide WithoutEmptyLines;
    assert Survivors([first] + rest) == [WithoutEmptyLines(first)] + Survivors(rest);
    assert ([WithoutEmptyLines(first)] + Survivors(rest))[1..] == Survivors(rest);
  }

  lemma {:induction false} SurvivorsOf(chunks: seq<bytes>)
    ensures NonNewlines(Joined(Survivors(chunks))) == NonNewlines(Joined(chunks))
    ensures |Joined(Survivors(chunks))| <= |Joined(chunks)|
    ensures |Joined(Survivors(chunks))| == |Joined(chunks)| <==> forall c <- chunks :: !HasEmptyLine(c)
    ensures Joined(Survivors(chunks)) == Joined(chunks) <==> forall c <- chunks :: !HasEmptyLine(c)
  {
    if chunks != [] {
      hide WithoutEmptyLines, HasEmptyLine, NonNewlines;
      var kept, rest := WithoutEmptyLines(chunks[0]), chunks[1..];
      assert Survivors(chunks)[1..] == Survivors(rest);
      SurvivorsOf(rest);
      KeptExactlyWithoutEmptyLines(chunks[0]);
      NonNewlinesSurvive(chunks[0]);
      NonNewlinesAppend(chunks[0], Joined(rest));
      NonNewlinesAppend(kept, Joined(Survivors(rest)));
      assert chunks == [chunks[0]] + rest;
    }
  }

  /** The chunk `ab`, line feed, line feed, `c`, written out: `F ab` and `P c` records, the empty line gone. */
  lemma LinesOnTheWire(s: Stamp)
    ensures LogLines(s, [97, 98, 10, 10, 99])
            == s.time + [32] + s.stream + [32, 70, 32, 97, 98, 10] + (s.time + [32] + s.stream + [32, 80, 32, 99, 10])
  {
    hide LogLines, Stamp.Record;
    FullThenMore(s, [97, 98], [10, 99]);
    FullThenMore(s, [], [99]);
    LastPart(s);
    assert [97, 98] + [NL] + [10, 99] == [97, 98, 10, 10, 99] && [] + [NL] + [99] == [10, 99];
    Records(s);
  }

  lemma {:induction false} FullThenMore(s: Stamp, line: bytes, rest: bytes)
    requires NL !in line
    ensures LogLines(s, line + [NL] + rest)
            == if line == [] then LogLines(s, rest) else s.Record(FULL, line) + LogLines(s, rest)
  {
    var data := line + [NL] + rest;
    IndexIs(line, NL, rest);
    FirstLine(s, data, |line|);
    hide LogLines, IndexOf, Stamp.Record;
    assert data[..|line|] == line && data[|line| + 1..] == rest;
  }

  lemma LastPart(s: Stamp)
    ensures LogLines(s, [99]) == s.Record(PARTIAL, [99])
  {
    assert IndexOf([99], NL) == 1;
  }

  lemma Records(s: Stamp)
    ensures s.Record(FULL, [97, 98]) == s.time + [32] + s.stream + [32, 70, 32, 97, 98, 10]
    ensures s.Record(PARTIAL, [99]) == s.time + [32] + s.stream + [32, 80, 32, 99, 10]
  {
  }

  // ---- the imperative form ----

  /** The first line of what is left of a chunk. */
  lemma {:induction false} LinesOf(s: Stamp, rest: bytes)
    requires rest != []
    ensures var pos := IndexOf(rest, NL);
            LogLines(s, rest)
            == if pos == |rest| then s.Record(PARTIAL, rest[..pos])
               else (if pos == 0 then [] else s.Record(FULL, rest[..pos])) + LogLines(s, rest[pos + 1..])
  {
    hide IndexOf, Stamp.Record;
    assert rest[..|rest|] == rest;
  }

  /** `cri_log_line`, which walks `start` through the chunk. */
  method CriLogLine(s: Stamp, data: bytes) returns (out: bytes)
    ensures out == LogLines(s, data)
  {
    hide LogLines, Stamp.Record, IndexOf;
    out := [];
    var start := 0;
    assert data[0..] == data;
    while start < |data|
      invariant start <= |data| && out + LogLines(s, data[start..]) == LogLines(s, data)
    {
      var rest := data[start..];
      LinesOf(s, rest);
      var pos := IndexOf(rest, NL);
      var full, line := pos < |rest|, rest[..pos];
      ghost var was := out;
      start := if full then start + pos + 1 else |data|;
      if !(line == [] && full) {
        out := out + s.Record(if full then FULL else PARTIAL, line);
      }
      NoLines(s, data);
      RestOf(data, |data| - |rest|, pos);
      Assoc(was, if line == [] && full then [] else s.Record(if full then FULL else PARTIAL, line), LogLines(s, data[start..]));
      assert was + LogLines(s, rest) == out + LogLines(s, data[start..]);
    }
    NoLines(s, data);
    assert out + [] == out;
  }

  lemma RestOf(data: bytes, start: nat, pos: nat)
    requires start <= |data|
    ensures start + pos < |data| ==> data[start..][pos + 1..] == data[start + pos + 1..]
  {
  }

  lemma NoLines(s: Stamp, data: bytes)
    ensures data[|data|..] == [] && LogLines(s, data[|data|..]) == []
  {
  }

  /** A container's log file, if it could be made, and what its live bus has carried. */
  class ContainerLog {
    var file: Option<bytes>
    var live: seq<(byte, bytes)>

    constructor (made: bool)
      ensures file == (if made then Some([]) else None) && live == []
    {
      file, live := if made then Some([]) else None, [];
    }

    /** One turn of a pump: the chunk goes formatted to the file, under its lock, and as it is to the bus. */
    method Pump(s: Stamp, channel: byte, chunk: bytes)
      modifies this
      ensures file == if old(file).Some? then Some(old(file).value + LogLines(s, chunk)) else None
      ensures live == old(live) + [(channel, chunk)]
    {
      var line := CriLogLine(s, chunk);
      if file.Some? {
        file := Some(file.value + line);
      }
      live := live + [(channel, chunk)];
    }

    /** `pump_stream` over the chunks its reader yields. */
    method PumpStream(stamps: seq<Stamp>, channel: byte, chunks: seq<bytes>)
      requires |stamps| == |chunks|
      modifies this
      ensures file == if old(file).Some? then Some(old(file).value + LogOf(stamps, chunks)) else None
      ensures live == old(live) + seq(|chunks|, i requires 0 <= i < |chunks| => (channel, chunks[i]))
    {
      hide LogLines;
      assert stamps[..0] == [] && chunks[..0] == [];
      assert file.Some? ==> file.value + [] == file.value;
      for i := 0 to |chunks|
        invariant file == if old(file).Some? then Some(old(file).value + LogOf(stamps[..i], chunks[..i])) else None
        invariant live == old(live) + seq(i, k requires 0 <= k < i => (channel, chunks[k]))
      {
        Pump(stamps[i], channel, chunks[i]);
        LogSnoc(stamps, chunks, i);
        if old(file).Some? {
          Assoc(old(file).value, LogOf(stamps[..i], chunks[..i]), LogLines(stamps[i], chunks[i]));
        }
      }
      assert stamps[..|chunks|] == stamps && chunks[..|chunks|] == chunks;
    }
  }

  lemma {:induction false} LogSnoc(stamps: seq<Stamp>, chunks: seq<bytes>, n: nat)
    requires n < |stamps| == |chunks|
    ensures LogOf(stamps[..n + 1], chunks[..n + 1]) == LogOf(stamps[..n], chunks[..n]) + LogLines(stamps[n], chunks[n])
    decreases n
  {
    hide LogLines;
    var first := LogLines(stamps[0], chunks[0]);
    if n == 0 {
      assert stamps[..1] == [stamps[0]] && chunks[..1] == [chunks[0]];
      assert LogOf(stamps[..1][1..], chunks[..1][1..]) == [];
    } else {
      LogSnoc(stamps[1..], chunks[1..], n - 1);
      assert stamps[..n + 1][1..] == stamps[1..][..n] && chunks[..n + 1][1..] == chunks[1..][..n];
      assert stamps[..n][1..] == stamps[1..][..n - 1] && chunks[..n][1..] == chunks[1..][..n - 1];
      Assoc(first, LogOf(stamps[1..][..n - 1], chunks[1..][..n - 1]), LogLines(stamps[n], chunks[n]));
    }
  }
}
