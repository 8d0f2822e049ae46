/** Writing a body in the chunked transfer coding (src/http_chunk.c), with the size printer of
    src/buffer.c; and the round trip through the decoder. */
module ChunkedWriter {
  import opened Bytes
  import opened ChunkedCoding
  import opened ChunkedMessage
  import opened ChunkQueue

  // The hexadecimal printer.

  /** hex_chars. */
  function HexChar(n: nat): (b: byte)
    requires n < 16
    ensures IsHex(b) && HexValue(b) == n
  {
    if n < 10 then 48 + n else 87 + n
  }

  /** v >> 4 * k, four bits at a time. */
  function Shift(v: nat, k: nat): nat {
    if k == 0 then v else Shift(v / 16, k - 1)
  }

  /** The last n digits of v. */
  function HexFrom(v: nat, n: nat): (s: Str)
    ensures |s| == n && forall d :: d in s ==> IsHex(d)
  {
    if n == 0 then [] else HexFrom(v / 16, n - 1) + [HexChar(v % 16)]
  }

  /** Two digits for every byte of v. */
  function Nibbles(v: nat): (n: nat)
    ensures n >= 2 && n % 2 == 0
  {
    if v < 256 then 2 else 2 + Nibbles(v / 256)
  }

  function HexDigits(v: nat): Str {
    HexFrom(v, Nibbles(v))
  }

  lemma {:induction false} ShiftOnce(v: nat, k: nat)
    ensures Shift(v, k + 1) == Shift(v, k) / 16
  {
    if k != 0 {
      ShiftOnce(v / 16, k - 1);
    }
  }

  /** buffer_append_uint_hex. */
  method AppendUintHex(value: nat) returns (out: Str)
    ensures out == HexDigits(value)
  {
    var copy, shift := value / 256, 8;
    while copy != 0
      invariant copy >= 0 && shift >= 0 && shift % 8 == 0
      invariant shift / 4 + (if copy == 0 then 0 else Nibbles(copy)) == Nibbles(value)
      decreases copy
    {
      copy := copy / 256;
      shift := shift + 8;
    }
    out := [];
    ghost var n := shift / 4;
    ghost var k := n;
    ShiftedOut(value);
    while shift > 0
      invariant 0 <= shift == 4 * k && k <= n && out == HexFrom(Shift(value, k), n - k)
      decreases shift
    {
      shift := shift - 4;
      k := k - 1;
      ShiftOnce(value, k);
      out := out + [HexChar(Shift(value, shift / 4) % 16)];
    }
  }

  lemma {:induction false} ShiftedOut(v: nat)
    ensures Shift(v, Nibbles(v)) == 0
  {
    if v >= 256 {
      ShiftedOut(v / 256);
      assert v / 16 / 16 == v / 256;
      assert Shift(v, 2 + Nibbles(v / 256)) == Shift(v / 16 / 16, Nibbles(v / 256));
    } else {
      assert v / 16 / 16 == 0;
      assert Shift(v, 2) == Shift(v / 16 / 16, 0);
    }
  }

  lemma {:induction false} ValueSnoc(te: nat, digits: Str, d: byte)
    requires (forall x :: x in digits ==> IsHex(x)) && IsHex(d)
    ensures Value(te, digits + [d]) == Value(te, digits) * 16 + HexValue(d)
    decreases digits
  {
    if digits == [] {
      assert digits + [d] == [d];
      assert [d][1..] == [];
    } else {
      assert (digits + [d])[1..] == digits[1..] + [d];
      ValueSnoc(te * 16 + HexValue(digits[0]), digits[1..], d);
    }
  }

  lemma {:induction false} ValueOfHexFrom(v: nat, n: nat)
    requires Shift(v, n) == 0
    ensures Value(0, HexFrom(v, n)) == v
    decreases n
  {
    if n != 0 {
      ValueOfHexFrom(v / 16, n - 1);
      ValueSnoc(0, HexFrom(v / 16, n - 1), HexChar(v % 16));
    }
  }

  lemma {:induction false} NibblesOf(v: nat, bytes: nat, top: nat)
    requires top == Top(bytes) && v < top && bytes > 0
    ensures Nibbles(v) <= 2 * bytes
  {
    if v >= 256 {
      if bytes > 1 {
        NibblesOf(v / 256, bytes - 1, Top(bytes - 1));
      }
    }
  }

  /** 256 ** bytes. */
  function Top(bytes: nat): nat {
    if bytes == 0 then 1 else 256 * Top(bytes - 1)
  }

  /** The parser undoes the printer, which never prints an odd number of digits. */
  lemma HexInverse(v: nat)
    ensures Value(0, HexDigits(v)) == v && |HexDigits(v)| % 2 == 0
    ensures v <= MAX_SIZE ==> |HexDigits(v)| <= 16
  {
    ShiftedOut(v);
    ValueOfHexFrom(v, Nibbles(v));
    if v <= MAX_SIZE {
      assert Top(2) == 0x1_0000 && Top(4) == 0x1_0000_0000;
      assert Top(6) == 0x1_0000_0000_0000 && Top(8) == 0x1_0000_0000_0000_0000;
      NibblesOf(v, 8, Top(8));
    }
  }

  // What a response body becomes.

  const END: Str := [48, 13, 10, 13, 10]

  /** One append: nothing for nothing, otherwise one chunk. */
  function Frame(data: Str): Str {
    if data == [] then [] else HexDigits(|data|) + CRLF + data + CRLF
  }

  function Frames(datas: seq<Str>): Str {
    if datas == [] then [] else Frame(datas[0]) + Frames(datas[1..])
  }

  lemma FramesStep(was: Str, datas: seq<Str>, i: nat)
    requires i < |datas|
    ensures was + Frame(datas[i]) + Frames(datas[i + 1..]) == was + Frames(datas[i..])
  {
    assert datas[i..][1..] == datas[i + 1..];
    assert was + (Frame(datas[i]) + Frames(datas[i + 1..])) == was + Frame(datas[i]) + Frames(datas[i + 1..]);
  }

  lemma FramesDone(datas: seq<Str>)
    ensures Frames(datas[|datas|..]) == [] && datas[0..] == datas && [] + Frames(datas) == Frames(datas)
  {
  }

  function ChunksOf(datas: seq<Str>): seq<ChunkedMessage.Chunk> {
    if datas == [] then []
    else (if datas[0] == [] then [] else [ChunkedMessage.Chunk(HexDigits(|datas[0]|), [], datas[0])]) + ChunksOf(datas[1..])
  }

  lemma FrameIsChunk(data: Str)
    requires data != [] && |data| <= MAX_SIZE
    ensures var c := ChunkedMessage.Chunk(HexDigits(|data|), [], data);
      c.Good() && c.Bytes() == Frame(data)
  {
    HexInverse(|data|);
    var digits := HexDigits(|data|);
    assert digits + [] + CRLF == digits + CRLF;
  }

  lemma {:induction false} FramesAreChunks(datas: seq<Str>)
    requires forall d :: d in datas ==> |d| <= MAX_SIZE
    ensures forall c :: c in ChunksOf(datas) ==> c.Good()
    ensures ChunksBytes(ChunksOf(datas)) == Frames(datas) && ChunksData(ChunksOf(datas)) == Flat(datas)
    decreases |datas|
  {
    hide Frame, ChunkedMessage.Chunk.Good, ChunkedMessage.Chunk.Bytes;
    if datas != [] {
      FramesAreChunks(datas[1..]);
      if datas[0] != [] {
        FrameIsChunk(datas[0]);
        assert ChunksOf(datas)[1..] == ChunksOf(datas[1..]);
      } else {
        NoFrame();
        assert ChunksOf(datas) == ChunksOf(datas[1..]);
      }
    }
  }

  lemma NoFrame()
    ensures Frame([]) == []
  {
  }

  /** Whatever is written with appends and a close is read back: exactly the data, and the bytes
      that follow are left alone. */
  lemma RoundTrip(datas: seq<Str>, leftover: Str, inputs: seq<Str>, lim: Limits)
    requires forall d :: d in datas ==> |d| <= MAX_SIZE
    requires Flat(inputs) == Frames(datas) + END + leftover
    requires lim.maxRequest == 0 && |END| <= lim.maxField
    ensures RunAll(START, inputs, lim) == State(0, Flat(datas), leftover, Done)
  {
    hide RunAll, ChunksOf, ChunkedMessage.Chunk.Good, Frames;
    FramesAreChunks(datas);
    var m := Message(ChunksOf(datas), [48], [], []);
    EndIsGood();
    assert SizeLine([48], []) + (Trailers([]) + CRLF) == END;
    assert m.Bytes() == Frames(datas) + END;
    DecodesInPieces(m, leftover, lim);
  }

  lemma EndIsGood()
    ensures GoodLine([48], [], 0)
  {
    assert [48][1..] == [];
    assert Value(0, [48]) == Value(0 * 16 + HexValue(48), []);
  }

  /** In whatever pieces they arrive, and whatever follows them, the bytes decode to the data. */
  ghost predicate ReadsBack(datas: seq<Str>, bytes: Str) {
    forall inputs, leftover, lim: Limits ::
      Flat(inputs) == bytes + leftover && lim.maxRequest == 0 && |END| <= lim.maxField ==>
        RunAll(START, inputs, lim) == State(0, Flat(datas), leftover, Done)
  }

  lemma ReadBack(datas: seq<Str>, bytes: Str)
    requires bytes == Frames(datas) + END && forall d :: d in datas ==> |d| <= MAX_SIZE
    ensures ReadsBack(datas, bytes)
  {
    hide RunAll, Frames;
    forall inputs, leftover, lim: Limits | Flat(inputs) == bytes + leftover && lim.maxRequest == 0 && |END| <= lim.maxField
      ensures RunAll(START, inputs, lim) == State(0, Flat(datas), leftover, Done)
    {
      RoundTrip(datas, leftover, inputs, lim);
    }
  }

  // The response.

  /** A part of a chunk follows what was written of it. */
  lemma PartWritten(was: Str, now: Str, next: Str, all: Str, at: nat, mem: Str, part: nat)
    requires at + |mem| <= |all| && all[at..at + |mem|] == mem && part <= |mem|
    requires now == was + all[..at] && next == now + mem[..part]
    ensures next == was + all[..at + part]
  {
    assert all[..at + part] == all[..at] + mem[..part];
  }

  lemma FrameParts(mem: Str)
    requires mem != []
    ensures var digits := HexDigits(|mem|) + CRLF;
      && |Frame(mem)| == |digits| + |mem| + 2 && Frame(mem)[..|digits|] == digits
      && Frame(mem)[|digits|..|digits| + |mem|] == mem && Frame(mem)[|digits| + |mem|..] == CRLF
  {
    hide HexDigits;
  }


  class Response {
    const chunked: bool
    const queue: Queue

    constructor (chunked: bool)
      ensures fresh(queue) && fresh(queue.owned) && queue.Valid() && queue.Bytes() == [] && this.chunked == chunked
    {
      this.chunked := chunked;
      queue := new Queue();
    }

    /** What an append adds to the response. */
    function Coded(data: Str): Str {
      if chunked then Frame(data) else data
    }

    /** The buffers an append queues. */
    function Pieces(data: Str): seq<ChunkQueue.Chunk> {
      if chunked then [MemChunk(HexDigits(|data|) + CRLF, 0), MemChunk(data, 0), MemChunk(CRLF, 0)] else [MemChunk(data, 0)]
    }

    /** The last chunk is a temporary file. */
    predicate InFile(cs: seq<ChunkQueue.Chunk>) {
      cs != [] && cs[|cs| - 1].FileChunk? && cs[|cs| - 1].isTemp
    }

    /** http_chunk_append_len. */
    method AppendLen(len: nat)
      requires queue.Valid()
      modifies queue, queue.owned
      ensures fresh(queue.owned - old(queue.owned))
      ensures queue.Valid() && queue.Bytes() == old(queue.Bytes()) + (HexDigits(len) + CRLF)
      ensures queue.chunks == old(queue.chunks) + [MemChunk(HexDigits(len) + CRLF, 0)]
    {
      var b := AppendUintHex(len);
      queue.AppendMem(b + CRLF);
    }

    /** One of the writes, after some attempts. */
    method Store(mem: Str, fileSize: nat, attempts: seq<Attempt>, turn: nat) returns (ok: bool, ghost stored: nat, used: nat)
      requires queue.Valid() && mem != [] && turn <= |attempts|
      modifies queue, queue.owned
      ensures fresh(queue.owned - old(queue.owned))
      ensures queue.Valid() && stored <= |mem| && (ok <==> stored == |mem|) && queue.Bytes() == old(queue.Bytes()) + mem[..stored]
      ensures used <= |attempts| && (!ok ==> Stops(attempts, used))
    {
      hide Queue.Valid, Queue.Bytes, Queue.Linked, Storing, Stops;
      queue.AreOk();
      StoringEnds(queue.chunks, mem, fileSize, attempts[turn..]);
      ok, stored, used := queue.AppendMemToTempfile(mem, fileSize, attempts[turn..]);
      StopsLater(attempts, turn, used);
      used := turn + used;
    }

    /** http_chunk_append_to_tempfile: all of the chunk, or on failure a prefix of it. */
    method AppendToTempfile(mem: Str, fileSize: nat, attempts: seq<Attempt>)
      returns (ok: bool, ghost stored: nat, used: nat)
      requires queue.Valid() && mem != []
      modifies queue, queue.owned
      ensures fresh(queue.owned - old(queue.owned))
      ensures queue.Valid() && stored <= |Coded(mem)| && (ok <==> stored == |Coded(mem)|)
      ensures queue.Bytes() == old(queue.Bytes()) + Coded(mem)[..stored]
      ensures used <= |attempts| && (!ok ==> Stops(attempts, used))
    {
      hide HexDigits, Queue.Valid, Queue.Bytes, Queue.Linked, Storing, Stops;
      ghost var was := queue.Bytes();
      ghost var at, part := 0, 0;
      used := 0;
      if chunked {
        var digits := AppendUintHex(|mem|);
        ok, part, used := Store(digits + CRLF, fileSize, attempts, 0);
        FrameParts(mem);
        PartWritten(was, was, queue.Bytes(), Coded(mem), 0, digits + CRLF, part);
        stored := part;
        if !ok { return; }
        at := |digits + CRLF|;
      }
      ghost var now := queue.Bytes();
      ok, part, used := Store(mem, fileSize, attempts, used);
      PartWritten(was, now, queue.Bytes(), Coded(mem), at, mem, part);
      stored := at + part;
      if !ok || !chunked { return; }
      now := queue.Bytes();
      ok, part, used := Store(CRLF, fileSize, attempts, used);
      PartWritten(was, now, queue.Bytes(), Coded(mem), stored, CRLF, part);
      stored := stored + part;
    }

    /** http_chunk_append_data: in memory or in a temporary file, the same bytes. */
    method AppendData(mem: Str, bufMin: bool, fileSize: nat, attempts: seq<Attempt>)
      returns (ok: bool, ghost stored: nat, used: nat)
      requires queue.Valid()
      modifies queue, queue.owned
      ensures fresh(queue.owned - old(queue.owned))
      ensures queue.Valid() && stored <= |Coded(mem)| && (ok <==> stored == |Coded(mem)|)
      ensures queue.Bytes() == old(queue.Bytes()) + Coded(mem)[..stored]
      ensures used <= |attempts| && (!ok ==> Stops(attempts, used))
      ensures mem != [] && !InFile(old(queue.chunks)) && old(|queue.Bytes()|) + |mem| <= 1024 * (if bufMin then 128 else 64) ==>
        ok && used == 0 && queue.chunks == old(queue.chunks) + Pieces(mem)
    {
      hide HexDigits, Queue.Valid, Queue.Bytes, Queue.Linked, Stops;
      used := 0;
      if mem == [] {
        assert queue.Bytes() + Coded(mem)[..0] == queue.Bytes();
        return true, 0, 0;
      }
      queue.AreOk();
      var inFile := queue.EndsInTemp();
      if inFile || queue.bytesIn - queue.bytesOut + |mem| > 1024 * (if bufMin then 128 else 64) {
        ok, stored, used := AppendToTempfile(mem, fileSize, attempts);
        return;
      }
      AppendToMemory(mem);
      ok, stored, used := true, |Coded(mem)|, 0;
      assert Coded(mem)[..stored] == Coded(mem);
    }

    method AppendToMemory(mem: Str)
      requires queue.Valid() && mem != []
      modifies queue, queue.owned
      ensures fresh(queue.owned - old(queue.owned))
      ensures queue.Valid() && queue.Bytes() == old(queue.Bytes()) + Coded(mem) && queue.chunks == old(queue.chunks) + Pieces(mem)
    {
      hide HexDigits, Queue.Valid, Queue.Bytes, Queue.Linked;
      ghost var was := queue.Bytes();
      if chunked {
        AppendLen(|mem|);
        queue.AppendMem(mem);
        queue.AppendMem(CRLF);
        assert was + (HexDigits(|mem|) + CRLF) + mem + CRLF == was + Frame(mem);
      } else {
        queue.AppendMem(mem);
      }
    }

    /** http_chunk_close. */
    method Close()
      requires queue.Valid()
      modifies queue, queue.owned
      ensures fresh(queue.owned - old(queue.owned))
      ensures queue.Valid() && queue.Bytes() == old(queue.Bytes()) + if chunked then END else []
    {
      if chunked { queue.AppendMem(END); }
    }

    /** A body written piece by piece. If every append succeeds, the queue holds the frames of the
        pieces and the end mark, which the decoder turns back into the pieces. */
    method WriteAll(datas: seq<Str>, bufMin: bool, fileSize: nat, attempts: seq<Attempt>) returns (ok: bool, used: nat)
      requires queue.Valid() && chunked && queue.Bytes() == []
      requires forall d :: d in datas ==> |d| <= MAX_SIZE
      modifies queue, queue.owned
      ensures fresh(queue.owned - old(queue.owned))
      ensures queue.Valid() && (ok ==> queue.Bytes() == Frames(datas) + END)
      ensures ok ==> ReadsBack(datas, queue.Bytes())
      ensures used <= |attempts| && (!ok ==> Stops(attempts, used))
    {
      hide RunAll, Stops, Queue.Valid, Queue.Bytes, Queue.Linked, Frame, Frames, ReadsBack;
      FramesDone(datas);
      used := 0;
      for i := 0 to |datas|
        invariant fresh(queue.owned - old(queue.owned))
        invariant 0 <= used <= |attempts|
        invariant queue.Valid() && queue.Bytes() + Frames(datas[i..]) == Frames(datas)
      {
        ghost var was := queue.Bytes();
        ghost var stored;
        var tries;
        ok, stored, tries := AppendData(datas[i], bufMin, fileSize, attempts[used..]);
        StopsLater(attempts, used, tries);
        used := used + tries;
        if !ok { return; }
        assert Frame(datas[i])[..stored] == Frame(datas[i]);
        FramesStep(was, datas, i);
      }
      assert queue.Bytes() + [] == queue.Bytes();
      Close();
      ok := true;
      ReadBack(datas, queue.Bytes());
    }
  }
}
