/** connection_handle_read_post_chunked (src/connections-glue.c) on queues of chunks: what it does
    is what ChunkedCoding does on the bytes, wherever the chunk boundaries lie. */
module ChunkedReader {
  import opened Bytes
  import opened ChunkedCoding
  import opened ChunkQueue
  import opened Options

  /** What is left of the first chunk. */
  function FirstRest(cs: seq<Chunk>): Str
    requires AllOk(cs)
  {
    if cs == [] then [] else cs[0].Rest()
  }

  lemma FirstIsPrefix(cs: seq<Chunk>)
    requires AllOk(cs)
    ensures FirstRest(cs) <= BytesOf(cs) && (|cs| <= 1 ==> FirstRest(cs) == BytesOf(cs))
    ensures cs == [] ==> BytesOf(cs) == []
  {
    if cs != [] {
      BytesFirst(cs);
      if |cs| == 1 {
        BytesOne(cs[0]);
        assert cs == [cs[0]];
      }
    }
  }

  // Joining chunks.

  /** The first two memory chunks after the first one's buffer has taken what is left of the
      second and the two have changed places. */
  function Joined(cs: seq<Chunk>): (r: seq<Chunk>)
    requires AllOk(cs) && AllMem(cs) && |cs| >= 2
    ensures AllOk(r) && AllMem(r) && |r| == |cs|
  {
    var c, d := cs[0], cs[1];
    [MemChunk(d.mem, |d.mem|), MemChunk(c.mem + d.mem[d.offset..], c.offset)] + cs[2..]
  }

  lemma JoinedPair(c: Chunk, d: Chunk)
    requires c.Ok() && d.Ok() && c.MemChunk? && d.MemChunk?
    ensures MemChunk(d.mem, |d.mem|).Rest() == []
    ensures MemChunk(c.mem + d.mem[d.offset..], c.offset).Ok()
    ensures MemChunk(c.mem + d.mem[d.offset..], c.offset).Rest() == c.Rest() + d.Rest()
  {
  }

  lemma JoinedRests(cs: seq<Chunk>)
    requires AllOk(cs) && AllMem(cs) && |cs| >= 2
    ensures var j := Joined(cs);
      && j[0].Rest() == [] && j[1].Rest() == cs[0].Rest() + cs[1].Rest() && j[1].MemChunk?
      && j[1..] == [j[1]] + cs[2..] && cs[1..][1..] == cs[2..]
  {
    hide Chunk.Rest;
    JoinedPair(cs[0], cs[1]);
  }

  lemma JoinedSame(cs: seq<Chunk>)
    requires AllOk(cs) && AllMem(cs) && |cs| >= 2
    ensures BytesOf(Joined(cs)) == BytesOf(cs)
    ensures Joined(cs)[0].Rest() == [] && Joined(cs)[1].Rest() == cs[0].Rest() + cs[1].Rest()
  {
    hide BytesOf, Joined, Chunk.Rest;
    JoinedRests(cs);
    var j := Joined(cs);
    BytesFirst(cs);
    BytesFirst(cs[1..]);
    BytesFirst(j);
    BytesFirst(j[1..]);
    assert j[1..][1..] == cs[2..];
  }

  /** The first chunk has bytes unless it is the only one. */
  ghost predicate Fronted(cs: seq<Chunk>) {
    AllOk(cs) && (|cs| > 1 ==> cs[0].Rest() != [])
  }

  /** The last chunk is empty and not the only one. */
  ghost predicate LastEmpty(cs: seq<Chunk>)
    requires AllOk(cs)
  {
    |cs| > 1 && cs[|cs| - 1].Rest() == []
  }

  lemma JoinedLater(cs: seq<Chunk>)
    requires AllOk(cs) && AllMem(cs) && |cs| >= 2
    ensures var after := WithoutFinished(Joined(cs));
      && AllOk(after) && |after| < |cs| && (cs[1].Rest() != [] ==> after != [])
  {
    hide Joined, Chunk.Rest;
    JoinedRests(cs);
    var j := Joined(cs);
    assert WithoutFinished(j) == WithoutFinished(j[1..]);
    FinishedShrinks(j[1..]);
  }

  lemma {:induction false} FinishedShrinks(cs: seq<Chunk>)
    requires AllOk(cs)
    ensures |WithoutFinished(cs)| <= |cs| && AllOk(WithoutFinished(cs)) && (cs != [] && cs[0].Rest() != [] ==> WithoutFinished(cs) == cs)
  {
    if cs != [] && cs[0].Rest() == [] {
      FinishedShrinks(cs[1..]);
    }
  }

  lemma JoinedFirst(cs: seq<Chunk>)
    requires AllOk(cs) && AllMem(cs) && |cs| >= 2 && Fronted(cs)
    ensures var after := WithoutFinished(Joined(cs));
      && AllOk(after) && |after| < |cs| && after != [] && Fronted(after) && |FirstRest(after)| >= |FirstRest(cs)|
      && (Solid(cs) ==> Solid(after)) && (Regular(cs) ==> Regular(after)) && (cs[1].Rest() == [] ==> FirstRest(after) == FirstRest(cs))
      && (!LastEmpty(cs) ==> !LastEmpty(after) && (cs[1].Rest() == [] ==> |after| > 1))
      && (LastEmpty(cs) ==> LastEmpty(after) || (|after| == 1 && cs[1].Rest() == []))
  {
    hide Joined, Chunk.Rest;
    JoinedRests(cs);
    var j := Joined(cs);
    assert WithoutFinished(j) == WithoutFinished(j[1..]);
    assert WithoutFinished(j) == j[1..];
  }

  /** What became of the chunk that the caller still looks at: it is there, or it is among the unused
      ones, reset, or it was freed. */
  datatype Gone = Here | Recycled | Freed

  /** connection_handle_read_post_cq_compact: the first chunk grows by the next that has bytes. The
      chunk that was first is gone if there was another. */
  method Compact(cq: Queue) returns (grown: bool, gone: Gone)
    requires cq.Valid() && AllMem(cq.chunks)
    modifies cq, cq.owned
    ensures cq.Valid() && AllMem(cq.chunks) && cq.Bytes() == old(cq.Bytes()) && fresh(cq.owned - old(cq.owned))
    ensures cq.bytesIn == old(cq.bytesIn) && cq.bytesOut == old(cq.bytesOut)
    ensures if grown then |cq.chunks| < |old(cq.chunks)| && cq.chunks != [] else |cq.chunks| <= 1
    ensures gone == if |old(cq.chunks)| <= 1 then Here else if old(cq.unusedChunks) <= 4 then Recycled else Freed
    ensures old(Fronted(cq.chunks)) ==>
      && Fronted(cq.chunks) && |FirstRest(cq.chunks)| >= |old(FirstRest(cq.chunks))| && (!grown ==> old(FirstRest(cq.chunks)) == cq.Bytes())
      && (old(!LastEmpty(cq.chunks)) ==> !LastEmpty(cq.chunks) && (!grown ==> gone.Here?))
      && (old(LastEmpty(cq.chunks)) ==> if grown then LastEmpty(cq.chunks) else !gone.Here?)
    ensures old(Solid(cq.chunks)) ==> Solid(cq.chunks)
    ensures old(Regular(cq.chunks)) ==> Regular(cq.chunks)
  {
    hide FirstRest, BytesOf, WithoutFinished, Joined, Chunk.Rest, Queue.Linked, Queue.Valid, Queue.Bytes, Solid, Regular, Fronted, LastEmpty, AllOk;
    cq.FirstTwo();
    StillSame(cq.chunks);
    gone := Here;
    while cq.first != null && cq.first.next != null
      invariant cq.Valid() && AllMem(cq.chunks) && cq.Bytes() == old(cq.Bytes()) && fresh(cq.owned - old(cq.owned))
      invariant cq.bytesIn == old(cq.bytesIn) && cq.bytesOut == old(cq.bytesOut)
      invariant |cq.chunks| <= |old(cq.chunks)| && Skipping(old(cq.chunks), cq.chunks)
      invariant if cq.chunks == old(cq.chunks) then gone.Here? && cq.unusedChunks == old(cq.unusedChunks)
        else |old(cq.chunks)| > 1 && gone == if old(cq.unusedChunks) <= 4 then Recycled else Freed
      invariant (cq.first != null && cq.first.next != null) <==> |cq.chunks| >= 2
      decreases |cq.chunks|
    {
      SkipOne(old(cq.chunks), cq.chunks);
      JoinedLater(cq.chunks);
      var empty, g := JoinNext(cq);
      if gone.Here? { gone := g; }
      if !empty { return true, gone; }
      cq.FirstTwo();
    }
    QueueFirst(cq);
    SkippedAll(old(cq.chunks), cq.chunks);
    return false, gone;
  }

  /** What holds after empty chunks were joined to the first. */
  ghost predicate Skipping(was: seq<Chunk>, cs: seq<Chunk>) {
    && AllOk(was) && AllOk(cs)
    && (Solid(was) ==> Solid(cs)) && (Regular(was) ==> Regular(cs) && cs == was)
    && (Fronted(was) ==> Fronted(cs) && FirstRest(cs) == FirstRest(was))
    && (Fronted(was) && !LastEmpty(was) ==> !LastEmpty(cs) && (|was| > 1 ==> |cs| > 1))
    && (Fronted(was) && LastEmpty(was) ==> LastEmpty(cs) || |cs| == 1)
  }

  lemma StillSame(cs: seq<Chunk>)
    requires AllOk(cs)
    ensures Skipping(cs, cs)
  {
  }

  lemma SkipOne(was: seq<Chunk>, cs: seq<Chunk>)
    requires Skipping(was, cs) && AllMem(cs) && |cs| >= 2
    ensures AllOk(cs)
    ensures var after := WithoutFinished(Joined(cs));
      && AllOk(after)
      && (cs[1].Rest() == [] ==> Skipping(was, after))
      && (Solid(was) ==> Solid(after)) && (Regular(was) ==> Regular(after))
      && (Fronted(was) ==> Fronted(after) && |FirstRest(after)| >= |FirstRest(was)|)
      && (Fronted(was) && !LastEmpty(was) ==> !LastEmpty(after))
      && (Fronted(was) && LastEmpty(was) && cs[1].Rest() != [] ==> LastEmpty(after))
  {
    hide Joined, WithoutFinished, FirstRest;
    JoinedLater(cs);
    if Fronted(cs) { JoinedFirst(cs); }
  }

  lemma SkippedAll(was: seq<Chunk>, cs: seq<Chunk>)
    requires Skipping(was, cs) && |cs| <= 1
    ensures Fronted(was) ==> (LastEmpty(was) <==> |was| > 1)
  {
  }

  /** One turn of it: the buffer of the first chunk takes what is left of the next, the two change
      their buffers, and the first is dropped. */
  method JoinNext(cq: Queue) returns (empty: bool, gone: Gone)
    requires cq.Valid() && AllMem(cq.chunks) && |cq.chunks| >= 2
    modifies cq, cq.owned
    ensures cq.Valid() && AllMem(cq.chunks) && cq.Bytes() == old(cq.Bytes()) && fresh(cq.owned - old(cq.owned))
    ensures cq.bytesIn == old(cq.bytesIn) && cq.bytesOut == old(cq.bytesOut)
    ensures AllOk(old(cq.chunks)) && cq.chunks == WithoutFinished(Joined(old(cq.chunks))) && empty == (old(cq.chunks)[1].Rest() == [])
    ensures gone == if old(cq.unusedChunks) <= 4 then Recycled else Freed
  {
    hide FirstRest, BytesOf, WithoutFinished, Queue.Linked;
    cq.FirstTwo();
    ghost var before := cq.chunks;
    JoinedSame(cq.chunks);
    var c := cq.first;
    var d := c.next;
    var x, y := c.it, d.it;
    empty := y.Remaining() == 0;
    gone := if cq.unusedChunks <= 4 then Recycled else Freed;
    cq.Put(d, MemChunk(x.mem + y.mem[y.offset..], x.offset), 1);
    cq.Put(c, MemChunk(y.mem, |y.mem|), 0);
    assert cq.chunks == Joined(before);
    cq.RemoveFinished();
  }

  // Scanning.

  /** The digits, blanks and first other character of a size line. */
  method ParseSize(line: Str) returns (r: Line)
    ensures r == Parse(line)
  {
    var s, te := 0, 0;
    while s < |line| && Hex2Int(line[s]) != 0xFF
      invariant 0 <= s <= |line| && 0 <= te && Digits(line, 0, 0) == Digits(line, s, te)
    {
      if te > MAX_SHIFT { return BadLine; }
      te := te * 16 + Hex2Int(line[s]);
      s := s + 1;
    }
    ghost var next := s;
    while s < |line| && (line[s] == SP || line[s] == TAB)
      invariant next <= s <= |line| && Blanks(line, next) == Blanks(line, s)
    {
      s := s + 1;
    }
    if s == |line| || (line[s] != CR && line[s] != SEMICOLON) || |line| >= MAX_LINE { return BadLine; }
    return Line(te, |line|);
  }

  /** Whether bytes start with CRLF: 1 if they do, -1 if they cannot, 0 if that is open. */
  function StartsCrlf(b: Str): int {
    if b == [] || b == [CR] then 0 else if CRLF <= b then 1 else -1
  }

  /** What the source answers for a list of chunks: an empty first chunk reads as the NUL that ends
      its buffer. */
  function CrlfAnswer(cs: seq<Chunk>): int
    requires AllOk(cs)
  {
    if cs == [] then 0
    else if cs[0].Rest() == [] || cs[0].Rest()[0] != CR then -1
    else if |cs[0].Rest()| > 1 then (if cs[0].Rest()[1] == LF then 1 else -1)
    else
      var later := BytesOf(cs[1..]);
      if later == [] then 0 else if later[0] == LF then 1 else -1
  }

  /** The answer is right if and only if the first chunk is not empty, or -1 is right anyway. */
  lemma CrlfAnswerIff(cs: seq<Chunk>)
    requires AllOk(cs)
    ensures CrlfAnswer(cs) == StartsCrlf(BytesOf(cs)) <==> cs == [] || cs[0].Rest() != [] || StartsCrlf(BytesOf(cs)) == -1
  {
    hide BytesOf, Chunk.Rest;
    NoBytes(cs);
    if cs != [] {
      BytesFirst(cs);
      var first, later := cs[0].Rest(), BytesOf(cs[1..]);
      var all := BytesOf(cs);
      assert all == first + later;
      assert |first| > 1 ==> all[0] == first[0] && all[1] == first[1];
      assert |first| == 1 && later != [] ==> all[0] == first[0] && all[1] == later[0];
      assert all == [CR] <==> |all| == 1 && all[0] == CR;
      assert |first| > 0 ==> all[0] == first[0];
      assert CRLF <= all <==> |all| >= 2 && all[0] == CR && all[1] == LF;
    }
  }

  lemma CrlfAnswerSound(cs: seq<Chunk>)
    requires AllOk(cs) && |BytesOf(cs)| >= 2
    ensures CrlfAnswer(cs) != -1 ==> CRLF <= BytesOf(cs)
  {
    CrlfAnswerIff(cs);
  }

  /** An empty chunk that has come to the front hides the CRLF behind it. */
  lemma EmptyHidesCrlf()
    ensures var cs := [BLANK, MemChunk(CRLF, 0)]; AllOk(cs) && BytesOf(cs) == CRLF && CrlfAnswer(cs) == -1 && StartsCrlf(CRLF) == 1
  {
    var cs := [BLANK, MemChunk(CRLF, 0)];
    BytesFirst(cs);
    assert cs[1..] == [cs[1]];
    BytesOne(cs[1]);
  }

  /** connection_handle_read_post_chunked_crlf. */
  method Crlf(cq: Queue) returns (r: int)
    requires cq.Valid() && AllMem(cq.chunks)
    ensures AllOk(cq.chunks) && r == CrlfAnswer(cq.chunks)
  {
    hide BytesOf, Queue.Linked;
    cq.AreOk();
    cq.Ends();
    if cq.first == null { return 0; }
    var p := cq.first.it.Rest();
    if p == [] || p[0] != CR { return -1; }
    if |p| > 1 { return if p[1] == LF then 1 else -1; }
    cq.NextIs(0);
    var c := cq.first.next;
    ghost var i := 1;
    while c != null
      invariant 1 <= i <= |cq.nodes| == |cq.chunks| && c == NodeAt(cq.nodes, i)
      invariant BytesOf(cq.chunks[1..]) == BytesOf(cq.chunks[i..])
      decreases |cq.nodes| - i
    {
      cq.NextIs(i);
      BytesFirst(cq.chunks[i..]);
      assert cq.chunks[i..][1..] == cq.chunks[i + 1..];
      var rest := c.it.Rest();
      if rest != [] { return if rest[0] == LF then 1 else -1; }
      c := c.next;
      i := i + 1;
    }
    NoBytes(cq.chunks[i..]);
    return 0;
  }

  /** strstr over the chunks from position `from` of the first one on, joining chunks until the
      blank line is found in the first or there is only one. If the last joining only dropped an empty
      chunk, the chunk looked at is gone. */
  method FindBlankLine(cq: Queue, from: nat) returns (n: nat, gone: Gone)
    requires cq.Valid() && AllMem(cq.chunks) && Fronted(cq.chunks) && from <= |FirstRest(cq.chunks)|
    modifies cq, cq.owned
    ensures cq.Valid() && AllMem(cq.chunks) && Fronted(cq.chunks) && cq.Bytes() == old(cq.Bytes()) && fresh(cq.owned - old(cq.owned))
    ensures cq.bytesIn == old(cq.bytesIn) && cq.bytesOut == old(cq.bytesOut)
    ensures from <= |cq.Bytes()| && n == BlankLineEnd(cq.Bytes()[from..])
    ensures n == 0 ==> FirstRest(cq.chunks) == cq.Bytes()
    ensures old(!LastEmpty(cq.chunks)) ==> gone.Here?
    ensures old(LastEmpty(cq.chunks)) && n == 0 ==> !gone.Here?
    ensures old(Solid(cq.chunks)) ==> Solid(cq.chunks)
    ensures old(Regular(cq.chunks)) ==> Regular(cq.chunks)
  {
    hide BytesOf, FirstRest, BlankLineEnd, Queue.Linked, Queue.Valid, Queue.Bytes, Solid, Regular, Fronted, LastEmpty;
    var first := Head(cq);
    n := BlankLineEnd(first[from..]);
    var more := true;
    gone := Here;
    while n == 0 && more
      invariant cq.Valid() && AllMem(cq.chunks) && Fronted(cq.chunks) && cq.Bytes() == old(cq.Bytes()) && fresh(cq.owned - old(cq.owned))
      invariant cq.bytesIn == old(cq.bytesIn) && cq.bytesOut == old(cq.bytesOut)
      invariant AllOk(cq.chunks) && first == FirstRest(cq.chunks)
      invariant from <= |first| && n == BlankLineEnd(first[from..])
      invariant !more ==> |cq.chunks| <= 1
      invariant old(!LastEmpty(cq.chunks)) ==> !LastEmpty(cq.chunks) && gone.Here?
      invariant old(LastEmpty(cq.chunks)) ==> if more then LastEmpty(cq.chunks) else !gone.Here?
      invariant old(Solid(cq.chunks)) ==> Solid(cq.chunks)
      invariant old(Regular(cq.chunks)) ==> Regular(cq.chunks)
      decreases if more then 1 + |cq.chunks| else 0
    {
      more, gone := Compact(cq);
      if more { gone := Here; }
      first := Head(cq);
      n := BlankLineEnd(first[from..]);
    }
    QueueFirst(cq);
    FoundInFirst(first, cq.Bytes(), from);
  }

  /** What the first chunk still holds. */
  method Head(cq: Queue) returns (first: Str)
    requires cq.Valid()
    ensures AllOk(cq.chunks) && first == FirstRest(cq.chunks)
  {
    hide BytesOf, Queue.Linked;
    cq.AreOk();
    cq.Ends();
    first := if cq.first == null then [] else cq.first.it.Rest();
  }

  lemma FoundInFirst(first: Str, all: Str, from: nat)
    requires first <= all && from <= |first|
    ensures BlankLineEnd(first[from..]) != 0 ==> BlankLineEnd(all[from..]) == BlankLineEnd(first[from..])
  {
    BlankLineEndAppend(first[from..], all[|first|..]);
    assert all[from..] == first[from..] + all[|first|..];
  }

  /** A line found in the first chunk is the first line of all. */
  lemma LineInFirst(first: Str, all: Str)
    requires first <= all
    ensures LineEnd(first) != 0 ==> Header(all) == Parse(first[..LineEnd(first)]) && !Header(all).NoLine?
    ensures LineEnd(first) != 0 && Header(all).Line? ==> Header(all).length == LineEnd(first)
    ensures LineEnd(first) == 0 && |first| >= MAX_LINE ==> !Header(all).Line?
    ensures LineEnd(first) == 0 && first == all ==> Header(all).NoLine?
  {
    var n := LineEnd(first);
    assert all[..n] == first[..n];
    LineEndAppend(first, all[|first|..]);
    HeaderAppend(first, all[|first|..]);
    assert all == first + all[|first|..];
  }

  /** How reading a size line ended: with a chunk size, the last chunk and its trailers, an
      error, or nothing yet. */
  datatype Read = Wait | Size(size: nat) | Last | Error(verdict: Verdict)

  /** The last size line has come and the blank line after the trailers has not. */
  predicate AwaitsTrailers(st: State) {
    && st.te == 0 && Header(st.unread).Line? && Header(st.unread).size == 0
    && BlankLineEnd(st.unread[Header(st.unread).length - 2..]) == 0
  }

  /** How waiting for trailers ends, after a look at the length of a chunk that may be gone. */
  function TrailerWait(gone: Gone, length: nat, lim: Limits): Read {
    match gone
    case Here => if length < lim.maxField then Wait else Error(Undefined)
    case Recycled => if 0 < lim.maxField then Wait else Error(Undefined)
    case Freed => Error(Undefined)
  }

  /** What a look at a chunk that is gone changes: among the unused ones, the code waits for however
      long trailers; freed, it has no defined behaviour even with short ones. */
  lemma GoneMatters(length: nat, lim: Limits)
    ensures TrailerWait(Recycled, length, lim) == TrailerWait(Here, length, lim) <==> length < lim.maxField || lim.maxField == 0
    ensures TrailerWait(Freed, length, lim) == TrailerWait(Here, length, lim) <==> lim.maxField <= length
  {
  }

  /** What reading a size line comes to is a step of the decoder. */
  ghost predicate IsStep(st: State, lim: Limits, h: Read, unread: Str) {
    match h
    case Wait => Step(st, lim) == st && unread == st.unread
    case Size(size) => Step(st, lim) == State(size + 2, st.body, unread, Going)
    case Last => Step(st, lim) == State(0, st.body, unread, Done)
    case Error(v) => !v.Going? && !v.Done? && Step(st, lim) == State(0, st.body, unread, v)
  }

  /** A size line found in the first chunk. */
  method TakeLine(cq: Queue, got: nat, lim: Limits, ghost body: Str) returns (h: Read, ghost gone: Gone)
    requires cq.Valid() && AllMem(cq.chunks) && AllOk(cq.chunks) && LineEnd(FirstRest(cq.chunks)) != 0 && got == |body|
    modifies cq, cq.owned
    ensures cq.Valid() && AllMem(cq.chunks) && fresh(cq.owned - old(cq.owned))
    ensures old(Solid(cq.chunks)) ==> Solid(cq.chunks)
    ensures old(Regular(cq.chunks)) ==> Regular(cq.chunks)
    ensures !h.Error? || (!h.verdict.Going? && !h.verdict.Done?)
    ensures var st := State(0, body, old(cq.Bytes()), Going);
      if gone.Here? then IsStep(st, lim, h, cq.Bytes())
      else AwaitsTrailers(st) && cq.Bytes() == st.unread && h == TrailerWait(gone, |st.unread|, lim)
    ensures old(!LastEmpty(cq.chunks)) ==> gone.Here?
    ensures old(LastEmpty(cq.chunks)) && AwaitsTrailers(State(0, body, old(cq.Bytes()), Going)) ==> !gone.Here?
  {
    hide BytesOf, FirstRest, BlankLineEnd, Header, LineEnd, Parse, AllMem, Solid, Regular, Fronted, LastEmpty, Queue.Valid, Queue.Bytes, Queue.Linked, AllOk;
    gone := Here;
    QueueFirst(cq);
    var first := Head(cq);
    LineInFirst(first, cq.Bytes());
    HasBytesFirst(cq.chunks);
    EndsInLf(first);
    var hsz := LineEnd(first);
    var line := ParseSize(first[..hsz]);
    if !line.Line? { return Error(Bad), gone; }
    if line.size == 0 {
      if first[hsz - 1] == CR {
        assert false;
      }
      var n, g := FindBlankLine(cq, line.length - 2);
      if n == 0 {
        QueueFirst(cq);
        first := Head(cq);
        return TrailerWait(g, |first|, lim), g;
      }
      cq.MarkWritten(line.length - 2 + n);
      return Last, gone;
    }
    cq.MarkWritten(line.length);
    if lim.maxRequest != 0 && (lim.maxRequest < line.size || lim.maxRequest - line.size < got) {
      return Error(TooLarge), gone;
    }
    return if line.size > MAX_SIZE then Error(Undefined) else Size(line.size), gone;
  }

  /** The loop that reads a size line, while no chunk is being read. If the first chunk has bytes it
      is a step of the decoder, except that with an empty last chunk waiting for the trailers depends
      on what became of the chunk looked at. In any queue what is consumed is. */
  method ReadHeader(cq: Queue, got: nat, lim: Limits, ghost body: Str) returns (h: Read, ghost gone: Gone)
    requires cq.Valid() && AllMem(cq.chunks) && got == |body|
    modifies cq, cq.owned
    ensures cq.Valid() && AllMem(cq.chunks) && fresh(cq.owned - old(cq.owned))
    ensures old(Solid(cq.chunks)) ==> Solid(cq.chunks)
    ensures old(Regular(cq.chunks)) ==> Regular(cq.chunks)
    ensures !h.Error? || (!h.verdict.Going? && !h.verdict.Done?)
    ensures var st := State(0, body, old(cq.Bytes()), Going);
      && (gone.Here? && (old(Fronted(cq.chunks)) || h.Size? || h.Last?) ==> IsStep(st, lim, h, cq.Bytes()))
      && (!gone.Here? ==> AwaitsTrailers(st) && cq.Bytes() == st.unread && h == TrailerWait(gone, |st.unread|, lim))
    ensures old(Fronted(cq.chunks)) && AwaitsTrailers(State(0, body, old(cq.Bytes()), Going)) ==> (gone.Here? <==> old(!LastEmpty(cq.chunks)))
  {
    hide BytesOf, FirstRest, BlankLineEnd, Header, LineEnd, Parse, AllMem, Solid, Regular, Fronted, LastEmpty, Queue.Valid, Queue.Bytes, Queue.Linked, AllOk, TrailerWait;
    ghost var all := cq.Bytes();
    QueueFirst(cq);
    gone := Here;
    while true
      invariant cq.Valid() && AllMem(cq.chunks) && cq.Bytes() == all && fresh(cq.owned - old(cq.owned)) && gone.Here?
      invariant AllOk(cq.chunks) && AllOk(old(cq.chunks))
      invariant old(Fronted(cq.chunks)) ==> Fronted(cq.chunks) && (old(LastEmpty(cq.chunks)) <==> LastEmpty(cq.chunks))
      invariant old(Solid(cq.chunks)) ==> Solid(cq.chunks)
      invariant old(Regular(cq.chunks)) ==> Regular(cq.chunks)
      decreases |cq.chunks|
    {
      QueueFirst(cq);
      var first := Head(cq);
      LineInFirst(first, all);
      if cq.first == null { return Wait, gone; }
      if LineEnd(first) != 0 {
        h, gone := TakeLine(cq, got, lim, body);
        return;
      }
      if |first| >= MAX_LINE { return Error(Bad), gone; }
      var more, g := Compact(cq);
      if !more { return Wait, gone; }
      QueueFirst(cq);
    }
  }

  /** The branch for no trailers looks for "\r\n" from the LF that ends the line on, so it is never
      taken. */
  lemma EndsInLf(s: Str)
    ensures LineEnd(s) != 0 ==> s != [] && s[LineEnd(s) - 1] == LF
  {
  }

  lemma HasBytesFirst(cs: seq<Chunk>)
    requires AllOk(cs) && FirstRest(cs) != []
    ensures Fronted(cs)
  {
  }

  lemma FrontedNow(cs: seq<Chunk>)
    requires AllOk(cs) && (cs != [] ==> cs[0].Rest() != [])
    ensures Fronted(cs)
  {
  }

  lemma QueueFirst(cq: Queue)
    requires cq.Valid()
    ensures AllOk(cq.chunks) && FirstRest(cq.chunks) <= cq.Bytes()
    ensures |cq.chunks| <= 1 ==> FirstRest(cq.chunks) == cq.Bytes()
    ensures cq.chunks == [] ==> cq.Bytes() == []
    ensures cq.first == null <==> cq.chunks == []
  {
    cq.AreOk();
    FirstIsPrefix(cq.chunks);
  }

  // The whole.

  /** What the caller is told: go on, an answer 400, 413 or 500 to the client, or no defined
      behaviour. */
  datatype Outcome = GoOn | BadRequest | PayloadTooLarge | StorageFailed | NoBehaviour

  function OutcomeOf(v: Verdict): Outcome {
    match v
    case Going => GoOn
    case Done => GoOn
    case Bad => BadRequest
    case TooLarge => PayloadTooLarge
    case Undefined => NoBehaviour
  }

  /** The decoder's state as queues hold it: unread in one, and after `was` in the other what was
      delivered after `body`. */
  ghost predicate Holds(st: State, unread: Str, now: Str, was: Str, body: Str) {
    unread == st.unread && was <= now && st.body == body + now[|was|..]
  }

  lemma StartHolds(te: nat, unread: Str, was: Str, body: Str)
    ensures Holds(State(te, body, unread, Going), unread, was, was, body)
  {
  }

  lemma SameBody(st: State, after: State, unread: Str, now: Str, was: Str, body: Str)
    requires Holds(st, unread, now, was, body) && after.body == st.body
    ensures Holds(after, after.unread, now, was, body)
  {
  }

  lemma DeliverHolds(st: State, lim: Limits, now: Str, grown: Str, was: Str, body: Str)
    requires st.te > 2 && Holds(st, st.unread, now, was, body)
    requires grown == now + st.unread[..Min(|st.unread|, st.te - 2)]
    ensures Step(st, lim) == Deliver(st) && Holds(Deliver(st), Deliver(st).unread, grown, was, body)
    ensures Deliver(st).te >= 2 && (Deliver(st).te > 2 ==> Deliver(st).unread == [])
    ensures |Deliver(st).body| == |st.body| + Min(|st.unread|, st.te - 2) && |Deliver(st).unread| <= |st.unread|
    ensures var n := Min(|st.unread|, st.te - 2);
      Deliver(st).verdict == st.verdict && Deliver(st).te == st.te - n && Deliver(st).unread == st.unread[n..]
  {
    var part := st.unread[..Min(|st.unread|, st.te - 2)];
    assert body + now[|was|..] + part == body + grown[|was|..];
  }

  /** When moving data fails in the middle, what arrived is a beginning of what should have. */
  lemma PartHolds(st: State, lim: Limits, now: Str, grown: Str, was: Str, body: Str, rest: Str, k: nat, m: nat)
    requires st.te > 2 && st.verdict.Going? && Holds(st, st.unread, now, was, body)
    requires m <= st.te - 2 && KeptInPart(st.unread, now, rest, grown, k, m)
    ensures Beginning(Run(st, lim), grown, was, body)
  {
    hide Run, Step;
    var n := Min(|st.unread|, st.te - 2);
    assert body + grown[|was|..] == st.body + st.unread[..m];
    assert st.unread[..m] <= st.unread[..n];
    DeliverHolds(st, lim, now, now + st.unread[..n], was, body);
    BodyGrows(Deliver(st), lim);
    TakeStep(st, lim);
  }

  lemma {:induction false} BodyGrows(st: State, lim: Limits)
    ensures st.body <= Run(st, lim).body
    decreases Measure(st)
  {
    hide Header, Measure, BlankLineEnd;
    if st.verdict.Going? && Step(st, lim) != st {
      StepShrinks(st, lim);
      BodyGrows(Step(st, lim), lim);
    }
  }

  lemma TakeStep(st: State, lim: Limits)
    requires st.verdict.Going?
    ensures Run(st, lim) == if Step(st, lim) == st then st else Run(Step(st, lim), lim)
    ensures !Step(st, lim).verdict.Going? ==> Run(st, lim) == Step(st, lim)
  {
    hide Step;
  }

  lemma OutOfBytes(st: State, lim: Limits)
    requires st.unread == [] || (st.te == 2 && |st.unread| < 2)
    ensures Run(st, lim) == st
  {
    if st.unread == [] {
      NothingToRead(st, lim);
    }
  }

  lemma CrlfStep(st: State, lim: Limits)
    requires st.te == 2 && |st.unread| >= 2
    ensures Step(st, lim) == if CRLF <= st.unread then st.(te := 0, unread := st.unread[2..]) else st.(verdict := Bad)
  {
    assert CRLF <= st.unread <==> st.unread[..2] == CRLF;
  }

  /** What was delivered is a beginning of what the decoder delivers. */
  ghost predicate Beginning(end: State, now: Str, was: Str, body: Str) {
    was <= now && body + now[|was|..] <= end.body
  }

  lemma TrailersEnd(st: State, lim: Limits)
    requires st.verdict.Going? && AwaitsTrailers(st)
    ensures Run(st, lim) == st || Run(st, lim) == st.(verdict := Undefined)
    ensures AwaitsTrailers(Run(st, lim))
  {
    hide Header, BlankLineEnd;
  }

  lemma RunAllSettles(inputs: seq<Str>, lim: Limits)
    ensures Run(RunAll(START, inputs, lim), lim) == RunAll(START, inputs, lim)
  {
    hide Run;
    if inputs == [] {
      NothingToRead(START, lim);
    } else {
      var n := |inputs| - 1;
      RunAllSnoc(START, inputs[..n], inputs[n], lim);
      assert inputs[..n] + [inputs[n]] == inputs;
      RunSettles(Append(RunAll(START, inputs[..n], lim), inputs[n]), lim);
    }
  }

  lemma RegularIsFronted(cs: seq<Chunk>)
    requires Regular(cs)
    ensures Fronted(cs) && !LastEmpty(cs)
  {
  }

  lemma SolidIsFronted(cs: seq<Chunk>)
    requires Solid(cs)
    ensures Fronted(cs)
  {
  }

  lemma NotEmptyFirst(cs: seq<Chunk>)
    requires (Solid(cs) || Regular(cs)) && BytesOf(cs) != []
    ensures cs != [] && cs[0].Rest() != []
  {
    FirstIsPrefix(cs);
  }

  lemma EmptySolid(cs: seq<Chunk>)
    requires cs == []
    ensures AllMem(cs) && Solid(cs) && AllOk(cs) && BytesOf(cs) == []
  {
  }

  lemma NoReads(inputs: seq<Str>, lim: Limits)
    ensures RunAll(START, inputs[..0], lim) == START
  {
  }

  lemma SplitOfStart(inputs: seq<Str>, lim: Limits)
    ensures !LongEnd(Append(START, Flat(inputs)), lim) ==> RunAll(START, inputs, lim) == Run(Append(START, Flat(inputs)), lim)
  {
    hide Run, RunAll, LongEnd;
    NothingToRead(START, lim);
    if !LongEnd(Append(START, Flat(inputs)), lim) { SplitInvariance(START, inputs, lim); }
  }

  /** The body with all of the chunk being read. */
  function Extent(st: State): nat {
    |st.body| + if st.te > 2 then st.te - 2 else 0
  }

  lemma {:induction false} ExtentGrows(st: State, lim: Limits)
    requires st.te != 1
    ensures Extent(st) <= Extent(Run(st, lim))
    decreases Measure(st)
  {
    hide Header, BlankLineEnd;
    if st.verdict.Going? && Step(st, lim) != st {
      StepShrinks(st, lim);
      ExtentGrows(Step(st, lim), lim);
    }
  }

  /** The fields of a connection that a request body changes: te_chunked, and content_length, which
      is negative while the end of the body is not known. */
  class Request {
    var teChunked: nat
    var contentLength: int

    constructor ()
      ensures teChunked == 0 && contentLength == -1
    {
      teChunked, contentLength := 0, -1;
    }

    /** The data of the chunk being read moves to dst: at most 64 kB of a request stay in memory. */
    method MoveData(cq: Queue, dst: Queue, te: nat, fileSize: nat, attempts: seq<Attempt>)
      returns (ok: bool, left: nat, ghost k: nat, ghost m: nat, used: nat)
      requires cq.Valid() && AllMem(cq.chunks) && dst.Valid() && cq.Separate(dst) && te > 2
      modifies cq, cq.owned, dst, dst.owned
      ensures cq.Valid() && AllMem(cq.chunks) && dst.Valid() && cq.Separate(dst) && cq.NoneForeign(dst)
      ensures old(Solid(cq.chunks)) ==> Solid(cq.chunks)
      ensures old(Regular(cq.chunks)) ==> Regular(cq.chunks)
      ensures ok ==> var n := Min(|old(cq.Bytes())|, te - 2);
        && left == te - n && cq.Bytes() == old(cq.Bytes())[n..]
        && dst.Bytes() == old(dst.Bytes()) + old(cq.Bytes())[..n] && dst.bytesIn == old(dst.bytesIn) + n
      ensures !ok ==> m <= te - 2 && KeptInPart(old(cq.Bytes()), old(dst.Bytes()), cq.Bytes(), dst.Bytes(), k, m)
      ensures used <= |attempts| && old(AllOk(cq.chunks) && AllOk(dst.chunks))
      ensures var len := Min(|old(cq.Bytes())|, te - 2);
        if old(dst.bytesIn) + te <= 64 * 1024 then
          ok && used == 0 && cq.chunks == Left(old(cq.chunks), len) && dst.chunks == old(dst.chunks) + Taken(old(cq.chunks), len)
        else Move(ok, used, cq.chunks, dst.chunks) == Moving(old(cq.chunks), old(dst.chunks), len, fileSize, attempts)
    {
      hide Moving, BytesOf, Chunk.Rest, AllMem, Solid, Regular, Queue.Valid, Queue.Bytes, Queue.Linked, Left, Taken;
      cq.AreOk();
      dst.AreOk();
      var avail := cq.bytesIn - cq.bytesOut;
      var len := Min(avail, te - 2);
      left := te - len;
      if dst.bytesIn + te <= 64 * 1024 {
        ghost var n := cq.Steal(dst, len);
        ok, k, m, used := true, 0, 0, 0;
      } else {
        ok, m, k, used := cq.StealWithTempfiles(dst, len, fileSize, attempts);
      }
    }

    /** The same, as a step of the decoder. */
    method PassData(cq: Queue, dst: Queue, te: nat, fileSize: nat, attempts: seq<Attempt>,
                    ghost st: State, ghost lim: Limits, ghost was: Str, ghost body: Str) returns (ok: bool, left: nat, used: nat)
      requires cq.Valid() && AllMem(cq.chunks) && dst.Valid() && cq.Separate(dst) && te > 2
      requires st.te == te && st.verdict.Going? && st.unread == cq.Bytes() && dst.bytesIn == |st.body|
      requires Holds(st, cq.Bytes(), dst.Bytes(), was, body)
      modifies cq, cq.owned, dst, dst.owned
      ensures cq.Valid() && AllMem(cq.chunks) && dst.Valid() && cq.Separate(dst) && cq.NoneForeign(dst)
      ensures old(Solid(cq.chunks)) ==> Solid(cq.chunks)
      ensures old(Regular(cq.chunks)) ==> Regular(cq.chunks)
      ensures used <= |attempts| && (!ok ==> Stops(attempts, used) && Extent(Run(st, lim)) + 2 > 64 * 1024)
      ensures !ok ==> Beginning(Run(st, lim), dst.Bytes(), was, body)
      ensures ok ==> var next := Deliver(st);
        && Run(next, lim) == Run(st, lim) && Holds(next, cq.Bytes(), dst.Bytes(), was, body) && next.te == left >= 2
        && next.unread == cq.Bytes() && next.verdict.Going? && dst.bytesIn == |next.body|
        && (left > 2 ==> cq.Bytes() == []) && |cq.Bytes()| <= |old(cq.Bytes())|
    {
      hide Moving, Stops, Left, Taken, Run, Step, Deliver, BytesOf, PartsOf, Chunk.Rest, Chunk.Ok, AllMem, Solid, Regular, AllOk, Queue.Valid, Queue.Bytes, Queue.Linked, Holds, KeptInPart;
      ghost var before := dst.Bytes();
      ghost var k, m;
      ghost var cs, to, length := cq.chunks, dst.chunks, |cq.Bytes()|;
      ok, left, k, m, used := MoveData(cq, dst, te, fileSize, attempts);
      if !ok {
        MovingEnds(cs, to, Min(length, te - 2), fileSize, attempts);
        ExtentGrows(st, lim);
        PartHolds(st, lim, before, dst.Bytes(), was, body, cq.Bytes(), k, m);
        return;
      }
      TakeStep(st, lim);
      DeliverHolds(st, lim, before, dst.Bytes(), was, body);
    }

    /** The CRLF after the data of a chunk. It may be missed only behind an empty first chunk. */
    method EndChunk(cq: Queue, ghost st: State, lim: Limits) returns (ended: bool)
      requires cq.Valid() && AllMem(cq.chunks)
      requires st.te == 2 && st.verdict.Going? && st.unread == cq.Bytes() && |st.unread| >= 2
      modifies cq, cq.owned
      ensures cq.Valid() && AllMem(cq.chunks) && fresh(cq.owned - old(cq.owned))
      ensures old(Solid(cq.chunks)) ==> Solid(cq.chunks)
      ensures old(Regular(cq.chunks)) ==> Regular(cq.chunks)
      ensures ended ==> Step(st, lim) == State(0, st.body, cq.Bytes(), Going) && |cq.Bytes()| < |old(cq.Bytes())|
      ensures !ended ==> cq.Bytes() == old(cq.Bytes()) && (old(Solid(cq.chunks) || Regular(cq.chunks)) ==> Step(st, lim) == State(2, st.body, cq.Bytes(), Bad))
    {
      hide Step, BytesOf, PartsOf, Chunk.Rest, AllMem, Solid, Regular, Queue.Valid, Queue.Bytes, Queue.Linked, CrlfAnswer;
      CrlfStep(st, lim);
      QueueFirst(cq);
      cq.BytesAre();
      if Solid(cq.chunks) || Regular(cq.chunks) { NotEmptyFirst(cq.chunks); }
      CrlfAnswerIff(cq.chunks);
      CrlfAnswerSound(cq.chunks);
      var r := Crlf(cq);
      if r == -1 { return false; }
      cq.MarkWritten(2);
      return true;
    }

    /** How a call ended, where `end` is what the decoder makes of the bytes: delivered and left
        over, as it says, or when storage failed, a beginning of what it delivers. */
    ghost predicate Ended(end: State, outcome: Outcome, unread: Str, now: Str, was: Str, body: Str, received: int, te: nat, length: int)
      reads this
    {
      if outcome.StorageFailed? then Beginning(end, now, was, body)
      else
        && outcome == OutcomeOf(end.verdict) && Holds(end, unread, now, was, body) && received == |end.body|
        && teChunked == (if outcome.GoOn? then end.te else te)
        && contentLength == if end.verdict.Done? then |end.body| else length
    }

    /** The same, but while the decoder awaits the trailers of the last chunk, whether it goes on or has
        no defined behaviour may differ. */
    ghost predicate Trailing(end: State, outcome: Outcome, unread: Str, now: Str, was: Str, body: Str, received: int, te: nat, length: int)
      reads this
    {
      && AwaitsTrailers(end) && Holds(end, unread, now, was, body) && received == |end.body|
      && (outcome.GoOn? || outcome.NoBehaviour?) && teChunked == (if outcome.GoOn? then 0 else te) && contentLength == length
    }

    /** What holds for any queue, for one where only the last chunk is empty, and for one without empty
        chunks. */
    ghost predicate Result(end: State, outcome: Outcome, unread: Str, now: Str, was: Str, body: Str, received: int, te: nat, length: int,
                           solid: bool, regular: bool)
      reads this
    {
      && Beginning(end, now, was, body)
      && (solid ==> Ended(end, outcome, unread, now, was, body, received, te, length) || Trailing(end, outcome, unread, now, was, body, received, te, length))
      && (regular ==> Ended(end, outcome, unread, now, was, body, received, te, length))
    }

    lemma ResultFor(end: State, outcome: Outcome, unread: Str, now: Str, was: Str, body: Str, received: int, te: nat, length: int,
                    solid: bool, regular: bool, solid0: bool, regular0: bool)
      requires Result(end, outcome, unread, now, was, body, received, te, length, solid, regular) && (solid0 ==> solid) && (regular0 ==> regular)
      ensures Result(end, outcome, unread, now, was, body, received, te, length, solid0, regular0)
    {
      hide Ended, Trailing, Beginning;
    }

    /** A call that ends while the decoder stands at st, and what is missing to a result. */
    lemma ResultNow(st: State, lim: Limits, outcome: Outcome, unread: Str, now: Str, was: Str, body: Str, received: int, te: nat, length: int,
                    solid: bool, regular: bool)
      requires Holds(st, st.unread, now, was, body)
      requires solid ==> Ended(Run(st, lim), outcome, unread, now, was, body, received, te, length) || Trailing(Run(st, lim), outcome, unread, now, was, body, received, te, length)
      requires regular ==> Ended(Run(st, lim), outcome, unread, now, was, body, received, te, length)
      ensures Result(Run(st, lim), outcome, unread, now, was, body, received, te, length, solid, regular)
    {
      hide Ended, Trailing, Run;
      BodyGrows(st, lim);
    }

    lemma ResultFailed(end: State, unread: Str, now: Str, was: Str, body: Str, received: int, te: nat, length: int, solid: bool)
      requires Beginning(end, now, was, body)
      ensures Result(end, StorageFailed, unread, now, was, body, received, te, length, solid, solid)
    {
      hide Beginning, Trailing;
    }

    /** One turn of the loop. Either the call ends, or the decoder has come some steps further. */
    method Turn(cq: Queue, dst: Queue, te0: nat, lim: Limits, fileSize: nat, attempts: seq<Attempt>,
                ghost cur: State, ghost was: Str, ghost body: Str) returns (outcome: Option<Outcome>, te: nat, used: nat, ghost next: State)
      requires cq.Valid() && AllMem(cq.chunks) && dst.Valid() && cq.Separate(dst)
      requires Holds(cur, cq.Bytes(), dst.Bytes(), was, body) && dst.bytesIn == |cur.body|
      requires cur.te == te0 != 1 && cur.unread == cq.Bytes() && cur.verdict.Going? && teChunked != 1
      modifies this, cq, cq.owned, dst, dst.owned
      ensures cq.Valid() && AllMem(cq.chunks) && dst.Valid() && cq.Separate(dst) && cq.NoneForeign(dst) && teChunked != 1
      ensures old(Solid(cq.chunks)) ==> Solid(cq.chunks)
      ensures old(Regular(cq.chunks)) ==> Regular(cq.chunks)
      ensures used <= |attempts| && (outcome == Some(StorageFailed) ==> Stops(attempts, used) && Extent(Run(cur, lim)) + 2 > 64 * 1024)
      ensures match outcome
        case Some(o) => Result(Run(cur, lim), o, cq.Bytes(), dst.Bytes(), was, body, dst.bytesIn,
                               old(teChunked), old(contentLength), old(Solid(cq.chunks)), old(Regular(cq.chunks)))
        case None =>
          && Run(next, lim) == Run(cur, lim) && Holds(next, cq.Bytes(), dst.Bytes(), was, body) && dst.bytesIn == |next.body|
          && next.te == te != 1 && next.unread == cq.Bytes() && next.verdict.Going?
          && teChunked == old(teChunked) && contentLength == old(contentLength) && |cq.Bytes()| < |old(cq.Bytes())|
    {
      hide Stops, Extent, Run, Step, Deliver, BytesOf, PartsOf, Chunk.Rest, Chunk.Ok, AllMem, Solid, Regular, AllOk, Queue.Valid, Queue.Bytes, Queue.Linked, Fronted, Holds, KeptInPart, Result, Ended, Trailing;
      next, te, used := cur, te0, 0;
      ghost var solid, regular := Solid(cq.chunks), Regular(cq.chunks);
      if te == 0 {
        ghost var te1, length1 := teChunked, contentLength;
        var h, gone := ReadHeaderFor(cq, dst.bytesIn, lim, cur.body);
        TakeStep(cur, lim);
        if !h.Size? {
          if h.Last? { contentLength := dst.bytesIn; }
          if h.Last? || h.Wait? { teChunked := 0; }
          outcome := Some(if h.Error? then OutcomeOf(h.verdict) else GoOn);
          HeaderResult(cur, lim, h, gone, cq.Bytes(), dst.Bytes(), was, body, dst.bytesIn, te1, length1, solid, regular);
          return;
        }
        StepShrinks(cur, lim);
        next := Step(cur, lim);
        SameBody(cur, next, cur.unread, dst.Bytes(), was, body);
        te := h.size + 2;
      }
      ghost var kept := Solid(cq.chunks) || Regular(cq.chunks);
      outcome, te, used, next := Body(cq, dst, te, lim, fileSize, attempts, next, was, body);
      if outcome.Some? {
        ResultFor(Run(cur, lim), outcome.value, cq.Bytes(), dst.Bytes(), was, body, dst.bytesIn, old(teChunked), old(contentLength), kept, kept, solid, regular);
      }
    }

    /** ReadHeader, with what it means for queues where only the last chunk is empty. */
    method ReadHeaderFor(cq: Queue, got: nat, lim: Limits, ghost body: Str) returns (h: Read, ghost gone: Gone)
      requires cq.Valid() && AllMem(cq.chunks) && got == |body|
      modifies cq, cq.owned
      ensures cq.Valid() && AllMem(cq.chunks) && fresh(cq.owned - old(cq.owned))
      ensures old(Solid(cq.chunks)) ==> Solid(cq.chunks)
      ensures old(Regular(cq.chunks)) ==> Regular(cq.chunks)
      ensures var st := State(0, body, old(cq.Bytes()), Going);
        && HeaderIs(st, lim, h, gone, cq.Bytes(), old(Solid(cq.chunks)), old(Regular(cq.chunks)))
        && (h.Size? ==> Step(st, lim) == State(h.size + 2, body, cq.Bytes(), Going))
    {
      hide Step, AllMem, Solid, Regular, AllOk, Queue.Valid, Queue.Bytes, Queue.Linked, Fronted, LastEmpty, AwaitsTrailers;
      QueueFirst(cq);
      if Solid(cq.chunks) { SolidIsFronted(cq.chunks); }
      if Regular(cq.chunks) { RegularIsFronted(cq.chunks); }
      h, gone := ReadHeader(cq, got, lim, body);
    }

    ghost predicate HeaderIs(st: State, lim: Limits, h: Read, gone: Gone, unread: Str, solid: bool, regular: bool) {
      && (!h.Error? || (!h.verdict.Going? && !h.verdict.Done?))
      && (gone.Here? && (solid || regular || h.Size? || h.Last?) ==> IsStep(st, lim, h, unread))
      && (!gone.Here? ==> AwaitsTrailers(st) && unread == st.unread && h == TrailerWait(gone, |st.unread|, lim))
      && (regular ==> gone.Here?)
    }

    lemma HeaderResult(cur: State, lim: Limits, h: Read, gone: Gone, unread: Str, now: Str, was: Str, body: Str, received: int, te: nat, length: int,
                       solid: bool, regular: bool)
      requires cur.te == 0 && cur.verdict.Going? && HeaderIs(cur, lim, h, gone, unread, solid, regular) && !h.Size?
      requires Holds(cur, cur.unread, now, was, body) && received == |cur.body|
      requires teChunked == (if h.Last? || h.Wait? then 0 else te) && contentLength == if h.Last? then received else length
      ensures Result(Run(cur, lim), if h.Error? then OutcomeOf(h.verdict) else GoOn, unread, now, was, body, received, te, length, solid, regular)
    {
      hide Result, AwaitsTrailers;
      TakeStep(cur, lim);
      var o := if h.Error? then OutcomeOf(h.verdict) else GoOn;
      if gone.Here? {
        if solid || regular {
          assert Ended(Run(cur, lim), o, unread, now, was, body, received, te, length);
        }
      } else {
        TrailersEnd(cur, lim);
        assert Trailing(Run(cur, lim), o, unread, now, was, body, received, te, length);
      }
      ResultNow(cur, lim, o, unread, now, was, body, received, te, length, solid, regular);
    }

    /** The rest of a turn, inside a chunk. */
    method Body(cq: Queue, dst: Queue, te0: nat, lim: Limits, fileSize: nat, attempts: seq<Attempt>,
                ghost cur: State, ghost was: Str, ghost body: Str) returns (outcome: Option<Outcome>, te: nat, used: nat, ghost next: State)
      requires cq.Valid() && AllMem(cq.chunks) && dst.Valid() && cq.Separate(dst)
      requires Holds(cur, cq.Bytes(), dst.Bytes(), was, body) && dst.bytesIn == |cur.body|
      requires cur.te == te0 >= 2 && cur.unread == cq.Bytes() && cur.verdict.Going? && teChunked != 1
      modifies this, cq, cq.owned, dst, dst.owned
      ensures cq.Valid() && AllMem(cq.chunks) && dst.Valid() && cq.Separate(dst) && cq.NoneForeign(dst) && teChunked != 1
      ensures old(Solid(cq.chunks)) ==> Solid(cq.chunks)
      ensures old(Regular(cq.chunks)) ==> Regular(cq.chunks)
      ensures used <= |attempts| && (outcome == Some(StorageFailed) ==> Stops(attempts, used) && Extent(Run(cur, lim)) + 2 > 64 * 1024)
      ensures match outcome
        case Some(o) => Result(Run(cur, lim), o, cq.Bytes(), dst.Bytes(), was, body, dst.bytesIn, old(teChunked), old(contentLength), old(Solid(cq.chunks) || Regular(cq.chunks)), old(Solid(cq.chunks) || Regular(cq.chunks)))
        case None =>
          && Run(next, lim) == Run(cur, lim) && Holds(next, cq.Bytes(), dst.Bytes(), was, body) && dst.bytesIn == |next.body|
          && next.te == te != 1 && next.unread == cq.Bytes() && next.verdict.Going?
          && teChunked == old(teChunked) && contentLength == old(contentLength) && |cq.Bytes()| < |old(cq.Bytes())|
    {
      hide Stops, Extent, Run, Step, Deliver, BytesOf, PartsOf, Chunk.Rest, Chunk.Ok, AllMem, Solid, Regular, AllOk, Queue.Valid, Queue.Bytes, Queue.Linked, Fronted, Holds, KeptInPart, Result, Trailing;
      next, te, used := cur, te0, 0;
      ghost var solid, te1, length1 := Solid(cq.chunks) || Regular(cq.chunks), teChunked, contentLength;
      if te > 2 {
        var ok;
        ok, te, used := PassData(cq, dst, te, fileSize, attempts, cur, lim, was, body);
        if !ok {
          outcome := Some(StorageFailed);
          ResultFailed(Run(cur, lim), cq.Bytes(), dst.Bytes(), was, body, dst.bytesIn, te1, length1, solid);
          return;
        }
        next := Deliver(cur);
      }
      cq.AreOk();
      if cq.bytesIn - cq.bytesOut < te {
        OutOfBytes(next, lim);
        teChunked := te;
        outcome := Some(GoOn);
        ResultNow(next, lim, GoOn, cq.Bytes(), dst.Bytes(), was, body, dst.bytesIn, te1, length1, solid, solid);
        return;
      }
      TakeStep(next, lim);
      CrlfStep(next, lim);
      var ended := EndChunk(cq, next, lim);
      SameBody(next, Step(next, lim), next.unread, dst.Bytes(), was, body);
      if !ended {
        outcome := Some(BadRequest);
        ResultNow(next, lim, BadRequest, cq.Bytes(), dst.Bytes(), was, body, dst.bytesIn, te1, length1, solid, solid);
        return;
      }
      next := Step(next, lim);
      te := 0;
      if cq.first == null {
        cq.AreOk();
        OutOfBytes(next, lim);
        teChunked := te;
        outcome := Some(GoOn);
        ResultNow(next, lim, GoOn, cq.Bytes(), dst.Bytes(), was, body, dst.bytesIn, te1, length1, solid, solid);
        return;
      }
      return None, te, used, next;
    }

    /** connection_handle_read_post_chunked. In a queue without empty chunks and unless storage fails,
        the outcome, the bytes delivered and the bytes left over are those of the decoder on the bytes
        at hand; `body` stands for what was delivered before, of which only the length matters here. If
        only the last chunk is empty, a wait for trailers may end otherwise. In any queue, and when
        storage fails, dst has a beginning of what the decoder delivers. */
    method ReadPostChunked(cq: Queue, dst: Queue, lim: Limits, fileSize: nat, attempts: seq<Attempt>, ghost body: Str)
      returns (outcome: Outcome, used: nat)
      requires cq.Valid() && AllMem(cq.chunks) && dst.Valid() && cq.Separate(dst)
      requires dst.bytesIn == |body| && teChunked != 1
      modifies this, cq, cq.owned, dst, dst.owned
      ensures cq.Valid() && AllMem(cq.chunks) && dst.Valid() && cq.Separate(dst) && cq.NoneForeign(dst) && teChunked != 1
      ensures old(Solid(cq.chunks)) ==> Solid(cq.chunks)
      ensures old(Regular(cq.chunks)) ==> Regular(cq.chunks)
      ensures Result(Run(State(old(teChunked), body, old(cq.Bytes()), Going), lim), outcome, cq.Bytes(), dst.Bytes(), old(dst.Bytes()), body,
                     dst.bytesIn, old(teChunked), old(contentLength), old(Solid(cq.chunks)), old(Regular(cq.chunks)))
      ensures used <= |attempts|
      ensures outcome.StorageFailed? ==>
        Stops(attempts, used) && Extent(Run(State(old(teChunked), body, old(cq.Bytes()), Going), lim)) + 2 > 64 * 1024
    {
      hide Stops, Extent, Run, BytesOf, PartsOf, Chunk.Rest, Chunk.Ok, AllMem, Solid, Regular, AllOk, Queue.Valid, Queue.Bytes, Queue.Linked, Holds, Ended, Trailing, Result;
      ghost var was := dst.Bytes();
      ghost var start := State(teChunked, body, cq.Bytes(), Going);
      ghost var cur := start;
      var te := teChunked;
      used := 0;
      StartHolds(te, cq.Bytes(), was, body);
      while true
        invariant cq.Valid() && AllMem(cq.chunks) && dst.Valid() && 0 <= used <= |attempts|
        invariant old(Solid(cq.chunks)) ==> Solid(cq.chunks)
        invariant old(Regular(cq.chunks)) ==> Regular(cq.chunks)
        invariant cq.Separate(dst) && cq.NoneForeign(dst)
        invariant Run(cur, lim) == Run(start, lim) && Holds(cur, cq.Bytes(), dst.Bytes(), was, body)
        invariant cur.te == te != 1 && cur.unread == cq.Bytes() && cur.verdict.Going? && dst.bytesIn == |cur.body|
        invariant teChunked == old(teChunked) && contentLength == old(contentLength)
        decreases |cq.Bytes()|
      {
        ghost var solid, regular := Solid(cq.chunks), Regular(cq.chunks);
        var o, tries;
        o, te, tries, cur := Turn(cq, dst, te, lim, fileSize, attempts[used..], cur, was, body);
        StopsLater(attempts, used, tries);
        used := used + tries;
        if o.Some? {
          outcome := o.value;
          ResultFor(Run(start, lim), outcome, cq.Bytes(), dst.Bytes(), was, body, dst.bytesIn, old(teChunked), old(contentLength), solid, regular, old(Solid(cq.chunks)), old(Regular(cq.chunks)));
          return;
        }
      }
    }

    /** A whole request body: each read puts bytes into the room at the end of the queue and is then
        decoded as far as it goes, until the body is complete or an error ends it, after n reads.
        The result is that of the decoder on these reads, and, unless they have a long end, on all
        their bytes at once. Only a read of no bytes at all, while trailers are awaited, may end
        without defined behaviour where the decoder goes on. */
    method ReadAll(cq: Queue, dst: Queue, inputs: seq<Str>, rooms: seq<bool>, lim: Limits, fileSize: nat, attempts: seq<Attempt>)
      returns (outcome: Outcome, n: nat, used: nat)
      requires cq.Valid() && cq.chunks == [] && dst.Valid() && cq.Separate(dst) && dst.Bytes() == [] && dst.bytesIn == 0
      requires teChunked == 0 && contentLength == -1 && |rooms| == |inputs|
      modifies this, cq, cq.owned, dst, dst.owned
      ensures cq.Valid() && dst.Valid() && cq.Separate(dst) && n <= |inputs|
      ensures outcome.GoOn? && contentLength == -1 ==> n == |inputs|
      ensures used <= |attempts|
      ensures var end := RunAll(START, inputs[..n], lim);
        && (outcome.StorageFailed? ==> Stops(attempts, used) && Extent(end) + 2 > 64 * 1024 && dst.Bytes() <= end.body)
        && (!outcome.StorageFailed? ==>
              && dst.Bytes() == end.body && cq.Bytes() == end.unread
              && contentLength == (if end.verdict.Done? then |end.body| else -1)
              && (outcome == OutcomeOf(end.verdict) || (outcome.NoBehaviour? && n > 0 && inputs[n - 1] == [] && AwaitsTrailers(end))))
      ensures !LongEnd(Append(START, Flat(inputs[..n])), lim) ==> RunAll(START, inputs[..n], lim) == Run(Append(START, Flat(inputs[..n])), lim)
    {
      hide Stops, Extent, Run, RunAll, BytesOf, PartsOf, Chunk.Rest, Chunk.Ok, AllMem, Solid, Regular, AllOk, Queue.Valid, Queue.Bytes, Queue.Linked, Result, Holds, LongEnd, AwaitsTrailers;
      EmptySolid(cq.chunks);
      cq.AreOk();
      n, outcome, used := 0, GoOn, 0;
      NoReads(inputs, lim);
      ghost var empty := false;
      while n < |inputs| && outcome.GoOn? && contentLength == -1
        invariant cq.Valid() && dst.Valid() && cq.Separate(dst) && cq.NoneForeign(dst) && 0 <= n <= |inputs| && teChunked != 1
        invariant ReadSoFar(RunAll(START, inputs[..n], lim), outcome, cq.Bytes(), dst.Bytes(), dst.bytesIn, teChunked, contentLength, empty)
        invariant used <= |attempts| && (outcome.StorageFailed? ==> Stops(attempts, used) && Extent(RunAll(START, inputs[..n], lim)) + 2 > 64 * 1024)
        invariant empty == (n > 0 && inputs[n - 1] == [])
        invariant AllMem(cq.chunks) && Solid(cq.chunks)
        decreases |inputs| - n
      {
        ghost var st := RunAll(START, inputs[..n], lim);
        RunAllSnoc(START, inputs[..n], inputs[n], lim);
        RunAllSettles(inputs[..n], lim);
        assert inputs[..n + 1] == inputs[..n] + [inputs[n]];
        cq.GetMemory(rooms[n]);
        cq.UseMemory(inputs[n]);
        empty := inputs[n] == [];
        assert Append(st, inputs[n]) == State(teChunked, st.body, cq.Bytes(), Going);
        assert empty ==> Append(st, inputs[n]) == st;
        ghost var regular := Regular(cq.chunks);
        var tries;
        outcome, tries := ReadPostChunked(cq, dst, lim, fileSize, attempts[used..], st.body);
        StopsLater(attempts, used, tries);
        used := used + tries;
        ResultIs(Run(Append(st, inputs[n]), lim), outcome, cq.Bytes(), dst.Bytes(), st.body, dst.bytesIn, st.te, regular, empty);
        n := n + 1;
      }
      SplitOfStart(inputs[..n], lim);
    }

    /** Between reads the queues and fields hold the decoder's state. */
    ghost predicate ReadSoFar(st: State, outcome: Outcome, unread: Str, now: Str, received: int, te: nat, length: int, empty: bool) {
      if outcome.StorageFailed? then now <= st.body
      else
        && now == st.body && unread == st.unread && received == |st.body| && length == (if st.verdict.Done? then |st.body| else -1)
        && if outcome == OutcomeOf(st.verdict) then (st.verdict.Going? ==> te == st.te)
           else outcome.NoBehaviour? && empty && AwaitsTrailers(st)
    }

    lemma ResultIs(end: State, outcome: Outcome, unread: Str, now: Str, body: Str, received: int, te: nat, regular: bool, empty: bool)
      requires Result(end, outcome, unread, now, body, body, received, te, -1, true, regular)
      requires if empty then end.verdict.Going? else regular
      ensures ReadSoFar(end, outcome, unread, now, received, teChunked, if outcome.StorageFailed? then -1 else contentLength, empty)
    {
      assert body <= now ==> now == body + now[|body|..];
    }
  }

  /** After a failure dst has the first m bytes of what was to be moved, and at most those are gone
      from cq. */
  ghost predicate KeptInPart(all: Str, was: Str, rest: Str, now: Str, k: nat, m: nat) {
    k <= m <= |all| && rest == all[k..] && now == was + all[..m]
  }
}
