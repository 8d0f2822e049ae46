/** Queues of memory and file chunks (src/chunk.c) with running byte counters. A queue stands
    for one byte string. The chunk list is a sequence; a file is the byte string it holds. */
module ChunkQueue {
  import opened Bytes

  datatype Chunk =
    | MemChunk(mem: Str, offset: nat)
    | FileChunk(data: Str, start: nat, length: nat, isTemp: bool, isOpen: bool, offset: nat)
  {
    function Length(): nat {
      if MemChunk? then |mem| else length
    }

    /** Chunks stay inside their buffer or file; an open temporary file ends where its chunk
        ends, so that an append to the file extends the chunk. */
    ghost predicate Ok() {
      && offset <= Length()
      && (FileChunk? ==> start + length <= |data|)
      && (FileChunk? && isTemp && isOpen ==> start + length == |data|)
    }

    /** chunk_remaining_length. */
    function Remaining(): nat
      requires Ok()
    {
      Length() - offset
    }

    /** What is still to be read. */
    function Rest(): (r: Str)
      requires Ok()
      ensures |r| == Remaining()
    {
      if MemChunk? then mem[offset..] else data[start + offset..start + length]
    }

    /** The chunk with n more bytes consumed. */
    function Advance(n: nat): (c: Chunk)
      requires Ok() && n <= Remaining()
      ensures c.Ok() && c.Rest() == Rest()[n..]
    {
      this.(offset := offset + n)
    }
  }

  ghost predicate AllOk(cs: seq<Chunk>) {
    forall i :: 0 <= i < |cs| ==> cs[i].Ok()
  }

  function PartsOf(cs: seq<Chunk>): (parts: seq<Str>)
    requires AllOk(cs)
    ensures |parts| == |cs| && forall i :: 0 <= i < |cs| ==> parts[i] == cs[i].Rest()
  {
    seq(|cs|, i requires 0 <= i < |cs| => cs[i].Rest())
  }

  function BytesOf(cs: seq<Chunk>): Str
    requires AllOk(cs)
  {
    Flat(PartsOf(cs))
  }

  lemma BytesCons(c: Chunk, cs: seq<Chunk>)
    requires c.Ok() && AllOk(cs)
    ensures AllOk([c] + cs) && BytesOf([c] + cs) == c.Rest() + BytesOf(cs)
  {
    hide Chunk.Rest;
    assert PartsOf([c] + cs) == [c.Rest()] + PartsOf(cs);
    FlatCons(c.Rest(), PartsOf(cs));
  }

  lemma BytesConcat(a: seq<Chunk>, b: seq<Chunk>)
    requires AllOk(a) && AllOk(b)
    ensures AllOk(a + b) && BytesOf(a + b) == BytesOf(a) + BytesOf(b)
  {
    assert PartsOf(a + b) == PartsOf(a) + PartsOf(b);
    FlatConcat(PartsOf(a), PartsOf(b));
  }

  lemma BytesOne(c: Chunk)
    requires c.Ok()
    ensures AllOk([c]) && BytesOf([c]) == c.Rest()
  {
    assert PartsOf([c]) == [c.Rest()];
    FlatOne(c.Rest());
  }

  lemma BytesFirst(cs: seq<Chunk>)
    requires AllOk(cs) && cs != []
    ensures AllOk(cs[1..]) && BytesOf(cs) == cs[0].Rest() + BytesOf(cs[1..])
  {
    assert cs == [cs[0]] + cs[1..];
    BytesCons(cs[0], cs[1..]);
  }

  lemma BytesLast(cs: seq<Chunk>)
    requires AllOk(cs) && cs != []
    ensures AllOk(cs[..|cs| - 1]) && BytesOf(cs) == BytesOf(cs[..|cs| - 1]) + cs[|cs| - 1].Rest()
  {
    assert cs == cs[..|cs| - 1] + [cs[|cs| - 1]];
    BytesOne(cs[|cs| - 1]);
    BytesConcat(cs[..|cs| - 1], [cs[|cs| - 1]]);
  }

  /** Replacing the last chunk changes only what it contributes. */
  lemma BytesReplaceLast(cs: seq<Chunk>, c: Chunk)
    requires AllOk(cs) && cs != [] && c.Ok()
    ensures AllOk(cs[..|cs| - 1]) && AllOk(cs[|cs| - 1 := c])
    ensures BytesOf(cs) == BytesOf(cs[..|cs| - 1]) + cs[|cs| - 1].Rest()
    ensures BytesOf(cs[|cs| - 1 := c]) == BytesOf(cs[..|cs| - 1]) + c.Rest()
  {
    hide BytesOf;
    BytesLast(cs);
    BytesLast(cs[|cs| - 1 := c]);
    assert cs[|cs| - 1 := c][..|cs| - 1] == cs[..|cs| - 1];
  }

  /** Advancing into the first chunk drops that many bytes. */
  lemma BytesAdvance(cs: seq<Chunk>, n: nat)
    requires AllOk(cs) && cs != [] && n <= cs[0].Remaining()
    ensures AllOk(cs[0 := cs[0].Advance(n)]) && n <= |BytesOf(cs)|
    ensures BytesOf(cs[0 := cs[0].Advance(n)]) == BytesOf(cs)[n..]
  {
    hide BytesOf, Chunk.Advance;
    BytesFirst(cs);
    var after := cs[0 := cs[0].Advance(n)];
    BytesFirst(after);
    assert after[1..] == cs[1..];
  }

  /** A chunk with nothing left contributes nothing. */
  lemma BytesWithout(cs: seq<Chunk>, i: nat)
    requires AllOk(cs) && i < |cs| && cs[i].Rest() == []
    ensures AllOk(cs[..i] + cs[i + 1..]) && BytesOf(cs[..i] + cs[i + 1..]) == BytesOf(cs)
  {
    hide BytesOf;
    assert cs == cs[..i] + cs[i..] && cs[i..][1..] == cs[i + 1..];
    BytesConcat(cs[..i], cs[i..]);
    BytesFirst(cs[i..]);
    BytesConcat(cs[..i], cs[i + 1..]);
  }

  /** The chunks from the first one that is not used up. */
  function WithoutFinished(cs: seq<Chunk>): seq<Chunk>
    requires AllOk(cs)
  {
    if cs != [] && cs[0].Rest() == [] then WithoutFinished(cs[1..]) else cs
  }

  lemma NoBytes(cs: seq<Chunk>)
    requires AllOk(cs)
    ensures cs == [] ==> BytesOf(cs) == []
  {
  }

  /** The next n bytes of a chunk, as they lie in its buffer or file. */
  lemma RestPart(c: Chunk, n: nat)
    requires c.Ok() && n <= c.Remaining()
    ensures c.MemChunk? ==> c.mem[c.offset..c.offset + n] == c.Rest()[..n]
    ensures c.FileChunk? ==> c.data[c.start + c.offset..c.start + c.offset + n] == c.Rest()[..n]
  {
  }

  /** The first n bytes of all went from one string to the end of another. */
  ghost predicate Moved(all: Str, n: nat, rest: Str, was: Str, now: Str) {
    n <= |all| && rest == all[n..] && now == was + all[..n]
  }

  lemma MoveNone(all: Str, was: Str)
    ensures Moved(all, 0, all, was, was)
  {
  }

  /** k more bytes move from rest to now, leaving later. */
  lemma MoveMore(all: Str, n: nat, rest: Str, was: Str, now: Str, k: nat, later: Str, grown: Str)
    requires Moved(all, n, rest, was, now) && k <= |rest| && later == rest[k..] && grown == now + rest[..k]
    ensures Moved(all, n + k, later, was, grown)
  {
  }

  /** The first n + k bytes of all were copied, and n of them taken away. */
  ghost predicate Copied(all: Str, n: nat, k: nat, rest: Str, was: Str, now: Str) {
    n + k <= |all| && rest == all[n..] && now == was + all[..n + k]
  }

  lemma CopiedSome(all: Str, n: nat, rest: Str, was: Str, now: Str, k: nat, grown: Str)
    requires Moved(all, n, rest, was, now) && k <= |rest| && grown == now + rest[..k]
    ensures Copied(all, n, k, rest, was, grown)
  {
  }

  /** All that was to be moved, or all there is, has moved. */
  lemma MoveAll(all: Str, n: nat, rest: Str, was: Str, now: Str, len: nat)
    requires Moved(all, n, rest, was, now) && n <= len && (n < len ==> |rest| == 0)
    ensures n == Min(len, |all|) <= |all| && rest == all[n..] && now == was + all[..n]
  {
  }

  lemma CopiedAll(all: Str, n: nat, k: nat, rest: Str, was: Str, now: Str, len: nat)
    requires Copied(all, n, k, rest, was, now) && n + k < len && n + k < |all|
    ensures n + k < Min(len, |all|) && rest == all[n..] && now == was + all[..n + k]
  {
  }

  /** Moving n more bytes when k have moved. */
  lemma MovePart(all: Str, k: nat, n: nat)
    requires k + n <= |all|
    ensures all[k..][n..] == all[k + n..]
    ensures all[..k] + all[k..][..n] == all[..k + n]
  {
  }

  ghost predicate AllMem(cs: seq<Chunk>) {
    forall i :: 0 <= i < |cs| ==> cs[i].MemChunk?
  }

  /** Only the last chunk may be empty, and if a memory chunk is, its whole buffer is. */
  ghost predicate Solid(cs: seq<Chunk>) {
    && AllOk(cs) && (forall i :: 0 <= i < |cs| - 1 ==> cs[i].Rest() != [])
    && (cs != [] && cs[|cs| - 1].MemChunk? && cs[|cs| - 1].Rest() == [] ==> cs[|cs| - 1].mem == [])
  }

  /** No chunk is empty unless it is the only one. */
  ghost predicate Regular(cs: seq<Chunk>) {
    AllOk(cs) && (|cs| > 1 ==> forall i :: 0 <= i < |cs| ==> cs[i].Rest() != [])
  }

  /** What stays when the first chunk leaves. */
  lemma RestSolid(cs: seq<Chunk>)
    requires AllOk(cs) && cs != []
    ensures Solid(cs) ==> Solid(cs[1..])
    ensures Regular(cs) ==> Regular(cs[1..])
    ensures AllMem(cs) ==> AllMem(cs[1..])
  {
  }

  /** The last buffer after a read into it. */
  lemma GrownMemory(cs: seq<Chunk>, got: Str)
    requires AllOk(cs) && cs != [] && cs[|cs| - 1].MemChunk?
    ensures var c := cs[|cs| - 1];
      var grown := MemChunk(c.mem + got, c.offset);
      && grown.Ok() && grown.Rest() == c.Rest() + got
      && (AllMem(cs) && Solid(cs) ==> AllMem(cs[|cs| - 1 := grown]) && Solid(cs[|cs| - 1 := grown]))
      && (AllMem(cs) && Solid(cs) && got != [] ==> Regular(cs[|cs| - 1 := grown]))
  {
  }

  /** An open temporary file after a write. */
  lemma GrownTemp(c: Chunk, mem: Str)
    requires c.Ok() && c.FileChunk? && c.isTemp && c.isOpen
    ensures var grown := c.(data := c.data + mem, length := c.length + |mem|); grown.Ok() && grown.Rest() == c.Rest() + mem
  {
  }

  lemma ClosedTemp(c: Chunk)
    requires c.Ok() && c.FileChunk?
    ensures var closed := c.(isOpen := false); closed.Ok() && closed.Rest() == c.Rest()
  {
  }

  lemma WholePart(c: Chunk)
    requires c.Ok()
    ensures c.Rest()[..c.Remaining()] == c.Rest()
  {
  }

  /** Reading on in the first chunk, but not to its end. */
  lemma AdvancedSolid(cs: seq<Chunk>, n: nat)
    requires AllOk(cs) && cs != [] && n < cs[0].Remaining()
    ensures Solid(cs) ==> Solid(cs[0 := cs[0].Advance(n)])
    ensures Regular(cs) ==> Regular(cs[0 := cs[0].Advance(n)])
    ensures AllMem(cs) ==> AllMem(cs[0 := cs[0].Advance(n)])
    ensures cs[0].Advance(n).Rest() != []
  {
    hide Chunk.Rest;
  }

  /** One try at storing bytes in a temporary file: whether a file can be opened if one is
      needed, how much write() accepts if it does not fail, whether a failure was only EINTR,
      whether another directory is left to try, and whether close() succeeds. */
  datatype Attempt = Attempt(opens: bool, accepted: nat, fails: bool, interrupted: bool, retry: bool, closes: bool)

  datatype Tried = Stored | Again | GaveUp

  /** A temporary file and all it holds. */
  function WholeTemp(data: Str): (c: Chunk)
    ensures c.Ok() && c.Rest() == data && c.FileChunk? && c.isTemp && c.isOpen && c.offset == 0
  {
    FileChunk(data, 0, |data|, true, true, 0)
  }

  /** The last chunk is a temporary file still open for appending. */
  predicate OpenTemp(cs: seq<Chunk>) {
    && cs != []
    && var c := cs[|cs| - 1];
       c.FileChunk? && c.isTemp && c.isOpen && c.offset == 0
  }

  function Min(a: nat, b: nat): nat {
    if a < b then a else b
  }

  // What becomes of lists of chunks.

  /** The first n bytes of a chunk as a chunk of their own. */
  function Part(c: Chunk, n: nat): Chunk
    requires c.Ok() && n <= c.Remaining()
  {
    if c.MemChunk? then MemChunk(c.mem[c.offset..c.offset + n], 0)
    else FileChunk(c.data, c.start + c.offset, n, false, false, 0)
  }

  /** The chunks that len bytes at the front make up: whole chunks as they are, and part of one. */
  function Taken(cs: seq<Chunk>, len: nat): seq<Chunk>
    requires AllOk(cs)
    decreases |cs|
  {
    if cs == [] || len == 0 then []
    else if cs[0].Remaining() == 0 then Taken(cs[1..], len)
    else if cs[0].Remaining() <= len then [cs[0]] + Taken(cs[1..], len - cs[0].Remaining())
    else [Part(cs[0], len)]
  }

  /** What stays behind. */
  function Left(cs: seq<Chunk>, len: nat): seq<Chunk>
    requires AllOk(cs)
    decreases |cs|
  {
    if cs == [] || len == 0 then cs
    else if cs[0].Remaining() <= len then Left(cs[1..], len - cs[0].Remaining())
    else cs[0 := cs[0].Advance(len)]
  }

  /** Of two lists, chunks for some of len0 bytes went from one to the end of the other; those for len
      bytes are still to go. */
  ghost predicate Steals(cs0: seq<Chunk>, len0: nat, to0: seq<Chunk>, cs: seq<Chunk>, len: nat, to: seq<Chunk>) {
    && AllOk(cs0) && AllOk(cs) && Left(cs, len) == Left(cs0, len0) && to + Taken(cs, len) == to0 + Taken(cs0, len0)
  }

  lemma StealsNone(cs: seq<Chunk>, len: nat, to: seq<Chunk>)
    requires AllOk(cs)
    ensures Steals(cs, len, to, cs, len, to)
  {
  }

  lemma StealsOn(cs0: seq<Chunk>, len0: nat, to0: seq<Chunk>, cs1: seq<Chunk>, len1: nat, to1: seq<Chunk>, cs: seq<Chunk>, len: nat, to: seq<Chunk>)
    requires Steals(cs0, len0, to0, cs1, len1, to1) && Steals(cs1, len1, to1, cs, len, to)
    ensures Steals(cs0, len0, to0, cs, len, to)
  {
    hide Left, Taken;
  }

  lemma StealsAll(cs0: seq<Chunk>, len0: nat, to0: seq<Chunk>, cs: seq<Chunk>, len: nat, to: seq<Chunk>)
    requires Steals(cs0, len0, to0, cs, len, to) && (cs == [] || len == 0)
    ensures AllOk(cs0) && cs == Left(cs0, len0) && to == to0 + Taken(cs0, len0)
  {
    assert to + [] == to;
  }

  /** One turn takes the first chunk or part of it, and drops an empty one. */
  lemma StealsOne(cs: seq<Chunk>, len: nat, to: seq<Chunk>)
    requires AllOk(cs) && cs != [] && 0 < len
    ensures var n := Min(len, cs[0].Remaining());
      if n == 0 then Steals(cs, len, to, cs[1..], len, to)
      else if n == cs[0].Remaining() then Steals(cs, len, to, cs[1..], len - n, to + [cs[0]])
      else Steals(cs, len, to, cs[0 := cs[0].Advance(n)], len - n, to + [Part(cs[0], n)])
  {
    hide Part, Chunk.Advance, Chunk.Rest;
    var c := cs[0];
    if 0 < c.Remaining() <= len {
      assert to + [c] + Taken(cs[1..], len - c.Remaining()) == to + ([c] + Taken(cs[1..], len - c.Remaining()));
    } else if len < c.Remaining() {
      assert to + [Part(c, len)] + [] == to + [Part(c, len)];
    }
  }

  /** The chunks without empty ones, but the one after an empty chunk that goes is not looked at. */
  function Sieved(cs: seq<Chunk>): seq<Chunk>
    requires AllOk(cs)
    decreases |cs|
  {
    if |cs| <= 1 then cs
    else [cs[0]] + Sieved(cs[if cs[1].Remaining() == 0 then 2 else 1..])
  }

  lemma SievedStep(cs: seq<Chunk>, i: nat)
    requires AllOk(cs) && i + 1 < |cs|
    ensures AllOk(cs[..i + 1] + cs[i + 2..])
    ensures var later := if cs[i + 1].Remaining() == 0 then cs[..i + 1] + cs[i + 2..] else cs;
      AllOk(later) && cs[..i] + Sieved(cs[i..]) == later[..i + 1] + Sieved(later[i + 1..])
  {
    hide Chunk.Remaining, Sieved;
    SievedFirst(cs[i..]);
    if cs[i + 1].Remaining() == 0 {
      var later := cs[..i + 1] + cs[i + 2..];
      assert cs[i..][2..] == cs[i + 2..] == later[i + 1..] && later[..i + 1] == cs[..i] + [cs[i]];
    } else {
      assert cs[i..][1..] == cs[i + 1..] && cs[..i + 1] == cs[..i] + [cs[i]];
    }
  }

  lemma SievedFirst(cs: seq<Chunk>)
    requires AllOk(cs) && 1 < |cs|
    ensures Sieved(cs) == [cs[0]] + if cs[1].Remaining() == 0 then Sieved(cs[2..]) else Sieved(cs[1..])
  {
  }

  lemma SievedEnd(cs: seq<Chunk>, i: nat)
    requires AllOk(cs) && i <= |cs| <= i + 1
    ensures cs[..i] + Sieved(cs[i..]) == cs
  {
  }

  /** Of two empty chunks in a row inside a list, one stays. */
  lemma SecondEmptyStays(c: Chunk, d: Chunk, e: Chunk)
    requires c.Ok() && d.Ok() && e.Ok() && c.Remaining() > 0 && d.Remaining() == e.Remaining() == 0
    ensures AllOk([c, d, e]) && Sieved([c, d, e]) == [c, e]
  {
    assert [c, d, e][2..] == [e];
  }

  // Storing in temporary files.

  lemma {:induction false} SievedOk(cs: seq<Chunk>)
    requires AllOk(cs)
    ensures AllOk(Sieved(cs))
    decreases |cs|
  {
    if |cs| > 1 { SievedOk(cs[if cs[1].Remaining() == 0 then 2 else 1..]); }
  }

  lemma {:induction false} FinishedOk(cs: seq<Chunk>)
    requires AllOk(cs)
    ensures AllOk(WithoutFinished(cs))
  {
    if cs != [] && cs[0].Rest() == [] { FinishedOk(cs[1..]); }
  }

  /** The list without the used-up chunks and the empty ones. */
  function Cleaned(cs: seq<Chunk>): (r: seq<Chunk>)
    requires AllOk(cs)
    ensures AllOk(r)
  {
    FinishedOk(cs);
    SievedOk(WithoutFinished(cs));
    Sieved(WithoutFinished(cs))
  }

  /** The last temporary file with these bytes written to it. */
  function Grown(cs: seq<Chunk>, mem: Str): (r: seq<Chunk>)
    requires AllOk(cs) && OpenTemp(cs)
    ensures AllOk(r) && OpenTemp(r)
  {
    var c := cs[|cs| - 1];
    GrownTemp(c, mem);
    cs[|cs| - 1 := c.(data := c.data + mem, length := c.length + |mem|)]
  }

  /** The last temporary file closed. */
  function Shut(cs: seq<Chunk>): (r: seq<Chunk>)
    requires AllOk(cs) && OpenTemp(cs)
    ensures AllOk(r)
  {
    ClosedTemp(cs[|cs| - 1]);
    cs[|cs| - 1 := cs[|cs| - 1].(isOpen := false)]
  }

  /** With a new temporary file behind the others. */
  function WithTemp(cs: seq<Chunk>): (r: seq<Chunk>)
    requires AllOk(cs)
    ensures AllOk(r) && OpenTemp(r)
  {
    hide WholeTemp, Chunk.Ok, Chunk.Rest, Chunk.Remaining;
    cs + [WholeTemp([])]
  }

  /** How one attempt ended, how many bytes it stored, and what it made of the list. */
  datatype Try = Try(tried: Tried, n: nat, chunks: seq<Chunk>)

  /** The list a write finds: with the last file if there is room in it, or with a new one. */
  function Opened(cs: seq<Chunk>, fileSize: nat): (r: seq<Chunk>)
    requires AllOk(cs)
    ensures AllOk(r) && OpenTemp(r)
  {
    hide AllOk, Chunk.Ok, Chunk.Rest;
    if !OpenTemp(cs) then WithTemp(cs)
    else if cs[|cs| - 1].length < fileSize then cs
    else WithTemp(Shut(cs))
  }

  function Attempted(cs: seq<Chunk>, mem: Str, fileSize: nat, a: Attempt): (r: Try)
    requires AllOk(cs)
    ensures AllOk(r.chunks) && r.n <= |mem| && (r.tried.Stored? ==> r.n == |mem|) && (r.tried.GaveUp? ==> r.n == 0)
  {
    hide AllOk, Chunk.Ok, Chunk.Rest, Chunk.Remaining, Shut, Opened, Written;
    var full := OpenTemp(cs) && cs[|cs| - 1].length >= fileSize;
    if full && !a.closes then Try(GaveUp, 0, Shut(cs))
    else if (full || !OpenTemp(cs)) && !a.opens then Try(GaveUp, 0, if full then Shut(cs) else cs)
    else Written(Opened(cs, fileSize), mem, a)
  }

  function Written(cs: seq<Chunk>, mem: Str, a: Attempt): (r: Try)
    requires AllOk(cs) && OpenTemp(cs)
    ensures AllOk(r.chunks) && r.n <= |mem| && (r.tried.Stored? ==> r.n == |mem|) && (r.tried.GaveUp? ==> r.n == 0)
  {
    if !a.fails then
      var n := Min(a.accepted, |mem|);
      Try(if n == |mem| then Tried.Stored else Again, n, Grown(cs, mem[..n]))
    else if a.interrupted then Try(Again, 0, cs)
    else if cs[|cs| - 1].length == 0 then Try(if a.retry then Again else GaveUp, 0, Cleaned(cs))
    else Try(if a.retry && a.closes then Again else GaveUp, 0, Shut(cs))
  }

  /** How storing ended: whether all bytes were stored, how many, with how many attempts, and what it
      made of the list. */
  datatype Store = Store(ok: bool, stored: nat, used: nat, chunks: seq<Chunk>)

  function Storing(cs: seq<Chunk>, mem: Str, fileSize: nat, attempts: seq<Attempt>): (r: Store)
    requires AllOk(cs)
    ensures AllOk(r.chunks) && r.stored <= |mem| && r.used <= |attempts| && (r.ok ==> r.stored == |mem|)
    decreases |attempts|
  {
    if attempts == [] then Store(false, 0, 0, cs)
    else
      var t := Attempted(cs, mem, fileSize, attempts[0]);
      if !t.tried.Again? then Store(t.tried.Stored?, t.n, 1, t.chunks)
      else
        var s := Storing(t.chunks, mem[t.n..], fileSize, attempts[1..]);
        Store(s.ok, t.n + s.stored, 1 + s.used, s.chunks)
  }

  /** After some attempts: at bytes are stored, and the others come to what is still to come. */
  ghost predicate StoringFrom(cs0: seq<Chunk>, mem: Str, fileSize: nat, attempts: seq<Attempt>, at: nat, used: nat, cs: seq<Chunk>) {
    && AllOk(cs0) && AllOk(cs) && at <= |mem| && used <= |attempts|
    && var s := Storing(cs, mem[at..], fileSize, attempts[used..]);
       Storing(cs0, mem, fileSize, attempts) == Store(s.ok, at + s.stored, used + s.used, s.chunks)
  }

  lemma StoringNone(cs: seq<Chunk>, mem: Str, fileSize: nat, attempts: seq<Attempt>)
    requires AllOk(cs)
    ensures StoringFrom(cs, mem, fileSize, attempts, 0, 0, cs)
  {
    hide Storing;
    assert mem[0..] == mem && attempts[0..] == attempts;
  }

  lemma StoringStep(cs0: seq<Chunk>, mem: Str, fileSize: nat, attempts: seq<Attempt>, at: nat, used: nat, cs: seq<Chunk>)
    requires StoringFrom(cs0, mem, fileSize, attempts, at, used, cs)
    ensures used == |attempts| ==> Storing(cs0, mem, fileSize, attempts) == Store(false, at, used, cs)
    ensures used < |attempts| ==>
      var t := Attempted(cs, mem[at..], fileSize, attempts[used]);
      if t.tried.Again? then StoringFrom(cs0, mem, fileSize, attempts, at + t.n, used + 1, t.chunks)
      else Storing(cs0, mem, fileSize, attempts) == Store(t.tried.Stored?, at + t.n, used + 1, t.chunks)
  {
    hide Attempted, AllOk, Storing;
    StoringUnfolds(cs, mem[at..], fileSize, attempts[used..]);
    if used < |attempts| {
      var t := Attempted(cs, mem[at..], fileSize, attempts[used]);
      assert mem[at..][t.n..] == mem[at + t.n..] && attempts[used..][1..] == attempts[used + 1..];
    }
  }

  lemma StoringUnfolds(cs: seq<Chunk>, mem: Str, fileSize: nat, attempts: seq<Attempt>)
    requires AllOk(cs)
    ensures attempts == [] ==> Storing(cs, mem, fileSize, attempts) == Store(false, 0, 0, cs)
    ensures attempts != [] ==>
      var t := Attempted(cs, mem, fileSize, attempts[0]);
      var s := Storing(t.chunks, mem[t.n..], fileSize, attempts[1..]);
      Storing(cs, mem, fileSize, attempts) ==
        if t.tried.Again? then Store(s.ok, t.n + s.stored, 1 + s.used, s.chunks) else Store(t.tried.Stored?, t.n, 1, t.chunks)
  {
    hide Attempted, AllOk;
  }

  /** The attempts came to an end: there are no more, or a call in the last one failed for good. */
  ghost predicate Stops(attempts: seq<Attempt>, used: nat) {
    used == |attempts| ||
    (0 < used < |attempts| &&
     var a := attempts[used - 1];
     !a.opens || !a.closes || (a.fails && !a.interrupted && !a.retry))
  }

  /** Storing fails exactly if not all is stored, and only because the attempts came to an end. */
  lemma {:induction false} StoringEnds(cs: seq<Chunk>, mem: Str, fileSize: nat, attempts: seq<Attempt>)
    requires AllOk(cs)
    ensures var s := Storing(cs, mem, fileSize, attempts);
      && (mem != [] ==> (s.ok <==> s.stored == |mem|))
      && (!s.ok ==> Stops(attempts, s.used))
    decreases |attempts|
  {
    hide AllOk, Attempted, Storing;
    StoringUnfolds(cs, mem, fileSize, attempts);
    if attempts != [] {
      var t := Attempted(cs, mem, fileSize, attempts[0]);
      AttemptEnds(cs, mem, fileSize, attempts[0]);
      if t.tried.Again? {
        StoringEnds(t.chunks, mem[t.n..], fileSize, attempts[1..]);
        StopsLater(attempts, 1, Storing(t.chunks, mem[t.n..], fileSize, attempts[1..]).used);
      }
    }
  }

  lemma AttemptEnds(cs: seq<Chunk>, mem: Str, fileSize: nat, a: Attempt)
    requires AllOk(cs)
    ensures var t := Attempted(cs, mem, fileSize, a);
      && (t.tried.GaveUp? ==> !a.opens || !a.closes || (a.fails && !a.interrupted && !a.retry))
      && (mem != [] && !t.tried.Stored? ==> t.n < |mem|)
  {
    hide AllOk, Chunk.Ok, Chunk.Rest, Grown, Shut, Cleaned, Opened;
  }

  lemma StopsLater(attempts: seq<Attempt>, n: nat, used: nat)
    requires n <= |attempts|
    ensures Stops(attempts[n..], used) ==> Stops(attempts, n + used)
  {
    if 0 < used < |attempts| - n { assert attempts[n..][used - 1] == attempts[n + used - 1]; }
  }

  /** How moving with temporary files ended, with how many attempts, and what it made of both lists. */
  datatype Move = Move(ok: bool, used: nat, chunks: seq<Chunk>, to: seq<Chunk>)

  /** Without the first len bytes, all of the first chunk or a part of it. */
  function Fewer(cs: seq<Chunk>, len: nat): (r: seq<Chunk>)
    requires AllOk(cs) && cs != []
    ensures AllOk(r)
  {
    if cs[0].Remaining() <= len then cs[1..] else cs[0 := cs[0].Advance(len)]
  }

  /** With the first n bytes of a chunk behind the others. */
  function FirstMoved(to: seq<Chunk>, c: Chunk, n: nat): (r: seq<Chunk>)
    requires AllOk(to) && c.Ok() && n <= c.Remaining()
    ensures AllOk(r)
  {
    if n == 0 then to else to + [if n == c.Remaining() then c else Part(c, n)]
  }

  function Moving(cs: seq<Chunk>, to: seq<Chunk>, len: nat, fileSize: nat, attempts: seq<Attempt>): (r: Move)
    requires AllOk(cs) && AllOk(to)
    ensures r.used <= |attempts|
    decreases |cs|, len
  {
    if cs == [] || len == 0 then Move(true, 0, cs, to)
    else
      var n := Min(len, cs[0].Remaining());
      if cs[0].FileChunk? || n == 0 then
        Moving(Fewer(cs, len), FirstMoved(to, cs[0], n), len - n, fileSize, attempts)
      else
        var s := Storing(to, cs[0].Rest()[..n], fileSize, attempts);
        if !s.ok then Move(false, s.used, cs, s.chunks)
        else
          var m := Moving(Fewer(cs, len), s.chunks, len - n, fileSize, attempts[s.used..]);
          Move(m.ok, s.used + m.used, m.chunks, m.to)
  }

  lemma {:induction false} MovingEnds(cs: seq<Chunk>, to: seq<Chunk>, len: nat, fileSize: nat, attempts: seq<Attempt>)
    requires AllOk(cs) && AllOk(to)
    ensures var m := Moving(cs, to, len, fileSize, attempts); !m.ok ==> Stops(attempts, m.used)
    decreases |cs|, len
  {
    hide AllOk, Chunk.Ok, Chunk.Rest, Storing, Fewer, FirstMoved, Stops;
    if cs != [] && len > 0 {
      ChunksOk(cs);
      var n := Min(len, cs[0].Remaining());
      FewerOrDone(cs, len);
      if cs[0].FileChunk? || n == 0 {
        MovingEnds(Fewer(cs, len), FirstMoved(to, cs[0], n), len - n, fileSize, attempts);
      } else {
        var s := Storing(to, cs[0].Rest()[..n], fileSize, attempts);
        StoringEnds(to, cs[0].Rest()[..n], fileSize, attempts);
        if s.ok {
          var m := Moving(Fewer(cs, len), s.chunks, len - n, fileSize, attempts[s.used..]);
          MovingEnds(Fewer(cs, len), s.chunks, len - n, fileSize, attempts[s.used..]);
          StopsLater(attempts, s.used, m.used);
        }
      }
    }
  }

  lemma ChunksOk(cs: seq<Chunk>)
    requires AllOk(cs) && cs != []
    ensures cs[0].Ok()
  {
  }

  lemma FewerOrDone(cs: seq<Chunk>, len: nat)
    requires AllOk(cs) && cs != []
    ensures |Fewer(cs, len)| <= |cs| && (cs[0].Remaining() <= len ==> |Fewer(cs, len)| < |cs|)
  {
  }

  /** One turn of moving: it failed, or what is still to come goes on from the new lists. */
  ghost predicate MovesOn(cs: seq<Chunk>, to: seq<Chunk>, len: nat, fileSize: nat, attempts: seq<Attempt>,
                          ok: bool, n: nat, used: nat, cs1: seq<Chunk>, to1: seq<Chunk>) {
    && AllOk(cs) && AllOk(to) && AllOk(cs1) && AllOk(to1) && n <= len && used <= |attempts|
    && var m := Moving(cs1, to1, len - n, fileSize, attempts[used..]);
       Moving(cs, to, len, fileSize, attempts) == if ok then Move(m.ok, used + m.used, m.chunks, m.to) else Move(false, used, cs1, to1)
  }

  /** A chunk that is not in memory, or is empty, takes no attempt. */
  lemma MovesFirst(cs: seq<Chunk>, to: seq<Chunk>, len: nat, fileSize: nat, attempts: seq<Attempt>)
    requires AllOk(cs) && AllOk(to) && cs != [] && len > 0 && (cs[0].FileChunk? || cs[0].Remaining() == 0)
    ensures var n := Min(len, cs[0].Remaining()); MovesOn(cs, to, len, fileSize, attempts, true, n, 0, Fewer(cs, len), FirstMoved(to, cs[0], n))
  {
    hide Fewer, FirstMoved, Storing;
    assert attempts[0..] == attempts;
  }

  lemma MovesStored(cs: seq<Chunk>, to: seq<Chunk>, len: nat, fileSize: nat, attempts: seq<Attempt>)
    requires AllOk(cs) && AllOk(to) && cs != [] && len > 0 && cs[0].MemChunk? && cs[0].Remaining() > 0
    ensures var n := Min(len, cs[0].Remaining());
      var s := Storing(to, cs[0].Rest()[..n], fileSize, attempts);
      MovesOn(cs, to, len, fileSize, attempts, s.ok, n, s.used, if s.ok then Fewer(cs, len) else cs, s.chunks)
  {
    hide Fewer, FirstMoved, Storing;
  }

  /** Many turns. */
  lemma MovesOnward(cs0: seq<Chunk>, to0: seq<Chunk>, len0: nat, fileSize: nat, attempts: seq<Attempt>, n0: nat, used0: nat, cs: seq<Chunk>, to: seq<Chunk>,
                    ok: bool, n: nat, used: nat, cs1: seq<Chunk>, to1: seq<Chunk>)
    requires MovesOn(cs0, to0, len0, fileSize, attempts, true, n0, used0, cs, to)
    requires used0 <= |attempts| && n0 <= len0 && MovesOn(cs, to, len0 - n0, fileSize, attempts[used0..], ok, n, used, cs1, to1)
    ensures MovesOn(cs0, to0, len0, fileSize, attempts, ok, n0 + n, used0 + used, cs1, to1)
  {
    hide Moving, AllOk;
    assert attempts[used0..][used..] == attempts[used0 + used..];
  }

  lemma MovesNone(cs: seq<Chunk>, to: seq<Chunk>, len: nat, fileSize: nat, attempts: seq<Attempt>)
    requires AllOk(cs) && AllOk(to)
    ensures MovesOn(cs, to, len, fileSize, attempts, true, 0, 0, cs, to)
  {
    hide Moving;
    assert attempts[0..] == attempts;
  }

  lemma MovesAll(cs0: seq<Chunk>, to0: seq<Chunk>, len0: nat, fileSize: nat, attempts: seq<Attempt>, ok: bool, n: nat, used: nat, cs: seq<Chunk>, to: seq<Chunk>)
    requires MovesOn(cs0, to0, len0, fileSize, attempts, ok, n, used, cs, to) && (ok ==> cs == [] || n == len0)
    ensures AllOk(cs0) && AllOk(to0) && Moving(cs0, to0, len0, fileSize, attempts) == Move(ok, used, cs, to)
  {
    hide AllOk;
  }

  // Chunk lists.

  /** A chunk in a list. */
  class Node {
    var it: Chunk
    var next: Node?

    /** chunk_init. */
    constructor ()
      ensures it == BLANK && next == null
    {
      it, next := BLANK, null;
    }
  }

  const BLANK: Chunk := MemChunk([], 0)

  /** The i-th node of a list, null beside it. */
  function NodeAt(l: seq<Node>, i: int): Node? {
    if 0 <= i < |l| then l[i] else null
  }

  ghost predicate LinkAt(l: seq<Node>, i: nat)
    requires i < |l|
    reads l`next
  {
    l[i].next == NodeAt(l, i + 1)
  }

  ghost predicate Different(l: seq<Node>) {
    forall i, j :: 0 <= i < j < |l| ==> l[i] != l[j]
  }

  /** The links from head on run through l. */
  ghost predicate Chain(head: Node?, l: seq<Node>)
    reads l`next
  {
    head == NodeAt(l, 0) && Different(l) && forall i: nat :: i < |l| ==> LinkAt(l, i)
  }

  lemma DifferentChain(head: Node?, l: seq<Node>)
    requires Chain(head, l)
    ensures Different(l)
  {
  }

  /** Two lists one after the other. */
  lemma JoinedChain(head: Node?, l: seq<Node>, r: seq<Node>)
    requires Different(l) && Different(r) && Apart(l, r) && head == NodeAt(l + r, 0)
    requires forall k: nat :: k + 1 < |l| ==> LinkAt(l, k)
    requires l != [] ==> l[|l| - 1].next == NodeAt(r, 0)
    requires forall k: nat :: k < |r| ==> LinkAt(r, k)
    ensures Chain(head, l + r)
  {
    assert forall i :: 0 <= i < |l| ==> l[i] in l;
    assert forall i :: 0 <= i < |r| ==> r[i] in r;
    forall k: nat | k < |l + r|
      ensures LinkAt(l + r, k)
    {
      if k + 1 < |l| { assert LinkAt(l, k); } else if k >= |l| { assert LinkAt(r, k - |l|); }
    }
  }

  /** The nodes of a list hold these chunks. */
  ghost predicate Hold(l: seq<Node>, cs: seq<Chunk>)
    reads l`it
  {
    |cs| == |l| && forall i :: 0 <= i < |l| ==> l[i].it == cs[i]
  }

  lemma HoldBoth(l: seq<Node>, cs: seq<Chunk>, r: seq<Node>, ds: seq<Chunk>)
    requires Hold(l, cs) && Hold(r, ds)
    ensures Hold(l + r, cs + ds)
  {
  }

  ghost function SetOf(l: seq<Node>): set<Node> {
    set n | n in l
  }

  ghost predicate Apart(a: seq<Node>, b: seq<Node>) {
    forall n :: n in a ==> n !in b
  }

  /** A list of chunks pushed one by one to the unused ones, of which five are kept. */
  function Pushed(l: seq<Node>, spare: seq<Node>): seq<Node>
    decreases |l|
  {
    if l == [] || |spare| > 4 then spare else Pushed(l[1..], [l[0]] + spare)
  }

  /** The list of a queue. */
  ghost predicate Listed(first: Node?, last: Node?, l: seq<Node>, cs: seq<Chunk>)
    reads l
  {
    Chain(first, l) && last == NodeAt(l, |l| - 1) && Hold(l, cs)
  }

  /** The unused chunks of a queue. */
  ghost predicate Pooled(unused: Node?, n: nat, l: seq<Node>)
    reads l
  {
    Chain(unused, l) && n == |l| <= 5 && forall m :: m in l ==> m.it == BLANK
  }

  class Queue {
    var first: Node?
    var last: Node?
    var unused: Node?
    var unusedChunks: nat
    var bytesIn: int
    var bytesOut: int
    ghost var nodes: seq<Node>      // the list from `first`
    ghost var spare: seq<Node>      // the list from `unused`
    ghost var chunks: seq<Chunk>    // what the nodes hold
    ghost var owned: set<Node>      // all nodes of this queue

    /** The links spell the two lists, which share nothing; `last` is the end of the first;
        `unusedChunks` is the length of the other, and at most five; its chunks are reset. */
    ghost predicate Linked()
      reads `first, `last, `unused, `unusedChunks, `nodes, `spare, `chunks, `owned, owned
    {
      && (forall n :: n in nodes ==> n in owned) && (forall n :: n in spare ==> n in owned)
      && Listed(first, last, nodes, chunks) && Pooled(unused, unusedChunks, spare) && Apart(nodes, spare)
    }

    /** The lists are right, and the counters say how much is queued. */
    ghost predicate Valid()
      reads this, owned
    {
      Linked() && AllOk(chunks) && bytesIn - bytesOut == |BytesOf(chunks)|
    }

    ghost function Bytes(): Str
      reads this, owned
      requires Valid()
    {
      BytesOf(chunks)
    }

    lemma BytesAre()
      requires Valid()
      ensures AllOk(chunks) && Bytes() == BytesOf(chunks)
    {
    }

    /** What Valid says of the chunks. */
    lemma AreOk()
      requires Valid()
      ensures AllOk(chunks) && bytesIn - bytesOut == |Bytes()| && (chunks == [] ==> Bytes() == [])
      ensures first == null <==> chunks == []
      ensures chunks != [] ==> first != null && first.it == chunks[0] && last != null && last.it == chunks[|chunks| - 1]
    {
      Ends();
    }

    lemma FirstOrNone()
      requires Valid()
      ensures first == null <==> chunks == []
      ensures chunks == [] ==> |Bytes()| == 0
    {
      AreOk();
    }

    /** The first two chunks. */
    lemma FirstTwo()
      requires Valid()
      ensures AllOk(chunks) && |nodes| == |chunks|
      ensures (first != null && first.next != null) <==> |chunks| >= 2
      ensures |chunks| >= 2 ==> first == nodes[0] && first.it == chunks[0] && first.next == nodes[1] && first.next.it == chunks[1]
      ensures |chunks| >= 2 ==> first in owned && first.next in owned
    {
      Ends();
      if chunks != [] { NextIs(0); }
      if |chunks| >= 2 { NextIs(1); }
    }

    /** The ends of the list. */
    lemma Ends()
      requires Linked()
      ensures |nodes| == |chunks| && (first == null <==> nodes == []) && (last == null <==> nodes == [])
      ensures nodes != [] ==> first == nodes[0] && last == nodes[|nodes| - 1] && first.it == chunks[0] && last.it == chunks[|chunks| - 1]
      ensures unused == null <==> spare == []
      ensures forall n :: n in nodes || n in spare ==> n in owned
      ensures |spare| == unusedChunks <= 5 && (spare != [] ==> unused == spare[0])
      ensures last != null ==> last.next == null
    {
      if nodes != [] { assert LinkAt(nodes, |nodes| - 1); }
    }

    lemma StartsWithFirst()
      requires Valid() && chunks != []
      ensures chunks[0].Ok() && chunks[0].Remaining() <= |Bytes()|
      ensures forall k :: 0 <= k <= chunks[0].Remaining() ==> chunks[0].Rest()[..k] == Bytes()[..k]
    {
      BytesFirst(chunks);
    }

    constructor ()
      ensures Valid() && chunks == [] && Bytes() == [] && bytesIn == 0 && bytesOut == 0
      ensures owned == {}
    {
      first, last, unused, unusedChunks, bytesIn, bytesOut := null, null, null, 0, 0, 0;
      nodes, spare, chunks, owned := [], [], [], {};
    }

    // The links.

    /** chunkqueue_push_unused_chunk: kept for re-use unless five are kept already. */
    method PushUnused(c: Node)
      requires Linked() && c !in nodes && c !in spare
      modifies `unused, `unusedChunks, `spare, `owned, c
      ensures Linked() && owned == old(owned) + {c} && spare == if |old(spare)| <= 4 then [c] + old(spare) else old(spare)
    {
      hide Listed;
      owned := owned + {c};
      if unusedChunks > 4 { return; }
      PushBlank(c);
    }

    method PushBlank(c: Node)
      requires Pooled(unused, unusedChunks, spare) && unusedChunks <= 4 && c !in spare
      modifies `unused, `unusedChunks, `spare, c
      ensures Pooled(unused, unusedChunks, spare) && spare == [c] + old(spare)
    {
      c.it := BLANK;
      c.next := unused;
      unused := c;
      unusedChunks := unusedChunks + 1;
      spare := [c] + spare;
      forall i: nat | i < |spare|
        ensures LinkAt(spare, i)
      {
        if i > 0 { assert old(LinkAt(spare, i - 1)); }
      }
    }

    /** chunkqueue_get_unused_chunk. */
    method GetUnused() returns (c: Node)
      requires Linked()
      modifies `unused, `unusedChunks, `spare, `owned, owned
      ensures Linked() && c !in owned && c.next == null && c.it == BLANK && (fresh(c) || c in old(owned)) && owned == old(owned) - {c}
    {
      hide Listed, Pooled;
      PoolEnd();
      if unused == null {
        c := new Node();
      } else {
        assert spare[0] in spare && spare[0] !in nodes;
        c := PopBlank();
        assert Listed(first, last, nodes, chunks) && forall n :: n in spare ==> n in old(spare);
        owned := owned - {c};
      }
    }

    lemma PoolEnd()
      requires Pooled(unused, unusedChunks, spare)
      ensures unused == null <==> spare == []
      ensures spare != [] ==> unused == spare[0]
    {
    }

    method PopBlank() returns (c: Node)
      requires Pooled(unused, unusedChunks, spare) && spare != []
      modifies `unused, `unusedChunks, `spare, spare[0]
      ensures Pooled(unused, unusedChunks, spare) && c == old(spare)[0] && c !in spare && c.next == null && c.it == BLANK
      ensures spare == old(spare)[1..]
    {
      assert LinkAt(spare, 0);
      c := unused;
      unused := c.next;
      c.next := null;
      unusedChunks := unusedChunks - 1;
      spare := spare[1..];
      forall i: nat | i < |spare|
        ensures LinkAt(spare, i)
      {
        assert old(LinkAt(spare, i + 1));
      }
    }

    /** chunkqueue_append_chunk, but for the counter. */
    method LinkLast(c: Node)
      requires Linked() && c !in owned
      modifies `first, `last, `nodes, `chunks, `owned, c, owned
      ensures Linked() && owned == old(owned) + {c} && nodes == old(nodes) + [c] && chunks == old(chunks) + [old(c.it)] && c.it == old(c.it)
    {
      hide Listed, Pooled;
      LastIn();
      ListLast(c);
      owned := owned + {c};
    }

    lemma LastIn()
      requires Listed(first, last, nodes, chunks)
      ensures last != null ==> last in nodes
    {
    }

    method ListLast(c: Node)
      requires Listed(first, last, nodes, chunks) && c !in nodes
      modifies `first, `last, `nodes, `chunks, c`next, (if last == null then {} else {last})`next
      ensures Listed(first, last, nodes, chunks) && nodes == old(nodes) + [c] && chunks == old(chunks) + [c.it]
    {
      c.next := null;
      if last != null { last.next := c; }
      last := c;
      if first == null { first := c; }
      nodes := nodes + [c];
      chunks := chunks + [c.it];
      forall i: nat | i < |nodes|
        ensures LinkAt(nodes, i)
      {
        if i + 2 < |nodes| { assert old(LinkAt(nodes, i)); }
      }
    }

    /** chunkqueue_prepend_chunk, but for the counter. */
    method LinkFirst(c: Node)
      requires Linked() && c !in owned
      modifies `first, `last, `nodes, `chunks, `owned, c
      ensures Linked() && owned == old(owned) + {c} && nodes == [c] + old(nodes) && chunks == [old(c.it)] + old(chunks) && c.it == old(c.it)
    {
      hide Listed, Pooled;
      ListFirst(c);
      owned := owned + {c};
    }

    method ListFirst(c: Node)
      requires Listed(first, last, nodes, chunks) && c !in nodes
      modifies `first, `last, `nodes, `chunks, c`next
      ensures Listed(first, last, nodes, chunks) && nodes == [c] + old(nodes) && chunks == [c.it] + old(chunks)
    {
      c.next := first;
      first := c;
      if last == null { last := c; }
      nodes := [c] + nodes;
      chunks := [c.it] + chunks;
      forall i: nat | i < |nodes|
        ensures LinkAt(nodes, i)
      {
        if i > 0 { assert old(LinkAt(nodes, i - 1)); }
      }
    }

    /** The first chunk leaves the list. */
    method UnlinkFirst() returns (c: Node)
      requires Linked() && nodes != []
      modifies `first, `last, `nodes, `chunks, `owned
      ensures Linked() && c == old(nodes)[0] && c in old(owned) && owned == old(owned) - {c} && c !in nodes && c !in spare
      ensures old(chunks) != [] && nodes == old(nodes)[1..] && chunks == old(chunks)[1..]
    {
      hide Listed, Pooled;
      c := ListTail();
      owned := owned - {c};
    }

    method ListTail() returns (c: Node)
      requires Listed(first, last, nodes, chunks) && nodes != []
      modifies `first, `last, `nodes, `chunks
      ensures Listed(first, last, nodes, chunks) && c == old(nodes)[0] && c !in nodes
      ensures old(chunks) != [] && nodes == old(nodes)[1..] && chunks == old(chunks)[1..]
    {
      assert LinkAt(nodes, 0);
      c := first;
      first := c.next;
      if c == last { last := null; }
      nodes := nodes[1..];
      chunks := chunks[1..];
      forall i: nat | i < |nodes|
        ensures LinkAt(nodes, i)
      {
        assert old(LinkAt(nodes, i + 1));
      }
    }

    /** The chunk after c, at position i, leaves the list. */
    method UnlinkNext(c: Node, ghost i: nat) returns (empty: Node)
      requires Linked() && i + 1 < |nodes| && c == nodes[i]
      modifies `last, `nodes, `chunks, `owned, c
      ensures Linked() && empty == old(nodes)[i + 1] && empty in old(owned) && owned == old(owned) - {empty} && empty !in nodes && empty !in spare
      ensures |old(chunks)| == |old(nodes)|
      ensures nodes == old(nodes)[..i + 1] + old(nodes)[i + 2..] && chunks == old(chunks)[..i + 1] + old(chunks)[i + 2..]
    {
      hide Listed, Pooled;
      assert c in nodes;
      empty := ListWithout(c, i);
      owned := owned - {empty};
    }

    method ListWithout(c: Node, ghost i: nat) returns (empty: Node)
      requires Listed(first, last, nodes, chunks) && i + 1 < |nodes| && c == nodes[i]
      modifies `last, `nodes, `chunks, c`next
      ensures Listed(first, last, nodes, chunks) && empty == old(nodes)[i + 1] && empty !in nodes
      ensures |old(chunks)| == |old(nodes)|
      ensures nodes == old(nodes)[..i + 1] + old(nodes)[i + 2..] && chunks == old(chunks)[..i + 1] + old(chunks)[i + 2..]
    {
      assert LinkAt(nodes, i) && LinkAt(nodes, i + 1);
      empty := c.next;
      c.next := empty.next;
      if empty == last { last := c; }
      nodes := nodes[..i + 1] + nodes[i + 2..];
      chunks := chunks[..i + 1] + chunks[i + 2..];
      forall k: nat | k < |nodes|
        ensures LinkAt(nodes, k)
      {
        if k != i { assert old(LinkAt(nodes, if k < i then k else k + 1)); }
      }
    }

    /** The node at position i holds another chunk. */
    method Put(c: Node, it: Chunk, ghost i: nat)
      requires Linked() && i < |nodes| && c == nodes[i]
      modifies `chunks, c`it
      ensures Linked() && i < |old(chunks)| && chunks == old(chunks)[i := it]
    {
      hide Listed, Pooled;
      assert c in nodes;
      ListPut(c, it, i);
    }

    method ListPut(c: Node, it: Chunk, ghost i: nat)
      requires Listed(first, last, nodes, chunks) && i < |nodes| && c == nodes[i]
      modifies `chunks, c`it
      ensures Listed(first, last, nodes, chunks) && i < |old(chunks)| && chunks == old(chunks)[i := it]
    {
      hide Chain;
      c.it := it;
      chunks := chunks[i := it];
      DifferentChain(first, nodes);
    }

    /** The successor of the node at position i. */
    lemma NextIs(i: nat)
      requires Linked() && i < |nodes|
      ensures nodes[i].next == NodeAt(nodes, i + 1) && i < |chunks| && nodes[i].it == chunks[i]
    {
      assert LinkAt(nodes, i);
    }

    // What is queued.

    /** chunkqueue_append_chunk. */
    method AppendNode(c: Node)
      requires Valid() && c !in owned && c.it.Ok()
      modifies this, owned, c
      ensures Valid() && chunks == old(chunks) + [old(c.it)] && Bytes() == old(Bytes()) + old(c.it).Rest()
      ensures owned == old(owned) + {c}
      ensures bytesIn == old(bytesIn) + |old(c.it).Rest()| && bytesOut == old(bytesOut)
    {
      hide BytesOf, Queue.Linked;
      BytesOne(c.it);
      BytesConcat(chunks, [c.it]);
      LinkLast(c);
      bytesIn := bytesIn + c.it.Remaining();
    }

    /** A chunk from the unused ones, or a new one, is filled and appended. */
    method AppendChunk(it: Chunk)
      requires Valid() && it.Ok()
      modifies this, owned
      ensures Valid() && chunks == old(chunks) + [it] && Bytes() == old(Bytes()) + it.Rest()
      ensures bytesIn == old(bytesIn) + |it.Rest()| && bytesOut == old(bytesOut) && fresh(owned - old(owned))
    {
      hide BytesOf, Queue.Linked;
      var c := GetUnused();
      c.it := it;
      AppendNode(c);
    }

    /** chunkqueue_append_mem; chunkqueue_append_buffer does the same to the queue. */
    method AppendMem(mem: Str)
      requires Valid()
      modifies this, owned
      ensures Valid() && Bytes() == old(Bytes()) + mem
      ensures bytesIn == old(bytesIn) + |mem| && bytesOut == old(bytesOut) && fresh(owned - old(owned))
      ensures chunks == if mem == [] then old(chunks) else old(chunks) + [MemChunk(mem, 0)]
    {
      hide BytesOf, Queue.Linked;
      if mem != [] {
        AppendChunk(MemChunk(mem, 0));
      }
    }

    /** chunkqueue_prepend_buffer. */
    method PrependBuffer(mem: Str)
      requires Valid()
      modifies this, owned
      ensures Valid() && Bytes() == mem + old(Bytes())
      ensures chunks == if mem == [] then old(chunks) else [MemChunk(mem, 0)] + old(chunks)
      ensures bytesIn == old(bytesIn) + |mem| && bytesOut == old(bytesOut) && fresh(owned - old(owned))
    {
      hide BytesOf, Queue.Linked;
      if mem != [] {
        var c := GetUnused();
        c.it := MemChunk(mem, 0);
        BytesCons(c.it, chunks);
        LinkFirst(c);
        bytesIn := bytesIn + c.it.Remaining();
      }
    }

    /** chunkqueue_append_file: a stretch of a file. */
    method AppendFile(data: Str, start: nat, length: nat)
      requires Valid() && start + length <= |data|
      modifies this, owned
      ensures Valid() && Bytes() == old(Bytes()) + data[start..start + length]
      ensures chunks == if length == 0 then old(chunks) else old(chunks) + [FileChunk(data, start, length, false, false, 0)]
      ensures bytesIn == old(bytesIn) + length && bytesOut == old(bytesOut) && fresh(owned - old(owned))
    {
      hide BytesOf, Queue.Linked;
      if length != 0 {
        AppendChunk(FileChunk(data, start, length, false, false, 0));
      }
    }

    /** The two queues share no chunks. */
    ghost predicate Separate(q: Queue)
      reads this, q
    {
      this != q && owned !! q.owned
    }

    /** A list of other chunks is hung behind those here. */
    method Hang(head: Node, tail: Node, ghost l: seq<Node>, ghost cs: seq<Chunk>)
      requires Linked() && Listed(head, tail, l, cs) && l != [] && forall n :: n in l ==> n !in owned
      modifies `first, `last, `nodes, `chunks, `owned, owned
      ensures Linked() && nodes == old(nodes) + l && chunks == old(chunks) + cs && owned == old(owned) + SetOf(l)
    {
      hide Listed, Pooled;
      LastIn();
      ListBoth(head, tail, l, cs);
      owned := owned + SetOf(l);
    }

    method ListBoth(head: Node, tail: Node, ghost l: seq<Node>, ghost cs: seq<Chunk>)
      requires Listed(first, last, nodes, chunks) && Listed(head, tail, l, cs) && l != [] && Apart(nodes, l)
      modifies `first, `last, `nodes, `chunks, (if last == null then {} else {last})`next
      ensures Listed(first, last, nodes, chunks) && nodes == old(nodes) + l && chunks == old(chunks) + cs
    {
      hide Hold;
      HoldBoth(nodes, chunks, l, cs);
      if first == null { first := head; } else { last.next := head; }
      last := tail;
      forall k: nat | k + 1 < |nodes|
        ensures LinkAt(nodes, k)
      {
        assert old(LinkAt(nodes, k));
      }
      forall k: nat | k < |l|
        ensures LinkAt(l, k)
      {
        assert old(LinkAt(l, k)) && l[k] in l;
      }
      JoinedChain(first, nodes, l);
      nodes, chunks := nodes + l, chunks + cs;
    }

    /** The list is forgotten. */
    method CutOff()
      requires Linked()
      modifies `first, `last, `nodes, `chunks, `owned
      ensures Linked() && nodes == [] && chunks == [] && owned == old(owned) - SetOf(old(nodes))
      ensures Chain(old(first), old(nodes)) && Apart(old(nodes), spare)
    {
      first, last := null, null;
      owned := owned - SetOf(nodes);
      nodes, chunks := [], [];
    }

    /** What a list to be hung elsewhere is like. */
    lemma OwnsNodes()
      requires Linked()
      ensures Listed(first, last, nodes, chunks) && Chain(first, nodes)
      ensures SetOf(nodes) <= owned && forall n :: n in nodes ==> n in owned
    {
    }

    /** chunkqueue_append_chunkqueue: all of src moves to the end. */
    method AppendQueue(src: Queue)
      requires Valid() && src.Valid() && Separate(src)
      modifies this, owned, src
      ensures Valid() && src.Valid() && Separate(src) && src.Bytes() == [] && Bytes() == old(Bytes()) + old(src.Bytes())
      ensures chunks == old(chunks) + old(src.chunks) && src.chunks == []
      ensures bytesIn == old(bytesIn) + |old(src.Bytes())| && src.bytesIn == old(src.bytesIn)
      ensures owned + src.owned == old(owned + src.owned)
    {
      hide BytesOf, Queue.Linked, PartsOf, Chunk.Ok;
      src.AreOk();
      src.Ends();
      NoBytes(src.chunks);
      assert chunks + [] == chunks;
      if src.first == null { return; }
      BytesConcat(chunks, src.chunks);
      src.OwnsNodes();
      Hang(src.first, src.last, src.nodes, src.chunks);
      bytesIn := bytesIn + (src.bytesIn - src.bytesOut);
      src.CutOff();
      NoBytes(src.chunks);
      src.bytesOut := src.bytesIn;
    }

    /** chunkqueue_get_memory: afterwards the last chunk is a memory chunk with room. An empty buffer
        is always given room; for another, `room` says whether it had or could be given enough. */
    method GetMemory(room: bool)
      requires Valid()
      modifies this, owned
      ensures Valid() && Bytes() == old(Bytes()) && bytesIn == old(bytesIn) && bytesOut == old(bytesOut) && fresh(owned - old(owned))
      ensures chunks != [] && chunks[|chunks| - 1].MemChunk?
      ensures old(AllMem(chunks) && Solid(chunks)) ==> AllMem(chunks) && Solid(chunks)
    {
      hide BytesOf, Queue.Linked;
      Ends();
      if last != null && last.it.MemChunk? && (last.it.mem == [] || room) { return; }
      AppendChunk(BLANK);
    }

    /** chunkqueue_use_memory: what was read into that room. */
    method UseMemory(got: Str)
      requires Valid() && chunks != [] && chunks[|chunks| - 1].MemChunk?
      modifies this, owned
      ensures Valid() && Bytes() == old(Bytes()) + got && fresh(owned - old(owned))
      ensures bytesIn == old(bytesIn) + |got| && bytesOut == old(bytesOut)
      ensures old(AllMem(chunks) && Solid(chunks)) ==> AllMem(chunks) && Solid(chunks)
      ensures old(AllMem(chunks) && Solid(chunks)) && got != [] ==> Regular(chunks)
    {
      hide BytesOf, Queue.Linked, AllMem, Solid, Regular, Chunk.Rest;
      AreOk();
      Ends();
      ghost var n := |chunks| - 1;
      var grown := MemChunk(last.it.mem + got, last.it.offset);
      GrownMemory(chunks, got);
      BytesReplaceLast(chunks, grown);
      Put(last, grown, n);
      bytesIn := bytesIn + |got|;
    }

    /** chunkqueue_length. */
    method Length() returns (len: nat)
      requires Valid()
      ensures len == |Bytes()| == bytesIn - bytesOut
    {
      hide BytesOf, Queue.Linked;
      len := 0;
      Ends();
      var c := first;
      ghost var i := 0;
      assert chunks[0..] == chunks;
      while c != null
        invariant i <= |nodes| == |chunks| && c == NodeAt(nodes, i)
        invariant len + |BytesOf(chunks[i..])| == |BytesOf(chunks)|
        decreases |nodes| - i
      {
        NextIs(i);
        BytesFirst(chunks[i..]);
        assert chunks[i..][1..] == chunks[i + 1..];
        len := len + c.it.Remaining();
        c := c.next;
        i := i + 1;
      }
      NoBytes(chunks[i..]);
    }

    /** A chunk with nothing left at the front is dropped. */
    method DropFirst()
      requires Valid() && chunks != [] && chunks[0].Remaining() == 0
      modifies this, owned
      ensures Valid() && Bytes() == old(Bytes()) && bytesIn == old(bytesIn) && bytesOut == old(bytesOut)
      ensures chunks == old(chunks)[1..] && fresh(owned - old(owned))
    {
      hide BytesOf, Queue.Linked, Chunk.Rest;
      Ends();
      BytesFirst(chunks);
      var c := UnlinkFirst();
      PushUnused(c);
    }

    /** chunkqueue_remove_finished_chunks. */
    method RemoveFinished()
      requires Valid()
      modifies this, owned
      ensures Valid() && Bytes() == old(Bytes()) && bytesIn == old(bytesIn) && bytesOut == old(bytesOut) && fresh(owned - old(owned))
      ensures chunks == WithoutFinished(old(chunks)) && (chunks != [] ==> chunks[0].Rest() != [])
      ensures old(AllMem(chunks)) ==> AllMem(chunks)
      ensures old(Solid(chunks)) ==> Solid(chunks)
      ensures old(Regular(chunks)) ==> Regular(chunks)
    {
      hide BytesOf, Chunk.Rest, Queue.Linked, Queue.Valid, Queue.Bytes;
      AreOk();
      while first != null && first.it.Remaining() == 0
        invariant Valid() && Bytes() == old(Bytes()) && bytesIn == old(bytesIn) && bytesOut == old(bytesOut) && fresh(owned - old(owned))
        invariant AllOk(chunks) && (first == null <==> chunks == []) && (chunks != [] ==> first.it == chunks[0])
        invariant WithoutFinished(chunks) == WithoutFinished(old(chunks))
        invariant old(AllMem(chunks)) ==> AllMem(chunks)
        invariant old(Solid(chunks)) ==> Solid(chunks)
        invariant old(Regular(chunks)) ==> Regular(chunks)
        decreases |chunks|
      {
        DropFirst();
        AreOk();
      }
    }

    /** The first chunk has been read to its end and leaves the queue, for re-use. */
    method FinishFirst()
      requires Valid() && chunks != []
      modifies this, owned
      ensures Valid() && old(chunks)[0].Ok() && old(chunks)[0].Remaining() <= |old(Bytes())| && Bytes() == old(Bytes())[old(chunks)[0].Remaining()..]
      ensures bytesIn == old(bytesIn) && bytesOut == old(bytesOut) + old(chunks)[0].Remaining()
      ensures chunks == old(chunks)[1..] && fresh(owned - old(owned))
    {
      hide BytesOf, Queue.Linked, Chunk.Rest;
      Ends();
      BytesFirst(chunks);
      bytesOut := bytesOut + first.it.Remaining();
      var c := UnlinkFirst();
      PushUnused(c);
    }

    /** n bytes of the first chunk have been read. */
    method AdvanceFirst(n: nat)
      requires Valid() && chunks != [] && n <= chunks[0].Remaining()
      modifies this, owned
      ensures Valid() && n <= |old(Bytes())| && Bytes() == old(Bytes())[n..] && bytesIn == old(bytesIn) && bytesOut == old(bytesOut) + n
      ensures old(chunks) != [] && old(chunks)[0].Ok() && n <= old(chunks)[0].Remaining() && chunks == old(chunks)[0 := old(chunks)[0].Advance(n)]
      ensures fresh(owned - old(owned))
    {
      hide BytesOf, Queue.Linked, Chunk.Rest;
      Ends();
      BytesAdvance(chunks, n);
      Put(first, first.it.Advance(n), 0);
      bytesOut := bytesOut + n;
    }

    /** chunkqueue_mark_written: the first len bytes are gone. */
    method MarkWritten(len: nat)
      requires Valid() && len <= |Bytes()|
      modifies this, owned
      ensures Valid() && Bytes() == old(Bytes())[len..] && fresh(owned - old(owned))
      ensures bytesIn == old(bytesIn) && bytesOut == old(bytesOut) + len
      ensures chunks != [] ==> chunks[0].Rest() != []
      ensures old(AllMem(chunks)) ==> AllMem(chunks)
      ensures old(Solid(chunks)) ==> Solid(chunks)
      ensures old(Regular(chunks)) ==> Regular(chunks)
    {
      hide BytesOf, Chunk.Rest, Queue.Linked, Queue.Valid, Queue.Bytes, Chunk.Advance;
      var written := len;
      ghost var all := Bytes();
      AreOk();
      while first != null
        invariant Valid() && AllOk(chunks) && 0 <= written <= len && fresh(owned - old(owned))
        invariant bytesIn == old(bytesIn) && bytesOut == old(bytesOut) + len - written
        invariant Bytes() == all[len - written..]
        invariant old(AllMem(chunks)) ==> AllMem(chunks)
        invariant old(Solid(chunks)) ==> Solid(chunks)
        invariant old(Regular(chunks)) ==> Regular(chunks)
        invariant (first == null <==> chunks == []) && (chunks != [] ==> first.it == chunks[0])
        invariant chunks == [] ==> written == 0
        decreases |chunks|
      {
        var n := first.it.Remaining();
        if written == 0 && n != 0 { break; }
        if written >= n {
          assert all[len - written..][n..] == all[len - written + n..];
          FinishFirst();
          written := written - n;
          AreOk();
        } else {
          assert all[len - written..][written..] == all[len..];
          AdvancedSolid(chunks, written);
          AdvanceFirst(written);
          written := 0;
          break;
        }
      }
    }

    /** The chunks of a list that was cut off are pushed to the unused ones, one by one. */
    method PushAll(cut: Node?, ghost list: seq<Node>)
      requires Linked() && Chain(cut, list) && (forall n :: n in list ==> n !in owned)
      modifies `unused, `unusedChunks, `spare, `owned, list
      ensures Linked() && nodes == old(nodes) && chunks == old(chunks) && forall n :: n in owned ==> n in old(owned) || n in list
      ensures spare == Pushed(list, old(spare))
    {
      hide Queue.Linked;
      var cur := cut;
      ghost var i := 0;
      assert list[0..] == list;
      while cur != null
        invariant Linked() && i <= |list| && cur == NodeAt(list, i)
        invariant forall k: nat :: i <= k < |list| ==> list[k] !in owned && LinkAt(list, k)
        invariant forall n :: n in owned ==> n in old(owned) || n in list
        invariant Pushed(list[i..], spare) == Pushed(list, old(spare))
        decreases |list| - i
      {
        var next := cur.next;
        assert LinkAt(list, i);
        Ends();
        LinksApart(list, i);
        assert list[i..][1..] == list[i + 1..];
        PushUnused(cur);
        cur := next;
        i := i + 1;
      }
    }

    lemma LinksApart(l: seq<Node>, i: nat)
      requires i < |l| && Different(l)
      ensures forall k :: i < k < |l| ==> l[k] != l[i]
    {
    }

    /** chunkqueue_reset. */
    method Reset()
      requires Valid()
      modifies this, owned
      ensures Valid() && chunks == [] && Bytes() == [] && bytesIn == bytesOut == 0 && fresh(owned - old(owned))
      ensures spare == Pushed(old(nodes), old(spare))
    {
      hide Queue.Linked, BytesOf, Pushed;
      var cur := first;
      ghost var list := nodes;
      OwnsNodes();
      CutOff();
      assert forall n :: n in list ==> n in old(owned);
      PushAll(cur, list);
      NoBytes(chunks);
      bytesIn, bytesOut := 0, 0;
    }

    /** The empty chunk behind c, at position i, is dropped. */
    method DropNext(c: Node, ghost i: nat)
      requires Valid() && i + 1 < |nodes| == |chunks| && c == nodes[i] && chunks[i + 1].Remaining() == 0
      modifies this, owned
      ensures Valid() && Bytes() == old(Bytes()) && bytesIn == old(bytesIn) && bytesOut == old(bytesOut) && fresh(owned - old(owned))
      ensures i < |nodes| == |chunks| == |old(nodes)| - 1 && c == nodes[i] && chunks == old(chunks)[..i + 1] + old(chunks)[i + 2..]
    {
      hide BytesOf, Queue.Linked;
      Ends();
      BytesWithout(chunks, i + 1);
      var empty := UnlinkNext(c, i);
      PushUnused(empty);
      Ends();
    }

    /** chunkqueue_remove_empty_chunks. */
    method RemoveEmpty()
      requires Valid()
      modifies this, owned
      ensures AllOk(WithoutFinished(old(chunks))) && chunks == Sieved(WithoutFinished(old(chunks)))
      ensures Valid() && Bytes() == old(Bytes()) && bytesIn == old(bytesIn) && bytesOut == old(bytesOut) && fresh(owned - old(owned))
    {
      hide BytesOf, Queue.Linked, Queue.Bytes, Chunk.Rest, Sieved;
      RemoveFinished();
      Ends();
      var c := first;
      ghost var i, all := 0, Sieved(chunks);
      assert chunks[..0] + Sieved(chunks[0..]) == all by { assert chunks[0..] == chunks; }
      while c != null && c.next != null
        invariant Valid() && Bytes() == old(Bytes()) && bytesIn == old(bytesIn) && bytesOut == old(bytesOut) && fresh(owned - old(owned))
        invariant i <= |nodes| == |chunks| && c == NodeAt(nodes, i)
        invariant chunks[..i] + Sieved(chunks[i..]) == all
        decreases |chunks| - i
      {
        NextIs(i);
        NextIs(i + 1);
        SievedStep(chunks, i);
        if c.next.it.Remaining() == 0 {
          DropNext(c, i);
          NextIs(i);
        }
        c := c.next;
        i := i + 1;
      }
      if i < |nodes| { NextIs(i); }
      SievedEnd(chunks, i);
    }

    // Moving.

    /** All chunks were in one of the two queues, or are new. */
    twostate predicate NoneForeign(q: Queue)
      reads this, q
    {
      && (forall n :: n in owned ==> fresh(n) || n in old(owned) || n in old(q.owned))
      && (forall n :: n in q.owned ==> fresh(n) || n in old(owned) || n in old(q.owned))
    }

    /** The whole first chunk moves to the end of dest. */
    method MoveFirst(dest: Queue)
      requires Valid() && dest.Valid() && Separate(dest) && chunks != []
      modifies this, dest, owned, dest.owned
      ensures Valid() && dest.Valid() && Separate(dest) && NoneForeign(dest)
      ensures old(chunks)[0].Ok() && old(chunks)[0].Remaining() <= |old(Bytes())| && Bytes() == old(Bytes())[old(chunks)[0].Remaining()..]
      ensures bytesIn == old(bytesIn) && bytesOut == old(bytesOut) + old(chunks)[0].Remaining()
      ensures chunks == old(chunks)[1..] && dest.chunks == old(dest.chunks) + [old(chunks)[0]]
      ensures dest.Bytes() == old(dest.Bytes()) + old(chunks)[0].Rest()
      ensures dest.bytesIn == old(dest.bytesIn) + old(chunks)[0].Remaining() && dest.bytesOut == old(dest.bytesOut)
    {
      hide BytesOf, Queue.Linked, Chunk.Rest;
      Ends();
      BytesFirst(chunks);
      assert nodes == [nodes[0]] + nodes[1..];
      var c := UnlinkFirst();
      bytesOut := bytesOut + c.it.Remaining();
      dest.AppendNode(c);
    }

    /** The first n bytes of the first chunk are copied to dest, from memory or as a stretch of the
        file, which stays with the chunk here. */
    method CopyFirst(dest: Queue, n: nat)
      requires Valid() && dest.Valid() && Separate(dest) && chunks != [] && 0 < n < chunks[0].Remaining()
      modifies this, owned, dest, dest.owned
      ensures Valid() && dest.Valid() && Separate(dest) && NoneForeign(dest)
      ensures n <= |old(Bytes())| && Bytes() == old(Bytes())[n..] && bytesIn == old(bytesIn) && bytesOut == old(bytesOut) + n
      ensures old(chunks)[0].Ok() && n <= old(chunks)[0].Remaining() && chunks == old(chunks)[0 := old(chunks)[0].Advance(n)]
      ensures dest.Bytes() == old(dest.Bytes()) + old(chunks)[0].Rest()[..n]
      ensures dest.chunks == old(dest.chunks) + [Part(old(chunks)[0], n)]
      ensures dest.bytesIn == old(dest.bytesIn) + n && dest.bytesOut == old(dest.bytesOut)
    {
      hide BytesOf, Queue.Linked, Chunk.Rest;
      Ends();
      var it := first.it;
      assert it.Ok();
      RestPart(it, n);
      if it.MemChunk? {
        dest.AppendMem(it.mem[it.offset..it.offset + n]);
      } else {
        dest.AppendFile(it.data, it.start + it.offset, n);
      }
      AdvanceFirst(n);
    }

    /** The first chunk, or len bytes of it, moves to dest; a chunk with nothing left is dropped. */
    method StealFirst(dest: Queue, len: nat) returns (n: nat)
      requires Valid() && dest.Valid() && Separate(dest) && chunks != [] && 0 < len
      modifies this, owned, dest, dest.owned
      ensures Valid() && dest.Valid() && Separate(dest) && NoneForeign(dest)
      ensures old(chunks)[0].Ok() && n == Min(len, old(chunks)[0].Remaining()) <= |old(Bytes())|
      ensures Bytes() == old(Bytes())[n..] && bytesIn == old(bytesIn) && bytesOut == old(bytesOut) + n
      ensures dest.Bytes() == old(dest.Bytes()) + old(Bytes())[..n]
      ensures dest.bytesIn == old(dest.bytesIn) + n && dest.bytesOut == old(dest.bytesOut)
      ensures old(AllMem(chunks)) ==> AllMem(chunks)
      ensures old(Solid(chunks)) ==> Solid(chunks)
      ensures old(Regular(chunks)) ==> Regular(chunks)
      ensures |chunks| == |old(chunks)| - (if n == old(chunks)[0].Remaining() then 1 else 0) && (|chunks| == |old(chunks)| ==> n == len) && n <= len
      ensures Steals(old(chunks), len, old(dest.chunks), chunks, len - n, dest.chunks)
      ensures old(AllOk(chunks) && AllOk(dest.chunks)) && chunks == Fewer(old(chunks), len) && dest.chunks == FirstMoved(old(dest.chunks), old(chunks)[0], n)
    {
      hide BytesOf, Chunk.Rest, AllMem, Solid, Regular, Queue.Bytes, Queue.Valid, Queue.Linked, Chunk.Advance, Steals, Part;
      dest.AreOk();
      AreOk();
      StartsWithFirst();
      RestSolid(chunks);
      StealsOne(chunks, len, dest.chunks);
      n := Min(len, first.it.Remaining());
      if n == 0 {
        DropFirst();
      } else if n == first.it.Remaining() {
        WholePart(chunks[0]);
        MoveFirst(dest);
      } else {
        AdvancedSolid(chunks, n);
        CopyFirst(dest, n);
      }
    }

    /** One turn of the loop of Steal. */
    method StealMore(dest: Queue, left: nat, ghost all: Str, ghost was: Str, ghost n: nat) returns (use: nat)
      requires Valid() && dest.Valid() && Separate(dest) && chunks != [] && 0 < left
      requires Moved(all, n, Bytes(), was, dest.Bytes())
      modifies this, owned, dest, dest.owned
      ensures Valid() && dest.Valid() && Separate(dest) && NoneForeign(dest)
      ensures Moved(all, n + use, Bytes(), was, dest.Bytes())
      ensures bytesIn == old(bytesIn) && bytesOut == old(bytesOut) + use
      ensures dest.bytesIn == old(dest.bytesIn) + use && dest.bytesOut == old(dest.bytesOut)
      ensures use <= left && |chunks| <= |old(chunks)| && (|chunks| == |old(chunks)| ==> use == left)
      ensures old(AllMem(chunks)) ==> AllMem(chunks)
      ensures old(Solid(chunks)) ==> Solid(chunks)
      ensures old(Regular(chunks)) ==> Regular(chunks)
      ensures (first == null <==> chunks == []) && (chunks == [] ==> |Bytes()| == 0)
      ensures Steals(old(chunks), left, old(dest.chunks), chunks, left - use, dest.chunks)
    {
      hide Steals, BytesOf, Chunk.Rest, AllMem, Solid, Regular, Moved, Queue.Bytes, Queue.Valid, Queue.Linked, Chunk.Advance, Chunk.Ok, AllOk;
      ghost var rest, now := Bytes(), dest.Bytes();
      use := StealFirst(dest, left);
      MoveMore(all, n, rest, was, now, use, Bytes(), dest.Bytes());
      FirstOrNone();
    }

    /** The first len bytes move to dest, or all there are. */
    method Steal(dest: Queue, len: nat) returns (ghost n: nat)
      requires Valid() && dest.Valid() && Separate(dest)
      modifies this, owned, dest, dest.owned
      ensures Valid() && dest.Valid() && Separate(dest) && NoneForeign(dest)
      ensures n == Min(len, |old(Bytes())|) <= |old(Bytes())|
      ensures Bytes() == old(Bytes())[n..] && dest.Bytes() == old(dest.Bytes()) + old(Bytes())[..n]
      ensures bytesIn == old(bytesIn) && bytesOut == old(bytesOut) + n
      ensures dest.bytesIn == old(dest.bytesIn) + n && dest.bytesOut == old(dest.bytesOut)
      ensures old(AllOk(chunks)) && chunks == Left(old(chunks), len) && dest.chunks == old(dest.chunks) + Taken(old(chunks), len)
      ensures old(AllMem(chunks)) ==> AllMem(chunks)
      ensures old(Solid(chunks)) ==> Solid(chunks)
      ensures old(Regular(chunks)) ==> Regular(chunks)
    {
      hide Steals, Left, Taken, BytesOf, Chunk.Rest, AllMem, Solid, Regular, Moved, Queue.Bytes, Queue.Valid, Queue.Linked, Chunk.Advance, Chunk.Ok, Chunk.Remaining, AllOk;
      var left := len;
      ghost var all, was := Bytes(), dest.Bytes();
      n := 0;
      MoveNone(all, dest.Bytes());
      FirstOrNone();
      BytesAre();
      StealsNone(chunks, len, dest.chunks);
      while left > 0 && first != null
        invariant Valid() && dest.Valid() && Separate(dest) && 0 <= left == len - n <= len
        invariant NoneForeign(dest)
        invariant first == null <==> chunks == []
        invariant Steals(old(chunks), len, old(dest.chunks), chunks, left, dest.chunks)
        invariant Moved(all, n, Bytes(), was, dest.Bytes()) && (chunks == [] ==> |Bytes()| == 0)
        invariant bytesIn == old(bytesIn) && bytesOut == old(bytesOut) + n
        invariant dest.bytesIn == old(dest.bytesIn) + n && dest.bytesOut == old(dest.bytesOut)
        invariant old(AllMem(chunks)) ==> AllMem(chunks)
        invariant old(Solid(chunks)) ==> Solid(chunks)
        invariant old(Regular(chunks)) ==> Regular(chunks)
        decreases |chunks|, left
      {
        ghost var cs, to := chunks, dest.chunks;
        var use := StealMore(dest, left, all, was, n);
        StealsOn(old(chunks), len, old(dest.chunks), cs, left, to, chunks, left - use, dest.chunks);
        left := left - use;
        n := n + use;
      }
      StealsAll(old(chunks), len, old(dest.chunks), chunks, left, dest.chunks);
      MoveAll(all, n, Bytes(), was, dest.Bytes(), len);
    }

    // Temporary files.

    /** The last chunk is a temporary file still open for appending. */
    method EndsInOpenTemp() returns (open: bool)
      requires Valid()
      ensures open == OpenTemp(chunks)
      ensures open ==> last != null && last.it.FileChunk? && last.it == chunks[|chunks| - 1]
    {
      hide BytesOf, Queue.Linked;
      Ends();
      open := last != null && last.it.FileChunk? && last.it.isTemp && last.it.isOpen && last.it.offset == 0;
    }

    /** The last chunk is a temporary file. */
    method EndsInTemp() returns (temp: bool)
      requires Valid()
      ensures temp <==> chunks != [] && chunks[|chunks| - 1].FileChunk? && chunks[|chunks| - 1].isTemp
    {
      hide BytesOf, Queue.Linked;
      Ends();
      temp := last != null && last.it.FileChunk? && last.it.isTemp;
    }

    /** chunkqueue_get_append_tempfile. */
    method GetAppendTempfile(opens: bool) returns (ok: bool)
      requires Valid()
      modifies this, owned
      ensures Valid() && Bytes() == old(Bytes()) && bytesIn == old(bytesIn) && bytesOut == old(bytesOut) && fresh(owned - old(owned))
      ensures ok == opens && (ok ==> OpenTemp(chunks))
      ensures old(AllOk(chunks)) && chunks == if ok then WithTemp(old(chunks)) else old(chunks)
    {
      hide WholeTemp, BytesOf, Queue.Linked;
      AreOk();
      ok := opens;
      if opens {
        AppendChunk(WholeTemp([]));
      }
    }

    /** What a write() to the open temporary file stored. */
    method Stored(mem: Str)
      requires Valid() && OpenTemp(chunks)
      modifies this, owned
      ensures Valid() && OpenTemp(chunks) && Bytes() == old(Bytes()) + mem && fresh(owned - old(owned))
      ensures bytesIn == old(bytesIn) + |mem| && bytesOut == old(bytesOut)
      ensures old(AllOk(chunks)) && chunks == Grown(old(chunks), mem)
    {
      hide BytesOf, Queue.Linked, Chunk.Rest;
      AreOk();
      Ends();
      ghost var n := |chunks| - 1;
      var c := last.it;
      assert c.Ok();
      var grown := c.(data := c.data + mem, length := c.length + |mem|);
      GrownTemp(c, mem);
      BytesReplaceLast(chunks, grown);
      Put(last, grown, n);
      bytesIn := bytesIn + |mem|;
    }

    /** The last temporary file takes no more bytes. */
    method CloseTemp()
      requires Valid() && OpenTemp(chunks)
      modifies this, owned
      ensures Valid() && Bytes() == old(Bytes()) && bytesIn == old(bytesIn) && bytesOut == old(bytesOut) && fresh(owned - old(owned))
      ensures old(AllOk(chunks)) && chunks == Shut(old(chunks))
    {
      hide BytesOf, Queue.Linked, Chunk.Rest;
      AreOk();
      Ends();
      ghost var n := |chunks| - 1;
      var c := last.it;
      assert c.Ok();
      var closed := c.(isOpen := false);
      ClosedTemp(c);
      BytesReplaceLast(chunks, closed);
      Put(last, closed, n);
    }

    /** One turn of the loop of chunkqueue_append_mem_to_tempfile: n more bytes are stored. */
    method TryTempfile(left: Str, fileSize: nat, a: Attempt) returns (tried: Tried, n: nat)
      requires Valid()
      modifies this, owned
      ensures Valid() && n <= |left|
      ensures Bytes() == old(Bytes()) + left[..n] && fresh(owned - old(owned))
      ensures bytesIn == old(bytesIn) + n && bytesOut == old(bytesOut)
      ensures old(AllOk(chunks)) && Try(tried, n, chunks) == Attempted(old(chunks), left, fileSize, a)
    {
      hide BytesOf, PartsOf, AllOk, Chunk.Rest, Chunk.Ok, Queue.Bytes, Queue.Valid, Queue.Linked, Grown, Shut, WithTemp, Cleaned, OpenTemp;
      AreOk();
      n := 0;
      var reuse := EndsInOpenTemp();
      if reuse && last.it.length >= fileSize {
        CloseTemp();
        if !a.closes { return GaveUp, 0; }
        reuse := false;
      }
      if !reuse {
        var got := GetAppendTempfile(a.opens);
        if !got { return GaveUp, 0; }
      }
      tried, n := WriteTempfile(left, a);
    }

    /** The write() to the open temporary file, and what follows if it fails. */
    method WriteTempfile(left: Str, a: Attempt) returns (tried: Tried, n: nat)
      requires Valid() && OpenTemp(chunks)
      modifies this, owned
      ensures Valid() && n <= |left|
      ensures Bytes() == old(Bytes()) + left[..n] && fresh(owned - old(owned))
      ensures bytesIn == old(bytesIn) + n && bytesOut == old(bytesOut)
      ensures old(AllOk(chunks)) && Try(tried, n, chunks) == Written(old(chunks), left, a)
    {
      hide BytesOf, PartsOf, AllOk, Chunk.Rest, Chunk.Ok, Queue.Bytes, Queue.Valid, Queue.Linked, Grown, Shut, Sieved, WithoutFinished;
      AreOk();
      n := 0;
      if !a.fails {
        n := Min(a.accepted, |left|);
        Stored(left[..n]);
        return if n == |left| then Tried.Stored else Again, n;
      }
      if a.interrupted { return Again, 0; }
      var closed := true;
      var open := EndsInOpenTemp();
      if last.it.length == 0 {
        RemoveEmpty();
      } else {
        CloseTemp();
        closed := a.closes;
      }
      return if closed && a.retry then Again else GaveUp, 0;
    }

    /** chunkqueue_append_mem_to_tempfile: all of mem is stored, or a prefix of it. Each turn of
        the loop is one attempt; if they are used up, the loop was left with a failure. */
    method AppendMemToTempfile(mem: Str, fileSize: nat, attempts: seq<Attempt>) returns (ok: bool, ghost stored: nat, used: nat)
      requires Valid()
      modifies this, owned
      ensures Valid() && stored <= |mem| && (ok ==> stored == |mem|) && (mem != [] && stored == |mem| ==> ok)
      ensures Bytes() == old(Bytes()) + mem[..stored] && fresh(owned - old(owned))
      ensures bytesIn == old(bytesIn) + stored && bytesOut == old(bytesOut)
      ensures old(AllOk(chunks)) && Store(ok, stored, used, chunks) == Storing(old(chunks), mem, fileSize, attempts)
    {
      hide BytesOf, PartsOf, AllOk, Attempted, Storing, StoringFrom, Queue.Bytes, Queue.Valid, Queue.Linked;
      AreOk();
      ok := false;
      used := 0;
      var at := 0;
      StoringNone(chunks, mem, fileSize, attempts);
      StoringEnds(chunks, mem, fileSize, attempts);
      while used < |attempts|
        invariant Valid() && 0 <= at <= |mem| && Bytes() == old(Bytes()) + mem[..at] && fresh(owned - old(owned))
        invariant bytesIn == old(bytesIn) + at && bytesOut == old(bytesOut) && 0 <= used <= |attempts|
        invariant StoringFrom(old(chunks), mem, fileSize, attempts, at, used, chunks)
      {
        ghost var cs, was := chunks, at;
        var tried, n := TryTempfile(mem[at..], fileSize, attempts[used]);
        AreOk();
        MovePart(mem, at, n);
        StoringStep(old(chunks), mem, fileSize, attempts, was, used, cs);
        at := at + n;
        used := used + 1;
        if !tried.Again? { return tried.Stored?, at, used; }
      }
      StoringStep(old(chunks), mem, fileSize, attempts, at, used, chunks);
      stored := at;
    }

    /** The first n bytes, which are in the first chunk, have been read. */
    method TakeFirst(n: nat)
      requires Valid() && chunks != [] && 0 < n <= chunks[0].Remaining()
      modifies this, owned
      ensures Valid() && n <= |old(Bytes())| && Bytes() == old(Bytes())[n..] && bytesIn == old(bytesIn) && bytesOut == old(bytesOut) + n
      ensures old(AllOk(chunks) && chunks != []) && chunks == Fewer(old(chunks), n) && fresh(owned - old(owned))
      ensures old(AllMem(chunks)) ==> AllMem(chunks)
      ensures old(Solid(chunks)) ==> Solid(chunks)
      ensures old(Regular(chunks)) ==> Regular(chunks)
    {
      hide BytesOf, Queue.Linked, Chunk.Rest, Chunk.Advance, Queue.Bytes, Queue.Valid, AllMem, Solid, Regular;
      AreOk();
      StartsWithFirst();
      RestSolid(chunks);
      if n == first.it.Remaining() {
        FinishFirst();
      } else {
        AdvancedSolid(chunks, n);
        AdvanceFirst(n);
      }
    }

    /** As StealFirst, but bytes in memory are stored in a temporary file at the end of dest and then
        taken from here. */
    method StoreFirst(dest: Queue, len: nat, fileSize: nat, attempts: seq<Attempt>)
      returns (ok: bool, n: nat, ghost stored: nat, used: nat)
      requires Valid() && dest.Valid() && Separate(dest) && chunks != [] && 0 < len
      modifies this, owned, dest, dest.owned
      ensures Valid() && dest.Valid() && Separate(dest) && NoneForeign(dest)
      ensures old(chunks)[0].Ok() && n == Min(len, old(chunks)[0].Remaining()) <= |old(Bytes())| && stored <= n && (ok <==> stored == n)
      ensures dest.Bytes() == old(dest.Bytes()) + old(Bytes())[..stored]
      ensures dest.bytesIn == old(dest.bytesIn) + stored && dest.bytesOut == old(dest.bytesOut) && bytesIn == old(bytesIn)
      ensures !ok ==> Bytes() == old(Bytes()) && bytesOut == old(bytesOut)
      ensures ok ==> Bytes() == old(Bytes())[n..] && bytesOut == old(bytesOut) + n
      ensures ok ==> |chunks| == |old(chunks)| - if n == old(chunks)[0].Remaining() then 1 else 0
      ensures old(AllMem(chunks)) ==> AllMem(chunks)
      ensures old(Solid(chunks)) ==> Solid(chunks)
      ensures old(Regular(chunks)) ==> Regular(chunks)
      ensures used <= |attempts| && MovesOn(old(chunks), old(dest.chunks), len, fileSize, attempts, ok, n, used, chunks, dest.chunks)
    {
      hide BytesOf, Queue.Linked, Chunk.Rest, Chunk.Advance, Queue.Bytes, Queue.Valid, AllMem, Solid, Regular, Storing, Moving, MovesOn, FirstMoved, Part, Steals;
      AreOk();
      dest.AreOk();
      StartsWithFirst();
      var it := first.it;
      if it.FileChunk? || it.Remaining() == 0 {
        MovesFirst(chunks, dest.chunks, len, fileSize, attempts);
        n := StealFirst(dest, len);
        return true, n, n, 0;
      }
      n := Min(len, it.Remaining());
      RestPart(it, n);
      ghost var all := Bytes();
      MovesStored(chunks, dest.chunks, len, fileSize, attempts);
      ok, stored, used := dest.AppendMemToTempfile(it.mem[it.offset..it.offset + n], fileSize, attempts);
      assert it.mem[it.offset..it.offset + n][..stored] == all[..stored] by {
        assert it.Rest()[..n][..stored] == it.Rest()[..stored];
      }
      AreOk();
      if !ok { return; }
      TakeFirst(n);
    }

    /** One turn of the loop of StealWithTempfiles. */
    method StoreMore(dest: Queue, left: nat, fileSize: nat, attempts: seq<Attempt>, turn: nat, ghost all: Str, ghost was: Str, ghost n: nat,
                     ghost cs: seq<Chunk>, ghost to: seq<Chunk>)
      returns (ok: bool, use: nat, ghost stored: nat, used: nat)
      requires Valid() && dest.Valid() && Separate(dest) && chunks != [] && 0 < left
      requires Moved(all, n, Bytes(), was, dest.Bytes())
      requires turn <= |attempts| && MovesOn(cs, to, n + left, fileSize, attempts, true, n, turn, chunks, dest.chunks)
      modifies this, owned, dest, dest.owned
      ensures Valid() && dest.Valid() && Separate(dest) && NoneForeign(dest)
      ensures ok ==> Moved(all, n + use, Bytes(), was, dest.Bytes()) && stored == use && bytesOut == old(bytesOut) + use
      ensures !ok ==> Copied(all, n, stored, Bytes(), was, dest.Bytes()) && stored < left && n + stored < |all| && bytesOut == old(bytesOut)
      ensures bytesIn == old(bytesIn) && dest.bytesIn == old(dest.bytesIn) + stored && dest.bytesOut == old(dest.bytesOut)
      ensures use <= left && (ok ==> |chunks| <= |old(chunks)| && (|chunks| == |old(chunks)| ==> use == left))
      ensures old(AllMem(chunks)) ==> AllMem(chunks)
      ensures old(Solid(chunks)) ==> Solid(chunks)
      ensures old(Regular(chunks)) ==> Regular(chunks)
      ensures (first == null <==> chunks == []) && (chunks == [] ==> |Bytes()| == 0)
      ensures used <= |attempts| && MovesOn(cs, to, n + left, fileSize, attempts, ok, n + use, used, chunks, dest.chunks)
    {
      hide MovesOn, BytesOf, Chunk.Rest, AllMem, Solid, Regular, Moved, Copied, Queue.Bytes, Queue.Valid, Queue.Linked, Chunk.Advance, Chunk.Ok, AllOk;
      ghost var rest, now := Bytes(), dest.Bytes();
      ghost var cs1, to1 := chunks, dest.chunks;
      ok, use, stored, used := StoreFirst(dest, left, fileSize, attempts[turn..]);
      MovesOnward(cs, to, n + left, fileSize, attempts, n, turn, cs1, to1, ok, use, used, chunks, dest.chunks);
      used := turn + used;
      if ok {
        MoveMore(all, n, rest, was, now, use, Bytes(), dest.Bytes());
      } else {
        CopiedSome(all, n, rest, was, now, stored, dest.Bytes());
      }
      FirstOrNone();
    }

    /** chunkqueue_steal_with_tempfiles: as Steal, but bytes in memory go to temporary files. When
        it fails no byte is lost: dest has a prefix of what was here, and what is left here
        starts within that prefix or at its end. */
    method StealWithTempfiles(dest: Queue, len: nat, fileSize: nat, attempts: seq<Attempt>)
      returns (ok: bool, ghost stored: nat, ghost gone: nat, used: nat)
      requires Valid() && dest.Valid() && Separate(dest)
      modifies this, owned, dest, dest.owned
      ensures Valid() && dest.Valid() && Separate(dest) && NoneForeign(dest)
      ensures gone <= stored <= Min(len, |old(Bytes())|) && (ok <==> stored == Min(len, |old(Bytes())|)) && (ok ==> gone == stored)
      ensures Bytes() == old(Bytes())[gone..] && dest.Bytes() == old(dest.Bytes()) + old(Bytes())[..stored]
      ensures bytesIn == old(bytesIn) && bytesOut == old(bytesOut) + gone
      ensures dest.bytesIn == old(dest.bytesIn) + stored && dest.bytesOut == old(dest.bytesOut)
      ensures old(AllMem(chunks)) ==> AllMem(chunks)
      ensures old(Solid(chunks)) ==> Solid(chunks)
      ensures old(Regular(chunks)) ==> Regular(chunks)
      ensures used <= |attempts| && old(AllOk(chunks) && AllOk(dest.chunks))
      ensures Move(ok, used, chunks, dest.chunks) == Moving(old(chunks), old(dest.chunks), len, fileSize, attempts)
    {
      hide MovesOn, Moving, BytesOf, Chunk.Rest, AllMem, Solid, Regular, Moved, Copied, Min, Queue.Bytes, Queue.Valid, Queue.Linked, Chunk.Advance, Chunk.Ok, Chunk.Remaining, AllOk;
      var left := len;
      used := 0;
      ghost var all, was := Bytes(), dest.Bytes();
      gone := 0;
      MoveNone(all, dest.Bytes());
      AreOk();
      dest.AreOk();
      MovesNone(chunks, dest.chunks, len, fileSize, attempts);
      FirstOrNone();
      while left > 0 && first != null
        invariant Valid() && dest.Valid() && Separate(dest) && 0 <= left == len - gone <= len && 0 <= used <= |attempts|
        invariant NoneForeign(dest)
        invariant first == null <==> chunks == []
        invariant Moved(all, gone, Bytes(), was, dest.Bytes()) && (chunks == [] ==> |Bytes()| == 0)
        invariant bytesIn == old(bytesIn) && bytesOut == old(bytesOut) + gone
        invariant dest.bytesIn == old(dest.bytesIn) + gone && dest.bytesOut == old(dest.bytesOut)
        invariant old(AllMem(chunks)) ==> AllMem(chunks)
        invariant old(Solid(chunks)) ==> Solid(chunks)
        invariant old(Regular(chunks)) ==> Regular(chunks)
        invariant MovesOn(old(chunks), old(dest.chunks), len, fileSize, attempts, true, gone, used, chunks, dest.chunks)
        decreases |chunks|, left
      {
        var use;
        ok, use, stored, used := StoreMore(dest, left, fileSize, attempts, used, all, was, gone, old(chunks), old(dest.chunks));
        if !ok {
          CopiedAll(all, gone, stored, Bytes(), was, dest.Bytes(), len);
          MovesAll(old(chunks), old(dest.chunks), len, fileSize, attempts, false, gone + use, used, chunks, dest.chunks);
          stored := gone + stored;
          return;
        }
        left := left - use;
        gone := gone + use;
      }
      MoveAll(all, gone, Bytes(), was, dest.Bytes(), len);
      MovesAll(old(chunks), old(dest.chunks), len, fileSize, attempts, true, gone, used, chunks, dest.chunks);
      return true, gone, gone, used;
    }
  }
}
