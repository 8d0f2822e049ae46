/** Well-formed messages in the chunked transfer coding (section 4.1 of RFC 7230), and the ones
    http_chunk.c writes: the decoder of ChunkedCoding returns their data. */
module ChunkedMessage {
  import opened Bytes
  import opened ChunkedCoding

  /** The number that digits stand for, after te. */
  function Value(te: nat, digits: Str): nat
    requires forall d :: d in digits ==> IsHex(d)
    decreases digits
  {
    if digits == [] then te else Value(te * 16 + HexValue(digits[0]), digits[1..])
  }

  lemma {:induction false} ValueGrows(te: nat, digits: Str)
    requires forall d :: d in digits ==> IsHex(d)
    ensures Value(te, digits) >= te
    decreases digits
  {
    if digits != [] {
      ValueGrows(te * 16 + HexValue(digits[0]), digits[1..]);
    }
  }

  /** Blanks and then nothing or an extension after a semicolon, with no end of line in it. */
  predicate GoodExtension(ext: Str) {
    && LF !in ext && NUL !in ext
    && var t := Blanks(ext, 0);
       t == |ext| || ext[t] == SEMICOLON
  }

  /** A size line: digits with the given value, and an extension. */
  ghost predicate GoodLine(digits: Str, ext: Str, size: nat) {
    && digits != [] && (forall d :: d in digits ==> IsHex(d)) && Value(0, digits) == size <= MAX_SIZE
    && GoodExtension(ext) && |digits| + |ext| + 2 < MAX_LINE
  }

  function SizeLine(digits: Str, ext: Str): Str {
    digits + ext + CRLF
  }

  /** chunk = chunk-size [ chunk-ext ] CRLF chunk-data CRLF */
  datatype Chunk = Chunk(digits: Str, ext: Str, data: Str) {
    ghost predicate Good() {
      data != [] && GoodLine(digits, ext, |data|)
    }

    function Bytes(): Str {
      SizeLine(digits, ext) + data + CRLF
    }
  }

  /** header-field CRLF, where the field is not empty and has no end of line in it. */
  predicate GoodField(field: Str) {
    field != [] && CR !in field && LF !in field && NUL !in field
  }

  function Trailers(fields: seq<Str>): Str {
    if fields == [] then [] else fields[0] + CRLF + Trailers(fields[1..])
  }

  function ChunksBytes(chunks: seq<Chunk>): Str {
    if chunks == [] then [] else chunks[0].Bytes() + ChunksBytes(chunks[1..])
  }

  function ChunksData(chunks: seq<Chunk>): Str {
    if chunks == [] then [] else chunks[0].data + ChunksData(chunks[1..])
  }

  /** chunked-body = *chunk last-chunk trailer-part CRLF */
  datatype Message = Message(chunks: seq<Chunk>, zeros: Str, ext: Str, fields: seq<Str>) {
    ghost predicate Good() {
      && (forall c :: c in chunks ==> c.Good())
      && GoodLine(zeros, ext, 0)
      && forall f :: f in fields ==> GoodField(f)
    }

    function Bytes(): Str {
      ChunksBytes(chunks) + (SizeLine(zeros, ext) + (Trailers(fields) + CRLF))
    }

    /** The last size line, the trailers and the blank line. */
    function LastPart(): nat {
      |SizeLine(zeros, ext)| + |Trailers(fields)| + 2
    }

    function Data(): Str {
      ChunksData(chunks)
    }
  }

  // Reading a size line.

  lemma {:induction false} DigitsRead(line: Str, i: nat, te: nat, digits: Str)
    requires i + |digits| < |line| && line[i..i + |digits|] == digits
    requires forall d :: d in digits ==> IsHex(d)
    requires Value(te, digits) <= MAX_SIZE && !IsHex(line[i + |digits|])
    ensures Digits(line, i, te) == Scanned(Value(te, digits), i + |digits|)
    decreases |digits|
  {
    Hex2IntIsHexValue(line[i]);
    if digits != [] {
      assert line[i] == digits[0];
      assert line[i + 1..i + 1 + |digits[1..]|] == digits[1..];
      ValueGrows(te * 16 + HexValue(digits[0]), digits[1..]);
      DigitsRead(line, i + 1, te * 16 + HexValue(digits[0]), digits[1..]);
    }
  }

  lemma {:induction false} BlanksRead(line: Str, i: nat, ext: Str, j: nat)
    requires i + |ext| < |line| && line[i..i + |ext|] == ext && line[i + |ext|] == CR && j <= |ext|
    ensures Blanks(line, i + j) == i + Blanks(ext, j)
    decreases |ext| - j
  {
    if j < |ext| {
      assert line[i + j] == ext[j];
      if ext[j] == SP || ext[j] == TAB {
        BlanksRead(line, i, ext, j + 1);
      }
    }
  }

  lemma {:induction false} LineEndAt(s: Str, n: nat)
    requires n < |s| && s[n] == LF && forall i :: 0 <= i < n ==> s[i] != LF && s[i] != NUL
    ensures LineEnd(s) == n + 1
  {
    if n != 0 {
      LineEndAt(s[1..], n - 1);
    }
  }

  lemma ExtensionStart(digits: Str, ext: Str, size: nat)
    requires GoodLine(digits, ext, size)
    ensures !IsHex((ext + CRLF)[0])
  {
    if ext != [] {
      assert (ext + CRLF)[0] == ext[0];
    }
  }

  lemma LineRead(digits: Str, ext: Str, size: nat)
    requires GoodLine(digits, ext, size)
    ensures Parse(SizeLine(digits, ext)) == Line(size, |SizeLine(digits, ext)|)
  {
    var line := SizeLine(digits, ext);
    var n := |digits|;
    assert line[0..n] == digits && line[n..] == ext + CRLF;
    assert line[n..n + |ext|] == ext && line[n + |ext|] == CR;
    assert line[n] == (ext + CRLF)[0];
    ExtensionStart(digits, ext, size);
    DigitsRead(line, 0, 0, digits);
    BlanksRead(line, n, ext, 0);
    var t := Blanks(ext, 0);
    if t < |ext| {
      assert line[n + t] == ext[t];
    }
  }

  lemma HexIsPlain(digits: Str)
    requires forall d :: d in digits ==> IsHex(d)
    ensures forall i :: 0 <= i < |digits| ==> digits[i] != LF && digits[i] != NUL
  {
    forall i | 0 <= i < |digits|
      ensures digits[i] != LF && digits[i] != NUL
    {
      assert digits[i] in digits;
    }
  }

  lemma HeaderRead(digits: Str, ext: Str, size: nat, rest: Str)
    requires GoodLine(digits, ext, size)
    ensures Header(SizeLine(digits, ext) + rest) == Line(size, |SizeLine(digits, ext)|)
  {
    hide Parse, Value;
    var line := SizeLine(digits, ext);
    var s := line + rest;
    var n := |line| - 1;
    HexIsPlain(digits);
    forall i | 0 <= i < n
      ensures s[i] != LF && s[i] != NUL
    {
      if i < |digits| {
        assert s[i] == digits[i];
      } else if i < |digits| + |ext| {
        assert s[i] == ext[i - |digits|];
      } else {
        assert s[i] == CR;
      }
    }
    LineEndAt(s, n);
    assert s[..n + 1] == line;
    LineRead(digits, ext, size);
  }

  // Reading chunks and trailers.

  /** One chunk takes three steps. */
  lemma ChunkRead(body: Str, c: Chunk, rest: Str, lim: Limits)
    requires c.Good() && (lim.maxRequest == 0 || |body| + |c.data| <= lim.maxRequest)
    ensures Run(State(0, body, c.Bytes() + rest, Going), lim) == Run(State(0, body + c.data, rest, Going), lim)
    ensures Final(State(0, body, c.Bytes() + rest, Going), lim) == Final(State(0, body + c.data, rest, Going), lim)
  {
    hide Header, GoodLine;
    var line, size := SizeLine(c.digits, c.ext), |c.data|;
    var s0 := State(0, body, c.Bytes() + rest, Going);
    var after := c.data + CRLF + rest;
    assert s0.unread == line + after;
    HeaderRead(c.digits, c.ext, size, after);
    assert (line + after)[|line|..] == after;
    SizeOk(c);
    var s1 := State(size + 2, body, after, Going);
    assert Step(s0, lim) == s1;
    assert after[..size] == c.data && after[size..] == CRLF + rest;
    var s2 := State(2, body + c.data, CRLF + rest, Going);
    assert Step(s1, lim) == s2;
    assert (CRLF + rest)[..2] == CRLF && (CRLF + rest)[2..] == rest;
    assert Step(s2, lim) == State(0, body + c.data, rest, Going);
    ThreeSteps(s0, s1, s2, State(0, body + c.data, rest, Going), lim);
  }

  lemma SizeOk(c: Chunk)
    requires c.Good()
    ensures 0 < |c.data| <= MAX_SIZE
  {
  }

  lemma ThreeSteps(s0: State, s1: State, s2: State, s3: State, lim: Limits)
    requires s0.verdict.Going? && s1.verdict.Going? && s2.verdict.Going? && s3.verdict.Going?
    requires Step(s0, lim) == s1 != s0 && Step(s1, lim) == s2 != s1 && Step(s2, lim) == s3 != s2
    ensures Run(s0, lim) == Run(s3, lim) && Final(s0, lim) == Final(s3, lim)
  {
    hide Step;
    assert Final(s0, lim) == Final(s1, lim);
    assert Final(s1, lim) == Final(s2, lim);
    assert Run(s0, lim) == Run(s1, lim);
    assert Run(s1, lim) == Run(s2, lim);
  }

  lemma {:induction false} ChunksRead(body: Str, chunks: seq<Chunk>, rest: Str, lim: Limits)
    requires forall c :: c in chunks ==> c.Good()
    requires lim.maxRequest == 0 || |body| + |ChunksData(chunks)| <= lim.maxRequest
    ensures Run(State(0, body, ChunksBytes(chunks) + rest, Going), lim)
         == Run(State(0, body + ChunksData(chunks), rest, Going), lim)
    ensures Final(State(0, body, ChunksBytes(chunks) + rest, Going), lim)
         == Final(State(0, body + ChunksData(chunks), rest, Going), lim)
    decreases |chunks|
  {
    hide Run, Final, GoodLine;
    if chunks == [] {
      assert ChunksBytes(chunks) + rest == rest && body + ChunksData(chunks) == body;
    } else {
      var c, more := chunks[0], chunks[1..];
      assert ChunksBytes(chunks) + rest == c.Bytes() + (ChunksBytes(more) + rest);
      assert body + ChunksData(chunks) == (body + c.data) + ChunksData(more);
      ChunkRead(body, c, ChunksBytes(more) + rest, lim);
      ChunksRead(body + c.data, more, rest, lim);
    }
  }

  /** A byte that starts no blank line is passed over. */
  lemma BlankLineSkip(b: byte, s: Str)
    requires b != NUL && BlankLineEnd(s) != 0 && (b != CR || s[1] != CR)
    ensures BlankLineEnd([b] + s) == 1 + BlankLineEnd(s)
  {
    assert ([b] + s)[1..] == s;
    assert ([b] + s)[..4][0] == b && ([b] + s)[..4][2] == s[1];
  }

  lemma FieldRead(f: Str, later: Str)
    requires GoodField(f) && BlankLineEnd(later) != 0
    ensures BlankLineEnd(CRLF + (f + later)) == 2 + |f| + BlankLineEnd(later)
  {
    hide BlankLineEnd;
    PlainSkip(f, later);
    assert (f + later)[0] == f[0] && f[0] in f;
    BlankLineSkip(LF, f + later);
    assert ([LF] + (f + later))[1] == f[0];
    BlankLineSkip(CR, [LF] + (f + later));
    assert CRLF + (f + later) == [CR] + ([LF] + (f + later));
  }

  lemma {:induction false} PlainSkip(plain: Str, s: Str)
    requires CR !in plain && NUL !in plain && BlankLineEnd(s) != 0
    ensures BlankLineEnd(plain + s) == |plain| + BlankLineEnd(s)
  {
    if plain == [] {
      assert plain + s == s;
    } else {
      PlainSkip(plain[1..], s);
      assert plain + s == [plain[0]] + (plain[1..] + s);
      BlankLineSkip(plain[0], plain[1..] + s);
    }
  }

  /** After a line end, the trailers are passed over up to the blank line. */
  lemma {:induction false} TrailersRead(fields: seq<Str>, rest: Str)
    requires forall f :: f in fields ==> GoodField(f)
    ensures BlankLineEnd(CRLF + (Trailers(fields) + CRLF) + rest) == |CRLF + (Trailers(fields) + CRLF)|
    decreases |fields|
  {
    var s := CRLF + (Trailers(fields) + CRLF) + rest;
    if fields == [] {
      assert s[..4] == CRLFCRLF;
    } else {
      var f, later := fields[0], CRLF + (Trailers(fields[1..]) + CRLF) + rest;
      assert f in fields && GoodField(f);
      TrailersRead(fields[1..], rest);
      assert s == CRLF + (f + later);
      FieldRead(f, later);
    }
  }

  /** On a well-formed message the decoder delivers the data of its chunks, drops extensions and
      trailers, and leaves what follows. */
  lemma Decodes(m: Message, leftover: Str, lim: Limits)
    requires m.Good() && (lim.maxRequest == 0 || |m.Data()| <= lim.maxRequest)
    ensures Run(State(0, [], m.Bytes() + leftover, Going), lim) == State(0, m.Data(), leftover, Done)
    ensures Final(State(0, [], m.Bytes() + leftover, Going), lim) == m.LastPart()
  {
    hide Run, Final, Step, GoodLine, Header, BlankLineEnd;
    var end := SizeLine(m.zeros, m.ext) + (Trailers(m.fields) + CRLF);
    assert m.Bytes() + leftover == ChunksBytes(m.chunks) + (end + leftover);
    ChunksRead([], m.chunks, end + leftover, lim);
    assert [] + ChunksData(m.chunks) == m.Data();
    LastRead(m.Data(), m.zeros, m.ext, m.fields, leftover, lim);
  }

  lemma LastRead(body: Str, zeros: Str, ext: Str, fields: seq<Str>, leftover: Str, lim: Limits)
    requires GoodLine(zeros, ext, 0) && forall f :: f in fields ==> GoodField(f)
    ensures Run(State(0, body, SizeLine(zeros, ext) + (Trailers(fields) + CRLF) + leftover, Going), lim)
         == State(0, body, leftover, Done)
    ensures Final(State(0, body, SizeLine(zeros, ext) + (Trailers(fields) + CRLF) + leftover, Going), lim)
         == |SizeLine(zeros, ext)| + |Trailers(fields)| + 2
  {
    hide GoodLine, Header, BlankLineEnd, Trailers;
    var line, tail := SizeLine(zeros, ext), Trailers(fields) + CRLF;
    var unread := line + tail + leftover;
    assert unread == line + (tail + leftover);
    HeaderRead(zeros, ext, 0, tail + leftover);
    assert unread[|line| - 2..] == CRLF + tail + leftover;
    TrailersRead(fields, leftover);
    assert unread[|line| + |tail|..] == leftover;
  }

  /** A well-formed message is decoded the same in whatever pieces it is read, if and only if its
      last part is not longer than max_request_field_size. */
  lemma DecodesInPieces(m: Message, leftover: Str, lim: Limits)
    requires m.Good() && (lim.maxRequest == 0 || |m.Data()| <= lim.maxRequest)
    ensures (forall inputs :: Flat(inputs) == m.Bytes() + leftover ==> RunAll(START, inputs, lim) == State(0, m.Data(), leftover, Done))
      <==> m.LastPart() <= lim.maxField
  {
    hide Run, RunAll, Final, GoodLine;
    var all := m.Bytes() + leftover;
    assert Append(START, all) == State(0, [], all, Going) by {
      assert [] + all == all;
    }
    Decodes(m, leftover, lim);
    SplitsAgreeIff(START, all, lim);
  }

  // What is not well formed.

  /** A line is taken for a size line exactly if it is shorter than 1024 bytes and consists of digits,
      however few, blanks, and a rest that begins with '\r' or ';', and no digit follows a number of
      2 ** 59 or more. */
  ghost predicate LineParts(line: Str, n: nat, t: nat) {
    && n <= t < |line| < 1024 && (line[t] == 13 || line[t] == 59)
    && (forall i :: 0 <= i < n ==> IsHex(line[i])) && (forall i :: n <= i < t ==> line[i] == 32 || line[i] == 9)
    && (n > 0 ==> Number(line[..n - 1]) < 0x800_0000_0000_0000)
  }

  /** The number that digits stand for. */
  function Number(digits: Str): nat
    requires forall i :: 0 <= i < |digits| ==> IsHex(digits[i])
  {
    if digits == [] then 0 else 16 * Number(digits[..|digits| - 1]) + HexValue(digits[|digits| - 1])
  }

  lemma {:induction false} NumberGrows(s: Str, i: nat, n: nat)
    requires i <= n <= |s| && forall k :: 0 <= k < n ==> IsHex(s[k])
    ensures Number(s[..i]) <= Number(s[..n])
    decreases n - i
  {
    if i < n {
      assert s[..i + 1][..i] == s[..i];
      NumberGrows(s, i + 1, n);
    }
  }

  lemma {:induction false} DigitsStop(s: Str, i: nat, n: nat)
    requires i <= n <= |s| && (forall k :: 0 <= k < n ==> IsHex(s[k])) && (n < |s| ==> !IsHex(s[n]))
    ensures Digits(s, i, Number(s[..i])) ==
      if i < n && Number(s[..n - 1]) >= 0x800_0000_0000_0000 then TooBig else Scanned(Number(s[..n]), n)
    decreases n - i
  {
    if i < |s| { Hex2IntIsHexValue(s[i]); }
    if i < n {
      NumberGrows(s, i, n - 1);
      assert s[..i + 1][..i] == s[..i];
      DigitsStop(s, i + 1, n);
      if i + 1 == n { assert s[..n - 1] == s[..i]; }
    }
  }

  lemma {:induction false} BlanksStop(s: Str, i: nat, t: nat)
    requires i <= t <= |s| && (forall k :: i <= k < t ==> s[k] == 32 || s[k] == 9) && (t < |s| ==> s[t] != 32 && s[t] != 9)
    ensures Blanks(s, i) == t
    decreases t - i
  {
    if i < t { BlanksStop(s, i + 1, t); }
  }

  /** How far the digits go. */
  lemma {:induction false} DigitCount(s: Str, i: nat) returns (n: nat)
    requires i <= |s| && forall k :: 0 <= k < i ==> IsHex(s[k])
    ensures i <= n <= |s| && (forall k :: 0 <= k < n ==> IsHex(s[k])) && (n < |s| ==> !IsHex(s[n]))
    decreases |s| - i
  {
    n := i;
    if i < |s| && IsHex(s[i]) { n := DigitCount(s, i + 1); }
  }

  lemma {:induction false} BlankCount(s: Str, n: nat, i: nat) returns (t: nat)
    requires n <= i <= |s| && forall k :: n <= k < i ==> s[k] == 32 || s[k] == 9
    ensures i <= t <= |s| && (forall k :: n <= k < t ==> s[k] == 32 || s[k] == 9) && (t < |s| ==> s[t] != 32 && s[t] != 9)
    decreases |s| - i
  {
    t := i;
    if i < |s| && (s[i] == 32 || s[i] == 9) { t := BlankCount(s, n, i + 1); }
  }

  lemma LineIff(line: Str)
    ensures Parse(line).Line? <==> exists n: nat, t: nat :: LineParts(line, n, t)
    ensures forall n: nat, t: nat :: LineParts(line, n, t) ==> Parse(line) == Line(Number(line[..n]), |line|)
    ensures !Parse(line).NoLine?
  {
    hide Digits, Blanks, Number;
    var n := DigitCount(line, 0);
    var t := BlankCount(line, n, n);
    NumberOfNone(line);
    DigitsStop(line, 0, n);
    BlanksStop(line, n, t);
    OnlyParts(line, n, t);
    if Parse(line).Line? { assert LineParts(line, n, t); }
  }

  lemma NumberOfNone(line: Str)
    ensures Number(line[..0]) == 0
  {
  }

  lemma OnlyParts(line: Str, n: nat, t: nat)
    requires n <= t <= |line| && (forall k :: 0 <= k < n ==> IsHex(line[k])) && (n < |line| ==> !IsHex(line[n]))
    requires (forall k :: n <= k < t ==> line[k] == 32 || line[k] == 9) && (t < |line| ==> line[t] != 32 && line[t] != 9)
    ensures forall m: nat, u: nat :: LineParts(line, m, u) ==> m == n && u == t
  {
    hide Number;
    forall m: nat, u: nat | LineParts(line, m, u)
      ensures m == n && u == t
    {
      assert !IsHex(line[m]) && line[u] != 32 && line[u] != 9;
    }
  }

  /** A chunk that makes the body longer than max_request_size is refused before any of it is read. */
  lemma TooLargeRead(body: Str, c: Chunk, rest: Str, lim: Limits)
    requires c.Good() && 0 < lim.maxRequest < |body| + |c.data|
    ensures Run(State(0, body, c.Bytes() + rest, Going), lim) == State(0, body, c.data + CRLF + rest, TooLarge)
  {
    hide Header, GoodLine;
    var line := SizeLine(c.digits, c.ext);
    var after := c.data + CRLF + rest;
    assert c.Bytes() + rest == line + after;
    HeaderRead(c.digits, c.ext, |c.data|, after);
    assert (line + after)[|line|..] == after;
    SizeOk(c);
  }

  /** Data that is not followed by CRLF ends in 400, after it was delivered. */
  lemma MissingEndRead(body: Str, c: Chunk, rest: Str, lim: Limits)
    requires c.Good() && (lim.maxRequest == 0 || |body| + |c.data| <= lim.maxRequest) && |rest| >= 2 && rest[..2] != [13, 10]
    ensures Run(State(0, body, SizeLine(c.digits, c.ext) + c.data + rest, Going), lim) == State(2, body + c.data, rest, Bad)
  {
    hide Header, GoodLine;
    var line, size := SizeLine(c.digits, c.ext), |c.data|;
    var after := c.data + rest;
    var s0 := State(0, body, line + c.data + rest, Going);
    assert s0.unread == line + after;
    HeaderRead(c.digits, c.ext, size, after);
    assert (line + after)[|line|..] == after;
    SizeOk(c);
    assert after[..size] == c.data && after[size..] == rest;
    var s1, s2 := State(size + 2, body, after, Going), State(2, body + c.data, rest, Going);
    assert Step(s0, lim) == s1 && Step(s1, lim) == s2 && Step(s2, lim) == State(2, body + c.data, rest, Bad);
    var s3 := State(2, body + c.data, rest, Bad);
    assert Run(s2, lim) == Run(s3, lim) == s3;
    assert Run(s0, lim) == Run(s1, lim) == Run(s2, lim);
  }

  /** 1024 bytes without a line end are no size line. */
  lemma NoLineRead(st: State, lim: Limits)
    requires st.te == 0 && st.verdict.Going? && LF !in st.unread
    ensures Run(st, lim) == if |st.unread| >= 1024 then st.(verdict := Bad) else st
  {
    NoLineEnd(st.unread);
  }

  lemma {:induction false} NoLineEnd(s: Str)
    requires LF !in s
    ensures LineEnd(s) == 0
  {
    if s != [] {
      assert s[0] in s;
      NoLineEnd(s[1..]);
    }
  }
}
