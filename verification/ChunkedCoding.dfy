/** The chunked transfer coding as lighttpd reads it (src/connections-glue.c), over one flat byte
    string: what connection_handle_read_post_chunked means whatever the chunks of its queue. */
module ChunkedCoding {
  import opened Bytes

  const NUL: byte := 0
  const TAB: byte := 9
  const LF: byte := 10
  const CR: byte := 13
  const SP: byte := 32
  const SEMICOLON: byte := 59
  const CRLF: Str := [13, 10]
  const CRLFCRLF: Str := [13, 10, 13, 10]

  /** A size line may not be this long. */
  const MAX_LINE := 1024
  /** A further hexadecimal digit is read only up to here: 2 ** 59 - 1. */
  const MAX_SHIFT := 0x7FF_FFFF_FFFF_FFFF
  /** Adding 2 to a larger size overflows off_t: 2 ** 63 - 3. */
  const MAX_SIZE := 0x7FFF_FFFF_FFFF_FFFD

  /** hex2int, on unsigned chars: 0xFF if hex is no hexadecimal digit. */
  function Hex2Int(hex: byte): byte {
    var value := (hex + 256 - 48) % 256;
    var letter := if hex / 32 % 2 == 1 then hex else hex + 32;
    var value' := if value <= 9 then value else (letter + 256 - 97 + 10) % 256;
    if value <= 9 then value else if value' < 10 || value' > 15 then 0xFF else value'
  }

  predicate IsHex(b: byte) {
    48 <= b <= 57 || 65 <= b <= 70 || 97 <= b <= 102
  }

  function HexValue(b: byte): (v: nat)
    requires IsHex(b)
    ensures v < 16
  {
    if b <= 57 then b - 48 else if b <= 70 then b - 55 else b - 87
  }

  /** The wrap-around in hex2int is harmless: exactly the digits have values, the right ones. */
  lemma Hex2IntIsHexValue(b: byte)
    ensures Hex2Int(b) == if IsHex(b) then HexValue(b) else 0xFF
  {
    if b < 32 {
      assert b / 32 == 0;
    } else if b < 64 {
      assert b / 32 == 1;
    } else if b < 96 {
      assert b / 32 == 2;
    } else if b < 128 {
      assert b / 32 == 3;
    }
  }

  const DIGITS: string := "0123456789abcdef"
  const UPPER_DIGITS: string := "0123456789ABCDEF"

  /** The digits are these, in both cases, and their values their places. */
  lemma HexIsPairs(b: byte)
    ensures IsHex(b) ==> b == DIGITS[HexValue(b)] as byte || b == UPPER_DIGITS[HexValue(b)] as byte
    ensures forall i :: 0 <= i < 16 && b == DIGITS[i] as byte ==> IsHex(b) && HexValue(b) == i
    ensures forall i :: 0 <= i < 16 && b == UPPER_DIGITS[i] as byte ==> IsHex(b) && HexValue(b) == i
  {
  }

  /** The length of the first line with its '\n', or 0 if there is none before a NUL: strchr. */
  function LineEnd(s: Str): (n: nat)
    ensures n <= |s|
    ensures n != 0 ==> s[n - 1] == LF && forall i :: 0 <= i < n - 1 ==> s[i] != LF
  {
    if s == [] || s[0] == NUL then 0
    else if s[0] == LF then 1
    else
      var n := LineEnd(s[1..]);
      if n == 0 then 0 else n + 1
  }

  /** Where the first blank line ends, or 0 if there is none before a NUL: strstr. */
  function BlankLineEnd(s: Str): (n: nat)
    ensures n <= |s| && (n != 0 ==> n >= 4)
  {
    if |s| < 4 || s[0] == NUL then 0
    else if s[..4] == CRLFCRLF then 4
    else
      var n := BlankLineEnd(s[1..]);
      if n == 0 then 0 else n + 1
  }

  /** strchr finds the first line feed if no NUL is before it. */
  lemma {:induction false} LineEndIs(s: Str)
    ensures LineEnd(s) == 0 <==> forall i :: 0 <= i < |s| && s[i] == 10 ==> exists j :: 0 <= j < i && s[j] == 0
    ensures var n := LineEnd(s); n != 0 ==> s[n - 1] == 10 && forall i :: 0 <= i < n - 1 ==> s[i] != 10 && s[i] != 0
  {
    if s != [] && s[0] != NUL && s[0] != LF {
      var t := s[1..];
      LineEndIs(t);
      forall i | 0 <= i < |s| && s[i] == 10
        ensures (exists j :: 0 <= j < i && s[j] == 0) <==> exists j :: 0 <= j < i - 1 && t[j] == 0
      {
        if j :| 0 <= j < i && s[j] == 0 { assert t[j - 1] == 0; }
        if j :| 0 <= j < i - 1 && t[j] == 0 { assert s[j + 1] == 0; }
      }
      assert forall i :: 0 <= i < |t| ==> t[i] == s[i + 1];
      if n: nat :| n < |t| && t[n] == 10 && forall j :: 0 <= j < n ==> t[j] != 0 {
        assert s[n + 1] == 10;
      }
    }
  }

  /** A blank line at position i. */
  predicate BlankAt(s: Str, i: nat) {
    i + 4 <= |s| && s[i] == 13 && s[i + 1] == 10 && s[i + 2] == 13 && s[i + 3] == 10
  }

  /** strstr finds the first blank line if no NUL is before it. */
  lemma {:induction false} BlankLineIs(s: Str)
    ensures BlankLineEnd(s) == 0 <==> forall i: nat :: BlankAt(s, i) ==> exists j :: 0 <= j < i && s[j] == 0
    ensures var n := BlankLineEnd(s); n != 0 ==> BlankAt(s, n - 4) && forall i: nat :: i < n - 4 ==> !BlankAt(s, i) && s[i] != 0
  {
    if |s| >= 4 && s[0] != NUL {
      FourBytes(s);
      if !BlankAt(s, 0) {
        var t := s[1..];
        BlankLineIs(t);
        assert forall i: nat :: BlankAt(t, i) <==> BlankAt(s, i + 1);
        assert forall i: nat :: BlankAt(s, i) ==> i > 0 && BlankAt(t, i - 1);
        forall i: nat | BlankAt(t, i)
          ensures (exists j :: 0 <= j < i + 1 && s[j] == 0) <==> exists j :: 0 <= j < i && t[j] == 0
        {
          if j :| 0 <= j < i + 1 && s[j] == 0 { assert t[j - 1] == 0; }
          if j :| 0 <= j < i && t[j] == 0 { assert s[j + 1] == 0; }
        }
      }
    }
  }

  lemma FourBytes(s: Str)
    requires |s| >= 4
    ensures s[..4] == CRLFCRLF <==> BlankAt(s, 0)
  {
    assert s[..4] == [s[0], s[1], s[2], s[3]];
  }

  datatype Scanned = TooBig | Scanned(size: nat, next: nat)

  /** Hexadecimal digits from position i on, after te. */
  function Digits(s: Str, i: nat, te: nat): (r: Scanned)
    requires i <= |s|
    ensures r.Scanned? ==> i <= r.next <= |s|
    decreases |s| - i
  {
    if i == |s| || Hex2Int(s[i]) == 0xFF then Scanned(te, i)
    else if te > MAX_SHIFT then TooBig
    else Digits(s, i + 1, te * 16 + Hex2Int(s[i]))
  }

  /** Past the blanks at position i. */
  function Blanks(s: Str, i: nat): (j: nat)
    requires i <= |s|
    ensures i <= j <= |s|
    decreases |s| - i
  {
    if i < |s| && (s[i] == SP || s[i] == TAB) then Blanks(s, i + 1) else i
  }

  datatype Line = NoLine | BadLine | Line(size: nat, length: nat)

  /** A size line: digits, blanks, then '\r' or ';'. */
  function Parse(line: Str): Line {
    var d := Digits(line, 0, 0);
    if d.TooBig? then BadLine
    else
      var t := Blanks(line, d.next);
      if t == |line| || (line[t] != CR && line[t] != SEMICOLON) then BadLine
      else if |line| >= MAX_LINE then BadLine
      else Line(d.size, |line|)
  }

  function Header(s: Str): (r: Line)
    ensures r.Line? ==> 2 <= r.length <= |s| && r.length < MAX_LINE
  {
    var n := LineEnd(s);
    if n == 0 then NoLine else Parse(s[..n])
  }

  /** max_request_size in bytes, 0 for none, and max_request_field_size. */
  datatype Limits = Limits(maxRequest: nat, maxField: nat)

  /** Going may go on with more bytes; Bad and TooLarge are the answers 400 and 413; after
      Undefined the C code has no defined behaviour. */
  datatype Verdict = Going | Done | Bad | TooLarge | Undefined

  /** te is what is left of a chunk and its CRLF, body what was delivered since the request began. */
  datatype State = State(te: nat, body: Str, unread: Str, verdict: Verdict)

  /** A chunk size after the limit is checked. */
  function Begin(st: State, size: nat, length: nat, lim: Limits): State
    requires length <= |st.unread|
  {
    var after := st.(unread := st.unread[length..]);
    if lim.maxRequest != 0 && (lim.maxRequest < size || lim.maxRequest - size < |st.body|) then after.(verdict := TooLarge)
    else if size > MAX_SIZE then after.(verdict := Undefined)
    else after.(te := size + 2)
  }

  /** The last chunk: the trailers up to a blank line are dropped. */
  function Finish(st: State, length: nat, lim: Limits): State
    requires 2 <= length <= |st.unread|
  {
    var n := BlankLineEnd(st.unread[length - 2..]);
    if n != 0 then st.(unread := st.unread[length - 2 + n..], verdict := Done)
    else if |st.unread| < lim.maxField then st
    else st.(verdict := Undefined)
  }

  /** The data of a chunk, as much as there is. */
  function Deliver(st: State): State
    requires st.te > 2
  {
    var n := if |st.unread| < st.te - 2 then |st.unread| else st.te - 2;
    State(st.te - n, st.body + st.unread[..n], st.unread[n..], st.verdict)
  }

  /** One step; the same state again if more bytes are needed. */
  function Step(st: State, lim: Limits): State {
    if st.te == 0 then
      match Header(st.unread)
      case NoLine => if |st.unread| >= MAX_LINE then st.(verdict := Bad) else st
      case BadLine => st.(verdict := Bad)
      case Line(size, length) => if size == 0 then Finish(st, length, lim) else Begin(st, size, length, lim)
    else if st.te > 2 then Deliver(st)
    else if |st.unread| < 2 then st
    else if st.te == 2 && st.unread[..2] == CRLF then st.(te := 0, unread := st.unread[2..])
    else st.(verdict := Bad)
  }

  function Measure(st: State): nat {
    |st.unread| + if st.verdict.Going? then 1 else 0
  }

  /** A step uses up bytes or ends the run. */
  lemma StepShrinks(st: State, lim: Limits)
    requires st.verdict.Going? && Step(st, lim) != st
    ensures Measure(Step(st, lim)) < Measure(st)
    ensures |Step(st, lim).unread| <= |st.unread| && (Step(st, lim).verdict.Done? ==> |Step(st, lim).unread| < |st.unread|)
  {
    hide Header, BlankLineEnd;
  }

  /** As many steps as the bytes at hand allow. */
  function Run(st: State, lim: Limits): State
    decreases Measure(st)
  {
    if !st.verdict.Going? then st
    else
      var next := Step(st, lim);
      if next == st then st else (StepShrinks(st, lim); Run(next, lim))
  }

  /** How many bytes the step takes that ends a run: the last size line, the trailers and the
      blank line after them. */
  function Final(st: State, lim: Limits): nat
    decreases Measure(st)
  {
    if !st.verdict.Going? || Step(st, lim) == st then 0
    else
      var next := Step(st, lim);
      if next.verdict.Done? then |st.unread| - |next.unread| else (StepShrinks(st, lim); Final(next, lim))
  }

  /** w arrives. */
  function Append(st: State, w: Str): State {
    st.(unread := st.unread + w)
  }

  /** One read after the other, each decoded as far as it goes. */
  function RunAll(st: State, inputs: seq<Str>, lim: Limits): State
    decreases |inputs|
  {
    if inputs == [] then st else RunAll(Run(Append(st, inputs[0]), lim), inputs[1..], lim)
  }

  /** One more read. */
  lemma {:induction false} RunAllSnoc(st: State, inputs: seq<Str>, w: Str, lim: Limits)
    ensures RunAll(st, inputs + [w], lim) == Run(Append(RunAll(st, inputs, lim), w), lim)
    decreases |inputs|
  {
    hide Run;
    if inputs == [] {
      assert ([] + [w])[1..] == [];
      assert RunAll(st, [w], lim) == RunAll(Run(Append(st, w), lim), [], lim);
    } else {
      assert (inputs + [w])[1..] == inputs[1..] + [w];
      RunAllSnoc(Run(Append(st, inputs[0]), lim), inputs[1..], w, lim);
    }
  }

  const START: State := State(0, [], [], Going)

  // More bytes do not change what was found.

  lemma {:induction false} LineEndAppend(s: Str, w: Str)
    ensures LineEnd(s) != 0 ==> LineEnd(s + w) == LineEnd(s)
    ensures LineEnd(s) == 0 && LineEnd(s + w) != 0 ==> LineEnd(s + w) > |s|
  {
    if s == [] {
      assert s + w == w;
    } else if s[0] != NUL && s[0] != LF {
      assert (s + w)[1..] == s[1..] + w;
      LineEndAppend(s[1..], w);
    }
  }

  lemma {:induction false} BlankLineEndAppend(s: Str, w: Str)
    ensures BlankLineEnd(s) != 0 ==> BlankLineEnd(s + w) == BlankLineEnd(s)
    ensures BlankLineEnd(s) == 0 && BlankLineEnd(s + w) != 0 ==> BlankLineEnd(s + w) > |s|
    decreases |s|
  {
    if |s| < 4 {
    } else if s[0] != NUL && s[..4] != CRLFCRLF {
      assert (s + w)[1..] == s[1..] + w && (s + w)[..4] == s[..4];
      BlankLineEndAppend(s[1..], w);
    } else {
      assert (s + w)[..4] == s[..4];
    }
  }

  lemma HeaderAppend(s: Str, w: Str)
    ensures !Header(s).NoLine? ==> Header(s + w) == Header(s)
    ensures Header(s).NoLine? && |s| >= MAX_LINE ==> !Header(s + w).Line?
  {
    LineEndAppend(s, w);
    if LineEnd(s) != 0 {
      assert (s + w)[..LineEnd(s)] == s[..LineEnd(s)];
    }
  }

  lemma HeaderPrefix(s: Str, w: Str)
    requires Header(s + w).Line? && Header(s + w).length <= |s|
    ensures Header(s) == Header(s + w)
  {
    LineEndAppend(s, w);
    HeaderAppend(s, w);
  }

  lemma HeaderStepAppend(st: State, w: Str, lim: Limits)
    requires st.te == 0 && st.verdict.Going? && Step(st, lim) != st && !Step(st, lim).verdict.Undefined?
    ensures Step(Append(st, w), lim) == Append(Step(st, lim), w)
  {
    hide Header, BlankLineEnd;
    var more := Append(st, w);
    HeaderAppend(st.unread, w);
    match Header(st.unread)
    case Line(size, length) =>
      assert more.unread[length..] == st.unread[length..] + w;
      if size == 0 {
        assert more.unread[length - 2..] == st.unread[length - 2..] + w;
        BlankLineEndAppend(st.unread[length - 2..], w);
        var n := BlankLineEnd(st.unread[length - 2..]);
        assert more.unread[length - 2 + n..] == st.unread[length - 2 + n..] + w;
      }
    case _ =>
  }

  lemma EndStepAppend(st: State, w: Str, lim: Limits)
    requires 0 < st.te <= 2 && st.verdict.Going? && Step(st, lim) != st
    ensures Step(Append(st, w), lim) == Append(Step(st, lim), w)
  {
    var more := Append(st, w);
    assert more.unread[..2] == st.unread[..2] && more.unread[2..] == st.unread[2..] + w;
  }

  /** A step that changes something can as well be taken when more bytes are there. */
  lemma StepAppend(st: State, w: Str, lim: Limits)
    requires st.verdict.Going? && Step(st, lim) != st && !Step(st, lim).verdict.Undefined?
    ensures Run(Append(st, w), lim) == Run(Append(Step(st, lim), w), lim)
    ensures Step(st, lim).verdict.Going? ==> Final(Append(st, w), lim) == Final(Append(Step(st, lim), w), lim)
  {
    if st.te > 2 {
      DataStepAppend(st, w, lim);
    } else {
      if st.te == 0 { HeaderStepAppend(st, w, lim); } else { EndStepAppend(st, w, lim); }
      BothStep(st, w, lim);
    }
  }

  lemma BothStep(st: State, w: Str, lim: Limits)
    requires st.verdict.Going? && Step(st, lim) != st && Step(Append(st, w), lim) == Append(Step(st, lim), w)
    ensures Run(Append(st, w), lim) == Run(Append(Step(st, lim), w), lim)
    ensures Step(st, lim).verdict.Going? ==> Final(Append(st, w), lim) == Final(Append(Step(st, lim), w), lim)
  {
    hide Step;
    var next, more := Step(st, lim), Append(st, w);
    if Append(next, w) == more { SameBefore(next, st, w); }
  }

  lemma SameBefore(a: State, b: State, w: Str)
    requires Append(a, w) == Append(b, w)
    ensures a == b
  {
    assert a.unread == (a.unread + w)[..|a.unread + w| - |w|];
    assert b.unread == (b.unread + w)[..|b.unread + w| - |w|];
  }

  lemma DataStepAppend(st: State, w: Str, lim: Limits)
    requires st.te > 2 && st.verdict.Going? && Step(st, lim) != st
    ensures Run(Append(st, w), lim) == Run(Append(Step(st, lim), w), lim)
    ensures Final(Append(st, w), lim) == Final(Append(Step(st, lim), w), lim)
  {
    hide Header, BlankLineEnd;
    var next, more := Step(st, lim), Append(st, w);
    DeliverAppend(st, w);
    if next.te > 2 && w != [] {
      assert Step(Append(next, w), lim) == Step(more, lim);
    }
  }

  lemma CutWithin(u: Str, w: Str, n: nat)
    requires n <= |u|
    ensures (u + w)[..n] == u[..n] && (u + w)[n..] == u[n..] + w
  {
  }

  lemma CutBeyond(b: Str, u: Str, w: Str, n: nat)
    requires n <= |w|
    ensures b + (u + w)[..|u| + n] == (b + u) + w[..n] && (u + w)[|u| + n..] == w[n..]
  {
    assert (u + w)[..|u| + n] == u + w[..n];
  }

  /** Data may be delivered in two parts. */
  lemma DeliverAppend(st: State, w: Str)
    requires st.te > 2
    ensures var next := Deliver(st);
      Deliver(Append(st, w)) == if next.te > 2 then Deliver(Append(next, w)) else Append(next, w)
  {
    var next := Deliver(st);
    if next.te > 2 {
      assert next.unread == [] && next.body == st.body + st.unread;
      assert next.unread + w == w;
      CutBeyond(st.body, st.unread, w, if |w| < next.te - 2 then |w| else next.te - 2);
    } else {
      CutWithin(st.unread, w, st.te - 2);
    }
  }

  /** Decoding what is there and then the rest is decoding all of it. */
  lemma {:induction false} SplitOnce(st: State, w: Str, lim: Limits)
    requires !Run(st, lim).verdict.Undefined?
    ensures Run(Append(Run(st, lim), w), lim) == Run(Append(st, w), lim)
    ensures Run(st, lim).verdict.Going? ==> Final(Append(Run(st, lim), w), lim) == Final(Append(st, w), lim)
    decreases Measure(st)
  {
    hide Step, Append, Measure;
    if st.verdict.Going? && Step(st, lim) != st {
      StepShrinks(st, lim);
      StepAppend(st, w, lim);
      SplitOnce(Step(st, lim), w, lim);
    }
  }

  lemma {:induction false} RunSettles(st: State, lim: Limits)
    ensures Run(Run(st, lim), lim) == Run(st, lim)
    decreases Measure(st)
  {
    hide Step, Measure;
    if st.verdict.Going? && Step(st, lim) != st {
      StepShrinks(st, lim);
      RunSettles(Step(st, lim), lim);
    }
  }

  // When splitting is harmless: the trailers are never mistaken for too long.

  /** The end of the trailers has come, and the last size line, the trailers and the blank line
      after them do not fit into max_request_field_size. */
  predicate LongEnd(st: State, lim: Limits) {
    Run(st, lim).verdict.Done? && Final(st, lim) > lim.maxField
  }

  /** Where fewer bytes are undefined, more of them are, with just as much consumed, or they have
      a long end. */
  lemma {:induction false} UndefinedEarly(st: State, w: Str, lim: Limits)
    requires Run(st, lim).verdict.Undefined?
    ensures Run(Append(st, w), lim) == Append(Run(st, lim), w) || LongEnd(Append(st, w), lim)
    decreases Measure(st)
  {
    hide Step, Append, Measure;
    if st.verdict.Going? {
      StepShrinks(st, lim);
      if Step(st, lim).verdict.Going? {
        StepAppend(st, w, lim);
        UndefinedEarly(Step(st, lim), w, lim);
      } else {
        UndefinedStep(st, w, lim);
      }
    } else {
      Stopped(st, w, lim);
    }
  }

  lemma Stopped(st: State, w: Str, lim: Limits)
    requires !st.verdict.Going?
    ensures Run(st, lim) == st && Run(Append(st, w), lim) == Append(st, w)
  {
  }

  lemma UndefinedStep(st: State, w: Str, lim: Limits)
    requires st.verdict.Going? && Step(st, lim).verdict.Undefined?
    ensures Run(st, lim) == Step(st, lim)
    ensures Run(Append(st, w), lim) == Append(Step(st, lim), w) || LongEnd(Append(st, w), lim)
  {
    hide Header, BlankLineEnd;
    var more := Append(st, w);
    HeaderAppend(st.unread, w);
    var length := Header(st.unread).length;
    assert more.unread[length..] == st.unread[length..] + w;
    assert more.unread[length - 2..] == st.unread[length - 2..] + w;
    BlankLineEndAppend(st.unread[length - 2..], w);
  }

  /** A run that has stopped takes in bytes and does nothing with them. */
  lemma {:induction false} StoppedAll(st: State, inputs: seq<Str>, lim: Limits)
    requires !st.verdict.Going?
    ensures RunAll(st, inputs, lim) == Append(st, Flat(inputs))
    decreases |inputs|
  {
    if inputs == [] {
      assert st.unread + [] == st.unread;
    } else {
      StoppedAll(Append(st, inputs[0]), inputs[1..], lim);
      assert (st.unread + inputs[0]) + Flat(inputs[1..]) == st.unread + Flat(inputs);
    }
  }

  /** Any division of the same bytes into reads gives the same body, the same bytes left over and
      the same verdict, unless these bytes have a long end. */
  lemma {:induction false} SplitInvariance(st: State, inputs: seq<Str>, lim: Limits)
    requires Run(st, lim) == st && !LongEnd(Append(st, Flat(inputs)), lim)
    ensures RunAll(st, inputs, lim) == Run(Append(st, Flat(inputs)), lim)
    decreases |inputs|
  {
    hide Step, Run, Final;
    if inputs == [] {
      assert Append(st, []) == st;
    } else {
      var first, rest := Append(st, inputs[0]), Flat(inputs[1..]);
      var next := Run(first, lim);
      assert Append(first, rest) == Append(st, Flat(inputs)) by {
        assert (st.unread + inputs[0]) + rest == st.unread + Flat(inputs);
      }
      if next.verdict.Undefined? {
        UndefinedEarly(first, rest, lim);
        StoppedAll(next, inputs[1..], lim);
      } else {
        RunSettles(first, lim);
        SplitOnce(first, rest, lim);
        NoLongEnd(next, rest, lim);
        SplitInvariance(next, inputs[1..], lim);
      }
    }
  }

  lemma NoLongEnd(st: State, w: Str, lim: Limits)
    ensures !st.verdict.Going? ==> !LongEnd(Append(st, w), lim)
  {
  }

  lemma {:induction false} RunShrinks(st: State, lim: Limits)
    ensures |Run(st, lim).unread| <= |st.unread|
    ensures st.verdict.Going? && Run(st, lim).verdict.Done? ==> |Run(st, lim).unread| < |st.unread|
    decreases Measure(st)
  {
    hide Step, Measure;
    if st.verdict.Going? && Step(st, lim) != st {
      StepShrinks(st, lim);
      RunShrinks(Step(st, lim), lim);
    }
  }

  /** If the last byte of a long last section is missing, the run is undefined. */
  lemma {:induction false} CutShort(st: State, lim: Limits)
    requires st.verdict.Going? && Run(st, lim).verdict.Done? && Final(st, lim) > lim.maxField
    ensures |Run(st, lim).unread| < |st.unread|
    ensures Run(st.(unread := st.unread[..|st.unread| - |Run(st, lim).unread| - 1]), lim).verdict.Undefined?
    decreases Measure(st)
  {
    hide Measure, Header, BlankLineEnd;
    RunShrinks(st, lim);
    var next := Step(st, lim);
    var k := |st.unread| - |Run(st, lim).unread| - 1;
    var short := st.(unread := st.unread[..k]);
    assert st == Append(short, st.unread[k..]);
    if next.verdict.Done? {
      CutFinish(st, k, lim);
    } else {
      StepShrinks(st, lim);
      RunShrinks(next, lim);
      CutShort(next, lim);
      CutStep(st, k, lim);
    }
  }

  lemma CutFinish(st: State, k: nat, lim: Limits)
    requires st.verdict.Going? && Step(st, lim).verdict.Done? && k == |st.unread| - |Step(st, lim).unread| - 1 >= lim.maxField
    ensures Run(st.(unread := st.unread[..k]), lim).verdict.Undefined?
  {
    hide Header, BlankLineEnd;
    var u, w := st.unread[..k], st.unread[k..];
    assert st.unread == u + w;
    var length := Header(st.unread).length;
    HeaderPrefix(u, w);
    assert st.unread[length - 2..] == u[length - 2..] + w;
    BlankLineEndAppend(u[length - 2..], w);
  }

  /** A step that leaves bytes alone does not miss them. */
  lemma CutStep(st: State, k: nat, lim: Limits)
    requires st.verdict.Going? && Step(st, lim).verdict.Going? && Step(st, lim) != st
    requires |st.unread| - |Step(st, lim).unread| <= k < |st.unread|
    ensures var used := |st.unread| - |Step(st, lim).unread|; var next := Step(st, lim);
      Run(st.(unread := st.unread[..k]), lim) == Run(next.(unread := next.unread[..k - used]), lim)
  {
    hide Header, BlankLineEnd;
    var next := Step(st, lim);
    var used := |st.unread| - |next.unread|;
    var u, w := st.unread[..k], st.unread[k..];
    var short := st.(unread := u);
    assert st.unread == u + w;
    assert next.unread[..k - used] == u[used..];
    if st.te == 0 {
      HeaderPrefix(u, w);
    } else {
      assert u[..used] == st.unread[..used];
    }
    assert Step(short, lim) == next.(unread := u[used..]);
  }

  /** Every division of w into reads gives what one read gives, whatever that is, if and only if
      w has no long end: no last size line that with its trailers and blank line exceeds
      max_request_field_size. */
  lemma SplitsAgreeIff(st: State, w: Str, lim: Limits)
    requires st.verdict.Going? && st.unread == []
    ensures (forall inputs :: Flat(inputs) == w ==> RunAll(st, inputs, lim) == Run(Append(st, w), lim))
      <==> !LongEnd(Append(st, w), lim)
  {
    hide Run, Final, RunAll, Step;
    var one := Append(st, w);
    NothingToRead(st, lim);
    if !LongEnd(one, lim) {
      forall inputs | Flat(inputs) == w
        ensures RunAll(st, inputs, lim) == Run(one, lim)
      {
        SplitInvariance(st, inputs, lim);
      }
    } else {
      CutShort(one, lim);
      assert one.unread == w;
      var k := |w| - |Run(one, lim).unread| - 1;
      var inputs := [w[..k], w[k..]];
      assert Append(st, w[..k]) == one.(unread := w[..k]);
      FlatCons(w[..k], [w[k..]]);
      FlatOne(w[k..]);
      assert inputs == [w[..k]] + [w[k..]];
      assert Flat(inputs) == w;
      UndefinedTwice(st, inputs, lim);
      assert RunAll(st, inputs, lim) != Run(one, lim);
    }
  }

  lemma UndefinedTwice(st: State, inputs: seq<Str>, lim: Limits)
    requires inputs != [] && Run(Append(st, inputs[0]), lim).verdict.Undefined?
    ensures RunAll(st, inputs, lim).verdict.Undefined?
  {
    StoppedAll(Run(Append(st, inputs[0]), lim), inputs[1..], lim);
  }

  lemma NothingToRead(st: State, lim: Limits)
    requires st.unread == []
    ensures Run(st, lim) == st
  {
    if st.te > 2 {
      assert st.body + st.unread[..0] == st.body;
    }
  }

  // The limit on the size of a request.

  /** What is delivered, with what the chunk being read will still add, is within the limit. */
  predicate Within(st: State, lim: Limits) {
    lim.maxRequest != 0 ==> |st.body| + (if st.te > 2 then st.te - 2 else 0) <= lim.maxRequest
  }

  /** However the bytes arrive, no more than max_request_size is delivered. */
  lemma {:induction false} RunWithin(st: State, lim: Limits)
    requires Within(st, lim)
    ensures Within(Run(st, lim), lim)
    decreases Measure(st)
  {
    hide Header, Measure, BlankLineEnd;
    if st.verdict.Going? && Step(st, lim) != st {
      StepShrinks(st, lim);
      RunWithin(Step(st, lim), lim);
    }
  }

  lemma {:induction false} RunAllWithin(st: State, inputs: seq<Str>, lim: Limits)
    requires Within(st, lim)
    ensures Within(RunAll(st, inputs, lim), lim)
    decreases |inputs|
  {
    if inputs != [] {
      RunWithin(Append(st, inputs[0]), lim);
      RunAllWithin(Run(Append(st, inputs[0]), lim), inputs[1..], lim);
    }
  }
}
