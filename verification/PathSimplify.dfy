/** buffer_path_simplify (src/buffer.c): one pass over the characters of a path, in place if the
    two buffers are one, that does what a stack of path segments would. */
module PathSimplify {
  import opened Bytes

  const SLASH: byte := 47
  const DOT: byte := 46
  const SPACE: byte := 32
  const DOTDOT: Str := [46, 46]

  /** The segments of a path between its slashes. */
  function Split(s: Str): (r: seq<Str>)
    ensures r != []
  {
    if s == [] then [[]]
    else if s[0] == SLASH then [[]] + Split(s[1..])
    else
      var r := Split(s[1..]);
      [[s[0]] + r[0]] + r[1..]
  }

  predicate Dots(t: Str) {
    t == [] || t == [DOT] || t == DOTDOT
  }

  /** One more segment: ".." takes the last one away, "." and "" nothing. */
  function Push(stack: seq<Str>, t: Str): seq<Str> {
    if t == DOTDOT then (if stack == [] then [] else stack[..|stack| - 1])
    else if Dots(t) then stack
    else stack + [t]
  }

  /** All segments; after dots at the end the path still ends with a slash. */
  function Resolve(stack: seq<Str>, segments: seq<Str>): seq<Str>
    decreases |segments|
  {
    if segments == [] then stack
    else if |segments| == 1 then Push(stack, segments[0]) + if Dots(segments[0]) then [[]] else []
    else Resolve(Push(stack, segments[0]), segments[1..])
  }

  /** A slash before each segment. */
  function Spell(stack: seq<Str>): Str {
    if stack == [] then [] else [SLASH] + stack[0] + Spell(stack[1..])
  }

  function SkipSpaces(s: Str): Str {
    if s != [] && s[0] == SPACE then SkipSpaces(s[1..]) else s
  }

  /** The simplified path: leading blanks dropped, a slash put in front if there is none. */
  function Simplified(s: Str): Str {
    var w := SkipSpaces(s);
    Spell(Resolve([], Split(if w != [] && w[0] == SLASH then w[1..] else w)))
  }

  // The stack of segments.

  /** A segment that stays. */
  predicate Plain(t: Str) {
    SLASH !in t && !Dots(t)
  }

  predicate AllPlain(stack: seq<Str>) {
    forall t :: t in stack ==> Plain(t)
  }

  /** A simplified path: no segment is empty, "." or "..", but the last may be empty. */
  predicate Simple(stack: seq<Str>) {
    stack != [] && AllPlain(stack[..|stack| - 1]) && (Plain(stack[|stack| - 1]) || stack[|stack| - 1] == [])
  }

  lemma PushPlain(stack: seq<Str>, t: Str)
    requires AllPlain(stack) && SLASH !in t
    ensures AllPlain(Push(stack, t))
  {
  }

  lemma {:induction false} SplitPlain(s: Str)
    ensures forall t :: t in Split(s) ==> SLASH !in t
  {
    if s != [] {
      SplitPlain(s[1..]);
      if s[0] != SLASH {
        assert Split(s[1..])[0] in Split(s[1..]);
      }
    }
  }

  lemma {:induction false} ResolveSimple(stack: seq<Str>, segments: seq<Str>)
    requires AllPlain(stack) && segments != [] && forall t :: t in segments ==> SLASH !in t
    ensures Simple(Resolve(stack, segments))
    decreases |segments|
  {
    PushPlain(stack, segments[0]);
    if |segments| > 1 {
      ResolveSimple(Push(stack, segments[0]), segments[1..]);
    } else if Dots(segments[0]) {
      var r := Push(stack, segments[0]) + [[]];
      assert r[..|r| - 1] == Push(stack, segments[0]);
    } else {
      var r := stack + [segments[0]];
      assert r + [] == r && r[..|r| - 1] == stack;
    }
  }

  lemma {:induction false} SplitOne(t: Str)
    requires SLASH !in t
    ensures Split(t) == [t]
  {
    if t != [] {
      assert t[0] in t;
      SplitOne(t[1..]);
      assert [t[0]] + t[1..] == t;
    }
  }

  lemma {:induction false} SplitAt(t: Str, more: Str)
    requires SLASH !in t
    ensures Split(t + [SLASH] + more) == [t] + Split(more)
  {
    var s := t + [SLASH] + more;
    if t == [] {
      assert s[1..] == more;
    } else {
      assert t[0] in t;
      assert s[1..] == t[1..] + [SLASH] + more;
      SplitAt(t[1..], more);
      assert [t[0]] + t[1..] == t && ([t[1..]] + Split(more))[1..] == Split(more);
    }
  }

  lemma {:induction false} SpellSnoc(stack: seq<Str>, t: Str)
    ensures Spell(stack + [t]) == Spell(stack) + [SLASH] + t
  {
    if stack == [] {
      assert stack + [t] == [t] && [t][1..] == [];
    } else {
      assert (stack + [t])[1..] == stack[1..] + [t];
      SpellSnoc(stack[1..], t);
    }
  }

  /** Splitting undoes spelling. */
  lemma {:induction false} SplitSpell(stack: seq<Str>)
    requires stack != [] && forall t :: t in stack ==> SLASH !in t
    ensures Spell(stack) != [] && Spell(stack)[0] == SLASH && Split(Spell(stack)[1..]) == stack
  {
    var rest := Spell(stack)[1..];
    if |stack| == 1 {
      assert stack[1..] == [];
      assert Spell(stack) == [SLASH] + stack[0] + [];
      assert rest == stack[0];
      SplitOne(stack[0]);
    } else {
      SplitSpell(stack[1..]);
      var more := Spell(stack[1..]);
      assert rest == stack[0] + [SLASH] + more[1..];
      SplitAt(stack[0], more[1..]);
    }
  }

  lemma {:induction false} ResolveFixed(stack: seq<Str>, rest: seq<Str>)
    requires Simple(rest)
    ensures Resolve(stack, rest) == stack + rest
    decreases |rest|
  {
    if |rest| > 1 {
      assert rest[0] in rest[..|rest| - 1];
      assert rest[1..][..|rest| - 2] == rest[..|rest| - 1][1..];
      ResolveFixed(stack + [rest[0]], rest[1..]);
      assert stack + [rest[0]] + rest[1..] == stack + rest;
    } else {
      assert rest == [rest[0]];
    }
  }

  /** The result starts with a slash and has no empty, "." or ".." segment except that it may end
      with a slash; simplifying it again changes nothing. */
  lemma SimplifiedIsSimple(s: Str)
    ensures var r := Simplified(s);
      && r != [] && r[0] == SLASH && Simple(Split(r[1..]))
      && Simplified(r) == r
  {
    var w := SkipSpaces(s);
    var segments := Split(if w != [] && w[0] == SLASH then w[1..] else w);
    SplitPlain(if w != [] && w[0] == SLASH then w[1..] else w);
    ResolveSimple([], segments);
    var stack := Resolve([], segments);
    assert forall t :: t in stack ==> SLASH !in t by {
      forall t | t in stack
        ensures SLASH !in t
      {
        assert stack == stack[..|stack| - 1] + [stack[|stack| - 1]];
      }
    }
    SplitSpell(stack);
    ResolveFixed([], stack);
    assert [] + stack == stack;
    assert SkipSpaces(Spell(stack)) == Spell(stack);
  }

  // One pass.

  /** What the path will be, when these segments stand and the rest is still to be read. */
  function Pending(stack: seq<Str>, rest: Str): Str
    requires rest != []
  {
    Spell(Resolve(stack, Split(rest[1..])))
  }

  /** A segment ends at a slash. */
  lemma EndSegment(stack: seq<Str>, token: Str, more: Str)
    requires token != [] && token[0] == SLASH && SLASH !in token[1..]
    ensures Pending(stack, token + [SLASH] + more) == Pending(Push(stack, token[1..]), [SLASH] + more)
  {
    assert (token + [SLASH] + more)[1..] == token[1..] + [SLASH] + more;
    assert ([SLASH] + more)[1..] == more;
    SplitAt(token[1..], more);
    assert ([token[1..]] + Split(more))[1..] == Split(more);
  }

  /** The last segment ends with the path. */
  lemma EndPath(stack: seq<Str>, token: Str)
    requires token != [] && token[0] == SLASH && SLASH !in token[1..]
    ensures Pending(stack, token)
      == Spell(Push(stack, token[1..])) + if Dots(token[1..]) then [SLASH] else []
  {
    SplitOne(token[1..]);
    var next := Push(stack, token[1..]);
    if Dots(token[1..]) {
      SpellSnoc(next, []);
      assert Spell(next) + [SLASH] + [] == Spell(next) + [SLASH];
    } else {
      assert next + [] == next;
    }
  }

  /** Where the last segment starts. */
  lemma LastSlash(stack: seq<Str>)
    requires stack != [] && AllPlain(stack)
    ensures var s, k := Spell(stack), |Spell(stack[..|stack| - 1])|;
      && k + 1 < |s| && s[..k] == Spell(stack[..|stack| - 1]) && s[k] == SLASH
      && forall i :: k < i < |s| ==> s[i] != SLASH
  {
    var front, last := stack[..|stack| - 1], stack[|stack| - 1];
    assert stack == front + [last];
    SpellSnoc(front, last);
    assert last in stack && Plain(last);
    var s, k := Spell(stack), |Spell(front)|;
    forall i | k < i < |s|
      ensures s[i] != SLASH
    {
      assert s[i] == last[i - k - 1];
    }
  }

  /** The tests on the last two characters tell which segment a token is. */
  lemma TokenKind(token: Str, pre2: byte, pre1: byte)
    requires token != [] && token[0] == SLASH && SLASH !in token[1..]
    requires pre1 == token[|token| - 1] && (|token| >= 2 ==> pre2 == token[|token| - 2])
    ensures |token| == 3 && pre2 == DOT && pre1 == DOT <==> token[1..] == DOTDOT
    ensures |token| == 1 || (pre2 == SLASH && pre1 == DOT) <==> token[1..] == [] || token[1..] == [DOT]
  {
    if |token| >= 3 {
      assert token[|token| - 2] == token[1..][|token| - 3];
    }
    if |token| == 2 {
      assert token[1..] == [token[1]];
    }
    if |token| == 3 {
      assert token[1..] == [token[1], token[2]];
    }
  }

  /** The end of a token: back to its slash for "." and "", and before the last segment for "..".
      At the end of the path the slash stays. */
  method EndToken(d: array<byte>, slash: nat, end: nat, c: byte, pre2: byte, pre1: byte, ghost stack: seq<Str>)
    returns (out: nat, ghost next: seq<Str>)
    requires slash < end <= d.Length && AllPlain(stack) && d[..slash] == Spell(stack)
    requires d[slash] == SLASH && SLASH !in d[slash + 1..end]
    requires pre1 == d[end - 1] && (end - slash >= 2 ==> pre2 == d[end - 2])
    ensures next == Push(stack, d[slash + 1..end]) && AllPlain(next) && out <= end
    ensures c != 0 ==> d[..out] == Spell(next)
    ensures c == 0 ==> d[..out] == Pending(stack, d[slash..end])
  {
    hide Split, Resolve, Spell, Pending;
    ghost var token := d[slash..end];
    assert token[1..] == d[slash + 1..end];
    TokenKind(token, pre2, pre1);
    EndPath(stack, token);
    next := Push(stack, token[1..]);
    PushPlain(stack, token[1..]);
    SpellEmpty();
    out := end;
    if end - slash == 3 && pre2 == DOT && pre1 == DOT {
      out := slash;
      if out > 0 {
        LastSlash(stack);
        ghost var k := |Spell(next)|;
        assert d[..slash][k] == d[k];
        assert d[..k] == d[..slash][..k];
        assert forall i :: k < i < slash ==> d[..slash][i] == d[i];
        out := out - 1;
        while out > 0 && d[out] != SLASH
          invariant k <= out < slash && d[k] == SLASH
        {
          out := out - 1;
        }
      }
      if c == 0 { out := out + 1; }
      assert c == 0 ==> d[..out] == d[..out - 1] + [SLASH];
    } else if end - slash == 1 || (pre2 == SLASH && pre1 == DOT) {
      out := slash;
      if c == 0 { out := out + 1; }
      assert c == 0 ==> d[..out] == d[..out - 1] + [SLASH];
    } else {
      SpellSnoc(stack, token[1..]);
      assert d[..out] == d[..slash] + [SLASH] + token[1..];
      assert Spell(next) + [] == Spell(next);
    }
  }

  lemma SpellEmpty()
    ensures Spell([]) == [] && forall stack :: Spell(stack) == [] ==> stack == []
  {
  }

  predicate IsString(a: seq<byte>, s: Str) {
    |s| + 2 <= |a| && a[..|s|] == s && a[|s|] == 0 && 0 !in s
  }

  /** How far the pass is: the segments up to `slash` are done, a token lies between `slash` and
      `out`, and c and what follows it are still to come. */
  ghost predicate Reading(s: Str, d: seq<byte>, walk: nat, out: nat, slash: nat, c: byte, pre1: byte, stack: seq<Str>) {
    && slash <= out <= walk <= |s| + 1 && out <= |d| && 0 < walk && c == (s + [0])[walk - 1]
    && if c == 0 then d[..out] == Simplified(s)
       else
         && AllPlain(stack) && d[..slash] == Spell(stack)
         && (c == SLASH <==> slash == out)
         && (slash < out ==> d[slash] == SLASH && SLASH !in d[slash + 1..out] && pre1 == d[out - 1])
         && Simplified(s) == Pending(stack, d[slash..out] + [c] + s[walk..])
  }

  lemma StartReading(s: Str, walk: nat, w: Str, d: seq<byte>, c: byte)
    requires walk <= |s| && w == s[walk..] == SkipSpaces(s) && 0 !in s && c == (s + [0])[walk]
    requires c != SLASH ==> d != [] && d[0] == SLASH
    ensures Reading(s, d, walk + 1, if c == SLASH then 0 else 1, 0, c, if c == SLASH then 0 else SLASH, [])
  {
    hide Split, Resolve, Spell, SkipSpaces;
    SpellEmpty();
    if c == SLASH {
      assert d[..0] + [c] + s[walk + 1..] == w;
    } else if walk < |s| {
      assert s[walk] in s;
      assert d[0..1] == [SLASH];
      assert ([SLASH] + [c] + s[walk + 1..])[1..] == w;
    } else {
      assert w == [] && d[..1] == [SLASH];
      OnlySlash();
    }
  }

  lemma OnlySlash()
    ensures Spell(Resolve([], Split([]))) == [SLASH]
  {
    assert Split([]) == [[]];
    SpellSnoc([], []);
    assert Resolve([], [[]]) == [[]];
    assert [SLASH] + [] == [SLASH];
  }

  lemma NulAtEnd(s: Str, k: nat)
    requires 0 !in s && k <= |s|
    ensures (s + [0])[k] == 0 <==> k == |s|
  {
    if k < |s| {
      assert s[k] in s;
    }
  }

  /** The write position never passes the read position: in place, nothing unread is lost. */
  lemma NothingLost(s: Str, d: seq<byte>, walk: nat, out: nat, slash: nat, c: byte, pre1: byte, stack: seq<Str>)
    requires Reading(s, d, walk, out, slash, c, pre1, stack) && 0 !in s
    ensures slash <= out <= walk <= |s| + 1 && out <= |d| && (c != 0 ==> walk <= |s|)
    ensures c == 0 ==> d[..out] == Simplified(s)
  {
    hide Simplified, Pending, Spell;
    NulAtEnd(s, walk - 1);
  }

  /** One character goes to the token. */
  lemma ReadOn(s: Str, d: seq<byte>, later: seq<byte>, walk: nat, out: nat, slash: nat, pre1: byte, pre2: byte, c: byte, stack: seq<Str>)
    requires 0 < out <= |d| && pre1 != 0 && walk <= |s| && c == (s + [0])[walk] && 0 !in s
    requires Reading(s, d, walk, out - 1, slash, pre1, pre2, stack) && later == d[out - 1 := pre1]
    ensures slash < out && AllPlain(stack) && later[..slash] == Spell(stack)
    ensures later[slash] == SLASH && SLASH !in later[slash + 1..out]
    ensures pre1 == later[out - 1] && (out - slash >= 2 ==> pre2 == later[out - 2])
    ensures Simplified(s) == Pending(stack, later[slash..out] + s[walk..])
    ensures c != SLASH && c != 0 ==> Reading(s, later, walk + 1, out, slash, c, pre1, stack)
  {
    hide Pending, Simplified, Spell;
    assert later[..slash] == d[..slash];
    assert later[slash..out] == d[slash..out - 1] + [pre1];
    assert later[slash..out] + s[walk..] == d[slash..out - 1] + [pre1] + s[walk..];
    if slash < out - 1 {
      assert later[slash + 1..out] == d[slash + 1..out - 1] + [pre1];
    }
    if c != SLASH && c != 0 {
      assert walk < |s| && s[walk..] == [c] + s[walk + 1..];
      assert later[slash..out] + s[walk..] == later[slash..out] + [c] + s[walk + 1..];
    }
  }

  lemma TokenEnds(s: Str, d: seq<byte>, walk: nat, end: nat, out: nat, slash: nat, c: byte, pre1: byte, was: seq<Str>, stack: seq<Str>)
    requires 0 < walk <= |s| + 1 && out <= end <= walk && end <= |d| && slash < end && 0 !in s
    requires c == (s + [0])[walk - 1] && (c == SLASH || c == 0)
    requires d[slash] == SLASH && SLASH !in d[slash + 1..end]
    requires Simplified(s) == Pending(was, d[slash..end] + s[walk - 1..])
    requires stack == Push(was, d[slash + 1..end]) && AllPlain(stack)
    requires if c == 0 then d[..out] == Pending(was, d[slash..end]) else d[..out] == Spell(stack)
    ensures Reading(s, d, walk, out, out, c, pre1, stack)
  {
    hide Pending, Simplified, Spell, Push;
    var token := d[slash..end];
    assert token[1..] == d[slash + 1..end];
    if c == 0 {
      NulAtEnd(s, walk - 1);
      assert token + s[walk - 1..] == token;
    } else {
      assert s[walk - 1..] == [SLASH] + s[walk..];
      assert token + s[walk - 1..] == token + [SLASH] + s[walk..];
      EndSegment(was, token, s[walk..]);
      assert d[out..out] + [SLASH] + s[walk..] == [SLASH] + s[walk..];
    }
  }

  /** Leading blanks. */
  method SkipBlanks(src: array<byte>, ghost s: Str) returns (walk: nat)
    requires IsString(src[..], s)
    ensures walk <= |s| && s[walk..] == SkipSpaces(s)
  {
    walk := 0;
    assert s[0..] == s;
    assert src[..][|s|] == 0 && forall i :: 0 <= i < |s| ==> src[..][i] == s[i];
    while src[walk] == SPACE
      invariant walk <= |s| && SkipSpaces(s) == SkipSpaces(s[walk..])
      decreases |s| - walk
    {
      assert s[walk..][1..] == s[walk + 1..];
      walk := walk + 1;
    }
  }

  /** What is unread is as it was. */
  ghost predicate Unread(a: seq<byte>, s: Str, walk: nat) {
    |s| < |a| && forall i :: walk <= i <= |s| ==> a[i] == (s + [0])[i]
  }

  lemma StartUnread(a: seq<byte>, s: Str)
    requires IsString(a, s)
    ensures Unread(a, s, 0)
  {
    forall i | 0 <= i <= |s|
      ensures a[i] == (s + [0])[i]
    {
      if i < |s| { assert a[..|s|][i] == s[i]; }
    }
  }

  /** buffer_path_simplify on the string s in src, for dest == src too. */
  method Simplify(dest: array<byte>, src: array<byte>, srcLength: nat, ghost s: Str) returns (length: nat)
    requires IsString(src[..], s) && |s| == srcLength && srcLength + 2 <= dest.Length
    modifies dest
    ensures length < dest.Length && dest[length] == 0
    ensures dest[..length] == if s == [] then [] else Simplified(s)
    ensures src != dest ==> src[..] == old(src[..])
  {
    hide Split, Resolve, Spell, Push, Pending, Simplified, Reading, AllPlain, IsString, SkipSpaces;
    NoNulIn(src[..], s);
    if srcLength == 0 {
      dest[0] := 0;
      return 0;
    }
    StartUnread(src[..], s);
    var walk := SkipBlanks(src, s);
    var out: nat, slash: nat := 0, 0;
    var pre1: byte := 0;
    var c := src[walk];
    walk := walk + 1;
    if c != SLASH {
      pre1 := SLASH;
      dest[out] := SLASH;
      out := out + 1;
    }
    StartReading(s, walk - 1, s[walk - 1..], dest[..], c);
    ghost var stack: seq<Str> := [];
    while c != 0
      invariant Reading(s, dest[..], walk, out, slash, c, pre1, stack) && Unread(src[..], s, walk)
      invariant src != dest ==> src[..] == old(src[..])
      decreases |s| + 1 - walk
    {
      NothingLost(s, dest[..], walk, out, slash, c, pre1, stack);
      var pre2 := pre1;
      pre1 := c;
      c := src[walk];
      ghost var before, at := dest[..], walk;
      dest[out] := pre1;
      out := out + 1;
      walk := walk + 1;
      assert dest[..] == before[out - 1 := pre1];
      ReadOn(s, before, dest[..], at, out, slash, pre1, pre2, c, stack);
      if c == SLASH || c == 0 {
        ghost var was := stack;
        var end := out;
        out, stack := EndToken(dest, slash, end, c, pre2, pre1, stack);
        TokenEnds(s, dest[..], walk, end, out, slash, c, pre1, was, stack);
        slash := out;
      }
    }
    NothingLost(s, dest[..], walk, out, slash, c, pre1, stack);
    ghost var done := dest[..out];
    dest[out] := 0;
    assert dest[..out] == done;
    length := out;
  }

  lemma NoNulIn(a: seq<byte>, s: Str)
    requires IsString(a, s)
    ensures 0 !in s && |s| + 2 <= |a|
  {
  }
}
