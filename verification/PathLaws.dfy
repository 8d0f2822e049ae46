/** What simplifying a path means, on the strings themselves. */
module PathLaws {
  import opened Bytes
  import opened PathSimplify

  /** All segments of one list after the other. */
  function Pushed(stack: seq<Str>, segments: seq<Str>): seq<Str>
    decreases |segments|
  {
    if segments == [] then stack else Pushed(Push(stack, segments[0]), segments[1..])
  }

  lemma {:induction false} ResolveAfter(stack: seq<Str>, first: seq<Str>, rest: seq<Str>)
    requires rest != []
    ensures Resolve(stack, first + rest) == Resolve(Pushed(stack, first), rest)
    decreases |first|
  {
    hide Push;
    if first == [] {
      assert first + rest == rest;
    } else {
      assert (first + rest)[1..] == first[1..] + rest;
      ResolveAfter(Push(stack, first[0]), first[1..], rest);
    }
  }

  lemma SplitStep(c: byte, s: Str)
    ensures Split([c] + s) == if c == SLASH then [[]] + Split(s) else [[c] + Split(s)[0]] + Split(s)[1..]
  {
    assert ([c] + s)[1..] == s;
  }

  lemma SplitNothing()
    ensures Split([]) == [[]]
  {
  }

  lemma {:induction false} SplitConcat(a: Str, b: Str)
    ensures Split(a + [SLASH] + b) == Split(a) + Split(b)
  {
    hide Split;
    if a == [] {
      assert a + [SLASH] + b == [SLASH] + b;
      SplitStep(SLASH, b);
      SplitNothing();
    } else {
      var c, rest := a[0], a[1..];
      assert a == [c] + rest && a + [SLASH] + b == [c] + (rest + [SLASH] + b);
      SplitStep(c, rest);
      SplitStep(c, rest + [SLASH] + b);
      SplitConcat(rest, b);
      ConcatFirst(c, Split(rest), Split(b));
    }
  }

  lemma ConcatFirst(c: byte, r: seq<Str>, more: seq<Str>)
    requires r != []
    ensures [[]] + (r + more) == [[]] + r + more
    ensures [[c] + (r + more)[0]] + (r + more)[1..] == [[c] + r[0]] + r[1..] + more
  {
    assert (r + more)[1..] == r[1..] + more;
  }

  /** The text of a path behind its leading blanks and slash. */
  function Inner(s: Str): Str {
    var w := SkipSpaces(s);
    if w != [] && w[0] == SLASH then w[1..] else w
  }

  lemma {:induction false} SkipSpacesBefore(a: Str, b: Str)
    requires b != [] && b[0] == SLASH
    ensures SkipSpaces(a + b) == SkipSpaces(a) + b
  {
    if a == [] {
      assert a + b == b;
    } else {
      assert (a + b)[1..] == a[1..] + b;
      if a[0] == SPACE { SkipSpacesBefore(a[1..], b); }
    }
  }

  /** A path that has a slash is split there; what is in front of it is a stack of segments. */
  lemma Halves(p: Str) returns (stack: seq<Str>)
    ensures forall q :: Simplified(p + [SLASH] + q) == Spell(Resolve(stack, Split(q)))
  {
    var w := SkipSpaces(p);
    stack := if w == [] then [] else Pushed([], Split(Inner(p)));
    forall q
      ensures Simplified(p + [SLASH] + q) == Spell(Resolve(stack, Split(q)))
    {
      var s := p + [SLASH] + q;
      assert s == p + ([SLASH] + q);
      SkipSpacesBefore(p, [SLASH] + q);
      if w == [] {
        assert SkipSpaces(s) == [SLASH] + q && ([SLASH] + q)[1..] == q;
      } else {
        assert SkipSpaces(s) == w + ([SLASH] + q);
        assert Inner(s) == Inner(p) + [SLASH] + q;
        SplitConcat(Inner(p), q);
        ResolveAfter([], Split(Inner(p)), Split(q));
      }
    }
  }

  /** Segments in front of a path. */
  lemma SplitFront(t: Str, q: Str)
    requires SLASH !in t
    ensures Split(t + [SLASH] + q) == [t] + Split(q)
  {
    SplitConcat(t, q);
    SplitOne(t);
  }

  lemma ResolveFront(stack: seq<Str>, t: Str, rest: seq<Str>)
    requires rest != []
    ensures Resolve(stack, [t] + rest) == Resolve(Push(stack, t), rest)
  {
    hide Push;
    assert ([t] + rest)[1..] == rest;
  }

  /** ".." takes the segment before it away. */
  lemma UpGoesBack(p: Str, t: Str, q: Str)
    requires t != [] && t != [DOT] && t != [DOT, DOT] && SLASH !in t
    ensures Simplified(p + [SLASH] + t + [SLASH, DOT, DOT, SLASH] + q) == Simplified(p + [SLASH] + q)
  {
    hide Simplified, Spell, Split, Resolve, Push, Dots;
    var stack := Halves(p);
    var rest := DOTDOT + [SLASH] + q;
    Regroup(p, t, q);
    SplitFront(t, rest);
    SplitFront(DOTDOT, q);
    ResolveFront(stack, t, Split(rest));
    ResolveFront(Push(stack, t), DOTDOT, Split(q));
    PushedAndGone(stack, t);
  }

  lemma PushedAndGone(stack: seq<Str>, t: Str)
    requires t != [] && t != [DOT] && t != [DOT, DOT]
    ensures Push(Push(stack, t), DOTDOT) == stack
  {
  }

  lemma Regroup(p: Str, t: Str, q: Str)
    ensures p + [SLASH] + t + [SLASH, DOT, DOT, SLASH] + q == p + [SLASH] + (t + [SLASH] + (DOTDOT + [SLASH] + q))
  {
    assert [SLASH, DOT, DOT, SLASH] + q == [SLASH] + (DOTDOT + [SLASH] + q);
  }

  /** At the start there is nothing to take away. */
  lemma UpStaysAtRoot(q: Str)
    ensures Simplified([SLASH, DOT, DOT, SLASH] + q) == Simplified([SLASH] + q)
  {
    assert [SLASH, DOT, DOT, SLASH] + q == [SLASH] + (DOTDOT + [SLASH] + q);
    SplitFront(DOTDOT, q);
    ResolveFront([], DOTDOT, Split(q));
    assert ([SLASH] + q)[1..] == q && ([SLASH] + (DOTDOT + [SLASH] + q))[1..] == DOTDOT + [SLASH] + q;
  }

  /** "." and "" count for nothing. */
  lemma DotIsNothing(p: Str, q: Str)
    ensures Simplified(p + [SLASH, DOT, SLASH] + q) == Simplified(p + [SLASH] + q)
    ensures Simplified(p + [SLASH, SLASH] + q) == Simplified(p + [SLASH] + q)
  {
    hide Simplified, Spell, Split, Resolve;
    var stack := Halves(p);
    var none: Str := [];
    assert p + [SLASH, DOT, SLASH] + q == p + [SLASH] + ([DOT] + [SLASH] + q);
    SplitFront([DOT], q);
    ResolveFront(stack, [DOT], Split(q));
    assert p + [SLASH, SLASH] + q == p + [SLASH] + (none + [SLASH] + q);
    SplitFront(none, q);
    ResolveFront(stack, none, Split(q));
  }

  /** At the end they leave the slash. */
  lemma DotsAtEnd(p: Str)
    ensures Simplified(p + [SLASH, DOT, DOT]) == Simplified(p + [SLASH, DOT, DOT, SLASH])
    ensures Simplified(p + [SLASH, DOT]) == Simplified(p + [SLASH])
  {
    hide Simplified, Spell;
    var stack := Halves(p);
    assert p + [SLASH, DOT, DOT] == p + [SLASH] + DOTDOT;
    assert p + [SLASH, DOT, DOT, SLASH] == p + [SLASH] + (DOTDOT + [SLASH] + []);
    SplitOne(DOTDOT);
    SplitFront(DOTDOT, []);
    ResolveFront(stack, DOTDOT, [[]]);
    assert p + [SLASH, DOT] == p + [SLASH] + [DOT] && p + [SLASH] == p + [SLASH] + [];
    SplitOne([DOT]);
  }

  /** No segment is "." or "..", and none but the last is "". */
  predicate NoDots(ts: seq<Str>) {
    forall i :: 0 <= i < |ts| ==> ts[i] != [DOT] && ts[i] != [DOT, DOT] && (i < |ts| - 1 ==> ts[i] != [])
  }

  /** A path stays as it is if none of its segments is ".", ".." or "", but the last may be "". */
  lemma PlainStays(s: Str)
    requires s != [] && s[0] == SLASH
    requires NoDots(Split(s[1..]))
    ensures Simplified(s) == s
  {
    SplitPlain(s[1..]);
    PlainIsSimple(Split(s[1..]));
    SpelledStays(s, Split(s[1..]));
  }

  lemma SpelledStays(s: Str, segments: seq<Str>)
    requires s != [] && s[0] == SLASH && segments == Split(s[1..]) && Simple(segments)
    ensures Simplified(s) == s
  {
    hide Resolve, Spell, Simple;
    ResolveFixed([], segments);
    assert [] + segments == segments;
    SpellSplit(s[1..]);
    assert [SLASH] + s[1..] == s;
  }

  lemma PlainIsSimple(ts: seq<Str>)
    requires ts != [] && forall t :: t in ts ==> SLASH !in t
    requires NoDots(ts)
    ensures Simple(ts)
  {
    var n := |ts| - 1;
    assert ts[n] in ts;
    forall t | t in ts[..n]
      ensures Plain(t)
    {
      var i :| 0 <= i < n && ts[..n][i] == t;
      assert ts[i] == t;
    }
  }

  lemma {:induction false} SpellSplit(s: Str)
    ensures Spell(Split(s)) == [SLASH] + s
  {
    if s == [] {
      SpellSnoc([], []);
      var none: seq<Str> := [[]];
      assert Split(s) == none && [] + none == none;
    } else {
      SpellSplit(s[1..]);
      var r := Split(s[1..]);
      if s[0] == SLASH {
        assert ([[]] + r)[1..] == r;
        assert [SLASH] + [] + ([SLASH] + s[1..]) == [SLASH] + s;
      } else {
        assert ([[s[0]] + r[0]] + r[1..])[1..] == r[1..];
        CharFront(s[0], r[0], Spell(r[1..]), s[1..]);
        assert [s[0]] + s[1..] == s;
      }
    }
  }

  lemma CharFront(c: byte, t: Str, more: Str, s: Str)
    requires [SLASH] + t + more == [SLASH] + s
    ensures [SLASH] + ([c] + t) + more == [SLASH] + ([c] + s)
  {
    assert ([SLASH] + t + more)[1..] == t + more && ([SLASH] + s)[1..] == s;
    assert [SLASH] + ([c] + t) + more == [SLASH] + ([c] + (t + more));
  }

  /** Blanks in front are dropped, and a slash is put there if there is none. */
  lemma FrontIsSlash(s: Str)
    ensures Simplified([SPACE] + s) == Simplified(s)
    ensures s == [] || (s[0] != SPACE && s[0] != SLASH) ==> Simplified(s) == Simplified([SLASH] + s)
  {
    assert ([SPACE] + s)[1..] == s && ([SLASH] + s)[1..] == s;
  }
}
