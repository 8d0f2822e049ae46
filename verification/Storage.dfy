/** When bytes can be stored in temporary files: what the system calls must do, stated on them. */
module Storage {
  import opened Bytes
  import opened ChunkQueue

  /** An attempt stops everything: the last file is full and cannot be closed, no file can be opened, or
      the write fails for good and no other directory is left, or closing a file with bytes fails. */
  ghost predicate GivesUp(cs: seq<Chunk>, fileSize: nat, a: Attempt) {
    var last := if cs == [] then BLANK else cs[|cs| - 1];
    var open := last.FileChunk? && last.isTemp && last.isOpen && last.offset == 0;
    || (open && last.length >= fileSize && !a.closes)
    || (!(open && last.length < fileSize) && !a.opens)
    || (a.fails && !a.interrupted && (!a.retry || (open && 0 < last.length < fileSize && !a.closes)))
  }

  lemma GivesUpIff(cs: seq<Chunk>, mem: Str, fileSize: nat, a: Attempt)
    requires AllOk(cs)
    ensures Attempted(cs, mem, fileSize, a).tried.GaveUp? <==> GivesUp(cs, fileSize, a)
  {
    hide Chunk.Ok, Chunk.Rest, AllOk, Grown, Shut, Cleaned, Opened;
    OpenedIs(cs, fileSize);
  }

  lemma NewFile(cs: seq<Chunk>)
    requires AllOk(cs)
    ensures WithTemp(cs) == cs + [FileChunk([], 0, 0, true, true, 0)]
  {
    hide AllOk, Chunk.Ok, Chunk.Rest;
  }

  lemma OpenedIs(cs: seq<Chunk>, fileSize: nat)
    requires AllOk(cs)
    ensures Opened(cs, fileSize) ==
      if OpenTemp(cs) && cs[|cs| - 1].length < fileSize then cs
      else (if OpenTemp(cs) then Shut(cs) else cs) + [FileChunk([], 0, 0, true, true, 0)]
  {
    hide Chunk.Ok, Chunk.Rest, AllOk, Shut, WithTemp;
    if !OpenTemp(cs) {
      NewFile(cs);
    } else if cs[|cs| - 1].length >= fileSize {
      NewFile(Shut(cs));
    }
  }

  /** An attempt stores as much as is accepted, and is the last one if that is all there is. */
  lemma StoresAccepted(cs: seq<Chunk>, mem: Str, fileSize: nat, a: Attempt)
    requires AllOk(cs) && !GivesUp(cs, fileSize, a)
    ensures var t := Attempted(cs, mem, fileSize, a);
      && t.n == (if a.fails then 0 else Min(a.accepted, |mem|))
      && (t.tried.Stored? <==> !a.fails && |mem| <= a.accepted)
  {
    hide Chunk.Ok, AllOk, Grown, Shut, Cleaned;
    GivesUpIff(cs, mem, fileSize, a);
  }

  /** What is stored goes to the end of the last file while that is open, unread and not too large, and
      otherwise to a new file, after a file that is too large was closed. */
  lemma StoredWhere(cs: seq<Chunk>, mem: Str, fileSize: nat, a: Attempt)
    requires AllOk(cs) && !GivesUp(cs, fileSize, a) && !a.fails
    ensures var n := Min(a.accepted, |mem|);
      var last := if cs == [] then BLANK else cs[|cs| - 1];
      var open := last.FileChunk? && last.isTemp && last.isOpen && last.offset == 0;
      Attempted(cs, mem, fileSize, a).chunks ==
        if open && last.length < fileSize then
          cs[..|cs| - 1] + [FileChunk(last.data + mem[..n], last.start, last.length + n, true, true, 0)]
        else (if open then cs[..|cs| - 1] + [last.(isOpen := false)] else cs) + [FileChunk(mem[..n], 0, n, true, true, 0)]
  {
    hide Chunk.Ok, Chunk.Rest, AllOk, Cleaned, WithTemp;
    OpenedIs(cs, fileSize);
    GivesUpIff(cs, mem, fileSize, a);
    var n := Min(a.accepted, |mem|);
    var r := Opened(cs, fileSize);
    assert Attempted(cs, mem, fileSize, a).chunks == Grown(r, mem[..n]);
    assert [] + mem[..n] == mem[..n];
    assert Grown(r, mem[..n]) == r[..|r| - 1] + [r[|r| - 1].(data := r[|r| - 1].data + mem[..n], length := r[|r| - 1].length + n)];
  }

  /** The bytes some attempts accept. */
  function Accepted(attempts: seq<Attempt>): nat {
    if attempts == [] then 0 else (if attempts[0].fails then 0 else attempts[0].accepted) + Accepted(attempts[1..])
  }

  /** The list after some attempts. */
  function ListAfter(cs: seq<Chunk>, mem: Str, fileSize: nat, attempts: seq<Attempt>): (r: seq<Chunk>)
    requires AllOk(cs)
    ensures AllOk(r)
    decreases |attempts|
  {
    if attempts == [] then cs
    else
      var t := Attempted(cs, mem, fileSize, attempts[0]);
      ListAfter(t.chunks, mem[t.n..], fileSize, attempts[1..])
  }

  /** The attempts up to the k-th get all the bytes stored. */
  ghost predicate Succeeds(cs: seq<Chunk>, mem: Str, fileSize: nat, attempts: seq<Attempt>, k: nat)
    requires AllOk(cs)
  {
    && k < |attempts| && !attempts[k].fails && |mem| <= Accepted(attempts[..k + 1])
    && forall i: nat :: i <= k ==> !GivesUp(ListAfter(cs, mem, fileSize, attempts[..i]), fileSize, attempts[i])
  }

  /** All bytes are stored if and only if some attempt is reached that does not fail, with those before
      it accepts them all, and none of these gives up. */
  lemma {:induction false} StoresIff(cs: seq<Chunk>, mem: Str, fileSize: nat, attempts: seq<Attempt>)
    requires AllOk(cs)
    ensures Storing(cs, mem, fileSize, attempts).ok <==> exists k: nat :: Succeeds(cs, mem, fileSize, attempts, k)
    decreases |attempts|
  {
    hide AllOk, Attempted, GivesUp, ListAfter, Accepted, Storing, Succeeds;
    StoringUnfolds(cs, mem, fileSize, attempts);
    if attempts == [] {
      NoAttempts(cs, mem, fileSize);
    } else {
      var a, t := attempts[0], Attempted(cs, mem, fileSize, attempts[0]);
      GivesUpIff(cs, mem, fileSize, a);
      AtOnce(cs, mem, fileSize, attempts);
      if !GivesUp(cs, fileSize, a) {
        StoresAccepted(cs, mem, fileSize, a);
        if t.tried.Again? {
          StoresIff(t.chunks, mem[t.n..], fileSize, attempts[1..]);
          if k: nat :| Succeeds(t.chunks, mem[t.n..], fileSize, attempts[1..], k) {
            SucceedsLater(cs, mem, fileSize, attempts, k);
          }
          if k: nat :| Succeeds(cs, mem, fileSize, attempts, k) {
            SucceedsLater(cs, mem, fileSize, attempts, k - 1);
          }
        }
      }
    }
  }

  lemma NoAttempts(cs: seq<Chunk>, mem: Str, fileSize: nat)
    requires AllOk(cs)
    ensures forall k: nat :: !Succeeds(cs, mem, fileSize, [], k)
  {
  }

  lemma AtOnce(cs: seq<Chunk>, mem: Str, fileSize: nat, attempts: seq<Attempt>)
    requires AllOk(cs) && attempts != []
    ensures Succeeds(cs, mem, fileSize, attempts, 0) <==> !GivesUp(cs, fileSize, attempts[0]) && !attempts[0].fails && |mem| <= attempts[0].accepted
    ensures GivesUp(cs, fileSize, attempts[0]) ==> forall k: nat :: !Succeeds(cs, mem, fileSize, attempts, k)
  {
    hide AllOk, Attempted, GivesUp;
    assert attempts[..0] == [] && attempts[..1] == [attempts[0]];
    assert Accepted([attempts[0]][1..]) == 0;
  }

  lemma SucceedsLater(cs: seq<Chunk>, mem: Str, fileSize: nat, attempts: seq<Attempt>, k: nat)
    requires AllOk(cs) && attempts != [] && !GivesUp(cs, fileSize, attempts[0]) && Attempted(cs, mem, fileSize, attempts[0]).tried.Again?
    ensures var t := Attempted(cs, mem, fileSize, attempts[0]);
      Succeeds(cs, mem, fileSize, attempts, k + 1) <==> Succeeds(t.chunks, mem[t.n..], fileSize, attempts[1..], k)
  {
    hide AllOk, Attempted, GivesUp;
    var t, rest := Attempted(cs, mem, fileSize, attempts[0]), attempts[1..];
    StoresAccepted(cs, mem, fileSize, attempts[0]);
    if k < |rest| {
      assert attempts[..k + 2][0] == attempts[0] && attempts[..k + 2][1..] == rest[..k + 1];
      assert attempts[..0] == [];
      forall i: nat | i <= k
        ensures ListAfter(cs, mem, fileSize, attempts[..i + 1]) == ListAfter(t.chunks, mem[t.n..], fileSize, rest[..i]) && attempts[i + 1] == rest[i]
      {
        assert attempts[..i + 1][0] == attempts[0] && attempts[..i + 1][1..] == rest[..i];
      }
      assert forall i: nat :: i <= k + 1 && i > 0 ==> attempts[i] == rest[i - 1] && ListAfter(cs, mem, fileSize, attempts[..i]) == ListAfter(t.chunks, mem[t.n..], fileSize, rest[..i - 1]);
      if Succeeds(cs, mem, fileSize, attempts, k + 1) {
        forall i: nat | i <= k
          ensures !GivesUp(ListAfter(t.chunks, mem[t.n..], fileSize, rest[..i]), fileSize, rest[i])
        {
          assert !GivesUp(ListAfter(cs, mem, fileSize, attempts[..i + 1]), fileSize, attempts[i + 1]);
        }
      }
    }
  }

  /** No call fails for good. */
  ghost predicate Harmless(attempts: seq<Attempt>) {
    forall a :: a in attempts ==> a.opens && a.closes && (a.fails ==> a.interrupted || a.retry)
  }

  /** Then all bytes are stored if and only if enough bytes are accepted. */
  lemma HarmlessStores(cs: seq<Chunk>, mem: Str, fileSize: nat, attempts: seq<Attempt>)
    requires AllOk(cs) && Harmless(attempts)
    ensures Storing(cs, mem, fileSize, attempts).ok <==> exists k: nat :: k < |attempts| && !attempts[k].fails && |mem| <= Accepted(attempts[..k + 1])
  {
    hide AllOk, Storing, Accepted, ListAfter;
    StoresIff(cs, mem, fileSize, attempts);
    forall k: nat | k < |attempts| && !attempts[k].fails && |mem| <= Accepted(attempts[..k + 1])
      ensures Succeeds(cs, mem, fileSize, attempts, k)
    {
      assert forall i: nat :: i <= k ==> attempts[i] in attempts;
    }
  }

  // ---- Moving from one queue to another ----

  /** Each attempt by itself would do. */
  ghost predicate Good(attempts: seq<Attempt>, n: nat) {
    forall a :: a in attempts ==> a.opens && a.closes && !a.fails && n <= a.accepted
  }

  lemma GoodStores(to: seq<Chunk>, mem: Str, fileSize: nat, attempts: seq<Attempt>, n: nat)
    requires AllOk(to) && Good(attempts, n) && |mem| <= n && attempts != []
    ensures var s := Storing(to, mem, fileSize, attempts); s.ok && s.used == 1
  {
    hide AllOk, Attempted, Storing;
    StoringUnfolds(to, mem, fileSize, attempts);
    assert attempts[0] in attempts;
    StoresAccepted(to, mem, fileSize, attempts[0]);
  }

  /** With one good attempt for each chunk all is moved. */
  lemma {:induction false} GoodMoves(cs: seq<Chunk>, to: seq<Chunk>, len: nat, fileSize: nat, attempts: seq<Attempt>, n: nat)
    requires AllOk(cs) && AllOk(to) && Good(attempts, n) && len <= n && |cs| <= |attempts|
    ensures Moving(cs, to, len, fileSize, attempts).ok
    decreases |cs|, len
  {
    hide Storing, Fewer, FirstMoved, Chunk.Advance, Chunk.Rest;
    if cs != [] && len > 0 {
      FewerOrDone(cs, len);
      var k := Min(len, cs[0].Remaining());
      if cs[0].FileChunk? || k == 0 {
        GoodMoves(Fewer(cs, len), FirstMoved(to, cs[0], k), len - k, fileSize, attempts, n);
      } else {
        var s := Storing(to, cs[0].Rest()[..k], fileSize, attempts);
        GoodStores(to, cs[0].Rest()[..k], fileSize, attempts, n);
        if len > k {
          GoodMoves(Fewer(cs, len), s.chunks, len - k, fileSize, attempts[s.used..], n);
        }
      }
    }
  }

  /** If no file can be opened, and none is open, only nothing can be moved from memory. */
  lemma {:induction false} HopelessMoves(cs: seq<Chunk>, to: seq<Chunk>, len: nat, fileSize: nat, attempts: seq<Attempt>)
    requires AllOk(cs) && AllOk(to) && AllMem(cs) && !OpenTemp(to) && forall a :: a in attempts ==> !a.opens
    ensures Moving(cs, to, len, fileSize, attempts).ok <==> len == 0 || BytesOf(cs) == []
    decreases |cs|
  {
    hide Storing, BytesOf, Chunk.Rest;
    if cs == [] {
      NoBytes(cs);
    } else {
      BytesFirst(cs);
      if len > 0 && cs[0].Remaining() == 0 {
        HopelessMoves(cs[1..], to, len, fileSize, attempts);
      } else if len > 0 {
        HopelessStores(to, cs[0].Rest()[..Min(len, cs[0].Remaining())], fileSize, attempts);
      }
    }
  }

  lemma HopelessStores(to: seq<Chunk>, mem: Str, fileSize: nat, attempts: seq<Attempt>)
    requires AllOk(to) && !OpenTemp(to) && forall a :: a in attempts ==> !a.opens
    ensures !Storing(to, mem, fileSize, attempts).ok
  {
    hide AllOk, Attempted, Storing;
    StoringUnfolds(to, mem, fileSize, attempts);
    if attempts != [] {
      assert attempts[0] in attempts;
      GivesUpIff(to, mem, fileSize, attempts[0]);
    }
  }
}
