/** Gathering a chain of descriptors into the vectors of a buffer, in two passes over the chain. */
module Gather {
  import opened Common
  import opened Virtqueue

  datatype Desc = Desc(addr: nat, len: nat, write: bool, more: bool, next: nat)

  datatype Iovec = Iovec(base: nat, len: nat)

  /** The descriptors from x on, if the chain stays in the table and never comes back to a visited one. */
  function Chain(descs: seq<Desc>, x: nat, unvisited: set<nat>): (c: Option<seq<Desc>>)
    ensures c.Some? ==> 1 <= |c.value| <= |unvisited|
    decreases |unvisited|
  {
    if x >= |descs| || x !in unvisited then None
    else if !descs[x].more then
      assert unvisited - {x} < unvisited;
      Some([descs[x]])
    else
      var rest := Chain(descs, descs[x].next, unvisited - {x});
      if rest.None? then None else Some([descs[x]] + rest.value)
  }

  function Indices(n: nat): (s: set<nat>)
    ensures forall i :: i in s <==> 0 <= i < n
    ensures |s| == n
  {
    if n == 0 then {} else Indices(n - 1) + {n - 1}
  }

  /** The whole chain that starts at a head. */
  function ChainOf(descs: seq<Desc>, head: nat): (c: Option<seq<Desc>>)
    ensures c.Some? ==> 1 <= |c.value| <= |descs|
  {
    Chain(descs, head, Indices(|descs|))
  }

  /** What either pass has done and what it has left of a chain. */
  ghost predicate Left(descs: seq<Desc>, c: seq<Desc>, done: seq<Desc>, x: nat, unvisited: set<nat>, more: bool) {
    if more then Chain(descs, x, unvisited).Some? && c == done + Chain(descs, x, unvisited).value
    else c == done
  }

  /** One turn of either pass. */
  lemma Turn(descs: seq<Desc>, c: seq<Desc>, done: seq<Desc>, x: nat, unvisited: set<nat>)
    requires Left(descs, c, done, x, unvisited, true)
    ensures x < |descs| && x in unvisited && |unvisited - {x}| < |unvisited|
    ensures Left(descs, c, done + [descs[x]], descs[x].next, unvisited - {x}, descs[x].more)
    ensures done + [descs[x]] <= c
  {
    var d := descs[x];
    var chain := Chain(descs, x, unvisited).value;
    if d.more {
      var rest := Chain(descs, d.next, unvisited - {x}).value;
      assert chain == [d] + rest;
      hide Chain;
      assert done + [d] + rest == c;
    } else {
      assert chain == [d];
    }
  }

  lemma LeftNothing(descs: seq<Desc>, c: seq<Desc>, done: seq<Desc>, x: nat, unvisited: set<nat>)
    requires Left(descs, c, done, x, unvisited, false)
    ensures c == done
  {
  }

  /** Following next from x, with no bookkeeping, ends after k more descriptors. */
  predicate Ends(descs: seq<Desc>, x: nat, k: nat)
    decreases k
  {
    x < |descs| && if k == 0 then !descs[x].more else descs[x].more && Ends(descs, descs[x].next, k - 1)
  }

  lemma EndsInside(descs: seq<Desc>, x: nat, k: nat)
    requires Ends(descs, x, k)
    ensures x < |descs|
  {
  }

  lemma {:induction false} EndsOnce(descs: seq<Desc>, x: nat, j: nat, k: nat)
    requires Ends(descs, x, j) && Ends(descs, x, k)
    ensures j == k
    decreases k
  {
    if j > 0 && k > 0 { EndsOnce(descs, descs[x].next, j - 1, k - 1); }
  }

  lemma {:induction false} EndingIsChain(descs: seq<Desc>, x: nat, k: nat, unvisited: set<nat>)
    requires Ends(descs, x, k)
    requires forall y: nat, j: nat :: j <= k && Ends(descs, y, j) ==> y in unvisited
    ensures Chain(descs, x, unvisited).Some?
    decreases k
  {
    if k > 0 {
      forall y: nat, j: nat | j <= k - 1 && Ends(descs, y, j) ensures y in unvisited - {x} {
        if y == x { EndsOnce(descs, x, j, k); }
      }
      EndingIsChain(descs, descs[x].next, k - 1, unvisited - {x});
    }
  }

  lemma {:induction false} ChainEnds(descs: seq<Desc>, x: nat, unvisited: set<nat>) returns (k: nat)
    requires Chain(descs, x, unvisited).Some?
    ensures Ends(descs, x, k)
    decreases |unvisited|
  {
    k := 0;
    if descs[x].more {
      assert |unvisited - {x}| < |unvisited|;
      var j := ChainEnds(descs, descs[x].next, unvisited - {x});
      k := j + 1;
    }
  }

  /** The walk from a head sees k + 1 descriptors and stops. */
  predicate StopsAfter(descs: seq<Desc>, head: nat, k: nat) {
    Ends(descs, head, k)
  }

  /** The device's walk over the descriptors ends exactly when the chain visits none of them twice. */
  lemma WalkEndsExactly(descs: seq<Desc>, head: nat)
    ensures ChainOf(descs, head).Some? <==> exists k: nat :: StopsAfter(descs, head, k)
  {
    hide Ends, Chain;
    if ChainOf(descs, head).Some? {
      var k := ChainEnds(descs, head, Indices(|descs|));
      assert StopsAfter(descs, head, k);
    } else if exists k: nat :: StopsAfter(descs, head, k) {
      var k: nat :| StopsAfter(descs, head, k);
      forall y: nat, j: nat | j <= k && Ends(descs, y, j) ensures y in Indices(|descs|) {
        EndsInside(descs, y, j);
      }
      EndingIsChain(descs, head, k, Indices(|descs|));
    }
  }

  // ---------- a chain as the descriptor table has it ----------

  /** idx are the descriptors from a head on, by their places in the table: each but the last goes on to the next. */
  predicate Walk(descs: seq<Desc>, head: nat, idx: seq<nat>) {
    && idx != [] && idx[0] == head
    && (forall i :: 0 <= i < |idx| ==> idx[i] < |descs|)
    && (forall i :: 0 <= i < |idx| - 1 ==> descs[idx[i]].more && descs[idx[i]].next == idx[i + 1])
    && !descs[idx[|idx| - 1]].more
  }

  /** There is no other walk from a head. */
  lemma {:induction false} WalkIsUnique(descs: seq<Desc>, head: nat, idx: seq<nat>, other: seq<nat>)
    requires Walk(descs, head, idx) && Walk(descs, head, other)
    ensures idx == other
    decreases |idx|
  {
    if |idx| > 1 {
      assert descs[idx[0]].more && |other| > 1;
      WalkIsUnique(descs, idx[1], idx[1..], other[1..]);
      assert idx == [head] + idx[1..] && other == [head] + other[1..];
    } else {
      assert !descs[other[0]].more;
    }
  }

  lemma {:induction false} ChainWalks(descs: seq<Desc>, x: nat, unvisited: set<nat>) returns (idx: seq<nat>)
    requires Chain(descs, x, unvisited).Some?
    ensures var c := Chain(descs, x, unvisited).value;
      Walk(descs, x, idx) && |idx| == |c| && forall i :: 0 <= i < |c| ==> idx[i] < |descs| && c[i] == descs[idx[i]]
    decreases |unvisited|
  {
    if descs[x].more {
      assert |unvisited - {x}| < |unvisited|;
      var rest := ChainWalks(descs, descs[x].next, unvisited - {x});
      idx := [x] + rest;
    } else {
      idx := [x];
    }
  }

  /** How many of a walk's first n descriptors are device-writable, or are not. */
  function Among(descs: seq<Desc>, idx: seq<nat>, n: nat, write: bool): nat
    requires n <= |idx| && forall i :: 0 <= i < |idx| ==> idx[i] < |descs|
  {
    if n == 0 then 0 else Among(descs, idx, n - 1, write) + if descs[idx[n - 1]].write == write then 1 else 0
  }

  /**
   * ins and outs hold the walk's segments, translated: the device-writable ones in ins and the others in
   * outs, each behind those of its kind that come before it, and nothing else.
   */
  ghost predicate Split(descs: seq<Desc>, idx: seq<nat>, ins: seq<Iovec>, outs: seq<Iovec>, va: nat -> nat)
    requires forall i :: 0 <= i < |idx| ==> idx[i] < |descs|
  {
    && |ins| == Among(descs, idx, |idx|, true) && |outs| == Among(descs, idx, |idx|, false)
    && forall i :: 0 <= i < |idx| ==>
         var d, n := descs[idx[i]], Among(descs, idx, i, descs[idx[i]].write);
         if d.write then n < |ins| && ins[n] == Iovec(va(d.addr), d.len) else n < |outs| && outs[n] == Iovec(va(d.addr), d.len)
  }

  /** The two vectors are those of the chain from a head. */
  ghost predicate SplitsChain(descs: seq<Desc>, head: nat, ins: seq<Iovec>, outs: seq<Iovec>, va: nat -> nat) {
    exists idx :: Walk(descs, head, idx) && Split(descs, idx, ins, outs, va)
  }

  lemma {:induction false} AmongIsVectors(descs: seq<Desc>, idx: seq<nat>, c: seq<Desc>, n: nat, write: bool, va: nat -> nat)
    requires n <= |idx| == |c| && forall i :: 0 <= i < |idx| ==> idx[i] < |descs| && c[i] == descs[idx[i]]
    ensures |Vectors(c[..n], write, va)| == Among(descs, idx, n, write)
  {
    if n > 0 {
      AmongIsVectors(descs, idx, c, n - 1, write, va);
      VectorsSnoc(c[..n - 1], c[n - 1], write, va);
      assert c[..n] == c[..n - 1] + [c[n - 1]];
      hide Vectors;
    }
  }

  lemma VectorsAreSplit(descs: seq<Desc>, idx: seq<nat>, c: seq<Desc>, va: nat -> nat)
    requires |idx| == |c| && forall i :: 0 <= i < |idx| ==> idx[i] < |descs| && c[i] == descs[idx[i]]
    ensures Split(descs, idx, Vectors(c, true, va), Vectors(c, false, va), va)
  {
    hide Vectors;
    forall i | 0 <= i < |c|
      ensures var d, n := descs[idx[i]], Among(descs, idx, i, descs[idx[i]].write);
        n < |Vectors(c, d.write, va)| && Vectors(c, d.write, va)[n] == Iovec(va(d.addr), d.len)
    {
      VectorsExactly(c, i, va);
      AmongIsVectors(descs, idx, c, i, c[i].write, va);
    }
    AmongIsVectors(descs, idx, c, |c|, true, va);
    AmongIsVectors(descs, idx, c, |c|, false, va);
    assert c[..|c|] == c;
    hide Among;
  }

  /** The vectors of the descriptors that the two passes see are those of the chain in the table. */
  lemma ChainIsSplit(descs: seq<Desc>, head: nat, va: nat -> nat)
    requires ChainOf(descs, head).Some?
    ensures var c := ChainOf(descs, head).value; SplitsChain(descs, head, Vectors(c, true, va), Vectors(c, false, va), va)
  {
    var idx := ChainWalks(descs, head, Indices(|descs|));
    var c := ChainOf(descs, head).value;
    hide Vectors, Chain, Split, Walk, Among;
    assert forall i :: 0 <= i < |idx| ==> idx[i] < |descs|;
    VectorsAreSplit(descs, idx, c, va);
  }

  /** In order, the vectors for the chain's device-writable descriptors, or for the others. */
  function Vectors(c: seq<Desc>, write: bool, va: nat -> nat): (v: seq<Iovec>)
    ensures |v| <= |c|
  {
    if c == [] then []
    else
      var d := c[|c| - 1];
      var rest := Vectors(c[..|c| - 1], write, va);
      if d.write == write then rest + [Iovec(va(d.addr), d.len)] else rest
  }

  lemma VectorsSnoc(c: seq<Desc>, d: Desc, write: bool, va: nat -> nat)
    ensures Vectors(c + [d], write, va)
      == if d.write == write then Vectors(c, write, va) + [Iovec(va(d.addr), d.len)] else Vectors(c, write, va)
  {
    assert (c + [d])[..|c|] == c;
  }

  lemma {:induction false} VectorsPrefix(c: seq<Desc>, d: seq<Desc>, write: bool, va: nat -> nat)
    ensures Vectors(c, write, va) <= Vectors(c + d, write, va)
  {
    if d == [] {
      assert c + d == c;
    } else {
      VectorsPrefix(c, d[..|d| - 1], write, va);
      VectorsSnoc(c + d[..|d| - 1], d[|d| - 1], write, va);
      assert c + d[..|d| - 1] + [d[|d| - 1]] == c + d;
    }
  }

  lemma VectorsWithin(c: seq<Desc>, d: seq<Desc>, write: bool, va: nat -> nat)
    requires c <= d
    ensures |Vectors(c, write, va)| <= |Vectors(d, write, va)|
  {
    VectorsPrefix(c, d[|c|..], write, va);
    assert c + d[|c|..] == d;
  }

  /**
   * The i-th descriptor is found, translated, in the vectors of its own kind, behind those of its
   * kind that precede it in the chain; there is nothing else in the vectors.
   */
  lemma VectorsExactly(c: seq<Desc>, i: nat, va: nat -> nat)
    requires i < |c|
    ensures var w := c[i].write; var before := |Vectors(c[..i], w, va)|;
      before < |Vectors(c, w, va)| && Vectors(c, w, va)[before] == Iovec(va(c[i].addr), c[i].len)
    ensures |Vectors(c, true, va)| + |Vectors(c, false, va)| == |c|
  {
    hide Vectors;
    var w := c[i].write;
    VectorsSnoc(c[..i], c[i], w, va);
    VectorsPrefix(c[..i] + [c[i]], c[i + 1..], w, va);
    assert c[..i] + [c[i]] + c[i + 1..] == c;
    VectorsPartition(c, va);
  }

  lemma {:induction false} VectorsPartition(c: seq<Desc>, va: nat -> nat)
    ensures |Vectors(c, true, va)| + |Vectors(c, false, va)| == |c|
  {
    if c != [] { VectorsPartition(c[..|c| - 1], va); }
  }

  /** A buffer: its arrays, and how much of each is filled; for the fixed buffer these are also the recorded capacities. */
  class Buf {
    const inSg: array<Iovec>
    const outSg: array<Iovec>
    const owned: bool
    var nIn: nat
    var nOut: nat
    var idx: nat
    var written: nat

    ghost predicate Valid()
      reads this
    {
      inSg != outSg && nIn <= inSg.Length && nOut <= outSg.Length
    }

    constructor (ins: nat, outs: nat, owned: bool)
      ensures Valid() && fresh(inSg) && fresh(outSg)
      ensures inSg.Length == nIn == ins && outSg.Length == nOut == outs && this.owned == owned
    {
      inSg := new Iovec[ins](_ => Iovec(0, 0));
      outSg := new Iovec[outs](_ => Iovec(0, 0));
      nIn, nOut := ins, outs;
      idx, written := 0, 0;
      this.owned := owned;
    }

    ghost predicate Filled(c: seq<Desc>, va: nat -> nat)
      reads this, inSg, outSg
    {
      && Valid()
      && inSg[..nIn] == Vectors(c, true, va)
      && outSg[..nOut] == Vectors(c, false, va)
    }

    /** One turn of the second pass. */
    method Put(ghost done: seq<Desc>, d: Desc, va: nat -> nat)
      requires Filled(done, va)
      requires |Vectors(done + [d], true, va)| <= inSg.Length && |Vectors(done + [d], false, va)| <= outSg.Length
      modifies this`nIn, this`nOut, inSg, outSg
      ensures Filled(done + [d], va)
    {
      VectorsSnoc(done, d, true, va);
      VectorsSnoc(done, d, false, va);
      hide Vectors;
      if d.write {
        inSg[nIn] := Iovec(va(d.addr), d.len);
        nIn := nIn + 1;
        assert inSg[..nIn] == inSg[..nIn - 1] + [Iovec(va(d.addr), d.len)];
      } else {
        outSg[nOut] := Iovec(va(d.addr), d.len);
        nOut := nOut + 1;
        assert outSg[..nOut] == outSg[..nOut - 1] + [Iovec(va(d.addr), d.len)];
      }
    }

    /** The second pass. */
    method Fill(descs: seq<Desc>, head: nat, va: nat -> nat)
      requires Valid() && ChainOf(descs, head).Some?
      requires |Vectors(ChainOf(descs, head).value, true, va)| <= inSg.Length
      requires |Vectors(ChainOf(descs, head).value, false, va)| <= outSg.Length
      modifies this`nIn, this`nOut, this`idx, inSg, outSg
      ensures Filled(ChainOf(descs, head).value, va) && idx == head
    {
      nIn, nOut := 0, 0;
      idx := head;
      assert Filled([], va);
      assert ChainOf(descs, head).value == [] + ChainOf(descs, head).value;
      hide Chain, Vectors, Filled;
      var x, more := head, true;
      ghost var c, done, unvisited := ChainOf(descs, head).value, [], Indices(|descs|);
      assert Left(descs, c, done, x, unvisited, true);
      hide Left, ChainOf;
      while more
        invariant Filled(done, va) && idx == head
        invariant Left(descs, c, done, x, unvisited, more)
        decreases |unvisited|, more
      {
        Turn(descs, c, done, x, unvisited);
        VectorsWithin(done + [descs[x]], c, true, va);
        VectorsWithin(done + [descs[x]], c, false, va);
        more := descs[x].more;
        Put(done, descs[x], va);
        done := done + [descs[x]];
        unvisited := unvisited - {x};
        x := descs[x].next;
      }
      LeftNothing(descs, c, done, x, unvisited);
    }
  }

  /** The first pass. */
  method Count(descs: seq<Desc>, head: nat, ghost va: nat -> nat) returns (nIn: nat, nOut: nat)
    requires ChainOf(descs, head).Some?
    ensures nIn == |Vectors(ChainOf(descs, head).value, true, va)|
    ensures nOut == |Vectors(ChainOf(descs, head).value, false, va)|
  {
    nIn, nOut := 0, 0;
    assert Vectors([], true, va) == [] == Vectors([], false, va);
    hide Chain, Vectors;
    var x, more := head, true;
    ghost var c, done, unvisited := ChainOf(descs, head).value, [], Indices(|descs|);
    assert c == [] + c;
    assert Left(descs, c, done, x, unvisited, true);
    hide Left, ChainOf;
    while more
      invariant nIn == |Vectors(done, true, va)| && nOut == |Vectors(done, false, va)|
      invariant Left(descs, c, done, x, unvisited, more)
      decreases |unvisited|, more
    {
      Turn(descs, c, done, x, unvisited);
      more := descs[x].more;
      if descs[x].write { nIn := nIn + 1; } else { nOut := nOut + 1; }
      VectorsSnoc(done, descs[x], true, va);
      VectorsSnoc(done, descs[x], false, va);
      done := done + [descs[x]];
      unvisited := unvisited - {x};
      x := descs[x].next;
    }
    LeftNothing(descs, c, done, x, unvisited);
  }

  /** The fixed buffer takes a chain when its recorded capacities are enough. */
  predicate Fits(c: seq<Desc>, va: nat -> nat, ins: nat, outs: nat) {
    |Vectors(c, true, va)| <= ins && |Vectors(c, false, va)| <= outs
  }

  /**
   * Both passes: the chain ends up in the fixed buffer, whose recorded capacities become the chain's
   * own counts, or in a new buffer of exactly the right size.
   */
  method GatherChain(descs: seq<Desc>, head: nat, va: nat -> nat, fixed: Buf) returns (buf: Buf)
    requires fixed.Valid() && ChainOf(descs, head).Some?
    modifies fixed, fixed.inSg, fixed.outSg
    ensures buf.Filled(ChainOf(descs, head).value, va) && buf.idx == head
    ensures SplitsChain(descs, head, buf.inSg[..buf.nIn], buf.outSg[..buf.nOut], va)
    ensures fixed.Valid() && fixed.nIn <= old(fixed.nIn) && fixed.nOut <= old(fixed.nOut)
    ensures buf == fixed <==> Fits(ChainOf(descs, head).value, va, old(fixed.nIn), old(fixed.nOut))
    ensures buf != fixed ==>
      fresh(buf) && fresh(buf.inSg) && fresh(buf.outSg) && buf.owned && fixed.nIn == old(fixed.nIn) && fixed.nOut == old(fixed.nOut)
      && buf.inSg.Length == buf.nIn && buf.outSg.Length == buf.nOut
  {
    var nIn, nOut := Count(descs, head, va);
    buf := fixed;
    if nIn > fixed.nIn || nOut > fixed.nOut {
      buf := new Buf(nIn, nOut, true);
    }
    buf.Fill(descs, head, va);
    ChainIsSplit(descs, head, va);
    hide Vectors, ChainOf, SplitsChain;
    assert |buf.inSg[..buf.nIn]| == nIn && |buf.outSg[..buf.nOut]| == nOut;
  }
}
