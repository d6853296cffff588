/** Scatter and gather: copying a flat buffer into a list of memory segments and back. */
module Iov {
  import opened Common
  import opened Gather

  function Total(sg: seq<Iovec>): nat {
    if sg == [] then 0 else Total(sg[..|sg| - 1]) + sg[|sg| - 1].len
  }

  lemma {:induction false} TotalCons(sg: seq<Iovec>)
    requires sg != []
    ensures Total(sg) == sg[0].len + Total(sg[1..])
  {
    if |sg| == 1 {
      assert sg[..0] == [] == sg[1..];
    } else {
      var init := sg[..|sg| - 1];
      TotalCons(init);
      assert sg[1..][..|sg| - 2] == init[1..];
    }
  }

  /** Every segment lies in memory. */
  predicate InMemory(sg: seq<Iovec>, size: nat) {
    forall i :: 0 <= i < |sg| ==> sg[i].base + sg[i].len <= size
  }

  function Write(mem: seq<byte>, base: nat, d: seq<byte>): (r: seq<byte>)
    requires base + |d| <= |mem|
    ensures |r| == |mem|
  {
    mem[..base] + d + mem[base + |d|..]
  }

  /** Memory after iov_fill, segment by segment. */
  function Filled(mem: seq<byte>, sg: seq<Iovec>, data: seq<byte>): (r: seq<byte>)
    requires InMemory(sg, |mem|)
    ensures |r| == |mem|
    decreases |sg|
  {
    if data == [] || sg == [] then mem
    else
      var n := Min(|data|, sg[0].len);
      Filled(Write(mem, sg[0].base, data[..n]), sg[1..], data[n..])
  }

  /** What iov_read copies out, segment by segment. */
  function Gathered(mem: seq<byte>, sg: seq<Iovec>, want: nat): (r: seq<byte>)
    requires InMemory(sg, |mem|)
    ensures |r| == Min(want, Total(sg))
    decreases |sg|
  {
    if want == 0 || sg == [] then []
    else
      var n := Min(want, sg[0].len);
      TotalCons(sg);
      mem[sg[0].base..sg[0].base + n] + Gathered(mem, sg[1..], want - n)
  }

  /** The address of the i-th byte of the segments. */
  function Address(sg: seq<Iovec>, i: nat): nat
    decreases |sg|
  {
    if sg == [] then 0
    else if i < sg[0].len then sg[0].base + i
    else Address(sg[1..], i - sg[0].len)
  }

  /** Byte i of segment k comes after all bytes of the segments before it. */
  lemma {:induction false} AddressInSegment(sg: seq<Iovec>, k: nat, i: nat)
    requires k < |sg| && i < sg[k].len
    ensures Address(sg, Total(sg[..k]) + i) == sg[k].base + i
    decreases k
  {
    if k == 0 {
      assert sg[..0] == [];
    } else {
      AddressInSegment(sg[1..], k - 1, i);
      TotalCons(sg[..k]);
      assert sg[..k][1..] == sg[1..][..k - 1];
      hide Total;
    }
  }

  lemma {:induction false} AddressInMemory(sg: seq<Iovec>, i: nat, size: nat)
    requires InMemory(sg, size) && i < Total(sg)
    ensures Address(sg, i) < size
    decreases |sg|
  {
    TotalCons(sg);
    if i >= sg[0].len { AddressInMemory(sg[1..], i - sg[0].len, size); }
  }

  /** The first n bytes of the segments have addresses of their own. */
  ghost predicate Apart(sg: seq<Iovec>, n: nat) {
    forall i, j :: 0 <= i < j < n && j < Total(sg) ==> Address(sg, i) != Address(sg, j)
  }

  lemma ConcatAt(mem: seq<byte>, base: nat, n: nat, rest: seq<byte>, i: nat)
    requires base + n <= |mem| && i < n + |rest|
    ensures (mem[base..base + n] + rest)[i] == if i < n then mem[base + i] else rest[i - n]
  {
  }

  lemma GatheredStep(mem: seq<byte>, sg: seq<Iovec>, want: nat, n: nat)
    requires InMemory(sg, |mem|) && sg != [] && want > 0 && n == Min(want, sg[0].len)
    ensures Gathered(mem, sg, want) == mem[sg[0].base..sg[0].base + n] + Gathered(mem, sg[1..], want - n)
  {
  }

  lemma InMemoryRest(sg: seq<Iovec>, size: nat)
    requires sg != [] && InMemory(sg, size)
    ensures sg[0].base + sg[0].len <= size && InMemory(sg[1..], size)
  {
  }

  lemma AddressStep(sg: seq<Iovec>, i: nat)
    requires sg != []
    ensures Address(sg, i) == if i < sg[0].len then sg[0].base + i else Address(sg[1..], i - sg[0].len)
  {
  }

  lemma GatheredHere(mem: seq<byte>, sg: seq<Iovec>, want: nat, i: nat)
    requires InMemory(sg, |mem|) && sg != [] && i < want && i < sg[0].len && i < |Gathered(mem, sg, want)|
    ensures sg[0].base + i < |mem| && Gathered(mem, sg, want)[i] == mem[sg[0].base + i]
  {
    var n := Min(want, sg[0].len);
    GatheredStep(mem, sg, want, n);
    hide Gathered;
    ConcatAt(mem, sg[0].base, n, Gathered(mem, sg[1..], want - n), i);
  }

  lemma GatheredThere(mem: seq<byte>, sg: seq<Iovec>, want: nat, i: nat)
    requires InMemory(sg, |mem|) && sg != [] && sg[0].len <= i < want && i < |Gathered(mem, sg, want)|
    ensures var l := sg[0].len;
      i - l < |Gathered(mem, sg[1..], want - l)| && Gathered(mem, sg, want)[i] == Gathered(mem, sg[1..], want - l)[i - l]
  {
    GatheredStep(mem, sg, want, sg[0].len);
    hide Gathered;
    ConcatAt(mem, sg[0].base, sg[0].len, Gathered(mem, sg[1..], want - sg[0].len), i);
  }

  lemma NotEmpty(sg: seq<Iovec>)
    requires Total(sg) > 0
    ensures sg != []
  {
  }

  /** iov_read's i-th byte is the byte at the i-th address. */
  lemma {:induction false} GatheredAt(mem: seq<byte>, sg: seq<Iovec>, want: nat, i: nat)
    requires InMemory(sg, |mem|) && i < Min(want, Total(sg))
    ensures Address(sg, i) < |mem| && Gathered(mem, sg, want)[i] == mem[Address(sg, i)]
    decreases |sg|
  {
    hide Gathered, Total, Address, InMemory;
    NotEmpty(sg);
    InMemoryRest(sg, |mem|);
    TotalCons(sg);
    AddressStep(sg, i);
    if i < sg[0].len {
      GatheredHere(mem, sg, want, i);
    } else {
      GatheredThere(mem, sg, want, i);
      GatheredAt(mem, sg[1..], want - sg[0].len, i - sg[0].len);
    }
  }

  lemma WriteAt(mem: seq<byte>, base: nat, d: seq<byte>, a: nat)
    requires base + |d| <= |mem| && a < |mem|
    ensures Write(mem, base, d)[a] == if base <= a < base + |d| then d[a - base] else mem[a]
  {
  }

  lemma FirstPiece(mem: seq<byte>, sg: seq<Iovec>, d: seq<byte>, a: nat)
    requires InMemory(sg, |mem|) && sg != [] && |d| <= sg[0].len && a < |mem|
    requires forall i :: 0 <= i < |d| ==> Address(sg, i) != a
    ensures Write(mem, sg[0].base, d)[a] == mem[a]
  {
    WriteAt(mem, sg[0].base, d, a);
    var i := a - sg[0].base;
    assert 0 <= i < |d| ==> Address(sg, i) == a;
    hide Write;
  }

  /** iov_fill changes nothing but the first |data| bytes of the segments. */
  lemma {:induction false} FilledElsewhere(mem: seq<byte>, sg: seq<Iovec>, data: seq<byte>, a: nat)
    requires InMemory(sg, |mem|) && a < |mem|
    requires forall i :: 0 <= i < |data| && i < Total(sg) ==> Address(sg, i) != a
    ensures Filled(mem, sg, data)[a] == mem[a]
    decreases |sg|
  {
    if data != [] && sg != [] {
      TotalCons(sg);
      var n := Min(|data|, sg[0].len);
      var w := Write(mem, sg[0].base, data[..n]);
      FirstPiece(mem, sg, data[..n], a);
      hide Write;
      forall i | 0 <= i < |data[n..]| && i < Total(sg[1..]) ensures Address(sg[1..], i) != a {
        assert Address(sg, i + n) == Address(sg[1..], i);
      }
      FilledElsewhere(w, sg[1..], data[n..], a);
    }
  }

  lemma ApartRest(sg: seq<Iovec>, n: nat)
    requires sg != [] && Apart(sg, n)
    ensures Apart(sg[1..], if n >= sg[0].len then n - sg[0].len else 0)
  {
    TotalCons(sg);
    var l := sg[0].len;
    forall i, j | 0 <= i < j && j + l < n && j < Total(sg[1..]) ensures Address(sg[1..], i) != Address(sg[1..], j) {
      assert Address(sg, i + l) == Address(sg[1..], i) && Address(sg, j + l) == Address(sg[1..], j);
    }
  }

  /** iov_fill puts the i-th byte of the data at the i-th address. */
  lemma {:induction false} FilledAt(mem: seq<byte>, sg: seq<Iovec>, data: seq<byte>, i: nat)
    requires InMemory(sg, |mem|) && Apart(sg, |data|) && i < |data| && i < Total(sg)
    ensures Address(sg, i) < |mem| && Filled(mem, sg, data)[Address(sg, i)] == data[i]
    decreases |sg|
  {
    AddressInMemory(sg, i, |mem|);
    TotalCons(sg);
    hide Total;
    var n := Min(|data|, sg[0].len);
    var w := Write(mem, sg[0].base, data[..n]);
    if i < n {
      WriteAt(mem, sg[0].base, data[..n], sg[0].base + i);
      hide Write;
      forall k | 0 <= k < |data[n..]| && k < Total(sg[1..]) ensures Address(sg[1..], k) != Address(sg, i) {
        assert Address(sg, k + n) == Address(sg[1..], k);
      }
      FilledElsewhere(w, sg[1..], data[n..], Address(sg, i));
    } else {
      ApartRest(sg, |data|);
      assert Address(sg, i) == Address(sg[1..], i - n);
      FilledAt(w, sg[1..], data[n..], i - n);
    }
  }

  /** Reading back gives the first min(data, segments, wanted) bytes of the data. */
  lemma RoundTrip(mem: seq<byte>, sg: seq<Iovec>, data: seq<byte>, want: nat)
    requires InMemory(sg, |mem|) && Apart(sg, |data|) && want <= |data|
    ensures Gathered(Filled(mem, sg, data), sg, want) == data[..Min(want, Total(sg))]
  {
    var r := Gathered(Filled(mem, sg, data), sg, want);
    forall i | 0 <= i < |r| ensures r[i] == data[i] {
      GatheredAt(Filled(mem, sg, data), sg, want, i);
      FilledAt(mem, sg, data, i);
    }
  }

  /** Reading more than was filled returns all of the data first, then the memory that follows it. */
  lemma RoundTripBeyond(mem: seq<byte>, sg: seq<Iovec>, data: seq<byte>, want: nat)
    requires InMemory(sg, |mem|) && Apart(sg, want) && |data| <= want
    ensures var n := Min(|data|, Total(sg));
      |Gathered(mem, sg, want)| >= n && Gathered(Filled(mem, sg, data), sg, want) == data[..n] + Gathered(mem, sg, want)[n..]
  {
    var r, n := Gathered(Filled(mem, sg, data), sg, want), Min(|data|, Total(sg));
    forall i | 0 <= i < |r| ensures r[i] == if i < n then data[i] else Gathered(mem, sg, want)[i] {
      GatheredAt(Filled(mem, sg, data), sg, want, i);
      GatheredAt(mem, sg, want, i);
      if i < n {
        FilledAt(mem, sg, data, i);
      } else {
        FilledElsewhere(mem, sg, data, Address(sg, i));
      }
    }
  }

  /** The round trip of n bytes works for all data exactly when the segments' first n bytes do not overlap. */
  lemma RoundTripExactly(mem: seq<byte>, sg: seq<Iovec>, n: nat)
    requires InMemory(sg, |mem|) && n <= Total(sg)
    ensures (forall data: seq<byte> :: |data| == n ==> Gathered(Filled(mem, sg, data), sg, n) == data) <==> Apart(sg, n)
  {
    hide Gathered, Filled, Address;
    if Apart(sg, n) {
      forall data: seq<byte> | |data| == n ensures Gathered(Filled(mem, sg, data), sg, n) == data {
        RoundTrip(mem, sg, data, n);
        assert data[..n] == data;
      }
    } else {
      var i, j :| 0 <= i < j < n && Address(sg, i) == Address(sg, j);
      OverlapShows(mem, sg, n, i, j);
    }
  }

  lemma OverlapShows(mem: seq<byte>, sg: seq<Iovec>, n: nat, i: nat, j: nat)
    requires InMemory(sg, |mem|) && i < j < n <= Total(sg) && Address(sg, i) == Address(sg, j)
    ensures exists data: seq<byte> :: |data| == n && Gathered(Filled(mem, sg, data), sg, n) != data
  {
    var data: seq<byte> := seq(n, k => if k == j then 1 else 0);
    var f := Filled(mem, sg, data);
    GatheredAt(f, sg, n, i);
    GatheredAt(f, sg, n, j);
    hide Gathered, Filled, Address;
    assert data[i] == 0 && data[j] == 1;
    assert Gathered(f, sg, n)[i] == Gathered(f, sg, n)[j];
    assert Gathered(f, sg, n) != data;
    assert |data| == n && Gathered(Filled(mem, sg, data), sg, n) != data;
  }

  method IovLen(sg: seq<Iovec>) returns (len: nat)
    ensures len == Total(sg)
  {
    len := 0;
    for i := 0 to |sg|
      invariant len == Total(sg[..i])
    {
      assert sg[..i + 1][..i] == sg[..i];
      len := len + sg[i].len;
    }
    assert sg[..|sg|] == sg;
  }

  /** memcpy between distinct arrays. */
  method Copy(dst: array<byte>, to: nat, src: array<byte>, from: nat, n: nat)
    requires dst != src && to + n <= dst.Length && from + n <= src.Length
    modifies dst
    ensures dst[..] == Write(old(dst[..]), to, src[..][from..from + n])
  {
    ghost var part := src[..][from..from + n];
    forall k | 0 <= k < n {
      dst[to + k] := src[from + k];
    }
    assert forall k :: 0 <= k < n ==> part[k] == src[from + k];
  }

  /** The segments still to come. */
  function Tail(sg: seq<Iovec>, i: nat): seq<Iovec>
    requires i <= |sg|
  {
    sg[i..]
  }

  lemma TailStep(sg: seq<Iovec>, i: nat)
    requires i < |sg|
    ensures Tail(sg, i) == [sg[i]] + Tail(sg, i + 1) && Total(Tail(sg, i)) == sg[i].len + Total(Tail(sg, i + 1))
  {
    assert sg[i..][1..] == sg[i + 1..];
    TotalCons(sg[i..]);
    hide Total;
  }

  lemma TailEnds(sg: seq<Iovec>)
    ensures Tail(sg, 0) == sg && Tail(sg, |sg|) == [] && Total([]) == 0
  {
  }

  /** The loop of iov_fill: mem is what memory is now, and filling the rest of the data gives the goal. */
  ghost predicate Filling(goal: seq<byte>, mem: seq<byte>, sg: seq<Iovec>, data: seq<byte>, done: nat) {
    InMemory(sg, |mem|) && done <= |data| && Filled(mem, sg, data[done..]) == goal
  }

  lemma FillStarts(mem: seq<byte>, sg: seq<Iovec>, data: seq<byte>)
    requires InMemory(sg, |mem|)
    ensures Filling(Filled(mem, sg, data), mem, sg, data, 0)
  {
    assert data[0..] == data;
  }

  lemma FillStep(goal: seq<byte>, mem: seq<byte>, sg: seq<Iovec>, data: seq<byte>, done: nat, cpy: nat)
    requires Filling(goal, mem, sg, data, done) && sg != [] && done < |data| && cpy == Min(|data| - done, sg[0].len)
    ensures sg[0].base + cpy <= |mem|
    ensures Filling(goal, Write(mem, sg[0].base, data[done..done + cpy]), sg[1..], data, done + cpy)
  {
    var d := data[done..];
    assert Filled(mem, sg, d) == Filled(Write(mem, sg[0].base, d[..cpy]), sg[1..], d[cpy..]);
    hide Filled, Write;
    assert d[..cpy] == data[done..done + cpy];
    assert d[cpy..] == data[done + cpy..];
  }

  lemma FillEnds(goal: seq<byte>, mem: seq<byte>, sg: seq<Iovec>, data: seq<byte>, done: nat)
    requires Filling(goal, mem, sg, data, done) && (sg == [] || done == |data|)
    ensures mem == goal
  {
  }

  /** One turn of iov_fill. */
  method FillSegment(ghost goal: seq<byte>, mem: array<byte>, seg: Iovec, ghost rest: seq<Iovec>, data: array<byte>, done: nat)
    returns (cpy: nat)
    requires mem != data && done < data.Length && Filling(goal, mem[..], [seg] + rest, data[..], done)
    modifies mem
    ensures cpy == Min(data.Length - done, seg.len) && Filling(goal, mem[..], rest, data[..], done + cpy)
  {
    cpy := Min(data.Length - done, seg.len);
    assert ([seg] + rest)[0] == seg && ([seg] + rest)[1..] == rest;
    FillStep(goal, mem[..], [seg] + rest, data[..], done, cpy);
    hide Filling, Write;
    Copy(mem, seg.base, data, done, cpy);
  }

  method IovFill(mem: array<byte>, sg: seq<Iovec>, data: array<byte>) returns (copied: nat)
    requires mem != data && InMemory(sg, mem.Length)
    modifies mem
    ensures mem[..] == Filled(old(mem[..]), sg, data[..])
    ensures copied == Min(data.Length, Total(sg))
  {
    copied := 0;
    var i := 0;
    ghost var goal := Filled(mem[..], sg, data[..]);
    FillStarts(mem[..], sg, data[..]);
    TailEnds(sg);
    hide Filling, Filled, Total, Tail, InMemory;
    while copied < data.Length && i < |sg|
      invariant i <= |sg| && copied <= data.Length
      invariant Filling(goal, mem[..], Tail(sg, i), data[..], copied)
      invariant copied + Min(data.Length - copied, Total(Tail(sg, i))) == Min(data.Length, Total(sg))
      decreases |sg| - i
    {
      TailStep(sg, i);
      var cpy := FillSegment(goal, mem, sg[i], Tail(sg, i + 1), data, copied);
      copied := copied + cpy;
      i := i + 1;
    }
    FillEnds(goal, mem[..], Tail(sg, i), data[..], copied);
  }

  /** The loop of iov_read: copied bytes are out, and reading the rest completes the goal. */
  ghost predicate Reading(goal: seq<byte>, was: seq<byte>, now: seq<byte>, copied: nat, mem: seq<byte>, sg: seq<Iovec>, left: nat) {
    && |now| == |was| == copied + left && InMemory(sg, |mem|)
    && now[..copied] + Gathered(mem, sg, left) == goal
    && now[copied..] == was[copied..]
  }

  lemma ReadStarts(was: seq<byte>, mem: seq<byte>, sg: seq<Iovec>)
    requires InMemory(sg, |mem|)
    ensures Reading(Gathered(mem, sg, |was|), was, was, 0, mem, sg, |was|)
  {
    assert was[..0] + Gathered(mem, sg, |was|) == Gathered(mem, sg, |was|);
  }

  lemma ReadStep(goal: seq<byte>, was: seq<byte>, now: seq<byte>, copied: nat, mem: seq<byte>, sg: seq<Iovec>, left: nat, cpy: nat)
    requires Reading(goal, was, now, copied, mem, sg, left) && sg != [] && left > 0 && cpy == Min(left, sg[0].len)
    ensures sg[0].base + cpy <= |mem|
    ensures Reading(goal, was, Write(now, copied, mem[sg[0].base..sg[0].base + cpy]), copied + cpy, mem, sg[1..], left - cpy)
  {
    var piece, rest := mem[sg[0].base..sg[0].base + cpy], Gathered(mem, sg[1..], left - cpy);
    assert Gathered(mem, sg, left) == piece + rest;
    hide Gathered;
    WriteParts(now, copied, piece);
    hide Write;
    assert now[..copied] + (piece + rest) == (now[..copied] + piece) + rest;
    SameEnd(was, now, copied, cpy);
  }

  lemma SameEnd(was: seq<byte>, now: seq<byte>, copied: nat, cpy: nat)
    requires |now| == |was| && copied + cpy <= |was| && now[copied..] == was[copied..]
    ensures now[copied..][cpy..] == was[copied + cpy..]
  {
    assert was[copied..][cpy..] == was[copied + cpy..];
  }

  lemma WriteParts(mem: seq<byte>, base: nat, d: seq<byte>)
    requires base + |d| <= |mem|
    ensures Write(mem, base, d)[..base + |d|] == mem[..base] + d
    ensures Write(mem, base, d)[base + |d|..] == mem[base..][|d|..]
  {
  }

  lemma ReadEnds(goal: seq<byte>, was: seq<byte>, now: seq<byte>, copied: nat, mem: seq<byte>, sg: seq<Iovec>, left: nat)
    requires Reading(goal, was, now, copied, mem, sg, left) && (left == 0 || sg == [])
    ensures copied <= |was| && now == goal + was[copied..]
  {
    assert Gathered(mem, sg, left) == [];
    assert now == now[..copied] + now[copied..];
  }

  /** One turn of iov_read. */
  method ReadSegment(ghost goal: seq<byte>, ghost was: seq<byte>, buf: array<byte>, done: nat, mem: array<byte>, seg: Iovec, ghost rest: seq<Iovec>)
    returns (cpy: nat)
    requires mem != buf && done < buf.Length && Reading(goal, was, buf[..], done, mem[..], [seg] + rest, buf.Length - done)
    modifies buf
    ensures cpy == Min(buf.Length - done, seg.len)
    ensures Reading(goal, was, buf[..], done + cpy, mem[..], rest, buf.Length - (done + cpy))
  {
    cpy := Min(buf.Length - done, seg.len);
    assert ([seg] + rest)[0] == seg && ([seg] + rest)[1..] == rest;
    ReadStep(goal, was, buf[..], done, mem[..], [seg] + rest, buf.Length - done, cpy);
    hide Reading, Write;
    Copy(buf, done, mem, seg.base, cpy);
  }

  method IovRead(buf: array<byte>, mem: array<byte>, sg: seq<Iovec>) returns (copied: nat)
    requires mem != buf && InMemory(sg, mem.Length)
    modifies buf
    ensures copied == Min(buf.Length, Total(sg))
    ensures buf[..] == Gathered(mem[..], sg, buf.Length) + old(buf[..])[copied..]
  {
    copied := 0;
    var i := 0;
    ghost var was, goal := buf[..], Gathered(mem[..], sg, buf.Length);
    ReadStarts(was, mem[..], sg);
    TailEnds(sg);
    hide Reading, Gathered, Total, Tail, InMemory;
    while copied < buf.Length && i < |sg|
      invariant i <= |sg| && copied <= buf.Length
      invariant Reading(goal, was, buf[..], copied, mem[..], Tail(sg, i), buf.Length - copied)
      invariant copied + Min(buf.Length - copied, Total(Tail(sg, i))) == Min(buf.Length, Total(sg))
      decreases |sg| - i
    {
      TailStep(sg, i);
      var cpy := ReadSegment(goal, was, buf, copied, mem, sg[i], Tail(sg, i + 1));
      copied := copied + cpy;
      i := i + 1;
    }
    ReadEnds(goal, was, buf[..], copied, mem[..], Tail(sg, i), buf.Length - copied);
  }
}
