/** Sending a reply that is spread over segments through a socket that may take only part of it at a time. */
module Reply {
  import opened Common

  function Flat(segs: seq<seq<byte>>): seq<byte> {
    if segs == [] then [] else segs[0] + Flat(segs[1..])
  }

  lemma {:induction false} FlatSnoc(a: seq<seq<byte>>, s: seq<byte>)
    ensures Flat(a + [s]) == Flat(a) + s
  {
    if a == [] {
      assert a + [s] == [s] && [s][1..] == [];
      assert Flat([s]) == s + [];
    } else {
      FlatSnoc(a[1..], s);
      assert (a + [s])[1..] == a[1..] + [s];
      Associates(a[0], Flat(a[1..]), s);
    }
  }

  lemma Associates(a: seq<byte>, b: seq<byte>, c: seq<byte>)
    ensures (a + b) + c == a + (b + c)
  {
  }

  function Front(segs: seq<seq<byte>>, i: nat): seq<seq<byte>>
    requires i <= |segs|
  {
    segs[..i]
  }

  function Rest(segs: seq<seq<byte>>, i: nat): seq<seq<byte>>
    requires i <= |segs|
  {
    segs[i..]
  }

  lemma Ends(segs: seq<seq<byte>>)
    ensures Front(segs, 0) == [] && Rest(segs, 0) == segs && Front(segs, |segs|) == segs && Rest(segs, |segs|) == []
  {
  }

  /** Replacing segment i extends the front by the new one and shortens the rest by the old one. */
  lemma Replace(segs: seq<seq<byte>>, i: nat, s: seq<byte>)
    requires i < |segs|
    ensures Flat(Front(segs[i := s], i + 1)) == Flat(Front(segs, i)) + s
    ensures Rest(segs[i := s], i + 1) == Rest(segs, i + 1)
    ensures Flat(Rest(segs, i)) == segs[i] + Flat(Rest(segs, i + 1))
  {
    assert segs[i := s][..i + 1] == segs[..i] + [s];
    FlatSnoc(segs[..i], s);
    assert segs[i..][1..] == segs[i + 1..];
    hide Flat;
    assert segs[i := s][i + 1..] == segs[i + 1..];
  }

  lemma {:induction false} FrontAndRest(segs: seq<seq<byte>>, i: nat)
    requires i <= |segs|
    ensures Flat(segs) == Flat(Front(segs, i)) + Flat(Rest(segs, i))
  {
    if i == 0 {
      FrontNothing(segs);
    } else {
      hide Flat, Front, Rest;
      FrontAndRest(segs, i - 1);
      var s := segs[i - 1];
      assert segs[i - 1 := s] == segs;
      Replace(segs, i - 1, s);
      Associates(Flat(Front(segs, i - 1)), s, Flat(Rest(segs, i)));
    }
  }

  lemma FrontNothing(segs: seq<seq<byte>>)
    ensures Flat(segs) == Flat(Front(segs, 0)) + Flat(Rest(segs, 0))
  {
    Ends(segs);
    hide Front, Rest;
    assert Flat([]) == [];
    assert [] + Flat(segs) == Flat(segs);
  }

  function Prefix(s: seq<byte>, n: nat): seq<byte> {
    if n <= |s| then s[..n] else s
  }

  lemma PrefixOfConcat(s: seq<byte>, rest: seq<byte>, n: nat)
    ensures Prefix(s + rest, n) == Prefix(s, n) + Prefix(rest, if n <= |s| then 0 else n - |s|)
  {
  }

  // ---------- shortening the segments to the reply ----------

  /** Segments before i are shortened, tmp bytes of the reply are in those from i on. */
  ghost predicate Truncated(was: seq<seq<byte>>, now: seq<seq<byte>>, i: nat, tmp: int, replyLen: nat) {
    && i <= |was| == |now| && 0 <= tmp <= replyLen && Rest(now, i) == Rest(was, i)
    && Flat(Front(now, i)) + Prefix(Flat(Rest(was, i)), tmp) == Prefix(Flat(was), replyLen)
  }

  lemma TruncateStep(was: seq<seq<byte>>, now: seq<seq<byte>>, i: nat, tmp: int, replyLen: nat)
    requires Truncated(was, now, i, tmp, replyLen) && i < |was| && tmp > 0
    ensures var s := Prefix(now[i], tmp);
      |s| <= tmp && Truncated(was, now[i := s], i + 1, tmp - |s|, replyLen)
  {
    assert now[i] == Rest(now, i)[0] == was[i] && Rest(now, i)[1..] == Rest(was, i)[1..];
    assert Rest(now, i + 1) == Rest(now, i)[1..] && Rest(was, i + 1) == Rest(was, i)[1..];
    var s := Prefix(now[i], tmp);
    Replace(now, i, s);
    Replace(was, i, s);
    hide Flat, Front, Rest;
    var rest := Flat(Rest(was, i + 1));
    PrefixOfConcat(was[i], rest, tmp);
    PrefixLength(was[i], rest, tmp);
    hide Prefix;
    Associates(Flat(Front(now, i)), s, Prefix(rest, tmp - |s|));
  }

  lemma PrefixLength(s: seq<byte>, rest: seq<byte>, n: nat)
    ensures |Prefix(s, n)| <= n && Prefix(rest, if n <= |s| then 0 else n - |s|) == Prefix(rest, n - |Prefix(s, n)|)
  {
  }

  lemma TruncateEnds(was: seq<seq<byte>>, now: seq<seq<byte>>, i: nat, tmp: int, replyLen: nat)
    requires Truncated(was, now, i, tmp, replyLen) && (tmp == 0 || i == |was|)
    ensures Flat(Front(now, i)) == Prefix(Flat(was), replyLen)
  {
    assert Prefix(Flat(Rest(was, i)), tmp) == [];
    assert Flat(Front(now, i)) + [] == Flat(Front(now, i));
  }

  /** Afterwards the first n segments are the reply. */
  method Truncate(iov: array<seq<byte>>, replyLen: nat) returns (n: nat)
    modifies iov
    ensures n <= iov.Length && Flat(Front(iov[..], n)) == Prefix(Flat(old(iov[..])), replyLen)
  {
    ghost var was := iov[..];
    var tmp: int := replyLen;
    n := 0;
    Ends(was);
    assert [] + Prefix(Flat(was), replyLen) == Prefix(Flat(was), replyLen);
    assert Truncated(was, was, 0, tmp, replyLen);
    hide Truncated, Flat, Front, Rest;
    while tmp > 0 && n < iov.Length
      invariant n <= iov.Length && Truncated(was, iov[..], n, tmp, replyLen)
      decreases iov.Length - n
    {
      tmp := TruncateOne(was, iov, n, tmp, replyLen);
      n := n + 1;
    }
    TruncateEnds(was, iov[..], n, tmp, replyLen);
  }

  /** One turn of that loop. */
  method TruncateOne(ghost was: seq<seq<byte>>, iov: array<seq<byte>>, i: nat, tmp: int, ghost replyLen: nat) returns (left: int)
    requires i < iov.Length == |was| && tmp > 0 && Truncated(was, iov[..], i, tmp, replyLen)
    modifies iov
    ensures Truncated(was, iov[..], i + 1, left, replyLen)
  {
    TruncateStep(was, iov[..], i, tmp, replyLen);
    assert iov[..][i := iov[i]] == iov[..];
    hide Truncated;
    if tmp <= |iov[i]| {
      iov[i] := iov[i][..tmp];
    }
    left := tmp - |iov[i]|;
  }

  // ---------- stepping over the bytes already sent ----------

  /** Of the first n segments, those before i are stepped over; len more bytes are to be. */
  ghost predicate Consumed(was: seq<seq<byte>>, now: seq<seq<byte>>, i: nat, len: int, sent: nat) {
    && i <= |was| == |now| && 0 <= len <= |Flat(Rest(was, i))| && sent <= |Flat(was)| && Rest(now, i) == Rest(was, i)
    && Flat(Front(now, i)) + Flat(Rest(was, i))[len..] == Flat(was)[sent..]
    && (len > 0 ==> Flat(Front(now, i)) == [])
  }

  lemma ConsumeStep(was: seq<seq<byte>>, now: seq<seq<byte>>, i: nat, len: int, sent: nat)
    requires Consumed(was, now, i, len, sent) && i < |was| && len > 0
    ensures var rm := |Prefix(now[i], len)|;
      Consumed(was, now[i := now[i][rm..]], i + 1, len - rm, sent)
  {
    assert now[i] == Rest(now, i)[0] == was[i];
    assert Rest(now, i + 1) == Rest(now, i)[1..] && Rest(was, i + 1) == Rest(was, i)[1..];
    var rm := |Prefix(now[i], len)|;
    Replace(now, i, now[i][rm..]);
    Replace(was, i, was[i]);
    hide Flat, Front, Rest;
    DropOfConcat(was[i], Flat(Rest(was, i + 1)), len);
  }

  lemma DropOfConcat(s: seq<byte>, rest: seq<byte>, n: nat)
    requires n <= |s + rest|
    ensures var rm := |Prefix(s, n)|; n - rm <= |rest| && (s + rest)[n..] == s[rm..] + rest[n - rm..]
    ensures [] + s[|Prefix(s, n)|..] == s[|Prefix(s, n)|..]
    ensures n > |Prefix(s, n)| ==> s[|Prefix(s, n)|..] == []
  {
  }

  lemma ConsumeStarts(was: seq<seq<byte>>, sent: nat)
    requires sent <= |Flat(was)|
    ensures Consumed(was, was, 0, sent, sent)
  {
    Ends(was);
    assert [] + Flat(was)[sent..] == Flat(was)[sent..];
  }

  lemma ConsumeEnds(was: seq<seq<byte>>, now: seq<seq<byte>>, i: nat, len: int, sent: nat)
    requires Consumed(was, now, i, len, sent) && (len == 0 || i == |was|)
    ensures sent <= |Flat(was)| && Flat(now) == Flat(was)[sent..]
  {
    FrontAndRest(now, i);
    assert Flat(Rest(was, i))[len..] == Flat(Rest(was, i)) by { if i == |was| { Ends(was); } }
    hide Flat, Front, Rest;
  }

  method Consume(iov: array<seq<byte>>, n: nat, sent: nat)
    requires n <= iov.Length && sent <= |Flat(Front(iov[..], n))|
    modifies iov
    ensures Flat(Front(iov[..], n)) == Flat(Front(old(iov[..]), n))[sent..]
  {
    ghost var was := Front(iov[..], n);
    var len: int, i := sent, 0;
    ConsumeStarts(was, sent);
    assert |was| == n;
    hide Consumed, Flat, Front, Rest;
    while len > 0 && i < n
      invariant i <= n && Consumed(was, Front(iov[..], n), i, len, sent)
      decreases n - i
    {
      len := ConsumeOne(was, iov, n, i, len, sent);
      i := i + 1;
    }
    ConsumeEnds(was, Front(iov[..], n), i, len, sent);
  }

  /** One turn of that loop. */
  method ConsumeOne(ghost was: seq<seq<byte>>, iov: array<seq<byte>>, n: nat, i: nat, len: int, ghost sent: nat) returns (left: int)
    requires i < n <= iov.Length && n == |was| && len > 0 && Consumed(was, Front(iov[..], n), i, len, sent)
    modifies iov
    ensures Consumed(was, Front(iov[..], n), i + 1, left, sent)
  {
    ConsumeStep(was, Front(iov[..], n), i, len, sent);
    ghost var now := Front(iov[..], n);
    assert now[i] == iov[i];
    var rm := if |iov[i]| <= len then |iov[i]| else len;
    hide Consumed;
    left := len - rm;
    iov[i] := iov[i][rm..];
    assert Front(iov[..], n) == now[i := now[i][rm..]];
  }

  // ---------- sending ----------

  /** Done, an error of the socket, or the failed assertion that something was accepted. */
  datatype Outcome = Done | Failed | Nothing

  /** What is sent and what the segments still hold make up the reply. */
  ghost predicate Sending(goal: seq<byte>, sent: seq<byte>, rest: seq<byte>) {
    sent + rest == goal
  }

  lemma SendStep(goal: seq<byte>, sent: seq<byte>, rest: seq<byte>, len: nat)
    requires Sending(goal, sent, rest) && len <= |rest|
    ensures Sending(goal, sent + rest[..len], rest[len..])
  {
    assert rest[..len] + rest[len..] == rest;
  }

  lemma SendEnds(all: seq<byte>, replyLen: nat, sent: seq<byte>, rest: seq<byte>)
    requires Sending(Prefix(all, replyLen), sent, rest)
    ensures sent <= all
    ensures |sent| == replyLen ==> replyLen <= |all| && sent == all[..replyLen]
    ensures |sent| < replyLen && rest == [] ==> |all| < replyLen && sent == all
  {
    assert sent == Prefix(all, replyLen)[..|sent|];
  }

  /**
   * The reply: accept(k, offered) is what the k-th call of sendmsg returns when it is offered some
   * bytes, at most all of them, negative for an error, and 0 only when offered nothing. Whatever it
   * accepts, the bytes sent are a prefix of the segments, each once: the first replyLen bytes unless
   * the socket fails first or the segments hold less than replyLen.
   */
  method Send(iov: array<seq<byte>>, replyLen: nat, accept: (nat, seq<byte>) -> int) returns (sent: seq<byte>, outcome: Outcome)
    requires forall k: nat, d: seq<byte> :: accept(k, d) <= |d| && (accept(k, d) == 0 ==> d == [])
    modifies iov
    ensures var all := Flat(old(iov[..]));
      match outcome
      case Done => replyLen <= |all| && sent == all[..replyLen]
      case Failed => sent <= all && |sent| < replyLen
      case Nothing => |all| < replyLen && sent == all
  {
    ghost var all := Flat(iov[..]);
    var n := Truncate(iov, replyLen);
    var left, k: nat := replyLen, 0;
    sent := [];
    assert Sending(Prefix(all, replyLen), sent, Flat(Front(iov[..], n)));
    hide Sending, Prefix, Flat, Front;
    while left > 0
      invariant left + |sent| == replyLen && Sending(Prefix(all, replyLen), sent, Flat(Front(iov[..], n)))
      decreases left
    {
      var offered := Flat(Front(iov[..], n));
      SendEnds(all, replyLen, sent, offered);
      var len := accept(k, offered);
      if len < 0 {
        return sent, Failed;
      }
      if len == 0 {
        return sent, Nothing;
      }
      SendStep(Prefix(all, replyLen), sent, offered, len);
      SendFits(all, replyLen, sent, offered);
      left := left - len;
      Consume(iov, n, len);
      sent := sent + offered[..len];
      k := k + 1;
    }
    SendEnds(all, replyLen, sent, Flat(Front(iov[..], n)));
    outcome := Done;
  }

  lemma SendFits(all: seq<byte>, replyLen: nat, sent: seq<byte>, rest: seq<byte>)
    requires Sending(Prefix(all, replyLen), sent, rest)
    ensures |sent| + |rest| <= replyLen
  {
    assert |sent + rest| == |sent| + |rest|;
  }
}
