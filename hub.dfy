/** The WebSocket broadcast hub of the API server (`ConnectionManager`):
    a list of live connections with append, guarded removal and a fan-out
    that walks the live list back to front and drops a connection as soon
    as a send to it fails. Connections are identified by number; whether a
    send raises is an oracle. */
module Hub {
  import opened Seqs

  type ConnId = nat

  /** What one broadcast leaves behind: the connection list afterwards and
      the connections a send was attempted on, in attempt order. */
  datatype Walk = Walk(remaining: seq<ConnId>, attempted: seq<ConnId>)

  /** The fan-out loop from list index `i` downwards, following CPython's
      reverse list iterator: it reads the LIVE list at index `i`, stops once
      `i` is negative or past the end, and otherwise steps to `i - 1`. A
      failing send removes the first occurrence of that connection. */
  function BroadcastWalk(active: seq<ConnId>, i: int, fails: ConnId -> bool): Walk
    decreases i + 1
  {
    if i < 0 || i >= |active| then Walk(active, [])
    else
      var c := active[i];
      var next := if fails(c) then RemoveFirst(active, c) else active;
      var rest := BroadcastWalk(next, i - 1, fails);
      Walk(rest.remaining, [c] + rest.attempted)
  }

  /** The connections of `s` whose send succeeds, in registration order. */
  function Survivors(s: seq<ConnId>, fails: ConnId -> bool): (r: seq<ConnId>)
    ensures |r| <= |s|
    ensures forall i :: 0 <= i < |r| ==> r[i] in s && !fails(r[i])
    ensures forall i :: 0 <= i < |s| && !fails(s[i]) ==> s[i] in r
  {
    if s == [] then []
    else
      var front := s[..|s| - 1];
      assert forall i :: 0 <= i < |s| - 1 ==> s[i] == front[i];
      Survivors(front, fails) + (if fails(s[|s| - 1]) then [] else [s[|s| - 1]])
  }

  class ConnectionManager {
    var active: seq<ConnId>

    constructor ()
      ensures active == []
    {
      active := [];
    }

    /** `connect`: once the handshake (`accept`) succeeds the connection is
        appended; a failed handshake raises before the append. */
    method Connect(c: ConnId, acceptOk: bool)
      modifies this
      ensures acceptOk ==> active == old(active) + [c]
      ensures !acceptOk ==> active == old(active)
    {
      if acceptOk {
        active := active + [c];
      }
    }

    /** `disconnect`: removes the first occurrence when present. */
    method Disconnect(c: ConnId)
      modifies this
      ensures active == RemoveFirst(old(active), c)
      ensures c in old(active) ==> |active| == |old(active)| - 1
      ensures c !in old(active) ==> active == old(active)
    {
      if c in active {
        active := RemoveFirst(active, c);
      }
    }

    /** `broadcast`: walks the live list from its last index down and
        disconnects each connection whose send raises. Returns the
        connections a send was attempted on, in order. */
    method Broadcast(fails: ConnId -> bool) returns (attempted: seq<ConnId>)
      modifies this
      ensures Walk(active, attempted) == BroadcastWalk(old(active), |old(active)| - 1, fails)
      ensures Distinct(old(active)) ==>
                attempted == Reverse(old(active)) && active == Survivors(old(active), fails)
    {
      ghost var start := active;
      ghost var whole := BroadcastWalk(start, |start| - 1, fails);
      var i := |active| - 1;
      attempted := [];
      while 0 <= i < |active|
        invariant whole.remaining == BroadcastWalk(active, i, fails).remaining
        invariant whole.attempted == attempted + BroadcastWalk(active, i, fails).attempted
        decreases i + 1
      {
        var c := Visit(i, fails);
        ghost var tail := BroadcastWalk(active, i - 1, fails).attempted;
        assert (attempted + [c]) + tail == attempted + ([c] + tail);
        attempted := attempted + [c];
        i := i - 1;
      }
      assert BroadcastWalk(active, i, fails) == Walk(active, []);
      assert attempted + [] == attempted;
      assert whole == Walk(active, attempted);
      if Distinct(start) {
        BroadcastDistinct(start, fails);
      }
    }

    /** One pass of the fan-out loop at index `i`: the send to the
        connection there is attempted and, if it raises, that connection
        is disconnected. */
    method Visit(i: int, fails: ConnId -> bool) returns (c: ConnId)
      requires 0 <= i < |active|
      modifies this
      ensures c == old(active)[i]
      ensures active == if fails(c) then RemoveFirst(old(active), c) else old(active)
      ensures BroadcastWalk(old(active), i, fails)
                == Walk(BroadcastWalk(active, i - 1, fails).remaining,
                        [c] + BroadcastWalk(active, i - 1, fails).attempted)
    {
      WalkStep(active, i, fails);
      c := active[i];
      if fails(c) {
        Disconnect(c);
      }
    }
  }

  /** One step of the walk at a valid index. */
  lemma WalkStep(s: seq<ConnId>, i: int, fails: ConnId -> bool)
    requires 0 <= i < |s|
    ensures var next := if fails(s[i]) then RemoveFirst(s, s[i]) else s;
            BroadcastWalk(s, i, fails)
              == Walk(BroadcastWalk(next, i - 1, fails).remaining,
                      [s[i]] + BroadcastWalk(next, i - 1, fails).attempted)
  {
  }

  /** Survivors of a list grown at the back. */
  lemma SurvivorsSnoc(front: seq<ConnId>, c: ConnId, fails: ConnId -> bool)
    ensures Survivors(front + [c], fails)
              == Survivors(front, fails) + (if fails(c) then [] else [c])
  {
    assert (front + [c])[..|front|] == front;
  }

  /** Reverse of a list grown at the back. */
  lemma ReverseSnoc(front: seq<ConnId>, c: ConnId)
    ensures Reverse(front + [c]) == [c] + Reverse(front)
  {
    assert (front + [c])[..|front|] == front;
  }

  /** Splitting a duplicate-free list before its last element. */
  lemma DistinctSnoc(front: seq<ConnId>, c: ConnId)
    requires Distinct(front + [c])
    ensures Distinct(front) && c !in front
  {
    var p := front + [c];
    assert p[|front|] == c;
    assert forall j :: 0 <= j < |front| ==> front[j] == p[j];
  }

  /** Extending a walked prefix by a last element whose send fails: the
      element is attempted first and then removed. */
  lemma {:induction false} WalkFailing(front: seq<ConnId>, c: ConnId, q: seq<ConnId>, fails: ConnId -> bool)
    requires fails(c) && c !in front
    requires BroadcastWalk(front + q, |front| - 1, fails)
               == Walk(Survivors(front, fails) + q, Reverse(front))
    ensures BroadcastWalk(front + [c] + q, |front|, fails)
              == Walk(Survivors(front + [c], fails) + q, Reverse(front + [c]))
  {
    WalkStep(front + [c] + q, |front|, fails);
    assert (front + [c] + q)[|front|] == c;
    RemoveFirstAfter(front, c, q);
    ReverseSnoc(front, c);
    SurvivorsSnoc(front, c, fails);
    assert Survivors(front, fails) + [] == Survivors(front, fails);
  }

  /** Extending a walked prefix by a last element whose send succeeds: the
      element is attempted first and stays in place. */
  lemma {:induction false} WalkPassing(front: seq<ConnId>, c: ConnId, q: seq<ConnId>, fails: ConnId -> bool)
    requires !fails(c)
    requires BroadcastWalk(front + ([c] + q), |front| - 1, fails)
               == Walk(Survivors(front, fails) + ([c] + q), Reverse(front))
    ensures BroadcastWalk(front + [c] + q, |front|, fails)
              == Walk(Survivors(front + [c], fails) + q, Reverse(front + [c]))
  {
    var s := front + [c] + q;
    assert s == front + ([c] + q);
    assert s[|front|] == c;
    WalkStep(s, |front|, fails);
    ReverseSnoc(front, c);
    SurvivorsSnoc(front, c, fails);
    var sv := Survivors(front, fails);
    var w := BroadcastWalk(s, |front|, fails);
    assert w.attempted == [c] + Reverse(front);
    assert w.remaining == sv + ([c] + q);
    assert sv + ([c] + q) == (sv + [c]) + q;
  }

  /** The heart of the fan-out: a duplicate-free prefix `p` walked back to
      front while an arbitrary tail `q` sits after it. Each member of `p` is
      attempted once, in reverse order, and the failed ones vanish. */
  lemma {:induction false} WalkPrefix(p: seq<ConnId>, q: seq<ConnId>, fails: ConnId -> bool)
    requires Distinct(p)
    ensures BroadcastWalk(p + q, |p| - 1, fails) == Walk(Survivors(p, fails) + q, Reverse(p))
  {
    if p == [] {
      assert p + q == q;
    } else {
      var c, front := p[|p| - 1], p[..|p| - 1];
      assert p == front + [c];
      DistinctSnoc(front, c);
      if fails(c) {
        WalkPrefix(front, q, fails);
        WalkFailing(front, c, q, fails);
      } else {
        WalkPrefix(front, [c] + q, fails);
        WalkPassing(front, c, q, fails);
      }
    }
  }

  /** With distinct connections, broadcast attempts every registered
      connection exactly once, last registered first, and leaves the list
      with the failed ones filtered out and the order of the rest kept. */
  lemma BroadcastDistinct(s: seq<ConnId>, fails: ConnId -> bool)
    requires Distinct(s)
    ensures BroadcastWalk(s, |s| - 1, fails) == Walk(Survivors(s, fails), Reverse(s))
  {
    WalkPrefix(s, [], fails);
    assert s + [] == s;
    assert Survivors(s, fails) + [] == Survivors(s, fails);
  }

  /** Whatever the list looks like, broadcast only ever attempts connections
      that were registered when it started, and never more sends than there
      were entries. */
  lemma {:induction false} AttemptsAreRegistered(s: seq<ConnId>, i: int, fails: ConnId -> bool)
    requires -1 <= i < |s|
    ensures forall k :: 0 <= k < |BroadcastWalk(s, i, fails).attempted| ==>
              BroadcastWalk(s, i, fails).attempted[k] in s
    ensures |BroadcastWalk(s, i, fails).attempted| <= i + 1
    decreases i + 1
  {
    if 0 <= i {
      var c := s[i];
      var next := if fails(c) then RemoveFirst(s, c) else s;
      AttemptsAreRegistered(next, i - 1, fails);
      var rest := BroadcastWalk(next, i - 1, fails).attempted;
      assert BroadcastWalk(s, i, fails).attempted == [c] + rest;
      RemoveFirstMembers(s, c);
      assert forall k :: 0 <= k < |rest| ==> rest[k] in next;
      assert forall k :: 0 <= k < |next| ==> next[k] in s;
    }
  }

  /** Filtering keeps a list duplicate-free. */
  lemma {:induction false} SurvivorsDistinct(s: seq<ConnId>, fails: ConnId -> bool)
    requires Distinct(s)
    ensures Distinct(Survivors(s, fails))
  {
    if s != [] {
      var front, c := s[..|s| - 1], s[|s| - 1];
      assert s == front + [c];
      DistinctSnoc(front, c);
      SurvivorsDistinct(front, fails);
      var sv := Survivors(front, fails);
      assert c !in sv;
      assert Survivors(s, fails) == sv + (if fails(c) then [] else [c]);
    }
  }

  /** A connection absent from a list is absent from its reversal. */
  lemma NotInReverse(r: seq<ConnId>, c: ConnId)
    requires c !in r
    ensures c !in Reverse(r)
  {
    var rv := Reverse(r);
    forall i | 0 <= i < |rv| ensures rv[i] != c {
      assert rv[i] == r[|r| - 1 - i];
    }
  }

  /** A connection absent from a list is absent from its survivors. */
  lemma NotInSurvivors(r: seq<ConnId>, c: ConnId, fails: ConnId -> bool)
    requires c !in r
    ensures c !in Survivors(r, fails)
  {
    var sv := Survivors(r, fails);
    forall i | 0 <= i < |sv| ensures sv[i] != c {
      assert sv[i] in r;
    }
  }

  /** After `disconnect(c)` on a duplicate-free list, the next broadcast
      does not send to `c`, and the list it leaves still lacks `c` and is
      still duplicate-free; so no later broadcast sends to `c` either. */
  lemma NoSendAfterDisconnect(s: seq<ConnId>, c: ConnId, fails: ConnId -> bool)
    requires Distinct(s)
    ensures var w := BroadcastWalk(RemoveFirst(s, c), |RemoveFirst(s, c)| - 1, fails);
            c !in w.attempted && c !in w.remaining && Distinct(w.remaining)
  {
    var r := RemoveFirst(s, c);
    RemoveFirstDistinct(s, c);
    BroadcastDistinct(r, fails);
    SurvivorsDistinct(r, fails);
    NotInReverse(r, c);
    NotInSurvivors(r, c, fails);
  }

  /** Why distinctness matters: with connection 1 registered twice around
      connection 2 and its sends failing, `remove` takes the EARLIER copy, the
      current one slides into the next index and is attempted again, so the
      attempts are not the reverse registration order. */
  lemma DuplicateIsRevisited()
    ensures BroadcastWalk([1, 2, 1], 2, c => c == 1) == Walk([2], [1, 1, 2])
    ensures Reverse([1, 2, 1]) != [1, 1, 2]
  {
    var fails := c => c == 1;
    assert RemoveFirst([1, 2, 1], 1) == [2, 1];
    assert RemoveFirst([2, 1], 1) == [2] by {
      assert RemoveFirst([1], 1) == [];
    }
    assert BroadcastWalk([2], 0, fails) == Walk([2], [2]) by {
      assert BroadcastWalk([2], -1, fails) == Walk([2], []);
    }
    assert BroadcastWalk([2, 1], 1, fails) == Walk([2], [1, 2]);
    assert Reverse([1, 2, 1])[1] == 2;
  }
}
