/** No reachable state of the writers is deadlocked: every wait leads, from holder to holder,
    to a process that can go on. */
module Deadlock {
  import opened Store
  import opened Protocol

  predicate Awaits(s: System, p: nat, l: Lock) {
    && Unfinished(s, p)
    && (s.procs[p].rest[0] == LockSession(l) || s.procs[p].rest[0] == LockTx(l))
    && l !in Held(s.procs[p].own)
  }

  /** `p` cannot go on before `q` gives something back. */
  predicate BlockedBy(s: System, p: nat, q: nat) {
    && Unfinished(s, p) && q < |s.procs| && q != p
    && (|| (s.procs[p].rest[0] == TakeConn && s.pool <= Conns(s.procs, |s.procs|) && s.procs[q].own.conn)
        || (exists l :: l in Held(s.procs[q].own) && Awaits(s, p, l)))
  }

  ghost predicate Chain(s: System, path: seq<nat>) {
    path != [] && forall i :: 0 <= i < |path| - 1 ==> BlockedBy(s, path[i], path[i + 1])
  }

  /** Processes that wait for a lock beyond `l`. */
  function WaitersBeyond(s: System, l: Lock): set<nat> {
    set p | 0 <= p < |s.procs| && Unfinished(s, p) && !Enabled(s, p)
            && (s.procs[p].rest[0].LockSession? || s.procs[p].rest[0].LockTx?) && Less(l, s.procs[p].rest[0].lock)
  }

  lemma {:induction false} SomeoneHasConn(procs: seq<Process>, n: nat) returns (q: nat)
    requires n <= |procs| && Conns(procs, n) > 0
    ensures q < n && procs[q].own.conn
  {
    if procs[n - 1].own.conn {
      q := n - 1;
    } else {
      q := SomeoneHasConn(procs, n - 1);
    }
  }

  /** Whoever owns something is unfinished: a finished process has given everything back. */
  lemma OwnersAreUnfinished(s: System, q: nat)
    requires Orderly(s) && q < |s.procs| && (s.procs[q].own.conn || Held(s.procs[q].own) != {})
    ensures Unfinished(s, q) && s.procs[q].rest[0] != TakeConn
  {
    assert Disciplined(s.registry, s.procs[q].own, s.procs[q].rest);
  }

  /** The lock a process waits for lies beyond every lock it holds. */
  lemma AwaitedLiesBeyond(s: System, q: nat, l: Lock, h: Lock)
    requires Orderly(s) && Awaits(s, q, l) && h in Held(s.procs[q].own)
    ensures Less(h, l)
  {
    assert Disciplined(s.registry, s.procs[q].own, s.procs[q].rest);
  }

  lemma FewerBeyond(s: System, p: nat, l: Lock, l': Lock)
    requires Unfinished(s, p) && !Enabled(s, p) && Awaits(s, p, l') && Less(l, l')
    ensures WaitersBeyond(s, l') < WaitersBeyond(s, l)
  {
    LessIrreflexive(l');
    forall q | q in WaitersBeyond(s, l') ensures q in WaitersBeyond(s, l) {
      LessTransitive(l, l', s.procs[q].rest[0].lock);
    }
    assert p in WaitersBeyond(s, l) && p !in WaitersBeyond(s, l');
  }

  /** From the owner of a lock onwards. */
  lemma {:induction false} OwnerChain(s: System, q: nat, h: Lock) returns (path: seq<nat>)
    requires Orderly(s) && q < |s.procs| && h in Held(s.procs[q].own)
    ensures Chain(s, path) && path[0] == q && Enabled(s, path[|path| - 1])
    decreases WaitersBeyond(s, h)
  {
    OwnersAreUnfinished(s, q);
    if Enabled(s, q) {
      path := [q];
    } else {
      path := BlockedOwner(s, q, h);
    }
  }

  lemma {:induction false} BlockedOwner(s: System, q: nat, h: Lock) returns (path: seq<nat>)
    requires Orderly(s) && Unfinished(s, q) && h in Held(s.procs[q].own) && !Enabled(s, q) && s.procs[q].rest[0] != TakeConn
    ensures Chain(s, path) && path[0] == q && Enabled(s, path[|path| - 1])
    decreases WaitersBeyond(s, h), 0
  {
    hide Orderly, Disciplined, Less;
    var l := s.procs[q].rest[0].lock;
    assert Awaits(s, q, l);
    var o :| 0 <= o < |s.procs| && o != q && l in Held(s.procs[o].own);
    AwaitedLiesBeyond(s, q, l, h);
    FewerBeyond(s, q, h, l);
    var tail := OwnerChain(s, o, l);
    path := [q] + tail;
    assert BlockedBy(s, q, o);
  }

  /** Every unfinished process waits, if at all, for one that can take its next step. */
  lemma EveryWaitEnds(s: System, p: nat) returns (path: seq<nat>)
    requires Orderly(s) && s.pool > 0 && Unfinished(s, p)
    ensures Chain(s, path) && path[0] == p && Enabled(s, path[|path| - 1])
  {
    hide Orderly, Less;
    if Enabled(s, p) {
      return [p];
    }
    var q, tail;
    if s.procs[p].rest[0] == TakeConn {
      q := SomeoneHasConn(s.procs, |s.procs|);
      OwnersAreUnfinished(s, q);
      if Enabled(s, q) {
        tail := [q];
      } else {
        var l := s.procs[q].rest[0].lock;
        assert Awaits(s, q, l);
        var o :| 0 <= o < |s.procs| && o != q && l in Held(s.procs[o].own);
        var rest := OwnerChain(s, o, l);
        assert BlockedBy(s, q, o);
        tail := [q] + rest;
      }
    } else {
      var l := s.procs[p].rest[0].lock;
      assert Awaits(s, p, l);
      q :| 0 <= q < |s.procs| && q != p && l in Held(s.procs[q].own);
      tail := OwnerChain(s, q, l);
    }
    assert BlockedBy(s, p, q);
    path := [p] + tail;
  }

  /** In no state of any run are unfinished writers stuck. */
  lemma NeverDeadlocked(s: System, moves: seq<Move>, p: nat)
    requires Orderly(s) && s.pool > 0 && CanRun(s, moves) && Unfinished(After(s, moves), p)
    ensures exists q: nat :: Enabled(After(s, moves), q)
    ensures exists path :: Chain(After(s, moves), path) && path[0] == p && Enabled(After(s, moves), path[|path| - 1])
  {
    RunKeepsOrderly(s, moves);
    PoolStays(s, moves);
    var path := EveryWaitEnds(After(s, moves), p);
    assert Enabled(After(s, moves), path[|path| - 1]);
  }

  lemma {:induction false} PoolStays(s: System, moves: seq<Move>)
    requires CanRun(s, moves)
    ensures After(s, moves).pool == s.pool && After(s, moves).registry == s.registry
    decreases |moves|
  {
    if moves != [] {
      PoolStays(Moved(s, moves[0]), moves[1..]);
    }
  }
}
