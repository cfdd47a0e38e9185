/** Why the protocol is as it is: two programs that break its discipline, and what they can
    do.  One prunes without document locks, the other borrows a second connection. */
module Hazards {
  import opened Store
  import opened Protocol
  import opened Deadlock
  import opened Isolation

  /** A publication and a cleanup of the same document under different profiles, each with its
      profile's lock only. */
  function Publisher(k: DocKey): Process {
    Process(Own(true, {}, {ProfileLock("a")}, true, {}), [Exec(InsertSource(k)), Exec(InsertPub(k, "a")), EndTx], {}, {})
  }

  function Cleaner(k: DocKey): Process {
    Process(Own(true, {}, {ProfileLock("b")}, true, {}), [Exec(DeletePub(k, "b")), Exec(PruneSource(k)), EndTx], {}, {})
  }

  function Unguarded(k: DocKey): System {
    System(2, {"a", "b"}, {SourceRow(k), PubRow(k, "b")}, [Publisher(k), Cleaner(k)])
  }

  function PublisherDone(k: DocKey): Process {
    Process(Own(true, {}, {ProfileLock("a")}, true, {SourceRow(k), PubRow(k, "a")}), [EndTx], {PubRow(k, "a")}, {})
  }

  lemma PublisherWrites(k: DocKey)
    ensures CanRun(Unguarded(k), [Advance(0), Advance(0)])
    ensures After(Unguarded(k), [Advance(0), Advance(0)]) == Unguarded(k).(procs := [PublisherDone(k), Cleaner(k)])
  {
    var s := Unguarded(k);
    var one := Moved(s, Advance(0));
    assert View(s, 0) == {SourceRow(k), PubRow(k, "b")};
    assert Added(View(s, 0), InsertSource(k)) == {};
    assert one.procs[0] == Process(Own(true, {}, {ProfileLock("a")}, true, {SourceRow(k)}), [Exec(InsertPub(k, "a")), EndTx], {}, {});
    assert View(one, 0) == {SourceRow(k), PubRow(k, "b")};
    assert Added(View(one, 0), InsertPub(k, "a")) == {PubRow(k, "a")};
    assert {SourceRow(k)} + {PubRow(k, "a")} == {SourceRow(k), PubRow(k, "a")};
    var two := Moved(one, Advance(0));
    assert two.procs[0] == PublisherDone(k);
    assert two.procs == [PublisherDone(k), Cleaner(k)];
    assert [Advance(0), Advance(0)][1..] == [Advance(0)];
    assert [Advance(0)][1..] == [];
  }

  /** What the publication sees once the cleanup beside it has committed. */
  function Pruned(k: DocKey): System {
    Unguarded(k).(committed := {}, procs := [PublisherDone(k), Process(Own(true, {}, {}, false, {}), [], {}, {})])
  }

  /** The cleanup after `n` of its steps: its publication deleted, then the source. */
  function CleanerAt(k: DocKey, n: nat): Process {
    if n == 0 then Cleaner(k)
    else if n == 1 then
      Process(Own(true, {}, {ProfileLock("b")}, true, {}), [Exec(PruneSource(k)), EndTx], {}, {PubRow(k, "b")})
    else Process(Own(true, {}, {ProfileLock("b")}, true, {}), [EndTx], {}, {PubRow(k, "b"), SourceRow(k)})
  }

  function CleaningAt(k: DocKey, n: nat): System {
    Unguarded(k).(procs := [PublisherDone(k), CleanerAt(k, n)])
  }

  lemma CleanerDeletes(k: DocKey)
    ensures CanMove(CleaningAt(k, 0), Advance(1)) && Moved(CleaningAt(k, 0), Advance(1)) == CleaningAt(k, 1)
  {
    var s := CleaningAt(k, 0);
    assert View(s, 1) == {SourceRow(k), PubRow(k, "b")};
    assert Removed(View(s, 1), DeletePub(k, "b")) == {PubRow(k, "b")};
    assert Moved(s, Advance(1)).procs[1] == CleanerAt(k, 1);
    assert Moved(s, Advance(1)).procs == CleaningAt(k, 1).procs;
  }

  lemma CleanerPrunes(k: DocKey)
    ensures CanMove(CleaningAt(k, 1), Advance(1)) && Moved(CleaningAt(k, 1), Advance(1)) == CleaningAt(k, 2)
  {
    var s := CleaningAt(k, 1);
    assert View(s, 1) == {SourceRow(k)};
    assert !Protocol.Published(View(s, 1), k);
    assert Removed(View(s, 1), PruneSource(k)) == {SourceRow(k)};
    assert Moved(s, Advance(1)).procs[1] == CleanerAt(k, 2);
    assert Moved(s, Advance(1)).procs == CleaningAt(k, 2).procs;
  }

  lemma CleanerEnds(k: DocKey)
    ensures CanMove(CleaningAt(k, 2), Advance(1)) && Moved(CleaningAt(k, 2), Advance(1)) == Pruned(k)
  {
    var s := CleaningAt(k, 2);
    assert View(s, 1) == {};
    assert [EndTx][1..] == [];
    assert Moved(s, Advance(1)).procs[1] == Pruned(k).procs[1];
    assert Moved(s, Advance(1)).procs == Pruned(k).procs;
  }

  lemma PublisherEnds(k: DocKey)
    ensures CanMove(Pruned(k), Advance(0)) && Moved(Pruned(k), Advance(0)).committed == {PubRow(k, "a")}
  {
    assert View(Pruned(k), 0) == {PubRow(k, "a")};
  }

  lemma CleanerCommits(k: DocKey)
    ensures var s := Unguarded(k).(procs := [PublisherDone(k), Cleaner(k)]);
            && CanRun(s, [Advance(1), Advance(1), Advance(1), Advance(0)])
            && After(s, [Advance(1), Advance(1), Advance(1), Advance(0)]).committed == {PubRow(k, "a")}
  {
    hide Moved, CanMove;
    assert Unguarded(k).(procs := [PublisherDone(k), Cleaner(k)]) == CleaningAt(k, 0);
    CleanerDeletes(k);
    CleanerPrunes(k);
    CleanerEnds(k);
    PublisherEnds(k);
    var moves := [Advance(1), Advance(1), Advance(1), Advance(0)];
    assert moves[1..] == [Advance(1), Advance(1), Advance(0)];
    assert moves[1..][1..] == [Advance(1), Advance(0)];
    assert moves[1..][1..][1..] == [Advance(0)];
    assert [Advance(0)][1..] == [];
  }

  /** Where both begin: nothing owned, each about to take a connection and its profile's lock. */
  function Unstarted(k: DocKey): System {
    Unguarded(k).(procs := [
      Process(NOTHING, [TakeConn, LockTx(ProfileLock("a"))] + Publisher(k).rest, {}, {}),
      Process(NOTHING, [TakeConn, LockTx(ProfileLock("b"))] + Cleaner(k).rest, {}, {})])
  }

  lemma StartedUnguarded(k: DocKey)
    ensures CanRun(Unstarted(k), [Advance(0), Advance(0), Advance(1), Advance(1)])
    ensures After(Unstarted(k), [Advance(0), Advance(0), Advance(1), Advance(1)]) == Unguarded(k)
  {
    var s := Unstarted(k);
    assert Conns(s.procs, 1) == 0;
    var one := TakesConn(s, 0);
    var two := TakesLock(one, 0, ProfileLock("a"));
    assert Conns(two.procs, 1) == 1;
    var three := TakesConn(two, 1);
    var four := TakesLock(three, 1, ProfileLock("b"));
    assert two.procs[0] == Publisher(k) && four.procs[1] == Cleaner(k);
    assert four == Unguarded(k);
    FirstMove(three, Advance(1), []);
    FirstMove(two, Advance(1), [Advance(1)]);
    FirstMove(one, Advance(0), [Advance(1), Advance(1)]);
    FirstMove(s, Advance(0), [Advance(0), Advance(1), Advance(1)]);
  }

  lemma TakesConn(s: System, p: nat) returns (t: System)
    requires Enabled(s, p) && s.procs[p].rest[0] == TakeConn
    ensures CanMove(s, Advance(p)) && t == Moved(s, Advance(p))
    ensures t == s.(procs := s.procs[p := s.procs[p].(own := s.procs[p].own.(conn := true), rest := s.procs[p].rest[1..])])
  {
    t := Moved(s, Advance(p));
  }

  lemma TakesLock(s: System, p: nat, l: Lock) returns (t: System)
    requires Enabled(s, p) && s.procs[p].rest[0] == LockTx(l)
    ensures CanMove(s, Advance(p)) && t == Moved(s, Advance(p))
    ensures t == s.(procs := s.procs[p := s.procs[p].(own := Apply(s.procs[p].own, LockTx(l)), rest := s.procs[p].rest[1..])])
  {
    t := Moved(s, Advance(p));
  }

  lemma FirstMove(s: System, m: Move, moves: seq<Move>)
    requires CanMove(s, m) && CanRun(Moved(s, m), moves)
    ensures CanRun(s, [m] + moves) && After(s, [m] + moves) == After(Moved(s, m), moves)
  {
    hide Moved, CanMove;
    assert ([m] + moves)[1..] == moves;
  }

  /** Without document locks, pruning can take the source of a publication that is being
      written under another profile: from where both begin, some run commits the publication
      without its source. */
  lemma WithoutDocumentLocks(k: DocKey)
    ensures Good(Unstarted(k).committed, k)
    ensures exists moves :: CanRun(Unstarted(k), moves) && !Good(After(Unstarted(k), moves).committed, k)
  {
    hide CanRun, After;
    StartedUnguarded(k);
    PublisherWrites(k);
    CleanerCommits(k);
    var taken, written := [Advance(0), Advance(0), Advance(1), Advance(1)], [Advance(0), Advance(0)];
    var pruned := [Advance(1), Advance(1), Advance(1), Advance(0)];
    RunsJoin(Unguarded(k), written, pruned);
    RunsJoin(Unstarted(k), taken, written + pruned);
    assert PubRow(k, "a") in After(Unstarted(k), taken + (written + pruned)).committed;
  }

  /** A warm that holds its profile's lock and asks the pool for a second connection, beside an
      ingestion that holds the last one and waits for the lock: nobody can go on. */
  function Borrowing(m: string): System {
    System(2, {m}, {},
           [Process(Own(true, {ProfileLock(m)}, {}, false, {}), [TakeConn], {}, {}),
            Process(Own(true, {}, {}, false, {}), [LockTx(ProfileLock(m)), EndTx, GiveConn], {}, {})])
  }

  /** Where the two begin: nothing owned, and two connections for both. */
  function BeforeBorrowing(m: string): System {
    Borrowing(m).(procs := [
      Process(NOTHING, [TakeConn, LockSession(ProfileLock(m)), TakeConn], {}, {}),
      Process(NOTHING, [TakeConn, LockTx(ProfileLock(m)), EndTx, GiveConn], {}, {})])
  }

  lemma BorrowingReached(m: string)
    ensures CanRun(BeforeBorrowing(m), [Advance(0), Advance(0), Advance(1)])
    ensures After(BeforeBorrowing(m), [Advance(0), Advance(0), Advance(1)]) == Borrowing(m)
  {
    var s := BeforeBorrowing(m);
    assert Conns(s.procs, 1) == 0;
    var one := TakesConn(s, 0);
    assert CanMove(one, Advance(0));
    var two := Moved(one, Advance(0));
    assert two.procs[0] == Borrowing(m).procs[0];
    assert Conns(two.procs, 1) == 1;
    var three := TakesConn(two, 1);
    assert three.procs == Borrowing(m).procs;
    FirstMove(two, Advance(1), []);
    FirstMove(one, Advance(0), [Advance(1)]);
    FirstMove(s, Advance(0), [Advance(0), Advance(1)]);
  }

  /** Some run of the two ends with nobody able to go on and neither finished, although the
      ingestion keeps the discipline all along. */
  lemma BorrowingDeadlocks(m: string)
    ensures Disciplined({m}, BeforeBorrowing(m).procs[1].own, BeforeBorrowing(m).procs[1].rest)
    ensures exists moves :: CanRun(BeforeBorrowing(m), moves)
              && var s := After(BeforeBorrowing(m), moves);
                 Unfinished(s, 0) && Unfinished(s, 1) && forall p: nat :: !Enabled(s, p)
  {
    hide CanRun, After, Enabled, Unfinished;
    BorrowingReached(m);
    NobodyGoesOn(m);
    assert BeforeBorrowing(m).procs[1].rest[1..] == Borrowing(m).procs[1].rest;
  }

  lemma NobodyGoesOn(m: string)
    ensures Exclusive(Borrowing(m)) && Conns(Borrowing(m).procs, 2) <= Borrowing(m).pool
    ensures Disciplined({m}, Borrowing(m).procs[1].own, Borrowing(m).procs[1].rest)
    ensures Unfinished(Borrowing(m), 0) && Unfinished(Borrowing(m), 1)
    ensures forall p: nat :: !Enabled(Borrowing(m), p)
  {
    var s := Borrowing(m);
    assert Conns(s.procs, 1) == 1 && Conns(s.procs, 2) == 2;
    assert ProfileLock(m) in Held(s.procs[0].own);
    assert HeldByOther(s, 1, ProfileLock(m));
    var own, rest := s.procs[1].own, s.procs[1].rest;
    var locked := Apply(own, rest[0]);
    assert locked == Own(true, {}, {ProfileLock(m)}, true, {});
    var free := Apply(locked, EndTx);
    assert Apply(free, GiveConn) == NOTHING;
    assert Disciplined({m}, free, [GiveConn]);
    assert Disciplined({m}, locked, [EndTx, GiveConn]);
    assert rest[1..] == [EndTx, GiveConn] && rest[1..][1..] == [GiveConn] && rest[1..][1..][1..] == [];
  }
}
