/** What the interleaving of statements means for runs of whole steps: every committed state is
    reached by steps in the order of their commits, and the theorem on `ready` holds for it. */
module SerialRuns {
  import opened Text
  import opened Store
  import opened SharedRows
  import opened Cells
  import opened Statements
  import opened Rights
  import opened Interleaving
  import P = Protocol
  import Runs

  // ---- Every commit is a step ----------------------------------------------------------------

  /** The `n`-th committed state. */
  ghost function State(start: Db, history: seq<Txn>, n: nat): Db
    requires n <= |history| && InTurn(start, history, n).Some?
  {
    InTurn(start, history, n).value
  }

  /** Whatever the interleaving, each commit takes the lists from one committed state to the next
      as its step does, and the shared rows too if `ready` was what the transaction had seen. */
  lemma CommitsAreSteps(owner: AssetOwner, s: System, moves: seq<Move>, i: nat)
    requires Inv(owner, s) && s.history == [] && CanRun(owner, s, moves)
    requires i < |After(owner, s, moves).history|
    ensures var h := After(owner, s, moves).history;
            && InTurn(s.committed, h, i).Some? && InTurn(s.committed, h, i + 1).Some?
            && Stands(State(s.committed, h, i), h[i].step, h[i].log, State(s.committed, h, i + 1))
    ensures InTurn(s.committed, After(owner, s, moves).history, |After(owner, s, moves).history|) == Some(After(owner, s, moves).committed)
  {
    hide Inv, CanRun, After, AssetsHome, Stands, Replay;
    RunIsSerial(owner, s, moves);
    var t := After(owner, s, moves);
    assert StandsFor(owner, t.history[i].step, t.history[i].log);
    var d := State(s.committed, t.history, i);
    assert InTurn(s.committed, t.history, i + 1).Some?;
    assert InTurn(s.committed, t.history, i + 1) == Replay(d, t.history[i].log);
  }

  // ---- What is true of `ready` between two commits ----------------------------------------------

  ghost predicate LooksAtReady(c: Proc) {
    exists i :: 0 <= i < |c.log| && c.log[i].SeeReady?
  }

  /** A withdrawal of `ready` commits while another transaction is open that has looked at it. */
  ghost predicate Disturbs(s: System, m: Move) {
    && m.Advance? && Enabled(s, m.p) && s.procs[m.p].rest[0].Commit?
    && s.committed.ready && !Sees(s.committed, s.procs[m.p]).ready
    && exists q :: 0 <= q < |s.procs| && q != m.p && LooksAtReady(s.procs[q])
  }

  ghost predicate Undisturbed(owner: AssetOwner, s: System, moves: seq<Move>)
    requires CanRun(owner, s, moves)
  {
    moves == []
    || (Undisturbed(owner, s, moves[..|moves| - 1]) && !Disturbs(After(owner, s, moves[..|moves| - 1]), moves[|moves| - 1]))
  }

  /** What open transactions have seen of `ready` is still so. */
  ghost predicate UpToDate(s: System) {
    forall p :: 0 <= p < |s.procs| ==> SawOnly(s.procs[p].log, s.committed.ready)
  }

  lemma {:induction false} ReadyIsSet(db: Db, log: seq<Stmt>) returns (i: nat)
    requires Replay(db, log).Some? && !db.ready && Replay(db, log).value.ready
    ensures i < |log| && log[i] == PutReady(true)
  {
    var n := |log| - 1;
    var d := Replay(db, log[..n]).value;
    if d.ready {
      i := ReadyIsSet(db, log[..n]);
    } else {
      OnlyPutReady(d, log[n]);
      i := n;
    }
  }

  lemma OnlyPutReady(db: Db, st: Stmt)
    requires Redone(db, st).Some? && Redone(db, st).value.ready != db.ready
    ensures st.PutReady? && st.ready == Redone(db, st).value.ready
  {
    hide Holds, Changed;
  }

  /** A process that has not set the flag sees what is committed of it. */
  lemma SeesReady(owner: AssetOwner, committed: Db, c: Proc)
    requires Consistent(owner, committed, c) && forall i :: 0 <= i < |c.log| ==> !c.log[i].PutReady?
    ensures Sees(committed, c).ready == committed.ready
  {
    hide Follows, AllPermitted, Replay, AssetsHome;
    assert forall i :: 0 <= i < |c.log| ==> !Writes(owner, c.log[i], ReadyAt) by {
      forall i | 0 <= i < |c.log| ensures !Writes(owner, c.log[i], ReadyAt) {
        WritesAreTouched(owner, c.log[i], ReadyAt);
      }
    }
    assert !InCells(owner, c.log, ReadyAt);
  }

  lemma DoKeepsUpToDate(owner: AssetOwner, committed: Db, c: Proc)
    requires Consistent(owner, committed, c) && SawOnly(c.log, committed.ready)
    requires c.rest != [] && c.rest[0].Do? && Effect(Sees(committed, c), c.rest[0].st).Some?
    ensures SawOnly(Advanced(owner, committed, c).log, committed.ready)
  {
    hide Sees, AllPermitted, Permitted, StandsFor, AssetsHome, Replay;
    var st := c.rest[0].st;
    if st.SeeReady? {
      SeesReady(owner, committed, c);
      LookReturns(Sees(committed, c), st);
    }
  }

  lemma LookReturns(db: Db, st: Stmt)
    requires st.SeeReady? && Effect(db, st).Some?
    ensures st.ready == db.ready
  {
  }

  lemma CommitKeepsUpToDate(owner: AssetOwner, s: System, p: nat, q: nat)
    requires Inv(owner, s) && UpToDate(s) && Enabled(s, p) && s.procs[p].rest[0].Commit? && !Disturbs(s, Advance(p))
    requires q < |s.procs| && q != p
    ensures SawOnly(s.procs[q].log, Sees(s.committed, s.procs[p]).ready)
  {
    hide Sees, Follows, AssetsHome, Permitted, SameShape, CellsOf;
    var c, o := s.procs[p], s.procs[q];
    assert Consistent(owner, s.committed, c) && Consistent(owner, s.committed, o);
    var v := Sees(s.committed, c);
    if LooksAtReady(o) && v.ready && !s.committed.ready {
      var i := ReadyIsSet(s.committed, c.log);
      var j :| 0 <= j < |o.log| && o.log[j].SeeReady?;
      HoldApart(s, p, q);
      SetterExcludes(owner, s.committed.profiles.Keys, c.own, o.own, c.log[i], o.log[j]);
    } else if !LooksAtReady(o) {
      assert forall i :: 0 <= i < |o.log| ==> !o.log[i].SeeReady?;
    }
  }

  lemma SetterExcludes(owner: AssetOwner, registry: set<string>, a: P.Own, b: P.Own, put: Stmt, look: Stmt)
    requires Permitted(owner, registry, a, put) && put == PutReady(true)
    requires Permitted(owner, registry, b, look) && look.SeeReady?
    ensures !(P.Held(a) !! P.Held(b))
  {
    hide Touches, Writes, MayTouch, MayWrite;
    var m :| m in registry && HasProfile(b, m);
    assert HasProfile(a, m);
  }

  lemma MoveKeepsUpToDate(owner: AssetOwner, s: System, m: Move)
    requires Inv(owner, s) && UpToDate(s) && CanMove(s, m) && !Disturbs(s, m)
    ensures UpToDate(Moved(owner, s, m))
  {
    hide Sees, Consistent, AssetsHome, Exclusive, Effect, SawOnly, Disturbs;
    var t := Moved(owner, s, m);
    forall q | 0 <= q < |t.procs| ensures SawOnly(t.procs[q].log, t.committed.ready) {
      if q == m.p {
        OwnUpToDate(owner, s, m);
      } else if m.Advance? && s.procs[m.p].rest[0].Commit? {
        CommitKeepsUpToDate(owner, s, m.p, q);
      }
    }
  }

  lemma OwnUpToDate(owner: AssetOwner, s: System, m: Move)
    requires Inv(owner, s) && UpToDate(s) && CanMove(s, m)
    ensures SawOnly(Moved(owner, s, m).procs[m.p].log, Moved(owner, s, m).committed.ready)
  {
    hide Sees, AssetsHome, Exclusive, Effect, Consistent;
    if m.Advance? && s.procs[m.p].rest[0].Do? {
      DoKeepsUpToDate(owner, s.committed, s.procs[m.p]);
    }
  }

  // ---- Undisturbed runs are serial ---------------------------------------------------------------

  function Steps(history: seq<Txn>): (steps: seq<Runs.Step>)
    ensures |steps| == |history| && forall i :: 0 <= i < |history| ==> steps[i] == history[i].step
  {
    seq(|history|, i requires 0 <= i < |history| => history[i].step)
  }

  /** The history so far is the run of its steps. */
  ghost predicate IsRun(start: Db, s: System) {
    s.committed == Runs.Run(start, Steps(s.history))
  }

  lemma MoveKeepsRun(owner: AssetOwner, start: Db, s: System, m: Move)
    requires Inv(owner, s) && UpToDate(s) && CanMove(s, m) && IsRun(start, s)
    ensures IsRun(start, Moved(owner, s, m))
  {
    hide Sees, AssetsHome, Exclusive, Effect, Runs.Next, AllPermitted, Replay;
    if m.Advance? && s.procs[m.p].rest[0].Commit? {
      var c := s.procs[m.p];
      var step := c.rest[0].step;
      assert Consistent(owner, s.committed, c);
      assert StandsFor(owner, step, c.log);
      assert Replay(s.committed, c.log).Some?;
      assert Sees(s.committed, c) == Runs.Next(s.committed, step);
      assert Steps(s.history + [Txn(step, c.log)]) == Steps(s.history) + [step];
      assert (Steps(s.history) + [step])[..|s.history|] == Steps(s.history);
    }
  }

  /** Unless `ready` is withdrawn in between, an interleaved run leaves what the steps of its
      writers leave, one after the other in the order of their commits: chunk tables, catalogs,
      revisions, sources, assets and references. */
  lemma {:induction false} UndisturbedIsSerial(owner: AssetOwner, s: System, moves: seq<Move>)
    requires Inv(owner, s) && s.history == [] && (forall p :: 0 <= p < |s.procs| ==> s.procs[p].log == [])
    requires CanRun(owner, s, moves) && Undisturbed(owner, s, moves)
    ensures var t := After(owner, s, moves);
            t.committed == Runs.Run(s.committed, Steps(t.history)) && UpToDate(t)
  {
    hide Inv, CanMove, Moved, Disturbs, UpToDate;
    if moves == [] {
      NothingDone(s);
    } else {
      var n := |moves| - 1;
      var t := After(owner, s, moves[..n]);
      UndisturbedIsSerial(owner, s, moves[..n]);
      RunKeepsInv(owner, s, moves[..n]);
      MoveKeepsRun(owner, s.committed, t, moves[n]);
      MoveKeepsUpToDate(owner, t, moves[n]);
    }
  }

  lemma NothingDone(s: System)
    requires s.history == [] && forall p :: 0 <= p < |s.procs| ==> s.procs[p].log == []
    ensures UpToDate(s) && IsRun(s.committed, s)
  {
    assert Steps([]) == [];
  }

  // ---- Ready means agreement, statement by statement ---------------------------------------------

  lemma ListsDecide(a: Db, b: Db)
    requires SameLists(a, b)
    ensures Runs.ReadyAgrees(a) <==> Runs.ReadyAgrees(b)
  {
  }

  /** The theorem on whole steps carries over to every interleaving of statements: `ready` means
      agreement in all committed states exactly when no commit lands on another document's row
      while the catalog is ready and none certifies over an empty chunking profile. */
  lemma InterleavedReadyMeansAgreement(owner: AssetOwner, s: System, moves: seq<Move>)
    requires Inv(owner, s) && s.history == [] && CanRun(owner, s, moves) && Runs.ReadyAgrees(s.committed)
    requires forall i :: 0 <= i < |After(owner, s, moves).history| ==> Runs.Allowed(After(owner, s, moves).history[i].step)
    ensures var h := After(owner, s, moves).history;
            && (forall n :: 0 <= n <= |h| ==> InTurn(s.committed, h, n).Some?)
            && ((forall n :: 0 <= n <= |h| ==> Runs.ReadyAgrees(State(s.committed, h, n)))
                <==> (forall n :: 0 <= n < |h| ==> !Runs.Breaks(State(s.committed, h, n), h[n].step)))
  {
    hide Inv, CanRun, After, InTurn, Runs.ReadyAgrees, Runs.Breaks, Runs.Allowed, Stands;
    var h := After(owner, s, moves).history;
    FirstState(s.committed, h);
    forall n | 0 <= n <= |h| ensures InTurn(s.committed, h, n).Some? {
      if n < |h| {
        CommitsAreSteps(owner, s, moves, n);
      } else {
        LastState(owner, s, moves);
      }
    }
    forall n | 0 <= n < |h| && Runs.ReadyAgrees(State(s.committed, h, n))
      ensures Runs.ReadyAgrees(State(s.committed, h, n + 1)) <==> !Runs.Breaks(State(s.committed, h, n), h[n].step)
    {
      CommitsAreSteps(owner, s, moves, n);
      StandsAgrees(State(s.committed, h, n), h[n].step, h[n].log, State(s.committed, h, n + 1));
    }
    if forall n :: 0 <= n < |h| ==> !Runs.Breaks(State(s.committed, h, n), h[n].step) {
      forall n | 0 <= n <= |h| ensures Runs.ReadyAgrees(State(s.committed, h, n)) {
        AgreesUpTo(s.committed, h, n);
      }
    }
    if forall n :: 0 <= n <= |h| ==> Runs.ReadyAgrees(State(s.committed, h, n)) {
      forall n | 0 <= n < |h| ensures !Runs.Breaks(State(s.committed, h, n), h[n].step) {
        assert Runs.ReadyAgrees(State(s.committed, h, n + 1));
      }
    }
  }

  lemma FirstState(start: Db, h: seq<Txn>)
    ensures InTurn(start, h, 0) == Some(start)
  {
  }

  lemma LastState(owner: AssetOwner, s: System, moves: seq<Move>)
    requires Inv(owner, s) && s.history == [] && CanRun(owner, s, moves)
    ensures InTurn(s.committed, After(owner, s, moves).history, |After(owner, s, moves).history|) == Some(After(owner, s, moves).committed)
  {
    hide Inv, CanRun, After, StandsFor;
    RunIsSerial(owner, s, moves);
  }

  lemma StandsAgrees(db: Db, step: Runs.Step, log: seq<Stmt>, d: Db)
    requires Stands(db, step, log, d) && Runs.Allowed(step) && Runs.ReadyAgrees(db)
    ensures Runs.ReadyAgrees(d) <==> !Runs.Breaks(db, step)
  {
    hide Runs.ReadyAgrees, Runs.Breaks, Runs.Allowed, Runs.Next;
    Runs.StepKeepsAgreement(db, step);
    ListsDecide(d, Runs.Next(db, step));
  }

  lemma {:induction false} AgreesUpTo(start: Db, h: seq<Txn>, n: nat)
    requires n <= |h| && (forall i :: 0 <= i <= |h| ==> InTurn(start, h, i).Some?) && Runs.ReadyAgrees(State(start, h, 0))
    requires forall i :: 0 <= i < |h| && Runs.ReadyAgrees(State(start, h, i)) ==> Runs.ReadyAgrees(State(start, h, i + 1))
    ensures Runs.ReadyAgrees(State(start, h, n))
  {
    hide Runs.ReadyAgrees, InTurn;
    if n > 0 {
      AgreesUpTo(start, h, n - 1);
    }
  }

  // ---- When every chunk identity has an owner -------------------------------------------------------

  lemma OwnedStepBreaksNothing(chunks: Runs.Owner, db: Db, step: Runs.Step)
    requires Runs.GoodOwner(chunks) && Runs.Sound(chunks, db) && Runs.OwnedStep(chunks, step)
    ensures Runs.Sound(chunks, Runs.Next(db, step)) && !Runs.Breaks(db, step)
  {
    hide Runs.GoodOwner, Runs.OwnedStep, Runs.Clashes, Runs.Misfiles, Runs.Next, Runs.RowSound;
    var twice := [step, step];
    assert twice[..0] == [] && twice[..1] == [step] && [step][..0] == [];
    Runs.OwnedNeverClashes(chunks, db, twice, 0);
    Runs.OwnedNeverClashes(chunks, db, twice, 1);
    assert Runs.Run(db, [step]) == Runs.Next(db, step);
    SoundIsChunked(chunks, db);
    Runs.ChunkedNeverMisfiles(db, step);
  }

  lemma SoundIsChunked(chunks: Runs.Owner, db: Db)
    requires Runs.Sound(chunks, db)
    ensures Runs.AllChunked(db)
  {
    forall m, id | m in db.profiles && id in db.profiles[m].table ensures Runs.Chunked(id, db.profiles[m].table[id].metadata) {
      assert Runs.RowSound(chunks, id, db.profiles[m].table[id].metadata);
    }
  }

  /** With an owner for every chunk identity, `ready` means agreement after every interleaving,
      disturbed or not. */
  lemma {:induction false} OwnedStatesAgree(owner: AssetOwner, chunks: Runs.Owner, s: System, moves: seq<Move>, n: nat)
    requires Inv(owner, s) && s.history == [] && CanRun(owner, s, moves) && Runs.ReadyAgrees(s.committed)
    requires Runs.GoodOwner(chunks) && Runs.Sound(chunks, s.committed)
    requires forall i :: 0 <= i < |After(owner, s, moves).history| ==>
               Runs.Allowed(After(owner, s, moves).history[i].step) && Runs.OwnedStep(chunks, After(owner, s, moves).history[i].step)
    requires n <= |After(owner, s, moves).history|
    ensures var h := After(owner, s, moves).history;
            InTurn(s.committed, h, n).Some? && Runs.Sound(chunks, State(s.committed, h, n)) && Runs.ReadyAgrees(State(s.committed, h, n))
  {
    hide Inv, CanRun, After, InTurn, Runs.ReadyAgrees, Runs.Breaks, Runs.Allowed, Runs.OwnedStep, Runs.GoodOwner, Runs.Sound, Stands;
    var h := After(owner, s, moves).history;
    FirstState(s.committed, h);
    if n > 0 {
      OwnedStatesAgree(owner, chunks, s, moves, n - 1);
      CommitsAreSteps(owner, s, moves, n - 1);
      var d, e, step := State(s.committed, h, n - 1), State(s.committed, h, n), h[n - 1].step;
      OwnedStepBreaksNothing(chunks, d, step);
      StandsAgrees(d, step, h[n - 1].log, e);
      SoundByLists(chunks, e, d, step, h[n - 1].log);
    }
  }

  lemma SoundByLists(chunks: Runs.Owner, d: Db, db: Db, step: Runs.Step, log: seq<Stmt>)
    requires Stands(db, step, log, d) && Runs.Sound(chunks, Runs.Next(db, step))
    ensures Runs.Sound(chunks, d)
  {
    hide Runs.Next, Runs.RowSound;
  }
}
