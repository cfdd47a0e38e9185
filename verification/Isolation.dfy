/** What the document locks buy: however writers of different profiles interleave, every
    committed state has a source row for each publication and an asset row for each
    reference, and a transaction never sees the rows it works on change under it. */
module Isolation {
  import opened Store
  import opened Protocol
  import opened Deadlock

  /** The rows of one document are complete. */
  ghost predicate Good(v: set<Row>, k: DocKey) {
    && (forall m :: PubRow(k, m) in v ==> SourceRow(k) in v)
    && (forall a :: AssetRow(k, a) in v ==> SourceRow(k) in v)
    && (forall m, a :: RefRow(k, m, a) in v ==> AssetRow(k, a) in v && PubRow(k, m) in v)
  }

  ghost predicate SameAt(v: set<Row>, w: set<Row>, k: DocKey) {
    forall r: Row :: r.key == k ==> (r in v <==> r in w)
  }

  lemma GoodIsLocal(v: set<Row>, w: set<Row>, k: DocKey)
    requires SameAt(v, w, k)
    ensures Good(v, k) <==> Good(w, k)
  {
  }

  // ---- One statement on one view -------------------------------------------------------

  function Executed(view: set<Row>, st: Statement): set<Row> {
    view - Removed(view, st) + Added(view, st)
  }

  lemma ExecutedElsewhere(view: set<Row>, st: Statement, k: DocKey)
    requires k != st.key
    ensures SameAt(Executed(view, st), view, k)
  {
  }

  lemma ExecutedHere(view: set<Row>, st: Statement)
    ensures forall r :: r in Added(view, st) + Removed(view, st) ==> r.key == st.key
  {
  }

  lemma ExecutedFacts(view: set<Row>, facts: set<Row>, st: Statement)
    requires facts <= view && (st.CheckAsset? ==> AssetRow(st.key, st.asset) in view)
    requires forall r :: r in facts ==> !r.RefRow?
    ensures Facts(facts, st) <= Executed(view, st)
    ensures forall r :: r in Facts(facts, st) ==> !r.RefRow? && (r in facts || r.key == st.key)
  {
  }

  /** The check in the pruning statements is what keeps the document complete. */
  lemma ExecutedGood(view: set<Row>, facts: set<Row>, st: Statement)
    requires facts <= view && Enables(facts, st) && Good(view, st.key)
    ensures Good(Executed(view, st), st.key)
  {
    var v := Executed(view, st);
    var k := st.key;
    match st
    case PruneAssets(_) =>
      forall m, a | RefRow(k, m, a) in v ensures AssetRow(k, a) in v {
        assert Protocol.Referenced(view, k, a);
      }
    case PruneSource(_) =>
      if Protocol.Published(view, k) {
        assert v == view;
      } else {
        forall m ensures PubRow(k, m) !in v {
        }
      }
    case _ =>
  }

  // ---- The invariant ----------------------------------------------------------------------

  /** One process: its uncommitted rows and known facts are under its cover, and what it
      sees of every document it covers is complete. */
  ghost predicate Local(registry: set<string>, own: Own, view: set<Row>, changed: set<Row>) {
    && (forall r :: r in changed ==> own.open && Covers(registry, own, r.key))
    && (forall r :: r in own.facts ==> own.open && !r.RefRow? && r in view)
    && (forall k :: Covers(registry, own, k) ==> Good(view, k))
    && (forall r :: r in own.facts ==> Covers(registry, own, r.key))
  }

  ghost predicate Isolated(s: System) {
    && s.registry != {}
    && Orderly(s)
    && (forall k :: Good(s.committed, k))
    && (forall p :: 0 <= p < |s.procs| ==>
          Local(s.registry, s.procs[p].own, View(s, p), s.procs[p].ins + s.procs[p].del))
  }

  /** No two processes cover the same document. */
  lemma CoverIsExclusive(s: System, p: nat, q: nat, k: DocKey)
    requires Exclusive(s) && s.registry != {} && p < |s.procs| && q < |s.procs| && p != q
    requires Covers(s.registry, s.procs[p].own, k)
    ensures !Covers(s.registry, s.procs[q].own, k)
  {
    var a, b := s.procs[p].own, s.procs[q].own;
    assert Held(a) !! Held(b);
    assert forall l :: l in Held(a) ==> l !in Held(b);
    var some :| some in s.registry;
    var m :| m in s.registry && ProfileLock(m) in Held(a);
    assert ProfileLock(m) !in Held(b);
  }

  /** Outside its cover a process sees what is committed. */
  lemma SeesCommitted(s: System, p: nat, k: DocKey)
    requires Isolated(s) && p < |s.procs| && !Covers(s.registry, s.procs[p].own, k)
    ensures SameAt(View(s, p), s.committed, k)
  {
    var c := s.procs[p];
    assert Local(s.registry, c.own, View(s, p), c.ins + c.del);
    forall r: Row | r.key == k ensures r in View(s, p) <==> r in s.committed {
      assert r !in c.ins + c.del;
    }
  }

  // ---- Steps keep it ------------------------------------------------------------------------

  lemma LockStepKeepsLocal(registry: set<string>, own: Own, a: Action, view: set<Row>, committed: set<Row>, changed: set<Row>)
    requires registry != {} && Allowed(registry, own, a) && !a.Exec? && !a.EndTx?
    requires Local(registry, own, view, changed)
    requires forall k :: !Covers(registry, own, k) ==> SameAt(view, committed, k)
    requires forall k :: Good(committed, k)
    ensures Local(registry, Apply(own, a), view, changed)
  {
    hide Good, SameAt;
    var next := Apply(own, a);
    forall k | Covers(registry, next, k) ensures Good(view, k) {
      if !Covers(registry, own, k) {
        GoodIsLocal(view, committed, k);
      }
    }
    if own.open {
      assert Held(own) <= Held(next) && own.tx <= next.tx && own.session <= next.session;
      assert forall k :: Covers(registry, own, k) ==> Covers(registry, next, k);
    }
  }

  lemma ExecKeepsLocal(registry: set<string>, own: Own, st: Statement, view: set<Row>, changed: set<Row>, changed': set<Row>)
    requires Allowed(registry, own, Exec(st)) && Local(registry, own, view, changed)
    requires st.CheckAsset? ==> AssetRow(st.key, st.asset) in view
    requires changed' <= changed + Added(view, st) + Removed(view, st)
    ensures Local(registry, Apply(own, Exec(st)), Executed(view, st), changed')
  {
    hide Added, Removed, Facts, Good, Executed, Enables, SameAt;
    var next := Apply(own, Exec(st));
    assert forall k :: Covers(registry, own, k) <==> Covers(registry, next, k);
    ExecutedHere(view, st);
    ExecutedFacts(view, own.facts, st);
    ExecutedGood(view, own.facts, st);
    forall k | Covers(registry, next, k) ensures Good(Executed(view, st), k) {
      if k != st.key {
        ExecutedElsewhere(view, st, k);
        GoodIsLocal(Executed(view, st), view, k);
      }
    }
  }

  lemma AdvanceKeepsOwnLocal(s: System, p: nat)
    requires Isolated(s) && Enabled(s, p) && s.procs[p].rest[0] != EndTx
    ensures var t := Moved(s, Advance(p));
            Local(t.registry, t.procs[p].own, View(t, p), t.procs[p].ins + t.procs[p].del)
  {
    hide Local, Good, Added, Removed, Facts, Covers;
    var c := s.procs[p];
    var a := c.rest[0];
    var t := Moved(s, Advance(p));
    assert Disciplined(s.registry, c.own, c.rest);
    assert Local(s.registry, c.own, View(s, p), c.ins + c.del);
    if a.Exec? {
      var view := View(s, p);
      if a.st.CheckAsset? && AssetRow(a.st.key, a.st.asset) !in view {
        FailedIsLocal(s.registry, View(t, p));
        assert t.procs[p].ins + t.procs[p].del == {};
      } else {
        assert View(t, p) == Executed(view, a.st);
        ExecKeepsLocal(s.registry, c.own, a.st, view, c.ins + c.del, t.procs[p].ins + t.procs[p].del);
      }
    } else {
      assert View(t, p) == View(s, p);
      forall k | !Covers(s.registry, c.own, k) ensures SameAt(View(s, p), s.committed, k) {
        SeesCommitted(s, p, k);
      }
      LockStepKeepsLocal(s.registry, c.own, a, View(s, p), s.committed, c.ins + c.del);
    }
  }

  lemma FailedIsLocal(registry: set<string>, view: set<Row>)
    requires registry != {}
    ensures Local(registry, NOTHING, view, {})
  {
    assert forall k :: !Covers(registry, NOTHING, k);
  }

  /** A step that commits nothing leaves the others as they were. */
  lemma OthersKeepLocal(s: System, m: Move, q: nat)
    requires Isolated(s) && CanMove(s, m) && q < |s.procs| && q != m.p
    requires Moved(s, m).committed == s.committed
    ensures var t := Moved(s, m);
            Local(t.registry, t.procs[q].own, View(t, q), t.procs[q].ins + t.procs[q].del)
  {
    var t := Moved(s, m);
    assert t.procs[q] == s.procs[q] && View(t, q) == View(s, q);
    assert Local(s.registry, s.procs[q].own, View(s, q), s.procs[q].ins + s.procs[q].del);
  }

  lemma CommitKeepsGood(s: System, p: nat, k: DocKey)
    requires Isolated(s) && p < |s.procs|
    ensures Good(View(s, p), k)
  {
    if Covers(s.registry, s.procs[p].own, k) {
      assert Local(s.registry, s.procs[p].own, View(s, p), s.procs[p].ins + s.procs[p].del);
    } else {
      SeesCommitted(s, p, k);
      GoodIsLocal(View(s, p), s.committed, k);
    }
  }

  /** A commit is invisible to every other transaction on the documents that one covers. */
  lemma CommitUnseen(s: System, p: nat, q: nat, k: DocKey)
    requires Isolated(s) && Enabled(s, p) && s.procs[p].rest[0] == EndTx && q < |s.procs| && q != p
    requires Covers(s.registry, s.procs[q].own, k)
    ensures SameAt(View(Moved(s, Advance(p)), q), View(s, q), k)
  {
    CoverIsExclusive(s, q, p, k);
    SeesCommitted(s, p, k);
    var t := Moved(s, Advance(p));
    assert t.procs[q] == s.procs[q];
  }

  lemma CommitKeepsOthers(s: System, p: nat, q: nat)
    requires Isolated(s) && Enabled(s, p) && s.procs[p].rest[0] == EndTx && q < |s.procs| && q != p
    ensures var t := Moved(s, Advance(p));
            Local(t.registry, t.procs[q].own, View(t, q), t.procs[q].ins + t.procs[q].del)
  {
    hide Good, Orderly;
    var t := Moved(s, Advance(p));
    var c := s.procs[q];
    assert t.procs[q] == c;
    assert Local(s.registry, c.own, View(s, q), c.ins + c.del);
    forall k | Covers(s.registry, c.own, k) ensures Good(View(t, q), k) && SameAt(View(t, q), View(s, q), k) {
      CommitUnseen(s, p, q, k);
      GoodIsLocal(View(t, q), View(s, q), k);
    }
    forall r | r in c.own.facts ensures r in View(t, q) {
      assert Covers(s.registry, c.own, r.key);
      assert r in View(s, q);
    }
  }

  lemma CommitKeepsOwn(s: System, p: nat)
    requires Isolated(s) && Enabled(s, p) && s.procs[p].rest[0] == EndTx
    ensures var t := Moved(s, Advance(p));
            Local(t.registry, t.procs[p].own, View(t, p), t.procs[p].ins + t.procs[p].del)
  {
    var t := Moved(s, Advance(p));
    assert View(t, p) == View(s, p);
    forall k ensures Good(View(t, p), k) {
      CommitKeepsGood(s, p, k);
    }
  }

  lemma MoveKeepsIsolated(s: System, m: Move)
    requires Isolated(s) && CanMove(s, m)
    ensures Isolated(Moved(s, m))
  {
    hide Local, Good, Orderly, View;
    MoveKeepsOrderly(s, m);
    var t := Moved(s, m);
    var commits := m.Advance? && s.procs[m.p].rest[0] == EndTx;
    forall k ensures Good(t.committed, k) {
      if commits {
        CommitKeepsGood(s, m.p, k);
      }
    }
    forall q | 0 <= q < |t.procs|
      ensures Local(t.registry, t.procs[q].own, View(t, q), t.procs[q].ins + t.procs[q].del)
    {
      if commits {
        if q == m.p { CommitKeepsOwn(s, q); } else { CommitKeepsOthers(s, m.p, q); }
      } else if q != m.p {
        OthersKeepLocal(s, m, q);
      } else if m.Advance? {
        AdvanceKeepsOwnLocal(s, q);
      } else {
        FailedIsLocal(t.registry, View(t, q));
        assert t.procs[q].ins + t.procs[q].del == {};
      }
    }
  }

  /** Every committed state of every interleaving: a source for each publication, an asset and
      a publication for each reference. */
  lemma {:induction false} CommittedRowsAreComplete(s: System, moves: seq<Move>)
    requires Isolated(s) && CanRun(s, moves)
    ensures Isolated(After(s, moves))
    ensures forall k :: Good(After(s, moves).committed, k)
    decreases |moves|
  {
    hide Local, Good, Orderly, View;
    if moves == [] {
    } else {
      MoveKeepsIsolated(s, moves[0]);
      CommittedRowsAreComplete(Moved(s, moves[0]), moves[1..]);
    }
  }
}
