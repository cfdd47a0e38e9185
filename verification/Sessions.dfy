/** The gateway's record store: sessions, bootstrap and login records.  One semantics for the
    in-memory store, one for the SQL statements, and what holds over whole histories. */
module Sessions {
  import opened Text

  datatype Kind = Session | Bootstrap | Login

  /** A record under the hash of its token.  Times are in seconds. */
  datatype Record = Record(hash: string, kind: Kind, payload: string,
                           createdAt: int, lastSeen: int, expiresAt: int, revoked: bool)

  type Records = map<string, Record>

  datatype Op =
    | Put(record: Record, now: int)
    | Get(hash: string, kind: Kind, now: int)
    | Consume(hash: string, kind: Kind, now: int)
    | Admit(hash: string, now: int, idle: int)
    | Revoke(hash: string)
    | Cleanup(now: int)

  datatype Result = Row(row: Option<Record>) | Stored | Refused | Done | Removed(count: nat)

  // ---- The in-memory store --------------------------------------------------------------

  function Cleaned(s: Records, now: int): Records {
    map k | k in s && s[k].expiresAt > now :: s[k]
  }

  function Expired(s: Records, now: int): set<string> {
    set k | k in s && s[k].expiresAt <= now
  }

  predicate CanConsume(s: Records, hash: string, kind: Kind, now: int) {
    hash in s && s[hash].kind == kind && s[hash].expiresAt > now && !s[hash].revoked
  }

  predicate CanAdmit(s: Records, hash: string, now: int, idle: int) {
    && hash in s && s[hash].kind == Session && !s[hash].revoked
    && s[hash].expiresAt > now && s[hash].lastSeen + idle > now
  }

  function Seen(r: Record, now: int): Record {
    r.(lastSeen := if r.lastSeen < now then now else r.lastSeen)
  }

  function Revoked(s: Records, hash: string): Records {
    if hash in s && s[hash].kind == Session then s[hash := s[hash].(revoked := true)] else s
  }

  function After(s: Records, limit: nat, op: Op): Records {
    match op
    case Put(r, now) =>
      var c := Cleaned(s, now);
      if |c| >= limit || r.hash in c then c else c[r.hash := r]
    case Get(_, _, _) => s
    case Consume(hash, kind, now) => if CanConsume(s, hash, kind, now) then s - {hash} else s
    case Admit(hash, now, idle) => if CanAdmit(s, hash, now, idle) then s[hash := Seen(s[hash], now)] else s
    case Revoke(hash) => Revoked(s, hash)
    case Cleanup(now) => Cleaned(s, now)
  }

  function Returned(s: Records, limit: nat, op: Op): Result {
    match op
    case Put(r, now) => if |Cleaned(s, now)| >= limit || r.hash in Cleaned(s, now) then Refused else Stored
    case Get(hash, kind, now) =>
      Row(if hash in s && s[hash].kind == kind && s[hash].expiresAt > now then Some(s[hash]) else None)
    case Consume(hash, kind, now) => Row(if CanConsume(s, hash, kind, now) then Some(s[hash]) else None)
    case Admit(hash, now, idle) => Row(if CanAdmit(s, hash, now, idle) then Some(Seen(s[hash], now)) else None)
    case Revoke(_) => Done
    case Cleanup(now) => Removed(|Expired(s, now)|)
  }

  // ---- What each operation means ---------------------------------------------------------

  /** Unexpired at this time. */
  predicate Lasting(s: Records, hash: string, now: int) {
    hash in s && now < s[hash].expiresAt
  }

  /** Operation by operation, key by key: what is returned, and what becomes of each record. */
  lemma OperationMeans(s: Records, limit: nat, op: Op, h: string)
    ensures var after, returned := After(s, limit, op), Returned(s, limit, op);
            var kept := (h in after <==> h in s) && (h in s ==> after[h] == s[h]);
            match op
            case Put(r, now) =>
              var room := |set k | k in s && now < s[k].expiresAt| < limit && !Lasting(s, r.hash, now);
              && returned == (if room then Stored else Refused)
              && (if room && h == r.hash then h in after && after[h] == r
                  else (h in after <==> Lasting(s, h, now)) && (h in after ==> after[h] == s[h]))
            case Get(hash, kind, now) =>
              && returned == Row(if Lasting(s, hash, now) && s[hash].kind == kind then Some(s[hash]) else None)
              && kept
            case Consume(hash, kind, now) =>
              var usable := Lasting(s, hash, now) && s[hash].kind == kind && !s[hash].revoked;
              && returned == Row(if usable then Some(s[hash]) else None)
              && (if usable && h == hash then h !in after else kept)
            case Admit(hash, now, idle) =>
              var active := Lasting(s, hash, now) && s[hash].kind == Session && !s[hash].revoked && now - s[hash].lastSeen < idle;
              var seen := if active then Some(s[hash].(lastSeen := if s[hash].lastSeen > now then s[hash].lastSeen else now)) else None;
              && returned == Row(seen)
              && (if active && h == hash then h in after && Some(after[h]) == seen else kept)
            case Revoke(hash) =>
              && returned == Done
              && (if h == hash && h in s && s[h].kind == Session then h in after && after[h] == s[h].(revoked := true) else kept)
            case Cleanup(now) =>
              && returned == Removed(|set k | k in s && !(now < s[k].expiresAt)|)
              && (h in after <==> Lasting(s, h, now)) && (h in after ==> after[h] == s[h])
  {
    match op
    case Put(r, now) =>
      assert Cleaned(s, now).Keys == set k | k in s && now < s[k].expiresAt;
    case Cleanup(now) =>
      assert Expired(s, now) == set k | k in s && !(now < s[k].expiresAt);
    case _ =>
  }

  // ---- The SQL statements ------------------------------------------------------------------

  /** The table's CHECK constraints. */
  predicate Checked(r: Record) {
    r.expiresAt > r.createdAt && r.lastSeen >= r.createdAt
  }

  /** A refused `put` rolls its cleanup back; the other statements filter by the same
      conditions, `last_seen > now - idle` in place of `last_seen + idle > now`. */
  function SqlAfter(s: Records, limit: nat, op: Op): Records {
    match op
    case Put(r, now) =>
      var live := map k | k in s && !(s[k].expiresAt <= now) :: s[k];
      if |live| >= limit || r.hash in live || !Checked(r) then s else live[r.hash := r]
    case Get(_, _, _) => s
    case Consume(hash, kind, now) =>
      map k | k in s && !(k == hash && s[k].kind == kind && s[k].expiresAt > now && !s[k].revoked) :: s[k]
    case Admit(hash, now, idle) =>
      map k | k in s ::
        if k == hash && s[k].kind == Session && !s[k].revoked && s[k].expiresAt > now && s[k].lastSeen > now - idle
        then s[k].(lastSeen := if s[k].lastSeen >= now then s[k].lastSeen else now) else s[k]
    case Revoke(hash) => map k | k in s :: if k == hash && s[k].kind == Session then s[k].(revoked := true) else s[k]
    case Cleanup(now) => map k | k in s && !(s[k].expiresAt <= now) :: s[k]
  }

  function SqlReturned(s: Records, limit: nat, op: Op): Result {
    match op
    case Put(r, now) =>
      var live := map k | k in s && !(s[k].expiresAt <= now) :: s[k];
      if |live| >= limit || r.hash in live || !Checked(r) then Refused else Stored
    case Get(hash, kind, now) =>
      Row(if hash in s && s[hash].kind == kind && s[hash].expiresAt > now then Some(s[hash]) else None)
    case Consume(hash, kind, now) =>
      Row(if hash in s && s[hash].kind == kind && s[hash].expiresAt > now && !s[hash].revoked then Some(s[hash]) else None)
    case Admit(hash, now, idle) =>
      Row(if hash in s && s[hash].kind == Session && !s[hash].revoked && s[hash].expiresAt > now && s[hash].lastSeen > now - idle
          then Some(s[hash].(lastSeen := if s[hash].lastSeen >= now then s[hash].lastSeen else now)) else None)
    case Revoke(_) => Done
    case Cleanup(now) => Removed(|set k | k in s && s[k].expiresAt <= now|)
  }

  function TimeOf(op: Op, last: int): int {
    match op
    case Put(_, now) => now
    case Get(_, _, now) => now
    case Consume(_, _, now) => now
    case Admit(_, now, _) => now
    case Revoke(_) => last
    case Cleanup(now) => now
  }

  /** The same records among those that have not expired. */
  ghost predicate SameLive(a: Records, b: Records, t: int) {
    Cleaned(a, t) == Cleaned(b, t)
  }

  lemma LiveAt(a: Records, b: Records, t: int, k: string)
    requires SameLive(a, b, t)
    ensures (k in a && a[k].expiresAt > t) <==> (k in b && b[k].expiresAt > t)
    ensures k in a && a[k].expiresAt > t ==> a[k] == b[k]
  {
    assert k in Cleaned(a, t) <==> k in Cleaned(b, t);
    if k in Cleaned(a, t) {
      assert Cleaned(a, t)[k] == Cleaned(b, t)[k];
    }
  }

  lemma LiveLater(a: Records, b: Records, t: int, u: int)
    requires SameLive(a, b, t) && t <= u
    ensures SameLive(a, b, u)
  {
    forall k ensures k in Cleaned(a, u) <==> k in Cleaned(b, u)
      ensures k in Cleaned(a, u) && k in Cleaned(b, u) ==> Cleaned(a, u)[k] == Cleaned(b, u)[k]
    {
      LiveAt(a, b, t, k);
    }
  }

  /** The two stores agree step for step while the clock does not run backwards, but for the
      number that a clean-up returns. */
  lemma StoresAgree(mem: Records, sql: Records, limit: nat, op: Op, t: int)
    requires SameLive(mem, sql, t) && t <= TimeOf(op, t) && (op.Put? ==> Checked(op.record))
    ensures !op.Cleanup? ==> Returned(mem, limit, op) == SqlReturned(sql, limit, op)
    ensures SameLive(After(mem, limit, op), SqlAfter(sql, limit, op), TimeOf(op, t))
  {
    var u := TimeOf(op, t);
    LiveLater(mem, sql, t, u);
    match op
    case Put(r, now) =>
      assert (map k | k in sql && !(sql[k].expiresAt <= now) :: sql[k]) == Cleaned(sql, now);
      CleanedAgain(mem, now);
    case Cleanup(now) =>
      assert SqlAfter(sql, limit, op) == Cleaned(sql, now);
    case _ =>
      AgreeOnKey(mem, sql, limit, op, u);
  }

  lemma CleanedAgain(s: Records, t: int)
    ensures Cleaned(Cleaned(s, t), t) == Cleaned(s, t)
  {
  }

  /** Same live records, key by key. */
  ghost predicate SameAt(a: Records, b: Records, t: int, k: string) {
    && ((k in a && a[k].expiresAt > t) <==> (k in b && b[k].expiresAt > t))
    && (k in a && k in b && a[k].expiresAt > t ==> a[k] == b[k])
  }

  lemma SameEverywhere(a: Records, b: Records, t: int)
    requires forall k :: SameAt(a, b, t, k)
    ensures SameLive(a, b, t)
  {
    forall k ensures k in Cleaned(a, t) <==> k in Cleaned(b, t)
      ensures k in Cleaned(a, t) && k in Cleaned(b, t) ==> Cleaned(a, t)[k] == Cleaned(b, t)[k]
    {
      assert SameAt(a, b, t, k);
    }
  }

  lemma ConsumeAgrees(mem: Records, sql: Records, limit: nat, hash: string, kind: Kind, u: int, k: string)
    requires SameAt(mem, sql, u, k)
    ensures var op := Consume(hash, kind, u);
            && SameAt(After(mem, limit, op), SqlAfter(sql, limit, op), u, k)
            && (k == hash ==> Returned(mem, limit, op) == SqlReturned(sql, limit, op))
  {
    var b := SqlAfter(sql, limit, Consume(hash, kind, u));
    assert k in b <==> k in sql && !(k == hash && sql[k].kind == kind && sql[k].expiresAt > u && !sql[k].revoked);
  }

  lemma AdmitAgrees(mem: Records, sql: Records, limit: nat, hash: string, idle: int, u: int, k: string)
    requires SameAt(mem, sql, u, k)
    ensures var op := Admit(hash, u, idle);
            && SameAt(After(mem, limit, op), SqlAfter(sql, limit, op), u, k)
            && (k == hash ==> Returned(mem, limit, op) == SqlReturned(sql, limit, op))
  {
    var b := SqlAfter(sql, limit, Admit(hash, u, idle));
    assert k in b <==> k in sql;
  }

  lemma GetAgrees(mem: Records, sql: Records, limit: nat, hash: string, kind: Kind, u: int, k: string)
    requires SameAt(mem, sql, u, k)
    ensures var op := Get(hash, kind, u);
            && SameAt(After(mem, limit, op), SqlAfter(sql, limit, op), u, k)
            && (k == hash ==> Returned(mem, limit, op) == SqlReturned(sql, limit, op))
  {
  }

  lemma RevokeAgrees(mem: Records, sql: Records, limit: nat, hash: string, u: int, k: string)
    requires SameAt(mem, sql, u, k)
    ensures SameAt(After(mem, limit, Revoke(hash)), SqlAfter(sql, limit, Revoke(hash)), u, k)
    ensures Returned(mem, limit, Revoke(hash)) == SqlReturned(sql, limit, Revoke(hash))
  {
    var b := SqlAfter(sql, limit, Revoke(hash));
    assert k in b <==> k in sql;
  }

  lemma OneKeyAgrees(mem: Records, sql: Records, limit: nat, op: Op, u: int, k: string)
    requires SameAt(mem, sql, u, k) && !op.Put? && !op.Cleanup? && u == TimeOf(op, u)
    ensures SameAt(After(mem, limit, op), SqlAfter(sql, limit, op), u, k)
    ensures k == op.hash ==> Returned(mem, limit, op) == SqlReturned(sql, limit, op)
  {
    hide After, SqlAfter, Returned, SqlReturned, SameAt;
    match op
    case Get(hash, kind, _) => GetAgrees(mem, sql, limit, hash, kind, u, k);
    case Consume(hash, kind, _) => ConsumeAgrees(mem, sql, limit, hash, kind, u, k);
    case Admit(hash, _, idle) => AdmitAgrees(mem, sql, limit, hash, idle, u, k);
    case Revoke(hash) => RevokeAgrees(mem, sql, limit, hash, u, k);
  }

  lemma AgreeOnKey(mem: Records, sql: Records, limit: nat, op: Op, u: int)
    requires SameLive(mem, sql, u) && !op.Put? && !op.Cleanup? && u == TimeOf(op, u)
    ensures Returned(mem, limit, op) == SqlReturned(sql, limit, op)
    ensures SameLive(After(mem, limit, op), SqlAfter(sql, limit, op), u)
  {
    hide After, SqlAfter, Returned, SqlReturned, SameLive;
    LiveAt(mem, sql, u, op.hash);
    OneKeyAgrees(mem, sql, limit, op, u, op.hash);
    forall k ensures SameAt(After(mem, limit, op), SqlAfter(sql, limit, op), u, k) {
      LiveAt(mem, sql, u, k);
      OneKeyAgrees(mem, sql, limit, op, u, k);
    }
    SameEverywhere(After(mem, limit, op), SqlAfter(sql, limit, op), u);
  }

  function Times(ops: seq<Op>, start: int): int {
    if ops == [] then start else TimeOf(ops[|ops| - 1], Times(ops[..|ops| - 1], start))
  }

  ghost predicate InTime(ops: seq<Op>, start: int) {
    forall i :: 0 <= i < |ops| ==>
      Times(ops[..i], start) <= TimeOf(ops[i], Times(ops[..i], start)) && (ops[i].Put? ==> Checked(ops[i].record))
  }

  function State(limit: nat, ops: seq<Op>): Records {
    if ops == [] then map[] else After(State(limit, ops[..|ops| - 1]), limit, ops[|ops| - 1])
  }

  function SqlState(limit: nat, ops: seq<Op>): Records {
    if ops == [] then map[] else SqlAfter(SqlState(limit, ops[..|ops| - 1]), limit, ops[|ops| - 1])
  }

  // ---- Whole histories of the in-memory store -------------------------------------------------

  predicate Stores(limit: nat, ops: seq<Op>, i: nat, hash: string) {
    i < |ops| && ops[i].Put? && ops[i].record.hash == hash && Returned(State(limit, ops[..i]), limit, ops[i]) == Stored
  }

  predicate Takes(limit: nat, ops: seq<Op>, i: nat, hash: string) {
    i < |ops| && ops[i].Consume? && ops[i].hash == hash && CanConsume(State(limit, ops[..i]), hash, ops[i].kind, ops[i].now)
  }

  predicate Admits(limit: nat, ops: seq<Op>, i: nat, hash: string) {
    i < |ops| && ops[i].Admit? && ops[i].hash == hash && CanAdmit(State(limit, ops[..i]), hash, ops[i].now, ops[i].idle)
  }

  predicate Revokes(ops: seq<Op>, i: nat, hash: string) {
    i < |ops| && ops[i] == Revoke(hash)
  }

  predicate RevokedSince(ops: seq<Op>, j: nat, hash: string) {
    exists i :: j < i < |ops| && Revokes(ops, i, hash)
  }

  /** How a stored record came to be as it is: stored at `j`, last seen at `m`, neither consumed
      nor, unless it shows, revoked since. */
  ghost predicate Explains(limit: nat, ops: seq<Op>, hash: string, r: Record, j: nat, m: nat) {
    && j <= m < |ops| && Stores(limit, ops, j, hash)
    && r == ops[j].record.(lastSeen := r.lastSeen, revoked := r.revoked)
    && (forall i :: j < i < |ops| ==> !Takes(limit, ops, i, hash))
    && (r.revoked <==> ops[j].record.revoked || (r.kind == Session && RevokedSince(ops, j, hash)))
    && r.lastSeen == (if m == j then ops[j].record.lastSeen else TimeOf(ops[m], 0))
    && (m > j ==> Admits(limit, ops, m, hash))
    && ops[j].record.lastSeen <= r.lastSeen
    && (forall i :: j < i < |ops| && Admits(limit, ops, i, hash) ==> TimeOf(ops[i], 0) <= r.lastSeen)
  }

  lemma OpsPrefix(limit: nat, ops: seq<Op>, n: nat, hash: string)
    requires n <= |ops|
    ensures forall i :: 0 <= i < n ==> (Stores(limit, ops[..n], i, hash) <==> Stores(limit, ops, i, hash))
    ensures forall i :: 0 <= i < n ==> (Takes(limit, ops[..n], i, hash) <==> Takes(limit, ops, i, hash))
    ensures forall i :: 0 <= i < n ==> (Admits(limit, ops[..n], i, hash) <==> Admits(limit, ops, i, hash))
    ensures forall i :: 0 <= i < n ==> (Revokes(ops[..n], i, hash) <==> Revokes(ops, i, hash))
  {
    hide State, CanAdmit, CanConsume, Returned;
    forall i | 0 <= i < n ensures ops[..n][..i] == ops[..i] {
    }
  }

  /** Every stored record can be explained by the history. */
  lemma {:induction false} RecordExplained(limit: nat, ops: seq<Op>, hash: string) returns (j: nat, m: nat)
    requires hash in State(limit, ops)
    ensures Explains(limit, ops, hash, State(limit, ops)[hash], j, m)
  {
    var n := |ops| - 1;
    var s := State(limit, ops[..n]);
    if Stores(limit, ops, n, hash) {
      j, m := n, n;
    } else {
      RecordStep(s, limit, ops[n], hash);
      j, m := RecordExplained(limit, ops[..n], hash);
      StillExplained(limit, ops, hash, j, m);
      if Admits(limit, ops, n, hash) && s[hash].lastSeen < ops[n].now {
        m := n;
      }
    }
  }

  /** One more operation on a record that was there before. */
  lemma RecordStep(s: Records, limit: nat, op: Op, hash: string)
    requires hash in After(s, limit, op) && (op.Put? && op.record.hash == hash ==> Returned(s, limit, op) != Stored)
    ensures hash in s && !(op.Consume? && op.hash == hash && CanConsume(s, hash, op.kind, op.now))
    ensures var r := After(s, limit, op)[hash];
            var admitted := op.Admit? && op.hash == hash && CanAdmit(s, hash, op.now, op.idle);
            && r == s[hash].(lastSeen := r.lastSeen, revoked := r.revoked)
            && (r.revoked <==> s[hash].revoked || (op == Revoke(hash) && s[hash].kind == Session))
            && r.lastSeen == if admitted && s[hash].lastSeen < op.now then op.now else s[hash].lastSeen
  {
  }

  lemma StillExplained(limit: nat, ops: seq<Op>, hash: string, j: nat, k: nat)
    requires ops != [] && hash in State(limit, ops) && !Stores(limit, ops, |ops| - 1, hash)
    requires hash in State(limit, ops[..|ops| - 1])
    requires Explains(limit, ops[..|ops| - 1], hash, State(limit, ops[..|ops| - 1])[hash], j, k)
    ensures var n := |ops| - 1;
            var m := if Admits(limit, ops, n, hash) && State(limit, ops[..n])[hash].lastSeen < ops[n].now then n else k;
            Explains(limit, ops, hash, State(limit, ops)[hash], j, m)
  {
    hide State, Returned, CanAdmit, CanConsume, After;
    var n := |ops| - 1;
    var s := State(limit, ops[..n]);
    OpsPrefix(limit, ops, n, hash);
    assert State(limit, ops) == After(s, limit, ops[n]) by {
      LastState(limit, ops);
    }
    RecordStep(s, limit, ops[n], hash);
    assert forall i :: 0 <= i < n ==> ops[..n][i] == ops[i];
    RevokedOnce(ops, j, hash);
  }

  lemma RevokedOnce(ops: seq<Op>, j: nat, hash: string)
    requires ops != [] && j < |ops| - 1
    ensures RevokedSince(ops, j, hash) <==> RevokedSince(ops[..|ops| - 1], j, hash) || ops[|ops| - 1] == Revoke(hash)
  {
    var n := |ops| - 1;
    forall i | j < i < n ensures Revokes(ops[..n], i, hash) <==> Revokes(ops, i, hash) {
    }
    if ops[n] == Revoke(hash) {
      assert Revokes(ops, n, hash);
    }
  }

  lemma LastState(limit: nat, ops: seq<Op>)
    requires ops != []
    ensures State(limit, ops) == After(State(limit, ops[..|ops| - 1]), limit, ops[|ops| - 1])
  {
  }

  /** An admitted session was stored earlier and never revoked or consumed since, its fixed
      expiry is still ahead, and it was stored or last admitted within the idle window. */
  lemma AdmittedMeans(limit: nat, ops: seq<Op>, i: nat, hash: string) returns (j: nat, m: nat)
    requires Admits(limit, ops, i, hash)
    ensures var r := State(limit, ops[..i])[hash];
            && hash in State(limit, ops[..i]) && j <= m < i && Stores(limit, ops, j, hash)
            && ops[j].record.kind == Session && !ops[j].record.revoked
            && ops[i].now < ops[j].record.expiresAt
            && (forall k :: j < k < i ==> !Revokes(ops, k, hash) && !Takes(limit, ops, k, hash))
            && (m > j ==> Admits(limit, ops, m, hash))
            && ops[i].now < (if m == j then ops[j].record.lastSeen else ops[m].now) + ops[i].idle
            && Returned(State(limit, ops[..i]), limit, ops[i])
               == Row(Some(ops[j].record.(lastSeen := Seen(r, ops[i].now).lastSeen)))
  {
    hide State, Returned;
    j, m := RecordExplained(limit, ops[..i], hash);
    OpsPrefix(limit, ops, i, hash);
    RowAdmitted(State(limit, ops[..i]), limit, ops[i]);
    assert ops[..i][j] == ops[j] && ops[..i][m] == ops[m];
    assert forall k :: j < k < i ==> (Revokes(ops[..i], k, hash) <==> Revokes(ops, k, hash));
  }

  /** A stored session that is neither revoked nor consumed stays until its expiry, and each
      admission carries its last use forward. */
  lemma {:induction false} RecordStays(limit: nat, ops: seq<Op>, j: nat, n: nat, hash: string)
    requires j < n <= |ops| && Stores(limit, ops, j, hash) && !ops[j].record.revoked
    requires forall k :: j < k < n ==> !Takes(limit, ops, k, hash) && !Revokes(ops, k, hash)
    requires forall k :: j < k < n ==> TimeOf(ops[k], ops[j].record.expiresAt - 1) < ops[j].record.expiresAt
    ensures var s := State(limit, ops[..n]);
            && hash in s && !s[hash].revoked && s[hash].kind == ops[j].record.kind
            && s[hash].expiresAt == ops[j].record.expiresAt && s[hash].lastSeen >= ops[j].record.lastSeen
            && (forall m :: j < m < n && Admits(limit, ops, m, hash) ==> s[hash].lastSeen >= ops[m].now)
    decreases n
  {
    hide State, Returned, After, CanAdmit, CanConsume;
    assert ops[..n][..n - 1] == ops[..n - 1] && ops[..n][n - 1] == ops[n - 1];
    LastState(limit, ops[..n]);
    var s := State(limit, ops[..n - 1]);
    if j == n - 1 {
      StoredThere(s, limit, ops[j]);
    } else {
      RecordStays(limit, ops, j, n - 1, hash);
      assert !Takes(limit, ops, n - 1, hash) && !Revokes(ops, n - 1, hash);
      StaysOnce(s, limit, ops[n - 1], hash, ops[j].record.expiresAt);
    }
  }

  lemma StoredThere(s: Records, limit: nat, op: Op)
    requires op.Put? && Returned(s, limit, op) == Stored
    ensures op.record.hash in After(s, limit, op) && After(s, limit, op)[op.record.hash] == op.record
  {
  }

  lemma StaysOnce(s: Records, limit: nat, op: Op, hash: string, expiresAt: int)
    requires hash in s && s[hash].expiresAt == expiresAt && TimeOf(op, expiresAt - 1) < expiresAt && !s[hash].revoked
    requires op != Revoke(hash) && !(op.Consume? && op.hash == hash && CanConsume(s, hash, op.kind, op.now))
    ensures var t := After(s, limit, op);
            && hash in t && t[hash] == s[hash].(lastSeen := t[hash].lastSeen) && t[hash].lastSeen >= s[hash].lastSeen
            && (op.Admit? && op.hash == hash && CanAdmit(s, hash, op.now, op.idle) ==> t[hash].lastSeen >= op.now)
  {
  }

  /** A session that may be admitted: stored at `j`, used at `m`, nothing against it since. */
  ghost predicate Usable(limit: nat, ops: seq<Op>, i: nat, hash: string, j: nat, m: nat)
    requires i < |ops| && ops[i].Admit?
  {
    && j <= m < i && Stores(limit, ops, j, hash) && ops[j].record.kind == Session && !ops[j].record.revoked
    && ops[i].now < ops[j].record.expiresAt
    && (forall k :: j < k < i ==> !Revokes(ops, k, hash) && !Takes(limit, ops, k, hash))
    && (m > j ==> Admits(limit, ops, m, hash))
    && ops[i].now < (if m == j then ops[j].record.lastSeen else ops[m].now) + ops[i].idle
  }

  /** While the clock does not run backwards, a session is admitted exactly when its history
      allows it. */
  lemma AdmittedExactly(limit: nat, ops: seq<Op>, i: nat, hash: string)
    requires i < |ops| && ops[i].Admit? && ops[i].hash == hash
    requires forall k :: 0 <= k < i ==> TimeOf(ops[k], ops[i].now) <= ops[i].now
    ensures Admits(limit, ops, i, hash) <==> exists j, m :: Usable(limit, ops, i, hash, j, m)
  {
    if Admits(limit, ops, i, hash) {
      var j, m := AdmittedMeans(limit, ops, i, hash);
      assert Usable(limit, ops, i, hash, j, m);
    }
    forall j, m | Usable(limit, ops, i, hash, j, m) ensures Admits(limit, ops, i, hash) {
      UsableIsAdmitted(limit, ops, i, hash, j, m);
    }
  }

  lemma UsableIsAdmitted(limit: nat, ops: seq<Op>, i: nat, hash: string, j: nat, m: nat)
    requires i < |ops| && ops[i].Admit? && ops[i].hash == hash && Usable(limit, ops, i, hash, j, m)
    requires forall k :: 0 <= k < i ==> TimeOf(ops[k], ops[i].now) <= ops[i].now
    ensures Admits(limit, ops, i, hash)
  {
    hide State, Returned;
    forall k | j < k < i ensures TimeOf(ops[k], ops[j].record.expiresAt - 1) < ops[j].record.expiresAt {
      assert TimeOf(ops[k], ops[i].now) <= ops[i].now;
    }
    RecordStays(limit, ops, j, i, hash);
  }

  lemma RowAdmitted(s: Records, limit: nat, op: Op)
    requires op.Admit? && CanAdmit(s, op.hash, op.now, op.idle)
    ensures Returned(s, limit, op) == Row(Some(Seen(s[op.hash], op.now)))
  {
  }

  /** Between two consumptions of one hash it has been stored anew: a record is consumed at
      most once. */
  lemma ConsumedOnce(limit: nat, ops: seq<Op>, i: nat, k: nat, hash: string)
    requires i < k && Takes(limit, ops, i, hash) && Takes(limit, ops, k, hash)
    ensures exists j :: i < j < k && Stores(limit, ops, j, hash)
  {
    hide State, Returned;
    var j, m := RecordExplained(limit, ops[..k], hash);
    OpsPrefix(limit, ops, k, hash);
    StoredIsNotTaken(limit, ops, i, hash);
    assert j != i && Takes(limit, ops[..k], i, hash);
  }

  lemma StoredIsNotTaken(limit: nat, ops: seq<Op>, i: nat, hash: string)
    requires Takes(limit, ops, i, hash)
    ensures !Stores(limit, ops, i, hash)
  {
  }

  lemma {:induction false} CapacityKept(limit: nat, ops: seq<Op>)
    ensures |State(limit, ops)| <= limit
  {
    if ops != [] {
      CapacityKept(limit, ops[..|ops| - 1]);
      StepWithinCapacity(State(limit, ops[..|ops| - 1]), limit, ops[|ops| - 1]);
    }
  }

  lemma StepWithinCapacity(s: Records, limit: nat, op: Op)
    requires |s| <= limit
    ensures |After(s, limit, op)| <= limit
  {
    var r := After(s, limit, op);
    if op.Put? {
      SmallerMap(Cleaned(s, op.now), s);
      if r != Cleaned(s, op.now) {
        assert r.Keys == Cleaned(s, op.now).Keys + {op.record.hash};
      }
    } else {
      SmallerMap(r, s);
    }
  }

  lemma SmallerMap(a: Records, b: Records)
    requires a.Keys <= b.Keys
    ensures |a| <= |b|
  {
    SmallerKeys(a.Keys, b.Keys);
  }

  lemma {:induction false} SmallerKeys(a: set<string>, b: set<string>)
    requires a <= b
    ensures |a| <= |b|
  {
    if a != {} {
      var x :| x in a;
      SmallerKeys(a - {x}, b - {x});
    }
  }

  // ---- Both stores over whole histories ------------------------------------------------------------

  /** The in-memory store holds the rows of the table, except some that have expired. */
  ghost predicate Within(mem: Records, sql: Records, t: int) {
    && (forall k :: k in mem ==> k in sql && mem[k] == sql[k])
    && (forall k :: k in sql && k !in mem ==> sql[k].expiresAt <= t)
  }

  lemma WithinSameLive(mem: Records, sql: Records, t: int)
    requires Within(mem, sql, t)
    ensures SameLive(mem, sql, t)
  {
  }

  /** The store holds as many rows as the table exactly if it holds the same. */
  lemma CountsAgree(mem: Records, sql: Records, limit: nat, now: int, t: int)
    requires Within(mem, sql, t) && t <= now
    ensures Returned(mem, limit, Cleanup(now)) == SqlReturned(sql, limit, Cleanup(now)) <==> mem.Keys == sql.Keys
  {
    hide After;
    var m, q, more := Expired(mem, now), Expired(sql, now), set k | k in sql && k !in mem;
    SqlCount(sql, limit, now);
    assert q == m + more;
    DisjointSum(m, more);
    if forall k :: k in sql ==> k in mem {
      assert mem.Keys == sql.Keys && more == {};
    } else {
      var k :| k in sql && k !in mem;
      assert k in more && k in sql.Keys && k !in mem.Keys;
    }
  }

  lemma SqlCount(s: Records, limit: nat, now: int)
    ensures SqlReturned(s, limit, Cleanup(now)) == Removed(|Expired(s, now)|)
  {
  }

  lemma DisjointSum(a: set<string>, b: set<string>)
    requires a !! b
    ensures |a + b| == |a| + |b| && (|b| == 0 <==> b == {})
  {
  }

  predicate Refuses(limit: nat, ops: seq<Op>, j: nat) {
    j < |ops| && ops[j].Put? && Returned(State(limit, ops[..j]), limit, ops[j]) == Refused
  }

  /** After an accepted `put` or a clean-up both stores hold just the unexpired rows. */
  predicate Settles(limit: nat, ops: seq<Op>, j: nat) {
    j < |ops| && (ops[j].Cleanup? || (ops[j].Put? && Returned(State(limit, ops[..j]), limit, ops[j]) == Stored))
  }

  /** Some `put` refused since the last accepted `put` or clean-up had expired rows to clear. */
  ghost predicate ClearedByRefusal(limit: nat, ops: seq<Op>, n: nat)
    requires n <= |ops|
  {
    exists j :: 0 <= j < n && Refuses(limit, ops, j) && Expired(State(limit, ops[..j]), ops[j].now) != {}
                && forall k :: j < k < n ==> !Settles(limit, ops, k)
  }

  lemma PutKeepsWithin(mem: Records, sql: Records, limit: nat, op: Op, t: int)
    requires Within(mem, sql, t) && op.Put? && t <= op.now && Checked(op.record)
    ensures Within(After(mem, limit, op), SqlAfter(sql, limit, op), op.now)
    ensures var same := After(mem, limit, op).Keys == SqlAfter(sql, limit, op).Keys;
            if Returned(mem, limit, op) == Stored then same
            else same <==> mem.Keys == sql.Keys && Expired(mem, op.now) == {}
  {
    var live := map k | k in sql && !(sql[k].expiresAt <= op.now) :: sql[k];
    assert live == Cleaned(mem, op.now);
    if Returned(mem, limit, op) != Stored {
      assert SqlAfter(sql, limit, op) == sql && After(mem, limit, op) == Cleaned(mem, op.now);
      if Expired(mem, op.now) != {} {
        var k :| k in Expired(mem, op.now);
        assert k !in Cleaned(mem, op.now) && k in sql;
      } else {
        forall k | k in mem ensures k in Cleaned(mem, op.now) {
          assert k !in Expired(mem, op.now);
        }
        assert Cleaned(mem, op.now).Keys == mem.Keys;
      }
    }
  }

  lemma ConsumeKeepsWithin(mem: Records, sql: Records, limit: nat, op: Op, t: int)
    requires Within(mem, sql, t) && op.Consume? && t <= op.now
    ensures Within(After(mem, limit, op), SqlAfter(sql, limit, op), op.now)
    ensures After(mem, limit, op).Keys == SqlAfter(sql, limit, op).Keys <==> mem.Keys == sql.Keys
  {
    var m, q := After(mem, limit, op), SqlAfter(sql, limit, op);
    assert forall k :: k in q <==> k in sql && !(k == op.hash && sql[k].kind == op.kind && sql[k].expiresAt > op.now && !sql[k].revoked);
    if forall k :: k in sql ==> k in mem {
      assert mem.Keys == sql.Keys;
      assert forall k :: k in q <==> k in m;
    } else {
      var k :| k in sql && k !in mem;
      assert k in q.Keys && k !in m.Keys && k in sql.Keys && k !in mem.Keys;
    }
  }

  lemma OthersKeepWithin(mem: Records, sql: Records, limit: nat, op: Op, t: int)
    requires Within(mem, sql, t) && !op.Put? && t <= TimeOf(op, t)
    ensures Within(After(mem, limit, op), SqlAfter(sql, limit, op), TimeOf(op, t))
    ensures var same := After(mem, limit, op).Keys == SqlAfter(sql, limit, op).Keys;
            same <==> op.Cleanup? || mem.Keys == sql.Keys
  {
    var m, q := After(mem, limit, op), SqlAfter(sql, limit, op);
    match op
    case Consume(_, _, _) => ConsumeKeepsWithin(mem, sql, limit, op, t);
    case Cleanup(now) =>
      assert forall k :: k in q <==> k in sql && !(sql[k].expiresAt <= now);
    case Admit(hash, now, idle) =>
      assert q.Keys == sql.Keys && m.Keys == mem.Keys;
    case Revoke(hash) =>
      assert q.Keys == sql.Keys && m.Keys == mem.Keys;
    case Get(_, _, _) =>
  }

  /** How the condition grows with a history. */
  lemma ClearedOneMore(limit: nat, ops: seq<Op>, n: nat)
    requires n < |ops|
    ensures ClearedByRefusal(limit, ops, n + 1) <==>
              if Settles(limit, ops, n) then false
              else (Refuses(limit, ops, n) && Expired(State(limit, ops[..n]), ops[n].now) != {}) || ClearedByRefusal(limit, ops, n)
  {
    hide State, Returned, Expired;
    if Refuses(limit, ops, n) && Expired(State(limit, ops[..n]), ops[n].now) != {} && !Settles(limit, ops, n) {
      assert ClearedByRefusal(limit, ops, n + 1);
    } else if ClearedByRefusal(limit, ops, n) && !Settles(limit, ops, n) {
      var j :| 0 <= j < n && Refuses(limit, ops, j) && Expired(State(limit, ops[..j]), ops[j].now) != {}
               && forall k :: j < k < n ==> !Settles(limit, ops, k);
      assert forall k :: j < k < n + 1 ==> !Settles(limit, ops, k);
    }
  }

  lemma PutAnswers(s: Records, limit: nat, op: Op)
    requires op.Put?
    ensures Returned(s, limit, op) == Stored || Returned(s, limit, op) == Refused
  {
  }

  /** Along a history the store stays within the table, and holds less exactly if a refusal has
      cleared something. */
  lemma {:induction false} StoresStayWithin(limit: nat, ops: seq<Op>, start: int, n: nat)
    requires InTime(ops, start) && n <= |ops|
    ensures Within(State(limit, ops[..n]), SqlState(limit, ops[..n]), Times(ops[..n], start))
    ensures State(limit, ops[..n]).Keys == SqlState(limit, ops[..n]).Keys <==> !ClearedByRefusal(limit, ops, n)
  {
    hide After, SqlAfter, Returned, TimeOf, Within, Expired, ClearedByRefusal;
    if n == 0 {
      NothingCleared(limit, ops, start);
    } else {
      StoresStayWithin(limit, ops, start, n - 1);
      var op := ops[n - 1];
      var mem, sql, t := State(limit, ops[..n - 1]), SqlState(limit, ops[..n - 1]), Times(ops[..n - 1], start);
      assert ops[..n][..n - 1] == ops[..n - 1];
      ClearedOneMore(limit, ops, n - 1);
      if op.Put? {
        PutAnswers(mem, limit, op);
        PutTime(op, t);
        PutKeepsWithin(mem, sql, limit, op, t);
      } else {
        OthersKeepWithin(mem, sql, limit, op, t);
      }
    }
  }

  lemma PutTime(op: Op, t: int)
    requires op.Put?
    ensures TimeOf(op, t) == op.now
  {
  }

  lemma NothingCleared(limit: nat, ops: seq<Op>, start: int)
    ensures !ClearedByRefusal(limit, ops, 0) && Within(State(limit, ops[..0]), SqlState(limit, ops[..0]), start)
    ensures Times(ops[..0], start) == start && State(limit, ops[..0]).Keys == SqlState(limit, ops[..0]).Keys
  {
  }

  /** Over every history both stores give the same answers, to the clean-ups as well, but for
      exactly those clean-ups before which a refused `put` had cleared expired rows in memory. */
  lemma HistoriesAgree(limit: nat, ops: seq<Op>, start: int)
    requires InTime(ops, start)
    ensures SameLive(State(limit, ops), SqlState(limit, ops), Times(ops, start))
    ensures forall i :: 0 <= i < |ops| ==>
              (Returned(State(limit, ops[..i]), limit, ops[i]) == SqlReturned(SqlState(limit, ops[..i]), limit, ops[i])
               <==> !(ops[i].Cleanup? && ClearedByRefusal(limit, ops, i)))
  {
    hide After, SqlAfter, Returned, SqlReturned, Within, ClearedByRefusal, SameLive;
    forall i | 0 <= i < |ops|
      ensures Returned(State(limit, ops[..i]), limit, ops[i]) == SqlReturned(SqlState(limit, ops[..i]), limit, ops[i])
         <==> !(ops[i].Cleanup? && ClearedByRefusal(limit, ops, i))
    {
      var mem, sql, t := State(limit, ops[..i]), SqlState(limit, ops[..i]), Times(ops[..i], start);
      StoresStayWithin(limit, ops, start, i);
      if ops[i].Cleanup? {
        CountsAgree(mem, sql, limit, ops[i].now, t);
      } else {
        WithinSameLive(mem, sql, t);
        StoresAgree(mem, sql, limit, ops[i], t);
      }
    }
    StoresStayWithin(limit, ops, start, |ops|);
    assert ops[..|ops|] == ops;
    WithinSameLive(State(limit, ops), SqlState(limit, ops), Times(ops, start));
  }

  function Sample(hash: string, created: int, expires: int): Record {
    Record(hash, Session, "", created, created, expires, false)
  }

  /** A history on which they differ: an expired record, a refused `put`, a clean-up. */
  function Differing(a: string, b: string): seq<Op> {
    [Put(Sample(a, 0, 10), 0), Put(Sample(b, 0, 100), 0), Put(Sample(b, 20, 120), 20), Cleanup(30)]
  }

  lemma CleanupCountsDiffer(a: string, b: string)
    requires a != b
    ensures var ops := Differing(a, b);
            && InTime(ops, 0)
            && Returned(State(2, ops[..3]), 2, ops[3]) == Removed(0)
            && SqlReturned(SqlState(2, ops[..3]), 2, ops[3]) == Removed(1)
  {
    hide InTime, State, SqlState;
    var ops := Differing(a, b);
    DifferingInTime(a, b);
    DifferingStates(a, b);
    assert Expired(map[b := Sample(b, 0, 100)], 30) == {};
    assert Expired(map[a := Sample(a, 0, 10), b := Sample(b, 0, 100)], 30) == {a};
  }

  lemma DifferingInTime(a: string, b: string)
    ensures InTime(Differing(a, b), 0)
  {
    var ops := Differing(a, b);
    assert ops[..1][..0] == ops[..0] && ops[..2][..1] == ops[..1] && ops[..3][..2] == ops[..2];
    assert Times(ops[..0], 0) == 0;
    assert Times(ops[..1], 0) == 0;
    assert Times(ops[..2], 0) == 0;
    assert Times(ops[..3], 0) == 20;
  }

  lemma LiveIsCleaned(s: Records, now: int)
    ensures (map k | k in s && !(s[k].expiresAt <= now) :: s[k]) == Cleaned(s, now)
  {
  }

  lemma DifferingStates(a: string, b: string)
    requires a != b
    ensures State(2, Differing(a, b)[..3]) == map[b := Sample(b, 0, 100)]
    ensures SqlState(2, Differing(a, b)[..3]) == map[a := Sample(a, 0, 10), b := Sample(b, 0, 100)]
  {
    var ops := Differing(a, b);
    var one: Records := map[a := Sample(a, 0, 10)];
    var two: Records := map[a := Sample(a, 0, 10), b := Sample(b, 0, 100)];
    var nothing: Records := map[];
    assert ops[..0] == [] && ops[..1][..0] == ops[..0] && ops[..2][..1] == ops[..1] && ops[..3][..2] == ops[..2];
    assert |nothing| == 0 && Cleaned(nothing, 0) == nothing;
    assert State(2, ops[..1]) == one;
    assert SqlState(2, ops[..1]) == one by {
      LiveIsCleaned(nothing, 0);
    }
    assert Cleaned(one, 0) == one && |one| == 1;
    assert State(2, ops[..2]) == two;
    assert SqlState(2, ops[..2]) == two by {
      LiveIsCleaned(one, 0);
    }
    assert Cleaned(two, 20) == map[b := Sample(b, 0, 100)];
    assert b in Cleaned(two, 20);
    assert State(2, ops[..3]) == Cleaned(two, 20);
    assert SqlState(2, ops[..3]) == two by {
      LiveIsCleaned(two, 20);
    }
  }

  // ---- The in-memory store, in place ---------------------------------------------------------------

  class MemorySessionStore {
    var records: Records
    const limit: nat

    constructor (limit: nat)
      ensures records == map[] && this.limit == limit
    {
      this.limit, records := limit, map[];
    }

    /** Deletes the expired rows and returns how many there were. */
    method CleanUp(now: int) returns (removed: nat)
      modifies this`records
      ensures records == Cleaned(old(records), now)
      ensures Removed(removed) == Returned(old(records), limit, Op.Cleanup(now))
    {
      ghost var before := records;
      var expired := Expired(records, now);
      removed := |expired|;
      var rest := expired;
      while rest != {}
        invariant rest <= expired
        invariant forall k :: k in records <==> k in before && (k !in expired || k in rest)
        invariant forall k :: k in records ==> records[k] == before[k]
        decreases rest
      {
        var k :| k in rest;
        records := records - {k};
        rest := rest - {k};
      }
    }

    method Put(record: Record, now: int) returns (stored: bool)
      modifies this`records
      ensures records == After(old(records), limit, Op.Put(record, now))
      ensures stored <==> Returned(old(records), limit, Op.Put(record, now)) == Stored
    {
      var removed := CleanUp(now);
      stored := !(|records| >= limit || record.hash in records);
      if stored {
        records := records[record.hash := record];
      }
    }

    method Get(hash: string, kind: Kind, now: int) returns (row: Option<Record>)
      ensures Row(row) == Returned(records, limit, Op.Get(hash, kind, now))
    {
      row := None;
      if hash in records && records[hash].kind == kind && records[hash].expiresAt > now {
        row := Some(records[hash]);
      }
    }

    method Consume(hash: string, kind: Kind, now: int) returns (row: Option<Record>)
      modifies this`records
      ensures records == After(old(records), limit, Op.Consume(hash, kind, now))
      ensures Row(row) == Returned(old(records), limit, Op.Consume(hash, kind, now))
    {
      row := None;
      if hash in records && records[hash].kind == kind && records[hash].expiresAt > now && !records[hash].revoked {
        row := Some(records[hash]);
        records := records - {hash};
      }
    }

    method Admit(hash: string, now: int, idle: int) returns (row: Option<Record>)
      modifies this`records
      ensures records == After(old(records), limit, Op.Admit(hash, now, idle))
      ensures Row(row) == Returned(old(records), limit, Op.Admit(hash, now, idle))
    {
      if hash !in records || records[hash].kind != Session || records[hash].revoked || records[hash].expiresAt <= now
         || records[hash].lastSeen + idle <= now {
        return None;
      }
      var seen := Seen(records[hash], now);
      records := records[hash := seen];
      row := Some(seen);
    }

    method Revoke(hash: string)
      modifies this`records
      ensures records == After(old(records), limit, Op.Revoke(hash))
    {
      if hash in records && records[hash].kind == Session {
        records := records[hash := records[hash].(revoked := true)];
      }
    }
  }
}
