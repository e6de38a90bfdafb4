/** Refresh-token rotation with reuse detection. */
module RefreshTokens {
  // A refresh reads its token, consumes it by compare-and-set, and stores a successor;
  // presenting a consumed token revokes all tokens of its user. Logins, refreshes and logouts
  // interleave at every step. Tokens are numbered in the order they were stored.

  type UserId = nat

  const LIFETIME: nat := 7 * 24 * 60 * 60

  datatype Token = Token(user: UserId, used: bool, revoked: bool, expires: nat)

  /**
   History for the statements: which operation consumed a token, which token a token
   was rotated from, who logged in, and whose successor was lost after the consumption.
   */
  datatype Notes = Notes(consumer: map<nat, nat>, parent: map<nat, nat>, logins: seq<UserId>, lost: seq<UserId>)

  datatype Op =
    | Done
    | LoginStore(user: UserId)
    | RefreshRead(token: nat)
    | RefreshMark(token: nat)
    | RefreshStore(token: nat, user: UserId)
    | Revoke(user: UserId)

  datatype Store = Store(tokens: seq<Token>, clock: nat, notes: Notes)

  datatype Moved = Moved(op: Op, store: Store)

  datatype World = World(store: Store, ops: seq<Op>)

  datatype Event = Spawn(op: Op) | Run(k: nat, ok: bool) | Tick(seconds: nat)

  // ---------- atomic changes ----------

  function Issue(s: Store, u: UserId): Store {
    s.(tokens := s.tokens + [Token(u, false, false, s.clock + LIFETIME)])
  }

  function Login(s: Store, u: UserId): Store {
    Issue(s, u).(notes := s.notes.(logins := s.notes.logins + [u]))
  }

  function Rotate(s: Store, t: nat, u: UserId): Store {
    Issue(s, u).(notes := s.notes.(parent := s.notes.parent[|s.tokens| := t]))
  }

  function Consume(s: Store, t: nat, k: nat): Store
    requires t < |s.tokens|
  {
    s.(tokens := s.tokens[t := s.tokens[t].(used := true)], notes := s.notes.(consumer := s.notes.consumer[t := k]))
  }

  function RevokeRow(row: Token, u: UserId): Token {
    if row.user == u then row.(revoked := true) else row
  }

  function RevokeAll(s: Store, u: UserId): Store {
    s.(tokens := seq(|s.tokens|, n requires 0 <= n < |s.tokens| => RevokeRow(s.tokens[n], u)))
  }

  /** One step of operation k; `ok` is false when its statement, or what it needs before the statement, fails. */
  function Next(k: nat, op: Op, s: Store, ok: bool): Moved {
    match op
    case Done => Moved(Done, s)
    case LoginStore(u) => Moved(Done, if ok then Login(s, u) else s)
    case RefreshRead(t) =>
      if !ok || t >= |s.tokens| then Moved(Done, s)
      else if s.tokens[t].used then Moved(Revoke(s.tokens[t].user), s)
      else if s.tokens[t].revoked || s.clock > s.tokens[t].expires then Moved(Done, s)
      else Moved(RefreshMark(t), s)
    case RefreshMark(t) =>
      if !ok || t >= |s.tokens| then Moved(Done, s)
      else if s.tokens[t].used then Moved(Revoke(s.tokens[t].user), s)
      else Moved(RefreshStore(t, s.tokens[t].user), Consume(s, t, k))
    case RefreshStore(t, u) =>
      Moved(Done, if ok then Rotate(s, t, u) else s.(notes := s.notes.(lost := s.notes.lost + [u])))
    case Revoke(u) => Moved(Done, if ok then RevokeAll(s, u) else s)
  }

  predicate Startable(op: Op) {
    op.LoginStore? || op.RefreshRead? || op.Revoke?
  }

  function Apply(w: World, e: Event): World {
    match e
    case Spawn(op) => if Startable(op) then w.(ops := w.ops + [op]) else w
    case Run(k, ok) =>
      if k < |w.ops| then
        var m := Next(k, w.ops[k], w.store, ok);
        World(m.store, w.ops[k := m.op])
      else w
    case Tick(n) => w.(store := w.store.(clock := w.store.clock + n))
  }

  function RunAll(w: World, es: seq<Event>): World {
    if es == [] then w else Apply(RunAll(w, es[..|es| - 1]), es[|es| - 1])
  }

  predicate Initial(w: World) {
    w.store.tokens == [] && w.store.notes == Notes(map[], map[], [], []) && w.ops == []
  }

  lemma {:induction false} RunAllAppend(w: World, es: seq<Event>, es': seq<Event>)
    ensures RunAll(w, es + es') == RunAll(RunAll(w, es), es')
  {
    if es' == [] {
      assert es + es' == es;
    } else {
      assert (es + es')[..|es + es'| - 1] == es + es'[..|es'| - 1];
      RunAllAppend(w, es, es'[..|es'| - 1]);
    }
  }

  /** Rows stay, with their owner and expiry; used and revoked are never taken back. */
  predicate Kept(before: Store, after: Store) {
    && |before.tokens| <= |after.tokens| && before.clock <= after.clock
    && forall t :: 0 <= t < |before.tokens| ==> RowKept(before.tokens[t], after.tokens[t])
  }

  predicate RowKept(was: Token, row: Token) {
    && row.user == was.user && row.expires == was.expires
    && (was.used ==> row.used) && (was.revoked ==> row.revoked)
  }

  /** In every run tokens stay, keep their owner, and stay used and revoked once they are. */
  lemma {:induction false} RowsKept(w: World, es: seq<Event>)
    ensures Kept(w.store, RunAll(w, es).store)
  {
    if es != [] {
      RowsKept(w, es[..|es| - 1]);
    }
  }

  // ---------- counting ----------

  function UnusedOf(tokens: seq<Token>, u: UserId): nat {
    if tokens == [] then 0
    else
      var last := tokens[|tokens| - 1];
      UnusedOf(tokens[..|tokens| - 1], u) + if last.user == u && !last.used then 1 else 0
  }

  function Owed(op: Op, u: UserId): nat {
    if op.RefreshStore? && op.user == u then 1 else 0
  }

  /** Refreshes that have consumed a token of u and not stored its successor yet. */
  function StoringOf(ops: seq<Op>, u: UserId): nat {
    if ops == [] then 0
    else
      StoringOf(ops[..|ops| - 1], u) + Owed(ops[|ops| - 1], u)
  }

  lemma {:induction false} UnusedUpdate(tokens: seq<Token>, t: nat, row: Token, u: UserId)
    requires t < |tokens|
    ensures UnusedOf(tokens[t := row], u)
         == UnusedOf(tokens, u) - (if tokens[t].user == u && !tokens[t].used then 1 else 0)
            + (if row.user == u && !row.used then 1 else 0)
  {
    var n := |tokens| - 1;
    if t == n {
      assert tokens[t := row][..n] == tokens[..n];
    } else {
      assert tokens[t := row][..n] == tokens[..n][t := row];
      UnusedUpdate(tokens[..n], t, row, u);
    }
  }

  lemma {:induction false} UnusedRevoked(s: Store, s': Store, u: UserId)
    requires |s'.tokens| == |s.tokens|
    requires forall n :: 0 <= n < |s.tokens| ==>
      s'.tokens[n].user == s.tokens[n].user && s'.tokens[n].used == s.tokens[n].used
    ensures UnusedOf(s'.tokens, u) == UnusedOf(s.tokens, u)
    decreases |s.tokens|
  {
    if s.tokens != [] {
      var n := |s.tokens| - 1;
      UnusedRevoked(s.(tokens := s.tokens[..n]), s'.(tokens := s'.tokens[..n]), u);
    }
  }

  lemma {:induction false} StoringUpdate(ops: seq<Op>, k: nat, op: Op, u: UserId)
    requires k < |ops|
    ensures StoringOf(ops[k := op], u) == StoringOf(ops, u) - Owed(ops[k], u) + Owed(op, u)
  {
    var n := |ops| - 1;
    if k == n {
      assert ops[k := op][..n] == ops[..n];
    } else {
      assert ops[k := op][..n] == ops[..n][k := op];
      StoringUpdate(ops[..n], k, op, u);
    }
  }

  /** Unused tokens, successors in flight and lost successors together. */
  function Balance(w: World, u: UserId): int {
    UnusedOf(w.store.tokens, u) + StoringOf(w.ops, u) + multiset(w.store.notes.lost)[u]
    - multiset(w.store.notes.logins)[u]
  }

  lemma IssueCounts(s: Store, u: UserId, v: UserId)
    ensures UnusedOf(Issue(s, v).tokens, u) == UnusedOf(s.tokens, u) + if u == v then 1 else 0
  {
    var tokens := Issue(s, v).tokens;
    assert tokens[..|tokens| - 1] == s.tokens;
  }

  lemma NextBalance(k: nat, op: Op, s: Store, ok: bool, u: UserId)
    ensures var m := Next(k, op, s, ok);
            UnusedOf(m.store.tokens, u) + Owed(m.op, u) + multiset(m.store.notes.lost)[u] - multiset(m.store.notes.logins)[u]
            == UnusedOf(s.tokens, u) + Owed(op, u) + multiset(s.notes.lost)[u] - multiset(s.notes.logins)[u]
  {
    hide UnusedOf;
    match op
    case LoginStore(v) => IssueCounts(s, u, v);
    case RefreshMark(t) =>
      if t < |s.tokens| { UnusedUpdate(s.tokens, t, s.tokens[t].(used := true), u); }
    case RefreshStore(t, v) => IssueCounts(s, u, v);
    case Revoke(v) => UnusedRevoked(s, RevokeAll(s, v), u);
    case _ =>
  }

  lemma RunBalance(w: World, k: nat, ok: bool, u: UserId)
    requires k < |w.ops|
    ensures Balance(Apply(w, Run(k, ok)), u) == Balance(w, u)
  {
    hide Next, UnusedOf, StoringOf;
    NextBalance(k, w.ops[k], w.store, ok, u);
    StoringUpdate(w.ops, k, Next(k, w.ops[k], w.store, ok).op, u);
  }

  lemma EventBalance(w: World, e: Event, u: UserId)
    ensures Balance(Apply(w, e), u) == Balance(w, u)
  {
    var w' := Apply(w, e);
    match e
    case Spawn(op) =>
      if Startable(op) { assert w'.ops[..|w'.ops| - 1] == w.ops; }
    case Run(k, ok) =>
      if k < |w.ops| { RunBalance(w, k, ok, u); }
    case Tick(n) =>
  }

  /**
   In every interleaving each login of a user is accounted for by exactly one unused
   token, one successor being stored, or one successor that was lost.
   */
  lemma {:induction false} RotationConserves(start: World, es: seq<Event>, u: UserId)
    requires Initial(start)
    ensures var w := RunAll(start, es);
            UnusedOf(w.store.tokens, u) + StoringOf(w.ops, u) + multiset(w.store.notes.lost)[u]
            == multiset(w.store.notes.logins)[u]
    ensures UnusedOf(RunAll(start, es).store.tokens, u) <= multiset(RunAll(start, es).store.notes.logins)[u]
  {
    if es != [] {
      RotationConserves(start, es[..|es| - 1], u);
      EventBalance(RunAll(start, es[..|es| - 1]), es[|es| - 1], u);
    }
  }

  // ---------- one successor per token ----------

  predicate NoChild(notes: Notes, t: nat) {
    forall c :: c in notes.parent ==> notes.parent[c] != t
  }

  predicate OpInv(k: nat, op: Op, s: Store) {
    match op
    case RefreshMark(t) => t < |s.tokens|
    case RefreshStore(t, u) =>
      && t < |s.tokens| && s.tokens[t].used && s.tokens[t].user == u
      && t in s.notes.consumer && s.notes.consumer[t] == k && NoChild(s.notes, t)
    case _ => true
  }

  predicate StoreInv(s: Store) {
    && (forall t :: t in s.notes.consumer ==> t < |s.tokens| && s.tokens[t].used)
    && (forall c :: c in s.notes.parent ==>
          s.notes.parent[c] < c < |s.tokens| && s.tokens[s.notes.parent[c]].used
          && s.tokens[s.notes.parent[c]].user == s.tokens[c].user
          && s.notes.parent[c] in s.notes.consumer)
    && (forall c, d :: c in s.notes.parent && d in s.notes.parent && c != d ==> s.notes.parent[c] != s.notes.parent[d])
  }

  predicate Inv(w: World) {
    StoreInv(w.store) && forall k :: 0 <= k < |w.ops| ==> OpInv(k, w.ops[k], w.store)
  }

  lemma ConsumeKeeps(s: Store, t: nat, k: nat)
    requires StoreInv(s) && t < |s.tokens|
    ensures StoreInv(Consume(s, t, k))
  {
  }

  lemma RotateKeeps(s: Store, t: nat, u: UserId)
    requires StoreInv(s) && t < |s.tokens| && s.tokens[t].used && s.tokens[t].user == u
    requires t in s.notes.consumer && NoChild(s.notes, t)
    ensures StoreInv(Rotate(s, t, u))
  {
  }

  lemma StoreKeeps(k: nat, op: Op, s: Store, ok: bool)
    requires StoreInv(s) && OpInv(k, op, s)
    ensures StoreInv(Next(k, op, s, ok).store)
  {
    match op
    case RefreshMark(t) =>
      hide StoreInv;
      ConsumeKeeps(s, t, k);
    case RefreshStore(t, u) =>
      hide StoreInv;
      RotateKeeps(s, t, u);
      LostKeeps(s, u);
    case _ =>
  }

  lemma LostKeeps(s: Store, u: UserId)
    requires StoreInv(s)
    ensures StoreInv(s.(notes := s.notes.(lost := s.notes.lost + [u])))
  {
  }

  lemma OwnKeeps(k: nat, op: Op, s: Store, ok: bool)
    requires StoreInv(s) && OpInv(k, op, s)
    ensures OpInv(k, Next(k, op, s, ok).op, Next(k, op, s, ok).store)
  {
  }

  /** Another operation's step cannot touch a token this operation has consumed, nor give it a child. */
  lemma OthersKeep(k: nat, op: Op, s: Store, ok: bool, j: nat, other: Op)
    requires StoreInv(s) && OpInv(k, op, s) && OpInv(j, other, s) && j != k
    ensures OpInv(j, other, Next(k, op, s, ok).store)
  {
    if other.RefreshStore? && op.RefreshMark? && op.token == other.token {
      assert s.tokens[op.token].used;
    }
  }

  lemma EventKeeps(w: World, e: Event)
    requires Inv(w)
    ensures Inv(Apply(w, e))
  {
    hide OpInv, StoreInv, Next;
    var w' := Apply(w, e);
    match e
    case Spawn(op) => FreshOpInv(|w.ops|, op, w.store);
    case Run(k, ok) =>
      if k < |w.ops| {
        StoreKeeps(k, w.ops[k], w.store, ok);
        OwnKeeps(k, w.ops[k], w.store, ok);
        forall j | 0 <= j < |w'.ops| ensures OpInv(j, w'.ops[j], w'.store) {
          if j != k { OthersKeep(k, w.ops[k], w.store, ok, j, w.ops[j]); }
        }
      }
    case Tick(n) => TickKeeps(w, n);
  }

  lemma FreshOpInv(k: nat, op: Op, s: Store)
    ensures Startable(op) ==> OpInv(k, op, s)
  {
  }

  lemma TickKeeps(w: World, n: nat)
    requires Inv(w)
    ensures Inv(Apply(w, Tick(n)))
  {
    forall j | 0 <= j < |w.ops| ensures OpInv(j, w.ops[j], Apply(w, Tick(n)).store) {
      assert OpInv(j, w.ops[j], w.store);
    }
  }

  lemma {:induction false} RunKeeps(w: World, es: seq<Event>)
    requires Inv(w)
    ensures Inv(RunAll(w, es)) && |w.ops| <= |RunAll(w, es).ops|
  {
    if es != [] {
      RunKeeps(w, es[..|es| - 1]);
      EventKeeps(RunAll(w, es[..|es| - 1]), es[|es| - 1]);
    }
  }

  /** In every interleaving a token has at most one successor, of its own user, and only after it was consumed. */
  lemma OneSuccessor(start: World, es: seq<Event>, c: nat, d: nat)
    requires Initial(start)
    requires c in RunAll(start, es).store.notes.parent && d in RunAll(start, es).store.notes.parent
    ensures var s := RunAll(start, es).store;
            && (s.notes.parent[c] == s.notes.parent[d] ==> c == d)
            && s.notes.parent[c] < |s.tokens| && s.tokens[s.notes.parent[c]].used
            && c < |s.tokens| && s.tokens[s.notes.parent[c]].user == s.tokens[c].user
  {
    RunKeeps(start, es);
  }

  // ---------- after a replay ----------

  predicate Live(s: Store, t: nat) {
    t < |s.tokens| && !s.tokens[t].used && !s.tokens[t].revoked
  }

  predicate HasLive(s: Store, u: UserId) {
    exists t :: 0 <= t < |s.tokens| && s.tokens[t].user == u && Live(s, t)
  }

  /** An operation that read token t as good and is about to consume it. */
  predicate About(ops: seq<Op>, t: nat) {
    exists k :: 0 <= k < |ops| && ops[k] == RefreshMark(t)
  }

  /** A refresh of u stands between its read and its store and can still succeed. */
  predicate InFlight(w: World, u: UserId) {
    || (exists k :: 0 <= k < |w.ops| && w.ops[k].RefreshStore? && w.ops[k].user == u)
    || (exists t :: 0 <= t < |w.store.tokens| && w.store.tokens[t].user == u && !w.store.tokens[t].used && About(w.ops, t))
  }

  /** Nothing of u is usable and nothing on its way can become so. */
  predicate Dormant(w: World, u: UserId) {
    !HasLive(w.store, u) && !InFlight(w, u)
  }

  predicate LogsIn(w: World, e: Event, u: UserId) {
    e.Run? && e.k < |w.ops| && w.ops[e.k] == LoginStore(u) && e.ok
  }

  predicate NoLogin(w: World, es: seq<Event>, u: UserId) {
    forall n :: 0 <= n < |es| ==> !LogsIn(RunAll(w, es[..n]), es[n], u)
  }

  lemma DormantStep(w: World, e: Event, u: UserId)
    requires Inv(w) && Dormant(w, u) && !LogsIn(w, e, u)
    ensures Dormant(Apply(w, e), u)
  {
    var w' := Apply(w, e);
    if e.Run? && e.k < |w.ops| {
      assert OpInv(e.k, w.ops[e.k], w.store);
      forall t | 0 <= t < |w'.store.tokens| && w'.store.tokens[t].user == u
        ensures !Live(w'.store, t)
        ensures !w'.store.tokens[t].used ==> !About(w'.ops, t)
      {
        if t < |w.store.tokens| {
          assert !Live(w.store, t);
          if About(w'.ops, t) {
            var k :| 0 <= k < |w'.ops| && w'.ops[k] == RefreshMark(t);
            if k != e.k { assert About(w.ops, t); }
          }
        }
      }
      forall k | 0 <= k < |w'.ops| && w'.ops[k].RefreshStore? ensures w'.ops[k].user != u {
        if k == e.k {
          var op := w.ops[k];
          assert op.RefreshMark?;
          assert About(w.ops, op.token);
        }
      }
    } else if e.Spawn? {
      forall t | 0 <= t < |w.store.tokens| && About(w'.ops, t) ensures About(w.ops, t) {
        var k :| 0 <= k < |w'.ops| && w'.ops[k] == RefreshMark(t);
        assert k < |w.ops|;
      }
    }
  }

  lemma {:induction false} DormantStays(w: World, es: seq<Event>, u: UserId)
    requires Inv(w) && Dormant(w, u) && NoLogin(w, es, u)
    ensures Dormant(RunAll(w, es), u)
  {
    if es != [] {
      var front := es[..|es| - 1];
      forall n | 0 <= n < |front| ensures !LogsIn(RunAll(w, front[..n]), front[n], u) {
        assert front[..n] == es[..n];
      }
      DormantStays(w, front, u);
      RunKeeps(w, front);
      DormantStep(RunAll(w, front), es[|es| - 1], u);
    }
  }

  /** What is in flight can be finished: some continuation without a login ends with a live token. */
  lemma FlightLands(w: World, u: UserId) returns (es: seq<Event>)
    requires Inv(w) && InFlight(w, u)
    ensures NoLogin(w, es, u) && HasLive(RunAll(w, es).store, u)
  {
    if k :| 0 <= k < |w.ops| && w.ops[k].RefreshStore? && w.ops[k].user == u {
      es := [Run(k, true)];
      assert es[..0] == [];
      assert RunAll(w, es) == Apply(w, Run(k, true));
      StoredIsLive(w, k, u);
    } else {
      var t :| 0 <= t < |w.store.tokens| && w.store.tokens[t].user == u && !w.store.tokens[t].used && About(w.ops, t);
      var k :| 0 <= k < |w.ops| && w.ops[k] == RefreshMark(t);
      var w1 := Apply(w, Run(k, true));
      var one := [Run(k, true)];
      es := [Run(k, true), Run(k, true)];
      assert es[..1] == one && one[..0] == [] && es[..0] == [];
      assert RunAll(w, one) == w1;
      assert RunAll(w, es) == Apply(w1, Run(k, true));
      StoredIsLive(w1, k, u);
    }
  }

  lemma StoredIsLive(w: World, k: nat, u: UserId)
    requires k < |w.ops| && w.ops[k].RefreshStore? && w.ops[k].user == u
    ensures HasLive(Apply(w, Run(k, true)).store, u)
  {
    var s := Apply(w, Run(k, true)).store;
    assert s.tokens[|w.store.tokens|] == Token(u, false, false, w.store.clock + LIFETIME);
    assert Live(s, |w.store.tokens|);
  }

  /**
   A user who has no live token now stays without one until the next login, in every
   continuation, exactly when no refresh of that user stands between its read and its
   store.
   */
  lemma NothingLiveIff(w: World, u: UserId)
    requires Inv(w) && !HasLive(w.store, u)
    ensures (forall es :: NoLogin(w, es, u) ==> !HasLive(RunAll(w, es).store, u)) <==> !InFlight(w, u)
  {
    if InFlight(w, u) {
      var es := FlightLands(w, u);
    } else {
      forall es | NoLogin(w, es, u) ensures !HasLive(RunAll(w, es).store, u) { DormantStays(w, es, u); }
    }
  }

  /** A replayed token: the refresh that presents it revokes every token of its user. */
  lemma ReplayRevokes(w: World, k: nat, t: nat)
    requires k < |w.ops| && w.ops[k] == RefreshRead(t) && t < |w.store.tokens| && w.store.tokens[t].used
    ensures var w' := Apply(Apply(w, Run(k, true)), Run(k, true));
            w'.ops[k] == Done && !HasLive(w'.store, w.store.tokens[t].user)
  {
  }

  /** With no other refresh of the user under way, a replay leaves nothing usable until the next login. */
  lemma {:induction false} ReplayEndsSession(w: World, k: nat, t: nat, es: seq<Event>)
    requires Inv(w) && k < |w.ops| && w.ops[k] == RefreshRead(t) && t < |w.store.tokens| && w.store.tokens[t].used
    requires !InFlight(w, w.store.tokens[t].user)
    requires NoLogin(Apply(Apply(w, Run(k, true)), Run(k, true)), es, w.store.tokens[t].user)
    ensures !HasLive(RunAll(Apply(Apply(w, Run(k, true)), Run(k, true)), es).store, w.store.tokens[t].user)
  {
    var u := w.store.tokens[t].user;
    var w1 := Apply(w, Run(k, true));
    var w2 := Apply(w1, Run(k, true));
    EventKeeps(w, Run(k, true));
    EventKeeps(w1, Run(k, true));
    ReplayRevokes(w, k, t);
    forall x | 0 <= x < |w2.store.tokens| && About(w2.ops, x) ensures About(w.ops, x) {
      var j :| 0 <= j < |w2.ops| && w2.ops[j] == RefreshMark(x);
      assert w.ops[j] == RefreshMark(x);
    }
    forall j | 0 <= j < |w2.ops| && w2.ops[j].RefreshStore? ensures w2.ops[j].user != u {
      assert w.ops[j] == w2.ops[j];
    }
    assert !InFlight(w2, u);
    DormantStays(w2, es, u);
  }

  function NobodyYet(): World {
    World(Store([], 0, Notes(map[], map[], [], [])), [])
  }

  lemma Continue(es: seq<Event>, w: World, e: Event) returns (es': seq<Event>, w': World)
    requires RunAll(NobodyYet(), es) == w
    ensures es' == es + [e] && w' == Apply(w, e) && RunAll(NobodyYet(), es') == w'
  {
    es' := es + [e];
    w' := Apply(w, e);
    assert es'[..|es'| - 1] == es;
  }

  /** User 0 has logged in, operation 1 has consumed the token and operation 2 presents it again. */
  lemma Overtaken() returns (es: seq<Event>, w: World)
    ensures RunAll(NobodyYet(), es) == w && w.ops == [Done, RefreshStore(0, 0), Revoke(0)]
    ensures w.store.tokens == [Token(0, true, false, LIFETIME)]
  {
    es, w := Continue([], NobodyYet(), Spawn(LoginStore(0)));
    es, w := Continue(es, w, Run(0, true));
    es, w := Continue(es, w, Spawn(RefreshRead(0)));
    es, w := Continue(es, w, Run(1, true));
    es, w := Continue(es, w, Run(1, true));
    es, w := Continue(es, w, Spawn(RefreshRead(0)));
    es, w := Continue(es, w, Run(2, true));
  }

  /** The replay's revoke runs before the winner stores its successor: a live token survives the detected theft. */
  lemma OverlappingReplayLeavesLive() returns (es: seq<Event>)
    ensures var w := RunAll(NobodyYet(), es);
            w.ops == [Done, Done, Done] && |w.store.tokens| == 2
            && w.store.tokens[0] == Token(0, true, true, LIFETIME) && Live(w.store, 1)
  {
    var w;
    es, w := Overtaken();
    es, w := Continue(es, w, Run(2, true));
    es, w := Continue(es, w, Run(1, true));
    assert Live(w.store, 1);
  }

  // ---------- what a request comes to ----------

  /** As many steps of one operation as there are flags, with nobody else between them. */
  function Alone(k: nat, op: Op, s: Store, oks: seq<bool>): Moved
    decreases oks
  {
    if oks == [] then Moved(op, s)
    else
      var m := Next(k, op, s, oks[0]);
      Alone(k, m.op, m.store, oks[1..])
  }

  lemma {:induction false} DoneStays(k: nat, s: Store, oks: seq<bool>)
    ensures Alone(k, Done, s, oks) == Moved(Done, s)
  {
    if oks != [] { DoneStays(k, s, oks[1..]); }
  }

  /** The rows once every token of u is revoked. */
  predicate RevokedFor(before: seq<Token>, after: seq<Token>, u: UserId) {
    |after| == |before| && forall n :: 0 <= n < |before| ==>
      after[n] == Token(before[n].user, before[n].used, before[n].revoked || before[n].user == u, before[n].expires)
  }

  /**
   An undisturbed refresh, by the token presented: a used one revokes every token of its
   user, an unknown, revoked or expired one changes nothing, and any other is consumed and
   followed by a new token of the same user that is good for seven days.
   */
  lemma RefreshOutcome(k: nat, s: Store, t: nat, oks: seq<bool>)
    requires |oks| >= 3 && forall n :: 0 <= n < |oks| ==> oks[n]
    ensures var m := Alone(k, RefreshRead(t), s, oks);
            && m.op == Done && m.store.clock == s.clock
            && if t >= |s.tokens| then m.store == s
               else if s.tokens[t].used then RevokedFor(s.tokens, m.store.tokens, s.tokens[t].user)
               else if s.tokens[t].revoked || s.tokens[t].expires < s.clock then m.store == s
               else m.store.tokens == s.tokens[t := s.tokens[t].(used := true)]
                                      + [Token(s.tokens[t].user, false, false, s.clock + 604800)]
  {
    var m := Next(k, RefreshRead(t), s, true);
    var m1 := Next(k, m.op, m.store, true);
    var m2 := Next(k, m1.op, m1.store, true);
    assert Alone(k, RefreshRead(t), s, oks) == Alone(k, m.op, s, oks[1..]) == Alone(k, m1.op, m1.store, oks[1..][1..])
        == Alone(k, m2.op, m2.store, oks[1..][1..][1..]);
    DoneStays(k, m2.store, oks[1..][1..][1..]);
  }

  /** An undisturbed login adds one token, and an undisturbed logout revokes every token of the user. */
  lemma LoginOutcome(k: nat, s: Store, u: UserId, oks: seq<bool>)
    requires oks != [] && oks[0]
    ensures var m := Alone(k, LoginStore(u), s, oks);
            m.op == Done && m.store.tokens == s.tokens + [Token(u, false, false, s.clock + 604800)]
    ensures var m := Alone(k, Revoke(u), s, oks);
            m.op == Done && RevokedFor(s.tokens, m.store.tokens, u)
  {
    DoneStays(k, Login(s, u), oks[1..]);
    DoneStays(k, RevokeAll(s, u), oks[1..]);
  }

  // ---------- nothing is exchanged late ----------

  /** The event is operation k's read of token t, and it finds the token unused, unrevoked and unexpired. */
  predicate ReadsGood(w: World, e: Event, k: nat, t: nat) {
    && e == Run(k, true) && k < |w.ops| && w.ops[k] == RefreshRead(t) && t < |w.store.tokens|
    && !w.store.tokens[t].used && !w.store.tokens[t].revoked && w.store.clock <= w.store.tokens[t].expires
  }

  /** In any run an operation is about to consume a token only after it read it as good. */
  lemma {:induction false} MarksAfterGoodRead(start: World, es: seq<Event>, k: nat, t: nat) returns (m: nat)
    requires Initial(start) && k < |RunAll(start, es).ops| && RunAll(start, es).ops[k] == RefreshMark(t)
    ensures m < |es| && ReadsGood(RunAll(start, es[..m]), es[m], k, t)
  {
    var front, e := es[..|es| - 1], es[|es| - 1];
    if e.Run? && e.k == k {
      m := |es| - 1;
    } else {
      m := MarksAfterGoodRead(start, front, k, t);
      assert front[..m] == es[..m];
    }
  }

  /** A used token was consumed by an operation that had read it as good. */
  lemma {:induction false} UsedAfterGoodRead(start: World, es: seq<Event>, t: nat) returns (m: nat, k: nat)
    requires Initial(start) && t < |RunAll(start, es).store.tokens| && RunAll(start, es).store.tokens[t].used
    ensures m < |es| && ReadsGood(RunAll(start, es[..m]), es[m], k, t)
  {
    var front, e := es[..|es| - 1], es[|es| - 1];
    var w := RunAll(start, front);
    if t < |w.store.tokens| && w.store.tokens[t].used {
      m, k := UsedAfterGoodRead(start, front, t);
      assert front[..m] == es[..m];
    } else {
      k := e.k;
      m := MarksAfterGoodRead(start, front, k, t);
      assert front[..m] == es[..m];
    }
  }

  /** The event stores token number t. */
  predicate Stores(w: World, e: Event, t: nat) {
    |w.store.tokens| == t && |Apply(w, e).store.tokens| == t + 1
  }

  lemma {:induction false} StoredWhen(start: World, es: seq<Event>, t: nat) returns (m: nat)
    requires Initial(start) && t < |RunAll(start, es).store.tokens|
    ensures m < |es| && Stores(RunAll(start, es[..m]), es[m], t)
    ensures RunAll(start, es).store.tokens[t].expires == RunAll(start, es[..m]).store.clock + 604800
  {
    var front := es[..|es| - 1];
    var w := RunAll(start, front);
    if t < |w.store.tokens| {
      m := StoredWhen(start, front, t);
      assert front[..m] == es[..m];
      RowsKept(w, [es[|es| - 1]]);
      assert RunAll(w, [es[|es| - 1]]) == RunAll(start, es) by {
        assert es == front + [es[|es| - 1]];
        RunAllAppend(start, front, [es[|es| - 1]]);
      }
    } else {
      m := |es| - 1;
    }
  }

  /** A token is only exchanged by a refresh that read it at most seven days after it was stored. */
  lemma {:induction false} ExchangedInTime(start: World, es: seq<Event>, t: nat) returns (stored: nat, read: nat, k: nat)
    requires Initial(start) && t < |RunAll(start, es).store.tokens| && RunAll(start, es).store.tokens[t].used
    ensures stored < |es| && Stores(RunAll(start, es[..stored]), es[stored], t)
    ensures read < |es| && ReadsGood(RunAll(start, es[..read]), es[read], k, t)
    ensures RunAll(start, es[..read]).store.clock <= RunAll(start, es[..stored]).store.clock + 604800
  {
    stored := StoredWhen(start, es, t);
    read, k := UsedAfterGoodRead(start, es, t);
    assert es == es[..read] + es[read..];
    RunAllAppend(start, es[..read], es[read..]);
    RowsKept(RunAll(start, es[..read]), es[read..]);
  }
}
