/**
 The auth service and its repository as they run: token rows are inserted and flags
 flipped in place, with other requests between any two statements. The ghost log ties
 the rows to the rotation protocol.
 */
module AuthServices {
  import opened Rotation = RefreshTokens

  datatype Reply = Issued(token: nat) | InvalidToken | TokenUsed | TokenRevoked | TokenExpired | Failure

  ghost predicate Reached(start: World, log: seq<Event>, world: World) {
    Initial(start) && world == RunAll(start, log) && Inv(world)
  }

  lemma ReachedNext(start: World, log: seq<Event>, world: World, e: Event)
    requires Reached(start, log, world)
    ensures Reached(start, log + [e], Apply(world, e))
  {
    EventKeeps(world, e);
    assert (log + [e])[..|log + [e]| - 1] == log;
  }

  predicate IsPrefix(a: seq<Event>, b: seq<Event>) {
    a <= b
  }

  /** The log first took this request and only grew after that. */
  predicate Began(before: seq<Event>, request: Op, after: seq<Event>) {
    IsPrefix(before + [Spawn(request)], after)
  }

  /** The last event of the log is a step of operation k that stored a token. */
  ghost predicate Issues(start: World, log: seq<Event>, k: nat) {
    && log != [] && log[|log| - 1] == Run(k, true)
    && var w := RunAll(start, log[..|log| - 1]);
       k < |w.ops| && (w.ops[k].LoginStore? || w.ops[k].RefreshStore?)
  }

  /** The last event of the log is a step of operation k whose statement failed. */
  predicate Failed(log: seq<Event>, k: nat) {
    log != [] && log[|log| - 1] == Run(k, false)
  }

  class Auth {
    var tokens: seq<Token>
    var clock: nat

    ghost var notes: Notes
    ghost var world: World
    ghost var log: seq<Event>
    ghost const start: World

    ghost function View(): Rotation.Store
      reads this
    {
      Rotation.Store(tokens, clock, notes)
    }

    ghost predicate Valid()
      reads this
    {
      Reached(start, log, world) && world.store == View()
    }

    /** Operation k stands at op. */
    ghost predicate At(k: nat, op: Op)
      reads this
    {
      Valid() && k < |world.ops| && world.ops[k] == op
    }

    constructor (now: nat)
      ensures Valid() && log == [] && tokens == []
    {
      tokens, clock := [], now;
      notes := Notes(map[], map[], [], []);
      start := World(Rotation.Store([], now, Notes(map[], map[], [], [])), []);
      world := World(Rotation.Store([], now, Notes(map[], map[], [], [])), []);
      log := [];
    }

    ghost method Begin(op: Op) returns (k: nat)
      requires Valid() && Startable(op)
      modifies this`world, this`log
      ensures At(k, op) && log == old(log) + [Spawn(op)] && world.store == old(world.store)
    {
      hide Reached;
      k := |world.ops|;
      ReachedNext(start, log, world, Spawn(op));
      log := log + [Spawn(op)];
      world := Apply(world, Spawn(op));
    }

    /** The rows have just been changed as step (k, ok) changes them. */
    ghost method Step(k: nat, ok: bool)
      requires Reached(start, log, world) && k < |world.ops|
      requires var m := Next(k, world.ops[k], world.store, ok); View().(notes := m.store.notes) == m.store
      modifies this`notes, this`world, this`log
      ensures At(k, Next(k, old(world.ops[k]), old(world.store), ok).op)
      ensures IsPrefix(old(log), log)
      ensures notes == Next(k, old(world.ops[k]), old(world.store), ok).store.notes
      ensures Issues(start, log, k) <==> ok && (old(world.ops[k]).LoginStore? || old(world.ops[k]).RefreshStore?)
      ensures Failed(log, k) <==> !ok
    {
      hide Next;
      ReachedNext(start, log, world, Run(k, ok));
      notes := Next(k, world.ops[k], world.store, ok).store.notes;
      log := log + [Run(k, ok)];
      world := Apply(world, Run(k, ok));
    }

    /** Everybody else runs and time passes; a caller knows no more about the rows than this. */
    method Interfere(ghost k: nat, ghost op: Op)
      requires At(k, op)
      modifies this
      ensures At(k, op) && IsPrefix(old(log), log)
    {
    }

    // ---------- the repository ----------

    method StoreRefreshToken(u: UserId) returns (t: nat)
      modifies this`tokens
      ensures t == |old(tokens)| && tokens == old(tokens) + [Token(u, false, false, clock + LIFETIME)]
    {
      t := |tokens|;
      tokens := tokens + [Token(u, false, false, clock + LIFETIME)];
    }

    /** Flips used from false to true; false when no unused row matched. */
    method MarkRefreshTokenUsed(t: nat) returns (marked: bool)
      requires t < |tokens|
      modifies this`tokens
      ensures marked <==> !old(tokens)[t].used
      ensures tokens == if marked then old(tokens)[t := old(tokens)[t].(used := true)] else old(tokens)
    {
      marked := !tokens[t].used;
      if marked {
        tokens := tokens[t := tokens[t].(used := true)];
      }
    }

    method RevokeAllUserTokens(u: UserId)
      modifies this`tokens
      ensures View() == old(RevokeAll(View(), u))
    {
      for n := 0 to |tokens|
        invariant |tokens| == |old(tokens)|
        invariant forall i :: 0 <= i < n ==> tokens[i] == RevokeRow(old(tokens)[i], u)
        invariant forall i :: n <= i < |tokens| ==> tokens[i] == old(tokens)[i]
      {
        if tokens[n].user == u {
          tokens := tokens[n := tokens[n].(revoked := true)];
        }
      }
    }

    // ---------- the service ----------

    /** The end of Login, after the credentials were accepted. */
    method Login(u: UserId) returns (reply: Reply, ghost k: nat)
      requires Valid()
      modifies this
      ensures At(k, Done) && Began(old(log), LoginStore(u), log)
      ensures if Failed(log, k) then reply == Failure
              else reply.Issued? && Live(View(), reply.token) && tokens[reply.token].user == u
    {
      k := Begin(LoginStore(u));
      Interfere(k, LoginStore(u));
      var ok: bool := *;
      reply := Failure;
      if ok {
        var t := StoreRefreshToken(u);
        reply := Issued(t);
      }
      Step(k, ok);
    }

    method Logout(u: UserId) returns (ok: bool, ghost k: nat)
      requires Valid()
      modifies this
      ensures At(k, Done) && Began(old(log), Revoke(u), log)
      ensures (ok <==> !Failed(log, k)) && !Issues(start, log, k)
      ensures ok ==> !HasLive(View(), u)
    {
      k := Begin(Revoke(u));
      ok := RevokeFamily(k, u);
    }

    method RevokeFamily(ghost k: nat, u: UserId) returns (ok: bool)
      requires At(k, Revoke(u))
      modifies this
      ensures At(k, Done) && IsPrefix(old(log), log)
      ensures (ok <==> !Failed(log, k)) && !Issues(start, log, k)
      ensures ok ==> !HasLive(View(), u)
    {
      Interfere(k, Revoke(u));
      ok := *;
      if ok {
        RevokeAllUserTokens(u);
      }
      Step(k, ok);
    }

    /** What a reply says about the token that was presented, at the moment of the reply. */
    ghost predicate Explains(reply: Reply, t: nat)
      reads this
    {
      match reply
      case Failure => true
      case InvalidToken => t >= |tokens|
      case TokenUsed => t < |tokens| && tokens[t].used
      case TokenRevoked => t < |tokens| && tokens[t].revoked
      case TokenExpired => t < |tokens| && clock > tokens[t].expires
      case Issued(child) =>
        && child in notes.parent && notes.parent[child] == t && Live(View(), child)
        && t < |tokens| && tokens[t].used && tokens[t].user == tokens[child].user
    }

    /**
     A successor is issued exactly when this call consumed the presented token and stored
     one. A token that was used, revoked or expired when it was presented gets none. After
     TokenUsed nothing of the user is live at that moment, unless the revoke failed; its
     error is ignored.
     */
    method RefreshTokens(t: nat) returns (reply: Reply, ghost k: nat)
      requires Valid()
      modifies this
      ensures At(k, Done) && Began(old(log), RefreshRead(t), log) && Explains(reply, t)
      ensures (reply.Issued? <==> Issues(start, log, k)) && (reply == Failure ==> Failed(log, k))
      ensures reply == TokenUsed && !Failed(log, k) ==> !HasLive(View(), tokens[t].user)
      ensures reply.Issued? ==> t < |tokens| && old(clock) <= tokens[t].expires
      ensures t < |old(tokens)| && (old(tokens)[t].used || old(tokens)[t].revoked || old(clock) > old(tokens)[t].expires) ==>
                reply == Failure || reply == TokenUsed || reply == TokenRevoked || reply == TokenExpired
    {
      hide Explains, Reached, HasLive, Issues, Failed;
      k := Begin(RefreshRead(t));
      ghost var before, mark := world, log;
      Interfere(k, RefreshRead(t));
      RowsStay(before, mark);
      if t < |old(tokens)| { assert RowKept(old(tokens)[t], tokens[t]); }
      reply := ReadToken(k, t);
    }

    method ReadToken(ghost k: nat, t: nat) returns (reply: Reply)
      requires At(k, RefreshRead(t))
      modifies this
      ensures At(k, Done) && IsPrefix(old(log), log) && Explains(reply, t)
      ensures (reply.Issued? <==> Issues(start, log, k)) && (reply == Failure ==> Failed(log, k))
      ensures reply == TokenUsed && !Failed(log, k) ==> !HasLive(View(), tokens[t].user)
      ensures reply.Issued? ==> t < |tokens| && old(clock) <= tokens[t].expires
      ensures t < |old(tokens)| && (old(tokens)[t].used || old(tokens)[t].revoked || old(clock) > old(tokens)[t].expires) ==>
                reply == Failure || reply == TokenUsed || reply == TokenRevoked || reply == TokenExpired
    {
      hide Reached, HasLive, Live, Issues, Failed;
      var read: bool := *;
      if !read || t >= |tokens| {
        Step(k, read);
        return if read then InvalidToken else Failure;
      }
      var stored := tokens[t];
      Step(k, true);
      if stored.used {
        reply := TokenUsed;
        RevokeOwner(k, t, stored.user);
      } else if stored.revoked {
        reply := TokenRevoked;
      } else if clock > stored.expires {
        reply := TokenExpired;
      } else {
        ghost var before, mark := world, log;
        reply := Consume(k, t);
        RowsStay(before, mark);
        assert RowKept(before.store.tokens[t], tokens[t]);
      }
    }

    /** The compare-and-set, and what its winner and its losers do next. */
    method Consume(ghost k: nat, t: nat) returns (reply: Reply)
      requires At(k, RefreshMark(t))
      modifies this
      ensures At(k, Done) && IsPrefix(old(log), log) && Explains(reply, t)
      ensures reply == Failure || reply == TokenUsed || reply.Issued?
      ensures (reply.Issued? <==> Issues(start, log, k)) && (reply == Failure ==> Failed(log, k))
      ensures reply == TokenUsed && !Failed(log, k) ==> !HasLive(View(), tokens[t].user)
    {
      hide Reached, HasLive, Issues, Failed;
      Interfere(k, RefreshMark(t));
      TokenKnown(k, t);
      var up: bool := *;
      if !up {
        Step(k, false);
        return Failure;
      }
      var u := tokens[t].user;
      var marked := MarkRefreshTokenUsed(t);
      Step(k, true);
      if marked {
        reply := StoreSuccessor(k, t, u);
      } else {
        reply := TokenUsed;
        RevokeOwner(k, t, u);
      }
    }

    method StoreSuccessor(ghost k: nat, t: nat, u: UserId) returns (reply: Reply)
      requires At(k, RefreshStore(t, u))
      modifies this
      ensures At(k, Done) && IsPrefix(old(log), log)
      ensures if Failed(log, k) then reply == Failure && !Issues(start, log, k)
              else reply.Issued? && Issues(start, log, k) && Explains(reply, t)
    {
      hide Reached, Issues, Failed;
      Interfere(k, RefreshStore(t, u));
      TokenConsumed(k, t, u);
      var ok: bool := *;
      reply := Failure;
      if ok {
        var child := StoreRefreshToken(u);
        reply := Issued(child);
      }
      Step(k, ok);
    }

    /** The revoke after a detected reuse of token t. */
    method RevokeOwner(ghost k: nat, t: nat, u: UserId)
      requires At(k, Revoke(u)) && t < |tokens| && tokens[t].user == u && tokens[t].used
      modifies this
      ensures At(k, Done) && IsPrefix(old(log), log)
      ensures t < |tokens| && tokens[t].user == u && tokens[t].used
      ensures !Issues(start, log, k) && (!Failed(log, k) ==> !HasLive(View(), u))
    {
      hide Issues, Failed, HasLive;
      ghost var before, mark := world, log;
      var ok := RevokeFamily(k, u);
      RowsStay(before, mark);
      assert RowKept(before.store.tokens[t], tokens[t]);
    }

    lemma TokenKnown(k: nat, t: nat)
      requires At(k, RefreshMark(t))
      ensures t < |tokens|
    {
    }

    lemma TokenConsumed(k: nat, t: nat, u: UserId)
      requires At(k, RefreshStore(t, u))
      ensures t < |tokens| && tokens[t].used && tokens[t].user == u
    {
    }

    lemma RowsStay(before: World, mark: seq<Event>)
      requires Valid() && Reached(start, mark, before) && IsPrefix(mark, log)
      ensures Kept(before.store, View())
    {
      var since := log[|mark|..];
      assert log == mark + since;
      RunAllAppend(start, mark, since);
      RowsKept(before, since);
    }
  }
}
