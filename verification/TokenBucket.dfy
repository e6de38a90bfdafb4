/**
 The token bucket script: refill by elapsed time, take one token, store the rest and
 renew the key's expiry. Numbers are exact reals.
 */
module TokenBucket {
  import opened Wrappers

  datatype Limit = Limit(rate: real, capacity: real)

  /** The hash stored under a client's key. */
  datatype Bucket = Bucket(tokens: real, ts: real)

  datatype Reply = Reply(allowed: bool, bucket: Bucket)

  predicate ValidLimit(l: Limit) {
    l.rate >= 0.0 && l.capacity >= 0.0
  }

  function Min(a: real, b: real): real {
    if a <= b then a else b
  }

  function Ceil(x: real): (c: int)
    ensures c as real - 1.0 < x <= c as real
  {
    -((-x).Floor)
  }

  /** Seconds after its last use when Redis drops the key. */
  function Ttl(l: Limit): int {
    if l.rate > 0.0 then Ceil(l.capacity / l.rate) + 10 else 3600
  }

  /** What a stretch of time refills. */
  function Gain(rate: real, seconds: real): real {
    seconds * rate
  }

  /** Tokens available to a request at `now`; a missing key counts as full. */
  function Refilled(l: Limit, stored: Option<Bucket>, now: real): real {
    match stored
    case None => Min(l.capacity, l.capacity + Gain(l.rate, 0.0))
    case Some(b) => Min(l.capacity, b.tokens + Gain(l.rate, if now < b.ts then 0.0 else now - b.ts))
  }

  /** The reply of a request and what it leaves behind. */
  function Take(l: Limit, stored: Option<Bucket>, now: real): Reply {
    var tokens := Refilled(l, stored, now);
    if tokens >= 1.0 then Reply(true, Bucket(tokens - 1.0, now)) else Reply(false, Bucket(tokens, now))
  }

  class Key {
    var stored: Option<Bucket>
    var ttl: int

    constructor ()
      ensures stored == None
    {
      stored, ttl := None, 0;
    }

    /** The script, statement by statement. */
    method Allow(rate: real, capacity: real, now: real) returns (allowed: bool)
      modifies this
      ensures Reply(allowed, stored.GetOr(Bucket(0.0, 0.0))) == Take(Limit(rate, capacity), old(stored), now)
      ensures stored.Some? && ttl == Ttl(Limit(rate, capacity))
      ensures if rate > 0.0 then capacity / rate + 10.0 <= ttl as real < capacity / rate + 11.0 else ttl == 3600
    {
      var tokens, ts;
      if stored.Some? {
        tokens, ts := stored.value.tokens, stored.value.ts;
      } else {
        tokens, ts := capacity, now;
      }
      var delta := now - ts;
      if delta < 0.0 {
        delta := 0.0;
      }
      tokens := Min(capacity, tokens + Gain(rate, delta));
      allowed := false;
      if tokens >= 1.0 {
        tokens := tokens - 1.0;
        allowed := true;
      }
      stored := Some(Bucket(tokens, now));
      ttl := 3600;
      if rate > 0.0 {
        ttl := Ceil(capacity / rate) + 10;
      }
    }
  }

  // ---------- runs ----------

  /** A request at `at`; `dropped` says whether Redis has removed the key by then, if it may. */
  datatype Request = Request(at: real, dropped: bool)

  predicate Expired(l: Limit, b: Bucket, now: real) {
    now - b.ts >= Ttl(l) as real
  }

  function Seen(l: Limit, stored: Option<Bucket>, r: Request): Option<Bucket> {
    if r.dropped && stored.Some? && Expired(l, stored.value, r.at) then None else stored
  }

  function Stored(l: Limit, rs: seq<Request>): Option<Bucket>
    decreases |rs|, 1
  {
    if rs == [] then None else Some(Last(l, rs).bucket)
  }

  /** The reply to the last request of a run. */
  function Last(l: Limit, rs: seq<Request>): Reply
    requires rs != []
    decreases |rs|, 0
  {
    var n := |rs| - 1;
    Take(l, Seen(l, Stored(l, rs[..n]), rs[n]), rs[n].at)
  }

  function Answers(l: Limit, rs: seq<Request>): seq<bool> {
    if rs == [] then [] else Answers(l, rs[..|rs| - 1]) + [Last(l, rs).allowed]
  }

  predicate NonDecreasing(rs: seq<Request>) {
    forall a, b :: 0 <= a < b < |rs| ==> rs[a].at <= rs[b].at
  }

  /** How many requests of the run were allowed between t0 and t1. */
  function AllowedIn(l: Limit, rs: seq<Request>, t0: real, t1: real): nat {
    if rs == [] then 0
    else
      AllowedIn(l, rs[..|rs| - 1], t0, t1)
      + if t0 <= rs[|rs| - 1].at <= t1 && Last(l, rs).allowed then 1 else 0
  }

  predicate NeverDropped(rs: seq<Request>) {
    forall n :: 0 <= n < |rs| ==> !rs[n].dropped
  }

  /** The run in which no key is ever dropped. */
  function Kept(rs: seq<Request>): seq<Request> {
    seq(|rs|, n requires 0 <= n < |rs| => rs[n].(dropped := false))
  }

  // ---------- properties ----------

  /** Tokens stay between zero and the capacity, whatever the clocks do and whichever keys are dropped. */
  lemma {:induction false} TokensBounded(l: Limit, rs: seq<Request>)
    requires ValidLimit(l) && rs != []
    ensures 0.0 <= Last(l, rs).bucket.tokens <= l.capacity
    ensures Last(l, rs).bucket.ts == rs[|rs| - 1].at
  {
    if |rs| > 1 {
      TokensBounded(l, rs[..|rs| - 1]);
      var b := Last(l, rs[..|rs| - 1]).bucket;
      var now := rs[|rs| - 1].at;
      GainNonNegative(l.rate, if now < b.ts then 0.0 else now - b.ts);
    }
  }

  lemma GainNonNegative(rate: real, seconds: real)
    requires rate >= 0.0 && seconds >= 0.0
    ensures Gain(rate, seconds) >= 0.0
  {
  }

  lemma GainAdds(rate: real, t0: real, t: real, t': real)
    requires rate >= 0.0 && t <= t'
    ensures Gain(rate, t - t0) + Gain(rate, t' - t) == Gain(rate, t' - t0)
    ensures Gain(rate, t - t0) <= Gain(rate, t' - t0)
  {
    GainNonNegative(rate, t' - t);
  }

  /** Once its time to live has passed a bucket would be full anyway. */
  lemma ExpiredIsFull(l: Limit, b: Bucket, now: real)
    requires ValidLimit(l) && l.rate > 0.0 && b.tokens >= 0.0 && Expired(l, b, now)
    ensures Refilled(l, Some(b), now) == l.capacity
  {
    var need := l.capacity / l.rate;
    var delta := now - b.ts;
    assert delta >= need;
    assert need * l.rate == l.capacity;
    GainAdds(l.rate, 0.0, need, delta);
    assert need >= 0.0;
  }

  /** Dropping an expired key does not change what the request sees. */
  lemma DropUnseen(l: Limit, rs: seq<Request>)
    requires ValidLimit(l) && rs != [] && (l.rate > 0.0 || !rs[|rs| - 1].dropped)
    ensures Last(l, rs) == Take(l, Stored(l, rs[..|rs| - 1]), rs[|rs| - 1].at)
  {
    var n := |rs| - 1;
    if n > 0 {
      TokensBounded(l, rs[..n]);
      var b := Last(l, rs[..n]).bucket;
      if rs[n].dropped && Expired(l, b, rs[n].at) {
        ExpiredIsFull(l, b, rs[n].at);
      }
    }
  }

  /** With a positive rate every answer, and even the stored bucket, is the same as if no key were ever dropped. */
  lemma {:induction false} ExpiryUnobservable(l: Limit, rs: seq<Request>)
    requires ValidLimit(l) && l.rate > 0.0
    ensures Answers(l, rs) == Answers(l, Kept(rs)) && Stored(l, rs) == Stored(l, Kept(rs))
  {
    if rs != [] {
      var n := |rs| - 1;
      ExpiryUnobservable(l, rs[..n]);
      assert Kept(rs)[..n] == Kept(rs[..n]);
      DropUnseen(l, rs);
      DropUnseen(l, Kept(rs));
    }
  }

  /** A request takes what it was refilled to: one token if allowed, and never more than the capacity. */
  lemma TakeSpends(l: Limit, stored: Option<Bucket>, now: real)
    requires ValidLimit(l)
    ensures var r := Take(l, stored, now);
            && r.bucket.tokens + (if r.allowed then 1.0 else 0.0) <= l.capacity
            && (stored.Some? && stored.value.ts <= now ==>
                  r.bucket.tokens + (if r.allowed then 1.0 else 0.0) <= stored.value.tokens + Gain(l.rate, now - stored.value.ts))
  {
  }

  /** A capacity below one token never allows anything. */
  lemma {:induction false} NeverEnough(l: Limit, rs: seq<Request>, t0: real, t1: real)
    requires ValidLimit(l) && l.capacity < 1.0
    ensures AllowedIn(l, rs, t0, t1) == 0
  {
    if rs != [] {
      NeverEnough(l, rs[..|rs| - 1], t0, t1);
    }
  }

  /**
   For clocks that never run backwards, the requests allowed in any window are at
   most the capacity plus what the window's length refills. A key that expires although
   it never refills starts a new bucket; WindowBoundWithExpiryIff says when that matters.
   */
  lemma {:induction false} WindowBound(l: Limit, rs: seq<Request>, t0: real, t1: real)
    requires ValidLimit(l) && (l.rate > 0.0 || l.capacity < 1.0 || NeverDropped(rs)) && NonDecreasing(rs) && t0 <= t1
    ensures AllowedIn(l, rs, t0, t1) as real <= l.capacity + Gain(l.rate, t1 - t0)
    ensures rs != [] && rs[|rs| - 1].at < t0 ==> AllowedIn(l, rs, t0, t1) == 0
    ensures rs != [] && t0 <= rs[|rs| - 1].at <= t1 ==>
      AllowedIn(l, rs, t0, t1) as real + Last(l, rs).bucket.tokens <= l.capacity + Gain(l.rate, rs[|rs| - 1].at - t0)
  {
    hide Gain, Last, Take, Refilled, Seen, Expired;
    GainNonNegative(l.rate, t1 - t0);
    if l.capacity < 1.0 {
      NeverEnough(l, rs, t0, t1);
      if rs != [] { TokensBounded(l, rs); }
      if rs != [] && t0 <= rs[|rs| - 1].at { GainNonNegative(l.rate, rs[|rs| - 1].at - t0); }
    } else if rs != [] {
      var n := |rs| - 1;
      var now := rs[n].at;
      WindowBound(l, rs[..n], t0, t1);
      TokensBounded(l, rs);
      DropUnseen(l, rs);
      TakeSpends(l, Stored(l, rs[..n]), now);
      if n > 0 {
        TokensBounded(l, rs[..n]);
        assert rs[..n][n - 1] == rs[n - 1] && rs[n - 1].at <= now;
      }
      if t0 <= now <= t1 {
        GainNonNegative(l.rate, now - t0);
        GainAdds(l.rate, t0, now, t1);
        if n > 0 { GainAdds(l.rate, t0, rs[n - 1].at, now); }
      }
    }
  }

  // ---------- exactly when a request is denied ----------

  /** The last step of the clock; one that goes back counts as none. */
  function LastStep(rs: seq<Request>): real
    requires |rs| >= 2
  {
    var step := rs[|rs| - 1].at - rs[|rs| - 2].at;
    if step < 0.0 then 0.0 else step
  }

  /** The time since request m, without the steps back. */
  function Elapsed(rs: seq<Request>, m: nat): real
    requires m < |rs|
  {
    if m == |rs| - 1 then 0.0 else Elapsed(rs[..|rs| - 1], m) + LastStep(rs)
  }

  /** How many of the requests from m on were allowed. */
  function AllowedSince(l: Limit, rs: seq<Request>, m: nat): nat
    requires m <= |rs|
  {
    if m == |rs| then 0
    else AllowedSince(l, rs[..|rs| - 1], m) + if Last(l, rs).allowed then 1 else 0
  }

  /** What the last request finds. */
  function Found(l: Limit, rs: seq<Request>): real
    requires rs != []
  {
    if |rs| == 1 then l.capacity
    else Min(l.capacity, Last(l, rs[..|rs| - 1]).bucket.tokens + Gain(l.rate, LastStep(rs)))
  }

  lemma LastTakes(l: Limit, rs: seq<Request>)
    requires ValidLimit(l) && rs != [] && (l.rate > 0.0 || NeverDropped(rs))
    ensures var r := Last(l, rs);
            r.allowed == (Found(l, rs) >= 1.0) && r.bucket.tokens == Found(l, rs) - if r.allowed then 1.0 else 0.0
  {
    DropUnseen(l, rs);
    NoGain(l.rate);
    if |rs| > 1 { TokensBounded(l, rs[..|rs| - 1]); }
    hide Gain;
  }

  lemma NoGain(rate: real)
    ensures Gain(rate, 0.0) == 0.0
  {
  }

  lemma GainSum(rate: real, a: real, b: real)
    ensures Gain(rate, a + b) == Gain(rate, a) + Gain(rate, b)
  {
  }

  /** No request finds more than any earlier one could have left. */
  lemma {:induction false} LeftAtMost(l: Limit, rs: seq<Request>, m: nat)
    requires ValidLimit(l) && (l.rate > 0.0 || NeverDropped(rs)) && m < |rs|
    ensures Last(l, rs).bucket.tokens <= l.capacity + Gain(l.rate, Elapsed(rs, m)) - AllowedSince(l, rs, m) as real
  {
    hide Gain, Last;
    LastTakes(l, rs);
    NoGain(l.rate);
    var front := rs[..|rs| - 1];
    if m < |rs| - 1 {
      LeftAtMost(l, front, m);
      GainSum(l.rate, Elapsed(front, m), LastStep(rs));
    }
  }

  /** And some earlier request, or the last one itself, accounts for all that is missing. */
  lemma {:induction false} LeftExactly(l: Limit, rs: seq<Request>) returns (m: nat)
    requires ValidLimit(l) && (l.rate > 0.0 || NeverDropped(rs)) && rs != []
    ensures m < |rs|
    ensures Last(l, rs).bucket.tokens == l.capacity + Gain(l.rate, Elapsed(rs, m)) - AllowedSince(l, rs, m) as real
  {
    hide Gain, Last;
    LastTakes(l, rs);
    NoGain(l.rate);
    m := |rs| - 1;
    var front := rs[..|rs| - 1];
    assert AllowedSince(l, front, m) == 0;
    if |rs| > 1 && Found(l, rs) < l.capacity {
      m := LeftExactly(l, front);
      GainSum(l.rate, Elapsed(front, m), LastStep(rs));
    }
  }

  /** One more allowed request would exceed the capacity plus the rate times this stretch of time. */
  predicate Exceeds(l: Limit, allowed: nat, seconds: real) {
    allowed as real + 1.0 > l.capacity + l.rate * seconds
  }

  lemma ExceedsGain(l: Limit, allowed: nat, seconds: real)
    ensures Exceeds(l, allowed, seconds) <==> allowed as real + 1.0 > l.capacity + Gain(l.rate, seconds)
  {
  }

  lemma {:induction false} LastAnswer(l: Limit, rs: seq<Request>)
    requires rs != []
    ensures |Answers(l, rs)| == |rs| && Answers(l, rs)[|rs| - 1] == Last(l, rs).allowed
  {
    hide Last;
    if |rs| > 1 { LastAnswer(l, rs[..|rs| - 1]); }
  }

  /**
   Under any clock a request is denied exactly when, counted from some earlier request,
   one more would exceed the capacity plus what was refilled since. So what was answered
   before decides every answer, and nothing is denied that the limit has room for.
   */
  lemma {:induction false} DeniedIff(l: Limit, rs: seq<Request>)
    requires ValidLimit(l) && l.capacity >= 1.0 && (l.rate > 0.0 || NeverDropped(rs)) && rs != []
    ensures var n := |rs| - 1;
            |Answers(l, rs)| == |rs|
            && (!Answers(l, rs)[n] <==> exists m :: 0 <= m < n && Exceeds(l, AllowedSince(l, rs[..n], m), Elapsed(rs, m)))
  {
    hide Gain, Last, Exceeds;
    var n := |rs| - 1;
    LastAnswer(l, rs);
    LastTakes(l, rs);
    forall m | 0 <= m < n && Exceeds(l, AllowedSince(l, rs[..n], m), Elapsed(rs, m)) ensures Found(l, rs) < 1.0 {
      LeftAtMost(l, rs[..n], m);
      GainSum(l.rate, Elapsed(rs[..n], m), LastStep(rs));
      ExceedsGain(l, AllowedSince(l, rs[..n], m), Elapsed(rs, m));
    }
    if n > 0 && !Last(l, rs).allowed {
      var m := LeftExactly(l, rs[..n]);
      GainSum(l.rate, Elapsed(rs[..n], m), LastStep(rs));
      ExceedsGain(l, AllowedSince(l, rs[..n], m), Elapsed(rs, m));
    }
  }

  lemma {:induction false} ElapsedForward(rs: seq<Request>, m: nat)
    requires m < |rs| && NonDecreasing(rs)
    ensures Elapsed(rs, m) == rs[|rs| - 1].at - rs[m].at
  {
    if m < |rs| - 1 { ElapsedForward(rs[..|rs| - 1], m); }
  }

  lemma {:induction false} SinceWithin(l: Limit, rs: seq<Request>, m: nat, t: real)
    requires m < |rs| && NonDecreasing(rs) && rs[|rs| - 1].at <= t
    ensures AllowedSince(l, rs, m) <= AllowedIn(l, rs, rs[m].at, t)
  {
    hide Last;
    if m < |rs| - 1 { SinceWithin(l, rs[..|rs| - 1], m, t); }
  }

  lemma MoreExceeds(l: Limit, some: nat, more: nat, seconds: real)
    requires Exceeds(l, some, seconds) && some <= more
    ensures Exceeds(l, more, seconds)
  {
  }

  /**
   The other half of the window bound: for clocks that never run backwards a request is
   denied exactly when it would exceed the bound of some window that starts at an earlier
   request.
   */
  lemma {:induction false} DeniedIffWindowFull(l: Limit, rs: seq<Request>)
    requires ValidLimit(l) && l.capacity >= 1.0 && (l.rate > 0.0 || NeverDropped(rs)) && rs != [] && NonDecreasing(rs)
    ensures var n, t := |rs| - 1, rs[|rs| - 1].at;
            |Answers(l, rs)| == |rs|
            && (!Answers(l, rs)[n] <==>
                  exists m :: 0 <= m < n && Exceeds(l, AllowedIn(l, rs[..n], rs[m].at, t), t - rs[m].at))
  {
    hide Gain, Last, Exceeds;
    var n, t := |rs| - 1, rs[|rs| - 1].at;
    DeniedIff(l, rs);
    LastAnswer(l, rs);
    if m :| 0 <= m < n && Exceeds(l, AllowedSince(l, rs[..n], m), Elapsed(rs, m)) {
      ElapsedForward(rs, m);
      SinceWithin(l, rs[..n], m, t);
      MoreExceeds(l, AllowedSince(l, rs[..n], m), AllowedIn(l, rs[..n], rs[m].at, t), t - rs[m].at);
    }
    if m :| 0 <= m < n && Exceeds(l, AllowedIn(l, rs[..n], rs[m].at, t), t - rs[m].at) {
      WindowBound(l, rs, rs[m].at, t);
      ExceedsGain(l, AllowedIn(l, rs[..n], rs[m].at, t), t - rs[m].at);
    }
  }

  // ---------- where the promises end ----------

  /** A client served at instants that go back and forth gets three requests where two are due. */
  lemma BackwardClockBreaksWindow()
    ensures var l := Limit(1.0, 1.0);
            var rs := [Request(0.0, false), Request(1.0, false), Request(0.0, false), Request(1.0, false)];
            AllowedIn(l, rs, 0.0, 1.0) as real > l.capacity + Gain(l.rate, 1.0)
  {
    var l := Limit(1.0, 1.0);
    var rs := [Request(0.0, false), Request(1.0, false), Request(0.0, false), Request(1.0, false)];
    assert rs[..3][..2] == rs[..2] && rs[..2][..1] == rs[..1] && rs[..1][..0] == [];
    assert Last(l, rs[..1]) == Reply(true, Bucket(0.0, 0.0));
    assert Last(l, rs[..2]) == Reply(true, Bucket(0.0, 1.0));
    assert Last(l, rs[..3]) == Reply(false, Bucket(0.0, 0.0));
    assert Last(l, rs) == Reply(true, Bucket(0.0, 1.0));
    assert AllowedIn(l, rs[..1], 0.0, 1.0) == 1;
    assert AllowedIn(l, rs[..2], 0.0, 1.0) == 2;
    assert AllowedIn(l, rs[..3], 0.0, 1.0) == 2;
  }

  function Burst(n: nat): seq<Request> {
    seq(n, _ => Request(0.0, false))
  }

  lemma NoTimeNoGain(rate: real)
    ensures Gain(rate, 0.0) == 0.0
  {
  }

  /** A full bucket serves its whole capacity at one instant. */
  lemma {:induction false} BurstSpends(l: Limit, n: nat, t: real)
    requires ValidLimit(l) && 1 <= n && n as real <= l.capacity && t >= 0.0
    ensures Last(l, Burst(n)) == Reply(true, Bucket(l.capacity - n as real, 0.0))
    ensures AllowedIn(l, Burst(n), 0.0, t) == n
  {
    hide Gain;
    NoTimeNoGain(l.rate);
    assert Burst(n)[..n - 1] == Burst(n - 1);
    if n > 1 {
      BurstSpends(l, n - 1, t);
    }
  }

  /** Without a refill rate but with room for a token, dropping the key hands out a new bucket. */
  lemma DropVisible(l: Limit) returns (rs: seq<Request>)
    requires l.rate == 0.0 && l.capacity >= 1.0
    ensures NonDecreasing(rs) && Answers(l, rs) != Answers(l, Kept(rs))
  {
    var n := l.capacity.Floor;
    var late := Request(3600.0, true);
    rs := Burst(n) + [late];
    BurstSpends(l, n, 0.0);
    assert rs[..n] == Burst(n);
    assert Kept(rs)[..n] == Burst(n);
    assert Last(l, rs).allowed && !Last(l, Kept(rs)).allowed;
    assert Answers(l, rs)[|Answers(l, rs)| - 1] != Answers(l, Kept(rs))[|Answers(l, Kept(rs))| - 1];
  }

  /** Without room for a whole token nothing is ever allowed, dropped or not. */
  lemma {:induction false} NothingAllowed(l: Limit, rs: seq<Request>)
    requires ValidLimit(l) && l.capacity < 1.0
    ensures Answers(l, rs) == seq(|rs|, _ => false)
  {
    if rs != [] {
      NothingAllowed(l, rs[..|rs| - 1]);
      assert seq(|rs|, _ => false) == seq(|rs| - 1, _ => false) + [false];
    }
  }

  /** Key expiry is unobservable for exactly the limits that refill or never allow anything. */
  lemma ExpiryUnobservableIff(l: Limit)
    requires ValidLimit(l)
    ensures (forall rs :: NonDecreasing(rs) ==> Answers(l, rs) == Answers(l, Kept(rs)))
       <==> (l.rate > 0.0 || l.capacity < 1.0)
  {
    if l.rate > 0.0 {
      forall rs ensures Answers(l, rs) == Answers(l, Kept(rs)) { ExpiryUnobservable(l, rs); }
    } else if l.capacity < 1.0 {
      forall rs ensures Answers(l, rs) == Answers(l, Kept(rs)) {
        NothingAllowed(l, rs);
        NothingAllowed(l, Kept(rs));
      }
    } else {
      var rs := DropVisible(l);
    }
  }

  // ---------- exactly when the window bound needs the clock ----------

  /** The bound for one window. */
  predicate Bounded(l: Limit, rs: seq<Request>, t0: real, t1: real) {
    t0 <= t1 ==> AllowedIn(l, rs, t0, t1) as real <= l.capacity + Gain(l.rate, t1 - t0)
  }

  lemma NoRateNoGain(l: Limit, seconds: real)
    requires l.rate == 0.0
    ensures Gain(l.rate, seconds) == 0.0
  {
  }

  /** Without refill a bucket only spends, whatever the clock does. */
  lemma {:induction false} OnlySpends(l: Limit, rs: seq<Request>, t0: real, t1: real)
    requires ValidLimit(l) && l.rate == 0.0 && NeverDropped(rs)
    ensures AllowedIn(l, rs, t0, t1) as real + (if rs == [] then 0.0 else Last(l, rs).bucket.tokens) <= l.capacity
  {
    hide Gain;
    if rs != [] {
      var n := |rs| - 1;
      OnlySpends(l, rs[..n], t0, t1);
      NoRateNoGain(l, 0.0);
      if n > 0 {
        var b := Last(l, rs[..n]).bucket;
        NoRateNoGain(l, if rs[n].at < b.ts then 0.0 else rs[n].at - b.ts);
      }
    }
  }

  /** The clock goes to t, back to 0 and to t again after the bucket was emptied at 0. */
  function Zigzag(n: nat, t: real): seq<Request> {
    Burst(n) + [Request(t, false), Request(0.0, false), Request(t, false)]
  }

  /** A request after the burst: what is left of the bucket, refilled since. */
  lemma NextReply(l: Limit, rs: seq<Request>, r: Request)
    requires rs != [] && !r.dropped
    ensures Last(l, rs + [r]) == Take(l, Some(Last(l, rs).bucket), r.at)
    ensures forall t0, t1 :: AllowedIn(l, rs + [r], t0, t1)
                          == AllowedIn(l, rs, t0, t1) + if t0 <= r.at <= t1 && Last(l, rs + [r]).allowed then 1 else 0
  {
    assert (rs + [r])[..|rs|] == rs;
  }

  /** With a refill rate and room for a token, such a clock gets one request more than the bound. */
  lemma ZigzagBreaksWindow(l: Limit)
    requires l.rate > 0.0 && l.capacity >= 1.0
    ensures var t := 1.0 / l.rate;
            NeverDropped(Zigzag(l.capacity.Floor, t)) && !Bounded(l, Zigzag(l.capacity.Floor, t), 0.0, t)
  {
    var t, n := 1.0 / l.rate, l.capacity.Floor;
    OneToken(l.rate);
    NoTimeNoGain(l.rate);
    hide Gain, AllowedIn, Last;
    BurstSpends(l, n, t);
    var left := l.capacity - n as real;
    var first := Burst(n) + [Request(t, false)];
    var second := first + [Request(0.0, false)];
    NextReply(l, Burst(n), Request(t, false));
    assert Last(l, first) == Reply(true, Bucket(left, t));
    NextReply(l, first, Request(0.0, false));
    assert Last(l, second) == Reply(false, Bucket(left, 0.0));
    NextReply(l, second, Request(t, false));
    assert Zigzag(n, t) == second + [Request(t, false)];
    assert AllowedIn(l, Zigzag(n, t), 0.0, t) == n + 2;
  }

  /** In the time of one token exactly one token is refilled. */
  lemma OneToken(rate: real)
    requires rate > 0.0
    ensures 1.0 / rate > 0.0 && Gain(rate, 1.0 / rate) == 1.0 && Gain(rate, 1.0 / rate - 0.0) == 1.0
  {
  }

  /** Without refill but with room for a token, the key that expires hands out one request more than the bound. */
  lemma ExpiryBreaksWindow(l: Limit)
    requires l.rate == 0.0 && l.capacity >= 1.0
    ensures var rs := Burst(l.capacity.Floor) + [Request(3600.0, true)];
            NonDecreasing(rs) && !Bounded(l, rs, 0.0, 3600.0)
  {
    var n := l.capacity.Floor;
    var rs := Burst(n) + [Request(3600.0, true)];
    BurstSpends(l, n, 3600.0);
    NoRateNoGain(l, 3600.0);
    assert rs[..n] == Burst(n);
    assert Last(l, rs).allowed;
    assert AllowedIn(l, rs, 0.0, 3600.0) == n + 1;
  }

  /** A capacity below one token keeps every window, whatever the clock and the expiry do. */
  lemma NeverEnoughBounded(l: Limit, rs: seq<Request>, t0: real, t1: real)
    requires ValidLimit(l) && l.capacity < 1.0
    ensures Bounded(l, rs, t0, t1)
  {
    NeverEnough(l, rs, t0, t1);
    if t0 <= t1 { GainNonNegative(l.rate, t1 - t0); }
  }

  /**
   While no key is dropped, the window bound holds under every clock, also one that runs
   backwards, for exactly the limits that do not refill or never allow anything; any
   other needs a clock that does not run backwards.
   */
  lemma WindowBoundIff(l: Limit)
    requires ValidLimit(l)
    ensures (forall rs, t0, t1 :: NeverDropped(rs) ==> Bounded(l, rs, t0, t1)) <==> (l.rate == 0.0 || l.capacity < 1.0)
  {
    hide AllowedIn, Last, Zigzag, NeverDropped;
    if l.capacity < 1.0 {
      forall rs, t0, t1 ensures Bounded(l, rs, t0, t1) { NeverEnoughBounded(l, rs, t0, t1); }
    } else if l.rate == 0.0 {
      forall rs, t0, t1 | NeverDropped(rs) ensures Bounded(l, rs, t0, t1) {
        OnlySpends(l, rs, t0, t1);
        NoRateNoGain(l, t1 - t0);
        if rs != [] { TokensBounded(l, rs); }
      }
    } else {
      ZigzagBreaksWindow(l);
      assert !Bounded(l, Zigzag(l.capacity.Floor, 1.0 / l.rate), 0.0, 1.0 / l.rate);
    }
  }

  /**
   With keys expiring, it holds under clocks that never run backwards for exactly the
   limits that refill or never allow anything, and under every clock for exactly those
   that never allow anything.
   */
  lemma WindowBoundWithExpiryIff(l: Limit)
    requires ValidLimit(l)
    ensures (forall rs, t0, t1 :: NonDecreasing(rs) ==> Bounded(l, rs, t0, t1)) <==> (l.rate > 0.0 || l.capacity < 1.0)
    ensures (forall rs, t0, t1 :: Bounded(l, rs, t0, t1)) <==> l.capacity < 1.0
  {
    hide AllowedIn, Last, Zigzag, NonDecreasing;
    if l.capacity < 1.0 {
      forall rs, t0, t1 ensures Bounded(l, rs, t0, t1) { NeverEnoughBounded(l, rs, t0, t1); }
    } else if l.rate > 0.0 {
      forall rs, t0, t1 | NonDecreasing(rs) ensures Bounded(l, rs, t0, t1) {
        if t0 <= t1 { WindowBound(l, rs, t0, t1); }
      }
      ZigzagBreaksWindow(l);
      assert !Bounded(l, Zigzag(l.capacity.Floor, 1.0 / l.rate), 0.0, 1.0 / l.rate);
    } else {
      ExpiryBreaksWindow(l);
      var rs := Burst(l.capacity.Floor) + [Request(3600.0, true)];
      assert NonDecreasing(rs) && !Bounded(l, rs, 0.0, 3600.0);
    }
  }
}
