/** The recommender. */
module Recommend {
  import opened Wrappers
  import opened Ranking

  // A shopper's recent events and cart become weights per category and brand, the weights
  // score the newest products in stock, and the best of them under the caps become the rail.
  // Arithmetic is over reals; the recency decay of an event comes with the event.

  /** hours is the age of the event, decay what the half-life leaves of its weight. */
  datatype Event = Event(kind: string, product: Option<Id>, category: Option<Id>, hours: real, decay: real)

  const CART_INTENT: real := 4.0
  const MAX_CANDIDATES: nat := 100
  const SIGNAL_FLOOR: nat := 3

  function SignalBase(kind: string): real {
    if kind == "view" then 1.0
    else if kind == "add_to_cart" then 3.0
    else if kind == "purchase" then 5.0
    else 0.0
  }

  predicate Decayed(events: seq<Event>) {
    forall e :: e in events ==> 0.0 < e.decay <= 1.0
  }

  // ---------- what the weights mean ----------

  function Signals(events: seq<Event>): nat {
    if events == [] then 0
    else Signals(events[..|events| - 1]) + if SignalBase(events[|events| - 1].kind) == 0.0 then 0 else 1
  }

  function EventAffinity(events: seq<Event>, c: Id): real {
    if events == [] then 0.0
    else
      var e := events[|events| - 1];
      EventAffinity(events[..|events| - 1], c) + if e.category == Some(c) then SignalBase(e.kind) * e.decay else 0.0
  }

  function CartCategory(rows: seq<Product>, c: Id): real {
    if rows == [] then 0.0
    else CartCategory(rows[..|rows| - 1], c) + if rows[|rows| - 1].category == Some(c) then CART_INTENT else 0.0
  }

  function CartBrand(rows: seq<Product>, b: Id): real {
    if rows == [] then 0.0
    else CartBrand(rows[..|rows| - 1], b) + if rows[|rows| - 1].brand == Some(b) then CART_INTENT * 0.5 else 0.0
  }

  predicate JustViewed(events: seq<Event>, p: Id) {
    exists e :: e in events && e.kind == "view" && e.product == Some(p) && e.hours < 24.0
  }

  /** The score of a product for a shopper: category and brand affinity and a little of its rating. */
  function Score(events: seq<Event>, rows: seq<Product>, p: Product): real {
    (if p.category.Some? then EventAffinity(events, p.category.value) + CartCategory(rows, p.category.value) else 0.0)
    + (if p.brand.Some? then 0.5 * CartBrand(rows, p.brand.value) else 0.0)
    + 0.1 * p.rating
  }

  /** A product with neither a rating nor any affinity is not ranked. */
  predicate Speaks(events: seq<Event>, rows: seq<Product>, p: Product) {
    p.rating != 0.0 || Score(events, rows, p) > 0.0
  }

  /** The products of the shop with these ids, each once. */
  function RowsOf(products: seq<Product>, ids: seq<Id>): seq<Product> {
    if products == [] then []
    else
      var p := products[|products| - 1];
      RowsOf(products[..|products| - 1], ids) + if p.id in ids then [p] else []
  }

  /** In stock and neither in the cart nor just viewed. */
  predicate Eligible(events: seq<Event>, cart: seq<Id>, p: Product) {
    p.stock > 0 && p.id !in cart && !JustViewed(events, p.id)
  }

  function EligibleRows(products: seq<Product>, events: seq<Event>, cart: seq<Id>): seq<Product> {
    if products == [] then []
    else
      var p := products[|products| - 1];
      EligibleRows(products[..|products| - 1], events, cart) + if Eligible(events, cart, p) then [p] else []
  }

  /** The newest eligible products, at most as many as the pool takes; products come newest first. */
  function Pool(products: seq<Product>, events: seq<Event>, cart: seq<Id>): seq<Product> {
    var all := EligibleRows(products, events, cart);
    if |all| <= MAX_CANDIDATES then all else all[..MAX_CANDIDATES]
  }

  function RankedOf(events: seq<Event>, rows: seq<Product>, pool: seq<Product>): seq<Scored> {
    if pool == [] then []
    else
      var p := pool[|pool| - 1];
      RankedOf(events, rows, pool[..|pool| - 1])
      + if Speaks(events, rows, p) then [Scored(p, Score(events, rows, p))] else []
  }

  function ProductsOf(s: seq<Scored>): seq<Product> {
    seq(|s|, i requires 0 <= i < |s| => s[i].product)
  }

  predicate ColdStart(events: seq<Event>, cart: seq<Id>) {
    Signals(events) < SIGNAL_FLOOR && cart == []
  }

  /** What the rail is made from. */
  function Candidates(products: seq<Product>, events: seq<Event>, cart: seq<Id>): seq<Scored> {
    if ColdStart(events, cart) then []
    else RankedOf(events, RowsOf(products, cart), Pool(products, events, cart))
  }

  predicate Rated(products: seq<Product>) {
    forall p :: p in products ==> p.rating >= 0.0
  }

  // ---------- the service ----------

  function WeightIn(weights: map<Id, real>, key: Id): real {
    if key in weights then weights[key] else 0.0
  }

  method WeighEvents(events: seq<Event>)
    returns (categoryWeights: map<Id, real>, recentlyViewed: set<Id>, signalEvents: nat)
    ensures forall c :: WeightIn(categoryWeights, c) == EventAffinity(events, c)
    ensures forall p :: p in recentlyViewed <==> JustViewed(events, p)
    ensures signalEvents == Signals(events)
  {
    hide JustViewed;
    categoryWeights, recentlyViewed, signalEvents := map[], {}, 0;
    NothingViewed();
    for n := 0 to |events|
      invariant forall c :: WeightIn(categoryWeights, c) == EventAffinity(events[..n], c)
      invariant forall p :: p in recentlyViewed <==> JustViewed(events[..n], p)
      invariant signalEvents == Signals(events[..n])
    {
      var e := events[n];
      assert events[..n + 1][..n] == events[..n];
      ViewedNext(events, n);
      var base := SignalBase(e.kind);
      if base == 0.0 {
        continue;
      }
      var w := base * e.decay;
      signalEvents := signalEvents + 1;
      if e.category.Some? {
        var c := e.category.value;
        categoryWeights := categoryWeights[c := WeightIn(categoryWeights, c) + w];
      }
      if e.product.Some? && e.kind == "view" {
        if e.hours < 24.0 {
          recentlyViewed := recentlyViewed + {e.product.value};
        }
      }
    }
    assert events[..|events|] == events;
  }

  lemma NothingViewed()
    ensures forall p :: !JustViewed([], p)
  {
  }

  lemma ViewedNext(events: seq<Event>, n: nat)
    requires n < |events|
    ensures forall p: Id :: JustViewed(events[..n + 1], p) <==>
              JustViewed(events[..n], p)
              || (events[n].kind == "view" && events[n].product == Some(p) && events[n].hours < 24.0)
  {
    assert events[..n + 1] == events[..n] + [events[n]];
  }

  method WeighCart(rows: seq<Product>, weights: map<Id, real>)
    returns (categoryWeights: map<Id, real>, brandWeights: map<Id, real>)
    ensures forall c :: WeightIn(categoryWeights, c) == WeightIn(weights, c) + CartCategory(rows, c)
    ensures forall b :: WeightIn(brandWeights, b) == CartBrand(rows, b)
  {
    categoryWeights, brandWeights := weights, map[];
    for n := 0 to |rows|
      invariant forall c :: WeightIn(categoryWeights, c) == WeightIn(weights, c) + CartCategory(rows[..n], c)
      invariant forall b :: WeightIn(brandWeights, b) == CartBrand(rows[..n], b)
    {
      var cb := rows[n];
      assert rows[..n + 1][..n] == rows[..n];
      if cb.category.Some? {
        var c := cb.category.value;
        categoryWeights := categoryWeights[c := WeightIn(categoryWeights, c) + CART_INTENT];
      }
      if cb.brand.Some? {
        var b := cb.brand.value;
        brandWeights := brandWeights[b := WeightIn(brandWeights, b) + CART_INTENT * 0.5];
      }
    }
    assert rows[..|rows|] == rows;
  }

  method CategoryBrandFor(products: seq<Product>, ids: seq<Id>) returns (rows: seq<Product>)
    ensures rows == RowsOf(products, ids)
  {
    rows := [];
    for n := 0 to |products|
      invariant rows == RowsOf(products[..n], ids)
    {
      assert products[..n + 1][..n] == products[..n];
      if products[n].id in ids {
        rows := rows + [products[n]];
      }
    }
    assert products[..|products|] == products;
  }

  /** The candidate query: in stock, not excluded, newest first, up to the pool size. */
  method LoadPool(products: seq<Product>, ghost events: seq<Event>, cart: seq<Id>, recentlyViewed: set<Id>)
    returns (pool: seq<Product>)
    requires forall p :: p in recentlyViewed <==> JustViewed(events, p)
    ensures pool == Pool(products, events, cart)
  {
    pool := [];
    for n := 0 to |products|
      invariant pool == Pool(products[..n], events, cart)
    {
      assert products[..n + 1][..n] == products[..n];
      var p := products[n];
      if p.stock > 0 && p.id !in cart && p.id !in recentlyViewed && |pool| < MAX_CANDIDATES {
        pool := pool + [p];
      }
    }
    assert products[..|products|] == products;
  }

  method Rank(pool: seq<Product>, categoryWeights: map<Id, real>, brandWeights: map<Id, real>,
              ghost events: seq<Event>, ghost rows: seq<Product>)
    returns (ranked: seq<Scored>)
    requires Rated(pool) && Decayed(events)
    requires forall c :: WeightIn(categoryWeights, c) == EventAffinity(events, c) + CartCategory(rows, c)
    requires forall b :: WeightIn(brandWeights, b) == CartBrand(rows, b)
    ensures ranked == RankedOf(events, rows, pool)
  {
    ranked := [];
    for n := 0 to |pool|
      invariant ranked == RankedOf(events, rows, pool[..n])
    {
      assert pool[..n + 1][..n] == pool[..n];
      var p := pool[n];
      var score := 0.0;
      if p.category.Some? {
        score := score + WeightIn(categoryWeights, p.category.value);
      }
      if p.brand.Some? {
        score := score + 0.5 * WeightIn(brandWeights, p.brand.value);
      }
      score := score + 0.1 * p.rating;
      if score <= 0.1 * p.rating && p.rating == 0.0 {
        continue;
      }
      ranked := ranked + [Scored(p, score)];
    }
    assert pool[..|pool|] == pool;
  }

  method Recommend(products: seq<Product>, events: seq<Event>, cart: seq<Id>, limit: int) returns (rail: seq<Product>)
    requires Rated(products) && Decayed(events)
    ensures limit <= 0 || (Signals(events) < 3 && cart == []) ==> rail == []
    ensures limit > 0 ==> rail == ProductsOf(Chosen(StableSort(Candidates(products, events, cart)), limit))
  {
    if limit <= 0 {
      return [];
    }
    var weights, recentlyViewed, signalEvents := WeighEvents(events);
    var rows := CategoryBrandFor(products, cart);
    var categoryWeights, brandWeights := WeighCart(rows, weights);
    if signalEvents < SIGNAL_FLOOR && |cart| == 0 {
      assert Candidates(products, events, cart) == [];
      return [];
    }
    var pool := LoadPool(products, events, cart, recentlyViewed);
    PoolKnown(products, events, cart);
    var ranked := Rank(pool, categoryWeights, brandWeights, events, rows);
    var items := new Scored[|ranked|](i requires 0 <= i < |ranked| => ranked[i]);
    assert items[..] == ranked;
    SortScored(items);
    var out := Select(items[..], limit);
    rail := ProductsOf(out);
  }

  // ---------- what the rail is ----------

  /** One more event raises the products of its category by 1, 3 or 5 times its decay, and changes no other. */
  lemma OneMoreEvent(events: seq<Event>, e: Event, rows: seq<Product>, p: Product)
    ensures Score(events + [e], rows, p) == Score(events, rows, p)
         + if p.category.None? || e.category != p.category then 0.0
           else if e.kind == "view" then 1.0 * e.decay
           else if e.kind == "add_to_cart" then 3.0 * e.decay
           else if e.kind == "purchase" then 5.0 * e.decay
           else 0.0
    ensures Signals(events + [e])
         == Signals(events) + if e.kind == "view" || e.kind == "add_to_cart" || e.kind == "purchase" then 1 else 0
  {
    assert (events + [e])[..|events|] == events;
  }

  /** One more row in the cart raises its category by 4 and its brand by half of 2. */
  lemma OneMoreInCart(events: seq<Event>, rows: seq<Product>, row: Product, p: Product)
    ensures Score(events, rows + [row], p) == Score(events, rows, p)
         + (if p.category.Some? && row.category == p.category then 4.0 else 0.0)
         + if p.brand.Some? && row.brand == p.brand then 0.5 * 2.0 else 0.0
  {
    assert (rows + [row])[..|rows|] == rows;
  }

  lemma BareScore(p: Product)
    ensures Score([], [], p) == 0.1 * p.rating && Signals([]) == 0
  {
  }

  /** Viewed within the last 24 hours. */
  lemma JustViewedIff(events: seq<Event>, p: Id)
    ensures !JustViewed(events, p) <==>
              forall e :: e in events && e.kind == "view" && e.product == Some(p) ==> e.hours >= 24.0
  {
  }

  /** The cart's rows are the products with the cart's ids, as often as the shop has them. */
  lemma {:induction false} CartRowsExact(products: seq<Product>, cart: seq<Id>, p: Product)
    ensures multiset(RowsOf(products, cart))[p] == if p.id in cart then multiset(products)[p] else 0
  {
    if products != [] {
      CartRowsExact(products[..|products| - 1], cart, p);
      assert products == products[..|products| - 1] + [products[|products| - 1]];
    }
  }

  lemma {:induction false} EligibleExact(products: seq<Product>, events: seq<Event>, cart: seq<Id>, p: Product)
    ensures multiset(EligibleRows(products, events, cart))[p]
         == if p.stock > 0 && p.id !in cart && !JustViewed(events, p.id) then multiset(products)[p] else 0
  {
    hide JustViewed;
    if products != [] {
      EligibleExact(products[..|products| - 1], events, cart, p);
      assert products == products[..|products| - 1] + [products[|products| - 1]];
    }
  }

  lemma EligibleKnown(products: seq<Product>, events: seq<Event>, cart: seq<Id>)
    ensures forall p :: p in EligibleRows(products, events, cart) <==>
              p in products && p.stock > 0 && p.id !in cart && !JustViewed(events, p.id)
  {
    forall p
      ensures p in EligibleRows(products, events, cart) <==>
                p in products && p.stock > 0 && p.id !in cart && !JustViewed(events, p.id)
    {
      EligibleExact(products, events, cart, p);
      assert p in products <==> p in multiset(products);
      assert p in EligibleRows(products, events, cart) <==> p in multiset(EligibleRows(products, events, cart));
    }
  }

  lemma PoolKnown(products: seq<Product>, events: seq<Event>, cart: seq<Id>)
    ensures |Pool(products, events, cart)| <= 100
    ensures forall p :: p in Pool(products, events, cart) ==>
              p in products && p.stock > 0 && p.id !in cart && !JustViewed(events, p.id)
  {
    EligibleKnown(products, events, cart);
  }

  lemma PoolNext(products: seq<Product>, events: seq<Event>, cart: seq<Id>)
    requires products != []
    ensures var p, before := products[|products| - 1], Pool(products[..|products| - 1], events, cart);
            Pool(products, events, cart) == before + if Eligible(events, cart, p) && |before| < MAX_CANDIDATES then [p] else []
  {
  }

  /** A product that could be shown is missing from the pool only behind a hundred newer ones. */
  lemma {:induction false} PoolIsNewest(products: seq<Product>, events: seq<Event>, cart: seq<Id>, i: nat)
    requires i < |products| && products[i].stock > 0 && products[i].id !in cart && !JustViewed(events, products[i].id)
    ensures products[i] in Pool(products, events, cart)
         || (|Pool(products, events, cart)| == 100 && forall q :: q in Pool(products, events, cart) ==> q in products[..i])
  {
    var n := |products| - 1;
    PoolNext(products, events, cart);
    hide Pool, JustViewed;
    if i < n {
      PoolIsNewest(products[..n], events, cart, i);
      assert products[..n][..i] == products[..i];
    } else {
      PoolKnown(products[..n], events, cart);
    }
  }

  lemma {:induction false} RankedKnown(events: seq<Event>, rows: seq<Product>, pool: seq<Product>)
    ensures forall x :: x in RankedOf(events, rows, pool) ==>
              x.product in pool && x.score == Score(events, rows, x.product) && Speaks(events, rows, x.product)
  {
    if pool != [] {
      RankedKnown(events, rows, pool[..|pool| - 1]);
    }
  }

  lemma {:induction false} EventsNonNegative(events: seq<Event>, c: Id)
    requires Decayed(events)
    ensures EventAffinity(events, c) >= 0.0
  {
    if events != [] {
      var e := events[|events| - 1];
      assert e in events;
      EventsNonNegative(events[..|events| - 1], c);
      ScaleDown(SignalBase(e.kind), e.decay, 0.0);
      assert Times(SignalBase(e.kind), 0.0) == 0.0;
    }
  }

  lemma {:induction false} CartNonNegative(rows: seq<Product>, c: Id)
    ensures CartCategory(rows, c) >= 0.0 && CartBrand(rows, c) >= 0.0
  {
    if rows != [] {
      CartNonNegative(rows[..|rows| - 1], c);
    }
  }

  lemma ScoreNonNegative(events: seq<Event>, rows: seq<Product>, p: Product)
    requires Decayed(events) && p.rating >= 0.0
    ensures Score(events, rows, p) >= 0.1 * p.rating
  {
    if p.category.Some? {
      EventsNonNegative(events, p.category.value);
      CartNonNegative(rows, p.category.value);
    }
    if p.brand.Some? {
      CartNonNegative(rows, p.brand.value);
    }
  }

  lemma CandidatesKnown(products: seq<Product>, events: seq<Event>, cart: seq<Id>)
    requires Rated(products) && Decayed(events)
    ensures forall x :: x in Candidates(products, events, cart) ==>
              x.product in products && Eligible(events, cart, x.product) && x.score >= 0.0
  {
    var rows := RowsOf(products, cart);
    PoolKnown(products, events, cart);
    RankedKnown(events, rows, Pool(products, events, cart));
    forall x | x in Candidates(products, events, cart)
      ensures x.product in products && Eligible(events, cart, x.product) && x.score >= 0.0
    {
      ScoreNonNegative(events, rows, x.product);
    }
  }

  /** The rail is a best choice of the candidates under the caps. */
  lemma RailIsOptimal(products: seq<Product>, events: seq<Event>, cart: seq<Id>, limit: nat)
    requires Rated(products) && Decayed(events)
    ensures var all := Candidates(products, events, cart); Best(all, Chosen(StableSort(all), limit), limit)
  {
    CandidatesKnown(products, events, cart);
    GreedyIsOptimal(Candidates(products, events, cart), limit);
  }

  lemma {:induction false} ChosenFrom(r: seq<Scored>, limit: nat, x: Scored)
    requires x in Chosen(r, limit)
    ensures x in r
  {
    if r != [] {
      var front := r[..|r| - 1];
      if x in Chosen(front, limit) {
        ChosenFrom(front, limit, x);
      }
      assert r == front + [r[|r| - 1]];
    }
  }

  /** Everything on the rail is in stock, not in the cart, not viewed in the last day, and has a rating or an affinity. */
  lemma RailIsFresh(products: seq<Product>, events: seq<Event>, cart: seq<Id>, limit: nat, x: Scored)
    requires Rated(products) && Decayed(events)
    requires x in Chosen(StableSort(Candidates(products, events, cart)), limit)
    ensures x.product in products && x.product.stock > 0 && x.product.id !in cart
    ensures forall e :: e in events && e.kind == "view" && e.product == Some(x.product.id) ==> e.hours >= 24.0
    ensures x.score == Score(events, RowsOf(products, cart), x.product) && x.score > 0.0
  {
    var all, rows := Candidates(products, events, cart), RowsOf(products, cart);
    ChosenFrom(StableSort(all), limit, x);
    SortCorrectForAll(all);
    assert x in multiset(all);
    CandidatesKnown(products, events, cart);
    RankedKnown(events, rows, Pool(products, events, cart));
    ScoreNonNegative(events, rows, x.product);
    JustViewedIff(events, x.product.id);
  }

  /**
   The candidates, exactly: with fewer than three signals and an empty cart there are
   none; otherwise every product of the pool with a rating or a positive score, with that
   score, and as often as the pool has it.
   */
  lemma CandidatesExact(products: seq<Product>, events: seq<Event>, cart: seq<Id>, p: Product, score: real)
    ensures multiset(Candidates(products, events, cart))[Scored(p, score)]
         == if !(Signals(events) < 3 && cart == []) && score == Score(events, RowsOf(products, cart), p)
               && (p.rating != 0.0 || score > 0.0)
            then multiset(Pool(products, events, cart))[p] else 0
  {
    RankedExact(events, RowsOf(products, cart), Pool(products, events, cart), p, score);
  }

  lemma {:induction false} RankedExact(events: seq<Event>, rows: seq<Product>, pool: seq<Product>, p: Product, score: real)
    ensures multiset(RankedOf(events, rows, pool))[Scored(p, score)]
         == if score == Score(events, rows, p) && (p.rating != 0.0 || score > 0.0) then multiset(pool)[p] else 0
  {
    hide Score;
    if pool != [] {
      RankedExact(events, rows, pool[..|pool| - 1], p, score);
      assert pool == pool[..|pool| - 1] + [pool[|pool| - 1]];
    }
  }

  /** The rail shows nothing more often than the shop lists it. */
  lemma RailRepeatsNothing(products: seq<Product>, events: seq<Event>, cart: seq<Id>, limit: nat, x: Scored)
    ensures multiset(Chosen(StableSort(Candidates(products, events, cart)), limit))[x] <= multiset(products)[x.product]
  {
    var all := Candidates(products, events, cart);
    ChosenIsChoice(StableSort(all), limit);
    SortCorrectForAll(all);
    CandidatesExact(products, events, cart, x.product, x.score);
    PoolOnce(products, events, cart, x.product);
  }

  lemma PoolOnce(products: seq<Product>, events: seq<Event>, cart: seq<Id>, p: Product)
    ensures multiset(Pool(products, events, cart))[p] <= multiset(products)[p]
  {
    var all := EligibleRows(products, events, cart);
    EligibleExact(products, events, cart, p);
    if |all| > MAX_CANDIDATES {
      assert all == all[..MAX_CANDIDATES] + all[MAX_CANDIDATES..];
    }
  }

  /** The rail leaves a place free only when every candidate it passed over had its category full. */
  lemma RailIsFull(products: seq<Product>, events: seq<Event>, cart: seq<Id>, limit: nat, x: Scored)
    requires x in Candidates(products, events, cart)
    requires var rail := Chosen(StableSort(Candidates(products, events, cart)), limit); x !in rail && |rail| < limit
    ensures x.product.category.Some?
    ensures InCategory(Chosen(StableSort(Candidates(products, events, cart)), limit), x.product.category.value) == 2
  {
    var all := Candidates(products, events, cart);
    SortCorrectForAll(all);
    assert x in multiset(StableSort(all));
    PassedOver(StableSort(all), limit, x);
    ChosenWithinCaps(StableSort(all), limit, x.product.category.value);
  }

  lemma {:induction false} PassedOver(r: seq<Scored>, limit: nat, x: Scored)
    requires x in r && x !in Chosen(r, limit) && |Chosen(r, limit)| < limit
    ensures x.product.category.Some? && InCategory(Chosen(r, limit), x.product.category.value) >= MAX_PER_CATEGORY
  {
    var front, last := r[..|r| - 1], r[|r| - 1];
    var before := Chosen(front, limit);
    assert r == front + [last];
    if x in front {
      PassedOver(front, limit, x);
      Snoc(before, last, x.product.category.value);
    }
  }
}
