/**
 The last two stages of the recommender: a stable sort by score, then a greedy pick with
 a cap per category and on the whole. The pick is the best there is under the caps.
 */
module Ranking {
  import opened Wrappers

  type Id = nat

  const MAX_PER_CATEGORY: nat := 2

  datatype Product = Product(id: Id, category: Option<Id>, brand: Option<Id>, stock: int, rating: real)

  datatype Scored = Scored(product: Product, score: real)

  // ---------- the order ----------

  /** x goes strictly before y: higher score, or equal score and higher rating. */
  predicate Less(x: Scored, y: Scored) {
    if x.score != y.score then x.score > y.score else x.product.rating > y.product.rating
  }

  predicate Sorted(s: seq<Scored>) {
    forall i, j :: 0 <= i < j < |s| ==> !Less(s[j], s[i])
  }

  function Insert(s: seq<Scored>, x: Scored): seq<Scored> {
    if s == [] || !Less(x, s[|s| - 1]) then s + [x]
    else Insert(s[..|s| - 1], x) + [s[|s| - 1]]
  }

  function StableSort(s: seq<Scored>): seq<Scored> {
    if s == [] then [] else Insert(StableSort(s[..|s| - 1]), s[|s| - 1])
  }

  /** The items of one rank, in the order they stand. */
  function OfRank(s: seq<Scored>, score: real, rating: real): seq<Scored> {
    if s == [] then []
    else
      var last := s[|s| - 1];
      OfRank(s[..|s| - 1], score, rating)
      + if last.score == score && last.product.rating == rating then [last] else []
  }

  lemma RankSnoc(s: seq<Scored>, x: Scored, score: real, rating: real)
    ensures OfRank(s + [x], score, rating)
         == OfRank(s, score, rating) + if x.score == score && x.product.rating == rating then [x] else []
  {
    assert (s + [x])[..|s|] == s;
  }

  lemma PileSnoc(s: seq<Scored>)
    requires s != []
    ensures multiset(s) == multiset(s[..|s| - 1]) + multiset{s[|s| - 1]}
  {
    assert s == s[..|s| - 1] + [s[|s| - 1]];
  }

  lemma {:induction false} InsertPermutes(s: seq<Scored>, x: Scored)
    ensures multiset(Insert(s, x)) == multiset(s) + multiset{x}
  {
    if s != [] && Less(x, s[|s| - 1]) {
      InsertPermutes(s[..|s| - 1], x);
      PileSnoc(s);
    }
  }

  lemma {:induction false} InsertSorted(s: seq<Scored>, x: Scored)
    requires Sorted(s)
    ensures Sorted(Insert(s, x))
  {
    if s != [] && Less(x, s[|s| - 1]) {
      var front, last := s[..|s| - 1], s[|s| - 1];
      InsertSorted(front, x);
      InsertPermutes(front, x);
      var inner := Insert(front, x);
      forall i | 0 <= i < |inner| ensures !Less(last, inner[i]) {
        assert inner[i] in multiset(inner);
        assert inner[i] in front || inner[i] == x;
      }
    } else if s != [] {
      forall i | 0 <= i < |s| ensures !Less(x, s[i]) {
        assert !Less(s[|s| - 1], s[i]);
      }
    }
  }

  lemma {:induction false} InsertStable(s: seq<Scored>, x: Scored, score: real, rating: real)
    ensures OfRank(Insert(s, x), score, rating) == OfRank(s + [x], score, rating)
  {
    hide OfRank;
    if s != [] && Less(x, s[|s| - 1]) {
      var front, last := s[..|s| - 1], s[|s| - 1];
      assert s == front + [last];
      InsertStable(front, x, score, rating);
      RankSnoc(Insert(front, x), last, score, rating);
      RankSnoc(front, x, score, rating);
      RankSnoc(front, last, score, rating);
      RankSnoc(s, x, score, rating);
    }
  }

  /** The sort is a sort: a permutation in order, with the items of each rank in the order they came in. */
  lemma {:induction false} SortCorrect(s: seq<Scored>, score: real, rating: real)
    ensures Sorted(StableSort(s)) && multiset(StableSort(s)) == multiset(s)
    ensures forall i, j :: 0 <= i < j < |StableSort(s)| ==>
      || StableSort(s)[i].score > StableSort(s)[j].score
      || (StableSort(s)[i].score == StableSort(s)[j].score
          && StableSort(s)[i].product.rating >= StableSort(s)[j].product.rating)
    ensures OfRank(StableSort(s), score, rating) == OfRank(s, score, rating)
  {
    hide OfRank, Insert, Sorted;
    if s == [] {
      NothingToSort();
    } else {
      var front, last := s[..|s| - 1], s[|s| - 1];
      assert s == front + [last];
      SortCorrect(front, score, rating);
      InsertSorted(StableSort(front), last);
      InsertPermutes(StableSort(front), last);
      InsertStable(StableSort(front), last, score, rating);
      RankSnoc(StableSort(front), last, score, rating);
      RankSnoc(front, last, score, rating);
      PileSnoc(s);
    }
    InOrder(StableSort(s));
  }

  lemma InOrder(s: seq<Scored>)
    requires Sorted(s)
    ensures forall i, j :: 0 <= i < j < |s| ==>
      s[i].score > s[j].score || (s[i].score == s[j].score && s[i].product.rating >= s[j].product.rating)
  {
    forall i, j | 0 <= i < j < |s|
      ensures s[i].score > s[j].score || (s[i].score == s[j].score && s[i].product.rating >= s[j].product.rating)
    {
      assert !Less(s[j], s[i]);
    }
  }

  lemma NothingToSort()
    ensures Sorted([])
  {
  }

  lemma SortCorrectForAll(s: seq<Scored>)
    ensures Sorted(StableSort(s)) && multiset(StableSort(s)) == multiset(s)
  {
    SortCorrect(s, 0.0, 0.0);
  }

  // ---------- sortScored ----------

  lemma {:induction false} InsertAt(s: seq<Scored>, x: Scored, j: nat)
    requires j <= |s| && forall i :: j <= i < |s| ==> Less(x, s[i])
    ensures Insert(s, x) == Insert(s[..j], x) + s[j..]
  {
    if j < |s| {
      InsertAt(s[..|s| - 1], x, j);
      assert s[..|s| - 1][..j] == s[..j];
      assert s[j..] == s[..|s| - 1][j..] + [s[|s| - 1]];
    } else {
      assert s[..j] == s && s[j..] == [];
    }
  }

  method SortScored(items: array<Scored>)
    modifies items
    ensures items[..] == StableSort(old(items[..]))
  {
    ghost var was := items[..];
    for n := 0 to items.Length
      invariant items[..n] == StableSort(was[..n]) && items[n..] == was[n..]
    {
      assert was[..n + 1][..n] == was[..n] && items[n] == items[n..][0];
      Settle(items, n);
    }
    assert items[..] == items[..items.Length] && was[..items.Length] == was;
  }

  /** Moves item n back until it is not before its left neighbour. */
  method Settle(items: array<Scored>, n: nat)
    requires n < items.Length
    modifies items
    ensures items[..n + 1] == Insert(old(items[..n]), old(items[n]))
    ensures items[n + 1..] == old(items[n + 1..])
  {
    ghost var s, x := items[..n], items[n];
    var j := n;
    while j > 0 && Less(items[j], items[j - 1])
      invariant 0 <= j <= n && items[j] == x
      invariant forall i :: 0 <= i < j ==> items[i] == s[i]
      invariant forall i :: j < i <= n ==> items[i] == s[i - 1]
      invariant forall i :: n < i < items.Length ==> items[i] == old(items[i])
      invariant forall i :: j <= i < n ==> Less(x, s[i])
    {
      items[j], items[j - 1] := items[j - 1], items[j];
      j := j - 1;
    }
    InsertAt(s, x, j);
    assert items[..n + 1] == s[..j] + [x] + s[j..];
  }

  // ---------- the selection ----------

  predicate In(x: Scored, c: Id) {
    x.product.category == Some(c)
  }

  function InCategory(s: seq<Scored>, c: Id): nat {
    if s == [] then 0 else InCategory(s[..|s| - 1], c) + if In(s[|s| - 1], c) then 1 else 0
  }

  function Total(s: seq<Scored>): real {
    if s == [] then 0.0 else Total(s[..|s| - 1]) + s[|s| - 1].score
  }

  /** Another item like x still fits under the category cap; products without a category always fit. */
  predicate Fits(s: seq<Scored>, x: Scored) {
    x.product.category.None? || InCategory(s, x.product.category.value) < MAX_PER_CATEGORY
  }

  /** The greedy pick. */
  function Chosen(r: seq<Scored>, limit: nat): seq<Scored> {
    if r == [] then []
    else
      var before := Chosen(r[..|r| - 1], limit);
      if |before| < limit && Fits(before, r[|r| - 1]) then before + [r[|r| - 1]] else before
  }

  ghost predicate WithinCaps(s: seq<Scored>, limit: nat) {
    |s| <= limit && forall c :: InCategory(s, c) <= MAX_PER_CATEGORY
  }

  lemma {:induction false} FullStays(r: seq<Scored>, n: nat, limit: nat)
    requires n <= |r| && |Chosen(r[..n], limit)| >= limit
    ensures Chosen(r, limit) == Chosen(r[..n], limit)
  {
    if n < |r| {
      assert r[..|r| - 1][..n] == r[..n];
      FullStays(r[..|r| - 1], n, limit);
    } else {
      assert r[..n] == r;
    }
  }

  lemma Snoc(s: seq<Scored>, x: Scored, c: Id)
    ensures InCategory(s + [x], c) == InCategory(s, c) + if x.product.category == Some(c) then 1 else 0
    ensures Total(s + [x]) == Total(s) + x.score
  {
    assert (s + [x])[..|s|] == s;
  }

  lemma ChosenNext(r: seq<Scored>, n: nat, limit: nat)
    requires n < |r|
    ensures Chosen(r[..n + 1], limit)
         == var before := Chosen(r[..n], limit);
            if |before| < limit
               && (r[n].product.category.None? || InCategory(before, r[n].product.category.value) < 2)
            then before + [r[n]] else before
  {
    assert r[..n + 1][..n] == r[..n];
  }

  lemma NothingCounted()
    ensures forall c :: InCategory([], c) == 0
  {
  }

  /** The selection loop, with its running counts per category and its early exit. */
  method Select(ranked: seq<Scored>, limit: nat) returns (out: seq<Scored>)
    ensures out == Chosen(ranked, limit)
  {
    out := [];
    var perCategory: map<Id, nat> := map[];
    NothingCounted();
    hide InCategory;
    for n := 0 to |ranked|
      invariant out == Chosen(ranked[..n], limit)
      invariant forall c :: InCategory(out, c) == if c in perCategory then perCategory[c] else 0
    {
      var x := ranked[n];
      if |out| >= limit {
        FullStays(ranked, n, limit);
        return;
      }
      ChosenNext(ranked, n, limit);
      hide Chosen;
      if x.product.category.Some? {
        var c := x.product.category.value;
        var taken := if c in perCategory then perCategory[c] else 0;
        if taken >= MAX_PER_CATEGORY {
          continue;
        }
        perCategory := perCategory[c := taken + 1];
      }
      forall c ensures InCategory(out + [x], c) == InCategory(out, c) + if In(x, c) then 1 else 0 {
        Snoc(out, x, c);
      }
      out := out + [x];
    }
    assert ranked[..|ranked|] == ranked;
  }

  lemma {:induction false} ChosenWithinCaps(r: seq<Scored>, limit: nat, c: Id)
    ensures |Chosen(r, limit)| <= limit && InCategory(Chosen(r, limit), c) <= 2
  {
    if r != [] {
      ChosenWithinCaps(r[..|r| - 1], limit, c);
      var before := Chosen(r[..|r| - 1], limit);
      assert (before + [r[|r| - 1]])[..|before|] == before;
    }
  }

  // ---------- why no other choice is better ----------

  /** How many items of r could be taken if only the category caps counted. */
  function Slots(r: seq<Scored>): nat {
    if r == [] then 0 else Slots(r[..|r| - 1]) + if Fits(r[..|r| - 1], r[|r| - 1]) then 1 else 0
  }

  function Min(a: nat, b: nat): nat {
    if a <= b then a else b
  }

  /** Until the limit is reached, the pick fills every slot of every category. */
  lemma {:induction false} ChosenSlots(r: seq<Scored>, limit: nat)
    ensures |Chosen(r, limit)| == Min(limit, Slots(r))
    ensures Slots(r) <= limit ==>
              forall c :: InCategory(Chosen(r, limit), c) == Min(MAX_PER_CATEGORY, InCategory(r, c))
  {
    if r != [] {
      var front, x := r[..|r| - 1], r[|r| - 1];
      ChosenSlots(front, limit);
      var before := Chosen(front, limit);
      assert (before + [x])[..|before|] == before;
    }
  }

  /** A choice among r: the items whose mark is set. */
  function Pick(r: seq<Scored>, marks: seq<bool>): seq<Scored>
    requires |marks| == |r|
  {
    if r == [] then []
    else Pick(r[..|r| - 1], marks[..|r| - 1]) + if marks[|r| - 1] then [r[|r| - 1]] else []
  }

  lemma PickLast(r: seq<Scored>, marks: seq<bool>, c: Id)
    requires |marks| == |r| && r != []
    ensures var before := Pick(r[..|r| - 1], marks[..|r| - 1]);
            && |Pick(r, marks)| == |before| + (if marks[|r| - 1] then 1 else 0)
            && InCategory(Pick(r, marks), c)
               == InCategory(before, c) + (if marks[|r| - 1] && In(r[|r| - 1], c) then 1 else 0)
            && Total(Pick(r, marks)) == Total(before) + if marks[|r| - 1] then r[|r| - 1].score else 0.0
  {
    var before := Pick(r[..|r| - 1], marks[..|r| - 1]);
    Snoc(before, r[|r| - 1], c);
    assert before + [] == before;
  }

  lemma {:induction false} ChosenLast(r: seq<Scored>, limit: nat)
    requires r != []
    ensures var before, after := Chosen(r[..|r| - 1], limit), Chosen(r, limit);
            || (|after| == |before| && Total(after) == Total(before))
            || (|after| == |before| + 1 && Total(after) == Total(before) + r[|r| - 1].score)
  {
    hide Total, InCategory;
    Snoc(Chosen(r[..|r| - 1], limit), r[|r| - 1], 0);
  }

  /** A category with more items than were picked from it has one that was not. */
  lemma {:induction false} Unpicked(r: seq<Scored>, marks: seq<bool>, c: Id) returns (j: nat)
    requires |marks| == |r| && InCategory(Pick(r, marks), c) < InCategory(r, c)
    ensures j < |r| && In(r[j], c) && !marks[j]
  {
    PickLast(r, marks, c);
    if In(r[|r| - 1], c) && !marks[|r| - 1] {
      j := |r| - 1;
    } else {
      j := Unpicked(r[..|r| - 1], marks[..|r| - 1], c);
    }
  }

  lemma {:induction false} PickOneMore(r: seq<Scored>, marks: seq<bool>, j: nat, c: Id)
    requires |marks| == |r| && j < |r| && !marks[j]
    ensures |Pick(r, marks[j := true])| == |Pick(r, marks)| + 1
    ensures InCategory(Pick(r, marks[j := true]), c) == InCategory(Pick(r, marks), c) + if In(r[j], c) then 1 else 0
  {
    var n, up := |r| - 1, marks[j := true];
    PickLast(r, marks, c);
    PickLast(r, up, c);
    if j == n {
      assert up[..n] == marks[..n];
    } else {
      assert up[..n] == marks[..n][j := true];
      PickOneMore(r[..n], marks[..n], j, c);
    }
  }

  ghost predicate Capped(r: seq<Scored>, marks: seq<bool>)
    requires |marks| == |r|
  {
    forall c :: InCategory(Pick(r, marks), c) <= MAX_PER_CATEGORY
  }

  lemma CappedFront(r: seq<Scored>, marks: seq<bool>)
    requires |marks| == |r| && r != [] && Capped(r, marks)
    ensures Capped(r[..|r| - 1], marks[..|r| - 1])
  {
    var front, before := r[..|r| - 1], marks[..|r| - 1];
    forall c ensures InCategory(Pick(front, before), c) <= MAX_PER_CATEGORY {
      PickLast(r, marks, c);
    }
  }

  /**
   No choice under the category caps is larger than the number of slots. When it takes
   an item that had no slot, an earlier item of the category was left out: exchange the
   two.
   */
  lemma {:induction false} CappedSlots(r: seq<Scored>, marks: seq<bool>)
    requires |marks| == |r| && Capped(r, marks)
    ensures |Pick(r, marks)| <= Slots(r)
    decreases |r|
  {
    if r != [] {
      var n := |r| - 1;
      var front, x := r[..n], r[n];
      CappedFront(r, marks);
      PickLast(r, marks, 0);
      if !marks[n] || Fits(front, x) {
        CappedSlots(front, marks[..n]);
      } else {
        var c := x.product.category.value;
        PickLast(r, marks, c);
        var j := Unpicked(front, marks[..n], c);
        var exchanged := marks[..n][j := true];
        forall d ensures InCategory(Pick(front, exchanged), d) <= MAX_PER_CATEGORY {
          PickOneMore(front, marks[..n], j, d);
          PickLast(r, marks, d);
        }
        PickOneMore(front, marks[..n], j, c);
        CappedSlots(front, exchanged);
      }
    }
  }

  predicate Ranked(r: seq<Scored>) {
    && (forall i, j :: 0 <= i < j < |r| ==> r[i].score >= r[j].score)
    && (forall i :: 0 <= i < |r| ==> r[i].score >= 0.0)
  }

  /** How many more items the pick has than a choice, at least none. */
  function Lead(r: seq<Scored>, marks: seq<bool>, limit: nat): real
    requires |marks| == |r|
  {
    (|Chosen(r, limit)| - |Pick(r, marks)|) as real
  }

  lemma LeadNonNegative(r: seq<Scored>, marks: seq<bool>, limit: nat)
    requires |marks| == |r| && Capped(r, marks) && |Pick(r, marks)| <= limit
    ensures Lead(r, marks, limit) >= 0.0
  {
    ChosenSlots(r, limit);
    CappedSlots(r, marks);
  }

  function Times(k: real, s: real): real {
    k * s
  }

  lemma ScaleDown(k: real, a: real, b: real)
    requires k >= 0.0 && a >= b
    ensures Times(k, a) >= Times(k, b)
  {
  }

  lemma Stepwise(k: real, s: real)
    ensures Times(k + 1.0, s) == Times(k, s) + s && Times(k - 1.0, s) == Times(k, s) - s
  {
  }

  /** The pick is ahead by at least the lowest score for each item it has more. */
  lemma {:induction false} PickAhead(r: seq<Scored>, marks: seq<bool>, limit: nat)
    requires Ranked(r) && |marks| == |r| && Capped(r, marks) && |Pick(r, marks)| <= limit
    ensures r == [] || Total(Chosen(r, limit)) >= Total(Pick(r, marks)) + Times(Lead(r, marks, limit), r[|r| - 1].score)
    decreases |r|
  {
    hide Chosen, Pick, Total, Capped, Times;
    if r != [] {
      var n := |r| - 1;
      var front, x := r[..n], r[n];
      var lead := Lead(front, marks[..n], limit);
      CappedFront(r, marks);
      PickLast(r, marks, 0);
      ChosenLast(r, limit);
      PickAhead(front, marks[..n], limit);
      LeadNonNegative(front, marks[..n], limit);
      if n == 0 {
        NothingPicked(front, marks[..n], limit, x.score);
      } else {
        ScaleDown(lead, front[n - 1].score, x.score);
      }
      Stepwise(lead, x.score);
    }
  }

  lemma NothingPicked(r: seq<Scored>, marks: seq<bool>, limit: nat, s: real)
    requires r == [] && marks == []
    ensures Total(Chosen(r, limit)) == Total(Pick(r, marks)) && Times(Lead(r, marks, limit), s) == 0.0
  {
  }

  // ---------- choices as lists ----------

  function Without(s: seq<Scored>, j: nat): seq<Scored>
    requires j < |s|
  {
    s[..j] + s[j + 1..]
  }

  lemma PileWithout(s: seq<Scored>, j: nat)
    requires j < |s|
    ensures multiset(s) == multiset(Without(s, j)) + multiset{s[j]}
  {
    assert s == s[..j] + [s[j]] + s[j + 1..];
  }

  lemma {:induction false} SamePile(a: seq<Scored>, b: seq<Scored>, c: Id)
    requires multiset(a) == multiset(b)
    ensures |a| == |b| && Total(a) == Total(b) && InCategory(a, c) == InCategory(b, c)
    decreases |a|
  {
    assert |multiset(a)| == |a| && |multiset(b)| == |b|;
    if a != [] {
      var n, x := |a| - 1, a[|a| - 1];
      PileSnoc(a);
      assert x in multiset(b);
      var j :| 0 <= j < |b| && b[j] == x;
      PileWithout(b, j);
      PileLess(a[..n], Without(b, j), x, multiset(a));
      SamePile(a[..n], Without(b, j), c);
      Removed(b, j, c);
    }
  }

  lemma PileLess(a: seq<Scored>, b: seq<Scored>, x: Scored, pile: multiset<Scored>)
    requires pile == multiset(a) + multiset{x} && pile == multiset(b) + multiset{x}
    ensures multiset(a) == multiset(b)
  {
    assert multiset(a) == pile - multiset{x};
    assert multiset(b) == pile - multiset{x};
  }

  /** Taking out one item takes out its score and its place in its category. */
  lemma {:induction false} Removed(s: seq<Scored>, j: nat, c: Id)
    requires j < |s|
    ensures Total(s) == Total(Without(s, j)) + s[j].score
    ensures InCategory(s, c) == InCategory(Without(s, j), c) + if In(s[j], c) then 1 else 0
    decreases |s|
  {
    var n := |s| - 1;
    var rest := Without(s, j);
    if j == n {
      assert rest == s[..n];
    } else {
      Removed(s[..n], j, c);
      assert rest[..n - 1] == Without(s[..n], j);
      assert rest[n - 1] == s[n];
    }
  }

  /** Every choice of items of r is given by marks. */
  lemma {:induction false} MarksFor(r: seq<Scored>, choice: seq<Scored>) returns (marks: seq<bool>)
    requires multiset(choice) <= multiset(r)
    ensures |marks| == |r| && multiset(Pick(r, marks)) == multiset(choice)
    decreases |r|
  {
    hide Without;
    if r == [] {
      marks := [];
      assert forall y :: y in choice ==> y in multiset(choice);
    } else {
      var n, x := |r| - 1, r[|r| - 1];
      PileSnoc(r);
      if x in choice {
        var j :| 0 <= j < |choice| && choice[j] == x;
        PileWithout(choice, j);
        PileWithin(Without(choice, j), r[..n], x);
        var inner := MarksFor(r[..n], Without(choice, j));
        marks := inner + [true];
        assert marks[..n] == inner;
      } else {
        assert multiset(choice)[x] == 0;
        PileSkips(choice, r[..n], x);
        var inner := MarksFor(r[..n], choice);
        marks := inner + [false];
        assert marks[..n] == inner;
      }
    }
  }

  lemma PileWithin(a: seq<Scored>, b: seq<Scored>, x: Scored)
    requires multiset(a) + multiset{x} <= multiset(b) + multiset{x}
    ensures multiset(a) <= multiset(b)
  {
    forall y ensures multiset(a)[y] <= multiset(b)[y] {
      assert (multiset(a) + multiset{x})[y] <= (multiset(b) + multiset{x})[y];
    }
  }

  lemma PileSkips(a: seq<Scored>, b: seq<Scored>, x: Scored)
    requires multiset(a) <= multiset(b) + multiset{x} && multiset(a)[x] == 0
    ensures multiset(a) <= multiset(b)
  {
    forall y ensures multiset(a)[y] <= multiset(b)[y] {
      assert multiset(a)[y] <= (multiset(b) + multiset{x})[y];
    }
  }

  /** rail is a choice of the candidates within the caps, and none of them has a larger total score. */
  ghost predicate Best(candidates: seq<Scored>, rail: seq<Scored>, limit: nat) {
    && multiset(rail) <= multiset(candidates) && WithinCaps(rail, limit)
    && forall choice :: multiset(choice) <= multiset(candidates) && WithinCaps(choice, limit) ==>
         Total(choice) <= Total(rail)
  }

  /** The greedy pick from the sorted list is a best choice of the candidates. */
  lemma GreedyIsOptimal(candidates: seq<Scored>, limit: nat)
    requires forall x :: x in candidates ==> x.score >= 0.0
    ensures Best(candidates, Chosen(StableSort(candidates), limit), limit)
  {
    hide StableSort, Chosen, Total, InCategory;
    var r := StableSort(candidates);
    SortRanked(candidates);
    ChosenIsChoice(r, limit);
    ChosenWithinCaps(r, limit, 0);
    forall c ensures InCategory(Chosen(r, limit), c) <= MAX_PER_CATEGORY { ChosenWithinCaps(r, limit, c); }
    forall choice | multiset(choice) <= multiset(candidates) && WithinCaps(choice, limit)
      ensures Total(choice) <= Total(Chosen(r, limit))
    {
      NoChoiceBeats(candidates, limit, choice);
    }
  }

  lemma {:induction false} ChosenIsChoice(r: seq<Scored>, limit: nat)
    ensures multiset(Chosen(r, limit)) <= multiset(r)
  {
    if r != [] {
      ChosenIsChoice(r[..|r| - 1], limit);
      PileSnoc(r);
    }
  }

  lemma NoChoiceBeats(candidates: seq<Scored>, limit: nat, choice: seq<Scored>)
    requires forall x :: x in candidates ==> x.score >= 0.0
    requires multiset(choice) <= multiset(candidates) && WithinCaps(choice, limit)
    ensures Total(choice) <= Total(Chosen(StableSort(candidates), limit))
  {
    hide StableSort, Chosen, Pick, Total, InCategory, Sorted;
    var r := StableSort(candidates);
    SortRanked(candidates);
    var marks := MarksFor(r, choice);
    forall c ensures InCategory(Pick(r, marks), c) <= MAX_PER_CATEGORY {
      SamePile(Pick(r, marks), choice, c);
    }
    SamePile(Pick(r, marks), choice, 0);
    if r == [] {
      NothingPicked(r, marks, limit, 0.0);
    } else {
      PickAhead(r, marks, limit);
      LeadNonNegative(r, marks, limit);
      ScaleDown(Lead(r, marks, limit), r[|r| - 1].score, 0.0);
    }
  }

  lemma SortRanked(candidates: seq<Scored>)
    requires forall x :: x in candidates ==> x.score >= 0.0
    ensures multiset(StableSort(candidates)) == multiset(candidates) && Ranked(StableSort(candidates))
  {
    var r := StableSort(candidates);
    SortCorrectForAll(candidates);
    forall i | 0 <= i < |r| ensures r[i].score >= 0.0 {
      assert r[i] in multiset(r);
    }
    forall i, j | 0 <= i < j < |r| ensures r[i].score >= r[j].score {
      assert !Less(r[j], r[i]);
    }
  }
}
