/** Hybrid product retrieval: normalised token embeddings, scoring, and diversified greedy selection. */
module Retrieval {
  import opened Common
  import opened Reals
  import opened Rounding

  const DIMENSIONS: nat := 64

  /** A token with the two parts of its digest that the embedding uses. */
  datatype Token = Token(text: string, digest: nat, negative: bool)

  type Vector = v: seq<real> | |v| == DIMENSIONS witness seq(DIMENSIONS, _ => 0.0)

  /** A catalog product with its searchable text's tokens and its entry in the retriever's vector index. */
  datatype Product = Product(id: string, rating: real, reviews: int, tokens: set<Token>, vector: Vector)

  /** A query: its tokens without the stopwords, and the embedding of all of them. */
  datatype Query = Query(tokens: set<Token>, vector: Vector)

  datatype Hit = Hit(product: Product, score: real, lexical: real, semantic: real)

  // ---- Embeddings ---------------------------------------------------------------------------------------

  /** What component i of the raw embedding adds up to: tokens hashed to i, by sign. */
  ghost function Component(tokens: set<Token>, dimensions: nat, i: nat): real
    requires dimensions > 0
  {
    |set t | t in tokens && t.digest % dimensions == i && !t.negative| as real
    - |set t | t in tokens && t.digest % dimensions == i && t.negative| as real
  }

  lemma ComponentAdd(tokens: set<Token>, t: Token, dimensions: nat, i: nat)
    requires dimensions > 0 && t !in tokens
    ensures Component(tokens + {t}, dimensions, i) ==
            Component(tokens, dimensions, i) + (if t.digest % dimensions != i then 0.0 else if t.negative then -1.0
                else 1.0)
  {
    var all := tokens + {t};
    var plus := set x | x in tokens && x.digest % dimensions == i && !x.negative;
    var minus := set x | x in tokens && x.digest % dimensions == i && x.negative;
    assert (set x | x in all && x.digest % dimensions == i && !x.negative) == if t.digest % dimensions == i
           && !t.negative then plus + {t} else plus;
    assert (set x | x in all && x.digest % dimensions == i && x.negative) == if t.digest % dimensions == i
           && t.negative then minus + {t} else minus;
  }

  /** The accumulation loop; whatever order the set is visited in, the components are the same. */
  method Accumulate(tokens: set<Token>, dimensions: nat) returns (vector: array<real>)
    requires dimensions > 0
    ensures fresh(vector) && vector.Length == dimensions
    ensures forall i: nat :: i < dimensions ==> vector[i] == Component(tokens, dimensions, i)
  {
    vector := new real[dimensions](_ => 0.0);
    var left := tokens;
    ghost var done: set<Token> := {};
    while left != {}
      invariant vector.Length == dimensions && done + left == tokens && done !! left
      invariant forall i: nat :: i < dimensions ==> vector[i] == Component(done, dimensions, i)
      decreases |left|
    {
      var t :| t in left;
      forall i: nat | i < dimensions {
        ComponentAdd(done, t, dimensions, i);
      }
      var index := t.digest % dimensions;
      vector[index] := vector[index] + (if t.negative then -1.0 else 1.0);
      left, done := left - {t}, done + {t};
    }
    assert done == tokens;
  }

  function Dot(a: seq<real>, b: seq<real>): real
    requires |a| == |b|
  {
    if a == [] then 0.0 else Dot(a[..|a| - 1], b[..|b| - 1]) + a[|a| - 1] * b[|b| - 1]
  }

  /** `sqrt(sum of squares) or 1`. */
  ghost predicate IsMagnitude(m: real, v: seq<real>) {
    m > 0.0 && if Dot(v, v) == 0.0 then m == 1.0 else m * m == Dot(v, v)
  }

  function Scaled(v: seq<real>, m: real): seq<real>
    requires m != 0.0
  {
    seq(|v|, i requires 0 <= i < |v| => v[i] / m)
  }

  lemma {:induction false} DotScaled(v: seq<real>, m: real)
    requires m > 0.0
    ensures Dot(Scaled(v, m), Scaled(v, m)) * (m * m) == Dot(v, v)
  {
    if v != [] {
      var n := |v| - 1;
      var front, q := Scaled(v[..n], m), v[n] / m;
      DotScaled(v[..n], m);
      assert Scaled(v, m)[..n] == front && Scaled(v, m)[n] == q;
      assert Dot(Scaled(v, m), Scaled(v, m)) == Dot(front, front) + q * q;
      SquareOfQuotient(v[n], m);
      AddSquares(Dot(front, front), q, m);
    } else {
      assert Scaled(v, m) == [];
    }
  }

  lemma SquareOfQuotient(x: real, m: real)
    requires m > 0.0
    ensures x / m * (x / m) * (m * m) == x * x
  {
    var q := x / m;
    assert q * m == x;
    assert q * q * (m * m) == (q * m) * (q * m);
  }

  lemma AddSquares(a: real, q: real, m: real)
    ensures (a + q * q) * (m * m) == a * (m * m) + q * q * (m * m)
  {
  }

  /** An embedding has length one, or is zero. */
  lemma NormalisedIsUnit(v: seq<real>, m: real)
    requires IsMagnitude(m, v)
    ensures Dot(Scaled(v, m), Scaled(v, m)) == if Dot(v, v) == 0.0 then 0.0 else 1.0
  {
    DotScaled(v, m);
    PositiveProduct(m, m);
    CancelUnit(Dot(Scaled(v, m), Scaled(v, m)), m * m, Dot(v, v));
  }

  lemma CancelUnit(x: real, y: real, d: real)
    requires y > 0.0 && x * y == d
    ensures d == y ==> x == 1.0
    ensures d == 0.0 ==> x == 0.0
  {
    if d == y {
      assert (x - 1.0) * y == 0.0;
    }
  }

  lemma {:induction false} TwiceDotBounded(a: seq<real>, b: seq<real>)
    requires |a| == |b|
    ensures 2.0 * Dot(a, b) <= Dot(a, a) + Dot(b, b)
    ensures -2.0 * Dot(a, b) <= Dot(a, a) + Dot(b, b)
  {
    if a != [] {
      var n := |a| - 1;
      TwiceDotBounded(a[..n], b[..n]);
      SquaresBoundProduct(a[n], b[n]);
    }
  }

  lemma SquaresBoundProduct(x: real, y: real)
    ensures 2.0 * (x * y) <= x * x + y * y && -2.0 * (x * y) <= x * x + y * y
  {
    SquareNonnegative(x - y);
    SquareNonnegative(x + y);
    assert (x - y) * (x - y) == x * x - 2.0 * (x * y) + y * y;
    assert (x + y) * (x + y) == x * x + 2.0 * (x * y) + y * y;
  }

  /** `v` is the normalised embedding of the tokens. */
  ghost predicate Embeds(v: Vector, tokens: set<Token>) {
    exists m :: IsMagnitude(m, Raw(tokens)) && v == Scaled(Raw(tokens), m)
  }

  ghost function Raw(tokens: set<Token>): Vector {
    seq(DIMENSIONS, i requires 0 <= i < DIMENSIONS => Component(tokens, DIMENSIONS, i))
  }

  lemma EmbeddingWithinUnit(v: Vector, tokens: set<Token>)
    requires Embeds(v, tokens)
    ensures Dot(v, v) <= 1.0
  {
    var m :| IsMagnitude(m, Raw(tokens)) && v == Scaled(Raw(tokens), m);
    NormalisedIsUnit(Raw(tokens), m);
  }

  /** Cauchy-Schwarz for embeddings: a cosine lies between -1 and 1. */
  lemma CosineInRange(a: seq<real>, b: seq<real>)
    requires |a| == |b| && Dot(a, a) <= 1.0 && Dot(b, b) <= 1.0
    ensures -1.0 <= Dot(a, b) <= 1.0
  {
    TwiceDotBounded(a, b);
  }

  // ---- Scores -----------------------------------------------------------------------------------------------

  function Lexical(query: set<Token>, product: set<Token>): real {
    |query * product| as real / (if |query| < 1 then 1 else |query|) as real
  }

  function Semantic(query: Vector, product: Vector): real {
    var c := Dot(query, product);
    if c > 0.0 then c else 0.0
  }

  function Combined(q: Query, p: Product): real {
    0.6 * Lexical(q.tokens, p.tokens) + 0.4 * Semantic(q.vector, p.vector)
  }

  /** Every unrounded score lies between 0 and 1, and so does what it is rounded to. */
  lemma ScoreInUnitInterval(q: Query, text: set<Token>, p: Product)
    requires Embeds(q.vector, text) && Embeds(p.vector, p.tokens)
    ensures 0.0 <= Lexical(q.tokens, p.tokens) <= 1.0 && 0.0 <= Semantic(q.vector, p.vector) <= 1.0
    ensures 0.0 <= Combined(q, p) <= 1.0 && 0.0 <= RoundTo(Combined(q, p), MICRO) <= 1.0
  {
    EmbeddingWithinUnit(q.vector, text);
    EmbeddingWithinUnit(p.vector, p.tokens);
    CosineInRange(q.vector, p.vector);
    SubsetCardinality(q.tokens * p.tokens, q.tokens);
    ShareInUnit(|q.tokens * p.tokens|, |q.tokens|);
    RoundToMonotone(0.0, Combined(q, p), MICRO);
    RoundToMonotone(Combined(q, p), 1.0, MICRO);
    RoundToFixes(0, MICRO);
    RoundToFixes(MICRO, MICRO);
  }

  lemma ShareInUnit(part: nat, whole: nat)
    requires part <= whole
    ensures 0.0 <= part as real / (if whole < 1 then 1 else whole) as real <= 1.0
  {
  }

  // ---- Candidates and their order ---------------------------------------------------------------------------

  function Scored(q: Query, p: Product): Option<Hit> {
    if Combined(q, p) > 0.0 then
      Some(Hit(p, RoundTo(Combined(q, p), MICRO), RoundTo(Lexical(q.tokens, p.tokens), MICRO),
               RoundTo(Semantic(q.vector, p.vector), MICRO)))
    else None
  }

  /** The hits of the first n products, in catalog order. */
  function Candidates(q: Query, products: seq<Product>, n: nat): seq<Hit>
    requires n <= |products|
  {
    if n == 0 then []
    else
      var hit := Scored(q, products[n - 1]);
      Candidates(q, products, n - 1) + (if hit.Some? then [hit.value] else [])
  }

  method Collect(q: Query, products: seq<Product>) returns (candidates: seq<Hit>)
    ensures candidates == Candidates(q, products, |products|)
  {
    candidates := [];
    for n := 0 to |products|
      invariant candidates == Candidates(q, products, n)
    {
      var hit := Scored(q, products[n]);
      if hit.Some? {
        candidates := candidates + [hit.value];
      }
    }
  }

  ghost predicate ScoredWithin(q: Query, products: seq<Product>, n: nat, h: Hit)
    requires n <= |products|
  {
    exists i :: 0 <= i < n && Scored(q, products[i]) == Some(h)
  }

  /** The candidates are exactly the products with a positive score. */
  lemma {:induction false} CandidatesAreTheScored(q: Query, products: seq<Product>, n: nat, h: Hit)
    requires n <= |products|
    ensures h in Candidates(q, products, n) <==> ScoredWithin(q, products, n, h)
  {
    if n > 0 {
      CandidatesAreTheScored(q, products, n - 1, h);
      CandidatesStep(q, products, n, h);
      assert ScoredWithin(q, products, n, h) <==> ScoredWithin(q, products, n - 1, h)
                                                  || Scored(q, products[n - 1]) == Some(h);
    }
  }

  lemma CandidatesStep(q: Query, products: seq<Product>, n: nat, h: Hit)
    requires 0 < n <= |products|
    ensures h in Candidates(q, products, n) <==> h in Candidates(q, products, n - 1)
                                                 || Scored(q, products[n - 1]) == Some(h)
  {
    var front, hit := Candidates(q, products, n - 1), Scored(q, products[n - 1]);
    assert Candidates(q, products, n) == front + (if hit.Some? then [hit.value] else []);
  }

  /** A catalog refuses repeated ids. */
  ghost predicate UniqueIds(products: seq<Product>) {
    forall i, j :: 0 <= i < j < |products| ==> products[i].id != products[j].id
  }

  lemma ScoredOnce(q: Query, products: seq<Product>, n: nat, h: Hit)
    requires 0 < n <= |products| && UniqueIds(products) && Scored(q, products[n - 1]) == Some(h)
    ensures !ScoredWithin(q, products, n - 1, h)
  {
    assert h.product == products[n - 1];
    assert forall i :: 0 <= i < n - 1 && Scored(q, products[i]) == Some(h) ==> h.product == products[i];
  }

  lemma DistinctAppend<T>(s: seq<T>, x: T)
    requires Distinct(s) && x !in s
    ensures Distinct(s + [x])
  {
  }

  lemma {:induction false} CandidatesAreDistinct(q: Query, products: seq<Product>, n: nat)
    requires n <= |products| && UniqueIds(products)
    ensures Distinct(Candidates(q, products, n))
  {
    if n > 0 {
      CandidatesAreDistinct(q, products, n - 1);
      var hit := Scored(q, products[n - 1]);
      if hit.Some? {
        ScoredOnce(q, products, n, hit.value);
        CandidatesAreTheScored(q, products, n - 1, hit.value);
        DistinctAppend(Candidates(q, products, n - 1), hit.value);
      }
    }
  }

  /** The sort key's order: score, then rating, then review count. */
  predicate Below(a: Hit, b: Hit) {
    a.score < b.score || (a.score == b.score && (a.product.rating < b.product.rating ||
      (a.product.rating == b.product.rating && a.product.reviews < b.product.reviews)))
  }

  predicate SameKey(a: Hit, b: Hit) {
    !Below(a, b) && !Below(b, a)
  }

  ghost predicate Descending(s: seq<Hit>) {
    forall i, j :: 0 <= i < j < |s| ==> !Below(s[i], s[j])
  }

  /** Insert behind every hit that is not below it. */
  function Insert(s: seq<Hit>, h: Hit): seq<Hit> {
    if s == [] then [h]
    else
      var n := |s| - 1;
      if Below(s[n], h) then Insert(s[..n], h) + [s[n]] else s + [h]
  }

  /** The stable descending sort. */
  function SortHits(s: seq<Hit>): seq<Hit> {
    if s == [] then [] else Insert(SortHits(s[..|s| - 1]), s[|s| - 1])
  }

  /** The hits that tie with `k`, in their order. */
  ghost function Ties(s: seq<Hit>, k: Hit): seq<Hit> {
    if s == [] then [] else Ties(s[..|s| - 1], k) + (if SameKey(s[|s| - 1], k) then [s[|s| - 1]] else [])
  }

  lemma {:induction false} InsertMembers(s: seq<Hit>, h: Hit)
    ensures multiset(Insert(s, h)) == multiset(s) + multiset{h} && |Insert(s, h)| == |s| + 1
  {
    if s != [] {
      var n := |s| - 1;
      assert s == s[..n] + [s[n]];
      if Below(s[n], h) {
        InsertMembers(s[..n], h);
      }
    }
  }

  lemma {:induction false} InsertDescending(s: seq<Hit>, h: Hit)
    requires Descending(s)
    ensures Descending(Insert(s, h))
  {
    if s != [] {
      var n := |s| - 1;
      if Below(s[n], h) {
        InsertDescending(s[..n], h);
        InsertMembers(s[..n], h);
        var front := Insert(s[..n], h);
        forall i | 0 <= i < |front|
          ensures !Below(front[i], s[n])
        {
          assert front[i] in multiset(front);
          assert front[i] == h || front[i] in s[..n];
        }
      }
    }
  }

  lemma {:induction false} InsertTies(s: seq<Hit>, h: Hit, k: Hit)
    ensures Ties(Insert(s, h), k) == Ties(s, k) + (if SameKey(h, k) then [h] else [])
  {
    if s != [] {
      var n := |s| - 1;
      if Below(s[n], h) {
        InsertTies(s[..n], h, k);
        assert Insert(s, h)[..|Insert(s, h)| - 1] == Insert(s[..n], h);
        assert !(SameKey(s[n], k) && SameKey(h, k));
      } else {
        assert (s + [h])[..|s|] == s;
      }
    } else {
      assert [h][..0] == [];
    }
  }

  /** The sort orders the candidates, keeps them all, and leaves ties in their original order. */
  lemma {:induction false} SortIsStable(s: seq<Hit>)
    ensures Descending(SortHits(s)) && multiset(SortHits(s)) == multiset(s)
    ensures forall k :: Ties(SortHits(s), k) == Ties(s, k)
  {
    if s != [] {
      var init, h := s[..|s| - 1], s[|s| - 1];
      SortIsStable(init);
      InsertDescending(SortHits(init), h);
      InsertMembers(SortHits(init), h);
      assert s == init + [h];
      forall k
        ensures Ties(SortHits(s), k) == Ties(s, k)
      {
        InsertTies(SortHits(init), h, k);
      }
    }
  }

  // ---- Diversified selection --------------------------------------------------------------------------------

  /** How close the item comes to the first n selected hits; 0 when there are none. */
  function Penalty(item: Hit, selected: seq<Hit>, n: nat): real
    requires n <= |selected|
  {
    if n == 0 then 0.0
    else
      var last := Dot(item.product.vector, selected[n - 1].product.vector);
      if n == 1 || last > Penalty(item, selected, n - 1) then last else Penalty(item, selected, n - 1)
  }

  function Marginal(item: Hit, selected: seq<Hit>): real {
    item.score - 0.2 * Penalty(item, selected, |selected|)
  }

  /** Candidate b has the highest marginal score, and is the first that has it. */
  predicate IsChoice(candidates: seq<Hit>, selected: seq<Hit>, n: nat, b: nat) {
    && b < n <= |candidates|
    && forall i :: 0 <= i < n ==>
         && Marginal(candidates[i], selected) <= Marginal(candidates[b], selected)
         && (i < b ==> Marginal(candidates[i], selected) < Marginal(candidates[b], selected))
  }

  /** Where the choice among the first n candidates stands. */
  function Choice(candidates: seq<Hit>, selected: seq<Hit>, n: nat): (b: nat)
    requires 0 < n <= |candidates|
    ensures IsChoice(candidates, selected, n, b)
  {
    if n == 1 then 0
    else
      var b := Choice(candidates, selected, n - 1);
      if Marginal(candidates[n - 1], selected) > Marginal(candidates[b], selected) then n - 1 else b
  }

  method Choose(candidates: seq<Hit>, selected: seq<Hit>) returns (choice: Hit)
    requires candidates != []
    ensures exists b: nat :: IsChoice(candidates, selected, |candidates|, b) && choice == candidates[b]
  {
    var b := 0;
    for n := 1 to |candidates|
      invariant IsChoice(candidates, selected, n, b)
    {
      if Marginal(candidates[n], selected) > Marginal(candidates[b], selected) {
        b := n;
      }
    }
    choice := candidates[b];
  }

  /** Remove the first occurrence. */
  function Removed(candidates: seq<Hit>, choice: Hit): seq<Hit> {
    if candidates == [] then []
    else if candidates[0] == choice then candidates[1..]
    else [candidates[0]] + Removed(candidates[1..], choice)
  }

  function Cut(candidates: seq<Hit>, b: nat): (rest: seq<Hit>)
    requires b < |candidates|
    ensures |rest| == |candidates| - 1
  {
    candidates[..b] + candidates[b + 1..]
  }

  lemma {:induction false} RemovedIsCut(candidates: seq<Hit>, b: nat)
    requires b < |candidates| && candidates[b] !in candidates[..b]
    ensures Removed(candidates, candidates[b]) == Cut(candidates, b)
  {
    if b > 0 {
      assert candidates[0] in candidates[..b];
      assert candidates[1..][..b - 1] == candidates[1..b];
      RemovedIsCut(candidates[1..], b - 1);
    }
  }

  lemma CutMembers(candidates: seq<Hit>, b: nat)
    requires b < |candidates|
    ensures multiset(candidates) == multiset(Cut(candidates, b)) + multiset{candidates[b]}
  {
    assert candidates == candidates[..b] + [candidates[b]] + candidates[b + 1..];
  }

  /** The greedy selection, continued from what is selected. */
  function Mmr(candidates: seq<Hit>, selected: seq<Hit>, limit: int): seq<Hit>
    decreases |candidates|
  {
    if candidates == [] || |selected| >= limit then selected
    else
      var b := Choice(candidates, selected, |candidates|);
      Mmr(Cut(candidates, b), selected + [candidates[b]], limit)
  }

  function Searched(q: Query, products: seq<Product>, limit: int): seq<Hit> {
    Mmr(SortHits(Candidates(q, products, |products|)), [], limit)
  }

  method Search(q: Query, products: seq<Product>, limit: int) returns (selected: seq<Hit>)
    ensures selected == Searched(q, products, limit)
  {
    var candidates := Collect(q, products);
    candidates := SortHits(candidates);
    selected := [];
    while candidates != [] && |selected| < limit
      invariant Mmr(candidates, selected, limit) == Searched(q, products, limit)
      decreases |candidates|
    {
      var choice := Choose(candidates, selected);
      ghost var b: nat :| IsChoice(candidates, selected, |candidates|, b) && choice == candidates[b];
      ChoiceIsUnique(candidates, selected, b);
      RemovedIsCut(candidates, b);
      selected := selected + [choice];
      candidates := Removed(candidates, choice);
    }
  }

  lemma ChoiceIsUnique(candidates: seq<Hit>, selected: seq<Hit>, b: nat)
    requires IsChoice(candidates, selected, |candidates|, b)
    ensures b == Choice(candidates, selected, |candidates|) && candidates[b] !in candidates[..b]
  {
    var c := Choice(candidates, selected, |candidates|);
    assert IsChoice(candidates, selected, |candidates|, c);
  }

  // ---- What the selection is worth --------------------------------------------------------------------------

  /** The selection grows: it starts with what was selected, takes the rest from the candidates, and fills the limit. */
  lemma {:induction false} MmrGrows(candidates: seq<Hit>, selected: seq<Hit>, limit: int)
    ensures var r := Mmr(candidates, selected, limit);
      && selected <= r && multiset(r) <= multiset(selected) + multiset(candidates)
      && |r| == if |selected| + |candidates| <= limit then |selected| + |candidates| else if limit < |selected|
         then |selected| else limit
    decreases |candidates|
  {
    if candidates != [] && |selected| < limit {
      var b := Choice(candidates, selected, |candidates|);
      CutMembers(candidates, b);
      MmrGrows(Cut(candidates, b), selected + [candidates[b]], limit);
      assert selected <= selected + [candidates[b]];
    }
  }

  /** Pick k is still there to take, and nothing still there has a higher marginal score. */
  ghost predicate BestOfTheRest(pool: multiset<Hit>, r: seq<Hit>, k: nat)
    requires k < |r|
  {
    var rest := pool - multiset(r[..k]);
    r[k] in rest && forall h :: h in rest ==> Marginal(h, r[..k]) <= Marginal(r[k], r[..k])
  }

  lemma {:induction false} MmrPicksTheBest(candidates: seq<Hit>, selected: seq<Hit>, limit: int, k: nat)
    requires |selected| <= k < |Mmr(candidates, selected, limit)|
    ensures BestOfTheRest(multiset(selected) + multiset(candidates), Mmr(candidates, selected, limit), k)
    decreases |candidates|
  {
    var b := FirstStep(candidates, selected, limit);
    if k == |selected| {
      NextPickIsBest(candidates, selected, b, Mmr(candidates, selected, limit));
    } else {
      var next := selected + [candidates[b]];
      MmrPicksTheBest(Cut(candidates, b), next, limit, k);
      CutMembers(candidates, b);
      assert multiset(next) + multiset(Cut(candidates, b)) == multiset(selected) + multiset(candidates);
    }
  }

  /** What the first step of a selection that picks anything does. */
  lemma FirstStep(candidates: seq<Hit>, selected: seq<Hit>, limit: int) returns (b: nat)
    requires |selected| < |Mmr(candidates, selected, limit)|
    ensures IsChoice(candidates, selected, |candidates|, b)
    ensures Mmr(candidates, selected, limit) == Mmr(Cut(candidates, b), selected + [candidates[b]], limit)
    ensures selected + [candidates[b]] <= Mmr(candidates, selected, limit)
  {
    b := Choice(candidates, selected, |candidates|);
    MmrGrows(Cut(candidates, b), selected + [candidates[b]], limit);
  }

  lemma NextPickIsBest(candidates: seq<Hit>, selected: seq<Hit>, b: nat, r: seq<Hit>)
    requires IsChoice(candidates, selected, |candidates|, b) && selected + [candidates[b]] <= r
    ensures BestOfTheRest(multiset(selected) + multiset(candidates), r, |selected|)
  {
    assert r[..|selected|] == selected;
    assert multiset(selected) + multiset(candidates) - multiset(selected) == multiset(candidates);
    assert candidates[b] in multiset(candidates);
  }

  /** Later picks come from the candidates. */
  lemma {:induction false} PicksAfter(candidates: seq<Hit>, selected: seq<Hit>, limit: int, k: nat)
    requires |selected| <= k < |Mmr(candidates, selected, limit)|
    ensures Mmr(candidates, selected, limit)[k] in candidates
    decreases |candidates|
  {
    var b := FirstStep(candidates, selected, limit);
    if k > |selected| {
      PicksAfter(Cut(candidates, b), selected + [candidates[b]], limit, k);
    }
  }

  ghost predicate Before(candidates: seq<Hit>, x: Hit, y: Hit) {
    exists i, j :: 0 <= i < j < |candidates| && candidates[i] == x && candidates[j] == y
  }

  /** Of equally good candidates the one earlier in the sort is picked. */
  lemma {:induction false} MmrBreaksTiesInOrder(candidates: seq<Hit>, selected: seq<Hit>, limit: int, k: nat, x: Hit,
      y: Hit)
    requires Distinct(candidates) && Before(candidates, x, y)
    requires |selected| <= k < |Mmr(candidates, selected, limit)| && Mmr(candidates, selected, limit)[k] == y
    ensures PickedFirst(x, y, Mmr(candidates, selected, limit), |selected|, k)
    decreases |candidates|
  {
    var r := Mmr(candidates, selected, limit);
    var b := FirstStep(candidates, selected, limit);
    var next := selected + [candidates[b]];
    assert r[|selected|] == next[|selected|] == candidates[b];
    if k == |selected| {
      assert r[..k] == selected;
    } else if x != candidates[b] {
      PicksAfter(Cut(candidates, b), next, limit, k);
      BeforeSurvivesCut(candidates, b, x, y);
      MmrBreaksTiesInOrder(Cut(candidates, b), next, limit, k, x, y);
    }
  }

  /** When `picked` is taken as pick k, `other` is strictly worse unless taken since pick n. */
  ghost predicate PickedFirst(other: Hit, picked: Hit, r: seq<Hit>, n: nat, k: nat)
    requires n <= k < |r|
  {
    (exists p :: n <= p < k && r[p] == other) || Marginal(other, r[..k]) < Marginal(picked, r[..k])
  }

  lemma BeforeSurvivesCut(candidates: seq<Hit>, b: nat, x: Hit, y: Hit)
    requires Distinct(candidates) && b < |candidates| && Before(candidates, x, y) && x != candidates[b]
    ensures Distinct(Cut(candidates, b)) && candidates[b] !in Cut(candidates, b)
    ensures y in Cut(candidates, b) ==> Before(Cut(candidates, b), x, y)
  {
    var i, j :| 0 <= i < j < |candidates| && candidates[i] == x && candidates[j] == y;
    if j != b {
      var i', j' := if i < b then i else i - 1, if j < b then j else j - 1;
      assert Cut(candidates, b)[i'] == x && Cut(candidates, b)[j'] == y;
    }
  }

  /** The limit only says where to stop. */
  lemma {:induction false} MmrPrefix(candidates: seq<Hit>, selected: seq<Hit>, few: int, many: int)
    requires few <= many
    ensures Mmr(candidates, selected, few) <= Mmr(candidates, selected, many)
    decreases |candidates|
  {
    if candidates != [] && |selected| < few {
      var b := Choice(candidates, selected, |candidates|);
      MmrPrefix(Cut(candidates, b), selected + [candidates[b]], few, many);
    } else {
      MmrGrows(candidates, selected, many);
    }
  }

  /**
    * For any limit, negative ones included: as many hits as the limit and the candidates allow, none of them twice,
    * the top of the sort first, and every pick the best of those not yet picked, given those picked before it.
    */
  lemma SearchIsGreedy(q: Query, products: seq<Product>, limit: int)
    requires UniqueIds(products)
    ensures var r, all := Searched(q, products, limit), SortHits(Candidates(q, products, |products|));
      && |r| == (if limit < 0 then 0 else if limit < |all| then limit else |all|)
      && Distinct(r) && (r != [] ==> r[0] == all[0])
      && forall k :: 0 <= k < |r| ==> BestOfTheRest(multiset(all), r, k)
  {
    var all := SortHits(Candidates(q, products, |products|));
    var r := Mmr(all, [], limit);
    MmrGrows(all, [], limit);
    CandidatesAreDistinct(q, products, |products|);
    SortIsStable(Candidates(q, products, |products|));
    DistinctByMembers(Candidates(q, products, |products|), r);
    if r != [] {
      FirstPickIsTheTop(all, limit);
    }
    forall k | 0 <= k < |r|
      ensures BestOfTheRest(multiset(all), r, k)
    {
      MmrPicksTheBest(all, [], limit, k);
      assert multiset([]) + multiset(all) == multiset(all);
    }
  }

  lemma FirstPickIsTheTop(all: seq<Hit>, limit: int)
    requires Descending(all) && all != [] && limit > 0
    ensures [all[0]] <= Mmr(all, [], limit)
  {
    var b := Choice(all, [], |all|);
    assert b > 0 ==> Below(all[0], all[b]);
    MmrGrows(Cut(all, 0), [all[0]], limit);
    assert [] + [all[0]] == [all[0]];
  }

  /** Among equally good candidates the pick is the one earlier in the sort. */
  lemma SearchBreaksTiesInOrder(q: Query, products: seq<Product>, limit: int, k: nat, x: Hit)
    requires UniqueIds(products) && k < |Searched(q, products, limit)|
    requires Before(SortHits(Candidates(q, products, |products|)), x, Searched(q, products, limit)[k])
    ensures PickedFirst(x, Searched(q, products, limit)[k], Searched(q, products, limit), 0, k)
  {
    var found := Candidates(q, products, |products|);
    CandidatesAreDistinct(q, products, |products|);
    SortIsStable(found);
    DistinctByMembers(found, SortHits(found));
    MmrBreaksTiesInOrder(SortHits(found), [], limit, k, x, Searched(q, products, limit)[k]);
  }

  /** A smaller limit asks for a prefix of the answer to a larger one. */
  lemma SearchPrefix(q: Query, products: seq<Product>, few: int, many: int)
    requires few <= many
    ensures Searched(q, products, few) <= Searched(q, products, many)
  {
    MmrPrefix(SortHits(Candidates(q, products, |products|)), [], few, many);
  }

  lemma DistinctByMembers<T>(a: seq<T>, b: seq<T>)
    requires Distinct(a) && multiset(b) <= multiset(a)
    ensures Distinct(b)
  {
    forall i, j | 0 <= i < j < |b|
      ensures b[i] != b[j]
    {
      if b[i] == b[j] {
        assert b == b[..i] + [b[i]] + b[i + 1..j] + [b[j]] + b[j + 1..];
        assert multiset(b)[b[i]] >= 2;
        AtMostOnce(a, b[i]);
      }
    }
  }

  lemma {:induction false} AtMostOnce<T>(a: seq<T>, x: T)
    requires Distinct(a)
    ensures multiset(a)[x] <= 1
  {
    if a != [] {
      var n := |a| - 1;
      assert a == a[..n] + [a[n]];
      AtMostOnce(a[..n], x);
      assert x in multiset(a[..n]) ==> x in a[..n];
    }
  }
}
