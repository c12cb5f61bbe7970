/** Cosine scoring in exact arithmetic, and the search that filters, ranks and cuts by it. */
module VectorSearch {
  import opened Common
  import opened GraphModel
  import opened VectorStore

  type Vector = seq<real>

  function Dot(a: Vector, b: Vector): real
    requires |a| == |b|
  {
    if a == [] then 0.0 else Dot(a[..|a| - 1], b[..|b| - 1]) + a[|a| - 1] * b[|b| - 1]
  }

  lemma DotSnoc(a: Vector, b: Vector, i: nat)
    requires i < |a| == |b|
    ensures Dot(a[..i + 1], b[..i + 1]) == Dot(a[..i], b[..i]) + a[i] * b[i]
  {
    assert a[..i + 1][..i] == a[..i] && b[..i + 1][..i] == b[..i];
  }

  lemma SquareIsNonNegative(x: real)
    ensures x * x >= 0.0
  {}

  lemma {:induction false} DotSelfIsNonNegative(a: Vector)
    ensures Dot(a, a) >= 0.0
  {
    if a != [] {
      DotSelfIsNonNegative(a[..|a| - 1]);
      SquareIsNonNegative(a[|a| - 1]);
    }
  }

  lemma SquaresStrictly(x: real, y: real)
    requires 0.0 <= x < y
    ensures x * x < y * y
  {
    ScaleStrictly(0.0, y - x, y + x);
    assert (y - x) * (y + x) == y * y - x * x;
  }

  lemma SquaresOrder(x: real, bound: real)
    requires bound >= 0.0 && x * x <= bound * bound
    ensures -bound <= x <= bound
  {
    if x > bound {
      SquaresStrictly(bound, x);
    } else if x < -bound {
      SquaresStrictly(bound, -x);
    }
  }

  /** The mixed term of one more coordinate is within the arithmetic mean of the others. */
  lemma MixedTerm(d: real, l: real, r: real, a: real, b: real)
    requires l >= 0.0 && r >= 0.0 && d * d <= l * r
    ensures 2.0 * d * a * b <= l * (b * b) + r * (a * a)
  {
    var u, v, m := l * (b * b), r * (a * a), d * (a * b);
    SquareIsNonNegative(a);
    SquareIsNonNegative(b);
    SquareIsNonNegative(a * b);
    SquareIsNonNegative(u - v);
    ProductsOfNonNegative(l, b * b);
    ProductsOfNonNegative(r, a * a);
    assert m * m == (d * d) * ((a * b) * (a * b));
    assert u * v == (l * r) * ((a * b) * (a * b));
    ScaleOrder(d * d, l * r, (a * b) * (a * b));
    assert (2.0 * m) * (2.0 * m) == 4.0 * (m * m);
    assert (u + v) * (u + v) == (u - v) * (u - v) + 4.0 * (u * v);
    SquaresOrder(2.0 * m, u + v);
    assert 2.0 * d * a * b == 2.0 * m;
  }

  lemma ProductsOfNonNegative(x: real, y: real)
    requires x >= 0.0 && y >= 0.0
    ensures x * y >= 0.0
  {}

  lemma ScaleOrder(x: real, y: real, k: real)
    requires x <= y && k >= 0.0
    ensures x * k <= y * k
  {
    ProductsOfNonNegative(y - x, k);
  }

  /** The squared dot product is at most the product of the squared magnitudes. */
  lemma {:induction false} CauchySchwarz(a: Vector, b: Vector)
    requires |a| == |b|
    ensures Dot(a, b) * Dot(a, b) <= Dot(a, a) * Dot(b, b)
  {
    if a != [] {
      var a0, b0, x, y := a[..|a| - 1], b[..|b| - 1], a[|a| - 1], b[|b| - 1];
      var d, l, r := Dot(a0, b0), Dot(a0, a0), Dot(b0, b0);
      CauchySchwarz(a0, b0);
      DotSelfIsNonNegative(a0);
      DotSelfIsNonNegative(b0);
      MixedTerm(d, l, r, x, y);
      assert (d + x * y) * (d + x * y) == d * d + 2.0 * d * x * y + (x * x) * (y * y);
      assert (l + x * x) * (r + y * y) == l * r + l * (y * y) + r * (x * x) + (x * x) * (y * y);
    }
  }

  /** `Math.sqrt` on non-negative numbers, without rounding. */
  ghost predicate IsSquareRoot(sqrt: real -> real) {
    forall x :: x >= 0.0 ==> sqrt(x) >= 0.0 && sqrt(x) * sqrt(x) == x
  }

  /** The product of the squared magnitudes. */
  function Magnitudes(a: Vector, b: Vector): real {
    Dot(a, a) * Dot(b, b)
  }

  function Cosine(sqrt: real -> real, a: Vector, b: Vector): real
    requires |a| == |b|
  {
    if Dot(a, a) == 0.0 || Dot(b, b) == 0.0 || sqrt(Magnitudes(a, b)) == 0.0 then 0.0
    else Dot(a, b) / sqrt(Magnitudes(a, b))
  }

  lemma PositiveProduct(x: real, y: real)
    requires x > 0.0 && y > 0.0
    ensures x * y > 0.0
  {}

  lemma PositiveRoot(sqrt: real -> real, m: real)
    requires IsSquareRoot(sqrt) && m > 0.0
    ensures sqrt(m) > 0.0 && sqrt(m) * sqrt(m) == m
  {
    assert sqrt(m) * sqrt(m) == m;
  }

  /** With exact roots the divisor is zero only for a zero vector. */
  lemma RootOfMagnitudes(sqrt: real -> real, a: Vector, b: Vector)
    requires IsSquareRoot(sqrt) && Dot(a, a) != 0.0 && Dot(b, b) != 0.0
    ensures Magnitudes(a, b) > 0.0 && sqrt(Magnitudes(a, b)) > 0.0
    ensures sqrt(Magnitudes(a, b)) * sqrt(Magnitudes(a, b)) == Magnitudes(a, b)
  {
    DotSelfIsNonNegative(a);
    DotSelfIsNonNegative(b);
    PositiveProduct(Dot(a, a), Dot(b, b));
    PositiveRoot(sqrt, Magnitudes(a, b));
  }

  lemma QuotientBound(x: real, d: real)
    requires d > 0.0 && -d <= x <= d
    ensures -1.0 <= x / d <= 1.0
  {
    var q := x / d;
    assert q * d == x;
    if q > 1.0 { ScaleStrictly(1.0, q, d); }
    if q < -1.0 { ScaleStrictly(q, -1.0, d); }
  }

  lemma ScaleStrictly(x: real, y: real, k: real)
    requires x < y && k > 0.0
    ensures x * k < y * k
  {}

  /** Every score lies in [-1, 1]. */
  lemma ScoreBounds(sqrt: real -> real, a: Vector, b: Vector)
    requires |a| == |b| && IsSquareRoot(sqrt)
    ensures -1.0 <= Cosine(sqrt, a, b) <= 1.0
  {
    if Dot(a, a) != 0.0 && Dot(b, b) != 0.0 {
      RootOfMagnitudes(sqrt, a, b);
      CauchySchwarz(a, b);
      SquaresOrder(Dot(a, b), sqrt(Magnitudes(a, b)));
      QuotientBound(Dot(a, b), sqrt(Magnitudes(a, b)));
    }
  }

  lemma QuotientOfItself(d: real)
    requires d > 0.0
    ensures d / d == 1.0
  {
    var q := d / d;
    assert q * d == d;
    if q > 1.0 { ScaleStrictly(1.0, q, d); }
    if q < 1.0 { ScaleStrictly(q, 1.0, d); }
  }

  lemma SquaresEqual(x: real, y: real)
    requires x >= 0.0 && y >= 0.0 && x * x == y * y
    ensures x == y
  {
    SquaresOrder(x, y);
    SquaresOrder(y, x);
  }

  /** A document whose embedding is the query's own reaches the top score. */
  lemma OwnScoreIsTop(sqrt: real -> real, a: Vector)
    requires IsSquareRoot(sqrt) && Dot(a, a) != 0.0
    ensures Cosine(sqrt, a, a) == 1.0
  {
    RootOfMagnitudes(sqrt, a, a);
    DotSelfIsNonNegative(a);
    var root, own := sqrt(Magnitudes(a, a)), Dot(a, a);
    SquaresEqual(root, own);
    QuotientOfItself(own);
  }

  // ---------- search ----------

  datatype Document = Document(
    id: Id, tenant: Tenant, resourceType: string, permission: Option<string>, embedding: Vector)

  datatype Query = Query(
    tenant: Tenant, embedding: Vector, limit: Option<int>, minScore: Option<real>, resourceTypes: seq<string>,
    allowed: seq<string>, includePublic: Option<bool>, bypass: bool)

  datatype SearchError = EmptyEmbedding | DimensionMismatch

  datatype Hit = Hit(document: Document, score: real)

  predicate Permitted(q: Query, d: Document) {
    || q.bypass
    || (if d.permission.None? then q.includePublic != Some(false) else d.permission.value in q.allowed)
  }

  predicate IsCandidate(q: Query, d: Document) {
    d.tenant == q.tenant && (q.resourceTypes == [] || d.resourceType in q.resourceTypes) && Permitted(q, d)
  }

  function MinScore(q: Query): real {
    if q.minScore.Some? then q.minScore.value else -1.0
  }

  function Limit(q: Query): nat {
    var limit := if q.limit.Some? then q.limit.value else 10;
    if limit < 1 then 1 else limit
  }

  type Documents = map<(Tenant, Id), Document>

  ghost predicate Keyed(documents: Documents) {
    forall key :: key in documents ==> documents[key].tenant == key.0 && documents[key].id == key.1
  }

  predicate Fits(q: Query, d: Document) {
    |d.embedding| == |q.embedding|
  }

  /** A candidate of another dimension than the query. */
  predicate IsMisfit(q: Query, d: Document) {
    IsCandidate(q, d) && !Fits(q, d)
  }

  predicate Before(a: Hit, b: Hit) {
    a.score > b.score || (a.score == b.score && a.document.id < b.document.id)
  }

  ghost predicate Ranked(hits: seq<Hit>) {
    forall i, j :: 0 <= i < j < |hits| ==> Before(hits[i], hits[j])
  }

  /** The stored documents a query is about and that score high enough, with their scores. */
  ghost predicate Qualifies(sqrt: real -> real, documents: Documents, q: Query, h: Hit) {
    && (h.document.tenant, h.document.id) in documents && documents[(h.document.tenant, h.document.id)] == h.document
    && IsCandidate(q, h.document) && Fits(q, h.document)
    && h.score == Cosine(sqrt, q.embedding, h.document.embedding)
    && h.score >= MinScore(q)
  }

  /** The hits are the best `limit` qualifying documents, best first. */
  ghost predicate TopHits(sqrt: real -> real, documents: Documents, q: Query, hits: seq<Hit>) {
    && Ranked(hits) && |hits| <= Limit(q)
    && (forall h :: h in hits ==> Qualifies(sqrt, documents, q, h))
    && (forall h :: Qualifies(sqrt, documents, q, h) && h !in hits ==>
          |hits| == Limit(q) && forall k :: k in hits ==> Before(k, h))
  }

  /** Who may be shown to the query: public documents unless they are shut out, others by their permission hash. */
  predicate MayBeShown(q: Query, d: Document) {
    && d.tenant == q.tenant
    && (|q.resourceTypes| > 0 ==> d.resourceType in q.resourceTypes)
    && (!q.bypass && d.permission.Some? ==> d.permission.value in q.allowed)
    && (!q.bypass && d.permission.None? ==> q.includePublic.None? || q.includePublic.value)
  }

  /** How many hits are wanted: ten, or at least one. */
  predicate IsQuota(q: Query, n: nat) {
    match q.limit
    case None => n == 10
    case Some(limit) => if limit >= 1 then n == limit else n == 1
  }

  /** Every hit may be shown; better scores come first and equal ones by id; and whatever is not among them although it
      may be shown scores too low for the query, or no better than any of a full list of hits. */
  lemma HitsAreTheBest(sqrt: real -> real, documents: Documents, q: Query, hits: seq<Hit>, quota: nat)
    requires TopHits(sqrt, documents, q, hits) && Keyed(documents) && IsQuota(q, quota)
    ensures |hits| <= quota
    ensures forall h :: h in hits ==>
              MayBeShown(q, h.document) && (q.minScore.Some? ==> h.score >= q.minScore.value)
              && (h.document.tenant, h.document.id) in documents
    ensures forall i, j :: 0 <= i < j < |hits| ==>
              hits[i].score > hits[j].score
              || (hits[i].score == hits[j].score && hits[i].document.id < hits[j].document.id)
    ensures forall key :: key in documents && MayBeShown(q, documents[key]) && Fits(q, documents[key]) ==>
              var d := documents[key]; var score := Cosine(sqrt, q.embedding, d.embedding);
              || Hit(d, score) in hits
              || (if q.minScore.Some? then score < q.minScore.value else score < -1.0)
              || (|hits| == quota && forall k :: k in hits ==> k.score >= score)
  {
    forall key | key in documents && MayBeShown(q, documents[key]) && Fits(q, documents[key])
      ensures var d := documents[key]; var score := Cosine(sqrt, q.embedding, d.embedding);
              || Hit(d, score) in hits
              || (if q.minScore.Some? then score < q.minScore.value else score < -1.0)
              || (|hits| == quota && forall k :: k in hits ==> k.score >= score)
    {
      var h := Hit(documents[key], Cosine(sqrt, q.embedding, documents[key].embedding));
      if h.score >= MinScore(q) {
        assert Qualifies(sqrt, documents, q, h);
      }
    }
  }

  function Insert(hits: seq<Hit>, h: Hit): (r: seq<Hit>)
    ensures forall x :: x in r <==> x in hits || x == h
  {
    if hits == [] then [h]
    else if Before(h, hits[0]) then [h] + hits
    else [hits[0]] + Insert(hits[1..], h)
  }

  lemma {:induction false} InsertKeepsRank(hits: seq<Hit>, h: Hit)
    requires Ranked(hits) && forall x :: x in hits ==> x.document.id != h.document.id
    ensures Ranked(Insert(hits, h))
  {
    if hits != [] && !Before(h, hits[0]) {
      var rest := Insert(hits[1..], h);
      InsertKeepsRank(hits[1..], h);
      forall i | 0 <= i < |rest| ensures Before(hits[0], rest[i]) {
        assert rest[i] in rest;
        assert rest[i] in hits[1..] || rest[i] == h;
      }
    }
  }

  /** What the sums of the scoring loop come to. */
  lemma CosineOfSums(sqrt: real -> real, a: Vector, b: Vector, left: real, right: real)
    requires |a| == |b| && IsSquareRoot(sqrt) && left == Dot(a, a) && right == Dot(b, b)
    ensures left == 0.0 || right == 0.0 ==> Cosine(sqrt, a, b) == 0.0
    ensures left != 0.0 && right != 0.0 ==>
              sqrt(left * right) != 0.0 && Dot(a, b) / sqrt(left * right) == Cosine(sqrt, a, b)
  {
    assert left * right == Magnitudes(a, b);
    if left != 0.0 && right != 0.0 { RootOfMagnitudes(sqrt, a, b); }
  }

  method CosineSimilarity(sqrt: real -> real, left: Vector, right: Vector) returns (r: Result<real, SearchError>)
    requires IsSquareRoot(sqrt)
    ensures |left| != |right| ==> r == Err(DimensionMismatch)
    ensures |left| == |right| ==> r == Ok(Cosine(sqrt, left, right)) && -1.0 <= r.value <= 1.0
  {
    if |left| != |right| {
      return Err(DimensionMismatch);
    }
    var dot, leftMagnitude, rightMagnitude := 0.0, 0.0, 0.0;
    var i := 0;
    while i < |left|
      invariant 0 <= i <= |left|
      invariant dot == Dot(left[..i], right[..i])
      invariant leftMagnitude == Dot(left[..i], left[..i]) && rightMagnitude == Dot(right[..i], right[..i])
    {
      DotSnoc(left, right, i);
      DotSnoc(left, left, i);
      DotSnoc(right, right, i);
      dot := dot + left[i] * right[i];
      leftMagnitude := leftMagnitude + left[i] * left[i];
      rightMagnitude := rightMagnitude + right[i] * right[i];
      i := i + 1;
    }
    TakeAll(left);
    TakeAll(right);
    ScoreBounds(sqrt, left, right);
    CosineOfSums(sqrt, left, right, leftMagnitude, rightMagnitude);
    if leftMagnitude == 0.0 || rightMagnitude == 0.0 {
      return Ok(0.0);
    }
    return Ok(dot / sqrt(leftMagnitude * rightMagnitude));
  }

  /** The best documents for a query; fails on an empty query embedding or on a candidate of another dimension. */
  method Search(store: InMemoryVectorSearchStore<Id, Document>, sqrt: real -> real, q: Query)
      returns (r: Result<seq<Hit>, SearchError>)
    requires IsSquareRoot(sqrt) && Keyed(store.documents)
    ensures r == Err(EmptyEmbedding) <==> q.embedding == []
    ensures q.embedding != [] ==>
              (r == Err(DimensionMismatch) <==>
                 exists key :: key in store.documents && IsMisfit(q, store.documents[key]))
    ensures r.Ok? ==> TopHits(sqrt, store.documents, q, r.value)
  {
    if q.embedding == [] {
      return Err(EmptyEmbedding);
    }
    var order := Enumerate(store.documents.Keys);
    var hits: seq<Hit> := [];
    var i := 0;
    while i < |order|
      invariant 0 <= i <= |order|
      invariant Ranked(hits)
      invariant forall key :: key in order[..i] && IsCandidate(q, store.documents[key]) ==>
                Fits(q, store.documents[key])
      invariant forall h ::
                  h in hits <==>
                    Qualifies(sqrt, store.documents, q, h) && (h.document.tenant, h.document.id) in order[..i]
    {
      var key := order[i];
      assert key in order && key !in order[..i];
      TakeOneMore(order, i);
      var d := store.documents[key];
      if IsCandidate(q, d) {
        var score := CosineSimilarity(sqrt, q.embedding, d.embedding);
        if score.Err? {
          return Err(DimensionMismatch);
        }
        if score.value >= MinScore(q) {
          var h := Hit(d, score.value);
          InsertKeepsRank(hits, h);
          hits := Insert(hits, h);
        }
      }
      i := i + 1;
    }
    TakeAll(order);
    r := Ok(if |hits| <= Limit(q) then hits else hits[..Limit(q)]);
  }

  /** Without a minimum score no candidate is dropped for its score, so any query with room returns them all. */
  lemma DefaultMinScoreDropsNone(sqrt: real -> real, documents: Documents, q: Query, hits: seq<Hit>, d: Document)
    requires IsSquareRoot(sqrt) && q.minScore == None && TopHits(sqrt, documents, q, hits) && |hits| < Limit(q)
    requires (d.tenant, d.id) in documents && documents[(d.tenant, d.id)] == d && IsCandidate(q, d) && Fits(q, d)
    ensures Hit(d, Cosine(sqrt, q.embedding, d.embedding)) in hits
  {
    ScoreBounds(sqrt, q.embedding, d.embedding);
    assert Qualifies(sqrt, documents, q, Hit(d, Cosine(sqrt, q.embedding, d.embedding)));
  }
}
