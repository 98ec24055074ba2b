/** The related-case ranking engine of backend/ai/similarity.js: the embedding
    cache, the guard structure of cosine similarity, and the
    find / filter / score / stable sort / top-K pipeline. */
module Similarity {
  import opened Common
  import opened Text

  /** An embedding vector; its float components are modelled as reals. */
  type Vector = seq<real>

  /** The embedding model: given a text, a vector (an opaque oracle). */
  type Model = string -> Vector

  /** A JavaScript number produced by the similarity computation. */
  datatype Score = NaN | Num(value: real)

  /** The floating-point quotient `dot / (magA * magB)` for two equal-length
      vectors of non-zero magnitude, left abstract. */
  type Quotient = (Vector, Vector) -> Score

  /** A case record as the ranking reads it; `otherFields` stands for the
      fields it carries along without reading them. */
  datatype Case = Case(
    caseNumber: string,
    shortDescription: string,
    longDescription: string,
    otherFields: map<string, string>)

  /** `{ ...c, similarity: sim, relevance }` */
  datatype Scored = Scored(record: Case, similarity: Score, relevance: int)

  /** `{ mainCase, related }`; `None` stands for `null`. */
  datatype Ranking = Ranking(mainCase: Option<Case>, related: seq<Scored>)

  /** The error thrown when the model handle has not been set. */
  datatype Error = NotInitialized

  /** The `topK` of `getRelatedCasesByCaseNumber` when the caller passes none. */
  const DefaultTopK := 5

  /** The text that is embedded for a case: short and long description. */
  function CaseText(c: Case): (r: string)
    ensures |r| == |c.shortDescription| + 1 + |c.longDescription|
  {
    c.shortDescription + " " + c.longDescription
  }

  /** When the short descriptions hold no space, the embedded text gives
      back both descriptions: different descriptions give different texts. */
  lemma CaseTextSplits(a: Case, b: Case)
    requires ' ' !in a.shortDescription && ' ' !in b.shortDescription
    requires CaseText(a) == CaseText(b)
    ensures a.shortDescription == b.shortDescription && a.longDescription == b.longDescription
  {
    var t, i, j := CaseText(a), |a.shortDescription|, |b.shortDescription|;
    assert t[i] == ' ' && t[j] == ' ';
    assert i == j by {
      if i < j {
        assert false;
      } else if j < i {
        assert false;
      }
    }
    assert a.shortDescription == t[..i] == b.shortDescription;
    assert a.longDescription == t[i + 1..] == b.longDescription;
  }

  // ---------------------------------------------------------------------------
  // Cosine similarity: only its guards are modelled.

  /** The sum of squared components, whose square root is the magnitude. */
  function SumSquares(v: Vector): real {
    if v == [] then 0.0 else v[0] * v[0] + SumSquares(v[1..])
  }

  predicate IsZero(v: Vector) {
    forall i :: 0 <= i < |v| ==> v[i] == 0.0
  }

  /** The zero vector, the empty one included, has magnitude zero. */
  lemma {:induction false} ZeroVectorHasNoMagnitude(v: Vector)
    requires IsZero(v)
    ensures SumSquares(v) == 0.0
  {
    if v != [] {
      assert IsZero(v[1..]) by {
        forall i | 0 <= i < |v[1..]| ensures v[1..][i] == 0.0 {
          assert v[1..][i] == v[i + 1];
        }
      }
      ZeroVectorHasNoMagnitude(v[1..]);
      assert v[0] == 0.0;
    }
  }

  /** `cosineSimilarity(a, b)`; `None` stands for a missing argument. */
  function Cosine(a: Option<Vector>, b: Option<Vector>, quotient: Quotient): (r: Score)
    ensures r == Num(0.0) || (a.Some? && b.Some? && r == quotient(a.value, b.value))
  {
    if a.None? || b.None? || |a.value| != |b.value| then Num(0.0)
    else if SumSquares(a.value) == 0.0 || SumSquares(b.value) == 0.0 then Num(0.0)
    else quotient(a.value, b.value)
  }

  /** The score is 0 for a missing argument, a length mismatch or a zero
      vector; only two equal-length vectors of non-zero magnitude reach the
      quotient. */
  lemma CosineGuards(a: Option<Vector>, b: Option<Vector>, quotient: Quotient)
    ensures a.None? || b.None? ==> Cosine(a, b, quotient) == Num(0.0)
    ensures a.Some? && b.Some? && |a.value| != |b.value| ==> Cosine(a, b, quotient) == Num(0.0)
    ensures a.Some? && b.Some? && (IsZero(a.value) || IsZero(b.value)) ==> Cosine(a, b, quotient) == Num(0.0)
    ensures Cosine(a, b, quotient) != Num(0.0) ==>
      && a.Some? && b.Some? && |a.value| == |b.value|
      && !IsZero(a.value) && !IsZero(b.value)
      && Cosine(a, b, quotient) == quotient(a.value, b.value)
  {
    if a.Some? && b.Some? {
      if IsZero(a.value) { ZeroVectorHasNoMagnitude(a.value); }
      if IsZero(b.value) { ZeroVectorHasNoMagnitude(b.value); }
    }
  }

  /** `isNaN(sim) ? 0 : Math.round(sim * 100)`; `Math.round` rounds halves up. */
  function Relevance(sim: Score): (r: int)
    ensures sim.NaN? ==> r == 0
    ensures sim.Num? ==> r as real <= sim.value * 100.0 + 0.5 < r as real + 1.0
  {
    match sim
    case NaN => 0
    case Num(v) => (v * 100.0 + 0.5).Floor
  }

  /** A higher similarity never gets a lower relevance. */
  lemma RelevanceMonotone(a: real, b: real)
    requires a <= b
    ensures Relevance(Num(a)) <= Relevance(Num(b))
  {
  }

  /** A cosine in [-1, 1] gives a relevance in [-100, 100]: negative
      percentages are not clamped away. */
  lemma RelevanceRange(v: real)
    requires -1.0 <= v <= 1.0
    ensures -100 <= Relevance(Num(v)) <= 100
    ensures v < -0.005 ==> Relevance(Num(v)) < 0
  {
  }

  // ---------------------------------------------------------------------------
  // The pipeline: find, exclude, score, sort, slice.

  predicate SameCaseNumber(a: string, b: string) {
    Lower(a) == Lower(b)
  }

  /** `cases.find(c => c.caseNumber.toLowerCase() === caseNumber.toLowerCase())` */
  function FindCase(cases: seq<Case>, caseNumber: string): (r: Option<Case>)
    ensures r.None? <==> forall c :: c in cases ==> !SameCaseNumber(c.caseNumber, caseNumber)
    ensures r.Some? ==> exists i :: 0 <= i < |cases| && cases[i] == r.value
                          && SameCaseNumber(r.value.caseNumber, caseNumber)
                          && forall j :: 0 <= j < i ==> !SameCaseNumber(cases[j].caseNumber, caseNumber)
  {
    match FirstWhere(cases, (c: Case) => SameCaseNumber(c.caseNumber, caseNumber))
    case None => None
    case Some(i) => Some(cases[i])
  }

  /** `cases.filter(c => c.caseNumber !== excluded)`: exact comparison. */
  function Others(cases: seq<Case>, excluded: string): (r: seq<Case>)
    ensures |r| <= |cases|
    ensures forall c :: c in r <==> c in cases && c.caseNumber != excluded
  {
    assert cases != [] ==> cases == [cases[0]] + cases[1..];
    if cases == [] then []
    else (if cases[0].caseNumber != excluded then [cases[0]] else []) + Others(cases[1..], excluded)
  }

  /** The filter keeps every copy of a case with another number and no copy
      of a case with the excluded one. */
  lemma {:induction false} OthersCount(cases: seq<Case>, excluded: string)
    ensures forall c ::
      multiset(Others(cases, excluded))[c] == if c.caseNumber != excluded then multiset(cases)[c] else 0
  {
    if cases != [] {
      OthersCount(cases[1..], excluded);
      assert cases == [cases[0]] + cases[1..];
    }
  }

  /** Filtering a concatenation filters each part: the candidates keep
      their corpus order. */
  lemma {:induction false} OthersAppend(a: seq<Case>, b: seq<Case>, excluded: string)
    ensures Others(a + b, excluded) == Others(a, excluded) + Others(b, excluded)
  {
    if a == [] {
      assert a + b == b;
    } else {
      assert (a + b)[1..] == a[1..] + b;
      OthersAppend(a[1..], b, excluded);
    }
  }

  /** Every case of `cs` has its text's key in the cache. */
  predicate Embedded(cs: seq<Case>, cache: map<string, Vector>) {
    forall c :: c in cs ==> Key(CaseText(c)) in cache
  }

  /** The scored entry built for candidate `c` whose vector is `vec`. */
  function ScoreCase(c: Case, mainVec: Vector, vec: Vector, quotient: Quotient): Scored {
    var sim := Cosine(Some(mainVec), Some(vec), quotient);
    Scored(c, sim, Relevance(sim))
  }

  /** The candidates scored in input order, each with its cached vector. */
  function ScoreAll(cs: seq<Case>, mainVec: Vector, cache: map<string, Vector>, quotient: Quotient): (r: seq<Scored>)
    requires Embedded(cs, cache)
    ensures |r| == |cs|
    ensures forall i :: 0 <= i < |cs| ==>
      && r[i].record == cs[i]
      && r[i].similarity == Cosine(Some(mainVec), Some(cache[Key(CaseText(cs[i]))]), quotient)
      && r[i].relevance == Relevance(r[i].similarity)
  {
    seq(|cs|, i requires 0 <= i < |cs| => ScoreCase(cs[i], mainVec, cache[Key(CaseText(cs[i]))], quotient))
  }

  /** `x` sorts strictly before `y` under `(a, b) => b.similarity - a.similarity`. */
  predicate Above(x: Scored, y: Scored): (r: bool)
    ensures r <==> x.similarity.Num? && y.similarity.Num? && y.similarity.value - x.similarity.value < 0.0
  {
    x.similarity.Num? && y.similarity.Num? && x.similarity.value > y.similarity.value
  }

  /** The comparator is consistent: `Above` is a strict order. */
  lemma AboveStrictOrder(x: Scored, y: Scored, z: Scored)
    ensures !Above(x, x)
    ensures Above(x, y) ==> !Above(y, x)
    ensures Above(x, y) && Above(y, z) ==> Above(x, z)
  {
  }

  /** No entry has a strictly higher similarity than an entry before it. */
  predicate NonIncreasing(s: seq<Scored>) {
    forall i, j :: 0 <= i < j < |s| ==> !Above(s[j], s[i])
  }

  /** Inserts `x` after every entry it does not beat. */
  function Insert(x: Scored, s: seq<Scored>): (r: seq<Scored>)
    ensures multiset(r) == multiset(s) + multiset{x}
  {
    if s == [] then [x]
    else if Above(x, s[0]) then [x] + s
    else
      assert s == [s[0]] + s[1..];
      [s[0]] + Insert(x, s[1..])
  }

  /** The stable descending sort `scored.sort((a, b) => b.similarity - a.similarity)`. */
  function SortBySimilarity(s: seq<Scored>): (r: seq<Scored>)
    ensures multiset(r) == multiset(s)
  {
    if s == [] then []
    else
      assert s == s[..|s| - 1] + [s[|s| - 1]];
      Insert(s[|s| - 1], SortBySimilarity(s[..|s| - 1]))
  }

  /** The entries of `s` whose similarity is `k`, in order. */
  function WithSimilarity(s: seq<Scored>, k: Score): seq<Scored> {
    if s == [] then []
    else (if s[0].similarity == k then [s[0]] else []) + WithSimilarity(s[1..], k)
  }

  /** The end index `slice(0, end)` uses on a sequence of length `n`. */
  function SliceEnd(n: nat, end: int): (r: nat)
    ensures r <= n
    ensures 0 <= end ==> r == Min(end, n)
    ensures end < 0 ==> r == Max(0, n + end)
  {
    if end < 0 then (if n + end < 0 then 0 else n + end)
    else if end < n then end
    else n
  }

  /** `s.slice(0, end)` */
  function Take(s: seq<Scored>, end: int): (r: seq<Scored>)
    ensures r <= s && |r| == SliceEnd(|s|, end)
  {
    s[..SliceEnd(|s|, end)]
  }

  /** What the ranking needs from the cache: the target's vector and every
      candidate's. */
  predicate Prepared(caseNumber: string, cases: seq<Case>, cache: map<string, Vector>) {
    match FindCase(cases, caseNumber)
    case None => true
    case Some(m) => Key(CaseText(m)) in cache && Embedded(Others(cases, m.caseNumber), cache)
  }

  /** The candidates of the target `m`, scored against its vector. */
  function Candidates(m: Case, cases: seq<Case>, cache: map<string, Vector>, quotient: Quotient): seq<Scored>
    requires Key(CaseText(m)) in cache && Embedded(Others(cases, m.caseNumber), cache)
  {
    ScoreAll(Others(cases, m.caseNumber), cache[Key(CaseText(m))], cache, quotient)
  }

  /** The value `getRelatedCasesByCaseNumber` returns once every vector it
      needs is in `cache`. */
  function Rank(caseNumber: string, cases: seq<Case>, topK: int,
                cache: map<string, Vector>, quotient: Quotient): (r: Ranking)
    requires Prepared(caseNumber, cases, cache)
    ensures r.mainCase == FindCase(cases, caseNumber)
    ensures r.mainCase.None? ==> r.related == []
  {
    match FindCase(cases, caseNumber)
    case None => Ranking(None, [])
    case Some(m) => Ranking(Some(m), Take(SortBySimilarity(Candidates(m, cases, cache, quotient)), topK))
  }

  // ---------------------------------------------------------------------------
  // The sort: ordered, a permutation, and stable.

  /** Where `Insert` puts `x`: after every entry it does not beat, before the
      first one it does. */
  lemma {:induction false} InsertSplit(x: Scored, s: seq<Scored>) returns (p: nat)
    ensures p <= |s| && Insert(x, s) == s[..p] + [x] + s[p..]
    ensures forall i :: 0 <= i < p ==> !Above(x, s[i])
    ensures p < |s| ==> Above(x, s[p])
  {
    if s == [] {
      p := 0;
    } else if Above(x, s[0]) {
      p := 0;
    } else {
      var q := InsertSplit(x, s[1..]);
      p := q + 1;
      var a, b := s[1..][..q], s[1..][q..];
      ConsSplit(s, q);
      calc {
        Insert(x, s);
        [s[0]] + Insert(x, s[1..]);
        [s[0]] + (a + [x] + b);
        { AppendAssoc([s[0]], a + [x], b); AppendAssoc([s[0]], a, [x]); }
        [s[0]] + a + [x] + b;
      }
      forall i | 0 <= i < p ensures !Above(x, s[i]) {
        if i > 0 { assert s[i] == s[1..][i - 1]; }
      }
    }
  }

  /** An ordered sequence stays ordered behind an entry none of it beats. */
  lemma NonIncreasingCons(y: Scored, t: seq<Scored>)
    requires NonIncreasing(t)
    requires forall z :: z in t ==> !Above(z, y)
    ensures NonIncreasing([y] + t)
  {
    var r := [y] + t;
    forall i, j | 0 <= i < j < |r| ensures !Above(r[j], r[i]) {
      assert r[j] == t[j - 1];
      if i > 0 {
        assert r[i] == t[i - 1];
      }
    }
  }

  /** Nothing in an ordered sequence beats its head. */
  lemma HeadIsBest(s: seq<Scored>)
    requires NonIncreasing(s) && s != []
    ensures forall z :: z in s ==> !Above(z, s[0])
  {
    forall z | z in s ensures !Above(z, s[0]) {
      var j :| 0 <= j < |s| && s[j] == z;
    }
  }

  lemma {:induction false} InsertSorted(x: Scored, s: seq<Scored>)
    requires NonIncreasing(s)
    ensures NonIncreasing(Insert(x, s))
  {
    if s != [] {
      HeadIsBest(s);
      if Above(x, s[0]) {
        NonIncreasingCons(x, s);
      } else {
        TailNonIncreasing(s);
        InsertSorted(x, s[1..]);
        var t := Insert(x, s[1..]);
        forall z | z in t ensures !Above(z, s[0]) {
          assert z in multiset(t);
          if z != x {
            assert z in multiset(s[1..]);
            var k :| 0 <= k < |s[1..]| && s[1..][k] == z;
            assert s[k + 1] == z;
          }
        }
        NonIncreasingCons(s[0], t);
      }
    }
  }

  /** The sort's output is ordered by non-increasing similarity. */
  lemma {:induction false} SortSorted(s: seq<Scored>)
    ensures NonIncreasing(SortBySimilarity(s))
  {
    if s != [] {
      SortSorted(s[..|s| - 1]);
      InsertSorted(s[|s| - 1], SortBySimilarity(s[..|s| - 1]));
    }
  }

  lemma {:induction false} WithSimilarityAppend(a: seq<Scored>, b: seq<Scored>, k: Score)
    ensures WithSimilarity(a + b, k) == WithSimilarity(a, k) + WithSimilarity(b, k)
  {
    if a != [] {
      var h: seq<Scored> := if a[0].similarity == k then [a[0]] else [];
      assert (a + b)[0] == a[0];
      assert (a + b)[1..] == a[1..] + b;
      WithSimilarityAppend(a[1..], b, k);
      AppendAssoc(h, WithSimilarity(a[1..], k), WithSimilarity(b, k));
    } else {
      assert a + b == b;
    }
  }

  lemma {:induction false} WithSimilarityAbsent(s: seq<Scored>, k: Score)
    requires forall i :: 0 <= i < |s| ==> s[i].similarity != k
    ensures WithSimilarity(s, k) == []
  {
    if s != [] {
      WithSimilarityAbsent(s[1..], k);
    }
  }

  /** An entry that beats the head of an ordered sequence shares its
      similarity with no entry of it. */
  lemma AboveHeadIsNew(x: Scored, s: seq<Scored>)
    requires NonIncreasing(s) && s != [] && Above(x, s[0])
    ensures forall i :: 0 <= i < |s| ==> s[i].similarity != x.similarity
  {
    forall i | 0 <= i < |s| ensures s[i].similarity != x.similarity {
      if i > 0 { assert !Above(s[i], s[0]); }
    }
  }

  /** `WithSimilarity` of a sequence given by its head and tail. */
  lemma WithSimilarityCons(x: Scored, s: seq<Scored>, k: Score)
    ensures WithSimilarity([x] + s, k) == (if x.similarity == k then [x] else []) + WithSimilarity(s, k)
  {
    assert ([x] + s)[0] == x;
    assert ([x] + s)[1..] == s;
  }

  lemma InsertStableFront(x: Scored, s: seq<Scored>, k: Score)
    requires NonIncreasing(s) && s != [] && Above(x, s[0])
    ensures WithSimilarity([x] + s, k) == WithSimilarity(s, k) + (if x.similarity == k then [x] else [])
  {
    WithSimilarityCons(x, s, k);
    if k == x.similarity {
      AboveHeadIsNew(x, s);
      WithSimilarityAbsent(s, k);
    }
  }

  lemma TailNonIncreasing(s: seq<Scored>)
    requires NonIncreasing(s) && s != []
    ensures NonIncreasing(s[1..])
  {
    forall i, j | 0 <= i < j < |s[1..]| ensures !Above(s[1..][j], s[1..][i]) {
      assert s[1..][j] == s[j + 1] && s[1..][i] == s[i + 1];
    }
  }

  lemma {:induction false} InsertStable(x: Scored, s: seq<Scored>, k: Score)
    requires NonIncreasing(s)
    ensures WithSimilarity(Insert(x, s), k) == WithSimilarity(s, k) + (if x.similarity == k then [x] else [])
  {
    if s == [] {
      WithSimilarityCons(x, [], k);
      assert [x] + [] == [x];
    } else if Above(x, s[0]) {
      InsertStableFront(x, s, k);
    } else {
      TailNonIncreasing(s);
      InsertStable(x, s[1..], k);
      InsertStableBehind(x, s, k);
    }
  }

  lemma InsertStableBehind(x: Scored, s: seq<Scored>, k: Score)
    requires s != [] && !Above(x, s[0])
    requires WithSimilarity(Insert(x, s[1..]), k) == WithSimilarity(s[1..], k) + (if x.similarity == k then [x] else [])
    ensures WithSimilarity(Insert(x, s), k) == WithSimilarity(s, k) + (if x.similarity == k then [x] else [])
  {
    var t := Insert(x, s[1..]);
    var h: seq<Scored> := if s[0].similarity == k then [s[0]] else [];
    var e: seq<Scored> := if x.similarity == k then [x] else [];
    var w := WithSimilarity(s[1..], k);
    assert Insert(x, s) == [s[0]] + t;
    calc {
      WithSimilarity(Insert(x, s), k);
      WithSimilarity([s[0]] + t, k);
      { WithSimilarityCons(s[0], t, k); }
      h + WithSimilarity(t, k);
      h + (w + e);
    }
    assert WithSimilarity(s, k) == h + w;
    AppendAssoc(h, w, e);
  }

  /** Entries of equal similarity leave the sort in their input order. */
  lemma {:induction false} SortStable(s: seq<Scored>, k: Score)
    ensures WithSimilarity(SortBySimilarity(s), k) == WithSimilarity(s, k)
  {
    if s != [] {
      var init, x := s[..|s| - 1], s[|s| - 1];
      var e: seq<Scored> := if x.similarity == k then [x] else [];
      calc {
        WithSimilarity(SortBySimilarity(s), k);
        WithSimilarity(Insert(x, SortBySimilarity(init)), k);
        { SortSorted(init); InsertStable(x, SortBySimilarity(init), k); }
        WithSimilarity(SortBySimilarity(init), k) + e;
        { SortStable(init, k); }
        WithSimilarity(init, k) + e;
        { WithSimilarityCons(x, [], k); assert [x] + [] == [x]; }
        WithSimilarity(init, k) + WithSimilarity([x], k);
        { WithSimilarityAppend(init, [x], k); }
        WithSimilarity(init + [x], k);
        { SplitLast(s); }
        WithSimilarity(s, k);
      }
    }
  }

  /** Cutting an ordered sequence keeps its best entries: nothing left out
      beats anything kept. */
  lemma TakeKeepsBest(s: seq<Scored>, end: int)
    requires NonIncreasing(s)
    ensures forall x, y :: x in Take(s, end) && y in multiset(s) - multiset(Take(s, end)) ==> !Above(y, x)
  {
    var n := SliceEnd(|s|, end);
    SplitAt(s, n);
    assert multiset(s) == multiset(s[..n]) + multiset(s[n..]);
    PrefixBeatsSuffix(s, n);
    forall x, y | x in s[..n] && y in multiset(s) - multiset(s[..n]) ensures !Above(y, x) {
      assert y in s[n..];
    }
  }

  /** In an ordered sequence, nothing after a cut beats anything before it. */
  lemma PrefixBeatsSuffix(s: seq<Scored>, n: nat)
    requires NonIncreasing(s) && n <= |s|
    ensures forall x, y :: x in s[..n] && y in s[n..] ==> !Above(y, x)
  {
    forall x, y | x in s[..n] && y in s[n..] ensures !Above(y, x) {
      var i :| 0 <= i < n && s[..n][i] == x;
      var j :| 0 <= j < |s| - n && s[n..][j] == y;
      assert s[i] == x && s[n + j] == y;
    }
  }

  // ---------------------------------------------------------------------------
  // What the ranking returns.

  /** No target exactly when no case number matches; then nothing is related.
      Otherwise the target is the first match. */
  lemma RankLookup(caseNumber: string, cases: seq<Case>, topK: int,
                   cache: map<string, Vector>, quotient: Quotient)
    requires Prepared(caseNumber, cases, cache)
    ensures var r := Rank(caseNumber, cases, topK, cache, quotient);
      && (r.mainCase.None? <==> forall c :: c in cases ==> !SameCaseNumber(c.caseNumber, caseNumber))
      && (r.mainCase.None? ==> r.related == [])
      && (r.mainCase.Some? ==> r.mainCase == FindCase(cases, caseNumber))
  {
  }

  /** Every related entry is a case of the corpus other than the target, and
      carries its similarity to the target and the relevance derived from it. */
  lemma RankRelatedEntries(caseNumber: string, cases: seq<Case>, topK: int,
                           cache: map<string, Vector>, quotient: Quotient)
    requires Prepared(caseNumber, cases, cache)
    ensures var r := Rank(caseNumber, cases, topK, cache, quotient);
      r.mainCase.Some? ==> forall s :: s in r.related ==>
        && s.record in cases
        && s.record.caseNumber != r.mainCase.value.caseNumber
        && Key(CaseText(s.record)) in cache
        && s.similarity == Cosine(Some(cache[Key(CaseText(r.mainCase.value))]),
                                  Some(cache[Key(CaseText(s.record))]), quotient)
        && s.relevance == Relevance(s.similarity)
  {
    var r := Rank(caseNumber, cases, topK, cache, quotient);
    if r.mainCase.Some? {
      var m := r.mainCase.value;
      var all := Candidates(m, cases, cache, quotient);
      var sorted := SortBySimilarity(all);
      forall s | s in r.related
        ensures s.record in cases && s.record.caseNumber != m.caseNumber
        ensures Key(CaseText(s.record)) in cache
        ensures s.similarity == Cosine(Some(cache[Key(CaseText(m))]), Some(cache[Key(CaseText(s.record))]), quotient)
        ensures s.relevance == Relevance(s.similarity)
      {
        assert s in multiset(sorted);
        assert s in multiset(all);
        var i :| 0 <= i < |all| && all[i] == s;
        assert Others(cases, m.caseNumber)[i] in Others(cases, m.caseNumber);
      }
    }
  }

  /** At most `topK` entries for a non-negative `topK`; in general exactly as
      many as `slice(0, topK)` keeps of the candidates. */
  lemma RankLength(caseNumber: string, cases: seq<Case>, topK: int,
                   cache: map<string, Vector>, quotient: Quotient)
    requires Prepared(caseNumber, cases, cache)
    ensures var r := Rank(caseNumber, cases, topK, cache, quotient);
      && (topK >= 0 ==> |r.related| <= topK)
      && (r.mainCase.Some? ==> |r.related| == SliceEnd(|Others(cases, r.mainCase.value.caseNumber)|, topK))
      && (r.mainCase.Some? && topK >= 0 ==> |r.related| == Min(topK, |Others(cases, r.mainCase.value.caseNumber)|))
  {
    var r := Rank(caseNumber, cases, topK, cache, quotient);
    if r.mainCase.Some? {
      var all := Candidates(r.mainCase.value, cases, cache, quotient);
      assert |SortBySimilarity(all)| == |all| by {
        assert |multiset(SortBySimilarity(all))| == |multiset(all)|;
      }
    }
  }

  /** The related route passes no `topK`, so the ranking it receives keeps
      the best five candidates, or all of them when there are fewer. */
  lemma DefaultRankLength(caseNumber: string, cases: seq<Case>,
                          cache: map<string, Vector>, quotient: Quotient)
    requires Prepared(caseNumber, cases, cache)
    ensures var r := Rank(caseNumber, cases, DefaultTopK, cache, quotient);
      && |r.related| <= 5
      && (r.mainCase.Some? ==> |r.related| == Min(5, |Others(cases, r.mainCase.value.caseNumber)|))
  {
    RankLength(caseNumber, cases, DefaultTopK, cache, quotient);
  }

  /** The first entries of the sorted candidates: ordered, stable, drawn from
      the candidates, and the best of them. */
  lemma TopOfSorted(all: seq<Scored>, topK: int)
    ensures var top := Take(SortBySimilarity(all), topK);
      && NonIncreasing(top)
      && (forall k :: WithSimilarity(top, k) <= WithSimilarity(all, k))
      && multiset(top) <= multiset(all)
      && (forall x, y :: x in top && y in multiset(all) - multiset(top) ==> !Above(y, x))
  {
    var sorted := SortBySimilarity(all);
    var n := SliceEnd(|sorted|, topK);
    var top := sorted[..n];
    SortSorted(all);
    assert NonIncreasing(top) by {
      forall i, j | 0 <= i < j < |top| ensures !Above(top[j], top[i]) {
        assert top[i] == sorted[i] && top[j] == sorted[j];
      }
    }
    assert sorted == top + sorted[n..];
    assert multiset(top) <= multiset(all) by {
      assert multiset(sorted) == multiset(top) + multiset(sorted[n..]);
    }
    TakeKeepsBest(sorted, topK);
    forall k ensures WithSimilarity(top, k) <= WithSimilarity(all, k) {
      SortStable(all, k);
      WithSimilarityAppend(top, sorted[n..], k);
    }
  }

  /** The related entries are ordered by non-increasing similarity, entries of
      equal similarity keep their corpus order, and they are the best of the
      candidates: no candidate left out beats one kept. */
  lemma RankOrder(caseNumber: string, cases: seq<Case>, topK: int,
                  cache: map<string, Vector>, quotient: Quotient)
    requires Prepared(caseNumber, cases, cache)
    ensures var r := Rank(caseNumber, cases, topK, cache, quotient);
      r.mainCase.Some? ==>
        var all := Candidates(r.mainCase.value, cases, cache, quotient);
        && NonIncreasing(r.related)
        && (forall k :: WithSimilarity(r.related, k) <= WithSimilarity(all, k))
        && multiset(r.related) <= multiset(all)
        && (forall x, y :: x in r.related && y in multiset(all) - multiset(r.related) ==> !Above(y, x))
  {
    var r := Rank(caseNumber, cases, topK, cache, quotient);
    if r.mainCase.Some? {
      TopOfSorted(Candidates(r.mainCase.value, cases, cache, quotient), topK);
    }
  }

  // ---------------------------------------------------------------------------
  // The module state: the model handle and the embedding cache.

  /** Cache entries only ever get added. */
  ghost predicate Extends(before: map<string, Vector>, after: map<string, Vector>) {
    forall k :: k in before ==> k in after && after[k] == before[k]
  }

  /** The embedded prefix grows by the candidate whose key was just added. */
  lemma EmbeddedStep(others: seq<Case>, i: nat, before: map<string, Vector>, after: map<string, Vector>)
    requires i < |others|
    requires Embedded(others[..i], before) && Extends(before, after)
    requires Key(CaseText(others[i])) in after
    ensures Embedded(others[..i + 1], after)
  {
    forall c | c in others[..i + 1] ensures Key(CaseText(c)) in after {
      var j :| 0 <= j < i + 1 && others[..i + 1][j] == c;
      if j < i {
        assert others[..i][j] == c;
      }
    }
  }

  /** One step of the scoring loop: once the cache has grown and holds the
      next candidate's vector, the scored prefix is one entry longer. */
  lemma ScoreAllStep(others: seq<Case>, i: nat, mainVec: Vector, quotient: Quotient, scored: seq<Scored>,
                     before: map<string, Vector>, after: map<string, Vector>, vec: Vector)
    requires i < |others|
    requires Embedded(others[..i], before) && scored == ScoreAll(others[..i], mainVec, before, quotient)
    requires Extends(before, after)
    requires Key(CaseText(others[i])) in after && after[Key(CaseText(others[i]))] == vec
    ensures Embedded(others[..i + 1], after)
    ensures scored + [ScoreCase(others[i], mainVec, vec, quotient)] == ScoreAll(others[..i + 1], mainVec, after, quotient)
  {
    var next := others[..i + 1];
    EmbeddedStep(others, i, before, after);
    var r := ScoreAll(next, mainVec, after, quotient);
    forall j | 0 <= j < i
      ensures scored[j] == r[j]
    {
      assert others[..i][j] == next[j];
    }
  }

  /** Every cached vector is the model's vector of the text recorded for its key. */
  ghost predicate Faithful(model: Model, cache: map<string, Vector>, source: map<string, string>) {
    forall k :: k in cache ==> k in source && cache[k] == model(source[k])
  }

  /** Every recorded text normalises to the key it is recorded under. */
  ghost predicate KeysAgree(source: map<string, string>) {
    forall k {:trigger Key(source[k])} :: k in source ==> Key(source[k]) == k
  }

  /** Storing the model's vector of `text` under `Key(text)` keeps both. */
  lemma FaithfulStore(model: Model, cache: map<string, Vector>, source: map<string, string>, text: string)
    requires Faithful(model, cache, source) && KeysAgree(source)
    ensures Faithful(model, cache[Key(text) := model(text)], source[Key(text) := text])
    ensures KeysAgree(source[Key(text) := text])
  {
  }

  /** The cache keys of the texts of `cs`. */
  function CaseKeys(cs: seq<Case>): set<string> {
    if cs == [] then {} else CaseKeys(cs[..|cs| - 1]) + {Key(CaseText(cs[|cs| - 1]))}
  }

  /** `CaseKeys(cs)` holds exactly the keys of the cases in `cs`. */
  lemma {:induction false} CaseKeysMembers(cs: seq<Case>)
    ensures forall k :: k in CaseKeys(cs) <==> exists c :: c in cs && Key(CaseText(c)) == k
  {
    if cs != [] {
      var init := cs[..|cs| - 1];
      CaseKeysMembers(init);
      assert cs == init + [cs[|cs| - 1]];
    }
  }

  /** The keys of a prefix grow by the key of the next case. */
  lemma CaseKeysStep(cs: seq<Case>, i: nat)
    requires i < |cs|
    ensures CaseKeys(cs[..i + 1]) == CaseKeys(cs[..i]) + {Key(CaseText(cs[i]))}
  {
    assert cs[..i + 1][..i] == cs[..i];
  }

  /** One more candidate embedded: the cache's keys are the old keys and
      the keys of one more candidate. */
  lemma KeySetStep(start: set<string>, before: set<string>, after: set<string>, cs: seq<Case>, i: nat)
    requires i < |cs|
    requires before == start + CaseKeys(cs[..i])
    requires after == before + {Key(CaseText(cs[i]))}
    ensures after == start + CaseKeys(cs[..i + 1])
  {
    CaseKeysStep(cs, i);
  }

  /** The cache after `getEmbedding(text)` with the model loaded: a hit
      leaves it as it is, a miss adds the model's vector of the text itself
      under the text's key. */
  function Store(cache: map<string, Vector>, model: Model, text: string): (r: map<string, Vector>)
    ensures Key(text) in r
  {
    if Key(text) in cache then cache else cache[Key(text) := model(text)]
  }

  /** The cache after the texts of `cs` are embedded one after another. */
  function EmbedAll(cache: map<string, Vector>, model: Model, cs: seq<Case>): map<string, Vector> {
    if cs == [] then cache
    else Store(EmbedAll(cache, model, cs[..|cs| - 1]), model, CaseText(cs[|cs| - 1]))
  }

  /** Embedding one more case stores it on top of the prefix. */
  lemma EmbedAllStep(cache: map<string, Vector>, model: Model, cs: seq<Case>, i: nat)
    requires i < |cs|
    ensures EmbedAll(cache, model, cs[..i + 1]) == Store(EmbedAll(cache, model, cs[..i]), model, CaseText(cs[i]))
  {
    assert cs[..i + 1][..i] == cs[..i];
  }

  /** Embedding `a` and then `b` is embedding `a + b`. */
  lemma {:induction false} EmbedAllAppend(cache: map<string, Vector>, model: Model, a: seq<Case>, b: seq<Case>)
    ensures EmbedAll(EmbedAll(cache, model, a), model, b) == EmbedAll(cache, model, a + b)
  {
    if b == [] {
      assert a + b == a;
    } else {
      var init, last := b[..|b| - 1], b[|b| - 1];
      assert (a + b)[..|a + b| - 1] == a + init && (a + b)[|a + b| - 1] == last;
      calc {
        EmbedAll(EmbedAll(cache, model, a), model, b);
        Store(EmbedAll(EmbedAll(cache, model, a), model, init), model, CaseText(last));
        { EmbedAllAppend(cache, model, a, init); }
        Store(EmbedAll(cache, model, a + init), model, CaseText(last));
      }
    }
  }

  /** The target embedded first, then its candidates. */
  lemma EmbedTargetFirst(cache: map<string, Vector>, model: Model, m: Case, others: seq<Case>)
    ensures EmbedAll(Store(cache, model, CaseText(m)), model, others) == EmbedAll(cache, model, [m] + others)
  {
    assert [m][..0] == [];
    EmbedAllAppend(cache, model, [m], others);
  }

  /** Embedding adds exactly the keys of the cases' texts. */
  lemma {:induction false} EmbedAllKeys(cache: map<string, Vector>, model: Model, cs: seq<Case>)
    ensures EmbedAll(cache, model, cs).Keys == cache.Keys + CaseKeys(cs)
  {
    if cs != [] {
      EmbedAllKeys(cache, model, cs[..|cs| - 1]);
    }
  }

  /** One store keeps every entry, and an entry it adds is the model's
      vector of the text, under the text's key. */
  lemma StoreOrigin(cache: map<string, Vector>, model: Model, text: string)
    ensures Extends(cache, Store(cache, model, text))
    ensures forall k :: k in Store(cache, model, text) && k !in cache ==>
      k == Key(text) && Store(cache, model, text)[k] == model(text)
  {
  }

  /** Embedding keeps every entry already cached, and every entry it adds is
      the model's vector of one of the cases' own texts, stored under that
      text's key. */
  lemma {:induction false} EmbedAllOrigin(cache: map<string, Vector>, model: Model, cs: seq<Case>)
    ensures Extends(cache, EmbedAll(cache, model, cs))
    ensures forall k :: k in EmbedAll(cache, model, cs) && k !in cache ==>
      exists c :: c in cs && Key(CaseText(c)) == k && EmbedAll(cache, model, cs)[k] == model(CaseText(c))
  {
    if cs != [] {
      var init, last := cs[..|cs| - 1], cs[|cs| - 1];
      EmbedAllOrigin(cache, model, init);
      var before := EmbedAll(cache, model, init);
      var after := EmbedAll(cache, model, cs);
      assert after == Store(before, model, CaseText(last));
      StoreOrigin(before, model, CaseText(last));
      forall k | k in after && k !in cache
        ensures exists c :: c in cs && Key(CaseText(c)) == k && after[k] == model(CaseText(c))
      {
        if k in before {
          var c :| c in init && Key(CaseText(c)) == k && before[k] == model(CaseText(c));
          assert c in cs;
        } else {
          assert last in cs;
        }
      }
    }
  }

  /** The module-level `embedder` and `embedCache` of similarity.js. `model`
      is the pipeline `initModel` loads; `ready` says whether the handle is
      set; `calls` counts the model's invocations; `source` records, for
      each cached key, the text the model was run on. */
  class Embedder {
    const model: Model
    var ready: bool
    var cache: map<string, Vector>
    ghost var calls: nat
    ghost var source: map<string, string>

    /** Each invocation of the model stored one new key, and every cached
        vector is the model's vector of a text whose key it is stored under. */
    ghost predicate Valid()
      reads this
    {
      && calls == |cache|
      && Faithful(model, cache, source)
      && KeysAgree(source)
    }

    constructor (model: Model)
      ensures Valid() && this.model == model
      ensures !ready && cache == map[] && calls == 0
    {
      this.model := model;
      ready := false;
      cache := map[];
      calls := 0;
      source := map[];
    }

    /** `initModel`: sets the handle; does nothing once it is set. */
    method InitModel()
      requires Valid()
      modifies this`ready
      ensures Valid() && ready
    {
      if ready {
        return;
      }
      ready := true;
    }

    /** `getEmbedding(text)`: the cached vector for the text's key, or the
        model's vector for the text itself, stored under the key. */
    method GetEmbedding(text: string) returns (r: Result<Vector, Error>)
      requires Valid()
      modifies this`cache, this`calls, this`source
      ensures Valid() && Extends(old(cache), cache)
      ensures ready ==> r.Success? && Key(text) in cache && r.value == cache[Key(text)]
      ensures ready ==> cache.Keys == old(cache).Keys + {Key(text)}
      ensures !ready ==> r == Failure(NotInitialized) && cache == old(cache) && calls == old(calls)
      ensures ready && Key(text) in old(cache) ==>
        r == Success(old(cache)[Key(text)]) && cache == old(cache) && calls == old(calls)
      ensures ready && Key(text) !in old(cache) ==>
        && r == Success(model(text))
        && cache == old(cache)[Key(text) := model(text)]
        && calls == old(calls) + 1
    {
      if !ready {
        return Failure(NotInitialized);
      }
      var key := Key(text);
      if key in cache {
        return Success(cache[key]);
      }
      var vec := model(text);
      FaithfulStore(model, cache, source, text);
      assert (cache[key := vec]).Keys == cache.Keys + {key};
      cache := cache[key := vec];
      source := source[key := text];
      calls := calls + 1;
      r := Success(vec);
    }

    /** `getEmbedding` once the model is loaded: the vector stored under the
        text's key, which is now in the cache and the only key added. */
    method EmbedLoaded(text: string) returns (vec: Vector)
      requires Valid() && ready
      modifies this`cache, this`calls, this`source
      ensures Valid() && Extends(old(cache), cache)
      ensures Key(text) in cache && vec == cache[Key(text)]
      ensures cache.Keys == old(cache).Keys + {Key(text)}
      ensures cache == Store(old(cache), model, text)
    {
      var r := GetEmbedding(text);
      vec := r.value;
    }

    /** The `Promise.all(... .map(...))` step, one candidate after another:
        embeds each candidate and scores it against the target's vector. */
    method ScoreCandidates(others: seq<Case>, mainVec: Vector, quotient: Quotient)
      returns (scored: seq<Scored>)
      requires Valid() && ready
      modifies this`cache, this`calls, this`source
      ensures Valid() && Extends(old(cache), cache)
      ensures cache.Keys == old(cache).Keys + CaseKeys(others)
      ensures cache == EmbedAll(old(cache), model, others)
      ensures forall k :: k in cache && k !in old(cache) ==>
        exists c :: c in others && Key(CaseText(c)) == k && cache[k] == model(CaseText(c))
      ensures Embedded(others, cache)
      ensures scored == ScoreAll(others, mainVec, cache, quotient)
    {
      scored := [];
      var i := 0;
      while i < |others|
        invariant 0 <= i <= |others|
        invariant Valid() && Extends(old(cache), cache)
        invariant cache.Keys == old(cache).Keys + CaseKeys(others[..i])
        invariant cache == EmbedAll(old(cache), model, others[..i])
        invariant Embedded(others[..i], cache)
        invariant scored == ScoreAll(others[..i], mainVec, cache, quotient)
      {
        ghost var before := cache;
        var vec := EmbedLoaded(CaseText(others[i]));
        KeySetStep(old(cache).Keys, before.Keys, cache.Keys, others, i);
        EmbedAllStep(old(cache), model, others, i);
        ScoreAllStep(others, i, mainVec, quotient, scored, before, cache, vec);
        scored := scored + [ScoreCase(others[i], mainVec, vec, quotient)];
        i := i + 1;
      }
      assert others[..i] == others;
      EmbedAllOrigin(old(cache), model, others);
    }

    /** `getRelatedCasesByCaseNumber(caseNumber, cases, topK)`, with the
        candidates embedded one after another. */
    method RelatedCases(caseNumber: string, cases: seq<Case>, topK: int, quotient: Quotient)
      returns (r: Result<Ranking, Error>)
      requires Valid()
      modifies this`cache, this`calls, this`source
      ensures Valid()
      ensures !ready ==> r == Failure(NotInitialized) && cache == old(cache) && calls == old(calls)
      ensures ready ==>
        && Extends(old(cache), cache)
        && Prepared(caseNumber, cases, cache)
        && r == Success(Rank(caseNumber, cases, topK, cache, quotient))
      ensures ready ==>
        match FindCase(cases, caseNumber)
        case None => cache == old(cache) && calls == old(calls)
        case Some(m) =>
          && cache.Keys == old(cache).Keys + {Key(CaseText(m))} + CaseKeys(Others(cases, m.caseNumber))
          && cache == EmbedAll(old(cache), model, [m] + Others(cases, m.caseNumber))
          && forall k :: k in cache && k !in old(cache) ==>
               exists c :: c in [m] + Others(cases, m.caseNumber) && Key(CaseText(c)) == k && cache[k] == model(CaseText(c))
    {
      if !ready {
        return Failure(NotInitialized);
      }
      var found := FindCase(cases, caseNumber);
      if found.None? {
        return Success(Ranking(None, []));
      }
      var m := found.value;
      var mainVec := EmbedLoaded(CaseText(m));
      ghost var start := old(cache);
      var scored := ScoreCandidates(Others(cases, m.caseNumber), mainVec, quotient);
      EmbedTargetFirst(start, model, m, Others(cases, m.caseNumber));
      EmbedAllOrigin(start, model, [m] + Others(cases, m.caseNumber));
      assert scored == Candidates(m, cases, cache, quotient);
      assert Prepared(caseNumber, cases, cache);
      r := Success(Ranking(Some(m), Take(SortBySimilarity(scored), topK)));
      assert r.value == Rank(caseNumber, cases, topK, cache, quotient);
    }
  }

  /** Two texts that differ only in letter case and in the white space around
      them, embedded one after the other: the model runs at most once, and
      both get the same vector, the model's vector of a text with that key. */
  method EmbedBothSpellings(e: Embedder, pre1: string, a: string, post1: string,
                            pre2: string, b: string, post2: string)
    returns (first: Vector, second: Vector)
    requires e.Valid() && e.ready
    requires AllSpace(pre1) && AllSpace(post1) && AllSpace(pre2) && AllSpace(post2)
    requires Lower(a) == Lower(b)
    modifies e`cache, e`calls, e`source
    ensures e.Valid()
    ensures first == second
    ensures e.calls <= old(e.calls) + 1
    ensures var k := Key(pre2 + b + post2);
      k in e.cache && e.cache[k] == first && first == e.model(e.source[k])
  {
    KeyIgnoresSurroundingSpace(pre1, a, post1);
    KeyIgnoresSurroundingSpace(pre2, b, post2);
    KeyIgnoresCase(a, b);
    var r1 := e.GetEmbedding(pre1 + a + post1);
    var r2 := e.GetEmbedding(pre2 + b + post2);
    first, second := r1.value, r2.value;
  }
}
