/** Merging the calibrated hits of both collections into one ranked list. */
module Rerank {
  import opened Wrappers
  import opened Calibration

  const DEFAULT_TOP_K: real := 10.0

  /** JavaScript's order on strings: by the first code unit that differs, a prefix first. */
  predicate LexLess(a: Text, b: Text) {
    if b == [] then false
    else if a == [] then true
    else a[0] < b[0] || (a[0] == b[0] && LexLess(a[1..], b[1..]))
  }

  lemma {:induction false} LexTotal(a: Text, b: Text)
    ensures !(LexLess(a, b) && LexLess(b, a))
    ensures LexLess(a, b) || LexLess(b, a) || a == b
    ensures a == b ==> !LexLess(a, b)
  {
    if a != [] && b != [] {
      LexTotal(a[1..], b[1..]);
      assert a == [a[0]] + a[1..] && b == [b[0]] + b[1..];
    }
  }

  /** One text stands before another: it is a proper prefix, or less at the first place where they differ. */
  ghost predicate Before(a: Text, b: Text) {
    exists k: nat :: SplitsAt(a, b, k)
  }

  ghost predicate SplitsAt(a: Text, b: Text, k: nat) {
    && k <= |a| && k < |b| && a[..k] == b[..k]
    && (k == |a| || a[k] < b[k])
  }

  lemma FirstSame(a: Text, b: Text, k: nat)
    requires SplitsAt(a, b, k) && k > 0
    ensures a[0] == b[0]
  {
    assert a[..k][0] == b[..k][0];
  }

  lemma {:induction false} LexLessIff(a: Text, b: Text)
    ensures LexLess(a, b) <==> Before(a, b)
  {
    if a != [] && b != [] && a[0] == b[0] {
      LexLessIff(a[1..], b[1..]);
      if Before(a[1..], b[1..]) {
        var k: nat :| SplitsAt(a[1..], b[1..], k);
        assert a[..k + 1] == [a[0]] + a[1..][..k] && b[..k + 1] == [b[0]] + b[1..][..k];
        assert SplitsAt(a, b, k + 1);
      }
      if Before(a, b) {
        var k: nat :| SplitsAt(a, b, k);
        assert k > 0;
        assert a[1..][..k - 1] == a[..k][1..] && b[1..][..k - 1] == b[..k][1..];
        assert SplitsAt(a[1..], b[1..], k - 1);
      }
    } else {
      if LexLess(a, b) {
        assert SplitsAt(a, b, 0);
      }
      if Before(a, b) {
        var k: nat :| SplitsAt(a, b, k);
        if k > 0 {
          FirstSame(a, b, k);
        }
      }
    }
  }

  lemma {:induction false} LexTransitive(a: Text, b: Text, c: Text)
    requires LexLess(a, b) && LexLess(b, c)
    ensures LexLess(a, c)
  {
    if a != [] && a[0] == b[0] && b[0] == c[0] {
      LexTransitive(a[1..], b[1..], c[1..]);
    }
  }

  /** Greater confidence first, then greater raw score, then smaller point id. */
  predicate Precedes(a: Hit, b: Hit) {
    if b.confidence != a.confidence then a.confidence > b.confidence
    else if b.rawScore != a.rawScore then a.rawScore > b.rawScore
    else LexLess(a.pointId, b.pointId)
  }

  /** Raw score and point id only ever break a tie. */
  lemma PrecedesIff(a: Hit, b: Hit)
    ensures Precedes(a, b) <==>
      || a.confidence > b.confidence
      || (a.confidence == b.confidence && a.rawScore > b.rawScore)
      || (a.confidence == b.confidence && a.rawScore == b.rawScore && Before(a.pointId, b.pointId))
  {
    LexLessIff(a.pointId, b.pointId);
  }

  /** The comparator is a strict order, total on hits with different point ids. */
  lemma PrecedesIsOrder(a: Hit, b: Hit, c: Hit)
    ensures !(Precedes(a, b) && Precedes(b, a))
    ensures Precedes(a, b) && Precedes(b, c) ==> Precedes(a, c)
    ensures a.pointId != b.pointId ==> Precedes(a, b) || Precedes(b, a)
  {
    LexTotal(a.pointId, b.pointId);
    if LexLess(a.pointId, b.pointId) && LexLess(b.pointId, c.pointId) {
      LexTransitive(a.pointId, b.pointId, c.pointId);
    }
  }

  ghost predicate DistinctPoints(hits: seq<Hit>) {
    forall i, j | 0 <= i < j < |hits| :: hits[i].pointId != hits[j].pointId
  }

  ghost predicate Ranked(hits: seq<Hit>) {
    forall i, j | 0 <= i < j < |hits| :: Precedes(hits[i], hits[j])
  }

  /** A stable insertion: after every hit that the new one does not precede. */
  function Insert(hits: seq<Hit>, h: Hit): seq<Hit> {
    if hits == [] then [h]
    else
      var last := hits[|hits| - 1];
      if Precedes(h, last) then Insert(hits[..|hits| - 1], h) + [last] else hits + [h]
  }

  /** The stable sort of the merged hits. */
  function Sorted(hits: seq<Hit>): seq<Hit> {
    if hits == [] then [] else Insert(Sorted(hits[..|hits| - 1]), hits[|hits| - 1])
  }

  lemma {:induction false} InsertMembers(hits: seq<Hit>, h: Hit)
    ensures multiset(Insert(hits, h)) == multiset(hits) + multiset{h}
  {
    if hits != [] {
      var n := |hits| - 1;
      assert hits == hits[..n] + [hits[n]];
      if Precedes(h, hits[n]) {
        InsertMembers(hits[..n], h);
      }
    }
  }

  lemma {:induction false} InsertRanked(hits: seq<Hit>, h: Hit)
    requires Ranked(hits) && forall x | x in hits :: x.pointId != h.pointId
    ensures Ranked(Insert(hits, h))
  {
    if hits != [] {
      var n := |hits| - 1;
      var last := hits[n];
      if Precedes(h, last) {
        InsertRanked(hits[..n], h);
        InsertMembers(hits[..n], h);
        forall x | x in Insert(hits[..n], h)
          ensures Precedes(x, last)
        {
          assert x in multiset(hits[..n]) + multiset{h};
          assert x == h || x in hits[..n];
        }
      } else {
        forall i | 0 <= i <= n
          ensures Precedes(hits[i], h)
        {
          PrecedesIsOrder(last, h, h);
          PrecedesIsOrder(hits[i], last, h);
        }
      }
    }
  }

  lemma {:induction false} SortedRanks(hits: seq<Hit>)
    ensures multiset(Sorted(hits)) == multiset(hits) && |Sorted(hits)| == |hits|
    ensures DistinctPoints(hits) ==> Ranked(Sorted(hits))
  {
    SortedMembers(hits);
    SameSize(Sorted(hits), hits);
    if DistinctPoints(hits) {
      SortedRanked(hits);
    }
  }

  lemma {:induction false} SortedMembers(hits: seq<Hit>)
    ensures multiset(Sorted(hits)) == multiset(hits)
  {
    if hits != [] {
      var n := |hits| - 1;
      SortedMembers(hits[..n]);
      assert hits == hits[..n] + [hits[n]];
      InsertMembers(Sorted(hits[..n]), hits[n]);
    }
  }

  lemma {:induction false} SortedRanked(hits: seq<Hit>)
    requires DistinctPoints(hits)
    ensures Ranked(Sorted(hits))
  {
    if hits != [] {
      hide Insert, Ranked;
      var n := |hits| - 1;
      SortedRanked(hits[..n]);
      SortedMembers(hits[..n]);
      forall x | x in Sorted(hits[..n])
        ensures x.pointId != hits[n].pointId
      {
        assert x in multiset(hits[..n]);
      }
      InsertRanked(Sorted(hits[..n]), hits[n]);
    }
  }

  lemma SameSize(a: seq<Hit>, b: seq<Hit>)
    requires multiset(a) == multiset(b)
    ensures |a| == |b|
  {
    assert |multiset(a)| == |a| && |multiset(b)| == |b|;
  }

  /** Two rankings of the same hits begin with the same hit. */
  lemma SameFirst(a: seq<Hit>, b: seq<Hit>)
    requires Ranked(a) && Ranked(b) && multiset(a) == multiset(b) && a != [] && b != []
    ensures a[0] == b[0]
  {
    assert a[0] in multiset(b) && b[0] in multiset(a);
    var i :| 0 <= i < |b| && b[i] == a[0];
    var j :| 0 <= j < |a| && a[j] == b[0];
    if i > 0 && j > 0 {
      PrecedesIsOrder(b[0], b[i], b[0]);
    }
  }

  /** Hits can be ranked in one way only. */
  lemma {:induction false} RankingIsUnique(a: seq<Hit>, b: seq<Hit>)
    requires Ranked(a) && Ranked(b) && multiset(a) == multiset(b)
    ensures a == b
    decreases |a|
  {
    SameSize(a, b);
    if a != [] {
      SameFirst(a, b);
      hide Ranked;
      assert a == [a[0]] + a[1..] && b == [b[0]] + b[1..];
      assert multiset(a[1..]) == multiset(a) - multiset{a[0]};
      assert multiset(b[1..]) == multiset(b) - multiset{b[0]};
      TailRanked(a);
      TailRanked(b);
      RankingIsUnique(a[1..], b[1..]);
    }
  }

  lemma TailRanked(a: seq<Hit>)
    requires Ranked(a) && a != []
    ensures Ranked(a[1..])
  {
  }

  /** A `topK` option: absent, a finite number, or something else. */
  datatype TopK = Absent | Finite(value: real) | NotFinite

  function Limit(topK: TopK): (limit: nat)
    requires !topK.NotFinite?
    ensures limit >= 1 && (topK.Absent? ==> limit == 10)
    ensures topK.Finite? ==>
      if topK.value < 1.0 then limit == 1 else limit as real <= topK.value < limit as real + 1.0
  {
    var wanted := (if topK.Absent? then DEFAULT_TOP_K else topK.value).Floor;
    if wanted < 1 then 1 else wanted
  }

  /** The first hits of the merged ranking, numbered from 1. */
  function TopOf(hits: seq<Hit>, limit: nat): seq<Hit> {
    var sorted := Sorted(hits);
    var n := if |sorted| <= limit then |sorted| else limit;
    seq(n, i requires 0 <= i < n => sorted[i].(rank := i + 1))
  }

  datatype RerankResult = RerankResult(preHits: seq<Hit>, goldenHits: seq<Hit>, mergedTopK: seq<Hit>)

  function RerankHits(pre: seq<RawHit>, golden: seq<RawHit>, topK: TopK, a: Artifact, curve: real -> real,
                      blank: string -> bool): Result<RerankResult, CalibrationError>
  {
    if topK.NotFinite? then Err(InvalidTopK)
    else
      var preHits := CalibrateHits(pre, PreSet, a, curve, blank);
      if preHits.Err? then Err(preHits.error)
      else
        var goldenHits := CalibrateHits(golden, GoldenSet, a, curve, blank);
        if goldenHits.Err? then Err(goldenHits.error)
        else Ok(RerankResult(preHits.value, goldenHits.value, TopOf(preHits.value + goldenHits.value, Limit(topK))))
  }

  /** Reranking fails exactly on a limit that is no number, and on an unusable artifact once there is a hit. */
  lemma RerankFailsIff(pre: seq<RawHit>, golden: seq<RawHit>, topK: TopK, a: Artifact, curve: real -> real,
                       blank: string -> bool)
    ensures
      var r := RerankHits(pre, golden, topK, a, curve, blank);
      && (r == Err(InvalidTopK) <==> topK.NotFinite?)
      && (r == Err(InvalidArtifact) <==>
            !topK.NotFinite? && (pre != [] || golden != [])
            && (|| a.preSet.scale <= 0.0 || a.goldenSet.scale <= 0.0
                || a.semanticDiscardConfidence < 0.0 || a.semanticDiscardConfidence > 1.0
                || blank(a.version) || blank(a.artifactId)))
  {
  }

  /** Both lists are the calibrated hits of their collections, and the merged one is taken from the two. */
  lemma RerankCarriesOver(pre: seq<RawHit>, golden: seq<RawHit>, topK: TopK, a: Artifact, curve: real -> real,
                          blank: string -> bool)
    requires IsLogistic(curve) && RerankHits(pre, golden, topK, a, curve, blank).Ok?
    ensures
      var r := RerankHits(pre, golden, topK, a, curve, blank).value;
      && |r.preHits| == |pre| && |r.goldenHits| == |golden|
      && (forall i | 0 <= i < |pre| :: Calibrated(r.preHits[i], pre[i], PreSet, a, curve))
      && (forall i | 0 <= i < |golden| :: Calibrated(r.goldenHits[i], golden[i], GoldenSet, a, curve))
      && r.mergedTopK == TopOf(r.preHits + r.goldenHits, Limit(topK))
  {
    hide Calibrated, TopOf;
    if pre != [] {
      CalibratedHits(pre, PreSet, a, curve, blank);
    }
    if golden != [] {
      CalibratedHits(golden, GoldenSet, a, curve, blank);
    }
  }

  /** `h` stands in the list, under the number of its place. */
  ghost predicate Listed(top: seq<Hit>, h: Hit) {
    exists i :: 0 <= i < |top| && top[i] == h.(rank := i + 1)
  }

  /**
   * The merged list holds the greatest hits in strict order, numbered from 1:
   * each is one of the input, and whatever is left out comes after all of them.
   */
  lemma TopHoldsGreatest(hits: seq<Hit>, limit: nat)
    requires DistinctPoints(hits) && limit >= 1
    ensures
      var top := TopOf(hits, limit);
      && |top| == (if |hits| <= limit then |hits| else limit)
      && Ranked(top)
      && (forall i | 0 <= i < |top| :: top[i].rank == i + 1 && exists h :: h in hits && top[i] == h.(rank := i + 1))
      && (forall h | h in hits :: Listed(top, h) || forall i | 0 <= i < |top| :: Precedes(top[i], h))
  {
    var sorted, top := Sorted(hits), TopOf(hits, limit);
    SortedRanks(hits);
    hide Sorted;
    RankedPrefix(sorted, top);
    forall i | 0 <= i < |top|
      ensures exists h :: h in hits && top[i] == h.(rank := i + 1)
    {
      assert sorted[i] in multiset(hits);
    }
    forall h | h in hits
      ensures Listed(top, h) || forall i | 0 <= i < |top| :: Precedes(top[i], h)
    {
      assert h in multiset(sorted);
      var k :| 0 <= k < |sorted| && sorted[k] == h;
      PlaceInTop(sorted, top, k);
    }
  }

  /** `top` is a prefix of `sorted`, renumbered. */
  ghost predicate Numbered(sorted: seq<Hit>, top: seq<Hit>) {
    |top| <= |sorted| && forall i | 0 <= i < |top| :: top[i] == sorted[i].(rank := i + 1)
  }

  lemma RankedPrefix(sorted: seq<Hit>, top: seq<Hit>)
    requires Ranked(sorted) && Numbered(sorted, top)
    ensures Ranked(top)
  {
    forall i, j | 0 <= i < j < |top|
      ensures Precedes(top[i], top[j])
    {
      assert Precedes(sorted[i], sorted[j]);
    }
  }

  lemma PlaceInTop(sorted: seq<Hit>, top: seq<Hit>, k: nat)
    requires Ranked(sorted) && Numbered(sorted, top) && k < |sorted|
    ensures Listed(top, sorted[k]) || forall i | 0 <= i < |top| :: Precedes(top[i], sorted[k])
  {
    if k < |top| {
      assert top[k] == sorted[k].(rank := k + 1);
    } else {
      forall i | 0 <= i < |top|
        ensures Precedes(top[i], sorted[k])
      {
        assert Precedes(sorted[i], sorted[k]);
      }
    }
  }

  /** The result does not depend on the order in which hits arrive. */
  lemma TopIgnoresOrder(a: seq<Hit>, b: seq<Hit>, limit: nat)
    requires multiset(a) == multiset(b) && DistinctPoints(a) && DistinctPoints(b)
    ensures TopOf(a, limit) == TopOf(b, limit)
  {
    SortedRanks(a);
    SortedRanks(b);
    RankingIsUnique(Sorted(a), Sorted(b));
  }
}
