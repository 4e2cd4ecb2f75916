/** The semantic vote: whether the merged hits say that a comment is not worth an answer. */
module SemanticFilter {
  import opened Wrappers
  import opened Calibration
  import opened Rerank

  predicate Discards(t: SemanticType) {
    t.FilterRisk? || t.LowValue?
  }

  datatype FilterDecision =
    | Discard(discardedBy: SemanticType, topSemanticType: SemanticType)
    | Candidate(topSemanticType: SemanticType)

  /** A hit that votes for discarding, and one that votes against. */
  predicate VotesDiscard(h: Hit) {
    h.semanticType.Some? && Discards(h.semanticType.value)
  }

  predicate VotesPositive(h: Hit) {
    h.semanticType.Some? && !Discards(h.semanticType.value)
  }

  /** The first of the most confident discard votes stands at `k`. */
  ghost predicate StrongestDiscard(hits: seq<Hit>, k: nat) {
    && k < |hits| && VotesDiscard(hits[k])
    && (forall i | 0 <= i < |hits| && VotesDiscard(hits[i]) :: hits[i].confidence <= hits[k].confidence)
    && (forall i | 0 <= i < k && VotesDiscard(hits[i]) :: hits[i].confidence < hits[k].confidence)
  }

  /** The vote carries: confident enough, and above every positive vote. */
  ghost predicate Carries(hits: seq<Hit>, k: nat, threshold: real) {
    && k < |hits| && hits[k].confidence >= threshold
    && forall i | 0 <= i < |hits| && VotesPositive(hits[i]) :: hits[i].confidence < hits[k].confidence
  }

  /** The first hit of a recognised type stands at `k`. */
  ghost predicate FirstRecognised(hits: seq<Hit>, k: nat) {
    k < |hits| && hits[k].semanticType.Some? && forall i | 0 <= i < k :: hits[i].semanticType.None?
  }

  ghost predicate TiedPositive(hits: seq<Hit>, k: nat) {
    k < |hits| && exists i :: 0 <= i < |hits| && VotesPositive(hits[i]) && hits[i].confidence == hits[k].confidence
  }

  /** The first recognised hit decides against the comment. */
  ghost predicate DecidedBy(hits: seq<Hit>, k: nat, threshold: real) {
    FirstRecognised(hits, k) && VotesDiscard(hits[k]) && hits[k].confidence >= threshold && !TiedPositive(hits, k)
  }

  /**
   * On a ranked list the vote is decided by the first recognised hit: a comment is
   * discarded exactly when that hit is of a discard kind, confident enough, and
   * no positive hit ties with it; and then it is the one that names the reason.
   */
  lemma VoteOfRanked(hits: seq<Hit>, k: nat, threshold: real)
    requires Ranked(hits)
    ensures StrongestDiscard(hits, k) && Carries(hits, k, threshold) <==> DecidedBy(hits, k, threshold)
  {
    assert forall i, j | 0 <= i < j < |hits| :: Precedes(hits[i], hits[j]) && hits[i].confidence >= hits[j].confidence;
    if StrongestDiscard(hits, k) && Carries(hits, k, threshold) {
      forall i | 0 <= i < k
        ensures hits[i].semanticType.None?
      {
        assert hits[i].confidence >= hits[k].confidence;
      }
    }
    if DecidedBy(hits, k, threshold) {
      forall i | 0 <= i < |hits| && VotesPositive(hits[i])
        ensures hits[i].confidence < hits[k].confidence
      {
        assert i > k;
      }
    }
  }

  lemma VoteCarries(hits: seq<Hit>, k: nat, threshold: real, maxPositive: real)
    requires forall h | h in hits :: 0.0 <= h.confidence
    requires forall j | 0 <= j < |hits| && VotesPositive(hits[j]) :: hits[j].confidence <= maxPositive
    requires maxPositive == -1.0 || exists j ::
      0 <= j < |hits| && VotesPositive(hits[j]) && hits[j].confidence == maxPositive
    ensures Carries(hits, k, threshold) <==>
      k < |hits| && hits[k].confidence >= threshold && maxPositive < hits[k].confidence
    ensures forall i: nat :: StrongestDiscard(hits, i) && StrongestDiscard(hits, k) ==> i == k
  {
  }

  /** A hit of one of the five types that are answered. */
  ghost predicate OfInterest(h: Hit) {
    h.semanticType in {Some(PersonaRelevant), Some(PositivePraise), Some(FunnyJoke), Some(InteractiveQuestion),
                       Some(AtmosphereBoost)}
  }

  /** A hit of one of the two unwanted types, confident enough and above every hit of one of the other five types. */
  ghost predicate Decides(hits: seq<Hit>, k: nat, threshold: real) {
    && k < |hits| && hits[k].semanticType in {Some(FilterRisk), Some(LowValue)} && hits[k].confidence >= threshold
    && forall i | 0 <= i < |hits| && OfInterest(hits[i]) :: hits[i].confidence < hits[k].confidence
  }

  lemma WhenDecided(hits: seq<Hit>, threshold: real)
    ensures (exists k: nat :: StrongestDiscard(hits, k) && Carries(hits, k, threshold))
       <==> (exists k :: 0 <= k < |hits| && Decides(hits, k, threshold))
    ensures forall k: nat | StrongestDiscard(hits, k) :: hits[k].semanticType.value in {FilterRisk, LowValue}
  {
    if k: nat :| StrongestDiscard(hits, k) && Carries(hits, k, threshold) {
      assert Decides(hits, k, threshold);
    }
    if k :| 0 <= k < |hits| && Decides(hits, k, threshold) {
      var s := FirstStrongest(hits, |hits|, k);
      assert Carries(hits, s, threshold);
    }
  }

  /** Among the discard votes one is the first of the most confident. */
  lemma {:induction false} FirstStrongest(hits: seq<Hit>, n: nat, k: nat) returns (s: nat)
    requires k < n <= |hits| && VotesDiscard(hits[k])
    ensures s < n && VotesDiscard(hits[s]) && hits[k].confidence <= hits[s].confidence
    ensures forall i | 0 <= i < n && VotesDiscard(hits[i]) :: hits[i].confidence <= hits[s].confidence
    ensures forall i | 0 <= i < s && VotesDiscard(hits[i]) :: hits[i].confidence < hits[s].confidence
    decreases n
  {
    var last := n - 1;
    if exists i :: 0 <= i < last && VotesDiscard(hits[i]) {
      var i :| 0 <= i < last && VotesDiscard(hits[i]);
      s := FirstStrongest(hits, last, if k < last then k else i);
      if VotesDiscard(hits[last]) && hits[last].confidence > hits[s].confidence {
        s := last;
      }
    } else {
      s := k;
    }
  }

  method EvaluateSemanticFilter(hits: seq<Hit>, threshold: real) returns (r: FilterDecision)
    requires forall h | h in hits :: 0.0 <= h.confidence
    ensures r.topSemanticType ==
      if hits != [] && hits[0].semanticType.Some? then hits[0].semanticType.value else LowValue
    ensures r.Discard? <==> exists k: nat :: StrongestDiscard(hits, k) && Carries(hits, k, threshold)
    ensures r.Discard? ==> exists k: nat ::
      StrongestDiscard(hits, k) && Carries(hits, k, threshold) && hits[k].semanticType == Some(r.discardedBy)
    ensures r.Discard? ==> r.discardedBy in {FilterRisk, LowValue}
    ensures r.Discard? <==> exists k :: 0 <= k < |hits| && Decides(hits, k, threshold)
  {
    hide Carries, Decides;
    if |hits| == 0 {
      return Candidate(LowValue);
    }
    var top := if hits[0].semanticType.Some? then hits[0].semanticType.value else LowValue;
    var maxDiscard, maxPositive := -1.0, -1.0;
    var discardedBy: Option<SemanticType> := None;
    ghost var k, p := 0, 0;
    for i := 0 to |hits|
      invariant discardedBy.None? ==> maxDiscard == -1.0 && forall j | 0 <= j < i :: !VotesDiscard(hits[j])
      invariant discardedBy.Some? ==>
        k < i && StrongestDiscard(hits[..i], k) && maxDiscard == hits[k].confidence
          && discardedBy == hits[k].semanticType
      invariant forall j | 0 <= j < i && VotesPositive(hits[j]) :: hits[j].confidence <= maxPositive
      invariant maxPositive == -1.0 || (p < i && VotesPositive(hits[p]) && hits[p].confidence == maxPositive)
    {
      var hit := hits[i];
      assert hit in hits;
      if hit.semanticType.Some? {
        if Discards(hit.semanticType.value) {
          if hit.confidence > maxDiscard {
            maxDiscard, discardedBy := hit.confidence, hit.semanticType;
            k := i;
          }
        } else {
          if hit.confidence > maxPositive {
            maxPositive := hit.confidence;
            p := i;
          }
        }
      }
    }
    assert hits[..|hits|] == hits;
    VoteCarries(hits, k, threshold, maxPositive);
    ghost var carried := exists k: nat :: StrongestDiscard(hits, k) && Carries(hits, k, threshold);
    assert carried <==> maxDiscard >= threshold && maxPositive < maxDiscard && discardedBy.Some?;
    hide StrongestDiscard;
    WhenDecided(hits, threshold);
    if maxDiscard >= threshold && maxPositive < maxDiscard && discardedBy.Some? {
      return Discard(discardedBy.value, top);
    }
    r := Candidate(top);
  }

  /** What reranking hands to the vote is ranked and calibrated, so its first recognised hit decides. */
  lemma RerankedIsRanked(pre: seq<RawHit>, golden: seq<RawHit>, topK: TopK, a: Artifact, curve: real -> real,
                         blank: string -> bool)
    requires IsLogistic(curve)
    requires RerankHits(pre, golden, topK, a, curve, blank).Ok?
    requires
      var r := RerankHits(pre, golden, topK, a, curve, blank).value;
      DistinctPoints(r.preHits + r.goldenHits)
    ensures
      var top := RerankHits(pre, golden, topK, a, curve, blank).value.mergedTopK;
      Ranked(top) && forall h | h in top :: 0.0 < h.confidence < 1.0
  {
    var r := RerankHits(pre, golden, topK, a, curve, blank).value;
    var merged := r.preHits + r.goldenHits;
    CalibratedBetween(pre, PreSet, a, curve, blank);
    CalibratedBetween(golden, GoldenSet, a, curve, blank);
    hide CalibrateHits, TopOf;
    TopHoldsGreatest(merged, Limit(topK));
    forall h | h in r.mergedTopK
      ensures 0.0 < h.confidence < 1.0
    {
      var i :| 0 <= i < |r.mergedTopK| && r.mergedTopK[i] == h;
      var x :| x in merged && r.mergedTopK[i] == x.(rank := i + 1);
    }
  }

  lemma CalibratedBetween(hits: seq<RawHit>, collection: SourceCollection, a: Artifact, curve: real -> real,
                          blank: string -> bool)
    requires IsLogistic(curve)
    requires CalibrateHits(hits, collection, a, curve, blank).Ok?
    ensures forall h | h in CalibrateHits(hits, collection, a, curve, blank).value :: 0.0 < h.confidence < 1.0
  {
    if hits != [] {
      CalibratedHits(hits, collection, a, curve, blank);
    }
  }

  /**
   * The vote on what reranking hands over: the first recognised hit decides. The
   * comment is discarded exactly when that hit is of a discard kind, confident
   * enough, and no positive hit ties with it; and then it names the reason.
   */
  method EvaluateRetrieval(pre: seq<RawHit>, golden: seq<RawHit>, topK: TopK, a: Artifact, curve: real -> real,
                           blank: string -> bool)
    returns (r: Result<FilterDecision, CalibrationError>)
    requires IsLogistic(curve)
    requires
      var reranked := RerankHits(pre, golden, topK, a, curve, blank);
      reranked.Ok? ==> DistinctPoints(reranked.value.preHits + reranked.value.goldenHits)
    ensures r.Err? <==> RerankHits(pre, golden, topK, a, curve, blank).Err?
    ensures r.Ok? ==>
      var top := RerankHits(pre, golden, topK, a, curve, blank).value.mergedTopK;
      && (r.value.Discard? ==> exists k: nat :: FirstRecognised(top, k))
      && forall k: nat | FirstRecognised(top, k) ::
           && (r.value.Discard? <==> DecidedBy(top, k, a.semanticDiscardConfidence))
           && (r.value.Discard? ==> top[k].semanticType == Some(r.value.discardedBy))
           && (k == 0 ==> top[k].semanticType == Some(r.value.topSemanticType))
  {
    hide RerankHits, DistinctPoints, Ranked, Carries, StrongestDiscard, DecidedBy;
    var reranked := RerankHits(pre, golden, topK, a, curve, blank);
    if reranked.Err? {
      return Err(reranked.error);
    }
    RerankedIsRanked(pre, golden, topK, a, curve, blank);
    var top := reranked.value.mergedTopK;
    var decision := EvaluateSemanticFilter(top, a.semanticDiscardConfidence);
    DecidedAtFirst(top, a.semanticDiscardConfidence);
    r := Ok(decision);
  }

  /** On a ranked list the strongest discard vote that carries is the first recognised hit. */
  lemma DecidedAtFirst(hits: seq<Hit>, threshold: real)
    requires Ranked(hits)
    ensures forall k: nat :: StrongestDiscard(hits, k) && Carries(hits, k, threshold) <==> DecidedBy(hits, k, threshold)
    ensures forall k: nat :: DecidedBy(hits, k, threshold) ==> FirstRecognised(hits, k)
    ensures forall j: nat, k: nat :: FirstRecognised(hits, j) && FirstRecognised(hits, k) ==> j == k
  {
    forall k: nat
      ensures StrongestDiscard(hits, k) && Carries(hits, k, threshold) <==> DecidedBy(hits, k, threshold)
    {
      VoteOfRanked(hits, k, threshold);
    }
  }
}
