/** Retrieval hits and the calibration of raw scores into confidences. */
module Calibration {
  import opened Wrappers

  datatype SemanticType =
    | PersonaRelevant
    | PositivePraise
    | FunnyJoke
    | InteractiveQuestion
    | AtmosphereBoost
    | LowValue
    | FilterRisk

  datatype SourceCollection = PreSet | GoldenSet

  datatype RawHit = RawHit(pointId: Text, caseId: string, rawScore: real, rank: nat, semanticType: Option<SemanticType>)

  /** A calibrated hit; an unknown semantic type is `None`. */
  datatype Hit = Hit(
    pointId: Text, caseId: string, collection: SourceCollection, rawScore: real, confidence: real, rank: nat,
    semanticType: Option<SemanticType>)

  datatype Sigmoid = Sigmoid(center: real, scale: real)
  datatype Artifact = Artifact(artifactId: string, version: string, preSet: Sigmoid, goldenSet: Sigmoid,
                               semanticDiscardConfidence: real)

  datatype CalibrationError = InvalidArtifact | InvalidTopK

  predicate ValidArtifact(a: Artifact, blank: string -> bool) {
    && a.preSet.scale > 0.0 && a.goldenSet.scale > 0.0
    && 0.0 <= a.semanticDiscardConfidence <= 1.0
    && !blank(a.version) && !blank(a.artifactId)
  }

  /** The logistic curve, known only to increase strictly between 0 and 1. */
  ghost predicate IsLogistic(curve: real -> real) {
    && (forall z :: 0.0 < curve(z) < 1.0)
    && (forall y, z :: y < z ==> curve(y) < curve(z))
  }

  function Params(a: Artifact, collection: SourceCollection): Sigmoid {
    if collection.PreSet? then a.preSet else a.goldenSet
  }

  function CalibrateScore(rawScore: real, collection: SourceCollection, a: Artifact, curve: real -> real): real
    requires Params(a, collection).scale > 0.0
  {
    var params := Params(a, collection);
    curve((rawScore - params.center) / params.scale)
  }

  /** Calibration never changes the order of two scores of one collection. */
  lemma CalibrationKeepsOrder(x: real, y: real, collection: SourceCollection, a: Artifact, curve: real -> real)
    requires Params(a, collection).scale > 0.0 && IsLogistic(curve)
    ensures x < y <==> CalibrateScore(x, collection, a, curve) < CalibrateScore(y, collection, a, curve)
    ensures x == y <==> CalibrateScore(x, collection, a, curve) == CalibrateScore(y, collection, a, curve)
  {
    var params := Params(a, collection);
    QuotientOrder(x - params.center, y - params.center, params.scale);
    QuotientOrder(y - params.center, x - params.center, params.scale);
  }

  lemma QuotientOrder(x: real, y: real, scale: real)
    requires scale > 0.0
    ensures x < y ==> x / scale < y / scale
  {
    var p, q := x / scale, y / scale;
    assert x == p * scale && y == q * scale;
    ProductOrder(q, p, scale);
  }

  lemma ProductOrder(p: real, q: real, scale: real)
    requires scale > 0.0
    ensures p <= q ==> p * scale <= q * scale
  {
  }

  function CalibrateHit(h: RawHit, collection: SourceCollection, a: Artifact, curve: real -> real): Hit
    requires Params(a, collection).scale > 0.0
  {
    Hit(h.pointId, h.caseId, collection, h.rawScore, CalibrateScore(h.rawScore, collection, a, curve), h.rank,
        h.semanticType)
  }

  /** Calibrates hits one by one: an invalid artifact is only noticed when there is a hit. */
  function CalibrateHits(hits: seq<RawHit>, collection: SourceCollection, a: Artifact, curve: real -> real,
                         blank: string -> bool): (r: Result<seq<Hit>, CalibrationError>)
    ensures r.Err? <==> hits != [] && !ValidArtifact(a, blank)
    ensures r.Ok? ==> |r.value| == |hits|
  {
    if hits == [] then Ok([])
    else if !ValidArtifact(a, blank) then Err(InvalidArtifact)
    else Ok(seq(|hits|, i requires 0 <= i < |hits| => CalibrateHit(hits[i], collection, a, curve)))
  }

  /** The confidence is the curve's value where the score stands, measured from the center in units of the scale. */
  ghost predicate OnCurve(confidence: real, rawScore: real, params: Sigmoid, curve: real -> real) {
    exists z :: z * params.scale == rawScore - params.center && confidence == curve(z)
  }

  /** A hit with its confidence on the curve of its collection, and all else as it came. */
  ghost predicate Calibrated(h: Hit, raw: RawHit, collection: SourceCollection, a: Artifact, curve: real -> real) {
    && h.pointId == raw.pointId && h.caseId == raw.caseId && h.rawScore == raw.rawScore && h.rank == raw.rank
    && h.semanticType == raw.semanticType && h.collection == collection
    && (collection.PreSet? ==> OnCurve(h.confidence, raw.rawScore, a.preSet, curve))
    && (collection.GoldenSet? ==> OnCurve(h.confidence, raw.rawScore, a.goldenSet, curve))
  }

  lemma CalibratedOne(h: RawHit, collection: SourceCollection, a: Artifact, curve: real -> real)
    requires Params(a, collection).scale > 0.0
    ensures Calibrated(CalibrateHit(h, collection, a, curve), h, collection, a, curve)
  {
    var params := Params(a, collection);
    var z := (h.rawScore - params.center) / params.scale;
    assert z * params.scale == h.rawScore - params.center;
    assert CalibrateHit(h, collection, a, curve).confidence == curve(z);
  }

  /** Calibrated hits carry their raw hits over, with a confidence on the curve, strictly between 0 and 1. */
  lemma CalibratedHits(hits: seq<RawHit>, collection: SourceCollection, a: Artifact, curve: real -> real,
                       blank: string -> bool)
    requires ValidArtifact(a, blank) && IsLogistic(curve)
    ensures
      var r := CalibrateHits(hits, collection, a, curve, blank);
      r.Ok? && |r.value| == |hits| && forall i | 0 <= i < |hits| ::
        && Calibrated(r.value[i], hits[i], collection, a, curve)
        && 0.0 < r.value[i].confidence < 1.0
  {
    hide Calibrated;
    forall i | 0 <= i < |hits|
      ensures Calibrated(CalibrateHit(hits[i], collection, a, curve), hits[i], collection, a, curve)
    {
      CalibratedOne(hits[i], collection, a, curve);
    }
  }
}
