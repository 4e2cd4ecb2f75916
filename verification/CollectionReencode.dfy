/** Reading a golden collection page by page and re-encoding its points under new versions. */
module CollectionReencode {
  import opened Wrappers
  import opened QdrantServer

  const SCROLL_PAGE_LIMIT: nat := 256

  /** The versions this program writes and reads. */
  const CURRENT := Versions("zh_jieba_search_v2", "zh_bm25_normalize_v1")

  /** The text pipeline and the payload schema, as far as they matter here. */
  datatype Encoder = Encoder(
    tokenizerVersion: string, fieldsOk: string -> bool, hasTokens: string -> bool, vector: string -> Vector)

  /** Whether a payload, restamped with the pipeline's version, passes the schema. */
  predicate Restampable(enc: Encoder, p: Payload) {
    enc.tokenizerVersion == CURRENT.tokenizer && enc.fieldsOk(p.fields)
  }

  /** Whether a stored point is carried over by a re-encoding. */
  predicate Carried(enc: Encoder, p: Payload) {
    Restampable(enc, p) && enc.hasTokens(p.fields)
  }

  /** The payload of a point that was carried over: the fields stand, the version is the current one. */
  ghost predicate Restamped(enc: Encoder, p: Payload, point: Point) {
    && point.payload.fields == p.fields
    && point.payload.tokenizerVersion == CURRENT.tokenizer
    && point.vector == enc.vector(p.fields)
  }

  /**
   * Every point of the old collection, but for the ids exempt, has valid fields,
   * and when its text has tokens it is in the new collection under its own id.
   */
  ghost predicate CarriedOver(before: map<PointId, Point>, after: map<PointId, Point>, enc: Encoder,
                              exempt: set<PointId>)
  {
    forall id | id in before && id !in exempt ::
      && enc.fieldsOk(before[id].payload.fields)
      && (enc.hasTokens(before[id].payload.fields) ==> id in after && Restamped(enc, before[id].payload, after[id]))
  }

  /** Both hold the same but at the exempt ids. */
  ghost predicate SameBut(a: map<PointId, Point>, b: map<PointId, Point>, exempt: set<PointId>) {
    forall id | id !in exempt :: Lookup(b, id) == Lookup(a, id)
  }

  lemma SameTrans(a: map<PointId, Point>, b: map<PointId, Point>, c: map<PointId, Point>, v: set<PointId>,
                  w: set<PointId>)
    requires SameBut(a, b, v) && SameBut(b, c, w) && v <= w
    ensures SameBut(a, c, w)
  {
    forall id | id !in w
      ensures Lookup(c, id) == Lookup(a, id)
    {
      assert Lookup(b, id) == Lookup(a, id);
    }
  }

  /** What was carried over stays so while only exempt ids of the old collection are written. */
  lemma CarriedDrift(a: map<PointId, Point>, b: map<PointId, Point>, after: map<PointId, Point>, enc: Encoder,
                     v: set<PointId>, w: set<PointId>)
    requires CarriedOver(a, after, enc, v) && v <= w && SameBut(a, b, w)
    ensures CarriedOver(b, after, enc, w)
  {
    forall id | id in b && id !in w
      ensures id in a && a[id] == b[id]
    {
      assert Lookup(b, id) == Lookup(a, id);
    }
  }

  /** Every point exactly once, in id order; only at the exempt ids may it have been read differently or not at all. */
  ghost predicate ReadsAll(points: map<PointId, Point>, entries: seq<Entry>, exempt: set<PointId>) {
    && (forall i | 0 <= i < |entries| && entries[i].id !in exempt ::
          entries[i].id in points && entries[i].payload == points[entries[i].id].payload)
    && (forall i, j | 0 <= i < j < |entries| :: entries[i].id < entries[j].id)
    && (forall id | id in points && id !in exempt :: Entry(id, points[id].payload) in entries)
  }

  /** As `ReadsAll`, for the points before `offset`. */
  ghost predicate ReadsBelow(points: map<PointId, Point>, entries: seq<Entry>, offset: Option<PointId>,
                             exempt: set<PointId>)
  {
    && (offset.None? ==> entries == [])
    && (forall i | 0 <= i < |entries| && entries[i].id !in exempt ::
          entries[i].id in points && entries[i].payload == points[entries[i].id].payload)
    && (forall i, j | 0 <= i < j < |entries| :: entries[i].id < entries[j].id)
    && (offset.Some? ==>
          && (forall i | 0 <= i < |entries| :: entries[i].id < offset.value)
          && (forall id | id in points && id < offset.value && id !in exempt ::
                Entry(id, points[id].payload) in entries))
  }

  /** What was read stays read while only exempt ids are written. */
  lemma ReadsDrift(a: map<PointId, Point>, b: map<PointId, Point>, entries: seq<Entry>, offset: Option<PointId>,
                   v: set<PointId>, w: set<PointId>)
    requires ReadsBelow(a, entries, offset, v) && v <= w && SameBut(a, b, w)
    ensures ReadsBelow(b, entries, offset, w)
  {
    forall id | id !in w
      ensures id in b <==> id in a
      ensures id in a ==> b[id] == a[id]
    {
      assert Lookup(b, id) == Lookup(a, id);
    }
  }

  lemma PageExtends(points: map<PointId, Point>, entries: seq<Entry>, offset: Option<PointId>, page: seq<Entry>,
                    next: Option<PointId>, exempt: set<PointId>)
    requires ReadsBelow(points, entries, offset, exempt) && PageOk(points, offset, SCROLL_PAGE_LIMIT, page, next)
    ensures next.Some? ==> ReadsBelow(points, entries + page, next, exempt)
    ensures next.None? ==> ReadsAll(points, entries + page, exempt)
  {
    var more := entries + page;
    forall id | id in points && id !in exempt && (next.Some? ==> id < next.value)
      ensures Entry(id, points[id].payload) in more
    {
      PageReaches(points, entries, offset, page, next, exempt, id);
    }
    PageAscends(points, entries, offset, page, next, exempt);
  }

  lemma PageReaches(points: map<PointId, Point>, entries: seq<Entry>, offset: Option<PointId>, page: seq<Entry>,
                    next: Option<PointId>, exempt: set<PointId>, id: PointId)
    requires ReadsBelow(points, entries, offset, exempt) && PageOk(points, offset, SCROLL_PAGE_LIMIT, page, next)
    requires id in points && id !in exempt && (next.Some? ==> id < next.value)
    ensures Entry(id, points[id].payload) in entries + page
  {
    if offset.Some? && id < offset.value {
      assert Entry(id, points[id].payload) in entries;
    } else {
      assert InPage(id, offset, next);
      assert Entry(id, points[id].payload) in page;
    }
  }

  lemma PageAscends(points: map<PointId, Point>, entries: seq<Entry>, offset: Option<PointId>, page: seq<Entry>,
                    next: Option<PointId>, exempt: set<PointId>)
    requires ReadsBelow(points, entries, offset, exempt) && PageOk(points, offset, SCROLL_PAGE_LIMIT, page, next)
    ensures forall i, j | 0 <= i < j < |entries + page| :: (entries + page)[i].id < (entries + page)[j].id
  {
  }

  function Start(offset: Option<PointId>): int {
    if offset.Some? then offset.value else -1
  }

  /** The ids at which other clients may have written to a collection. */
  ghost function Busy(q: Server, name: Name): set<PointId>
    reads q
  {
    if q.Target() == Some(name) then q.written else {}
  }

  /**
   * Scrolls through a whole collection. Every point that nobody wrote to is read
   * exactly once; the paging ends even under concurrent writes.
   */
  method ReadGoldenEntries(q: Server, name: Name) returns (r: Option<seq<Entry>>)
    requires q.Valid()
    modifies q`collections, q`outside, q`written
    ensures q.OnlyOthersWrote()
    ensures r.Some? ==> name in q.collections
    ensures r.Some? ==> ReadsAll(q.collections[name].points, r.value, Busy(q, name))
  {
    hide ReadsBelow, ReadsAll, PageOk, Drift;
    var entries: seq<Entry> := [];
    var offset: Option<PointId> := None;
    DriftRefl(q.collections, q.Target(), q.written);
    StartsEmpty(q.collections, name);
    while true
      invariant q.OnlyOthersWrote()
      invariant name in q.collections ==> ReadsBelow(q.collections[name].points, entries, offset, Busy(q, name))
      decreases ID_SPACE - Start(offset)
    {
      ghost var before, already, busy := q.collections, q.written, Busy(q, name);
      var page := q.Scroll(name, SCROLL_PAGE_LIMIT, offset);
      DriftTrans(old(q.collections), before, q.collections, q.Target(), already, q.written);
      if page.None? {
        return None;
      }
      DriftStays(before, q.collections, q.Target(), q.written, name);
      NextAdvances(q.collections[name].points, offset, page.value.0, page.value.1);
      ReadsDrift(before[name].points, q.collections[name].points, entries, offset, busy, Busy(q, name));
      PageExtends(q.collections[name].points, entries, offset, page.value.0, page.value.1, Busy(q, name));
      entries := entries + page.value.0;
      if page.value.1.None? {
        break;
      }
      offset := page.value.1;
    }
    r := Some(entries);
  }

  lemma StartsEmpty(collections: map<Name, Collection>, name: Name)
    ensures name in collections ==> forall exempt :: ReadsBelow(collections[name].points, [], None, exempt)
  {
  }

  lemma DriftRefl(a: map<Name, Collection>, target: Option<Name>, w: set<PointId>)
    ensures Drift(a, a, target, w)
  {
  }

  lemma DriftStays(before: map<Name, Collection>, after: map<Name, Collection>, target: Option<Name>,
                   written: set<PointId>, name: Name)
    requires Drift(before, after, target, written)
    ensures name in before <==> name in after
    ensures name in before ==> DriftAt(before[name], after[name], target == Some(name), written)
  {
  }

  lemma NextAdvances(points: map<PointId, Point>, offset: Option<PointId>, page: seq<Entry>, next: Option<PointId>)
    requires PageOk(points, offset, SCROLL_PAGE_LIMIT, page, next)
    ensures next.Some? ==> Start(offset) < next.value
  {
    if next.Some? {
      assert page[0].id < next.value;
    }
  }

  /** The same payload under the pipeline's version, with its new vector. */
  function Reencoded(enc: Encoder, p: Payload): (point: Point)
    ensures point.payload.fields == p.fields && point.vector == enc.vector(p.fields)
    ensures point.payload.tokenizerVersion == enc.tokenizerVersion
  {
    Point(p.(tokenizerVersion := enc.tokenizerVersion), enc.vector(p.fields))
  }

  /** The points a re-encoding keeps, in order. */
  function Kept(enc: Encoder, entries: seq<Entry>): seq<(PointId, Point)> {
    if entries == [] then []
    else
      var last := entries[|entries| - 1];
      Kept(enc, entries[..|entries| - 1])
      + if Carried(enc, last.payload) then [(last.id, Reencoded(enc, last.payload))] else []
  }

  /** Re-encodes every entry; none is dropped without being counted. */
  method ReencodeGoldenEntries(enc: Encoder, entries: seq<Entry>)
    returns (points: seq<(PointId, Point)>, skippedInvalidPayload: nat, skippedEmptyVector: nat)
    ensures points == Kept(enc, entries)
    ensures |points| + skippedInvalidPayload + skippedEmptyVector == |entries|
    ensures skippedInvalidPayload == 0 <==>
      forall e | e in entries :: enc.tokenizerVersion == CURRENT.tokenizer && enc.fieldsOk(e.payload.fields)
  {
    points, skippedInvalidPayload, skippedEmptyVector := [], 0, 0;
    for i := 0 to |entries|
      invariant points == Kept(enc, entries[..i])
      invariant |points| + skippedInvalidPayload + skippedEmptyVector == i
      invariant skippedInvalidPayload == 0 <==> forall e | e in entries[..i] :: Restampable(enc, e.payload)
    {
      var entry := entries[i];
      assert entries[..i + 1] == entries[..i] + [entry];
      var raw := entry.payload.(tokenizerVersion := enc.tokenizerVersion);
      if raw.tokenizerVersion != CURRENT.tokenizer || !enc.fieldsOk(raw.fields) {
        skippedInvalidPayload := skippedInvalidPayload + 1;
      } else if !enc.hasTokens(raw.fields) {
        skippedEmptyVector := skippedEmptyVector + 1;
      } else {
        points := points + [(entry.id, Point(raw, enc.vector(raw.fields)))];
      }
    }
    assert entries[..|entries|] == entries;
  }

  lemma KeptStep(enc: Encoder, entries: seq<Entry>)
    requires entries != []
    ensures
      var last := entries[|entries| - 1];
      Kept(enc, entries) == Kept(enc, entries[..|entries| - 1])
        + if Carried(enc, last.payload) then [(last.id, Reencoded(enc, last.payload))] else []
  {
  }

  lemma UpsertedSnoc(points: seq<(PointId, Point)>, p: (PointId, Point))
    ensures Upserted(map[], points + [p]) == Upserted(map[], points)[p.0 := p.1]
  {
    assert (points + [p])[..|points|] == points;
  }

  /** Storing what a re-encoding kept puts every carried entry under its own id. */
  lemma KeptIsStored(enc: Encoder, entries: seq<Entry>)
    requires forall i, j | 0 <= i < j < |entries| :: entries[i].id < entries[j].id
    ensures
      var stored := Upserted(map[], Kept(enc, entries));
      forall e | e in entries && enc.tokenizerVersion == CURRENT.tokenizer && enc.fieldsOk(e.payload.fields)
                 && enc.hasTokens(e.payload.fields) ::
        e.id in stored && Restamped(enc, e.payload, stored[e.id])
    ensures forall id | id in Upserted(map[], Kept(enc, entries)) :: exists e :: e in entries && e.id == id
  {
    hide Kept, Upserted, Reencoded;
    forall e | e in entries && Carried(enc, e.payload)
      ensures Lookup(Upserted(map[], Kept(enc, entries)), e.id) == Some(Reencoded(enc, e.payload))
    {
      var i :| 0 <= i < |entries| && entries[i] == e;
      EntryIsStored(enc, entries, i);
    }
    forall id | id in Upserted(map[], Kept(enc, entries))
      ensures exists e :: e in entries && e.id == id
    {
      var i := StoredIsEntry(enc, entries, id);
      assert entries[i] in entries;
    }
  }

  lemma {:induction false} EntryIsStored(enc: Encoder, entries: seq<Entry>, i: nat)
    requires forall i, j | 0 <= i < j < |entries| :: entries[i].id < entries[j].id
    requires i < |entries| && Carried(enc, entries[i].payload)
    ensures Lookup(Upserted(map[], Kept(enc, entries)), entries[i].id) == Some(Reencoded(enc, entries[i].payload))
    decreases |entries|
  {
    hide Kept, Upserted, Carried, Reencoded;
    var rest, last := entries[..|entries| - 1], entries[|entries| - 1];
    KeptStep(enc, entries);
    if Carried(enc, last.payload) {
      UpsertedSnoc(Kept(enc, rest), (last.id, Reencoded(enc, last.payload)));
    } else {
      assert Kept(enc, entries) == Kept(enc, rest);
    }
    if i < |rest| {
      EntryIsStored(enc, rest, i);
      assert entries[i].id < last.id;
    }
  }

  lemma {:induction false} StoredIsEntry(enc: Encoder, entries: seq<Entry>, id: PointId) returns (i: nat)
    requires id in Upserted(map[], Kept(enc, entries))
    ensures i < |entries| && entries[i].id == id
    decreases |entries|
  {
    hide Kept, Upserted, Carried, Reencoded;
    NothingKept(enc);
    var rest, last := entries[..|entries| - 1], entries[|entries| - 1];
    KeptStep(enc, entries);
    if last.id == id {
      i := |rest|;
    } else {
      if Carried(enc, last.payload) {
        UpsertedSnoc(Kept(enc, rest), (last.id, Reencoded(enc, last.payload)));
      } else {
        assert Kept(enc, entries) == Kept(enc, rest);
      }
      i := StoredIsEntry(enc, rest, id);
    }
  }

  lemma NothingKept(enc: Encoder)
    ensures Kept(enc, []) == [] && Upserted(map[], []) == map[]
  {
  }
}
