/**
 * Publishing a new `pre_set` package: new collections are built beside the old
 * ones, golden points are carried over when their versions are stale, and one
 * alias update makes the result visible.
 */
module Bootstrap {
  import opened Wrappers
  import opened QdrantServer
  import opened CollectionReencode

  datatype BootstrapError =
    | ImportFailed
    | CallFailed
    | PointCountMismatch
    | NotSearchable
    | InvalidGoldenPayload
    | ReportFailed

  datatype Profile = Profile(profileId: string, versions: Versions)

  datatype GoldenState = Missing | Current | Stale

  /**
   * The collection that the golden alias was switched to held, at the switch,
   * every point of `source` that nobody had written since the start. From the
   * clean-up on it serves all that `source` held at the switch, or `source` is
   * still there.
   */
  ghost predicate MigrationKept(q: Server, source: Name, enc: Encoder)
    reads q
  {
    && source in q.atSwitch && q.Target().Some? && q.Target().value in q.atSwitch
    && CarriedOver(q.atSwitch[source].points, q.atSwitch[q.Target().value].points, enc, q.writtenBefore)
    && (StillThere(q, source) || AllReadable(q, q.atSwitch[source].points, enc))
  }

  ghost predicate StillThere(q: Server, source: Name)
    reads q
  {
    source in q.collections && source in q.atSwitch && q.collections[source] == q.atSwitch[source]
  }

  /**
   * Every point whose text has tokens, unless its id was written since, is
   * readable under the golden alias with its id, its fields and its new vector.
   */
  ghost predicate AllReadable(q: Server, points: map<PointId, Point>, enc: Encoder)
    reads q
  {
    && q.Target().Some? && q.Target().value in q.collections
    && CarriedOver(points, q.collections[q.Target().value].points, enc, q.written)
  }

  /** The collection behind an alias, if there is one. */
  ghost function Behind(q: Server, alias: Alias): Option<Collection>
    reads q
  {
    if alias in q.aliases && q.aliases[alias] in q.collections then Some(q.collections[q.aliases[alias]]) else None
  }

  method IsStale(q: Server, name: Name) returns (r: Option<bool>)
    requires q.Valid()
    modifies q`collections, q`outside, q`written
    ensures q.OnlyOthersWrote()
    ensures r.Some? ==> name in q.collections && r.value == (q.collections[name].versions != CURRENT)
  {
    var versions := q.GetVersions(name);
    r := if versions.None? then None else Some(versions.value != CURRENT);
  }

  /**
   * A golden collection left without its alias: one whose versions could be read
   * and are current if there is any, else a stale one. `unread` are those whose
   * versions could not be read, which count as stale.
   */
  method FindOrphanGoldenCollection(q: Server) returns (r: Option<Option<(Name, bool)>>, ghost unread: set<Name>)
    requires q.Valid()
    modifies q`collections, q`outside, q`written
    ensures q.OnlyOthersWrote()
    ensures r.Some? ==> (r.value.None? <==> forall n | n in q.collections :: !n.GoldenName?)
    ensures r.Some? && r.value.Some? ==> r.value.value.0.GoldenName? && r.value.value.0 in q.collections
    ensures r.Some? && r.value.Some? && !r.value.value.1 ==> Adoptable(q.collections, unread, r.value.value.0)
    ensures r.Some? && r.value.Some? && r.value.value.1 ==> forall n :: !Adoptable(q.collections, unread, n)
  {
    hide Drift, OutsideKept, Adoptable;
    unread := {};
    var names := q.GetCollections();
    if names.None? {
      return None, unread;
    }
    var staleOrphan: Option<(Name, bool)> := None;
    for i := 0 to |names.value|
      invariant q.OnlyOthersWrote()
      invariant staleOrphan.None? <==> forall j | 0 <= j < i :: !names.value[j].GoldenName?
      invariant staleOrphan.Some? ==>
        staleOrphan.value.0.GoldenName? && staleOrphan.value.0 in names.value && staleOrphan.value.1
      invariant forall n :: n in names.value <==> n in q.collections
      invariant forall j | 0 <= j < i :: !Adoptable(q.collections, unread, names.value[j])
    {
      var name := names.value[i];
      OnlyGolden(q.collections, unread, name);
      if name.GoldenName? {
        ghost var before, already, kept := q.collections, q.written, q.outside;
        var stale := IsStale(q, name);
        DriftTrans(old(q.collections), before, q.collections, q.Target(), already, q.written);
        DriftKeys(before, q.collections, q.Target(), q.written);
        OutsideTrans(old(q.outside), kept, q.outside, q.Target());
        AdoptableSame(before, q.collections, unread);
        NextRead(q.collections, unread, names.value, i, stale);
        unread := if stale.None? then unread + {name} else unread - {name};
        if stale == Some(false) {
          return Some(Some((name, false))), unread;
        }
        if staleOrphan.None? {
          staleOrphan := Some((name, true));
        }
      }
    }
    NoOtherAdoptable(q.collections, unread, names.value);
    r := Some(staleOrphan);
  }

  /** Reading the versions of one more collection: it is not adoptable unless they are current. */
  lemma NextRead(collections: map<Name, Collection>, unread: set<Name>, names: seq<Name>, i: nat, stale: Option<bool>)
    requires i < |names| && names[i] in collections && names[i].GoldenName?
    requires stale.Some? ==> stale.value == (collections[names[i]].versions != CURRENT)
    requires forall j | 0 <= j < i :: !Adoptable(collections, unread, names[j])
    ensures
      var unread' := if stale.None? then unread + {names[i]} else unread - {names[i]};
      if stale == Some(false) then Adoptable(collections, unread', names[i])
      else forall j | 0 <= j < i + 1 :: !Adoptable(collections, unread', names[j])
  {
  }

  lemma NoOtherAdoptable(collections: map<Name, Collection>, unread: set<Name>, names: seq<Name>)
    requires forall n | n in collections :: n in names
    requires forall j | 0 <= j < |names| :: !Adoptable(collections, unread, names[j])
    ensures forall n :: !Adoptable(collections, unread, n)
  {
    forall n
      ensures !Adoptable(collections, unread, n)
    {
      if n in collections {
        var j :| 0 <= j < |names| && names[j] == n;
      }
    }
  }

  /** A golden collection of the current versions that could be read as such. */
  ghost predicate Adoptable(collections: map<Name, Collection>, unread: set<Name>, n: Name) {
    n.GoldenName? && n in collections && collections[n].versions == CURRENT && n !in unread
  }

  lemma OnlyGolden(collections: map<Name, Collection>, unread: set<Name>, n: Name)
    ensures Adoptable(collections, unread, n) ==> n.GoldenName?
  {
  }

  lemma AdoptableSame(before: map<Name, Collection>, after: map<Name, Collection>, unread: set<Name>)
    requires after.Keys == before.Keys && forall n | n in before :: after[n].versions == before[n].versions
    ensures forall n :: Adoptable(after, unread, n) <==> Adoptable(before, unread, n)
  {
  }

  lemma OutsideTrans(a: map<Name, Collection>, b: map<Name, Collection>, c: map<Name, Collection>, target: Option<Name>)
    requires OutsideKept(a, b, target) && OutsideKept(b, c, target)
    ensures OutsideKept(a, c, target)
  {
  }

  lemma DriftKeys(before: map<Name, Collection>, after: map<Name, Collection>, target: Option<Name>,
                  written: set<PointId>)
    requires Drift(before, after, target, written)
    ensures after.Keys == before.Keys
    ensures forall n | n in before :: after[n].versions == before[n].versions
    ensures forall n | n in before && target != Some(n) :: after[n] == before[n]
  {
    forall n | n in before
      ensures after[n].versions == before[n].versions
      ensures target != Some(n) ==> after[n] == before[n]
    {
      assert DriftAt(before[n], after[n], target == Some(n), written);
    }
  }

  /** As `DriftKeys`, when one collection was written to as well. */
  lemma OthersKeep(before: map<Name, Collection>, after: map<Name, Collection>, name: Name, target: Option<Name>,
                   written: set<PointId>)
    requires after.Keys == before.Keys
    requires forall n | n in before && n != name :: DriftAt(before[n], after[n], target == Some(n), written)
    ensures forall n | n in before && n != name :: after[n].versions == before[n].versions
    ensures forall n | n in before && n != name && target != Some(n) :: after[n] == before[n]
  {
  }

  lemma OthersSame(before: map<Name, Collection>, after: map<Name, Collection>, name: Name, target: Option<Name>,
                   written: set<PointId>)
    requires after.Keys == before.Keys
    requires forall n | n in before && n != name :: DriftAt(before[n], after[n], target == Some(n), written)
    ensures forall n | n in before && n != name ::
      SameBut(before[n].points, after[n].points, if target == Some(n) then written else {})
  {
  }

  /** More writes of other clients after one collection was written to. */
  lemma SinceDrift(a: map<Name, Collection>, b: map<Name, Collection>, c: map<Name, Collection>, name: Name,
                   target: Option<Name>, v: set<PointId>, w: set<PointId>)
    requires a.Keys == b.Keys && Drift(b, c, target, w) && v <= w
    requires forall n | n in a && n != name ::
      SameBut(a[n].points, b[n].points, if target == Some(n) then v else {})
    ensures c.Keys == a.Keys
    ensures forall n | n in a && n != name ::
      SameBut(a[n].points, c[n].points, if target == Some(n) then w else {})
  {
    hide SameBut;
    forall n | n in a && n != name
      ensures SameBut(a[n].points, c[n].points, if target == Some(n) then w else {})
    {
      assert DriftAt(b[n], c[n], target == Some(n), w);
      DriftSame(b[n], c[n], target == Some(n), w);
      SameTrans(a[n].points, b[n].points, c[n].points, if target == Some(n) then v else {},
                if target == Some(n) then w else {});
    }
  }

  lemma DriftSame(before: Collection, after: Collection, target: bool, written: set<PointId>)
    requires DriftAt(before, after, target, written)
    ensures SameBut(before.points, after.points, if target then written else {})
  {
  }

  /** Where golden points are now, and whether they must be carried over. */
  method LocateGolden(q: Server, aliasMap: map<Alias, Name>)
    returns (r: Option<(GoldenState, Option<Name>)>, ghost unread: set<Name>)
    requires q.Valid() && q.Untouched() && aliasMap == q.aliases
    modifies q`collections, q`outside, q`written
    ensures q.OnlyOthersWrote()
    ensures r.Some? ==>
      var (state, source) := r.value;
      && (state.Missing? <==> source.None?)
      && (Golden in q.aliases ==> source == Some(q.aliases[Golden]))
      && (source.Some? ==> source.value in q.collections && (Golden !in q.aliases ==> source.value.GoldenName?))
      && (state.Current? ==> q.collections[source.value].versions == CURRENT)
      && (state.Stale? && Golden in q.aliases ==> q.collections[source.value].versions != CURRENT)
      && (state.Missing? ==> forall n | n in q.collections :: !n.GoldenName?)
      && (Golden !in q.aliases ==> (state.Current? <==> exists n :: Adoptable(q.collections, unread, n)))
      && (Golden !in q.aliases && state.Current? ==> Adoptable(q.collections, unread, source.value))
  {
    unread := {};
    if Golden in aliasMap {
      var stale := IsStale(q, aliasMap[Golden]);
      if stale.None? {
        return None, unread;
      }
      return Some((if stale.value then Stale else Current, Some(aliasMap[Golden]))), unread;
    }
    var orphan;
    orphan, unread := FindOrphanGoldenCollection(q);
    if orphan.None? {
      return None, unread;
    }
    if orphan.value.None? {
      return Some((Missing, None)), unread;
    }
    r := Some((if orphan.value.value.1 then Stale else Current, Some(orphan.value.value.0)));
  }

  /** The package's points are stored, counted and found by a sample query. */
  method Fill(q: Server, pre: Name, points: seq<(PointId, Point)>, sampleHasTokens: bool)
    returns (error: Option<BootstrapError>)
    requires q.Valid() && q.Untouched()
    requires pre !in q.outside && pre in q.collections && q.collections[pre].points == map[]
    modifies q`collections, q`outside, q`written
    ensures q.Valid() && q.Untouched() && OutsideKept(old(q.outside), q.outside, q.Target())
    ensures q.collections.Keys == old(q.collections).Keys
    ensures forall n | n in q.collections :: q.collections[n].versions == old(q.collections)[n].versions
    ensures forall n | n in q.collections && n != pre && q.Target() != Some(n) ::
      q.collections[n] == old(q.collections)[n]
    ensures error.None? ==>
      q.collections[pre].points == Upserted(map[], points) && |Upserted(map[], points)| == |points|
  {
    var stored := q.Upsert(pre, points);
    if !stored {
      return Some(CallFailed);
    }
    assert q.Target() != Some(pre);
    var count := q.Count(pre);
    if count.None? {
      return Some(CallFailed);
    }
    if count.value != |points| {
      return Some(PointCountMismatch);
    }
    if |points| > 0 && sampleHasTokens {
      var hits := q.Query(pre);
      if hits.None? {
        return Some(CallFailed);
      }
      if !hits.value {
        return Some(NotSearchable);
      }
    }
    error := None;
  }

  /** Every point of the second map is in the first. */
  ghost predicate Holds(points: map<PointId, Point>, some: map<PointId, Point>) {
    forall id | id in some :: Lookup(points, id) == Some(some[id])
  }

  /** What was kept of a collection is all that can be carried over, and nothing in it was refused. */
  lemma AllRestamped(enc: Encoder, points: map<PointId, Point>, entries: seq<Entry>, exempt: set<PointId>)
    requires ReadsAll(points, entries, exempt)
    requires forall e | e in entries :: enc.tokenizerVersion == CURRENT.tokenizer && enc.fieldsOk(e.payload.fields)
    ensures CarriedOver(points, Upserted(map[], Kept(enc, entries)), enc, exempt)
  {
    KeptIsStored(enc, entries);
    hide Upserted, Kept;
    forall id | id in points && id !in exempt
      ensures Entry(id, points[id].payload) in entries
    {
    }
  }

  lemma CarriedWhen(before: map<PointId, Point>, kept: map<PointId, Point>, after: map<PointId, Point>, enc: Encoder,
                    exempt: set<PointId>)
    requires CarriedOver(before, kept, enc, exempt) && Holds(after, kept)
    ensures CarriedOver(before, after, enc, exempt)
  {
    assert forall id | id in kept :: Lookup(after, id) == Some(kept[id]);
  }

  /** Stores re-encoded points; nothing is sent when there are none. */
  method UpsertReencodedGolden(q: Server, name: Name, points: seq<(PointId, Point)>) returns (ok: bool)
    requires q.Valid() && name in q.collections
    modifies q`collections, q`outside, q`written
    ensures q.Valid() && OutsideKept(old(q.outside), q.outside, q.Target()) && old(q.written) <= q.written
    ensures old(q.Untouched()) && name !in q.outside ==> q.Untouched()
    ensures q.collections.Keys == old(q.collections).Keys
    ensures forall n | n in old(q.collections) && n != name ::
      DriftAt(old(q.collections)[n], q.collections[n], q.Target() == Some(n), q.written)
    ensures q.collections[name].versions == old(q.collections)[name].versions
    ensures ok ==> forall id | id in Upserted(map[], points) ::
      Lookup(q.collections[name].points, id) == Some(Upserted(map[], points)[id])
  {
    if |points| == 0 {
      return true;
    }
    ok := q.Upsert(name, points);
  }

  /** Carries the golden points over before the switch; refuses when any would be dropped. */
  method ReencodeGoldenCollection(q: Server, source: Name, target: Name, enc: Encoder, reportFails: bool)
    returns (error: Option<BootstrapError>)
    requires q.Valid() && q.Untouched() && target !in q.outside && target in q.collections && source in q.outside
    modifies q`collections, q`outside, q`written
    ensures q.Valid() && q.Untouched() && OutsideKept(old(q.outside), q.outside, q.Target())
    ensures q.collections.Keys == old(q.collections).Keys
    ensures forall n | n in q.collections :: q.collections[n].versions == old(q.collections)[n].versions
    ensures forall n | n in q.collections && n !in q.outside && n != target :: q.collections[n] == old(q.collections)[n]
    ensures old(q.written) <= q.written
    ensures error.None? ==>
      CarriedOver(q.collections[source].points, q.collections[target].points, enc, Busy(q, source))
  {
    hide Drift, DriftAt, OutsideKept, CarriedOver, ReadsAll, Kept, Upserted;
    var entries := ReadGoldenEntries(q, source);
    DriftKeys(old(q.collections), q.collections, q.Target(), q.written);
    if entries.None? {
      return Some(CallFailed);
    }
    var points, invalid, empty := ReencodeGoldenEntries(enc, entries.value);
    if invalid > 0 {
      return Some(InvalidGoldenPayload);
    }
    AllRestamped(enc, q.collections[source].points, entries.value, Busy(q, source));
    ghost var read, busy := q.collections[source].points, Busy(q, source);
    ghost var kept := q.outside;
    OutsideKeys(old(q.outside), kept, q.Target());
    error := StoreReencoded(q, target, points, reportFails);
    OutsideTrans(old(q.outside), kept, q.outside, q.Target());
    if error.None? {
      CarriedWhen(read, Upserted(map[], points), q.collections[target].points, enc, busy);
      CarriedDrift(read, q.collections[source].points, q.collections[target].points, enc, busy, Busy(q, source));
    }
  }

  lemma OutsideKeys(before: map<Name, Collection>, after: map<Name, Collection>, target: Option<Name>)
    requires OutsideKept(before, after, target)
    ensures after.Keys == before.Keys
  {
  }

  /** The re-encoded points are stored and counted. */
  method StoreReencoded(q: Server, target: Name, points: seq<(PointId, Point)>, reportFails: bool)
    returns (error: Option<BootstrapError>)
    requires q.Valid() && q.Untouched() && target !in q.outside && target in q.collections
    modifies q`collections, q`outside, q`written
    ensures q.Valid() && q.Untouched() && OutsideKept(old(q.outside), q.outside, q.Target())
    ensures q.collections.Keys == old(q.collections).Keys
    ensures forall n | n in q.collections :: q.collections[n].versions == old(q.collections)[n].versions
    ensures forall n | n in q.collections && n !in q.outside && n != target :: q.collections[n] == old(q.collections)[n]
    ensures old(q.written) <= q.written
    ensures forall n | n in q.collections && n != target ::
      SameBut(old(q.collections)[n].points, q.collections[n].points, Busy(q, n))
    ensures error.None? ==> Holds(q.collections[target].points, Upserted(map[], points))
  {
    hide Drift, DriftAt, SameBut;
    ghost var before := q.collections;
    var stored := UpsertReencodedGolden(q, target, points);
    OthersKeep(before, q.collections, target, q.Target(), q.written);
    OthersSame(before, q.collections, target, q.Target(), q.written);
    if !stored {
      return Some(CallFailed);
    }
    before := q.collections;
    ghost var already := q.written;
    var count := q.Count(target);
    DriftKeys(before, q.collections, q.Target(), q.written);
    SinceDrift(old(q.collections), before, q.collections, target, q.Target(), already, q.written);
    if count.None? {
      return Some(CallFailed);
    }
    if count.value != |points| {
      return Some(PointCountMismatch);
    }
    error := if reportFails then Some(ReportFailed) else None;
  }

  /** Carries over what landed in the old collection up to the switch. */
  method ReplayLateGoldenWrites(q: Server, source: Name, target: Name, enc: Encoder) returns (replayed: bool)
    requires q.Valid() && q.Target() == Some(target) && source != target
    requires source in q.collections && target in q.collections
    modifies q`collections, q`outside, q`written
    ensures q.Valid() && q.collections.Keys == old(q.collections).Keys && old(q.written) <= q.written
    ensures forall n | n in q.collections :: q.collections[n].versions == old(q.collections)[n].versions
    ensures forall n | n in q.collections && n != target :: q.collections[n] == old(q.collections)[n]
    ensures OutsideKept(old(q.outside), q.outside, q.Target())
    ensures replayed ==> AllReadable(q, q.collections[source].points, enc)
  {
    var entries := ReadGoldenEntries(q, source);
    if entries.None? {
      return false;
    }
    var points, invalid, empty := ReencodeGoldenEntries(enc, entries.value);
    if invalid > 0 {
      return false;
    }
    AllRestamped(enc, q.collections[source].points, entries.value, {});
    hide Kept, Upserted;
    ghost var before := q.collections[source].points;
    replayed := UpsertReencodedGolden(q, target, points);
    if replayed {
      CarriedWhen(before, Upserted(map[], points), q.collections[target].points, enc, {});
    }
  }

  /** A collection that existed before is as other clients left it. */
  ghost predicate Intact(q: Server, n: Name)
    reads q
  {
    n in q.outside && n in q.collections && q.collections[n] == q.outside[n]
  }

  /** The collection is gone, unless the server refused to delete it. */
  ghost predicate Deleted(q: Server, n: Name)
    reads q
  {
    n in q.collections ==> n in q.refused
  }

  /** One of the two aliases resolves to it. */
  ghost predicate Served(q: Server, n: Name)
    reads q
  {
    Lookup(q.aliases, PreSet) == Some(n) || Lookup(q.aliases, Golden) == Some(n)
  }

  /** Best effort after the switch: replay, then delete the old collections if that succeeded. */
  method CleanUp(q: Server, oldPre: Option<Name>, source: Name, pre: Name, target: Name, enc: Encoder)
    returns (replayed: bool)
    requires q.Valid() && Lookup(q.aliases, Golden) == Some(target) && Lookup(q.aliases, PreSet) == Some(pre)
    requires q.collections == q.atSwitch && source in q.collections && target in q.collections
    requires CarriedOver(q.atSwitch[source].points, q.atSwitch[target].points, enc, q.writtenBefore)
    requires source != target && source != pre && pre != target && oldPre != Some(pre) && oldPre != Some(target)
    requires target !in q.outside && forall n | n in q.outside :: n in q.collections && q.collections[n] == q.outside[n]
    modifies q`collections, q`outside, q`written, q`aliases, q`refused
    ensures forall n | n in q.outside :: Intact(q, n) || (n !in q.collections && (oldPre == Some(n) || source == n))
    ensures q.Valid() && Lookup(q.aliases, Golden) == Some(target) && Lookup(q.aliases, PreSet) == Some(pre)
    ensures MigrationKept(q, source, enc) && q.collections.Keys <= old(q.collections).Keys
    ensures replayed ==> Deleted(q, source) && (oldPre.Some? ==> Deleted(q, oldPre.value))
    ensures q.collections[target].versions == old(q.collections)[target].versions
    ensures q.collections[pre] == old(q.collections)[pre]
    ensures q.outside == old(q.outside)
  {
    replayed := ReplayLateGoldenWrites(q, source, target, enc);
    if replayed {
      DeleteBoth(q, oldPre, source, pre, target, enc, q.atSwitch[source].points);
    }
  }

  /** The old `pre_set` and the golden source are deleted, each if it can be. */
  method DeleteBoth(q: Server, oldPre: Option<Name>, source: Name, pre: Name, target: Name, enc: Encoder,
                    ghost points: map<PointId, Point>)
    requires q.Valid() && Lookup(q.aliases, Golden) == Some(target) && Lookup(q.aliases, PreSet) == Some(pre)
    requires source != target && source != pre && pre != target && oldPre != Some(pre) && oldPre != Some(target)
    requires AllReadable(q, points, enc)
    modifies q`collections, q`outside, q`written, q`aliases, q`refused
    ensures OutsideKept(old(q.outside), q.outside, Some(target)) && q.collections.Keys <= old(q.collections).Keys
    ensures forall n | n in old(q.collections) && n != target ::
      if n in q.collections then q.collections[n] == old(q.collections)[n] else oldPre == Some(n) || source == n
    ensures q.Valid() && Lookup(q.aliases, Golden) == Some(target) && Lookup(q.aliases, PreSet) == Some(pre)
    ensures AllReadable(q, points, enc)
    ensures Deleted(q, source) && (oldPre.Some? ==> Deleted(q, oldPre.value))
    ensures q.collections[target].versions == old(q.collections)[target].versions
    ensures q.collections[pre] == old(q.collections)[pre]
  {
    hide AllReadable;
    if oldPre.Some? {
      DeleteOld(q, oldPre.value, pre, target, enc, points);
    }
    DeleteOld(q, source, pre, target, enc, points);
  }

  method DeleteOld(q: Server, name: Name, pre: Name, target: Name, enc: Encoder, ghost points: map<PointId, Point>)
    requires q.Valid() && Lookup(q.aliases, Golden) == Some(target) && Lookup(q.aliases, PreSet) == Some(pre)
    requires name != target && name != pre && pre != target
    requires AllReadable(q, points, enc)
    modifies q`collections, q`outside, q`written, q`aliases, q`refused
    ensures q.collections.Keys <= old(q.collections).Keys
    ensures forall n | n in old(q.collections) && n != target ::
      if n in q.collections then q.collections[n] == old(q.collections)[n] else n == name
    ensures q.Valid() && Lookup(q.aliases, Golden) == Some(target) && Lookup(q.aliases, PreSet) == Some(pre)
    ensures AllReadable(q, points, enc)
    ensures Deleted(q, name) && old(q.refused) <= q.refused
    ensures q.collections[target].versions == old(q.collections)[target].versions
    ensures q.collections[pre] == old(q.collections)[pre]
    ensures OutsideKept(old(q.outside), q.outside, Some(target))
  {
    var deleted := q.DeleteCollection(name);
  }

  /** The alias actions of a publication, in the order they are sent. */
  function AliasActions(aliasMap: map<Alias, Name>, pre: Name, state: GoldenState, source: Option<Name>, target: Name)
    : seq<AliasAction>
  {
    Replace(PreSet in aliasMap, PreSet, Some(pre))
    + Replace(state.Stale? && Golden in aliasMap, Golden,
              if !state.Current? then Some(target) else if Golden !in aliasMap then source else None)
  }

  /** Deletes an alias when asked to, then creates it when given a name. */
  function Replace(delete: bool, alias: Alias, name: Option<Name>): seq<AliasAction> {
    (if delete then [DeleteAlias(alias)] else []) + if name.Some? then [CreateAlias(alias, name.value)] else []
  }

  lemma {:induction false} AppliedConcat(aliases: map<Alias, Name>, a: seq<AliasAction>, b: seq<AliasAction>)
    ensures Applied(aliases, a + b) == Applied(Applied(aliases, a), b)
  {
    if b == [] {
      assert a + b == a;
    } else {
      assert (a + b)[..|a + b| - 1] == a + b[..|b| - 1];
      AppliedConcat(aliases, a, b[..|b| - 1]);
    }
  }

  lemma ReplaceSets(aliases: map<Alias, Name>, delete: bool, alias: Alias, name: Option<Name>)
    requires delete ==> name.Some?
    ensures Applied(aliases, Replace(delete, alias, name)) ==
      if name.Some? then aliases[alias := name.value] else aliases
  {
    var del: seq<AliasAction> := if delete then [DeleteAlias(alias)] else [];
    assert del[..0] == [] && Applied(aliases, []) == aliases;
    if name.Some? {
      assert Replace(delete, alias, name)[..|del|] == del;
    } else {
      assert Replace(delete, alias, name) == [];
    }
  }

  /** The actions point `pre_set` at the new collection and `golden_set` where it belongs, and touch nothing else. */
  lemma ActionsSwitch(aliasMap: map<Alias, Name>, pre: Name, state: GoldenState, source: Option<Name>, target: Name)
    requires state.Missing? <==> source.None?
    requires Golden in aliasMap ==> source == Some(aliasMap[Golden])
    ensures Applied(aliasMap, AliasActions(aliasMap, pre, state, source, target)) ==
            aliasMap[PreSet := pre][Golden := if state.Current? then source.value else target]
  {
    hide Applied, Replace;
    var golden := if !state.Current? then Some(target) else if Golden !in aliasMap then source else None;
    var deleted := state.Stale? && Golden in aliasMap;
    ReplaceSets(aliasMap, PreSet in aliasMap, PreSet, Some(pre));
    ReplaceSets(aliasMap[PreSet := pre], deleted, Golden, golden);
    AppliedConcat(aliasMap, Replace(PreSet in aliasMap, PreSet, Some(pre)), Replace(deleted, Golden, golden));
  }

  /** Everything between the creation of the collections and the end of the alias switch. */
  method Publish(q: Server, aliasMap: map<Alias, Name>, state: GoldenState, source: Option<Name>, pre: Name,
                 target: Name, points: seq<(PointId, Point)>, sampleHasTokens: bool, enc: Encoder, reportFails: bool)
    returns (error: Option<BootstrapError>)
    requires q.Valid() && q.Untouched() && aliasMap == q.aliases
    requires pre in q.collections && pre !in q.outside && q.collections[pre].points == map[]
    requires !state.Current? ==> target in q.collections && target !in q.outside && target != pre
    requires state.Missing? <==> source.None?
    requires source.Some? ==> source.value in q.outside && (Golden in aliasMap ==> source.value == aliasMap[Golden])
    requires Golden in aliasMap ==> source.Some?
    modifies q`collections, q`outside, q`written, q`aliases, q`atSwitch, q`writtenBefore
    ensures q.Valid() && OutsideKept(old(q.outside), q.outside, old(q.Target()))
    ensures q.collections.Keys == old(q.collections).Keys
    ensures forall n | n in q.collections :: q.collections[n].versions == old(q.collections)[n].versions
    ensures error.Some? ==> q.Untouched()
    ensures error.None? ==>
      && q.aliases == aliasMap[PreSet := pre][Golden := if state.Current? then source.value else target]
      && q.collections == q.atSwitch
      && (forall n | n in q.outside :: n in q.collections && q.collections[n] == q.outside[n])
      && q.collections[pre].points == Upserted(map[], points) && |q.collections[pre].points| == |points|
      && (state.Missing? ==> q.collections[target] == old(q.collections)[target])
      && (state.Stale? ==>
            CarriedOver(q.atSwitch[source.value].points, q.atSwitch[target].points, enc, q.writtenBefore))
  {
    hide Applied, AliasActions, Upserted, CarriedOver;
    error := Fill(q, pre, points, sampleHasTokens);
    if error.Some? {
      return;
    }
    if state.Stale? {
      error := ReencodeGoldenCollection(q, source.value, target, enc, reportFails);
      if error.Some? {
        return;
      }
    }
    ActionsSwitch(aliasMap, pre, state, source, target);
    assert q.Target() != Some(pre) && (state.Stale? ==> q.Target() != Some(target));
    ghost var before, busy := q.collections, if state.Stale? then Busy(q, source.value) else {};
    var switched := q.UpdateAliases(AliasActions(aliasMap, pre, state, source, target));
    if !switched {
      return Some(CallFailed);
    }
    if state.Stale? {
      DriftSame(before[source.value], q.collections[source.value], old(q.Target()) == source, q.writtenBefore);
      CarriedDrift(before[source.value].points, q.collections[source.value].points, q.collections[target].points, enc,
                   busy, q.writtenBefore);
    }
  }

  /** Takes the new collections back, each if it can be deleted. */
  method Undo(q: Server, pre: Name, target: Option<Name>)
    requires q.Valid() && q.Untouched() && pre !in q.outside && (target.Some? ==> target.value !in q.outside)
    modifies q`collections, q`outside, q`written, q`aliases, q`refused
    ensures q.Valid() && q.Untouched() && OutsideKept(old(q.outside), q.outside, old(q.Target()))
    ensures q.collections.Keys <= old(q.collections).Keys
    ensures Deleted(q, pre) && (target.Some? ==> Deleted(q, target.value))
  {
    var deleted := q.DeleteCollection(pre);
    if target.Some? {
      deleted := q.DeleteCollection(target.value);
    }
  }

  /** The guarded part of a bootstrap: an error before the switch takes the new collections back. */
  method PublishOrUndo(q: Server, aliasMap: map<Alias, Name>, state: GoldenState, source: Option<Name>, pre: Name,
                       target: Name, points: seq<(PointId, Point)>, sampleHasTokens: bool, enc: Encoder,
                       reportFails: bool)
    returns (error: Option<BootstrapError>)
    requires q.Valid() && q.Untouched() && aliasMap == q.aliases
    requires pre in q.collections && pre !in q.outside && q.collections[pre] == Collection(CURRENT, map[])
    requires target != pre
    requires !state.Current? ==>
      target !in q.outside && target in q.collections && q.collections[target].versions == CURRENT
    requires state.Missing? <==> source.None?
    requires source.Some? ==> source.value in q.outside && (Golden in aliasMap ==> source.value == aliasMap[Golden])
    requires state.Current? ==> q.collections[source.value].versions == CURRENT
    requires Golden in aliasMap ==> source.Some?
    requires forall n | n in q.collections :: n in q.outside || n == pre || (!state.Current? && n == target)
    modifies q`collections, q`outside, q`written, q`aliases, q`atSwitch, q`writtenBefore, q`refused
    ensures q.Valid() && OutsideKept(old(q.outside), q.outside, old(q.Target()))
    ensures error.Some? ==> q.Untouched() && forall n | n in q.collections :: n in q.outside || n in q.refused
    ensures error.None? ==> forall n | n in q.collections :: n in q.outside || Served(q, n)
    ensures error.None? ==>
      && Behind(q, PreSet) == Some(Collection(CURRENT, Upserted(map[], points)))
      && |Upserted(map[], points)| == |points|
      && Behind(q, Golden).Some? && Behind(q, Golden).value.versions == CURRENT
      && (state.Stale? ==> q.aliases[Golden] == target && MigrationKept(q, source.value, enc))
      && (state.Current? ==>
        q.aliases[Golden] == source.value && q.collections[source.value] == q.outside[source.value])
      && (state.Missing? ==> q.aliases[Golden] == target && q.collections[target] == old(q.collections)[target])
      && forall n | n in q.outside ::
           || Intact(q, n)
           || (n !in q.collections && state.Stale? && (Lookup(aliasMap, PreSet) == Some(n) || source == Some(n)))
  {
    hide MigrationKept, Upserted, CarriedOver, OutsideKept, AllReadable, StillThere;
    error := Publish(q, aliasMap, state, source, pre, target, points, sampleHasTokens, enc, reportFails);
    OutsideKeys(old(q.outside), q.outside, old(q.Target()));
    if error.Some? {
      ghost var kept := q.outside;
      Undo(q, pre, if state.Current? then None else Some(target));
      OutsideTrans(old(q.outside), kept, q.outside, old(q.Target()));
      return;
    }
    if state.Stale? {
      var replayed := CleanUp(q, Lookup(aliasMap, PreSet), source.value, pre, target, enc);
    }
  }

  /** Creates the new `pre_set` collection and, unless golden points stay where they are, the golden one. */
  method CreateBoth(q: Server, pre: Name, golden: Option<Name>, ghost source: Option<Name>, versions: Versions)
    returns (ok: bool)
    requires q.Valid() && q.Untouched() && q.outside.Keys == q.collections.Keys && golden != Some(pre)
    requires source.Some? ==> source.value in q.collections
    modifies q`collections, q`outside, q`written
    ensures q.Valid() && q.Untouched() && OutsideKept(old(q.outside), q.outside, q.Target())
    ensures ok ==>
      && pre in q.collections && pre !in q.outside && q.collections[pre] == Collection(versions, map[])
      && (golden.Some? ==> golden.value !in q.outside && golden.value in q.collections
                           && q.collections[golden.value] == Collection(versions, map[]))
      && forall n | n in q.collections :: n in q.outside || n == pre || golden == Some(n)
    ensures source.Some? ==>
      source.value in q.collections && q.collections[source.value].versions == old(q.collections)[source.value].versions
  {
    ok := q.CreateCollection(pre, versions);
    if ok && golden.Some? {
      ok := q.CreateCollection(golden.value, versions);
    }
  }

  /**
   * Publishes a package. On an error both aliases resolve as before and every
   * collection that existed is as other clients left it. On success both aliases
   * resolve to collections of the current versions, `pre_set` holds exactly the
   * package, and the golden points stay where the alias found them, or are
   * carried over when their versions are stale. Without the alias a collection of
   * the current versions is adopted as it stands, if one could be read as such,
   * even when it is empty and a stale one is not; only when there is no golden
   * collection at all is a new one created. Nothing that existed is touched,
   * except that a migration may delete its source and the old `pre_set`. Of the
   * new collections, a success leaves only those behind the aliases, and an error
   * found after they were created only those the server refused to delete.
   */
  method BootstrapPreSet(q: Server, package: Option<seq<(PointId, Point)>>, profile: Profile, sampleHasTokens: bool,
                         enc: Encoder, reportFails: bool)
    returns (r: Result<Profile, BootstrapError>, ghost migratedFrom: Option<Name>, ghost unread: set<Name>)
    requires q.Valid() && profile.versions == CURRENT
    modifies q
    ensures q.Valid() && OutsideKept(old(q.collections), q.outside, old(q.Target()))
    ensures r.Err? ==>
      && q.aliases == old(q.aliases)
      && forall n | n in old(q.collections) :: n in q.collections && q.collections[n] == q.outside[n]
    ensures r.Err? && !r.error.CallFailed? ==>
      forall n | n in q.collections :: n in old(q.collections) || n in q.refused
    ensures r.Ok? ==> forall n | n in q.collections :: n in old(q.collections) || Served(q, n)
    ensures r.Ok? ==>
      && package.Some? && r.value == profile
      && Behind(q, PreSet) == Some(Collection(CURRENT, Upserted(map[], package.value)))
      && |Upserted(map[], package.value)| == |package.value|
      && Behind(q, Golden).Some? && Behind(q, Golden).value.versions == CURRENT
    ensures r.Ok? && migratedFrom.Some? ==>
      migratedFrom.value in old(q.collections) && MigrationKept(q, migratedFrom.value, enc)
    ensures r.Ok? && Golden in old(q.aliases) ==>
      migratedFrom == (if old(q.collections[q.aliases[Golden]].versions) == CURRENT then None
                       else Some(old(q.aliases)[Golden]))
    ensures r.Ok? && migratedFrom.None? && q.aliases[Golden] in old(q.collections) ==>
      q.collections[q.aliases[Golden]] == q.outside[q.aliases[Golden]]
    ensures
      && r.Ok? && migratedFrom.None?
      && (Golden in old(q.aliases) || exists n | n in old(q.collections) :: n.GoldenName?) ==>
      && q.aliases[Golden] in old(q.collections)
      && (Golden in old(q.aliases) ==> q.aliases[Golden] == old(q.aliases)[Golden])
    ensures r.Ok? && Golden !in old(q.aliases) ==>
      && (migratedFrom.None? && q.aliases[Golden] in old(q.collections) <==>
            exists n :: Adoptable(old(q.collections), unread, n))
      && (migratedFrom.None? && q.aliases[Golden] in old(q.collections) ==>
            Adoptable(old(q.collections), unread, q.aliases[Golden]))
      && ((forall n | n in old(q.collections) :: !n.GoldenName?) ==>
            migratedFrom.None? && Behind(q, Golden) == Some(Collection(CURRENT, map[])))
    ensures r.Ok? ==>
      forall n | n in old(q.collections) ::
        || Intact(q, n)
        || (&& n !in q.collections && migratedFrom.Some?
            && (Lookup(old(q.aliases), PreSet) == Some(n) || migratedFrom == Some(n)))
  {
    hide Drift, DriftAt, MigrationKept, Upserted, Adoptable;
    migratedFrom, unread := None, {};
    q.MarkStart();
    if package.None? {
      return Err(ImportFailed), None, unread;
    }
    ghost var before := q.collections;
    var aliasMap := q.GetAliases();
    DriftKeys(before, q.collections, q.Target(), q.written);
    before := q.collections;
    if aliasMap.None? {
      return Err(CallFailed), None, unread;
    }
    var located;
    located, unread := LocateGolden(q, aliasMap.value);
    DriftKeys(before, q.collections, q.Target(), q.written);
    AdoptableSame(old(q.collections), q.collections, unread);
    if located.None? {
      return Err(CallFailed), None, unread;
    }
    var (state, source) := located.value;
    var pre, target := PreSetName(profile.profileId), GoldenName(profile.profileId);
    var created := CreateBoth(q, pre, if state.Current? then None else Some(target), source, profile.versions);
    if !created {
      return Err(CallFailed), None, unread;
    }
    var error := PublishOrUndo(q, aliasMap.value, state, source, pre, target, package.value, sampleHasTokens, enc,
                               reportFails);
    if error.Some? {
      return Err(error.value), None, unread;
    }
    migratedFrom := if state.Stale? then source else None;
    r := Ok(profile);
  }

  /**
   * Without the golden alias, a current orphan that is empty is adopted although a
   * stale one holds the data: unless a read failed, `golden_set` then serves nothing.
   */
  method EmptyOrphanIsAdopted(q: Server, package: Option<seq<(PointId, Point)>>, profile: Profile,
                              sampleHasTokens: bool, enc: Encoder, reportFails: bool, stale: Versions, id: PointId,
                              point: Point)
    returns (r: Result<Profile, BootstrapError>, ghost unread: set<Name>)
    requires q.aliases == map[] && profile.versions == CURRENT && stale != CURRENT
    requires q.collections == map[
      GoldenName("old") := Collection(stale, map[id := point]),
      GoldenName("new") := Collection(CURRENT, map[])]
    modifies q
    ensures r.Ok? && unread == {} ==>
      && Behind(q, Golden) == Some(Collection(CURRENT, map[])) && Lookup(q.aliases, Golden) == Some(GoldenName("new"))
      && Lookup(q.collections, GoldenName("old")) == Some(Collection(stale, map[id := point]))
  {
    ghost var migratedFrom;
    ghost var before := q.collections;
    assert Adoptable(before, {}, GoldenName("new"));
    assert forall n :: Adoptable(before, {}, n) ==> n == GoldenName("new");
    r, migratedFrom, unread := BootstrapPreSet(q, package, profile, sampleHasTokens, enc, reportFails);
    assert GoldenName("old") in before && GoldenName("new") in before;
  }
}
