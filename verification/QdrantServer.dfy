/**
 * The vector store as its clients see it: named collections of points and
 * aliases. Any call may fail, and before any call other clients may write points
 * through the `golden_set` alias.
 */
module QdrantServer {
  import opened Wrappers

  /** Point ids are UUIDs: finitely many, and scrolled in order. */
  const ID_SPACE: nat := 0x1_0000_0000_0000_0000_0000_0000_0000_0000
  type PointId = n: nat | n < ID_SPACE

  datatype Versions = Versions(tokenizer: string, normalization: string)

  /** A payload: the version it was written under and all its other fields. */
  datatype Payload = Payload(tokenizerVersion: string, fields: string)

  type Vector = seq<(nat, real)>
  datatype Point = Point(payload: Payload, vector: Vector)
  datatype Collection = Collection(versions: Versions, points: map<PointId, Point>)

  /** `pre_set__<profile>`, `golden_set__<profile>` and any other name. */
  datatype Name = PreSetName(profileId: string) | GoldenName(profileId: string) | OtherName(name: string)
  datatype Alias = PreSet | Golden | Other(alias: string)
  datatype AliasAction = CreateAlias(alias: Alias, name: Name) | DeleteAlias(alias: Alias)

  datatype Entry = Entry(id: PointId, payload: Payload)

  function Lookup<K, V>(m: map<K, V>, k: K): (v: Option<V>)
    ensures v.None? <==> k !in m
    ensures v.Some? ==> k in m && m[k] == v.value
  {
    if k in m then Some(m[k]) else None
  }

  /** Upserting points in order: a later point with the same id wins. */
  function Upserted(points: map<PointId, Point>, new_: seq<(PointId, Point)>): map<PointId, Point> {
    if new_ == [] then points
    else
      var last := new_[|new_| - 1];
      Upserted(points, new_[..|new_| - 1])[last.0 := last.1]
  }

  function AppliedOne(aliases: map<Alias, Name>, action: AliasAction): map<Alias, Name> {
    match action
    case CreateAlias(a, n) => aliases[a := n]
    case DeleteAlias(a) => aliases - {a}
  }

  function Applied(aliases: map<Alias, Name>, actions: seq<AliasAction>): map<Alias, Name> {
    if actions == [] then aliases
    else AppliedOne(Applied(aliases, actions[..|actions| - 1]), actions[|actions| - 1])
  }

  /** A page of a scroll: the points from `offset` on in id order, and where the next page starts. */
  ghost predicate PageOk(points: map<PointId, Point>, offset: Option<PointId>, limit: nat, page: seq<Entry>,
                         next: Option<PointId>)
  {
    && |page| <= limit
    && (forall i | 0 <= i < |page| :: page[i].id in points && page[i].payload == points[page[i].id].payload)
    && (forall i, j | 0 <= i < j < |page| :: page[i].id < page[j].id)
    && (forall i | 0 <= i < |page| && offset.Some? :: offset.value <= page[i].id)
    && (next.Some? ==> |page| == limit && forall i | 0 <= i < |page| :: page[i].id < next.value)
    && (next.Some? && offset.Some? ==> offset.value <= next.value)
    && (forall id | id in points && InPage(id, offset, next) :: Entry(id, points[id].payload) in page)
  }

  predicate InPage(id: PointId, offset: Option<PointId>, next: Option<PointId>) {
    (offset.Some? ==> offset.value <= id) && (next.Some? ==> id < next.value)
  }

  /**
   * How collections change while only other clients write: through the golden
   * alias, and only at the ids in `written`.
   */
  ghost predicate Drift(before: map<Name, Collection>, after: map<Name, Collection>, target: Option<Name>,
                        written: set<PointId>)
  {
    && after.Keys == before.Keys
    && forall n | n in before :: DriftAt(before[n], after[n], target == Some(n), written)
  }

  /** The same collections, and only the one behind the golden alias may differ. */
  ghost predicate OutsideKept(before: map<Name, Collection>, after: map<Name, Collection>, target: Option<Name>) {
    && after.Keys == before.Keys
    && forall n | n in before && target != Some(n) :: after[n] == before[n]
  }

  ghost predicate DriftAt(before: Collection, after: Collection, target: bool, written: set<PointId>) {
    && after.versions == before.versions
    && (!target ==> after == before)
    && forall id | id !in written :: Lookup(after.points, id) == Lookup(before.points, id)
  }

  lemma DriftTrans(a: map<Name, Collection>, b: map<Name, Collection>, c: map<Name, Collection>, target: Option<Name>,
                   v: set<PointId>, w: set<PointId>)
    requires Drift(a, b, target, v) && Drift(b, c, target, w) && v <= w
    ensures Drift(a, c, target, w)
  {
    forall n | n in a
      ensures DriftAt(a[n], c[n], target == Some(n), w)
    {
      assert DriftAt(a[n], b[n], target == Some(n), v) && DriftAt(b[n], c[n], target == Some(n), w);
      assert forall id | id !in w :: Lookup(c[n].points, id) == Lookup(b[n].points, id);
    }
  }

  lemma {:induction false} UpsertedAt(base: map<PointId, Point>, points: seq<(PointId, Point)>, id: PointId)
    ensures Lookup(Upserted(base, points), id) ==
            if id in Upserted(map[], points) then Some(Upserted(map[], points)[id]) else Lookup(base, id)
  {
    if points != [] {
      UpsertedAt(base, points[..|points| - 1], id);
    }
  }

  /** The last point given for an id is stored, and what no id is given for stays. */
  lemma {:induction false} UpsertedLast(base: map<PointId, Point>, points: seq<(PointId, Point)>, i: nat)
    requires i < |points| && forall j | i < j < |points| :: points[j].0 != points[i].0
    ensures Lookup(Upserted(base, points), points[i].0) == Some(points[i].1)
    ensures forall id | id !in base && (forall j | 0 <= j < |points| :: points[j].0 != id) ::
      id !in Upserted(base, points)
  {
    var n := |points| - 1;
    UpsertedOnly(base, points);
    if i < n {
      assert points[..n][i] == points[i];
      UpsertedLast(base, points[..n], i);
    }
  }

  lemma {:induction false} UpsertedOnly(base: map<PointId, Point>, points: seq<(PointId, Point)>)
    ensures forall id | id in Upserted(base, points) :: id in base || exists j | 0 <= j < |points| :: points[j].0 == id
  {
    if points != [] {
      var n := |points| - 1;
      UpsertedOnly(base, points[..n]);
      forall id | id in Upserted(base, points)
        ensures id in base || exists j | 0 <= j < |points| :: points[j].0 == id
      {
        if id !in base && id != points[n].0 {
          var j :| 0 <= j < n && points[..n][j].0 == id;
          assert points[j].0 == id;
        }
      }
    }
  }

  class Server {
    var collections: map<Name, Collection>
    var aliases: map<Alias, Name>
    /**
     * For the specification of one bootstrap: the aliases it started from, the
     * collections that existed then as other clients alone would have changed
     * them, the collections at its alias switch, the ids other clients wrote
     * since (or since the start, before the switch), those they wrote up to the
     * switch, and the collections that could not be deleted when asked.
     */
    ghost var startAliases: map<Alias, Name>
    ghost var outside: map<Name, Collection>
    ghost var atSwitch: map<Name, Collection>
    ghost var written: set<PointId>
    ghost var writtenBefore: set<PointId>
    ghost var refused: set<Name>

    /** An alias always names a collection. */
    ghost predicate Valid()
      reads this
    {
      forall a | a in aliases :: aliases[a] in collections
    }

    /** Nothing that existed at the start was changed by anyone but other clients. */
    ghost predicate Untouched()
      reads this
    {
      && aliases == startAliases
      && (forall a | a in aliases :: aliases[a] in outside)
      && forall n | n in outside :: n in collections && collections[n] == outside[n]
    }

    ghost function Target(): Option<Name>
      reads this
    {
      Lookup(aliases, Golden)
    }

    /** Since the old state, nothing but writes of other clients happened. */
    twostate predicate OnlyOthersWrote()
      reads this
    {
      && Valid()
      && aliases == old(aliases) && atSwitch == old(atSwitch)
      && OutsideKept(old(outside), outside, Target()) && old(written) <= written
      && Drift(old(collections), collections, Target(), written)
      && (old(Untouched()) ==> Untouched())
    }

    ghost method MarkStart()
      requires Valid()
      modifies this`startAliases, this`outside, this`written
      ensures Untouched() && outside == collections && startAliases == aliases && written == {}
    {
      startAliases, outside, written := aliases, collections, {};
    }

    /** Other clients write points through the golden alias. */
    method Interfere()
      requires Valid()
      modifies this`collections, this`outside, this`written
      ensures OnlyOthersWrote()
    {
      if * {
        var points: map<PointId, Point> := *;
        if Golden in aliases {
          var n := aliases[Golden];
          collections := collections[n := collections[n].(points := collections[n].points + points)];
          if n in outside {
            outside := outside[n := outside[n].(points := outside[n].points + points)];
          }
          written := written + points.Keys;
        }
      }
    }

    method GetAliases() returns (r: Option<map<Alias, Name>>)
      requires Valid()
      modifies this`collections, this`outside, this`written
      ensures OnlyOthersWrote()
      ensures r.Some? ==> r.value == aliases
    {
      Interfere();
      if * { return None; }
      r := Some(aliases);
    }

    /** The version metadata of a collection. */
    method GetVersions(name: Name) returns (r: Option<Versions>)
      requires Valid()
      modifies this`collections, this`outside, this`written
      ensures OnlyOthersWrote()
      ensures r.Some? ==> name in collections && r.value == collections[name].versions
    {
      Interfere();
      if name !in collections { return None; }
      if * { return None; }
      r := Some(collections[name].versions);
    }

    method Count(name: Name) returns (r: Option<nat>)
      requires Valid()
      modifies this`collections, this`outside, this`written
      ensures OnlyOthersWrote()
      ensures r.Some? ==> name in collections && r.value == |collections[name].points|
    {
      Interfere();
      if name !in collections { return None; }
      if * { return None; }
      r := Some(|collections[name].points|);
    }

    /** Whether a sample query finds anything: the ranking itself is not modelled. */
    method Query(name: Name) returns (r: Option<bool>)
      requires Valid()
      modifies this`collections, this`outside, this`written
      ensures OnlyOthersWrote()
    {
      Interfere();
      if * { return None; }
      var hits := *;
      r := Some(hits);
    }

    /** All collection names, in some order. */
    method GetCollections() returns (r: Option<seq<Name>>)
      requires Valid()
      modifies this`collections, this`outside, this`written
      ensures OnlyOthersWrote()
      ensures r.Some? ==> forall n :: n in r.value <==> n in collections
    {
      Interfere();
      if * { return None; }
      var names, rest := [], collections.Keys;
      while rest != {}
        invariant rest <= collections.Keys
        invariant forall n :: n in collections <==> n in names || n in rest
        decreases |rest|
      {
        var n :| n in rest;
        names, rest := names + [n], rest - {n};
      }
      r := Some(names);
    }

    /** One page of the points from `offset` on, in id order. */
    method Scroll(name: Name, limit: nat, offset: Option<PointId>)
      returns (r: Option<(seq<Entry>, Option<PointId>)>)
      requires Valid()
      modifies this`collections, this`outside, this`written
      ensures OnlyOthersWrote()
      ensures r.Some? ==> name in collections && PageOk(collections[name].points, offset, limit, r.value.0, r.value.1)
    {
      Interfere();
      if name !in collections { return None; }
      if * { return None; }
      var page, next := BuildPage(collections[name].points, limit, offset);
      r := Some((page, next));
    }

    /** Creates an empty collection and its indexes; it may exist even when this fails. */
    method CreateCollection(name: Name, versions: Versions) returns (ok: bool)
      requires Valid()
      modifies this`collections, this`outside, this`written
      ensures Valid() && OutsideKept(old(outside), outside, Target()) && old(written) <= written
      ensures old(Untouched()) ==> Untouched()
      ensures collections.Keys == old(collections).Keys || collections.Keys == old(collections).Keys + {name}
      ensures forall n | n in old(collections) ::
        DriftAt(old(collections)[n], collections[n], Target() == Some(n), written)
      ensures ok ==>
        name !in old(collections) && name in collections && collections[name] == Collection(versions, map[])
    {
      Interfere();
      if name in collections { return false; }
      if * { return false; }
      collections := collections[name := Collection(versions, map[])];
      ok := *;
    }

    /** Upserts points; they may be stored even when this fails. */
    method Upsert(name: Name, points: seq<(PointId, Point)>) returns (ok: bool)
      requires Valid()
      modifies this`collections, this`outside, this`written
      ensures Valid() && OutsideKept(old(outside), outside, Target()) && old(written) <= written
      ensures old(Untouched()) && name !in outside ==> Untouched()
      ensures collections.Keys == old(collections).Keys
      ensures forall n | n in old(collections) && n != name ::
        DriftAt(old(collections)[n], collections[n], Target() == Some(n), written)
      ensures name in collections ==> collections[name].versions == old(collections)[name].versions
      ensures ok ==> name in collections && forall id | id in Upserted(map[], points) ::
        Lookup(collections[name].points, id) == Some(Upserted(map[], points)[id])
      ensures ok && Target() != Some(name) ==>
        collections[name].points == Upserted(old(collections)[name].points, points)
    {
      Interfere();
      if name !in collections { return false; }
      if * { return false; }
      ghost var base := collections[name].points;
      collections := collections[name := collections[name].(points := Upserted(collections[name].points, points))];
      forall id | id in Upserted(map[], points)
        ensures Lookup(collections[name].points, id) == Some(Upserted(map[], points)[id])
      {
        UpsertedAt(base, points, id);
      }
      ok := *;
    }

    /** Applies all alias actions at once, or none of them. */
    method UpdateAliases(actions: seq<AliasAction>) returns (ok: bool)
      requires Valid()
      modifies this`collections, this`outside, this`written, this`aliases, this`atSwitch, this`writtenBefore
      ensures !ok ==> OnlyOthersWrote()
      ensures ok ==>
        && aliases == Applied(old(aliases), actions)
        && atSwitch == collections && written == {} && old(written) <= writtenBefore
        && collections.Keys == old(collections).Keys
        && (forall n | n in collections ::
              DriftAt(old(collections)[n], collections[n], old(Target()) == Some(n), writtenBefore))
        && (forall n | n in collections && old(Target()) != Some(n) :: collections[n] == old(collections)[n])
        && (forall n | n in collections :: collections[n].versions == old(collections)[n].versions)
        && OutsideKept(old(outside), outside, old(Target()))
        && Valid()
        && (old(Untouched()) ==> forall n | n in outside :: n in collections && collections[n] == outside[n])
    {
      Interfere();
      if exists i | 0 <= i < |actions| :: actions[i].CreateAlias? && actions[i].name !in collections {
        return false;
      }
      if * { return false; }
      AppliedTargets(aliases, actions, collections.Keys);
      aliases := Applied(aliases, actions);
      atSwitch, written, writtenBefore := collections, {}, written;
      ok := true;
    }

    /** Deletes a collection and every alias of it. */
    method DeleteCollection(name: Name) returns (ok: bool)
      requires Valid()
      modifies this`collections, this`outside, this`written, this`aliases, this`refused
      ensures Valid() && OutsideKept(old(outside), outside, old(Target())) && old(written) <= written
      ensures old(Untouched()) && name !in outside ==> Untouched()
      ensures ok ==> collections.Keys == old(collections).Keys - {name}
      ensures !ok ==> collections.Keys == old(collections).Keys
      ensures refused == old(refused) + if ok then {} else {name}
      ensures forall n | n in collections ::
        DriftAt(old(collections)[n], collections[n], old(Target()) == Some(n), written)
      ensures aliases ==
        if ok then map a | a in old(aliases) && old(aliases)[a] != name :: old(aliases)[a] else old(aliases)
    {
      Interfere();
      if * {
        refused := refused + {name};
        return false;
      }
      collections := collections - {name};
      aliases := map a | a in aliases && aliases[a] != name :: aliases[a];
      ok := true;
    }
  }

  predicate Least(ids: set<PointId>, id: PointId) {
    id in ids && forall k | k in ids :: id <= k
  }

  lemma {:induction false} LeastExists(ids: set<PointId>)
    requires ids != {}
    ensures exists id :: Least(ids, id)
    decreases |ids|
  {
    var i :| i in ids;
    var rest := ids - {i};
    assert forall k | k in ids :: k == i || k in rest;
    if rest != {} {
      LeastExists(rest);
      var m :| Least(rest, m);
      assert Least(ids, if m < i then m else i);
    } else {
      assert Least(ids, i);
    }
  }

  /** The points at or after `offset`. */
  function From(points: map<PointId, Point>, offset: Option<PointId>): set<PointId> {
    set id | id in points && (offset.Some? ==> offset.value <= id)
  }

  /** A page under construction: everything before `rest` is in it, in order. */
  ghost predicate PageSoFar(points: map<PointId, Point>, offset: Option<PointId>, page: seq<Entry>,
                            rest: set<PointId>)
  {
    && rest <= From(points, offset)
    && (forall i | 0 <= i < |page| ::
      page[i].id in From(points, offset) && page[i].payload == points[page[i].id].payload)
    && Climbs(page, rest)
    && Covers(points, From(points, offset) - rest, page)
  }

  /** The ids of the page ascend, and those still to come are greater. */
  ghost predicate Climbs(page: seq<Entry>, rest: set<PointId>) {
    && (forall i, j | 0 <= i < j < |page| :: page[i].id < page[j].id)
    && (forall i, id | 0 <= i < |page| && id in rest :: page[i].id < id)
  }

  ghost predicate Covers(points: map<PointId, Point>, ids: set<PointId>, page: seq<Entry>) {
    forall id | id in ids :: id in points && Entry(id, points[id].payload) in page
  }

  lemma ClimbsOn(page: seq<Entry>, rest: set<PointId>, e: Entry)
    requires Climbs(page, rest) && Least(rest, e.id)
    ensures Climbs(page + [e], rest - {e.id})
  {
  }

  lemma CoversMore(points: map<PointId, Point>, ids: set<PointId>, page: seq<Entry>, id: PointId)
    requires Covers(points, ids, page) && id in points
    ensures Covers(points, ids + {id}, page + [Entry(id, points[id].payload)])
  {
    var more := page + [Entry(id, points[id].payload)];
    assert more[|page|] == Entry(id, points[id].payload);
  }

  lemma PageGrows(points: map<PointId, Point>, offset: Option<PointId>, page: seq<Entry>, rest: set<PointId>,
                  id: PointId)
    requires PageSoFar(points, offset, page, rest) && Least(rest, id)
    ensures id in points && PageSoFar(points, offset, page + [Entry(id, points[id].payload)], rest - {id})
  {
    var ids := From(points, offset);
    assert id in ids && ids - (rest - {id}) == (ids - rest) + {id};
    hide Climbs, Covers;
    ClimbsOn(page, rest, Entry(id, points[id].payload));
    CoversMore(points, ids - rest, page, id);
  }

  lemma PageDone(points: map<PointId, Point>, offset: Option<PointId>, limit: nat, page: seq<Entry>, rest: set<PointId>,
                 next: Option<PointId>)
    requires PageSoFar(points, offset, page, rest) && |page| <= limit
    requires if next.None? then rest == {} else |page| == limit && Least(rest, next.value)
    ensures PageOk(points, offset, limit, page, next)
  {
    forall id | id in points && InPage(id, offset, next)
      ensures Entry(id, points[id].payload) in page
    {
      assert id in From(points, offset) - rest;
    }
  }

  /** The points of one page, smallest id first. */
  method BuildPage(points: map<PointId, Point>, limit: nat, offset: Option<PointId>)
    returns (page: seq<Entry>, next: Option<PointId>)
    ensures PageOk(points, offset, limit, page, next)
  {
    page := [];
    var rest := From(points, offset);
    assert PageSoFar(points, offset, page, rest);
    hide PageSoFar, PageOk, From;
    while rest != {} && |page| < limit
      invariant |page| <= limit
      invariant PageSoFar(points, offset, page, rest)
      decreases |rest|
    {
      LeastExists(rest);
      var id :| id in rest && Least(rest, id);
      PageGrows(points, offset, page, rest, id);
      page := page + [Entry(id, points[id].payload)];
      rest := rest - {id};
    }
    if rest == {} {
      next := None;
    } else {
      LeastExists(rest);
      var least :| least in rest && Least(rest, least);
      next := Some(least);
    }
    PageDone(points, offset, limit, page, rest, next);
  }

  lemma {:induction false} AppliedTargets(aliases: map<Alias, Name>, actions: seq<AliasAction>, names: set<Name>)
    requires forall a | a in aliases :: aliases[a] in names
    requires forall i | 0 <= i < |actions| && actions[i].CreateAlias? :: actions[i].name in names
    ensures forall a | a in Applied(aliases, actions) :: Applied(aliases, actions)[a] in names
  {
    if actions != [] {
      var n := |actions| - 1;
      assert actions[n].CreateAlias? ==> actions[n].name in names;
      AppliedTargets(aliases, actions[..n], names);
    }
  }
}
