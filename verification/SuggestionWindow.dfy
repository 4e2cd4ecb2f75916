/** The rolling window of candidates that have passed retrieval. */
module Windows {
  import opened Wrappers
  import opened Trace

  datatype Candidate = Candidate(traceId: TraceId, received: int, priority: real)

  function Ids(cs: seq<Candidate>): (ids: set<TraceId>)
  {
    set c | c in cs :: c.traceId
  }

  /** The candidate map keeps one entry per trace id, in insertion order. */
  ghost predicate DistinctIds(cs: seq<Candidate>) {
    forall i, j | 0 <= i < j < |cs| :: cs[i].traceId != cs[j].traceId
  }

  predicate Expired(c: Candidate, now: int, maxAge: int) {
    now - c.received > maxAge
  }

  ghost predicate NoRepeats(ids: seq<TraceId>) {
    forall i, j | 0 <= i < j < |ids| :: ids[i] != ids[j]
  }

  /** What left and what stayed: nothing is lost and nothing is reported twice. */
  ghost predicate Splits(before: set<TraceId>, kept: set<TraceId>, evicted: seq<TraceId>) {
    && NoRepeats(evicted)
    && (forall t :: t in before <==> t in kept || t in evicted)
    && (forall t :: t in kept ==> t !in evicted)
  }

  /** The first of the candidates of greatest priority stands at `k`. */
  ghost predicate BestAt(cs: seq<Candidate>, k: nat) {
    && k < |cs|
    && (forall j | 0 <= j < |cs| :: cs[j].priority <= cs[k].priority)
    && (forall j | 0 <= j < k :: cs[j].priority < cs[k].priority)
  }

  /** The first of the candidates of least priority stands at `k`. */
  ghost predicate LowestAt(cs: seq<Candidate>, k: nat) {
    && k < |cs|
    && (forall j | 0 <= j < |cs| :: cs[k].priority <= cs[j].priority)
    && (forall j | 0 <= j < k :: cs[k].priority < cs[j].priority)
  }

  /** The candidates that are not too old, in the order they were added. */
  function Unexpired(cs: seq<Candidate>, now: int, maxAge: int): seq<Candidate> {
    if cs == [] then []
    else
      var last := cs[|cs| - 1];
      Unexpired(cs[..|cs| - 1], now, maxAge) + if Expired(last, now, maxAge) then [] else [last]
  }

  lemma SplitDrop(before: set<TraceId>, kept: set<TraceId>, evicted: seq<TraceId>, t: TraceId)
    requires Splits(before, kept, evicted) && t !in before
    ensures Splits(before + {t}, kept, evicted + [t])
  {
    assert forall x :: x in evicted + [t] <==> x in evicted || x == t;
  }

  lemma SplitKeep(before: set<TraceId>, kept: set<TraceId>, evicted: seq<TraceId>, t: TraceId)
    requires Splits(before, kept, evicted) && t !in before
    ensures Splits(before + {t}, kept + {t}, evicted)
  {
  }

  /** The last candidate is kept or dropped; the ones before it are judged by themselves. */
  lemma UnexpiredStep(cs: seq<Candidate>, now: int, maxAge: int)
    requires cs != []
    ensures
      var last := cs[|cs| - 1];
      Unexpired(cs, now, maxAge) ==
        Unexpired(cs[..|cs| - 1], now, maxAge) + if Expired(last, now, maxAge) then [] else [last]
  {
  }

  lemma {:induction false} UnexpiredKeeps(cs: seq<Candidate>, now: int, maxAge: int)
    requires DistinctIds(cs)
    ensures forall c :: c in Unexpired(cs, now, maxAge) <==> c in cs && !Expired(c, now, maxAge)
    ensures DistinctIds(Unexpired(cs, now, maxAge)) && |Unexpired(cs, now, maxAge)| <= |cs|
  {
    if cs != [] {
      var rest, last := cs[..|cs| - 1], cs[|cs| - 1];
      assert cs == rest + [last];
      UnexpiredKeeps(rest, now, maxAge);
      hide Unexpired;
      UnexpiredStep(cs, now, maxAge);
      var kept := Unexpired(rest, now, maxAge);
      forall c | c in kept
        ensures c.traceId != last.traceId
      {
        var i :| 0 <= i < |rest| && rest[i] == c;
      }
      DistinctSnoc(kept, last);
    }
  }

  lemma DistinctSnoc(cs: seq<Candidate>, c: Candidate)
    requires DistinctIds(cs) && forall x | x in cs :: x.traceId != c.traceId
    ensures DistinctIds(cs + [c])
  {
  }

  /**
   * The window after `c` was added: the unexpired candidates with `c` last, and
   * only when they are one too many without the first of least priority.
   */
  ghost predicate Added(before: seq<Candidate>, c: Candidate, now: int, maxAge: int, maxCount: nat,
                        after: seq<Candidate>)
  {
    var full := Unexpired(before, now, maxAge) + [c];
    if |full| <= maxCount then after == full else DroppedLowest(full, after)
  }

  /** What is left when the first candidate of least priority goes. */
  ghost predicate DroppedLowest(full: seq<Candidate>, rest: seq<Candidate>) {
    exists k: nat :: LowestAt(full, k) && rest == full[..k] + full[k + 1..]
  }

  lemma DroppedIsLowest(full: seq<Candidate>, rest: seq<Candidate>)
    requires DroppedLowest(full, rest)
    ensures forall x | x in rest :: x in full
    ensures forall x | x in full && x !in rest :: forall y | y in rest :: x.priority <= y.priority
  {
    var k: nat :| LowestAt(full, k) && rest == full[..k] + full[k + 1..];
    forall i | 0 <= i < |full| && i != k
      ensures full[i] in rest
    {
      assert full[i] == rest[if i < k then i else i - 1];
    }
  }

  /** One more of the kept is reported instead. */
  lemma SplitMore(before: set<TraceId>, kept: set<TraceId>, evicted: seq<TraceId>, t: TraceId)
    requires Splits(before, kept + {t}, evicted) && t !in kept
    ensures Splits(before, kept, evicted + [t])
  {
  }

  lemma IdsRemoveAt(cs: seq<Candidate>, k: nat)
    requires k < |cs| && DistinctIds(cs)
    ensures DistinctIds(cs[..k] + cs[k + 1..])
    ensures Ids(cs[..k] + cs[k + 1..]) == Ids(cs) - {cs[k].traceId}
  {
    var rest := cs[..k] + cs[k + 1..];
    forall t
      ensures t in Ids(rest) <==> t in Ids(cs) && t != cs[k].traceId
    {
      if t in Ids(rest) {
        var i :| 0 <= i < |rest| && rest[i].traceId == t;
        var j := if i < k then i else i + 1;
        assert cs[j] == rest[i] && cs[j] in cs;
      }
      if t in Ids(cs) && t != cs[k].traceId {
        var j :| 0 <= j < |cs| && cs[j].traceId == t;
        var i := if j < k then j else j - 1;
        assert rest[i] == cs[j] && rest[i] in rest;
      }
    }
  }

  lemma IdsSnoc(cs: seq<Candidate>, c: Candidate)
    ensures Ids(cs + [c]) == Ids(cs) + {c.traceId}
    ensures DistinctIds(cs) && c.traceId !in Ids(cs) ==> DistinctIds(cs + [c])
  {
    var more := cs + [c];
    assert forall x :: x in more <==> x in cs || x == c;
    assert c in more;
    forall i | 0 <= i < |cs|
      ensures cs[i].traceId in Ids(cs)
    {
      assert cs[i] in cs;
    }
  }

  /** Leaving out the candidate at `k` leaves out no other. */
  lemma RestAt(cs: seq<Candidate>, k: nat)
    requires k < |cs| && DistinctIds(cs)
    ensures forall c :: c in cs[..k] + cs[k + 1..] <==> c in cs && c.traceId != cs[k].traceId
  {
    assert cs == cs[..k] + [cs[k]] + cs[k + 1..];
  }

  class SuggestionWindow {
    const maxAgeMs: int
    const maxCount: nat
    var windowVersion: nat
    var candidates: seq<Candidate>

    /** Ids are distinct and the cap holds between calls. */
    ghost predicate Valid()
      reads this
    {
      DistinctIds(candidates) && |candidates| <= maxCount
    }

    constructor (maxAgeMs: int, maxCount: nat)
      ensures Valid() && candidates == [] && windowVersion == 0
      ensures this.maxAgeMs == maxAgeMs && this.maxCount == maxCount
    {
      this.maxAgeMs, this.maxCount := maxAgeMs, maxCount;
      windowVersion, candidates := 0, [];
    }

    /** Drops every candidate older than the window, reporting each once. */
    method EvictExpired(now: int) returns (evicted: seq<TraceId>)
      requires Valid()
      modifies this`candidates
      ensures Valid() && |candidates| <= |old(candidates)|
      ensures candidates == Unexpired(old(candidates), now, maxAgeMs)
      ensures forall c :: c in candidates <==> c in old(candidates) && now - c.received <= maxAgeMs
      ensures Splits(Ids(old(candidates)), Ids(candidates), evicted)
    {
      evicted := [];
      var kept: seq<Candidate> := [];
      var i := 0;
      assert Ids([]) == {} && candidates[..0] == [];
      hide Splits, NoRepeats, Ids;
      while i < |candidates|
        invariant candidates == old(candidates)
        invariant 0 <= i <= |candidates|
        invariant kept == Unexpired(candidates[..i], now, maxAgeMs)
        invariant Splits(Ids(candidates[..i]), Ids(kept), evicted)
      {
        var c := candidates[i];
        assert candidates[..i + 1] == candidates[..i] + [c];
        assert candidates[..i + 1][..i] == candidates[..i];
        IdsSnoc(candidates[..i], c);
        FreshId(candidates, i);
        if Expired(c, now, maxAgeMs) {
          SplitDrop(Ids(candidates[..i]), Ids(kept), evicted, c.traceId);
          evicted := evicted + [c.traceId];
        } else {
          SplitKeep(Ids(candidates[..i]), Ids(kept), evicted, c.traceId);
          IdsSnoc(kept, c);
          kept := kept + [c];
        }
        i := i + 1;
      }
      assert candidates[..i] == candidates;
      UnexpiredKeeps(candidates, now, maxAgeMs);
      candidates := kept;
    }

    static lemma FreshId(cs: seq<Candidate>, i: nat)
      requires i < |cs| && DistinctIds(cs)
      ensures cs[i].traceId !in Ids(cs[..i])
    {
    }

    /** Index of the first candidate of least priority. */
    static method FirstLowest(cs: seq<Candidate>) returns (k: nat)
      requires cs != []
      ensures LowestAt(cs, k)
    {
      k := 0;
      for i := 1 to |cs|
        invariant k < i
        invariant forall j | 0 <= j < i :: cs[k].priority <= cs[j].priority
        invariant forall j | 0 <= j < k :: cs[k].priority < cs[j].priority
      {
        if cs[i].priority < cs[k].priority {
          k := i;
        }
      }
    }

    /**
     * Adds a candidate, first dropping the expired ones and then, past the cap,
     * one of least priority. Everything that leaves is reported exactly once.
     */
    method Add(c: Candidate, now: int) returns (evicted: seq<TraceId>)
      requires Valid()
      requires c.traceId !in Ids(candidates)
      modifies this`candidates
      ensures Valid()
      ensures Added(old(candidates), c, now, maxAgeMs, maxCount, candidates)
      ensures Splits(Ids(old(candidates)) + {c.traceId}, Ids(candidates), evicted)
      ensures forall x :: x in candidates ==> x == c || (x in old(candidates) && now - x.received <= maxAgeMs)
      ensures forall x | (x == c || (x in old(candidates) && now - x.received <= maxAgeMs)) && x !in candidates ::
        forall y | y in candidates :: x.priority <= y.priority
    {
      ghost var before, ids := candidates, Ids(candidates) + {c.traceId};
      evicted := EvictExpired(now);
      IdsSnoc(candidates, c);
      SplitKeep(Ids(before), Ids(candidates), evicted, c.traceId);
      UnexpiredKeeps(before, now, maxAgeMs);
      candidates := candidates + [c];
      ghost var full := candidates;
      hide Splits, Ids, Unexpired, DistinctIds;
      while |candidates| > maxCount
        invariant DistinctIds(candidates) && Splits(ids, Ids(candidates), evicted)
        invariant candidates == full || (|candidates| == maxCount && DroppedLowest(full, candidates))
        invariant |candidates| <= maxCount + 1
        decreases |candidates|
      {
        var id := DropLowest();
        SplitMore(ids, Ids(candidates), evicted, id);
        evicted := evicted + [id];
      }
      if candidates != full {
        DroppedIsLowest(full, candidates);
      }
    }

    /** Drops the first candidate of least priority. */
    method DropLowest() returns (id: TraceId)
      requires DistinctIds(candidates) && candidates != []
      modifies this`candidates
      ensures DistinctIds(candidates) && |candidates| == |old(candidates)| - 1
      ensures DroppedLowest(old(candidates), candidates)
      ensures id !in Ids(candidates) && Ids(old(candidates)) == Ids(candidates) + {id}
    {
      var k := FirstLowest(candidates);
      assert candidates[k] in candidates;
      IdsRemoveAt(candidates, k);
      id := candidates[k].traceId;
      candidates := candidates[..k] + candidates[k + 1..];
    }

    /** The first unexpired candidate of greatest priority, if any. */
    method SelectBest(now: int) returns (best: Option<Candidate>, evicted: seq<TraceId>)
      requires Valid()
      modifies this`candidates
      ensures Valid() && |candidates| <= |old(candidates)|
      ensures candidates == Unexpired(old(candidates), now, maxAgeMs)
      ensures forall c :: c in candidates <==> c in old(candidates) && now - c.received <= maxAgeMs
      ensures Splits(Ids(old(candidates)), Ids(candidates), evicted)
      ensures best == None <==> candidates == []
      ensures best.Some? ==> exists k | 0 <= k < |candidates| :: BestAt(candidates, k) && candidates[k] == best.value
      ensures best.Some? ==> best.value.traceId in Ids(candidates)
    {
      evicted := EvictExpired(now);
      best := None;
      ghost var at := 0;
      ghost var live := candidates;
      for i := 0 to |candidates|
        invariant candidates == live
        invariant best == None <==> i == 0
        invariant best.Some? ==> at < i && candidates[at] == best.value
        invariant best.Some? ==> forall j | 0 <= j < i :: candidates[j].priority <= best.value.priority
        invariant best.Some? ==> forall j | 0 <= j < at :: candidates[j].priority < best.value.priority
      {
        if best == None || candidates[i].priority > best.value.priority {
          best := Some(candidates[i]);
          at := i;
        }
      }
      assert best.Some? ==> BestAt(candidates, at);
      assert best.Some? ==> candidates[at] in candidates;
    }

    /** Removes a selected candidate without reporting it. */
    method RemoveSelected(traceId: TraceId)
      requires Valid()
      modifies this`candidates
      ensures Valid()
      ensures Ids(candidates) == Ids(old(candidates)) - {traceId}
      ensures traceId in Ids(old(candidates)) ==> |candidates| == |old(candidates)| - 1
      ensures forall c :: c in candidates <==> c in old(candidates) && c.traceId != traceId
      ensures traceId in Ids(old(candidates)) ==>
        exists k | 0 <= k < |old(candidates)| :: candidates == old(candidates)[..k] + old(candidates)[k + 1..]
    {
      var i := 0;
      while i < |candidates| && candidates[i].traceId != traceId
        invariant 0 <= i <= |candidates|
        invariant forall j | 0 <= j < i :: candidates[j].traceId != traceId
      {
        i := i + 1;
      }
      if i < |candidates| {
        IdsRemoveAt(candidates, i);
        RestAt(candidates, i);
        candidates := candidates[..i] + candidates[i + 1..];
      } else {
        assert traceId !in Ids(candidates);
      }
    }

    /** Empties the window, reporting every candidate. */
    method Clear() returns (evicted: seq<TraceId>)
      requires Valid()
      modifies this`candidates
      ensures Valid() && candidates == []
      ensures Splits(Ids(old(candidates)), {}, evicted)
    {
      evicted := [];
      for i := 0 to |candidates|
        invariant candidates == old(candidates)
        invariant NoRepeats(evicted)
        invariant forall t :: t in Ids(candidates[..i]) <==> t in evicted
      {
        assert candidates[..i + 1] == candidates[..i] + [candidates[i]];
        IdsSnoc(candidates[..i], candidates[i]);
        FreshId(candidates, i);
        evicted := evicted + [candidates[i].traceId];
      }
      assert candidates[..|candidates|] == candidates;
      candidates := [];
    }

    method BumpVersion()
      modifies this`windowVersion
      ensures windowVersion == old(windowVersion) + 1
    {
      windowVersion := windowVersion + 1;
    }
  }
}
