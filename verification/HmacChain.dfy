/**
 * The per-trace chain of keyed MACs over audit transitions, and the single pass
 * that verifies a whole table of them. The MAC itself is an arbitrary function.
 */
module HmacChain {
  import opened Wrappers
  import opened Trace

  type Mac = string

  /** The authenticated fields of a row, in the order they are serialized. */
  datatype Payload = Payload(
    traceId: TraceId, seqNo: nat, from: Option<TraceState>, to: TraceState, reason: Reason, at: int, prev: Option<Mac>)

  datatype Row = Row(payload: Payload, mac: Mac)

  type Hmac = Payload -> Mac

  ghost predicate Injective(hmac: Hmac) {
    forall p, q :: hmac(p) == hmac(q) ==> p == q
  }

  /** Primary-key order: by trace, then by sequence number, without duplicates. */
  predicate Before(a: Row, b: Row) {
    || a.payload.traceId < b.payload.traceId
    || (a.payload.traceId == b.payload.traceId && a.payload.seqNo < b.payload.seqNo)
  }

  ghost predicate Ordered(rows: seq<Row>) {
    forall i, j | 0 <= i < j < |rows| :: Before(rows[i], rows[j])
  }

  /** The rows of one trace, in order. */
  function Of(rows: seq<Row>, t: TraceId): seq<Row> {
    if rows == [] then []
    else
      var last := rows[|rows| - 1];
      Of(rows[..|rows| - 1], t) + if last.payload.traceId == t then [last] else []
  }

  /** One link: numbered from 1, linked to the previous MAC, and recomputing. */
  predicate LinkOk(chain: seq<Row>, i: nat, hmac: Hmac)
    requires i < |chain|
  {
    && chain[i].payload.seqNo == i + 1
    && chain[i].payload.prev == (if i == 0 then None else Some(chain[i - 1].mac))
    && chain[i].mac == hmac(chain[i].payload)
  }

  ghost predicate ChainOk(chain: seq<Row>, hmac: Hmac) {
    forall i | 0 <= i < |chain| :: LinkOk(chain, i, hmac)
  }

  /** What integrity means: every trace's rows are one complete chain. */
  ghost predicate Intact(rows: seq<Row>, hmac: Hmac) {
    forall t :: ChainOk(Of(rows, t), hmac)
  }

  // ----------------------------------------------------------- the single pass

  datatype IntegrityError =
    | StructureDamaged
    | MigrationMissing
    | RootInvalid
    | SequenceGap
    | Disconnected
    | MacMismatch(seqNo: nat)

  datatype Report = Report(migrationVersion: nat, transitionsChecked: nat)

  /** The check the pass makes of one row, knowing only the row before it. */
  predicate StepOk(rows: seq<Row>, i: nat, hmac: Hmac)
    requires i < |rows|
  {
    && (if i == 0 || rows[i - 1].payload.traceId != rows[i].payload.traceId
        then rows[i].payload.prev == None && rows[i].payload.seqNo == 1
        else rows[i].payload.seqNo == rows[i - 1].payload.seqNo + 1 && rows[i].payload.prev == Some(rows[i - 1].mac))
    && rows[i].mac == hmac(rows[i].payload)
  }

  /** The error of the first bad row. */
  function StepError(rows: seq<Row>, i: nat, hmac: Hmac): IntegrityError
    requires i < |rows|
  {
    if i == 0 || rows[i - 1].payload.traceId != rows[i].payload.traceId then
      if rows[i].payload.prev != None || rows[i].payload.seqNo != 1 then RootInvalid
      else MacMismatch(rows[i].payload.seqNo)
    else if rows[i].payload.seqNo != rows[i - 1].payload.seqNo + 1 then SequenceGap
    else if rows[i].payload.prev != Some(rows[i - 1].mac) then Disconnected
    else MacMismatch(rows[i].payload.seqNo)
  }

  /**
   * Verifies a table read in primary-key order. `structureOk` is the database's
   * own integrity check and `migration` the last applied migration.
   */
  method VerifyIntegrity(rows: seq<Row>, hmac: Hmac, structureOk: bool, migration: Option<nat>)
    returns (r: Result<Report, IntegrityError>)
    requires Ordered(rows)
    ensures r.Ok? <==> structureOk && migration.Some? && Intact(rows, hmac)
    ensures r.Ok? ==> r.value == Report(migration.value, |rows|)
    ensures r.Err? ==>
      || (!structureOk && r.error == StructureDamaged)
      || (structureOk && migration == None && r.error == MigrationMissing)
      || (exists i | 0 <= i < |rows| :: r.error == StepError(rows, i, hmac) && FirstBad(rows, i, hmac))
  {
    hide Of;
    if !structureOk {
      return Err(StructureDamaged);
    }
    if migration == None {
      return Err(MigrationMissing);
    }
    IntactIffSteps(rows, hmac);
    var transitionsChecked := 0;
    var prevTraceId: Option<TraceId> := None;
    var prevEntryHmac: Option<Mac> := None;
    var prevSeq := 0;
    for i := 0 to |rows|
      invariant transitionsChecked == i
      invariant forall j | 0 <= j < i :: StepOk(rows, j, hmac)
      invariant i == 0 ==> prevTraceId == None
      invariant i > 0 ==> prevTraceId == Some(rows[i - 1].payload.traceId)
      invariant i > 0 ==> prevEntryHmac == Some(rows[i - 1].mac) && prevSeq == rows[i - 1].payload.seqNo
    {
      var row := rows[i];
      if Some(row.payload.traceId) != prevTraceId {
        if row.payload.prev != None || row.payload.seqNo != 1 {
          assert FirstBad(rows, i, hmac);
          return Err(RootInvalid);
        }
        prevTraceId := Some(row.payload.traceId);
        prevEntryHmac := None;
        prevSeq := 0;
      } else if row.payload.seqNo != prevSeq + 1 {
        assert FirstBad(rows, i, hmac);
        return Err(SequenceGap);
      } else if row.payload.prev != prevEntryHmac {
        assert FirstBad(rows, i, hmac);
        return Err(Disconnected);
      }
      var expected := hmac(row.payload);
      if expected != row.mac {
        assert FirstBad(rows, i, hmac);
        return Err(MacMismatch(row.payload.seqNo));
      }
      prevEntryHmac := Some(row.mac);
      prevSeq := row.payload.seqNo;
      transitionsChecked := transitionsChecked + 1;
    }
    r := Ok(Report(migration.value, transitionsChecked));
  }

  ghost predicate FirstBad(rows: seq<Row>, i: nat, hmac: Hmac) {
    i < |rows| && !StepOk(rows, i, hmac) && forall j | 0 <= j < i :: StepOk(rows, j, hmac)
  }

  lemma {:induction false} OfMembers(rows: seq<Row>, t: TraceId)
    ensures forall r :: r in Of(rows, t) <==> r in rows && r.payload.traceId == t
  {
    if rows != [] {
      OfMembers(rows[..|rows| - 1], t);
      assert rows == rows[..|rows| - 1] + [rows[|rows| - 1]];
    }
  }

  lemma {:induction false} OfNone(rows: seq<Row>, t: TraceId)
    requires forall i | 0 <= i < |rows| :: rows[i].payload.traceId != t
    ensures Of(rows, t) == []
  {
    if rows != [] {
      OfNone(rows[..|rows| - 1], t);
    }
  }

  /** In an ordered table the last row's trace ends with it, and the row before belongs to it or to another trace. */
  lemma LastOfTrace(rows: seq<Row>)
    requires Ordered(rows) && rows != []
    ensures
      var n := |rows| - 1;
      var t := rows[n].payload.traceId;
      var chain := Of(rows[..n], t);
      if n > 0 && rows[n - 1].payload.traceId == t then chain != [] && chain[|chain| - 1] == rows[n - 1]
      else chain == []
  {
    var n := |rows| - 1;
    var t := rows[n].payload.traceId;
    if n > 0 {
      assert rows[..n][..n - 1] == rows[..n - 1];
      if rows[n - 1].payload.traceId != t {
        assert Before(rows[n - 1], rows[n]);
        assert forall i | 0 <= i < n - 1 :: Before(rows[i], rows[n - 1]);
        OfNone(rows[..n], t);
      }
    }
  }

  /** Checking each row against the one before it is checking every trace's chain. */
  lemma {:induction false} IntactIffSteps(rows: seq<Row>, hmac: Hmac)
    requires Ordered(rows)
    ensures Intact(rows, hmac) <==> forall i | 0 <= i < |rows| :: StepOk(rows, i, hmac)
  {
    if rows != [] {
      var n := |rows| - 1;
      var init := rows[..n];
      var t := rows[n].payload.traceId;
      IntactIffSteps(init, hmac);
      assert forall i | 0 <= i < n :: StepOk(init, i, hmac) <==> StepOk(rows, i, hmac);
      LastOfTrace(rows);
      var chain := Of(init, t);
      assert Of(rows, t) == chain + [rows[n]];
      AppendedChain(chain, rows[n], hmac);
      if Intact(init, hmac) {
        assert ChainOk(chain, hmac);
        if chain != [] {
          assert LinkOk(chain, |chain| - 1, hmac);
        }
        assert StepOk(rows, n, hmac) <==> LinkOk(chain + [rows[n]], |chain|, hmac);
      }
      OthersSame(rows, hmac);
    }
  }

  lemma AppendedChain(chain: seq<Row>, row: Row, hmac: Hmac)
    ensures ChainOk(chain + [row], hmac) <==> ChainOk(chain, hmac) && LinkOk(chain + [row], |chain|, hmac)
  {
    var more := chain + [row];
    assert forall i | 0 <= i < |chain| :: LinkOk(more, i, hmac) <==> LinkOk(chain, i, hmac);
    if ChainOk(more, hmac) {
      assert LinkOk(more, |chain|, hmac);
      forall i | 0 <= i < |chain|
        ensures LinkOk(chain, i, hmac)
      {
        assert LinkOk(more, i, hmac);
      }
    }
  }

  lemma OthersSame(rows: seq<Row>, hmac: Hmac)
    requires rows != []
    ensures
      var n := |rows| - 1;
      Intact(rows, hmac) <==>
        Intact(rows[..n], hmac) && ChainOk(Of(rows, rows[n].payload.traceId), hmac)
  {
    var n := |rows| - 1;
    var t := rows[n].payload.traceId;
    forall u | u != t
      ensures Of(rows, u) == Of(rows[..n], u)
    {
    }
    if Intact(rows, hmac) {
      AppendedChain(Of(rows[..n], t), rows[n], hmac);
      assert ChainOk(Of(rows, t), hmac);
      forall u
        ensures ChainOk(Of(rows[..n], u), hmac)
      {
        assert ChainOk(Of(rows, u), hmac);
      }
    }
    if Intact(rows[..n], hmac) && ChainOk(Of(rows, t), hmac) {
      forall u
        ensures ChainOk(Of(rows, u), hmac)
      {
        if u != t {
          assert ChainOk(Of(rows[..n], u), hmac);
        }
      }
    }
  }

  // ------------------------------------------------------------ tamper evidence

  /**
   * A table made only of rows of an accepted one is accepted exactly when it
   * keeps a prefix of every trace: removing anything but a tail is noticed,
   * whatever the MAC.
   */
  lemma DeletionIsNoticed(rows: seq<Row>, kept: seq<Row>, hmac: Hmac)
    requires Intact(rows, hmac)
    requires forall r | r in kept :: r in rows
    ensures Intact(kept, hmac) <==> forall t :: KeepsPrefix(rows, kept, t)
  {
    if Intact(kept, hmac) {
      forall t
        ensures KeepsPrefix(rows, kept, t)
      {
        assert ChainOk(Of(kept, t), hmac) && ChainOk(Of(rows, t), hmac);
        OfMembers(kept, t);
        OfMembers(rows, t);
        NumberedRowsArePrefix(Of(rows, t), Of(kept, t), hmac);
      }
    }
    if forall t :: KeepsPrefix(rows, kept, t) {
      forall t
        ensures ChainOk(Of(kept, t), hmac)
      {
        assert ChainOk(Of(rows, t), hmac);
        assert KeepsPrefix(rows, kept, t);
        PrefixIsChain(Of(rows, t), Of(kept, t), hmac);
      }
    }
  }

  ghost predicate KeepsPrefix(rows: seq<Row>, kept: seq<Row>, t: TraceId) {
    Of(kept, t) <= Of(rows, t)
  }

  lemma PrefixIsChain(chain: seq<Row>, part: seq<Row>, hmac: Hmac)
    requires ChainOk(chain, hmac) && part <= chain
    ensures ChainOk(part, hmac)
  {
    forall i | 0 <= i < |part|
      ensures LinkOk(part, i, hmac)
    {
      assert LinkOk(chain, i, hmac);
    }
  }

  lemma NumberedRowsArePrefix(chain: seq<Row>, part: seq<Row>, hmac: Hmac)
    requires ChainOk(chain, hmac) && ChainOk(part, hmac)
    requires forall r | r in part :: r in chain
    ensures part <= chain
  {
    forall i | 0 <= i < |part|
      ensures i < |chain| && part[i] == chain[i]
    {
      assert part[i] in chain;
      var j :| 0 <= j < |chain| && chain[j] == part[i];
      assert LinkOk(part, i, hmac) && LinkOk(chain, j, hmac);
    }
    if part != [] {
      assert part[|part| - 1] in chain;
    }
  }

  /**
   * With an injective MAC the last MAC of a trace pins its whole history: two
   * accepted chains that end in the same MAC are the same chain.
   */
  lemma {:induction false} LastMacPinsHistory(a: seq<Row>, b: seq<Row>, hmac: Hmac)
    requires Injective(hmac) && ChainOk(a, hmac) && ChainOk(b, hmac)
    requires a != [] && b != [] && a[|a| - 1].mac == b[|b| - 1].mac
    ensures a == b
    decreases |a|
  {
    assert LinkOk(a, |a| - 1, hmac) && LinkOk(b, |b| - 1, hmac);
    assert |a| == |b| && a[|a| - 1] == b[|b| - 1];
    if |a| > 1 {
      var a', b' := a[..|a| - 1], b[..|b| - 1];
      AppendedChain(a', a[|a| - 1], hmac);
      AppendedChain(b', b[|b| - 1], hmac);
      assert a == a' + [a[|a| - 1]] && b == b' + [b[|b| - 1]];
      LastMacPinsHistory(a', b', hmac);
    }
  }

  /** With an injective MAC, changing authenticated fields and leaving the MACs is noticed. */
  lemma ChangeIsNoticed(rows: seq<Row>, changed: seq<Row>, hmac: Hmac)
    requires Injective(hmac) && Ordered(rows) && Ordered(changed) && Intact(rows, hmac)
    requires |changed| == |rows| && forall i | 0 <= i < |rows| :: changed[i].mac == rows[i].mac
    ensures Intact(changed, hmac) <==> changed == rows
  {
    IntactIffSteps(rows, hmac);
    IntactIffSteps(changed, hmac);
    if Intact(changed, hmac) {
      forall i | 0 <= i < |rows|
        ensures changed[i] == rows[i]
      {
        assert StepOk(rows, i, hmac) && StepOk(changed, i, hmac);
      }
    }
  }

  // ------------------------------------------------------------ append and prune

  /** Number of rows whose trace is at most `t`: where a new row of `t` goes. */
  function UpTo(rows: seq<Row>, t: TraceId): (k: nat)
    ensures k <= |rows|
  {
    if rows == [] then 0
    else if rows[|rows| - 1].payload.traceId <= t then |rows|
    else UpTo(rows[..|rows| - 1], t)
  }

  lemma {:induction false} UpToSplits(rows: seq<Row>, t: TraceId)
    requires Ordered(rows)
    ensures forall i | 0 <= i < UpTo(rows, t) :: rows[i].payload.traceId <= t
    ensures forall i | UpTo(rows, t) <= i < |rows| :: rows[i].payload.traceId > t
  {
    if rows != [] {
      var n := |rows| - 1;
      if rows[n].payload.traceId <= t {
        assert forall i | 0 <= i < n :: Before(rows[i], rows[n]);
      } else {
        UpToSplits(rows[..n], t);
      }
    }
  }

  lemma {:induction false} OfConcat(a: seq<Row>, b: seq<Row>, t: TraceId)
    ensures Of(a + b, t) == Of(a, t) + Of(b, t)
    decreases |b|
  {
    if b == [] {
      assert a + b == a;
    } else {
      var n := |b| - 1;
      assert (a + b)[..|a + b| - 1] == a + b[..n];
      OfConcat(a, b[..n], t);
    }
  }

  /** The table with one more row for its trace, in primary-key position. */
  function Inserted(rows: seq<Row>, row: Row): seq<Row> {
    var k := UpTo(rows, row.payload.traceId);
    rows[..k] + [row] + rows[k..]
  }

  /** The row that `appendTransition` writes after a trace's chain. */
  function NextRow(chain: seq<Row>, t: TraceId, from: Option<TraceState>, to: TraceState, reason: Reason, at: int,
                   hmac: Hmac): Row
  {
    var p := Payload(t, |chain| + 1, from, to, reason, at, if chain == [] then None else Some(chain[|chain| - 1].mac));
    Row(p, hmac(p))
  }

  /** Inserting a row touches only its own trace, where it comes last. */
  lemma InsertedOf(rows: seq<Row>, row: Row, u: TraceId)
    requires Ordered(rows)
    ensures Of(Inserted(rows, row), u) == Of(rows, u) + if u == row.payload.traceId then [row] else []
  {
    var t := row.payload.traceId;
    var k := UpTo(rows, t);
    UpToSplits(rows, t);
    assert rows == rows[..k] + rows[k..];
    OfConcat(rows[..k], rows[k..], u);
    OfConcat(rows[..k], [row], u);
    OfConcat(rows[..k] + [row], rows[k..], u);
    assert [row][..0] == [];
    if u == t {
      OfNone(rows[k..], t);
    }
  }

  /** Every trace's rows are what they were, and possibly more after them. */
  ghost predicate RowsGrow(rows: seq<Row>, rows': seq<Row>) {
    forall t :: KeepsPrefix(rows', rows, t)
  }

  lemma InsertedGrows(rows: seq<Row>, row: Row)
    requires Ordered(rows)
    ensures RowsGrow(rows, Inserted(rows, row))
  {
    forall t
      ensures KeepsPrefix(Inserted(rows, row), rows, t)
    {
      InsertedOf(rows, row, t);
    }
  }

  lemma RowsGrowTrans(a: seq<Row>, b: seq<Row>, c: seq<Row>)
    requires RowsGrow(a, b) && RowsGrow(b, c)
    ensures RowsGrow(a, c) && RowsGrow(a, a)
  {
    forall t
      ensures KeepsPrefix(c, a, t) && KeepsPrefix(a, a, t)
    {
      assert KeepsPrefix(b, a, t) && KeepsPrefix(c, b, t);
    }
  }

  /** Appending after an intact chain keeps the table ordered and intact. */
  lemma AppendKeepsIntact(rows: seq<Row>, t: TraceId, from: Option<TraceState>, to: TraceState, reason: Reason, at: int,
                          hmac: Hmac)
    requires Ordered(rows) && Intact(rows, hmac)
    ensures
      var rows' := Inserted(rows, NextRow(Of(rows, t), t, from, to, reason, at, hmac));
      Ordered(rows') && Intact(rows', hmac)
  {
    var row := NextRow(Of(rows, t), t, from, to, reason, at, hmac);
    InsertedOrdered(rows, row, hmac);
    var rows' := Inserted(rows, row);
    forall u
      ensures ChainOk(Of(rows', u), hmac)
    {
      assert ChainOk(Of(rows, u), hmac);
      InsertedOf(rows, row, u);
      if u == t {
        AppendedChain(Of(rows, t), row, hmac);
        assert LinkOk(Of(rows, t) + [row], |Of(rows, t)|, hmac);
      } else {
        assert Of(rows', u) == Of(rows, u);
      }
    }
  }

  lemma InsertedOrdered(rows: seq<Row>, row: Row, hmac: Hmac)
    requires Ordered(rows) && Intact(rows, hmac)
    requires row.payload.seqNo == |Of(rows, row.payload.traceId)| + 1
    ensures Ordered(Inserted(rows, row))
  {
    var t := row.payload.traceId;
    var k := UpTo(rows, t);
    UpToSplits(rows, t);
    OfMembers(rows, t);
    var chain := Of(rows, t);
    assert ChainOk(chain, hmac);
    forall i | 0 <= i < k
      ensures Before(rows[i], row)
    {
      if rows[i].payload.traceId == t {
        assert rows[i] in chain;
        var j :| 0 <= j < |chain| && chain[j] == rows[i];
        assert LinkOk(chain, j, hmac);
      }
    }
    forall i | k <= i < |rows|
      ensures Before(row, rows[i])
    {
    }
  }

  /** The rows of the traces that stay. */
  function Pruned(rows: seq<Row>, gone: set<TraceId>): seq<Row> {
    if rows == [] then []
    else
      var last := rows[|rows| - 1];
      Pruned(rows[..|rows| - 1], gone) + if last.payload.traceId in gone then [] else [last]
  }

  lemma {:induction false} PrunedOf(rows: seq<Row>, gone: set<TraceId>, t: TraceId)
    ensures Of(Pruned(rows, gone), t) == if t in gone then [] else Of(rows, t)
  {
    if rows != [] {
      var n := |rows| - 1;
      var last := rows[n];
      PrunedOf(rows[..n], gone, t);
      var before := Pruned(rows[..n], gone);
      assert Of(rows, t) == Of(rows[..n], t) + if last.payload.traceId == t then [last] else [];
      if last.payload.traceId !in gone {
        assert (before + [last])[..|before|] == before;
        assert Of(before + [last], t) == Of(before, t) + if last.payload.traceId == t then [last] else [];
      } else {
        assert Pruned(rows, gone) == before;
        assert t !in gone ==> Of(rows, t) == Of(rows[..n], t);
      }
    }
  }

  lemma {:induction false} PrunedOrdered(rows: seq<Row>, gone: set<TraceId>)
    requires Ordered(rows)
    ensures Ordered(Pruned(rows, gone))
    ensures forall r :: r in Pruned(rows, gone) <==> r in rows && r.payload.traceId !in gone
  {
    if rows != [] {
      var n := |rows| - 1;
      PrunedOrdered(rows[..n], gone);
      assert rows == rows[..n] + [rows[n]];
      forall i | 0 <= i < |Pruned(rows[..n], gone)|
        ensures Before(Pruned(rows[..n], gone)[i], rows[n])
      {
        assert Pruned(rows[..n], gone)[i] in rows[..n];
      }
    }
  }

  /** Removing whole traces leaves every other chain as it was. */
  lemma PruneKeepsIntact(rows: seq<Row>, gone: set<TraceId>, hmac: Hmac)
    requires Ordered(rows) && Intact(rows, hmac)
    ensures Ordered(Pruned(rows, gone)) && Intact(Pruned(rows, gone), hmac)
  {
    PrunedOrdered(rows, gone);
    forall t
      ensures ChainOk(Of(Pruned(rows, gone), t), hmac)
    {
      PrunedOf(rows, gone, t);
      assert ChainOk(Of(rows, t), hmac);
    }
  }
}
