/** Edit distance between two strings of code units: the recursive definition, its metric laws, and the two-row loop. */
module EditDistance {
  import opened Wrappers

  function Min3(x: nat, y: nat, z: nat): nat {
    if x <= y && x <= z then x else if y <= z then y else z
  }

  function Cost(x: CodeUnit, y: CodeUnit): nat {
    if x == y then 0 else 1
  }

  function Init(s: Text): Text
    requires s != []
  {
    s[..|s| - 1]
  }

  function Last(s: Text): CodeUnit
    requires s != []
  {
    s[|s| - 1]
  }

  /** The least number of insertions, deletions and substitutions that turn `a` into `b`. */
  function Distance(a: Text, b: Text): nat
    decreases |a| + |b|
  {
    if a == [] then |b|
    else if b == [] then |a|
    else Min3(Distance(a, Init(b)) + 1, Distance(Init(a), b) + 1, Distance(Init(a), Init(b)) + Cost(Last(a), Last(b)))
  }

  /** One edit cannot undo more than one difference in length, and substitutions never cost more than rewriting. */
  lemma {:induction false} DistanceBounds(a: Text, b: Text)
    ensures |a| - |b| <= Distance(a, b) && |b| - |a| <= Distance(a, b)
    ensures Distance(a, b) <= if |a| <= |b| then |b| else |a|
    decreases |a| + |b|
  {
    if a != [] && b != [] {
      DistanceBounds(a, Init(b));
      DistanceBounds(Init(a), b);
      DistanceBounds(Init(a), Init(b));
    }
  }

  lemma {:induction false} DistanceZero(a: Text, b: Text)
    ensures Distance(a, b) == 0 <==> a == b
    decreases |a| + |b|
  {
    if a != [] && b != [] {
      assert a == Init(a) + [Last(a)] && b == Init(b) + [Last(b)];
      DistanceZero(Init(a), Init(b));
    }
  }

  lemma {:induction false} DistanceSymmetric(a: Text, b: Text)
    ensures Distance(a, b) == Distance(b, a)
    decreases |a| + |b|
  {
    if a != [] && b != [] {
      DistanceSymmetric(a, Init(b));
      DistanceSymmetric(Init(a), b);
      DistanceSymmetric(Init(a), Init(b));
    }
  }

  /** The triangle inequality, by the last edit of each of the two scripts. */
  lemma {:induction false} DistanceTriangle(a: Text, b: Text, c: Text)
    ensures Distance(a, c) <= Distance(a, b) + Distance(b, c)
    decreases |a| + |b| + |c|
  {
    if a == [] || b == [] || c == [] {
      DistanceBounds(a, b);
      DistanceBounds(b, c);
      DistanceBounds(a, c);
    } else if Distance(a, b) == Distance(Init(a), b) + 1 {
      DistanceTriangle(Init(a), b, c);
    } else if Distance(b, c) == Distance(b, Init(c)) + 1 {
      DistanceTriangle(a, b, Init(c));
    } else if Distance(a, b) == Distance(a, Init(b)) + 1 {
      if Distance(b, c) == Distance(Init(b), c) + 1 {
        DistanceTriangle(a, Init(b), c);
      } else {
        DistanceTriangle(a, Init(b), Init(c));
      }
    } else if Distance(b, c) == Distance(Init(b), c) + 1 {
      DistanceTriangle(Init(a), Init(b), c);
    } else {
      DistanceTriangle(Init(a), Init(b), Init(c));
    }
  }

  /** One inserted character costs at most one edit, wherever it stands. */
  lemma {:induction false} InsertionCost(x: Text, c: CodeUnit, y: Text)
    ensures Distance(x + y, x + [c] + y) <= 1
    decreases |y|
  {
    if y == [] {
      assert x + y == x && x + [c] + y == x + [c];
      DistanceZero(x, x);
      assert Init(x + [c]) == x;
    } else {
      assert Init(x + y) == x + Init(y) && Init(x + [c] + y) == x + [c] + Init(y);
      InsertionCost(x, c, Init(y));
    }
  }

  // ------------------------------------------------------------ edit scripts

  /** `t` is `s` with one character more. */
  predicate Inserts(s: Text, t: Text) {
    exists i | 0 <= i < |t| :: s == t[..i] + t[i + 1..]
  }

  predicate Substitutes(s: Text, t: Text) {
    |s| == |t| && exists i | 0 <= i < |s| :: t == s[i := t[i]]
  }

  predicate OneEdit(s: Text, t: Text) {
    Inserts(s, t) || Inserts(t, s) || Substitutes(s, t)
  }

  /** A sequence of strings from `a` to `b`, each one edit away from the one before. */
  predicate IsScript(steps: seq<Text>, a: Text, b: Text) {
    && steps != [] && steps[0] == a && steps[|steps| - 1] == b
    && forall i | 0 < i < |steps| :: OneEdit(steps[i - 1], steps[i])
  }

  lemma {:induction false} SubstitutionCost(x: Text, c: CodeUnit, d: CodeUnit, y: Text)
    ensures Distance(x + [c] + y, x + [d] + y) <= 1
    decreases |y|
  {
    if y == [] {
      assert x + [c] + y == x + [c] && x + [d] + y == x + [d];
      assert Init(x + [c]) == x && Init(x + [d]) == x;
      DistanceZero(x, x);
    } else {
      assert Init(x + [c] + y) == x + [c] + Init(y) && Init(x + [d] + y) == x + [d] + Init(y);
      SubstitutionCost(x, c, d, Init(y));
    }
  }

  lemma InsertsCost(s: Text, t: Text)
    requires Inserts(s, t)
    ensures Distance(s, t) <= 1
  {
    hide Distance;
    var i :| 0 <= i < |t| && s == t[..i] + t[i + 1..];
    assert t == t[..i] + [t[i]] + t[i + 1..];
    InsertionCost(t[..i], t[i], t[i + 1..]);
  }

  lemma SubstitutesCost(s: Text, t: Text)
    requires Substitutes(s, t)
    ensures Distance(s, t) <= 1
  {
    hide Distance;
    var i :| 0 <= i < |s| && t == s[i := t[i]];
    assert s == s[..i] + [s[i]] + s[i + 1..] && t == s[..i] + [t[i]] + s[i + 1..];
    SubstitutionCost(s[..i], s[i], t[i], s[i + 1..]);
  }

  lemma OneEditCost(s: Text, t: Text)
    requires OneEdit(s, t)
    ensures Distance(s, t) <= 1
  {
    DistanceSymmetric(s, t);
    hide Distance, Inserts, Substitutes;
    if Inserts(s, t) {
      InsertsCost(s, t);
    } else if Inserts(t, s) {
      InsertsCost(t, s);
    } else {
      SubstitutesCost(s, t);
    }
  }

  /** No script is shorter than the distance. */
  lemma {:induction false} ScriptIsNoShorter(steps: seq<Text>, a: Text, b: Text)
    requires IsScript(steps, a, b)
    ensures Distance(a, b) <= |steps| - 1
    decreases |steps|
  {
    var n := |steps| - 1;
    if n == 0 {
      DistanceZero(a, b);
    } else {
      ScriptIsNoShorter(steps[..n], a, steps[n - 1]);
      OneEditCost(steps[n - 1], b);
      DistanceTriangle(a, steps[n - 1], b);
    }
  }

  /** The same script with `c` at the end of every Text. */
  function Extended(steps: seq<Text>, c: CodeUnit): seq<Text> {
    seq(|steps|, i requires 0 <= i < |steps| => steps[i] + [c])
  }

  lemma ExtendedIsScript(steps: seq<Text>, a: Text, b: Text, c: CodeUnit)
    requires IsScript(steps, a, b)
    ensures IsScript(Extended(steps, c), a + [c], b + [c])
  {
    forall i | 0 < i < |steps|
      ensures OneEdit(steps[i - 1] + [c], steps[i] + [c])
    {
      EditBefore(steps[i - 1], steps[i], c);
    }
  }

  lemma EditBefore(s: Text, t: Text, c: CodeUnit)
    requires OneEdit(s, t)
    ensures OneEdit(s + [c], t + [c])
  {
    if Inserts(s, t) {
      var i :| 0 <= i < |t| && s == t[..i] + t[i + 1..];
      assert s + [c] == (t + [c])[..i] + (t + [c])[i + 1..];
    } else if Inserts(t, s) {
      var i :| 0 <= i < |s| && t == s[..i] + s[i + 1..];
      assert t + [c] == (s + [c])[..i] + (s + [c])[i + 1..];
    } else {
      var i :| 0 <= i < |s| && t == s[i := t[i]];
      assert t + [c] == (s + [c])[i := (t + [c])[i]];
    }
  }

  lemma ScriptSnoc(steps: seq<Text>, a: Text, b: Text, c: Text)
    requires IsScript(steps, a, b) && OneEdit(b, c)
    ensures IsScript(steps + [c], a, c)
  {
  }

  lemma ScriptCons(steps: seq<Text>, a: Text, b: Text, c: Text)
    requires IsScript(steps, b, c) && OneEdit(a, b)
    ensures IsScript([a] + steps, a, c)
  {
  }

  lemma LastEdits(a: Text, b: Text)
    ensures b != [] ==> OneEdit(Init(b), b)
    ensures a != [] ==> OneEdit(a, Init(a))
    ensures a != [] && b != [] ==> OneEdit(Init(b) + [Last(a)], b)
    ensures a != [] && b != [] && Last(a) == Last(b) ==> Init(b) + [Last(a)] == b
    ensures a != [] ==> a == Init(a) + [Last(a)]
  {
    if b != [] {
      assert Init(b) == b[..|b| - 1] + b[|b|..];
    }
    if a != [] {
      assert Init(a) == a[..|a| - 1] + a[|a|..];
    }
    if a != [] && b != [] {
      var last := Init(b) + [Last(a)];
      assert b == last[|b| - 1 := b[|b| - 1]];
    }
  }

  /** Some script is exactly as long as the distance: it is the least number of edits. */
  lemma {:induction false} ScriptOfLength(a: Text, b: Text) returns (steps: seq<Text>)
    ensures IsScript(steps, a, b) && |steps| - 1 == Distance(a, b)
    decreases |a| + |b|
  {
    LastEdits(a, b);
    hide OneEdit;
    if a == [] && b == [] {
      return [a];
    }
    hide IsScript;
    if b != [] && Distance(a, b) == Distance(a, Init(b)) + 1 {
      steps := ScriptOfLength(a, Init(b));
      ScriptSnoc(steps, a, Init(b), b);
      steps := steps + [b];
    } else if a != [] && Distance(a, b) == Distance(Init(a), b) + 1 {
      steps := ScriptOfLength(Init(a), b);
      ScriptCons(steps, a, Init(a), b);
      steps := [a] + steps;
    } else {
      steps := ScriptOfLength(Init(a), Init(b));
      ExtendedIsScript(steps, Init(a), Init(b), Last(a));
      steps := Extended(steps, Last(a));
      if Last(a) != Last(b) {
        ScriptSnoc(steps, a, Init(b) + [Last(a)], b);
        steps := steps + [b];
      }
    }
  }

  // ------------------------------------------------------------ lower bounds

  /** How many characters of `b` do not occur in `a`. */
  function Foreign(a: Text, b: Text): nat {
    if b == [] then 0 else Foreign(a, Init(b)) + if Last(b) in a then 0 else 1
  }

  lemma {:induction false} ForeignShrinks(a: Text, b: Text)
    requires a != []
    ensures Foreign(a, b) <= Foreign(Init(a), b)
  {
    if b != [] {
      ForeignShrinks(a, Init(b));
    }
  }

  /** Every foreign character costs an edit. */
  lemma {:induction false} ForeignCost(a: Text, b: Text)
    ensures Foreign(a, b) <= Distance(a, b)
    decreases |a| + |b|
  {
    if b == [] {
    } else if a == [] {
      ForeignCost(a, Init(b));
      DistanceBounds(a, Init(b));
    } else {
      ForeignCost(a, Init(b));
      ForeignCost(Init(a), b);
      ForeignCost(Init(a), Init(b));
      ForeignShrinks(a, b);
      ForeignShrinks(a, Init(b));
    }
  }

  /**
   * Whatever two parts a text is cut into, the other text can be cut so that the
   * distances of the parts add up to no more than the whole.
   */
  lemma {:induction false} SplitDistance(a: Text, w1: Text, w2: Text) returns (k: nat)
    ensures k <= |a| && Distance(a[..k], w1) + Distance(a[k..], w2) <= Distance(a, w1 + w2)
    decreases |a| + |w2|
  {
    if w2 == [] {
      k := |a|;
      assert a[..k] == a && a[k..] == [] && w1 + w2 == w1;
    } else if a == [] {
      k := 0;
    } else {
      var w := w1 + w2;
      assert Init(w) == w1 + Init(w2) && Last(w) == Last(w2);
      LastEdit(a, w);
      hide Distance;
      if Distance(a, w) == Distance(a, Init(w)) + 1 {
        k := SplitDistance(a, w1, Init(w2));
        LastInserted(a[k..], w2);
      } else if Distance(a, w) == Distance(Init(a), w) + 1 {
        k := SplitDistance(Init(a), w1, w2);
        InitSplits(a, k);
        LastDeleted(a[k..], w2);
      } else {
        k := SplitDistance(Init(a), w1, Init(w2));
        InitSplits(a, k);
        LastSubstituted(a[k..], w2);
      }
    }
  }

  lemma InitSplits(a: Text, k: nat)
    requires k < |a|
    ensures Init(a)[..k] == a[..k] && Init(a[k..]) == Init(a)[k..] && Last(a[k..]) == Last(a)
  {
  }

  /** The last edit of a shortest script inserts, deletes or substitutes. */
  lemma LastEdit(a: Text, b: Text)
    requires a != [] && b != []
    ensures
      || Distance(a, b) == Distance(a, Init(b)) + 1
      || Distance(a, b) == Distance(Init(a), b) + 1
      || Distance(a, b) == Distance(Init(a), Init(b)) + Cost(Last(a), Last(b))
  {
  }

  lemma LastSubstituted(a: Text, b: Text)
    requires a != [] && b != []
    ensures Distance(a, b) <= Distance(Init(a), Init(b)) + Cost(Last(a), Last(b))
  {
  }

  lemma LastInserted(a: Text, b: Text)
    requires b != []
    ensures Distance(a, b) <= Distance(a, Init(b)) + 1
  {
    if a != [] {
      DistanceBounds(a, []);
    }
  }

  lemma LastDeleted(a: Text, b: Text)
    requires a != []
    ensures Distance(a, b) <= Distance(Init(a), b) + 1
  {
    DistanceBounds(Init(a), b);
  }

  // ------------------------------------------------------------ the two rows

  /** The entry of the table for all of `a` and the first `j` characters of `b`. */
  function Cell(a: Text, b: Text, j: nat): nat
    requires j <= |b|
  {
    Distance(a, b[..j])
  }

  /** The recurrence that fills one cell of the table from its three neighbours. */
  lemma CellStep(a: Text, b: Text, j: nat)
    requires a != [] && 0 < j <= |b|
    ensures Cell(a, b, j) ==
            Min3(Cell(a, b, j - 1) + 1, Cell(Init(a), b, j) + 1, Cell(Init(a), b, j - 1) + Cost(Last(a), b[j - 1]))
  {
    assert Init(b[..j]) == b[..j - 1] && Last(b[..j]) == b[j - 1];
  }

  /** `row` holds the first entries of the table's row for `a`. */
  ghost predicate RowOf(row: seq<nat>, a: Text, b: Text) {
    |row| <= |b| + 1 && forall j | 0 <= j < |row| :: row[j] == Cell(a, b, j)
  }

  lemma FirstRow(row: seq<nat>, b: Text)
    requires |row| == |b| + 1 && forall j | 0 <= j < |row| :: row[j] == j
    ensures RowOf(row, [], b)
  {
  }

  lemma FirstCell(a: Text, b: Text)
    ensures RowOf([|a|], a, b)
  {
    assert b[..0] == [];
  }

  lemma LastCell(row: seq<nat>, a: Text, b: Text)
    requires RowOf(row, a, b) && |row| == |b| + 1
    ensures row[|b|] == Distance(a, b)
  {
    assert b[..|b|] == b;
  }

  lemma NextCell(prev: seq<nat>, curr: seq<nat>, a: Text, b: Text)
    requires a != [] && |prev| == |b| + 1 && 1 <= |curr| <= |b|
    requires RowOf(prev, Init(a), b) && RowOf(curr, a, b)
    ensures
      var j := |curr|;
      RowOf(curr + [Min3(curr[j - 1] + 1, prev[j] + 1, prev[j - 1] + Cost(Last(a), b[j - 1]))], a, b)
  {
    CellStep(a, b, |curr|);
    hide Cell, Init;
  }

  /** The distance, keeping one row of the table at a time. */
  method LevenshteinDistance(a: Text, b: Text) returns (d: nat)
    ensures d == Distance(a, b)
  {
    var m, n := |a|, |b|;
    if m == 0 {
      return n;
    }
    if n == 0 {
      return m;
    }
    var prev: seq<nat> := seq(n + 1, (j: nat) => j);
    FirstRow(prev, b);
    assert a[..0] == [] && a[..m] == a;
    hide RowOf;
    for i := 1 to m + 1
      invariant |prev| == n + 1 && RowOf(prev, a[..i - 1], b)
    {
      var curr: seq<nat> := [i];
      ghost var front := a[..i];
      assert Init(front) == a[..i - 1] && Last(front) == a[i - 1];
      FirstCell(front, b);
      for j := 1 to n + 1
        invariant |curr| == j && RowOf(curr, front, b)
      {
        NextCell(prev, curr, front, b);
        var cost := if a[i - 1] == b[j - 1] then 0 else 1;
        curr := curr + [Min3(curr[j - 1] + 1, prev[j] + 1, prev[j - 1] + cost)];
      }
      prev := curr;
    }
    LastCell(prev, a, b);
    d := prev[n];
  }
}
