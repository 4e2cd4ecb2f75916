/** Routing a comment to a persona: exact alias hits first, then one unique close match, else the principal. */
module PersonaRouter {
  import opened Wrappers
  import opened EditDistance

  const FUZZY_MATCH_THRESHOLD: real := 0.8

  function MaxLen(a: Text, b: Text): nat {
    if |a| <= |b| then |b| else |a|
  }

  /** 1 for equal strings, less by the share of characters that must change. */
  function Similarity(a: Text, b: Text): real {
    if MaxLen(a, b) == 0 then 1.0 else 1.0 - Distance(a, b) as real / MaxLen(a, b) as real
  }

  lemma SimilarityRange(a: Text, b: Text)
    ensures 0.0 <= Similarity(a, b) <= 1.0
    ensures Similarity(a, b) == 1.0 <==> a == b
    ensures Similarity(a, b) == Similarity(b, a)
  {
    DistanceBounds(a, b);
    DistanceZero(a, b);
    DistanceSymmetric(a, b);
    if MaxLen(a, b) > 0 {
      var d, n := Distance(a, b) as real, MaxLen(a, b) as real;
      assert 0.0 <= d <= n;
      DivideBounds(d, n);
    }
  }

  lemma DivideBounds(d: real, n: real)
    requires 0.0 <= d <= n && n > 0.0
    ensures 0.0 <= d / n <= 1.0
    ensures d / n == 0.0 <==> d == 0.0
  {
    assert d == d / n * n;
  }

  /** Close enough to route: at most one character in five differs. */
  lemma CloseIff(a: Text, b: Text)
    requires MaxLen(a, b) > 0
    ensures Similarity(a, b) >= FUZZY_MATCH_THRESHOLD <==> 5 * Distance(a, b) <= MaxLen(a, b)
  {
    ShareIff(Distance(a, b) as real, MaxLen(a, b) as real);
  }

  lemma ShareIff(d: real, n: real)
    requires n > 0.0
    ensures d / n <= 0.2 <==> 5.0 * d <= n
  {
    var q := d / n;
    assert d == q * n;
    ScaleKeepsOrder(q, 0.2, n);
    ScaleKeepsOrder(0.2, q, n);
  }

  lemma ScaleKeepsOrder(q: real, r: real, n: real)
    requires n > 0.0
    ensures q < r ==> q * n < r * n
  {
  }

  method ComputeSimilarity(a: Text, b: Text) returns (s: real)
    ensures s == Similarity(a, b)
  {
    var maxLen := if |a| <= |b| then |b| else |a|;
    if maxLen == 0 {
      return 1.0;
    }
    var d := LevenshteinDistance(a, b);
    s := 1.0 - d as real / maxLen as real;
  }

  // ------------------------------------------------------------ windows

  /** The windows that are searched: within one of the alias's length. */
  predicate IsWindow(text: Text, alias: Text, i: nat, len: nat) {
    1 <= len && |alias| <= len + 1 && len <= |alias| + 1 && i + len <= |text|
  }

  predicate IsSubstring(text: Text, i: nat, len: nat) {
    i + len <= |text|
  }

  ghost predicate IsBestScore(text: Text, alias: Text, best: real) {
    && 0.0 <= best
    && (forall i: nat, len: nat | IsWindow(text, alias, i, len) :: Similarity(alias, text[i..i + len]) <= best)
    && (best == 0.0 || exists i: nat, len: nat ::
      IsWindow(text, alias, i, len) && Similarity(alias, text[i..i + len]) == best)
  }

  /** Some searched window is close enough. */
  ghost predicate Reaches(text: Text, alias: Text) {
    exists i: nat, len: nat ::
      IsWindow(text, alias, i, len) && Similarity(alias, text[i..i + len]) >= FUZZY_MATCH_THRESHOLD
  }

  /** Some substring, of whatever length, is close enough. */
  ghost predicate SubstringReaches(text: Text, alias: Text) {
    exists i: nat, len: nat ::
      IsSubstring(text, i, len) && Similarity(alias, text[i..i + len]) >= FUZZY_MATCH_THRESHOLD
  }

  /** The windows overlook nothing in this text. */
  ghost predicate Complete(text: Text, alias: Text) {
    SubstringReaches(text, alias) ==> Reaches(text, alias)
  }

  lemma BestScoreReaches(text: Text, alias: Text, best: real)
    requires IsBestScore(text, alias, best)
    ensures best >= FUZZY_MATCH_THRESHOLD <==> Reaches(text, alias)
  {
    if Reaches(text, alias) {
      var i: nat, len: nat :|
        IsWindow(text, alias, i, len) && Similarity(alias, text[i..i + len]) >= FUZZY_MATCH_THRESHOLD;
    }
  }

  lemma BestScoreUnique(text: Text, alias: Text, s: real, t: real)
    requires IsBestScore(text, alias, s) && IsBestScore(text, alias, t)
    ensures s == t
  {
  }

  /** The greatest similarity of the alias to any searched window, and 0 when there is none. */
  method BestFuzzyScore(text: Text, alias: Text) returns (best: real)
    ensures IsBestScore(text, alias, best)
  {
    var n := |alias|;
    best := 0.0;
    var first := if n >= 2 then n - 1 else 1;
    for winLen := first to n + 2
      invariant 0.0 <= best
      invariant forall i: nat, len: nat | IsWindow(text, alias, i, len) && len < winLen ::
        Similarity(alias, text[i..i + len]) <= best
      invariant best == 0.0 || exists i: nat, len: nat ::
        IsWindow(text, alias, i, len) && Similarity(alias, text[i..i + len]) == best
    {
      if winLen > |text| {
        continue;
      }
      for i := 0 to |text| - winLen + 1
        invariant 0.0 <= best
        invariant forall j: nat, len: nat | IsWindow(text, alias, j, len)
          && (len < winLen || (len == winLen && j < i)) ::
          Similarity(alias, text[j..j + len]) <= best
        invariant best == 0.0 || exists j: nat, len: nat ::
          IsWindow(text, alias, j, len) && Similarity(alias, text[j..j + len]) == best
      {
        var s := ComputeSimilarity(alias, text[i..i + winLen]);
        assert IsWindow(text, alias, i, winLen);
        if s > best {
          best := s;
        }
      }
    }
  }

  /**
   * For an alias of at most 7 characters the windows lose nothing: some window is
   * close enough exactly when some substring of any length is.
   */
  lemma WindowsSuffice(text: Text, alias: Text)
    requires 1 <= |alias| <= 7
    ensures Reaches(text, alias) <==> SubstringReaches(text, alias)
  {
    if Reaches(text, alias) {
      var i: nat, len: nat :|
        IsWindow(text, alias, i, len) && Similarity(alias, text[i..i + len]) >= FUZZY_MATCH_THRESHOLD;
      assert IsSubstring(text, i, len);
    }
    forall i: nat, len: nat |
      IsSubstring(text, i, len) && Similarity(alias, text[i..i + len]) >= FUZZY_MATCH_THRESHOLD
      ensures Reaches(text, alias)
    {
      var part := text[i..i + len];
      CloseIff(alias, part);
      DistanceBounds(alias, part);
      assert IsWindow(text, alias, i, len);
    }
  }

  predicate StandsAt(text: Text, part: Text, i: nat) {
    i + |part| <= |text| && text[i..i + |part|] == part
  }

  predicate Contains(text: Text, part: Text) {
    exists i | 0 <= i <= |text| :: StandsAt(text, part, i)
  }

  /** Containing is being the middle of a split in three. */
  lemma ContainsIff(text: Text, part: Text)
    ensures Contains(text, part) <==> exists before: Text, after: Text :: text == before + part + after
  {
    if Contains(text, part) {
      var i: nat :| i <= |text| && StandsAt(text, part, i);
      assert text == text[..i] + part + text[i + |part|..];
    }
    forall before: Text, after: Text | text == before + part + after
      ensures Contains(text, part)
    {
      assert StandsAt(text, part, |before|);
    }
  }

  /** For an alias of at most 3 characters close enough means equal. */
  lemma ShortAliasNeedsExact(text: Text, alias: Text)
    requires 1 <= |alias| <= 3
    ensures Reaches(text, alias) <==> Contains(text, alias)
  {
    if Reaches(text, alias) {
      var i: nat, len: nat :|
        IsWindow(text, alias, i, len) && Similarity(alias, text[i..i + len]) >= FUZZY_MATCH_THRESHOLD;
      CloseIff(alias, text[i..i + len]);
      DistanceZero(alias, text[i..i + len]);
      assert StandsAt(text, alias, i);
    }
    if Contains(text, alias) {
      var i :| 0 <= i <= |text| && StandsAt(text, alias, i);
      SimilarityRange(alias, alias);
      assert IsWindow(text, alias, i, |alias|);
    }
  }

  /**
   * At 8 characters the windows miss: two foreign characters in the middle leave
   * the whole text close enough, and no window of it.
   */
  lemma WindowsMissAtEight(x: Text, y: Text, c: CodeUnit, d: CodeUnit)
    requires |x| == 4 && |y| == 4 && c !in x + y && d !in x + y
    ensures Similarity(x + y, x + [c, d] + y) >= FUZZY_MATCH_THRESHOLD && !Reaches(x + [c, d] + y, x + y)
  {
    var alias, text := x + y, x + [c, d] + y;
    TwoInsertions(x, y, c, d);
    CloseIff(alias, text);
    forall i: nat, len: nat | IsWindow(text, alias, i, len)
      ensures Similarity(alias, text[i..i + len]) < FUZZY_MATCH_THRESHOLD
    {
      var window := text[i..i + len];
      assert window == x[i..] + [c, d] + y[..i + len - 6];
      ForeignInTheMiddle(alias, x[i..], y[..i + len - 6], c, d);
      ForeignCost(alias, window);
      CloseIff(alias, window);
    }
  }

  lemma TwoInsertions(x: Text, y: Text, c: CodeUnit, d: CodeUnit)
    ensures Distance(x + y, x + [c, d] + y) <= 2
  {
    InsertionCost(x, c, y);
    InsertionCost(x + [c], d, y);
    assert x + [c] + [d] + y == x + [c, d] + y;
    DistanceTriangle(x + y, x + [c] + y, x + [c, d] + y);
  }

  lemma {:induction false} ForeignInTheMiddle(alias: Text, before: Text, after: Text, c: CodeUnit, d: CodeUnit)
    requires c !in alias && d !in alias
    ensures Foreign(alias, before + [c, d] + after) >= 2
    decreases |after|
  {
    var all := before + [c, d] + after;
    if after == [] {
      assert Init(all) == before + [c] && Last(all) == d;
      assert Init(before + [c]) == before && Last(before + [c]) == c;
    } else {
      assert Init(all) == before + [c, d] + Init(after);
      ForeignInTheMiddle(alias, before, Init(after), c, d);
    }
  }

  /**
   * Two foreign characters in the middle of a 9-character alias, one of whose ends
   * is cut off: three edits, because neither half is all one character.
   */
  lemma FrontCut(x: Text, y: Text, c: CodeUnit, d: CodeUnit)
    requires |x| == 4 && |y| == 5 && c !in x + y && d !in x + y && x[..3] != x[1..]
    ensures Distance(x + y, x[1..] + [c, d] + y) >= 3
  {
    hide Distance, Foreign;
    var k := SplitDistance(x + y, x[1..] + [c, d], y);
    ForeignPair((x + y)[..k], x[1..], [], c, d);
    DistanceBounds((x + y)[k..], y);
    if k == 4 {
      assert (x + y)[..k] == x && (x + y)[k..] == y;
      var h := SplitDistance(x, x[1..], [c, d]);
      ForeignPair(x[h..], [], [], c, d);
      DistanceBounds(x[..h], x[1..]);
      DistanceZero(x[..h], x[1..]);
    }
  }

  lemma BackCut(x: Text, y: Text, c: CodeUnit, d: CodeUnit)
    requires |x| == 4 && |y| == 5 && c !in x + y && d !in x + y && y[..4] != y[1..]
    ensures Distance(x + y, x + [c, d] + y[..4]) >= 3
  {
    hide Distance, Foreign;
    var k := SplitDistance(x + y, x, [c, d] + y[..4]);
    ForeignPair((x + y)[k..], [], y[..4], c, d);
    DistanceBounds((x + y)[..k], x);
    if k == 4 {
      assert (x + y)[..k] == x && (x + y)[k..] == y;
      var h := SplitDistance(y, [c, d], y[..4]);
      ForeignPair(y[..h], [], [], c, d);
      DistanceBounds(y[h..], y[..4]);
      DistanceZero(y[h..], y[..4]);
    }
    assert x + [c, d] + y[..4] == x + ([c, d] + y[..4]);
  }

  lemma ForeignPair(a: Text, before: Text, after: Text, c: CodeUnit, d: CodeUnit)
    requires c !in a && d !in a
    ensures Distance(a, before + [c, d] + after) >= 2
    ensures before == [] && after == [] ==> Distance(a, [c, d]) >= 2
    ensures after == [] ==> Distance(a, before + [c, d]) >= 2
    ensures before == [] ==> Distance(a, [c, d] + after) >= 2
  {
    ForeignInTheMiddle(a, before, after, c, d);
    ForeignCost(a, before + [c, d] + after);
    assert after == [] ==> before + [c, d] + after == before + [c, d];
    assert before == [] ==> before + [c, d] + after == [c, d] + after;
    assert [c, d] + [] == [c, d];
  }

  lemma WindowsMissAtNine(x: Text, y: Text, c: CodeUnit, d: CodeUnit)
    requires |x| == 4 && |y| == 5 && c !in x + y && d !in x + y
    requires x[..3] != x[1..] && y[..4] != y[1..]
    ensures Similarity(x + y, x + [c, d] + y) >= FUZZY_MATCH_THRESHOLD && !Reaches(x + [c, d] + y, x + y)
  {
    var alias, text := x + y, x + [c, d] + y;
    TwoInsertions(x, y, c, d);
    CloseIff(alias, text);
    forall i: nat, len: nat | IsWindow(text, alias, i, len)
      ensures Similarity(alias, text[i..i + len]) < FUZZY_MATCH_THRESHOLD
    {
      var window := text[i..i + len];
      CloseIff(alias, window);
      if len == 10 {
        FrontCut(x, y, c, d);
        BackCut(x, y, c, d);
        if i == 0 {
          assert text[0..10] == x + [c, d] + y[..4];
        } else {
          assert text[1..11] == x[1..] + [c, d] + y;
        }
      } else {
        assert window == x[i..] + [c, d] + y[..i + len - 6];
        ForeignPair(alias, x[i..], y[..i + len - 6], c, d);
      }
    }
  }

  /** From 10 characters on, a text two shorter than the alias is close enough and holds no window at all. */
  lemma WindowsMissBeyondNine(alias: Text)
    requires |alias| >= 10
    ensures
      var text := alias[..|alias| - 2];
      Similarity(alias, text) >= FUZZY_MATCH_THRESHOLD && !Reaches(text, alias)
  {
    var n := |alias|;
    var text := alias[..n - 2];
    InsertionCost(text, alias[n - 2], []);
    InsertionCost(alias[..n - 1], alias[n - 1], []);
    assert text + [] == text && text + [alias[n - 2]] + [] == alias[..n - 1];
    assert alias[..n - 1] + [] == alias[..n - 1] && alias[..n - 1] + [alias[n - 1]] + [] == alias;
    DistanceTriangle(text, alias[..n - 1], alias);
    DistanceSymmetric(text, alias);
    CloseIff(alias, text);
  }

  /** For every length from 8 on there is an alias and a text that the windows miss. */
  lemma MissedAlias(n: nat) returns (alias: Text, text: Text)
    requires n >= 8
    ensures |alias| == n && !Complete(text, alias)
  {
    if n == 8 {
      var x: Text := [0, 0, 0, 0];
      WindowsMissAtEight(x, x, 1, 1);
      alias, text := x + x, x + [1, 1] + x;
    } else if n == 9 {
      var x: Text, y: Text := [0, 0, 0, 2], [0, 0, 0, 0, 2];
      assert x[..3][2] != x[1..][2] && y[..4][3] != y[1..][3];
      WindowsMissAtNine(x, y, 1, 1);
      alias, text := x + y, x + [1, 1] + y;
    } else {
      alias := seq(n, (i: nat) => 0 as CodeUnit);
      text := alias[..n - 2];
      WindowsMissBeyondNine(alias);
    }
    assert IsSubstring(text, 0, |text|) && text[0..0 + |text|] == text;
  }

  /** The windows overlook nothing for all aliases and texts of a length exactly up to 7. */
  lemma WindowsCompleteIff(n: nat)
    requires n >= 1
    ensures (forall alias: Text, text: Text | |alias| == n :: Complete(text, alias)) <==> n <= 7
  {
    if n <= 7 {
      forall alias: Text, text: Text | |alias| == n
        ensures Complete(text, alias)
      {
        WindowsSuffice(text, alias);
      }
    } else {
      var alias, text := MissedAlias(n);
    }
  }

  // ------------------------------------------------------------ candidates

  datatype AliasData = AliasData(text: Text, enabled: bool)
  datatype Persona = Persona(personaId: Text, displayName: Text, isPrincipal: bool, aliases: seq<AliasData>)
  datatype RouteCandidate = RouteCandidate(personaId: Text, matchedAlias: Text, score: real)
  datatype Decision = Exact | FuzzyUnique | PrincipalFallback
  datatype RouteDecision = RouteDecision(decision: Decision, personaId: Text, candidates: seq<RouteCandidate>)
  datatype RouteError = Unavailable

  /** The two ways a persona can be hit. */
  datatype Stage = ExactStage | FuzzyStage

  /** A trimmed, non-empty display name or enabled alias. */
  ghost predicate IsMatchText(p: Persona, trim: Text -> Text, t: Text) {
    t != [] && (t == trim(p.displayName) || exists a | a in p.aliases :: a.enabled && trim(a.text) == t)
  }

  ghost predicate HitBy(stage: Stage, text: Text, t: Text) {
    if stage.ExactStage? then Contains(text, t) else Reaches(text, t)
  }

  ghost predicate Hit(stage: Stage, text: Text, trim: Text -> Text, p: Persona) {
    exists t :: IsMatchText(p, trim, t) && HitBy(stage, text, t)
  }

  /** The candidate of a persona: its longest exact hit, or its closest fuzzy one. */
  ghost predicate BestHit(stage: Stage, text: Text, trim: Text -> Text, p: Persona, c: RouteCandidate) {
    && c.personaId == p.personaId
    && IsMatchText(p, trim, c.matchedAlias) && HitBy(stage, text, c.matchedAlias)
    && match stage
       case ExactStage =>
         c.score == 1.0 && forall t | IsMatchText(p, trim, t) && Contains(text, t) :: |t| <= |c.matchedAlias|
       case FuzzyStage =>
         && IsBestScore(text, c.matchedAlias, c.score)
         && forall t, s | IsMatchText(p, trim, t) && IsBestScore(text, t, s) :: s <= c.score
  }

  /** One candidate for every persona that is hit, in order. */
  ghost predicate Found(stage: Stage, text: Text, trim: Text -> Text, personas: seq<Persona>,
                        found: seq<RouteCandidate>)
  {
    if personas == [] then found == []
    else
      var rest, p := personas[..|personas| - 1], personas[|personas| - 1];
      if Hit(stage, text, trim, p)
      then && found != []
           && Found(stage, text, trim, rest, found[..|found| - 1])
           && BestHit(stage, text, trim, p, found[|found| - 1])
      else Found(stage, text, trim, rest, found)
  }

  method CollectMatchTexts(p: Persona, trim: Text -> Text) returns (texts: seq<Text>)
    ensures forall t :: t in texts <==> IsMatchText(p, trim, t)
    ensures forall i, j | 0 <= i < j < |texts| :: texts[i] != texts[j]
  {
    texts := [];
    var displayName := trim(p.displayName);
    if displayName != [] {
      texts := [displayName];
    }
    for i := 0 to |p.aliases|
      invariant forall t :: t in texts <==>
        t != [] && (t == displayName || exists a | a in p.aliases[..i] :: a.enabled && trim(a.text) == t)
      invariant forall j, k | 0 <= j < k < |texts| :: texts[j] != texts[k]
    {
      var a := p.aliases[i];
      var text := trim(a.text);
      assert forall b :: b in p.aliases[..i + 1] <==> b in p.aliases[..i] || b == a;
      if a.enabled && text != [] && text !in texts {
        texts := texts + [text];
      }
    }
    assert p.aliases[..|p.aliases|] == p.aliases;
  }

  method ExactCandidates(text: Text, personas: seq<Persona>, trim: Text -> Text)
    returns (found: seq<RouteCandidate>)
    ensures Found(ExactStage, text, trim, personas, found)
  {
    found := [];
    for i := 0 to |personas|
      invariant Found(ExactStage, text, trim, personas[..i], found)
    {
      var p := personas[i];
      assert personas[..i + 1][..i] == personas[..i];
      var best: Option<RouteCandidate> := None;
      var texts := CollectMatchTexts(p, trim);
      for j := 0 to |texts|
        invariant best.None? ==> forall t | t in texts[..j] :: !Contains(text, t)
        invariant best.Some? ==>
          && best.value.personaId == p.personaId && best.value.score == 1.0
          && best.value.matchedAlias in texts && Contains(text, best.value.matchedAlias)
          && forall t | t in texts[..j] && Contains(text, t) :: |t| <= |best.value.matchedAlias|
      {
        var t := texts[j];
        if Contains(text, t) && (best.None? || |t| > |best.value.matchedAlias|) {
          best := Some(RouteCandidate(p.personaId, t, 1.0));
        }
      }
      assert texts[..|texts|] == texts;
      if best.Some? {
        assert BestHit(ExactStage, text, trim, p, best.value);
        assert HitBy(ExactStage, text, best.value.matchedAlias);
        assert (found + [best.value])[..|found|] == found;
        found := found + [best.value];
      } else {
        assert forall t | IsMatchText(p, trim, t) :: !HitBy(ExactStage, text, t);
      }
    }
    assert personas[..|personas|] == personas;
  }

  method FuzzyCandidates(text: Text, personas: seq<Persona>, trim: Text -> Text)
    returns (found: seq<RouteCandidate>)
    ensures Found(FuzzyStage, text, trim, personas, found)
  {
    hide IsBestScore, Reaches;
    found := [];
    for i := 0 to |personas|
      invariant Found(FuzzyStage, text, trim, personas[..i], found)
    {
      var p := personas[i];
      assert personas[..i + 1][..i] == personas[..i];
      var best: Option<RouteCandidate> := None;
      var texts := CollectMatchTexts(p, trim);
      for j := 0 to |texts|
        invariant best.None? ==> forall t | t in texts[..j] :: !Reaches(text, t)
        invariant best.Some? ==>
          && best.value.personaId == p.personaId && best.value.score >= FUZZY_MATCH_THRESHOLD
          && best.value.matchedAlias in texts && IsBestScore(text, best.value.matchedAlias, best.value.score)
        invariant best.Some? ==> forall t, s | t in texts[..j] && IsBestScore(text, t, s) :: s <= best.value.score
      {
        var t := texts[j];
        var score := BestFuzzyScore(text, t);
        BestScoreReaches(text, t, score);
        forall s | IsBestScore(text, t, s)
          ensures s == score
        {
          BestScoreUnique(text, t, s, score);
        }
        forall u, s | u in texts[..j] && IsBestScore(text, u, s) && best.None?
          ensures s < FUZZY_MATCH_THRESHOLD
        {
          BestScoreReaches(text, u, s);
        }
        if score >= FUZZY_MATCH_THRESHOLD && (best.None? || score > best.value.score) {
          best := Some(RouteCandidate(p.personaId, t, score));
        }
      }
      assert texts[..|texts|] == texts;
      if best.Some? {
        BestScoreReaches(text, best.value.matchedAlias, best.value.score);
        assert HitBy(FuzzyStage, text, best.value.matchedAlias);
        assert BestHit(FuzzyStage, text, trim, p, best.value);
        assert (found + [best.value])[..|found|] == found;
        found := found + [best.value];
      } else {
        assert forall t | IsMatchText(p, trim, t) :: !HitBy(FuzzyStage, text, t);
      }
    }
    assert personas[..|personas|] == personas;
  }

  // ------------------------------------------------------------ the decision

  /** Exactly one persona is hit, and it is the one at `i`. */
  ghost predicate OnlyHit(stage: Stage, text: Text, trim: Text -> Text, personas: seq<Persona>, i: nat) {
    && i < |personas| && Hit(stage, text, trim, personas[i])
    && forall j | 0 <= j < |personas| && j != i :: !Hit(stage, text, trim, personas[j])
  }

  ghost predicate NoHit(stage: Stage, text: Text, trim: Text -> Text, personas: seq<Persona>) {
    forall j | 0 <= j < |personas| :: !Hit(stage, text, trim, personas[j])
  }

  /** The length of the candidate list tells none, one and several hits apart. */
  lemma {:induction false} FoundCounts(stage: Stage, text: Text, trim: Text -> Text, personas: seq<Persona>,
                                       found: seq<RouteCandidate>)
    requires Found(stage, text, trim, personas, found)
    ensures |found| == 0 <==> NoHit(stage, text, trim, personas)
    ensures |found| == 1 <==> exists i: nat :: OnlyHit(stage, text, trim, personas, i)
    ensures |found| == 1 ==> exists i: nat ::
      OnlyHit(stage, text, trim, personas, i) && BestHit(stage, text, trim, personas[i], found[0])
  {
    hide Hit, BestHit;
    if personas != [] {
      var n := |personas| - 1;
      var rest, p := personas[..n], personas[n];
      if Hit(stage, text, trim, p) {
        FoundCounts(stage, text, trim, rest, found[..|found| - 1]);
        if |found| == 1 {
          assert OnlyHit(stage, text, trim, personas, n);
        }
        forall i | OnlyHit(stage, text, trim, personas, i)
          ensures |found| == 1
        {
          assert i == n;
          assert forall j | 0 <= j < n :: rest[j] == personas[j];
        }
      } else {
        FoundCounts(stage, text, trim, rest, found);
        assert forall j | 0 <= j < n :: rest[j] == personas[j];
        forall i: nat
          ensures OnlyHit(stage, text, trim, personas, i) <==> OnlyHit(stage, text, trim, rest, i)
        {
        }
      }
    }
  }

  /**
   * Routes one comment. A principal is required; an exact hit of one persona
   * wins; without any exact hit, the one persona with a close match wins, and
   * its alias then has at least 4 characters; everything else is the principal's.
   */
  method RoutePersona(text: Text, personas: seq<Persona>, trim: Text -> Text)
    returns (r: Result<RouteDecision, RouteError>)
    ensures r.Err? <==> forall p | p in personas :: !p.isPrincipal
    ensures r.Ok? ==>
      && (r.value.decision.Exact? <==> exists i: nat :: OnlyHit(ExactStage, text, trim, personas, i))
      && (r.value.decision.FuzzyUnique? <==>
            NoHit(ExactStage, text, trim, personas) && exists i: nat :: OnlyHit(FuzzyStage, text, trim, personas, i))
    ensures r.Ok? && r.value.decision.Exact? ==> |r.value.candidates| == 1 && exists i: nat ::
      && OnlyHit(ExactStage, text, trim, personas, i) && r.value.personaId == personas[i].personaId
      && BestHit(ExactStage, text, trim, personas[i], r.value.candidates[0])
    ensures r.Ok? && r.value.decision.FuzzyUnique? ==>
      |r.value.candidates| == 1 && |r.value.candidates[0].matchedAlias| >= 4 && exists i: nat ::
        && OnlyHit(FuzzyStage, text, trim, personas, i) && r.value.personaId == personas[i].personaId
        && BestHit(FuzzyStage, text, trim, personas[i], r.value.candidates[0])
    ensures r.Ok? ==>
      Found(if NoHit(ExactStage, text, trim, personas) then FuzzyStage else ExactStage, text, trim, personas,
            r.value.candidates)
    ensures r.Ok? && r.value.decision.PrincipalFallback? ==>
      exists i: nat :: FirstPrincipal(personas, i) && r.value.personaId == personas[i].personaId
  {
    hide Found, Hit, BestHit;
    var k := 0;
    while k < |personas| && !personas[k].isPrincipal
      invariant 0 <= k <= |personas|
      invariant forall j | 0 <= j < k :: !personas[j].isPrincipal
    {
      k := k + 1;
    }
    if k == |personas| {
      return Err(Unavailable);
    }
    assert personas[k] in personas && FirstPrincipal(personas, k);
    var principalId := personas[k].personaId;
    var exact := ExactCandidates(text, personas, trim);
    FoundCounts(ExactStage, text, trim, personas, exact);
    if |exact| == 1 {
      CandidateId(ExactStage, text, trim, personas, exact[0]);
      return Ok(RouteDecision(Exact, exact[0].personaId, exact));
    }
    if |exact| > 1 {
      return Ok(RouteDecision(PrincipalFallback, principalId, exact));
    }
    var fuzzy := FuzzyCandidates(text, personas, trim);
    FoundCounts(FuzzyStage, text, trim, personas, fuzzy);
    if |fuzzy| == 1 {
      CandidateId(FuzzyStage, text, trim, personas, fuzzy[0]);
      FuzzyAliasIsLong(text, trim, personas, fuzzy[0]);
      return Ok(RouteDecision(FuzzyUnique, fuzzy[0].personaId, fuzzy));
    }
    r := Ok(RouteDecision(PrincipalFallback, principalId, fuzzy));
  }

  predicate FirstPrincipal(personas: seq<Persona>, i: nat) {
    i < |personas| && personas[i].isPrincipal && forall j | 0 <= j < i :: !personas[j].isPrincipal
  }

  lemma CandidateId(stage: Stage, text: Text, trim: Text -> Text, personas: seq<Persona>, c: RouteCandidate)
    ensures forall i: nat | i < |personas| && BestHit(stage, text, trim, personas[i], c) ::
      c.personaId == personas[i].personaId
  {
  }

  /** Without exact hits, a close match rests on an alias of at least 4 characters. */
  lemma FuzzyAliasIsLong(text: Text, trim: Text -> Text, personas: seq<Persona>, c: RouteCandidate)
    requires NoHit(ExactStage, text, trim, personas)
    requires exists i: nat ::
      OnlyHit(FuzzyStage, text, trim, personas, i) && BestHit(FuzzyStage, text, trim, personas[i], c)
    ensures |c.matchedAlias| >= 4
  {
    var i: nat :| OnlyHit(FuzzyStage, text, trim, personas, i) && BestHit(FuzzyStage, text, trim, personas[i], c);
    var t := c.matchedAlias;
    assert IsMatchText(personas[i], trim, t) && HitBy(FuzzyStage, text, t);
    assert !Hit(ExactStage, text, trim, personas[i]) && !HitBy(ExactStage, text, t);
    if |t| <= 3 {
      ShortAliasNeedsExact(text, t);
    }
  }
}
