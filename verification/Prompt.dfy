/** Rendering the user message of one attempt within its token budget. */
module Prompt {
  import opened Wrappers
  import opened Calibration

  const DEFAULT_CONTEXT_BUDGET_TOKENS: nat := 4096

  /** What a hit's payload offers to the model: the shapes of the two collections. */
  datatype Payload =
    | PreSetPayload(semanticType: SemanticType, text: string, description: string, referenceReply: Option<string>,
                    referenceCues: Option<seq<string>>)
    | GoldenPayload(semanticType: SemanticType, text: string, reply: string, cues: seq<string>)

  datatype PromptHit = PromptHit(caseId: string, collection: SourceCollection, confidence: real, payload: Payload)

  datatype ReferenceCase = ReferenceCase(
    source: SourceCollection, semanticType: SemanticType, comment: string, description: Option<string>,
    reply: Option<string>, cues: Option<seq<string>>)

  datatype LowConfidence = LowConfidence(caseId: string, collection: SourceCollection, confidence: real)

  /**
   * The serialized message around the cases, with the serialization of one case:
   * the fixed keys come before and after `reference_cases`.
   */
  datatype Frame = Frame(head: string, tail: string, json: ReferenceCase -> string)

  datatype Input = Input(frame: Frame, hits: seq<PromptHit>, maxContextBudget: Option<nat>, floor: Option<real>,
                         customTemplate: Option<string>)

  /** The fixed system text in its two parts: the role, and the rules that no template may remove. */
  datatype SystemTexts = SystemTexts(role: string, hardRules: string)

  datatype Rendered = Rendered(system: string, user: string, included: seq<ReferenceCase>,
                               excludedCases: seq<string>, excludedLowConfidence: Option<seq<LowConfidence>>)

  // ------------------------------------------------------------ the estimate

  predicate IsCjk(ch: char) {
    var code := ch as int;
    || 0x4e00 <= code <= 0x9fff
    || 0x3400 <= code <= 0x4dbf
    || 0xf900 <= code <= 0xfaff
    || 0x3000 <= code <= 0x303f
    || 0xff00 <= code <= 0xffef
  }

  /** The five blocks that count as CJK, first and last code of each. */
  const CJK_BLOCKS: seq<(int, int)> := [
    (0x3000, 0x303f), (0x3400, 0x4dbf), (0x4e00, 0x9fff), (0xf900, 0xfaff), (0xff00, 0xffef)]

  lemma CjkBlocks(ch: char)
    ensures IsCjk(ch) <==> exists i | 0 <= i < |CJK_BLOCKS| :: CJK_BLOCKS[i].0 <= ch as int <= CJK_BLOCKS[i].1
  {
    var code := ch as int;
    assert CJK_BLOCKS[0] == (0x3000, 0x303f) && CJK_BLOCKS[1] == (0x3400, 0x4dbf) && CJK_BLOCKS[2] == (0x4e00, 0x9fff)
      && CJK_BLOCKS[3] == (0xf900, 0xfaff) && CJK_BLOCKS[4] == (0xff00, 0xffef);
    if IsCjk(ch) {
      var i := if code <= 0x303f then 0 else if code <= 0x4dbf then 1 else if code <= 0x9fff then 2
               else if code <= 0xfaff then 3 else 4;
      assert CJK_BLOCKS[i].0 <= code <= CJK_BLOCKS[i].1;
    }
  }

  function Cjk(s: string): nat {
    if s == "" then 0 else Cjk(s[..|s| - 1]) + if IsCjk(s[|s| - 1]) then 1 else 0
  }

  /** One token a CJK character, one for every four others begun. */
  function Estimate(s: string): nat
  {
    CjkAtMost(s);
    Cjk(s) + (|s| - Cjk(s) + 3) / 4
  }

  lemma {:induction false} CjkAtMost(s: string)
    ensures Cjk(s) <= |s|
  {
    if s != "" {
      CjkAtMost(s[..|s| - 1]);
    }
  }

  /** The positions of the CJK characters. */
  ghost function CjkPositions(s: string): set<nat> {
    set i: nat | i < |s| && IsCjk(s[i])
  }

  lemma {:induction false} CjkCount(s: string)
    ensures Cjk(s) == |CjkPositions(s)|
  {
    if s == "" {
      assert CjkPositions(s) == {};
    } else {
      var n := |s| - 1;
      CjkCount(s[..n]);
      assert CjkPositions(s) == CjkPositions(s[..n]) + if IsCjk(s[n]) then {n} else {};
    }
  }

  method EstimateTokens(s: string) returns (tokens: nat)
    ensures tokens == Estimate(s)
    ensures
      var other := |s| - |CjkPositions(s)|;
      tokens >= |CjkPositions(s)| && 4 * (tokens - |CjkPositions(s)|) - 4 < other <= 4 * (tokens - |CjkPositions(s)|)
  {
    var cjk, other := 0, 0;
    for i := 0 to |s|
      invariant cjk == Cjk(s[..i]) && cjk + other == i
    {
      assert s[..i + 1][..i] == s[..i];
      if IsCjk(s[i]) {
        cjk := cjk + 1;
      } else {
        other := other + 1;
      }
    }
    assert s[..|s|] == s;
    CjkAtMost(s);
    CjkCount(s);
    tokens := cjk + (other + 3) / 4;
  }

  lemma {:induction false} CjkConcat(a: string, b: string)
    ensures Cjk(a + b) == Cjk(a) + Cjk(b)
    decreases |b|
  {
    if b == "" {
      assert a + b == a;
    } else {
      assert (a + b)[..|a + b| - 1] == a + b[..|b| - 1];
      CjkConcat(a, b[..|b| - 1]);
    }
  }

  /** Text added anywhere never lowers the estimate. */
  lemma EstimateGrows(a: string, added: string, b: string)
    ensures Estimate(a + b) <= Estimate(a + added + b)
  {
    CjkConcat(a, b);
    CjkConcat(a + added, b);
    CjkConcat(a, added);
    CjkAtMost(a);
    CjkAtMost(b);
    CjkAtMost(added);
  }

  // ------------------------------------------------------------ the message

  function ToReferenceCase(hit: PromptHit): ReferenceCase {
    match hit.payload
    case PreSetPayload(t, text, description, reply, cues) =>
      ReferenceCase(hit.collection, t, text, Some(description), reply, cues)
    case GoldenPayload(t, text, reply, cues) =>
      ReferenceCase(hit.collection, t, text, None, Some(reply), Some(cues))
  }

  /**
   * What the model is told of a hit: where it comes from, its type and text; of a
   * golden one the approved reply and cues, of the other kind the description and
   * whatever reply and cues it has.
   */
  ghost predicate Tells(c: ReferenceCase, hit: PromptHit) {
    && c.source == hit.collection && c.semanticType == hit.payload.semanticType && c.comment == hit.payload.text
    && (hit.payload.GoldenPayload? ==>
          c.description == None && c.reply == Some(hit.payload.reply) && c.cues == Some(hit.payload.cues))
    && (hit.payload.PreSetPayload? ==>
          && c.description == Some(hit.payload.description)
          && c.reply == hit.payload.referenceReply && c.cues == hit.payload.referenceCues)
  }

  /** The first of the cases are those of the first hits, and the ids of the other hits follow. */
  ghost predicate Tell(included: seq<ReferenceCase>, excluded: seq<string>, hits: seq<PromptHit>) {
    && |included| + |excluded| == |hits|
    && (forall i | 0 <= i < |included| :: Tells(included[i], hits[i]))
    && (forall i | |included| <= i < |hits| :: excluded[i - |included|] == hits[i].caseId)
  }

  function Cases(hits: seq<PromptHit>): seq<ReferenceCase> {
    seq(|hits|, i requires 0 <= i < |hits| => ToReferenceCase(hits[i]))
  }

  function Ids(hits: seq<PromptHit>): seq<string> {
    seq(|hits|, i requires 0 <= i < |hits| => hits[i].caseId)
  }

  /** The serialized cases, separated by commas. */
  function Joined(frame: Frame, cases: seq<ReferenceCase>): string {
    if cases == [] then ""
    else
      var n := |cases| - 1;
      Joined(frame, cases[..n]) + (if n == 0 then "" else ",") + frame.json(cases[n])
  }

  function Message(frame: Frame, cases: seq<ReferenceCase>): string {
    frame.head + "[" + Joined(frame, cases) + "]" + frame.tail
  }

  /** The list read from its front: each case, and a comma before every further one. */
  ghost function ListOf(frame: Frame, cases: seq<ReferenceCase>): string {
    if cases == [] then ""
    else frame.json(cases[0]) + Further(frame, cases[1..])
  }

  ghost function Further(frame: Frame, cases: seq<ReferenceCase>): string {
    if cases == [] then "" else "," + frame.json(cases[0]) + Further(frame, cases[1..])
  }

  lemma {:induction false} FurtherSnoc(frame: Frame, cases: seq<ReferenceCase>, c: ReferenceCase)
    ensures Further(frame, cases + [c]) == Further(frame, cases) + "," + frame.json(c)
  {
    if cases == [] {
      assert [c][1..] == [];
    } else {
      assert (cases + [c])[1..] == cases[1..] + [c];
      FurtherSnoc(frame, cases[1..], c);
    }
  }

  /** Adding cases at the end builds the list that is read from the front. */
  lemma {:induction false} JoinedIsList(frame: Frame, cases: seq<ReferenceCase>)
    ensures Joined(frame, cases) == ListOf(frame, cases)
  {
    if |cases| == 1 {
      assert cases[..0] == [] && cases[1..] == [];
    } else if cases != [] {
      var n := |cases| - 1;
      JoinedIsList(frame, cases[..n]);
      FurtherSnoc(frame, cases[1..n], cases[n]);
      assert cases[..n][1..] == cases[1..n] && cases[1..] == cases[1..n] + [cases[n]];
    }
  }

  /** What the message costs with the first `k` of the hits. */
  function CostOf(frame: Frame, hits: seq<PromptHit>, k: nat): nat
    requires k <= |hits|
  {
    Estimate(Message(frame, Cases(hits[..k])))
  }

  /** One more case adds text in the middle of the message. */
  lemma CostStep(frame: Frame, hits: seq<PromptHit>, k: nat)
    requires k < |hits|
    ensures CostOf(frame, hits, k) <= CostOf(frame, hits, k + 1)
  {
    hide Estimate;
    var before, cases := Cases(hits[..k]), Cases(hits[..k + 1]);
    assert cases[..k] == before;
    var added := (if k == 0 then "" else ",") + frame.json(cases[k]);
    assert Joined(frame, cases) == Joined(frame, before) + added;
    hide Joined;
    var a, b := frame.head + "[" + Joined(frame, before), "]" + frame.tail;
    assert Message(frame, before) == a + b;
    assert Message(frame, cases) == a + added + b;
    EstimateGrows(a, added, b);
  }

  /** Every further case costs at least nothing. */
  lemma {:induction false} CostGrows(frame: Frame, hits: seq<PromptHit>, j: nat, k: nat)
    requires j <= k <= |hits|
    ensures CostOf(frame, hits, j) <= CostOf(frame, hits, k)
    decreases k
  {
    hide CostOf;
    if j < k {
      CostGrows(frame, hits, j, k - 1);
      CostStep(frame, hits, k - 1);
    }
  }

  /** The hits at or above the floor, and those below it, in order. */
  function Eligible(hits: seq<PromptHit>, floor: real): seq<PromptHit> {
    if hits == [] then []
    else
      var last := hits[|hits| - 1];
      Eligible(hits[..|hits| - 1], floor) + if last.confidence >= floor then [last] else []
  }

  function BelowFloor(hits: seq<PromptHit>, floor: real): seq<PromptHit> {
    if hits == [] then []
    else
      var last := hits[|hits| - 1];
      BelowFloor(hits[..|hits| - 1], floor) + if last.confidence < floor then [last] else []
  }

  /** Every hit is on exactly one side of the floor. */
  lemma {:induction false} FloorPartitions(hits: seq<PromptHit>, floor: real)
    ensures multiset(Eligible(hits, floor)) + multiset(BelowFloor(hits, floor)) == multiset(hits)
    ensures |Eligible(hits, floor)| + |BelowFloor(hits, floor)| == |hits|
    ensures forall h | h in Eligible(hits, floor) :: h.confidence >= floor
    ensures forall h | h in BelowFloor(hits, floor) :: h.confidence < floor
  {
    if hits != [] {
      FloorPartitions(hits[..|hits| - 1], floor);
      FloorStep(hits, floor);
      hide Eligible, BelowFloor;
    }
  }

  /** `part` is what is left of `all` after leaving some elements out. */
  ghost predicate Subsequence(part: seq<PromptHit>, all: seq<PromptHit>) {
    if part == [] then true
    else if all == [] then false
    else
      var p, a := |part| - 1, |all| - 1;
      (part[p] == all[a] && Subsequence(part[..p], all[..a])) || Subsequence(part, all[..a])
  }

  lemma KeepLast(part: seq<PromptHit>, all: seq<PromptHit>, h: PromptHit)
    requires Subsequence(part, all)
    ensures Subsequence(part + [h], all + [h])
  {
    assert (part + [h])[..|part|] == part && (all + [h])[..|all|] == all;
  }

  lemma DropLast(part: seq<PromptHit>, all: seq<PromptHit>, h: PromptHit)
    requires Subsequence(part, all)
    ensures Subsequence(part, all + [h])
  {
    assert (all + [h])[..|all|] == all;
  }

  /** The last hit goes to exactly one side. */
  lemma FloorStep(hits: seq<PromptHit>, floor: real)
    requires hits != []
    ensures
      var rest, last := hits[..|hits| - 1], hits[|hits| - 1];
      && hits == rest + [last]
      && Eligible(hits, floor) ==
        (if last.confidence >= floor then Eligible(rest, floor) + [last] else Eligible(rest, floor))
      && BelowFloor(hits, floor) ==
        (if last.confidence < floor then BelowFloor(rest, floor) + [last] else BelowFloor(rest, floor))
  {
  }

  /** Both sides keep the order of the ranking. */
  lemma {:induction false} FloorKeepsOrder(hits: seq<PromptHit>, floor: real)
    ensures Subsequence(Eligible(hits, floor), hits) && Subsequence(BelowFloor(hits, floor), hits)
  {
    if hits != [] {
      var rest, last := hits[..|hits| - 1], hits[|hits| - 1];
      FloorKeepsOrder(rest, floor);
      FloorStep(hits, floor);
      hide Subsequence, Eligible, BelowFloor;
      if last.confidence >= floor {
        KeepLast(Eligible(rest, floor), rest, last);
        DropLast(BelowFloor(rest, floor), rest, last);
      } else {
        DropLast(Eligible(rest, floor), rest, last);
        KeepLast(BelowFloor(rest, floor), rest, last);
      }
    }
  }

  function EligibleOf(input: Input): seq<PromptHit> {
    if input.floor.None? then input.hits else Eligible(input.hits, input.floor.value)
  }

  function BudgetOf(input: Input): nat {
    if input.maxContextBudget.None? then DEFAULT_CONTEXT_BUDGET_TOKENS else input.maxContextBudget.value
  }

  /** `k` cases fit and one more does not; no case at all is always allowed. */
  ghost predicate LongestFitting(input: Input, k: nat) {
    var hits := EligibleOf(input);
    && k <= |hits|
    && (forall j | 1 <= j <= k :: CostOf(input.frame, hits, j) <= BudgetOf(input))
    && (forall j | k < j <= |hits| :: CostOf(input.frame, hits, j) > BudgetOf(input))
  }

  function LowConfidences(hits: seq<PromptHit>): seq<LowConfidence> {
    seq(|hits|, i requires 0 <= i < |hits| => LowConfidence(hits[i].caseId, hits[i].collection, hits[i].confidence))
  }

  method FilterByFloor(hits: seq<PromptHit>, floor: real)
    returns (eligible: seq<PromptHit>, low: seq<PromptHit>)
    ensures eligible == Eligible(hits, floor) && low == BelowFloor(hits, floor)
  {
    eligible, low := [], [];
    for i := 0 to |hits|
      invariant eligible == Eligible(hits[..i], floor) && low == BelowFloor(hits[..i], floor)
    {
      assert hits[..i + 1][..i] == hits[..i];
      if hits[i].confidence >= floor {
        eligible := eligible + [hits[i]];
      } else {
        low := low + [hits[i]];
      }
    }
    assert hits[..|hits|] == hits;
  }

  /** Adds cases until one does not fit, and logs that one and all after it. */
  method Truncate(frame: Frame, hits: seq<PromptHit>, budget: nat)
    returns (included: seq<ReferenceCase>, excluded: seq<string>)
    ensures |included| <= |hits|
    ensures included == Cases(hits[..|included|]) && excluded == Ids(hits[|included|..])
    ensures Tell(included, excluded, hits)
    ensures included != [] ==> CostOf(frame, hits, |included|) <= budget
    ensures |included| < |hits| ==> CostOf(frame, hits, |included| + 1) > budget
  {
    hide Estimate, Message;
    included, excluded := [], [];
    var i := 0;
    while i < |hits|
      invariant 0 <= i <= |hits|
      invariant included == Cases(hits[..i])
      invariant i > 0 ==> CostOf(frame, hits, i) <= budget
    {
      var trial := included + [ToReferenceCase(hits[i])];
      assert trial == Cases(hits[..i + 1]);
      var cost := EstimateTokens(Message(frame, trial));
      if cost > budget {
        break;
      }
      included := trial;
      i := i + 1;
    }
    for j := i to |hits|
      invariant excluded == Ids(hits[i..j])
    {
      assert hits[i..j + 1] == hits[i..j] + [hits[j]];
      excluded := excluded + [hits[j].caseId];
    }
  }

  /** The configured template or the fixed text, with the hard rules at the end of either. */
  function SystemText(customTemplate: Option<string>, texts: SystemTexts, trim: string -> string): (s: string)
    ensures |texts.hardRules| <= |s| && s[|s| - |texts.hardRules|..] == texts.hardRules
    ensures customTemplate.None? || trim(customTemplate.value) == "" ==>
      texts.role <= s && |s| == |texts.role| + 1 + |texts.hardRules|
    ensures customTemplate.Some? && trim(customTemplate.value) != "" ==>
      trim(customTemplate.value) <= s && |s| == |trim(customTemplate.value)| + 2 + |texts.hardRules|
  {
    if customTemplate.Some? && trim(customTemplate.value) != ""
    then trim(customTemplate.value) + "\n\n" + texts.hardRules
    else texts.role + "\n" + texts.hardRules
  }

  /**
   * Renders one attempt. The included cases are the longest prefix of the
   * eligible hits whose message fits the budget and the others are logged. The
   * message is within the budget exactly when it would be without any case.
   */
  method RenderPrompt(input: Input, texts: SystemTexts, trim: string -> string) returns (r: Rendered)
    ensures LongestFitting(input, |r.included|)
    ensures |r.included| <= |EligibleOf(input)|
    ensures r.included == Cases(EligibleOf(input)[..|r.included|])
    ensures r.excludedCases == Ids(EligibleOf(input)[|r.included|..])
    ensures Tell(r.included, r.excludedCases, EligibleOf(input))
    ensures r.user == Message(input.frame, r.included)
    ensures r.user == input.frame.head + "[" + ListOf(input.frame, r.included) + "]" + input.frame.tail
    ensures Estimate(r.user) <= BudgetOf(input) <==> Estimate(Message(input.frame, [])) <= BudgetOf(input)
    ensures r.excludedLowConfidence ==
      if input.floor.None? then None else Some(LowConfidences(BelowFloor(input.hits, input.floor.value)))
    ensures r.excludedLowConfidence.Some? <==> input.floor.Some?
    ensures r.excludedLowConfidence.Some? ==>
      var low := BelowFloor(input.hits, input.floor.value);
      && |r.excludedLowConfidence.value| == |low|
      && forall i | 0 <= i < |low| ::
           var e := r.excludedLowConfidence.value[i];
           e.caseId == low[i].caseId && e.collection == low[i].collection && e.confidence == low[i].confidence
    ensures r.system == SystemText(input.customTemplate, texts, trim)
  {
    hide Estimate, Message, LongestFitting;
    var budget := if input.maxContextBudget.None? then DEFAULT_CONTEXT_BUDGET_TOKENS else input.maxContextBudget.value;
    var hits, low := input.hits, None;
    if input.floor.Some? {
      var eligible, below := FilterByFloor(input.hits, input.floor.value);
      hits, low := eligible, Some(LowConfidences(below));
    }
    var included, excluded := Truncate(input.frame, hits, budget);
    FitsUpTo(input, hits, |included|);
    MessageIs(input.frame, included);
    hide Joined, ListOf;
    var text := SystemText(input.customTemplate, texts, trim);
    r := Rendered(text, Message(input.frame, included), included, excluded, low);
  }

  lemma MessageIs(frame: Frame, cases: seq<ReferenceCase>)
    ensures Message(frame, cases) == frame.head + "[" + ListOf(frame, cases) + "]" + frame.tail
  {
    JoinedIsList(frame, cases);
  }

  lemma FitsUpTo(input: Input, hits: seq<PromptHit>, k: nat)
    requires hits == EligibleOf(input) && k <= |hits|
    requires k > 0 ==> CostOf(input.frame, hits, k) <= BudgetOf(input)
    requires k < |hits| ==> CostOf(input.frame, hits, k + 1) > BudgetOf(input)
    ensures LongestFitting(input, k)
    ensures CostOf(input.frame, hits, 0) <= CostOf(input.frame, hits, k)
    ensures Cases(hits[..0]) == []
  {
    forall j | 1 <= j <= k
      ensures CostOf(input.frame, hits, j) <= BudgetOf(input)
    {
      CostGrows(input.frame, hits, j, k);
    }
    forall j | k < j <= |hits|
      ensures CostOf(input.frame, hits, j) > BudgetOf(input)
    {
      CostGrows(input.frame, hits, k + 1, j);
    }
    CostGrows(input.frame, hits, 0, k);
  }
}
