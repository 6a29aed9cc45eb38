/** Policy documents: conditions, combining rules, and their validation. */
module Policy {
  import opened Wrappers

  /** A JSON value. `Structure` is a list or an object, by its canonical text. */
  datatype Value = Null | Bool(b: bool) | Num(n: int) | Str(s: string) | Structure(text: string, empty: bool)

  function AsNumber(v: Value): Option<int> {
    match v
    case Bool(b) => Some(if b then 1 else 0)
    case Num(n) => Some(n)
    case _ => None
  }

  /** Equality as the evaluator sees it: booleans are the numbers 0 and 1. */
  predicate Same(v: Value, w: Value) {
    v == w || (AsNumber(v).Some? && AsNumber(v) == AsNumber(w))
  }

  predicate Truthy(v: Value) {
    match v
    case Null => false
    case Bool(b) => b
    case Num(n) => n != 0
    case Str(s) => s != ""
    case Structure(_, empty) => !empty
  }

  datatype Key =
    | AccessPathExists | SessionMfa | SessionRiskAbove | SessionRiskUnknown | ActionReadOnly
    | ResourceEnvironment | ResourceClassification | HasCaseId | Unsupported(name: string)

  datatype Condition = Condition(key: Key, expected: Value)

  const DENY := "deny"
  const REQUIRE_APPROVAL := "require_approval"
  const ALLOW := "allow"

  /** A rule need not say why it exists, and what it says need not be text. */
  datatype Description = Absent | Reason(text: string) | NotText

  /** What an allowed action is bound to; an entry that is not an object with a type is `Untyped`. */
  datatype Obligation = Untyped | Obligation(kind: string, value: Value)

  datatype Rule = Rule(id: string, effect: string, description: Description, when: seq<Condition>, obligations: seq<Obligation>)

  datatype Document = Document(version: string, rules: seq<Rule>)

  /** What a request presents to the engine. An attribute the resource lacks reads as `Null`. */
  datatype Input = Input(
    accessPathExists: bool, mfa: bool, risk: Option<int>, readOnly: bool,
    environment: Value, classification: Value, caseId: Value, approvalPresent: bool)

  /** One condition of the closed set; `None` when the evaluator raises. */
  function Holds(c: Condition, input: Input): Option<bool> {
    match c.key
    case AccessPathExists => Some(Same(Bool(input.accessPathExists), c.expected))
    case SessionMfa => Some(Same(Bool(input.mfa), c.expected))
    case SessionRiskAbove =>
      if input.risk.None? then Some(false)
      else if AsNumber(c.expected).None? then None
      else Some(input.risk.value > AsNumber(c.expected).value)
    case SessionRiskUnknown => Some(Same(Bool(input.risk.None?), c.expected))
    case ActionReadOnly => Some(Same(Bool(input.readOnly), c.expected))
    case ResourceEnvironment => Some(Same(input.environment, c.expected))
    case ResourceClassification => Some(Same(input.classification, c.expected))
    case HasCaseId => Some(Same(Bool(Truthy(input.caseId)), c.expected))
    case Unsupported(_) => Some(false)
  }

  /** A rule applies if all its conditions hold; they are tried in order, and the first that fails ends it. */
  function Applies(when: seq<Condition>, input: Input): Option<bool> {
    if when == [] then Some(true)
    else if Holds(when[0], input) != Some(true) then Holds(when[0], input)
    else Applies(when[1..], input)
  }

  function Matched(rules: seq<Rule>, input: Input): seq<Rule> {
    if rules == [] then []
    else
      var last := rules[|rules| - 1];
      Matched(rules[..|rules| - 1], input) + if Applies(last.when, input) == Some(true) then [last] else []
  }

  function WithEffect(rules: seq<Rule>, effect: string): seq<Rule> {
    if rules == [] then []
    else
      var last := rules[|rules| - 1];
      WithEffect(rules[..|rules| - 1], effect) + if last.effect == effect then [last] else []
  }

  function Obligations(rules: seq<Rule>): seq<Obligation> {
    if rules == [] then [] else Obligations(rules[..|rules| - 1]) + rules[|rules| - 1].obligations
  }

  datatype Outcome = Allowed | Denied | ApprovalRequired

  datatype Decision = Decision(outcome: Outcome, matched: seq<Rule>, obligations: seq<Obligation>)

  predicate Raises(rules: seq<Rule>, input: Input) {
    exists r :: r in rules && Applies(r.when, input).None?
  }

  /** Every rule is tried, so matching that raises on any of them fails the evaluation. So does a missing description
      that the deciding branch reads: of the first denying or allowing rule, or of any that requires approval. */
  function Evaluate(rules: seq<Rule>, input: Input): Option<Decision> {
    if Raises(rules, input) then None
    else
      var matched := Matched(rules, input);
      var denies, needed, allows := WithEffect(matched, DENY), WithEffect(matched, REQUIRE_APPROVAL), WithEffect(matched, ALLOW);
      if denies != [] then
        if denies[0].description.Absent? then None else Some(Decision(Denied, matched, []))
      else if needed != [] && !input.approvalPresent then
        if exists r :: r in needed && !r.description.Reason? then None else Some(Decision(ApprovalRequired, matched, []))
      else if allows != [] then
        if allows[0].description.Absent? then None else Some(Decision(Allowed, matched, Obligations(allows)))
      else Some(Decision(Denied, matched, []))
  }

  // ------------------------------------------------------------------ The combining rules

  predicate AppliesWith(r: Rule, input: Input, effect: string) {
    r.effect == effect && Applies(r.when, input) == Some(true)
  }

  /** Some rule with this effect applies. */
  predicate AnyApplies(rules: seq<Rule>, input: Input, effect: string) {
    exists r :: r in rules && AppliesWith(r, input, effect)
  }

  /** The first rule with this effect that applies is the one at `i`. */
  ghost predicate IsFirst(rules: seq<Rule>, input: Input, effect: string, i: nat) {
    i < |rules| && AppliesWith(rules[i], input, effect) && forall j :: 0 <= j < i ==> !AppliesWith(rules[j], input, effect)
  }

  lemma {:induction false} MatchedApply(rules: seq<Rule>, input: Input)
    ensures forall r :: r in Matched(rules, input) <==> r in rules && Applies(r.when, input) == Some(true)
  {
    if rules != [] {
      MatchedApply(rules[..|rules| - 1], input);
      assert rules == rules[..|rules| - 1] + [rules[|rules| - 1]];
    }
  }

  lemma {:induction false} WithEffectFilters(rules: seq<Rule>, effect: string)
    ensures forall r :: r in WithEffect(rules, effect) <==> r in rules && r.effect == effect
  {
    if rules != [] {
      WithEffectFilters(rules[..|rules| - 1], effect);
      assert rules == rules[..|rules| - 1] + [rules[|rules| - 1]];
    }
  }

  lemma EffectApplies(rules: seq<Rule>, input: Input, effect: string)
    ensures WithEffect(Matched(rules, input), effect) != [] <==> AnyApplies(rules, input, effect)
    ensures forall r :: r in WithEffect(Matched(rules, input), effect) <==> r in rules && AppliesWith(r, input, effect)
  {
    MatchedApply(rules, input);
    WithEffectFilters(Matched(rules, input), effect);
    if WithEffect(Matched(rules, input), effect) != [] {
      assert WithEffect(Matched(rules, input), effect)[0] in WithEffect(Matched(rules, input), effect);
    }
  }

  lemma WithEffectSnoc(matched: seq<Rule>, r: Rule, effect: string)
    ensures WithEffect(matched + [r], effect) == WithEffect(matched, effect) + if r.effect == effect then [r] else []
  {
    assert (matched + [r])[..|matched|] == matched;
  }

  /** The rule a branch reads is the first one that applies with its effect. */
  lemma {:induction false} FirstIsRead(rules: seq<Rule>, input: Input, effect: string) returns (i: nat)
    requires WithEffect(Matched(rules, input), effect) != []
    ensures IsFirst(rules, input, effect, i) && WithEffect(Matched(rules, input), effect)[0] == rules[i]
  {
    assert rules != [];
    var front, last := rules[..|rules| - 1], rules[|rules| - 1];
    var applies := Applies(last.when, input) == Some(true);
    assert Matched(rules, input) == if applies then Matched(front, input) + [last] else Matched(front, input) by {
      assert Matched(front, input) + [] == Matched(front, input);
    }
    WithEffectSnoc(Matched(front, input), last, effect);
    if WithEffect(Matched(front, input), effect) != [] {
      i := FirstIsRead(front, input, effect);
      assert rules[i] == front[i];
    } else {
      assert applies && last.effect == effect;
      EffectApplies(front, input, effect);
      i := |front|;
      assert forall j :: 0 <= j < |front| ==> front[j] in front;
    }
  }

  /** What the four combining rules decide, over the rules as a set. */
  ghost predicate Decides(rules: seq<Rule>, input: Input, outcome: Outcome) {
    match outcome
    case Denied =>
      AnyApplies(rules, input, "deny") ||
      (!AnyApplies(rules, input, "allow") && (AnyApplies(rules, input, "require_approval") ==> input.approvalPresent))
    case ApprovalRequired =>
      !AnyApplies(rules, input, "deny") && AnyApplies(rules, input, "require_approval") && !input.approvalPresent
    case Allowed =>
      && !AnyApplies(rules, input, "deny") && AnyApplies(rules, input, "allow")
      && (AnyApplies(rules, input, "require_approval") ==> input.approvalPresent)
  }

  /** The first rule that applies with this effect says nothing about itself. */
  ghost predicate FirstIsSilent(rules: seq<Rule>, input: Input, effect: string) {
    exists i: nat :: IsFirst(rules, input, effect, i) && rules[i].description.Absent?
  }

  /** The branch that decides reads a description that is not there. */
  ghost predicate Undescribed(rules: seq<Rule>, input: Input) {
    if AnyApplies(rules, input, DENY) then FirstIsSilent(rules, input, DENY)
    else if AnyApplies(rules, input, REQUIRE_APPROVAL) && !input.approvalPresent then
      exists r :: r in rules && AppliesWith(r, input, REQUIRE_APPROVAL) && !r.description.Reason?
    else FirstIsSilent(rules, input, ALLOW)
  }

  lemma SilenceIsRead(rules: seq<Rule>, input: Input, effect: string)
    ensures FirstIsSilent(rules, input, effect) <==>
            WithEffect(Matched(rules, input), effect) != [] && WithEffect(Matched(rules, input), effect)[0].description.Absent?
  {
    hide Applies, WithEffect, Matched;
    EffectApplies(rules, input, effect);
    if WithEffect(Matched(rules, input), effect) != [] {
      var i := FirstIsRead(rules, input, effect);
      if FirstIsSilent(rules, input, effect) {
        var j: nat :| IsFirst(rules, input, effect, j) && rules[j].description.Absent?;
      }
    }
  }

  /** Deny over require-approval over allow, and deny by default; there is no decision exactly if matching raises or the
      deciding branch misses a description. */
  lemma EvaluationOrder(rules: seq<Rule>, input: Input)
    ensures Evaluate(rules, input).None? <==> Raises(rules, input) || Undescribed(rules, input)
    ensures Evaluate(rules, input).Some? ==>
              forall outcome :: Evaluate(rules, input).value.outcome == outcome <==> Decides(rules, input, outcome)
  {
    hide AnyApplies, FirstIsSilent, AppliesWith, Raises, WithEffect, Matched, Obligations;
    EffectApplies(rules, input, DENY);
    EffectApplies(rules, input, REQUIRE_APPROVAL);
    EffectApplies(rules, input, ALLOW);
    SilenceIsRead(rules, input, DENY);
    SilenceIsRead(rules, input, ALLOW);
  }

  function OutcomeOf(rules: seq<Rule>, input: Input): Option<Outcome> {
    match Evaluate(rules, input)
    case Some(d) => Some(d.outcome)
    case None => None
  }

  /** The outcome without looking at the order of anything but the description that is read. */
  ghost function Meaning(rules: seq<Rule>, input: Input): Option<Outcome> {
    if Raises(rules, input) || Undescribed(rules, input) then None
    else if AnyApplies(rules, input, DENY) then Some(Denied)
    else if AnyApplies(rules, input, REQUIRE_APPROVAL) && !input.approvalPresent then Some(ApprovalRequired)
    else Some(if AnyApplies(rules, input, ALLOW) then Allowed else Denied)
  }

  lemma OutcomeIsMeaning(rules: seq<Rule>, input: Input)
    ensures OutcomeOf(rules, input) == Meaning(rules, input)
  {
    hide Evaluate, AnyApplies, Undescribed, Raises;
    EvaluationOrder(rules, input);
    if Evaluate(rules, input).Some? {
      assert Decides(rules, input, Evaluate(rules, input).value.outcome);
    }
  }

  ghost predicate Described(rules: seq<Rule>) {
    forall r :: r in rules ==> r.description.Reason?
  }

  lemma DescribedIsRead(rules: seq<Rule>, input: Input)
    requires Described(rules)
    ensures !Undescribed(rules, input)
  {
    hide Applies;
    forall i: nat, effect | IsFirst(rules, input, effect, i) ensures !rules[i].description.Absent? {
      assert rules[i] in rules;
    }
  }

  // ------------------------------------------------------------------ The order of the rules

  /** The rules a branch may read first all say something, or none does. */
  ghost predicate EvenAmong(rules: seq<Rule>, input: Input, effect: string) {
    || (forall r :: r in rules && AppliesWith(r, input, effect) ==> r.description.Absent?)
    || (forall r :: r in rules && AppliesWith(r, input, effect) ==> !r.description.Absent?)
  }

  ghost predicate Even(rules: seq<Rule>, input: Input) {
    if AnyApplies(rules, input, DENY) then EvenAmong(rules, input, DENY)
    else (AnyApplies(rules, input, REQUIRE_APPROVAL) && !input.approvalPresent) || EvenAmong(rules, input, ALLOW)
  }

  lemma {:induction false} FirstExists(rules: seq<Rule>, input: Input, effect: string) returns (i: nat)
    requires AnyApplies(rules, input, effect)
    ensures IsFirst(rules, input, effect, i)
  {
    hide Matched, WithEffect;
    EffectApplies(rules, input, effect);
    i := FirstIsRead(rules, input, effect);
  }

  /** Among even rules, silence is a matter of the set. */
  lemma EvenSilence(rules: seq<Rule>, other: seq<Rule>, input: Input, effect: string)
    requires (forall r :: r in rules <==> r in other) && EvenAmong(rules, input, effect)
    ensures FirstIsSilent(rules, input, effect) ==> FirstIsSilent(other, input, effect)
  {
    hide AppliesWith;
    if i: nat :| IsFirst(rules, input, effect, i) && rules[i].description.Absent? {
      assert rules[i] in rules && rules[i] in other;
      var j := FirstExists(other, input, effect);
      assert other[j] in other;
    }
  }

  lemma SameRulesSameOutcome(rules: seq<Rule>, other: seq<Rule>, input: Input)
    requires forall r :: r in rules <==> r in other
    requires Raises(rules, input) || Even(rules, input)
    ensures OutcomeOf(rules, input) == OutcomeOf(other, input)
  {
    hide OutcomeOf, AppliesWith, FirstIsSilent, Applies;
    OutcomeIsMeaning(rules, input);
    OutcomeIsMeaning(other, input);
    if !Raises(rules, input) {
      var effect := if AnyApplies(rules, input, DENY) then DENY else ALLOW;
      if EvenAmong(rules, input, effect) {
        EvenSilence(rules, other, input, effect);
        EvenSilence(other, rules, input, effect);
      }
    }
  }

  ghost function MoveFront(rules: seq<Rule>, i: nat): seq<Rule>
    requires i < |rules|
  {
    [rules[i]] + (rules[..i] + rules[i + 1..])
  }

  lemma MoveFrontPermutes(rules: seq<Rule>, i: nat)
    requires i < |rules|
    ensures multiset(MoveFront(rules, i)) == multiset(rules)
  {
    assert rules == rules[..i] + ([rules[i]] + rules[i + 1..]);
  }

  lemma SameElements(rules: seq<Rule>, other: seq<Rule>)
    requires multiset(rules) == multiset(other)
    ensures forall r :: r in rules <==> r in other
  {
    forall r ensures r in rules <==> r in other {
      assert r in rules <==> r in multiset(rules);
    }
  }

  /** A rule moved to the front is the one its branch reads. */
  lemma FrontDecides(rules: seq<Rule>, input: Input, effect: string, r: Rule) returns (other: seq<Rule>)
    requires r in rules && AppliesWith(r, input, effect)
    ensures multiset(other) == multiset(rules) && IsFirst(other, input, effect, 0) && other[0] == r
    ensures forall x :: x in rules <==> x in other
  {
    var i: nat :| i < |rules| && rules[i] == r;
    other := MoveFront(rules, i);
    MoveFrontPermutes(rules, i);
    SameElements(rules, other);
  }

  /** The order of the rules never matters if and only if matching raises, or the rules the deciding branch may read
      first all say something or none does. */
  lemma OrderMattersExactly(rules: seq<Rule>, input: Input)
    ensures (forall other :: multiset(other) == multiset(rules) ==> OutcomeOf(other, input) == OutcomeOf(rules, input)) <==>
            Raises(rules, input) || Even(rules, input)
  {
    hide OutcomeOf, AppliesWith, Raises, Even;
    if Raises(rules, input) || Even(rules, input) {
      forall other | multiset(other) == multiset(rules) ensures OutcomeOf(other, input) == OutcomeOf(rules, input) {
        SameElements(rules, other);
        SameRulesSameOutcome(rules, other, input);
      }
    } else {
      UnevenMatters(rules, input);
    }
  }

  lemma UnevenMatters(rules: seq<Rule>, input: Input)
    requires !Raises(rules, input) && !Even(rules, input)
    ensures exists other :: multiset(other) == multiset(rules) && OutcomeOf(other, input) != OutcomeOf(rules, input)
  {
    hide OutcomeOf, AppliesWith, Applies;
    var effect := if AnyApplies(rules, input, DENY) then DENY else ALLOW;
    var silent :| silent in rules && AppliesWith(silent, input, effect) && silent.description.Absent?;
    var speaking :| speaking in rules && AppliesWith(speaking, input, effect) && !speaking.description.Absent?;
    var a := FrontDecides(rules, input, effect, silent);
    var b := FrontDecides(rules, input, effect, speaking);
    OutcomeIsMeaning(a, input);
    OutcomeIsMeaning(b, input);
    assert FirstIsSilent(a, input, effect);
    assert !FirstIsSilent(b, input, effect) by {
      forall i: nat | IsFirst(b, input, effect, i) ensures i == 0 {
      }
    }
  }

  /** Where every rule carries a text, the order of the rules never matters. */
  lemma PermutationInvariant(rules: seq<Rule>, other: seq<Rule>, input: Input)
    requires multiset(rules) == multiset(other) && Described(rules)
    ensures OutcomeOf(rules, input) == OutcomeOf(other, input)
  {
    SameElements(rules, other);
    SameRulesSameOutcome(rules, other, input);
  }

  // ------------------------------------------------------------------ More rules, and approvals

  ghost function Insert(rules: seq<Rule>, i: nat, rule: Rule): seq<Rule>
    requires i <= |rules|
  {
    rules[..i] + [rule] + rules[i..]
  }

  lemma InsertAt(rules: seq<Rule>, i: nat, rule: Rule)
    requires i <= |rules|
    ensures var more := Insert(rules, i, rule);
            && |more| == |rules| + 1 && more[i] == rule
            && (forall j :: 0 <= j < i ==> more[j] == rules[j]) && (forall j :: i <= j < |rules| ==> more[j + 1] == rules[j])
            && (forall r :: r in more <==> r in rules || r == rule)
  {
    assert rules == rules[..i] + rules[i..];
  }

  lemma SilenceAfterInsert(rules: seq<Rule>, i: nat, rule: Rule, input: Input, effect: string)
    requires i <= |rules| && !rule.description.Absent?
    ensures FirstIsSilent(Insert(rules, i, rule), input, effect) <==>
            if AppliesWith(rule, input, effect)
            then exists j: nat :: j < i && IsFirst(rules, input, effect, j) && rules[j].description.Absent?
            else FirstIsSilent(rules, input, effect)
  {
    InsertAt(rules, i, rule);
    var more := Insert(rules, i, rule);
    if AnyApplies(more, input, effect) {
      var k := FirstExists(more, input, effect);
      forall j: nat | IsFirst(more, input, effect, j) ensures j == k {
      }
    } else {
      assert forall j: nat :: j < |more| ==> more[j] in more;
      assert forall j: nat :: j < |rules| ==> rules[j] in rules && rules[j] in more;
    }
    if AnyApplies(rules, input, effect) {
      var k := FirstExists(rules, input, effect);
      forall j: nat | IsFirst(rules, input, effect, j) ensures j == k {
      }
    } else {
      assert forall j: nat :: j < |rules| ==> rules[j] in rules;
    }
  }

  /** A deny rule with a description, added anywhere, denies where it applies, unless a silent deny rule before it makes
      the evaluation raise; where it does not apply it changes nothing. */
  lemma AddingDenyOnlyDenies(rules: seq<Rule>, i: nat, rule: Rule, input: Input)
    requires i <= |rules| && rule.effect == DENY && !rule.description.Absent? && !Raises(rules, input)
    ensures OutcomeOf(Insert(rules, i, rule), input) ==
            match Applies(rule.when, input)
            case None => None
            case Some(applies) =>
              if !applies then OutcomeOf(rules, input)
              else if exists j: nat :: j < i && IsFirst(rules, input, DENY, j) && rules[j].description.Absent? then None
              else Some(Denied)
  {
    hide OutcomeOf, Applies, FirstIsSilent, IsFirst;
    var more := Insert(rules, i, rule);
    InsertAt(rules, i, rule);
    OutcomeIsMeaning(more, input);
    OutcomeIsMeaning(rules, input);
    if Applies(rule.when, input).Some? {
      SilenceAfterInsert(rules, i, rule, input, DENY);
      SilenceAfterInsert(rules, i, rule, input, ALLOW);
    }
  }

  lemma {:induction false} ApprovalIsNoCondition(when: seq<Condition>, input: Input)
    ensures Applies(when, input.(approvalPresent := true)) == Applies(when, input)
  {
    if when != [] {
      ApprovalIsNoCondition(when[1..], input);
    }
  }

  /** The approval rules decide: nothing denies, something requires approval, and there is none. */
  ghost predicate AwaitsApproval(rules: seq<Rule>, input: Input) {
    && !Raises(rules, input) && !AnyApplies(rules, input, DENY)
    && AnyApplies(rules, input, REQUIRE_APPROVAL) && !input.approvalPresent
  }

  /** Supplying an approval changes an outcome only where the approval rules decided, and then to what the allow rules say. */
  lemma ApprovalChangesOnlyApprovalRequired(rules: seq<Rule>, input: Input)
    ensures OutcomeOf(rules, input.(approvalPresent := true)) ==
            if !AwaitsApproval(rules, input) then OutcomeOf(rules, input)
            else if FirstIsSilent(rules, input, ALLOW) then None
            else Some(if AnyApplies(rules, input, ALLOW) then Allowed else Denied)
    ensures AwaitsApproval(rules, input) ==> OutcomeOf(rules, input) in {None, Some(ApprovalRequired)}
  {
    var approved := input.(approvalPresent := true);
    forall r: Rule ensures Applies(r.when, approved) == Applies(r.when, input) {
      ApprovalIsNoCondition(r.when, input);
    }
    OutcomeIsMeaning(rules, input);
    OutcomeIsMeaning(rules, approved);
  }

  // ------------------------------------------------------------------ Validation and simulation

  ghost predicate RuleWellFormed(rules: seq<Rule>, i: nat)
    requires i < |rules|
  {
    var r := rules[i];
    && r.id != ""
    && (forall j :: 0 <= j < i ==> rules[j].id != r.id)
    && r.effect in {"deny", "require_approval", "allow"}
    && r.when != [] && (forall c :: c in r.when ==> !c.key.Unsupported?)
    && (forall o :: o in r.obligations ==> o.Obligation?)
  }

  ghost predicate DocumentWellFormed(d: Document) {
    d.version != "" && d.rules != [] && forall i :: 0 <= i < |d.rules| ==> RuleWellFormed(d.rules, i)
  }

  datatype DocumentError =
    | NoVersion | NoRules | IdMissing(rule: nat) | IdDuplicated(rule: nat) | BadEffect(rule: nat) | NoConditions(rule: nat)
    | UnknownConditions(rule: nat) | BadObligation(rule: nat)

  /** Collects every problem; there is none exactly if the document is well formed. */
  method ValidateDocument(d: Document) returns (errors: seq<DocumentError>)
    ensures errors == [] <==> DocumentWellFormed(d)
  {
    errors := if d.version == "" then [NoVersion] else [];
    if d.rules == [] {
      return errors + [NoRules];
    }
    var seen: set<string> := {};
    for i := 0 to |d.rules|
      invariant seen == set j | 0 <= j < i :: d.rules[j].id
      invariant errors == [] <==> d.version != "" && forall j :: 0 <= j < i ==> RuleWellFormed(d.rules, j)
    {
      var r := d.rules[i];
      ghost var before := errors;
      if r.id == "" {
        errors := errors + [IdMissing(i)];
      } else if r.id in seen {
        errors := errors + [IdDuplicated(i)];
      }
      seen := seen + {r.id};
      if r.effect !in {DENY, REQUIRE_APPROVAL, ALLOW} {
        errors := errors + [BadEffect(i)];
      }
      if r.when == [] {
        errors := errors + [NoConditions(i)];
      } else if exists c :: c in r.when && c.key.Unsupported? {
        errors := errors + [UnknownConditions(i)];
      }
      if exists o :: o in r.obligations && o.Untyped? {
        errors := errors + [BadObligation(i)];
      }
      assert before == [] ==> (errors == [] <==> RuleWellFormed(d.rules, i));
    }
  }

  /** The inputs every rule of a proposal is tried on. */
  const SIMULATION: set<Input> :=
    set mfa <- {true, false}, risk <- {None, Some(0), Some(99)}, readOnly <- {true, false},
        environment <- {Str("production"), Null}, classification <- {Str("sensitive"), Str("internal")},
        path <- {true, false}, caseId <- {Null, Str("SIM-1")}, approval <- {true, false}
      :: Input(path, mfa, risk, readOnly, environment, classification, caseId, approval)

  predicate PassesSimulation(rules: seq<Rule>) {
    forall input <- SIMULATION :: !Raises(rules, input)
  }

  /** Conditions are a dictionary: a key occurs once. */
  ghost predicate UniqueKeys(when: seq<Condition>) {
    forall i, j :: 0 <= i < j < |when| ==> when[i].key != when[j].key
  }

  ghost predicate Dictionaries(rules: seq<Rule>) {
    forall r :: r in rules ==> UniqueKeys(r.when)
  }

  ghost predicate BadThreshold(c: Condition) {
    c.key.SessionRiskAbove? && AsNumber(c.expected).None?
  }

  /** The bad threshold at `i` is reached: the session has a risk score and all conditions before it hold. */
  ghost predicate ReachesBad(when: seq<Condition>, input: Input, i: nat) {
    && i < |when| && BadThreshold(when[i]) && input.risk.Some?
    && forall j :: 0 <= j < i ==> Holds(when[j], input) == Some(true)
  }

  /** An evaluator raises exactly where it reaches a threshold that is not a number. */
  lemma {:induction false} RaisesExactly(when: seq<Condition>, input: Input)
    ensures Applies(when, input).None? <==> exists i :: ReachesBad(when, input, i)
  {
    if when != [] {
      RaisesExactly(when[1..], input);
      if Applies(when, input).None? {
        if Holds(when[0], input).None? {
          assert ReachesBad(when, input, 0);
        } else {
          var i: nat :| ReachesBad(when[1..], input, i);
          assert when[1..][i] == when[i + 1];
          forall j | 0 <= j < i + 1 ensures Holds(when[j], input) == Some(true) {
            if j > 0 {
              assert when[1..][j - 1] == when[j];
            }
          }
          assert ReachesBad(when, input, i + 1);
        }
      }
      if i: nat :| ReachesBad(when, input, i) {
        if i > 0 {
          assert ReachesBad(when[1..], input, i - 1);
        }
      }
    }
  }

  /** Attributes that the simulation tries. */
  ghost predicate Simulated(input: Input) {
    input.environment in {Str("production"), Null} && input.classification in {Str("sensitive"), Str("internal")}
  }

  ghost function Representative(input: Input): Input {
    input.(risk := if input.risk.None? then None else Some(0), caseId := if Truthy(input.caseId) then Str("SIM-1") else Null)
  }

  lemma RepresentativeIsSimulated(input: Input)
    requires Simulated(input)
    ensures Representative(input) in SIMULATION
  {
  }

  lemma SimulationCovers(rules: seq<Rule>, input: Input)
    requires Dictionaries(rules) && PassesSimulation(rules) && Simulated(input)
    ensures !Raises(rules, input)
  {
    hide Holds, Representative;
    var s := Representative(input);
    RepresentativeIsSimulated(input);
    forall r | r in rules ensures Applies(r.when, input).Some? {
      assert Applies(r.when, s).Some?;
      RaisesExactly(r.when, input);
      RaisesExactly(r.when, s);
      if i: nat :| ReachesBad(r.when, input, i) {
        SameReach(r.when, input, i);
      }
    }
  }

  lemma SameReach(when: seq<Condition>, input: Input, i: nat)
    requires UniqueKeys(when) && ReachesBad(when, input, i)
    ensures ReachesBad(when, Representative(input), i)
  {
  }

  /** A document whose one rule reaches a bad threshold only for one attribute value. */
  ghost function Trap(c: Condition): Document {
    Document("trap", [Rule("trap", DENY, Reason("trap"), [c, Condition(SessionRiskAbove, Str("high"))], [])])
  }

  lemma TrapRaises(c: Condition, input: Input)
    requires c.key.ResourceEnvironment? || c.key.ResourceClassification?
    ensures DocumentWellFormed(Trap(c)) && Dictionaries(Trap(c).rules)
    ensures Raises(Trap(c).rules, input) <==> input.risk.Some? && Holds(c, input) == Some(true)
  {
    var when := [c, Condition(SessionRiskAbove, Str("high"))];
    var rule := Rule("trap", DENY, Reason("trap"), when, []);
    assert Trap(c).rules == [rule];
    assert Holds(c, input).Some?;
    RaisesExactly(when, input);
    if input.risk.Some? && Holds(c, input) == Some(true) {
      assert ReachesBad(when, input, 1);
      assert Applies(rule.when, input).None?;
    } else {
      forall i ensures !ReachesBad(when, input, i) {
      }
      assert Applies(rule.when, input).Some?;
    }
  }

  /** A document whose one rule applies to the request and does not say why. */
  ghost function Silent(input: Input): Document {
    Document("silent", [Rule("silent", DENY, Absent, [Condition(ActionReadOnly, Bool(input.readOnly))], [])])
  }

  lemma SilentRaises(input: Input)
    ensures Proposable(Silent(input)) && Evaluate(Silent(input).rules, input).None?
  {
    var rules, c := Silent(input).rules, Condition(ActionReadOnly, Bool(input.readOnly));
    forall i: Input ensures Applies(rules[0].when, i).Some? {
      OneCondition(c, i);
    }
    OneCondition(c, input);
    hide Applies;
    assert IsFirst(rules, input, DENY, 0);
    assert AnyApplies(rules, input, DENY) by { assert rules[0] in rules; }
    hide Evaluate;
    EvaluationOrder(rules, input);
  }

  /** What a proposal has to meet to become a draft. */
  ghost predicate Proposable(d: Document) {
    DocumentWellFormed(d) && Dictionaries(d.rules) && PassesSimulation(d.rules)
  }

  /** Requests whose matching the simulation covers: no risk score, or attributes it tries. */
  ghost predicate Covered(input: Input) {
    input.risk.None? || Simulated(input)
  }

  lemma CoveredNeverRaises(d: Document, input: Input)
    requires Proposable(d) && Covered(input)
    ensures !Raises(d.rules, input)
  {
    hide PassesSimulation, DocumentWellFormed, Dictionaries, Raises;
    if input.risk.None? {
      NoRiskNoRaise(d.rules, input);
    } else {
      SimulationCovers(d.rules, input);
    }
  }

  /** On such requests an accepted document fails exactly where the rule that decides has no description to read. */
  lemma AcceptedFailsExactly(d: Document, input: Input)
    requires Proposable(d) && Covered(input)
    ensures Evaluate(d.rules, input).None? <==> Undescribed(d.rules, input)
  {
    hide Proposable, Evaluate, Undescribed, Raises;
    CoveredNeverRaises(d, input);
    EvaluationOrder(d.rules, input);
  }

  /** Whether every accepted document, of those with descriptions if `mustDescribe`, decides the request. */
  ghost predicate AlwaysDecides(mustDescribe: bool, input: Input) {
    forall d: Document :: Proposable(d) && (mustDescribe ==> Described(d.rules)) ==> Evaluate(d.rules, input).Some?
  }

  /** Validation and simulation are meant to keep out every document whose evaluation raises. They do so exactly for the
      requests they cover, and only if every rule must also carry a text as its description: drop either condition and
      some accepted document raises. */
  lemma SimulationIsExact(mustDescribe: bool, input: Input)
    ensures AlwaysDecides(mustDescribe, input) <==> mustDescribe && Covered(input)
  {
    hide Proposable, Evaluate, Described, Covered;
    if mustDescribe && Covered(input) {
      forall d: Document | Proposable(d) && Described(d.rules) ensures Evaluate(d.rules, input).Some? {
        AcceptedFailsExactly(d, input);
        DescribedIsRead(d.rules, input);
      }
    } else if !mustDescribe {
      SilentRaises(input);
    } else {
      var d := UncoveredTrap(input);
    }
  }

  lemma UncoveredTrap(input: Input) returns (d: Document)
    requires !Covered(input)
    ensures Proposable(d) && Described(d.rules) && Evaluate(d.rules, input).None?
  {
    var c := if input.environment in {Str("production"), Null} then Condition(ResourceClassification, input.classification)
             else Condition(ResourceEnvironment, input.environment);
    d := Trap(c);
    TrapRaises(c, input);
    TrapPasses(c, input);
  }

  lemma NoRiskNoRaise(rules: seq<Rule>, input: Input)
    requires input.risk.None?
    ensures !Raises(rules, input)
  {
    forall r | r in rules ensures Applies(r.when, input).Some? {
      RaisesExactly(r.when, input);
    }
  }

  lemma TrapPasses(c: Condition, input: Input)
    requires !Simulated(input)
    requires c == if input.environment in {Str("production"), Null} then Condition(ResourceClassification, input.classification)
                  else Condition(ResourceEnvironment, input.environment)
    ensures PassesSimulation(Trap(c).rules)
  {
  }

  // ------------------------------------------------------------------ The built-in policy

  const IS_WRITE := Condition(ActionReadOnly, Bool(false))
  const IS_SENSITIVE := Condition(ResourceClassification, Str("sensitive"))
  const RISK_UNKNOWN := Condition(SessionRiskUnknown, Bool(true))

  const DEFAULT_POLICY := Document("2026-09-06.1", [
    Rule("deny-unknown-risk-write", DENY, Reason("Unknown session risk cannot authorize writes."),
      [RISK_UNKNOWN, IS_WRITE], []),
    Rule("deny-unknown-risk-sensitive", DENY, Reason("Unknown session risk cannot authorize sensitive access."),
      [RISK_UNKNOWN, IS_SENSITIVE], []),
    Rule("deny-no-access-path", DENY, Reason("No proven authority path means no access, ever."),
      [Condition(AccessPathExists, Bool(false))], []),
    Rule("deny-missing-mfa", DENY, Reason("All brokered authority requires MFA."),
      [Condition(SessionMfa, Bool(false))], []),
    Rule("deny-high-risk-session", DENY, Reason("Session risk score above 70 is not honored."),
      [Condition(SessionRiskAbove, Num(70))], []),
    Rule("deny-prod-without-case", DENY, Reason("Production access requires a case/incident ID."),
      [Condition(ResourceEnvironment, Str("production")), Condition(HasCaseId, Bool(false))], []),
    Rule("approval-for-writes", REQUIRE_APPROVAL, Reason("Non-read-only actions require human approval."),
      [IS_WRITE], []),
    Rule("approval-for-sensitive", REQUIRE_APPROVAL, Reason("Sensitive-classified resources require human approval."),
      [IS_SENSITIVE], []),
    Rule("allow-read-only", ALLOW, Reason("Read-only actions over a proven path are allowed, short TTL."),
      [Condition(ActionReadOnly, Bool(true))], [Obligation("max_ttl_seconds", Num(900)), Obligation("read_only", Null)]),
    Rule("allow-approved-write", ALLOW, Reason("Writes are allowed once approved; executed via controlled runner."),
      [IS_WRITE], [Obligation("max_ttl_seconds", Num(900)), Obligation("controlled_runner", Null)])])

  /** Writes and sensitive resources need a known risk score and an approval. */
  ghost predicate NeedsApproval(input: Input) {
    !input.readOnly || input.classification == Str("sensitive")
  }

  ghost predicate Refused(input: Input) {
    || !input.accessPathExists || !input.mfa
    || (if input.risk.None? then NeedsApproval(input) else input.risk.value > 70)
    || (input.environment == Str("production") && !Truthy(input.caseId))
  }

  lemma OneCondition(c: Condition, input: Input)
    ensures Applies([c], input) == Holds(c, input)
  {
  }

  lemma TwoConditions(c: Condition, d: Condition, input: Input)
    ensures Applies([c, d], input) == if Holds(c, input) == Some(true) then Holds(d, input) else Holds(c, input)
  {
    assert [c, d][1..] == [d];
    OneCondition(d, input);
  }

  /** When the built-in rule `k` applies. */
  ghost predicate DefaultApplies(k: nat, input: Input) {
    if k == 0 then input.risk.None? && !input.readOnly
    else if k == 1 then input.risk.None? && input.classification == Str("sensitive")
    else if k == 2 then !input.accessPathExists
    else if k == 3 then !input.mfa
    else if k == 4 then input.risk.Some? && input.risk.value > 70
    else if k == 5 then input.environment == Str("production") && !Truthy(input.caseId)
    else if k == 7 then input.classification == Str("sensitive")
    else if k == 8 then input.readOnly
    else !input.readOnly
  }

  lemma DefaultRuleApplies(k: nat, input: Input)
    requires k < |DEFAULT_POLICY.rules|
    ensures Applies(DEFAULT_POLICY.rules[k].when, input) == Some(DefaultApplies(k, input))
  {
    hide Applies;
    var when := DEFAULT_POLICY.rules[k].when;
    if k in {0, 1, 5} {
      TwoConditions(when[0], when[1], input);
    } else {
      OneCondition(when[0], input);
    }
  }

  /** The built-in policy, request by request: no path, no second factor, a high or (for writes and sensitive
      resources) unknown risk, or production without a case is refused; of the rest, writes and sensitive
      resources wait for an approval. */
  lemma DefaultPolicyDecides(input: Input)
    ensures OutcomeOf(DEFAULT_POLICY.rules, input) ==
            Some(if Refused(input) then Denied
                 else if NeedsApproval(input) && !input.approvalPresent then ApprovalRequired
                 else Allowed)
  {
    hide Applies, Evaluate;
    var rules := DEFAULT_POLICY.rules;
    DefaultEffects(input);
    OutcomeIsMeaning(rules, input);
    DefaultIsDescribed();
    DescribedIsRead(rules, input);
  }

  lemma DefaultEffect(input: Input, effect: string)
    ensures AnyApplies(DEFAULT_POLICY.rules, input, effect) <==>
            exists k: nat :: k < 10 && DEFAULT_POLICY.rules[k].effect == effect && DefaultApplies(k, input)
  {
    hide Applies, DefaultApplies;
    var rules := DEFAULT_POLICY.rules;
    if AnyApplies(rules, input, effect) {
      var r :| r in rules && r.effect == effect && Applies(r.when, input) == Some(true);
      var k: nat :| k < |rules| && rules[k] == r;
      DefaultRuleApplies(k, input);
    }
    if k: nat :| k < 10 && rules[k].effect == effect && DefaultApplies(k, input) {
      DefaultRuleApplies(k, input);
      assert rules[k] in rules;
    }
  }

  lemma DefaultEffectRange(input: Input, effect: string, from: nat, to: nat)
    requires from <= to <= 10
    requires forall k: nat :: k < 10 ==> (DEFAULT_POLICY.rules[k].effect == effect <==> from <= k < to)
    ensures AnyApplies(DEFAULT_POLICY.rules, input, effect) <==> exists k: nat :: from <= k < to && DefaultApplies(k, input)
  {
    hide AnyApplies, DefaultApplies, DEFAULT_POLICY;
    DefaultEffect(input, effect);
  }

  lemma DefaultIsDescribed()
    ensures Described(DEFAULT_POLICY.rules)
  {
  }

  lemma DefaultEffects(input: Input)
    ensures !Raises(DEFAULT_POLICY.rules, input)
    ensures AnyApplies(DEFAULT_POLICY.rules, input, DENY) <==> Refused(input)
    ensures AnyApplies(DEFAULT_POLICY.rules, input, REQUIRE_APPROVAL) <==> NeedsApproval(input)
    ensures AnyApplies(DEFAULT_POLICY.rules, input, ALLOW)
  {
    forall r | r in DEFAULT_POLICY.rules ensures Applies(r.when, input).Some? {
      var k: nat :| k < |DEFAULT_POLICY.rules| && DEFAULT_POLICY.rules[k] == r;
      DefaultRuleApplies(k, input);
    }
    forall k: nat | k < 10 ensures DEFAULT_POLICY.rules[k].effect == if k < 6 then DENY else if k < 8 then REQUIRE_APPROVAL else ALLOW {
      DefaultEffectAt(k);
    }
    DefaultEffectRange(input, DENY, 0, 6);
    DefaultEffectRange(input, REQUIRE_APPROVAL, 6, 8);
    DefaultEffectRange(input, ALLOW, 8, 10);
    DefaultRanges(input);
  }

  lemma DefaultEffectAt(k: nat)
    requires k < 10
    ensures DEFAULT_POLICY.rules[k].effect == if k < 6 then DENY else if k < 8 then REQUIRE_APPROVAL else ALLOW
  {
  }

  lemma DefaultRanges(input: Input)
    ensures (exists k: nat :: k < 6 && DefaultApplies(k, input)) <==> Refused(input)
    ensures (exists k: nat :: 6 <= k < 8 && DefaultApplies(k, input)) <==> NeedsApproval(input)
    ensures exists k: nat :: 8 <= k < 10 && DefaultApplies(k, input)
  {
    assert DefaultApplies(8, input) || DefaultApplies(9, input);
    assert NeedsApproval(input) <==> DefaultApplies(6, input) || DefaultApplies(7, input);
    assert Refused(input) <==>
           || DefaultApplies(0, input) || DefaultApplies(1, input) || DefaultApplies(2, input)
           || DefaultApplies(3, input) || DefaultApplies(4, input) || DefaultApplies(5, input);
  }
}
