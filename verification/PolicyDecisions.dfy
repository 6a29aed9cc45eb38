/** What a decision carries besides its outcome: the rules that applied, and the obligations of those that allow. */
module PolicyDecisions {
  import opened Wrappers
  import opened Policy

  /** `picked` is the rules at these positions, which are in order. */
  ghost predicate Lists(picked: seq<Rule>, rules: seq<Rule>, at: seq<nat>) {
    && |picked| == |at|
    && (forall k :: 0 <= k < |at| ==> at[k] < |rules| && picked[k] == rules[at[k]])
    && (forall k, l :: 0 <= k < l < |at| ==> at[k] < at[l])
  }

  predicate AppliesAt(rules: seq<Rule>, input: Input, i: nat) {
    i < |rules| && Applies(rules[i].when, input) == Some(true)
  }

  lemma ListsSnoc(picked: seq<Rule>, rules: seq<Rule>, at: seq<nat>, r: Rule, add: bool)
    requires Lists(picked, rules, at)
    ensures Lists(picked + if add then [r] else [], rules + [r], at + if add then [|rules|] else [])
    ensures forall i: nat :: i in at + (if add then [|rules|] else []) <==> i in at || (add && i == |rules|)
  {
    var longer := rules + [r];
    assert longer[|rules|] == r && forall i :: 0 <= i < |rules| ==> longer[i] == rules[i];
  }

  /** The rules that apply, by their positions. */
  lemma {:induction false} MatchedAt(rules: seq<Rule>, input: Input) returns (at: seq<nat>)
    ensures Lists(Matched(rules, input), rules, at)
    ensures forall i: nat :: i in at <==> AppliesAt(rules, input, i)
  {
    hide Applies;
    if rules == [] {
      at := [];
    } else {
      var front, last := rules[..|rules| - 1], rules[|rules| - 1];
      assert rules == front + [last];
      var before := MatchedAt(front, input);
      var add := Applies(last.when, input) == Some(true);
      ListsSnoc(Matched(front, input), front, before, last, add);
      at := before + if add then [|front|] else [];
    }
  }

  lemma AppliedSnoc(front: seq<Rule>, last: Rule, input: Input, effect: string)
    ensures WithEffect(Matched(front + [last], input), effect) ==
            WithEffect(Matched(front, input), effect) + if Applies(last.when, input) == Some(true) && last.effect == effect then [last] else []
  {
    hide Applies, WithEffect;
    assert (front + [last])[..|front|] == front;
    WithEffectSnoc(Matched(front, input), last, effect);
    assert Matched(front, input) + [] == Matched(front, input);
    assert WithEffect(Matched(front, input), effect) + [] == WithEffect(Matched(front, input), effect);
  }

  predicate AppliesWithAt(rules: seq<Rule>, input: Input, effect: string, i: nat) {
    AppliesAt(rules, input, i) && rules[i].effect == effect
  }

  /** The rules that apply with one effect, by their positions. */
  lemma {:induction false} AppliedAt(rules: seq<Rule>, input: Input, effect: string) returns (at: seq<nat>)
    ensures Lists(WithEffect(Matched(rules, input), effect), rules, at)
    ensures forall i: nat :: i in at <==> AppliesWithAt(rules, input, effect, i)
  {
    hide Applies, Lists, Matched, WithEffect;
    if rules == [] {
      at := [];
      NothingListed(input, effect);
    } else {
      var front, last := rules[..|rules| - 1], rules[|rules| - 1];
      assert rules == front + [last];
      var before := AppliedAt(front, input, effect);
      var add := Applies(last.when, input) == Some(true) && last.effect == effect;
      AppliedSnoc(front, last, input, effect);
      ListsSnoc(WithEffect(Matched(front, input), effect), front, before, last, add);
      at := before + if add then [|front|] else [];
    }
  }

  lemma NothingListed(input: Input, effect: string)
    ensures Lists(WithEffect(Matched([], input), effect), [], [])
  {
  }

  /** The part of `whole` from `from[k]` up to `from[k + 1]` is what the `k`-th of these rules carries. */
  ghost predicate Piece(whole: seq<Obligation>, rules: seq<Rule>, at: seq<nat>, from: seq<nat>, k: nat) {
    && k < |at| && k + 1 < |from| && at[k] < |rules| && from[k] <= from[k + 1] <= |whole|
    && whole[from[k]..from[k + 1]] == rules[at[k]].obligations
  }

  /** `whole` is what the rules at these positions carry, one after the other. */
  ghost predicate Joins(whole: seq<Obligation>, rules: seq<Rule>, at: seq<nat>, from: seq<nat>) {
    && |from| == |at| + 1 && from[0] == 0 && from[|at|] == |whole|
    && forall k: nat :: k < |at| ==> Piece(whole, rules, at, from, k)
  }

  lemma PieceStays(whole: seq<Obligation>, more: seq<Obligation>, rules: seq<Rule>, at: seq<nat>, from: seq<nat>, i: nat, n: nat, k: nat)
    requires Piece(whole, rules, at, from, k)
    ensures Piece(whole + more, rules, at + [i], from + [n], k)
  {
    assert (whole + more)[from[k]..from[k + 1]] == whole[from[k]..from[k + 1]];
  }

  lemma NewPiece(whole: seq<Obligation>, rules: seq<Rule>, at: seq<nat>, from: seq<nat>, i: nat)
    requires |from| == |at| + 1 && from[|at|] == |whole| && i < |rules|
    ensures var longer := whole + rules[i].obligations; Piece(longer, rules, at + [i], from + [|longer|], |at|)
  {
    var longer := whole + rules[i].obligations;
    assert longer[|whole|..|longer|] == rules[i].obligations;
  }

  lemma {:induction false} ObligationsJoin(picked: seq<Rule>, rules: seq<Rule>, at: seq<nat>) returns (from: seq<nat>)
    requires Lists(picked, rules, at)
    ensures Joins(Obligations(picked), rules, at, from)
  {
    if picked == [] {
      from := [0];
    } else {
      var n := |picked| - 1;
      var before := ObligationsJoin(picked[..n], rules, at[..n]);
      var front := Obligations(picked[..n]);
      assert at == at[..n] + [at[n]] && Obligations(picked) == front + rules[at[n]].obligations;
      from := before + [|Obligations(picked)|];
      hide Piece, Lists;
      NewPiece(front, rules, at[..n], before, at[n]);
      forall k: nat | k < |at| ensures Piece(Obligations(picked), rules, at, from, k) {
        if k < n {
          PieceStays(front, rules[at[n]].obligations, rules, at[..n], before, at[n], |Obligations(picked)|, k);
        }
      }
    }
  }

  // ------------------------------------------------------------------ Main results

  ghost predicate IsMatched(rules: seq<Rule>, input: Input, matched: seq<Rule>, at: seq<nat>) {
    Lists(matched, rules, at) && forall i: nat :: i in at <==> AppliesAt(rules, input, i)
  }

  ghost predicate AreAllowed(rules: seq<Rule>, input: Input, obligations: seq<Obligation>, at: seq<nat>, from: seq<nat>) {
    && (forall k, l :: 0 <= k < l < |at| ==> at[k] < at[l])
    && (forall i: nat :: i in at <==> AppliesWithAt(rules, input, "allow", i))
    && Joins(obligations, rules, at, from)
  }

  /** A decision lists exactly the rules that apply, in their order. If it allows, it carries the obligations of exactly
      the allow rules that apply, in their order; otherwise it carries none. */
  lemma DecisionCarriesExactly(rules: seq<Rule>, input: Input)
    requires Evaluate(rules, input).Some?
    ensures var d := Evaluate(rules, input).value;
            && (exists at :: IsMatched(rules, input, d.matched, at))
            && (if d.outcome.Allowed? then exists at, from :: AreAllowed(rules, input, d.obligations, at, from) else d.obligations == [])
  {
    hide Applies, Raises, WithEffect, Matched, Obligations;
    var d := Evaluate(rules, input).value;
    var all := MatchedAt(rules, input);
    assert IsMatched(rules, input, d.matched, all);
    if d.outcome.Allowed? {
      var allows := WithEffect(Matched(rules, input), ALLOW);
      var at := AppliedAt(rules, input, ALLOW);
      var from := ObligationsJoin(allows, rules, at);
      assert AreAllowed(rules, input, d.obligations, at, from);
    }
  }

  /** Under the built-in policy an allowed read is bound to a quarter of an hour and to reading, an allowed write to a
      quarter of an hour and the controlled runner. */
  lemma BuiltInObligations(input: Input)
    requires OutcomeOf(DEFAULT_POLICY.rules, input) == Some(Allowed)
    ensures Evaluate(DEFAULT_POLICY.rules, input).value.obligations ==
            if input.readOnly then [Obligation("max_ttl_seconds", Num(900)), Obligation("read_only", Null)]
            else [Obligation("max_ttl_seconds", Num(900)), Obligation("controlled_runner", Null)]
  {
    hide Evaluate, Applies, DEFAULT_POLICY, AreAllowed;
    var rules := DEFAULT_POLICY.rules;
    DecisionCarriesExactly(rules, input);
    var at, from :| AreAllowed(rules, input, Evaluate(rules, input).value.obligations, at, from);
    var k: nat := if input.readOnly then 8 else 9;
    forall i: nat ensures i in at <==> i == k {
      BuiltInAllows(input, i, Evaluate(rules, input).value.obligations, at, from);
    }
    OnlyOne(at, k, Evaluate(rules, input).value.obligations, from, input);
    BuiltInRules();
  }

  lemma BuiltInRules()
    ensures |DEFAULT_POLICY.rules| == 10
    ensures DEFAULT_POLICY.rules[8].obligations == [Obligation("max_ttl_seconds", Num(900)), Obligation("read_only", Null)]
    ensures DEFAULT_POLICY.rules[9].obligations == [Obligation("max_ttl_seconds", Num(900)), Obligation("controlled_runner", Null)]
  {
  }

  lemma BuiltInAllows(input: Input, i: nat, whole: seq<Obligation>, at: seq<nat>, from: seq<nat>)
    requires AreAllowed(DEFAULT_POLICY.rules, input, whole, at, from)
    ensures i in at <==> i == if input.readOnly then 8 else 9
  {
    hide Applies, DEFAULT_POLICY, Joins;
    BuiltInRules();
    if i < |DEFAULT_POLICY.rules| {
      DefaultRuleApplies(i, input);
      DefaultEffectAt(i);
    }
  }

  lemma OnlyOne(at: seq<nat>, k: nat, whole: seq<Obligation>, from: seq<nat>, input: Input)
    requires forall i: nat :: i in at <==> i == k
    requires AreAllowed(DEFAULT_POLICY.rules, input, whole, at, from)
    ensures k < |DEFAULT_POLICY.rules| && whole == DEFAULT_POLICY.rules[k].obligations
  {
    hide Applies, DEFAULT_POLICY;
    assert k in at;
    assert at[0] in at && at[|at| - 1] in at;
    assert |at| == 1;
    assert Piece(whole, DEFAULT_POLICY.rules, at, from, 0);
    assert whole[0..|whole|] == whole;
  }

  // ------------------------------------------------------------------ Conditions

  /** A truth value as a document may write it: as itself, or as a number. */
  ghost predicate Writes(v: Value, b: bool) {
    v == Bool(b) || v == Num(if b then 1 else 0)
  }

  ghost predicate Equal(v: Value, w: Value) {
    v == w || (exists b :: (v == Bool(b) && Writes(w, b)) || (w == Bool(b) && Writes(v, b)))
  }

  lemma SameExactly(v: Value, w: Value)
    ensures Same(v, w) <==> Equal(v, w)
  {
    if Same(v, w) && v != w {
      var b := AsNumber(v) == Some(1);
      assert (v == Bool(b) && Writes(w, b)) || (w == Bool(b) && Writes(v, b));
    }
  }

  /** The flag that a condition on a truth value asks about. */
  ghost function Flag(key: Key, input: Input): Option<bool> {
    match key
    case AccessPathExists => Some(input.accessPathExists)
    case SessionMfa => Some(input.mfa)
    case SessionRiskUnknown => Some(input.risk == None)
    case ActionReadOnly => Some(input.readOnly)
    case HasCaseId =>
      Some(input.caseId != Null && input.caseId != Bool(false) && input.caseId != Num(0) && input.caseId != Str("")
           && !(input.caseId.Structure? && input.caseId.empty))
    case _ => None
  }

  lemma FlagIs(b: bool, v: Value)
    ensures Same(Bool(b), v) <==> Writes(v, b)
  {
  }

  /** A condition on a truth value holds if the document writes that value. */
  lemma FlagHolds(c: Condition, input: Input)
    requires Flag(c.key, input).Some?
    ensures Holds(c, input) == Some(Writes(c.expected, Flag(c.key, input).value))
  {
    hide Same, Writes;
    FlagIs(Flag(c.key, input).value, c.expected);
  }

  /** A condition on an attribute holds if the document writes its value; an unsupported one never does. */
  lemma AttributeHolds(c: Condition, input: Input)
    ensures c.key == ResourceEnvironment ==> Holds(c, input) == Some(Equal(input.environment, c.expected))
    ensures c.key == ResourceClassification ==> Holds(c, input) == Some(Equal(input.classification, c.expected))
    ensures c.key.Unsupported? ==> Holds(c, input) == Some(false)
  {
    hide Same, Equal;
    SameExactly(input.environment, c.expected);
    SameExactly(input.classification, c.expected);
  }

  /** A threshold is passed by a greater risk score, never without one, and raises on a score if it is not a number. */
  lemma RiskHolds(c: Condition, input: Input)
    requires c.key == SessionRiskAbove
    ensures Holds(c, input) ==
            match input.risk
            case None => Some(false)
            case Some(risk) =>
              match c.expected
              case Num(n) => Some(risk > n)
              case Bool(b) => Some(risk > if b then 1 else 0)
              case _ => None
  {
  }

  /** A rule applies if all its conditions hold; if not, the first that does not hold decides: it fails, or it raises. */
  lemma {:induction false} AppliesExactly(when: seq<Condition>, input: Input)
    ensures Applies(when, input) == Some(true) <==> forall i :: 0 <= i < |when| ==> Holds(when[i], input) == Some(true)
    ensures Applies(when, input) != Some(true) ==>
              exists i :: 0 <= i < |when| && Holds(when[i], input) == Applies(when, input)
                          && forall j :: 0 <= j < i ==> Holds(when[j], input) == Some(true)
  {
    hide Holds;
    if when != [] {
      AppliesExactly(when[1..], input);
      if Holds(when[0], input) == Some(true) && Applies(when[1..], input) != Some(true) {
        var i :| 0 <= i < |when[1..]| && Holds(when[1..][i], input) == Applies(when[1..], input)
                 && forall j :: 0 <= j < i ==> Holds(when[1..][j], input) == Some(true);
        assert when[i + 1] == when[1..][i];
        assert forall j :: 1 <= j < i + 1 ==> when[j] == when[1..][j - 1];
      }
    }
  }
}
