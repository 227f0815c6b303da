/**
 Filter policies (internal/filter/filter.go): a validator and an evaluator over JSON trees. Go
 walks an object in an arbitrary order, so every loop over an object here takes its keys in an
 arbitrary order too, and the contracts hold for all of them.
 */
module Filter {
  import opened Common
  import opened Json
  import Glob

  // ---- Scalars and single conditions ------------------------------------------------------

  function Flatten(candidate: JSON): seq<JSON> {
    if candidate.JArr? then candidate.items else [candidate]
  }

  function ToFloat(p: Platform, v: JSON): Option<real> {
    match v
    case JNum(n) => Some(n)
    case JStr(s) => p.parseFloat(s)
    case _ => None
  }

  const EPSILON := 0.000000001

  predicate Near(a: real, b: real) { -EPSILON < a - b < EPSILON }

  predicate Equal(p: Platform, a: JSON, b: JSON) {
    match a
    case JNum(n) => var f := ToFloat(p, b); f.Some? && Near(n, f.value)
    case _ => p.sprint(a) == p.sprint(b)
  }

  predicate Contains(p: Platform, candidate: JSON, expected: JSON) {
    exists v :: v in Flatten(candidate) && Equal(p, v, expected)
  }

  predicate Scalar(v: JSON) { v.JStr? || v.JNum? || v.JBool? || v.JNull? }

  predicate CompareNumeric(value: real, op: JSON, compare: real) {
    match op
    case JStr("=") => Near(value, compare)
    case JStr(">") => value > compare
    case JStr(">=") => value >= compare
    case JStr("<") => value < compare
    case JStr("<=") => value <= compare
    case _ => false
  }

  /** The k-th operator/operand pair of a numeric clause list holds of `value`. */
  predicate ClauseHolds(p: Platform, clauses: seq<JSON>, k: nat, value: real)
    requires k < |clauses| / 2
  {
    var operand := ToFloat(p, clauses[2 * k + 1]);
    operand.Some? && CompareNumeric(value, clauses[2 * k], operand.value)
  }

  predicate ClausesHold(p: Platform, clauses: seq<JSON>, value: real) {
    forall k: nat :: k < |clauses| / 2 ==> ClauseHolds(p, clauses, k, value)
  }

  predicate NumericHolds(p: Platform, clauses: seq<JSON>, candidate: JSON) {
    exists v :: v in Flatten(candidate) && ToFloat(p, v).Some? && ClausesHold(p, clauses, ToFloat(p, v).value)
  }

  predicate NumericOperands(p: Platform, clauses: seq<JSON>) {
    forall k: nat :: k < |clauses| / 2 ==> ToFloat(p, clauses[2 * k + 1]).Some?
  }

  /** Comparing `value` runs into an operand that is no number before a comparison fails. */
  predicate MeetsBadOperand(p: Platform, clauses: seq<JSON>, value: real) {
    exists k: nat :: k < |clauses| / 2 && BadOperandAt(p, clauses, k, value)
  }

  predicate BadOperandAt(p: Platform, clauses: seq<JSON>, k: nat, value: real)
    requires k < |clauses| / 2
  {
    ToFloat(p, clauses[2 * k + 1]).None? && forall i: nat :: i < k ==> ClauseHolds(p, clauses, i, value)
  }

  predicate Number(p: Platform, v: JSON) { ToFloat(p, v).Some? }

  /**
   Exactly when `evalNumeric` fails: a malformed rule, or a number that meets a bad operand before any
   number matches.
   */
  predicate NumericFails(p: Platform, rule: JSON, candidate: JSON) {
    || !rule.JArr? || |rule.items| % 2 != 0
    || exists j :: 0 <= j < |Flatten(candidate)| && Number(p, Flatten(candidate)[j])
         && MeetsBadOperand(p, rule.items, ToFloat(p, Flatten(candidate)[j]).value)
         && forall i :: 0 <= i < j && Number(p, Flatten(candidate)[i]) ==>
              !ClausesHold(p, rule.items, ToFloat(p, Flatten(candidate)[i]).value)
  }

  /** `evalNumeric`: a flag updated in a nested loop over values and operator/operand pairs. */
  method EvalNumeric(p: Platform, rule: JSON, candidate: JSON) returns (r: Result<bool, string>)
    ensures r.Err? <==> NumericFails(p, rule, candidate)
    ensures r.Ok? ==> r.value == NumericHolds(p, rule.items, candidate)
  {
    if !rule.JArr? || |rule.items| % 2 != 0 {
      return Err("invalid numeric clause");
    }
    var clauses := rule.items;
    var values := Flatten(candidate);
    for j := 0 to |values|
      invariant forall k :: 0 <= k < j && Number(p, values[k]) ==>
        && !ClausesHold(p, clauses, ToFloat(p, values[k]).value)
        && !MeetsBadOperand(p, clauses, ToFloat(p, values[k]).value)
    {
      var number := ToFloat(p, values[j]);
      if number.None? {
        continue;
      }
      var match_ := true;
      var i := 0;
      while i < |clauses|
        invariant 0 <= i <= |clauses| && i % 2 == 0
        invariant forall k: nat :: k < i / 2 ==> ClauseHolds(p, clauses, k, number.value)
        invariant match_
      {
        assert 2 * (i / 2) == i;
        var compare := ToFloat(p, clauses[i + 1]);
        if compare.None? {
          assert BadOperandAt(p, clauses, i / 2, number.value);
          assert Number(p, Flatten(candidate)[j]);
          return Err("invalid numeric compare");
        }
        if !CompareNumeric(number.value, clauses[i], compare.value) {
          match_ := false;
          assert !ClauseHolds(p, clauses, i / 2, number.value);
          NoBadOperand(p, clauses, i / 2, number.value);
          break;
        }
        i := i + 2;
      }
      if match_ {
        assert values[j] in Flatten(candidate);
        assert Number(p, Flatten(candidate)[j]);
        MatchMeetsNoBadOperand(p, clauses, number.value);
        return Ok(true);
      }
      assert !ClausesHold(p, clauses, number.value);
    }
    return Ok(false);
  }

  /** A comparison that fails comes before every bad operand. */
  lemma NoBadOperand(p: Platform, clauses: seq<JSON>, i: nat, value: real)
    requires i < |clauses| / 2 && ToFloat(p, clauses[2 * i + 1]).Some? && !ClauseHolds(p, clauses, i, value)
    requires forall k: nat :: k < i ==> ClauseHolds(p, clauses, k, value)
    ensures !MeetsBadOperand(p, clauses, value)
  {
    forall k: nat | k < |clauses| / 2 ensures !BadOperandAt(p, clauses, k, value) {
      if k < i {
        assert ClauseHolds(p, clauses, k, value);
      } else if k > i {
        assert !ClauseHolds(p, clauses, i, value);
      }
    }
  }

  lemma MatchMeetsNoBadOperand(p: Platform, clauses: seq<JSON>, value: real)
    requires ClausesHold(p, clauses, value)
    ensures !MeetsBadOperand(p, clauses, value)
  {
    forall k: nat | k < |clauses| / 2 ensures !BadOperandAt(p, clauses, k, value) {
      assert ClauseHolds(p, clauses, k, value);
    }
  }

  lemma ReadableOperandsSuffice(p: Platform, clauses: seq<JSON>, candidate: JSON)
    requires |clauses| % 2 == 0 && NumericOperands(p, clauses)
    ensures !NumericFails(p, JArr(clauses), candidate)
  {
    forall k: nat, value | k < |clauses| / 2 ensures !BadOperandAt(p, clauses, k, value) {
      assert ToFloat(p, clauses[2 * k + 1]).Some?;
    }
  }

  predicate PrefixHolds(rule: JSON, candidate: JSON) {
    rule.JStr? && exists v :: v in Flatten(candidate) && v.JStr? && HasPrefix(v.s, rule.s)
  }

  predicate SuffixHolds(rule: JSON, candidate: JSON) {
    rule.JStr? && exists v :: v in Flatten(candidate) && v.JStr? && HasSuffix(v.s, rule.s)
  }

  predicate EqualsIgnoreCaseHolds(p: Platform, rule: JSON, candidate: JSON) {
    rule.JStr? && exists v :: v in Flatten(candidate) && v.JStr? && p.EqualFold(v.s, rule.s)
  }

  /** A wildcard filter read as the glob it is, with no mention of regular expressions. */
  ghost predicate WildcardHolds(rule: JSON, candidate: JSON) {
    rule.JStr? && exists v :: v in Flatten(candidate) && v.JStr? && Glob.GlobMatches(rule.s, v.s)
  }

  /** `evalWildcard` after a successful compile: some value matches the emitted expression. */
  predicate WildcardRegexpHolds(rule: JSON, candidate: JSON) {
    rule.JStr? && exists v :: v in Flatten(candidate) && v.JStr? && Glob.RegexpMatches(Glob.RegexpText(rule.s), v.s)
  }

  lemma WildcardIsGlob(rule: JSON, candidate: JSON)
    ensures WildcardRegexpHolds(rule, candidate) <==> WildcardHolds(rule, candidate)
  {
    if rule.JStr? {
      forall v | v in Flatten(candidate) && v.JStr?
        ensures Glob.RegexpMatches(Glob.RegexpText(rule.s), v.s) <==> Glob.GlobMatches(rule.s, v.s)
      {
        Glob.WildcardPreservesMeaning(rule.s, v.s);
      }
    }
  }

  predicate CidrHolds(p: Platform, rule: JSON, candidate: JSON) {
    rule.JStr? && p.validPrefix(rule.s) && exists v :: v in Flatten(candidate) && v.JStr? && p.contains(rule.s, v.s)
  }

  // ---- What a policy means ----------------------------------------------------------------

  /** The meaning of an `anything-but` operand; the error of a malformed nested operator counts as no match. */
  ghost predicate AnythingButHolds(p: Platform, rule: JSON, candidate: JSON) {
    match rule
    case JArr(items) => forall v :: v in items ==> !Contains(p, candidate, v)
    case JObj(m) =>
      if "prefix" in m then !PrefixHolds(m["prefix"], candidate)
      else if "suffix" in m then !SuffixHolds(m["suffix"], candidate)
      else if "equals-ignore-case" in m then !EqualsIgnoreCaseHolds(p, m["equals-ignore-case"], candidate)
      else if "wildcard" in m then !WildcardHolds(m["wildcard"], candidate)
      else if "cidr" in m then !CidrHolds(p, m["cidr"], candidate)
      else false
    case _ => !Contains(p, candidate, rule)
  }

  /** The meaning of one condition, on a value that may be missing (`present` is false, `candidate` null). */
  ghost predicate ConditionHolds(p: Platform, condition: JSON, candidate: JSON, present: bool) {
    match condition
    case JArr(_) => false
    case JObj(m) =>
      if "exists" in m then present == (m["exists"] == JBool(true))
      else if "anything-but" in m then AnythingButHolds(p, m["anything-but"], candidate)
      else if "prefix" in m then PrefixHolds(m["prefix"], candidate)
      else if "suffix" in m then SuffixHolds(m["suffix"], candidate)
      else if "equals-ignore-case" in m then EqualsIgnoreCaseHolds(p, m["equals-ignore-case"], candidate)
      else if "wildcard" in m then WildcardHolds(m["wildcard"], candidate)
      else if "cidr" in m then CidrHolds(p, m["cidr"], candidate)
      else if "numeric" in m then m["numeric"].JArr? && NumericHolds(p, m["numeric"].items, candidate)
      else false
    case _ => Contains(p, candidate, condition)
  }

  /** The value under a key, null if there is none. */
  function Child(candidate: map<string, JSON>, key: string): JSON {
    if key in candidate then candidate[key] else JNull
  }

  /** An object of conditions holds of an object when all its keys do. */
  ghost predicate Holds(p: Platform, policy: map<string, JSON>, candidate: map<string, JSON>)
    decreases JObj(policy), 1
  {
    forall k :: k in policy ==> KeyHolds(p, k, policy[k], candidate)
  }

  /** `$or` is an "exists", a nested object descends, an array is an "any of". */
  ghost predicate KeyHolds(p: Platform, key: string, value: JSON, candidate: map<string, JSON>)
    decreases value, 2
  {
    if key == "$or" then
      value.JArr? && |value.items| >= 2 &&
      exists v :: v in value.items && v.JObj? && Holds(p, v.members, candidate)
    else match value
      case JObj(m) => key in candidate && candidate[key].JObj? && Holds(p, m, candidate[key].members)
      case JArr(conditions) =>
        exists c :: c in conditions && ConditionHolds(p, c, Child(candidate, key), key in candidate)
      case _ => false
  }

  // ---- Validation ----------------------------------------------------------------------------

  const STRING_OPERATORS := ["prefix", "suffix", "equals-ignore-case", "wildcard", "cidr"]

  ghost predicate ValidStringOperator(m: map<string, JSON>) {
    exists k :: k in STRING_OPERATORS && k in m && m.Keys == {k} && m[k].JStr?
  }

  ghost predicate ValidOperator(m: map<string, JSON>) {
    || ValidStringOperator(m)
    || (m.Keys == {"anything-but"} &&
        var v := m["anything-but"]; Scalar(v) || v.JArr? || ValidStringOperator(v.members))
    || (m.Keys == {"numeric"} &&
        var v := m["numeric"]; v.JArr? && |v.items| >= 2 && |v.items| % 2 == 0)
    || (m.Keys == {"exists"} && m["exists"].JBool?)
  }

  ghost predicate ValidCondition(c: JSON) {
    Scalar(c) || (c.JObj? && ValidOperator(c.members))
  }

  ghost predicate ValidObject(policy: map<string, JSON>)
    decreases JObj(policy), 1
  {
    forall k :: k in policy ==> ValidKey(k, policy[k])
  }

  ghost predicate ValidKey(key: string, value: JSON)
    decreases value, 2
  {
    if key == "$or" then
      value.JArr? && |value.items| >= 2 && forall v :: v in value.items ==> v.JObj? && ValidObject(v.members)
    else
      || (value.JObj? && ValidObject(value.members))
      || (value.JArr? && forall c :: c in value.items ==> ValidCondition(c))
  }

  method ValidateOperator(operator: map<string, JSON>) returns (ok: bool)
    ensures ok <==> ValidOperator(operator)
    decreases JObj(operator)
  {
    if |operator| != 1 {
      return false;
    }
    var key :| key in operator;
    SingleKey(operator, key);
    var value := operator[key];
    if key == "anything-but" {
      match value
      case JArr(_) => return true;
      case JObj(nested) =>
        if |nested| != 1 {
          return false;
        }
        var inner :| inner in nested;
        SingleKey(nested, inner);
        if inner !in STRING_OPERATORS {
          return false;
        }
        ok := ValidateOperator(nested);
        return;
      case _ => return true;
    }
    if key in STRING_OPERATORS {
      return value.JStr?;
    }
    if key == "numeric" {
      return value.JArr? && |value.items| >= 2 && |value.items| % 2 == 0;
    }
    return key == "exists" && value.JBool?;
  }

  lemma SingleKey<V>(m: map<string, V>, key: string)
    requires |m| == 1 && key in m
    ensures m.Keys == {key}
  {
    assert |m.Keys - {key}| == 0;
  }

  method ValidateConditions(conditions: seq<JSON>) returns (ok: bool)
    ensures ok <==> forall c :: c in conditions ==> ValidCondition(c)
  {
    for i := 0 to |conditions|
      invariant forall k :: 0 <= k < i ==> ValidCondition(conditions[k])
    {
      if conditions[i].JObj? {
        ok := ValidateOperator(conditions[i].members);
      } else {
        ok := Scalar(conditions[i]);
      }
      if !ok {
        assert conditions[i] in conditions;
        return;
      }
    }
    return true;
  }

  /** `validateObject`: the verdict does not depend on the order in which the keys are walked. */
  method ValidateObject(policy: map<string, JSON>) returns (ok: bool)
    ensures ok <==> ValidObject(policy)
    decreases JObj(policy)
  {
    var rest := policy.Keys;
    while rest != {}
      invariant rest <= policy.Keys
      invariant forall k :: k in policy && k !in rest ==> ValidKey(k, policy[k])
    {
      var key :| key in rest;
      rest := rest - {key};
      var value := policy[key];
      if key == "$or" {
        if !value.JArr? || |value.items| < 2 {
          return false;
        }
        for i := 0 to |value.items|
          invariant forall k :: 0 <= k < i ==> value.items[k].JObj? && ValidObject(value.items[k].members)
        {
          if !value.items[i].JObj? {
            assert value.items[i] in value.items;
            return false;
          }
          ok := ValidateObject(value.items[i].members);
          if !ok {
            assert value.items[i] in value.items;
            return;
          }
        }
      } else if value.JObj? {
        ok := ValidateObject(value.members);
        if !ok { return; }
      } else if value.JArr? {
        ok := ValidateConditions(value.items);
        if !ok { return; }
      } else {
        return false;
      }
    }
    return true;
  }

  // ---- Operands the validator does not look at ------------------------------------------------

  /** Validation accepts any numeric operand and any `cidr` string; evaluation needs them to parse. */
  ghost predicate OperandsParse(p: Platform, c: JSON) {
    c.JObj? ==>
      && ("numeric" in c.members && c.members["numeric"].JArr? ==> NumericOperands(p, c.members["numeric"].items))
      && ("cidr" in c.members && c.members["cidr"].JStr? ==> p.validPrefix(c.members["cidr"].s))
  }

  /** Exactly when `evalCondition` fails on a value. */
  predicate ConditionFails(p: Platform, condition: JSON, candidate: JSON) {
    match condition
    case JObj(m) =>
      if "exists" in m || "anything-but" in m || "prefix" in m || "suffix" in m || "equals-ignore-case" in m then false
      else if "wildcard" in m then !m["wildcard"].JStr?
      else if "cidr" in m then !(m["cidr"].JStr? && p.validPrefix(m["cidr"].s))
      else if "numeric" in m then NumericFails(p, m["numeric"], candidate)
      else false
    case _ => false
  }

  /** Exactly when a list of conditions fails: one of them does, and none before it holds. */
  ghost predicate ListFails(p: Platform, conditions: seq<JSON>, candidate: JSON, present: bool) {
    exists k :: 0 <= k < |conditions| && ConditionFails(p, conditions[k], candidate)
      && forall i :: 0 <= i < k ==> !ConditionHolds(p, conditions[i], candidate, present)
  }

  /** In some order of the keys the evaluation of an object fails (`OrdersDecide`). */
  ghost predicate MayFail(p: Platform, policy: map<string, JSON>, candidate: map<string, JSON>)
    decreases JObj(policy), 1
  {
    exists k :: k in policy && KeyMayFail(p, k, policy[k], candidate)
  }

  ghost predicate KeyMayFail(p: Platform, key: string, value: JSON, candidate: map<string, JSON>)
    decreases value, 2
  {
    if key == "$or" then value.JArr? && |value.items| >= 2 && OrMayFail(p, value.items, 0, candidate)
    else match value
      case JObj(m) => key in candidate && candidate[key].JObj? && MayFail(p, m, candidate[key].members)
      case JArr(conditions) => ListFails(p, conditions, Child(candidate, key), key in candidate)
      case _ => true
  }

  ghost predicate OrMayFail(p: Platform, items: seq<JSON>, i: nat, candidate: map<string, JSON>)
    decreases JArr(items), 1
  {
    exists k :: i <= k < |items| && OrReaches(p, items, i, k, candidate)
      && (items[k].JObj? ==> MayFail(p, items[k].members, candidate))
  }

  /** Walking an `$or` from its i-th item on, no item before the k-th can end it with a match. */
  ghost predicate OrReaches(p: Platform, items: seq<JSON>, i: nat, k: nat, candidate: map<string, JSON>)
    requires i <= k < |items|
    decreases JArr(items), 0
  {
    forall j :: i <= j < k ==> items[j].JObj? && !Holds(p, items[j].members, candidate)
  }

  /**
   In every order of the keys it fails (`OrdersDecide`): some key does in any case, and no other key
   can come to a plain "no" first.
   */
  ghost predicate MustFail(p: Platform, policy: map<string, JSON>, candidate: map<string, JSON>)
    decreases JObj(policy), 1
  {
    && (exists k :: k in policy && KeyMustFail(p, k, policy[k], candidate))
    && (forall k :: k in policy ==> KeyMustFail(p, k, policy[k], candidate) || KeyHolds(p, k, policy[k], candidate))
  }

  ghost predicate KeyMustFail(p: Platform, key: string, value: JSON, candidate: map<string, JSON>)
    decreases value, 2
  {
    if key == "$or" then value.JArr? && |value.items| >= 2 && OrMustFail(p, value.items, 0, candidate)
    else match value
      case JObj(m) => key in candidate && candidate[key].JObj? && MustFail(p, m, candidate[key].members)
      case JArr(conditions) => ListFails(p, conditions, Child(candidate, key), key in candidate)
      case _ => true
  }

  ghost predicate OrMustFail(p: Platform, items: seq<JSON>, i: nat, candidate: map<string, JSON>)
    decreases JArr(items), 1
  {
    exists k :: i <= k < |items| && OrReaches(p, items, i, k, candidate)
      && (items[k].JObj? ==> MustFail(p, items[k].members, candidate))
  }

  ghost predicate AllOperandsParse(p: Platform, policy: map<string, JSON>)
    decreases JObj(policy), 1
  {
    forall k :: k in policy ==> KeyOperandsParse(p, k, policy[k])
  }

  ghost predicate KeyOperandsParse(p: Platform, key: string, value: JSON)
    decreases value, 2
  {
    match value
    case JObj(m) => AllOperandsParse(p, m)
    case JArr(items) =>
      forall v :: v in items ==>
        if key == "$or" then v.JObj? ==> AllOperandsParse(p, v.members) else OperandsParse(p, v)
    case _ => true
  }

  // ---- Every order ----------------------------------------------------------------------------

  /** What an evaluation can end in. */
  datatype Answer = Yes | No | Fails

  function AnswerOf(r: Result<bool, string>): Answer {
    if r.Err? then Fails else if r.value then Yes else No
  }

  /** `keys` is an enumeration of the policy's keys. */
  ghost predicate Enumerates(keys: seq<string>, policy: map<string, JSON>) {
    && (forall k :: k in keys <==> k in policy)
    && (forall i, j :: 0 <= i < j < |keys| ==> keys[i] != keys[j])
  }

  /** Some enumeration of the keys of the policy, and of every object inside it, ends in this answer. */
  ghost predicate Gives(p: Platform, policy: map<string, JSON>, candidate: map<string, JSON>, x: Answer)
    decreases JObj(policy), 2
  {
    exists keys :: Enumerates(keys, policy) && WalkGives(p, policy, keys, candidate, x)
  }

  /** The keys are walked in the given order, as far as the first that does not match. */
  ghost predicate WalkGives(p: Platform, policy: map<string, JSON>, keys: seq<string>, candidate: map<string, JSON>,
    x: Answer)
    requires forall k :: k in keys ==> k in policy
    decreases JObj(policy), 1, |keys|
  {
    if keys == [] then x == Yes
    else
      || (x != Yes && KeyGives(p, keys[0], policy[keys[0]], candidate, x))
      || (KeyGives(p, keys[0], policy[keys[0]], candidate, Yes) && WalkGives(p, policy, keys[1..], candidate, x))
  }

  ghost predicate KeyGives(p: Platform, key: string, value: JSON, candidate: map<string, JSON>, x: Answer)
    decreases value, 3
  {
    if key == "$or" then
      if value.JArr? && |value.items| >= 2 then OrGives(p, value.items, 0, candidate, x) else x == No
    else match value
      case JObj(m) =>
        if key in candidate && candidate[key].JObj? then Gives(p, m, candidate[key].members, x) else x == No
      case JArr(conditions) => x == ListAnswer(p, conditions, Child(candidate, key), key in candidate)
      case _ => x == Fails
  }

  /** The items of an `$or` from the i-th on, as far as the first that does not answer "no". */
  ghost predicate OrGives(p: Platform, items: seq<JSON>, i: nat, candidate: map<string, JSON>, x: Answer)
    requires i <= |items|
    decreases JArr(items), 2, |items| - i
  {
    if i == |items| then x == No
    else if !items[i].JObj? then x == Fails
    else
      || (x != No && Gives(p, items[i].members, candidate, x))
      || (Gives(p, items[i].members, candidate, No) && OrGives(p, items, i + 1, candidate, x))
  }

  /** A list of conditions has an order of its own, and so one answer (`EvalConditions`). */
  ghost function ListAnswer(p: Platform, conditions: seq<JSON>, candidate: JSON, present: bool): Answer {
    if ListFails(p, conditions, candidate, present) then Fails
    else if exists c :: c in conditions && ConditionHolds(p, c, candidate, present) then Yes
    else No
  }

  /** What an evaluation can end in, without any order. */
  ghost predicate Expects(holds: bool, mayFail: bool, mustFail: bool, x: Answer) {
    match x
    case Yes => holds && !mustFail
    case No => !holds && !mustFail
    case Fails => mayFail
  }

  ghost predicate Exact(p: Platform, policy: map<string, JSON>, candidate: map<string, JSON>, x: Answer) {
    Expects(Holds(p, policy, candidate), MayFail(p, policy, candidate), MustFail(p, policy, candidate), x)
  }

  ghost predicate KeyExact(p: Platform, key: string, value: JSON, candidate: map<string, JSON>, x: Answer) {
    Expects(KeyHolds(p, key, value, candidate), KeyMayFail(p, key, value, candidate),
      KeyMustFail(p, key, value, candidate), x)
  }

  /** The answers of some enumeration are exactly those that the predicates without an order allow. */
  lemma {:induction false} GivesExactly(p: Platform, policy: map<string, JSON>, candidate: map<string, JSON>)
    ensures forall x :: Gives(p, policy, candidate, x) <==> Exact(p, policy, candidate, x)
    ensures MustFail(p, policy, candidate) ==> MayFail(p, policy, candidate)
    decreases JObj(policy), 0
  {
    hide KeyGives, KeyHolds, KeyMayFail, KeyMustFail;
    forall k | k in policy
      ensures forall x :: KeyGives(p, k, policy[k], candidate, x) <==> KeyExact(p, k, policy[k], candidate, x)
      ensures KeyMustFail(p, k, policy[k], candidate) ==> KeyMayFail(p, k, policy[k], candidate)
    {
      KeyGivesExactly(p, k, policy[k], candidate);
    }
    forall x ensures Gives(p, policy, candidate, x) <==> Exact(p, policy, candidate, x) {
      ObjectGives(p, policy, candidate, x);
    }
  }

  /** An object gives "yes" if all its keys can, and another answer if one can, which may then come first. */
  lemma ObjectGives(p: Platform, policy: map<string, JSON>, candidate: map<string, JSON>, x: Answer)
    ensures Gives(p, policy, candidate, x) <==>
      if x == Yes then forall k :: k in policy ==> KeyGives(p, k, policy[k], candidate, Yes)
      else exists k :: k in policy && KeyGives(p, k, policy[k], candidate, x)
  {
    hide KeyGives;
    forall keys | Enumerates(keys, policy)
      ensures x == Yes ==> (WalkGives(p, policy, keys, candidate, Yes) <==>
        forall k :: k in policy ==> KeyGives(p, k, policy[k], candidate, Yes))
      ensures x != Yes && WalkGives(p, policy, keys, candidate, x) ==>
        exists k :: k in policy && KeyGives(p, k, policy[k], candidate, x)
    {
      WalkAll(p, policy, keys, candidate);
      if x != Yes {
        WalkSome(p, policy, keys, candidate, x);
      }
    }
    if x == Yes {
      var keys := SomeOrder(policy.Keys);
      assert Enumerates(keys, policy);
    } else if k :| k in policy && KeyGives(p, k, policy[k], candidate, x) {
      var rest := SomeOrder(policy.Keys - {k});
      assert Enumerates([k] + rest, policy);
      assert WalkGives(p, policy, [k] + rest, candidate, x);
    }
  }

  lemma {:induction false} WalkAll(p: Platform, policy: map<string, JSON>, keys: seq<string>,
    candidate: map<string, JSON>)
    requires forall k :: k in keys ==> k in policy
    ensures WalkGives(p, policy, keys, candidate, Yes) <==>
      forall k :: k in keys ==> KeyGives(p, k, policy[k], candidate, Yes)
  {
    hide KeyGives;
    if keys != [] {
      WalkAll(p, policy, keys[1..], candidate);
      assert forall k :: k in keys <==> k == keys[0] || k in keys[1..];
    }
  }

  lemma {:induction false} WalkSome(p: Platform, policy: map<string, JSON>, keys: seq<string>,
    candidate: map<string, JSON>, x: Answer)
    requires x != Yes && forall k :: k in keys ==> k in policy
    ensures WalkGives(p, policy, keys, candidate, x) ==>
      exists k :: k in keys && KeyGives(p, k, policy[k], candidate, x)
  {
    hide KeyGives;
    if keys != [] && WalkGives(p, policy, keys, candidate, x) && !KeyGives(p, keys[0], policy[keys[0]], candidate, x) {
      WalkSome(p, policy, keys[1..], candidate, x);
    }
  }

  /** A set has an enumeration. */
  lemma {:induction false} SomeOrder(s: set<string>) returns (keys: seq<string>)
    ensures forall k :: k in keys <==> k in s
    ensures forall i, j :: 0 <= i < j < |keys| ==> keys[i] != keys[j]
    decreases s
  {
    if s == {} {
      keys := [];
    } else {
      var k :| k in s;
      var rest := SomeOrder(s - {k});
      keys := [k] + rest;
    }
  }

  ghost predicate OrHolds(p: Platform, items: seq<JSON>, i: nat, candidate: map<string, JSON>) {
    exists k :: i <= k < |items| && items[k].JObj? && Holds(p, items[k].members, candidate)
  }

  /** What the i-th item of an `$or` contributes. */
  lemma OrStep(p: Platform, items: seq<JSON>, i: nat, candidate: map<string, JSON>)
    requires i < |items|
    ensures OrMayFail(p, items, i, candidate) <==>
      !items[i].JObj? || MayFail(p, items[i].members, candidate)
      || (!Holds(p, items[i].members, candidate) && OrMayFail(p, items, i + 1, candidate))
    ensures OrMustFail(p, items, i, candidate) <==>
      !items[i].JObj? || MustFail(p, items[i].members, candidate)
      || (!Holds(p, items[i].members, candidate) && OrMustFail(p, items, i + 1, candidate))
    ensures OrHolds(p, items, i, candidate) <==>
      (items[i].JObj? && Holds(p, items[i].members, candidate)) || OrHolds(p, items, i + 1, candidate)
  {
    hide Holds, MayFail, MustFail;
    assert OrReaches(p, items, i, i, candidate);
    forall k | i < k < |items|
      ensures OrReaches(p, items, i, k, candidate) <==>
        items[i].JObj? && !Holds(p, items[i].members, candidate) && OrReaches(p, items, i + 1, k, candidate)
    {
    }
  }

  lemma {:induction false} OrGivesExactly(p: Platform, items: seq<JSON>, i: nat, candidate: map<string, JSON>)
    requires i <= |items|
    ensures forall x :: OrGives(p, items, i, candidate, x) <==>
      Expects(OrHolds(p, items, i, candidate), OrMayFail(p, items, i, candidate), OrMustFail(p, items, i, candidate), x)
    ensures OrMustFail(p, items, i, candidate) ==> OrMayFail(p, items, i, candidate)
    decreases JArr(items), 0, |items| - i
  {
    hide Gives, Holds, MayFail, MustFail;
    if i < |items| {
      OrStep(p, items, i, candidate);
      OrGivesExactly(p, items, i + 1, candidate);
      if items[i].JObj? {
        GivesExactly(p, items[i].members, candidate);
      }
      hide OrHolds, OrMayFail, OrMustFail;
    }
  }

  lemma {:induction false} KeyGivesExactly(p: Platform, key: string, value: JSON, candidate: map<string, JSON>)
    ensures forall x :: KeyGives(p, key, value, candidate, x) <==> KeyExact(p, key, value, candidate, x)
    ensures KeyMustFail(p, key, value, candidate) ==> KeyMayFail(p, key, value, candidate)
    decreases value, 1
  {
    hide ListFails, ConditionHolds, Gives, MayFail, MustFail, OrGives, OrMayFail, OrMustFail;
    if key == "$or" {
      if value.JArr? && |value.items| >= 2 {
        OrGivesExactly(p, value.items, 0, candidate);
        assert KeyHolds(p, key, value, candidate) <==> OrHolds(p, value.items, 0, candidate);
      }
    } else if value.JObj? && key in candidate && candidate[key].JObj? {
      GivesExactly(p, value.members, candidate[key].members);
    }
  }

  ghost predicate FailsInEveryOrder(p: Platform, policy: map<string, JSON>, candidate: map<string, JSON>) {
    forall x :: Gives(p, policy, candidate, x) ==> x == Fails
  }

  ghost predicate OrderIsFree(p: Platform, policy: map<string, JSON>, candidate: map<string, JSON>) {
    forall x, y :: Gives(p, policy, candidate, x) && Gives(p, policy, candidate, y) ==> x == y
  }

  /**
   What the order of the keys decides: some order fails, every order fails, and all orders agree
   exactly under these conditions.
   */
  lemma OrdersDecide(p: Platform, policy: map<string, JSON>, candidate: map<string, JSON>)
    ensures Gives(p, policy, candidate, Fails) <==> MayFail(p, policy, candidate)
    ensures Gives(p, policy, candidate, Yes) <==> Holds(p, policy, candidate) && !MustFail(p, policy, candidate)
    ensures Gives(p, policy, candidate, No) <==> !Holds(p, policy, candidate) && !MustFail(p, policy, candidate)
    ensures FailsInEveryOrder(p, policy, candidate) <==> MustFail(p, policy, candidate)
    ensures OrderIsFree(p, policy, candidate) <==> !(MayFail(p, policy, candidate) && !MustFail(p, policy, candidate))
  {
    hide Gives, Holds, MayFail, MustFail;
    GivesExactly(p, policy, candidate);
    forall x | Gives(p, policy, candidate, x)
      ensures x == Fails || Gives(p, policy, candidate, Yes) || Gives(p, policy, candidate, No)
    {
    }
  }

  /** `{"$or": [{"a": [{"exists": true}], "b": [{"cidr": text}]}, {"c": [{"exists": true}]}]}`. */
  function EitherPolicy(text: string): map<string, JSON> {
    map["$or" := JArr([JObj(FirstItem(text)), JObj(map["c" := MustExist()])])]
  }

  function MustExist(): JSON { JArr([JObj(map["exists" := JBool(true)])]) }

  /** The list of conditions under "a" and "c": it holds exactly of a value that is there. */
  lemma MustExistAnswers(p: Platform, child: JSON, present: bool)
    ensures ListAnswer(p, MustExist().items, child, present) == if present then Yes else No
  {
    var conditions := MustExist().items;
    assert conditions[0] in conditions && conditions[0].members["exists"] == JBool(true);
    assert ConditionHolds(p, conditions[0], child, present) <==> present;
  }

  lemma MustBeInPrefixAnswers(p: Platform, text: string, child: JSON, present: bool)
    requires !p.validPrefix(text)
    ensures ListAnswer(p, [JObj(map["cidr" := JStr(text)])], child, present) == Fails
  {
    CidrFails(p, text, child);
    assert ConditionFails(p, [JObj(map["cidr" := JStr(text)])][0], child);
  }

  function FirstItem(text: string): map<string, JSON> {
    map["a" := MustExist(), "b" := JArr([JObj(map["cidr" := JStr(text)])])]
  }

  lemma FirstItemGives(p: Platform, text: string, c: JSON)
    requires !p.validPrefix(text)
    ensures Gives(p, FirstItem(text), map["c" := c], No) && Gives(p, FirstItem(text), map["c" := c], Fails)
  {
    hide Gives, ListAnswer, MustExist;
    var policy, candidate := FirstItem(text), map["c" := c];
    MustExistAnswers(p, JNull, false);
    MustBeInPrefixAnswers(p, text, JNull, false);
    assert "a"[0] == 'a' && "b"[0] == 'b' && "c"[0] == 'c' && "$or"[0] == '$';
    assert MustExist().JArr? by { MustExistIsList(); }
    assert KeyGives(p, "a", policy["a"], candidate, No);
    assert KeyGives(p, "b", policy["b"], candidate, Fails);
    ObjectGives(p, policy, candidate, No);
    ObjectGives(p, policy, candidate, Fails);
  }

  lemma MustExistIsList()
    ensures MustExist().JArr?
  {
  }

  lemma SecondItemGives(p: Platform, c: JSON)
    ensures Gives(p, map["c" := MustExist()], map["c" := c], Yes)
  {
    hide Gives, ListAnswer;
    var policy, candidate := map["c" := MustExist()], map["c" := c];
    MustExistAnswers(p, c, true);
    assert "c"[0] == 'c' && "$or"[0] == '$';
    ObjectGives(p, policy, candidate, Yes);
  }

  lemma MustExistIsValid(key: string)
    requires key != "$or"
    ensures ValidKey(key, MustExist())
  {
    assert ValidOperator(map["exists" := JBool(true)]);
  }

  lemma MustBeInPrefixIsValid(key: string, text: string)
    requires key != "$or"
    ensures ValidKey(key, JArr([JObj(map["cidr" := JStr(text)])]))
  {
    assert STRING_OPERATORS[4] == "cidr" && map["cidr" := JStr(text)].Keys == {"cidr"};
    assert ValidOperator(map["cidr" := JStr(text)]);
  }

  lemma EitherPolicyIsValid(text: string)
    ensures ValidObject(EitherPolicy(text))
  {
    hide ValidKey, MustExist;
    assert "a"[0] == 'a' && "b"[0] == 'b' && "c"[0] == 'c' && "$or"[0] == '$';
    MustExistIsValid("a");
    MustExistIsValid("c");
    MustBeInPrefixIsValid("b", text);
    assert ValidObject(FirstItem(text));
    assert ValidObject(map["c" := MustExist()]);
    EitherIsValid(text);
  }

  lemma EitherIsValid(text: string)
    requires ValidObject(FirstItem(text)) && ValidObject(map["c" := MustExist()])
    ensures ValidObject(EitherPolicy(text))
  {
    hide FirstItem, MustExist;
    var items := [JObj(FirstItem(text)), JObj(map["c" := MustExist()])];
    assert forall v :: v in items ==> v == items[0] || v == items[1];
    assert ValidKey("$or", JArr(items)) by {
      hide ValidObject;
    }
  }

  /**
   A policy that passes validation, and a message with the key "c" alone: it matches if "a" is
   walked before "b", and fails otherwise.
   */
  lemma OrderCanDecideDelivery(p: Platform, text: string, c: JSON)
    requires !p.validPrefix(text)
    ensures ValidObject(EitherPolicy(text))
    ensures Gives(p, EitherPolicy(text), map["c" := c], Yes) && Gives(p, EitherPolicy(text), map["c" := c], Fails)
  {
    hide Gives, ValidObject, MustExist, FirstItem;
    EitherPolicyIsValid(text);
    var policy, candidate := EitherPolicy(text), map["c" := c];
    var items := policy["$or"].items;
    FirstItemGives(p, text, c);
    SecondItemGives(p, c);
    assert OrGives(p, items, 1, candidate, Yes);
    assert OrGives(p, items, 0, candidate, Yes) && OrGives(p, items, 0, candidate, Fails);
    ObjectGives(p, policy, candidate, Yes);
    ObjectGives(p, policy, candidate, Fails);
  }

  // ---- Evaluation --------------------------------------------------------------------------------

  /** `evalCondition`: a reply without an error is the condition's meaning. */
  method EvalCondition(p: Platform, condition: JSON, candidate: JSON, present: bool) returns (r: Result<bool, string>)
    ensures r.Ok? ==> r.value == ConditionHolds(p, condition, candidate, present)
    ensures r.Err? <==> ConditionFails(p, condition, candidate)
  {
    match condition
    case JArr(_) => return Ok(false);
    case JObj(m) =>
      if "exists" in m { return Ok(present == (m["exists"] == JBool(true))); }
      if "anything-but" in m {
        var b := EvalAnythingBut(p, m["anything-but"], candidate);
        return Ok(b);
      }
      if "prefix" in m { return Ok(PrefixHolds(m["prefix"], candidate)); }
      if "suffix" in m { return Ok(SuffixHolds(m["suffix"], candidate)); }
      if "equals-ignore-case" in m { return Ok(EqualsIgnoreCaseHolds(p, m["equals-ignore-case"], candidate)); }
      if "wildcard" in m {
        if !m["wildcard"].JStr? { return Err("wildcard must be a string"); }
        WildcardIsGlob(m["wildcard"], candidate);
        return Ok(WildcardRegexpHolds(m["wildcard"], candidate));
      }
      if "cidr" in m {
        if !m["cidr"].JStr? { return Err("cidr must be a string"); }
        if !p.validPrefix(m["cidr"].s) { return Err("invalid prefix"); }
        return Ok(CidrHolds(p, m["cidr"], candidate));
      }
      if "numeric" in m {
        r := EvalNumeric(p, m["numeric"], candidate);
        return;
      }
      return Ok(false);
    case _ => return Ok(Contains(p, candidate, condition));
  }

  /** A validated condition whose operands can be read never fails. */
  lemma ReadableConditionSucceeds(p: Platform, condition: JSON, candidate: JSON)
    requires ValidCondition(condition) && OperandsParse(p, condition)
    ensures !ConditionFails(p, condition, candidate)
  {
    hide NumericFails;
    if condition.JObj? && "numeric" in condition.members && condition.members["numeric"].JArr? {
      var rule := condition.members["numeric"];
      if |rule.items| % 2 == 0 {
        assert rule == JArr(rule.items);
        ReadableOperandsSuffice(p, rule.items, candidate);
      }
    }
  }

  /** Nor does a validated policy, in any order of its keys. */
  lemma {:induction false} ReadablePolicySucceeds(p: Platform, policy: map<string, JSON>, candidate: map<string, JSON>)
    requires ValidObject(policy) && AllOperandsParse(p, policy)
    ensures !MayFail(p, policy, candidate)
    decreases JObj(policy), 1
  {
    forall k | k in policy ensures !KeyMayFail(p, k, policy[k], candidate) {
      assert ValidKey(k, policy[k]) && KeyOperandsParse(p, k, policy[k]);
      ReadableKeySucceeds(p, k, policy[k], candidate);
    }
  }

  lemma {:induction false} ReadableKeySucceeds(p: Platform, key: string, value: JSON, candidate: map<string, JSON>)
    requires ValidKey(key, value) && KeyOperandsParse(p, key, value)
    ensures !KeyMayFail(p, key, value, candidate)
    decreases value, 2
  {
    hide ValidCondition, OperandsParse, ConditionFails, ConditionHolds, OrReaches;
    match value
    case JObj(m) =>
      if key != "$or" && key in candidate && candidate[key].JObj? {
        ReadablePolicySucceeds(p, m, candidate[key].members);
      }
    case JArr(items) =>
      forall i | 0 <= i < |items|
        ensures key == "$or" ==> items[i].JObj? && !MayFail(p, items[i].members, candidate)
        ensures key != "$or" ==> forall child :: !ConditionFails(p, items[i], child)
      {
        assert items[i] in items;
        if key == "$or" {
          ReadablePolicySucceeds(p, items[i].members, candidate);
        } else {
          forall child ensures !ConditionFails(p, items[i], child) {
            ReadableConditionSucceeds(p, items[i], child);
          }
        }
      }
    case _ =>
  }

  method EvalAnythingBut(p: Platform, rule: JSON, candidate: JSON) returns (b: bool)
    ensures b <==> AnythingButHolds(p, rule, candidate)
  {
    match rule
    case JArr(items) =>
      for i := 0 to |items|
        invariant forall k :: 0 <= k < i ==> !Contains(p, candidate, items[k])
      {
        if Contains(p, candidate, items[i]) {
          assert items[i] in items;
          return false;
        }
      }
      return true;
    case JObj(m) =>
      if "prefix" in m { return !PrefixHolds(m["prefix"], candidate); }
      if "suffix" in m { return !SuffixHolds(m["suffix"], candidate); }
      if "equals-ignore-case" in m { return !EqualsIgnoreCaseHolds(p, m["equals-ignore-case"], candidate); }
      if "wildcard" in m {
        WildcardIsGlob(m["wildcard"], candidate);
        return !WildcardRegexpHolds(m["wildcard"], candidate);
      }
      if "cidr" in m { return !CidrHolds(p, m["cidr"], candidate); }
      return false;
    case _ => return !Contains(p, candidate, rule);
  }

  method EvalConditions(p: Platform, conditions: seq<JSON>, candidate: JSON, present: bool)
    returns (r: Result<bool, string>)
    ensures r.Ok? ==> (r.value <==> exists c :: c in conditions && ConditionHolds(p, c, candidate, present))
    ensures r.Err? <==> ListFails(p, conditions, candidate, present)
  {
    hide ConditionHolds, ConditionFails;
    for i := 0 to |conditions|
      invariant forall k :: 0 <= k < i ==>
        !ConditionHolds(p, conditions[k], candidate, present) && !ConditionFails(p, conditions[k], candidate)
    {
      r := EvalCondition(p, conditions[i], candidate, present);
      if r.Err? || r.value {
        assert conditions[i] in conditions;
        return;
      }
    }
    return Ok(false);
  }

  /** `evalOR`: the items are tried in array order, stopping at the first match or error. */
  method EvalOr(p: Platform, raw: JSON, candidate: map<string, JSON>) returns (r: Result<bool, string>)
    ensures KeyGives(p, "$or", raw, candidate, AnswerOf(r))
    decreases raw, 0
  {
    hide Gives;
    if !raw.JArr? || |raw.items| < 2 {
      return Ok(false);
    }
    for i := 0 to |raw.items|
      invariant forall x :: OrGives(p, raw.items, i, candidate, x) ==> OrGives(p, raw.items, 0, candidate, x)
    {
      var item := raw.items[i];
      if !item.JObj? {
        return Err("invalid $or item");
      }
      r := EvalObject(p, item.members, candidate);
      if r.Err? || r.value {
        return;
      }
    }
    return Ok(false);
  }

  /**
   `evalObject` walks the policy's keys in an arbitrary order. For every policy, validated or
   not, the reply is that of some enumeration of its keys and of those of every object inside it. A
   reply without an error is the declarative meaning, whatever the order.
   */
  method EvalObject(p: Platform, policy: map<string, JSON>, candidate: map<string, JSON>)
    returns (r: Result<bool, string>)
    ensures Gives(p, policy, candidate, AnswerOf(r))
    ensures r.Ok? ==> (r.value <==> Holds(p, policy, candidate))
    ensures r.Err? ==> MayFail(p, policy, candidate)
    ensures MustFail(p, policy, candidate) ==> r.Err?
    decreases JObj(policy), 0
  {
    hide ListFails, ConditionHolds, Gives, Holds, MayFail, MustFail, KeyMayFail, KeyMustFail, KeyHolds;
    GivesExactly(p, policy, candidate);
    var rest := policy.Keys;
    while rest != {}
      invariant rest <= policy.Keys
      invariant forall k :: k in policy && k !in rest ==> KeyGives(p, k, policy[k], candidate, Yes)
    {
      var key :| key in rest;
      rest := rest - {key};
      r := EvalKey(p, key, policy[key], candidate);
      if r.Err? || !r.value {
        ObjectGives(p, policy, candidate, AnswerOf(r));
        return;
      }
    }
    ObjectGives(p, policy, candidate, Yes);
    return Ok(true);
  }

  /** One turn of the loop. */
  method EvalKey(p: Platform, key: string, value: JSON, candidate: map<string, JSON>) returns (r: Result<bool, string>)
    ensures KeyGives(p, key, value, candidate, AnswerOf(r))
    decreases value, 1
  {
    hide ListFails, ConditionHolds, Gives;
    if key == "$or" {
      r := EvalOr(p, value, candidate);
      return;
    }
    var child := Child(candidate, key);
    match value
    case JObj(m) =>
      if !child.JObj? {
        return Ok(false);
      }
      r := EvalObject(p, m, child.members);
    case JArr(conditions) =>
      r := EvalConditions(p, conditions, child, key in candidate);
    case _ =>
      return Err("invalid filter policy shape");
  }

  // ---- Validation does not rule errors out ----------------------------------------------------------

  function Policy(key: string, operator: string, operand: JSON): map<string, JSON> {
    map[key := JArr([JObj(map[operator := operand])])]
  }

  /**
   Policies that pass validation and fail at evaluation, in every order: a `cidr` operand that is no
   prefix fails on any value, a `numeric` operand that is no number fails on a number.
   */
  lemma ValidatedPoliciesCanFail(p: Platform, key: string, text: string, n: real, candidate: map<string, JSON>)
    requires key != "$or" && !p.validPrefix(text) && p.parseFloat(text).None?
    ensures var policy := Policy(key, "cidr", JStr(text)); ValidObject(policy) && MustFail(p, policy, candidate)
    ensures var policy := Policy(key, "numeric", JArr([JStr(">"), JStr(text)]));
      ValidObject(policy) && MustFail(p, policy, map[key := JNum(n)])
  {
    hide ConditionFails, ValidOperator, ValidObject, MustFail;
    CidrFails(p, text, Child(candidate, key));
    OneConditionFails(p, key, "cidr", JStr(text), candidate);
    NumericMeetsText(p, text, n);
    OneConditionFails(p, key, "numeric", JArr([JStr(">"), JStr(text)]), map[key := JNum(n)]);
  }

  lemma CidrFails(p: Platform, text: string, child: JSON)
    requires !p.validPrefix(text)
    ensures ValidOperator(map["cidr" := JStr(text)]) && ConditionFails(p, JObj(map["cidr" := JStr(text)]), child)
  {
    assert STRING_OPERATORS[4] == "cidr" && map["cidr" := JStr(text)].Keys == {"cidr"};
  }

  lemma NumericMeetsText(p: Platform, text: string, n: real)
    requires p.parseFloat(text).None?
    ensures var operator := map["numeric" := JArr([JStr(">"), JStr(text)])];
      ValidOperator(operator) && ConditionFails(p, JObj(operator), JNum(n))
  {
    var clauses := [JStr(">"), JStr(text)];
    assert Flatten(JNum(n))[0] == JNum(n) && Number(p, JNum(n));
    assert BadOperandAt(p, clauses, 0, n);
    assert NumericFails(p, JArr(clauses), JNum(n));
  }

  lemma OneConditionFails(p: Platform, key: string, operator: string, operand: JSON, candidate: map<string, JSON>)
    requires key != "$or" && ValidOperator(map[operator := operand])
    requires ConditionFails(p, JObj(map[operator := operand]), Child(candidate, key))
    ensures ValidObject(Policy(key, operator, operand)) && MustFail(p, Policy(key, operator, operand), candidate)
  {
    hide ValidOperator, ConditionFails;
    var policy := Policy(key, operator, operand);
    var conditions := policy[key].items;
    assert conditions[0] == JObj(map[operator := operand]);
    assert ListFails(p, conditions, Child(candidate, key), key in candidate);
    assert KeyMustFail(p, key, policy[key], candidate);
  }

  // ---- Entry points ---------------------------------------------------------------------------------

  datatype MessageAttribute = MessageAttribute(dataType: string, stringValue: string, binaryValue: string)

  function AttributeText(a: MessageAttribute): string {
    if a.stringValue != "" then a.stringValue else a.binaryValue
  }

  /** The candidate value of one message attribute; a number that does not parse is left out. */
  function AttributeValue(p: Platform, a: MessageAttribute): Option<JSON> {
    if a.dataType == "String" then Some(JStr(a.stringValue))
    else if a.dataType == "String.Array" then
      match p.decode(a.stringValue) {
        case Some(JArr(items)) => Some(JArr(items))
        case Some(JNull) => Some(JArr([]))
        case _ => Some(JArr([JStr(a.stringValue)]))
      }
    else if a.dataType == "Number" then
      var n := p.parseFloat(a.stringValue);
      if n.Some? then Some(JNum(n.value)) else None
    else Some(JStr(AttributeText(a)))
  }

  function AttributeMeaning(p: Platform, attrs: map<string, MessageAttribute>): map<string, JSON> {
    map k | k in attrs && AttributeValue(p, attrs[k]).Some? :: AttributeValue(p, attrs[k]).value
  }

  method AttributeRoot(p: Platform, attrs: map<string, MessageAttribute>) returns (out: map<string, JSON>)
    ensures out == AttributeMeaning(p, attrs)
  {
    out := map[];
    var rest := attrs.Keys;
    while rest != {}
      invariant rest <= attrs.Keys
      invariant out == AttributeMeaning(p, map k | k in attrs && k !in rest :: attrs[k])
    {
      var key :| key in rest;
      rest := rest - {key};
      var v := AttributeValue(p, attrs[key]);
      if v.Some? {
        out := out[key := v.value];
      }
    }
    assert attrs == map k | k in attrs && k !in rest :: attrs[k];
  }

  const MESSAGE_ATTRIBUTES := "MessageAttributes"
  const MESSAGE_BODY := "MessageBody"

  /** What the policy is compared with: the message's attributes, or its body if that is an object. */
  function Root(p: Platform, scope: string, message: string, attrs: map<string, MessageAttribute>):
    Result<map<string, JSON>, Answer>
  {
    if p.trim(scope) == "" || scope == MESSAGE_ATTRIBUTES then Ok(AttributeMeaning(p, attrs))
    else if scope != MESSAGE_BODY then Err(Fails)
    else
      match p.decode(message)
      case Some(JObj(body)) => Ok(body)
      case _ => Err(No)
  }

  /** Which messages a subscription's filter lets through. */
  ghost predicate Selects(p: Platform, policy: Text<map<string, JSON>>, scope: string, message: string,
    attrs: map<string, MessageAttribute>)
  {
    match policy
    case Blank => true
    case Malformed => false
    case Parsed(policy) =>
      var root := Root(p, scope, message, attrs);
      root.Ok? && Holds(p, policy, root.value)
  }

  /** Some order of the policy's keys ends in this answer. */
  ghost predicate CanAnswer(p: Platform, policy: Text<map<string, JSON>>, scope: string, message: string,
    attrs: map<string, MessageAttribute>, x: Answer)
  {
    match policy
    case Blank => x == Yes
    case Malformed => x == Fails
    case Parsed(policy) =>
      match Root(p, scope, message, attrs)
      case Ok(root) => Gives(p, policy, root, x)
      case Err(answer) => x == answer
  }

  ghost predicate SelectionMayFail(p: Platform, policy: Text<map<string, JSON>>, scope: string, message: string,
    attrs: map<string, MessageAttribute>)
  {
    match policy
    case Blank => false
    case Malformed => true
    case Parsed(policy) =>
      match Root(p, scope, message, attrs)
      case Ok(root) => MayFail(p, policy, root)
      case Err(answer) => answer == Fails
  }

  ghost predicate SelectionMustFail(p: Platform, policy: Text<map<string, JSON>>, scope: string, message: string,
    attrs: map<string, MessageAttribute>)
  {
    match policy
    case Blank => false
    case Malformed => true
    case Parsed(policy) =>
      match Root(p, scope, message, attrs)
      case Ok(root) => MustFail(p, policy, root)
      case Err(answer) => answer == Fails
  }

  /** The possible answers for a subscription's filter, without any order. */
  lemma SelectionDecides(p: Platform, policy: Text<map<string, JSON>>, scope: string, message: string,
    attrs: map<string, MessageAttribute>)
    ensures forall x :: CanAnswer(p, policy, scope, message, attrs, x) <==>
      Expects(Selects(p, policy, scope, message, attrs), SelectionMayFail(p, policy, scope, message, attrs),
        SelectionMustFail(p, policy, scope, message, attrs), x)
    ensures SelectionMustFail(p, policy, scope, message, attrs) ==> SelectionMayFail(p, policy, scope, message, attrs)
  {
    hide Gives, Holds, MayFail, MustFail, AttributeMeaning;
    var root := Root(p, scope, message, attrs);
    if policy.Parsed? && root.Ok? {
      GivesExactly(p, policy.value, root.value);
    }
  }

  ghost predicate WellFormed(p: Platform, policy: Text<map<string, JSON>>) {
    !policy.Malformed? && (policy.Parsed? ==> ValidObject(policy.value) && AllOperandsParse(p, policy.value))
  }

  /** A validated policy with readable operands never fails in a known scope. */
  lemma WellFormedNeverFails(p: Platform, policy: Text<map<string, JSON>>, scope: string, message: string,
    attrs: map<string, MessageAttribute>)
    requires WellFormed(p, policy) && scope in {MESSAGE_ATTRIBUTES, MESSAGE_BODY}
    ensures !SelectionMayFail(p, policy, scope, message, attrs)
  {
    hide ValidObject, AllOperandsParse, MayFail, AttributeMeaning;
    var root := Root(p, scope, message, attrs);
    if policy.Parsed? && root.Ok? {
      ReadablePolicySucceeds(p, policy.value, root.value);
    }
  }

  method Matches(p: Platform, policy: Text<map<string, JSON>>, scope: string, message: string,
    attrs: map<string, MessageAttribute>) returns (r: Result<bool, string>)
    ensures CanAnswer(p, policy, scope, message, attrs, AnswerOf(r))
    ensures r.Ok? ==> (r.value <==> Selects(p, policy, scope, message, attrs))
    ensures r.Err? ==> SelectionMayFail(p, policy, scope, message, attrs)
    ensures SelectionMustFail(p, policy, scope, message, attrs) ==> r.Err?
    ensures WellFormed(p, policy) && scope in {MESSAGE_ATTRIBUTES, MESSAGE_BODY} ==> r.Ok?
  {
    hide Gives, Holds, MayFail, MustFail, AttributeMeaning, WellFormed;
    if WellFormed(p, policy) && scope in {MESSAGE_ATTRIBUTES, MESSAGE_BODY} {
      WellFormedNeverFails(p, policy, scope, message, attrs);
    }
    match policy
    case Blank => return Ok(true);
    case Malformed => return Err("invalid JSON");
    case Parsed(policy) =>
      var actual := if p.trim(scope) == "" then MESSAGE_ATTRIBUTES else scope;
      if actual == MESSAGE_ATTRIBUTES {
        var root := AttributeRoot(p, attrs);
        r := EvalObject(p, policy, root);
        return;
      }
      if actual == MESSAGE_BODY {
        var body := p.decode(message);
        if body.None? || !body.value.JObj? {
          return Ok(false);
        }
        r := EvalObject(p, policy, body.value.members);
        return;
      }
      return Err("unsupported filter scope");
  }

  method Validate(policy: Text<map<string, JSON>>) returns (ok: bool)
    ensures ok <==> policy.Blank? || (policy.Parsed? && ValidObject(policy.value))
  {
    match policy
    case Blank => return true;
    case Malformed => return false;
    case Parsed(policy) => ok := ValidateObject(policy);
  }
}
