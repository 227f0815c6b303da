/**
 What filter policies answer (internal/filter/filter.go), told from the policy and the message:
 each operator in a policy of one condition, and how conditions, keys, nested objects and `$or`
 combine. "Answers" means that every order of the keys ends so.
 */
module FilterOperators {
  import opened Common
  import opened Json
  import opened Filter
  import Glob

  type Object = map<string, JSON>

  /** Whatever the order of the keys, this is the answer. */
  ghost predicate Answers(p: Platform, policy: Object, candidate: Object, x: Answer) {
    forall y :: Gives(p, policy, candidate, y) <==> y == x
  }

  function YesIf(b: bool): Answer { if b then Yes else No }

  /** The values under a key: the elements of an array, any other value itself, a null if there is none. */
  function Values(candidate: Object, key: string): seq<JSON> {
    if key !in candidate then [JNull]
    else if candidate[key].JArr? then candidate[key].items
    else [candidate[key]]
  }

  // ---- Policies of one list of conditions --------------------------------------------------------------------

  lemma OneKey(p: Platform, key: string, value: JSON, candidate: Object, x: Answer)
    ensures Gives(p, map[key := value], candidate, x) <==> KeyGives(p, key, value, candidate, x)
  {
    hide Gives, KeyGives;
    var policy := map[key := value];
    ObjectGives(p, policy, candidate, x);
    assert key in policy && policy[key] == value;
    assert forall k :: k in policy ==> k == key;
  }

  lemma OneList(p: Platform, key: string, conditions: seq<JSON>, candidate: Object)
    requires key != "$or"
    ensures Answers(p, map[key := JArr(conditions)], candidate,
      ListAnswer(p, conditions, Child(candidate, key), key in candidate))
  {
    hide Gives, ListAnswer, Child;
    var answer := ListAnswer(p, conditions, Child(candidate, key), key in candidate);
    forall y ensures Gives(p, map[key := JArr(conditions)], candidate, y) <==> y == answer {
      OneKey(p, key, JArr(conditions), candidate, y);
    }
  }

  lemma OneCondition(p: Platform, key: string, condition: JSON, candidate: Object)
    requires key != "$or"
    ensures Answers(p, map[key := JArr([condition])], candidate,
      if ConditionFails(p, condition, Child(candidate, key)) then Fails
      else YesIf(ConditionHolds(p, condition, Child(candidate, key), key in candidate)))
  {
    hide Answers, ConditionFails, ConditionHolds, Child;
    OneList(p, key, [condition], candidate);
    var conditions, child := [condition], Child(candidate, key);
    assert conditions[0] == condition;
    assert ListFails(p, conditions, child, key in candidate) <==> ConditionFails(p, condition, child);
    assert (exists c :: c in conditions && ConditionHolds(p, c, child, key in candidate)) <==>
      ConditionHolds(p, condition, child, key in candidate);
  }

  lemma ValuesAreFlat(candidate: Object, key: string)
    ensures Flatten(Child(candidate, key)) == Values(candidate, key)
  {
  }

  // ---- Operators -----------------------------------------------------------------------------------------------

  /** `exists` looks at the key alone; an operand other than `true` asks for it to be missing. */
  lemma ExistsAnswers(p: Platform, key: string, operand: JSON, candidate: Object)
    requires key != "$or"
    ensures Answers(p, Policy(key, "exists", operand), candidate, YesIf(key in candidate <==> operand == JBool(true)))
  {
    hide Answers;
    OneCondition(p, key, JObj(map["exists" := operand]), candidate);
  }

  predicate Close(a: real, b: real) { a - b < 0.000000001 && b - a < 0.000000001 }

  /** A number, or a string that reads as one. */
  function AsNumber(p: Platform, v: JSON): Option<real> {
    if v.JNum? then Some(v.n) else if v.JStr? then p.parseFloat(v.s) else None
  }

  /** A number is compared as a number, anything else by how it prints. */
  predicate Alike(p: Platform, v: JSON, expected: JSON) {
    if v.JNum? then AsNumber(p, expected).Some? && Close(v.n, AsNumber(p, expected).value)
    else p.sprint(v) == p.sprint(expected)
  }

  predicate AnyAlike(p: Platform, candidate: Object, key: string, expected: JSON) {
    exists v :: v in Values(candidate, key) && Alike(p, v, expected)
  }

  lemma ContainsIsAlike(p: Platform, candidate: Object, key: string, expected: JSON)
    ensures Contains(p, Child(candidate, key), expected) <==> AnyAlike(p, candidate, key, expected)
  {
    ValuesAreFlat(candidate, key);
    forall v ensures Equal(p, v, expected) <==> Alike(p, v, expected) {
    }
  }

  /** A plain value: some value under the key is like it. */
  lemma ScalarAnswers(p: Platform, key: string, expected: JSON, candidate: Object)
    requires key != "$or" && (expected.JStr? || expected.JNum? || expected.JBool? || expected.JNull?)
    ensures Answers(p, map[key := JArr([expected])], candidate, YesIf(AnyAlike(p, candidate, key, expected)))
  {
    hide Answers, Contains, AnyAlike;
    OneCondition(p, key, expected, candidate);
    ContainsIsAlike(p, candidate, key, expected);
  }

  /** `anything-but` with a plain value or a list of values: no value under the key is like any of them. */
  lemma AnythingButAnswers(p: Platform, key: string, expected: JSON, list: seq<JSON>, candidate: Object)
    requires key != "$or" && !expected.JArr? && !expected.JObj?
    ensures Answers(p, Policy(key, "anything-but", expected), candidate, YesIf(!AnyAlike(p, candidate, key, expected)))
    ensures Answers(p, Policy(key, "anything-but", JArr(list)), candidate,
      YesIf(forall e :: e in list ==> !AnyAlike(p, candidate, key, e)))
  {
    hide Answers, Contains, AnyAlike;
    assert "anything-but"[0] != "exists"[0];
    OneCondition(p, key, JObj(map["anything-but" := expected]), candidate);
    OneCondition(p, key, JObj(map["anything-but" := JArr(list)]), candidate);
    ContainsIsAlike(p, candidate, key, expected);
    forall e ensures Contains(p, Child(candidate, key), e) <==> AnyAlike(p, candidate, key, e) {
      ContainsIsAlike(p, candidate, key, e);
    }
  }

  /** What the operators on strings ask of one string. */
  ghost predicate Passes(p: Platform, operator: string, text: string, s: string) {
    match operator
    case "prefix" => text <= s
    case "suffix" => exists head: string :: s == head + text
    case "equals-ignore-case" => p.fold(s) == p.fold(text)
    case "wildcard" => Glob.GlobMatches(text, s)
    case "cidr" => p.validPrefix(text) && p.contains(text, s)
    case _ => false
  }

  ghost predicate AnyPasses(p: Platform, operator: string, text: string, candidate: Object, key: string) {
    exists v :: v in Values(candidate, key) && v.JStr? && Passes(p, operator, text, v.s)
  }

  lemma SuffixIsTail(s: string, text: string)
    ensures HasSuffix(s, text) <==> exists head: string :: s == head + text
  {
    if HasSuffix(s, text) {
      assert s == s[..|s| - |text|] + text;
    }
  }

  /** The meaning of the five operators in the terms of `Passes`. */
  lemma OperatorIsTest(p: Platform, operator: string, text: string, candidate: Object, key: string)
    ensures var passes, child := AnyPasses(p, operator, text, candidate, key), Child(candidate, key);
      match operator
      case "prefix" => passes <==> PrefixHolds(JStr(text), child)
      case "suffix" => passes <==> SuffixHolds(JStr(text), child)
      case "equals-ignore-case" => passes <==> EqualsIgnoreCaseHolds(p, JStr(text), child)
      case "wildcard" => passes <==> WildcardHolds(JStr(text), child)
      case "cidr" => passes <==> CidrHolds(p, JStr(text), child)
      case _ => !passes
  {
    hide Glob.GlobMatches, HasSuffix;
    ValuesAreFlat(candidate, key);
    forall v: string ensures HasSuffix(v, text) <==> exists head: string :: v == head + text {
      SuffixIsTail(v, text);
    }
  }

  /** No two names of operators are the same. */
  lemma NamesDiffer()
    ensures "exists" !in STRING_OPERATORS && "anything-but" !in STRING_OPERATORS && "numeric" !in STRING_OPERATORS
    ensures forall i, j :: 0 <= i < j < 5 ==> STRING_OPERATORS[i] != STRING_OPERATORS[j]
  {
    assert "prefix"[0] == 'p' && "suffix"[0] == 's' && "equals-ignore-case"[0] == 'e' && "wildcard"[0] == 'w';
    assert "cidr"[0] == 'c' && "exists"[0] == 'e' && "anything-but"[0] == 'a' && "numeric"[0] == 'n';
  }

  /**
   An operator on strings: some string under the key passes. A `cidr` operand that is no prefix fails
   on anything.
   */
  lemma StringOperatorAnswers(p: Platform, key: string, operator: string, text: string, candidate: Object)
    requires key != "$or" && operator in ["prefix", "suffix", "equals-ignore-case", "wildcard", "cidr"]
    ensures Answers(p, Policy(key, operator, JStr(text)), candidate,
      if operator == "cidr" && !p.validPrefix(text) then Fails
      else YesIf(AnyPasses(p, operator, text, candidate, key)))
  {
    hide Answers, PrefixHolds, SuffixHolds, EqualsIgnoreCaseHolds, WildcardHolds, CidrHolds, AnyPasses, Child;
    NamesDiffer();
    OneCondition(p, key, JObj(map[operator := JStr(text)]), candidate);
    OperatorIsTest(p, operator, text, candidate, key);
  }

  /** The same operator under `anything-but`: no string passes. A `cidr` operand that is no prefix passes none. */
  lemma AnythingButOperatorAnswers(p: Platform, key: string, operator: string, text: string, candidate: Object)
    requires key != "$or" && operator in ["prefix", "suffix", "equals-ignore-case", "wildcard", "cidr"]
    ensures Answers(p, Policy(key, "anything-but", JObj(map[operator := JStr(text)])), candidate,
      YesIf(!AnyPasses(p, operator, text, candidate, key)))
  {
    hide Answers, PrefixHolds, SuffixHolds, EqualsIgnoreCaseHolds, WildcardHolds, CidrHolds, AnyPasses, Child;
    NamesDiffer();
    assert "anything-but"[0] != "exists"[0];
    OneCondition(p, key, JObj(map["anything-but" := JObj(map[operator := JStr(text)])]), candidate);
    OperatorIsTest(p, operator, text, candidate, key);
  }

  /**
   An operand that is no string, which validation refuses: the first three operators match nothing, the
   other two fail, and under `anything-but` all of them let everything through.
   */
  lemma NonStringAnswers(p: Platform, key: string, operator: string, operand: JSON, candidate: Object)
    requires key != "$or" && operator in ["prefix", "suffix", "equals-ignore-case", "wildcard", "cidr"]
    requires !operand.JStr?
    ensures Answers(p, Policy(key, operator, operand), candidate, if operator in ["wildcard", "cidr"] then Fails
      else No)
    ensures Answers(p, Policy(key, "anything-but", JObj(map[operator := operand])), candidate, Yes)
  {
    hide Answers, Child;
    NamesDiffer();
    assert "anything-but"[0] != "exists"[0];
    OneCondition(p, key, JObj(map[operator := operand]), candidate);
    OneCondition(p, key, JObj(map["anything-but" := JObj(map[operator := operand])]), candidate);
  }

  /** How a glob is read, a character at a time. */
  lemma GlobReads(c: char, pattern: string, s: string)
    ensures Glob.GlobMatches("", s) <==> s == ""
    ensures Glob.GlobMatches([c] + pattern, s) <==>
      match c
      case '*' => exists k: nat :: k <= |s| && '\n' !in s[..k] && Glob.GlobMatches(pattern, s[k..])
      case '?' => s != "" && s[0] != '\n' && Glob.GlobMatches(pattern, s[1..])
      case _ => s != "" && s[0] == c && Glob.GlobMatches(pattern, s[1..])
  {
    hide Glob.GlobMatches;
    assert ([c] + pattern)[1..] == pattern;
    GlobIsAtoms("", s);
    GlobIsAtoms([c] + pattern, s);
    forall k: nat | k <= |s| ensures Glob.GlobMatches(pattern, s[k..]) <==> Glob.Accepts(Glob.Atoms(pattern), s[k..]) {
      GlobIsAtoms(pattern, s[k..]);
    }
    assert Glob.Atoms([c] + pattern)[1..] == Glob.Atoms(pattern);
  }

  lemma GlobIsAtoms(pattern: string, s: string)
    ensures Glob.GlobMatches(pattern, s) <==> Glob.Accepts(Glob.Atoms(pattern), s)
  {
    if Glob.Accepts(Glob.Atoms(pattern), s) {
      var _ := Glob.AcceptsGivesCut(pattern, s);
    }
    if pieces :| Glob.Cuts(pattern, s, pieces) {
      Glob.CutGivesAccepts(pattern, s, pieces);
    }
  }

  // ---- Numbers -------------------------------------------------------------------------------------------------

  /** The five comparisons; nothing compares by any other name. */
  predicate Compares(value: real, comparison: string, n: real) {
    match comparison
    case "=" => Close(value, n)
    case ">" => value > n
    case ">=" => value >= n
    case "<" => value < n
    case "<=" => value <= n
    case _ => false
  }

  /** A comparison and its operand. */
  datatype Pair = Pair(comparison: string, operand: JSON)

  /** `[comparison, operand, comparison, operand, ..]`. */
  function Clauses(pairs: seq<Pair>): seq<JSON> {
    if pairs == [] then []
    else
      var last := pairs[|pairs| - 1];
      Clauses(pairs[..|pairs| - 1]) + [JStr(last.comparison), last.operand]
  }

  lemma {:induction false} ClausesAt(pairs: seq<Pair>)
    ensures |Clauses(pairs)| == 2 * |pairs|
    ensures forall k: nat :: k < |pairs| ==>
      Clauses(pairs)[2 * k] == JStr(pairs[k].comparison) && Clauses(pairs)[2 * k + 1] == pairs[k].operand
  {
    if pairs != [] {
      ClausesAt(pairs[..|pairs| - 1]);
    }
  }

  predicate Readable(p: Platform, pairs: seq<Pair>) {
    forall k :: 0 <= k < |pairs| ==> AsNumber(p, pairs[k].operand).Some?
  }

  predicate ComparesAll(p: Platform, pairs: seq<Pair>, value: real)
    requires Readable(p, pairs)
  {
    forall k :: 0 <= k < |pairs| ==> Compares(value, pairs[k].comparison, AsNumber(p, pairs[k].operand).value)
  }

  /** A number, or a string that reads as one, for which all the comparisons hold. */
  predicate PassesAll(p: Platform, pairs: seq<Pair>, v: JSON)
    requires Readable(p, pairs)
  {
    AsNumber(p, v).Some? && ComparesAll(p, pairs, AsNumber(p, v).value)
  }

  /** `numeric`, with operands that read as numbers: all comparisons hold of one number under the key. */
  lemma NumericAnswers(p: Platform, key: string, pairs: seq<Pair>, candidate: Object)
    requires key != "$or" && Readable(p, pairs)
    ensures Answers(p, Policy(key, "numeric", JArr(Clauses(pairs))), candidate,
      YesIf(exists v :: v in Values(candidate, key) && PassesAll(p, pairs, v)))
  {
    hide Answers, NumericFails, NumericHolds, Child, Values, PassesAll, Readable;
    var clauses, child := Clauses(pairs), Child(candidate, key);
    assert "numeric"[0] == 'n' && "exists"[0] == 'e' && "anything-but"[0] == 'a' && "prefix"[0] == 'p';
    assert "suffix"[0] == 's' && "equals-ignore-case"[0] == 'e' && "wildcard"[0] == 'w' && "cidr"[0] == 'c';
    OneCondition(p, key, JObj(map["numeric" := JArr(clauses)]), candidate);
    ClausesRead(p, pairs);
    ReadableOperandsSuffice(p, clauses, child);
    ValuesAreFlat(candidate, key);
    NumericIsComparison(p, pairs, child);
  }

  lemma ClausesRead(p: Platform, pairs: seq<Pair>)
    requires Readable(p, pairs)
    ensures |Clauses(pairs)| % 2 == 0 && NumericOperands(p, Clauses(pairs))
  {
    ClausesAt(pairs);
    forall k: nat | k < |Clauses(pairs)| / 2 ensures ToFloat(p, Clauses(pairs)[2 * k + 1]).Some? {
      assert AsNumber(p, pairs[k].operand).Some?;
    }
  }

  lemma NumericIsComparison(p: Platform, pairs: seq<Pair>, child: JSON)
    requires Readable(p, pairs)
    ensures NumericHolds(p, Clauses(pairs), child) <==> exists v :: v in Flatten(child) && PassesAll(p, pairs, v)
  {
    hide ClausesHold, ComparesAll, Readable;
    forall v | ToFloat(p, v).Some?
      ensures ClausesHold(p, Clauses(pairs), ToFloat(p, v).value) <==> PassesAll(p, pairs, v)
    {
      ClausesCompare(p, pairs, ToFloat(p, v).value);
    }
  }

  lemma ClausesCompare(p: Platform, pairs: seq<Pair>, value: real)
    requires Readable(p, pairs)
    ensures ClausesHold(p, Clauses(pairs), value) <==> ComparesAll(p, pairs, value)
  {
    hide Compares, CompareNumeric, Clauses;
    var clauses := Clauses(pairs);
    ClausesAt(pairs);
    forall k: nat | k < |pairs|
      ensures ClauseHolds(p, clauses, k, value) <==>
        Compares(value, pairs[k].comparison, AsNumber(p, pairs[k].operand).value)
    {
      OneComparison(value, pairs[k].comparison, AsNumber(p, pairs[k].operand).value);
    }
  }

  lemma OneComparison(value: real, comparison: string, n: real)
    ensures CompareNumeric(value, JStr(comparison), n) <==> Compares(value, comparison, n)
  {
  }

  // ---- Combinations --------------------------------------------------------------------------------------------

  /** The i-th condition, taken alone, is the first that does not answer "no"; beyond the last, all of them do. */
  ghost predicate ListDecides(p: Platform, key: string, conditions: seq<JSON>, candidate: Object, i: nat, x: Answer)
    requires i <= |conditions|
  {
    && (forall k :: 0 <= k < i ==> Gives(p, map[key := JArr([conditions[k]])], candidate, No))
    && if i == |conditions| then x == No else x != No && Gives(p, map[key := JArr([conditions[i]])], candidate, x)
  }

  /** A list of conditions answers what the first of them answers that does not answer "no". */
  lemma ListAnswers(p: Platform, key: string, conditions: seq<JSON>, candidate: Object, x: Answer)
    requires key != "$or"
    ensures Gives(p, map[key := JArr(conditions)], candidate, x) <==>
      exists i: nat :: i <= |conditions| && ListDecides(p, key, conditions, candidate, i, x)
  {
    hide Gives, ListAnswer, Single;
    var child, present := Child(candidate, key), key in candidate;
    OneList(p, key, conditions, candidate);
    forall k | 0 <= k < |conditions|
      ensures Answers(p, map[key := JArr([conditions[k]])], candidate, Single(p, conditions[k], child, present))
    {
      SingleAnswers(p, key, conditions[k], candidate);
    }
    var i := FirstOfList(p, conditions, child, present);
    assert ListDecides(p, key, conditions, candidate, i, ListAnswer(p, conditions, child, present));
    forall j: nat | j <= |conditions| && ListDecides(p, key, conditions, candidate, j, x)
      ensures x == ListAnswer(p, conditions, child, present)
    {
      assert !(i < j) && !(j < i);
    }
  }

  ghost function Single(p: Platform, condition: JSON, child: JSON, present: bool): Answer {
    if ConditionFails(p, condition, child) then Fails else YesIf(ConditionHolds(p, condition, child, present))
  }

  lemma SingleAnswers(p: Platform, key: string, condition: JSON, candidate: Object)
    requires key != "$or"
    ensures Answers(p, map[key := JArr([condition])], candidate,
      Single(p, condition, Child(candidate, key), key in candidate))
  {
    hide Answers, ConditionFails, ConditionHolds;
    OneCondition(p, key, condition, candidate);
  }

  lemma FirstOfList(p: Platform, conditions: seq<JSON>, child: JSON, present: bool) returns (i: nat)
    ensures i <= |conditions| && forall k :: 0 <= k < i ==> Single(p, conditions[k], child, present) == No
    ensures i < |conditions| ==> Single(p, conditions[i], child, present) != No
    ensures ListAnswer(p, conditions, child, present) ==
      if i < |conditions| then Single(p, conditions[i], child, present) else No
  {
    hide ConditionFails, ConditionHolds;
    i := 0;
    while i < |conditions| && Single(p, conditions[i], child, present) == No
      invariant i <= |conditions| && forall k :: 0 <= k < i ==> Single(p, conditions[k], child, present) == No
    {
      i := i + 1;
    }
    if i < |conditions| {
      assert conditions[i] in conditions;
    }
  }

  /** An object answers "yes" when each key, taken alone, can, and any other answer that one of its keys can give. */
  lemma KeysCombine(p: Platform, policy: Object, candidate: Object, x: Answer)
    ensures Gives(p, policy, candidate, x) <==>
      if x == Yes then forall k :: k in policy ==> Gives(p, map[k := policy[k]], candidate, Yes)
      else exists k :: k in policy && Gives(p, map[k := policy[k]], candidate, x)
  {
    hide Gives, KeyGives;
    ObjectGives(p, policy, candidate, x);
    forall k | k in policy ensures Gives(p, map[k := policy[k]], candidate, x) <==>
      KeyGives(p, k, policy[k], candidate, x) {
      OneKey(p, k, policy[k], candidate, x);
    }
  }

  /** A nested object is compared with the object under its key, and matches nothing else. */
  lemma NestedAnswers(p: Platform, key: string, nested: Object, candidate: Object, x: Answer)
    requires key != "$or"
    ensures Gives(p, map[key := JObj(nested)], candidate, x) <==>
      if key in candidate && candidate[key].JObj? then Gives(p, nested, candidate[key].members, x) else x == No
  {
    hide Gives;
    OneKey(p, key, JObj(nested), candidate, x);
  }

  /** A key that holds neither an object nor a list fails. */
  lemma OddKeyFails(p: Platform, key: string, value: JSON, candidate: Object)
    requires key != "$or" && !value.JObj? && !value.JArr?
    ensures Answers(p, map[key := value], candidate, Fails)
  {
    hide Gives;
    forall x ensures Gives(p, map[key := value], candidate, x) <==> x == Fails {
      OneKey(p, key, value, candidate, x);
    }
  }

  /** `$or` over fewer than two objects matches nothing. */
  lemma ShortOrAnswers(p: Platform, value: JSON, candidate: Object)
    requires !value.JArr? || |value.items| < 2
    ensures Answers(p, map["$or" := value], candidate, No)
  {
    hide Gives;
    forall x ensures Gives(p, map["$or" := value], candidate, x) <==> x == No {
      OneKey(p, "$or", value, candidate, x);
    }
  }

  /** The i-th item is the first from `start` on that does not answer "no"; beyond the last, all of them do. */
  ghost predicate OrDecides(p: Platform, items: seq<JSON>, candidate: Object, start: nat, i: nat, x: Answer)
    requires i <= |items|
  {
    && start <= i
    && (forall k :: start <= k < i ==> items[k].JObj? && Gives(p, items[k].members, candidate, No))
    && if i == |items| then x == No
       else if items[i].JObj? then x != No && Gives(p, items[i].members, candidate, x)
       else x == Fails
  }

  /** `$or` answers what the first of its objects answers that does not answer "no"; an item that is no object fails. */
  lemma OrAnswers(p: Platform, items: seq<JSON>, candidate: Object, x: Answer)
    requires |items| >= 2
    ensures Gives(p, map["$or" := JArr(items)], candidate, x) <==>
      exists i: nat :: i <= |items| && OrDecides(p, items, candidate, 0, i, x)
  {
    hide Gives, OrGives, OrDecides;
    OneKey(p, "$or", JArr(items), candidate, x);
    OrFrom(p, items, candidate, 0, x);
  }

  lemma {:induction false} OrFrom(p: Platform, items: seq<JSON>, candidate: Object, start: nat, x: Answer)
    requires start <= |items|
    ensures OrGives(p, items, start, candidate, x) <==>
      exists i: nat :: i <= |items| && OrDecides(p, items, candidate, start, i, x)
    decreases |items| - start
  {
    hide Gives;
    if start == |items| {
      assert x == No ==> OrDecides(p, items, candidate, start, start, x);
    } else {
      OrFrom(p, items, candidate, start + 1, x);
      if OrGives(p, items, start, candidate, x) && !OrDecides(p, items, candidate, start, start, x) {
        var i: nat :| i <= |items| && OrDecides(p, items, candidate, start + 1, i, x);
        assert OrDecides(p, items, candidate, start, i, x);
      }
      if i: nat :| i <= |items| && OrDecides(p, items, candidate, start, i, x) {
        assert start < i ==> OrDecides(p, items, candidate, start + 1, i, x);
      }
    }
  }

  /** A condition that is a list, or an object without any operator, matches nothing. */
  lemma NoOperatorAnswers(p: Platform, key: string, condition: JSON, candidate: Object)
    requires key != "$or" && (condition.JArr? || (condition.JObj? && condition.members == map[]))
    ensures Answers(p, map[key := JArr([condition])], candidate, No)
  {
    hide Answers;
    OneCondition(p, key, condition, candidate);
  }

  /** `numeric` without a list of pairs fails on anything. */
  lemma OddNumericFails(p: Platform, key: string, operand: JSON, candidate: Object)
    requires key != "$or" && (!operand.JArr? || |operand.items| % 2 == 1)
    ensures Answers(p, Policy(key, "numeric", operand), candidate, Fails)
  {
    hide Answers, Child;
    assert "numeric"[0] == 'n' && "exists"[0] == 'e' && "anything-but"[0] == 'a' && "prefix"[0] == 'p';
    assert "suffix"[0] == 's' && "equals-ignore-case"[0] == 'e' && "wildcard"[0] == 'w' && "cidr"[0] == 'c';
    OneCondition(p, key, JObj(map["numeric" := operand]), candidate);
  }

  // ---- What is compared ----------------------------------------------------------------------------------------

  /**
   No policy lets everything through, and one that does not decode fails. A policy is compared with the
   message attributes, or with the message if that is an object; in no other scope can it be evaluated.
   */
  lemma ScopeAnswers(p: Platform, policy: Object, scope: string, message: string, attrs: map<string, MessageAttribute>,
    x: Answer)
    ensures CanAnswer(p, Blank, scope, message, attrs, x) <==> x == Yes
    ensures CanAnswer(p, Malformed, scope, message, attrs, x) <==> x == Fails
    ensures scope == "MessageAttributes" || p.trim(scope) == "" ==>
      (CanAnswer(p, Parsed(policy), scope, message, attrs, x) <==>
        Gives(p, policy, AttributeMeaning(p, attrs), x))
    ensures scope == "MessageBody" && p.trim(scope) != "" ==>
      (CanAnswer(p, Parsed(policy), scope, message, attrs, x) <==>
        var body := p.decode(message);
        if body.Some? && body.value.JObj? then Gives(p, policy, body.value.members, x) else x == No)
    ensures scope !in {"MessageAttributes", "MessageBody"} && p.trim(scope) != "" ==>
      (CanAnswer(p, Parsed(policy), scope, message, attrs, x) <==> x == Fails)
  {
    hide Gives, AttributeMeaning;
    assert "MessageAttributes"[7] == 'A' && "MessageBody"[7] == 'B';
  }

  /** The elements of an array; a text that decodes to none is its own only element. */
  function Elements(p: Platform, text: string): seq<JSON> {
    var decoded := p.decode(text);
    if decoded.Some? && decoded.value.JArr? then decoded.value.items
    else if decoded == Some(JNull) then []
    else [JStr(text)]
  }

  function ReadAs(p: Platform, a: MessageAttribute): seq<JSON> {
    if a.dataType == "String" then [JStr(a.stringValue)]
    else if a.dataType == "Number" then
      if p.parseFloat(a.stringValue).Some? then [JNum(p.parseFloat(a.stringValue).value)] else [JNull]
    else if a.dataType == "String.Array" then Elements(p, a.stringValue)
    else [JStr(if a.stringValue != "" then a.stringValue else a.binaryValue)]
  }

  /** An attribute is there for the policy unless it is a number that cannot be read; its values go by its type. */
  lemma AttributeIsRead(p: Platform, attrs: map<string, MessageAttribute>, key: string)
    requires key in attrs
    ensures var a, root := attrs[key], AttributeMeaning(p, attrs);
      && (key in root <==> (a.dataType == "Number" ==> p.parseFloat(a.stringValue).Some?))
      && Values(root, key) == ReadAs(p, a)
  {
    assert "String"[0] == 'S' && "Number"[0] == 'N';
    assert |"String"| == 6 && |"String.Array"| == 12;
  }

  // ---- Validation ----------------------------------------------------------------------------------------------

  /** Which operands validation lets an operator have. */
  predicate Accepted(operator: string, operand: JSON) {
    match operator
    case "exists" => operand.JBool?
    case "numeric" => operand.JArr? && |operand.items| >= 2 && |operand.items| % 2 == 0
    case "anything-but" => operand.JObj? ==>
      exists k :: k in operand.members && operand.members == map[k := operand.members[k]]
        && k in ["prefix", "suffix", "equals-ignore-case", "wildcard", "cidr"] && operand.members[k].JStr?
    case _ => operator in ["prefix", "suffix", "equals-ignore-case", "wildcard", "cidr"] && operand.JStr?
  }

  /** A condition is a plain value, or one operator with an operand that it may have. */
  predicate AcceptedCondition(c: JSON) {
    if c.JObj? then
      exists k :: k in c.members && c.members == map[k := c.members[k]] && Accepted(k, c.members[k])
    else !c.JArr?
  }

  lemma OneOperator(m: Object, k: string)
    requires k in m && m == map[k := m[k]]
    ensures ValidStringOperator(m) <==> k in STRING_OPERATORS && m[k].JStr?
    ensures ValidOperator(m) <==> Accepted(k, m[k])
  {
    NamesDiffer();
    assert m.Keys == {k};
    forall i | i in m ensures i == k {
      assert i in m.Keys;
    }
  }

  lemma SoleKey(m: Object, k: string)
    requires k in m && m.Keys == {k}
    ensures m == map[k := m[k]]
  {
    assert forall i :: i in m <==> i in m.Keys;
  }

  lemma AcceptedExactly(c: JSON)
    ensures ValidCondition(c) <==> AcceptedCondition(c)
  {
    hide Accepted;
    if c.JObj? {
      if k :| k in c.members && c.members.Keys == {k} {
        SoleKey(c.members, k);
        OneOperator(c.members, k);
      }
      if k :| k in c.members && c.members == map[k := c.members[k]] {
        OneOperator(c.members, k);
      }
    }
  }

  /**
   Validation, key by key: conditions that are acceptable, an object that is valid, or under `$or` at
   least two valid objects.
   */
  lemma ValidExactly(policy: Object, key: string, value: JSON)
    ensures ValidObject(policy) <==> forall k :: k in policy ==> ValidObject(map[k := policy[k]])
    ensures ValidObject(map[key := value]) <==>
      if key == "$or" then
        value.JArr? && |value.items| >= 2 && forall v :: v in value.items ==> v.JObj? && ValidObject(v.members)
      else if value.JArr? then forall c :: c in value.items ==> AcceptedCondition(c)
      else value.JObj? && ValidObject(value.members)
  {
    hide ValidCondition, AcceptedCondition, ValidObject;
    forall c ensures ValidCondition(c) <==> AcceptedCondition(c) {
      AcceptedExactly(c);
    }
    ValidIfKeysAre(policy);
    forall k | k in policy ensures ValidObject(map[k := policy[k]]) <==> ValidKey(k, policy[k]) {
      OneKeyIsValid(k, policy[k]);
    }
    OneKeyIsValid(key, value);
  }

  lemma ValidIfKeysAre(policy: Object)
    ensures ValidObject(policy) <==> forall k :: k in policy ==> ValidKey(k, policy[k])
  {
    hide ValidKey;
  }

  lemma OneKeyIsValid(key: string, value: JSON)
    ensures ValidObject(map[key := value]) <==> ValidKey(key, value)
  {
    hide ValidKey;
    var policy := map[key := value];
    assert key in policy && policy[key] == value;
    assert forall k :: k in policy ==> k == key;
  }
}
