/**
 What one statement does to the decisions of an access policy (internal/policy/policy.go), told from
 its text and the request. With the last lemma of the first part, and that of the empty policy, the
 decision can be read off any policy whose principals decode, a statement at a time.
 */
module AccessDecisions {
  import opened Common
  import opened Json
  import opened AccessPolicy

  /** The item is a star, or the value itself, or the same up to case. */
  predicate Covers(p: Platform, item: string, value: string) {
    item == "*" || item == value || p.fold(item) == p.fold(value)
  }

  /** A string that covers the value, or a list of strings one of which does. */
  predicate Names(p: Platform, v: JSON, value: string) {
    match v
    case JStr(s) => Covers(p, s, value)
    case JArr(items) =>
      (forall i :: i in items ==> i.JStr?) && exists i :: i in items && i.JStr? && Covers(p, i.s, value)
    case _ => false
  }

  /** An action or a resource: the same, where a null stands for the empty string. */
  predicate Lists(p: Platform, raw: Option<JSON>, value: string) {
    match raw
    case None => false
    case Some(JNull) => Covers(p, "", value)
    case Some(JArr(items)) =>
      && (forall i :: i in items ==> i.JStr? || i.JNull?)
      && exists i :: i in items && Covers(p, if i.JStr? then i.s else "", value)
    case Some(v) => Names(p, v, value)
  }

  /** No principal is everybody; a string is a star or an account; an object lists accounts or services. */
  predicate IsFor(p: Platform, principal: Option<JSON>, account: string, service: string) {
    match principal
    case None => true
    case Some(JStr(s)) => s == "*" || s == account || s == service
    case Some(JNull) => account == "" || service == ""
    case Some(JObj(m)) =>
      ("AWS" in m && Names(p, m["AWS"], account)) || ("Service" in m && Names(p, m["Service"], service))
    case _ => false
  }

  predicate HasStrings(v: JSON) { v.JStr? || (v.JArr? && forall i :: i in v.items ==> i.JStr?) }

  /** The values of an object's two entries are strings or lists of strings. */
  predicate Decodes(principal: Option<JSON>) {
    principal.Some? && principal.value.JObj? ==>
      forall k :: k in principal.value.members && k in {"AWS", "Service"} ==> HasStrings(principal.value.members[k])
  }

  /** Every entry under the two known operators covers the request's value, an absent one being empty. */
  predicate Fits(p: Platform, conditions: map<string, map<string, JSON>>, context: map<string, string>) {
    forall operator, key ::
      operator in {"StringEquals", "ArnEquals"} && operator in conditions && key in conditions[operator] ==>
        Names(p, conditions[operator][key], if key in context then context[key] else "")
  }

  predicate Speaks(p: Platform, st: Statement, req: Request) {
    && Lists(p, st.action, req.action) && Lists(p, st.resource, req.resource)
    && IsFor(p, st.principal, req.principal, req.servicePrincipal) && Fits(p, st.condition, req.context)
  }

  // ---- One statement -----------------------------------------------------------------------------------------

  lemma AnyMatches(p: Platform, items: seq<string>, value: string)
    ensures MatchesAny(p, items, value) <==> exists s :: s in items && Covers(p, s, value)
  {
    if s :| s in items && Covers(p, s, value) {
      var i :| 0 <= i < |items| && items[i] == s;
      assert Matches1(p, items[i], value);
    }
    if i :| 0 <= i < |items| && Matches1(p, items[i], value) {
      assert items[i] in items && Covers(p, items[i], value);
    }
  }

  lemma NamesIsList(p: Platform, v: JSON, value: string)
    ensures Names(p, v, value) <==> AnyToStrings(v).Some? && MatchesAny(p, AnyToStrings(v).value, value)
  {
    var strings := AnyToStrings(v);
    if strings.Some? {
      AnyMatches(p, strings.value, value);
      if v.JArr? {
        ItemsCover(p, v.items, strings.value, value);
      }
    }
  }

  /** Some item covers the value exactly when its text does. */
  lemma ItemsCover(p: Platform, items: seq<JSON>, strings: seq<string>, value: string)
    requires |strings| == |items| && forall i :: 0 <= i < |items| ==> strings[i] == StringOf(items[i])
    ensures (exists s :: s in strings && Covers(p, s, value)) <==>
      exists i :: i in items && Covers(p, StringOf(i), value)
  {
    hide Covers, StringOf;
    if s :| s in strings && Covers(p, s, value) {
      var i :| 0 <= i < |strings| && strings[i] == s;
      assert items[i] in items;
    }
    if v :| v in items && Covers(p, StringOf(v), value) {
      var i :| 0 <= i < |items| && items[i] == v;
      assert strings[i] in strings;
    }
  }

  lemma ListsIsList(p: Platform, raw: Option<JSON>, value: string)
    ensures Lists(p, raw, value) <==> ListHolds(p, raw, value)
  {
    hide Covers;
    var strings := ParseStringList(raw);
    if strings.Some? {
      AnyMatches(p, strings.value, value);
      if raw.value.JArr? {
        ItemsCover(p, raw.value.items, strings.value, value);
      }
    }
  }

  lemma HasStringsExactly(v: JSON)
    ensures HasStrings(v) <==> AnyToStrings(v).Some?
  {
  }

  lemma IsForExactly(p: Platform, principal: Option<JSON>, req: Request)
    ensures IsFor(p, principal, req.principal, req.servicePrincipal) <==>
      (principal.Some? ==> PrincipalHolds(p, principal.value, req))
    ensures Decodes(principal) <==> WellFormedPrincipal(req, principal)
  {
    hide Names, MatchesAny;
    if principal.Some? && principal.value.JObj? {
      var m := principal.value.members;
      assert "AWS"[0] == 'A' && "Service"[0] == 'S';
      forall k | k in m && k in {"AWS", "Service"}
        ensures GoodEntry(p, m, req, k) <==> Names(p, m[k], if k == "AWS" then req.principal else req.servicePrincipal)
      {
        NamesIsList(p, m[k], Wanted(req, k).value);
      }
      hide HasStrings, AnyToStrings;
      forall k
        ensures BadEntry(m, req, k) <==> k in m && k in {"AWS", "Service"} && !HasStrings(m[k])
      {
        if k in m {
          HasStringsExactly(m[k]);
        }
      }
    }
  }

  lemma FitsExactly(p: Platform, conditions: map<string, map<string, JSON>>, req: Request)
    ensures Fits(p, conditions, req.context) <==> ConditionsHold(p, conditions, req)
  {
    hide Names, MatchesAny;
    forall operator, key | operator in conditions && key in conditions[operator]
      ensures Names(p, conditions[operator][key], if key in req.context then req.context[key] else "") <==>
        EntryHolds(p, conditions[operator][key], ContextValue(req, key))
    {
      NamesIsList(p, conditions[operator][key], ContextValue(req, key));
    }
    hide EntryHolds;
    if ConditionsHold(p, conditions, req) {
      forall operator, key | operator in {"StringEquals", "ArnEquals"} && operator in conditions
          && key in conditions[operator]
        ensures Names(p, conditions[operator][key], if key in req.context then req.context[key] else "")
      {
      }
    } else {
      var operator, key :| operator in conditions && operator in {"StringEquals", "ArnEquals"}
        && key in conditions[operator] && !EntryHolds(p, conditions[operator][key], ContextValue(req, key));
      assert !Names(p, conditions[operator][key], if key in req.context then req.context[key] else "");
    }
  }

  /** The statement matches exactly the requests it speaks of. */
  lemma SpeaksExactly(p: Platform, st: Statement, req: Request)
    ensures Decodes(st.principal) ==> forall b :: StatementGives(p, st, req, b) <==> b == Speaks(p, st, req)
  {
    hide Lists, IsFor, Fits, Decodes, ListHolds, PrincipalHolds, ConditionsHold, StatementGives, WellFormedPrincipal;
    ListsIsList(p, st.action, req.action);
    ListsIsList(p, st.resource, req.resource);
    IsForExactly(p, st.principal, req);
    FitsExactly(p, st.condition, req);
    StatementGivesSome(p, st, req);
  }

  /** Every choice of orders ends in this answer. */
  ghost predicate Decides(p: Platform, statements: seq<Statement>, req: Request, owner: string, x: bool) {
    forall y :: EvaluationGives(p, Document("", statements), req, owner, y) <==> y == x
  }

  ghost predicate SameDecisions(p: Platform, a: seq<Statement>, b: seq<Statement>, req: Request, owner: string,
    owner': string)
  {
    forall y :: EvaluationGives(p, Document("", a), req, owner, y) <==>
      EvaluationGives(p, Document("", b), req, owner', y)
  }

  /** The effect is compared up to case. */
  predicate HasEffect(p: Platform, st: Statement, effect: string) { p.fold(st.effect) == p.fold(effect) }

  /**
   Wherever it stands in the policy, a Deny refuses every request it speaks of; an Allow gives it what
   the owner would get from the other statements; and a statement with any other effect, or that does not speak of
   the request, makes no difference to it.
   */
  lemma StatementDecides(p: Platform, before: seq<Statement>, st: Statement, after: seq<Statement>, req: Request,
    owner: string)
    requires Decodes(st.principal) && p.fold("Allow") != p.fold("Deny")
    ensures Speaks(p, st, req) && HasEffect(p, st, "Deny") ==> Decides(p, before + [st] + after, req, owner, false)
    ensures Speaks(p, st, req) && HasEffect(p, st, "Allow") ==>
      SameDecisions(p, before + [st] + after, before + after, req, owner, req.principal)
    ensures !Speaks(p, st, req) || !(HasEffect(p, st, "Deny") || HasEffect(p, st, "Allow")) ==>
      SameDecisions(p, before + [st] + after, before + after, req, owner, owner)
  {
    hide PassCan, EvaluationGives, Speaks, Decodes, StatementGives;
    var all, rest := before + [st] + after, before + after;
    SpeaksExactly(p, st, req);
    forall y
      ensures EvaluationGives(p, Document("", all), req, owner, y) <==> PassCan(p, all, req, req.principal == owner, y)
      ensures EvaluationGives(p, Document("", rest), req, owner, y) <==>
        PassCan(p, rest, req, req.principal == owner, y)
      ensures EvaluationGives(p, Document("", rest), req, req.principal, y) <==> PassCan(p, rest, req, true, y)
    {
      PassIs(p, all, req, owner, y);
      PassIs(p, rest, req, owner, y);
      PassIs(p, rest, req, req.principal, y);
    }
    PassWith(p, before, st, after, req, req.principal == owner);
  }

  lemma PassIs(p: Platform, statements: seq<Statement>, req: Request, owner: string, x: bool)
    ensures EvaluationGives(p, Document("", statements), req, owner, x) <==>
      PassCan(p, statements, req, req.principal == owner, x)
  {
    hide PassCan;
    PassExactly(p, statements, req, req.principal == owner, x);
  }

  /** What the statement adds to the answers of the pass. */
  lemma PassWith(p: Platform, before: seq<Statement>, st: Statement, after: seq<Statement>, req: Request, allowed: bool)
    requires forall b :: StatementGives(p, st, req, b) <==> b == Speaks(p, st, req)
    ensures var all, rest := before + [st] + after, before + after;
      forall x :: PassCan(p, all, req, allowed, x) <==>
        if Speaks(p, st, req) && Denies(p, st) then !x
        else PassCan(p, rest, req, allowed || (Speaks(p, st, req) && Allows(p, st)), x)
  {
    hide StatementGives, Speaks, Denies, Allows;
    var all, rest := before + [st] + after, before + after;
    assert forall y :: y in all <==> y == st || y in rest;
  }

  /** A policy without statements admits the owner alone. */
  lemma EmptyDecides(p: Platform, req: Request, owner: string)
    ensures Decides(p, [], req, owner, req.principal == owner)
  {
  }

  // ---- Principals ----------------------------------------------------------------------------------------------

  /** A statement without conditions, for one action on every topic. */
  function Plain(effect: string, principal: Option<JSON>, action: string): Statement {
    Statement("", effect, principal, Some(JStr(action)), Some(JStr("*")), map[])
  }

  lemma PlainSpeaks(p: Platform, effect: string, principal: Option<JSON>, action: string, identity: string,
    topicArn: string)
    ensures Speaks(p, Plain(effect, principal, action), TopicRequest(identity, action, topicArn)) <==>
      IsFor(p, principal, identity, "")
  {
    hide IsFor;
  }

  /** The statement decides for this identity: a Deny refuses it, an Allow gives it what the owner would get. */
  ghost predicate AppliesTo(p: Platform, before: seq<Statement>, principal: Option<JSON>, after: seq<Statement>,
    action: string, identity: string, topicArn: string, owner: string)
  {
    var req := TopicRequest(identity, action, topicArn);
    && Decides(p, before + [Plain("Deny", principal, action)] + after, req, owner, false)
    && SameDecisions(p, before + [Plain("Allow", principal, action)] + after, before + after, req, owner, identity)
  }

  /** The statement makes no difference to this identity. */
  ghost predicate PassesBy(p: Platform, before: seq<Statement>, principal: Option<JSON>, after: seq<Statement>,
    action: string, identity: string, topicArn: string, owner: string)
  {
    var req := TopicRequest(identity, action, topicArn);
    && SameDecisions(p, before + [Plain("Deny", principal, action)] + after, before + after, req, owner, owner)
    && SameDecisions(p, before + [Plain("Allow", principal, action)] + after, before + after, req, owner, owner)
  }

  lemma PrincipalDecides(p: Platform, before: seq<Statement>, principal: Option<JSON>, after: seq<Statement>,
    action: string, identity: string, topicArn: string, owner: string)
    requires Decodes(principal) && p.fold("Allow") != p.fold("Deny")
    ensures if IsFor(p, principal, identity, "")
      then AppliesTo(p, before, principal, after, action, identity, topicArn, owner)
      else PassesBy(p, before, principal, after, action, identity, topicArn, owner)
  {
    hide Decides, SameDecisions, IsFor, Decodes;
    PlainSpeaks(p, "Deny", principal, action, identity, topicArn);
    PlainSpeaks(p, "Allow", principal, action, identity, topicArn);
    hide Speaks;
    var req := TopicRequest(identity, action, topicArn);
    StatementDecides(p, before, Plain("Deny", principal, action), after, req, owner);
    StatementDecides(p, before, Plain("Allow", principal, action), after, req, owner);
  }

  /**
   The star, on its own or as an AWS principal, and a missing principal are for every identity, the
   owner included. So is the empty string, and a null: the service's requests name no service, and
   that is compared as an empty string.
   */
  lemma StarIsEveryone(p: Platform, before: seq<Statement>, principal: Option<JSON>, after: seq<Statement>,
    action: string, identity: string, topicArn: string, owner: string)
    requires principal in {None, Some(JStr("*")), Some(JObj(map["AWS" := JStr("*")])), Some(JStr("")), Some(JNull)}
    requires p.fold("Allow") != p.fold("Deny")
    ensures AppliesTo(p, before, principal, after, action, identity, topicArn, owner)
  {
    hide AppliesTo, PassesBy;
    assert "AWS"[0] == 'A' && "Service"[0] == 'S';
    PrincipalDecides(p, before, principal, after, action, identity, topicArn, owner);
  }

  /** Any other string is for the account it names and for no other identity. */
  lemma AccountIsNamed(p: Platform, before: seq<Statement>, account: string, after: seq<Statement>, action: string,
    identity: string, topicArn: string, owner: string)
    requires account !in {"*", ""} && p.fold("Allow") != p.fold("Deny")
    ensures if identity == account
      then AppliesTo(p, before, Some(JStr(account)), after, action, identity, topicArn, owner)
      else PassesBy(p, before, Some(JStr(account)), after, action, identity, topicArn, owner)
  {
    hide AppliesTo, PassesBy;
    PrincipalDecides(p, before, Some(JStr(account)), after, action, identity, topicArn, owner);
  }

  /** A list of AWS principals without a star is for the accounts it names, up to case, and for no other identity. */
  lemma AccountsAreListed(p: Platform, before: seq<Statement>, accounts: seq<string>, after: seq<Statement>,
    action: string, identity: string, topicArn: string, owner: string)
    requires "*" !in accounts && p.fold("Allow") != p.fold("Deny")
    ensures var principal := Some(JObj(map["AWS" := Strings(accounts)]));
      if exists a :: a in accounts && (a == identity || p.fold(a) == p.fold(identity))
      then AppliesTo(p, before, principal, after, action, identity, topicArn, owner)
      else PassesBy(p, before, principal, after, action, identity, topicArn, owner)
  {
    hide AppliesTo, PassesBy;
    var principal := Some(JObj(map["AWS" := Strings(accounts)]));
    assert "AWS"[0] == 'A' && "Service"[0] == 'S';
    NamesIsList(p, Strings(accounts), identity);
    StringsParse(accounts);
    AnyMatches(p, accounts, identity);
    HasStringsExactly(Strings(accounts));
    hide Names, Strings, HasStrings;
    PrincipalDecides(p, before, principal, after, action, identity, topicArn, owner);
  }

  lemma SourceIsOwner(p: Platform, owner: string, identity: string)
    ensures Fits(p, map["StringEquals" := map["AWS:SourceOwner" := JStr(owner)]],
      map["AWS:SourceOwner" := identity]) ==>
      Covers(p, owner, identity)
  {
    hide Covers;
    var operator, key := "StringEquals", "AWS:SourceOwner";
    var conditions, context := map[operator := map[key := JStr(owner)]], map[key := identity];
    if Fits(p, conditions, context) {
      assert operator in conditions && key in conditions[operator];
      assert Names(p, conditions[operator][key], if key in context then context[key] else "");
    }
  }

  /** Under the policy that a new topic gets, an account other than the owner's, even up to case, may do nothing. */
  lemma DefaultIsForOwner(p: Platform, topicArn: string, identity: string, action: string, owner: string)
    requires owner != "*" && (identity != owner ==> p.fold(owner) != p.fold(identity))
    requires p.fold("Allow") != p.fold("Deny")
    ensures var raw := DefaultTopicPolicy(topicArn, owner);
      && raw.Parsed?
      && Decides(p, raw.value.statements, TopicRequest(identity, action, topicArn), owner, identity == owner)
  {
    hide Lists;
    var st := DefaultTopicPolicy(topicArn, owner).value.statements[0];
    var req := TopicRequest(identity, action, topicArn);
    var none: seq<Statement> := [];
    assert none + [st] + none == [st] && none + none == [];
    EmptyDecides(p, req, owner);
    StatementDecides(p, none, st, none, req, owner);
    SourceIsOwner(p, owner, identity);
    hide Fits, EvaluationGives;
  }

  // ---- Permissions ---------------------------------------------------------------------------------------------

  /** An action as a permission stores it: trimmed, and with the service's name in front unless it is there. */
  function Stored(p: Platform, action: string): string {
    if "SNS:" <= p.upper(p.trim(action)) then p.trim(action) else "SNS:" + p.trim(action)
  }

  /** The actions of a permission cover those that are listed and not blank. */
  lemma {:induction false} ActionsAreStored(p: Platform, actions: seq<string>, action: string)
    ensures MatchesAny(p, NormalizeActions(p, actions), action) <==>
      exists a :: a in actions && p.trim(a) != "" && Covers(p, Stored(p, a), action)
  {
    AnyMatches(p, NormalizeActions(p, actions), action);
    if actions != [] {
      var before, last := actions[..|actions| - 1], actions[|actions| - 1];
      ActionsAreStored(p, before, action);
      AnyMatches(p, NormalizeActions(p, before), action);
      assert forall a :: a in actions <==> a == last || a in before;
    }
  }

  /** A permission is refused exactly for a label in use, or a policy that cannot be read. */
  lemma PermissionAnswers(p: Platform, raw: Text<Document>, sid: string, accounts: seq<string>, actions: seq<string>,
    topicArn: string)
    ensures AddSpec(p, raw, sid, accounts, actions, topicArn).None? <==>
      raw.Malformed? || (raw.Parsed? && exists st :: st in raw.value.statements && st.sid == sid)
    ensures RemoveSpec(raw, sid).None? <==>
      !(raw.Parsed? && exists st :: st in raw.value.statements && st.sid == sid)
  {
  }

  /** Removing a label keeps the other statements, in number too, and no others. */
  lemma {:induction false} RemovalKeepsOthers(statements: seq<Statement>, sid: string, st: Statement)
    ensures multiset(Without(statements, sid))[st] == if st.sid == sid then 0 else multiset(statements)[st]
  {
    if statements != [] {
      var before, last := statements[..|statements| - 1], statements[|statements| - 1];
      RemovalKeepsOthers(before, sid, st);
      assert statements == before + [last];
    }
  }
}
