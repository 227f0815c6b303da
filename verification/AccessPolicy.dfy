/** Topic access policies (internal/policy/policy.go): deny-overrides evaluation, and label-keyed edits. */
module AccessPolicy {
  import opened Common
  import opened Json

  /** A missing `json.RawMessage` field is `None`; a JSON null is `Some(JNull)`. */
  datatype Statement = Statement(
    sid: string, effect: string, principal: Option<JSON>, action: Option<JSON>, resource: Option<JSON>,
    condition: map<string, map<string, JSON>>)

  datatype Document = Document(version: string, statements: seq<Statement>)

  datatype Request = Request(
    principal: string, servicePrincipal: string, action: string, resource: string, context: map<string, string>)

  // ---- String lists -------------------------------------------------------------------------------

  predicate Matches1(p: Platform, item: string, value: string) {
    item == "*" || p.EqualFold(item, value) || item == value
  }

  predicate MatchesAny(p: Platform, items: seq<string>, value: string) {
    exists i :: 0 <= i < |items| && Matches1(p, items[i], value)
  }

  /** Decoding into a Go string: a JSON null decodes to the empty string. */
  predicate StringLike(v: JSON) { v.JStr? || v.JNull? }

  function StringOf(v: JSON): string { if v.JStr? then v.s else "" }

  /** `parseStringList`: a string or a list of strings; anything else, or nothing, is an error. */
  function ParseStringList(raw: Option<JSON>): Option<seq<string>> {
    match raw
    case None => None
    case Some(JArr(items)) =>
      if forall v :: v in items ==> StringLike(v)
      then Some(seq(|items|, i requires 0 <= i < |items| => StringOf(items[i])))
      else None
    case Some(v) => if StringLike(v) then Some([StringOf(v)]) else None
  }

  /** `anyToStrings`, on an already decoded value: nulls are errors here. */
  function AnyToStrings(v: JSON): Option<seq<string>> {
    match v
    case JStr(s) => Some([s])
    case JArr(items) =>
      if forall x :: x in items ==> x.JStr? then Some(seq(|items|, i requires 0 <= i < |items| => StringOf(items[i])))
      else None
    case _ => None
  }

  // ---- Principals: a scan of an unordered map ----------------------------------------------------------

  function Wanted(req: Request, key: string): Option<string> {
    if key == "AWS" then Some(req.principal)
    else if key == "Service" then Some(req.servicePrincipal)
    else None
  }

  predicate BadEntry(m: map<string, JSON>, req: Request, key: string) {
    key in m && Wanted(req, key).Some? && AnyToStrings(m[key]).None?
  }

  predicate GoodEntry(p: Platform, m: map<string, JSON>, req: Request, key: string) {
    && key in m && Wanted(req, key).Some? && AnyToStrings(m[key]).Some?
    && MatchesAny(p, AnyToStrings(m[key]).value, Wanted(req, key).value)
  }

  /** The reply of the scan when the keys come in a given order: the first decisive key wins. */
  function Scan(p: Platform, m: map<string, JSON>, req: Request, order: seq<string>): Result<bool, string> {
    if order == [] then Ok(false)
    else if BadEntry(m, req, order[0]) then Err("unsupported value")
    else if GoodEntry(p, m, req, order[0]) then Ok(true)
    else Scan(p, m, req, order[1..])
  }

  ghost predicate Enumerates(order: seq<string>, keys: set<string>) {
    && (forall k :: k in keys <==> k in order)
    && (forall i, j :: 0 <= i < j < |order| ==> order[i] != order[j])
  }

  lemma {:induction false} ScanDecides(p: Platform, m: map<string, JSON>, req: Request, order: seq<string>)
    ensures Scan(p, m, req, order).Ok? && !Scan(p, m, req, order).value <==>
      forall k :: k in order ==> !BadEntry(m, req, k) && !GoodEntry(p, m, req, k)
    ensures Scan(p, m, req, order).Err? ==>
      Scan(p, m, req, order) == Err("unsupported value") && exists k :: k in order && BadEntry(m, req, k)
    ensures Scan(p, m, req, order).Ok? && Scan(p, m, req, order).value ==>
      exists k :: k in order && GoodEntry(p, m, req, k)
  {
    if order != [] {
      ScanDecides(p, m, req, order[1..]);
      assert forall k :: k in order <==> k == order[0] || k in order[1..];
    }
  }

  lemma {:induction false} Enumerate(keys: set<string>) returns (order: seq<string>)
    ensures Enumerates(order, keys)
  {
    if keys == {} {
      order := [];
    } else {
      var k :| k in keys;
      var rest := Enumerate(keys - {k});
      order := [k] + rest;
    }
  }

  lemma EnumerateFrom(keys: set<string>, k: string) returns (order: seq<string>)
    requires k in keys
    ensures Enumerates(order, keys) && order[0] == k
  {
    var rest := Enumerate(keys - {k});
    order := [k] + rest;
  }

  lemma ScanAgrees(p: Platform, m: map<string, JSON>, req: Request, order: seq<string>)
    requires Enumerates(order, m.Keys)
    requires forall bad, good :: BadEntry(m, req, bad) ==> !GoodEntry(p, m, req, good)
    ensures Scan(p, m, req, order) ==
      if exists k :: BadEntry(m, req, k) then Err("unsupported value") else Ok(exists k :: GoodEntry(p, m, req, k))
  {
    ScanDecides(p, m, req, order);
    var r := Scan(p, m, req, order);
    assert r.Ok? ==> r == Ok(r.value);
    if bad :| BadEntry(m, req, bad) {
      assert bad in order;
    } else if good :| GoodEntry(p, m, req, good) {
      assert good in order;
    }
  }

  /**
   The reply is the same for every enumeration of the map exactly when the map does not hold both
   an entry that matches and an entry that cannot be decoded.
   */
  lemma PrincipalOrderMatters(p: Platform, m: map<string, JSON>, req: Request)
    ensures
      (forall a, b :: Enumerates(a, m.Keys) && Enumerates(b, m.Keys) ==> Scan(p, m, req, a) == Scan(p, m, req, b))
      <==>
      !(exists bad, good :: BadEntry(m, req, bad) && GoodEntry(p, m, req, good))
  {
    if bad, good :| BadEntry(m, req, bad) && GoodEntry(p, m, req, good) {
      var a := EnumerateFrom(m.Keys, bad);
      var b := EnumerateFrom(m.Keys, good);
      assert Scan(p, m, req, a).Err? && Scan(p, m, req, b) == Ok(true);
    } else {
      forall a, b | Enumerates(a, m.Keys) && Enumerates(b, m.Keys)
        ensures Scan(p, m, req, a) == Scan(p, m, req, b)
      {
        ScanAgrees(p, m, req, a);
        ScanAgrees(p, m, req, b);
      }
    }
  }

  ghost predicate PrincipalHolds(p: Platform, principal: JSON, req: Request) {
    || (StringLike(principal) && StringOf(principal) in {"*", req.principal, req.servicePrincipal})
    || (principal.JObj? && exists k :: GoodEntry(p, principal.members, req, k))
  }

  /** The principals whose reply depends on no order and is no error. */
  ghost predicate WellFormedPrincipal(req: Request, principal: Option<JSON>) {
    principal.Some? && principal.value.JObj? ==> forall k :: !BadEntry(principal.value.members, req, k)
  }

  /** Some order of the principal map ends in a match (`true`), or in none; an error counts as none. */
  ghost predicate PrincipalGives(p: Platform, principal: JSON, req: Request, matched: bool) {
    if principal.JObj? then
      exists order :: Enumerates(order, principal.members.Keys) &&
        (matched <==> Scan(p, principal.members, req, order) == Ok(true))
    else matched <==> PrincipalHolds(p, principal, req)
  }

  lemma EnumeratesJoin(a: seq<string>, b: seq<string>, rest: set<string>, keys: set<string>)
    requires rest <= keys && Enumerates(a, keys - rest) && Enumerates(b, rest)
    ensures Enumerates(a + b, keys)
  {
    forall i, j | 0 <= i < j < |a + b| ensures (a + b)[i] != (a + b)[j] {
      if i < |a| <= j {
        assert a[i] in a && b[j - |a|] in b;
      }
    }
  }

  lemma {:induction false} ScanSkips(p: Platform, m: map<string, JSON>, req: Request, seen: seq<string>,
    tail: seq<string>)
    requires forall k :: k in seen ==> !BadEntry(m, req, k) && !GoodEntry(p, m, req, k)
    ensures Scan(p, m, req, seen + tail) == Scan(p, m, req, tail)
  {
    if seen == [] {
      assert seen + tail == tail;
    } else {
      assert (seen + tail)[1..] == seen[1..] + tail;
      ScanSkips(p, m, req, seen[1..], tail);
    }
  }

  /**
   `principalMatches`: the object form is scanned in an arbitrary order, `order`, and the reply is
   that of the scan in this order.
   */
  method PrincipalMatches(p: Platform, principal: JSON, req: Request)
    returns (r: Result<bool, string>, ghost order: seq<string>)
    ensures r.Ok? ==> (r.value <==> PrincipalHolds(p, principal, req))
    ensures r.Err? ==> !StringLike(principal)
    ensures r.Err? && principal.JObj? ==> !WellFormedPrincipal(req, Some(principal))
    ensures PrincipalGives(p, principal, req, r == Ok(true))
    ensures principal.JObj? ==> Enumerates(order, principal.members.Keys) && r == Scan(p, principal.members, req, order)
  {
    order := [];
    if StringLike(principal) {
      var s := StringOf(principal);
      return Ok(s == "*" || s == req.principal || s == req.servicePrincipal), order;
    }
    if !principal.JObj? {
      return Err("not an object"), order;
    }
    var m := principal.members;
    var rest := m.Keys;
    while rest != {}
      invariant rest <= m.Keys && Enumerates(order, m.Keys - rest)
      invariant forall k :: k in order ==> !BadEntry(m, req, k) && !GoodEntry(p, m, req, k)
    {
      var key :| key in rest;
      ghost var tail := EnumerateFrom(rest, key);
      ScanSkips(p, m, req, order, tail);
      EnumeratesJoin(order, tail, rest, m.Keys);
      rest := rest - {key};
      var wanted := Wanted(req, key);
      if wanted.Some? {
        var items := AnyToStrings(m[key]);
        if items.None? {
          assert BadEntry(m, req, key);
          return Err("unsupported value"), order + tail;
        }
        if MatchesAny(p, items.value, wanted.value) {
          assert GoodEntry(p, m, req, key);
          return Ok(true), order + tail;
        }
      }
      order := order + [key];
    }
    ScanDecides(p, m, req, order);
    return Ok(false), order;
  }

  // ---- Conditions -------------------------------------------------------------------------------------

  function ContextValue(req: Request, key: string): string {
    if key in req.context then req.context[key] else ""
  }

  predicate EntryHolds(p: Platform, value: JSON, wanted: string) {
    AnyToStrings(value).Some? && MatchesAny(p, AnyToStrings(value).value, wanted)
  }

  /** Only `StringEquals` and `ArnEquals` are looked at; every entry of both must hold. */
  predicate ConditionsHold(p: Platform, conditions: map<string, map<string, JSON>>, req: Request) {
    forall operator, key ::
      operator in conditions && operator in {"StringEquals", "ArnEquals"} && key in conditions[operator] ==>
        EntryHolds(p, conditions[operator][key], ContextValue(req, key))
  }

  method ConditionsMatch(p: Platform, conditions: map<string, map<string, JSON>>, req: Request) returns (ok: bool)
    ensures ok <==> ConditionsHold(p, conditions, req)
  {
    var operators := conditions.Keys;
    while operators != {}
      invariant operators <= conditions.Keys
      invariant forall o, key ::
        o in conditions && o !in operators && o in {"StringEquals", "ArnEquals"} && key in conditions[o] ==>
          EntryHolds(p, conditions[o][key], ContextValue(req, key))
    {
      var operator :| operator in operators;
      operators := operators - {operator};
      if operator == "StringEquals" || operator == "ArnEquals" {
        var values := conditions[operator];
        var keys := values.Keys;
        while keys != {}
          invariant keys <= values.Keys
          invariant forall key :: key in values && key !in keys ==> EntryHolds(p, values[key], ContextValue(req, key))
        {
          var key :| key in keys;
          keys := keys - {key};
          if !EntryHolds(p, values[key], ContextValue(req, key)) {
            return false;
          }
        }
      }
    }
    return true;
  }

  // ---- Statements and documents -------------------------------------------------------------------------

  predicate ListHolds(p: Platform, raw: Option<JSON>, value: string) {
    ParseStringList(raw).Some? && MatchesAny(p, ParseStringList(raw).value, value)
  }

  ghost predicate StatementHolds(p: Platform, st: Statement, req: Request) {
    && ListHolds(p, st.action, req.action)
    && ListHolds(p, st.resource, req.resource)
    && (st.principal.Some? ==> PrincipalHolds(p, st.principal.value, req))
    && ConditionsHold(p, st.condition, req)
  }

  /** Some order of the statement's principal map ends in a match, or in none. */
  ghost predicate StatementGives(p: Platform, st: Statement, req: Request, matched: bool) {
    var others :=
      ListHolds(p, st.action, req.action) && ListHolds(p, st.resource, req.resource)
        && ConditionsHold(p, st.condition, req);
    if matched then others && (st.principal.Some? ==> PrincipalGives(p, st.principal.value, req, true))
    else !others || (st.principal.Some? && PrincipalGives(p, st.principal.value, req, false))
  }

  /** Every statement gives some answer, and a well-formed one that of its meaning alone. */
  lemma StatementGivesSome(p: Platform, st: Statement, req: Request)
    ensures StatementGives(p, st, req, true) || StatementGives(p, st, req, false)
    ensures StatementGives(p, st, req, true) ==> StatementHolds(p, st, req)
    ensures WellFormedPrincipal(req, st.principal) ==>
      forall b :: StatementGives(p, st, req, b) <==> b == StatementHolds(p, st, req)
  {
    hide ListHolds, ConditionsHold;
    if st.principal.Some? && st.principal.value.JObj? {
      var m := st.principal.value.members;
      var order := Enumerate(m.Keys);
      assert PrincipalGives(p, st.principal.value, req, Scan(p, m, req, order) == Ok(true));
      forall order | Enumerates(order, m.Keys)
        ensures Scan(p, m, req, order) == Ok(true) ==> PrincipalHolds(p, st.principal.value, req)
        ensures WellFormedPrincipal(req, st.principal) ==>
          (Scan(p, m, req, order) == Ok(true) <==> PrincipalHolds(p, st.principal.value, req))
      {
        ScanDecides(p, m, req, order);
        if WellFormedPrincipal(req, st.principal) {
          ScanAgrees(p, m, req, order);
        }
      }
    }
  }

  method StatementMatches(p: Platform, st: Statement, req: Request) returns (r: Result<bool, string>)
    ensures r.Ok? ==> (r.value <==> StatementHolds(p, st, req))
    ensures r.Err? && WellFormedPrincipal(req, st.principal) ==> !StatementHolds(p, st, req)
    ensures StatementGives(p, st, req, r == Ok(true))
  {
    var actions := ParseStringList(st.action);
    if actions.None? { return Err("invalid list"); }
    if !MatchesAny(p, actions.value, req.action) { return Ok(false); }
    var resources := ParseStringList(st.resource);
    if resources.None? { return Err("invalid list"); }
    if !MatchesAny(p, resources.value, req.resource) { return Ok(false); }
    if st.principal.Some? {
      ghost var order: seq<string>;
      r, order := PrincipalMatches(p, st.principal.value, req);
      if r.Err? || !r.value {
        return;
      }
    }
    var ok := ConditionsMatch(p, st.condition, req);
    return Ok(ok);
  }

  predicate Denies(p: Platform, st: Statement) { p.EqualFold(st.effect, "Deny") }

  predicate Allows(p: Platform, st: Statement) { !Denies(p, st) && p.EqualFold(st.effect, "Allow") }

  ghost predicate Denied(p: Platform, doc: Document, req: Request) {
    exists st :: st in doc.statements && StatementHolds(p, st, req) && Denies(p, st)
  }

  /** Deny overrides: the owner, or some matching Allow, and no matching Deny. */
  ghost predicate Allowed(p: Platform, doc: Document, req: Request, owner: string) {
    && (req.principal == owner || exists st :: st in doc.statements && StatementHolds(p, st, req) && Allows(p, st))
    && !Denied(p, doc, req)
  }

  ghost predicate WellFormedPrincipals(doc: Document, req: Request) {
    forall st :: st in doc.statements ==> WellFormedPrincipal(req, st.principal)
  }

  const EMPTY := Document("", [])

  function Parse(raw: Text<Document>): Option<Document> {
    match raw
    case Blank => Some(EMPTY)
    case Malformed => None
    case Parsed(doc) => Some(doc)
  }

  /**
   The pass over the statements, each of which gives some answer of its own; `allowed` is the flag so
   far. It ends at the first matching Deny.
   */
  ghost predicate PassGives(p: Platform, statements: seq<Statement>, req: Request, allowed: bool, x: bool) {
    if statements == [] then x == allowed
    else
      var st := statements[0];
      || (Denies(p, st) && StatementGives(p, st, req, true) && !x)
      || (StatementGives(p, st, req, false) && PassGives(p, statements[1..], req, allowed, x))
      || (!Denies(p, st) && StatementGives(p, st, req, true)
          && PassGives(p, statements[1..], req, allowed || Allows(p, st), x))
  }

  /** Some choice of the orders of all principal maps ends in this answer. */
  ghost predicate EvaluationGives(p: Platform, doc: Document, req: Request, owner: string, x: bool) {
    PassGives(p, doc.statements, req, req.principal == owner, x)
  }

  ghost predicate SomeGives(p: Platform, statements: seq<Statement>, req: Request, denying: bool, matched: bool) {
    exists st :: st in statements && (if denying then Denies(p, st) else Allows(p, st))
      && StatementGives(p, st, req, matched)
  }

  ghost predicate AllGive(p: Platform, statements: seq<Statement>, req: Request, denying: bool, matched: bool) {
    forall st :: st in statements && (if denying then Denies(p, st) else Allows(p, st)) ==>
      StatementGives(p, st, req, matched)
  }

  /** What the pass can answer, with no order of statements or entries. */
  ghost predicate PassCan(p: Platform, statements: seq<Statement>, req: Request, allowed: bool, x: bool) {
    if x then
      AllGive(p, statements, req, true, false) && (allowed || SomeGives(p, statements, req, false, true))
    else
      SomeGives(p, statements, req, true, true) || (!allowed && AllGive(p, statements, req, false, false))
  }

  lemma {:induction false} PassExactly(p: Platform, statements: seq<Statement>, req: Request, allowed: bool, x: bool)
    ensures PassGives(p, statements, req, allowed, x) <==> PassCan(p, statements, req, allowed, x)
  {
    hide StatementGives;
    if statements != [] {
      var st, rest := statements[0], statements[1..];
      assert forall y :: y in statements <==> y == st || y in rest;
      StatementGivesSome(p, st, req);
      PassExactly(p, rest, req, allowed, x);
      PassExactly(p, rest, req, true, x);
    }
  }

  /**
   The order of the statements never matters: not for what the document means, and not for what the
   pass can answer when entries that cannot be decoded make the order of a principal map matter.
   */
  lemma StatementOrderIsFree(p: Platform, a: Document, b: Document, req: Request, owner: string)
    requires multiset(a.statements) == multiset(b.statements)
    ensures Allowed(p, a, req, owner) <==> Allowed(p, b, req, owner)
    ensures forall x :: EvaluationGives(p, a, req, owner, x) <==> EvaluationGives(p, b, req, owner, x)
  {
    hide StatementHolds, StatementGives;
    forall st ensures st in a.statements <==> st in b.statements {
      assert st in a.statements <==> st in multiset(a.statements);
      assert st in b.statements <==> st in multiset(b.statements);
    }
    forall x ensures EvaluationGives(p, a, req, owner, x) <==> EvaluationGives(p, b, req, owner, x) {
      PassExactly(p, a.statements, req, req.principal == owner, x);
      PassExactly(p, b.statements, req, req.principal == owner, x);
    }
  }

  /** With well-formed principals there is one answer, the meaning; a grant always needs what the meaning needs. */
  lemma WellFormedDecides(p: Platform, doc: Document, req: Request, owner: string)
    ensures WellFormedPrincipals(doc, req) ==>
      forall x :: EvaluationGives(p, doc, req, owner, x) <==> x == Allowed(p, doc, req, owner)
    ensures EvaluationGives(p, doc, req, owner, true) && req.principal != owner ==>
      exists st :: st in doc.statements && StatementHolds(p, st, req) && Allows(p, st)
  {
    hide StatementHolds, StatementGives, WellFormedPrincipal;
    forall st | st in doc.statements
      ensures StatementGives(p, st, req, true) ==> StatementHolds(p, st, req)
      ensures WellFormedPrincipals(doc, req) ==>
        forall b :: StatementGives(p, st, req, b) <==> b == StatementHolds(p, st, req)
    {
      StatementGivesSome(p, st, req);
    }
    PassExactly(p, doc.statements, req, req.principal == owner, true);
    PassExactly(p, doc.statements, req, req.principal == owner, false);
  }

  /** `Evaluate`: one pass with an early stop at the first matching Deny. */
  method Evaluate(p: Platform, raw: Text<Document>, req: Request, owner: string) returns (r: Result<bool, string>)
    ensures r.Err? <==> raw.Malformed?
    ensures r.Ok? ==> EvaluationGives(p, Parse(raw).value, req, owner, r.value)
    ensures Parse(raw).Some? && WellFormedPrincipals(Parse(raw).value, req) ==>
      r == Ok(Allowed(p, Parse(raw).value, req, owner))
    ensures r == Ok(true) && req.principal != owner ==>
      exists st :: st in Parse(raw).value.statements && StatementHolds(p, st, req) && Allows(p, st)
  {
    hide StatementHolds, StatementGives, WellFormedPrincipals, Allowed;
    match raw
    case Blank =>
      WellFormedDecides(p, EMPTY, req, owner);
      return Ok(req.principal == owner);
    case Malformed => return Err("invalid JSON");
    case Parsed(doc) =>
      WellFormedDecides(p, doc, req, owner);
      var allowed := req.principal == owner;
      for i := 0 to |doc.statements|
        invariant forall x :: PassGives(p, doc.statements[i..], req, allowed, x) ==>
          EvaluationGives(p, doc, req, owner, x)
      {
        var st := doc.statements[i];
        var matched := StatementMatches(p, st, req);
        if matched.Err? || !matched.value {
          continue;
        }
        if p.EqualFold(st.effect, "Deny") {
          return Ok(false);
        }
        if p.EqualFold(st.effect, "Allow") {
          allowed := true;
        }
      }
      return Ok(allowed);
  }

  // ---- Permission edits ------------------------------------------------------------------------------------

  /** `json.Marshal` and back: a missing action or resource comes back as a JSON null. */
  function Remarshal(st: Statement): Statement {
    st.(action := if st.action.None? then Some(JNull) else st.action,
        resource := if st.resource.None? then Some(JNull) else st.resource)
  }

  function RemarshalAll(statements: seq<Statement>): seq<Statement> {
    seq(|statements|, i requires 0 <= i < |statements| => Remarshal(statements[i]))
  }

  function Marshal(doc: Document): Text<Document> {
    Parsed(doc.(statements := RemarshalAll(doc.statements)))
  }

  predicate Complete(st: Statement) { st.action.Some? && st.resource.Some? }

  function NormalizeAction(p: Platform, action: string): string {
    if HasPrefix(p.upper(p.trim(action)), "SNS:") then p.trim(action) else "SNS:" + p.trim(action)
  }

  function NormalizeActions(p: Platform, actions: seq<string>): seq<string> {
    if actions == [] then []
    else
      var rest := NormalizeActions(p, actions[..|actions| - 1]);
      if p.trim(actions[|actions| - 1]) == "" then rest
      else rest + [NormalizeAction(p, actions[|actions| - 1])]
  }

  function Strings(items: seq<string>): JSON {
    JArr(seq(|items|, i requires 0 <= i < |items| => JStr(items[i])))
  }

  function NewStatement(p: Platform, sid: string, accounts: seq<string>, actions: seq<string>, topicArn: string):
    Statement
  {
    Statement(sid, "Allow", Some(JObj(map["AWS" := Strings(accounts)])),
      Some(Strings(NormalizeActions(p, actions))), Some(JStr(topicArn)), map[])
  }

  predicate HasLabel(doc: Document, sid: string) {
    exists st :: st in doc.statements && st.sid == sid
  }

  function AddSpec(p: Platform, raw: Text<Document>, sid: string, accounts: seq<string>, actions: seq<string>,
    topicArn: string): Option<Text<Document>>
  {
    var doc := Parse(raw);
    if doc.None? || HasLabel(doc.value, sid) then None
    else
      var st := NewStatement(p, sid, accounts, actions, topicArn);
      Some(Marshal(doc.value.(statements := doc.value.statements + [st])))
  }

  method AddPermission(p: Platform, raw: Text<Document>, sid: string, accounts: seq<string>, actionNames: seq<string>,
    topicArn: string) returns (r: Option<Text<Document>>)
    ensures r == AddSpec(p, raw, sid, accounts, actionNames, topicArn)
  {
    var doc := Parse(raw);
    if doc.None? {
      return None;
    }
    for i := 0 to |doc.value.statements|
      invariant forall k :: 0 <= k < i ==> doc.value.statements[k].sid != sid
    {
      if doc.value.statements[i].sid == sid {
        assert doc.value.statements[i] in doc.value.statements;
        return None;
      }
    }
    var actions := [];
    for i := 0 to |actionNames|
      invariant actions == NormalizeActions(p, actionNames[..i])
    {
      assert actionNames[..i + 1][..i] == actionNames[..i];
      var action := p.trim(actionNames[i]);
      if action == "" {
        continue;
      }
      if !HasPrefix(p.upper(action), "SNS:") {
        action := "SNS:" + action;
      }
      actions := actions + [action];
    }
    assert actionNames[..|actionNames|] == actionNames;
    var st := Statement(sid, "Allow", Some(JObj(map["AWS" := Strings(accounts)])),
      Some(Strings(actions)), Some(JStr(topicArn)), map[]);
    return Some(Marshal(doc.value.(statements := doc.value.statements + [st])));
  }

  function Without(statements: seq<Statement>, sid: string): seq<Statement> {
    if statements == [] then []
    else
      var last := statements[|statements| - 1];
      Without(statements[..|statements| - 1], sid) + if last.sid == sid then [] else [last]
  }

  function RemoveSpec(raw: Text<Document>, sid: string): Option<Text<Document>> {
    var doc := Parse(raw);
    if doc.None? || !HasLabel(doc.value, sid) then None
    else Some(Marshal(doc.value.(statements := Without(doc.value.statements, sid))))
  }

  method RemovePermission(raw: Text<Document>, sid: string) returns (r: Option<Text<Document>>)
    ensures r == RemoveSpec(raw, sid)
  {
    var doc := Parse(raw);
    if doc.None? {
      return None;
    }
    var statements := doc.value.statements;
    var filtered := [];
    var found := false;
    for i := 0 to |statements|
      invariant filtered == Without(statements[..i], sid)
      invariant found <==> exists k :: 0 <= k < i && statements[k].sid == sid
    {
      assert statements[..i + 1][..i] == statements[..i];
      if statements[i].sid == sid {
        found := true;
      } else {
        filtered := filtered + [statements[i]];
      }
    }
    assert statements[..|statements|] == statements;
    if !found {
      return None;
    }
    return Some(Marshal(doc.value.(statements := filtered)));
  }

  lemma {:induction false} WithoutFresh(statements: seq<Statement>, sid: string)
    requires forall i :: 0 <= i < |statements| ==> statements[i].sid != sid
    ensures Without(statements, sid) == statements
  {
    if statements != [] {
      var before, last := statements[..|statements| - 1], statements[|statements| - 1];
      WithoutFresh(before, sid);
      assert statements == before + [last];
    }
  }

  /**
   Removing a freshly added label leaves the document re-marshalled. That is the original
   statement list exactly when every statement had an action and a resource.
   */
  lemma RemoveUndoesAdd(p: Platform, raw: Text<Document>, sid: string, accounts: seq<string>, actions: seq<string>,
    topicArn: string)
    requires Parse(raw).Some? && !HasLabel(Parse(raw).value, sid)
    ensures var doc := Parse(raw).value;
      var added := AddSpec(p, raw, sid, accounts, actions, topicArn);
      && added.Some?
      && RemoveSpec(added.value, sid) == Some(Marshal(doc))
      && (Marshal(doc) == Parsed(doc) <==> forall st :: st in doc.statements ==> Complete(st))
  {
    var doc := Parse(raw).value;
    var st := NewStatement(p, sid, accounts, actions, topicArn);
    var added := RemarshalAll(doc.statements + [st]);
    WithoutAdded(doc.statements, st);
    RemarshalExact(doc.statements);
    assert st in doc.statements + [st];
    assert HasLabel(Parse(AddSpec(p, raw, sid, accounts, actions, topicArn).value).value, sid) by {
      assert added[|doc.statements|] == st;
    }
  }

  lemma WithoutAdded(statements: seq<Statement>, st: Statement)
    requires Complete(st) && forall x :: x in statements ==> x.sid != st.sid
    ensures RemarshalAll(Without(RemarshalAll(statements + [st]), st.sid)) == RemarshalAll(statements)
  {
    RemarshalSnoc(statements, st);
    WithoutSnoc(RemarshalAll(statements), st);
    RemarshalSids(statements, st.sid);
    hide RemarshalAll;
    WithoutFresh(RemarshalAll(statements), st.sid);
    RemarshalTwice(statements);
  }

  lemma RemarshalSnoc(statements: seq<Statement>, st: Statement)
    requires Complete(st)
    ensures RemarshalAll(statements + [st]) == RemarshalAll(statements) + [st]
  {
  }

  lemma WithoutSnoc(statements: seq<Statement>, st: Statement)
    ensures Without(statements + [st], st.sid) == Without(statements, st.sid)
  {
    assert (statements + [st])[..|statements|] == statements;
  }

  lemma RemarshalSids(statements: seq<Statement>, sid: string)
    requires forall x :: x in statements ==> x.sid != sid
    ensures forall x :: x in RemarshalAll(statements) ==> x.sid != sid
  {
    forall i | 0 <= i < |statements| ensures RemarshalAll(statements)[i].sid != sid {
      assert statements[i] in statements;
    }
  }

  lemma RemarshalTwice(statements: seq<Statement>)
    ensures RemarshalAll(RemarshalAll(statements)) == RemarshalAll(statements)
  {
  }

  lemma RemarshalExact(statements: seq<Statement>)
    ensures RemarshalAll(statements) == statements <==> forall st :: st in statements ==> Complete(st)
  {
    if st :| st in statements && !Complete(st) {
      var i :| 0 <= i < |statements| && statements[i] == st;
      assert RemarshalAll(statements)[i] != statements[i];
    } else {
      forall i | 0 <= i < |statements| ensures RemarshalAll(statements)[i] == statements[i] {
        assert statements[i] in statements;
      }
    }
  }

  lemma {:induction false} NormalizedIsListed(p: Platform, actions: seq<string>, k: nat)
    requires k < |actions| && p.trim(actions[k]) != ""
    ensures NormalizeAction(p, actions[k]) in NormalizeActions(p, actions)
  {
    if k < |actions| - 1 {
      NormalizedIsListed(p, actions[..|actions| - 1], k);
    }
  }

  lemma StringsParse(items: seq<string>)
    ensures ParseStringList(Some(Strings(items))) == Some(items) && AnyToStrings(Strings(items)) == Some(items)
  {
    var js := Strings(items);
    assert forall v :: v in js.items ==> v.JStr?;
    assert seq(|js.items|, i requires 0 <= i < |js.items| => StringOf(js.items[i])) == items;
  }

  lemma ListedMatches(p: Platform, items: seq<string>, value: string)
    requires value in items
    ensures ParseStringList(Some(Strings(items))) == Some(items)
    ensures AnyToStrings(Strings(items)) == Some(items)
    ensures MatchesAny(p, items, value)
  {
    StringsParse(items);
    var i :| 0 <= i < |items| && items[i] == value;
    assert Matches1(p, items[i], value);
  }

  /** The added statement gives each listed account each listed action on the topic, unless a Deny matches. */
  lemma AddGrants(p: Platform, raw: Text<Document>, sid: string, accounts: seq<string>, actions: seq<string>,
    topicArn: string, account: nat, action: nat, req: Request, owner: string)
    requires Parse(raw).Some? && !HasLabel(Parse(raw).value, sid)
    requires account < |accounts| && action < |actions| && p.trim(actions[action]) != ""
    requires req.principal == accounts[account] && req.action == NormalizeAction(p, actions[action])
    requires req.resource == topicArn
    requires !p.EqualFold("Allow", "Deny")
    ensures var added := Parse(AddSpec(p, raw, sid, accounts, actions, topicArn).value).value;
      Allowed(p, added, req, owner) <==> !Denied(p, added, req)
  {
    var st := NewStatement(p, sid, accounts, actions, topicArn);
    var doc := Parse(raw).value;
    var added := RemarshalAll(doc.statements + [st]);
    assert added[|doc.statements|] == st;
    NormalizedIsListed(p, actions, action);
    ListedMatches(p, NormalizeActions(p, actions), req.action);
    ListedMatches(p, [topicArn], topicArn);
    ListedMatches(p, accounts, req.principal);
    assert GoodEntry(p, map["AWS" := Strings(accounts)], req, "AWS");
    assert StatementHolds(p, st, req) && Allows(p, st);
  }

  lemma RemarshalKeepsMeaning(p: Platform, st: Statement, req: Request)
    requires Complete(st) || (!p.EqualFold("", req.action) && !p.EqualFold("", req.resource))
    ensures StatementHolds(p, Remarshal(st), req) <==> StatementHolds(p, st, req)
  {
    var nothing := ParseStringList(Some(JNull)).value;
    if !p.EqualFold("", req.action) && !p.EqualFold("", req.resource) {
      assert nothing == [""] && !Matches1(p, nothing[0], req.action) && !Matches1(p, nothing[0], req.resource);
    }
  }

  /**
   Adding a permission changes the answer for no request that the new statement does not match,
   as long as re-marshalling cannot turn a missing action or resource into one that matches.
   */
  lemma AddFrames(p: Platform, raw: Text<Document>, sid: string, accounts: seq<string>, actions: seq<string>,
    topicArn: string, req: Request, owner: string)
    requires Parse(raw).Some? && !HasLabel(Parse(raw).value, sid)
    requires !StatementHolds(p, NewStatement(p, sid, accounts, actions, topicArn), req)
    requires (forall st :: st in Parse(raw).value.statements ==> Complete(st)) ||
      (!p.EqualFold("", req.action) && !p.EqualFold("", req.resource))
    ensures Allowed(p, Parse(AddSpec(p, raw, sid, accounts, actions, topicArn).value).value, req, owner) <==>
      Allowed(p, Parse(raw).value, req, owner)
  {
    var old_ := Parse(raw).value.statements;
    var st := NewStatement(p, sid, accounts, actions, topicArn);
    var added := RemarshalAll(old_ + [st]);
    forall i | 0 <= i < |old_|
      ensures StatementHolds(p, added[i], req) <==> StatementHolds(p, old_[i], req)
    {
      assert old_[i] in old_;
      RemarshalKeepsMeaning(p, old_[i], req);
    }
    assert added[|old_|] == st;
    SameMatches(p, Parse(raw).value, Document(Parse(raw).value.version, added), req, owner);
  }

  /** Two documents agree when their statements, taken in order, match alike, up to statements that do not match. */
  lemma SameMatches(p: Platform, a: Document, b: Document, req: Request, owner: string)
    requires |a.statements| <= |b.statements|
    requires forall i :: 0 <= i < |a.statements| ==>
      a.statements[i].effect == b.statements[i].effect &&
      (StatementHolds(p, a.statements[i], req) <==> StatementHolds(p, b.statements[i], req))
    requires forall i :: |a.statements| <= i < |b.statements| ==> !StatementHolds(p, b.statements[i], req)
    ensures Allowed(p, a, req, owner) <==> Allowed(p, b, req, owner)
  {
    hide StatementHolds;
    forall x | x in b.statements && StatementHolds(p, x, req)
      ensures exists y :: y in a.statements && StatementHolds(p, y, req) && y.effect == x.effect
    {
      var i :| 0 <= i < |b.statements| && b.statements[i] == x;
      assert a.statements[i] in a.statements;
    }
    forall y | y in a.statements && StatementHolds(p, y, req)
      ensures exists x :: x in b.statements && StatementHolds(p, x, req) && y.effect == x.effect
    {
      var i :| 0 <= i < |a.statements| && a.statements[i] == y;
      assert b.statements[i] in b.statements;
    }
  }

  /** What the service asks of a topic's policy (`authorizeTopic`). */
  function TopicRequest(identity: string, action: string, topicArn: string): Request {
    Request(identity, "", action, topicArn, map["AWS:SourceOwner" := identity])
  }

  /**
   For what the service asks, none of which has an empty action or topic, adding a permission changes
   the answer by the new statement alone, re-marshalled or not, and a Deny goes on overriding.
   */
  lemma AddExactly(p: Platform, raw: Text<Document>, sid: string, accounts: seq<string>, actions: seq<string>,
    topicArn: string, identity: string, action: string, owner: string)
    requires Parse(raw).Some? && !HasLabel(Parse(raw).value, sid)
    requires !p.EqualFold("", action) && !p.EqualFold("", topicArn) && !p.EqualFold("Allow", "Deny")
    ensures var req, doc := TopicRequest(identity, action, topicArn), Parse(raw).value;
      var added := Parse(AddSpec(p, raw, sid, accounts, actions, topicArn).value).value;
      && (Denied(p, added, req) <==> Denied(p, doc, req))
      && (Allowed(p, added, req, owner) <==>
            Allowed(p, doc, req, owner) || (!Denied(p, doc, req) && MatchesAny(p, accounts, identity)
              && MatchesAny(p, NormalizeActions(p, actions), action)))
  {
    hide StatementHolds;
    var req, doc := TopicRequest(identity, action, topicArn), Parse(raw).value;
    var st := NewStatement(p, sid, accounts, actions, topicArn);
    var added := RemarshalAll(doc.statements + [st]);
    NewStatementHolds(p, sid, accounts, actions, topicArn, req);
    RemarshalSnoc(doc.statements, st);
    AddedMatches(p, doc, st, req);
  }

  lemma NewStatementHolds(p: Platform, sid: string, accounts: seq<string>, actions: seq<string>, topicArn: string,
    req: Request)
    requires req.resource == topicArn
    ensures StatementHolds(p, NewStatement(p, sid, accounts, actions, topicArn), req) <==>
      MatchesAny(p, accounts, req.principal) && MatchesAny(p, NormalizeActions(p, actions), req.action)
  {
    StringsParse(NormalizeActions(p, actions));
    StringsParse(accounts);
    assert Matches1(p, [topicArn][0], topicArn);
    var principal := map["AWS" := Strings(accounts)];
    assert GoodEntry(p, principal, req, "AWS") <==> MatchesAny(p, accounts, req.principal);
  }

  /** Which statements match after an addition: those of before, and perhaps the new one. */
  lemma AddedMatches(p: Platform, doc: Document, st: Statement, req: Request)
    requires !p.EqualFold("", req.action) && !p.EqualFold("", req.resource)
    ensures var added := RemarshalAll(doc.statements) + [st];
      && (forall x :: x in doc.statements && StatementHolds(p, x, req) ==>
            exists y :: y in added && StatementHolds(p, y, req) && y.effect == x.effect)
      && (forall y :: y in added && StatementHolds(p, y, req) ==>
            y == st || exists x :: x in doc.statements && StatementHolds(p, x, req) && x.effect == y.effect)
  {
    hide StatementHolds;
    var kept := RemarshalAll(doc.statements);
    forall i | 0 <= i < |doc.statements|
      ensures StatementHolds(p, kept[i], req) <==> StatementHolds(p, doc.statements[i], req)
    {
      RemarshalKeepsMeaning(p, doc.statements[i], req);
    }
    forall x | x in doc.statements && StatementHolds(p, x, req)
      ensures exists y :: y in kept + [st] && StatementHolds(p, y, req) && y.effect == x.effect
    {
      var i :| 0 <= i < |doc.statements| && doc.statements[i] == x;
      assert kept[i] in kept;
    }
    forall y | y in kept && StatementHolds(p, y, req)
      ensures exists x :: x in doc.statements && StatementHolds(p, x, req) && x.effect == y.effect
    {
      var i :| 0 <= i < |kept| && kept[i] == y;
      assert doc.statements[i] in doc.statements;
    }
  }

  const NO_ACTION := Statement("s", "Allow", None, None, Some(JStr("*")), map[])

  /** Re-marshalling makes a statement without an action match the empty action. */
  lemma RemarshalMatches(p: Platform, req: Request)
    requires req.action == ""
    ensures !StatementHolds(p, NO_ACTION, req) && StatementHolds(p, Remarshal(NO_ACTION), req)
  {
    ListedMatches(p, [""], "");
    assert Matches1(p, ["*"][0], req.resource);
    assert MatchesAny(p, ["*"], req.resource);
    assert ParseStringList(Some(JNull)) == Some([""]);
  }

  /**
   So adding a permission, whatever it is for, can grant a request it does not speak of: one with an
   empty action, to a stranger.
   */
  lemma RemarshalCanGrant(p: Platform, req: Request, owner: string, sid: string, accounts: seq<string>,
    actions: seq<string>, topicArn: string)
    requires req.action == "" && req.principal != owner && sid != NO_ACTION.sid && !p.EqualFold("Allow", "Deny")
    ensures var doc := Document("", [NO_ACTION]);
      var added := AddSpec(p, Parsed(doc), sid, accounts, actions, topicArn);
      && added.Some? && Parse(added.value).Some?
      && !Allowed(p, doc, req, owner) && Allowed(p, Parse(added.value).value, req, owner)
  {
    hide StatementHolds;
    RemarshalMatches(p, req);
    var doc := Document("", [NO_ACTION]);
    var after := Parse(AddSpec(p, Parsed(doc), sid, accounts, actions, topicArn).value).value;
    assert after.statements[0] == Remarshal(NO_ACTION);
    assert after.statements[0] in after.statements;
  }

  // ---- The default policy --------------------------------------------------------------------------------------

  const DEFAULT_ACTIONS := [
    "SNS:AddPermission", "SNS:RemovePermission", "SNS:DeleteTopic", "SNS:GetTopicAttributes", "SNS:SetTopicAttributes",
    "SNS:Publish", "SNS:Subscribe", "SNS:ListSubscriptionsByTopic", "SNS:TagResource", "SNS:UntagResource",
    "SNS:ListTagsForResource"]

  function DefaultTopicPolicy(topicArn: string, account: string): Text<Document> {
    Parsed(Document("2012-10-17", [Statement("__default_statement_ID", "Allow",
      Some(JObj(map["AWS" := JStr("*")])), Some(Strings(DEFAULT_ACTIONS)), Some(JStr(topicArn)),
      map["StringEquals" := map["AWS:SourceOwner" := JStr(account)]])]))
  }
}
