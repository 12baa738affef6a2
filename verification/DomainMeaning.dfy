/**
 * What a domain means as it is written: each column name, each operator and each spelling, down to
 * the fields of the contacts it selects.
 */
module DomainMeaning {
  import opened MailTypes
  import opened Domain
  import opened Subscriptions
  import opened Resolver
  import opened LikePattern

  /** The contact columns a term may name, and the field each one reads. */
  const COLUMNS: set<string> := {"email", "name", "first_name", "last_name", "company_name", "country_code"}

  const AUDIENCE: string := "mailing_audience_id"

  const LIST_OPS: set<string> := {"in", "not in"}

  const SCALAR_OPS: set<string> := {"=", "!=", "like", "not like"}

  function TextOf(row: Contact, column: string): string {
    if column == "email" then row.email
    else
      var field := if column == "name" then row.name
                   else if column == "first_name" then row.firstName
                   else if column == "last_name" then row.lastName
                   else if column == "company_name" then row.companyName
                   else row.countryCode;
      if field.Some? then field.value else ""
  }

  /** The term says this field, operator and value, in either spelling. */
  predicate Says(tj: Json, field: string, op: string, value: Json) {
    || tj == JArr([JStr(field), JStr(op), value])
    || (tj.JObj? && "field" in tj.fields && "op" in tj.fields && "value" in tj.fields
        && tj.fields["field"] == JStr(field) && tj.fields["op"] == JStr(op) && tj.fields["value"] == value)
  }

  lemma {:induction false} ColumnNames(column: string)
    ensures FieldOf(column).Some? && !FieldOf(column).value.AudienceId? <==> column in COLUMNS
    ensures column in COLUMNS ==> forall row: Contact :: Column(row, FieldOf(column).value) == TextOf(row, column)
    ensures FieldOf(column) == Some(AudienceId) <==> column == AUDIENCE
  {}

  lemma {:induction false} OpNames(op: string)
    ensures OpOf(op).Some? <==> op in LIST_OPS + SCALAR_OPS
    ensures OpOf(op).Some? ==> (TakesList(OpOf(op).value) <==> op in LIST_OPS)
    ensures OpOf("=") == Some(Eq) && OpOf("!=") == Some(Ne) && OpOf("in") == Some(In)
    ensures OpOf("not in") == Some(NotIn) && OpOf("like") == Some(Like) && OpOf("not like") == Some(NotLike)
  {}

  lemma {:induction false} PiecesAreSaid(tj: Json, index: nat, field: string, op: string, value: Json)
    ensures PiecesOf(tj, index) == Ok(Pieces(field, op, value)) <==> Says(tj, field, op, value)
  {}

  /** One string, as such or in a list of one. */
  predicate IsScalar(value: Json, v: string) {
    value == JStr(v) || value == JArr([JStr(v)])
  }

  // ----- what one term selects -------------------------------------------------------------

  /** A domain of one term, as written, is read as that term. */
  lemma {:induction false} OneTermReads(tj: Json, field: string, op: string, value: Json, uuidOf: UuidReader)
    requires Says(tj, field, op, value) && FieldOf(field).Some? && OpOf(op).Some?
    requires ValuesOf(OpOf(op).value, value, 0).Ok?
    requires field == AUDIENCE ==> forall v :: v in ValuesOf(OpOf(op).value, value, 0).value ==> uuidOf(v).Some?
    ensures Parse(JArr([tj]), uuidOf)
         == Ok([Term(FieldOf(field).value, OpOf(op).value, ValuesOf(OpOf(op).value, value, 0).value)])
  {
    PiecesAreSaid(tj, 0, field, op, value);
    ColumnNames(field);
    FirstBadIsExact(ValuesOf(OpOf(op).value, value, 0).value, uuidOf);
    var read := ReaderFor(uuidOf);
    var term := Term(FieldOf(field).value, OpOf(op).value, ValuesOf(OpOf(op).value, value, 0).value);
    assert read([tj][0], 0) == Ok(term);
    assert ReadAll([tj], 1, read) == Ok([]);
    assert [term] + [] == [term];
  }

  /** A domain of one column term selects the live contacts the term holds of. */
  lemma {:induction false} OneColumnTermMeans(term: Term, t: Tables, fold: Fold, uuidOf: UuidReader, c: Id)
    requires c < |t.contacts| && !term.field.AudienceId?
    ensures Meant([term], t, fold, uuidOf, c) <==> !t.contacts[c].deleted && TermHolds(term, t.contacts[c], fold)
  {
    assert forall x :: x in [term] <==> x == term;
    assert forall side: Side, a: Id :: !Names([term], side, uuidOf, a);
  }

  /** Every further column term narrows the selection to the contacts it holds of. */
  lemma {:induction false} ColumnTermsConjoin(d: seq<Term>, term: Term, t: Tables, fold: Fold, uuidOf: UuidReader,
          c: Id)
    requires c < |t.contacts| && !term.field.AudienceId?
    ensures Meant(d + [term], t, fold, uuidOf, c) <==>
            Meant(d, t, fold, uuidOf, c) && TermHolds(term, t.contacts[c], fold)
  {
    assert forall x :: x in d + [term] <==> x in d || x == term;
    forall side: Side, a: Id
      ensures Names(d + [term], side, uuidOf, a) <==> Names(d, side, uuidOf, a)
    {}
    assert TargetsReach(d + [term], t, uuidOf, c) <==> TargetsReach(d, t, uuidOf, c);
    assert ExclusionsMiss(d + [term], t, uuidOf, c) <==> ExclusionsMiss(d, t, uuidOf, c);
  }

  /** The texts are the same, character by character, up to folding. */
  predicate SameFolded(fold: Fold, a: string, b: string) {
    |a| == |b| && forall i :: 0 <= i < |a| ==> fold(a[i]) == fold(b[i])
  }

  /** The stretch of the text from `k` on is the value, up to folding. */
  predicate StandsAt(fold: Fold, text: string, v: string, k: nat) {
    k + |v| <= |text| && SameFolded(fold, text[k..k + |v|], v)
  }

  predicate OccursFolded(fold: Fold, text: string, v: string) {
    exists k: nat :: k <= |text| && StandsAt(fold, text, v, k)
  }

  lemma {:induction false} LowerIsFolding(fold: Fold, a: string, b: string)
    ensures Lower(fold, a) == Lower(fold, b) <==> SameFolded(fold, a, b)
  {
    if Lower(fold, a) == Lower(fold, b) {
      forall i | 0 <= i < |a|
        ensures fold(a[i]) == fold(b[i])
      {
        assert Lower(fold, a)[i] == Lower(fold, b)[i];
      }
    }
  }

  lemma {:induction false} OccursIsFolding(fold: Fold, text: string, v: string)
    ensures Occurs(Lower(fold, text), Lower(fold, v)) <==> OccursFolded(fold, text, v)
  {
    var s, p := Lower(fold, text), Lower(fold, v);
    forall k: nat | k <= |text|
      ensures p <= s[k..] <==> StandsAt(fold, text, v, k)
    {
      if k + |v| <= |text| {
        assert Lower(fold, text[k..k + |v|]) == s[k..][..|p|];
        LowerIsFolding(fold, text[k..k + |v|], v);
      }
    }
  }

  /** `=` and `!=` on a column: the folded texts are the same, or are not. */
  lemma {:induction false} EqualityMeans(tj: Json, column: string, op: string, value: Json, v: string, t: Tables,
          fold: Fold, uuidOf: UuidReader, c: Id)
    requires Says(tj, column, op, value) && IsScalar(value, v) && column in COLUMNS && op in {"=", "!="}
    requires c < |t.contacts|
    ensures var d := Parse(JArr([tj]), uuidOf);
            var same := SameFolded(fold, TextOf(t.contacts[c], column), v);
            d.Ok? && (Meant(d.value, t, fold, uuidOf, c) <==> !t.contacts[c].deleted && (same <==> op == "="))
  {
    ColumnNames(column);
    OpNames(op);
    OneTermReads(tj, column, op, value, uuidOf);
    OneColumnTermMeans(Term(FieldOf(column).value, OpOf(op).value, [v]), t, fold, uuidOf, c);
    LowerIsFolding(fold, TextOf(t.contacts[c], column), v);
  }

  /** `in` and `not in` on a column: some listed text is the same up to folding, or none is. */
  lemma {:induction false} MembershipMeans(tj: Json, column: string, op: string, vs: seq<string>, t: Tables, fold: Fold,
          uuidOf: UuidReader, c: Id)
    requires Says(tj, column, op, JArr(JStrings(vs))) && column in COLUMNS && op in LIST_OPS && c < |t.contacts|
    ensures var d := Parse(JArr([tj]), uuidOf);
            var listed := exists v :: v in vs && SameFolded(fold, TextOf(t.contacts[c], column), v);
            d.Ok? && (Meant(d.value, t, fold, uuidOf, c) <==> !t.contacts[c].deleted && (listed <==> op == "in"))
  {
    ColumnNames(column);
    OpNames(op);
    assert AllStrings(JStrings(vs)) && StringsOf(JStrings(vs)) == vs;
    OneTermReads(tj, column, op, JArr(JStrings(vs)), uuidOf);
    OneColumnTermMeans(Term(FieldOf(column).value, OpOf(op).value, vs), t, fold, uuidOf, c);
    forall v | v in vs
      ensures Lower(fold, TextOf(t.contacts[c], column)) == Lower(fold, v)
         <==> SameFolded(fold, TextOf(t.contacts[c], column), v)
    {
      LowerIsFolding(fold, TextOf(t.contacts[c], column), v);
    }
  }

  /** `like` and `not like` on a column, for a value without wildcards: the folded value occurs, or does not. */
  lemma {:induction false} LikeMeans(tj: Json, column: string, op: string, value: Json, v: string, t: Tables,
          fold: Fold, uuidOf: UuidReader, c: Id)
    requires Says(tj, column, op, value) && IsScalar(value, v) && column in COLUMNS && op in {"like", "not like"}
    requires c < |t.contacts|
    requires KeepsWildcards(fold) && Plain(v)
    ensures var d := Parse(JArr([tj]), uuidOf);
            var found := OccursFolded(fold, TextOf(t.contacts[c], column), v);
            d.Ok? && (Meant(d.value, t, fold, uuidOf, c) <==> !t.contacts[c].deleted && (found <==> op == "like"))
  {
    ColumnNames(column);
    OpNames(op);
    OneTermReads(tj, column, op, value, uuidOf);
    OneColumnTermMeans(Term(FieldOf(column).value, OpOf(op).value, [v]), t, fold, uuidOf, c);
    PlainLikeMeansContains(fold, TextOf(t.contacts[c], column), v);
    OccursIsFolding(fold, TextOf(t.contacts[c], column), v);
  }

  /** The contact is on some list whose id one of these values denotes, live, and still in unless told otherwise. */
  ghost predicate OnSomeList(t: Tables, c: Id, vs: seq<string>, uuidOf: UuidReader, evenIfOut: bool) {
    exists s :: 0 <= s < |t.subs| && !t.subs[s].deleted && t.subs[s].contact == c
                && (evenIfOut || !t.subs[s].optOut) && Resolver.Lists(vs, uuidOf, t.subs[s].audience)
  }

  lemma {:induction false} OneAudienceTermMeans(term: Term, t: Tables, fold: Fold, uuidOf: UuidReader, c: Id)
    requires c < |t.contacts| && term.field.AudienceId? && !term.op.Like? && !term.op.NotLike?
    requires forall v :: v in term.values ==> uuidOf(v).Some?
    ensures Meant([term], t, fold, uuidOf, c) <==>
            !t.contacts[c].deleted
            && if OnSide(term, Targets) then term.values == [] || OnSomeList(t, c, term.values, uuidOf, false)
               else !OnSomeList(t, c, term.values, uuidOf, true)
  {
    assert forall x :: x in [term] <==> x == term;
    forall side: Side, a: Id
      ensures Names([term], side, uuidOf, a) <==> OnSide(term, side) && Resolver.Lists(term.values, uuidOf, a)
    {}
    if term.values != [] {
      assert Resolver.Lists(term.values, uuidOf, uuidOf(term.values[0]).value);
    }
    if OnSide(term, Targets) && term.values != [] {
      assert Names([term], Targets, uuidOf, uuidOf(term.values[0]).value);
    }
  }

  /**
   * `=` and `in` on the audience ask for a live subscription that is still in, to one of those named;
   * `!=` and `not in` ask that there be none, opted out or not.
   */
  lemma {:induction false} AudienceMeans(tj: Json, op: string, value: Json, vs: seq<string>, t: Tables, fold: Fold,
          uuidOf: UuidReader, c: Id)
    requires Says(tj, AUDIENCE, op, value) && c < |t.contacts|
    requires if op in LIST_OPS then value == JArr(JStrings(vs))
             else op in {"=", "!="} && |vs| == 1 && IsScalar(value, vs[0])
    requires forall v :: v in vs ==> uuidOf(v).Some?
    ensures var d := Parse(JArr([tj]), uuidOf);
            d.Ok? && (Meant(d.value, t, fold, uuidOf, c) <==>
                      !t.contacts[c].deleted
                      && if op in {"=", "in"} then vs == [] || OnSomeList(t, c, vs, uuidOf, false)
                         else !OnSomeList(t, c, vs, uuidOf, true))
  {
    ColumnNames(AUDIENCE);
    OpNames(op);
    assert AllStrings(JStrings(vs)) && StringsOf(JStrings(vs)) == vs;
    assert op !in LIST_OPS ==> vs == [vs[0]];
    OneTermReads(tj, AUDIENCE, op, value, uuidOf);
    OneAudienceTermMeans(Term(AudienceId, OpOf(op).value, vs), t, fold, uuidOf, c);
  }

  // ----- the adopted default ---------------------------------------------------------------

  /**
   * What create stores for an empty domain on a target with a default: the one term `email != ""`,
   * which selects exactly the live contacts that have an address.
   */
  lemma {:induction false} AdoptedDefaultMeans(target: string, t: Tables, fold: Fold, uuidOf: UuidReader, c: Id)
    requires c < |t.contacts|
    ensures var stored := DomainToStore([], target, uuidOf);
            && stored == Ok(if target == "selling_customer" then [Term(Email, Ne, [""])] else [])
            && (Meant(stored.value, t, fold, uuidOf, c) <==>
                !t.contacts[c].deleted && (target == "selling_customer" ==> t.contacts[c].email != ""))
  {
    if target == "selling_customer" {
      var tj := JObj(map["field" := JStr("email"), "op" := JStr("!="), "value" := JStr("")]);
      ColumnNames("email");
      OpNames("!=");
      OneTermReads(tj, "email", "!=", JStr(""), uuidOf);
      OneColumnTermMeans(Term(Email, Ne, [""]), t, fold, uuidOf, c);
      assert t.contacts[c].email != "" <==> Lower(fold, t.contacts[c].email) != Lower(fold, "");
    } else {
      assert forall side: Side, a: Id :: !Names([], side, uuidOf, a);
    }
  }

  // ----- what is stored --------------------------------------------------------------------

  /** A stored domain is an array of objects with just these three keys, a list operator's value always an array. */
  lemma {:induction false} StoredAsObjects(d: seq<Term>, i: nat)
    requires i < |d|
    ensures var stored, t := Canonical(d), d[i];
            && stored.JArr? && |stored.items| == |d| && stored.items[i].JObj?
            && var fields := stored.items[i].fields;
               && fields.Keys == {"field", "op", "value"}
               && fields["field"].JStr? && FieldOf(fields["field"].s) == Some(t.field)
               && fields["op"].JStr? && OpOf(fields["op"].s) == Some(t.op)
               && fields["value"] == if (t.op.In? || t.op.NotIn?) || |t.values| != 1 then JArr(JStrings(t.values))
                                     else JStr(t.values[0])
  {}

  // ----- what is refused -------------------------------------------------------------------

  predicate HasText(tj: Json, key: string)
    requires tj.JObj?
  {
    key in tj.fields && tj.fields[key].JStr?
  }

  /** A non-term: neither three pieces nor an object that says its value. */
  predicate IsShapeless(tj: Json) {
    || (!tj.JArr? && !tj.JObj?)
    || (tj.JArr? && |tj.items| != 3)
    || (tj.JObj? && HasText(tj, "field") && HasText(tj, "op") && "value" !in tj.fields)
  }

  predicate IsText(value: Json) {
    value.JStr? || (value.JArr? && |value.items| == 1 && value.items[0].JStr?)
  }

  predicate IsTexts(value: Json) {
    value.JArr? && forall i :: 0 <= i < |value.items| ==> value.items[i].JStr?
  }

  /**
   * Refuse loudly, and for the right reason: each refusal of a term, exactly when it is given, in
   * terms of what the JSON says.
   */
  lemma {:induction false} RefusedBecause(tj: Json, index: nat, uuidOf: UuidReader)
    ensures var r := ParseTerm(tj, index, uuidOf);
            && (r == Err(MalformedTerm(index)) <==> IsShapeless(tj))
            && (r == Err(FieldNotString(index)) <==>
                if tj.JArr? then |tj.items| == 3 && !tj.items[0].JStr? else tj.JObj? && !HasText(tj, "field"))
            && (tj.JArr? && |tj.items| == 3 && tj.items[0].JStr? && !tj.items[1].JStr? ==> r == Err(UnknownOp(index)))
            && (tj.JObj? && HasText(tj, "field") && !HasText(tj, "op") ==> r == Err(UnknownOp(index)))
  {}

  lemma {:induction false} ValuesRefusedBecause(op: string, value: Json, index: nat)
    requires op in LIST_OPS + SCALAR_OPS
    ensures OpOf(op).Some?
    ensures var r := ValuesOf(OpOf(op).value, value, index);
            && (r.Ok? <==> if op in LIST_OPS then IsTexts(value) else IsText(value))
            && (r.Err? ==> r.error == if op in LIST_OPS then ValueNotArray(index) else ValueNotScalar(index))
  {
    OpNames(op);
  }

  /** Once the pieces are there: first the field, then the operator, then the shape of the value, then uuids. */
  lemma {:induction false} SaidIsRefusedBecause(tj: Json, index: nat, field: string, op: string, value: Json,
          uuidOf: UuidReader)
    requires Says(tj, field, op, value)
    ensures var r := ParseTerm(tj, index, uuidOf);
            if field !in COLUMNS && field != AUDIENCE then r == Err(UnknownField(field))
            else if op !in LIST_OPS + SCALAR_OPS then r == Err(UnknownOp(index))
            else if op in LIST_OPS && !IsTexts(value) then r == Err(ValueNotArray(index))
            else if op in SCALAR_OPS && !IsText(value) then r == Err(ValueNotScalar(index))
            else if r.Ok? then field == AUDIENCE ==> forall v :: v in r.value.values ==> uuidOf(v).Some?
            else field == AUDIENCE && r.error == BadAudienceUuid(index, r.error.raw) && uuidOf(r.error.raw).None?
  {
    PiecesAreSaid(tj, index, field, op, value);
    ColumnNames(field);
    OpNames(op);
    if (field in COLUMNS || field == AUDIENCE) && op in LIST_OPS + SCALAR_OPS {
      ValuesRefusedBecause(op, value, index);
      var values := ValuesOf(OpOf(op).value, value, index);
      if values.Ok? {
        FirstBadIsExact(values.value, uuidOf);
      }
    }
  }
}
