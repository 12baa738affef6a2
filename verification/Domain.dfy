/**
 * The mailing domain language: the refuse-loudly parser over JSON, the canonical printer, and the
 * round trips between them.
 */
module Domain {
  import opened MailTypes

  datatype Json =
    | JNull
    | JBool(b: bool)
    | JNum(n: int)
    | JStr(s: string)
    | JArr(items: seq<Json>)
    | JObj(fields: map<string, Json>)

  datatype Field = Email | Name | FirstName | LastName | CompanyName | CountryCode | AudienceId

  datatype Op = Eq | Ne | In | NotIn | Like | NotLike

  datatype Term = Term(field: Field, op: Op, values: seq<string>)

  datatype DomainInvalid =
    | NotAnArray
    | MalformedTerm(index: nat)
    | FieldNotString(index: nat)
    | UnknownField(raw: string)
    | UnknownOp(index: nat)
    | ValueNotArray(index: nat)
    | ValueNotScalar(index: nat)
    | BadAudienceUuid(index: nat, raw: string)

  /** The uuid reader: what identity a string denotes, if it is a uuid at all. */
  type UuidReader = string -> Option<Id>

  // ----- names -----------------------------------------------------------------------------

  function FieldOf(raw: string): Option<Field> {
    if raw == "email" then Some(Email)
    else if raw == "name" then Some(Name)
    else if raw == "first_name" then Some(FirstName)
    else if raw == "last_name" then Some(LastName)
    else if raw == "company_name" then Some(CompanyName)
    else if raw == "country_code" then Some(CountryCode)
    else if raw == "mailing_audience_id" then Some(AudienceId)
    else None
  }

  function FieldName(f: Field): (name: string)
    ensures FieldOf(name) == Some(f)
  {
    match f
    case Email => "email"
    case Name => "name"
    case FirstName => "first_name"
    case LastName => "last_name"
    case CompanyName => "company_name"
    case CountryCode => "country_code"
    case AudienceId => "mailing_audience_id"
  }

  function OpOf(raw: string): Option<Op> {
    if raw == "=" then Some(Eq)
    else if raw == "!=" then Some(Ne)
    else if raw == "in" then Some(In)
    else if raw == "not in" then Some(NotIn)
    else if raw == "like" then Some(Like)
    else if raw == "not like" then Some(NotLike)
    else None
  }

  function OpName(op: Op): (name: string)
    ensures OpOf(name) == Some(op)
  {
    match op
    case Eq => "="
    case Ne => "!="
    case In => "in"
    case NotIn => "not in"
    case Like => "like"
    case NotLike => "not like"
  }

  predicate TakesList(op: Op) {
    op.In? || op.NotIn?
  }

  // ----- the parser's meaning, term by term ------------------------------------------------

  datatype Pieces = Pieces(field: string, op: string, value: Json)

  /** The three pieces of a term, in either accepted spelling. */
  function PiecesOf(tj: Json, index: nat): Result<Pieces, DomainInvalid> {
    match tj
    case JArr(arr) =>
      if |arr| != 3 then Err(MalformedTerm(index))
      else if !arr[0].JStr? then Err(FieldNotString(index))
      else if !arr[1].JStr? then Err(UnknownOp(index))
      else Ok(Pieces(arr[0].s, arr[1].s, arr[2]))
    case JObj(obj) =>
      if "field" !in obj || !obj["field"].JStr? then Err(FieldNotString(index))
      else if "op" !in obj || !obj["op"].JStr? then Err(UnknownOp(index))
      else if "value" !in obj then Err(MalformedTerm(index))
      else Ok(Pieces(obj["field"].s, obj["op"].s, obj["value"]))
    case _ => Err(MalformedTerm(index))
  }

  predicate AllStrings(items: seq<Json>) {
    forall i :: 0 <= i < |items| ==> items[i].JStr?
  }

  function StringsOf(items: seq<Json>): (r: seq<string>)
    requires AllStrings(items)
    ensures |r| == |items| && forall i :: 0 <= i < |r| ==> JStr(r[i]) == items[i]
  {
    seq(|items|, i requires 0 <= i < |items| && items[i].JStr? => items[i].s)
  }

  function ValuesOf(op: Op, value: Json, index: nat): Result<seq<string>, DomainInvalid> {
    if TakesList(op) then
      if value.JArr? && AllStrings(value.items) then Ok(StringsOf(value.items)) else Err(ValueNotArray(index))
    else if value.JStr? then Ok([value.s])
    else if value.JArr? && |value.items| == 1 && value.items[0].JStr? then Ok([value.items[0].s])
    else Err(ValueNotScalar(index))
  }

  /** The first value that is no uuid, if any. */
  function FirstBad(values: seq<string>, uuidOf: UuidReader): Option<string> {
    if values == [] then None
    else if uuidOf(values[0]).None? then Some(values[0])
    else FirstBad(values[1..], uuidOf)
  }

  /** The whitelist over the pieces: field, then operator, then value shape, then uuids. */
  function ParsePieces(p: Pieces, index: nat, uuidOf: UuidReader): Result<Term, DomainInvalid> {
    if FieldOf(p.field).None? then Err(UnknownField(p.field))
    else if OpOf(p.op).None? then Err(UnknownOp(index))
    else
      var field, op := FieldOf(p.field).value, OpOf(p.op).value;
      match ValuesOf(op, p.value, index)
      case Err(e) => Err(e)
      case Ok(values) =>
        if field.AudienceId? && FirstBad(values, uuidOf).Some?
        then Err(BadAudienceUuid(index, FirstBad(values, uuidOf).value))
        else Ok(Term(field, op, values))
  }

  function ParseTerm(tj: Json, index: nat, uuidOf: UuidReader): Result<Term, DomainInvalid> {
    match PiecesOf(tj, index)
    case Err(e) => Err(e)
    case Ok(p) => ParsePieces(p, index, uuidOf)
  }

  type TermReader = (Json, nat) -> Result<Term, DomainInvalid>

  function ReaderFor(uuidOf: UuidReader): TermReader {
    (tj: Json, index: nat) => ParseTerm(tj, index, uuidOf)
  }

  function Prepend(done: seq<Term>, rest: Result<seq<Term>, DomainInvalid>): Result<seq<Term>, DomainInvalid> {
    if rest.Ok? then Ok(done + rest.value) else rest
  }

  /** Read the items from `index` on; the first refusal is the refusal of the whole. */
  function ReadAll(items: seq<Json>, index: nat, read: TermReader): Result<seq<Term>, DomainInvalid>
    requires index <= |items|
    decreases |items| - index
  {
    if index == |items| then Ok([])
    else if read(items[index], index).Err? then Err(read(items[index], index).error)
    else Prepend([read(items[index], index).value], ReadAll(items, index + 1, read))
  }

  function Parse(raw: Json, uuidOf: UuidReader): Result<seq<Term>, DomainInvalid> {
    if raw.JArr? then ReadAll(raw.items, 0, ReaderFor(uuidOf)) else Err(NotAnArray)
  }

  // ----- the parser as the source runs it --------------------------------------------------

  lemma {:induction false} PrependNothing(rest: Result<seq<Term>, DomainInvalid>)
    ensures Prepend([], rest) == rest
  {
    if rest.Ok? {
      assert [] + rest.value == rest.value;
    }
  }

  /** One more item read: the verdict is what was read so far in front of the verdict on the rest. */
  lemma {:induction false} ReadStep(items: seq<Json>, index: nat, read: TermReader, done: seq<Term>)
    requires index < |items| && read(items[index], index).Ok?
    ensures Prepend(done, ReadAll(items, index, read))
         == Prepend(done + [read(items[index], index).value], ReadAll(items, index + 1, read))
  {
    var t := read(items[index], index).value;
    var rest := ReadAll(items, index + 1, read);
    if rest.Ok? {
      assert done + ([t] + rest.value) == done + [t] + rest.value;
    }
  }

  /** The value loop of a list term: stop at the first element that is no string. */
  method ReadStrings(items: seq<Json>) returns (vs: Option<seq<string>>)
    ensures vs == if AllStrings(items) then Some(StringsOf(items)) else None
  {
    var out: seq<string> := [];
    for i := 0 to |items|
      invariant AllStrings(items[..i]) && out == StringsOf(items[..i])
    {
      if !items[i].JStr? {
        return None;
      }
      assert items[..i + 1] == items[..i] + [items[i]];
      out := out + [items[i].s];
    }
    assert items[..|items|] == items;
    return Some(out);
  }

  /** The uuid loop of an audience term. */
  method FindBadUuid(values: seq<string>, uuidOf: UuidReader) returns (bad: Option<string>)
    ensures bad == FirstBad(values, uuidOf)
  {
    for i := 0 to |values|
      invariant FirstBad(values, uuidOf) == FirstBad(values[i..], uuidOf)
    {
      if uuidOf(values[i]).None? {
        return Some(values[i]);
      }
    }
    return None;
  }

  method ReadValues(op: Op, value: Json, index: nat) returns (r: Result<seq<string>, DomainInvalid>)
    ensures r == ValuesOf(op, value, index)
  {
    if TakesList(op) {
      if !value.JArr? {
        return Err(ValueNotArray(index));
      }
      var vs := ReadStrings(value.items);
      return if vs.Some? then Ok(vs.value) else Err(ValueNotArray(index));
    }
    if value.JStr? {
      return Ok([value.s]);
    }
    if value.JArr? && |value.items| == 1 && value.items[0].JStr? {
      return Ok([value.items[0].s]);
    }
    return Err(ValueNotScalar(index));
  }

  method ReadTerm(tj: Json, index: nat, uuidOf: UuidReader) returns (r: Result<Term, DomainInvalid>)
    ensures r == ReaderFor(uuidOf)(tj, index)
  {
    var pieces := PiecesOf(tj, index);
    if pieces.Err? {
      return Err(pieces.error);
    }
    var field, op := FieldOf(pieces.value.field), OpOf(pieces.value.op);
    if field.None? {
      return Err(UnknownField(pieces.value.field));
    }
    if op.None? {
      return Err(UnknownOp(index));
    }
    var values := ReadValues(op.value, pieces.value.value, index);
    if values.Err? {
      return Err(values.error);
    }
    if field.value.AudienceId? {
      var bad := FindBadUuid(values.value, uuidOf);
      if bad.Some? {
        return Err(BadAudienceUuid(index, bad.value));
      }
    }
    return Ok(Term(field.value, op.value, values.value));
  }

  method ReadTerms(items: seq<Json>, uuidOf: UuidReader) returns (r: Result<seq<Term>, DomainInvalid>)
    ensures r == ReadAll(items, 0, ReaderFor(uuidOf))
  {
    var terms: seq<Term> := [];
    ghost var read := ReaderFor(uuidOf);
    PrependNothing(ReadAll(items, 0, read));
    for index := 0 to |items|
      invariant ReadAll(items, 0, read) == Prepend(terms, ReadAll(items, index, read))
    {
      var term := ReadTerm(items[index], index, uuidOf);
      if term.Err? {
        return Err(term.error);
      }
      ReadStep(items, index, read, terms);
      terms := terms + [term.value];
    }
    assert terms + [] == terms;
    return Ok(terms);
  }

  method ParseDomain(raw: Json, uuidOf: UuidReader) returns (r: Result<seq<Term>, DomainInvalid>)
    ensures r == Parse(raw, uuidOf)
  {
    if !raw.JArr? {
      return Err(NotAnArray);
    }
    r := ReadTerms(raw.items, uuidOf);
  }

  /**
   * Refuse loudly, both ways: a list parses exactly when each of its items does, and then item for
   * item; otherwise the verdict is that of the first item refused.
   */
  lemma {:induction false} ReadsItemByItem(items: seq<Json>, index: nat, read: TermReader)
    requires index <= |items|
    ensures ReadAll(items, index, read).Ok? <==> forall i :: index <= i < |items| ==> read(items[i], i).Ok?
    ensures ReadAll(items, index, read).Ok? ==>
              && |ReadAll(items, index, read).value| == |items| - index
              && forall i :: index <= i < |items| ==>
                  read(items[i], i) == Ok(ReadAll(items, index, read).value[i - index])
    ensures ReadAll(items, index, read).Err? ==>
              exists i :: index <= i < |items| && read(items[i], i) == Err(ReadAll(items, index, read).error)
                          && forall j :: index <= j < i ==> read(items[j], j).Ok?
    decreases |items| - index
  {
    if index < |items| && read(items[index], index).Ok? {
      ReadsItemByItem(items, index + 1, read);
    }
  }

  // ----- the canonical form ----------------------------------------------------------------

  function JStrings(values: seq<string>): seq<Json> {
    seq(|values|, i requires 0 <= i < |values| => JStr(values[i]))
  }

  function CanonicalTerm(t: Term): Json {
    var value := if |t.values| == 1 && !TakesList(t.op) then JStr(t.values[0]) else JArr(JStrings(t.values));
    JObj(map["field" := JStr(FieldName(t.field)), "op" := JStr(OpName(t.op)), "value" := value])
  }

  function Canonical(d: seq<Term>): Json {
    JArr(seq(|d|, i requires 0 <= i < |d| => CanonicalTerm(d[i])))
  }

  /** What a stored term must satisfy to be read back. */
  predicate WellFormed(t: Term, uuidOf: UuidReader) {
    && (!TakesList(t.op) ==> |t.values| == 1)
    && (t.field.AudienceId? ==> forall v :: v in t.values ==> uuidOf(v).Some?)
  }

  lemma {:induction false} FirstBadIsExact(values: seq<string>, uuidOf: UuidReader)
    ensures FirstBad(values, uuidOf).None? <==> forall v :: v in values ==> uuidOf(v).Some?
    ensures FirstBad(values, uuidOf).Some? ==>
              FirstBad(values, uuidOf).value in values && uuidOf(FirstBad(values, uuidOf).value).None?
  {
    if values != [] {
      FirstBadIsExact(values[1..], uuidOf);
      assert forall v :: v in values <==> v == values[0] || v in values[1..];
    }
  }

  lemma {:induction false} ParsedTermIsWellFormed(tj: Json, index: nat, uuidOf: UuidReader)
    requires ParseTerm(tj, index, uuidOf).Ok?
    ensures WellFormed(ParseTerm(tj, index, uuidOf).value, uuidOf)
  {
    FirstBadIsExact(ParseTerm(tj, index, uuidOf).value.values, uuidOf);
  }

  lemma {:induction false} CanonicalTermReadsBack(t: Term, index: nat, uuidOf: UuidReader)
    ensures ParseTerm(CanonicalTerm(t), index, uuidOf) == Ok(t) <==> WellFormed(t, uuidOf)
    ensures ParseTerm(CanonicalTerm(t), index, uuidOf).Ok? ==> ParseTerm(CanonicalTerm(t), index, uuidOf) == Ok(t)
  {
    FirstBadIsExact(t.values, uuidOf);
    var js := JStrings(t.values);
    assert AllStrings(js) && StringsOf(js) == t.values;
    if |t.values| == 1 {
      assert [t.values[0]] == t.values;
    }
  }

  /** The printed form of a domain reads back as that very domain exactly when every term is well-formed. */
  lemma {:induction false} RoundTripIff(d: seq<Term>, uuidOf: UuidReader)
    ensures Parse(Canonical(d), uuidOf) == Ok(d) <==> forall t :: t in d ==> WellFormed(t, uuidOf)
    ensures Parse(Canonical(d), uuidOf).Ok? ==> Parse(Canonical(d), uuidOf) == Ok(d)
  {
    var items := Canonical(d).items;
    ReadsItemByItem(items, 0, ReaderFor(uuidOf));
    forall i | 0 <= i < |d|
      ensures ParseTerm(items[i], i, uuidOf) == Ok(d[i]) <==> WellFormed(d[i], uuidOf)
      ensures ParseTerm(items[i], i, uuidOf).Ok? ==> ParseTerm(items[i], i, uuidOf) == Ok(d[i])
    {
      CanonicalTermReadsBack(d[i], i, uuidOf);
    }
    if Parse(Canonical(d), uuidOf).Ok? {
      var back := Parse(Canonical(d), uuidOf).value;
      assert forall i :: 0 <= i < |d| ==> back[i] == d[i];
      assert back == d;
    }
  }

  /** For every raw value that parses: reading the canonical form gives the same domain, and printing is a fixpoint. */
  lemma {:induction false} ParseCanonicalParse(raw: Json, uuidOf: UuidReader)
    requires Parse(raw, uuidOf).Ok?
    ensures var d := Parse(raw, uuidOf).value;
            Parse(Canonical(d), uuidOf) == Ok(d) && Canonical(Parse(Canonical(d), uuidOf).value) == Canonical(d)
    ensures forall t :: t in Parse(raw, uuidOf).value ==> WellFormed(t, uuidOf)
  {
    var d := Parse(raw, uuidOf).value;
    ReadsItemByItem(raw.items, 0, ReaderFor(uuidOf));
    forall t | t in d
      ensures WellFormed(t, uuidOf)
    {
      var i :| 0 <= i < |d| && d[i] == t;
      ParsedTermIsWellFormed(raw.items[i], i, uuidOf);
    }
    RoundTripIff(d, uuidOf);
  }

  /** Two spellings of one term: a triple, or an object carrying the three keys (and any others). */
  predicate Spells(tj: Json, p: Pieces) {
    || tj == JArr([JStr(p.field), JStr(p.op), p.value])
    || (tj.JObj? && "field" in tj.fields && "op" in tj.fields && "value" in tj.fields
        && tj.fields["field"] == JStr(p.field) && tj.fields["op"] == JStr(p.op) && tj.fields["value"] == p.value)
  }

  lemma {:induction false} ReadersAgree(a: seq<Json>, b: seq<Json>, index: nat, read: TermReader)
    requires |a| == |b| && index <= |a|
    requires forall i :: index <= i < |a| ==> read(a[i], i) == read(b[i], i)
    ensures ReadAll(a, index, read) == ReadAll(b, index, read)
    decreases |a| - index
  {
    if index < |a| {
      ReadersAgree(a, b, index + 1, read);
    }
  }

  lemma {:induction false} SpellingReads(tj: Json, p: Pieces, index: nat, uuidOf: UuidReader)
    requires Spells(tj, p)
    ensures ReaderFor(uuidOf)(tj, index) == ParsePieces(p, index, uuidOf)
  {
    assert PiecesOf(tj, index) == Ok(p);
  }

  /** Spelling does not matter: the same pieces give the same verdict, hence the same canonical form. */
  lemma {:induction false} SpellingsAgree(a: seq<Json>, b: seq<Json>, pieces: seq<Pieces>, uuidOf: UuidReader)
    requires |a| == |b| == |pieces|
    requires forall i :: 0 <= i < |a| ==> Spells(a[i], pieces[i]) && Spells(b[i], pieces[i])
    ensures Parse(JArr(a), uuidOf) == Parse(JArr(b), uuidOf)
  {
    var read := ReaderFor(uuidOf);
    forall i | 0 <= i < |a|
      ensures read(a[i], i) == read(b[i], i)
    {
      SpellingReads(a[i], pieces[i], i, uuidOf);
      SpellingReads(b[i], pieces[i], i, uuidOf);
    }
    ReadersAgree(a, b, 0, read);
  }

  // ----- what create stores ----------------------------------------------------------------

  function DefaultDomainFor(target: string): Option<Json> {
    if target == "selling_customer"
    then Some(JArr([JObj(map["field" := JStr("email"), "op" := JStr("!="), "value" := JStr("")])]))
    else None
  }

  function DomainToStore(parsed: seq<Term>, target: string, uuidOf: UuidReader): Result<seq<Term>, DomainInvalid> {
    if parsed == [] && DefaultDomainFor(target).Some? then Parse(DefaultDomainFor(target).value, uuidOf) else Ok(parsed)
  }

  /**
   * Every domain that create stores, adopted defaults included, re-parses at claim time to what was
   * stored; and adopting the default never fails.
   */
  lemma {:induction false} StoredDomainsReparse(raw: Json, target: string, uuidOf: UuidReader)
    requires Parse(raw, uuidOf).Ok?
    ensures var stored := DomainToStore(Parse(raw, uuidOf).value, target, uuidOf);
            && stored.Ok?
            && Parse(Canonical(stored.value), uuidOf) == Ok(stored.value)
            && (stored.value == [] <==> Parse(raw, uuidOf).value == [] && target != "selling_customer")
            && (Parse(raw, uuidOf).value != [] ==> stored.value == Parse(raw, uuidOf).value)
            && (Parse(raw, uuidOf).value == [] && target == "selling_customer" ==>
                  stored.value == [Term(Email, Ne, [""])])
  {
    var d := Parse(raw, uuidOf).value;
    ParseCanonicalParse(raw, uuidOf);
    if d == [] && DefaultDomainFor(target).Some? {
      var dflt := DefaultDomainFor(target).value;
      var items := dflt.items;
      assert ParseTerm(items[0], 0, uuidOf) == Ok(Term(Email, Ne, [""]));
      ReadsItemByItem(items, 0, ReaderFor(uuidOf));
      ParseCanonicalParse(dflt, uuidOf);
    }
  }
}
