/**
 * The recipient resolver: a compiled domain becomes one parameterised query over contacts and
 * subscriptions. The query is kept as syntax (predicates that name argument slots, and the argument
 * vector), evaluated, and compared with the direct meaning of the domain.
 */
module Resolver {
  import opened MailTypes
  import opened Domain
  import opened Subscriptions
  import opened LikePattern

  // ----- the query and its evaluation ------------------------------------------------------

  datatype Predicate =
    | AnySubscription(slot: nat)              // EXISTS (live, not opted out, audience = ANY($slot))
    | NoSubscription(slot: nat)               // NOT EXISTS (live, audience = ANY($slot))
    | ColumnAny(field: Field, slot: nat)      // lower(coalesce(col, '')) = ANY($slot)
    | ColumnNotAll(field: Field, slot: nat)   // lower(coalesce(col, '')) <> ALL($slot)
    | ColumnILike(field: Field, slot: nat)    // coalesce(col, '') ILIKE '%' || $slot || '%'
    | ColumnNotILike(field: Field, slot: nat)

  datatype Arg = Uuids(ids: seq<Id>) | Texts(texts: seq<string>) | Text(text: string)

  datatype Query = Query(preds: seq<Predicate>, args: seq<Arg>)

  datatype Tables = Tables(contacts: seq<Contact>, subs: seq<Subscription>)

  /** Case folding, one character at a time. */
  type Fold = char -> char

  function Lower(fold: Fold, s: string): (r: string)
    ensures |r| == |s|
  {
    seq(|s|, i requires 0 <= i < |s| => fold(s[i]))
  }

  function OrEmpty(s: Option<string>): string {
    if s.Some? then s.value else ""
  }

  /** coalesce(col, ''), for the column-backed fields. */
  function Column(c: Contact, f: Field): string {
    match f
    case Email => c.email
    case Name => OrEmpty(c.name)
    case FirstName => OrEmpty(c.firstName)
    case LastName => OrEmpty(c.lastName)
    case CompanyName => OrEmpty(c.companyName)
    case CountryCode => OrEmpty(c.countryCode)
    case AudienceId => ""
  }

  predicate ILike(fold: Fold, text: string, value: string) {
    LikeMatch(Lower(fold, text), Lower(fold, Around(value)))
  }

  predicate Subscribed(t: Tables, c: Id, audiences: seq<Id>, evenIfOut: bool) {
    exists i :: 0 <= i < |t.subs| && !t.subs[i].deleted && t.subs[i].contact == c
                && (evenIfOut || !t.subs[i].optOut) && t.subs[i].audience in audiences
  }

  /** A placeholder $n must name a bound argument of the type the operator expects. */
  predicate Binds(p: Predicate, args: seq<Arg>) {
    && 1 <= p.slot <= |args|
    && match p
       case AnySubscription(n) => args[n - 1].Uuids?
       case NoSubscription(n) => args[n - 1].Uuids?
       case ColumnAny(_, n) => args[n - 1].Texts?
       case ColumnNotAll(_, n) => args[n - 1].Texts?
       case ColumnILike(_, n) => args[n - 1].Text?
       case ColumnNotILike(_, n) => args[n - 1].Text?
  }

  predicate WellBound(q: Query) {
    forall i :: 0 <= i < |q.preds| ==> Binds(q.preds[i], q.args)
  }

  predicate Eval(p: Predicate, args: seq<Arg>, t: Tables, fold: Fold, c: Id)
    requires c < |t.contacts|
  {
    && Binds(p, args)
    && var row := t.contacts[c];
       match p
       case AnySubscription(n) => Subscribed(t, c, args[n - 1].ids, false)
       case NoSubscription(n) => !Subscribed(t, c, args[n - 1].ids, true)
       case ColumnAny(f, n) => Lower(fold, Column(row, f)) in args[n - 1].texts
       case ColumnNotAll(f, n) => Lower(fold, Column(row, f)) !in args[n - 1].texts
       case ColumnILike(f, n) => ILike(fold, Column(row, f), args[n - 1].text)
       case ColumnNotILike(f, n) => !ILike(fold, Column(row, f), args[n - 1].text)
  }

  /** The WHERE clause: the contact is live and every predicate holds. */
  predicate Selects(q: Query, t: Tables, fold: Fold, c: Id)
    requires c < |t.contacts|
  {
    !t.contacts[c].deleted && forall i :: 0 <= i < |q.preds| ==> Eval(q.preds[i], q.args, t, fold, c)
  }

  // ----- the direct meaning ----------------------------------------------------------------

  /** Which way an audience term points. */
  datatype Side = Targets | Exclusions

  predicate OnSide(t: Term, side: Side) {
    t.field.AudienceId? && if side.Targets? then t.op.Eq? || t.op.In? else t.op.Ne? || t.op.NotIn?
  }

  ghost predicate Lists(values: seq<string>, uuidOf: UuidReader, audience: Id) {
    exists v :: v in values && uuidOf(v) == Some(audience)
  }

  /** The audience is named by some term of the domain on that side. */
  ghost predicate Names(d: seq<Term>, side: Side, uuidOf: UuidReader, audience: Id) {
    exists t :: t in d && OnSide(t, side) && Lists(t.values, uuidOf, audience)
  }

  /** What one column term asks of a contact. */
  predicate TermHolds(t: Term, row: Contact, fold: Fold) {
    match t.op
    case Eq => exists v :: v in t.values && Lower(fold, v) == Lower(fold, Column(row, t.field))
    case In => exists v :: v in t.values && Lower(fold, v) == Lower(fold, Column(row, t.field))
    case Ne => forall v :: v in t.values ==> Lower(fold, v) != Lower(fold, Column(row, t.field))
    case NotIn => forall v :: v in t.values ==> Lower(fold, v) != Lower(fold, Column(row, t.field))
    case Like => |t.values| > 0 && ILike(fold, Column(row, t.field), t.values[0])
    case NotLike => |t.values| > 0 && !ILike(fold, Column(row, t.field), t.values[0])
  }

  ghost predicate ColumnsHold(d: seq<Term>, row: Contact, fold: Fold) {
    forall t :: t in d && !t.field.AudienceId? ==> TermHolds(t, row, fold)
  }

  /** A live, not opted-out subscription in some targeted audience, if any audience is targeted. */
  ghost predicate TargetsReach(d: seq<Term>, t: Tables, uuidOf: UuidReader, c: Id) {
    (exists a :: Names(d, Targets, uuidOf, a)) ==>
      exists s :: 0 <= s < |t.subs| && !t.subs[s].deleted && t.subs[s].contact == c && !t.subs[s].optOut
                  && Names(d, Targets, uuidOf, t.subs[s].audience)
  }

  /** No live subscription, opted out or not, in any excluded audience. */
  ghost predicate ExclusionsMiss(d: seq<Term>, t: Tables, uuidOf: UuidReader, c: Id) {
    forall s :: 0 <= s < |t.subs| && !t.subs[s].deleted && t.subs[s].contact == c ==>
      !Names(d, Exclusions, uuidOf, t.subs[s].audience)
  }

  /**
   * The direct meaning of a domain. An empty target list names nobody and so asks nothing, whereas
   * an empty column list is met by nobody. An audience term with `like` or `not like` is on neither
   * side and asks nothing either.
   */
  ghost predicate Meant(d: seq<Term>, t: Tables, fold: Fold, uuidOf: UuidReader, c: Id)
    requires c < |t.contacts|
  {
    && !t.contacts[c].deleted
    && ColumnsHold(d, t.contacts[c], fold)
    && TargetsReach(d, t, uuidOf, c)
    && ExclusionsMiss(d, t, uuidOf, c)
  }

  // ----- what the compiler writes ----------------------------------------------------------

  const NIL: Id := 0

  function IdsIn(values: seq<string>, uuidOf: UuidReader): seq<Id> {
    if values == [] then []
    else [if uuidOf(values[0]).Some? then uuidOf(values[0]).value else NIL] + IdsIn(values[1..], uuidOf)
  }

  /** The values of every audience term on one side, flattened in order. */
  function AudienceIds(d: seq<Term>, side: Side, uuidOf: UuidReader): seq<Id> {
    if d == [] then []
    else (if OnSide(d[0], side) then IdsIn(d[0].values, uuidOf) else []) + AudienceIds(d[1..], side, uuidOf)
  }

  function ColumnPredicate(t: Term, slot: nat): Predicate {
    match t.op
    case Eq => ColumnAny(t.field, slot)
    case In => ColumnAny(t.field, slot)
    case Ne => ColumnNotAll(t.field, slot)
    case NotIn => ColumnNotAll(t.field, slot)
    case Like => ColumnILike(t.field, slot)
    case NotLike => ColumnNotILike(t.field, slot)
  }

  function Lowered(values: seq<string>, fold: Fold): (r: seq<string>)
    ensures |r| == |values| && forall i :: 0 <= i < |r| ==> r[i] == Lower(fold, values[i])
  {
    seq(|values|, i requires 0 <= i < |values| => Lower(fold, values[i]))
  }

  function ColumnArg(t: Term, fold: Fold): Arg {
    if t.op.Like? || t.op.NotLike? then Text(if t.values == [] then "" else t.values[0])
    else Texts(Lowered(t.values, fold))
  }

  // ----- why an encoding means the domain --------------------------------------------------

  /** One conjunct of the WHERE clause, before it is given a slot. */
  datatype Clause = Targeted(ids: seq<Id>) | Excluded(ids: seq<Id>) | OnColumn(term: Term)

  ghost function Seams(pos: seq<Id>, neg: seq<Id>): seq<Clause> {
    (if pos != [] then [Targeted(pos)] else []) + (if neg != [] then [Excluded(neg)] else [])
  }

  ghost function ColumnClauses(d: seq<Term>): seq<Clause> {
    if d == [] then []
    else (if d[0].field.AudienceId? then [] else [OnColumn(d[0])]) + ColumnClauses(d[1..])
  }

  ghost function PredicateOf(cl: Clause, slot: nat): Predicate {
    match cl
    case Targeted(_) => AnySubscription(slot)
    case Excluded(_) => NoSubscription(slot)
    case OnColumn(t) => ColumnPredicate(t, slot)
  }

  ghost function ArgOf(cl: Clause, fold: Fold): Arg {
    match cl
    case Targeted(ids) => Uuids(ids)
    case Excluded(ids) => Uuids(ids)
    case OnColumn(t) => ColumnArg(t, fold)
  }

  /** Each clause has its own predicate and its own argument, in the same place. */
  ghost predicate Encodes(preds: seq<Predicate>, args: seq<Arg>, clauses: seq<Clause>, fold: Fold) {
    && |preds| == |args| == |clauses|
    && forall k :: 0 <= k < |clauses| ==>
         preds[k] == PredicateOf(clauses[k], k + 1) && args[k] == ArgOf(clauses[k], fold)
  }

  lemma {:induction false} EncodesSnoc(preds: seq<Predicate>, args: seq<Arg>, clauses: seq<Clause>, cl: Clause,
          fold: Fold)
    requires Encodes(preds, args, clauses, fold)
    ensures Encodes(preds + [PredicateOf(cl, |args| + 1)], args + [ArgOf(cl, fold)], clauses + [cl], fold)
  {}

  ghost predicate ClauseHolds(cl: Clause, t: Tables, fold: Fold, c: Id)
    requires c < |t.contacts|
  {
    match cl
    case Targeted(ids) => Subscribed(t, c, ids, false)
    case Excluded(ids) => !Subscribed(t, c, ids, true)
    case OnColumn(term) => TermHolds(term, t.contacts[c], fold)
  }

  lemma {:induction false} ColumnClausesSnoc(d: seq<Term>, t: Term)
    ensures ColumnClauses(d + [t]) == ColumnClauses(d) + if t.field.AudienceId? then [] else [OnColumn(t)]
  {
    if d == [] {
      assert d + [t] == [t] && [t][1..] == [];
    } else {
      var rest, s := d[1..], d + [t];
      var head: seq<Clause> := if d[0].field.AudienceId? then [] else [OnColumn(d[0])];
      ColumnClausesSnoc(rest, t);
      assert s[0] == d[0] && s[1..] == rest + [t];
      assert ColumnClauses(s) == head + ColumnClauses(rest + [t]);
      assert ColumnClauses(d) == head + ColumnClauses(rest);
    }
  }

  /** One more term: an audience term adds no clause, a column term its predicate and its argument. */
  lemma {:induction false} EncodeNext(preds: seq<Predicate>, args: seq<Arg>, seams: seq<Clause>, d: seq<Term>,
          i: nat, fold: Fold)
    requires i < |d| && Encodes(preds, args, seams + ColumnClauses(d[..i]), fold)
    ensures d[i].field.AudienceId? ==> Encodes(preds, args, seams + ColumnClauses(d[..i + 1]), fold)
    ensures !d[i].field.AudienceId? ==>
              Encodes(preds + [ColumnPredicate(d[i], |args| + 1)], args + [ColumnArg(d[i], fold)],
                      seams + ColumnClauses(d[..i + 1]), fold)
  {
    var clauses := seams + ColumnClauses(d[..i]);
    ColumnClausesSnoc(d[..i], d[i]);
    assert d[..i + 1] == d[..i] + [d[i]];
    if d[i].field.AudienceId? {
      assert seams + ColumnClauses(d[..i + 1]) == clauses;
    } else {
      EncodesSnoc(preds, args, clauses, OnColumn(d[i]), fold);
      assert seams + ColumnClauses(d[..i + 1]) == clauses + [OnColumn(d[i])];
    }
  }

  lemma {:induction false} ColumnClausesAreExact(d: seq<Term>)
    ensures forall t :: OnColumn(t) in ColumnClauses(d) <==> t in d && !t.field.AudienceId?
    ensures forall cl :: cl in ColumnClauses(d) ==> cl.OnColumn?
  {
    if d != [] {
      ColumnClausesAreExact(d[1..]);
    }
  }

  lemma {:induction false} EncodingBinds(q: Query, clauses: seq<Clause>, fold: Fold)
    requires Encodes(q.preds, q.args, clauses, fold)
    ensures WellBound(q)
    ensures forall i :: 0 <= i < |q.preds| ==> q.preds[i].slot == i + 1
  {
    forall i | 0 <= i < |q.preds|
      ensures Binds(q.preds[i], q.args) && q.preds[i].slot == i + 1
    {
      assert q.preds[i] == PredicateOf(clauses[i], i + 1);
    }
  }

  lemma {:induction false} TextsMean(t: Term, row: Contact, fold: Fold)
    ensures Lower(fold, Column(row, t.field)) in Lowered(t.values, fold)
       <==> exists v :: v in t.values && Lower(fold, v) == Lower(fold, Column(row, t.field))
  {}

  lemma {:induction false} ClauseMeans(cl: Clause, slot: nat, args: seq<Arg>, t: Tables, fold: Fold,
          uuidOf: UuidReader, c: Id)
    requires 1 <= slot <= |args| && args[slot - 1] == ArgOf(cl, fold) && c < |t.contacts|
    requires cl.OnColumn? ==> WellFormed(cl.term, uuidOf)
    ensures Eval(PredicateOf(cl, slot), args, t, fold, c) <==> ClauseHolds(cl, t, fold, c)
  {
    if cl.OnColumn? {
      TextsMean(cl.term, t.contacts[c], fold);
    }
  }

  /** The encoded query holds exactly when every clause does. */
  lemma {:induction false} EncodingSelects(q: Query, clauses: seq<Clause>, t: Tables, fold: Fold, uuidOf: UuidReader,
          c: Id)
    requires forall k :: 0 <= k < |clauses| && clauses[k].OnColumn? ==> WellFormed(clauses[k].term, uuidOf)
    requires Encodes(q.preds, q.args, clauses, fold) && c < |t.contacts|
    ensures Selects(q, t, fold, c) <==>
              !t.contacts[c].deleted && forall k :: 0 <= k < |clauses| ==> ClauseHolds(clauses[k], t, fold, c)
  {
    forall k | 0 <= k < |clauses|
      ensures Eval(q.preds[k], q.args, t, fold, c) <==> ClauseHolds(clauses[k], t, fold, c)
    {
      ClauseMeans(clauses[k], k + 1, q.args, t, fold, uuidOf, c);
    }
  }

  ghost function ClausesOf(d: seq<Term>, uuidOf: UuidReader): seq<Clause> {
    Seams(AudienceIds(d, Targets, uuidOf), AudienceIds(d, Exclusions, uuidOf)) + ColumnClauses(d)
  }

  /** Only the column clauses carry a term, and it is one of the domain's. */
  lemma {:induction false} ClausesAreWellFormed(d: seq<Term>, uuidOf: UuidReader, k: nat)
    requires forall i :: 0 <= i < |d| ==> WellFormed(d[i], uuidOf)
    requires k < |ClausesOf(d, uuidOf)| && ClausesOf(d, uuidOf)[k].OnColumn?
    ensures WellFormed(ClausesOf(d, uuidOf)[k].term, uuidOf)
  {
    ColumnClausesAreExact(d);
    var seams := Seams(AudienceIds(d, Targets, uuidOf), AudienceIds(d, Exclusions, uuidOf));
    assert k >= |seams|;
    assert ColumnClauses(d)[k - |seams|] in ColumnClauses(d);
  }

  lemma {:induction false} AllByIndex(clauses: seq<Clause>, t: Tables, fold: Fold, c: Id)
    requires c < |t.contacts|
    ensures (forall k :: 0 <= k < |clauses| ==> ClauseHolds(clauses[k], t, fold, c))
       <==> (forall cl :: cl in clauses ==> ClauseHolds(cl, t, fold, c))
  {}

  lemma {:induction false} IdsInAreExact(values: seq<string>, uuidOf: UuidReader)
    requires forall v :: v in values ==> uuidOf(v).Some?
    ensures forall a :: a in IdsIn(values, uuidOf) <==> Lists(values, uuidOf, a)
  {
    if values != [] {
      IdsInAreExact(values[1..], uuidOf);
      forall a
        ensures a in IdsIn(values, uuidOf) <==> Lists(values, uuidOf, a)
      {
        if Lists(values[1..], uuidOf, a) {
          var v :| v in values[1..] && uuidOf(v) == Some(a);
          assert v in values;
        }
        if uuidOf(values[0]) == Some(a) {
          assert values[0] in values;
        }
        assert a in IdsIn(values, uuidOf) <==> uuidOf(values[0]) == Some(a) || a in IdsIn(values[1..], uuidOf);
      }
    }
  }

  lemma {:induction false} NamesHead(d: seq<Term>, side: Side, uuidOf: UuidReader, a: Id)
    requires d != []
    ensures Names(d, side, uuidOf, a)
       <==> (OnSide(d[0], side) && Lists(d[0].values, uuidOf, a)) || Names(d[1..], side, uuidOf, a)
  {}

  lemma {:induction false} AudienceIdsAreExact(d: seq<Term>, side: Side, uuidOf: UuidReader)
    requires forall i :: 0 <= i < |d| ==> WellFormed(d[i], uuidOf)
    ensures forall a :: a in AudienceIds(d, side, uuidOf) <==> Names(d, side, uuidOf, a)
  {
    if d != [] {
      assert forall i :: 0 <= i < |d[1..]| ==> d[1..][i] == d[i + 1];
      AudienceIdsAreExact(d[1..], side, uuidOf);
      if OnSide(d[0], side) {
        IdsInAreExact(d[0].values, uuidOf);
      }
      forall a
        ensures a in AudienceIds(d, side, uuidOf) <==> Names(d, side, uuidOf, a)
      {
        NamesHead(d, side, uuidOf, a);
      }
    }
  }

  lemma {:induction false} SeamsSplit(pos: seq<Id>, neg: seq<Id>, d: seq<Term>, t: Tables, fold: Fold, c: Id)
    requires c < |t.contacts|
    ensures (forall cl :: cl in Seams(pos, neg) + ColumnClauses(d) ==> ClauseHolds(cl, t, fold, c))
       <==> && (pos != [] ==> Subscribed(t, c, pos, false))
            && (neg != [] ==> !Subscribed(t, c, neg, true))
            && (forall cl :: cl in ColumnClauses(d) ==> ClauseHolds(cl, t, fold, c))
  {
    var all := Seams(pos, neg) + ColumnClauses(d);
    if forall cl :: cl in all ==> ClauseHolds(cl, t, fold, c) {
      if pos != [] {
        assert Targeted(pos) in all;
        assert ClauseHolds(Targeted(pos), t, fold, c);
      }
      if neg != [] {
        assert Excluded(neg) in all;
        assert ClauseHolds(Excluded(neg), t, fold, c);
      }
    }
  }

  lemma {:induction false} ColumnsMean(d: seq<Term>, t: Tables, fold: Fold, c: Id)
    requires c < |t.contacts|
    ensures (forall cl :: cl in ColumnClauses(d) ==> ClauseHolds(cl, t, fold, c))
       <==> ColumnsHold(d, t.contacts[c], fold)
  {
    ColumnClausesAreExact(d);
    if forall cl :: cl in ColumnClauses(d) ==> ClauseHolds(cl, t, fold, c) {
      forall term | term in d && !term.field.AudienceId?
        ensures TermHolds(term, t.contacts[c], fold)
      {
        assert ClauseHolds(OnColumn(term), t, fold, c);
      }
    }
  }

  lemma {:induction false} TargetsMean(d: seq<Term>, pos: seq<Id>, t: Tables, uuidOf: UuidReader, c: Id)
    requires forall a :: a in pos <==> Names(d, Targets, uuidOf, a)
    ensures (pos != [] ==> Subscribed(t, c, pos, false)) <==> TargetsReach(d, t, uuidOf, c)
  {
    if pos != [] {
      assert pos[0] in pos;
    }
  }

  lemma {:induction false} ExclusionsMean(d: seq<Term>, neg: seq<Id>, t: Tables, uuidOf: UuidReader, c: Id)
    requires forall a :: a in neg <==> Names(d, Exclusions, uuidOf, a)
    ensures (neg != [] ==> !Subscribed(t, c, neg, true)) <==> ExclusionsMiss(d, t, uuidOf, c)
  {}

  /** The clauses of a well-formed domain, all together, say what the domain means. */
  lemma {:induction false} ClausesMean(d: seq<Term>, t: Tables, fold: Fold, uuidOf: UuidReader, c: Id)
    requires forall i :: 0 <= i < |d| ==> WellFormed(d[i], uuidOf)
    requires c < |t.contacts|
    ensures var clauses := ClausesOf(d, uuidOf);
            (!t.contacts[c].deleted && forall cl :: cl in clauses ==> ClauseHolds(cl, t, fold, c))
            <==> Meant(d, t, fold, uuidOf, c)
  {
    var pos := AudienceIds(d, Targets, uuidOf);
    var neg := AudienceIds(d, Exclusions, uuidOf);
    AudienceIdsAreExact(d, Targets, uuidOf);
    AudienceIdsAreExact(d, Exclusions, uuidOf);
    ColumnsMean(d, t, fold, c);
    TargetsMean(d, pos, t, uuidOf, c);
    ExclusionsMean(d, neg, t, uuidOf, c);
    SeamsSplit(pos, neg, d, t, fold, c);
  }

  /** A query that encodes the clauses of a well-formed domain selects what the domain means. */
  lemma {:induction false} EncodingMeans(q: Query, d: seq<Term>, fold: Fold, uuidOf: UuidReader)
    requires forall i :: 0 <= i < |d| ==> WellFormed(d[i], uuidOf)
    requires Encodes(q.preds, q.args, ClausesOf(d, uuidOf), fold)
    ensures WellBound(q) && |q.preds| == |q.args| && forall i :: 0 <= i < |q.preds| ==> q.preds[i].slot == i + 1
    ensures forall t: Tables, c: Id :: c < |t.contacts| ==> (Selects(q, t, fold, c) <==> Meant(d, t, fold, uuidOf, c))
  {
    var clauses := ClausesOf(d, uuidOf);
    EncodingBinds(q, clauses, fold);
    forall k | 0 <= k < |clauses| && clauses[k].OnColumn?
      ensures WellFormed(clauses[k].term, uuidOf)
    {
      ClausesAreWellFormed(d, uuidOf, k);
    }
    forall t: Tables, c: Id | c < |t.contacts|
      ensures Selects(q, t, fold, c) <==> Meant(d, t, fold, uuidOf, c)
    {
      EncodingSelects(q, clauses, t, fold, uuidOf, c);
      ClausesMean(d, t, fold, uuidOf, c);
      AllByIndex(clauses, t, fold, c);
    }
  }

  // ----- the compiler as it runs -----------------------------------------------------------

  /** The membership seams, each present only when its list has something in it. */
  method BindSeams(pos: seq<Id>, neg: seq<Id>, ghost fold: Fold) returns (preds: seq<Predicate>, args: seq<Arg>, n: nat)
    ensures n == |args| && Encodes(preds, args, Seams(pos, neg), fold)
  {
    preds, args, n := [], [], 0;
    if pos != [] {
      n := n + 1;
      preds := preds + [AnySubscription(n)];
      args := args + [Uuids(pos)];
    }
    if neg != [] {
      n := n + 1;
      preds := preds + [NoSubscription(n)];
      args := args + [Uuids(neg)];
    }
  }

  /** The column loop: each column term pushes its predicate and its argument under the next placeholder. */
  method BindColumns(preds0: seq<Predicate>, args0: seq<Arg>, n0: nat, d: seq<Term>, fold: Fold,
          ghost seams: seq<Clause>)
    returns (preds: seq<Predicate>, args: seq<Arg>)
    requires n0 == |args0| && Encodes(preds0, args0, seams, fold)
    ensures Encodes(preds, args, seams + ColumnClauses(d), fold)
  {
    preds, args := preds0, args0;
    var n := n0;
    assert seams + ColumnClauses(d[..0]) == seams;
    for i := 0 to |d|
      invariant n == |args|
      invariant Encodes(preds, args, seams + ColumnClauses(d[..i]), fold)
    {
      EncodeNext(preds, args, seams, d, i, fold);
      if !d[i].field.AudienceId? {
        preds := preds + [ColumnPredicate(d[i], n + 1)];
        args := args + [ColumnArg(d[i], fold)];
        n := n + 1;
      }
    }
    assert d[..|d|] == d;
  }

  /**
   * The query builder: audience seams first, then one predicate per column term, each pushing its
   * argument and naming the next placeholder. The counter always equals the arguments pushed.
   */
  method EncodeDomain(d: seq<Term>, fold: Fold, uuidOf: UuidReader) returns (q: Query)
    ensures Encodes(q.preds, q.args, ClausesOf(d, uuidOf), fold)
  {
    var pos := AudienceIds(d, Targets, uuidOf);
    var neg := AudienceIds(d, Exclusions, uuidOf);
    var preds, args, n := BindSeams(pos, neg, fold);
    preds, args := BindColumns(preds, args, n, d, fold, Seams(pos, neg));
    q := Query(preds, args);
  }

  /** The compiled query selects what the domain means, and placeholder `i` names argument `i`. */
  method CompileDomain(d: seq<Term>, fold: Fold, uuidOf: UuidReader) returns (q: Query)
    requires forall i :: 0 <= i < |d| ==> WellFormed(d[i], uuidOf)
    ensures WellBound(q)
    ensures |q.preds| == |q.args| && forall i :: 0 <= i < |q.preds| ==> q.preds[i].slot == i + 1
    ensures forall t: Tables, c: Id :: c < |t.contacts| ==> (Selects(q, t, fold, c) <==> Meant(d, t, fold, uuidOf, c))
  {
    q := EncodeDomain(d, fold, uuidOf);
    EncodingMeans(q, d, fold, uuidOf);
  }

  // ----- which audience terms ask anything -------------------------------------------------

  /** The term asks nothing: wherever it stands in a domain, the same contacts are meant without it. */
  ghost predicate AsksNothing(term: Term, fold: Fold, uuidOf: UuidReader) {
    forall before: seq<Term>, after: seq<Term>, t: Tables, c: Id :: c < |t.contacts| ==>
      (Meant(before + [term] + after, t, fold, uuidOf, c) <==> Meant(before + after, t, fold, uuidOf, c))
  }

  lemma {:induction false} NamingWithout(before: seq<Term>, term: Term, after: seq<Term>, side: Side,
          uuidOf: UuidReader, a: Id)
    requires !(OnSide(term, side) && Lists(term.values, uuidOf, a))
    ensures Names(before + [term] + after, side, uuidOf, a) <==> Names(before + after, side, uuidOf, a)
  {
    assert forall t :: t in before + [term] + after <==> t in before + after || t == term;
  }

  lemma {:induction false} MeantWithout(before: seq<Term>, term: Term, after: seq<Term>, t: Tables, fold: Fold,
          uuidOf: UuidReader, c: Id)
    requires c < |t.contacts| && term.field.AudienceId?
    requires term.op.Like? || term.op.NotLike? || term.values == []
    ensures Meant(before + [term] + after, t, fold, uuidOf, c) <==> Meant(before + after, t, fold, uuidOf, c)
  {
    var d, e := before + [term] + after, before + after;
    assert forall x :: x in d <==> x in e || x == term;
    forall side: Side, a: Id
      ensures Names(d, side, uuidOf, a) <==> Names(e, side, uuidOf, a)
    {
      NamingWithout(before, term, after, side, uuidOf, a);
    }
    assert ColumnsHold(d, t.contacts[c], fold) <==> ColumnsHold(e, t.contacts[c], fold);
    assert TargetsReach(d, t, uuidOf, c) <==> TargetsReach(e, t, uuidOf, c);
    assert ExclusionsMiss(d, t, uuidOf, c) <==> ExclusionsMiss(e, t, uuidOf, c);
  }

  /** A table in which this one term turns a live contact away. */
  lemma {:induction false} TermTurnsAway(term: Term, fold: Fold, uuidOf: UuidReader) returns (t: Tables)
    requires term.field.AudienceId? && WellFormed(term, uuidOf)
    requires !term.op.Like? && !term.op.NotLike? && term.values != []
    ensures |t.contacts| == 1 && Meant([], t, fold, uuidOf, 0) && !Meant([term], t, fold, uuidOf, 0)
  {
    var v := term.values[0];
    var a := uuidOf(v).value;
    var row := Contact("", None, None, None, None, None, false);
    assert Lists(term.values, uuidOf, a);
    if OnSide(term, Targets) {
      t := Tables([row], []);
      assert Names([term], Targets, uuidOf, a);
    } else {
      t := Tables([row], [Subscription(0, a, false, None, None, false)]);
      assert Names([term], Exclusions, uuidOf, t.subs[0].audience);
    }
  }

  /**
   * The domain language accepts `like` and `not like` on an audience, and the resolver then skips
   * the term: exactly when an audience term asks nothing is when it has such an operator, or lists
   * no audience.
   */
  lemma {:induction false} AudienceTermAsksNothingIff(term: Term, fold: Fold, uuidOf: UuidReader)
    requires term.field.AudienceId? && WellFormed(term, uuidOf)
    ensures AsksNothing(term, fold, uuidOf) <==> term.op.Like? || term.op.NotLike? || term.values == []
  {
    if term.op.Like? || term.op.NotLike? || term.values == [] {
      forall before: seq<Term>, after: seq<Term>, t: Tables, c: Id | c < |t.contacts|
        ensures Meant(before + [term] + after, t, fold, uuidOf, c) <==> Meant(before + after, t, fold, uuidOf, c)
      {
        MeantWithout(before, term, after, t, fold, uuidOf, c);
      }
    } else {
      var t := TermTurnsAway(term, fold, uuidOf);
      var none: seq<Term> := [];
      assert none + [term] + none == [term] && none + none == none;
      assert !(Meant(none + [term] + none, t, fold, uuidOf, 0) <==> Meant(none + none, t, fold, uuidOf, 0));
    }
  }

  /** The witness: a mailing meant for the audience `like` a uuid parses, and means every live contact. */
  lemma {:induction false} LikeAudienceMeansEverybody(v: string, t: Tables, fold: Fold, uuidOf: UuidReader, c: Id)
    requires uuidOf(v).Some? && c < |t.contacts|
    ensures var d := [Term(AudienceId, Like, [v])];
            && Parse(Canonical(d), uuidOf) == Ok(d)
            && (Meant(d, t, fold, uuidOf, c) <==> !t.contacts[c].deleted)
  {
    var term := Term(AudienceId, Like, [v]);
    RoundTripIff([term], uuidOf);
    var none: seq<Term> := [];
    MeantWithout(none, term, none, t, fold, uuidOf, c);
    assert none + [term] + none == [term] && none + none == none;
  }

  // ----- the cap ---------------------------------------------------------------------------

  /** The database's collation: which address does not come after which. */
  type Collation = (string, string) -> bool

  /** Real contacts, none twice, in the collation's order of addresses. */
  ghost predicate InEmailOrder(rows: seq<Id>, t: Tables, le: Collation) {
    && (forall i :: 0 <= i < |rows| ==> rows[i] < |t.contacts|)
    && (forall i, j :: 0 <= i < j < |rows| ==>
          rows[i] != rows[j] && le(t.contacts[rows[i]].email, t.contacts[rows[j]].email))
  }

  /** Every contact, in that order. */
  ghost predicate ByEmail(order: seq<Id>, t: Tables, le: Collation) {
    InEmailOrder(order, t, le) && forall c: Id :: c < |t.contacts| ==> c in order
  }

  /** The rows the domain means, among the first `n` contacts of the order. */
  ghost function Selected(order: seq<Id>, n: nat, d: seq<Term>, t: Tables, fold: Fold, uuidOf: UuidReader): seq<Id>
    requires n <= |order| && forall i :: 0 <= i < |order| ==> order[i] < |t.contacts|
  {
    if n == 0 then []
    else
      Selected(order, n - 1, d, t, fold, uuidOf)
      + if Meant(d, t, fold, uuidOf, order[n - 1]) then [order[n - 1]] else []
  }

  /** The answer without a LIMIT: each contact the domain means, once, in the order of addresses. */
  ghost predicate IsAnswer(rows: seq<Id>, d: seq<Term>, t: Tables, fold: Fold, uuidOf: UuidReader, le: Collation) {
    && InEmailOrder(rows, t, le)
    && forall c: Id :: c < |t.contacts| ==> (c in rows <==> Meant(d, t, fold, uuidOf, c))
  }

  lemma {:induction false} SelectedMembers(order: seq<Id>, n: nat, d: seq<Term>, t: Tables, fold: Fold,
          uuidOf: UuidReader)
    requires n <= |order| && forall i :: 0 <= i < |order| ==> order[i] < |t.contacts|
    ensures forall c :: c in Selected(order, n, d, t, fold, uuidOf) <==>
              c in order[..n] && c < |t.contacts| && Meant(d, t, fold, uuidOf, c)
  {
    if n > 0 {
      SelectedMembers(order, n - 1, d, t, fold, uuidOf);
      assert order[..n] == order[..n - 1] + [order[n - 1]];
    }
  }

  lemma {:induction false} SelectedInOrder(order: seq<Id>, n: nat, d: seq<Term>, t: Tables, fold: Fold,
          uuidOf: UuidReader, le: Collation)
    requires n <= |order| && InEmailOrder(order, t, le)
    ensures InEmailOrder(Selected(order, n, d, t, fold, uuidOf), t, le)
  {
    if n > 0 {
      SelectedInOrder(order, n - 1, d, t, fold, uuidOf, le);
      SelectedMembers(order, n - 1, d, t, fold, uuidOf);
      var before := Selected(order, n - 1, d, t, fold, uuidOf);
      forall i | 0 <= i < |before|
        ensures before[i] != order[n - 1] && le(t.contacts[before[i]].email, t.contacts[order[n - 1]].email)
      {
        assert before[i] in order[..n - 1];
      }
    }
  }

  /** The selection over the whole order is the answer: nobody meant is missing, nobody else is there. */
  lemma {:induction false} SelectedIsExact(order: seq<Id>, d: seq<Term>, t: Tables, fold: Fold, uuidOf: UuidReader,
          le: Collation)
    requires ByEmail(order, t, le)
    ensures IsAnswer(Selected(order, |order|, d, t, fold, uuidOf), d, t, fold, uuidOf, le)
  {
    SelectedInOrder(order, |order|, d, t, fold, uuidOf, le);
    SelectedMembers(order, |order|, d, t, fold, uuidOf);
    assert order[..|order|] == order;
  }

  /** ORDER BY email LIMIT cap: the first `cap` rows of the answer. */
  method RunQuery(q: Query, order: seq<Id>, t: Tables, fold: Fold, cap: nat, ghost d: seq<Term>,
                  ghost uuidOf: UuidReader, ghost le: Collation)
    returns (rows: seq<Id>, ghost all: seq<Id>)
    requires ByEmail(order, t, le)
    requires forall c: Id :: c < |t.contacts| ==> (Selects(q, t, fold, c) <==> Meant(d, t, fold, uuidOf, c))
    ensures IsAnswer(all, d, t, fold, uuidOf, le) && rows == all[..Min(cap, |all|)]
  {
    rows := [];
    for i := 0 to |order|
      invariant rows == Selected(order, i, d, t, fold, uuidOf)[..Min(cap, |Selected(order, i, d, t, fold, uuidOf)|)]
    {
      if |rows| < cap && Selects(q, t, fold, order[i]) {
        rows := rows + [order[i]];
      }
    }
    all := Selected(order, |order|, d, t, fold, uuidOf);
    SelectedIsExact(order, d, t, fold, uuidOf, le);
  }

  datatype Refusal = HardCapReached(resolved: nat)

  /**
   * The drive's use of the resolver: compile, query with the cap as LIMIT, refuse when the answer
   * reaches the cap. It proceeds exactly when fewer contacts than the cap are meant, and then the
   * LIMIT has truncated nothing: the result is every contact the domain means, in order.
   */
  method ResolveContacts(d: seq<Term>, order: seq<Id>, t: Tables, fold: Fold, uuidOf: UuidReader, cap: nat,
                         ghost le: Collation)
    returns (r: Result<seq<Id>, Refusal>)
    requires forall i :: 0 <= i < |d| ==> WellFormed(d[i], uuidOf)
    requires ByEmail(order, t, le)
    ensures r.Ok? ==> IsAnswer(r.value, d, t, fold, uuidOf, le) && |r.value| < cap
    ensures r.Err? ==> exists all :: IsAnswer(all, d, t, fold, uuidOf, le) && |all| >= cap == r.error.resolved
  {
    var q := CompileDomain(d, fold, uuidOf);
    var rows;
    ghost var all;
    rows, all := RunQuery(q, order, t, fold, cap, d, uuidOf, le);
    if |rows| >= cap {
      return Err(HardCapReached(|rows|));
    }
    return Ok(rows);
  }

  lemma {:induction false} OnceEach(s: seq<Id>)
    requires forall i, j :: 0 <= i < j < |s| ==> s[i] != s[j]
    ensures forall c :: multiset(s)[c] <= 1
  {
    if s != [] {
      OnceEach(s[1..]);
      assert s == [s[0]] + s[1..];
      assert s[0] !in s[1..];
    }
  }

  /** Any two answers have the same rows, so how many contacts are meant is well defined. */
  lemma {:induction false} AnswersAgree(a: seq<Id>, b: seq<Id>, d: seq<Term>, t: Tables, fold: Fold, uuidOf: UuidReader,
                                        le: Collation)
    requires IsAnswer(a, d, t, fold, uuidOf, le) && IsAnswer(b, d, t, fold, uuidOf, le)
    ensures multiset(a) == multiset(b) && |a| == |b|
  {
    OnceEach(a);
    OnceEach(b);
    forall c: Id
      ensures multiset(a)[c] == multiset(b)[c]
    {
      assert c in a <==> c in multiset(a);
      assert c in b <==> c in multiset(b);
      assert c in a <==> c in b;
    }
    assert |a| == |multiset(a)| && |b| == |multiset(b)|;
  }

  // ----- like terms ------------------------------------------------------------------------

  /** Folding neither makes nor unmakes a wildcard. */
  ghost predicate KeepsWildcards(fold: Fold) {
    forall c :: (Wild(fold(c)) <==> Wild(c)) && (Wild(c) ==> fold(c) == c)
  }

  /** For a value without %, _ and \, a `like` term asks for a case-insensitive occurrence. */
  lemma {:induction false} PlainLikeMeansContains(fold: Fold, text: string, value: string)
    requires KeepsWildcards(fold) && Plain(value)
    ensures ILike(fold, text, value) <==> Occurs(Lower(fold, text), Lower(fold, value))
  {
    assert Lower(fold, Around(value)) == Around(Lower(fold, value));
    PlainMatchesOccurrence(Lower(fold, text), Lower(fold, value));
  }

  // ----- the second reader of the same language --------------------------------------------

  /** The audiences the first `n` terms target. */
  ghost predicate TargetedBy(d: seq<Term>, n: nat, uuidOf: UuidReader, a: Id)
    requires n <= |d|
  {
    Names(d[..n], Targets, uuidOf, a)
  }

  lemma {:induction false} TargetedStep(d: seq<Term>, n: nat, uuidOf: UuidReader, a: Id)
    requires n < |d|
    ensures TargetedBy(d, n + 1, uuidOf, a)
       <==> TargetedBy(d, n, uuidOf, a) || (OnSide(d[n], Targets) && Lists(d[n].values, uuidOf, a))
  {
    assert d[..n + 1] == d[..n] + [d[n]];
    assert forall t :: t in d[..n + 1] <==> t in d[..n] || t == d[n];
  }

  lemma {:induction false} ListsStep(values: seq<string>, j: nat, uuidOf: UuidReader, a: Id)
    requires j < |values|
    ensures Lists(values[..j + 1], uuidOf, a) <==> Lists(values[..j], uuidOf, a) || uuidOf(values[j]) == Some(a)
  {
    assert values[..j + 1] == values[..j] + [values[j]];
    assert forall v :: v in values[..j + 1] <==> v in values[..j] || v == values[j];
  }

  ghost predicate Distinct(ids: seq<Id>) {
    forall i, j :: 0 <= i < j < |ids| ==> ids[i] != ids[j]
  }

  /** The value loop of one targeted term: append each id not yet collected. */
  method CollectIds(ids: seq<Id>, values: seq<string>, uuidOf: UuidReader) returns (r: Result<seq<Id>, string>)
    requires Distinct(ids)
    ensures r.Ok? <==> forall v :: v in values ==> uuidOf(v).Some?
    ensures r.Ok? ==> ids <= r.value && Distinct(r.value)
    ensures r.Ok? ==> forall a :: a in r.value <==> a in ids || Lists(values, uuidOf, a)
    ensures r.Err? ==> r.error in values && uuidOf(r.error).None?
  {
    var out := ids;
    for j := 0 to |values|
      invariant ids <= out && Distinct(out)
      invariant forall v :: v in values[..j] ==> uuidOf(v).Some?
      invariant forall a :: a in out <==> a in ids || Lists(values[..j], uuidOf, a)
    {
      var id := uuidOf(values[j]);
      if id.None? {
        assert values[j] in values;
        return Err(values[j]);
      }
      forall a: Id
        ensures Lists(values[..j + 1], uuidOf, a) <==> Lists(values[..j], uuidOf, a) || uuidOf(values[j]) == Some(a)
      {
        ListsStep(values, j, uuidOf, a);
      }
      if id.value !in out {
        out := out + [id.value];
      }
    }
    assert values[..|values|] == values;
    return Ok(out);
  }

  /**
   * The unsubscribe leg's reader: the distinct ids of the targeting terms, in first-mention order.
   * It opts out of exactly the audiences the membership seam binds.
   */
  method AudienceTargets(d: seq<Term>, uuidOf: UuidReader) returns (r: Result<seq<Id>, string>)
    ensures r.Ok? <==> forall t, v :: t in d && OnSide(t, Targets) && v in t.values ==> uuidOf(v).Some?
    ensures (forall i :: 0 <= i < |d| ==> WellFormed(d[i], uuidOf)) ==> r.Ok?
    ensures r.Ok? ==> Distinct(r.value)
    ensures r.Ok? ==> forall a :: a in r.value <==> Names(d, Targets, uuidOf, a)
    ensures (forall i :: 0 <= i < |d| ==> WellFormed(d[i], uuidOf)) ==>
              forall a :: a in r.value <==> a in AudienceIds(d, Targets, uuidOf)
  {
    var ids: seq<Id> := [];
    for i := 0 to |d|
      invariant Distinct(ids)
      invariant forall t, v :: t in d[..i] && OnSide(t, Targets) && v in t.values ==> uuidOf(v).Some?
      invariant forall a :: a in ids <==> TargetedBy(d, i, uuidOf, a)
    {
      assert forall t :: t in d[..i + 1] <==> t in d[..i] || t == d[i];
      forall a
        ensures TargetedBy(d, i + 1, uuidOf, a)
           <==> TargetedBy(d, i, uuidOf, a) || (OnSide(d[i], Targets) && Lists(d[i].values, uuidOf, a))
      {
        TargetedStep(d, i, uuidOf, a);
      }
      if OnSide(d[i], Targets) {
        var more := CollectIds(ids, d[i].values, uuidOf);
        if more.Err? {
          assert d[i] in d;
          return more;
        }
        ids := more.value;
      }
    }
    assert d[..|d|] == d;
    if forall i :: 0 <= i < |d| ==> WellFormed(d[i], uuidOf) {
      AudienceIdsAreExact(d, Targets, uuidOf);
    }
    return Ok(ids);
  }
}
