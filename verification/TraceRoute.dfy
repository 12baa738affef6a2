/**
 * The public trace routes: click, open pixel and unsubscribe, all behind one consistency check, and
 * what an unsubscribe does to the audience the mailing would resolve next.
 */
module TraceRoute {
  import opened MailTypes
  import opened TraceLifecycle
  import opened TraceTable
  import opened Subscriptions
  import D = Domain
  import R = Resolver
  import SmsPump

  // ----- trace verbs as the service exposes them -------------------------------------------

  datatype Transition = Moved | Skipped | Missing

  datatype WriteError = NotAnSmsCode(code: string)

  /** The verbs that probe the row first; the others report a missing row as skipped. */
  predicate Probes(v: Verb) {
    !v.DoCanceled? && !v.AttachMail? && !v.AttachSms?
  }

  class TraceWriteService {
    const traces: TraceRepository

    constructor (traces: TraceRepository)
      ensures this.traces == traces
    {
      this.traces := traces;
    }

    /** One verb: refused for a code outside the sms vocabulary, else missing, moved or skipped. */
    method Perform(id: Id, verb: Verb, now: Time) returns (r: Result<Transition, WriteError>)
      modifies traces
      ensures r.Err? <==> verb.DoBouncedSms? && verb.code !in SmsPump.SMS_FAILURE_CODES
      ensures traces.rows == if r.Err? then old(traces.rows) else Exec(old(traces.rows), Advance(id, verb, now))
      ensures r == Ok(Moved) <==> r.Ok? && id < |old(traces.rows)| && Guard(verb, old(traces.rows)[id])
      ensures r == Ok(Missing) <==>
                && r.Ok? && !verb.DoCanceled? && !verb.AttachMail? && !verb.AttachSms?
                && !(id < |old(traces.rows)| && !old(traces.rows)[id].deleted)
    {
      if verb.DoBouncedSms? && verb.code !in SmsPump.SMS_FAILURE_CODES {
        return Err(NotAnSmsCode(verb.code));
      }
      if Probes(verb) && !(id < |traces.rows| && !traces.rows[id].deleted) {
        return Ok(Missing);
      }
      var moved := traces.Advance(id, verb, now);
      return Ok(if moved then Moved else Skipped);
    }
  }

  // ----- the routes ------------------------------------------------------------------------

  datatype RouteError = UnknownTrace | Inconsistent | Backend(why: string) | InvalidStored

  /** The click port's answer for a code: the campaign it is attributed to, or why it will not say. */
  datatype Attribution = Campaign(campaign: Option<Id>) | UnknownCode | Unreadable(why: string)

  datatype AudienceOptOut = AudienceOptOut(audience: Id, changed: bool, optedOut: bool)

  predicate IsLive(ts: Table, id: Id) {
    id < |ts| && !ts[id].deleted
  }

  /** A live trace whose campaign is the code's: two unattributed halves belong together. */
  predicate Consistent(ts: Table, id: Id, code: Attribution) {
    IsLive(ts, id) && code == Campaign(ts[id].campaign)
  }

  /** What the route asks of the stores: the trace, the code, the mailing's stored domain. */
  datatype Request = Request(trace: Id, code: Attribution, domains: Id -> Option<D.Json>, uuidOf: D.UuidReader,
                             lower: string -> string, reason: Option<Id>, now: Time)

  /** The request can be served: a consistent pair, a live mailing, a domain that still parses. */
  predicate Readable(ts: Table, q: Request) {
    && Consistent(ts, q.trace, q.code)
    && q.domains(ts[q.trace].mailing).Some?
    && D.Parse(q.domains(ts[q.trace].mailing).value, q.uuidOf).Ok?
  }

  function StoredDomain(ts: Table, q: Request): seq<D.Term>
    requires Readable(ts, q)
  {
    D.Parse(q.domains(ts[q.trace].mailing).value, q.uuidOf).value
  }

  /** One row after the leg: flipped when its audience is targeted and its contact answers to the address. */
  function OptedOutOf(s: Subscription, contacts: seq<Contact>, q: Request, email: string,
          targeted: bool): Subscription
  {
    if targeted then FlipFor(s, contacts, q.lower, email, s.audience, q.reason, q.now) else s
  }

  /** The answer for one audience tells the truth about the rows as they were. */
  ghost predicate Reports(o: AudienceOptOut, contacts: seq<Contact>, subs: seq<Subscription>,
          lower: string -> string, email: string)
  {
    && (o.optedOut <==> exists i :: 0 <= i < |subs| && Concerns(subs[i], contacts, lower, email, o.audience))
    && (o.changed <==>
        exists i :: 0 <= i < |subs| && Concerns(subs[i], contacts, lower, email, o.audience) && !subs[i].optOut)
  }

  lemma {:induction false} ReportIsTrue(o: AudienceOptOut, start: seq<Subscription>, before: seq<Subscription>,
          after: seq<Subscription>, contacts: seq<Contact>, q: Request, email: string)
    requires |start| == |before| == |after|
    requires forall i :: 0 <= i < |start| && start[i].audience == o.audience ==> before[i] == start[i]
    requires forall i :: 0 <= i < |start| ==> before[i].audience == start[i].audience
    requires forall i :: 0 <= i < |start| ==>
              after[i] == FlipFor(before[i], contacts, q.lower, email, o.audience, q.reason, q.now)
    requires o.optedOut <==> exists i :: 0 <= i < |before| && Concerns(before[i], contacts, q.lower, email, o.audience)
    requires o.changed <==> after != before
    ensures Reports(o, contacts, start, q.lower, email)
  {}

  class TraceRouteService {
    const traces: TraceRepository
    const subscriptions: SubscriptionRepository

    constructor (traces: TraceRepository, subscriptions: SubscriptionRepository)
      ensures this.traces == traces && this.subscriptions == subscriptions
    {
      this.traces := traces;
      this.subscriptions := subscriptions;
    }

    method CheckConsistency(id: Id, code: Attribution) returns (r: Result<(), RouteError>)
      ensures r.Ok? <==> Consistent(traces.rows, id, code)
      ensures r.Ok? <==> id < |traces.rows| && !traces.rows[id].deleted && code == Campaign(traces.rows[id].campaign)
      ensures r == Err(UnknownTrace) <==> !(id < |traces.rows| && !traces.rows[id].deleted)
      ensures r.Err? && r.error != UnknownTrace ==>
                r.error == if code.Unreadable? then Backend(code.why) else Inconsistent
    {
      if !IsLive(traces.rows, id) {
        return Err(UnknownTrace);
      }
      match code
      case UnknownCode => return Err(Inconsistent);
      case Unreadable(why) => return Err(Backend(why));
      case Campaign(campaign) =>
        return if campaign == traces.rows[id].campaign then Ok(()) else Err(Inconsistent);
    }

    /** The open pixel and the click: an inconsistent pair stamps nothing. */
    method RecordOpen(id: Id, code: Attribution, now: Time) returns (r: Result<(), RouteError>)
      modifies traces
      ensures r.Ok? <==>
                && id < |old(traces.rows)| && !old(traces.rows)[id].deleted
                && code == Campaign(old(traces.rows)[id].campaign)
      ensures traces.rows == if r.Ok? then Exec(old(traces.rows), Advance(id, DoOpened, now)) else old(traces.rows)
    {
      r := CheckConsistency(id, code);
      if r.Ok? {
        var moved := traces.Advance(id, DoOpened, now);
      }
    }

    method RecordClick(id: Id, code: Attribution, now: Time) returns (r: Result<(), RouteError>)
      modifies traces
      ensures r.Ok? <==>
                && id < |old(traces.rows)| && !old(traces.rows)[id].deleted
                && code == Campaign(old(traces.rows)[id].campaign)
      ensures r.Err? ==> traces.rows == old(traces.rows)
      ensures r.Ok? ==>
                traces.rows == Exec(Exec(old(traces.rows), Advance(id, DoOpened, now)), Advance(id, DoClicked, now))
      ensures r.Ok? ==> traces.rows[id].clickAt == Some(now)
    {
      r := CheckConsistency(id, code);
      if r.Ok? {
        var touched := traces.Advance(id, DoOpened, now);
        var clicked := traces.Advance(id, DoClicked, now);
      }
    }

    /** The loop: one unsubscribe per audience; not being a member is reported, not an error. */
    method OptOutOfEach(q: Request, email: string, audiences: seq<Id>) returns (out: seq<AudienceOptOut>)
      requires subscriptions.Valid()
      requires forall j, k :: 0 <= j < k < |audiences| ==> audiences[j] != audiences[k]
      modifies subscriptions`subs
      ensures subscriptions.Valid() && |subscriptions.subs| == |old(subscriptions.subs)|
      ensures |out| == |audiences|
      ensures forall k :: 0 <= k < |out| ==>
                out[k].audience == audiences[k]
                && Reports(out[k], subscriptions.contacts, old(subscriptions.subs), q.lower, email)
      ensures forall i :: 0 <= i < |subscriptions.subs| ==>
                subscriptions.subs[i] == OptedOutOf(old(subscriptions.subs)[i], subscriptions.contacts, q, email,
                                                    old(subscriptions.subs)[i].audience in audiences)
    {
      ghost var start := subscriptions.subs;
      out := [];
      for k := 0 to |audiences|
        invariant subscriptions.Valid() && |subscriptions.subs| == |start| && |out| == k
        invariant forall j :: 0 <= j < k ==>
                    out[j].audience == audiences[j] && Reports(out[j], subscriptions.contacts, start, q.lower, email)
        invariant forall i :: 0 <= i < |start| ==>
                    subscriptions.subs[i] == OptedOutOf(start[i], subscriptions.contacts, q, email,
                        start[i].audience in audiences[..k])
      {
        ghost var before := subscriptions.subs;
        var answer := subscriptions.UnsubscribeByEmail(q.lower, email, audiences[k], q.reason, q.now);
        assert audiences[..k + 1] == audiences[..k] + [audiences[k]];
        var optOut := if answer.Ok? then AudienceOptOut(audiences[k], answer.value.changed, answer.value.row.optOut)
                      else AudienceOptOut(audiences[k], false, false);
        ReportIsTrue(optOut, start, before, subscriptions.subs, subscriptions.contacts, q, email);
        out := out + [optOut];
      }
      assert audiences[..|audiences|] == audiences;
    }

    /**
     * The unsubscribe leg: the trace's address opts out of every audience the mailing's stored domain
     * targets. One answer per audience, in order, each telling whether this call flipped a row and
     * whether the address is on the audience at all. A refusal changes nothing.
     */
    method Unsubscribe(q: Request) returns (r: Result<seq<AudienceOptOut>, RouteError>)
      requires subscriptions.Valid()
      modifies subscriptions`subs
      ensures subscriptions.Valid() && |subscriptions.subs| == |old(subscriptions.subs)|
      ensures r.Ok? <==> Readable(traces.rows, q)
      ensures r.Ok? ==>
                && q.trace < |traces.rows| && !traces.rows[q.trace].deleted
                && q.code == Campaign(traces.rows[q.trace].campaign)
                && q.domains(traces.rows[q.trace].mailing).Some?
                && D.Parse(q.domains(traces.rows[q.trace].mailing).value, q.uuidOf).Ok?
      ensures r == Err(InvalidStored) <==>
                && q.trace < |traces.rows| && !traces.rows[q.trace].deleted
                && q.code == Campaign(traces.rows[q.trace].campaign)
                && (q.domains(traces.rows[q.trace].mailing).Some? ==>
                      D.Parse(q.domains(traces.rows[q.trace].mailing).value, q.uuidOf).Err?)
      ensures r.Err? ==> subscriptions.subs == old(subscriptions.subs)
      ensures r.Ok? ==>
                var email := traces.rows[q.trace].email;
                && (forall a :: (exists k :: 0 <= k < |r.value| && r.value[k].audience == a) <==>
                      R.Names(StoredDomain(traces.rows, q), R.Targets, q.uuidOf, a))
                && (forall j, k :: 0 <= j < k < |r.value| ==> r.value[j].audience != r.value[k].audience)
                && (forall k :: 0 <= k < |r.value| ==>
                      Reports(r.value[k], subscriptions.contacts, old(subscriptions.subs), q.lower, email))
                && (forall i :: 0 <= i < |subscriptions.subs| ==>
                      var was, now := old(subscriptions.subs)[i], subscriptions.subs[i];
                      if R.Names(StoredDomain(traces.rows, q), R.Targets, q.uuidOf, was.audience)
                      then FlipTells(was, now, subscriptions.contacts, q.lower, email, was.audience, q.reason, q.now)
                      else now == was)
    {
      var check := CheckConsistency(q.trace, q.code);
      if check.Err? {
        return Err(check.error);
      }
      var t := traces.rows[q.trace];
      var stored := q.domains(t.mailing);
      if stored.None? {
        return Err(InvalidStored);
      }
      var parsed := D.ParseDomain(stored.value, q.uuidOf);
      if parsed.Err? {
        return Err(InvalidStored);
      }
      var terms := parsed.value;
      D.ParseCanonicalParse(stored.value, q.uuidOf);
      var audiences := R.AudienceTargets(terms, q.uuidOf);
      var out: seq<AudienceOptOut>;
      out := OptOutOfEach(q, t.email, audiences.value);
      return Ok(out);
    }
  }

  // ----- what the unsubscribe means for the next resolution --------------------------------

  /**
   * End to end: a contact the mailing's domain would select, answering to the unsubscribed address,
   * is selected again after the leg exactly when the domain targets no audience at all: such a
   * domain has nothing to opt out of, and the leg then changes nothing.
   */
  lemma {:induction false} UnsubscribedIsSelectedIff(d: seq<D.Term>, before: R.Tables, after: R.Tables, fold: R.Fold,
          q: Request, email: string, c: Id)
    requires after.contacts == before.contacts && |after.subs| == |before.subs|
    requires forall i :: 0 <= i < |before.subs| ==>
               after.subs[i] == OptedOutOf(before.subs[i], before.contacts, q, email,
                                           R.Names(d, R.Targets, q.uuidOf, before.subs[i].audience))
    requires c < |before.contacts| && Answers(before.contacts, c, q.lower, email)
    requires R.Meant(d, before, fold, q.uuidOf, c)
    ensures R.Meant(d, after, fold, q.uuidOf, c) <==> !exists a :: R.Names(d, R.Targets, q.uuidOf, a)
    ensures (!exists a :: R.Names(d, R.Targets, q.uuidOf, a)) ==> after == before
  {}
}
