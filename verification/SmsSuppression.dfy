/**
 * The claim-time phone suppression of the sms channel: split the recipients by the blacklist, keep
 * the order, and leave a canceled trace for each one left out.
 */
module SmsSuppression {
  import opened MailTypes
  import opened TraceLifecycle
  import opened TraceTable
  import SmsPump
  import PumpRace

  const SMS_BLACKLIST_FAILURE_TYPE := "sms_blacklist"

  datatype PhoneRecipient = PhoneRecipient(id: Id, email: string, number: string)

  datatype Context = Context(mailing: Id, campaign: Option<Id>)

  datatype Suppressed = Suppressed(recipient: PhoneRecipient, trace: Id)

  datatype Outcome = Outcome(checked: nat, suppressed: seq<Suppressed>, sendSet: seq<PhoneRecipient>)

  function Sendable(blacklist: set<string>): PhoneRecipient -> bool {
    (r: PhoneRecipient) => r.number !in blacklist
  }

  function Barred(blacklist: set<string>): PhoneRecipient -> bool {
    (r: PhoneRecipient) => r.number in blacklist
  }

  function CancelTrace(ctx: Context, r: PhoneRecipient): Trace {
    Minted(ctx.mailing, ctx.campaign, Sms, r.id, r.email, Some(SMS_BLACKLIST_FAILURE_TYPE))
  }

  function CancelTraces(ctx: Context, rs: seq<PhoneRecipient>): Table {
    seq(|rs|, i requires 0 <= i < |rs| => CancelTrace(ctx, rs[i]))
  }

  /** Nobody is lost and nobody is in both halves: the split is by position. */
  lemma {:induction false} SplitIsExact(rs: seq<PhoneRecipient>, blacklist: set<string>)
    ensures |Filter(rs, Sendable(blacklist))| + |Filter(rs, Barred(blacklist))| == |rs|
    ensures multiset(Filter(rs, Sendable(blacklist))) + multiset(Filter(rs, Barred(blacklist))) == multiset(rs)
  {
    if rs != [] {
      SplitIsExact(rs[1..], blacklist);
      assert rs == [rs[0]] + rs[1..];
    }
  }

  lemma {:induction false} SplitIsByNumber(rs: seq<PhoneRecipient>, blacklist: set<string>)
    ensures forall r :: r in Filter(rs, Sendable(blacklist)) <==> r in rs && r.number !in blacklist
    ensures forall r :: r in Filter(rs, Barred(blacklist)) <==> r in rs && r.number in blacklist
  {
    if rs != [] {
      SplitIsByNumber(rs[1..], blacklist);
    }
  }

  /** The visible suppression of one recipient, field by field. */
  predicate TellsSuppression(t: Trace, ctx: Context, r: PhoneRecipient) {
    && t.mailing == ctx.mailing && t.campaign == ctx.campaign && t.channel == Sms && !t.deleted
    && t.recipient == r.id && t.email == r.email
    && t.status == Cancel && t.failure == Some("sms_blacklist") && t.smsUuid.None? && t.sentAt.None?
  }

  class SmsSuppressionService {
    const traces: TraceRepository

    constructor (traces: TraceRepository)
      ensures this.traces == traces
    {
      this.traces := traces;
    }

    /** The walk over the recipients: each goes to one of the two lists, in order. */
    method Split(recipients: seq<PhoneRecipient>, blacklist: set<string>)
      returns (sendSet: seq<PhoneRecipient>, toCancel: seq<PhoneRecipient>)
      ensures sendSet == Filter(recipients, Sendable(blacklist))
      ensures toCancel == Filter(recipients, Barred(blacklist))
      ensures |sendSet| + |toCancel| == |recipients|
      ensures forall r :: r in sendSet <==> r in recipients && r.number !in blacklist
      ensures forall r :: r in toCancel <==> r in recipients && r.number in blacklist
    {
      toCancel, sendSet := [], [];
      for i := 0 to |recipients|
        invariant sendSet == Filter(recipients[..i], Sendable(blacklist))
        invariant toCancel == Filter(recipients[..i], Barred(blacklist))
      {
        assert recipients[..i + 1] == recipients[..i] + [recipients[i]];
        FilterAppend(recipients[..i], recipients[i], Sendable(blacklist));
        FilterAppend(recipients[..i], recipients[i], Barred(blacklist));
        if recipients[i].number in blacklist {
          toCancel := toCancel + [recipients[i]];
        } else {
          sendSet := sendSet + [recipients[i]];
        }
      }
      assert recipients[..|recipients|] == recipients;
      SplitIsExact(recipients, blacklist);
      SplitIsByNumber(recipients, blacklist);
    }

    method MintSuppressions(ctx: Context, toCancel: seq<PhoneRecipient>) returns (suppressed: seq<Suppressed>)
      modifies traces
      ensures traces.rows == old(traces.rows) + CancelTraces(ctx, toCancel)
      ensures |suppressed| == |toCancel|
      ensures forall i :: 0 <= i < |suppressed| ==> suppressed[i] == Suppressed(toCancel[i], |old(traces.rows)| + i)
      ensures forall i :: 0 <= i < |suppressed| ==>
                && suppressed[i].trace < |traces.rows|
                && TellsSuppression(traces.rows[suppressed[i].trace], ctx, suppressed[i].recipient)
    {
      ghost var base := traces.rows;
      suppressed := [];
      for i := 0 to |toCancel|
        invariant traces.rows == base + CancelTraces(ctx, toCancel[..i])
        invariant |suppressed| == i
        invariant forall k :: 0 <= k < i ==> suppressed[k] == Suppressed(toCancel[k], |base| + k)
      {
        var minted := traces.MintTrace(CancelTrace(ctx, toCancel[i]));
        suppressed := suppressed + [Suppressed(toCancel[i], minted.value)];
        assert CancelTraces(ctx, toCancel[..i + 1]) == CancelTraces(ctx, toCancel[..i])
            + [CancelTrace(ctx, toCancel[i])];
      }
      assert toCancel[..|toCancel|] == toCancel;
    }

    /** Both halves keep the input order; each barred recipient gets one canceled trace, in order. */
    method SuppressAtClaim(ctx: Context, recipients: seq<PhoneRecipient>, blacklist: set<string>) returns (out: Outcome)
      modifies traces
      ensures out.checked == |recipients| == |out.sendSet| + |out.suppressed|
      ensures out.sendSet == Filter(recipients, Sendable(blacklist))
      ensures traces.rows == old(traces.rows) + CancelTraces(ctx, Filter(recipients, Barred(blacklist)))
      ensures |out.suppressed| == |Filter(recipients, Barred(blacklist))|
      ensures forall i :: 0 <= i < |out.suppressed| ==>
                out.suppressed[i] == Suppressed(Filter(recipients, Barred(blacklist))[i], |old(traces.rows)| + i)
      ensures forall r :: r in out.sendSet <==> r in recipients && r.number !in blacklist
      ensures forall i :: 0 <= i < |out.suppressed| ==>
                && out.suppressed[i].recipient in recipients && out.suppressed[i].recipient.number in blacklist
                && out.suppressed[i].trace < |traces.rows|
                && TellsSuppression(traces.rows[out.suppressed[i].trace], ctx, out.suppressed[i].recipient)
    {
      var sendSet, toCancel := Split(recipients, blacklist);
      var suppressed := MintSuppressions(ctx, toCancel);
      forall i | 0 <= i < |suppressed|
        ensures suppressed[i].recipient in recipients && suppressed[i].recipient.number in blacklist
      {
        assert suppressed[i].recipient == toCancel[i] && toCancel[i] in toCancel;
      }
      return Outcome(|recipients|, suppressed, sendSet);
    }
  }

  /**
   * A suppression closes no door: it takes no fence slot, so a later re-target can still mint, and
   * it leaves nothing for the delivery pump to wait for.
   */
  lemma {:induction false} SuppressionClosesNoDoor(ts: Table, ctx: Context, rs: seq<PhoneRecipient>, mailing: Id,
          recipient: Id)
    ensures FenceHit(ts + CancelTraces(ctx, rs), mailing, recipient) <==> FenceHit(ts, mailing, recipient)
    ensures PumpRace.Remaining(ts + CancelTraces(ctx, rs), mailing) == PumpRace.Remaining(ts, mailing)
  {
    var rows := CancelTraces(ctx, rs);
    if FenceHit(ts, mailing, recipient) {
      var i :| 0 <= i < |ts| && Holds(ts[i], mailing, recipient);
      assert (ts + rows)[i] == ts[i];
    }
    var p := PumpRace.TransientOf(mailing);
    CountAppend(ts, rows, p);
    CountZero(rows, p);
    assert forall i :: 0 <= i < |rows| ==> !p(rows[i]);
  }
}
