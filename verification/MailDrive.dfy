/**
 * One drive of a mail mailing over the trace table, and what repeated capped drives amount to.
 * The whole progress of a drive lives in the traces: no cursor is kept between passes.
 */
module MailDrive {
  import opened MailTypes
  import opened TraceLifecycle
  import opened TraceTable
  import opened SendWalk

  /** What a drive works from: the mailing's keys, its resolved list, its policy and its pass budget. */
  datatype Job = Job(
    mailing: Id,
    campaign: Option<Id>,
    inTest: bool,
    recipients: seq<Recipient>,
    policy: Policy,
    budget: nat)

  /** The enqueue seam's answer for a trace: the mail row it queued, or why it refused. */
  type Seam = Id -> Result<Id, string>

  // ----- the memory of a drive: the disposition probe --------------------------------------

  /** The campaign counts only when the mailing cites an A/B test. */
  function Scope(job: Job): Option<Id> {
    if job.inTest then job.campaign else None
  }

  predicate InScope(t: Trace, job: Job) {
    t.mailing == job.mailing || (Scope(job).Some? && t.campaign == Scope(job))
  }

  function ActiveIds(ts: Table, job: Job): set<Id> {
    set i | 0 <= i < |ts| && Fenced(ts[i]) && InScope(ts[i], job) :: ts[i].recipient
  }

  function SuppressedIds(ts: Table, job: Job): set<Id> {
    set i | 0 <= i < |ts| && !ts[i].deleted && ts[i].status.Cancel? && ts[i].mailing == job.mailing :: ts[i].recipient
  }

  /** A row the walk will read as "this recipient is dealt with". */
  predicate Deals(t: Trace, job: Job) {
    !t.deleted && (t.mailing == job.mailing || (Fenced(t) && InScope(t, job)))
  }

  function Handled(ts: Table, job: Job): set<Id> {
    set i | 0 <= i < |ts| && Deals(ts[i], job) :: ts[i].recipient
  }

  lemma {:induction false} HandledIsTheDisposition(ts: Table, job: Job)
    ensures Handled(ts, job) == ActiveIds(ts, job) + SuppressedIds(ts, job)
  {}

  lemma {:induction false} NotHandled(ts: Table, job: Job, x: Id)
    requires x !in Handled(ts, job)
    ensures forall i :: 0 <= i < |ts| && ts[i].recipient == x ==> !Deals(ts[i], job)
  {}

  lemma {:induction false} HandledAppend(a: Table, b: Table, job: Job)
    ensures Handled(a + b, job) == Handled(a, job) + Handled(b, job)
  {
    forall x | x in Handled(a, job) + Handled(b, job)
      ensures x in Handled(a + b, job)
    {
      if x in Handled(a, job) {
        var i :| 0 <= i < |a| && Deals(a[i], job) && a[i].recipient == x;
        assert (a + b)[i] == a[i];
      } else {
        var i :| 0 <= i < |b| && Deals(b[i], job) && b[i].recipient == x;
        assert (a + b)[|a| + i] == b[i];
      }
    }
  }

  // ----- the rows a drive mints ------------------------------------------------------------

  function CauseCode(c: Cause): string {
    match c
    case MailDup => "mail_dup"
    case MailBl => "mail_bl"
    case MailOptout => "mail_optout"
  }

  function CancelRow(job: Job, c: (Recipient, Cause)): Trace {
    Minted(job.mailing, job.campaign, Mail, c.0.id, c.0.email, Some(CauseCode(c.1)))
  }

  function CancelRows(job: Job, cs: seq<(Recipient, Cause)>): Table {
    seq(|cs|, i requires 0 <= i < |cs| => CancelRow(job, cs[i]))
  }

  function SendRow(job: Job, r: Recipient): Trace {
    Minted(job.mailing, job.campaign, Mail, r.id, r.email, None)
  }

  /** The rows the fenced mint adds for this work list. */
  function NewRows(ts: Table, job: Job, work: seq<Recipient>): Table
    decreases |work|
  {
    if work == [] then []
    else if Admits(ts, SendRow(job, work[0])) then
      [SendRow(job, work[0])] + NewRows(ts + [SendRow(job, work[0])], job, work[1..])
    else NewRows(ts, job, work[1..])
  }

  /** A minted row after its enqueue: linked to its mail row, or in error with the seam's reason. */
  function SettleVerb(answer: Result<Id, string>): Verb {
    match answer
    case Ok(mail) => AttachMail(mail)
    case Err(why) => DoFailed("mail_smtp", Some(why))
  }

  function SettledRows(rows: Table, base: Id, seam: Seam): Table {
    seq(|rows|, i requires 0 <= i < |rows| => ApplyVerb(SettleVerb(seam(base + i)), rows[i], 0))
  }

  /** The table once the first `i` rows from `base` on are settled. */
  ghost function SettledUpTo(ts: Table, base: Id, i: nat, seam: Seam): (r: Table)
    requires base + i <= |ts|
    ensures |r| == |ts|
  {
    seq(|ts|, k requires 0 <= k < |ts| =>
      if base <= k < base + i then ApplyVerb(SettleVerb(seam(k)), ts[k], 0) else ts[k])
  }

  lemma {:induction false} SettleNext(ts: Table, base: Id, i: nat, seam: Seam)
    requires base + i < |ts|
    ensures SettledUpTo(ts, base, i + 1, seam)
         == Exec(SettledUpTo(ts, base, i, seam), Advance(base + i, SettleVerb(seam(base + i)), 0))
  {}

  function SendAll(ts: Table, job: Job, work: seq<Recipient>, seam: Seam): Table {
    ts + SettledRows(NewRows(ts, job, work), |ts|, seam)
  }

  /** Whom an uncapped pass over this table would send to, and whom it would suppress. */
  function Sends(ts: Table, job: Job): seq<Recipient> {
    SendList(job.recipients, |job.recipients|, Handled(ts, job), job.policy)
  }

  function Cancels(ts: Table, job: Job): seq<(Recipient, Cause)> {
    CancelList(job.recipients, |job.recipients|, Handled(ts, job), job.policy)
  }

  datatype PassResult = PassResult(
    table: Table,
    canceled: seq<(Recipient, Cause)>,
    work: seq<Recipient>,
    remaining: nat)

  /** One pass: suppress, then mint and enqueue up to the budget. */
  function Pass(ts: Table, job: Job, seam: Seam): PassResult {
    var cancels := Cancels(ts, job);
    var sends := Sends(ts, job);
    var work := sends[..Min(job.budget, |sends|)];
    PassResult(SendAll(ts + CancelRows(job, cancels), job, work, seam), cancels, work, |sends| - |work|)
  }

  /** The completion test of the source: nothing left over the budget. */
  predicate Completes(p: PassResult) {
    p.remaining == 0
  }

  // ----- the batch grain leaves no mark ----------------------------------------------------

  ghost predicate SameFence(a: Table, b: Table) {
    forall mailing, recipient :: FenceHit(a, mailing, recipient) <==> FenceHit(b, mailing, recipient)
  }

  lemma {:induction false} FenceHitSnoc(ts: Table, row: Trace)
    ensures forall mailing, recipient ::
              (FenceHit(ts + [row], mailing, recipient) <==>
               FenceHit(ts, mailing, recipient) || Holds(row, mailing, recipient))
  {
    forall mailing, recipient
      ensures FenceHit(ts + [row], mailing, recipient)
         <==> FenceHit(ts, mailing, recipient) || Holds(row, mailing, recipient)
    {
      if FenceHit(ts, mailing, recipient) {
        var i :| 0 <= i < |ts| && Holds(ts[i], mailing, recipient);
        assert (ts + [row])[i] == ts[i];
      }
      if Holds(row, mailing, recipient) {
        assert (ts + [row])[|ts|] == row;
      }
    }
  }

  lemma {:induction false} NewRowsFollowTheFence(a: Table, b: Table, job: Job, work: seq<Recipient>)
    requires SameFence(a, b)
    ensures NewRows(a, job, work) == NewRows(b, job, work)
    decreases |work|
  {
    if work != [] {
      var row := SendRow(job, work[0]);
      FenceHitSnoc(a, row);
      FenceHitSnoc(b, row);
      NewRowsFollowTheFence(a + [row], b + [row], job, work[1..]);
      NewRowsFollowTheFence(a, b, job, work[1..]);
    }
  }

  /** Settling a row neither frees nor takes a fence slot. */
  lemma {:induction false} SettlingKeepsTheFence(ts: Table, rows: Table, base: Id, seam: Seam)
    requires forall i :: 0 <= i < |rows| ==> rows[i].status.Outgoing?
    ensures SameFence(ts + rows, ts + SettledRows(rows, base, seam))
  {
    var settled := SettledRows(rows, base, seam);
    forall mailing, recipient
      ensures FenceHit(ts + rows, mailing, recipient) <==> FenceHit(ts + settled, mailing, recipient)
    {
      assert forall i :: 0 <= i < |ts + rows| ==>
          Holds((ts + rows)[i], mailing, recipient) == Holds((ts + settled)[i], mailing, recipient);
    }
  }

  /** Every minted row is the send row of somebody on the work list. */
  lemma {:induction false} NewRowsComeFromWork(ts: Table, job: Job, work: seq<Recipient>)
    ensures forall i :: 0 <= i < |NewRows(ts, job, work)| ==>
              var row := NewRows(ts, job, work)[i];
              && Recipient(row.recipient, row.email) in work
              && row == SendRow(job, Recipient(row.recipient, row.email))
    decreases |work|
  {
    if work != [] {
      NewRowsComeFromWork(ts + [SendRow(job, work[0])], job, work[1..]);
      NewRowsComeFromWork(ts, job, work[1..]);
    }
  }

  lemma {:induction false} NewRowsAppend(ts: Table, job: Job, a: seq<Recipient>, b: seq<Recipient>)
    ensures NewRows(ts, job, a + b) == NewRows(ts, job, a) + NewRows(ts + NewRows(ts, job, a), job, b)
    decreases |a|
  {
    if a == [] {
      assert a + b == b;
      assert ts + [] == ts;
    } else {
      assert (a + b)[1..] == a[1..] + b;
      var row := SendRow(job, a[0]);
      if Admits(ts, row) {
        NewRowsAppend(ts + [row], job, a[1..], b);
        assert ts + [row] + NewRows(ts + [row], job, a[1..]) == ts + NewRows(ts, job, a);
      } else {
        NewRowsAppend(ts, job, a[1..], b);
      }
    }
  }

  lemma {:induction false} SettledSplit(a: Table, b: Table, base: Id, seam: Seam)
    ensures SettledRows(a + b, base, seam) == SettledRows(a, base, seam) + SettledRows(b, base + |a|, seam)
  {}

  /** Minting and enqueueing a work list in two chunks is doing it in one: the commit grain is invisible. */
  lemma {:induction false} ChunksCompose(ts: Table, job: Job, a: seq<Recipient>, b: seq<Recipient>, seam: Seam)
    ensures SendAll(SendAll(ts, job, a, seam), job, b, seam) == SendAll(ts, job, a + b, seam)
  {
    var rowsA := NewRows(ts, job, a);
    var mid := SendAll(ts, job, a, seam);
    NewRowsComeFromWork(ts, job, a);
    SettlingKeepsTheFence(ts, rowsA, |ts|, seam);
    NewRowsFollowTheFence(ts + rowsA, mid, job, b);
    NewRowsAppend(ts, job, a, b);
    SettledSplit(rowsA, NewRows(mid, job, b), |ts|, seam);
  }

  // ----- orphan repair ---------------------------------------------------------------------

  /** Five minutes: younger traces may be between another worker's mint and its enqueue. */
  const REPAIR_GRACE: nat := 300

  /** When each trace was minted, as the database recorded it. */
  type Births = Id -> Time

  /** An outgoing mail trace of the mailing that never got its mail row, and is old enough. */
  predicate IsOrphan(ts: Table, i: Id, mailing: Id, births: Births, now: Time) {
    && i < |ts|
    && ts[i].mailing == mailing && ts[i].status.Outgoing? && ts[i].channel.Mail? && ts[i].mailId.None? && !ts[i].deleted
    && births(i) + REPAIR_GRACE <= now
  }

  function OrphanIds(ts: Table, n: nat, mailing: Id, births: Births, now: Time): seq<Id>
    requires n <= |ts|
  {
    if n == 0 then []
    else OrphanIds(ts, n - 1, mailing, births, now) + if IsOrphan(ts, n - 1, mailing, births, now) then [n - 1] else []
  }

  lemma {:induction false} OrphanIdsAreExact(ts: Table, n: nat, mailing: Id, births: Births, now: Time)
    requires n <= |ts|
    ensures var ids := OrphanIds(ts, n, mailing, births, now);
            && (forall i: Id :: i in ids <==> i < n && IsOrphan(ts, i, mailing, births, now))
            && (forall j, k :: 0 <= j < k < |ids| ==> ids[j] != ids[k])
  {
    if n > 0 {
      OrphanIdsAreExact(ts, n - 1, mailing, births, now);
    }
  }

  /** A trace handed to the mail seam again: linked when the seam takes it, otherwise left as it was. */
  function Relinked(t: Trace, answer: Result<Id, string>, now: Time): Trace {
    if answer.Ok? then ApplyVerb(AttachMail(answer.value), t, now) else t
  }

  function IsLinked(): Trace -> bool {
    (t: Trace) => t.mailId.Some?
  }

  function IsSend(): Trace -> bool {
    (t: Trace) => !t.status.Cancel?
  }

  /** How many of the `n` traces from `base` on the seam takes. */
  function Oks(seam: Seam, base: Id, n: nat): nat {
    if n == 0 then 0 else Oks(seam, base, n - 1) + if seam(base + n - 1).Ok? then 1 else 0
  }

  lemma {:induction false} OksCompose(seam: Seam, base: Id, n: nat, m: nat)
    ensures Oks(seam, base, n + m) == Oks(seam, base, n) + Oks(seam, base + n, m)
  {
    if m > 0 {
      OksCompose(seam, base, n, m - 1);
    }
  }

  lemma {:induction false} OneSettles(row: Trace, answer: Result<Id, string>)
    requires row.status.Outgoing? && !row.deleted && row.mailId.None?
    ensures var u := ApplyVerb(SettleVerb(answer), row, 0);
            IsSend()(u) && (IsLinked()(u) <==> answer.Ok?)
  {}

  lemma {:induction false} CountOneMore(before: Table, last: Trace, p: Trace -> bool)
    ensures Count(before + [last], p) == Count(before, p) + if p(last) then 1 else 0
  {
    CountAppend(before, [last], p);
    assert [last][1..] == [];
  }

  lemma {:induction false} OksCount(u: Table, base: Id, seam: Seam)
    requires forall i :: 0 <= i < |u| ==> IsSend()(u[i]) && (IsLinked()(u[i]) <==> seam(base + i).Ok?)
    ensures Count(u, IsLinked()) == Oks(seam, base, |u|) && Count(u, IsSend()) == |u|
  {
    if u != [] {
      var before, last := u[..|u| - 1], u[|u| - 1];
      OksCount(before, base, seam);
      assert u == before + [last];
      CountOneMore(before, last, IsLinked());
      CountOneMore(before, last, IsSend());
    }
  }

  /** What the seam took is what ends up linked. */
  lemma {:induction false} OksAreLinks(rows: Table, base: Id, seam: Seam)
    requires forall i :: 0 <= i < |rows| ==> rows[i].status.Outgoing? && !rows[i].deleted && rows[i].mailId.None?
    ensures Count(SettledRows(rows, base, seam), IsLinked()) == Oks(seam, base, |rows|)
    ensures Count(SettledRows(rows, base, seam), IsSend()) == |rows|
  {
    var u := SettledRows(rows, base, seam);
    forall i | 0 <= i < |u|
      ensures IsSend()(u[i]) && (IsLinked()(u[i]) <==> seam(base + i).Ok?)
    {
      OneSettles(rows[i], seam(base + i));
    }
    OksCount(u, base, seam);
  }

  /** The traces whose mail the seam takes when asked again. */
  function Answered(seam: Seam): Id -> bool {
    (i: Id) => seam(i).Ok?
  }

  /** The table after the repair arm of one mailing. */
  function Repaired(ts: Table, mailing: Id, births: Births, now: Time, seam: Seam): Table {
    seq(|ts|, i requires 0 <= i < |ts| =>
      if IsOrphan(ts, i, mailing, births, now) then Relinked(ts[i], seam(i), now) else ts[i])
  }

  /** The two rows differ in nothing but the mail link. */
  predicate OnlyLinks(a: Trace, b: Trace) {
    b == a.(mailId := b.mailId)
  }

  /** Repair touches nothing but a missing mail link of this mailing's own traces. */
  lemma {:induction false} RepairOnlyLinks(ts: Table, mailing: Id, births: Births, now: Time, seam: Seam)
    ensures var u := Repaired(ts, mailing, births, now, seam);
            && |u| == |ts|
            && forall i :: 0 <= i < |ts| ==>
                 u[i] == ts[i] || (ts[i].mailing == mailing && ts[i].mailId.None? && OnlyLinks(ts[i], u[i]))
  {
    forall i | 0 <= i < |ts|
      ensures var x := Repaired(ts, mailing, births, now, seam)[i];
              x == ts[i] || (ts[i].mailing == mailing && ts[i].mailId.None? && OnlyLinks(ts[i], x))
    {
      if IsOrphan(ts, i, mailing, births, now) {
        assert OnlyLinks(ts[i], Relinked(ts[i], seam(i), now));
      }
    }
  }

  /**
   * What may happen to the table between two passes: anything that leaves this mailing's traces
   * standing (any verb, any link), and neither frees, cancels nor mints a trace of its campaign scope.
   */
  ghost predicate Calm(a: Table, b: Table, job: Job) {
    && |a| <= |b|
    && (forall i :: 0 <= i < |a| ==>
          && SameAddress(a[i], b[i])
          && (a[i].mailing != job.mailing && InScope(a[i], job) ==> (a[i].status.Cancel? <==> b[i].status.Cancel?)))
    && (forall i :: |a| <= i < |b| ==> !InScope(b[i], job))
  }

  /** Which links, to the field: a live outgoing mail trace of the mailing, unlinked, five minutes old. */
  lemma {:induction false} RepairLinksExactly(ts: Table, mailing: Id, births: Births, now: Time, seam: Seam, i: Id)
    requires i < |ts|
    ensures var t := ts[i];
            var due := && t.mailing == mailing && t.status == Outgoing && t.channel == Mail && t.mailId.None?
                       && !t.deleted && births(i) + 5 * 60 <= now;
            Repaired(ts, mailing, births, now, seam)[i]
            == if due && seam(i).Ok? then t.(mailId := Some(seam(i).value)) else t
  {
    var t := ts[i];
    if seam(i).Ok? && IsOrphan(ts, i, mailing, births, now) {
      assert Relinked(t, seam(i), now) == Updated(AttachMail(seam(i).value), t, now);
    }
  }

  /** So it is calm for every drive: a capped run resumes across it. */
  lemma {:induction false} RepairIsCalm(ts: Table, mailing: Id, births: Births, now: Time, seam: Seam, job: Job)
    ensures Calm(ts, Repaired(ts, mailing, births, now, seam), job)
  {
    RepairOnlyLinks(ts, mailing, births, now, seam);
  }

  lemma {:induction false} LinksLeaveThePlan(a: Table, b: Table, job: Job)
    requires |a| == |b| && forall i :: 0 <= i < |a| ==> OnlyLinks(a[i], b[i])
    ensures Handled(a, job) == Handled(b, job) && Sends(a, job) == Sends(b, job) && Cancels(a, job) == Cancels(b, job)
  {
    assert forall i :: 0 <= i < |a| ==> Deals(a[i], job) == Deals(b[i], job) && a[i].recipient == b[i].recipient;
  }

  lemma {:induction false} LinksLeaveTheFence(a: Table, b: Table)
    requires |a| == |b| && forall i :: 0 <= i < |a| ==> OnlyLinks(a[i], b[i])
    ensures SameFence(a, b)
  {
    forall mailing, recipient
      ensures FenceHit(a, mailing, recipient) <==> FenceHit(b, mailing, recipient)
    {
      assert forall i :: 0 <= i < |a| ==> Holds(a[i], mailing, recipient) == Holds(b[i], mailing, recipient);
    }
  }

  /** Tables that differ in links alone give a pass the same plan, and it adds the same rows to both. */
  lemma {:induction false} LinksLeaveThePass(a: Table, b: Table, job: Job, seam: Seam)
    requires |a| == |b| && forall i :: 0 <= i < |a| ==> OnlyLinks(a[i], b[i])
    ensures var p, q := Pass(a, job, seam), Pass(b, job, seam);
            && q.canceled == p.canceled && q.work == p.work && q.remaining == p.remaining
            && |p.table| >= |a| && q.table == b + p.table[|a|..]
  {
    LinksLeaveThePlan(a, b, job);
    var p := Pass(a, job, seam);
    var cancels := CancelRows(job, p.canceled);
    var a1, b1 := a + cancels, b + cancels;
    LinksLeaveTheFence(a1, b1);
    NewRowsFollowTheFence(a1, b1, job, p.work);
    var sent := SettledRows(NewRows(a1, job, p.work), |a1|, seam);
    assert p.table == a1 + sent && p.table[|a|..] == cancels + sent;
  }

  // ----- the drive as the source runs it ---------------------------------------------------

  /** Whom the pass is about to mint for: the part of the plan the budget covers. */
  function WorkList(ts: Table, job: Job): seq<Recipient> {
    Sends(ts, job)[..Min(job.budget, |Sends(ts, job)|)]
  }

  /** The table once a pass has written its suppressions. */
  function AfterCancels(ts: Table, job: Job): Table {
    ts + CancelRows(job, Cancels(ts, job))
  }

  /** The rows a pass mints to send, before the seam has answered. */
  function Minting(ts: Table, job: Job): Table {
    NewRows(AfterCancels(ts, job), job, WorkList(ts, job))
  }

  /** What a pass adds: canceled traces, then the ones it sends. */
  lemma {:induction false} PassAdds(ts: Table, job: Job, seam: Seam)
    ensures Pass(ts, job, seam).table
         == AfterCancels(ts, job) + SettledRows(Minting(ts, job), |AfterCancels(ts, job)|, seam)
    ensures |ts| <= |AfterCancels(ts, job)| && ts == AfterCancels(ts, job)[..|ts|]
    ensures forall i :: |ts| <= i < |AfterCancels(ts, job)| ==>
              var t := AfterCancels(ts, job)[i];
              t.status.Cancel? && t.mailing == job.mailing && t.campaign == job.campaign
  {}

  /** The trace is this mailing's to this recipient, on the mail channel, and nobody has touched it yet. */
  predicate IsFresh(t: Trace, job: Job, r: Recipient) {
    && t.mailing == job.mailing && t.campaign == job.campaign && t.channel == Mail && !t.deleted
    && t.recipient == r.id && t.email == r.email
    && t.sentAt.None? && t.openAt.None? && t.replyAt.None? && t.clickAt.None? && t.smsUuid.None?
  }

  /** A visible suppression, with the code of its cause. */
  predicate IsSuppression(t: Trace, cause: Cause) {
    && t.status == Cancel && t.mailId.None? && t.reason.None?
    && match cause
       case MailDup => t.failure == Some("mail_dup")
       case MailBl => t.failure == Some("mail_bl")
       case MailOptout => t.failure == Some("mail_optout")
  }

  /** A send: linked to the mail the seam queued, or in error with the reason the seam gave. */
  predicate IsSettledSend(t: Trace, answer: Result<Id, string>) {
    match answer
    case Ok(mail) => t.status == Outgoing && t.mailId == Some(mail) && t.failure.None? && t.reason.None?
    case Err(why) => t.status == Error && t.mailId.None? && t.failure == Some("mail_smtp") && t.reason == Some(why)
  }

  /** The suppressions of a pass: each of a listed recipient the rules withhold, and for that cause. */
  predicate Suppresses(rs: seq<Recipient>, i: nat, h: set<Id>, t: Trace, job: Job)
    requires i < |rs|
  {
    IsFresh(t, job, rs[i]) && exists cause :: IsWithheld(rs, i, h, job.policy, cause) && IsSuppression(t, cause)
  }

  lemma {:induction false} PassSuppresses(ts: Table, job: Job, seam: Seam, k: Id)
    requires |ts| <= k < |ts| + |Cancels(ts, job)|
    ensures k < |Pass(ts, job, seam).table|
    ensures exists i :: 0 <= i < |job.recipients|
                        && Suppresses(job.recipients, i, Handled(ts, job), Pass(ts, job, seam).table[k], job)
  {
    var rs, h, c := job.recipients, Handled(ts, job), Cancels(ts, job)[k - |ts|];
    PassAdds(ts, job, seam);
    CancelListIsExact(rs, |rs|, h, job.policy);
    assert c in Cancels(ts, job);
    var i :| 0 <= i < |rs| && rs[i] == c.0 && IsWithheld(rs, i, h, job.policy, c.1);
    var t := CancelRow(job, c);
    assert Pass(ts, job, seam).table[k] == t;
    assert IsFresh(t, job, rs[i]) && IsSuppression(t, c.1);
    assert Suppresses(rs, i, h, t, job);
  }

  lemma {:induction false} SettledSendIs(job: Job, r: Recipient, answer: Result<Id, string>)
    ensures var t := ApplyVerb(SettleVerb(answer), SendRow(job, r), 0);
            IsFresh(t, job, r) && IsSettledSend(t, answer)
  {}

  /** Settling a live outgoing row changes neither its address nor its hold on the fence. */
  lemma {:induction false} SettledShape(rows: Table, base: Id, seam: Seam)
    requires forall i :: 0 <= i < |rows| ==> rows[i].status.Outgoing? && !rows[i].deleted
    ensures forall i :: 0 <= i < |rows| ==>
              SameAddress(rows[i], SettledRows(rows, base, seam)[i]) && Fenced(SettledRows(rows, base, seam)[i])
  {}

  /** None of those is canceled, whatever the seam answers, and each is for somebody the walk sends to. */
  lemma {:induction false} MintedToSend(ts: Table, job: Job, seam: Seam, i: nat)
    requires i < |Minting(ts, job)|
    ensures var row, u := Minting(ts, job)[i], SettledRows(Minting(ts, job), |AfterCancels(ts, job)|, seam)[i];
            && Fenced(u) && SameAddress(row, u)
            && row.mailing == job.mailing && row.campaign == job.campaign
            && Recipient(row.recipient, row.email) in Sends(ts, job)
  {
    NewRowsComeFromWork(AfterCancels(ts, job), job, WorkList(ts, job));
    SettledShape(Minting(ts, job), |AfterCancels(ts, job)|, seam);
  }

  lemma {:induction false} PassSends(ts: Table, job: Job, seam: Seam, k: Id)
    requires |ts| + |Cancels(ts, job)| <= k < |Pass(ts, job, seam).table|
    ensures exists i :: 0 <= i < |job.recipients| && Deserves(job.recipients, i, Handled(ts, job), job.policy)
                        && IsFresh(Pass(ts, job, seam).table[k], job, job.recipients[i])
                        && IsSettledSend(Pass(ts, job, seam).table[k], seam(k))
  {
    var rs, h := job.recipients, Handled(ts, job);
    var n := k - |AfterCancels(ts, job)|;
    PassAdds(ts, job, seam);
    NewRowsComeFromWork(AfterCancels(ts, job), job, WorkList(ts, job));
    MintedToSend(ts, job, seam, n);
    var r := Recipient(Minting(ts, job)[n].recipient, Minting(ts, job)[n].email);
    SendListIsExact(rs, |rs|, h, job.policy);
    var i :| 0 <= i < |rs| && rs[i] == r && Deserves(rs, i, h, job.policy);
    SettledSendIs(job, r, seam(k));
    assert Pass(ts, job, seam).table[k] == ApplyVerb(SettleVerb(seam(k)), SendRow(job, r), 0);
  }

  /**
   * What a pass writes, trace by trace: first the suppressions, each of a listed recipient the rules
   * withhold and for that cause; then the sends, each of a listed recipient the rules let through.
   */
  lemma {:induction false} PassWrites(ts: Table, job: Job, seam: Seam, k: Id)
    requires |ts| <= k < |Pass(ts, job, seam).table|
    ensures var rs, h, t := job.recipients, Handled(ts, job), Pass(ts, job, seam).table[k];
            exists i :: 0 <= i < |rs|
                        && if k < |ts| + |Cancels(ts, job)| then Suppresses(rs, i, h, t, job)
                           else Deserves(rs, i, h, job.policy) && IsFresh(t, job, rs[i]) && IsSettledSend(t, seam(k))
  {
    if k < |ts| + |Cancels(ts, job)| {
      PassSuppresses(ts, job, seam, k);
    } else {
      PassSends(ts, job, seam, k);
    }
  }

  lemma {:induction false} AddedRows(ts: Table, job: Job, seam: Seam)
    ensures var u := Pass(ts, job, seam).table;
            |ts| <= |u| && u[|ts|..] == CancelRows(job, Cancels(ts, job))
                                        + SettledRows(Minting(ts, job), |AfterCancels(ts, job)|, seam)
  {
    PassAdds(ts, job, seam);
  }

  lemma {:induction false} CancelsAreNoSends(job: Job, cs: seq<(Recipient, Cause)>)
    ensures Count(CancelRows(job, cs), IsSend()) == 0 && Count(CancelRows(job, cs), IsLinked()) == 0
  {
    CountZero(CancelRows(job, cs), IsSend());
    CountZero(CancelRows(job, cs), IsLinked());
  }

  /** Of the traces a pass adds: the sends are the minted ones, and the linked those the seam took. */
  lemma {:induction false} PassCountsRows(ts: Table, job: Job, seam: Seam)
    ensures var u := Pass(ts, job, seam).table;
            && |ts| <= |u|
            && Count(u[|ts|..], IsSend()) == |Minting(ts, job)|
            && Count(u[|ts|..], IsLinked()) == Oks(seam, |AfterCancels(ts, job)|, |Minting(ts, job)|)
  {
    var base, cancels, rows := |AfterCancels(ts, job)|, CancelRows(job, Cancels(ts, job)), Minting(ts, job);
    AddedRows(ts, job, seam);
    CancelsAreNoSends(job, Cancels(ts, job));
    NewRowsComeFromWork(AfterCancels(ts, job), job, WorkList(ts, job));
    OksAreLinks(rows, base, seam);
    CountAppend(cancels, SettledRows(rows, base, seam), IsSend());
    CountAppend(cancels, SettledRows(rows, base, seam), IsLinked());
  }

  class MailSender {
    const traces: TraceRepository
    const enqueueBatch: nat

    constructor (traces: TraceRepository, enqueueBatch: nat)
      ensures this.traces == traces && this.enqueueBatch == enqueueBatch
    {
      this.traces := traces;
      this.enqueueBatch := enqueueBatch;
    }

    /**
     * The repair arm: hand each orphan to the mail seam once more, in whatever order they come. A
     * refusal leaves its trace for the next drive.
     */
    method RepairOrphans(mailing: Id, orphans: seq<Id>, births: Births, now: Time, seam: Seam) returns (repaired: nat)
      requires forall i: Id :: i in orphans <==> IsOrphan(traces.rows, i, mailing, births, now)
      requires forall j, k :: 0 <= j < k < |orphans| ==> orphans[j] != orphans[k]
      modifies traces
      ensures traces.rows == Repaired(old(traces.rows), mailing, births, now, seam)
      ensures repaired == Count(orphans, Answered(seam))
    {
      ghost var start := traces.rows;
      repaired := 0;
      for j := 0 to |orphans|
        invariant |traces.rows| == |start| && repaired == Count(orphans[..j], Answered(seam))
        invariant forall i: Id :: i < |start| ==>
                    traces.rows[i] == if i in orphans[..j] then Relinked(start[i], seam(i), now) else start[i]
      {
        var id := orphans[j];
        assert orphans[..j + 1] == orphans[..j] + [id];
        CountAppend(orphans[..j], [id], Answered(seam));
        assert id !in orphans[..j] && id in orphans;
        var answer := seam(id);
        if answer.Ok? {
          var moved := traces.Advance(id, AttachMail(answer.value), now);
          repaired := repaired + 1;
        }
      }
      assert orphans[..|orphans|] == orphans;
    }

    /** The visible suppressions: one canceled trace per piece of cancel work. */
    method MintCancels(job: Job, cancelWork: seq<(Recipient, Cause)>)
      modifies traces
      ensures traces.rows == old(traces.rows) + CancelRows(job, cancelWork)
    {
      for i := 0 to |cancelWork|
        invariant traces.rows == old(traces.rows) + CancelRows(job, cancelWork[..i])
      {
        var r := traces.MintTrace(CancelRow(job, cancelWork[i]));
        assert CancelRows(job, cancelWork[..i + 1]) == CancelRows(job, cancelWork[..i])
            + [CancelRow(job, cancelWork[i])];
      }
      assert cancelWork[..|cancelWork|] == cancelWork;
    }

    /** One commit's worth of fenced mints; the answer lists who won its slot, with the new ids. */
    method MintBatch(job: Job, batch: seq<Recipient>) returns (minted: seq<Id>, fenceSkips: nat)
      modifies traces
      ensures traces.rows == old(traces.rows) + NewRows(old(traces.rows), job, batch)
      ensures |minted| == |NewRows(old(traces.rows), job, batch)|
      ensures forall i :: 0 <= i < |minted| ==> minted[i] == |old(traces.rows)| + i
      ensures |minted| + fenceSkips == |batch|
    {
      ghost var start := traces.rows;
      minted, fenceSkips := [], 0;
      for i := 0 to |batch|
        invariant traces.rows == start + NewRows(start, job, batch[..i])
        invariant |minted| == |NewRows(start, job, batch[..i])|
        invariant forall k :: 0 <= k < |minted| ==> minted[k] == |start| + k
        invariant |minted| + fenceSkips == i
      {
        NewRowsAppend(start, job, batch[..i], [batch[i]]);
        assert batch[..i + 1] == batch[..i] + [batch[i]];
        assert [batch[i]][1..] == [];
        var id := |traces.rows|;
        var inserted := traces.MintFenced(SendRow(job, batch[i]));
        if inserted {
          minted := minted + [id];
        } else {
          fenceSkips := fenceSkips + 1;
        }
      }
      assert batch[..|batch|] == batch;
    }

    /** After the commit: hand each minted trace to the mail seam; one refusal never fails the batch. */
    method EnqueueBatch(base: Id, minted: seq<Id>, seam: Seam) returns (enqueued: nat)
      requires base + |minted| == |traces.rows|
      requires forall i :: 0 <= i < |minted| ==> minted[i] == base + i
      modifies traces
      ensures traces.rows == old(traces.rows)[..base] + SettledRows(old(traces.rows)[base..], base, seam)
      ensures enqueued == Oks(seam, base, |minted|)
    {
      ghost var start := traces.rows;
      enqueued := 0;
      assert start == SettledUpTo(start, base, 0, seam);
      for i := 0 to |minted|
        invariant traces.rows == SettledUpTo(start, base, i, seam)
        invariant enqueued == Oks(seam, base, i)
      {
        SettleNext(start, base, i, seam);
        var answer := seam(minted[i]);
        var moved := traces.Advance(minted[i], SettleVerb(answer), 0);
        if answer.Ok? {
          enqueued := enqueued + 1;
        }
      }
      assert traces.rows == start[..base] + SettledRows(start[base..], base, seam);
    }

    /** One chunk: mint, commit, then enqueue what was minted. */
    method SendChunk(job: Job, batch: seq<Recipient>, seam: Seam)
      returns (minted: nat, enqueued: nat, fenceSkips: nat)
      modifies traces
      ensures traces.rows == SendAll(old(traces.rows), job, batch, seam)
      ensures minted == |NewRows(old(traces.rows), job, batch)|
      ensures minted + fenceSkips == |batch| && enqueued == Oks(seam, |old(traces.rows)|, minted)
    {
      ghost var start := traces.rows;
      var base := |traces.rows|;
      var ids, skips := MintBatch(job, batch);
      minted, fenceSkips := |ids|, skips;
      enqueued := EnqueueBatch(base, ids, seam);
      assert traces.rows == SendAll(start, job, batch, seam);
    }

    /** The mint-commit-enqueue loop over chunks of the work list. */
    method SendBatches(job: Job, work: seq<Recipient>, seam: Seam) returns (minted: nat, enqueued: nat, fenceSkips: nat)
      modifies traces
      ensures traces.rows == SendAll(old(traces.rows), job, work, seam)
      ensures minted == |NewRows(old(traces.rows), job, work)|
      ensures minted + fenceSkips == |work| && enqueued == Oks(seam, |old(traces.rows)|, minted)
    {
      ghost var start := traces.rows;
      var grain := if enqueueBatch == 0 then 1 else enqueueBatch;
      var done := 0;
      minted, enqueued, fenceSkips := 0, 0, 0;
      assert start + [] == start;
      while done < |work|
        invariant done <= |work|
        invariant traces.rows == SendAll(start, job, work[..done], seam)
        invariant |traces.rows| == |start| + minted
        invariant minted + fenceSkips == done && enqueued == Oks(seam, |start|, minted)
      {
        var upto := Min(done + grain, |work|);
        var batch := work[done..upto];
        var more, ok, skips := SendChunk(job, batch, seam);
        ChunksCompose(start, job, work[..done], batch, seam);
        assert work[..done] + batch == work[..upto];
        OksCompose(seam, |start|, minted, more);
        minted, enqueued, fenceSkips := minted + more, enqueued + ok, fenceSkips + skips;
        done := upto;
      }
      assert work[..|work|] == work;
    }

    /**
     * Steps (3) to (5) of the drive: read the disposition, walk, suppress, send up to the budget. The
     * counters tell what became of each position, and of each trace the pass has added.
     */
    method DrivePass(job: Job, seam: Seam)
      returns (tally: Tally, minted: nat, enqueued: nat, fenceSkips: nat, remaining: nat)
      modifies traces
      ensures traces.rows == Pass(old(traces.rows), job, seam).table
      ensures remaining == Pass(old(traces.rows), job, seam).remaining
      ensures var rs, h := job.recipients, Handled(old(traces.rows), job);
              tally == Tally(FateCount(rs, |rs|, h, job.policy, Seen),
                             FateCount(rs, |rs|, h, job.policy, Suppressed(MailDup)),
                             FateCount(rs, |rs|, h, job.policy, Suppressed(MailBl)),
                             FateCount(rs, |rs|, h, job.policy, Suppressed(MailOptout)),
                             FateCount(rs, |rs|, h, job.policy, NonMember))
      ensures |traces.rows| >= |old(traces.rows)|
      ensures minted == Count(traces.rows[|old(traces.rows)|..], IsSend())
      ensures enqueued == Count(traces.rows[|old(traces.rows)|..], IsLinked())
      ensures tally.seen + tally.dup + tally.blacklisted + tally.optedOut + tally.nonMember
              + minted + fenceSkips + remaining
           == |job.recipients|
    {
      ghost var start := traces.rows;
      var active, here := ActiveIds(traces.rows, job), SuppressedIds(traces.rows, job);
      HandledIsTheDisposition(traces.rows, job);
      var toSend, cancelWork;
      toSend, cancelWork, tally := Walk(job.recipients, active, here, job.policy);
      MintCancels(job, cancelWork);
      remaining := if |toSend| >= job.budget then |toSend| - job.budget else 0;
      var work := toSend[..Min(job.budget, |toSend|)];
      minted, enqueued, fenceSkips := SendBatches(job, work, seam);
      PassCountsRows(start, job, seam);
    }
  }

  // ----- what a pass leaves behind ---------------------------------------------------------

  /** After its mints, every recipient of the work list is dealt with, and nobody else is added. */
  lemma {:induction false} NewRowsDeal(ts: Table, job: Job, work: seq<Recipient>)
    ensures Handled(ts + NewRows(ts, job, work), job) == Handled(ts, job) + IdsOf(work)
    decreases |work|
  {
    if work == [] {
      assert ts + NewRows(ts, job, work) == ts;
    } else {
      var row := SendRow(job, work[0]);
      assert IdsOf(work) == {work[0].id} + IdsOf(work[1..]) by {
        assert work == [work[0]] + work[1..];
      }
      if Admits(ts, row) {
        NewRowsDeal(ts + [row], job, work[1..]);
        assert ts + [row] + NewRows(ts + [row], job, work[1..]) == ts + NewRows(ts, job, work);
        HandledAppend(ts, [row], job);
        assert Handled([row], job) == {work[0].id} by {
          assert Deals([row][0], job);
        }
      } else {
        NewRowsDeal(ts, job, work[1..]);
        var i :| 0 <= i < |ts| && Holds(ts[i], job.mailing, work[0].id);
        assert Deals(ts[i], job);
      }
    }
  }

  lemma {:induction false} SettlingKeepsHandled(ts: Table, rows: Table, job: Job, base: Id, seam: Seam)
    requires forall i :: 0 <= i < |rows| ==> rows[i].mailing == job.mailing
    ensures Handled(ts + SettledRows(rows, base, seam), job) == Handled(ts + rows, job)
  {
    var a, b := ts + rows, ts + SettledRows(rows, base, seam);
    assert forall i :: 0 <= i < |a| ==> Deals(a[i], job) == Deals(b[i], job) && a[i].recipient == b[i].recipient;
  }

  lemma {:induction false} CancelRowsDeal(job: Job, cs: seq<(Recipient, Cause)>)
    ensures Handled(CancelRows(job, cs), job) == CanceledIds(cs)
  {
    var rows := CancelRows(job, cs);
    assert forall i :: 0 <= i < |rows| ==> Deals(rows[i], job);
    forall x | x in CanceledIds(cs)
      ensures x in Handled(rows, job)
    {
      var c :| c in cs && c.0.id == x;
      var i :| 0 <= i < |cs| && cs[i] == c;
      assert rows[i].recipient == x;
    }
  }

  lemma {:induction false} PassDeals(ts: Table, job: Job, seam: Seam)
    ensures var p := Pass(ts, job, seam);
            Handled(p.table, job) == Handled(ts, job) + CanceledIds(p.canceled) + IdsOf(p.work)
  {
    var p := Pass(ts, job, seam);
    var t1 := ts + CancelRows(job, p.canceled);
    var rows := NewRows(t1, job, p.work);
    NewRowsComeFromWork(t1, job, p.work);
    HandledAppend(ts, CancelRows(job, p.canceled), job);
    CancelRowsDeal(job, p.canceled);
    NewRowsDeal(t1, job, p.work);
    SettlingKeepsHandled(t1, rows, job, |t1|, seam);
  }

  function SendRows(job: Job, work: seq<Recipient>): Table {
    seq(|work|, i requires 0 <= i < |work| => SendRow(job, work[i]))
  }

  lemma {:induction false} SendRowAdmitted(ts: Table, job: Job, r: Recipient)
    requires r.id !in Handled(ts, job)
    ensures Admits(ts, SendRow(job, r))
    ensures Handled(ts + [SendRow(job, r)], job) == Handled(ts, job) + {r.id}
  {
    NotHandled(ts, job, r.id);
    HandledAppend(ts, [SendRow(job, r)], job);
    assert Deals([SendRow(job, r)][0], job);
  }

  /** A work list of distinct recipients without standing traces is minted whole: no fence skip. */
  lemma {:induction false} WorkIsMinted(ts: Table, job: Job, work: seq<Recipient>)
    requires DistinctIds(work)
    requires forall i :: 0 <= i < |work| ==> work[i].id !in Handled(ts, job)
    ensures NewRows(ts, job, work) == SendRows(job, work)
    decreases |work|
  {
    if work != [] {
      var row := SendRow(job, work[0]);
      SendRowAdmitted(ts, job, work[0]);
      assert forall i :: 0 <= i < |work[1..]| ==> work[1..][i] == work[i + 1];
      WorkIsMinted(ts + [row], job, work[1..]);
      assert SendRows(job, work) == [row] + SendRows(job, work[1..]);
    }
  }

  lemma {:induction false} IdsOfSplit(a: seq<Recipient>, b: seq<Recipient>)
    ensures IdsOf(a + b) == IdsOf(a) + IdsOf(b)
  {}

  /** On a list of distinct recipients a pass adds exactly its cancel rows and its settled send rows. */
  lemma {:induction false} PassAddsExactly(ts: Table, job: Job, seam: Seam)
    requires DistinctIds(job.recipients)
    ensures var p := Pass(ts, job, seam);
            var t1 := ts + CancelRows(job, p.canceled);
            p.table == t1 + SettledRows(SendRows(job, p.work), |t1|, seam)
  {
    var p := Pass(ts, job, seam);
    var t1 := ts + CancelRows(job, p.canceled);
    var n, h := |job.recipients|, Handled(ts, job);
    SendListDistinct(job.recipients, n, h, job.policy);
    SendCancelDisjoint(job.recipients, h, job.policy);
    HandledAppend(ts, CancelRows(job, p.canceled), job);
    CancelRowsDeal(job, p.canceled);
    forall i | 0 <= i < |p.work|
      ensures p.work[i].id !in Handled(t1, job)
    {
      assert p.work[i] in Sends(ts, job);
      assert p.work[i].id in IdsOf(Sends(ts, job));
    }
    WorkIsMinted(t1, job, p.work);
  }

  // ----- capped passes refine one uncapped pass --------------------------------------------

  lemma {:induction false} CalmKeepsHandled(a: Table, b: Table, job: Job)
    requires Calm(a, b, job)
    ensures Handled(a, job) == Handled(b, job)
  {
    assert forall i :: 0 <= i < |a| ==> Deals(a[i], job) == Deals(b[i], job) && a[i].recipient == b[i].recipient;
    assert forall i :: |a| <= i < |b| ==> !Deals(b[i], job);
  }

  /** Pass after pass of one job: `before[k]` is the table pass `k` starts from. */
  ghost predicate IsRun(before: seq<Table>, seams: seq<Seam>, job: Job) {
    && |seams| == |before|
    && forall k :: 0 <= k < |before| - 1 ==> Calm(Pass(before[k], job, seams[k]).table, before[k + 1], job)
  }

  /** How far `k` passes of budget `b` reach into a list of `n`. */
  function Reach(k: nat, b: nat, n: nat): (r: nat)
    ensures r <= n
  {
    Min(k * b, n)
  }

  lemma {:induction false} ReachSteps(k: nat, b: nat, n: nat)
    ensures Reach(k, b, n) <= Reach(k + 1, b, n)
    ensures Reach(k + 1, b, n) == Reach(k, b, n) + Min(b, n - Reach(k, b, n))
    ensures Reach(0, b, n) == 0
  {
    assert (k + 1) * b == k * b + b;
  }

  /** Whom the table must remember when pass `k` starts, in terms of the uncapped plan. */
  function Memory(start: Table, job: Job, k: nat): set<Id> {
    if k == 0 then Handled(start, job)
    else Handled(start, job)
         + (CanceledIds(Cancels(start, job)) + IdsOf(Sends(start, job)[..Reach(k, job.budget, |Sends(start, job)|)]))
  }

  ghost predicate Remembers(start: Table, now: Table, job: Job, k: nat) {
    Handled(now, job) == Memory(start, job, k)
  }

  /** From such a table, what is left to do is exactly the rest of the plan. */
  lemma {:induction false} RestOfThePlan(start: Table, now: Table, job: Job, k: nat)
    requires DistinctIds(job.recipients) && Remembers(start, now, job, k)
    ensures var all := Sends(start, job);
            && Sends(now, job) == all[Reach(k, job.budget, |all|)..]
            && Cancels(now, job) == if k == 0 then Cancels(start, job) else []
  {
    if k > 0 {
      Resume(job.recipients, |job.recipients|, Handled(start, job), job.policy,
             Reach(k, job.budget, |Sends(start, job)|));
    }
  }

  lemma {:induction false} NextSlice(start: Table, now: Table, job: Job, k: nat)
    requires DistinctIds(job.recipients) && Remembers(start, now, job, k)
    ensures var all := Sends(start, job);
            var lo, hi := Reach(k, job.budget, |all|), Reach(k + 1, job.budget, |all|);
            && lo <= hi && WorkList(now, job) == all[lo..hi] && |Sends(now, job)| - |WorkList(now, job)| == |all| - hi
  {
    RestOfThePlan(start, now, job, k);
    ReachSteps(k, job.budget, |Sends(start, job)|);
  }

  /** So the pass takes the next slice of the plan ... */
  lemma {:induction false} PassTakesItsSlice(start: Table, now: Table, job: Job, seam: Seam, k: nat)
    requires DistinctIds(job.recipients) && Remembers(start, now, job, k)
    ensures var all := Sends(start, job);
            var p := Pass(now, job, seam);
            && Reach(k, job.budget, |all|) <= Reach(k + 1, job.budget, |all|)
            && p.work == all[Reach(k, job.budget, |all|)..Reach(k + 1, job.budget, |all|)]
            && p.canceled == (if k == 0 then Cancels(start, job) else [])
            && p.remaining == |all| - Reach(k + 1, job.budget, |all|)
  {
    RestOfThePlan(start, now, job, k);
    NextSlice(start, now, job, k);
    assert Pass(now, job, seam).work == WorkList(now, job);
  }

  lemma {:induction false} MemoryGrows(start: Table, job: Job, k: nat)
    ensures var all := Sends(start, job);
            && Reach(k, job.budget, |all|) <= Reach(k + 1, job.budget, |all|)
            && Memory(start, job, k + 1)
               == Memory(start, job, k) + CanceledIds(if k == 0 then Cancels(start, job) else [])
                  + IdsOf(all[Reach(k, job.budget, |all|)..Reach(k + 1, job.budget, |all|)])
  {
    var all := Sends(start, job);
    var lo, hi := Reach(k, job.budget, |all|), Reach(k + 1, job.budget, |all|);
    ReachSteps(k, job.budget, |all|);
    IdsOfSplit(all[..lo], all[lo..hi]);
    assert all[..hi] == all[..lo] + all[lo..hi];
    if k == 0 {
      ReachSteps(0, job.budget, |all|);
      assert all[..lo] == [];
    }
  }

  /** ... and leaves the memory one slice further. */
  lemma {:induction false} PassRemembers(start: Table, now: Table, job: Job, seam: Seam, k: nat)
    requires DistinctIds(job.recipients) && Remembers(start, now, job, k)
    ensures Remembers(start, Pass(now, job, seam).table, job, k + 1)
  {
    PassTakesItsSlice(start, now, job, seam, k);
    PassDeals(now, job, seam);
    MemoryGrows(start, job, k);
  }

  /** One pass and the calm after it. */
  lemma {:induction false} PassThenCalm(start: Table, now: Table, next: Table, job: Job, seam: Seam, k: nat)
    requires DistinctIds(job.recipients) && Remembers(start, now, job, k)
    requires Calm(Pass(now, job, seam).table, next, job)
    ensures Remembers(start, next, job, k + 1)
  {
    PassRemembers(start, now, job, seam, k);
    CalmKeepsHandled(Pass(now, job, seam).table, next, job);
  }

  lemma {:induction false} RunRemembers(before: seq<Table>, seams: seq<Seam>, job: Job, k: nat)
    requires IsRun(before, seams, job) && k < |before| && DistinctIds(job.recipients)
    ensures Remembers(before[0], before[k], job, k)
  {
    if k > 0 {
      RunRemembers(before, seams, job, k - 1);
      PassThenCalm(before[0], before[k - 1], before[k], job, seams[k - 1], k - 1);
    }
  }

  lemma {:induction false} UncappedIsThePlan(ts: Table, job: Job, seam: Seam)
    ensures var uncapped := Pass(ts, job.(budget := |job.recipients|), seam);
            uncapped.work == Sends(ts, job) && uncapped.canceled == Cancels(ts, job) && uncapped.remaining == 0
  {
    var big := job.(budget := |job.recipients|);
    assert Handled(ts, big) == Handled(ts, job);
    FatesPartition(job.recipients, |job.recipients|, Handled(ts, job), job.policy);
  }

  /**
   * The refinement: on a list of distinct recipients, whatever calm activity and whatever enqueue
   * answers come between, pass `k` sends exactly the k-th slice of the uncapped send list, only the
   * first pass suppresses, and it suppresses exactly what an uncapped pass would.
   */
  lemma {:induction false} CappedPassesSliceTheUncapped(before: seq<Table>, seams: seq<Seam>, job: Job, k: nat)
    requires IsRun(before, seams, job) && k < |before| && DistinctIds(job.recipients)
    ensures var uncapped := Pass(before[0], job.(budget := |job.recipients|), seams[0]);
            var n := |uncapped.work|;
            var p := Pass(before[k], job, seams[k]);
            && uncapped.remaining == 0
            && Reach(k, job.budget, n) <= Reach(k + 1, job.budget, n)
            && p.work == uncapped.work[Reach(k, job.budget, n)..Reach(k + 1, job.budget, n)]
            && p.canceled == (if k == 0 then uncapped.canceled else [])
            && p.remaining == n - Reach(k + 1, job.budget, n)
  {
    RunRemembers(before, seams, job, k);
    PassTakesItsSlice(before[0], before[k], job, seams[k], k);
    UncappedIsThePlan(before[0], job, seams[0]);
  }

  // ----- the traces a whole run mints ------------------------------------------------------

  /** What a minted trace says: the recipient was given the mailing, or it was withheld, and why. */
  datatype Fact = Given(recipient: Id) | Withheld(recipient: Id, cause: Option<string>)

  function FactOf(t: Trace): Fact {
    if t.status.Cancel? then Withheld(t.recipient, t.failure) else Given(t.recipient)
  }

  function FactsOf(rows: Table): set<Fact> {
    set t | t in rows :: FactOf(t)
  }

  /** The traces a pass adds. */
  function AddedBy(ts: Table, job: Job, seam: Seam): Table {
    Pass(ts, job, seam).table[|ts|..]
  }

  function CancelFacts(cs: seq<(Recipient, Cause)>): set<Fact> {
    set c | c in cs :: Withheld(c.0.id, Some(CauseCode(c.1)))
  }

  function SendFacts(work: seq<Recipient>): set<Fact> {
    set r | r in work :: Given(r.id)
  }

  lemma {:induction false} FactsAppend(a: Table, b: Table)
    ensures FactsOf(a + b) == FactsOf(a) + FactsOf(b)
  {
    assert forall t :: t in a + b <==> t in a || t in b;
  }

  lemma {:induction false} CancelRowFacts(job: Job, cs: seq<(Recipient, Cause)>)
    ensures FactsOf(CancelRows(job, cs)) == CancelFacts(cs)
  {
    var rows := CancelRows(job, cs);
    forall c | c in cs
      ensures Withheld(c.0.id, Some(CauseCode(c.1))) in FactsOf(rows)
    {
      var i :| 0 <= i < |cs| && cs[i] == c;
      assert rows[i] in rows && FactOf(rows[i]) == Withheld(c.0.id, Some(CauseCode(c.1)));
    }
    forall t | t in rows
      ensures FactOf(t) in CancelFacts(cs)
    {
      var i :| 0 <= i < |rows| && rows[i] == t;
      assert cs[i] in cs;
    }
  }

  lemma {:induction false} SendRowFacts(job: Job, work: seq<Recipient>, base: Id, seam: Seam)
    ensures FactsOf(SettledRows(SendRows(job, work), base, seam)) == SendFacts(work)
  {
    var rows := SettledRows(SendRows(job, work), base, seam);
    SettledShape(SendRows(job, work), base, seam);
    assert forall i :: 0 <= i < |rows| ==> FactOf(rows[i]) == Given(work[i].id);
    forall r | r in work
      ensures Given(r.id) in FactsOf(rows)
    {
      var i :| 0 <= i < |work| && work[i] == r;
      assert rows[i] in rows;
    }
    forall t | t in rows
      ensures FactOf(t) in SendFacts(work)
    {
      var i :| 0 <= i < |rows| && rows[i] == t;
      assert work[i] in work;
    }
  }

  /** A pass over a list of distinct recipients says exactly what its two work lists say. */
  lemma {:induction false} PassFacts(ts: Table, job: Job, seam: Seam)
    requires DistinctIds(job.recipients)
    ensures var p := Pass(ts, job, seam);
            && FactsOf(AddedBy(ts, job, seam)) == CancelFacts(p.canceled) + SendFacts(p.work)
            && |AddedBy(ts, job, seam)| == |p.canceled| + |p.work|
  {
    var p := Pass(ts, job, seam);
    var cancels := CancelRows(job, p.canceled);
    var sends := SettledRows(SendRows(job, p.work), |ts + cancels|, seam);
    PassAddsExactly(ts, job, seam);
    assert AddedBy(ts, job, seam) == cancels + sends;
    FactsAppend(cancels, sends);
    CancelRowFacts(job, p.canceled);
    SendRowFacts(job, p.work, |ts + cancels|, seam);
  }

  /** All that the first `n` passes of a run said, and in how many traces. */
  function RunFacts(before: seq<Table>, seams: seq<Seam>, job: Job, n: nat): set<Fact>
    requires n <= |before| == |seams|
  {
    if n == 0 then {} else RunFacts(before, seams, job, n - 1) + FactsOf(AddedBy(before[n - 1], job, seams[n - 1]))
  }

  function RunMints(before: seq<Table>, seams: seq<Seam>, job: Job, n: nat): nat
    requires n <= |before| == |seams|
  {
    if n == 0 then 0 else RunMints(before, seams, job, n - 1) + |AddedBy(before[n - 1], job, seams[n - 1])|
  }

  lemma {:induction false} SendFactsSplit(a: seq<Recipient>, b: seq<Recipient>)
    ensures SendFacts(a + b) == SendFacts(a) + SendFacts(b)
  {
    assert forall r :: r in a + b <==> r in a || r in b;
  }

  lemma {:induction false} FactsOfSlice(all: seq<Recipient>, lo: nat, hi: nat, others: set<Fact>)
    requires lo <= hi <= |all|
    ensures SendFacts(all[..lo]) + (others + SendFacts(all[lo..hi])) == SendFacts(all[..hi]) + others
  {
    SendFactsSplit(all[..lo], all[lo..hi]);
    assert all[..hi] == all[..lo] + all[lo..hi];
  }

  /** Pass `k` says the next slice of the plan, and the first pass also what is withheld. */
  lemma {:induction false} SliceFacts(start: Table, now: Table, job: Job, seam: Seam, k: nat)
    requires DistinctIds(job.recipients) && Remembers(start, now, job, k)
    ensures var all := Sends(start, job);
            var lo, hi := Reach(k, job.budget, |all|), Reach(k + 1, job.budget, |all|);
            && lo <= hi
            && |AddedBy(now, job, seam)| == (if k == 0 then |Cancels(start, job)| else 0) + hi - lo
            && SendFacts(all[..lo]) + FactsOf(AddedBy(now, job, seam))
               == SendFacts(all[..hi]) + CancelFacts(if k == 0 then Cancels(start, job) else [])
  {
    var all := Sends(start, job);
    var lo, hi := Reach(k, job.budget, |all|), Reach(k + 1, job.budget, |all|);
    PassTakesItsSlice(start, now, job, seam, k);
    PassFacts(now, job, seam);
    FactsOfSlice(all, lo, hi, CancelFacts(if k == 0 then Cancels(start, job) else []));
  }

  lemma {:induction false} FirstPassSays(start: Table, now: Table, job: Job, seam: Seam)
    requires DistinctIds(job.recipients) && Remembers(start, now, job, 0)
    ensures var all := Sends(start, job);
            FactsOf(AddedBy(now, job, seam))
            == CancelFacts(Cancels(start, job)) + SendFacts(all[..Reach(1, job.budget, |all|)])
  {
    var all := Sends(start, job);
    SliceFacts(start, now, job, seam, 0);
    ReachSteps(0, job.budget, |all|);
    assert all[..0] == [] && SendFacts([]) == {};
  }

  lemma {:induction false} RunSays(before: seq<Table>, seams: seq<Seam>, job: Job, n: nat)
    requires IsRun(before, seams, job) && 0 < n <= |before| && DistinctIds(job.recipients)
    ensures var all, start := Sends(before[0], job), before[0];
            var upto := Reach(n, job.budget, |all|);
            && RunFacts(before, seams, job, n) == CancelFacts(Cancels(start, job)) + SendFacts(all[..upto])
            && RunMints(before, seams, job, n) == |Cancels(start, job)| + upto
  {
    var start, now, seam := before[0], before[n - 1], seams[n - 1];
    RunRemembers(before, seams, job, n - 1);
    SliceFacts(start, now, job, seam, n - 1);
    if n == 1 {
      ReachSteps(0, job.budget, |Sends(start, job)|);
      FirstPassSays(start, now, job, seam);
    } else {
      RunSays(before, seams, job, n - 1);
      assert CancelFacts([]) == {};
    }
  }

  /** The plan of a job over a table, said whole. */
  function PlanFacts(start: Table, job: Job): set<Fact> {
    CancelFacts(Cancels(start, job)) + SendFacts(Sends(start, job))
  }

  lemma {:induction false} UncappedSays(start: Table, job: Job, seam: Seam)
    requires DistinctIds(job.recipients)
    ensures var uncapped := AddedBy(start, job.(budget := |job.recipients|), seam);
            FactsOf(uncapped) == PlanFacts(start, job) && |uncapped| == |Cancels(start, job)| + |Sends(start, job)|
  {
    PassFacts(start, job.(budget := |job.recipients|), seam);
    UncappedIsThePlan(start, job, seam);
  }

  /** A pass that completes has reached the end of the plan. */
  lemma {:induction false} CompletedReachesTheEnd(start: Table, now: Table, job: Job, seam: Seam, k: nat)
    requires DistinctIds(job.recipients) && Remembers(start, now, job, k) && Completes(Pass(now, job, seam))
    ensures Reach(k + 1, job.budget, |Sends(start, job)|) == |Sends(start, job)|
  {
    PassTakesItsSlice(start, now, job, seam, k);
  }

  lemma {:induction false} CompletedRunSays(before: seq<Table>, seams: seq<Seam>, job: Job)
    requires IsRun(before, seams, job) && |before| > 0 && DistinctIds(job.recipients)
    requires Completes(Pass(before[|before| - 1], job, seams[|before| - 1]))
    ensures RunFacts(before, seams, job, |before|) == PlanFacts(before[0], job)
    ensures RunMints(before, seams, job, |before|) == |Cancels(before[0], job)| + |Sends(before[0], job)|
  {
    var n, all := |before|, Sends(before[0], job);
    RunRemembers(before, seams, job, n - 1);
    CompletedReachesTheEnd(before[0], before[n - 1], job, seams[n - 1], n - 1);
    RunSays(before, seams, job, n);
    assert all[..|all|] == all;
  }

  /**
   * Capped passes refine one uncapped pass, in the traces themselves: whatever calm activity and
   * whatever enqueue answers come between, the traces a completed run has minted say of exactly the
   * same recipients that they were given the mailing, or that it was withheld and why, as those of a
   * single pass with an unlimited budget would; and there are as many, so no recipient twice.
   */
  lemma {:induction false} CompletedRunMintsTheUncapped(before: seq<Table>, seams: seq<Seam>, job: Job, other: Seam)
    requires IsRun(before, seams, job) && |before| > 0 && DistinctIds(job.recipients)
    requires Completes(Pass(before[|before| - 1], job, seams[|before| - 1]))
    ensures var uncapped := AddedBy(before[0], job.(budget := |job.recipients|), other);
            && RunFacts(before, seams, job, |before|) == FactsOf(uncapped)
            && RunMints(before, seams, job, |before|) == |uncapped|
  {
    CompletedRunSays(before, seams, job);
    UncappedSays(before[0], job, other);
  }

  lemma {:induction false} CeilDivIsLeast(n: nat, b: nat, k: nat)
    requires b >= 1
    ensures k * b >= n <==> k >= CeilDiv(n, b)
  {
    var c := CeilDiv(n, b);
    assert (c - 1) * b < n || n == 0;
    assert c * b >= n;
    if k >= c {
      assert k * b >= c * b;
    } else {
      assert k * b <= (c - 1) * b;
    }
  }

  lemma {:induction false} ReachesTheEndIff(k: nat, b: nat, n: nat)
    requires b >= 1
    ensures n - Reach(k, b, n) == 0 <==> n == 0 || k >= CeilDiv(n, b)
  {
    CeilDivIsLeast(n, b, k);
  }

  /** With a budget of at least one, the first completing pass is number max(1, ceil(n / budget)). */
  lemma {:induction false} CompletesInCeilPasses(before: seq<Table>, seams: seq<Seam>, job: Job, k: nat)
    requires IsRun(before, seams, job) && k < |before| && DistinctIds(job.recipients) && job.budget >= 1
    ensures var n := |Sends(before[0], job)|;
            Completes(Pass(before[k], job, seams[k])) <==> k + 1 >= (if n == 0 then 1 else CeilDiv(n, job.budget))
  {
    var n := |Sends(before[0], job)|;
    RunRemembers(before, seams, job, k);
    assert Pass(before[k], job, seams[k]).remaining == n - Reach(k + 1, job.budget, n) by {
      PassTakesItsSlice(before[0], before[k], job, seams[k], k);
    }
    ReachesTheEndIff(k + 1, job.budget, n);
  }

  /** A budget of zero never completes a mailing that has anyone to send to. */
  lemma {:induction false} ZeroBudgetNeverCompletes(ts: Table, job: Job, seam: Seam)
    requires job.budget == 0
    ensures Completes(Pass(ts, job, seam))
       <==> Sends(ts, job) == []
  {}
}
