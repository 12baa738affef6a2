/**
 * Who can never be reached, over whole histories of drives, verbs, retries and list changes:
 * an opted-out address, and every recipient of an address but the first.
 */
module ExclusionRuns {
  import opened MailTypes
  import BatchUpdate
  import opened TraceLifecycle
  import opened TraceTable
  import opened SendWalk
  import opened MailDrive
  import opened Campaign
  import opened Subscriptions

  // ----- opt-out wins ----------------------------------------------------------------------

  datatype World = World(contacts: seq<Contact>, subs: seq<Subscription>, traces: Table)

  datatype WorldStep =
    | Lists(contacts: seq<Contact>, subs: seq<Subscription>)   // any change of the audience tables
    | Traces(step: CampaignStep)                               // a drive, a verb or a retry

  /** The batched probe: which addresses of the resolved list are opted out right now. */
  ghost function OptedOutOf(w: World, rs: seq<Recipient>, lower: string -> string): set<string> {
    set i | 0 <= i < |rs| && OptedOutAnywhere(w.contacts, w.subs, lower, lower(rs[i].email)) :: lower(rs[i].email)
  }

  /** A drive reads the opt-outs of the world it runs in, whatever its mailing or target model. */
  ghost function Probed(w: World, job: Job): Job {
    job.(policy := job.policy.(optedOut := OptedOutOf(w, job.recipients, job.policy.lower)))
  }

  ghost function Next(w: World, s: WorldStep): World {
    match s
    case Lists(contacts, subs) => World(contacts, subs, w.traces)
    case Traces(Drive(job, seam)) => w.(traces := After(w.traces, Drive(Probed(w, job), seam)))
    case Traces(step) => w.(traces := After(w.traces, step))
  }

  ghost function RunWorld(w: World, steps: seq<WorldStep>): World
    decreases |steps|
  {
    if steps == [] then w else RunWorld(Next(w, steps[0]), steps[1..])
  }

  /** The address stays opted out (by whichever row) in every world of the run. */
  ghost predicate StaysOut(w: World, steps: seq<WorldStep>, lower: string -> string, email: string)
    decreases |steps|
  {
    && OptedOutAnywhere(w.contacts, w.subs, lower, email)
    && (steps != [] ==> StaysOut(Next(w, steps[0]), steps[1..], lower, email))
  }

  ghost predicate SameFolding(steps: seq<WorldStep>, lower: string -> string) {
    forall k :: 0 <= k < |steps| && steps[k].Traces? && steps[k].step.Drive? ==> steps[k].step.job.policy.lower == lower
  }

  /** From row `base` on, no trace reaches the address except as a visible suppression. */
  ghost predicate Spared(ts: Table, base: nat, lower: string -> string, email: string) {
    forall i :: base <= i < |ts| ==> ts[i].status.Cancel? || lower(ts[i].email) != email
  }

  /** A fault a row can only have inherited: it depends on the address, and canceled rows are free of it. */
  ghost predicate Inherited(bad: Trace -> bool) {
    && (forall t: Trace :: t.status.Cancel? ==> !bad(t))
    && (forall t: Trace, u: Trace {:trigger bad(t), bad(u)} ::
          SameAddress(t.(deleted := u.deleted), u) && (t.status.Cancel? ==> u.status.Cancel?) && bad(u) ==> bad(t))
  }

  lemma {:induction false} DriveKeepsRows(ts: Table, job: Job, seam: Seam, base: nat, bad: Trace -> bool)
    requires base <= |ts| && Inherited(bad)
    requires forall r :: r in Sends(ts, job) ==> !bad(SendRow(job, r))
    requires forall i :: base <= i < |ts| ==> !bad(ts[i])
    ensures var u := Pass(ts, job, seam).table;
            |u| >= |ts| && forall i :: base <= i < |u| ==> !bad(u[i])
  {
    var p := Pass(ts, job, seam);
    var t1 := ts + CancelRows(job, p.canceled);
    var rows := NewRows(t1, job, p.work);
    var settled := SettledRows(rows, |t1|, seam);
    NewRowsComeFromWork(t1, job, p.work);
    SettledShape(rows, |t1|, seam);
    forall i | 0 <= i < |settled|
      ensures !bad(settled[i])
    {
      var row := rows[i];
      assert Recipient(row.recipient, row.email) in p.work;
      assert Recipient(row.recipient, row.email) in Sends(ts, job);
      assert !bad(row);
      assert SameAddress(row.(deleted := settled[i].deleted), settled[i]);
    }
    assert forall i :: 0 <= i < |p.canceled| ==> CancelRows(job, p.canceled)[i].status.Cancel?;
    assert p.table == t1 + settled;
  }

  /** No verb and no retry takes a row out of cancel. */
  lemma {:induction false} StatusesAge(ts: Table, s: Step)
    requires !s.Mint?
    ensures |Exec(ts, s)| == |ts|
    ensures forall i :: 0 <= i < |ts| && ts[i].status.Cancel? ==> Exec(ts, s)[i].status.Cancel?
  {
    if s.FreeErrors? {
      forall i | 0 <= i < |ts| && ts[i].status.Cancel?
        ensures Exec(ts, s)[i].status.Cancel?
      {
        BatchUpdate.UpdateFirstPointwise(ts, LiveErrorsOf(s.mailing), SoftDeleted(), s.limit, i);
      }
    }
  }

  /** If no drive gives birth to the fault, no trace step introduces it. */
  lemma {:induction false} StepKeepsRows(ts: Table, s: CampaignStep, base: nat, bad: Trace -> bool)
    requires base <= |ts|
    requires Inherited(bad)
    requires s.Drive? ==> forall r :: r in Sends(ts, s.job) ==> !bad(SendRow(s.job, r))
    requires forall i :: base <= i < |ts| ==> !bad(ts[i])
    ensures |After(ts, s)| >= |ts|
    ensures forall i :: base <= i < |After(ts, s)| ==> !bad(After(ts, s)[i])
  {
    if s.Drive? {
      DriveKeepsRows(ts, s.job, s.seam, base, bad);
    } else {
      var step := if s.Touch? then Step.Advance(s.id, s.verb, s.at) else FreeErrors(s.mailing, s.limit);
      ExecAges(ts, step);
      StatusesAge(ts, step);
      forall i | base <= i < |ts|
        ensures !bad(After(ts, s)[i])
      {
        assert SameAddress(ts[i].(deleted := After(ts, s)[i].deleted), After(ts, s)[i]);
      }
    }
  }

  /** The probe is exact: of the list's addresses it names those some live opted-out row still speaks for. */
  lemma {:induction false} ProbeIsExact(w: World, rs: seq<Recipient>, lower: string -> string, email: string)
    ensures email in OptedOutOf(w, rs, lower)
       <==> && OptedOutAnywhere(w.contacts, w.subs, lower, email)
            && exists r :: r in rs && lower(r.email) == email
  {
    if r :| r in rs && lower(r.email) == email {
      var i :| 0 <= i < |rs| && rs[i] == r;
      assert lower(rs[i].email) == email;
    }
  }

  function Reaches(lower: string -> string, email: string): Trace -> bool {
    (t: Trace) => !t.status.Cancel? && lower(t.email) == email
  }

  lemma {:induction false} OptedOutStepSpares(w: World, s: WorldStep, base: nat, lower: string -> string, email: string)
    requires OptedOutAnywhere(w.contacts, w.subs, lower, email) && SameFolding([s], lower)
    requires base <= |w.traces| && Spared(w.traces, base, lower, email)
    ensures |Next(w, s).traces| >= |w.traces| && Spared(Next(w, s).traces, base, lower, email)
  {
    if s.Traces? {
      var bad := Reaches(lower, email);
      var step := if s.step.Drive? then Drive(Probed(w, s.step.job), s.step.seam) else s.step;
      if step.Drive? {
        var job := step.job;
        assert [s][0].step.job.policy.lower == lower;
        SendListIsExact(job.recipients, |job.recipients|, Handled(w.traces, job), job.policy);
        ProbeIsExact(w, job.recipients, lower, email);
        forall r | r in Sends(w.traces, job)
          ensures !bad(SendRow(job, r))
        {
          var i :| 0 <= i < |job.recipients| && job.recipients[i] == r
                   && Deserves(job.recipients, i, Handled(w.traces, job), job.policy);
          assert job.policy.lower(r.email) !in job.policy.optedOut;
        }
      }
      StepKeepsRows(w.traces, step, base, bad);
      assert Next(w, s).traces == After(w.traces, step);
      forall i | base <= i < |Next(w, s).traces|
        ensures Next(w, s).traces[i].status.Cancel? || lower(Next(w, s).traces[i].email) != email
      {
        assert !bad(After(w.traces, step)[i]);
      }
    }
  }

  lemma {:induction false} OptWinsRest(w: World, steps: seq<WorldStep>)
    requires steps != []
    ensures RunWorld(w, steps) == RunWorld(Next(w, steps[0]), steps[1..])
  {}

  /**
   * Opt-out wins over runs: while some live opted-out row of a live contact with the address
   * remains, no drive of any mailing on any target model mints a non-cancel trace for it, whatever
   * verbs, retries and list changes come between.
   */
  lemma {:induction false} OptOutWins(w: World, steps: seq<WorldStep>, base: nat, lower: string -> string,
          email: string)
    requires StaysOut(w, steps, lower, email) && SameFolding(steps, lower)
    requires base <= |w.traces| && Spared(w.traces, base, lower, email)
    ensures Spared(RunWorld(w, steps).traces, base, lower, email)
    decreases |steps|
  {
    if steps != [] {
      assert [steps[0]][0] == steps[0];
      OptedOutStepSpares(w, steps[0], base, lower, email);
      assert forall k :: 0 <= k < |steps[1..]| ==> steps[1..][k] == steps[k + 1];
      OptWinsRest(w, steps);
      OptOutWins(Next(w, steps[0]), steps[1..], base, lower, email);
    }
  }

  /** Somebody's opt-out, on some audience, is what happened to the row (or nothing did). */
  ghost predicate OptedOutFrom(a: Subscription, b: Subscription) {
    exists c, aud, why, now :: b == Flip(a, c, aud, why, now)
  }

  /** Opting out, once or again, by row or by address, never ends anybody's opt-out or moves its first moment. */
  lemma {:induction false} FlipsKeepOptOuts(contacts: seq<Contact>, a: seq<Subscription>, b: seq<Subscription>,
          lower: string -> string, email: string)
    requires |a| == |b|
    requires forall i :: 0 <= i < |a| ==> OptedOutFrom(a[i], b[i])
    requires OptedOutAnywhere(contacts, a, lower, email)
    ensures OptedOutAnywhere(contacts, b, lower, email)
    ensures forall i :: 0 <= i < |a| && a[i].optOut ==> b[i] == a[i]
  {}

  /**
   * A change of the audience tables in which this address's own contacts stay live and answer to it,
   * and its own rows change by opt-outs at most. New contacts, new subscriptions, and whatever
   * happens to other addresses are free.
   */
  ghost predicate NoWayBack(w: World, contacts: seq<Contact>, subs: seq<Subscription>, lower: string -> string,
          email: string)
  {
    && |w.contacts| <= |contacts| && |w.subs| <= |subs|
    && (forall c :: 0 <= c < |w.contacts| && IsOf(w.contacts, c, lower, email) ==> IsOf(contacts, c, lower, email))
    && (forall i :: 0 <= i < |w.subs| && IsOf(w.contacts, w.subs[i].contact, lower, email) ==>
          OptedOutFrom(w.subs[i], subs[i]))
  }

  /** Nobody re-subscribes or removes the address, or deletes or readdresses its contacts, in the whole run. */
  ghost predicate NeverBack(w: World, steps: seq<WorldStep>, lower: string -> string, email: string)
    decreases |steps|
  {
    steps == [] ||
    (&& (steps[0].Lists? ==> NoWayBack(w, steps[0].contacts, steps[0].subs, lower, email))
     && NeverBack(Next(w, steps[0]), steps[1..], lower, email))
  }

  lemma {:induction false} NeverBackStaysOut(w: World, steps: seq<WorldStep>, lower: string -> string, email: string)
    requires OptedOutAnywhere(w.contacts, w.subs, lower, email) && NeverBack(w, steps, lower, email)
    ensures StaysOut(w, steps, lower, email)
    decreases |steps|
  {
    if steps != [] {
      var next := Next(w, steps[0]);
      if steps[0].Lists? {
        var i :| 0 <= i < |w.subs| && !w.subs[i].deleted && w.subs[i].optOut
                 && IsOf(w.contacts, w.subs[i].contact, lower, email);
        assert OptedOutFrom(w.subs[i], next.subs[i]);
        assert next.subs[i] == w.subs[i];
      }
      NeverBackStaysOut(next, steps[1..], lower, email);
    }
  }

  /**
   * End to end: after an unsubscribe that found a row, no drive of any mailing, on any target, over
   * any run of drives, verbs, retries and list changes that do not bring this address back, mints a
   * non-cancel trace for it.
   */
  lemma {:induction false} UnsubscribedIsSpared(w: World, after: seq<Subscription>, steps: seq<WorldStep>,
          lower: string -> string, email: string, audience: Id, reason: Option<Id>, now: Time)
    requires |after| == |w.subs|
    requires forall i :: 0 <= i < |after| ==>
              after[i] == FlipFor(w.subs[i], w.contacts, lower, email, audience, reason, now)
    requires exists i :: 0 <= i < |w.subs| && Concerns(w.subs[i], w.contacts, lower, email, audience)
    requires NeverBack(w.(subs := after), steps, lower, lower(email)) && SameFolding(steps, lower)
    ensures Spared(RunWorld(w.(subs := after), steps).traces, |w.traces|, lower, lower(email))
  {
    UnsubscribeSuppresses(w.contacts, w.subs, after, lower, email, audience, reason, now);
    NeverBackStaysOut(w.(subs := after), steps, lower, lower(email));
    OptOutWins(w.(subs := after), steps, |w.traces|, lower, lower(email));
  }

  /** Re-subscribing clears one row only: an opt-out on any other audience or contact still suppresses the address. */
  lemma {:induction false} SubscribeClearsOnlyItsRow(contacts: seq<Contact>, subs: seq<Subscription>, row: nat,
          lower: string -> string, email: string)
    requires row < |subs| && !subs[row].deleted
    ensures (exists i :: 0 <= i < |subs| && i != row && !subs[i].deleted && subs[i].optOut
                         && subs[i].contact < |contacts| && !contacts[subs[i].contact].deleted
                         && lower(contacts[subs[i].contact].email) == email)
       <==> OptedOutAnywhere(contacts, subs[row := Cleared(subs[row])], lower, email)
  {
    var after := subs[row := Cleared(subs[row])];
    if i :| 0 <= i < |subs| && i != row && !subs[i].deleted && subs[i].optOut
            && IsOf(contacts, subs[i].contact, lower, email) {
      assert after[i] == subs[i];
    }
  }

  // ----- only the first recipient of an address --------------------------------------------

  /** Position `i` of the list, if it is the first to carry its address. */
  ghost predicate FirstOfAddress(rs: seq<Recipient>, lower: string -> string, r: Recipient) {
    exists i :: 0 <= i < |rs| && rs[i] == r && forall j :: 0 <= j < i ==> lower(rs[j].email) != lower(r.email)
  }

  /** The mailing is always driven over this list with this folding; policies, budgets and seams are free. */
  ghost predicate FixedList(s: CampaignStep, mailing: Id, rs: seq<Recipient>, lower: string -> string) {
    s.Drive? && s.job.mailing == mailing ==> s.job.recipients == rs && s.job.policy.lower == lower
  }

  ghost predicate OnlyFirsts(ts: Table, mailing: Id, rs: seq<Recipient>, lower: string -> string) {
    forall i :: 0 <= i < |ts| && ts[i].mailing == mailing && !ts[i].status.Cancel? ==>
      FirstOfAddress(rs, lower, Recipient(ts[i].recipient, ts[i].email))
  }

  ghost function NotFirst(mailing: Id, rs: seq<Recipient>, lower: string -> string): Trace -> bool {
    (t: Trace) => t.mailing == mailing && !t.status.Cancel?
        && !FirstOfAddress(rs, lower, Recipient(t.recipient, t.email))
  }

  /**
   * For a fixed list order only the first recipient of an address ever gets a non-cancel trace of
   * the mailing, across passes, retries, verbs and blacklist or opt-out changes.
   */
  lemma {:induction false} OnlyFirstsEver(ts: Table, steps: seq<CampaignStep>, mailing: Id, rs: seq<Recipient>,
          lower: string -> string)
    requires OnlyFirsts(ts, mailing, rs, lower)
    requires forall k :: 0 <= k < |steps| ==> FixedList(steps[k], mailing, rs, lower)
    ensures OnlyFirsts(RunCampaign(ts, steps), mailing, rs, lower)
    decreases |steps|
  {
    if steps != [] {
      var s := steps[0];
      var bad := NotFirst(mailing, rs, lower);
      assert FixedList(s, mailing, rs, lower);
      if s.Drive? {
        SendListIsExact(s.job.recipients, |s.job.recipients|, Handled(ts, s.job), s.job.policy);
        forall r | r in Sends(ts, s.job)
          ensures !bad(SendRow(s.job, r))
        {
          if s.job.mailing == mailing {
            var i :| 0 <= i < |rs| && rs[i] == r && Deserves(rs, i, Handled(ts, s.job), s.job.policy);
            assert FirstOfAddress(rs, lower, r);
          }
        }
      }
      assert forall i :: 0 <= i < |ts| ==> !bad(ts[i]);
      StepKeepsRows(ts, s, 0, bad);
      assert forall i :: 0 <= i < |After(ts, s)| ==> !bad(After(ts, s)[i]);
      assert OnlyFirsts(After(ts, s), mailing, rs, lower);
      assert forall k :: 0 <= k < |steps[1..]| ==> steps[1..][k] == steps[k + 1];
      OnlyFirstsEver(After(ts, s), steps[1..], mailing, rs, lower);
    }
  }

  /** Hence two non-cancel traces of the mailing with one address are for one and the same recipient. */
  lemma {:induction false} OneRecipientPerAddress(ts: Table, mailing: Id, rs: seq<Recipient>,
          lower: string -> string, i: nat, j: nat)
    requires OnlyFirsts(ts, mailing, rs, lower) && i < |ts| && j < |ts|
    requires ts[i].mailing == mailing && ts[j].mailing == mailing && !ts[i].status.Cancel? && !ts[j].status.Cancel?
    requires lower(ts[i].email) == lower(ts[j].email)
    ensures ts[i].recipient == ts[j].recipient && ts[i].email == ts[j].email
  {}
}
