/**
 * The A/B campaign over whole runs: variants and the winner copy are driven one after another, and
 * the campaign-scoped memory alone keeps their audiences disjoint and, at the end, covering.
 */
module Campaign {
  import opened MailTypes
  import opened TraceLifecycle
  import opened TraceTable
  import opened SendWalk
  import opened MailDrive

  function InCampaign(c: Id, recipient: Id): Trace -> bool {
    (t: Trace) => Fenced(t) && t.campaign == Some(c) && t.recipient == recipient
  }

  /** No recipient holds two live non-cancel traces of the campaign. */
  ghost predicate Disjoint(ts: Table, c: Id) {
    forall recipient :: Count(ts, InCampaign(c, recipient)) <= 1
  }

  // ----- one drive -------------------------------------------------------------------------

  lemma {:induction false} CountPointwise<T>(a: seq<T>, b: seq<T>, p: T -> bool)
    requires |a| == |b| && forall i :: 0 <= i < |a| && p(b[i]) ==> p(a[i])
    ensures Count(b, p) <= Count(a, p)
  {
    if a != [] {
      CountPointwise(a[1..], b[1..], p);
    }
  }

  function ForRecipient(recipient: Id): Trace -> bool {
    (t: Trace) => t.recipient == recipient
  }

  /** The fence admits each recipient of a work list once, and never one that already holds a trace. */
  lemma {:induction false} NewRowsOncePerRecipient(ts: Table, job: Job, work: seq<Recipient>, recipient: Id)
    ensures Count(NewRows(ts, job, work), ForRecipient(recipient)) <= 1
    ensures FenceHit(ts, job.mailing, recipient) ==> Count(NewRows(ts, job, work), ForRecipient(recipient)) == 0
    decreases |work|
  {
    if work != [] {
      var row := SendRow(job, work[0]);
      FenceHitSnoc(ts, row);
      NewRowsOncePerRecipient(ts + [row], job, work[1..], recipient);
      NewRowsOncePerRecipient(ts, job, work[1..], recipient);
    }
  }

  lemma {:induction false} CancelRowsHoldNothing(job: Job, cs: seq<(Recipient, Cause)>, c: Id, recipient: Id)
    ensures Count(CancelRows(job, cs), InCampaign(c, recipient)) == 0
  {
    CountZero(CancelRows(job, cs), InCampaign(c, recipient));
  }

  /** What a pass adds to a recipient's holdings in the campaign. */
  function Added(ts: Table, job: Job, recipient: Id): nat {
    Count(Minting(ts, job), ForRecipient(recipient))
  }

  lemma {:induction false} CountSame<T>(a: seq<T>, p: T -> bool, b: seq<T>, q: T -> bool)
    requires |a| == |b| && forall i :: 0 <= i < |a| ==> p(a[i]) == q(b[i])
    ensures Count(a, p) == Count(b, q)
  {
    if a != [] {
      CountSame(a[1..], p, b[1..], q);
    }
  }

  /** Settled send rows hold the campaign for their recipients, if it is the job's campaign. */
  lemma {:induction false} SettledCounts(ts: Table, job: Job, work: seq<Recipient>, base: Id, seam: Seam, c: Id,
          recipient: Id)
    ensures Count(SettledRows(NewRows(ts, job, work), base, seam), InCampaign(c, recipient))
         == if job.campaign == Some(c) then Count(NewRows(ts, job, work), ForRecipient(recipient)) else 0
  {
    var rows := NewRows(ts, job, work);
    NewRowsComeFromWork(ts, job, work);
    SettledShape(rows, base, seam);
    if job.campaign == Some(c) {
      CountSame(SettledRows(rows, base, seam), InCampaign(c, recipient), rows, ForRecipient(recipient));
    } else {
      CountZero(SettledRows(rows, base, seam), InCampaign(c, recipient));
    }
  }

  lemma {:induction false} PassCounts(ts: Table, job: Job, seam: Seam, c: Id, recipient: Id)
    ensures Count(Pass(ts, job, seam).table, InCampaign(c, recipient))
         == Count(ts, InCampaign(c, recipient)) + (if job.campaign == Some(c) then Added(ts, job, recipient) else 0)
    ensures Added(ts, job, recipient) <= 1
    ensures recipient !in IdsOf(Pass(ts, job, seam).work) ==> Added(ts, job, recipient) == 0
  {
    var p := Pass(ts, job, seam);
    var q := InCampaign(c, recipient);
    var t1 := ts + CancelRows(job, p.canceled);
    var rows := NewRows(t1, job, p.work);
    CountAppend(ts, CancelRows(job, p.canceled), q);
    CountAppend(t1, SettledRows(rows, |t1|, seam), q);
    CancelRowsHoldNothing(job, p.canceled, c, recipient);
    SettledCounts(t1, job, p.work, |t1|, seam, c, recipient);
    NewRowsOncePerRecipient(t1, job, p.work, recipient);
    NewRowsComeFromWork(t1, job, p.work);
    CountZero(rows, ForRecipient(recipient));
  }

  /** A recipient on the work list whose slot is free is minted for. */
  lemma {:induction false} FreeSlotIsTaken(ts: Table, job: Job, work: seq<Recipient>, recipient: Id)
    requires recipient in IdsOf(work) && !FenceHit(ts, job.mailing, recipient)
    ensures Count(NewRows(ts, job, work), ForRecipient(recipient)) > 0
    decreases |work|
  {
    var row := SendRow(job, work[0]);
    if work[0].id != recipient {
      assert recipient in IdsOf(work[1..]);
      FenceHitSnoc(ts, row);
      FreeSlotIsTaken(ts, job, work[1..], recipient);
      FreeSlotIsTaken(ts + [row], job, work[1..], recipient);
    }
  }

  lemma {:induction false} PlannedAreFree(ts: Table, job: Job, recipient: Id)
    requires recipient in IdsOf(WorkList(ts, job))
    ensures recipient !in Handled(ts, job)
    ensures !FenceHit(ts + CancelRows(job, Cancels(ts, job)), job.mailing, recipient)
  {
    SendListIsExact(job.recipients, |job.recipients|, Handled(ts, job), job.policy);
    var r :| r in WorkList(ts, job) && r.id == recipient;
    assert r in Sends(ts, job);
    NotHandled(ts, job, recipient);
    var t1 := ts + CancelRows(job, Cancels(ts, job));
    assert forall i :: 0 <= i < |ts| ==> t1[i] == ts[i];
    assert forall i :: |ts| <= i < |t1| ==> t1[i].status.Cancel?;
  }

  /** Minted for is planned for: the pass adds a trace for exactly the recipients of its work list. */
  lemma {:induction false} AddedIff(ts: Table, job: Job, seam: Seam, recipient: Id)
    ensures Added(ts, job, recipient) > 0 <==> recipient in IdsOf(WorkList(ts, job))
  {
    PassCounts(ts, job, seam, 0, recipient);
    if recipient in IdsOf(WorkList(ts, job)) {
      PlannedAreFree(ts, job, recipient);
      FreeSlotIsTaken(ts + CancelRows(job, Cancels(ts, job)), job, WorkList(ts, job), recipient);
    }
  }

  /**
   * Exactly when a drive in the campaign keeps it disjoint: when nobody on its work list holds a live
   * trace of the campaign, which can be read off the table before the drive.
   */
  lemma {:induction false} DriveKeepsDisjointIff(ts: Table, job: Job, seam: Seam, c: Id)
    requires job.campaign == Some(c) && Disjoint(ts, c)
    ensures Disjoint(Pass(ts, job, seam).table, c)
       <==> forall r :: r in WorkList(ts, job) ==> Count(ts, InCampaign(c, r.id)) == 0
  {
    var ts' := Pass(ts, job, seam).table;
    forall recipient
      ensures Count(ts', InCampaign(c, recipient)) <= 1
         <==> (recipient in IdsOf(WorkList(ts, job)) ==> Count(ts, InCampaign(c, recipient)) == 0)
    {
      PassCounts(ts, job, seam, c, recipient);
      AddedIff(ts, job, seam, recipient);
      assert Count(ts, InCampaign(c, recipient)) <= 1;
    }
    assert forall r :: r in WorkList(ts, job) ==> r.id in IdsOf(WorkList(ts, job));
  }

  /** A mailing that cites an A/B test meets that condition by itself: its memory spans the campaign. */
  lemma {:induction false} TestDriveKeepsDisjoint(ts: Table, job: Job, seam: Seam, c: Id)
    requires job.campaign == Some(c) && job.inTest && Disjoint(ts, c)
    ensures Disjoint(Pass(ts, job, seam).table, c)
  {
    forall r | r in WorkList(ts, job)
      ensures Count(ts, InCampaign(c, r.id)) == 0
    {
      assert r.id in IdsOf(WorkList(ts, job));
      PlannedAreFree(ts, job, r.id);
      NotHandled(ts, job, r.id);
      CountZero(ts, InCampaign(c, r.id));
    }
    DriveKeepsDisjointIff(ts, job, seam, c);
  }

  /** A plain mailing of the same campaign has no such memory: it can reach a recipient a second time. */
  lemma {:induction false} PlainMailingCanRepeat(lower: string -> string)
    ensures exists ts: Table, job: Job, seam: Seam ::
              job.campaign == Some(7) && !job.inTest && Disjoint(ts, 7) && !Disjoint(Pass(ts, job, seam).table, 7)
  {
    var pol := Policy(lower, false, {}, {}, None);
    var r := Recipient(1, "a");
    var job := Job(20, Some(7), false, [r], pol, 1);
    var ts := [Minted(10, Some(7), Mail, 1, "a", None)];
    var seam: Seam := _ => Ok(0);
    forall recipient
      ensures Count(ts, InCampaign(7, recipient)) <= 1
    {
      assert ts[1..] == [];
    }
    assert Handled(ts, job) == {};
    assert FateOf([r], 0, {}, pol) == ToSend;
    assert Sends(ts, job) == SendList([r], 0, {}, pol) + [r] == [r];
    assert [r][..1] == [r];
    assert r in WorkList(ts, job);
    assert Count(ts, InCampaign(7, 1)) == 1;
    DriveKeepsDisjointIff(ts, job, seam, 7);
  }

  // ----- whole runs ------------------------------------------------------------------------

  datatype CampaignStep =
    | Drive(job: Job, seam: Seam)
    | Touch(id: Id, verb: Verb, at: Time)
    | Retry(mailing: Id, limit: nat)

  function After(ts: Table, s: CampaignStep): Table {
    match s
    case Drive(job, seam) => Pass(ts, job, seam).table
    case Touch(id, verb, at) => Exec(ts, Step.Advance(id, verb, at))
    case Retry(mailing, limit) => Exec(ts, FreeErrors(mailing, limit))
  }

  function RunCampaign(ts: Table, steps: seq<CampaignStep>): Table
    decreases |steps|
  {
    if steps == [] then ts else RunCampaign(After(ts, steps[0]), steps[1..])
  }

  /** The campaign is driven by mailings that cite an A/B test only. */
  predicate Legal(s: CampaignStep, c: Id) {
    s.Drive? && s.job.campaign == Some(c) ==> s.job.inTest
  }

  lemma {:induction false} StepKeepsDisjoint(ts: Table, s: CampaignStep, c: Id)
    requires Disjoint(ts, c) && Legal(s, c)
    ensures Disjoint(After(ts, s), c)
  {
    if s.Drive? && s.job.campaign == Some(c) {
      TestDriveKeepsDisjoint(ts, s.job, s.seam, c);
    } else {
      forall recipient
        ensures Count(After(ts, s), InCampaign(c, recipient)) <= 1
      {
        assert Count(ts, InCampaign(c, recipient)) <= 1;
        if s.Drive? {
          PassCounts(ts, s.job, s.seam, c, recipient);
        } else {
          ExecAges(ts, if s.Touch? then Step.Advance(s.id, s.verb, s.at) else FreeErrors(s.mailing, s.limit));
          CountPointwise(ts, After(ts, s), InCampaign(c, recipient));
        }
      }
    }
  }

  /**
   * Disjointness over whole runs: drives of any variants, capped or not, bound to the campaign before
   * or in the middle of the run, verbs and retries, in any order.
   */
  lemma {:induction false} CampaignStaysDisjoint(ts: Table, steps: seq<CampaignStep>, c: Id)
    requires Disjoint(ts, c)
    requires forall k :: 0 <= k < |steps| ==> Legal(steps[k], c)
    ensures Disjoint(RunCampaign(ts, steps), c)
    decreases |steps|
  {
    if steps != [] {
      assert Legal(steps[0], c);
      StepKeepsDisjoint(ts, steps[0], c);
      assert forall k :: 0 <= k < |steps[1..]| ==> steps[1..][k] == steps[k + 1];
      CampaignStaysDisjoint(After(ts, steps[0]), steps[1..], c);
    }
  }

  // ----- coverage --------------------------------------------------------------------------

  ghost predicate HasCancelHere(ts: Table, mailing: Id, recipient: Id) {
    exists i :: 0 <= i < |ts| && !ts[i].deleted && ts[i].status.Cancel? && ts[i].mailing == mailing
        && ts[i].recipient == recipient
  }

  /** A drive that samples nobody out: the winner copy (no sampler) or a variant at 100 percent. */
  predicate SendsToEveryone(job: Job) {
    job.policy.sampler.Some? ==> job.policy.sampler.value.pc >= 100
  }

  lemma {:induction false} CompletedDriveDealsWithAll(ts: Table, job: Job, seam: Seam)
    requires SendsToEveryone(job) && Completes(Pass(ts, job, seam))
    ensures forall i :: 0 <= i < |job.recipients| ==> job.recipients[i].id in Handled(Pass(ts, job, seam).table, job)
  {
    var p := Pass(ts, job, seam);
    var rs, h := job.recipients, Handled(ts, job);
    PassDeals(ts, job, seam);
    SendListIsExact(rs, |rs|, h, job.policy);
    CancelListFollowsFates(rs, |rs|, h, job.policy);
    assert p.work == Sends(ts, job);
    forall i | 0 <= i < |rs|
      ensures rs[i].id in Handled(p.table, job)
    {
      var fate := FateOf(rs, i, h, job.policy);
      if fate == ToSend {
        assert Deserves(rs, i, h, job.policy);
        assert rs[i] in p.work;
      } else if fate.Suppressed? {
        assert (rs[i], fate.cause).0.id in CanceledIds(p.canceled);
      } else {
        assert fate != NonMember;
      }
    }
  }

  /** In the campaign's books: exactly one live trace of the campaign, or a cancel on this mailing saying why not. */
  ghost predicate Covered(ts: Table, mailing: Id, c: Id, recipient: Id) {
    Count(ts, InCampaign(c, recipient)) == 1 || HasCancelHere(ts, mailing, recipient)
  }

  ghost predicate HasStray(ts: Table, mailing: Id, c: Id, recipient: Id) {
    exists i :: 0 <= i < |ts| && Holds(ts[i], mailing, recipient) && ts[i].campaign != Some(c)
  }

  /**
   * A trace this very mailing minted before it was bound to the campaign is all the recipient has:
   * the mailing's memory counts it, the campaign's books do not.
   */
  ghost predicate Stranded(ts: Table, mailing: Id, c: Id, recipient: Id) {
    && HasStray(ts, mailing, c, recipient)
    && Count(ts, InCampaign(c, recipient)) == 0
    && !HasCancelHere(ts, mailing, recipient)
  }

  /** Nobody with a trace in scope is withheld again. */
  lemma {:induction false} CanceledWereUnseen(ts: Table, job: Job, j: nat)
    requires j < |Cancels(ts, job)|
    ensures Cancels(ts, job)[j].0.id !in Handled(ts, job)
  {
    CancelListFollowsFates(job.recipients, |job.recipients|, Handled(ts, job), job.policy);
    assert Cancels(ts, job)[j] in Cancels(ts, job);
  }

  lemma {:induction false} SeenIsNotCanceled(ts: Table, job: Job, seam: Seam, recipient: Id, k: nat)
    requires recipient in Handled(ts, job) && |ts| <= k < |Pass(ts, job, seam).table|
    ensures var t := Pass(ts, job, seam).table[k];
            !(t.status.Cancel? && t.recipient == recipient)
  {
    PassAdds(ts, job, seam);
    if k < |AfterCancels(ts, job)| {
      CanceledWereUnseen(ts, job, k - |ts|);
    } else {
      MintedToSend(ts, job, seam, k - |AfterCancels(ts, job)|);
    }
  }

  /** A drive leaves a stranded recipient as it is: seen, so neither minted for nor canceled. */
  lemma {:induction false} StrandedStays(ts: Table, job: Job, seam: Seam, c: Id, recipient: Id)
    requires Stranded(ts, job.mailing, c, recipient)
    ensures !Covered(Pass(ts, job, seam).table, job.mailing, c, recipient)
  {
    var end := Pass(ts, job, seam).table;
    assert recipient in Handled(ts, job);
    PassCounts(ts, job, seam, c, recipient);
    if recipient in IdsOf(WorkList(ts, job)) {
      PlannedAreFree(ts, job, recipient);
      assert false;
    }
    PassAdds(ts, job, seam);
    forall k | 0 <= k < |end|
      ensures k < |ts| ==> end[k] == ts[k]
      ensures k >= |ts| ==> !(end[k].status.Cancel? && end[k].recipient == recipient)
    {
      if k >= |ts| {
        SeenIsNotCanceled(ts, job, seam, recipient, k);
      }
    }
  }

  /** Whoever a completed full drive leaves out of the books was stranded before it. */
  lemma {:induction false} UncoveredWasStranded(ts: Table, job: Job, seam: Seam, c: Id, i: nat)
    requires Disjoint(Pass(ts, job, seam).table, c) && job.campaign == Some(c)
    requires SendsToEveryone(job) && Completes(Pass(ts, job, seam)) && i < |job.recipients|
    requires !Covered(Pass(ts, job, seam).table, job.mailing, c, job.recipients[i].id)
    ensures Stranded(ts, job.mailing, c, job.recipients[i].id)
  {
    var end, id := Pass(ts, job, seam).table, job.recipients[i].id;
    CompletedDriveDealsWithAll(ts, job, seam);
    PassAdds(ts, job, seam);
    PassCounts(ts, job, seam, c, id);
    var k :| 0 <= k < |end| && Deals(end[k], job) && end[k].recipient == id;
    CountZero(end, InCampaign(c, id));
    assert Count(end, InCampaign(c, id)) <= 1;
    assert Fenced(end[k]) && !InCampaign(c, id)(end[k]);
    if k >= |AfterCancels(ts, job)| {
      MintedToSend(ts, job, seam, k - |AfterCancels(ts, job)|);
    }
    assert end[k] == ts[k];
    assert forall j :: 0 <= j < |ts| ==> end[j] == ts[j];
  }

  /**
   * The partition at the end of a run, and exactly when it holds: after any legal history, when a
   * full drive of the campaign completes, a resolved recipient has exactly one live non-cancel trace
   * of the campaign, or a live cancel trace on that very mailing saying why not, if and only if the
   * drive did not find it stranded.
   */
  lemma {:induction false} CampaignPartitionIff(ts: Table, steps: seq<CampaignStep>, job: Job, seam: Seam, c: Id,
          i: nat)
    requires Disjoint(ts, c) && forall k :: 0 <= k < |steps| ==> Legal(steps[k], c)
    requires job.campaign == Some(c) && job.inTest
    requires SendsToEveryone(job) && Completes(Pass(RunCampaign(ts, steps), job, seam))
    requires i < |job.recipients|
    ensures Covered(Pass(RunCampaign(ts, steps), job, seam).table, job.mailing, c, job.recipients[i].id)
       <==> !Stranded(RunCampaign(ts, steps), job.mailing, c, job.recipients[i].id)
    ensures Disjoint(Pass(RunCampaign(ts, steps), job, seam).table, c)
  {
    var mid, id := RunCampaign(ts, steps), job.recipients[i].id;
    CampaignStaysDisjoint(ts, steps, c);
    StepKeepsDisjoint(mid, Drive(job, seam), c);
    if Stranded(mid, job.mailing, c, id) {
      StrandedStays(mid, job, seam, c, id);
    } else if !Covered(Pass(mid, job, seam).table, job.mailing, c, id) {
      UncoveredWasStranded(mid, job, seam, c, i);
      assert false;
    }
  }

  /** It happens: minted for, canceled, bound to a test, and driven again, the mailing leaves its reader out. */
  lemma {:induction false} LateBindingStrands(lower: string -> string)
    ensures exists ts: Table, job: Job, seam: Seam ::
              && job.campaign == Some(7) && job.inTest && SendsToEveryone(job) && Disjoint(ts, 7)
              && Completes(Pass(ts, job, seam)) && |job.recipients| == 1
              && !Covered(Pass(ts, job, seam).table, job.mailing, 7, job.recipients[0].id)
  {
    var pol := Policy(lower, false, {}, {}, None);
    var r := Recipient(1, "a");
    var job := Job(20, Some(7), true, [r], pol, 1);
    var ts := [Minted(20, None, Mail, 1, "a", None)];
    var seam: Seam := _ => Ok(0);
    forall recipient
      ensures Count(ts, InCampaign(7, recipient)) == 0
    {
      CountZero(ts, InCampaign(7, recipient));
    }
    assert Holds(ts[0], 20, 1);
    assert ts[0].recipient in Handled(ts, job);
    assert FateOf([r], 0, Handled(ts, job), pol) == Seen;
    assert Sends(ts, job) == SendList([r], 0, Handled(ts, job), pol) + [] == [];
    assert Completes(Pass(ts, job, seam));
    StrandedStays(ts, job, seam, 7, 1);
  }

  /** In the run the mailing is driven under one campaign only, as when it was bound before its first drive. */
  predicate BoundThroughout(s: CampaignStep, mailing: Id, c: Id) {
    s.Drive? && s.job.mailing == mailing ==> s.job.campaign == Some(c)
  }

  ghost predicate NoStray(ts: Table, mailing: Id, c: Id) {
    forall i :: 0 <= i < |ts| && ts[i].mailing == mailing ==> ts[i].campaign == Some(c)
  }

  lemma {:induction false} StepAddsNoStray(ts: Table, s: CampaignStep, mailing: Id, c: Id)
    requires NoStray(ts, mailing, c) && BoundThroughout(s, mailing, c)
    ensures NoStray(After(ts, s), mailing, c)
  {
    if s.Drive? {
      PassAdds(ts, s.job, s.seam);
      forall i | |AfterCancels(ts, s.job)| <= i < |After(ts, s)|
        ensures After(ts, s)[i].mailing == s.job.mailing && After(ts, s)[i].campaign == s.job.campaign
      {
        MintedToSend(ts, s.job, s.seam, i - |AfterCancels(ts, s.job)|);
      }
    } else {
      ExecAges(ts, if s.Touch? then Step.Advance(s.id, s.verb, s.at) else FreeErrors(s.mailing, s.limit));
    }
  }

  lemma {:induction false} RunAddsNoStray(ts: Table, steps: seq<CampaignStep>, mailing: Id, c: Id)
    requires NoStray(ts, mailing, c) && forall k :: 0 <= k < |steps| ==> BoundThroughout(steps[k], mailing, c)
    ensures NoStray(RunCampaign(ts, steps), mailing, c)
    decreases |steps|
  {
    if steps != [] {
      StepAddsNoStray(ts, steps[0], mailing, c);
      assert forall k :: 0 <= k < |steps[1..]| ==> steps[1..][k] == steps[k + 1];
      RunAddsNoStray(After(ts, steps[0]), steps[1..], mailing, c);
    }
  }

  /** So the partition is complete for a mailing bound to the campaign before its first trace. */
  lemma {:induction false} CampaignPartition(ts: Table, steps: seq<CampaignStep>, job: Job, seam: Seam, c: Id, i: nat)
    requires Disjoint(ts, c) && forall k :: 0 <= k < |steps| ==> Legal(steps[k], c)
    requires job.campaign == Some(c) && job.inTest
    requires SendsToEveryone(job) && Completes(Pass(RunCampaign(ts, steps), job, seam))
    requires NoStray(ts, job.mailing, c)
    requires forall k :: 0 <= k < |steps| ==> BoundThroughout(steps[k], job.mailing, c)
    requires i < |job.recipients|
    ensures Covered(Pass(RunCampaign(ts, steps), job, seam).table, job.mailing, c, job.recipients[i].id)
    ensures Disjoint(Pass(RunCampaign(ts, steps), job, seam).table, c)
  {
    RunAddsNoStray(ts, steps, job.mailing, c);
    CampaignPartitionIff(ts, steps, job, seam, c, i);
  }

  // ----- two variants of one seed ----------------------------------------------------------

  /** Rows with a campaign that hold the fence are visible to every sibling that cites the test. */
  lemma {:induction false} SiblingRows(rows: Table, b: Job, c: Id)
    requires b.campaign == Some(c) && b.inTest
    requires forall i :: 0 <= i < |rows| ==> rows[i].campaign == Some(c) && rows[i].mailing != b.mailing
    ensures Handled(rows, b) == set i | 0 <= i < |rows| && Fenced(rows[i]) :: rows[i].recipient
  {
    assert forall i :: 0 <= i < |rows| ==> (Deals(rows[i], b) <==> Fenced(rows[i]));
  }

  lemma {:induction false} SiblingSeesSettled(a: Job, b: Job, work: seq<Recipient>, base: Id, seam: Seam, c: Id)
    requires a.mailing != b.mailing && a.campaign == Some(c) && b.campaign == Some(c) && b.inTest
    ensures Handled(SettledRows(SendRows(a, work), base, seam), b) == IdsOf(work)
  {
    var sent := SettledRows(SendRows(a, work), base, seam);
    SettledShape(SendRows(a, work), base, seam);
    SiblingRows(sent, b, c);
    forall x | x in IdsOf(work)
      ensures x in Handled(sent, b)
    {
      var r :| r in work && r.id == x;
      var i :| 0 <= i < |work| && work[i] == r;
      assert sent[i].recipient == x;
    }
  }

  /** Variant B sees variant A's sends, and not A's suppressions. */
  lemma {:induction false} SiblingSeesSends(ts: Table, a: Job, b: Job, seam: Seam, c: Id)
    requires DistinctIds(a.recipients) && a.mailing != b.mailing
    requires a.campaign == Some(c) && b.campaign == Some(c) && b.inTest
    ensures Handled(Pass(ts, a, seam).table, b) == Handled(ts, b) + IdsOf(Pass(ts, a, seam).work)
  {
    var p := Pass(ts, a, seam);
    var cancels := CancelRows(a, p.canceled);
    var t1 := ts + cancels;
    PassAddsExactly(ts, a, seam);
    HandledAppend(t1, SettledRows(SendRows(a, p.work), |t1|, seam), b);
    HandledAppend(ts, cancels, b);
    SiblingRows(cancels, b, c);
    SiblingSeesSettled(a, b, p.work, |t1|, seam, c);
  }

  /** Pass after pass of A, with nothing between them that hides, frees or adds a trace either variant sees. */
  ghost predicate IsSiblingRun(before: seq<Table>, seams: seq<Seam>, a: Job, b: Job) {
    && IsRun(before, seams, a)
    && forall k :: 0 <= k < |before| - 1 ==> Calm(Pass(before[k], a, seams[k]).table, before[k + 1], b)
  }

  /** What B must see when pass `k` of A starts: what it saw at the start, and A's plan as far as it got. */
  function SiblingMemory(start: Table, a: Job, b: Job, k: nat): set<Id> {
    Handled(start, b) + IdsOf(Sends(start, a)[..Reach(k, a.budget, |Sends(start, a)|)])
  }

  lemma {:induction false} SiblingMemoryGrows(start: Table, a: Job, b: Job, k: nat)
    ensures var all := Sends(start, a);
            && Reach(k, a.budget, |all|) <= Reach(k + 1, a.budget, |all|)
            && SiblingMemory(start, a, b, k + 1)
               == SiblingMemory(start, a, b, k) + IdsOf(all[Reach(k, a.budget, |all|)..Reach(k + 1, a.budget, |all|)])
  {
    var all := Sends(start, a);
    ReachSteps(k, a.budget, |all|);
    var lo, hi := Reach(k, a.budget, |all|), Reach(k + 1, a.budget, |all|);
    IdsOfSplit(all[..lo], all[lo..hi]);
    assert all[..hi] == all[..lo] + all[lo..hi];
  }

  /** Pass `k` of A shows B the next slice of A's plan. */
  lemma {:induction false} SiblingSeesPass(start: Table, now: Table, a: Job, b: Job, seam: Seam, c: Id, k: nat)
    requires DistinctIds(a.recipients) && Remembers(start, now, a, k)
              && Handled(now, b) == SiblingMemory(start, a, b, k)
    requires a.mailing != b.mailing && a.campaign == Some(c) && b.campaign == Some(c) && b.inTest
    ensures Handled(Pass(now, a, seam).table, b) == SiblingMemory(start, a, b, k + 1)
  {
    PassTakesItsSlice(start, now, a, seam, k);
    SiblingSeesSends(now, a, b, seam, c);
    SiblingMemoryGrows(start, a, b, k);
  }

  lemma {:induction false} SiblingPassThenCalm(start: Table, now: Table, next: Table, a: Job, b: Job, seam: Seam,
          c: Id, k: nat)
    requires DistinctIds(a.recipients) && Remembers(start, now, a, k)
              && Handled(now, b) == SiblingMemory(start, a, b, k)
    requires a.mailing != b.mailing && a.campaign == Some(c) && b.campaign == Some(c) && b.inTest
    requires Calm(Pass(now, a, seam).table, next, b)
    ensures Handled(next, b) == SiblingMemory(start, a, b, k + 1)
  {
    SiblingSeesPass(start, now, a, b, seam, c, k);
    CalmKeepsHandled(Pass(now, a, seam).table, next, b);
  }

  lemma {:induction false} SiblingRemembers(before: seq<Table>, seams: seq<Seam>, a: Job, b: Job, c: Id, k: nat)
    requires IsSiblingRun(before, seams, a, b) && k < |before| && DistinctIds(a.recipients)
    requires a.mailing != b.mailing && a.campaign == Some(c) && b.campaign == Some(c) && b.inTest
    ensures Handled(before[k], b) == SiblingMemory(before[0], a, b, k)
  {
    if k == 0 {
      ReachSteps(0, a.budget, |Sends(before[0], a)|);
    } else {
      SiblingRemembers(before, seams, a, b, c, k - 1);
      RunRemembers(before, seams, a, k - 1);
      SiblingPassThenCalm(before[0], before[k - 1], before[k], a, b, seams[k - 1], c, k - 1);
    }
  }

  /** A run of A, capped or not, whose last pass completed, and a calm time after it for B. */
  ghost predicate DoneBefore(before: seq<Table>, seams: seq<Seam>, a: Job, b: Job, now: Table) {
    && IsSiblingRun(before, seams, a, b) && |before| > 0
    && Completes(Pass(before[|before| - 1], a, seams[|before| - 1]))
    && Calm(Pass(before[|before| - 1], a, seams[|before| - 1]).table, now, b)
  }

  lemma {:induction false} SiblingSeesTheWholePlan(before: seq<Table>, seams: seq<Seam>, a: Job, b: Job, c: Id,
          now: Table)
    requires DoneBefore(before, seams, a, b, now) && DistinctIds(a.recipients)
    requires a.mailing != b.mailing && a.campaign == Some(c) && b.campaign == Some(c) && b.inTest
    ensures Handled(now, b) == Handled(before[0], b) + IdsOf(Sends(before[0], a))
  {
    var k, all := |before| - 1, Sends(before[0], a);
    SiblingRemembers(before, seams, a, b, c, k);
    RunRemembers(before, seams, a, k);
    SiblingPassThenCalm(before[0], before[k], now, a, b, seams[k], c, k);
    PassTakesItsSlice(before[0], before[k], a, seams[k], k);
    assert all[..|all|] == all;
  }

  /**
   * Two variants over one list: once A has completed, over however many capped passes, B plans to
   * send exactly to those it would have sent to at the start and A did not.
   */
  lemma {:induction false} SecondVariantTakesTheRest(before: seq<Table>, seams: seq<Seam>, a: Job, b: Job, c: Id,
          now: Table, i: nat)
    requires DoneBefore(before, seams, a, b, now) && DistinctIds(a.recipients)
    requires a.mailing != b.mailing && a.campaign == Some(c) && b.campaign == Some(c) && b.inTest
    requires b.recipients == a.recipients && i < |a.recipients|
    ensures FateOf(b.recipients, i, Handled(now, b), b.policy) == ToSend
       <==> && FateOf(b.recipients, i, Handled(before[0], b), b.policy) == ToSend
            && FateOf(a.recipients, i, Handled(before[0], a), a.policy) != ToSend
  {
    SiblingSeesTheWholePlan(before, seams, a, b, c, now);
    WorkListsFollowFates(a.recipients, i, Handled(before[0], a), a.policy);
    FateStable(b.recipients, i, Handled(before[0], b), IdsOf(Sends(before[0], a)), b.policy);
  }

  /** A and B are variants of one test, at p and q percent, on a campaign nothing was sent in yet. */
  ghost predicate VariantsOf(a: Job, b: Job, c: Id, bucket: string -> nat, p: int, q: int, start: Table) {
    && a.mailing != b.mailing && a.campaign == Some(c) && b.campaign == Some(c) && b.inTest
    && DistinctIds(a.recipients) && b.recipients == a.recipients
    && a.policy.sampler == Some(Sampler(bucket, p)) && b.policy == a.policy.(sampler := Some(Sampler(bucket, q)))
    && Handled(start, a) == {} && Handled(start, b) == {}
  }

  /**
   * Both variants sample with the same seed, so after A at p percent completes on a fresh campaign,
   * in one pass or in many, B at q percent sends exactly to the deserving recipients whose bucket
   * lies in [p, q).
   */
  lemma {:induction false} SecondVariantSendsTheBand(before: seq<Table>, seams: seq<Seam>, a: Job, b: Job, c: Id,
          now: Table, bucket: string -> nat, p: int, q: int, i: nat)
    requires DoneBefore(before, seams, a, b, now) && VariantsOf(a, b, c, bucket, p, q, before[0])
    requires 0 <= p <= 100 && 0 <= q <= 100 && i < |a.recipients|
    ensures var slot := bucket(a.policy.lower(a.recipients[i].email)) % 100;
            (FateOf(b.recipients, i, Handled(now, b), b.policy) == ToSend
             <==> FateOf(a.recipients, i, {}, a.policy.(sampler := None)) == ToSend && p <= slot < q)
  {
    SecondVariantTakesTheRest(before, seams, a, b, c, now, i);
  }

  /** In particular a second variant of the same or a smaller percentage sends to nobody at all. */
  lemma {:induction false} SmallerVariantSendsNobody(before: seq<Table>, seams: seq<Seam>, a: Job, b: Job, c: Id,
          now: Table, bucket: string -> nat, p: int, q: int)
    requires DoneBefore(before, seams, a, b, now) && VariantsOf(a, b, c, bucket, p, q, before[0])
    requires 0 <= q <= p <= 100
    ensures Sends(now, b) == []
  {
    SendListIsExact(b.recipients, |b.recipients|, Handled(now, b), b.policy);
    if Sends(now, b) != [] {
      var r := Sends(now, b)[0];
      assert r in Sends(now, b);
      var i :| 0 <= i < |b.recipients| && b.recipients[i] == r && Deserves(b.recipients, i, Handled(now, b), b.policy);
      SecondVariantSendsTheBand(before, seams, a, b, c, now, bucket, p, q, i);
      assert false;
    }
  }
}
