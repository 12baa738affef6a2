/**
 * The send sweep: claim what is due, vet each domain, drive each mailing, park what cannot be
 * driven, and account for every claim. One worker, no database errors.
 */
module Sweep {
  import opened MailTypes
  import opened TraceTable
  import opened BatchUpdate
  import opened SendWalk
  import opened MailDrive
  import M = MailingLifecycle

  // ----- the claim -------------------------------------------------------------------------

  function FreshWork(now: Time): M.Mailing -> bool {
    (row: M.Mailing) => M.Claimable(row, now) && row.state.InQueue?
  }

  function ResumedWork(now: Time): M.Mailing -> bool {
    (row: M.Mailing) => M.Claimable(row, now) && row.state.Sending?
  }

  /** Due mailings, fresh work before resumes, oldest first in each class, up to the claim batch. */
  function Claims(rows: seq<M.Mailing>, now: Time, limit: nat): seq<Id> {
    var freshIds := FirstIds(rows, FreshWork(now), limit, 0);
    freshIds + FirstIds(rows, ResumedWork(now), limit - |freshIds|, 0)
  }

  ghost predicate NoRepeats(ids: seq<Id>) {
    forall i, j :: 0 <= i < j < |ids| ==> ids[i] != ids[j]
  }

  /** The first part of a claim is fresh work, the rest resumes. */
  lemma {:induction false} ClaimsByClass(rows: seq<M.Mailing>, now: Time, limit: nat, i: nat)
    requires i < |Claims(rows, now, limit)|
    ensures var id, taken := Claims(rows, now, limit)[i], |FirstIds(rows, FreshWork(now), limit, 0)|;
            id < |rows| && if i < taken then FreshWork(now)(rows[id]) else ResumedWork(now)(rows[id])
  {
    var a := FirstIds(rows, FreshWork(now), limit, 0);
    if i < |a| {
      FirstIdsMatch(rows, FreshWork(now), limit, 0, i);
    } else {
      FirstIdsMatch(rows, ResumedWork(now), limit - |a|, 0, i - |a|);
    }
  }

  /** Two claims of one class come in the order of their ids. */
  lemma {:induction false} ClassGoesByAge(rows: seq<M.Mailing>, now: Time, limit: nat, i: nat, j: nat)
    requires i < j < |Claims(rows, now, limit)|
    ensures var ids := Claims(rows, now, limit);
            && ids[i] < |rows| && ids[j] < |rows| && ids[i] != ids[j]
            && (rows[ids[i]].state == rows[ids[j]].state ==> ids[i] < ids[j])
  {
    var ids, a := Claims(rows, now, limit), FirstIds(rows, FreshWork(now), limit, 0);
    ClaimsByClass(rows, now, limit, i);
    ClaimsByClass(rows, now, limit, j);
    if j < |a| {
      FirstIdsAscendAt(rows, FreshWork(now), limit, 0, i, j);
    } else if i >= |a| {
      FirstIdsAscendAt(rows, ResumedWork(now), limit - |a|, 0, i - |a|, j - |a|);
    } else {
      assert rows[ids[i]].state != rows[ids[j]].state;
    }
  }

  /** A claim takes only live, unparked, due work, each mailing once. */
  lemma {:induction false} ClaimIsSound(rows: seq<M.Mailing>, now: Time, limit: nat)
    ensures var ids := Claims(rows, now, limit);
            NoRepeats(ids) && forall i :: 0 <= i < |ids| ==> ids[i] < |rows| && M.Claimable(rows[ids[i]], now)
  {
    var ids := Claims(rows, now, limit);
    forall i | 0 <= i < |ids|
      ensures ids[i] < |rows| && M.Claimable(rows[ids[i]], now)
    {
      ClaimsByClass(rows, now, limit, i);
    }
    forall i, j | 0 <= i < j < |ids|
      ensures ids[i] != ids[j]
    {
      ClassGoesByAge(rows, now, limit, i, j);
    }
  }

  lemma {:induction false} LeftOutIsFull(rows: seq<M.Mailing>, now: Time, limit: nat, m: Id)
    requires m < |rows| && M.Claimable(rows[m], now) && m !in Claims(rows, now, limit)
    ensures |Claims(rows, now, limit)| == limit
    ensures FreshWork(now)(rows[m]) ==> |FirstIds(rows, FreshWork(now), limit, 0)| == limit
  {
    var a := FirstIds(rows, FreshWork(now), limit, 0);
    var k := limit - |a|;
    var b := FirstIds(rows, ResumedWork(now), k, 0);
    if FreshWork(now)(rows[m]) && |a| < limit {
      FirstIdsComplete(rows, FreshWork(now), limit, 0, m);
    }
    if ResumedWork(now)(rows[m]) && |b| < k {
      FirstIdsComplete(rows, ResumedWork(now), k, 0, m);
    }
  }

  /** A live mailing that is queued or under way, not parked, and whose time, if it was given one, has come. */
  predicate MayGoOut(row: M.Mailing, now: Time) {
    && !row.deleted && row.sendError.None?
    && (row.state == M.InQueue || row.state == M.Sending)
    && (row.schedule.Some? ==> row.schedule.value <= now)
  }

  /**
   * A claim takes each mailing once, takes only live, unparked, due work, never more than the batch;
   * a due mailing is left out only when the batch is full, and no resume is taken while fresh work is
   * left waiting.
   */
  lemma {:induction false} ClaimIsExact(rows: seq<M.Mailing>, now: Time, limit: nat)
    ensures var ids := Claims(rows, now, limit);
            && NoRepeats(ids) && |ids| <= limit
            && (forall i :: 0 <= i < |ids| ==> ids[i] < |rows| && MayGoOut(rows[ids[i]], now))
            && (forall m: Id :: m < |rows| && MayGoOut(rows[m], now) && m !in ids ==> |ids| == limit)
            && (forall m: Id :: m < |rows| && MayGoOut(rows[m], now) && rows[m].state == M.InQueue && m !in ids ==>
                  forall i :: 0 <= i < |ids| ==> rows[ids[i]].state == M.InQueue)
            && (forall i, j :: 0 <= i < j < |ids| && rows[ids[j]].state == M.InQueue ==>
                  rows[ids[i]].state == M.InQueue)
  {
    var ids, a := Claims(rows, now, limit), FirstIds(rows, FreshWork(now), limit, 0);
    ClaimIsSound(rows, now, limit);
    forall i | 0 <= i < |ids|
      ensures ids[i] < |rows| && (i < |a| <==> rows[ids[i]].state.InQueue?)
    {
      ClaimsByClass(rows, now, limit, i);
    }
    forall m: Id | m < |rows| && M.Claimable(rows[m], now) && m !in ids
      ensures |ids| == limit && (FreshWork(now)(rows[m]) ==> |a| == limit)
    {
      LeftOutIsFull(rows, now, limit, m);
    }
  }

  /**
   * Within each class a claim goes by age, oldest first: in the order of ids (rows are numbered as
   * they are created), and before any of that class it leaves out.
   */
  lemma {:induction false} ClaimGoesByAge(rows: seq<M.Mailing>, now: Time, limit: nat, i: nat, m: Id)
    requires i < |Claims(rows, now, limit)| && m < |rows|
    ensures var ids := Claims(rows, now, limit);
            && ids[i] < |rows|
            && (MayGoOut(rows[m], now) && m !in ids && rows[ids[i]].state == rows[m].state ==> ids[i] < m)
            && (forall j :: i < j < |ids| && ids[j] < |rows| && rows[ids[i]].state == rows[ids[j]].state ==>
                  ids[i] < ids[j])
  {
    var ids, a := Claims(rows, now, limit), FirstIds(rows, FreshWork(now), limit, 0);
    var k := limit - |a|;
    ClaimsByClass(rows, now, limit, i);
    forall j | i < j < |ids| && ids[j] < |rows| && rows[ids[i]].state == rows[ids[j]].state
      ensures ids[i] < ids[j]
    {
      ClassGoesByAge(rows, now, limit, i, j);
    }
    if M.Claimable(rows[m], now) && m !in ids && rows[ids[i]].state == rows[m].state {
      if i < |a| {
        FirstIdsAreFirst(rows, FreshWork(now), limit, 0, m);
        assert a[i] in a;
      } else {
        FirstIdsAreFirst(rows, ResumedWork(now), k, 0, m);
        assert ids[i] in FirstIds(rows, ResumedWork(now), k, 0);
      }
    }
  }

  // ----- one drive -------------------------------------------------------------------------

  datatype Target =
    | Resolved(recipients: seq<Recipient>)
    | ResolverFailed(why: string)
    | NoResolver(model: string)
    | UnknownModel(model: string)

  datatype Sampling = Unsampled | Seeded(sampler: Sampler) | SeedMissing | NoTestBound

  /** What the stores and seams answer about one mailing during a sweep. */
  datatype Plan = Plan(
    parseError: Option<string>,
    scopeError: Option<string>,
    target: Target,
    sampling: Sampling,
    campaign: Option<Id>,
    inTest: bool,
    policy: Policy)

  datatype Night = Night(plans: Id -> Plan, seams: Id -> Seam, births: Births, hardCap: nat, budget: nat, now: Time)

  function JobOf(id: Id, night: Night): Job
    requires night.plans(id).target.Resolved?
  {
    var plan := night.plans(id);
    Job(id, plan.campaign, plan.inTest, plan.target.recipients,
        plan.policy.(sampler := if plan.sampling.Seeded? then Some(plan.sampling.sampler) else None), night.budget)
  }

  /** How a drive ends. */
  datatype End =
    | LeftAlone                     // an sms mailing whose walk is over
    | ParkedWith(reason: string)    // the drive itself refused
    | FailedWith(reason: string)    // the drive, or its scope, returned an error: the sweep parks it
    | NobodyToSend
    | Walked(remaining: nat)

  const SMS_NOT_COMPOSED := "sms-type mailing reached the mail send walk"
  const NO_RESOLVER := "no resolver is composed"
  const UNKNOWN_MODEL := "unknown target_model"
  const HARD_CAP := "hard cap"
  const NO_SEED := "the bound A/B test has no sampling seed"
  const NO_TEST := "no ab_test_id is bound"

  /** The branches of the drive, in order. */
  function EndOf(row: M.Mailing, id: Id, ts: Table, night: Night): End {
    var plan := night.plans(id);
    if plan.scopeError.Some? then FailedWith(plan.scopeError.value)
    else if row.isSms then (if row.walkDone then LeftAlone else ParkedWith(SMS_NOT_COMPOSED))
    else
      match plan.target
      case UnknownModel(_) => ParkedWith(UNKNOWN_MODEL)
      case NoResolver(_) => ParkedWith(NO_RESOLVER)
      case ResolverFailed(why) => FailedWith(why)
      case Resolved(recipients) =>
        if |recipients| >= night.hardCap then FailedWith(HARD_CAP)
        else if recipients == [] then NobodyToSend
        else if plan.sampling.SeedMissing? then ParkedWith(NO_SEED)
        else if plan.sampling.NoTestBound? then ParkedWith(NO_TEST)
        else Walked(Pass(ts, JobOf(id, night), night.seams(id)).remaining)
  }

  function RowAfter(row: M.Mailing, end: End, now: Time): (r: M.Mailing)
    ensures r.isSms == row.isSms && r.walkDone == row.walkDone && r.deleted == row.deleted
  {
    match end
    case LeftAlone => row
    case ParkedWith(reason) => M.Apply(M.Park(reason), row, now)
    case FailedWith(reason) => M.Apply(M.Park(reason), row, now)
    case NobodyToSend => M.Apply(M.CompleteNobody, row, now)
    case Walked(remaining) => if remaining > 0 then row else M.Apply(M.CompleteWalk, row, now)
  }

  /** The two tables a sweep works on. */
  datatype Engine = Engine(rows: seq<M.Mailing>, traces: Table)

  /** The trace table once the drive is past its channel guard: this mailing's orphans repaired. */
  function RepairedFor(s: Engine, id: Id, night: Night): Table
    requires id < |s.rows|
  {
    if night.plans(id).scopeError.Some? || s.rows[id].isSms then s.traces
    else Repaired(s.traces, id, night.births, night.now, night.seams(id))
  }

  function EndIn(s: Engine, id: Id, night: Night): End
    requires id < |s.rows|
  {
    EndOf(s.rows[id], id, RepairedFor(s, id, night), night)
  }

  function DriveOne(s: Engine, id: Id, night: Night): (r: Engine)
    requires id < |s.rows|
    ensures |r.rows| == |s.rows|
  {
    var end, traces := EndIn(s, id, night), RepairedFor(s, id, night);
    Engine(s.rows[id := RowAfter(s.rows[id], end, night.now)],
           if end.Walked? then Pass(traces, JobOf(id, night), night.seams(id)).table else traces)
  }

  predicate InRange(ids: seq<Id>, n: nat) {
    forall i :: 0 <= i < |ids| ==> ids[i] < n
  }

  function DriveEach(s: Engine, ids: seq<Id>, night: Night): (r: Engine)
    requires InRange(ids, |s.rows|)
    ensures |r.rows| == |s.rows|
  {
    if ids == [] then s else DriveOne(DriveEach(s, ids[..|ids| - 1], night), ids[|ids| - 1], night)
  }

  // ----- where each claim ends up ----------------------------------------------------------

  datatype Bucket = InPark | Done | DoneEmpty | StillSending | SmsWalkedOut

  function BucketOf(end: End): Bucket {
    match end
    case LeftAlone => SmsWalkedOut
    case ParkedWith(_) => InPark
    case FailedWith(_) => InPark
    case NobodyToSend => DoneEmpty
    case Walked(remaining) => if remaining > 0 then StillSending else Done
  }

  /** How many of the driven mailings end in this bucket, each judged at its own turn. */
  function InBucket(s: Engine, ids: seq<Id>, night: Night, bucket: Bucket): nat
    requires InRange(ids, |s.rows|)
  {
    if ids == [] then 0
    else
      var before := ids[..|ids| - 1];
      InBucket(s, before, night, bucket)
      + if BucketOf(EndIn(DriveEach(s, before, night), ids[|ids| - 1], night)) == bucket then 1 else 0
  }

  lemma {:induction false} BucketsPartition(s: Engine, ids: seq<Id>, night: Night)
    requires InRange(ids, |s.rows|)
    ensures InBucket(s, ids, night, InPark) + InBucket(s, ids, night, Done) + InBucket(s, ids, night, DoneEmpty)
          + InBucket(s, ids, night, StillSending) + InBucket(s, ids, night, SmsWalkedOut) == |ids|
  {
    if ids != [] {
      BucketsPartition(s, ids[..|ids| - 1], night);
    }
  }

  /** A drive writes its own mailing row and no other. */
  lemma {:induction false} DrivesStayInTheirRows(s: Engine, ids: seq<Id>, night: Night, other: Id)
    requires InRange(ids, |s.rows|) && other < |s.rows| && other !in ids
    ensures DriveEach(s, ids, night).rows[other] == s.rows[other]
  {
    if ids != [] {
      DrivesStayInTheirRows(s, ids[..|ids| - 1], night, other);
    }
  }

  /** The mail mailings among these: the drive takes an sms mailing no further than its guard. */
  ghost function MailOf(s: Engine, ids: seq<Id>): set<Id>
    requires InRange(ids, |s.rows|)
  {
    set id | id in ids && !s.rows[id].isSms
  }

  /**
   * `b` is `a` with traces of these mailings added, and otherwise at most missing mail links of these
   * mailings' traces filled in.
   */
  ghost predicate Grows(a: Table, b: Table, mailings: set<Id>) {
    && |a| <= |b|
    && (forall i :: 0 <= i < |a| ==>
          b[i] == a[i] || (a[i].mailing in mailings && a[i].mailId.None? && OnlyLinks(a[i], b[i])))
    && (forall i :: |a| <= i < |b| ==> b[i].mailing in mailings)
  }

  lemma {:induction false} PassAddsItsOwn(ts: Table, job: Job, seam: Seam)
    ensures var u := Pass(ts, job, seam).table;
            ts <= u && forall i :: |ts| <= i < |u| ==> u[i].mailing == job.mailing
  {
    PassAdds(ts, job, seam);
    forall i | |AfterCancels(ts, job)| <= i < |Pass(ts, job, seam).table|
      ensures Pass(ts, job, seam).table[i].mailing == job.mailing
    {
      MintedToSend(ts, job, seam, i - |AfterCancels(ts, job)|);
    }
  }

  lemma {:induction false} DriveOneGrows(s: Engine, id: Id, night: Night)
    requires id < |s.rows|
    ensures Grows(s.traces, DriveOne(s, id, night).traces, if s.rows[id].isSms then {} else {id})
  {
    var traces := RepairedFor(s, id, night);
    RepairOnlyLinks(s.traces, id, night.births, night.now, night.seams(id));
    if EndIn(s, id, night).Walked? {
      PassAddsItsOwn(traces, JobOf(id, night), night.seams(id));
    }
  }

  lemma {:induction false} GrowthComposes(a: Table, b: Table, c: Table, m: set<Id>, n: set<Id>)
    requires Grows(a, b, m) && Grows(b, c, n)
    ensures Grows(a, c, m + n)
  {}

  lemma {:induction false} DrivesKeepChannels(s: Engine, ids: seq<Id>, night: Night, m: Id)
    requires InRange(ids, |s.rows|) && m < |s.rows|
    ensures DriveEach(s, ids, night).rows[m].isSms == s.rows[m].isSms
  {
    if ids != [] {
      DrivesKeepChannels(s, ids[..|ids| - 1], night, m);
    }
  }

  /**
   * Every trace a run of drives adds belongs to a driven mail mailing. The old traces all stand, and
   * of those only unlinked ones of driven mail mailings may have gained their mail link.
   */
  lemma {:induction false} DrivesAddTheirOwnTraces(s: Engine, ids: seq<Id>, night: Night)
    requires InRange(ids, |s.rows|)
    ensures Grows(s.traces, DriveEach(s, ids, night).traces, MailOf(s, ids))
  {
    if ids != [] {
      var n := |ids| - 1;
      var mid := DriveEach(s, ids[..n], night);
      DrivesAddTheirOwnTraces(s, ids[..n], night);
      DriveOneGrows(mid, ids[n], night);
      DrivesKeepChannels(s, ids[..n], night, ids[n]);
      var last: set<Id> := if mid.rows[ids[n]].isSms then {} else {ids[n]};
      GrowthComposes(s.traces, mid.traces, DriveEach(s, ids, night).traces, MailOf(s, ids[..n]), last);
      assert MailOf(s, ids) == MailOf(s, ids[..n]) + last by {
        assert forall id :: id in ids <==> id in ids[..n] || id == ids[n];
      }
    }
  }

  // ----- what a drive makes of the mailing row ---------------------------------------------

  /** The row after a drive that reported this bucket, field by field. */
  predicate RowTells(a: M.Mailing, b: M.Mailing, bucket: Bucket, now: Time) {
    match bucket
    case Done =>
      b == a.(state := M.State.Done, sentDate := Some(now), kpiRequired := a.kpiRequired || a.sentDate.None?)
    case DoneEmpty => b == a.(state := M.State.Done, sentDate := Some(now))
    case StillSending => b == a
    case SmsWalkedOut => b == a
    case InPark => b.sendError.Some? && b == a.(state := M.Sending, sendError := b.sendError)
  }

  lemma {:induction false} DriveTellsTheRow(s: Engine, id: Id, night: Night)
    requires id < |s.rows| && s.rows[id].state == M.Sending && !s.rows[id].deleted
    ensures RowTells(s.rows[id], DriveOne(s, id, night).rows[id], BucketOf(EndIn(s, id, night)), night.now)
    ensures forall m: Id :: m < |s.rows| && m != id ==> DriveOne(s, id, night).rows[m] == s.rows[m]
  {}

  /** Nothing keeps the drive of this mail mailing from the walk. */
  predicate Walks(s: Engine, id: Id, night: Night)
    requires id < |s.rows|
  {
    var plan := night.plans(id);
    && plan.scopeError.None? && !s.rows[id].isSms && plan.target.Resolved?
    && 0 < |plan.target.recipients| < night.hardCap
    && !plan.sampling.SeedMissing? && !plan.sampling.NoTestBound?
  }

  /** Whom the walk of this drive sends to, were there no pass budget. */
  function Planned(s: Engine, id: Id, night: Night): nat
    requires id < |s.rows| && Walks(s, id, night)
  {
    |Sends(RepairedFor(s, id, night), JobOf(id, night))|
  }

  /** Why a drive parks its mailing, the first reason that applies. */
  function ParkReason(s: Engine, id: Id, night: Night): Option<string>
    requires id < |s.rows|
  {
    var plan := night.plans(id);
    if plan.scopeError.Some? then plan.scopeError
    else if s.rows[id].isSms then (if s.rows[id].walkDone then None else Some(SMS_NOT_COMPOSED))
    else if plan.target.UnknownModel? then Some(UNKNOWN_MODEL)
    else if plan.target.NoResolver? then Some(NO_RESOLVER)
    else if plan.target.ResolverFailed? then Some(plan.target.why)
    else if |plan.target.recipients| >= night.hardCap then Some(HARD_CAP)
    else if plan.target.recipients == [] then None
    else if plan.sampling.SeedMissing? then Some(NO_SEED)
    else if plan.sampling.NoTestBound? then Some(NO_TEST)
    else None
  }

  /**
   * Exactly when a drive ends how: done when everybody left to send to fits the pass, still sending
   * when not, done empty for an empty list, left alone for an sms mailing whose walk is over, and
   * parked, with the first reason that applies, in every other case.
   */
  lemma {:induction false} DriveEndsIff(s: Engine, id: Id, night: Night)
    requires id < |s.rows| && s.rows[id].state == M.Sending && !s.rows[id].deleted
    ensures var plan, row, bucket := night.plans(id), s.rows[id], BucketOf(EndIn(s, id, night));
            && (bucket == Done <==> Walks(s, id, night) && Planned(s, id, night) <= night.budget)
            && (bucket == StillSending <==> Walks(s, id, night) && Planned(s, id, night) > night.budget)
            && (bucket == DoneEmpty <==>
                plan.scopeError.None? && !row.isSms && plan.target == Resolved([]) && night.hardCap > 0)
            && (bucket == SmsWalkedOut <==> plan.scopeError.None? && row.isSms && row.walkDone)
            && (bucket == InPark <==> ParkReason(s, id, night).Some?)
            && (bucket == InPark ==> DriveOne(s, id, night).rows[id].sendError == ParkReason(s, id, night))
            && (EndIn(s, id, night).FailedWith? <==>
                || plan.scopeError.Some?
                || (!row.isSms && (plan.target.ResolverFailed?
                                   || (plan.target.Resolved? && |plan.target.recipients| >= night.hardCap))))
  {}

  /**
   * What a drive writes in the trace table, in the terms of its plan: nothing unless it walks; and
   * when it walks, one pass of this mailing, under its campaign and memory, over the resolved list,
   * with its policy and, for a variant, its sampler, capped by the pass budget.
   */
  lemma {:induction false} DriveWritesItsPlan(s: Engine, id: Id, night: Night)
    requires id < |s.rows|
    ensures var u, traces, plan := DriveOne(s, id, night).traces, RepairedFor(s, id, night), night.plans(id);
            if !Walks(s, id, night) then u == traces
            else
              var sampler := if plan.sampling.Seeded? then Some(plan.sampling.sampler) else None;
              var job := Job(id, plan.campaign, plan.inTest, plan.target.recipients,
                             plan.policy.(sampler := sampler), night.budget);
              && u == Pass(traces, job, night.seams(id)).table
              && forall k: Id :: |s.traces| <= k < |u| ==> u[k].mailing == id && u[k].campaign == plan.campaign
  {
    if Walks(s, id, night) {
      var traces, job := RepairedFor(s, id, night), JobOf(id, night);
      forall k: Id | |traces| <= k < |Pass(traces, job, night.seams(id)).table|
        ensures Pass(traces, job, night.seams(id)).table[k].mailing == id
        ensures Pass(traces, job, night.seams(id)).table[k].campaign == job.campaign
      {
        PassWrites(traces, job, night.seams(id), k);
      }
    }
  }

  // ----- isolation -------------------------------------------------------------------------

  /** A drive that does not reach the walk. */
  predicate Spoiled(s: Engine, id: Id, night: Night)
    requires id < |s.rows|
  {
    !EndIn(s, id, night).Walked?
  }

  /** The two tables agree, up to the mail links of this mailing's own traces. */
  ghost predicate LinkedApart(a: Table, b: Table, id: Id) {
    |a| == |b| && forall i :: 0 <= i < |a| ==> if a[i].mailing == id then OnlyLinks(a[i], b[i]) else b[i] == a[i]
  }

  /** The two states agree on every mailing row but this one's, and on every trace up to its own mail links. */
  ghost predicate AgreeExcept(a: Engine, b: Engine, id: Id) {
    && LinkedApart(a.traces, b.traces, id)
    && |a.rows| == |b.rows| && forall m: Id :: m < |a.rows| && m != id ==> a.rows[m] == b.rows[m]
  }

  /** A drive that does not reach the walk adds no trace and touches no other mailing. */
  lemma {:induction false} SpoiledDriveIsLocal(s: Engine, id: Id, night: Night)
    requires id < |s.rows| && Spoiled(s, id, night)
    ensures AgreeExcept(s, DriveOne(s, id, night), id)
  {
    RepairOnlyLinks(s.traces, id, night.births, night.now, night.seams(id));
  }

  lemma {:induction false} RepairsAgree(a: Engine, b: Engine, x: Id, night: Night, id: Id)
    requires AgreeExcept(a, b, id) && x < |a.rows| && x != id
    ensures LinkedApart(RepairedFor(a, x, night), RepairedFor(b, x, night), id)
  {
    RepairOnlyLinks(a.traces, x, night.births, night.now, night.seams(x));
    RepairOnlyLinks(b.traces, x, night.births, night.now, night.seams(x));
    forall i | 0 <= i < |a.traces| && a.traces[i].mailing == x
      ensures RepairedFor(b, x, night)[i] == RepairedFor(a, x, night)[i]
    {
      assert b.traces[i] == a.traces[i];
      assert IsOrphan(a.traces, i, x, night.births, night.now) == IsOrphan(b.traces, i, x, night.births, night.now);
    }
  }

  /** Tables that agree so far still do after a pass of another mailing, which plans the same in both. */
  lemma {:induction false} PassesAgree(a: Table, b: Table, job: Job, seam: Seam, id: Id)
    requires LinkedApart(a, b, id) && job.mailing != id
    ensures Pass(a, job, seam).remaining == Pass(b, job, seam).remaining
    ensures LinkedApart(Pass(a, job, seam).table, Pass(b, job, seam).table, id)
  {
    LinksLeaveThePass(a, b, job, seam);
    PassAddsItsOwn(a, job, seam);
  }

  /** Another mailing's drive ends alike in both, and leaves them agreeing. */
  lemma {:induction false} DriveAgrees(a: Engine, b: Engine, x: Id, night: Night, id: Id)
    requires AgreeExcept(a, b, id) && x < |a.rows| && x != id
    ensures EndIn(a, x, night) == EndIn(b, x, night)
    ensures AgreeExcept(DriveOne(a, x, night), DriveOne(b, x, night), id)
  {
    RepairsAgree(a, b, x, night, id);
    if night.plans(x).target.Resolved? {
      PassesAgree(RepairedFor(a, x, night), RepairedFor(b, x, night), JobOf(x, night), night.seams(x), id);
    }
  }

  lemma {:induction false} DrivesAgree(a: Engine, b: Engine, ids: seq<Id>, night: Night, id: Id)
    requires AgreeExcept(a, b, id) && InRange(ids, |a.rows|) && id !in ids
    ensures AgreeExcept(DriveEach(a, ids, night), DriveEach(b, ids, night), id)
  {
    if ids != [] {
      var n := |ids| - 1;
      DrivesAgree(a, b, ids[..n], night, id);
      DriveAgrees(DriveEach(a, ids[..n], night), DriveEach(b, ids[..n], night), ids[n], night, id);
    }
  }

  /** And every other mailing's drive reports the same. */
  lemma {:induction false} BucketsAgree(a: Engine, b: Engine, ids: seq<Id>, night: Night, id: Id, bucket: Bucket)
    requires AgreeExcept(a, b, id) && InRange(ids, |a.rows|) && id !in ids
    ensures InBucket(a, ids, night, bucket) == InBucket(b, ids, night, bucket)
  {
    if ids != [] {
      var n := |ids| - 1;
      BucketsAgree(a, b, ids[..n], night, id, bucket);
      DrivesAgree(a, b, ids[..n], night, id);
      DriveAgrees(DriveEach(a, ids[..n], night), DriveEach(b, ids[..n], night), ids[n], night, id);
    }
  }

  lemma {:induction false} DriveEachAppend(s: Engine, a: seq<Id>, b: seq<Id>, night: Night)
    requires InRange(a, |s.rows|) && InRange(b, |s.rows|)
    ensures InRange(a + b, |s.rows|)
    ensures DriveEach(s, a + b, night) == DriveEach(DriveEach(s, a, night), b, night)
  {
    if b == [] {
      assert a + b == a;
    } else {
      assert (a + b)[..|a + b| - 1] == a + b[..|b| - 1];
      DriveEachAppend(s, a, b[..|b| - 1], night);
    }
  }

  /**
   * Isolation: put a mailing whose drive fails (or is refused, or finds nobody) anywhere in the
   * sweep's order. Every other mailing, and the whole trace table up to mail links its repair arm gave
   * its own traces, end up as without it, and the mailings after it report the same ends.
   */
  lemma {:induction false} FailureIsIsolated(s: Engine, a: seq<Id>, bad: Id, b: seq<Id>, night: Night)
    requires InRange(a, |s.rows|) && InRange(b, |s.rows|) && bad < |s.rows| && bad !in a + b
    requires Spoiled(DriveEach(s, a, night), bad, night)
    ensures InRange(a + [bad] + b, |s.rows|) && InRange(a + b, |s.rows|)
    ensures AgreeExcept(DriveEach(s, a + b, night), DriveEach(s, a + [bad] + b, night), bad)
    ensures forall bucket ::
              InBucket(DriveEach(s, a, night), b, night, bucket)
              == InBucket(DriveOne(DriveEach(s, a, night), bad, night), b, night, bucket)
  {
    DriveEachAppend(s, a + [bad], b, night);
    DriveEachAppend(s, a, [bad], night);
    DriveEachAppend(s, a, b, night);
    var mid := DriveEach(s, a, night);
    assert [bad][..0] == [];
    assert DriveEach(mid, [bad], night) == DriveOne(DriveEach(mid, [bad][..0], night), bad, night);
    SpoiledDriveIsLocal(mid, bad, night);
    DrivesAgree(mid, DriveOne(mid, bad, night), b, night, bad);
    forall bucket
      ensures InBucket(mid, b, night, bucket) == InBucket(DriveOne(mid, bad, night), b, night, bucket)
    {
      BucketsAgree(mid, DriveOne(mid, bad, night), b, night, bad, bucket);
    }
  }

  // ----- vetting, and the whole sweep as a function ----------------------------------------

  function VetOne(row: M.Mailing, plan: Plan, now: Time): M.Mailing {
    M.Apply(if plan.parseError.Some? then M.Park(plan.parseError.value) else M.FlipSending, row, now)
  }

  /** Inside the claim transaction: flip what parses, park what does not. */
  function Vetted(rows: seq<M.Mailing>, claims: seq<Id>, night: Night): seq<M.Mailing> {
    seq(|rows|, i requires 0 <= i < |rows| =>
      if i in claims then VetOne(rows[i], night.plans(i), night.now) else rows[i])
  }

  function Parses(night: Night): Id -> bool {
    (id: Id) => night.plans(id).parseError.None?
  }

  function Unparsed(night: Night): Id -> bool {
    (id: Id) => night.plans(id).parseError.Some?
  }

  /** The claims that reach the drive loop. */
  function Driven(claims: seq<Id>, night: Night): seq<Id> {
    Filter(claims, Parses(night))
  }

  /** One more claim vetted: its own row moves, and it is counted on one side. */
  lemma {:induction false} VetStep(rows: seq<M.Mailing>, claims: seq<Id>, i: nat, night: Night)
    requires i < |claims| && claims[i] < |rows| && NoRepeats(claims)
    ensures Vetted(rows, claims[..i], night)[claims[i]] == rows[claims[i]]
    ensures Vetted(rows, claims[..i + 1], night)
         == Vetted(rows, claims[..i], night)[claims[i] := VetOne(rows[claims[i]], night.plans(claims[i]), night.now)]
    ensures |Driven(claims[..i + 1], night)|
         == |Driven(claims[..i], night)| + (if Parses(night)(claims[i]) then 1 else 0)
    ensures Count(claims[..i + 1], Unparsed(night))
         == Count(claims[..i], Unparsed(night)) + (if Unparsed(night)(claims[i]) then 1 else 0)
  {
    var id := claims[i];
    assert claims[..i + 1] == claims[..i] + [id];
    FilterAppend(claims[..i], id, Parses(night));
    CountAppend(claims[..i], [id], Unparsed(night));
    assert [id][1..] == [];
    assert id !in claims[..i];
  }

  lemma {:induction false} FilterSelects<T>(s: seq<T>, p: T -> bool)
    ensures forall x :: x in Filter(s, p) <==> x in s && p(x)
    ensures (forall i, j :: 0 <= i < j < |s| ==> s[i] != s[j]) ==>
              forall i, j :: 0 <= i < j < |Filter(s, p)| ==> Filter(s, p)[i] != Filter(s, p)[j]
  {
    if s != [] {
      FilterSelects(s[1..], p);
      if forall i, j :: 0 <= i < j < |s| ==> s[i] != s[j] {
        assert forall i, j :: 0 <= i < j < |s[1..]| ==> s[1..][i] == s[i + 1] && s[1..][j] == s[j + 1];
        assert s[0] !in s[1..];
      }
    }
  }

  lemma {:induction false} DrivenInRange(claims: seq<Id>, night: Night, n: nat)
    requires InRange(claims, n)
    ensures InRange(Driven(claims, night), n)
    ensures |Driven(claims, night)| <= |claims|
  {
    if claims != [] {
      DrivenInRange(claims[1..], night, n);
    }
  }

  ghost function Swept(s: Engine, claims: seq<Id>, night: Night): (r: Engine)
    requires InRange(claims, |s.rows|)
    ensures |r.rows| == |s.rows|
  {
    DrivenInRange(claims, night, |s.rows|);
    DriveEach(Engine(Vetted(s.rows, claims, night), s.traces), Driven(claims, night), night)
  }

  // ----- the sweep as the source runs it ---------------------------------------------------

  datatype SweepOutcome = SweepOutcome(
    claimed: nat, parked: nat, driveFailures: nat, completed: nat, completedEmpty: nat, stillSending: nat)

  predicate Drivable(row: M.Mailing) {
    row.state.Sending? && !row.deleted
  }

  /** How many drives failed and were parked by the sweep itself. */
  function Failures(s: Engine, ids: seq<Id>, night: Night): nat
    requires InRange(ids, |s.rows|)
  {
    if ids == [] then 0
    else
      var before := ids[..|ids| - 1];
      Failures(s, before, night)
      + if EndIn(DriveEach(s, before, night), ids[|ids| - 1], night).FailedWith? then 1 else 0
  }

  /** The outcome counts each bucket, plus the claims parked while vetting. */
  ghost predicate Reports(out: SweepOutcome, s: Engine, ids: seq<Id>, claimed: nat, parsePark: nat, night: Night)
    requires InRange(ids, |s.rows|)
  {
    && out.claimed == claimed
    && out.parked == parsePark + InBucket(s, ids, night, InPark)
    && out.driveFailures == Failures(s, ids, night)
    && out.completed == InBucket(s, ids, night, Bucket.Done)
    && out.completedEmpty == InBucket(s, ids, night, DoneEmpty)
    && out.stillSending == InBucket(s, ids, night, StillSending)
  }

  function Tallied(out: SweepOutcome, bucket: Bucket, failed: bool): SweepOutcome {
    var o := out.(driveFailures := out.driveFailures + if failed then 1 else 0);
    match bucket
    case InPark => o.(parked := out.parked + 1)
    case Done => o.(completed := out.completed + 1)
    case DoneEmpty => o.(completedEmpty := out.completedEmpty + 1)
    case StillSending => o.(stillSending := out.stillSending + 1)
    case SmsWalkedOut => o
  }

  lemma {:induction false} BucketStep(s: Engine, ids: seq<Id>, id: Id, night: Night, bucket: Bucket)
    requires InRange(ids, |s.rows|) && id < |s.rows|
    ensures InRange(ids + [id], |s.rows|)
    ensures InBucket(s, ids + [id], night, bucket)
         == InBucket(s, ids, night, bucket)
            + if BucketOf(EndIn(DriveEach(s, ids, night), id, night)) == bucket then 1 else 0
  {
    assert (ids + [id])[..|ids|] == ids;
  }

  lemma {:induction false} DriveStep(s: Engine, ids: seq<Id>, id: Id, night: Night)
    requires InRange(ids, |s.rows|) && id < |s.rows|
    ensures InRange(ids + [id], |s.rows|)
    ensures DriveEach(s, ids + [id], night) == DriveOne(DriveEach(s, ids, night), id, night)
    ensures Failures(s, ids + [id], night)
         == Failures(s, ids, night) + if EndIn(DriveEach(s, ids, night), id, night).FailedWith? then 1 else 0
  {
    assert (ids + [id])[..|ids|] == ids;
  }

  lemma {:induction false} ReportStep(out: SweepOutcome, s: Engine, ids: seq<Id>, id: Id, end: End, claimed: nat,
          parsePark: nat, night: Night)
    requires InRange(ids, |s.rows|) && id < |s.rows|
    requires Reports(out, s, ids, claimed, parsePark, night) && end == EndIn(DriveEach(s, ids, night), id, night)
    ensures && InRange(ids + [id], |s.rows|)
            && DriveEach(s, ids + [id], night) == DriveOne(DriveEach(s, ids, night), id, night)
            && Reports(Tallied(out, BucketOf(end), end.FailedWith?), s, ids + [id], claimed, parsePark, night)
  {
    DriveStep(s, ids, id, night);
    BucketStep(s, ids, id, night, InPark);
    BucketStep(s, ids, id, night, Bucket.Done);
    BucketStep(s, ids, id, night, DoneEmpty);
    BucketStep(s, ids, id, night, StillSending);
  }

  // ----- the counters, read off the rows ---------------------------------------------------

  /** The mailings whose row shows this end: done, for somebody or for nobody, parked, or still sending. */
  function Shows(rows: seq<M.Mailing>, night: Night, bucket: Bucket): Id -> bool {
    (id: Id) =>
      && id < |rows|
      && match bucket
         case Done => rows[id].state == M.State.Done && night.plans(id).target != Resolved([])
         case DoneEmpty => rows[id].state == M.State.Done && night.plans(id).target == Resolved([])
         case InPark => rows[id].sendError.Some?
         case StillSending => rows[id].state == M.Sending && rows[id].sendError.None? && !rows[id].isSms
         case SmsWalkedOut => rows[id].state == M.Sending && rows[id].sendError.None? && rows[id].isSms
  }

  /** The mailings no drive could be completed for: no scope, no answer from the resolver, too many recipients. */
  function FailsToDrive(rows: seq<M.Mailing>, night: Night): Id -> bool {
    (id: Id) =>
      && id < |rows| && night.plans(id).parseError.None?
      && var plan := night.plans(id);
         || plan.scopeError.Some?
         || (!rows[id].isSms && (plan.target.ResolverFailed?
                                 || (plan.target.Resolved? && |plan.target.recipients| >= night.hardCap)))
  }

  lemma {:induction false} CountAgrees(ids: seq<Id>, p: Id -> bool, q: Id -> bool)
    requires forall id :: id in ids ==> p(id) == q(id)
    ensures Count(ids, p) == Count(ids, q)
  {
    if ids != [] {
      CountAgrees(ids[1..], p, q);
    }
  }

  lemma {:induction false} CountLast(before: seq<Id>, last: Id, p: Id -> bool)
    ensures Count(before + [last], p) == Count(before, p) + if p(last) then 1 else 0
  {
    CountAppend(before, [last], p);
    assert [last][1..] == [];
  }

  /** A driven mailing's row shows the bucket its drive reported, and no other. */
  lemma {:induction false} DriveShows(s: Engine, id: Id, night: Night, bucket: Bucket)
    requires id < |s.rows| && Drivable(s.rows[id]) && s.rows[id].sendError.None?
    ensures Shows(DriveOne(s, id, night).rows, night, bucket)(id) <==> BucketOf(EndIn(s, id, night)) == bucket
  {
    DriveTellsTheRow(s, id, night);
    DriveEndsIff(s, id, night);
  }

  lemma {:induction false} OneMoreShows(s: Engine, before: seq<Id>, last: Id, night: Night, bucket: Bucket)
    requires InRange(before, |s.rows|) && last < |s.rows| && last !in before
    requires Drivable(s.rows[last]) && s.rows[last].sendError.None?
    requires Count(before, Shows(DriveEach(s, before, night).rows, night, bucket)) == InBucket(s, before, night, bucket)
    ensures InRange(before + [last], |s.rows|)
    ensures Count(before + [last], Shows(DriveEach(s, before + [last], night).rows, night, bucket))
         == InBucket(s, before + [last], night, bucket)
  {
    var mid := DriveEach(s, before, night);
    var rows := DriveOne(mid, last, night).rows;
    DrivesStayInTheirRows(s, before, night, last);
    DriveTellsTheRow(mid, last, night);
    DriveShows(mid, last, night, bucket);
    BucketStep(s, before, last, night, bucket);
    DriveStep(s, before, last, night);
    CountAgrees(before, Shows(mid.rows, night, bucket), Shows(rows, night, bucket));
    CountLast(before, last, Shows(rows, night, bucket));
  }

  /** What the drives report is what the rows of the driven mailings show. */
  lemma {:induction false} BucketsAreTheRows(s: Engine, ids: seq<Id>, night: Night, bucket: Bucket)
    requires InRange(ids, |s.rows|) && NoRepeats(ids)
    requires forall id :: id in ids ==> Drivable(s.rows[id]) && s.rows[id].sendError.None?
    ensures Count(ids, Shows(DriveEach(s, ids, night).rows, night, bucket)) == InBucket(s, ids, night, bucket)
  {
    if ids != [] {
      var before, last := ids[..|ids| - 1], ids[|ids| - 1];
      BucketsAreTheRows(s, before, night, bucket);
      assert ids == before + [last];
      OneMoreShows(s, before, last, night, bucket);
    }
  }

  lemma {:induction false} OneMoreFails(s: Engine, before: seq<Id>, last: Id, night: Night)
    requires InRange(before, |s.rows|) && last < |s.rows| && last !in before
    requires Drivable(s.rows[last]) && night.plans(last).parseError.None?
    requires Failures(s, before, night) == Count(before, FailsToDrive(s.rows, night))
    ensures InRange(before + [last], |s.rows|)
    ensures Failures(s, before + [last], night) == Count(before + [last], FailsToDrive(s.rows, night))
  {
    DrivesStayInTheirRows(s, before, night, last);
    DriveEndsIff(DriveEach(s, before, night), last, night);
    DriveStep(s, before, last, night);
    CountLast(before, last, FailsToDrive(s.rows, night));
  }

  lemma {:induction false} FailuresAreThePlans(s: Engine, ids: seq<Id>, night: Night)
    requires InRange(ids, |s.rows|) && NoRepeats(ids)
    requires forall id :: id in ids ==> Drivable(s.rows[id]) && night.plans(id).parseError.None?
    ensures Failures(s, ids, night) == Count(ids, FailsToDrive(s.rows, night))
  {
    if ids != [] {
      var before, last := ids[..|ids| - 1], ids[|ids| - 1];
      FailuresAreThePlans(s, before, night);
      assert ids == before + [last];
      OneMoreFails(s, before, last, night);
    }
  }

  /** Counting over all claims, when the ones set aside all answer alike. */
  lemma {:induction false} CountFiltered(ids: seq<Id>, kept: Id -> bool, aside: Id -> bool, p: Id -> bool, all: bool)
    requires forall id :: id in ids ==> kept(id) != aside(id) && (aside(id) ==> p(id) == all)
    ensures Count(ids, p) == Count(Filter(ids, kept), p) + if all then Count(ids, aside) else 0
  {
    if ids != [] {
      CountFiltered(ids[1..], kept, aside, p, all);
    }
  }

  /** Vetting makes a claim drivable and unparked, or parks it; its channel stays. */
  lemma {:induction false} VettedEither(rows: seq<M.Mailing>, claims: seq<Id>, night: Night, id: Id)
    requires id < |rows| && id in claims && MayGoOut(rows[id], night.now)
    ensures var row := Vetted(rows, claims, night)[id];
            && row.state == M.Sending && !row.deleted && row.isSms == rows[id].isSms
            && (row.sendError.Some? <==> Unparsed(night)(id))
  {}

  lemma {:induction false} DrivenAreDrivable(rows: seq<M.Mailing>, claims: seq<Id>, night: Night)
    requires InRange(claims, |rows|) && NoRepeats(claims)
    requires forall id :: id in claims ==> MayGoOut(rows[id], night.now)
    ensures InRange(Driven(claims, night), |rows|) && NoRepeats(Driven(claims, night))
    ensures forall id :: id in Driven(claims, night) ==>
              && id in claims && night.plans(id).parseError.None?
              && Drivable(Vetted(rows, claims, night)[id]) && Vetted(rows, claims, night)[id].sendError.None?
  {
    DrivenInRange(claims, night, |rows|);
    FilterSelects(claims, Parses(night));
    forall id | id in Driven(claims, night)
      ensures Drivable(Vetted(rows, claims, night)[id]) && Vetted(rows, claims, night)[id].sendError.None?
    {
      VettedEither(rows, claims, night, id);
    }
  }

  /** Over all claims: each end, counted by the rows. */
  lemma {:induction false} ClaimsEnd(rows: seq<M.Mailing>, traces: Table, claims: seq<Id>, night: Night, bucket: Bucket)
    requires InRange(claims, |rows|) && NoRepeats(claims)
    requires forall id :: id in claims ==> MayGoOut(rows[id], night.now)
    ensures InRange(Driven(claims, night), |rows|)
    ensures var vetted, driven := Engine(Vetted(rows, claims, night), traces), Driven(claims, night);
            Count(claims, Shows(DriveEach(vetted, driven, night).rows, night, bucket))
            == InBucket(vetted, driven, night, bucket) + if bucket.InPark? then Count(claims, Unparsed(night)) else 0
  {
    var vetted, driven := Engine(Vetted(rows, claims, night), traces), Driven(claims, night);
    DrivenAreDrivable(rows, claims, night);
    BucketsAreTheRows(vetted, driven, night, bucket);
    var p := Shows(DriveEach(vetted, driven, night).rows, night, bucket);
    forall id | id in claims && Unparsed(night)(id)
      ensures p(id) == bucket.InPark?
    {
      VettedEither(rows, claims, night, id);
      DrivesStayInTheirRows(vetted, driven, night, id);
    }
    CountFiltered(claims, Parses(night), Unparsed(night), p, bucket.InPark?);
  }

  lemma {:induction false} ClaimsFail(rows: seq<M.Mailing>, traces: Table, claims: seq<Id>, night: Night)
    requires InRange(claims, |rows|) && NoRepeats(claims)
    requires forall id :: id in claims ==> MayGoOut(rows[id], night.now)
    ensures InRange(Driven(claims, night), |rows|)
    ensures Failures(Engine(Vetted(rows, claims, night), traces), Driven(claims, night), night)
         == Count(claims, FailsToDrive(rows, night))
  {
    var vetted, driven := Engine(Vetted(rows, claims, night), traces), Driven(claims, night);
    DrivenAreDrivable(rows, claims, night);
    FailuresAreThePlans(vetted, driven, night);
    forall id | id in driven
      ensures FailsToDrive(vetted.rows, night)(id) == FailsToDrive(rows, night)(id)
    {
      VettedEither(rows, claims, night, id);
    }
    CountAgrees(driven, FailsToDrive(vetted.rows, night), FailsToDrive(rows, night));
    CountFiltered(claims, Parses(night), Unparsed(night), FailsToDrive(rows, night), false);
  }

  class SendSweep {
    const mailings: M.MailingRepository
    const sender: MailSender

    constructor (mailings: M.MailingRepository, sender: MailSender)
      ensures this.mailings == mailings && this.sender == sender
    {
      this.mailings := mailings;
      this.sender := sender;
    }

    function State(): Engine
      reads mailings, sender.traces
    {
      Engine(mailings.rows, sender.traces.rows)
    }

    /** Steps (2) to (6), once the repair arm has run: resolve, walk, send, and complete or stay. */
    method DriveRepaired(id: Id, night: Night, ghost start: Engine) returns (r: Result<Bucket, string>)
      requires id < |start.rows| && Drivable(start.rows[id]) && !start.rows[id].isSms
      requires night.plans(id).scopeError.None?
      requires mailings.rows == start.rows && sender.traces.rows == RepairedFor(start, id, night)
      modifies mailings, sender.traces
      ensures r.Ok? ==> State() == DriveOne(start, id, night) && r.value == BucketOf(EndIn(start, id, night))
      ensures r.Err? ==> mailings.rows == start.rows && sender.traces.rows == RepairedFor(start, id, night)
      ensures r.Err? ==> EndIn(start, id, night) == FailedWith(r.error)
      ensures r.Ok? ==> !EndIn(start, id, night).FailedWith?
      ensures r.Ok? ==> RowTells(start.rows[id], mailings.rows[id], r.value, night.now)
    {
      DriveTellsTheRow(start, id, night);
      var plan := night.plans(id);
      match plan.target
      case UnknownModel(_) =>
        var moved := mailings.Execute(id, M.Park(UNKNOWN_MODEL), night.now);
        assert mailings.rows == DriveOne(start, id, night).rows;
        return Ok(InPark);
      case NoResolver(_) =>
        var moved := mailings.Execute(id, M.Park(NO_RESOLVER), night.now);
        assert mailings.rows == DriveOne(start, id, night).rows;
        return Ok(InPark);
      case ResolverFailed(why) =>
        return Err(why);
      case Resolved(recipients) =>
        if |recipients| >= night.hardCap {
          return Err(HARD_CAP);
        }
        if recipients == [] {
          var flipped := mailings.Execute(id, M.CompleteNobody, night.now);
          assert mailings.rows == DriveOne(start, id, night).rows;
          return Ok(DoneEmpty);
        }
        if plan.sampling.SeedMissing? || plan.sampling.NoTestBound? {
          var moved := mailings.Execute(id, M.Park(if plan.sampling.SeedMissing? then NO_SEED else NO_TEST), night.now);
          assert mailings.rows == DriveOne(start, id, night).rows;
          return Ok(InPark);
        }
        var tally, minted, enqueued, fenceSkips, remaining := sender.DrivePass(JobOf(id, night), night.seams(id));
        if remaining > 0 {
          assert start.rows[id := start.rows[id]] == start.rows;
          return Ok(StillSending);
        }
        var flipped := mailings.Execute(id, M.CompleteWalk, night.now);
        assert mailings.rows == DriveOne(start, id, night).rows;
        return Ok(Bucket.Done);
    }

    /**
     * The channel guard, the repair arm and steps (2) to (6) for one claimed mailing. An error leaves
     * the mailing as it was, and of the traces touches only the repaired links of its own.
     */
    method DriveMailing(id: Id, night: Night) returns (r: Result<Bucket, string>)
      requires id < |mailings.rows| && Drivable(mailings.rows[id]) && night.plans(id).scopeError.None?
      modifies mailings, sender.traces
      ensures r.Ok? ==>
                State() == DriveOne(old(State()), id, night) && r.value == BucketOf(EndIn(old(State()), id, night))
      ensures r.Err? ==>
                mailings.rows == old(mailings.rows) && sender.traces.rows == RepairedFor(old(State()), id, night)
      ensures r.Err? ==> EndIn(old(State()), id, night) == FailedWith(r.error)
      ensures r.Ok? ==> !EndIn(old(State()), id, night).FailedWith?
      ensures r.Ok? ==> RowTells(old(mailings.rows)[id], mailings.rows[id], r.value, night.now)
    {
      ghost var start := State();
      DriveTellsTheRow(start, id, night);
      var plan, row := night.plans(id), mailings.rows[id];
      if row.isSms {
        if row.walkDone {
          assert start.rows[id := row] == start.rows;
          return Ok(SmsWalkedOut);
        }
        var moved := mailings.Execute(id, M.Park(SMS_NOT_COMPOSED), night.now);
        assert mailings.rows == DriveOne(start, id, night).rows;
        return Ok(InPark);
      }
      var orphans := OrphanIds(sender.traces.rows, |sender.traces.rows|, id, night.births, night.now);
      OrphanIdsAreExact(sender.traces.rows, |sender.traces.rows|, id, night.births, night.now);
      var repaired := sender.RepairOrphans(id, orphans, night.births, night.now, night.seams(id));
      r := DriveRepaired(id, night, start);
    }

    /** The claim transaction: claim, then flip or park each claim by its parse. */
    method ClaimAndVet(limit: nat, night: Night) returns (claims: seq<Id>, parked: nat)
      modifies mailings
      ensures claims == Claims(old(mailings.rows), night.now, limit)
      ensures mailings.rows == Vetted(old(mailings.rows), claims, night)
      ensures |mailings.rows| == |old(mailings.rows)|
      ensures forall i: Id :: i < |mailings.rows| ==>
                var a, b, error := old(mailings.rows)[i], mailings.rows[i], night.plans(i).parseError;
                if i !in claims then b == a
                else if error.None? then b == a.(state := M.Sending)
                else b == a.(state := M.Sending, sendError := error)
      ensures parked == Count(claims, Unparsed(night)) && parked + |Driven(claims, night)| == |claims|
    {
      ghost var start := mailings.rows;
      claims := Claims(mailings.rows, night.now, limit);
      ClaimIsSound(start, night.now, limit);
      parked := 0;
      for i := 0 to |claims|
        invariant claims == Claims(start, night.now, limit)
        invariant mailings.rows == Vetted(start, claims[..i], night)
        invariant parked == Count(claims[..i], Unparsed(night)) && parked + |Driven(claims[..i], night)| == i
      {
        var id := claims[i];
        VetStep(start, claims, i, night);
        var error := night.plans(id).parseError;
        if error.None? {
          var flipped := mailings.Execute(id, M.FlipSending, night.now);
        } else {
          var moved := mailings.Execute(id, M.Park(error.value), night.now);
          parked := parked + 1;
        }
        assert mailings.rows == Vetted(start, claims[..i], night)[id := VetOne(start[id], night.plans(id), night.now)];
      }
      assert claims[..|claims|] == claims;
    }

    /** One turn of the drive loop: run the drive in its scope; whatever it could not do, park. */
    method DriveOrPark(id: Id, night: Night) returns (bucket: Bucket, failed: bool)
      requires id < |mailings.rows| && Drivable(mailings.rows[id])
      modifies mailings, sender.traces
      ensures State() == DriveOne(old(State()), id, night)
      ensures bucket == BucketOf(EndIn(old(State()), id, night))
      ensures failed <==> EndIn(old(State()), id, night).FailedWith?
      ensures RowTells(old(mailings.rows)[id], mailings.rows[id], bucket, night.now)
      ensures failed ==> bucket == InPark && mailings.rows[id].sendError == ParkReason(old(State()), id, night)
    {
      ghost var before := State();
      DriveTellsTheRow(before, id, night);
      DriveEndsIff(before, id, night);
      bucket, failed := InPark, false;
      var failure := night.plans(id).scopeError;
      if failure.None? {
        var driven := DriveMailing(id, night);
        if driven.Ok? {
          bucket := driven.value;
          return;
        }
        failure := Some(driven.error);
      }
      failed := true;
      var moved := mailings.Execute(id, M.Park(failure.value), night.now);
      assert mailings.rows == DriveOne(before, id, night).rows;
    }

    /** The drive loop over the claims that parsed, one turn each. */
    method DriveClaims(claims: seq<Id>, parsePark: nat, night: Night) returns (out: SweepOutcome)
      requires InRange(claims, |mailings.rows|) && NoRepeats(claims)
      requires forall id :: id in claims && night.plans(id).parseError.None? ==> Drivable(mailings.rows[id])
      modifies mailings, sender.traces
      ensures InRange(Driven(claims, night), |old(mailings.rows)|)
      ensures State() == DriveEach(old(State()), Driven(claims, night), night)
      ensures Reports(out, old(State()), Driven(claims, night), |claims|, parsePark, night)
    {
      ghost var vetted := State();
      out := SweepOutcome(|claims|, parsePark, 0, 0, 0, 0);
      ghost var done: seq<Id> := [];
      for i := 0 to |claims|
        invariant done == Driven(claims[..i], night) && InRange(done, |vetted.rows|)
        invariant forall id :: id in done ==> id in claims[..i]
        invariant State() == DriveEach(vetted, done, night)
        invariant Reports(out, vetted, done, |claims|, parsePark, night)
      {
        var id := claims[i];
        assert claims[..i + 1] == claims[..i] + [id];
        FilterAppend(claims[..i], id, Parses(night));
        assert id !in claims[..i];
        if night.plans(id).parseError.None? {
          DrivesStayInTheirRows(vetted, done, night, id);
          var bucket, failed := DriveOrPark(id, night);
          ReportStep(out, vetted, done, id, EndIn(DriveEach(vetted, done, night), id, night), |claims|, parsePark,
              night);
          out := Tallied(out, bucket, failed);
          done := done + [id];
        }
      }
      assert claims[..|claims|] == claims;
    }

    /**
     * One sweep, steps (1) to (6). It is the fold of the drives over the vetted claims, and every
     * claim lands in exactly one place: parked, completed, completed empty, still sending, or an
     * sms mailing whose walk is over.
     */
    method SendQueueSweep(limit: nat, night: Night) returns (out: SweepOutcome)
      modifies mailings, sender.traces
      ensures var claims := Claims(old(mailings.rows), night.now, limit);
              && out.claimed == |claims|
              && InRange(claims, |old(mailings.rows)|)
              && State() == Swept(old(State()), claims, night)
              && InRange(Driven(claims, night), |old(mailings.rows)|)
              && var vetted := Engine(Vetted(old(mailings.rows), claims, night), old(sender.traces.rows));
                 && Reports(out, vetted, Driven(claims, night), |claims|, Count(claims, Unparsed(night)), night)
                 && out.claimed == out.parked + out.completed + out.completedEmpty + out.stillSending
                                   + InBucket(vetted, Driven(claims, night), night, SmsWalkedOut)
                 && out.completed == Count(claims, Shows(mailings.rows, night, Bucket.Done))
                 && out.completedEmpty == Count(claims, Shows(mailings.rows, night, DoneEmpty))
                 && out.stillSending == Count(claims, Shows(mailings.rows, night, StillSending))
                 && out.parked == Count(claims, Shows(mailings.rows, night, InPark))
                 && out.driveFailures == Count(claims, FailsToDrive(old(mailings.rows), night))
    {
      ghost var start := State();
      var claims, parsePark := ClaimAndVet(limit, night);
      ClaimIsSound(start.rows, night.now, limit);
      ghost var vetted := State();
      forall id | id in claims && night.plans(id).parseError.None?
        ensures Drivable(vetted.rows[id])
      {
        assert vetted.rows[id] == VetOne(start.rows[id], night.plans(id), night.now);
      }
      out := DriveClaims(claims, parsePark, night);
      BucketsPartition(vetted, Driven(claims, night), night);
      ClaimsEnd(start.rows, start.traces, claims, night, Bucket.Done);
      ClaimsEnd(start.rows, start.traces, claims, night, DoneEmpty);
      ClaimsEnd(start.rows, start.traces, claims, night, StillSending);
      ClaimsEnd(start.rows, start.traces, claims, night, InPark);
      ClaimsFail(start.rows, start.traces, claims, night);
    }
  }

  // ----- runs of sweeps and verbs ----------------------------------------------------------

  datatype Move = Sweeping(limit: nat, night: Night) | Verb(id: Id, write: M.Write, at: Time)

  ghost function AfterMove(s: Engine, mv: Move): (r: Engine)
    ensures |r.rows| == |s.rows|
  {
    match mv
    case Sweeping(limit, night) =>
      ClaimIsSound(s.rows, night.now, limit);
      Swept(s, Claims(s.rows, night.now, limit), night)
    case Verb(id, write, at) =>
      if id < |s.rows| then Engine(s.rows[id := M.Apply(write, s.rows[id], at)], s.traces) else s
  }

  ghost function RunMoves(s: Engine, moves: seq<Move>): (r: Engine)
    ensures |r.rows| == |s.rows|
    decreases |moves|
  {
    if moves == [] then s else RunMoves(AfterMove(s, moves[0]), moves[1..])
  }

  /** The mailing's own traces stand untouched, it gains none, and every other trace keeps all but a link. */
  ghost predicate LeavesAlone(a: Table, b: Table, mailing: Id) {
    && |a| <= |b|
    && (forall i :: 0 <= i < |a| ==> if a[i].mailing == mailing then b[i] == a[i] else OnlyLinks(a[i], b[i]))
    && (forall i :: |a| <= i < |b| ==> b[i].mailing != mailing)
  }

  lemma {:induction false} SweepSparesParked(s: Engine, limit: nat, night: Night, m: Id)
    requires m < |s.rows| && s.rows[m].sendError.Some?
    ensures var u := AfterMove(s, Sweeping(limit, night));
            u.rows[m] == s.rows[m] && LeavesAlone(s.traces, u.traces, m)
  {
    var claims := Claims(s.rows, night.now, limit);
    ClaimIsSound(s.rows, night.now, limit);
    assert m !in claims;
    DrivenInRange(claims, night, |s.rows|);
    FilterSelects(claims, Parses(night));
    var driven := Driven(claims, night);
    var vetted := Engine(Vetted(s.rows, claims, night), s.traces);
    DrivesStayInTheirRows(vetted, driven, night, m);
    DrivesAddTheirOwnTraces(vetted, driven, night);
  }

  lemma {:induction false} LeavingAloneComposes(a: Table, b: Table, c: Table, mailing: Id)
    requires LeavesAlone(a, b, mailing) && LeavesAlone(b, c, mailing)
    ensures LeavesAlone(a, c, mailing)
  {}

  /**
   * A parked mailing mints nothing, in any run of sweeps and operator verbs, until a verb unparks it:
   * it keeps its error, its traces stand untouched, and no trace of it is added.
   */
  lemma {:induction false} ParkedMintsNothing(s: Engine, moves: seq<Move>, m: Id)
    requires m < |s.rows| && s.rows[m].sendError.Some?
    requires forall k :: 0 <= k < |moves| && moves[k].Verb? && moves[k].id == m ==> !moves[k].write.ClearPark?
    ensures RunMoves(s, moves).rows[m].sendError.Some?
    ensures LeavesAlone(s.traces, RunMoves(s, moves).traces, m)
    decreases |moves|
  {
    if moves != [] {
      var next := AfterMove(s, moves[0]);
      if moves[0].Sweeping? {
        SweepSparesParked(s, moves[0].limit, moves[0].night, m);
      }
      assert forall k :: 0 <= k < |moves[1..]| ==> moves[1..][k] == moves[k + 1];
      ParkedMintsNothing(next, moves[1..], m);
      LeavingAloneComposes(s.traces, next.traces, RunMoves(s, moves).traces, m);
    }
  }
}
