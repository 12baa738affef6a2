/**
 * The SMS delivery pump, first arm: tracker verdicts become trace verbs. When it looks does not
 * matter for the verdict, a replay does nothing, and which backlogs a batch limit lets through.
 */
module SmsPump {
  import opened MailTypes
  import opened TraceLifecycle
  import opened TraceTable
  import opened BatchUpdate

  // ----- the verdict mapping ---------------------------------------------------------------

  const SMS_FAILURE_CODES: seq<string> := [
    "sms_number_missing", "sms_number_format", "sms_country_not_supported", "sms_registration_needed",
    "sms_credit", "sms_server", "sms_acc", "sms_blacklist", "sms_duplicate", "sms_optout", "sms_expired",
    "sms_invalid_destination", "sms_not_allowed", "sms_not_delivered", "sms_rejected"
  ]

  const BOUNCE_CLASS_CODES: seq<string> := ["sms_invalid_destination", "sms_not_allowed", "sms_rejected"]

  datatype Tracker = Tracker(state: string, failure: Option<string>, reason: Option<string>)

  /** The tracker's own code when the trace vocabulary has it, else the channel's default. */
  function CodeOr(failure: Option<string>, fallback: string): string {
    if failure.Some? && failure.value in SMS_FAILURE_CODES then failure.value else fallback
  }

  /** The trace verb a tracker state calls for; nothing before dispatch or for a state not known. */
  function MapVerdict(tr: Tracker): Option<Verb> {
    if tr.state == "process" then Some(DoProcess)
    else if tr.state == "pending" then Some(DoPending)
    else if tr.state == "sent" then Some(DoSent)
    else if tr.state == "bounce" then Some(DoBouncedSms(CodeOr(tr.failure, "sms_not_delivered"), tr.reason))
    else if tr.state == "exception" then
      if tr.failure.Some? && tr.failure.value in BOUNCE_CLASS_CODES
      then Some(DoBouncedSms(CodeOr(tr.failure, "sms_not_delivered"), tr.reason))
      else Some(DoFailed(CodeOr(tr.failure, "sms_server"), tr.reason))
    else if tr.state == "canceled" then Some(DoCanceled(CodeOr(tr.failure, "sms_blacklist")))
    else None
  }

  /** The members the database's failure enum has for this channel. */
  const ENUM_MEMBERS: set<string> := {
    "sms_acc", "sms_blacklist", "sms_country_not_supported", "sms_credit", "sms_duplicate", "sms_expired",
    "sms_invalid_destination", "sms_not_allowed", "sms_not_delivered", "sms_number_format", "sms_number_missing",
    "sms_optout", "sms_registration_needed", "sms_rejected", "sms_server"
  }

  /** The vocabulary is the enum's, so a code it admits never aborts the transaction that writes it. */
  lemma {:induction false} VocabularyIsTheEnum(code: string)
    ensures code in SMS_FAILURE_CODES <==> code in ENUM_MEMBERS
    ensures code in BOUNCE_CLASS_CODES ==> code in ENUM_MEMBERS
  {}

  predicate WritesOnlySmsCodes(v: Verb) {
    match v
    case DoBouncedSms(code, _) => code in SMS_FAILURE_CODES
    case DoFailed(code, _) => code in SMS_FAILURE_CODES
    case DoCanceled(code) => code in SMS_FAILURE_CODES
    case DoBounced => false
    case _ => true
  }

  /** A verb the sms channel uses: its codes are in the sms vocabulary, and it is no open and no reply. */
  predicate OfSmsChannel(v: Verb) {
    WritesOnlySmsCodes(v) && !v.DoOpened? && !v.DoReplied?
  }

  /**
   * Whatever the tracker carries, the code written is a member of the sms vocabulary, so a pumped
   * trace never looks like a mail bounce. A bounce-class exception keeps its own code.
   */
  lemma {:induction false} VerdictsStayInTheVocabulary(tr: Tracker)
    ensures MapVerdict(tr).Some? ==> OfSmsChannel(MapVerdict(tr).value)
    ensures "mail_bounce" !in SMS_FAILURE_CODES
    ensures tr.state == "exception" && tr.failure.Some? && tr.failure.value in BOUNCE_CLASS_CODES ==>
              MapVerdict(tr) == Some(DoBouncedSms(tr.failure.value, tr.reason))
  {}

  /**
   * Channel purity over any run: whatever sms verbs a trace goes through, it never records a mail
   * bounce (the fact the mail auto-blacklist counts) and never an open.
   */
  lemma {:induction false} SmsRunsLeaveNoMailMark(t: Trace, calls: seq<Call>)
    requires forall i :: 0 <= i < |calls| ==> OfSmsChannel(calls[i].verb)
    requires t.failure != Some("mail_bounce")
    ensures RunVerbs(t, calls).failure != Some("mail_bounce") && RunVerbs(t, calls).openAt == t.openAt
    decreases |calls|
  {
    if calls != [] {
      VerdictsStayInTheVocabulary(Tracker("", None, None));
      assert forall i :: 0 <= i < |calls[1..]| ==> calls[1..][i] == calls[i + 1];
      SmsRunsLeaveNoMailMark(ApplyVerb(calls[0].verb, t, calls[0].at), calls[1..]);
    }
  }

  // ----- one trace under one tracker -------------------------------------------------------

  predicate Transient(t: Trace) {
    !t.deleted && t.channel.Sms? && PreDelivery(t.status)
  }

  /** What one look at the tracker does to the trace: the scan takes transient rows only. */
  function Look(t: Trace, tr: Tracker, now: Time): Trace {
    if Transient(t) && MapVerdict(tr).Some? then ApplyVerb(MapVerdict(tr).value, t, now) else t
  }

  /** The tracker's code where the trace vocabulary has it, else this one. */
  predicate CodeIs(u: Trace, tr: Tracker, otherwise: string) {
    u.failure == if tr.failure.Some? && tr.failure.value in SMS_FAILURE_CODES then tr.failure else Some(otherwise)
  }

  /** What a tracker says becomes of a waiting trace, state by state and field by field. */
  predicate VerdictTells(t: Trace, u: Trace, tr: Tracker, now: Time) {
    if tr.state == "process" then u == t.(status := if t.status == Outgoing then Process else t.status)
    else if tr.state == "pending" then u == t.(status := Pending)
    else if tr.state == "sent" then
      && u == t.(status := Sent, failure := None, reason := None, sentAt := u.sentAt)
      && u.sentAt == if t.sentAt.Some? then t.sentAt else Some(now)
    else if tr.state == "bounce"
         || (tr.state == "exception" && tr.failure.Some?
             && tr.failure.value in ["sms_invalid_destination", "sms_not_allowed", "sms_rejected"]) then
      u == t.(status := Bounce, failure := u.failure, reason := tr.reason) && CodeIs(u, tr, "sms_not_delivered")
    else if tr.state == "exception" then
      u == t.(status := Error, failure := u.failure, reason := tr.reason) && CodeIs(u, tr, "sms_server")
    else if tr.state == "canceled" && t.status == Outgoing then
      u == t.(status := Cancel, failure := u.failure) && CodeIs(u, tr, "sms_blacklist")
    else u == t
  }

  lemma {:induction false} LookTells(t: Trace, tr: Tracker, now: Time)
    requires Transient(t)
    ensures VerdictTells(t, Look(t, tr, now), tr, now)
  {}

  /** How far along a tracker on its way says the message is, as a trace status rank. */
  function RankOf(tr: Tracker): nat {
    if tr.state == "process" then StatusRank(Process)
    else if tr.state == "pending" then StatusRank(Pending)
    else StatusRank(Outgoing)
  }

  /** The tracker is still on its way: ready, process, pending, or a state the pump does not know. */
  predicate OnTheWay(tr: Tracker) {
    tr.state != "sent" && tr.state != "bounce" && tr.state != "exception" && tr.state != "canceled"
  }

  /** Looking at a tracker on its way takes the further of the two: a trace never goes back. */
  lemma {:induction false} LookTakesTheFurther(t: Trace, tr: Tracker, now: Time)
    requires Transient(t) && OnTheWay(tr)
    ensures var u := Look(t, tr, now);
            && Transient(u) && u.(status := t.status) == t
            && StatusRank(u.status) == if StatusRank(t.status) >= RankOf(tr) then StatusRank(t.status) else RankOf(tr)
  {}

  datatype Sample = Sample(tracker: Tracker, at: Time)

  function Watch(t: Trace, looks: seq<Sample>): Trace
    decreases |looks|
  {
    if looks == [] then t else Watch(Look(t, looks[0].tracker, looks[0].at), looks[1..])
  }

  predicate Verdict(tr: Tracker) {
    tr.state == "sent" || tr.state == "bounce" || tr.state == "exception"
  }

  /** What a verdict alone makes of a live trace, with no reference to what was seen on the way. */
  function Landing(t: Trace, tr: Tracker, now: Time): Trace {
    if tr.state == "sent" then
      t.(status := Sent, failure := None, reason := None, sentAt := if t.sentAt.Some? then t.sentAt else Some(now))
    else if tr.state == "bounce" || (tr.failure.Some? && tr.failure.value in BOUNCE_CLASS_CODES) then
      t.(status := Bounce, failure := Some(CodeOr(tr.failure, "sms_not_delivered")), reason := tr.reason)
    else
      t.(status := Error, failure := Some(CodeOr(tr.failure, "sms_server")), reason := tr.reason)
  }

  /**
   * Cadence independence: however often the pump looked at a tracker on its way, and in whatever
   * order it saw process and pending, the verdict leaves the trace exactly where the verdict alone
   * would. Any two samplings that end in the same verdict agree.
   */
  lemma {:induction false} CadenceIndependence(t: Trace, looks: seq<Sample>, verdict: Sample)
    requires Transient(t) && Verdict(verdict.tracker)
    requires forall i :: 0 <= i < |looks| ==> OnTheWay(looks[i].tracker)
    ensures Watch(t, looks + [verdict]) == Landing(t, verdict.tracker, verdict.at)
    decreases |looks|
  {
    if looks == [] {
      assert looks + [verdict] == [verdict];
      assert [verdict][1..] == [];
    } else {
      assert (looks + [verdict])[1..] == looks[1..] + [verdict];
      assert forall i :: 0 <= i < |looks[1..]| ==> looks[1..][i] == looks[i + 1];
      CadenceIndependence(Look(t, looks[0].tracker, looks[0].at), looks[1..], verdict);
    }
  }

  /** `few` is what a slower pump saw of `all`: some of the looks, in order. */
  ghost predicate Sampled(few: seq<Sample>, all: seq<Sample>)
    decreases |all|
  {
    if few == [] then true
    else all != [] && ((few[0] == all[0] && Sampled(few[1..], all[1..])) || Sampled(few, all[1..]))
  }

  lemma {:induction false} SampledAreMembers(few: seq<Sample>, all: seq<Sample>, i: nat)
    requires Sampled(few, all) && i < |few|
    ensures few[i] in all
    decreases |all|
  {
    if few[0] == all[0] && Sampled(few[1..], all[1..]) {
      if i > 0 {
        SampledAreMembers(few[1..], all[1..], i - 1);
      }
    } else {
      SampledAreMembers(few, all[1..], i);
    }
  }

  /** A pump that slept through some looks ends where one that saw them all does. */
  lemma {:induction false} SlowPumpAgrees(t: Trace, few: seq<Sample>, all: seq<Sample>, verdict: Sample)
    requires Transient(t) && Verdict(verdict.tracker) && Sampled(few, all)
    requires forall s :: s in all ==> OnTheWay(s.tracker)
    ensures Watch(t, few + [verdict]) == Watch(t, all + [verdict])
  {
    forall i | 0 <= i < |few|
      ensures OnTheWay(few[i].tracker)
    {
      SampledAreMembers(few, all, i);
    }
    CadenceIndependence(t, few, verdict);
    CadenceIndependence(t, all, verdict);
  }

  /** Once settled, later looks change nothing: the first verdict seen is the trace's verdict. */
  lemma {:induction false} FirstVerdictStands(t: Trace, looks: seq<Sample>)
    requires !Transient(t)
    ensures Watch(t, looks) == t
    decreases |looks|
  {
    if looks != [] {
      FirstVerdictStands(t, looks[1..]);
    }
  }

  predicate Dispatched(tr: Tracker) {
    tr.state == "process" || tr.state == "pending"
  }

  /**
   * A cancel does depend on the cadence. It lands exactly when the trace was outgoing and no look
   * before it saw the message dispatched; otherwise the trace stays transient.
   */
  lemma {:induction false} CancelLandsIff(t: Trace, looks: seq<Sample>, cancel: Sample)
    requires Transient(t) && cancel.tracker.state == "canceled"
    requires forall i :: 0 <= i < |looks| ==> OnTheWay(looks[i].tracker)
    ensures var u := Watch(t, looks + [cancel]);
            && (u.status.Cancel? <==>
                t.status.Outgoing? && forall i :: 0 <= i < |looks| ==> !Dispatched(looks[i].tracker))
            && (!u.status.Cancel? ==> Transient(u))
    decreases |looks|
  {
    if looks == [] {
      assert looks + [cancel] == [cancel];
      assert [cancel][1..] == [];
    } else {
      assert (looks + [cancel])[1..] == looks[1..] + [cancel];
      assert forall i :: 0 <= i < |looks[1..]| ==> looks[1..][i] == looks[i + 1];
      CancelLandsIff(Look(t, looks[0].tracker, looks[0].at), looks[1..], cancel);
      if forall i :: 0 <= i < |looks[1..]| ==> !Dispatched(looks[1..][i].tracker) {
        assert forall i :: 0 < i < |looks| ==> looks[i] == looks[1..][i - 1];
      }
    }
  }

  lemma {:induction false} WatchOn(t: Trace, looks: seq<Sample>, later: seq<Sample>)
    ensures Watch(t, looks + later) == Watch(Watch(t, looks), later)
    decreases |looks|
  {
    if looks == [] {
      assert looks + later == later;
    } else {
      assert (looks + later)[1..] == looks[1..] + later;
      WatchOn(Look(t, looks[0].tracker, looks[0].at), looks[1..], later);
    }
  }

  /** A dispatched trace ignores a canceled tracker, however often the pump looks. */
  lemma {:induction false} DispatchedIgnoresCancels(t: Trace, looks: seq<Sample>)
    requires Transient(t) ==> !t.status.Outgoing?
    requires forall i :: 0 <= i < |looks| ==> looks[i].tracker.state == "canceled"
    ensures Watch(t, looks) == t
    decreases |looks|
  {
    if looks != [] {
      assert forall i :: 0 <= i < |looks[1..]| ==> looks[1..][i] == looks[i + 1];
      DispatchedIgnoresCancels(t, looks[1..]);
    }
  }

  /**
   * And what the first canceled look decides is decided for ever: while the tracker stays canceled,
   * no later look changes the trace, so one that missed its cancel never leaves the pump's scan.
   */
  lemma {:induction false} FirstCancelDecides(t: Trace, looks: seq<Sample>, cancel: Sample, later: seq<Sample>)
    requires Transient(t) && cancel.tracker.state == "canceled"
    requires forall i :: 0 <= i < |looks| ==> OnTheWay(looks[i].tracker)
    requires forall i :: 0 <= i < |later| ==> later[i].tracker.state == "canceled"
    ensures Watch(t, looks + [cancel] + later) == Watch(t, looks + [cancel])
  {
    var u := Watch(t, looks);
    WatchOn(t, looks + [cancel], later);
    WatchOn(t, looks, [cancel]);
    assert [cancel][1..] == [];
    assert Watch(u, [cancel]) == Look(u, cancel.tracker, cancel.at);
    DispatchedIgnoresCancels(Watch(u, [cancel]), later);
  }

  // ----- the advance arm of a pass ---------------------------------------------------------

  const TRACE_BATCH: nat := 5000

  type Trackers = map<string, Tracker>

  /** The scan's WHERE arm: a transient sms trace whose tracker is there. */
  predicate IsScanned(trackers: Trackers, t: Trace) {
    Transient(t) && t.smsUuid.Some? && t.smsUuid.value in trackers
  }

  function Scanned(trackers: Trackers): Trace -> bool {
    t => IsScanned(trackers, t)
  }

  function Pumped(trackers: Trackers, now: Time): Trace -> Trace {
    (t: Trace) => if IsScanned(trackers, t) then Look(t, trackers[t.smsUuid.value], now) else t
  }

  function AdvancePass(ts: Table, trackers: Trackers, now: Time): Table {
    UpdateFirst(ts, Scanned(trackers), Pumped(trackers, now), TRACE_BATCH)
  }

  /** Row by row, the batch is the loop over the scanned ids. */
  lemma {:induction false} PumpStep(ts: Table, trackers: Trackers, now: Time, j: nat)
    requires j < |FirstIds(ts, Scanned(trackers), TRACE_BATCH, 0)|
    ensures var id := FirstIds(ts, Scanned(trackers), TRACE_BATCH, 0)[j];
            var before := UpdateFirst(ts, Scanned(trackers), Pumped(trackers, now), j);
            && id < |before| == |ts| && before[id] == ts[id] && IsScanned(trackers, ts[id])
            && UpdateFirst(ts, Scanned(trackers), Pumped(trackers, now), j + 1)
               == before[id := Look(ts[id], trackers[ts[id].smsUuid.value], now)]
  {
    NextId(ts, Scanned(trackers), Pumped(trackers, now), TRACE_BATCH, j,
        FirstIds(ts, Scanned(trackers), TRACE_BATCH, 0)[j]);
  }

  /** Apply one tracker verdict through its verb: true exactly when the row advanced. */
  method ApplyVerdict(traces: TraceRepository, id: Id, tr: Tracker, now: Time) returns (moved: bool)
    requires id < |traces.rows| && Transient(traces.rows[id])
    modifies traces
    ensures traces.rows == old(traces.rows)[id := Look(old(traces.rows)[id], tr, now)]
    ensures moved <==> traces.rows[id] != old(traces.rows)[id]
    ensures VerdictTells(old(traces.rows)[id], traces.rows[id], tr, now)
  {
    LookTells(traces.rows[id], tr, now);
    var verb := MapVerdict(tr);
    if verb.None? {
      return false;
    }
    moved := traces.Advance(id, verb.value, now);
  }

  lemma {:induction false} OneChange(start: Table, before: Table, id: nat, x: Trace)
    requires id < |start| == |before| && before[id] == start[id]
    ensures before[id := x] == start <==> before == start && x == start[id]
  {}

  /** The rows a look at their tracker changes. */
  function Changes(ts: Table, trackers: Trackers, now: Time): Id -> bool {
    (id: Id) => id < |ts| && Pumped(trackers, now)(ts[id]) != ts[id]
  }

  /** The next scanned id: its verdict applied, the batch one row further. */
  method PumpNext(traces: TraceRepository, trackers: Trackers, now: Time, ghost start: Table, ghost j: nat, id: Id)
    returns (moved: bool)
    requires j < |FirstIds(start, Scanned(trackers), TRACE_BATCH, 0)|
              && id == FirstIds(start, Scanned(trackers), TRACE_BATCH, 0)[j]
    requires traces.rows == UpdateFirst(start, Scanned(trackers), Pumped(trackers, now), j)
    modifies traces
    ensures traces.rows == UpdateFirst(start, Scanned(trackers), Pumped(trackers, now), j + 1)
    ensures traces.rows == start <==> old(traces.rows) == start && !moved
    ensures moved <==> Changes(start, trackers, now)(id)
  {
    PumpStep(start, trackers, now, j);
    var tracker := trackers[traces.rows[id].smsUuid.value];
    OneChange(start, traces.rows, id, Look(traces.rows[id], tracker, now));
    moved := ApplyVerdict(traces, id, tracker, now);
  }

  /** Read the scan once, then apply each verdict in its own small step. */
  method PumpTraces(traces: TraceRepository, trackers: Trackers, now: Time) returns (advanced: nat, skips: nat)
    modifies traces
    ensures traces.rows == AdvancePass(old(traces.rows), trackers, now)
    ensures advanced + skips == Min(TRACE_BATCH, Count(old(traces.rows), Scanned(trackers)))
    ensures advanced == 0 <==> traces.rows == old(traces.rows)
    ensures advanced == Count(FirstIds(old(traces.rows), Scanned(trackers), TRACE_BATCH, 0),
                              Changes(old(traces.rows), trackers, now))
  {
    ghost var p, f := Scanned(trackers), Pumped(trackers, now);
    ghost var start := traces.rows;
    var ids := FirstIds(traces.rows, Scanned(trackers), TRACE_BATCH, 0);
    UpdateFirstZero(start, p, f);
    advanced, skips := 0, 0;
    for j := 0 to |ids|
      invariant ids == FirstIds(start, p, TRACE_BATCH, 0)
      invariant traces.rows == UpdateFirst(start, p, f, j)
      invariant advanced + skips == j
      invariant advanced == 0 <==> traces.rows == start
      invariant advanced == Count(ids[..j], Changes(start, trackers, now))
    {
      assert ids[..j + 1] == ids[..j] + [ids[j]] && [ids[j]][1..] == [];
      CountAppend(ids[..j], [ids[j]], Changes(start, trackers, now));
      var moved := PumpNext(traces, trackers, now, start, j, ids[j]);
      if moved {
        advanced := advanced + 1;
      } else {
        skips := skips + 1;
      }
    }
    UpdateFirstCapped(start, p, f, TRACE_BATCH);
    assert ids[..|ids|] == ids;
  }

  /** A look changes a row at most once: looking again at an unchanged tracker finds nothing to do. */
  lemma {:induction false} LookIsIdempotent(trackers: Trackers, now: Time, t: Trace, later: Time)
    ensures Pumped(trackers, later)(Pumped(trackers, now)(t)) == Pumped(trackers, now)(t)
  {}

  lemma {:induction false} PassIsPointwise(ts: Table, trackers: Trackers, now: Time, i: nat)
    requires i < |ts| && Count(ts, Scanned(trackers)) <= TRACE_BATCH
    ensures AdvancePass(ts, trackers, now)[i] == Pumped(trackers, now)(ts[i])
  {
    UpdateFirstAll(ts, Scanned(trackers), Pumped(trackers, now), TRACE_BATCH);
  }

  /** Within the batch limit, a pass gives every waiting trace with a known tracker its verdict, and no other. */
  lemma {:induction false} PassTells(ts: Table, trackers: Trackers, now: Time, i: nat)
    requires i < |ts| && Count(ts, Scanned(trackers)) <= TRACE_BATCH
    ensures var t, u := ts[i], AdvancePass(ts, trackers, now)[i];
            if !t.deleted && t.channel == Sms && t.status in {Outgoing, Process, Pending}
               && t.smsUuid.Some? && t.smsUuid.value in trackers
            then VerdictTells(t, u, trackers[t.smsUuid.value], now) else u == t
  {
    PassIsPointwise(ts, trackers, now, i);
    if IsScanned(trackers, ts[i]) {
      LookTells(ts[i], trackers[ts[i].smsUuid.value], now);
    }
  }

  /** Within the batch limit, a second pass over unchanged trackers changes nothing at all. */
  lemma {:induction false} SecondPassIsIdle(ts: Table, trackers: Trackers, now: Time, later: Time)
    requires Count(ts, Scanned(trackers)) <= TRACE_BATCH
    ensures var once := AdvancePass(ts, trackers, now);
            AdvancePass(once, trackers, later) == once
  {
    var once := AdvancePass(ts, trackers, now);
    forall i | 0 <= i < |ts|
      ensures AdvancePass(once, trackers, later)[i] == once[i]
    {
      PassIsPointwise(ts, trackers, now, i);
      LookIsIdempotent(trackers, now, ts[i], later);
      UpdateFirstPointwise(once, Scanned(trackers), Pumped(trackers, later), TRACE_BATCH, i);
    }
  }

  // ----- which backlogs drain --------------------------------------------------------------

  /** Looking at this row does not settle it: it will be scanned again by the next pass. */
  predicate IsStuck(trackers: Trackers, t: Trace) {
    IsScanned(trackers, t) && Transient(Look(t, trackers[t.smsUuid.value], 0))
  }

  function Stuck(trackers: Trackers): Trace -> bool {
    t => IsStuck(trackers, t)
  }

  function Passes(ts: Table, trackers: Trackers, times: seq<Time>): Table
    decreases |times|
  {
    if times == [] then ts else Passes(AdvancePass(ts, trackers, times[0]), trackers, times[1..])
  }

  /** Which budget a batch has left at row `i`: it changes the row exactly when fewer matches precede it. */
  lemma {:induction false} BatchReachesIff<T>(s: seq<T>, p: T -> bool, f: T -> T, k: nat, i: nat)
    requires i < |s| && p(s[i])
    ensures UpdateFirst(s, p, f, k)[i] == if Count(s[..i], p) < k then f(s[i]) else s[i]
  {
    if i > 0 {
      assert s[..i] == [s[0]] + s[1..][..i - 1];
      BatchReachesIff(s[1..], p, f, if p(s[0]) && k > 0 then k - 1 else k, i - 1);
    } else {
      assert s[..0] == [];
    }
  }

  /** The rows before `i` after a pass: a pass over the prefix. */
  lemma {:induction false} BatchPrefix<T>(s: seq<T>, p: T -> bool, f: T -> T, k: nat, i: nat)
    requires i <= |s|
    ensures UpdateFirst(s, p, f, k)[..i] == UpdateFirst(s[..i], p, f, k)
  {
    if i > 0 {
      assert s[..i][1..] == s[1..][..i - 1];
      BatchPrefix(s[1..], p, f, if p(s[0]) && k > 0 then k - 1 else k, i - 1);
    }
  }

  /** A change that keeps exactly the stuck rows matching: what one batch does to both counts. */
  lemma {:induction false} BatchOverStuck<T>(s: seq<T>, p: T -> bool, stuck: T -> bool, f: T -> T, k: nat)
    requires forall x :: p(x) ==> (stuck(x) <==> p(f(x))) && (stuck(x) <==> stuck(f(x)))
    requires forall x :: stuck(x) ==> p(x)
    ensures var u := UpdateFirst(s, p, f, k);
            && Count(u, stuck) == Count(s, stuck) <= Count(s, p)
            && Count(u, p) <= Count(s, p)
            && (Count(s, stuck) < k <= Count(s, p) ==> Count(u, p) < Count(s, p))
  {
    if s != [] {
      BatchOverStuck(s[1..], p, stuck, f, if p(s[0]) && k > 0 then k - 1 else k);
    }
  }

  lemma {:induction false} LookKeepsStuck(trackers: Trackers, now: Time, t: Trace)
    requires IsScanned(trackers, t)
    ensures var u := Pumped(trackers, now)(t);
            (IsStuck(trackers, t) <==> IsScanned(trackers, u)) && (IsStuck(trackers, t) <==> IsStuck(trackers, u))
  {
    LookIsIdempotent(trackers, now, t, 0);
  }

  /** Over any rows: stuck rows stay stuck, and a full batch settles at least one row that is not. */
  lemma {:induction false} PassOverRows(s: Table, trackers: Trackers, now: Time, k: nat)
    ensures var u := UpdateFirst(s, Scanned(trackers), Pumped(trackers, now), k);
            && Count(u, Stuck(trackers)) == Count(s, Stuck(trackers)) <= Count(s, Scanned(trackers))
            && Count(u, Scanned(trackers)) <= Count(s, Scanned(trackers))
            && (Count(s, Stuck(trackers)) < k <= Count(s, Scanned(trackers)) ==>
                  Count(u, Scanned(trackers)) < Count(s, Scanned(trackers)))
  {
    var p, stuck, f := Scanned(trackers), Stuck(trackers), Pumped(trackers, now);
    forall t: Trace | p(t)
      ensures (stuck(t) <==> p(f(t))) && (stuck(t) <==> stuck(f(t)))
    {
      LookKeepsStuck(trackers, now, t);
    }
    BatchOverStuck(s, p, stuck, f, k);
  }

  /** Behind a full batch of stuck rows, a row is never looked at, however many passes run. */
  lemma {:induction false} Starved(ts: Table, trackers: Trackers, times: seq<Time>, i: nat)
    requires i < |ts| && IsScanned(trackers, ts[i])
    requires Count(ts[..i], Stuck(trackers)) >= TRACE_BATCH
    ensures |Passes(ts, trackers, times)| == |ts| && Passes(ts, trackers, times)[i] == ts[i]
    decreases |times|
  {
    if times != [] {
      var p, f := Scanned(trackers), Pumped(trackers, times[0]);
      PassOverRows(ts[..i], trackers, times[0], TRACE_BATCH);
      BatchReachesIff(ts, p, f, TRACE_BATCH, i);
      BatchPrefix(ts, p, f, TRACE_BATCH, i);
      Starved(AdvancePass(ts, trackers, times[0]), trackers, times[1..], i);
    }
  }

  lemma {:induction false} SettledStays(ts: Table, trackers: Trackers, times: seq<Time>, i: nat)
    requires i < |ts| && !IsScanned(trackers, ts[i])
    ensures |Passes(ts, trackers, times)| == |ts| && Passes(ts, trackers, times)[i] == ts[i]
    decreases |times|
  {
    if times != [] {
      UpdateFirstPointwise(ts, Scanned(trackers), Pumped(trackers, times[0]), TRACE_BATCH, i);
      SettledStays(AdvancePass(ts, trackers, times[0]), trackers, times[1..], i);
    }
  }

  /** With room left by the stuck rows before it, a row is looked at after at most its own backlog of passes. */
  lemma {:induction false} Reached(ts: Table, trackers: Trackers, times: seq<Time>, i: nat)
    requires i < |ts| && IsScanned(trackers, ts[i]) && !IsStuck(trackers, ts[i])
    requires Count(ts[..i], Stuck(trackers)) < TRACE_BATCH
    requires |times| > Count(ts[..i], Scanned(trackers))
    ensures |Passes(ts, trackers, times)| == |ts| && !IsScanned(trackers, Passes(ts, trackers, times)[i])
    decreases |times|
  {
    var p, f := Scanned(trackers), Pumped(trackers, times[0]);
    PassOverRows(ts[..i], trackers, times[0], TRACE_BATCH);
    BatchReachesIff(ts, p, f, TRACE_BATCH, i);
    BatchPrefix(ts, p, f, TRACE_BATCH, i);
    var next := AdvancePass(ts, trackers, times[0]);
    if Count(ts[..i], Scanned(trackers)) < TRACE_BATCH {
      assert !IsScanned(trackers, next[i]);
      SettledStays(next, trackers, times[1..], i);
    } else {
      Reached(next, trackers, times[1..], i);
    }
  }

  /**
   * A backlog larger than a batch does not always drain. A row with a verdict waiting is settled by
   * the passes exactly when fewer than a batch of stuck rows (still on their way, or canceled after
   * dispatch) come before it in id order.
   */
  lemma {:induction false} BacklogDrainsIff(ts: Table, trackers: Trackers, times: seq<Time>, i: nat)
    requires i < |ts| && IsScanned(trackers, ts[i]) && !IsStuck(trackers, ts[i])
    requires |times| > Count(ts[..i], Scanned(trackers))
    ensures |Passes(ts, trackers, times)| == |ts|
    ensures !IsScanned(trackers, Passes(ts, trackers, times)[i]) <==> Count(ts[..i], Stuck(trackers)) < TRACE_BATCH
  {
    if Count(ts[..i], Stuck(trackers)) < TRACE_BATCH {
      Reached(ts, trackers, times, i);
    } else {
      Starved(ts, trackers, times, i);
    }
  }
}
