/**
 * The statistics read side: nine counts over a mailing's live traces, the ratios over them, and
 * what the trace lifecycle makes true of those numbers on every reachable table.
 */
module Stats {
  import opened MailTypes
  import opened TraceLifecycle
  import opened TraceTable
  import opened BatchUpdate

  // ----- the grouped query -----------------------------------------------------------------

  datatype Metric = Total | Submitted | Delivered | Opened | Clicked | Replied | Bounced | Errored | Canceled

  predicate Live(t: Trace, mailing: Id) {
    !t.deleted && t.mailing == mailing
  }

  /** The FILTER clause of each column of the grouped query. */
  predicate InMetric(t: Trace, m: Metric) {
    match m
    case Total => !t.status.Cancel?
    case Submitted => t.sentAt.Some?
    case Delivered => t.status.Sent? || t.status.Open? || t.status.Reply?
    case Opened => t.status.Open? || t.status.Reply?
    case Clicked => t.clickAt.Some?
    case Replied => t.status.Reply?
    case Bounced => t.status.Bounce?
    case Errored => t.status.Error?
    case Canceled => t.status.Cancel?
  }

  function Column(mailing: Id, m: Metric): Trace -> bool {
    t => Live(t, mailing) && InMetric(t, m)
  }

  function CountOf(ts: Table, mailing: Id, m: Metric): nat {
    Count(ts, Column(mailing, m))
  }

  function LiveOf(mailing: Id): Trace -> bool {
    t => Live(t, mailing)
  }

  function InFlight(mailing: Id): Trace -> bool {
    t => Live(t, mailing) && PreDelivery(t.status)
  }

  ghost predicate AllSound(ts: Table) {
    forall i :: 0 <= i < |ts| ==> Sound(ts[i])
  }

  lemma {:induction false} TotalPartition(ts: Table, mailing: Id)
    ensures CountOf(ts, mailing, Total)
         == CountOf(ts, mailing, Delivered) + CountOf(ts, mailing, Bounced) + CountOf(ts, mailing, Errored)
            + Count(ts, InFlight(mailing))
  {
    if ts != [] {
      TotalPartition(ts[1..], mailing);
    }
  }

  /** The columns form a chain and two partitions; `sent <= total` needs that no canceled trace was sent. */
  lemma {:induction false} CountsHangTogether(ts: Table, mailing: Id)
    requires AllSound(ts)
    ensures CountOf(ts, mailing, Replied) <= CountOf(ts, mailing, Opened) <= CountOf(ts, mailing, Delivered)
    ensures CountOf(ts, mailing, Total)
         == CountOf(ts, mailing, Delivered) + CountOf(ts, mailing, Bounced) + CountOf(ts, mailing, Errored)
            + Count(ts, InFlight(mailing))
    ensures CountOf(ts, mailing, Total) + CountOf(ts, mailing, Canceled) == Count(ts, LiveOf(mailing))
    ensures CountOf(ts, mailing, Submitted) <= CountOf(ts, mailing, Total)
  {
    CountImplies(ts, Column(mailing, Replied), Column(mailing, Opened));
    CountImplies(ts, Column(mailing, Opened), Column(mailing, Delivered));
    CountImplies(ts, Column(mailing, Submitted), Column(mailing, Total));
    CountSplits(ts, LiveOf(mailing), Column(mailing, Total), Column(mailing, Canceled));
    TotalPartition(ts, mailing);
  }

  /** The same on every table reachable from an empty one by engine mints, verbs and retries. */
  lemma {:induction false} ReachableCounts(steps: seq<Step>, mailing: Id)
    requires forall k :: 0 <= k < |steps| && steps[k].Mint? ==> Sound(steps[k].row)
    ensures var ts := Run([], steps);
            && CountOf(ts, mailing, Replied) <= CountOf(ts, mailing, Opened) <= CountOf(ts, mailing, Delivered)
            && CountOf(ts, mailing, Submitted) <= CountOf(ts, mailing, Total)
            && CountOf(ts, mailing, Delivered) + CountOf(ts, mailing, Bounced) + CountOf(ts, mailing, Errored)
                 <= CountOf(ts, mailing, Total)
  {
    TablesStaySound([], steps);
    CountsHangTogether(Run([], steps), mailing);
  }

  // ----- what the columns say about the traces -----------------------------------------------

  /** The verbs after which a trace stands in the column, while no later move takes it away. */
  predicate Lands(v: Verb, m: Metric) {
    match m
    case Total => !v.DoCanceled?
    case Delivered => v.DoSent? || v.DoOpened? || v.DoReplied?
    case Opened => v.DoOpened? || v.DoReplied?
    case Replied => v.DoReplied?
    case Bounced => v.DoBounced? || v.DoBouncedSms?
    case Errored => v.DoFailed?
    case Canceled => v.DoCanceled?
    case _ => false
  }

  /**
   * Each column told by the verbs of a run over a freshly minted trace: the status columns by the
   * last move, `sent` and `clicked` by whether any send or click matched.
   */
  lemma {:induction false} ColumnsTellTheRun(t: Trace, calls: seq<Call>, m: Metric)
    requires Sound(t) && t.status == Outgoing && t.sentAt.None? && t.clickAt.None?
    ensures var u, last := RunVerbs(t, calls), LastMove(t, calls);
            InMetric(u, m) <==>
              match m
              case Submitted => Matched(t, calls, OfSend()) != []
              case Clicked => Matched(t, calls, OfClick()) != []
              case _ => if last.Some? then Lands(last.value, m) else m.Total?
  {
    LastMoveDecides(t, calls);
    StampsTellTheRun(t, calls);
  }

  /** `errored` counts exactly what a retry would free, and nothing of it is left after one. */
  lemma {:induction false} ErroredIsRetried(ts: Table, mailing: Id, limit: nat)
    ensures CountOf(ts, mailing, Errored) == Count(ts, LiveErrorsOf(mailing))
    ensures limit >= CountOf(ts, mailing, Errored) ==>
              CountOf(Exec(ts, FreeErrors(mailing, limit)), mailing, Errored) == 0
  {
    CountImplies(ts, Column(mailing, Errored), LiveErrorsOf(mailing));
    CountImplies(ts, LiveErrorsOf(mailing), Column(mailing, Errored));
    UpdateFirstDrains(ts, LiveErrorsOf(mailing), SoftDeleted(), limit);
    var u := Exec(ts, FreeErrors(mailing, limit));
    CountImplies(u, Column(mailing, Errored), LiveErrorsOf(mailing));
  }

  // ----- sent only grows -------------------------------------------------------------------

  lemma {:induction false} FreeingKeepsSent(ts: Table, other: Id, limit: nat, mailing: Id)
    requires other != mailing
    ensures CountOf(UpdateFirst(ts, LiveErrorsOf(other), SoftDeleted(), limit), mailing, Submitted)
         == CountOf(ts, mailing, Submitted)
    decreases ts
  {
    if ts != [] {
      var hit := LiveErrorsOf(other)(ts[0]) && limit > 0;
      FreeingKeepsSent(ts[1..], other, if hit then limit - 1 else limit, mailing);
    }
  }

  lemma {:induction false} SentStep(ts: Table, s: Step, mailing: Id)
    requires s.FreeErrors? ==> s.mailing != mailing
    ensures CountOf(ts, mailing, Submitted) <= CountOf(Exec(ts, s), mailing, Submitted)
  {
    var p := Column(mailing, Submitted);
    match s
    case Mint(row) =>
      CountAppend(ts, [row], p);
    case Advance(id, verb, at) =>
      if id < |ts| {
        CountUpdate(ts, id, ApplyVerb(verb, ts[id], at), p);
      }
    case FreeErrors(other, limit) =>
      FreeingKeepsSent(ts, other, limit, mailing);
  }

  /** No trace verb, mint or other mailing's retry lowers `sent`; only this mailing's own retry can. */
  lemma {:induction false} SentNeverFalls(ts: Table, steps: seq<Step>, mailing: Id)
    requires forall k :: 0 <= k < |steps| && steps[k].FreeErrors? ==> steps[k].mailing != mailing
    ensures CountOf(ts, mailing, Submitted) <= CountOf(Run(ts, steps), mailing, Submitted)
    decreases |steps|
  {
    if steps != [] {
      SentStep(ts, steps[0], mailing);
      assert forall k :: 0 <= k < |steps[1..]| ==> steps[1..][k] == steps[k + 1];
      SentNeverFalls(Exec(ts, steps[0]), steps[1..], mailing);
    }
  }

  // ----- the ratios ------------------------------------------------------------------------

  /** A percentage rounded half away from zero, over exact rationals; nothing when nothing was sent. */
  function Ratio(part: nat, whole: nat): Option<nat> {
    if whole == 0 then None else Some((200 * part + whole) / (2 * whole))
  }

  lemma {:induction false} Division(n: nat, d: nat)
    requires d > 0
    ensures d * (n / d) <= n < d * (n / d) + d
    ensures n / d <= 100 <==> n < 101 * d
  {
    var r := n / d;
    if r <= 100 {
      assert d * r <= d * 100;
    } else {
      assert d * r >= d * 101;
    }
  }

  /** It is the nearest percentage, and it stays within 100 exactly below the half-percent overshoot. */
  lemma {:induction false} RatioIsNearest(part: nat, whole: nat)
    requires whole > 0
    ensures var r, d := Ratio(part, whole).value, 2 * whole;
            && d * r <= 200 * part + whole < d * r + d
            && (r <= 100 <==> 200 * part < 201 * whole)
  {
    Division(200 * part + whole, 2 * whole);
  }

  // ----- touches may exceed sends ----------------------------------------------------------

  /** What the recipient's own doing can bring a trace into: the opened and the clicked column. */
  predicate IsTouchColumn(m: Metric) {
    m.Opened? || m.Clicked?
  }

  /** The verbs that bring a trace into the column. */
  predicate Touches(v: Verb, m: Metric) {
    if m.Clicked? then v.DoClicked? else v.DoOpened? || v.DoReplied?
  }

  predicate TouchKeepsOrder(ts: Table, s: Step, m: Metric) {
    s.Advance? && s.id < |ts| && Touches(s.verb, m) && Guard(s.verb, ts[s.id]) ==> ts[s.id].sentAt.Some?
  }

  /** Every touch of the run lands on a trace whose send was already recorded. */
  predicate TouchesWait(ts: Table, steps: seq<Step>, m: Metric)
    decreases |steps|
  {
    steps == [] || (TouchKeepsOrder(ts, steps[0], m) && TouchesWait(Exec(ts, steps[0]), steps[1..], m))
  }

  ghost predicate TouchedWereSent(ts: Table, m: Metric) {
    forall i :: 0 <= i < |ts| && InMetric(ts[i], m) ==> ts[i].sentAt.Some?
  }

  /** Every state the run goes through has only sent traces in the column. */
  ghost predicate AlwaysSent(ts: Table, steps: seq<Step>, m: Metric)
    decreases |steps|
  {
    TouchedWereSent(ts, m) && (steps == [] || AlwaysSent(Exec(ts, steps[0]), steps[1..], m))
  }

  /** As the engine mints a row: nobody has opened it or clicked in it. */
  predicate IsUntouched(t: Trace) {
    !InMetric(t, Opened) && t.clickAt.None?
  }

  predicate MintsUntouched(steps: seq<Step>) {
    forall k :: 0 <= k < |steps| && steps[k].Mint? ==> IsUntouched(steps[k].row)
  }

  /** One step keeps "touched were sent" exactly when its touch, if it is one, waited. */
  lemma {:induction false} StepKeepsSentIff(ts: Table, s: Step, m: Metric)
    requires IsTouchColumn(m) && TouchedWereSent(ts, m) && (s.Mint? ==> IsUntouched(s.row))
    ensures TouchedWereSent(Exec(ts, s), m) <==> TouchKeepsOrder(ts, s, m)
  {
    match s
    case Mint(row) =>
    case Advance(id, verb, at) =>
      if id < |ts| {
        var u := Exec(ts, s);
        assert TouchedWereSent(u, m) ==> (InMetric(u[id], m) ==> u[id].sentAt.Some?);
      }
    case FreeErrors(mailing, limit) =>
      forall i | 0 <= i < |ts|
        ensures Exec(ts, s)[i] == ts[i] || Exec(ts, s)[i] == ts[i].(deleted := true)
      {
        UpdateFirstPointwise(ts, LiveErrorsOf(mailing), SoftDeleted(), limit, i);
      }
  }

  /**
   * The exact condition, at the guard of the call: a run never counts an open (or a click) that was
   * not sent if and only if each of its opens and replies (or clicks) waits for the send of its trace.
   */
  lemma {:induction false} TouchesWaitIff(ts: Table, steps: seq<Step>, m: Metric)
    requires IsTouchColumn(m) && TouchedWereSent(ts, m) && MintsUntouched(steps)
    ensures AlwaysSent(ts, steps, m) <==> TouchesWait(ts, steps, m)
    decreases |steps|
  {
    if steps != [] {
      StepKeepsSentIff(ts, steps[0], m);
      assert forall k :: 0 <= k < |steps[1..]| ==> steps[1..][k] == steps[k + 1];
      if TouchKeepsOrder(ts, steps[0], m) {
        TouchesWaitIff(Exec(ts, steps[0]), steps[1..], m);
      }
    }
  }

  lemma {:induction false} AlwaysSentAtTheEnd(ts: Table, steps: seq<Step>, m: Metric)
    requires AlwaysSent(ts, steps, m)
    ensures TouchedWereSent(Run(ts, steps), m)
    decreases |steps|
  {
    if steps != [] {
      AlwaysSentAtTheEnd(Exec(ts, steps[0]), steps[1..], m);
    }
  }

  /** A column of sent traces is no larger than `sent`, and its ratio is a percentage. */
  lemma {:induction false} SentColumnIsAPercentage(ts: Table, mailing: Id, m: Metric)
    requires TouchedWereSent(ts, m)
    ensures var part, sent := CountOf(ts, mailing, m), CountOf(ts, mailing, Submitted);
            part <= sent && (sent > 0 ==> Ratio(part, sent).value <= 100)
  {
    CountImplies(ts, Column(mailing, m), Column(mailing, Submitted));
    if CountOf(ts, mailing, Submitted) > 0 {
      RatioIsNearest(CountOf(ts, mailing, m), CountOf(ts, mailing, Submitted));
    }
  }

  /** So where opens wait, opened and replied never exceed sent, and both ratios stay in 0..100. */
  lemma {:induction false} OrderedOpensStayWithinSent(ts: Table, steps: seq<Step>, mailing: Id)
    requires TouchedWereSent(ts, Opened) && TouchesWait(ts, steps, Opened) && MintsUntouched(steps)
    ensures var u := Run(ts, steps);
            var seen, answered := CountOf(u, mailing, Opened), CountOf(u, mailing, Replied);
            var sent := CountOf(u, mailing, Submitted);
            && answered <= seen <= sent
            && (sent > 0 ==> Ratio(seen, sent).value <= 100 && Ratio(answered, sent).value <= 100)
  {
    var u := Run(ts, steps);
    TouchesWaitIff(ts, steps, Opened);
    AlwaysSentAtTheEnd(ts, steps, Opened);
    SentColumnIsAPercentage(u, mailing, Opened);
    SentColumnIsAPercentage(u, mailing, Replied);
    CountImplies(u, Column(mailing, Replied), Column(mailing, Opened));
  }

  /** And where clicks wait, clicked never exceeds sent. */
  lemma {:induction false} OrderedClicksStayWithinSent(ts: Table, steps: seq<Step>, mailing: Id)
    requires TouchedWereSent(ts, Clicked) && TouchesWait(ts, steps, Clicked) && MintsUntouched(steps)
    ensures var u := Run(ts, steps);
            var clicked, sent := CountOf(u, mailing, Clicked), CountOf(u, mailing, Submitted);
            clicked <= sent && (sent > 0 ==> Ratio(clicked, sent).value <= 100)
  {
    TouchesWaitIff(ts, steps, Clicked);
    AlwaysSentAtTheEnd(ts, steps, Clicked);
    SentColumnIsAPercentage(Run(ts, steps), mailing, Clicked);
  }

  lemma {:induction false} RunCons(ts: Table, s: Step, rest: seq<Step>)
    ensures Run(ts, [s] + rest) == Run(Exec(ts, s), rest)
    ensures Run(ts, []) == ts
  {
    assert ([s] + rest)[1..] == rest;
  }

  lemma {:induction false} TwoRows(a: Trace, b: Trace, p: Trace -> bool)
    ensures Count([a, b], p) == (if p(a) then 1 else 0) + (if p(b) then 1 else 0)
  {
    assert [a, b] == [a] + [b];
    CountAppend([a], [b], p);
    assert [a][1..] == [] && [b][1..] == [];
  }

  /** Without that order the ratio leaves 0..100: two sends, one verdict, two opens (or clicks): 200 percent. */
  lemma {:induction false} EarlyTouchesOvershoot(a: Trace, b: Trace, m: Metric)
    requires a == Minted(1, None, Mail, 1, "a", None) && b == Minted(1, None, Mail, 2, "b", None)
    requires IsTouchColumn(m)
    ensures var touch := if m.Clicked? then DoClicked else DoOpened;
            var ts := Run([a, b], [Advance(0, DoSent, 1), Advance(0, touch, 2), Advance(1, touch, 3)]);
            Ratio(CountOf(ts, 1, m), CountOf(ts, 1, Submitted)) == Some(200)
  {
    var touch := if m.Clicked? then DoClicked else DoOpened;
    var s1, s2, s3 := Advance(0, DoSent, 1), Advance(0, touch, 2), Advance(1, touch, 3);
    RunCons([a, b], s1, [s2, s3]);
    var t1 := Exec([a, b], s1);
    RunCons(t1, s2, [s3]);
    var t2 := Exec(t1, s2);
    RunCons(t2, s3, []);
    var t3 := Exec(t2, s3);
    assert [s1] + [s2, s3] == [s1, s2, s3] && [s2] + [s3] == [s2, s3] && [s3] + [] == [s3];
    assert t3 == [t3[0], t3[1]];
    TwoRows(t3[0], t3[1], Column(1, m));
    TwoRows(t3[0], t3[1], Column(1, Submitted));
  }

  // ----- the A/B readings ------------------------------------------------------------------

  /** The whitelisted trace-hit expression of a winner axis; anything else reads as the opened axis. */
  function AxisMetric(axis: string): Metric {
    if axis == "clicks_ratio" then Clicked else if axis == "replied_ratio" then Replied else Opened
  }

  function SentHit(mailing: Id, axis: string): Trace -> bool {
    t => Live(t, mailing) && t.sentAt.Some? && InMetric(t, AxisMetric(axis))
  }

  datatype Variant = Variant(mailing: Id, isSms: bool, parked: bool)

  datatype ChannelRow = ChannelRow(mailing: Id, isSms: bool, ratio: Option<nat>, sent: nat, hits: nat, parked: bool)

  /** One row of the mixed-channel comparison: each channel on its own axis, over sent traces only. */
  function Compared(ts: Table, v: Variant, mailAxis: string, smsAxis: Option<string>): ChannelRow {
    var axis := if v.isSms && smsAxis.Some? then smsAxis.value else mailAxis;
    var sent, hits := CountOf(ts, v.mailing, Submitted), Count(ts, SentHit(v.mailing, axis));
    ChannelRow(v.mailing, v.isSms, Ratio(hits, sent), sent, hits, v.parked)
  }

  /** A live trace of the mailing that was sent and, on this axis, answered: clicked, replied to, or else opened. */
  function Answered(mailing: Id, axis: string): Trace -> bool {
    (t: Trace) =>
      && !t.deleted && t.mailing == mailing && t.sentAt.Some?
      && if axis == "clicks_ratio" then t.clickAt.Some?
         else if axis == "replied_ratio" then t.status == Reply
         else t.status == Open || t.status == Reply
  }

  /** What a comparison row says: each channel on its own axis, the sms one falling back to the mail axis. */
  lemma {:induction false} ComparedTells(ts: Table, v: Variant, mailAxis: string, smsAxis: Option<string>)
    ensures var row := Compared(ts, v, mailAxis, smsAxis);
            && row.mailing == v.mailing && row.isSms == v.isSms && row.parked == v.parked
            && row.hits == Count(ts, Answered(v.mailing, if v.isSms && smsAxis.Some? then smsAxis.value else mailAxis))
            && row.sent == CountOf(ts, v.mailing, Submitted)
  {
    var axis := if v.isSms && smsAxis.Some? then smsAxis.value else mailAxis;
    CountImplies(ts, SentHit(v.mailing, axis), Answered(v.mailing, axis));
    CountImplies(ts, Answered(v.mailing, axis), SentHit(v.mailing, axis));
  }

  /** Hits are counted among the sent, so this ratio is a percentage on every table, whatever the axes. */
  lemma {:induction false} ComparedRatioIsAPercentage(ts: Table, v: Variant, mailAxis: string, smsAxis: Option<string>)
    ensures var row := Compared(ts, v, mailAxis, smsAxis);
            && row.hits <= row.sent
            && (row.ratio.Some? <==> row.sent > 0)
            && (row.ratio.Some? ==> row.ratio.value <= 100)
  {
    var axis := if v.isSms && smsAxis.Some? then smsAxis.value else mailAxis;
    var row := Compared(ts, v, mailAxis, smsAxis);
    CountImplies(ts, SentHit(v.mailing, axis), Column(v.mailing, Submitted));
    if row.sent > 0 {
      RatioIsNearest(row.hits, row.sent);
    }
  }
}
