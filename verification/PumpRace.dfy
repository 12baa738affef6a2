/**
 * The SMS delivery pump, second arm: infer done under a row lock, while other pumps, verdicts,
 * operator verbs and crashes interleave.
 */
module PumpRace {
  import opened MailTypes
  import opened TraceLifecycle
  import opened TraceTable
  import opened BatchUpdate
  import opened SmsPump
  import M = MailingLifecycle

  /** The candidacy predicate of the scan and of the lock. */
  predicate Candidate(row: M.Mailing) {
    row.isSms && row.state.Sending? && row.walkDone && row.sendError.None? && !row.deleted
  }

  function TransientOf(mailing: Id): Trace -> bool {
    t => Transient(t) && t.mailing == mailing
  }

  /** The remaining-check: live traces of the mailing still waiting for a verdict. */
  function Remaining(ts: Table, mailing: Id): nat {
    Count(ts, TransientOf(mailing))
  }

  // ----- one pass, alone -------------------------------------------------------------------

  const CANDIDATE_BATCH: nat := 500

  function IsCandidate(): M.Mailing -> bool {
    row => Candidate(row)
  }

  function Quiet(ts: Table): Id -> bool {
    (mailing: Id) => Remaining(ts, mailing) == 0
  }

  /** The rows after the candidates in `done` have had their turn. */
  ghost predicate Inferred(start: seq<M.Mailing>, rows: seq<M.Mailing>, done: seq<Id>, quiet: Id -> bool, now: Time) {
    && |rows| == |start|
    && forall i: nat :: i < |start| ==>
         rows[i] == if i in done && quiet(i) then M.Updated(M.CompleteWalk, start[i], now) else start[i]
  }

  lemma {:induction false} CountSnoc(ids: seq<Id>, j: nat, p: Id -> bool)
    requires j < |ids|
    ensures Count(ids[..j + 1], p) == Count(ids[..j], p) + if p(ids[j]) then 1 else 0
    ensures forall x :: x in ids[..j + 1] <==> x in ids[..j] || x == ids[j]
  {
    assert ids[..j + 1] == ids[..j] + [ids[j]];
    CountAppend(ids[..j], [ids[j]], p);
    assert [ids[j]][1..] == [];
  }

  /**
   * The inference loop: scan, then lock, re-check and complete each candidate. Alone it completes
   * exactly the scanned mailings with no transient trace left, and counts each one.
   */
  method InferDone(mailings: M.MailingRepository, traces: TraceRepository, now: Time)
    returns (candidates: nat, completed: nat)
    modifies mailings
    ensures var ids := FirstIds(old(mailings.rows), IsCandidate(), CANDIDATE_BATCH, 0);
            && candidates == |ids| && completed == Count(ids, Quiet(traces.rows))
            && Inferred(old(mailings.rows), mailings.rows, ids, Quiet(traces.rows), now)
  {
    var ids := FirstIds(mailings.rows, IsCandidate(), CANDIDATE_BATCH, 0);
    ghost var start := mailings.rows;
    ghost var quiet := Quiet(traces.rows);
    FirstIdsAscend(start, IsCandidate(), CANDIDATE_BATCH, 0);
    candidates := |ids|;
    completed := 0;
    for j := 0 to |ids|
      invariant traces.rows == old(traces.rows)
      invariant completed == Count(ids[..j], quiet)
      invariant Inferred(start, mailings.rows, ids[..j], quiet, now)
    {
      var id := ids[j];
      FirstIdsMatch(start, IsCandidate(), CANDIDATE_BATCH, 0, j);
      CountSnoc(ids, j, quiet);
      assert id !in ids[..j];
      assert mailings.rows[id] == start[id];
      if Candidate(mailings.rows[id]) && Remaining(traces.rows, id) == 0 {
        var moved := mailings.Execute(id, M.CompleteWalk, now);
        if moved {
          completed := completed + 1;
        }
      }
      assert Inferred(start, mailings.rows, ids[..j + 1], quiet, now);
    }
    assert ids[..|ids|] == ids;
  }

  /** A live sms message of the mailing still on its way. */
  predicate IsWaiting(t: Trace, mailing: Id) {
    && t.mailing == mailing && t.channel == Sms && !t.deleted
    && (t.status.Outgoing? || t.status.Process? || t.status.Pending?)
  }

  /**
   * A pass within the candidate batch, to the field: it completes exactly the live, unparked sms
   * mailings whose walk is over and none of whose messages is on its way, and touches no other.
   */
  lemma {:induction false} InferenceTells(start: seq<M.Mailing>, rows: seq<M.Mailing>, ts: Table, now: Time, i: Id)
    requires Count(start, IsCandidate()) <= CANDIDATE_BATCH
    requires Inferred(start, rows, FirstIds(start, IsCandidate(), CANDIDATE_BATCH, 0), Quiet(ts), now)
    requires i < |start|
    ensures |rows| == |start|
    ensures var a := start[i];
            var over := && a.isSms && a.state == M.Sending && a.walkDone && a.sendError.None? && !a.deleted
                        && forall k :: 0 <= k < |ts| ==> !IsWaiting(ts[k], i);
            rows[i] == if over
                       then a.(state := M.Done, sentDate := Some(now), kpiRequired := a.kpiRequired || a.sentDate.None?)
                       else a
  {
    var ids := FirstIds(start, IsCandidate(), CANDIDATE_BATCH, 0);
    CountZero(ts, TransientOf(i));
    assert forall k :: 0 <= k < |ts| ==> TransientOf(i)(ts[k]) == IsWaiting(ts[k], i);
    if Candidate(start[i]) {
      FirstIdsComplete(start, IsCandidate(), CANDIDATE_BATCH, 0, i);
    }
    if i in ids {
      var j :| 0 <= j < |ids| && ids[j] == i;
      FirstIdsMatch(start, IsCandidate(), CANDIDATE_BATCH, 0, j);
    }
  }

  /** Within the candidate batch, a pass leaves nothing for a second one over the same traces to complete. */
  lemma {:induction false} SecondInferenceIsIdle(start: seq<M.Mailing>, rows: seq<M.Mailing>, ts: Table, now: Time,
          i: nat)
    requires Count(start, IsCandidate()) <= CANDIDATE_BATCH
    requires Inferred(start, rows, FirstIds(start, IsCandidate(), CANDIDATE_BATCH, 0), Quiet(ts), now)
    requires i < |rows| && Candidate(rows[i])
    ensures Remaining(ts, i) > 0 && rows[i] == start[i]
  {
    if Candidate(start[i]) {
      FirstIdsComplete(start, IsCandidate(), CANDIDATE_BATCH, 0, i);
    }
  }

  // ----- many pumps, verdicts, verbs and crashes -------------------------------------------

  /** Where one pump stands in its per-candidate transaction. */
  datatype Phase =
    | Idle
    | Locked
    | Checked(remaining: nat)
    | Ready(moved: bool)       // the completion is written but not committed
    | Committed(moved: bool)   // committed, the outcome not yet counted

  /** One mailing, the trace table, who holds the mailing's row lock, and where each pump stands. */
  datatype Race = Race(row: M.Mailing, traces: Table, holder: Option<nat>, phases: seq<Phase>)

  datatype Event =
    | TryLock(pump: nat)
    | Recheck(pump: nat)
    | CompleteUnderLock(pump: nat)
    | Commit(pump: nat, at: Time)
    | CountOutcome(pump: nat)
    | Crash(pump: nat)
    | OnTraces(step: Step)
    | OnMailing(write: M.Write, when: Time)

  predicate At(s: Race, pump: nat, phase: Phase) {
    pump < |s.phases| && s.phases[pump] == phase
  }

  function Enter(s: Race, pump: nat, phase: Phase): Race
    requires pump < |s.phases|
  {
    s.(phases := s.phases[pump := phase])
  }

  /** An event that cannot happen now (the lock is held, the pump is elsewhere) leaves the state. */
  function Next(s: Race, e: Event, mailing: Id): Race {
    match e
    case TryLock(w) =>
      if At(s, w, Idle) && s.holder.None? && Candidate(s.row) then Enter(s, w, Locked).(holder := Some(w)) else s
    case Recheck(w) =>
      if At(s, w, Locked) then Enter(s, w, Checked(Remaining(s.traces, mailing))) else s
    case CompleteUnderLock(w) =>
      if w < |s.phases| && s.phases[w].Checked?
      then Enter(s, w, Ready(s.phases[w].remaining == 0 && M.Guard(M.CompleteWalk, s.row))) else s
    case Commit(w, at) =>
      if w < |s.phases| && s.phases[w].Ready? then
        Enter(s, w, Committed(s.phases[w].moved)).(
          holder := None,
          row := if s.phases[w].moved then M.Updated(M.CompleteWalk, s.row, at) else s.row)
      else s
    case CountOutcome(w) =>
      if w < |s.phases| && s.phases[w].Committed? then Enter(s, w, Idle) else s
    case Crash(w) =>
      if w < |s.phases| then Enter(s, w, Idle).(holder := if s.holder == Some(w) then None else s.holder) else s
    case OnTraces(step) => s.(traces := Exec(s.traces, step))
    case OnMailing(write, when) => if s.holder.None? then s.(row := M.Apply(write, s.row, when)) else s
  }

  function RunRace(s: Race, events: seq<Event>, mailing: Id): Race
    decreases |events|
  {
    if events == [] then s else RunRace(Next(s, events[0], mailing), events[1..], mailing)
  }

  /** A pump has found nothing remaining, or written its completion, and has yet to commit. */
  predicate Closing(s: Race) {
    exists w :: 0 <= w < |s.phases| && (s.phases[w] == Checked(0) || s.phases[w] == Ready(true))
  }

  predicate IsTransientMint(e: Event, mailing: Id) {
    e.OnTraces? && e.step.Mint? && TransientOf(mailing)(e.step.row)
  }

  /** No transient trace of the mailing is minted while a pump is closing it. */
  predicate MintsInTime(s: Race, e: Event, mailing: Id) {
    IsTransientMint(e, mailing) ==> !Closing(s)
  }

  predicate Legal(s: Race, events: seq<Event>, mailing: Id)
    decreases |events|
  {
    events == [] || (MintsInTime(s, events[0], mailing) && Legal(Next(s, events[0], mailing), events[1..], mailing))
  }

  /** The event takes the sending -> done edge by inference. */
  predicate Infers(s: Race, e: Event) {
    e.Commit? && At(s, e.pump, Ready(true))
  }

  /** When it is right to close an sms mailing. */
  predicate SafeToClose(s: Race, mailing: Id) {
    && s.row.state.Sending? && s.row.walkDone && s.row.sendError.None? && !s.row.deleted
    && Remaining(s.traces, mailing) == 0
  }

  predicate InTransaction(p: Phase) {
    p.Locked? || p.Checked? || p.Ready?
  }

  /** The row lock: a pump inside its transaction holds it, and holds it over a candidate. */
  ghost predicate Locking(s: Race) {
    && (s.holder.Some? ==> s.holder.value < |s.phases| && Candidate(s.row))
    && (forall w :: 0 <= w < |s.phases| && InTransaction(s.phases[w]) ==> s.holder == Some(w))
  }

  ghost predicate Coherent(s: Race, mailing: Id) {
    && Locking(s)
    && (forall w :: 0 <= w < |s.phases| && (s.phases[w] == Checked(0) || s.phases[w] == Ready(true)) ==>
          Remaining(s.traces, mailing) == 0)
  }

  /** No verb and no retry brings a trace back to waiting; a mint in time cannot either. */
  lemma {:induction false} QuietStaysQuiet(ts: Table, step: Step, mailing: Id)
    requires Remaining(ts, mailing) == 0
    requires !(step.Mint? && TransientOf(mailing)(step.row))
    ensures Remaining(Exec(ts, step), mailing) == 0
  {
    var p := TransientOf(mailing);
    CountZero(ts, p);
    CountZero(Exec(ts, step), p);
    forall i | 0 <= i < |Exec(ts, step)|
      ensures !p(Exec(ts, step)[i])
    {
      if step.FreeErrors? {
        UpdateFirstPointwise(ts, LiveErrorsOf(step.mailing), SoftDeleted(), step.limit, i);
      }
      if i < |ts| {
        assert !p(ts[i]);
      }
    }
  }

  lemma {:induction false} StepStaysCoherent(s: Race, e: Event, mailing: Id)
    requires Coherent(s, mailing) && MintsInTime(s, e, mailing)
    ensures Coherent(Next(s, e, mailing), mailing)
  {
    if e.OnTraces? && Closing(s) {
      QuietStaysQuiet(s.traces, e.step, mailing);
    }
  }

  predicate EveryInferenceIsSafe(s: Race, events: seq<Event>, mailing: Id)
    decreases |events|
  {
    events == [] || ((Infers(s, events[0]) ==> SafeToClose(s, mailing) && Next(s, events[0], mailing).row.state.Done?)
                     && EveryInferenceIsSafe(Next(s, events[0], mailing), events[1..], mailing))
  }

  /**
   * Safety under every interleaving of pumps, verdicts, verbs, retries and crashes: each time a pump
   * takes a mailing to done, at that very step the mailing is sending, walked out, unparked and
   * without a transient trace.
   */
  lemma {:induction false} InferenceIsSafe(s: Race, events: seq<Event>, mailing: Id)
    requires Coherent(s, mailing) && Legal(s, events, mailing)
    ensures EveryInferenceIsSafe(s, events, mailing)
    ensures Coherent(RunRace(s, events, mailing), mailing)
    decreases |events|
  {
    if events != [] {
      StepStaysCoherent(s, events[0], mailing);
      InferenceIsSafe(Next(s, events[0], mailing), events[1..], mailing);
    }
  }

  /** The walk's own discipline is enough: it mints nothing once it has stamped its marker. */
  lemma {:induction false} MarkerDisciplineSuffices(s: Race, e: Event, mailing: Id)
    requires Coherent(s, mailing) && (IsTransientMint(e, mailing) ==> !s.row.walkDone)
    ensures MintsInTime(s, e, mailing)
  {}

  /** Where the runs start: every pump idle, nobody holding the lock. */
  predicate AllIdle(s: Race) {
    s.holder.None? && forall w :: 0 <= w < |s.phases| ==> s.phases[w].Idle?
  }

  /** The walk's discipline over a whole run: nothing transient is minted once the marker is stamped. */
  predicate Disciplined(s: Race, events: seq<Event>, mailing: Id)
    decreases |events|
  {
    events == [] ||
    (&& (IsTransientMint(events[0], mailing) ==> !s.row.walkDone)
     && Disciplined(Next(s, events[0], mailing), events[1..], mailing))
  }

  lemma {:induction false} DisciplineIsLegal(s: Race, events: seq<Event>, mailing: Id)
    requires Coherent(s, mailing) && Disciplined(s, events, mailing)
    ensures Legal(s, events, mailing)
    decreases |events|
  {
    if events != [] {
      MarkerDisciplineSuffices(s, events[0], mailing);
      StepStaysCoherent(s, events[0], mailing);
      DisciplineIsLegal(Next(s, events[0], mailing), events[1..], mailing);
    }
  }

  /** So from idle pumps, whatever the traces and the mailing, a disciplined run only infers safely. */
  lemma {:induction false} DisciplinedRunsAreSafe(s: Race, events: seq<Event>, mailing: Id)
    requires AllIdle(s) && Disciplined(s, events, mailing)
    ensures EveryInferenceIsSafe(s, events, mailing)
  {
    DisciplineIsLegal(s, events, mailing);
    InferenceIsSafe(s, events, mailing);
  }

  /** A crash before the commit loses nothing but the lock, which the others can take again. */
  lemma {:induction false} CrashFreesTheLock(s: Race, w: nat, mailing: Id)
    requires Locking(s) && s.holder == Some(w)
    ensures var u := Next(s, Crash(w), mailing);
            && u.row == s.row && u.traces == s.traces && u.holder.None? && At(u, w, Idle)
            && forall x :: 0 <= x < |s.phases| && x != w ==> u.phases[x] == s.phases[x]
  {}

  lemma {:induction false} RaceStep(s: Race, e: Event, rest: seq<Event>, mailing: Id)
    ensures RunRace(s, [e] + rest, mailing) == RunRace(Next(s, e, mailing), rest, mailing)
  {
    assert ([e] + rest)[1..] == rest;
  }

  /** And a pump left alone does close: where closing is right and the lock is free, it gets to done and counts it. */
  lemma {:induction false} PumpCloses(s: Race, w: nat, mailing: Id, at: Time)
    requires SafeToClose(s, mailing) && s.row.isSms && s.holder.None? && At(s, w, Idle)
    ensures var done := RunRace(s, [TryLock(w), Recheck(w), CompleteUnderLock(w), Commit(w, at)], mailing);
            && done.row == s.row.(state := M.Done, sentDate := Some(at),
                                  kpiRequired := s.row.kpiRequired || s.row.sentDate.None?)
            && done.holder.None? && At(done, w, Committed(true))
  {
    var e1, e2, e3, e4 := TryLock(w), Recheck(w), CompleteUnderLock(w), Commit(w, at);
    assert [e1, e2, e3, e4] == [e1] + ([e2] + ([e3] + ([e4] + [])));
    RaceStep(s, e1, [e2] + ([e3] + ([e4] + [])), mailing);
    var s1 := Next(s, e1, mailing);
    assert s1 == Enter(s, w, Locked).(holder := Some(w));
    RaceStep(s1, e2, [e3] + ([e4] + []), mailing);
    var s2 := Next(s1, e2, mailing);
    assert s2 == Enter(s1, w, Checked(0));
    RaceStep(s2, e3, [e4] + [], mailing);
    var s3 := Next(s2, e3, mailing);
    assert s3 == Enter(s2, w, Ready(true));
    RaceStep(s3, e4, [], mailing);
  }

  // ----- each edge is counted once ---------------------------------------------------------

  function Edges(s: Race, events: seq<Event>, mailing: Id): nat
    decreases |events|
  {
    if events == [] then 0
    else (if Infers(s, events[0]) then 1 else 0) + Edges(Next(s, events[0], mailing), events[1..], mailing)
  }

  /** How often a pump added a completion to its outcome. */
  function Counted(s: Race, events: seq<Event>, mailing: Id): nat
    decreases |events|
  {
    if events == [] then 0
    else (if events[0].CountOutcome? && At(s, events[0].pump, Committed(true)) then 1 else 0)
         + Counted(Next(s, events[0], mailing), events[1..], mailing)
  }

  /** Completions committed by a pump that crashed before counting. */
  function LostToCrashes(s: Race, events: seq<Event>, mailing: Id): nat
    decreases |events|
  {
    if events == [] then 0
    else (if events[0].Crash? && At(s, events[0].pump, Committed(true)) then 1 else 0)
         + LostToCrashes(Next(s, events[0], mailing), events[1..], mailing)
  }

  function Uncounted(): Phase -> bool {
    p => p == Committed(true)
  }

  function Pending(s: Race): nat {
    Count(s.phases, Uncounted())
  }

  lemma {:induction false} PendingStep(s: Race, e: Event, mailing: Id)
    ensures Pending(Next(s, e, mailing)) + (if e.CountOutcome? && At(s, e.pump, Committed(true)) then 1 else 0)
                                         + (if e.Crash? && At(s, e.pump, Committed(true)) then 1 else 0)
         == Pending(s) + (if Infers(s, e) then 1 else 0)
  {
    var s' := Next(s, e, mailing);
    if !e.OnTraces? && !e.OnMailing? && e.pump < |s.phases| {
      CountUpdate(s.phases, e.pump, s'.phases[e.pump], Uncounted());
      assert s'.phases == s.phases[e.pump := s'.phases[e.pump]];
    }
  }

  /**
   * The ledger of completions: every edge taken is counted by one pump, still to be counted by the
   * pump that committed it, or lost with a pump that crashed in between; none is counted twice.
   */
  lemma {:induction false} EdgesAreCountedOnce(s: Race, events: seq<Event>, mailing: Id)
    ensures Pending(s) + Edges(s, events, mailing)
         == Counted(s, events, mailing) + LostToCrashes(s, events, mailing) + Pending(RunRace(s, events, mailing))
    decreases |events|
  {
    if events != [] {
      PendingStep(s, events[0], mailing);
      EdgesAreCountedOnce(Next(s, events[0], mailing), events[1..], mailing);
    }
  }

  /** The lock alone, whatever is minted, keeps to its rules. */
  lemma {:induction false} StepKeepsLocking(s: Race, e: Event, mailing: Id)
    requires Locking(s)
    ensures Locking(Next(s, e, mailing))
    ensures Infers(s, e) ==> s.row.state.Sending? && Next(s, e, mailing).row.state.Done?
    ensures Next(s, e, mailing).row != s.row ==> Infers(s, e) || e.OnMailing?
  {}

  /** The event takes the mailing from another state to sending. */
  predicate Reopens(s: Race, e: Event, mailing: Id) {
    !s.row.state.Sending? && Next(s, e, mailing).row.state.Sending?
  }

  function Reopenings(s: Race, events: seq<Event>, mailing: Id): nat
    decreases |events|
  {
    if events == [] then 0
    else (if Reopens(s, events[0], mailing) then 1 else 0)
         + Reopenings(Next(s, events[0], mailing), events[1..], mailing)
  }

  /**
   * However many pumps race, and whatever writes, verdicts, mints and crashes come between, at most
   * one edge is taken per opening: the one the run starts in, and each later one.
   */
  lemma {:induction false} OneEdgePerOpening(s: Race, events: seq<Event>, mailing: Id)
    requires Locking(s)
    ensures Edges(s, events, mailing) <= (if s.row.state.Sending? then 1 else 0) + Reopenings(s, events, mailing)
    decreases |events|
  {
    if events != [] {
      StepKeepsLocking(s, events[0], mailing);
      OneEdgePerOpening(Next(s, events[0], mailing), events[1..], mailing);
    }
  }

  lemma {:induction false} UnsafeLater(s: Race, e: Event, rest: seq<Event>, mailing: Id)
    requires !EveryInferenceIsSafe(Next(s, e, mailing), rest, mailing)
    ensures !EveryInferenceIsSafe(s, [e] + rest, mailing)
  {
    assert ([e] + rest)[1..] == rest;
  }

  /** The discipline is needed: a transient trace that lands while a pump is closing is closed over. */
  lemma {:induction false} LateMintIsClosedOver(s: Race, late: Trace, mailing: Id) returns (rest: seq<Event>)
    requires Coherent(s, mailing) && Closing(s) && TransientOf(mailing)(late) && Admits(s.traces, late)
    ensures Legal(Next(s, OnTraces(Mint(late)), mailing), rest, mailing)
    ensures !EveryInferenceIsSafe(s, [OnTraces(Mint(late))] + rest, mailing)
  {
    var e := OnTraces(Mint(late));
    var w :| 0 <= w < |s.phases| && (s.phases[w] == Checked(0) || s.phases[w] == Ready(true));
    var s1 := Next(s, e, mailing);
    CountAppend(s.traces, [late], TransientOf(mailing));
    assert [late][1..] == [];
    assert Remaining(s1.traces, mailing) == 1;
    assert [Commit(w, 1)][1..] == [];
    if s.phases[w] == Ready(true) {
      rest := [Commit(w, 1)];
      assert !EveryInferenceIsSafe(s1, rest, mailing);
    } else {
      rest := [CompleteUnderLock(w)] + [Commit(w, 1)];
      assert rest[1..] == [Commit(w, 1)];
      var s2 := Next(s1, CompleteUnderLock(w), mailing);
      assert Infers(s2, Commit(w, 1));
      assert !EveryInferenceIsSafe(s2, [Commit(w, 1)], mailing);
    }
    UnsafeLater(s, e, rest, mailing);
  }

  /** Exactly when minting a transient trace is harmless to every legal continuation: no pump is closing. */
  lemma {:induction false} LateMintIff(s: Race, late: Trace, mailing: Id)
    requires Coherent(s, mailing) && TransientOf(mailing)(late) && Admits(s.traces, late)
    ensures (forall rest: seq<Event> :: Legal(Next(s, OnTraces(Mint(late)), mailing), rest, mailing) ==>
               EveryInferenceIsSafe(s, [OnTraces(Mint(late))] + rest, mailing))
       <==> !Closing(s)
  {
    var e := OnTraces(Mint(late));
    if Closing(s) {
      var rest := LateMintIsClosedOver(s, late, mailing);
    } else {
      forall rest: seq<Event> | Legal(Next(s, e, mailing), rest, mailing)
        ensures EveryInferenceIsSafe(s, [e] + rest, mailing)
      {
        assert ([e] + rest)[1..] == rest;
        InferenceIsSafe(s, [e] + rest, mailing);
      }
    }
  }
}
