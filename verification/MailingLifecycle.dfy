/**
 * The mailing row: the generated state machine, the guarded UPDATEs that move it, and what every
 * run of those statements keeps: the completion stamp, the first-completion flag, the park marker.
 */
module MailingLifecycle {
  import opened MailTypes

  // ----- the generated machine -------------------------------------------------------------

  datatype State = Draft | InQueue | Sending | Done

  datatype Edge = Launch | Pickup | Complete | CompleteEmpty | Cancel | Unpark | RetryFailed

  const EDGES: seq<Edge> := [Launch, Pickup, Complete, CompleteEmpty, Cancel, Unpark, RetryFailed]

  function TargetState(e: Edge): State {
    match e
    case Launch => InQueue
    case Pickup => Sending
    case Complete => Done
    case CompleteEmpty => Done
    case Cancel => Draft
    case Unpark => InQueue
    case RetryFailed => InQueue
  }

  predicate CanTransition(s: State, e: Edge) {
    match s
    case Draft => e.Launch?
    case InQueue => e.Pickup? || e.CompleteEmpty? || e.Cancel?
    case Sending => e.Complete? || e.Cancel? || e.Unpark?
    case Done => e.Cancel? || e.RetryFailed?
  }

  /** Some declared edge leads from `a` to `b`. */
  predicate Leads(a: State, b: State) {
    exists e: Edge :: CanTransition(a, e) && TargetState(e) == b
  }

  datatype Refusal = NoSuchEdge(from: State) | NoEdgeTo(from: State, target: State)

  lemma {:induction false} EveryEdgeIsListed(e: Edge)
    ensures exists k :: 0 <= k < |EDGES| && EDGES[k] == e
  {
    var k := match e
      case Launch => 0
      case Pickup => 1
      case Complete => 2
      case CompleteEmpty => 3
      case Cancel => 4
      case Unpark => 5
      case RetryFailed => 6;
    assert EDGES[k] == e;
  }

  class MailingStateMachine {
    var currentState: State

    constructor ()
      ensures currentState == Draft
    {
      currentState := Draft;
    }

    method Transition(e: Edge) returns (r: Result<State, Refusal>)
      modifies this
      ensures CanTransition(old(currentState), e) ==> currentState == TargetState(e) && r == Ok(currentState)
      ensures !CanTransition(old(currentState), e) ==>
                currentState == old(currentState) && r == Err(NoSuchEdge(currentState))
    {
      if !CanTransition(currentState, e) {
        return Err(NoSuchEdge(currentState));
      }
      currentState := TargetState(e);
      return Ok(currentState);
    }

    /** Search the edges for one that leads to the target: found exactly when the machine has one. */
    method TransitionToState(target: State) returns (r: Result<State, Refusal>)
      modifies this
      ensures Leads(old(currentState), target) ==> currentState == target && r == Ok(target)
      ensures !Leads(old(currentState), target) ==>
                currentState == old(currentState) && r == Err(NoEdgeTo(currentState, target))
    {
      for i := 0 to |EDGES|
        invariant currentState == old(currentState)
        invariant forall k :: 0 <= k < i ==> !(CanTransition(currentState, EDGES[k]) && TargetState(EDGES[k]) == target)
      {
        if CanTransition(currentState, EDGES[i]) && TargetState(EDGES[i]) == target {
          r := Transition(EDGES[i]);
          return;
        }
      }
      forall e: Edge
        ensures !(CanTransition(currentState, e) && TargetState(e) == target)
      {
        EveryEdgeIsListed(e);
      }
      return Err(NoEdgeTo(currentState, target));
    }
  }

  /** The (old, new) pairs the database trigger admits; every other state change raises. */
  const TRIGGER_PAIRS: set<(State, State)> := {
    (Done, Draft), (Done, InQueue), (Draft, InQueue), (InQueue, Done), (InQueue, Draft),
    (InQueue, Sending), (Sending, Done), (Sending, Draft), (Sending, InQueue)
  }

  lemma {:induction false} TriggerIsTheMachine(a: State, b: State)
    ensures (a, b) in TRIGGER_PAIRS <==> Leads(a, b)
  {
    if (a, b) in TRIGGER_PAIRS {
      var e := match b
        case Draft => Cancel
        case Sending => Pickup
        case Done => if a.Sending? then Complete else CompleteEmpty
        case InQueue => if a.Draft? then Launch else if a.Sending? then Unpark else RetryFailed;
      assert CanTransition(a, e) && TargetState(e) == b;
    }
  }

  // ----- the row and its statements --------------------------------------------------------

  datatype Mailing = Mailing(
    state: State,
    isSms: bool,
    body: Option<string>,
    schedule: Option<Time>,
    sentDate: Option<Time>,
    kpiRequired: bool,
    sendError: Option<string>,
    walkDone: bool,
    deleted: bool)

  datatype Write =
    | QueueDraft(schedule: Option<Time>)
    | FlipSending
    | Park(reason: string)
    | ClearPark
    | CompleteWalk
    | CompleteNobody
    | MarkWalkDone
    | RequeueDone
    | CancelToDraft

  /** The WHERE arm of each UPDATE. */
  predicate Guard(w: Write, m: Mailing) {
    && !m.deleted
    && match w
       case QueueDraft(_) => m.state == Draft
       case FlipSending => m.state == InQueue
       case Park(_) => m.state in {InQueue, Sending}
       case ClearPark => m.state == Sending && m.sendError.Some?
       case CompleteWalk => m.state == Sending
       case CompleteNobody => m.state in {InQueue, Sending}
       case MarkWalkDone => m.state == Sending && !m.walkDone
       case RequeueDone => m.state == Done
       case CancelToDraft => m.state in {InQueue, Sending, Done}
  }

  /** The SET arm of each UPDATE. */
  function Updated(w: Write, m: Mailing, now: Time): Mailing {
    match w
    case QueueDraft(schedule) => m.(state := InQueue, schedule := schedule)
    case FlipSending => m.(state := Sending)
    case Park(reason) => m.(state := Sending, sendError := Some(reason))
    case ClearPark => m.(state := InQueue, sendError := None)
    case CompleteWalk => m.(state := Done, sentDate := Some(now), kpiRequired := m.kpiRequired || m.sentDate.None?)
    case CompleteNobody => m.(state := Done, sentDate := Some(now))
    case MarkWalkDone => m.(walkDone := true)
    case RequeueDone => m.(state := InQueue)
    case CancelToDraft => m.(state := Draft, schedule := None)
  }

  function Apply(w: Write, m: Mailing, now: Time): Mailing {
    if Guard(w, m) then Updated(w, m, now) else m
  }

  /** The edge a statement declares, if it is one edge. */
  function EdgeOf(w: Write): Option<Edge> {
    match w
    case QueueDraft(_) => Some(Launch)
    case FlipSending => Some(Pickup)
    case ClearPark => Some(Unpark)
    case CompleteWalk => Some(Complete)
    case CompleteNobody => Some(CompleteEmpty)
    case RequeueDone => Some(RetryFailed)
    case CancelToDraft => Some(Cancel)
    case _ => None
  }

  /** Every statement is a stutter or takes a declared edge, so the trigger never raises on one. */
  lemma {:induction false} WritesFollowTheMachine(w: Write, m: Mailing, now: Time)
    ensures Apply(w, m, now).state == m.state || Leads(m.state, Apply(w, m, now).state)
    ensures Apply(w, m, now).state != m.state ==> (m.state, Apply(w, m, now).state) in TRIGGER_PAIRS
  {
    var b := Apply(w, m, now).state;
    TriggerIsTheMachine(m.state, b);
  }

  /**
   * Each statement that names an edge fires only where the machine has that edge and lands on its
   * target, with one exception: complete_empty also fires from `sending`, where the machine only has
   * `complete`. Conversely, on a live row every edge the machine has is open to its statement, except
   * that only a parked mailing can be unparked.
   */
  lemma {:induction false} GuardsAreEdgesIff(w: Write, m: Mailing, now: Time)
    requires EdgeOf(w).Some?
    ensures Guard(w, m) ==>
              && Updated(w, m, now).state == TargetState(EdgeOf(w).value)
              && (CanTransition(m.state, EdgeOf(w).value) <==> !(w.CompleteNobody? && m.state.Sending?))
    ensures !m.deleted && CanTransition(m.state, EdgeOf(w).value) ==>
              (Guard(w, m) <==> (w.ClearPark? ==> m.sendError.Some?))
  {}

  /** The walk marker is stamped once and moves nothing else; a replay matches no row. */
  lemma {:induction false} MarkerIsIdempotent(m: Mailing, now: Time, later: Time)
    ensures var marked := Apply(MarkWalkDone, m, now);
            && marked.(walkDone := m.walkDone) == m
            && (m.state.Sending? && !m.deleted ==> marked.walkDone)
            && Apply(MarkWalkDone, marked, later) == marked
  {}

  /**
   * The statements that name no edge, to the field: a park lands on live queued and sending rows and
   * records its reason; the walk marker is stamped on live sending rows; neither touches anything else.
   */
  lemma {:induction false} MarksAreExact(m: Mailing, reason: string, now: Time)
    ensures Apply(Park(reason), m, now)
         == if !m.deleted && (m.state == InQueue || m.state == Sending)
            then m.(state := Sending, sendError := Some(reason)) else m
    ensures Apply(MarkWalkDone, m, now)
         == if !m.deleted && m.state == Sending then m.(walkDone := true) else m
  {}

  // ----- runs ------------------------------------------------------------------------------

  datatype Stmt = Stmt(write: Write, at: Time)

  function RunWrites(m: Mailing, run: seq<Stmt>): Mailing
    decreases |run|
  {
    if run == [] then m else RunWrites(Apply(run[0].write, m, run[0].at), run[1..])
  }

  predicate Completes(w: Write, m: Mailing) {
    (w.CompleteWalk? || w.CompleteNobody?) && Guard(w, m)
  }

  /** The completions of a run that matched their row, in order. */
  function Completions(m: Mailing, run: seq<Stmt>): seq<Stmt>
    decreases |run|
  {
    if run == [] then []
    else
      (if Completes(run[0].write, m) then [run[0]] else [])
      + Completions(Apply(run[0].write, m, run[0].at), run[1..])
  }

  /**
   * The history of any mailing, read off its completions: sent_date is the time of the LAST one, and
   * the flag is raised exactly when the FIRST one ever was a walk's completion, not an empty one.
   */
  lemma {:induction false} CompletionHistory(m: Mailing, run: seq<Stmt>)
    ensures var u, done := RunWrites(m, run), Completions(m, run);
            && u.sentDate == (if done == [] then m.sentDate else Some(done[|done| - 1].at))
            && (u.kpiRequired <==> m.kpiRequired || (m.sentDate.None? && done != [] && done[0].write.CompleteWalk?))
    decreases |run|
  {
    if run != [] {
      CompletionHistory(Apply(run[0].write, m, run[0].at), run[1..]);
    }
  }

  /** Done always carries a completion stamp, the stamp is never cleared and the flag never falls. */
  lemma {:induction false} DoneIsStamped(m: Mailing, run: seq<Stmt>)
    requires m.state.Done? ==> m.sentDate.Some?
    ensures RunWrites(m, run).state.Done? ==> RunWrites(m, run).sentDate.Some?
    ensures m.sentDate.Some? ==> RunWrites(m, run).sentDate.Some?
    ensures m.kpiRequired ==> RunWrites(m, run).kpiRequired
    decreases |run|
  {
    if run != [] {
      DoneIsStamped(Apply(run[0].write, m, run[0].at), run[1..]);
    }
  }

  /**
   * The stamp is not written once. Whatever the history of a mailing never completed at its start,
   * the next completion writes its own time, and it overwrites a stamp that was standing exactly
   * when an earlier completion of that history matched.
   */
  lemma {:induction false} StampStandsIff(m: Mailing, run: seq<Stmt>, w: Write, now: Time)
    requires m.sentDate.None? && Completes(w, RunWrites(m, run))
    ensures var u := RunWrites(m, run);
            && Apply(w, u, now).sentDate == Some(now)
            && (u.sentDate.Some? <==> Completions(m, run) != [])
  {
    CompletionHistory(m, run);
  }

  /** Complete, retry, complete: the stamp moves. */
  lemma {:induction false} RetryRestamps(m: Mailing)
    requires m.state.Sending? && m.sentDate.None? && !m.deleted
    ensures var run := [Stmt(CompleteWalk, 1), Stmt(RequeueDone, 2), Stmt(FlipSending, 3), Stmt(CompleteWalk, 4)];
            RunWrites(m, run).sentDate == Some(4) && RunWrites(m, run[..1]).sentDate == Some(1)
  {}

  // ----- claiming and parking --------------------------------------------------------------

  /** The claim's WHERE arm. */
  predicate Claimable(m: Mailing, now: Time) {
    && m.state in {InQueue, Sending} && !m.deleted && m.sendError.None?
    && (m.schedule.None? || m.schedule.value <= now)
  }

  /** The statements the engine issues, on mailings it has claimed; the others are operator verbs. */
  predicate EngineWrite(w: Write) {
    w.FlipSending? || w.Park? || w.CompleteWalk? || w.CompleteNobody? || w.MarkWalkDone?
  }

  /** Engine statements only on claimable rows; operator verbs whenever. */
  predicate Disciplined(m: Mailing, run: seq<Stmt>)
    decreases |run|
  {
    run == [] || ((EngineWrite(run[0].write) ==> Claimable(m, run[0].at))
                  && Disciplined(Apply(run[0].write, m, run[0].at), run[1..]))
  }

  /** The park marker outlives everything but an unpark that matched. */
  lemma {:induction false} ParkHoldsUntilUnparked(m: Mailing, run: seq<Stmt>, now: Time)
    requires m.sendError.Some?
    requires forall i :: 0 <= i < |run| ==> !run[i].write.ClearPark?
    ensures RunWrites(m, run).sendError.Some? && !Claimable(RunWrites(m, run), now)
    decreases |run|
  {
    if run != [] {
      assert forall i :: 0 <= i < |run[1..]| ==> run[1..][i] == run[i + 1];
      ParkHoldsUntilUnparked(Apply(run[0].write, m, run[0].at), run[1..], now);
    }
  }

  /** The walk marker outlives everything, cancel and relaunch included. */
  lemma {:induction false} WalkMarkerIsForever(m: Mailing, run: seq<Stmt>)
    requires m.walkDone
    ensures RunWrites(m, run).walkDone
    decreases |run|
  {
    if run != [] {
      WalkMarkerIsForever(Apply(run[0].write, m, run[0].at), run[1..]);
    }
  }

  /** A parked mailing that has left `sending` (canceled, say) stays out of reach of claim and unpark. */
  lemma {:induction false} TrapIsClosed(m: Mailing, run: seq<Stmt>, now: Time)
    requires m.sendError.Some? && !m.state.Sending? && Disciplined(m, run)
    ensures RunWrites(m, run).sendError.Some? && !RunWrites(m, run).state.Sending?
    ensures !Claimable(RunWrites(m, run), now)
    decreases |run|
  {
    if run != [] {
      TrapIsClosed(Apply(run[0].write, m, run[0].at), run[1..], now);
    }
  }

  ghost predicate Recoverable(m: Mailing) {
    exists run: seq<Stmt>, now: Time :: Disciplined(m, run) && Claimable(RunWrites(m, run), now)
  }

  /**
   * Exactly when a parked mailing can be sent again: while it is still `sending`. Canceling it first
   * (cancel keeps the marker) leaves no sequence of verbs and sweeps that ever claims it.
   */
  lemma {:induction false} ParkIsRecoverableIff(m: Mailing)
    requires m.sendError.Some? && !m.deleted
    ensures Recoverable(m) <==> m.state.Sending?
  {
    if m.state.Sending? {
      var run := [Stmt(ClearPark, 0)];
      var now := if m.schedule.Some? then m.schedule.value else 0;
      assert run[1..] == [];
      assert Disciplined(m, run) && Claimable(RunWrites(m, run), now);
    } else if Recoverable(m) {
      var run: seq<Stmt>, now: Time :| Disciplined(m, run) && Claimable(RunWrites(m, run), now);
      TrapIsClosed(m, run, now);
    }
  }

  /** The way in: park, cancel, relaunch. All three verbs succeed, and the mailing is never claimable again. */
  lemma {:induction false} CancelTrapsAParked(m: Mailing, reason: string, run: seq<Stmt>, now: Time)
    requires Claimable(m, now)
    ensures var stuck := Apply(QueueDraft(None), Apply(CancelToDraft, Apply(Park(reason), m, now), now), now);
            && stuck.state == InQueue && stuck.sendError == Some(reason)
            && (Disciplined(stuck, run) ==> !Claimable(RunWrites(stuck, run), now))
  {
    var stuck := Apply(QueueDraft(None), Apply(CancelToDraft, Apply(Park(reason), m, now), now), now);
    if Disciplined(stuck, run) {
      TrapIsClosed(stuck, run, now);
    }
  }

  // ----- the repository and the verbs over it ----------------------------------------------

  datatype VerbError =
    | NotFound
    | Conflict(state: State)
    | NeedsScheduleDate
    | UnknownScheduleType(raw: string)
    | SmsNeedsBody

  /** What a body says once trimmed; only whether anything is left matters. */
  predicate Blank(body: Option<string>, trim: string -> string) {
    body.None? || trim(body.value) == ""
  }

  class MailingRepository {
    var rows: seq<Mailing>

    constructor (rows: seq<Mailing>)
      ensures this.rows == rows
    {
      this.rows := rows;
    }

    /** One guarded UPDATE: true exactly when the row was there and its WHERE arm matched. */
    method Execute(id: Id, w: Write, now: Time) returns (moved: bool)
      modifies this
      ensures |rows| == |old(rows)|
      ensures moved <==> id < |old(rows)| && Guard(w, old(rows)[id])
      ensures forall i :: 0 <= i < |rows| ==> rows[i] == if i == id then Apply(w, old(rows)[i], now) else old(rows)[i]
    {
      moved := id < |rows| && Guard(w, rows[id]);
      if moved {
        rows := rows[id := Updated(w, rows[id], now)];
      }
    }

    /** The verbs' probe after a miss. */
    function WhyNot(id: Id): VerbError
      reads this
    {
      if id < |rows| && !rows[id].deleted then Conflict(rows[id].state) else NotFound
    }

    /**
     * Launch: validate the schedule, refuse an sms mailing without a usable body, then take the
     * draft to the queue. A refusal, of any kind, changes nothing.
     */
    method LaunchMailing(id: Id, scheduleType: string, date: Option<Time>, trim: string -> string, now: Time)
      returns (r: Result<(), VerbError>)
      modifies this
      ensures r.Err? ==> rows == old(rows)
      ensures r == Err(UnknownScheduleType(scheduleType))
         <==> scheduleType != "immediate" && scheduleType != "scheduled"
      ensures r == Err(NeedsScheduleDate) <==> scheduleType == "scheduled" && date.None?
      ensures scheduleType == "immediate" || (scheduleType == "scheduled" && date.Some?) ==>
                (r == Err(NotFound) <==> !(id < |old(rows)| && !old(rows)[id].deleted))
      ensures r == Err(SmsNeedsBody) ==> id < |old(rows)| && old(rows)[id].isSms
      ensures r == Err(SmsNeedsBody) ==> old(rows)[id].body.None? || trim(old(rows)[id].body.value) == ""
      ensures r.Err? && r.error.Conflict? ==>
                id < |old(rows)| && r.error.state == old(rows)[id].state && !r.error.state.Draft?
      ensures r.Ok? <==> && (scheduleType == "immediate" || (scheduleType == "scheduled" && date.Some?))
                         && id < |old(rows)| && !old(rows)[id].deleted && old(rows)[id].state.Draft?
                         && (old(rows)[id].isSms ==>
                               old(rows)[id].body.Some? && trim(old(rows)[id].body.value) != "")
      ensures r.Ok? ==> rows == old(rows)[id := old(rows)[id].(state := InQueue,
                          schedule := if scheduleType == "immediate" then None else date)]
    {
      var schedule: Option<Time>;
      if scheduleType == "immediate" {
        schedule := None;
      } else if scheduleType == "scheduled" {
        if date.None? {
          return Err(NeedsScheduleDate);
        }
        schedule := date;
      } else {
        return Err(UnknownScheduleType(scheduleType));
      }
      if id >= |rows| || rows[id].deleted {
        return Err(NotFound);
      }
      if rows[id].isSms && Blank(rows[id].body, trim) {
        return Err(SmsNeedsBody);
      }
      var queued := Execute(id, QueueDraft(schedule), now);
      if !queued {
        return Err(WhyNot(id));
      }
      return Ok(());
    }

    /** Cancel, and requeue-after-fix: the guarded statement, or the reason it matched nothing. */
    method CancelMailing(id: Id, now: Time) returns (r: Result<(), VerbError>)
      modifies this
      ensures r.Ok? <==> id < |old(rows)| && !old(rows)[id].deleted && !old(rows)[id].state.Draft?
      ensures r.Ok? ==> rows == old(rows)[id := old(rows)[id].(state := Draft, schedule := None)]
      ensures r.Err? ==> rows == old(rows)
      ensures r.Err? ==> r.error == if id < |rows| && !rows[id].deleted then Conflict(rows[id].state) else NotFound
    {
      var moved := Execute(id, CancelToDraft, now);
      return if moved then Ok(()) else Err(WhyNot(id));
    }

    method RequeueAfterDomainFix(id: Id, now: Time) returns (r: Result<(), VerbError>)
      modifies this
      ensures r.Ok?
         <==> id < |old(rows)| && !old(rows)[id].deleted
              && old(rows)[id].state.Sending? && old(rows)[id].sendError.Some?
      ensures r.Ok? ==> rows == old(rows)[id := old(rows)[id].(state := InQueue, sendError := None)]
      ensures r.Err? ==> rows == old(rows)
      ensures r.Err? ==> r.error == if id < |rows| && !rows[id].deleted then Conflict(rows[id].state) else NotFound
    {
      var moved := Execute(id, ClearPark, now);
      return if moved then Ok(()) else Err(WhyNot(id));
    }
  }
}
