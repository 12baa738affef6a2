/**
 * One delivery trace: the generated status machine, the guarded UPDATE behind each trace verb,
 * and what every run of verbs does to a row.
 */
module TraceLifecycle {
  import opened MailTypes

  // ----- the generated machine -------------------------------------------------------------

  datatype Status = Outgoing | Process | Pending | Sent | Open | Reply | Bounce | Error | Cancel

  datatype Edge =
    | SetProcess | SetPending | SetSent | SetOpened | SetReplied
    | SetBounced | SetBouncedSms | SetFailed | SetCanceled

  predicate Terminal(s: Status) {
    s.Reply? || s.Bounce? || s.Error? || s.Cancel?
  }

  function TargetState(e: Edge): Status {
    match e
    case SetProcess => Process
    case SetPending => Pending
    case SetSent => Sent
    case SetOpened => Open
    case SetReplied => Reply
    case SetBounced => Bounce
    case SetBouncedSms => Bounce
    case SetFailed => Error
    case SetCanceled => Cancel
  }

  /** The machine's table, read state by state. */
  predicate CanTransition(s: Status, e: Edge) {
    match s
    case Outgoing => true
    case Process => !e.SetProcess? && !e.SetCanceled?
    case Pending => e.SetSent? || e.SetOpened? || e.SetReplied? || e.SetBounced? || e.SetBouncedSms? || e.SetFailed?
    case Sent => e.SetOpened? || e.SetReplied? || e.SetBounced? || e.SetFailed?
    case Open => e.SetReplied? || e.SetBounced?
    case _ => false
  }

  const EDGES: seq<Edge> := [
    SetProcess, SetPending, SetSent, SetOpened, SetReplied, SetBounced, SetBouncedSms, SetFailed, SetCanceled
  ]

  /** Some declared edge leads from `a` to `b`. */
  predicate Leads(a: Status, b: Status) {
    exists e: Edge :: CanTransition(a, e) && TargetState(e) == b
  }

  lemma {:induction false} EveryEdgeIsListed(e: Edge)
    ensures exists k :: 0 <= k < |EDGES| && EDGES[k] == e
  {
    var k := match e
      case SetProcess => 0
      case SetPending => 1
      case SetSent => 2
      case SetOpened => 3
      case SetReplied => 4
      case SetBounced => 5
      case SetBouncedSms => 6
      case SetFailed => 7
      case SetCanceled => 8;
    assert EDGES[k] == e;
  }

  datatype Refusal = TransitionNotAllowed(edge: Edge, from: Status) | NoEdgeTo(from: Status, target: Status)

  /** How far along a status is; every declared edge raises it. */
  function StatusRank(s: Status): (r: nat)
    ensures r <= 5
  {
    match s
    case Outgoing => 0
    case Process => 1
    case Pending => 2
    case Sent => 3
    case Open => 4
    case _ => 5
  }

  class TraceStatusMachine {
    var currentState: Status

    constructor ()
      ensures currentState == Outgoing
    {
      currentState := Outgoing;
    }

    method Transition(e: Edge) returns (r: Result<Status, Refusal>)
      modifies this
      ensures CanTransition(old(currentState), e) ==>
                && currentState == TargetState(e) && r == Ok(TargetState(e))
                && StatusRank(old(currentState)) < StatusRank(currentState)
      ensures !CanTransition(old(currentState), e) ==>
                currentState == old(currentState) && r == Err(TransitionNotAllowed(e, currentState))
    {
      if !CanTransition(currentState, e) {
        return Err(TransitionNotAllowed(e, currentState));
      }
      currentState := TargetState(e);
      return Ok(currentState);
    }

    /** Search the edges for one that leads to the target: found exactly when the machine has one. */
    method TransitionToState(target: Status) returns (r: Result<Status, Refusal>)
      modifies this
      ensures Leads(old(currentState), target) ==> currentState == target && r == Ok(target)
      ensures !Leads(old(currentState), target) ==>
                currentState == old(currentState) && r == Err(NoEdgeTo(currentState, target))
    {
      for i := 0 to |EDGES|
        invariant currentState == old(currentState)
        invariant forall k :: 0 <= k < i ==> !(CanTransition(currentState, EDGES[k]) && TargetState(EDGES[k]) == target)
      {
        if CanTransition(currentState, EDGES[i]) && TargetState(EDGES[i]) == target {
          r := Transition(EDGES[i]);
          return;
        }
      }
      forall e: Edge
        ensures !(CanTransition(currentState, e) && TargetState(e) == target)
      {
        EveryEdgeIsListed(e);
      }
      return Err(NoEdgeTo(currentState, target));
    }
  }

  /** The (old, new) pairs the database trigger admits; every other status change raises. */
  const TRIGGER_PAIRS: set<(Status, Status)> := {
    (Open, Bounce), (Open, Reply),
    (Outgoing, Bounce), (Outgoing, Cancel), (Outgoing, Error), (Outgoing, Open), (Outgoing, Pending),
    (Outgoing, Process), (Outgoing, Reply), (Outgoing, Sent),
    (Pending, Bounce), (Pending, Error), (Pending, Open), (Pending, Reply), (Pending, Sent),
    (Process, Bounce), (Process, Error), (Process, Open), (Process, Pending), (Process, Reply), (Process, Sent),
    (Sent, Bounce), (Sent, Error), (Sent, Open), (Sent, Reply)
  }

  /** The trigger and the machine admit exactly the same moves. */
  lemma {:induction false} TriggerIsTheMachine(a: Status, b: Status)
    ensures (a, b) in TRIGGER_PAIRS <==> Leads(a, b)
  {
    if (a, b) in TRIGGER_PAIRS {
      var e := match b
        case Process => SetProcess
        case Pending => SetPending
        case Sent => SetSent
        case Open => SetOpened
        case Reply => SetReplied
        case Bounce => SetBounced
        case Error => SetFailed
        case _ => SetCanceled;
      assert CanTransition(a, e) && TargetState(e) == b;
    }
  }

  // ----- the row and its verbs -------------------------------------------------------------

  datatype Channel = Mail | Sms

  datatype Trace = Trace(
    mailing: Id,
    campaign: Option<Id>,
    channel: Channel,
    recipient: Id,
    email: string,
    status: Status,
    failure: Option<string>,
    reason: Option<string>,
    sentAt: Option<Time>,
    openAt: Option<Time>,
    replyAt: Option<Time>,
    clickAt: Option<Time>,
    mailId: Option<Id>,
    smsUuid: Option<string>,
    deleted: bool)

  datatype Verb =
    | DoProcess
    | DoPending
    | DoSent
    | DoOpened
    | DoReplied
    | DoBounced
    | DoBouncedSms(code: string, why: Option<string>)
    | DoFailed(code: string, why: Option<string>)
    | DoCanceled(code: string)
    | DoClicked
    | AttachMail(mail: Id)
    | AttachSms(uuid: string)

  /** The machine edge a verb declares; the click and link stamps move no state. */
  function EdgeOf(v: Verb): Option<Edge> {
    match v
    case DoProcess => Some(SetProcess)
    case DoPending => Some(SetPending)
    case DoSent => Some(SetSent)
    case DoOpened => Some(SetOpened)
    case DoReplied => Some(SetReplied)
    case DoBounced => Some(SetBounced)
    case DoBouncedSms(_, _) => Some(SetBouncedSms)
    case DoFailed(_, _) => Some(SetFailed)
    case DoCanceled(_) => Some(SetCanceled)
    case _ => None
  }

  /** The WHERE arm of each verb's UPDATE. */
  predicate Guard(v: Verb, t: Trace) {
    && !t.deleted
    && match v
       case DoProcess => t.status in {Outgoing}
       case DoPending => t.status in {Outgoing, Process}
       case DoSent => t.status in {Outgoing, Process, Pending}
       case DoOpened => t.status in {Outgoing, Sent, Process, Pending}
       case DoReplied => t.status in {Outgoing, Sent, Open, Process, Pending}
       case DoBounced => t.status in {Outgoing, Sent, Open, Process, Pending}
       case DoBouncedSms(_, _) => t.status in {Outgoing, Process, Pending}
       case DoFailed(_, _) => t.status in {Outgoing, Sent, Process, Pending}
       case DoCanceled(_) => t.status in {Outgoing}
       case DoClicked => true
       case AttachMail(_) => t.mailId.None?
       case AttachSms(_) => t.smsUuid.None?
  }

  function Coalesce(a: Option<Time>, now: Time): Option<Time> {
    if a.Some? then a else Some(now)
  }

  /** The SET arm of each verb's UPDATE. */
  function Updated(v: Verb, t: Trace, now: Time): Trace {
    match v
    case DoProcess => t.(status := Process)
    case DoPending => t.(status := Pending)
    case DoSent => t.(status := Sent, failure := None, reason := None, sentAt := Coalesce(t.sentAt, now))
    case DoOpened => t.(status := Open, openAt := Coalesce(t.openAt, now))
    case DoReplied => t.(status := Reply, replyAt := Some(now), openAt := Coalesce(t.openAt, now))
    case DoBounced => t.(status := Bounce, failure := Some("mail_bounce"), openAt := Coalesce(t.openAt, now))
    case DoBouncedSms(code, why) => t.(status := Bounce, failure := Some(code), reason := why)
    case DoFailed(code, why) => t.(status := Error, failure := Some(code), reason := why)
    case DoCanceled(code) => t.(status := Cancel, failure := Some(code))
    case DoClicked => t.(clickAt := Some(now))
    case AttachMail(mail) => t.(mailId := Some(mail))
    case AttachSms(uuid) => t.(smsUuid := Some(uuid))
  }

  function ApplyVerb(v: Verb, t: Trace, now: Time): Trace {
    if Guard(v, t) then Updated(v, t, now) else t
  }

  /** Each WHERE arm is exactly the machine's source set for that edge, and the SET arm lands on its target. */
  lemma {:induction false} GuardsAreTheMachine(v: Verb, t: Trace, now: Time)
    ensures EdgeOf(v).Some? ==>
              && (Guard(v, t) <==> !t.deleted && CanTransition(t.status, EdgeOf(v).value))
              && Updated(v, t, now).status == TargetState(EdgeOf(v).value)
    ensures EdgeOf(v).None? ==> ApplyVerb(v, t, now).status == t.status
  {}

  // ----- runs of verbs over one row --------------------------------------------------------

  datatype Call = Call(verb: Verb, at: Time)

  function RunVerbs(t: Trace, calls: seq<Call>): Trace
    decreases |calls|
  {
    if calls == [] then t else RunVerbs(ApplyVerb(calls[0].verb, t, calls[0].at), calls[1..])
  }

  /** How many of the calls changed the row's status. */
  function Moves(t: Trace, calls: seq<Call>): nat
    decreases |calls|
  {
    if calls == [] then 0
    else
      var t' := ApplyVerb(calls[0].verb, t, calls[0].at);
      (if t'.status != t.status then 1 else 0) + Moves(t', calls[1..])
  }

  /** The rank pays for every move: any run, by any callers, moves a row at most five times. */
  lemma {:induction false} MovesAreBounded(t: Trace, calls: seq<Call>)
    ensures Moves(t, calls) + StatusRank(t.status) <= StatusRank(RunVerbs(t, calls).status) <= 5
    ensures Moves(t, calls) <= 5
    decreases |calls|
  {
    if calls != [] {
      MovesAreBounded(ApplyVerb(calls[0].verb, t, calls[0].at), calls[1..]);
    }
  }

  lemma {:induction false} MovesStep(t: Trace, first: Call, rest: seq<Call>)
    ensures var t' := ApplyVerb(first.verb, t, first.at);
            Moves(t, [first] + rest) == (if t'.status != t.status then 1 else 0) + Moves(t', rest)
  {
    assert ([first] + rest)[1..] == rest;
  }

  /** Five is reached: the bound is exact. */
  lemma {:induction false} FiveMovesHappen(t: Trace)
    requires t.status.Outgoing? && !t.deleted
    ensures exists calls :: Moves(t, calls) == 5
  {
    var t1 := ApplyVerb(DoProcess, t, 1);
    var t2 := ApplyVerb(DoPending, t1, 2);
    var t3 := ApplyVerb(DoSent, t2, 3);
    var t4 := ApplyVerb(DoOpened, t3, 4);
    var c5: seq<Call> := [Call(DoReplied, 5)] + [];
    var c4 := [Call(DoOpened, 4)] + c5;
    var c3 := [Call(DoSent, 3)] + c4;
    var c2 := [Call(DoPending, 2)] + c3;
    var c1 := [Call(DoProcess, 1)] + c2;
    MovesStep(t4, Call(DoReplied, 5), []);
    MovesStep(t3, Call(DoOpened, 4), c5);
    MovesStep(t2, Call(DoSent, 3), c4);
    MovesStep(t1, Call(DoPending, 2), c3);
    MovesStep(t, Call(DoProcess, 1), c2);
    assert Moves(t, c1) == 5;
  }

  /**
   * A final status is final: no later verb, whoever calls it, changes the status, the failure pair
   * or any stamp but the click.
   */
  lemma {:induction false} TerminalAbsorbs(t: Trace, calls: seq<Call>)
    requires Terminal(t.status)
    ensures var u := RunVerbs(t, calls);
            u.(clickAt := t.clickAt, mailId := t.mailId, smsUuid := t.smsUuid) == t
    decreases |calls|
  {
    if calls != [] {
      var t' := ApplyVerb(calls[0].verb, t, calls[0].at);
      assert t'.(clickAt := t.clickAt, mailId := t.mailId, smsUuid := t.smsUuid) == t;
      TerminalAbsorbs(t', calls[1..]);
    }
  }

  /** The stamps and links `t` already has are still there in `u`. */
  predicate StampsKept(t: Trace, u: Trace) {
    && (t.sentAt.Some? ==> u.sentAt == t.sentAt)
    && (t.openAt.Some? ==> u.openAt == t.openAt)
    && (t.mailId.Some? ==> u.mailId == t.mailId)
    && (t.smsUuid.Some? ==> u.smsUuid == t.smsUuid)
  }

  /** The first submission, the first open and the two channel links are kept for ever once set. */
  lemma {:induction false} FirstStampsStand(t: Trace, calls: seq<Call>)
    ensures StampsKept(t, RunVerbs(t, calls))
    decreases |calls|
  {
    if calls != [] {
      var t' := ApplyVerb(calls[0].verb, t, calls[0].at);
      assert StampsKept(t, t');
      FirstStampsStand(t', calls[1..]);
    }
  }

  /** No verb touches who the trace is for, nor whether it is deleted. */
  predicate SameAddress(t: Trace, u: Trace) {
    && t.mailing == u.mailing && t.campaign == u.campaign && t.channel == u.channel
    && t.recipient == u.recipient && t.email == u.email && t.deleted == u.deleted
  }

  // ----- what is true of every reachable row -----------------------------------------------

  predicate PreDelivery(s: Status) {
    s.Outgoing? || s.Process? || s.Pending?
  }

  /** How status, failure pair and stamps hang together on a row the engine minted. */
  predicate Sound(t: Trace) {
    && (t.failure.Some? <==> t.status.Bounce? || t.status.Error? || t.status.Cancel?)
    && (PreDelivery(t.status) || t.status.Cancel? ==> t.sentAt.None?)
    && (t.status.Sent? ==> t.sentAt.Some?)
    && (t.status.Open? || t.status.Reply? ==> t.openAt.Some?)
    && (t.openAt.Some? ==> t.status.Open? || t.status.Reply? || t.status.Bounce?)
    && (t.replyAt.Some? <==> t.status.Reply?)
  }

  /** A freshly minted row: outgoing with no failure, or born canceled with its cause. */
  function Minted(mailing: Id, campaign: Option<Id>, channel: Channel, recipient: Id, email: string,
          cause: Option<string>): (t: Trace)
    ensures Sound(t) && !t.deleted
    ensures t.status.Cancel? <==> cause.Some?
  {
    Trace(mailing, campaign, channel, recipient, email,
          if cause.Some? then Cancel else Outgoing, cause,
          None, None, None, None, None, None, None, false)
  }

  lemma {:induction false} VerbKeepsSound(t: Trace, v: Verb, now: Time)
    requires Sound(t)
    ensures Sound(ApplyVerb(v, t, now)) && SameAddress(t, ApplyVerb(v, t, now))
    ensures t.replyAt.Some? ==> ApplyVerb(v, t, now).replyAt == t.replyAt
  {}

  /**
   * Soundness survives every run. In particular a canceled trace was never submitted, the failure
   * type is set exactly in bounce, error and cancel, and the reply stamp is set exactly once.
   */
  lemma {:induction false} RunsStaySound(t: Trace, calls: seq<Call>)
    requires Sound(t)
    ensures Sound(RunVerbs(t, calls))
    ensures SameAddress(t, RunVerbs(t, calls))
    ensures t.replyAt.Some? ==> RunVerbs(t, calls).replyAt == t.replyAt
    decreases |calls|
  {
    if calls != [] {
      VerbKeepsSound(t, calls[0].verb, calls[0].at);
      RunsStaySound(ApplyVerb(calls[0].verb, t, calls[0].at), calls[1..]);
    }
  }

  /** The failure code a moving verb leaves behind; the moves that are no failure leave none. */
  function CodeOf(v: Verb): Option<string> {
    match v
    case DoBounced => Some("mail_bounce")
    case DoBouncedSms(code, _) => Some(code)
    case DoFailed(code, _) => Some(code)
    case DoCanceled(code) => Some(code)
    case _ => None
  }

  /** The last call of a run that changed the row's status, if any did. */
  function LastMove(t: Trace, calls: seq<Call>): Option<Verb>
    decreases |calls|
  {
    if calls == [] then None
    else
      var t' := ApplyVerb(calls[0].verb, t, calls[0].at);
      var later := LastMove(t', calls[1..]);
      if later.Some? then later else if t'.status != t.status then Some(calls[0].verb) else None
  }

  lemma {:induction false} MoveRecords(t: Trace, v: Verb, now: Time)
    requires Sound(t)
    ensures var u := ApplyVerb(v, t, now);
            if u.status == t.status then u.failure == t.failure && u.reason == t.reason
            else EdgeOf(v).Some? && u.status == TargetState(EdgeOf(v).value) && u.failure == CodeOf(v)
                 && (v.DoFailed? || v.DoBouncedSms? ==> u.reason == v.why)
  {}

  /**
   * A whole run is decided by its last move: the row stands at that verb's target with that verb's
   * failure code and, for a failure, its reason, whatever was called before, between or after.
   */
  lemma {:induction false} LastMoveDecides(t: Trace, calls: seq<Call>)
    requires Sound(t)
    ensures var u, last := RunVerbs(t, calls), LastMove(t, calls);
            && (last.None? ==> u.status == t.status && u.failure == t.failure && u.reason == t.reason)
            && (last.Some? ==> EdgeOf(last.value).Some? && u.status == TargetState(EdgeOf(last.value).value)
                               && u.failure == CodeOf(last.value))
            && (last.Some? && (last.value.DoFailed? || last.value.DoBouncedSms?) ==> u.reason == last.value.why)
    decreases |calls|
  {
    if calls != [] {
      VerbKeepsSound(t, calls[0].verb, calls[0].at);
      MoveRecords(t, calls[0].verb, calls[0].at);
      LastMoveDecides(ApplyVerb(calls[0].verb, t, calls[0].at), calls[1..]);
    }
  }

  lemma {:induction false} LastMoveIsCalled(t: Trace, calls: seq<Call>)
    ensures LastMove(t, calls).Some? ==> exists i :: 0 <= i < |calls| && calls[i].verb == LastMove(t, calls).value
    decreases |calls|
  {
    if calls != [] {
      var next := ApplyVerb(calls[0].verb, t, calls[0].at);
      LastMoveIsCalled(next, calls[1..]);
      if LastMove(next, calls[1..]).Some? {
        var i :| 0 <= i < |calls[1..]| && calls[1..][i].verb == LastMove(next, calls[1..]).value;
        assert calls[i + 1].verb == LastMove(next, calls[1..]).value;
      }
    }
  }

  /** Only a mail bounce that landed last leaves the mail bounce code, if no other verb smuggles it in. */
  lemma {:induction false} MailBounceIff(t: Trace, calls: seq<Call>)
    requires Sound(t) && t.failure != Some("mail_bounce")
    requires forall i :: 0 <= i < |calls| ==>
               match calls[i].verb
               case DoBouncedSms(code, _) => code != "mail_bounce"
               case DoFailed(code, _) => code != "mail_bounce"
               case DoCanceled(code) => code != "mail_bounce"
               case _ => true
    ensures RunVerbs(t, calls).failure == Some("mail_bounce") <==> LastMove(t, calls) == Some(DoBounced)
  {
    LastMoveDecides(t, calls);
    LastMoveIsCalled(t, calls);
  }

  /** The calls of a run that matched the row, among those of a kind. */
  function Matched(t: Trace, calls: seq<Call>, kind: Verb -> bool): seq<Call>
    decreases |calls|
  {
    if calls == [] then []
    else
      (if kind(calls[0].verb) && Guard(calls[0].verb, t) then [calls[0]] else [])
      + Matched(ApplyVerb(calls[0].verb, t, calls[0].at), calls[1..], kind)
  }

  function FirstAt(standing: Option<Time>, hits: seq<Call>): Option<Time> {
    if standing.Some? || hits == [] then standing else Some(hits[0].at)
  }

  function LastAt(standing: Option<Time>, hits: seq<Call>): Option<Time> {
    if hits == [] then standing else Some(hits[|hits| - 1].at)
  }

  function OfSend(): Verb -> bool {
    (v: Verb) => v.DoSent?
  }

  function OfTouch(): Verb -> bool {
    (v: Verb) => v.DoOpened? || v.DoReplied? || v.DoBounced?
  }

  function OfReply(): Verb -> bool {
    (v: Verb) => v.DoReplied?
  }

  function OfClick(): Verb -> bool {
    (v: Verb) => v.DoClicked?
  }

  function OfMailLink(): Verb -> bool {
    (v: Verb) => v.AttachMail?
  }

  function OfSmsLink(): Verb -> bool {
    (v: Verb) => v.AttachSms?
  }

  lemma {:induction false} SendTellsTheRun(t: Trace, calls: seq<Call>)
    ensures RunVerbs(t, calls).sentAt == FirstAt(t.sentAt, Matched(t, calls, OfSend()))
    decreases |calls|
  {
    if calls != [] {
      SendTellsTheRun(ApplyVerb(calls[0].verb, t, calls[0].at), calls[1..]);
    }
  }

  lemma {:induction false} OpenTellsTheRun(t: Trace, calls: seq<Call>)
    ensures RunVerbs(t, calls).openAt == FirstAt(t.openAt, Matched(t, calls, OfTouch()))
    decreases |calls|
  {
    if calls != [] {
      OpenTellsTheRun(ApplyVerb(calls[0].verb, t, calls[0].at), calls[1..]);
    }
  }

  lemma {:induction false} ReplyTellsTheRun(t: Trace, calls: seq<Call>)
    ensures RunVerbs(t, calls).replyAt == LastAt(t.replyAt, Matched(t, calls, OfReply()))
    decreases |calls|
  {
    if calls != [] {
      ReplyTellsTheRun(ApplyVerb(calls[0].verb, t, calls[0].at), calls[1..]);
    }
  }

  lemma {:induction false} ClickTellsTheRun(t: Trace, calls: seq<Call>)
    ensures RunVerbs(t, calls).clickAt == LastAt(t.clickAt, Matched(t, calls, OfClick()))
    decreases |calls|
  {
    if calls != [] {
      ClickTellsTheRun(ApplyVerb(calls[0].verb, t, calls[0].at), calls[1..]);
    }
  }

  /**
   * What the stamps say about a run: when the trace was first sent; first opened, replied to or
   * bounced by mail; replied to; and last clicked.
   */
  lemma {:induction false} StampsTellTheRun(t: Trace, calls: seq<Call>)
    ensures var u := RunVerbs(t, calls);
            && u.sentAt == FirstAt(t.sentAt, Matched(t, calls, OfSend()))
            && u.openAt == FirstAt(t.openAt, Matched(t, calls, OfTouch()))
            && u.replyAt == LastAt(t.replyAt, Matched(t, calls, OfReply()))
            && u.clickAt == LastAt(t.clickAt, Matched(t, calls, OfClick()))
  {
    SendTellsTheRun(t, calls);
    OpenTellsTheRun(t, calls);
    ReplyTellsTheRun(t, calls);
    ClickTellsTheRun(t, calls);
  }

  lemma {:induction false} MailLinkTellsTheRun(t: Trace, calls: seq<Call>)
    ensures var hits := Matched(t, calls, OfMailLink());
            && (hits != [] ==> hits[0].verb.AttachMail? && t.mailId.None?)
            && RunVerbs(t, calls).mailId == if hits == [] then t.mailId else Some(hits[0].verb.mail)
    decreases |calls|
  {
    if calls != [] {
      MailLinkTellsTheRun(ApplyVerb(calls[0].verb, t, calls[0].at), calls[1..]);
    }
  }

  lemma {:induction false} SmsLinkTellsTheRun(t: Trace, calls: seq<Call>)
    ensures var hits := Matched(t, calls, OfSmsLink());
            && (hits != [] ==> hits[0].verb.AttachSms? && t.smsUuid.None?)
            && RunVerbs(t, calls).smsUuid == if hits == [] then t.smsUuid else Some(hits[0].verb.uuid)
    decreases |calls|
  {
    if calls != [] {
      SmsLinkTellsTheRun(ApplyVerb(calls[0].verb, t, calls[0].at), calls[1..]);
    }
  }

  predicate IsOpened(t: Trace) {
    t.status.Open? || t.status.Reply?
  }

  predicate IsTouch(v: Verb) {
    v.DoOpened? || v.DoReplied?
  }

  /** The first open or reply of the run that matched found the row before its transport verdict. */
  predicate TouchedEarly(t: Trace, calls: seq<Call>)
    decreases |calls|
  {
    calls != [] &&
    if IsTouch(calls[0].verb) && Guard(calls[0].verb, t) then PreDelivery(t.status)
    else TouchedEarly(ApplyVerb(calls[0].verb, t, calls[0].at), calls[1..])
  }

  lemma {:induction false} OpenedKeepsSendStamp(t: Trace, calls: seq<Call>)
    requires IsOpened(t)
    ensures RunVerbs(t, calls).sentAt == t.sentAt
    decreases |calls|
  {
    if calls != [] {
      var next := ApplyVerb(calls[0].verb, t, calls[0].at);
      if IsOpened(next) {
        OpenedKeepsSendStamp(next, calls[1..]);
      } else {
        TerminalAbsorbs(next, calls[1..]);
      }
    }
  }

  /**
   * The one way into "opened but never sent", over any run of a row not yet opened: it ends opened
   * without a send stamp exactly when it ends opened and its first matching open or reply came
   * before the transport verdict. A reply after such an open changes nothing about it.
   */
  lemma {:induction false} OpenedUnsentIff(t: Trace, calls: seq<Call>)
    requires Sound(t) && !IsOpened(t)
    ensures var u := RunVerbs(t, calls);
            IsOpened(u) ==> (u.sentAt.None? <==> TouchedEarly(t, calls))
    decreases |calls|
  {
    if calls != [] {
      var next := ApplyVerb(calls[0].verb, t, calls[0].at);
      VerbKeepsSound(t, calls[0].verb, calls[0].at);
      if IsOpened(next) {
        OpenedKeepsSendStamp(next, calls[1..]);
      } else {
        OpenedUnsentIff(next, calls[1..]);
      }
    }
  }
}
