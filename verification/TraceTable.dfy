/**
 * The trace table under concurrent writers. A row's id is its position: rows are soft-deleted,
 * never removed. Every statement is one atomic step; a run is any interleaving of steps.
 */
module TraceTable {
  import opened MailTypes
  import opened TraceLifecycle
  import opened BatchUpdate

  type Table = seq<Trace>

  // ----- the mint fence --------------------------------------------------------------------

  /** The rows the partial unique index (mailing, recipient) covers. */
  predicate Fenced(t: Trace) {
    !t.deleted && !t.status.Cancel?
  }

  predicate Holds(t: Trace, mailing: Id, recipient: Id) {
    Fenced(t) && t.mailing == mailing && t.recipient == recipient
  }

  function Holder(mailing: Id, recipient: Id): Trace -> bool {
    t => Holds(t, mailing, recipient)
  }

  predicate FenceHit(ts: Table, mailing: Id, recipient: Id) {
    exists i :: 0 <= i < |ts| && Holds(ts[i], mailing, recipient)
  }

  /** The index accepts a row unless it covers it and already covers one with the same key. */
  predicate Admits(ts: Table, row: Trace) {
    !(Fenced(row) && FenceHit(ts, row.mailing, row.recipient))
  }

  /** At most one live non-cancel trace per (mailing, recipient). */
  ghost predicate FenceStands(ts: Table) {
    forall mailing, recipient :: Count(ts, Holder(mailing, recipient)) <= 1
  }

  lemma {:induction false} FenceHitCounts(ts: Table, mailing: Id, recipient: Id)
    ensures FenceHit(ts, mailing, recipient) <==> Count(ts, Holder(mailing, recipient)) > 0
  {
    var p := Holder(mailing, recipient);
    CountZero(ts, p);
    if FenceHit(ts, mailing, recipient) {
      var i :| 0 <= i < |ts| && Holds(ts[i], mailing, recipient);
      assert p(ts[i]);
    } else {
      assert forall i :: 0 <= i < |ts| ==> p(ts[i]) == Holds(ts[i], mailing, recipient);
    }
  }

  /** The partial unique index as the database states it: no two covered rows share their key. */
  ghost predicate NoSharedKey(ts: Table) {
    forall i, j :: 0 <= i < j < |ts| && !ts[i].deleted && !ts[j].deleted
                   && ts[i].status != Cancel && ts[j].status != Cancel ==>
      (ts[i].mailing, ts[i].recipient) != (ts[j].mailing, ts[j].recipient)
  }

  /** The counting form and the pairwise form of the fence are the same statement. */
  lemma {:induction false} FenceIsPairwise(ts: Table)
    ensures FenceStands(ts) <==> NoSharedKey(ts)
  {
    if FenceStands(ts) {
      forall i, j | 0 <= i < j < |ts| && Fenced(ts[i]) && Fenced(ts[j])
        ensures (ts[i].mailing, ts[i].recipient) != (ts[j].mailing, ts[j].recipient)
      {
        if (ts[i].mailing, ts[i].recipient) == (ts[j].mailing, ts[j].recipient) {
          CountTwo(ts, i, j, Holder(ts[i].mailing, ts[i].recipient));
          assert false;
        }
      }
    }
    if NoSharedKey(ts) {
      forall mailing, recipient
        ensures Count(ts, Holder(mailing, recipient)) <= 1
      {
        CountAtMostOne(ts, Holder(mailing, recipient));
      }
    }
  }

  // ----- the atomic steps ------------------------------------------------------------------

  predicate LiveError(t: Trace, mailing: Id) {
    !t.deleted && t.status.Error? && t.mailing == mailing
  }

  function LiveErrorsOf(mailing: Id): Trace -> bool {
    t => LiveError(t, mailing)
  }

  function SoftDeleted(): Trace -> Trace {
    (t: Trace) => t.(deleted := true)
  }

  datatype Step =
    | Mint(row: Trace)                              // any mint, fenced or plain, outgoing or canceled
    | Advance(id: Id, verb: Verb, at: Time)            // one set_* verb or link stamp
    | FreeErrors(mailing: Id, limit: nat)           // one batch of retry's soft-delete

  function Exec(ts: Table, s: Step): Table {
    match s
    case Mint(row) => if Admits(ts, row) then ts + [row] else ts
    case Advance(id, verb, at) => if id < |ts| then ts[id := ApplyVerb(verb, ts[id], at)] else ts
    case FreeErrors(mailing, limit) => UpdateFirst(ts, LiveErrorsOf(mailing), SoftDeleted(), limit)
  }

  function Run(ts: Table, steps: seq<Step>): Table
    decreases |steps|
  {
    if steps == [] then ts else Run(Exec(ts, steps[0]), steps[1..])
  }

  // ----- conservation: wins - losses = change in holders ------------------------------------

  /** Did this step answer "inserted" for the key? */
  predicate Wins(ts: Table, s: Step, mailing: Id, recipient: Id) {
    s.Mint? && Admits(ts, s.row) && Holds(s.row, mailing, recipient)
  }

  /** How many rows of `a` hold the key and no longer do in `b` (canceled or soft-deleted). */
  function Lost(a: Table, b: Table, mailing: Id, recipient: Id): nat
    requires |a| <= |b|
  {
    if a == [] then 0
    else (if Holds(a[0], mailing, recipient) && !Holds(b[0], mailing, recipient) then 1 else 0)
         + Lost(a[1..], b[1..], mailing, recipient)
  }

  /** Row by row, a step keeps every old row at its id and never brings a row into the index. */
  ghost predicate Ages(a: Table, b: Table) {
    && |a| <= |b|
    && forall i :: 0 <= i < |a| ==>
         && SameAddress(a[i].(deleted := b[i].deleted), b[i])
         && (Fenced(b[i]) ==> Fenced(a[i]))
         && (a[i].deleted ==> b[i].deleted)
  }

  lemma {:induction false} ExecAges(ts: Table, s: Step)
    ensures Ages(ts, Exec(ts, s))
  {
    if s.FreeErrors? {
      forall i | 0 <= i < |ts|
        ensures Exec(ts, s)[i] == ts[i] || Exec(ts, s)[i] == ts[i].(deleted := true)
      {
        UpdateFirstPointwise(ts, LiveErrorsOf(s.mailing), SoftDeleted(), s.limit, i);
      }
    }
  }

  lemma {:induction false} HoldersBalance(a: Table, b: Table, mailing: Id, recipient: Id)
    requires Ages(a, b)
    ensures Count(b[..|a|], Holder(mailing, recipient)) + Lost(a, b, mailing, recipient)
         == Count(a, Holder(mailing, recipient))
  {
    if a != [] {
      assert b[..|a|][1..] == b[1..][..|a[1..]|];
      HoldersBalance(a[1..], b[1..], mailing, recipient);
    }
  }

  function TotalWins(ts: Table, steps: seq<Step>, mailing: Id, recipient: Id): nat
    decreases |steps|
  {
    if steps == [] then 0
    else
      (if Wins(ts, steps[0], mailing, recipient) then 1 else 0)
      + TotalWins(Exec(ts, steps[0]), steps[1..], mailing, recipient)
  }

  function TotalLosses(ts: Table, steps: seq<Step>, mailing: Id, recipient: Id): nat
    decreases |steps|
  {
    if steps == [] then 0
    else
      ExecAges(ts, steps[0]);
      Lost(ts, Exec(ts, steps[0]), mailing, recipient) + TotalLosses(Exec(ts, steps[0]), steps[1..], mailing, recipient)
  }

  lemma {:induction false} StepBalance(ts: Table, s: Step, mailing: Id, recipient: Id)
    ensures |ts| <= |Exec(ts, s)|
    ensures Count(Exec(ts, s), Holder(mailing, recipient)) + Lost(ts, Exec(ts, s), mailing, recipient)
         == Count(ts, Holder(mailing, recipient)) + (if Wins(ts, s, mailing, recipient) then 1 else 0)
    ensures Wins(ts, s, mailing, recipient) ==> Count(ts, Holder(mailing, recipient)) == 0
  {
    var p := Holder(mailing, recipient);
    var ts' := Exec(ts, s);
    ExecAges(ts, s);
    HoldersBalance(ts, ts', mailing, recipient);
    assert ts' == ts'[..|ts|] + ts'[|ts|..];
    CountAppend(ts'[..|ts|], ts'[|ts|..], p);
    FenceHitCounts(ts, mailing, recipient);
    if s.Mint? && Admits(ts, s.row) {
      assert ts'[|ts|..] == [s.row];
    } else {
      assert ts'[|ts|..] == [];
    }
  }

  /**
   * The fence as an inductive invariant with its ledger: in every interleaving of mints, verbs and
   * soft-deletes, each key keeps at most one live non-cancel trace, and the mints that answered
   * "inserted" are paid for exactly by the holder count and by the holders canceled or freed.
   */
  lemma {:induction false} FenceLedger(ts: Table, steps: seq<Step>, mailing: Id, recipient: Id)
    ensures Count(Run(ts, steps), Holder(mailing, recipient)) + TotalLosses(ts, steps, mailing, recipient)
         == Count(ts, Holder(mailing, recipient)) + TotalWins(ts, steps, mailing, recipient)
    ensures Count(ts, Holder(mailing, recipient)) <= 1 ==> Count(Run(ts, steps), Holder(mailing, recipient)) <= 1
    decreases |steps|
  {
    if steps != [] {
      StepBalance(ts, steps[0], mailing, recipient);
      FenceLedger(Exec(ts, steps[0]), steps[1..], mailing, recipient);
    }
  }

  lemma {:induction false} FenceIsInductive(ts: Table, steps: seq<Step>)
    requires FenceStands(ts)
    ensures FenceStands(Run(ts, steps))
  {
    forall mailing, recipient
      ensures Count(Run(ts, steps), Holder(mailing, recipient)) <= 1
    {
      assert Count(ts, Holder(mailing, recipient)) <= 1;
      FenceLedger(ts, steps, mailing, recipient);
    }
  }

  /** However many workers race for a recipient, while nothing is canceled or freed one mint wins. */
  lemma {:induction false} OneWinner(ts: Table, steps: seq<Step>, mailing: Id, recipient: Id)
    requires FenceStands(ts)
    requires TotalLosses(ts, steps, mailing, recipient) == 0
    ensures TotalWins(ts, steps, mailing, recipient) <= 1
    ensures FenceHit(ts, mailing, recipient) ==> TotalWins(ts, steps, mailing, recipient) == 0
  {
    assert Count(ts, Holder(mailing, recipient)) <= 1;
    FenceLedger(ts, steps, mailing, recipient);
    FenceHitCounts(ts, mailing, recipient);
  }

  /** Every reachable table holds only sound rows, provided mints are the engine's. */
  lemma {:induction false} TablesStaySound(ts: Table, steps: seq<Step>)
    requires forall i :: 0 <= i < |ts| ==> Sound(ts[i])
    requires forall k :: 0 <= k < |steps| && steps[k].Mint? ==> Sound(steps[k].row)
    ensures forall i :: 0 <= i < |Run(ts, steps)| ==> Sound(Run(ts, steps)[i])
    decreases |steps|
  {
    if steps != [] {
      var s := steps[0];
      var ts' := Exec(ts, s);
      forall i | 0 <= i < |ts'|
        ensures Sound(ts'[i])
      {
        if s.Advance? && i == s.id {
          var calls := [Call(s.verb, s.at)];
          assert calls[1..] == [];
          RunsStaySound(ts[i], calls);
          assert RunVerbs(ts[i], calls) == ApplyVerb(s.verb, ts[i], s.at);
        } else if s.FreeErrors? {
          UpdateFirstPointwise(ts, LiveErrorsOf(s.mailing), SoftDeleted(), s.limit, i);
        }
      }
      assert forall k :: 0 <= k < |steps[1..]| ==> steps[1..][k] == steps[k + 1];
      TablesStaySound(ts', steps[1..]);
    }
  }

  // ----- settled transport verdicts --------------------------------------------------------

  const RECONCILE_BATCH: nat := 5000

  datatype MailState = MailQueued | MailSent | MailException

  datatype MailRow = MailRow(state: MailState, failure: Option<string>)

  type Mails = map<Id, MailRow>

  predicate IsSettled(mails: Mails, t: Trace) {
    && !t.deleted && t.status.Outgoing? && t.mailId.Some?
    && t.mailId.value in mails && !mails[t.mailId.value].state.MailQueued?
  }

  function Settled(mails: Mails): Trace -> bool {
    t => IsSettled(mails, t)
  }

  function VerdictVerb(m: MailRow): Verb {
    if m.state.MailSent? then DoSent
    else DoFailed(if m.failure.Some? then m.failure.value else "mail_smtp", None)
  }

  function WithVerdict(mails: Mails, now: Time): Trace -> Trace {
    (t: Trace) =>
      if t.mailId.Some? && t.mailId.value in mails then ApplyVerb(VerdictVerb(mails[t.mailId.value]), t, now) else t
  }

  /** One reconcile pass, as a function of the table. */
  function Reconciled(ts: Table, mails: Mails, now: Time): Table {
    UpdateFirst(ts, Settled(mails), WithVerdict(mails, now), RECONCILE_BATCH)
  }

  lemma {:induction false} VerdictSettles(mails: Mails, now: Time)
    ensures forall t :: Settled(mails)(t) ==> !Settled(mails)(WithVerdict(mails, now)(t))
  {}

  function ReconcilePasses(ts: Table, mails: Mails, times: seq<Time>): Table
    decreases |times|
  {
    if times == [] then ts else ReconcilePasses(Reconciled(ts, mails, times[0]), mails, times[1..])
  }

  /** With no new verdicts, `k` passes take exactly min(5000 k, size) rows out of the backlog. */
  lemma {:induction false} ReconcileDrains(ts: Table, mails: Mails, times: seq<Time>)
    ensures var size := Count(ts, Settled(mails));
            Count(ReconcilePasses(ts, mails, times), Settled(mails)) == size - Min(RECONCILE_BATCH * |times|, size)
    decreases |times|
  {
    if times != [] {
      VerdictSettles(mails, times[0]);
      UpdateFirstDrains(ts, Settled(mails), WithVerdict(mails, times[0]), RECONCILE_BATCH);
      ReconcileDrains(Reconciled(ts, mails, times[0]), mails, times[1..]);
    }
  }

  /** So the backlog is empty after k passes exactly when k >= ceil(size / 5000). */
  lemma {:induction false} ReconcileDrainsInCeil(ts: Table, mails: Mails, times: seq<Time>)
    ensures Count(ReconcilePasses(ts, mails, times), Settled(mails)) == 0
       <==> |times| >= CeilDiv(Count(ts, Settled(mails)), RECONCILE_BATCH)
  {
    ReconcileDrains(ts, mails, times);
  }

  lemma {:induction false} SettledRowsMove(mails: Mails, now: Time, t: Trace)
    requires Settled(mails)(t)
    ensures IsSettled(mails, t)
    ensures var verb := VerdictVerb(mails[t.mailId.value]);
            Guard(verb, t) && WithVerdict(mails, now)(t) == Updated(verb, t, now)
  {}

  /** The settled traces whose mail went out. */
  function WentOut(ts: Table, mails: Mails): Id -> bool {
    (id: Id) => id < |ts| && ts[id].mailId.Some? && ts[id].mailId.value in mails
                && mails[ts[id].mailId.value].state.MailSent?
  }

  /** The final state a settled mail dictates for its trace. */
  predicate CarriesVerdict(t: Trace, m: MailRow) {
    if m.state.MailSent? then t.status.Sent? && t.failure.None? && t.sentAt.Some?
    else t.status.Error? && t.failure == Some(if m.failure.Some? then m.failure.value else "mail_smtp")
  }

  /** One pass, row by row and to the field: a row stays as it was, or its settled mail's verdict is written. */
  lemma {:induction false} OnePassTells(ts: Table, mails: Mails, now: Time, i: nat)
    requires i < |ts|
    ensures var t, u := ts[i], Reconciled(ts, mails, now)[i];
            u == t ||
            (&& IsSettled(mails, t) && !IsSettled(mails, u)
             && var mail := mails[t.mailId.value];
                u == if mail.state == MailSent
                     then t.(status := Sent, failure := None, reason := None,
                             sentAt := if t.sentAt.Some? then t.sentAt else Some(now))
                     else t.(status := Error, reason := None,
                             failure := if mail.failure.Some? then mail.failure else Some("mail_smtp")))
  {
    UpdateFirstPointwise(ts, Settled(mails), WithVerdict(mails, now), RECONCILE_BATCH, i);
  }

  lemma {:induction false} PassesCarry(ts: Table, mails: Mails, times: seq<Time>, i: nat)
    requires i < |ts|
    ensures |ReconcilePasses(ts, mails, times)| == |ts|
    ensures var t' := ReconcilePasses(ts, mails, times)[i];
            t' == ts[i] || (IsSettled(mails, ts[i]) && !IsSettled(mails, t')
                            && CarriesVerdict(t', mails[ts[i].mailId.value]))
    decreases |times|
  {
    if times != [] {
      OnePassTells(ts, mails, times[0], i);
      PassesCarry(Reconciled(ts, mails, times[0]), mails, times[1..], i);
    }
  }

  /** Once drained, every trace that had a settled mail carries that verdict; the others are untouched. */
  lemma {:induction false} ReconcileCarriesVerdicts(ts: Table, mails: Mails, times: seq<Time>, i: nat)
    requires i < |ts|
    ensures |ReconcilePasses(ts, mails, times)| == |ts|
    ensures var t' := ReconcilePasses(ts, mails, times)[i];
            var settled := && !ts[i].deleted && ts[i].status == Outgoing && ts[i].mailId.Some?
                           && ts[i].mailId.value in mails && mails[ts[i].mailId.value].state != MailQueued;
            && (!settled ==> t' == ts[i])
            && (settled ==> t' == ts[i] || CarriesVerdict(t', mails[ts[i].mailId.value]))
            && (settled && Count(ReconcilePasses(ts, mails, times), Settled(mails)) == 0 ==>
                  CarriesVerdict(t', mails[ts[i].mailId.value]))
  {
    var end := ReconcilePasses(ts, mails, times);
    PassesCarry(ts, mails, times, i);
    CountZero(end, Settled(mails));
    assert Settled(mails)(end[i]) == IsSettled(mails, end[i]);
  }

  // ----- the repository: the statements as methods over one table --------------------------

  datatype UniqueViolation = UniqueViolation

  class TraceRepository {
    var rows: Table

    constructor ()
      ensures rows == []
    {
      rows := [];
    }

    /** The batch-safe mint: a fence hit is absorbed as `false`. */
    method MintFenced(row: Trace) returns (inserted: bool)
      modifies this
      ensures rows == Exec(old(rows), Mint(row))
      ensures inserted <==> |rows| == |old(rows)| + 1
      ensures inserted ==> rows == old(rows) + [row]
      ensures !inserted ==> rows == old(rows) && FenceHit(rows, row.mailing, row.recipient)
      ensures old(FenceStands(rows)) ==> FenceStands(rows)
    {
      ghost var before := rows;
      inserted := Admits(rows, row);
      if inserted {
        rows := rows + [row];
      }
      if FenceStands(before) {
        FenceIsInductive(before, [Mint(row)]);
        assert Run(before, [Mint(row)]) == rows;
      }
    }

    /** The strict mint: the violation is the caller's to see. */
    method MintTrace(row: Trace) returns (r: Result<Id, UniqueViolation>)
      modifies this
      ensures rows == Exec(old(rows), Mint(row))
      ensures r.Ok? ==> r.value == |old(rows)| && rows == old(rows) + [row]
      ensures r.Err? <==> Fenced(row) && FenceHit(old(rows), row.mailing, row.recipient)
    {
      if !Admits(rows, row) {
        return Err(UniqueViolation);
      }
      r := Ok(|rows|);
      rows := rows + [row];
    }

    /** One guarded UPDATE: true exactly when the row existed and its WHERE arm matched. */
    method Advance(id: Id, verb: Verb, now: Time) returns (moved: bool)
      modifies this
      ensures rows == Exec(old(rows), Step.Advance(id, verb, now))
      ensures moved <==> id < |old(rows)| && Guard(verb, old(rows)[id])
      ensures moved && EdgeOf(verb).Some? ==> rows[id].status != old(rows)[id].status
    {
      moved := id < |rows| && Guard(verb, rows[id]);
      if moved {
        rows := rows[id := Updated(verb, rows[id], now)];
      }
    }

    /**
     * Retry's soft-delete, batch by batch. It frees every live error trace of the mailing, nothing
     * else, and reports how many there were. (With a batch of 0 the source's loop would not end.)
     */
    method SoftDeleteFailed(mailing: Id, batch: nat) returns (total: nat)
      requires batch >= 1
      modifies this
      ensures total == Count(old(rows), LiveErrorsOf(mailing))
      ensures |rows| == |old(rows)|
      ensures forall i :: 0 <= i < |rows| ==>
                rows[i] == if LiveError(old(rows)[i], mailing) then old(rows)[i].(deleted := true) else old(rows)[i]
    {
      ghost var p := LiveErrorsOf(mailing);
      ghost var f := SoftDeleted();
      ghost var start := rows;
      total := 0;
      UpdateFirstZero(start, p, f);
      var affected := batch;
      while affected >= batch
        invariant total <= Count(start, p)
        invariant rows == UpdateFirst(start, p, f, total)
        invariant affected < batch ==> total == Count(start, p)
        decreases Count(start, p) - total, affected
      {
        NextBatch(start, p, f, total, batch);
        affected := Min(batch, Count(rows, LiveErrorsOf(mailing)));
        rows := UpdateFirst(rows, LiveErrorsOf(mailing), SoftDeleted(), batch);
        total := total + affected;
      }
      UpdateFirstAll(start, p, f, total);
      forall i | 0 <= i < |rows|
        ensures rows[i] == if LiveError(start[i], mailing) then start[i].(deleted := true) else start[i]
      {
        assert p(start[i]) == LiveError(start[i], mailing);
      }
    }

    /** The next settled id: its mail's verdict applied, the batch one row further. */
    method ReconcileNext(mails: Mails, now: Time, ghost start: Table, ghost j: nat, id: Id)
      returns (moved: bool, wasSent: bool)
      requires j < |FirstIds(start, Settled(mails), RECONCILE_BATCH, 0)|
      requires id == FirstIds(start, Settled(mails), RECONCILE_BATCH, 0)[j]
      requires rows == UpdateFirst(start, Settled(mails), WithVerdict(mails, now), j)
      modifies this
      ensures rows == UpdateFirst(start, Settled(mails), WithVerdict(mails, now), j + 1)
      ensures moved && (wasSent <==> WentOut(start, mails)(id))
    {
      NextId(start, Settled(mails), WithVerdict(mails, now), RECONCILE_BATCH, j, id);
      SettledRowsMove(mails, now, start[id]);
      var mail := mails[rows[id].mailId.value];
      moved := Advance(id, VerdictVerb(mail), now);
      wasSent := mail.state.MailSent?;
    }

    /** The reconcile pass: read the settled ids, then move each row through its verb. */
    method ReconcileSettled(mails: Mails, now: Time) returns (sent: nat, failed: nat)
      modifies this
      ensures rows == Reconciled(old(rows), mails, now)
      ensures sent + failed == Min(RECONCILE_BATCH, Count(old(rows), Settled(mails)))
      ensures sent == Count(FirstIds(old(rows), Settled(mails), RECONCILE_BATCH, 0), WentOut(old(rows), mails))
      ensures Count(rows, Settled(mails)) == Count(old(rows), Settled(mails)) - sent - failed
    {
      ghost var p := Settled(mails);
      ghost var f := WithVerdict(mails, now);
      var ids := FirstIds(rows, Settled(mails), RECONCILE_BATCH, 0);
      ghost var start := rows;
      UpdateFirstZero(rows, p, f);
      sent, failed := 0, 0;
      for j := 0 to |ids|
        invariant ids == FirstIds(start, p, RECONCILE_BATCH, 0)
        invariant rows == UpdateFirst(start, p, f, j)
        invariant sent + failed == j && sent == Count(ids[..j], WentOut(start, mails))
      {
        assert ids[..j + 1] == ids[..j] + [ids[j]] && [ids[j]][1..] == [];
        CountAppend(ids[..j], [ids[j]], WentOut(start, mails));
        var moved, wasSent := ReconcileNext(mails, now, start, j, ids[j]);
        if moved {
          if wasSent {
            sent := sent + 1;
          } else {
            failed := failed + 1;
          }
        }
      }
      assert ids[..|ids|] == ids;
      VerdictSettles(mails, now);
      UpdateFirstDrains(start, p, f, RECONCILE_BATCH);
      UpdateFirstCapped(start, p, f, RECONCILE_BATCH);
    }
  }
}
