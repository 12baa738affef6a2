/**
 * Promoting an A/B winner: copy the winning variant for the rest of the audience, queue the copy,
 * stamp the test. The stamp is guarded; the copy is not.
 */
module AbPromotion {
  import opened MailTypes
  import M = MailingLifecycle

  datatype AbTest = AbTest(manual: bool, promoteAt: Option<Time>, completed: bool, winner: Option<Id>, deleted: bool)

  /** A mailing as promotion sees it; the model remembers which row an INSERT ... SELECT copied. */
  datatype Row = Row(
    test: Option<Id>,
    campaign: Option<Id>,
    isSms: bool,
    sampling: bool,
    pc: int,
    state: M.State,
    copyOf: Option<Id>,
    deleted: bool)

  datatype Shop = Shop(tests: seq<AbTest>, rows: seq<Row>)

  /** The INSERT ... SELECT: the winner's campaign, this test, sampling off, everybody; the channel's default. */
  function CopiedRow(test: Id, winner: Id, source: Row): Row {
    Row(Some(test), source.campaign, false, false, 100, M.Draft, Some(winner), false)
  }

  /** The copy once the same transaction has queued it. */
  function WinnerCopy(test: Id, winner: Id, source: Row): Row {
    CopiedRow(test, winner, source).(state := M.InQueue)
  }

  predicate Copyable(s: Shop, winner: Id) {
    winner < |s.rows| && !s.rows[winner].deleted
  }

  /** The guarded stamp's WHERE arm. */
  predicate Stampable(s: Shop, test: Id) {
    test < |s.tests| && !s.tests[test].completed && !s.tests[test].deleted
  }

  /** One promotion transaction: copy, queue, stamp; without a winner row to copy it rolls back. */
  function Promoted(s: Shop, test: Id, winner: Id): Shop {
    if !Copyable(s, winner) then s
    else
      Shop(if Stampable(s, test) then s.tests[test := s.tests[test].(completed := true, winner := Some(winner))]
           else s.tests,
           s.rows + [WinnerCopy(test, winner, s.rows[winner])])
  }

  function CopyOf(test: Id): Row -> bool {
    (r: Row) => r.copyOf.Some? && r.test == Some(test)
  }

  function Copies(s: Shop, test: Id): nat {
    Count(s.rows, CopyOf(test))
  }

  lemma {:induction false} PromotionAddsACopy(s: Shop, test: Id, winner: Id, other: Id)
    requires Copyable(s, winner)
    ensures Copies(Promoted(s, test, winner), other) == Copies(s, other) + if other == test then 1 else 0
  {
    var copy := WinnerCopy(test, winner, s.rows[winner]);
    CountAppend(s.rows, [copy], CopyOf(other));
    assert [copy][1..] == [];
  }

  /** What the promoted mailing must be for the rest of the audience to be sent to. */
  predicate IsQueuedCopy(row: Row, test: Id, winner: Id, source: Row) {
    && row.state.InQueue? && !row.deleted && !row.sampling && row.pc == 100
    && row.test == Some(test) && row.copyOf == Some(winner) && row.campaign == source.campaign && !row.isSms
  }

  /** One row was added, at the end, and it is the queued copy of the winner. */
  predicate AddsTheCopy(before: seq<Row>, after: seq<Row>, test: Id, winner: Id) {
    && |after| == |before| + 1 && before == after[..|before|]
    && winner < |before| && IsQueuedCopy(after[|before|], test, winner, before[winner])
  }

  // ----- any interleaving of promotion transactions ----------------------------------------

  datatype Promotion = Promotion(test: Id, winner: Id)

  function RunPromotions(s: Shop, ps: seq<Promotion>): Shop
    decreases |ps|
  {
    if ps == [] then s else RunPromotions(Promoted(s, ps[0].test, ps[0].winner), ps[1..])
  }

  /** Once completed, a test keeps its winner for ever, whoever promotes again. */
  lemma {:induction false} WinnerNeverChanges(s: Shop, ps: seq<Promotion>, test: Id)
    requires test < |s.tests| && s.tests[test].completed
    ensures |RunPromotions(s, ps).tests| == |s.tests| && RunPromotions(s, ps).tests[test] == s.tests[test]
    decreases |ps|
  {
    if ps != [] {
      WinnerNeverChanges(Promoted(s, ps[0].test, ps[0].winner), ps[1..], test);
    }
  }

  /** Every transaction on this test found it not yet completed when it ran. */
  predicate AllFoundOpen(s: Shop, ps: seq<Promotion>, test: Id)
    requires test < |s.tests|
    decreases |ps|
  {
    ps == [] || ((ps[0].test == test && Copyable(s, ps[0].winner) ==> !s.tests[test].completed)
                 && AllFoundOpen(Promoted(s, ps[0].test, ps[0].winner), ps[1..], test))
  }

  lemma {:induction false} CopiesNeverFall(s: Shop, ps: seq<Promotion>, test: Id)
    ensures Copies(s, test) <= Copies(RunPromotions(s, ps), test)
    decreases |ps|
  {
    if ps != [] {
      if Copyable(s, ps[0].winner) {
        PromotionAddsACopy(s, ps[0].test, ps[0].winner, test);
      }
      CopiesNeverFall(Promoted(s, ps[0].test, ps[0].winner), ps[1..], test);
    }
  }

  /**
   * Exactly when a test gets at most one winner copy: every promotion that ran found the test open.
   * The copy commits even when the stamp matches nothing, so two workers that both read the test as
   * due make two copies.
   */
  lemma {:induction false} OneCopyIff(s: Shop, ps: seq<Promotion>, test: Id)
    requires test < |s.tests| && !s.tests[test].deleted
    requires if s.tests[test].completed then Copies(s, test) == 1 else Copies(s, test) == 0
    ensures Copies(RunPromotions(s, ps), test) <= 1 <==> AllFoundOpen(s, ps, test)
    decreases |ps|
  {
    if ps != [] {
      var next := Promoted(s, ps[0].test, ps[0].winner);
      if Copyable(s, ps[0].winner) {
        PromotionAddsACopy(s, ps[0].test, ps[0].winner, test);
        if ps[0].test == test && s.tests[test].completed {
          CopiesNeverFall(next, ps[1..], test);
        } else {
          OneCopyIff(next, ps[1..], test);
        }
      } else {
        OneCopyIff(next, ps[1..], test);
      }
    }
  }

  /** Two workers racing on one due test. */
  lemma {:induction false} RacingPromotionsCopyTwice(s: Shop, test: Id, v: Id, w: Id)
    requires Stampable(s, test) && Copies(s, test) == 0 && Copyable(s, v) && Copyable(s, w)
    ensures var u := RunPromotions(s, [Promotion(test, v), Promotion(test, w)]);
            Copies(u, test) == 2 && |u.tests| == |s.tests| && u.tests[test].winner == Some(v)
  {
    var s1 := Promoted(s, test, v);
    assert Copyable(s1, w);
    PromotionAddsACopy(s, test, v, test);
    PromotionAddsACopy(s1, test, w, test);
    assert [Promotion(test, v), Promotion(test, w)][1..] == [Promotion(test, w)];
    assert [Promotion(test, w)][1..] == [];
    assert RunPromotions(s1, [Promotion(test, w)]) == Promoted(s1, test, w);
  }

  // ----- sequential sweeps and manual selection --------------------------------------------

  /** A test is completed exactly when it has its one copy, and the copy is of its winner. */
  ghost predicate Ledgered(s: Shop) {
    forall t: Id :: t < |s.tests| ==>
      && Copies(s, t) == (if s.tests[t].completed then 1 else 0)
      && (s.tests[t].completed ==> s.tests[t].winner.Some?)
      && (forall i :: 0 <= i < |s.rows| && CopyOf(t)(s.rows[i]) ==> s.rows[i].copyOf == s.tests[t].winner)
  }

  lemma {:induction false} PromotionStaysLedgered(s: Shop, test: Id, winner: Id)
    requires Ledgered(s) && Stampable(s, test) && Copyable(s, winner)
    ensures Ledgered(Promoted(s, test, winner))
  {
    var u := Promoted(s, test, winner);
    forall t: Id | t < |u.tests|
      ensures Copies(u, t) == (if u.tests[t].completed then 1 else 0)
      ensures u.tests[t].completed ==> u.tests[t].winner.Some?
      ensures forall i :: 0 <= i < |u.rows| && CopyOf(t)(u.rows[i]) ==> u.rows[i].copyOf == u.tests[t].winner
    {
      PromotionAddsACopy(s, test, winner, t);
      CountZero(s.rows, CopyOf(test));
      forall i | 0 <= i < |u.rows| && CopyOf(t)(u.rows[i])
        ensures u.rows[i].copyOf == u.tests[t].winner
      {
        if i < |s.rows| {
          assert CopyOf(t)(s.rows[i]);
        }
      }
    }
  }

  /** What the ranking of a test answered in this sweep. */
  datatype Pick = Promote(winner: Id) | NotYet | Refused

  predicate Due(t: AbTest, now: Time) {
    !t.completed && !t.deleted && t.promoteAt.Some? && t.promoteAt.value <= now
  }

  /** What one worker may do to a test: a sweep's turn on it, or a manual selection. */
  datatype Act = SweepTurn(test: Id, pick: Pick, now: Time) | Selection(test: Id, winner: Id)

  /** A turn promotes a test it found due and automatic; a selection an open test and one of its variants. */
  predicate Fires(s: Shop, act: Act) {
    && act.test < |s.tests|
    && match act
       case SweepTurn(test, pick, now) =>
         Due(s.tests[test], now) && !s.tests[test].manual && pick.Promote? && Copyable(s, pick.winner)
       case Selection(test, winner) =>
         Stampable(s, test) && Copyable(s, winner) && s.rows[winner].test == Some(test)
  }

  function Acted(s: Shop, act: Act): Shop {
    if Fires(s, act) then Promoted(s, act.test, if act.SweepTurn? then act.pick.winner else act.winner) else s
  }

  function RunActs(s: Shop, acts: seq<Act>): Shop
    decreases |acts|
  {
    if acts == [] then s else RunActs(Acted(s, acts[0]), acts[1..])
  }

  /**
   * Over any run of sweep turns and manual selections, one after another: every test has at most one
   * winner copy, exactly when completed and always of its winner, and no winner ever changes.
   */
  lemma {:induction false} RunsStayLedgered(s: Shop, acts: seq<Act>)
    requires Ledgered(s)
    ensures var u := RunActs(s, acts);
            && Ledgered(u) && |u.tests| == |s.tests|
            && forall t: Id :: t < |s.tests| ==>
                 && Copies(u, t) <= 1
                 && (s.tests[t].completed ==> u.tests[t] == s.tests[t] && Copies(u, t) == Copies(s, t))
    decreases |acts|
  {
    if acts != [] {
      var act := acts[0];
      var next := Acted(s, act);
      if Fires(s, act) {
        var winner := if act.SweepTurn? then act.pick.winner else act.winner;
        PromotionStaysLedgered(s, act.test, winner);
      }
      RunsStayLedgered(next, acts[1..]);
    }
  }

  /** Every copy a run adds is a queued, unsampled mailing for everybody, in its winner's campaign. */
  lemma {:induction false} EveryCopyIsQueued(s: Shop, acts: seq<Act>)
    ensures var u := RunActs(s, acts);
            && s.rows <= u.rows
            && forall i :: |s.rows| <= i < |u.rows| ==>
                 var row := u.rows[i];
                 && row.test.Some? && row.copyOf.Some? && row.copyOf.value < i
                 && IsQueuedCopy(row, row.test.value, row.copyOf.value, u.rows[row.copyOf.value])
    decreases |acts|
  {
    if acts != [] {
      EveryCopyIsQueued(Acted(s, acts[0]), acts[1..]);
    }
  }

  /**
   * A sweep's turn completes a test only if it is live, still open, automatic and due, and then with
   * the winner its ranking named. A selection completes an open live test with one of its live rows.
   */
  lemma {:induction false} OnlyTheRightTestsComplete(s: Shop, act: Act)
    ensures var u := Acted(s, act);
            && |u.tests| == |s.tests|
            && forall t: Id :: t < |s.tests| && u.tests[t] != s.tests[t] ==>
                 var a, b := s.tests[t], u.tests[t];
                 && t == act.test && !a.completed && !a.deleted && b == a.(completed := true, winner := b.winner)
                 && (act.SweepTurn? ==>
                       && !a.manual && a.promoteAt.Some? && a.promoteAt.value <= act.now
                       && act.pick == Promote(b.winner.value))
                 && b.winner.Some? && b.winner.value < |s.rows| && !s.rows[b.winner.value].deleted
                 && (act.Selection? ==> b.winner == Some(act.winner) && s.rows[act.winner].test == Some(act.test))
  {}

  /** The copy takes the channel's default: promoting an sms variant queues a mail mailing. */
  lemma {:induction false} SmsWinnerIsCopiedAsMail(s: Shop, test: Id, winner: Id)
    requires winner < |s.rows| && !s.rows[winner].deleted && s.rows[winner].isSms
    ensures var u := Promoted(s, test, winner);
            |u.rows| == |s.rows| + 1 && !u.rows[|s.rows|].isSms && u.rows[|s.rows|].copyOf == Some(winner)
  {}

  datatype SelectError = TestNotFound | AlreadyCompleted | NotAVariant

  predicate IsVariantOf(row: Row, test: Id) {
    !row.deleted && row.test == Some(test)
  }

  /** The mailing in whose scope the test runs: its first live variant, from row `n` on. */
  function Anchor(rows: seq<Row>, test: Id, n: nat): (r: Option<Id>)
    ensures r.Some? ==> n <= r.value < |rows| && IsVariantOf(rows[r.value], test)
                        && forall j :: n <= j < r.value ==> !IsVariantOf(rows[j], test)
    ensures r.None? ==> forall j :: n <= j < |rows| ==> !IsVariantOf(rows[j], test)
    decreases |rows| - n
  {
    if n >= |rows| then None
    else if IsVariantOf(rows[n], test) then Some(n)
    else Anchor(rows, test, n + 1)
  }

  /** This test gets its turn: it is automatic, has a live variant, and that one's scope opens. */
  predicate HasTurn(s: Shop, t: Id, opens: Id -> bool) {
    && t < |s.tests| && !s.tests[t].manual
    && Anchor(s.rows, t, 0).Some? && opens(Anchor(s.rows, t, 0).value)
  }

  /** The tests whose turn promotes: the ranking named a live row. */
  function Promoting(s: Shop, picks: Id -> Pick, opens: Id -> bool): Id -> bool {
    (t: Id) => HasTurn(s, t, opens) && picks(t).Promote? && Copyable(s, picks(t).winner)
  }

  /** The tests whose turn ends at the billing seam. */
  function Refusing(s: Shop, picks: Id -> Pick, opens: Id -> bool): Id -> bool {
    (t: Id) => HasTurn(s, t, opens) && picks(t).Refused?
  }

  /** After the tests in `done` had their turn: those that promote are stamped, all others are as before. */
  ghost predicate Stamped(start: Shop, now: Shop, done: seq<Id>, picks: Id -> Pick, opens: Id -> bool) {
    && |now.tests| == |start.tests| && start.rows <= now.rows
    && (forall t: Id :: t < |start.tests| ==>
          now.tests[t] == if t in done && Promoting(start, picks, opens)(t)
                          then start.tests[t].(completed := true, winner := Some(picks(t).winner))
                          else start.tests[t])
    && (forall i :: |start.rows| <= i < |now.rows| ==>
          && now.rows[i].test.Some? && now.rows[i].test.value in done
          && var t := now.rows[i].test.value;
             && Promoting(start, picks, opens)(t)
             && IsQueuedCopy(now.rows[i], t, picks(t).winner, start.rows[picks(t).winner]))
  }

  /** Row `i` is the first live one that is in this test. */
  predicate IsFirstOf(rows: seq<Row>, i: nat, test: Id) {
    && i < |rows| && !rows[i].deleted && rows[i].test == Some(test)
    && forall j :: 0 <= j < i ==> rows[j].deleted || rows[j].test != Some(test)
  }

  /**
   * What a promotion step makes of a test, told in fields: completed with the named winner exactly
   * if it was read as due, is automatic, the scope of its first live variant opened, and the winner
   * is a live row; otherwise as it was.
   */
  ghost predicate CompletesOnlyIf(s: Shop, t: Id, due: bool, pick: Pick, opens: Id -> bool, after: AbTest)
    requires t < |s.tests|
  {
    var promoted := && due && !s.tests[t].manual && (exists i: nat :: IsFirstOf(s.rows, i, t) && opens(i))
                    && pick.Promote? && pick.winner < |s.rows| && !s.rows[pick.winner].deleted;
    after == if promoted then s.tests[t].(completed := true, winner := Some(pick.winner)) else s.tests[t]
  }

  lemma {:induction false} TurnTells(s: Shop, t: Id, due: bool, picks: Id -> Pick, opens: Id -> bool)
    requires t < |s.tests|
    ensures CompletesOnlyIf(s, t, due, picks(t), opens,
                            if due && Promoting(s, picks, opens)(t)
                            then s.tests[t].(completed := true, winner := Some(picks(t).winner)) else s.tests[t])
  {
    var anchor := Anchor(s.rows, t, 0);
    if anchor.Some? {
      assert IsFirstOf(s.rows, anchor.value, t);
    }
  }

  /** A test that had no turn yet stands in the scope it stood in at the start. */
  lemma {:induction false} TurnStands(start: Shop, now: Shop, done: seq<Id>, t: Id, picks: Id -> Pick,
          opens: Id -> bool)
    requires Stamped(start, now, done, picks, opens) && t !in done
    ensures Anchor(now.rows, t, 0) == Anchor(start.rows, t, 0)
    ensures HasTurn(now, t, opens) == HasTurn(start, t, opens)
  {
    forall j | 0 <= j < |start.rows|
      ensures now.rows[j] == start.rows[j]
    {}
    assert forall j :: |start.rows| <= j < |now.rows| ==> !IsVariantOf(now.rows[j], t);
  }

  lemma {:induction false} StampedStep(start: Shop, before: Shop, after: Shop, done: seq<Id>, t: Id,
          picks: Id -> Pick, opens: Id -> bool)
    requires Stamped(start, before, done, picks, opens) && t < |start.tests| && t !in done && Stampable(start, t)
    requires picks(t).Promote? ==> picks(t).winner < |start.rows|
    requires after == if HasTurn(start, t, opens) && picks(t).Promote? then Promoted(before, t, picks(t).winner)
                      else before
    ensures Stamped(start, after, done + [t], picks, opens)
  {
    var p := picks(t);
    if HasTurn(start, t, opens) && p.Promote? {
      assert before.rows[p.winner] == start.rows[p.winner];
    }
  }

  lemma {:induction false} CountNext(done: seq<Id>, t: Id, p: Id -> bool)
    ensures Count(done + [t], p) == Count(done, p) + if p(t) then 1 else 0
  {
    CountAppend(done, [t], p);
    assert [t][1..] == [];
  }

  class AbTestService {
    var shop: Shop

    constructor (shop: Shop)
      ensures this.shop == shop
    {
      this.shop := shop;
    }

    /** One due test: its ranking's winner, if any, goes through the promotion transaction. */
    method PromoteOne(test: Id, pick: Pick) returns (stamped: bool, refused: bool)
      modifies this
      ensures shop == if pick.Promote? then Promoted(old(shop), test, pick.winner) else old(shop)
      ensures stamped <==> pick.Promote? && Copyable(old(shop), pick.winner) && Stampable(old(shop), test)
      ensures refused <==> pick.Refused?
      ensures pick.Promote? && pick.winner < |old(shop.rows)| && !old(shop.rows)[pick.winner].deleted ==>
                AddsTheCopy(old(shop.rows), shop.rows, test, pick.winner)
      ensures stamped ==> shop.tests[test].completed && shop.tests[test].winner == Some(pick.winner)
    {
      refused := pick.Refused?;
      stamped := false;
      if pick.Promote? && Copyable(shop, pick.winner) {
        var copy := CopiedRow(test, pick.winner, shop.rows[pick.winner]);
        stamped := test < |shop.tests| && !shop.tests[test].completed && !shop.tests[test].deleted;
        var tests := if stamped
                     then shop.tests[test := shop.tests[test].(completed := true, winner := Some(pick.winner))]
                     else shop.tests;
        shop := Shop(tests, shop.rows + [copy.(state := M.InQueue)]);
      }
    }

    /**
     * A sweep's promotion step over the tests it read as due. Alone, it completes exactly the
     * automatic ones whose scope opened and whose ranking named a live winner, with one copy each;
     * a manual test, one without a live variant, and one whose scope could not be opened wait.
     * (A ranking names done variants, so never a copy this very step queued.)
     */
    method PromoteDue(due: seq<Id>, picks: Id -> Pick, opens: Id -> bool, now: Time)
      returns (promotions: nat, refusals: nat)
      requires forall i, j :: 0 <= i < j < |due| ==> due[i] != due[j]
      requires forall i :: 0 <= i < |due| ==> due[i] < |shop.tests| && Due(shop.tests[due[i]], now)
      requires forall t :: t in due && picks(t).Promote? ==> picks(t).winner < |shop.rows|
      modifies this
      ensures Stamped(old(shop), shop, due, picks, opens)
      ensures forall t: Id :: t < |shop.tests| ==>
                CompletesOnlyIf(old(shop), t, t in due, picks(t), opens, shop.tests[t])
      ensures promotions == Count(due, Promoting(old(shop), picks, opens))
      ensures refusals == Count(due, Refusing(old(shop), picks, opens))
      ensures |shop.rows| == |old(shop.rows)| + promotions
      ensures old(Ledgered(shop)) ==> Ledgered(shop)
    {
      ghost var start := shop;
      ghost var p, q := Promoting(start, picks, opens), Refusing(start, picks, opens);
      promotions, refusals := 0, 0;
      for i := 0 to |due|
        invariant Stamped(start, shop, due[..i], picks, opens)
        invariant promotions == Count(due[..i], p) && refusals == Count(due[..i], q)
        invariant |shop.rows| == |start.rows| + promotions
        invariant Ledgered(start) ==> Ledgered(shop)
      {
        var t := due[i];
        assert due[..i + 1] == due[..i] + [t];
        assert t !in due[..i];
        ghost var before := shop;
        TurnStands(start, before, due[..i], t, picks, opens);
        CountNext(due[..i], t, p);
        CountNext(due[..i], t, q);
        var anchor := Anchor(shop.rows, t, 0);
        if !shop.tests[t].manual && anchor.Some? && opens(anchor.value) {
          var pick := picks(t);
          var stamped, refused := PromoteOne(t, pick);
          if stamped {
            promotions := promotions + 1;
            if Ledgered(before) {
              PromotionStaysLedgered(before, t, pick.winner);
            }
          } else if refused {
            refusals := refusals + 1;
          }
        }
        StampedStep(start, before, shop, due[..i], t, picks, opens);
      }
      assert due[..|due|] == due;
      forall t: Id | t < |shop.tests|
        ensures CompletesOnlyIf(start, t, t in due, picks(t), opens, shop.tests[t])
      {
        TurnTells(start, t, t in due, picks, opens);
      }
    }

    /** Manual selection: only a live, open test and one of its live variants; then the same transaction. */
    method SelectWinner(test: Id, winner: Id) returns (r: Result<Option<Id>, SelectError>)
      modifies this
      ensures r.Err? ==> shop == old(shop)
      ensures r.Ok? <==> && test < |old(shop.tests)|
                         && !old(shop.tests)[test].deleted && !old(shop.tests)[test].completed
                         && winner < |old(shop.rows)| && IsVariantOf(old(shop.rows)[winner], test)
      ensures r == Err(TestNotFound) <==> !(test < |old(shop.tests)| && !old(shop.tests)[test].deleted)
      ensures r == Err(AlreadyCompleted) <==>
                test < |old(shop.tests)| && !old(shop.tests)[test].deleted && old(shop.tests)[test].completed
      ensures r.Ok? ==> shop == Promoted(old(shop), test, winner) && r.value == Some(|old(shop.rows)|)
      ensures r.Ok? ==> AddsTheCopy(old(shop.rows), shop.rows, test, winner)
      ensures old(Ledgered(shop)) ==> Ledgered(shop)
    {
      if test >= |shop.tests| || shop.tests[test].deleted {
        return Err(TestNotFound);
      }
      if shop.tests[test].completed {
        return Err(AlreadyCompleted);
      }
      if winner >= |shop.rows| || shop.rows[winner].deleted || shop.rows[winner].test != Some(test) {
        return Err(NotAVariant);
      }
      ghost var before := shop;
      var copy := |shop.rows|;
      var stamped, _ := PromoteOne(test, Promote(winner));
      if Ledgered(before) {
        PromotionStaysLedgered(before, test, winner);
      }
      return Ok(if stamped then Some(copy) else None);
    }
  }
}
