/**
 * The recipient walk of one drive: dedupe by lowercased email, suppress visibly, sample the A/B
 * fragment. The reference is a per-position verdict that threads no state; the walk itself is the
 * loop over growing hash sets.
 */
module SendWalk {
  import opened MailTypes

  datatype Recipient = Recipient(id: Id, email: string)

  datatype Cause = MailDup | MailBl | MailOptout

  datatype Fate = Seen | Suppressed(cause: Cause) | NonMember | ToSend

  // ----- A/B membership --------------------------------------------------------------------

  /** HMAC(seed, email), first eight bytes big-endian, with the seed already applied. */
  datatype Sampler = Sampler(bucket: string -> nat, pc: int)

  const TWO_64: nat := 0x1_0000_0000_0000_0000

  /** The source casts the percentage to an unsigned 64-bit word. */
  function AsU64(pc: int): int {
    if pc < 0 then pc + TWO_64 else pc
  }

  predicate AbMember(s: Sampler, email: string) {
    s.bucket(email) % 100 < AsU64(s.pc)
  }

  /** Fragments of one seed are nested by percentage: 0 admits nobody, 100 admits everybody. */
  lemma {:induction false} FragmentsAreNested(bucket: string -> nat, p: int, q: int, email: string)
    requires 0 <= p <= q
    ensures AbMember(Sampler(bucket, p), email) ==> AbMember(Sampler(bucket, q), email)
    ensures q >= 100 ==> AbMember(Sampler(bucket, q), email)
    ensures p == 0 ==> !AbMember(Sampler(bucket, p), email)
  {}

  /** A percentage below zero wraps in the cast: it admits everybody. */
  lemma {:induction false} NegativeFragmentIsEverybody(bucket: string -> nat, pc: int, email: string)
    requires -0x8000_0000 <= pc < 0x8000_0000
    ensures AbMember(Sampler(bucket, pc), email) <==> pc < 0 || bucket(email) % 100 < pc
  {}

  // ----- the reference verdict -------------------------------------------------------------

  datatype Policy = Policy(
    lower: string -> string,
    useExclusionList: bool,
    blacklist: set<string>,
    optedOut: set<string>,
    sampler: Option<Sampler>)

  /** Some earlier position of the resolved list already carries this address. */
  predicate Repeats(rs: seq<Recipient>, i: nat, pol: Policy)
    requires i < |rs|
  {
    exists j :: 0 <= j < i && pol.lower(rs[j].email) == pol.lower(rs[i].email)
  }

  /** What the walk must decide about position `i`; `handled` are the recipients with a standing trace. */
  function FateOf(rs: seq<Recipient>, i: nat, handled: set<Id>, pol: Policy): Fate
    requires i < |rs|
  {
    var email := pol.lower(rs[i].email);
    if rs[i].id in handled then Seen
    else if Repeats(rs, i, pol) then Suppressed(MailDup)
    else if pol.useExclusionList && email in pol.blacklist then Suppressed(MailBl)
    else if email in pol.optedOut then Suppressed(MailOptout)
    else if pol.sampler.Some? && !AbMember(pol.sampler.value, email) then NonMember
    else ToSend
  }

  /** The recipients to send to among the first `n` positions, in list order. */
  function SendList(rs: seq<Recipient>, n: nat, handled: set<Id>, pol: Policy): seq<Recipient>
    requires n <= |rs|
  {
    if n == 0 then []
    else SendList(rs, n - 1, handled, pol) + if FateOf(rs, n - 1, handled, pol) == ToSend then [rs[n - 1]] else []
  }

  function CancelList(rs: seq<Recipient>, n: nat, handled: set<Id>, pol: Policy): seq<(Recipient, Cause)>
    requires n <= |rs|
  {
    if n == 0 then []
    else
      var fate := FateOf(rs, n - 1, handled, pol);
      CancelList(rs, n - 1, handled, pol) + if fate.Suppressed? then [(rs[n - 1], fate.cause)] else []
  }

  /** How many of the first `n` positions met this fate. */
  function FateCount(rs: seq<Recipient>, n: nat, handled: set<Id>, pol: Policy, fate: Fate): nat
    requires n <= |rs|
  {
    if n == 0 then 0
    else FateCount(rs, n - 1, handled, pol, fate) + if FateOf(rs, n - 1, handled, pol) == fate then 1 else 0
  }

  /** Conservation: the six fates partition the resolved list, and the two work lists are two of the parts. */
  lemma {:induction false} FatesPartition(rs: seq<Recipient>, n: nat, handled: set<Id>, pol: Policy)
    requires n <= |rs|
    ensures FateCount(rs, n, handled, pol, Seen)
          + FateCount(rs, n, handled, pol, Suppressed(MailDup))
          + FateCount(rs, n, handled, pol, Suppressed(MailBl))
          + FateCount(rs, n, handled, pol, Suppressed(MailOptout))
          + FateCount(rs, n, handled, pol, NonMember)
          + FateCount(rs, n, handled, pol, ToSend) == n
    ensures |SendList(rs, n, handled, pol)| == FateCount(rs, n, handled, pol, ToSend)
    ensures |CancelList(rs, n, handled, pol)|
         == FateCount(rs, n, handled, pol, Suppressed(MailDup))
          + FateCount(rs, n, handled, pol, Suppressed(MailBl))
          + FateCount(rs, n, handled, pol, Suppressed(MailOptout))
  {
    if n > 0 {
      FatesPartition(rs, n - 1, handled, pol);
      var fate := FateOf(rs, n - 1, handled, pol);
      if fate.Suppressed? {
        assert fate.cause.MailDup? || fate.cause.MailBl? || fate.cause.MailOptout?;
      }
    }
  }

  /** What it takes to be sent to: a first occurrence that no standing trace, list or sampler excludes. */
  predicate Deserves(rs: seq<Recipient>, i: nat, handled: set<Id>, pol: Policy)
    requires i < |rs|
  {
    var email := pol.lower(rs[i].email);
    && rs[i].id !in handled
    && (forall j :: 0 <= j < i ==> pol.lower(rs[j].email) != email)
    && !(pol.useExclusionList && email in pol.blacklist)
    && email !in pol.optedOut
    && (pol.sampler.Some? ==> AbMember(pol.sampler.value, email))
  }

  /** Exclusion, both ways: the send list holds exactly the deserving positions. */
  lemma {:induction false} SendListIsExact(rs: seq<Recipient>, n: nat, handled: set<Id>, pol: Policy)
    requires n <= |rs|
    ensures forall i :: 0 <= i < n && Deserves(rs, i, handled, pol) ==> rs[i] in SendList(rs, n, handled, pol)
    ensures forall r :: r in SendList(rs, n, handled, pol) ==>
              exists i :: 0 <= i < n && rs[i] == r && Deserves(rs, i, handled, pol)
  {
    if n > 0 {
      SendListIsExact(rs, n - 1, handled, pol);
      var last := FateOf(rs, n - 1, handled, pol);
      assert last == ToSend <==> Deserves(rs, n - 1, handled, pol);
      forall r | r in SendList(rs, n, handled, pol)
        ensures exists i :: 0 <= i < n && rs[i] == r && Deserves(rs, i, handled, pol)
      {
        if r !in SendList(rs, n - 1, handled, pol) {
          assert rs[n - 1] == r && Deserves(rs, n - 1, handled, pol);
        }
      }
    }
  }

  /** Why a position is withheld: nobody dealt with it yet, and the first of the three causes that applies. */
  predicate IsWithheld(rs: seq<Recipient>, i: nat, handled: set<Id>, pol: Policy, cause: Cause)
    requires i < |rs|
  {
    var email := pol.lower(rs[i].email);
    var again := exists j :: 0 <= j < i && pol.lower(rs[j].email) == email;
    var listed := pol.useExclusionList && email in pol.blacklist;
    && rs[i].id !in handled
    && match cause
       case MailDup => again
       case MailBl => !again && listed
       case MailOptout => !again && !listed && email in pol.optedOut
  }

  /** Every fate has its one reason. */
  lemma {:induction false} FatesHaveReasons(rs: seq<Recipient>, i: nat, handled: set<Id>, pol: Policy)
    requires i < |rs|
    ensures FateOf(rs, i, handled, pol) == Seen <==> rs[i].id in handled
    ensures forall cause :: FateOf(rs, i, handled, pol) == Suppressed(cause) <==> IsWithheld(rs, i, handled, pol, cause)
    ensures FateOf(rs, i, handled, pol) == ToSend <==> Deserves(rs, i, handled, pol)
    ensures FateOf(rs, i, handled, pol) == NonMember
       <==> && Deserves(rs, i, handled, pol.(sampler := None)) && pol.sampler.Some?
            && !AbMember(pol.sampler.value, pol.lower(rs[i].email))
  {}

  lemma {:induction false} CancelListFollowsFates(rs: seq<Recipient>, n: nat, handled: set<Id>, pol: Policy)
    requires n <= |rs|
    ensures forall i :: 0 <= i < n && FateOf(rs, i, handled, pol).Suppressed? ==>
              (rs[i], FateOf(rs, i, handled, pol).cause) in CancelList(rs, n, handled, pol)
    ensures forall c :: c in CancelList(rs, n, handled, pol) ==>
              exists i :: 0 <= i < n && rs[i] == c.0 && FateOf(rs, i, handled, pol) == Suppressed(c.1)
  {
    if n > 0 {
      CancelListFollowsFates(rs, n - 1, handled, pol);
      forall c | c in CancelList(rs, n, handled, pol)
        ensures exists i :: 0 <= i < n && rs[i] == c.0 && FateOf(rs, i, handled, pol) == Suppressed(c.1)
      {
        if c !in CancelList(rs, n - 1, handled, pol) {
          assert rs[n - 1] == c.0 && FateOf(rs, n - 1, handled, pol) == Suppressed(c.1);
        }
      }
    }
  }

  /** The cancel work holds exactly the withheld positions, each with its cause. */
  lemma {:induction false} CancelListIsExact(rs: seq<Recipient>, n: nat, handled: set<Id>, pol: Policy)
    requires n <= |rs|
    ensures forall i, cause :: 0 <= i < n && IsWithheld(rs, i, handled, pol, cause) ==>
              (rs[i], cause) in CancelList(rs, n, handled, pol)
    ensures forall c :: c in CancelList(rs, n, handled, pol) ==>
              exists i :: 0 <= i < n && rs[i] == c.0 && IsWithheld(rs, i, handled, pol, c.1)
  {
    CancelListFollowsFates(rs, n, handled, pol);
    forall i | 0 <= i < n
      ensures forall cause ::
                FateOf(rs, i, handled, pol) == Suppressed(cause) <==> IsWithheld(rs, i, handled, pol, cause)
    {
      FatesHaveReasons(rs, i, handled, pol);
    }
  }

  // ----- the walk itself -------------------------------------------------------------------

  datatype Tally = Tally(seen: nat, dup: nat, blacklisted: nat, optedOut: nat, nonMember: nat)

  /** The loop: three membership sets, one set of emails met so far, two work lists, five counters. */
  method Walk(rs: seq<Recipient>, active: set<Id>, suppressedHere: set<Id>, pol: Policy)
    returns (toSend: seq<Recipient>, cancelWork: seq<(Recipient, Cause)>, tally: Tally)
    ensures toSend == SendList(rs, |rs|, active + suppressedHere, pol)
    ensures cancelWork == CancelList(rs, |rs|, active + suppressedHere, pol)
    ensures tally == Tally(
              FateCount(rs, |rs|, active + suppressedHere, pol, Seen),
              FateCount(rs, |rs|, active + suppressedHere, pol, Suppressed(MailDup)),
              FateCount(rs, |rs|, active + suppressedHere, pol, Suppressed(MailBl)),
              FateCount(rs, |rs|, active + suppressedHere, pol, Suppressed(MailOptout)),
              FateCount(rs, |rs|, active + suppressedHere, pol, NonMember))
    ensures tally.seen + tally.dup + tally.blacklisted + tally.optedOut + tally.nonMember + |toSend| == |rs|
  {
    ghost var handled := active + suppressedHere;
    var seenEmails: set<string> := {};
    var seen, dup, bl, opt, non := 0, 0, 0, 0, 0;
    toSend, cancelWork := [], [];
    for i := 0 to |rs|
      invariant forall e :: e in seenEmails <==> exists j :: 0 <= j < i && pol.lower(rs[j].email) == e
      invariant toSend == SendList(rs, i, handled, pol)
      invariant cancelWork == CancelList(rs, i, handled, pol)
      invariant seen == FateCount(rs, i, handled, pol, Seen)
      invariant dup == FateCount(rs, i, handled, pol, Suppressed(MailDup))
      invariant bl == FateCount(rs, i, handled, pol, Suppressed(MailBl))
      invariant opt == FateCount(rs, i, handled, pol, Suppressed(MailOptout))
      invariant non == FateCount(rs, i, handled, pol, NonMember)
    {
      var r := rs[i];
      var email := pol.lower(r.email);
      var first := email !in seenEmails;
      assert first <==> !Repeats(rs, i, pol);
      seenEmails := seenEmails + {email};
      if r.id in active {
        seen := seen + 1;
      } else if r.id in suppressedHere {
        seen := seen + 1;
      } else if !first {
        cancelWork := cancelWork + [(r, MailDup)];
        dup := dup + 1;
      } else if pol.useExclusionList && email in pol.blacklist {
        cancelWork := cancelWork + [(r, MailBl)];
        bl := bl + 1;
      } else if email in pol.optedOut {
        cancelWork := cancelWork + [(r, MailOptout)];
        opt := opt + 1;
      } else if pol.sampler.Some? && !AbMember(pol.sampler.value, email) {
        non := non + 1;
      } else {
        toSend := toSend + [r];
      }
    }
    tally := Tally(seen, dup, bl, opt, non);
    FatesPartition(rs, |rs|, handled, pol);
  }

  // ----- resuming after part of the work was done ------------------------------------------

  ghost predicate DistinctIds(rs: seq<Recipient>) {
    forall i, j :: 0 <= i < j < |rs| ==> rs[i].id != rs[j].id
  }

  function IdsOf(rs: seq<Recipient>): set<Id> {
    set r | r in rs :: r.id
  }

  function CanceledIds(cs: seq<(Recipient, Cause)>): set<Id> {
    set c | c in cs :: c.0.id
  }

  /** Handling more recipients only turns their own verdicts into "seen"; no other verdict moves. */
  lemma {:induction false} FateStable(rs: seq<Recipient>, i: nat, handled: set<Id>, more: set<Id>, pol: Policy)
    requires i < |rs|
    ensures FateOf(rs, i, handled + more, pol) == if rs[i].id in more then Seen else FateOf(rs, i, handled, pol)
  {}

  lemma {:induction false} SendListExtends(rs: seq<Recipient>, n: nat, m: nat, handled: set<Id>, pol: Policy)
    requires n <= m <= |rs|
    ensures SendList(rs, n, handled, pol) <= SendList(rs, m, handled, pol)
    decreases m
  {
    if n < m {
      SendListExtends(rs, n, m - 1, handled, pol);
    }
  }

  /** On a list of distinct recipients the send list repeats nobody. */
  lemma {:induction false} SendListDistinct(rs: seq<Recipient>, n: nat, handled: set<Id>, pol: Policy)
    requires n <= |rs| && DistinctIds(rs)
    ensures DistinctIds(SendList(rs, n, handled, pol))
  {
    if n > 0 {
      SendListDistinct(rs, n - 1, handled, pol);
      SendListIsExact(rs, n - 1, handled, pol);
      var before := SendList(rs, n - 1, handled, pol);
      forall a | 0 <= a < |before|
        ensures before[a].id != rs[n - 1].id
      {
        assert before[a] in before;
        var i :| 0 <= i < n - 1 && rs[i] == before[a] && Deserves(rs, i, handled, pol);
        assert rs[i].id != rs[n - 1].id;
      }
    }
  }

  /** On distinct recipients, a position's id is in a work list only if that position's own fate put it there. */
  lemma {:induction false} WorkListsFollowFates(rs: seq<Recipient>, i: nat, handled: set<Id>, pol: Policy)
    requires i < |rs| && DistinctIds(rs)
    ensures rs[i].id in IdsOf(SendList(rs, |rs|, handled, pol)) <==> FateOf(rs, i, handled, pol) == ToSend
    ensures rs[i].id in CanceledIds(CancelList(rs, |rs|, handled, pol)) <==> FateOf(rs, i, handled, pol).Suppressed?
  {
    SendListIsExact(rs, |rs|, handled, pol);
    CancelListFollowsFates(rs, |rs|, handled, pol);
    var sends, cancels := SendList(rs, |rs|, handled, pol), CancelList(rs, |rs|, handled, pol);
    if rs[i].id in IdsOf(sends) {
      var r :| r in sends && r.id == rs[i].id;
      var j :| 0 <= j < |rs| && rs[j] == r && Deserves(rs, j, handled, pol);
      assert j == i;
    }
    if rs[i].id in CanceledIds(cancels) {
      var c :| c in cancels && c.0.id == rs[i].id;
      var j :| 0 <= j < |rs| && rs[j] == c.0 && FateOf(rs, j, handled, pol) == Suppressed(c.1);
      assert j == i;
    }
    assert FateOf(rs, i, handled, pol) == ToSend <==> Deserves(rs, i, handled, pol);
    if FateOf(rs, i, handled, pol).Suppressed? {
      assert (rs[i], FateOf(rs, i, handled, pol).cause).0.id == rs[i].id;
    }
  }

  /** Nobody is both sent to and suppressed, or sent to with a standing trace. */
  lemma {:induction false} SendCancelDisjoint(rs: seq<Recipient>, handled: set<Id>, pol: Policy)
    requires DistinctIds(rs)
    ensures IdsOf(SendList(rs, |rs|, handled, pol)) !! CanceledIds(CancelList(rs, |rs|, handled, pol)) + handled
  {
    SendListIsExact(rs, |rs|, handled, pol);
    forall x | x in IdsOf(SendList(rs, |rs|, handled, pol))
      ensures x !in CanceledIds(CancelList(rs, |rs|, handled, pol)) + handled
    {
      var r :| r in SendList(rs, |rs|, handled, pol) && r.id == x;
      var i :| 0 <= i < |rs| && rs[i] == r && Deserves(rs, i, handled, pol);
      WorkListsFollowFates(rs, i, handled, pol);
    }
  }

  /** A recipient sent to from position `i` sits in the send list right after the earlier sends, and nowhere else. */
  lemma {:induction false} SendPosition(rs: seq<Recipient>, i: nat, handled: set<Id>, pol: Policy, k: nat)
    requires i < |rs| && DistinctIds(rs) && k <= |SendList(rs, |rs|, handled, pol)|
    requires FateOf(rs, i, handled, pol) == ToSend
    ensures rs[i].id in IdsOf(SendList(rs, |rs|, handled, pol)[..k]) <==> |SendList(rs, i, handled, pol)| < k
  {
    var all := SendList(rs, |rs|, handled, pol);
    var p := |SendList(rs, i, handled, pol)|;
    SendListExtends(rs, i + 1, |rs|, handled, pol);
    assert SendList(rs, i + 1, handled, pol)[p] == rs[i];
    assert all[p] == rs[i];
    SendListDistinct(rs, |rs|, handled, pol);
    if p < k {
      assert all[..k][p] == rs[i];
    } else {
      forall r | r in all[..k]
        ensures r.id != rs[i].id
      {
        var q :| 0 <= q < k && all[..k][q] == r;
        assert all[q].id != all[p].id;
      }
    }
  }

  /** The fate of a position once suppressions and the first `k` sends stand as traces. */
  function ResumedFate(rs: seq<Recipient>, i: nat, handled: set<Id>, pol: Policy, k: nat): Fate
    requires i < |rs|
  {
    match FateOf(rs, i, handled, pol)
    case ToSend => if |SendList(rs, i, handled, pol)| < k then Seen else ToSend
    case NonMember => NonMember
    case _ => Seen
  }

  lemma {:induction false} ResumeOne(rs: seq<Recipient>, i: nat, handled: set<Id>, pol: Policy, k: nat)
    requires i < |rs| && DistinctIds(rs) && k <= |SendList(rs, |rs|, handled, pol)|
    ensures var all := SendList(rs, |rs|, handled, pol);
            var more := CanceledIds(CancelList(rs, |rs|, handled, pol)) + IdsOf(all[..k]);
            FateOf(rs, i, handled + more, pol) == ResumedFate(rs, i, handled, pol, k)
  {
    var all := SendList(rs, |rs|, handled, pol);
    var more := CanceledIds(CancelList(rs, |rs|, handled, pol)) + IdsOf(all[..k]);
    FateStable(rs, i, handled, more, pol);
    WorkListsFollowFates(rs, i, handled, pol);
    if FateOf(rs, i, handled, pol) == ToSend {
      SendPosition(rs, i, handled, pol, k);
    } else {
      assert IdsOf(all[..k]) <= IdsOf(all);
    }
  }

  lemma {:induction false} ResumedLists(rs: seq<Recipient>, n: nat, handled: set<Id>, now: set<Id>, pol: Policy, k: nat)
    requires n <= |rs|
    requires forall i :: 0 <= i < n ==> FateOf(rs, i, now, pol) == ResumedFate(rs, i, handled, pol, k)
    ensures var sofar := SendList(rs, n, handled, pol);
            && SendList(rs, n, now, pol) == (if |sofar| <= k then [] else sofar[k..])
            && CancelList(rs, n, now, pol) == []
  {
    if n > 0 {
      var before, last := SendList(rs, n - 1, handled, pol), rs[n - 1];
      ResumedLists(rs, n - 1, handled, now, pol, k);
      if |before| >= k {
        assert (before + [last])[k..] == before[k..] + [last];
      }
    }
  }

  /**
   * The heart of resumption: once every suppression and the first `k` sends stand as traces, a
   * re-walk of the same list has exactly the remaining sends, in order, and suppresses nobody anew.
   */
  lemma {:induction false} Resume(rs: seq<Recipient>, n: nat, handled: set<Id>, pol: Policy, k: nat)
    requires n <= |rs| && DistinctIds(rs) && k <= |SendList(rs, |rs|, handled, pol)|
    ensures var all := SendList(rs, |rs|, handled, pol);
            var more := CanceledIds(CancelList(rs, |rs|, handled, pol)) + IdsOf(all[..k]);
            var sofar := SendList(rs, n, handled, pol);
            && SendList(rs, n, handled + more, pol) == (if |sofar| <= k then [] else sofar[k..])
            && CancelList(rs, n, handled + more, pol) == []
  {
    var all := SendList(rs, |rs|, handled, pol);
    var more := CanceledIds(CancelList(rs, |rs|, handled, pol)) + IdsOf(all[..k]);
    forall i | 0 <= i < n
      ensures FateOf(rs, i, handled + more, pol) == ResumedFate(rs, i, handled, pol, k)
    {
      ResumeOne(rs, i, handled, pol, k);
    }
    ResumedLists(rs, n, handled, handled + more, pol, k);
  }
}
