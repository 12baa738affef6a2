/**
 * Audience membership and the opt-out flip. Contacts and subscriptions are tables indexed by id;
 * rows are soft-deleted, never removed.
 */
module Subscriptions {
  import opened MailTypes

  datatype Contact = Contact(
    email: string,
    name: Option<string>,
    firstName: Option<string>,
    lastName: Option<string>,
    companyName: Option<string>,
    countryCode: Option<string>,
    deleted: bool)

  datatype Subscription = Subscription(
    contact: Id,
    audience: Id,
    optOut: bool,
    optOutAt: Option<Time>,
    reason: Option<Id>,
    deleted: bool)

  predicate OnList(s: Subscription, contact: Id, audience: Id) {
    !s.deleted && s.contact == contact && s.audience == audience
  }

  /** The partial unique (contact, audience) over live rows. */
  ghost predicate OneRowPerKey(subs: seq<Subscription>) {
    forall i, j :: 0 <= i < j < |subs| && !subs[i].deleted && !subs[j].deleted ==>
      (subs[i].contact, subs[i].audience) != (subs[j].contact, subs[j].audience)
  }

  /** The opt-out UPDATE, row by row: only a live row that is still in is flipped and stamped. */
  function Flip(s: Subscription, contact: Id, audience: Id, reason: Option<Id>, now: Time): Subscription {
    if OnList(s, contact, audience) && !s.optOut
    then s.(optOut := true, optOutAt := Some(now), reason := reason)
    else s
  }

  function Cleared(s: Subscription): Subscription {
    s.(optOut := false, optOutAt := None, reason := None)
  }

  /** A live contact with this lowercased address. */
  predicate IsOf(contacts: seq<Contact>, c: Id, lower: string -> string, email: string) {
    c < |contacts| && !contacts[c].deleted && lower(contacts[c].email) == email
  }

  /** A live contact answering to this address, compared case-insensitively. */
  predicate Answers(contacts: seq<Contact>, c: Id, lower: string -> string, email: string) {
    IsOf(contacts, c, lower, lower(email))
  }

  /** The send-time probe: a live opt-out flip, on any audience, of a live contact with this lowercased address. */
  ghost predicate OptedOutAnywhere(contacts: seq<Contact>, subs: seq<Subscription>, lower: string -> string,
          email: string)
  {
    exists i :: 0 <= i < |subs| && !subs[i].deleted && subs[i].optOut
                && IsOf(contacts, subs[i].contact, lower, email)
  }

  function ContactIds(contacts: seq<Contact>, n: nat, lower: string -> string, email: string): seq<Id>
    requires n <= |contacts|
  {
    if n == 0 then []
    else ContactIds(contacts, n - 1, lower, email) + if Answers(contacts, n - 1, lower, email) then [n - 1] else []
  }

  lemma {:induction false} ContactIdsAreExact(contacts: seq<Contact>, n: nat, lower: string -> string, email: string)
    requires n <= |contacts|
    ensures forall c :: c in ContactIds(contacts, n, lower, email) <==> 0 <= c < n && Answers(contacts, c, lower, email)
    ensures forall c :: c in ContactIds(contacts, n, lower, email) <==>
              0 <= c < n && !contacts[c].deleted && lower(contacts[c].email) == lower(email)
  {
    if n > 0 {
      ContactIdsAreExact(contacts, n - 1, lower, email);
    }
  }

  datatype Unsubscribed = Unsubscribed(row: Subscription, changed: bool)

  /** Every refusal of the public route is the same answer. */
  datatype Refused = NotSubscribed

  /** A live row of this audience whose contact answers to the address. */
  predicate Concerns(s: Subscription, contacts: seq<Contact>, lower: string -> string, email: string, audience: Id) {
    !s.deleted && s.audience == audience && Answers(contacts, s.contact, lower, email)
  }

  /** What the public unsubscribe does to one row. */
  function FlipFor(s: Subscription, contacts: seq<Contact>, lower: string -> string, email: string, audience: Id,
          reason: Option<Id>, now: Time): Subscription
  {
    if Concerns(s, contacts, lower, email, audience) then Flip(s, s.contact, audience, reason, now) else s
  }

  /** One row before and after the public unsubscribe, field by field. */
  predicate FlipTells(a: Subscription, b: Subscription, contacts: seq<Contact>, lower: string -> string, email: string,
          audience: Id, reason: Option<Id>, now: Time)
  {
    var asked := && !a.deleted && a.audience == audience && a.contact < |contacts|
                 && !contacts[a.contact].deleted && lower(contacts[a.contact].email) == lower(email);
    b == if asked && !a.optOut then a.(optOut := true, optOutAt := Some(now), reason := reason) else a
  }

  lemma {:induction false} FlipForTells(s: Subscription, contacts: seq<Contact>, lower: string -> string, email: string,
          audience: Id, reason: Option<Id>, now: Time)
    ensures FlipTells(s, FlipFor(s, contacts, lower, email, audience, reason, now),
                      contacts, lower, email, audience, reason, now)
  {}

  /** An unsubscribe that found a row leaves the address on the send-time suppression probe. */
  lemma {:induction false} UnsubscribeSuppresses(contacts: seq<Contact>, before: seq<Subscription>,
          after: seq<Subscription>, lower: string -> string, email: string, audience: Id, reason: Option<Id>,
          now: Time)
    requires |after| == |before|
    requires forall i :: 0 <= i < |before| ==>
              after[i] == FlipFor(before[i], contacts, lower, email, audience, reason, now)
    requires exists i :: 0 <= i < |before| && Concerns(before[i], contacts, lower, email, audience)
    ensures OptedOutAnywhere(contacts, after, lower, lower(email))
  {
    var i :| 0 <= i < |before| && Concerns(before[i], contacts, lower, email, audience);
    assert !after[i].deleted && after[i].optOut && after[i].contact == before[i].contact;
  }

  predicate Listed(s: Subscription, ids: seq<Id>, audience: Id) {
    !s.deleted && s.audience == audience && s.contact in ids
  }

  /** No live row of the audience belongs to these contacts. */
  ghost predicate NoneListed(subs: seq<Subscription>, ids: seq<Id>, audience: Id) {
    forall i :: 0 <= i < |subs| ==> !Listed(subs[i], ids, audience)
  }

  function FlipIn(s: Subscription, ids: seq<Id>, audience: Id, reason: Option<Id>, now: Time): Subscription {
    if s.contact in ids then Flip(s, s.contact, audience, reason, now) else s
  }

  /** One more contact: the flips compose, a flip shows in the table, and a hit is either flipped or standing. */
  lemma {:induction false} FlipStep(start: seq<Subscription>, before: seq<Subscription>, after: seq<Subscription>,
          ids: seq<Id>, c: Id, audience: Id, reason: Option<Id>, now: Time)
    requires |start| == |before| == |after|
    requires forall i :: 0 <= i < |start| ==> before[i] == FlipIn(start[i], ids, audience, reason, now)
    requires forall i :: 0 <= i < |start| ==> after[i] == Flip(before[i], c, audience, reason, now)
    ensures forall i :: 0 <= i < |start| ==> after[i] == FlipIn(start[i], ids + [c], audience, reason, now)
    ensures before != start ==> after != start
    ensures (exists i :: 0 <= i < |start| && OnList(before[i], c, audience) && !before[i].optOut) ==> after != start
    ensures NoneListed(start, ids + [c], audience)
       <==> NoneListed(start, ids, audience) && forall i :: 0 <= i < |start| ==> !OnList(before[i], c, audience)
  {}

  /** In terms of addresses: the loop over contact ids is the row-by-row flip of the rows it concerns. */
  lemma {:induction false} UnsubscribeMeaning(contacts: seq<Contact>, lower: string -> string, email: string,
          start: seq<Subscription>, audience: Id, reason: Option<Id>, now: Time)
    ensures var ids := ContactIds(contacts, |contacts|, lower, email);
            && (forall s: Subscription {:trigger Listed(s, ids, audience)} ::
                  Listed(s, ids, audience) <==> Concerns(s, contacts, lower, email, audience))
            && (forall i :: 0 <= i < |start| ==>
                  FlipIn(start[i], ids, audience, reason, now)
                  == FlipFor(start[i], contacts, lower, email, audience, reason, now))
            && (NoneListed(start, ids, audience) <==>
                !exists i :: 0 <= i < |start| && Concerns(start[i], contacts, lower, email, audience))
  {
    ContactIdsAreExact(contacts, |contacts|, lower, email);
    var ids := ContactIds(contacts, |contacts|, lower, email);
    assert forall s: Subscription {:trigger Listed(s, ids, audience)} ::
        Listed(s, ids, audience) <==> Concerns(s, contacts, lower, email, audience);
  }

  class SubscriptionRepository {
    var contacts: seq<Contact>
    var subs: seq<Subscription>

    ghost predicate Valid()
      reads this
    {
      OneRowPerKey(subs)
    }

    constructor ()
      ensures Valid() && contacts == [] && subs == []
    {
      contacts, subs := [], [];
    }

    method FindLive(contact: Id, audience: Id) returns (at: Option<Id>)
      ensures at.Some? ==> at.value < |subs| && OnList(subs[at.value], contact, audience)
      ensures at.None? ==> forall i :: 0 <= i < |subs| ==> !OnList(subs[i], contact, audience)
      ensures at.None? <==>
              forall i :: 0 <= i < |subs| ==>
                subs[i].deleted || subs[i].contact != contact || subs[i].audience != audience
    {
      for i := 0 to |subs|
        invariant forall k :: 0 <= k < i ==> !OnList(subs[k], contact, audience)
      {
        if OnList(subs[i], contact, audience) {
          return Some(i);
        }
      }
      return None;
    }

    /** Subscribe converges on the live row and clears a standing opt-out; otherwise it adds the row. */
    method Subscribe(contact: Id, audience: Id) returns (row: Id)
      requires Valid()
      modifies this
      ensures Valid() && contacts == old(contacts)
      ensures row < |subs| && OnList(subs[row], contact, audience) && !subs[row].optOut && subs[row].optOutAt.None?
      ensures row < |old(subs)| ==>
                && subs == old(subs)[row := old(subs)[row].(optOut := false, optOutAt := None, reason := None)]
                && OnList(old(subs)[row], contact, audience)
      ensures row >= |old(subs)| ==> subs == old(subs) + [Subscription(contact, audience, false, None, None, false)]
    {
      var at := FindLive(contact, audience);
      match at
      case Some(i) =>
        subs := subs[i := Cleared(subs[i])];
        row := i;
      case None =>
        row := |subs|;
        subs := subs + [Subscription(contact, audience, false, None, None, false)];
    }

    /** One opt-out flip: the first moment is kept, a repeat changes nothing. */
    method OptOut(contact: Id, audience: Id, reason: Option<Id>, now: Time) returns (flipped: Option<Subscription>)
      requires Valid()
      modifies this`subs
      ensures Valid() && |subs| == |old(subs)|
      ensures forall i :: 0 <= i < |subs| ==> subs[i] == Flip(old(subs)[i], contact, audience, reason, now)
      ensures forall i :: 0 <= i < |subs| ==>
                var a := old(subs)[i];
                subs[i] == if !a.deleted && a.contact == contact && a.audience == audience && !a.optOut
                           then a.(optOut := true, optOutAt := Some(now), reason := reason) else a
      ensures flipped.Some?
         <==> exists i :: 0 <= i < |subs| && OnList(old(subs)[i], contact, audience) && !old(subs)[i].optOut
      ensures flipped.Some? ==>
                flipped.value in subs && OnList(flipped.value, contact, audience) && flipped.value.optOut
    {
      flipped := None;
      var at := FindLive(contact, audience);
      if at.Some? && !subs[at.value].optOut {
        subs := subs[at.value := Flip(subs[at.value], contact, audience, reason, now)];
        flipped := Some(subs[at.value]);
      }
    }

    method Remove(contact: Id, audience: Id) returns (removed: bool)
      requires Valid()
      modifies this`subs
      ensures Valid() && |subs| == |old(subs)|
      ensures forall i :: 0 <= i < |subs| ==>
                var a := old(subs)[i];
                subs[i] == a.(deleted := a.deleted || (a.contact == contact && a.audience == audience))
      ensures removed <==> exists i :: 0 <= i < |subs| && OnList(old(subs)[i], contact, audience)
    {
      var at := FindLive(contact, audience);
      removed := at.Some?;
      if removed {
        subs := subs[at.value := subs[at.value].(deleted := true)];
      }
    }

    /** One contact of the unsubscribe loop: flip it, or find the row already standing. */
    method OptOutOrStanding(contact: Id, audience: Id, reason: Option<Id>, now: Time)
      returns (flipped: Option<Subscription>, standing: Option<Subscription>)
      requires Valid()
      modifies this`subs
      ensures Valid() && |subs| == |old(subs)|
      ensures forall i :: 0 <= i < |subs| ==> subs[i] == Flip(old(subs)[i], contact, audience, reason, now)
      ensures flipped.None? ==> subs == old(subs)
      ensures flipped.Some? ==>
                exists i :: 0 <= i < |subs| && OnList(old(subs)[i], contact, audience) && !old(subs)[i].optOut
      ensures flipped.Some? ==> OnList(flipped.value, contact, audience) && flipped.value.optOut
      ensures standing.Some? ==>
                OnList(standing.value, contact, audience) && standing.value.optOut && standing.value in subs
      ensures flipped.None? && standing.None? ==> forall i :: 0 <= i < |subs| ==> !OnList(subs[i], contact, audience)
    {
      standing := None;
      flipped := OptOut(contact, audience, reason, now);
      if flipped.None? {
        assert subs == old(subs);
        var at := FindLive(contact, audience);
        if at.Some? {
          standing := Some(subs[at.value]);
        }
      }
    }

    /** The loop over the contacts of the address: flip each, remembering the first flip and the first standing row. */
    method OptOutAll(ids: seq<Id>, audience: Id, reason: Option<Id>, now: Time)
      returns (flipped: Option<Subscription>, standing: Option<Subscription>)
      requires Valid()
      modifies this`subs
      ensures Valid() && |subs| == |old(subs)|
      ensures forall i :: 0 <= i < |subs| ==> subs[i] == FlipIn(old(subs)[i], ids, audience, reason, now)
      ensures flipped.None? <==> subs == old(subs)
      ensures flipped.None? && standing.None? <==> NoneListed(old(subs), ids, audience)
      ensures flipped.Some? ==> Listed(flipped.value, ids, audience) && flipped.value.optOut
      ensures standing.Some? ==> Listed(standing.value, ids, audience) && standing.value.optOut
    {
      ghost var start := subs;
      flipped, standing := None, None;
      for k := 0 to |ids|
        invariant Valid() && |subs| == |start|
        invariant forall i :: 0 <= i < |subs| ==> subs[i] == FlipIn(start[i], ids[..k], audience, reason, now)
        invariant flipped.None? <==> subs == start
        invariant flipped.None? && standing.None? <==> NoneListed(start, ids[..k], audience)
        invariant flipped.Some? ==> Listed(flipped.value, ids, audience) && flipped.value.optOut
        invariant standing.Some? ==> Listed(standing.value, ids, audience) && standing.value.optOut
      {
        ghost var before := subs;
        var row, found := OptOutOrStanding(ids[k], audience, reason, now);
        assert ids[..k + 1] == ids[..k] + [ids[k]];
        FlipStep(start, before, subs, ids[..k], ids[k], audience, reason, now);
        flipped := if flipped.Some? then flipped else row;
        if row.None? && standing.None? {
          standing := found;
        }
      }
      assert ids[..|ids|] == ids;
    }

    /**
     * The public unsubscribe: every live contact answering to the address opts out of the audience.
     * Rows already out keep their first moment; the refusal happens exactly when none of those
     * contacts is on the audience, and then nothing has changed.
     */
    method UnsubscribeByEmail(lower: string -> string, email: string, audience: Id, reason: Option<Id>, now: Time)
      returns (r: Result<Unsubscribed, Refused>)
      requires Valid()
      modifies this`subs
      ensures Valid() && |subs| == |old(subs)|
      ensures forall i :: 0 <= i < |subs| ==>
                subs[i] == FlipFor(old(subs)[i], contacts, lower, email, audience, reason, now)
      ensures forall i :: 0 <= i < |subs| ==>
                FlipTells(old(subs)[i], subs[i], contacts, lower, email, audience, reason, now)
      ensures r.Ok? <==> exists i :: 0 <= i < |old(subs)| && Concerns(old(subs)[i], contacts, lower, email, audience)
      ensures r.Ok? ==> r.value.row.optOut && Concerns(r.value.row, contacts, lower, email, audience)
      ensures r.Ok? ==> (r.value.changed <==> subs != old(subs))
      ensures r.Err? ==> subs == old(subs)
      ensures r.Ok? ==> OptedOutAnywhere(contacts, subs, lower, lower(email))
    {
      ghost var start := subs;
      var ids := ContactIds(contacts, |contacts|, lower, email);
      var flipped, standing := OptOutAll(ids, audience, reason, now);
      UnsubscribeMeaning(contacts, lower, email, start, audience, reason, now);
      if !NoneListed(start, ids, audience) {
        UnsubscribeSuppresses(contacts, start, subs, lower, email, audience, reason, now);
      }
      forall i | 0 <= i < |subs|
        ensures FlipTells(start[i], subs[i], contacts, lower, email, audience, reason, now)
      {
        FlipForTells(start[i], contacts, lower, email, audience, reason, now);
      }
      if flipped.Some? {
        r := Ok(Unsubscribed(flipped.value, true));
      } else if standing.Some? {
        r := Ok(Unsubscribed(standing.value, false));
      } else {
        r := Err(NotSubscribed);
      }
    }
  }
}
