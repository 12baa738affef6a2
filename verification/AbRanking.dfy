/**
 * Ranking the done variants of an A/B test by the invoiced amount their engagement source carries,
 * asking the billing seam once per distinct source.
 */
module AbRanking {
  import opened MailTypes

  /** A done variant and the engagement source it cites. */
  datatype Variant = Variant(id: Id, source: Option<Id>)

  datatype Ranked = Ranked(id: Id, amount: Option<real>)

  /** The billing-side seam: the invoiced total of a source, or its refusal. */
  type AmountPort = Id -> Result<real, string>

  datatype RankOutcome = Winner(id: Id) | Wait | SeamRefused(detail: string)

  /** Option ordering: nothing sorts below any amount. */
  predicate Above(a: Option<real>, b: Option<real>) {
    a.Some? && (b.None? || a.value > b.value)
  }

  /** The comparator: greater amount first, then the smaller id. */
  predicate Before(a: Ranked, b: Ranked) {
    Above(a.amount, b.amount) || (a.amount == b.amount && a.id <= b.id)
  }

  predicate Sorted(s: seq<Ranked>) {
    forall i, j :: 0 <= i < j < |s| ==> Before(s[i], s[j])
  }

  lemma {:induction false} InsertionSorts(r: seq<Ranked>, at: nat, x: Ranked)
    requires Sorted(r) && at <= |r|
    requires forall k :: 0 <= k < at ==> Before(r[k], x)
    requires at < |r| ==> Before(x, r[at])
    ensures Sorted(r[..at] + [x] + r[at..])
  {}

  /** The library sort the source calls; only its contract is used. */
  method Sort(s: seq<Ranked>) returns (r: seq<Ranked>)
    ensures Sorted(r) && multiset(r) == multiset(s)
  {
    r := [];
    for i := 0 to |s|
      invariant Sorted(r) && multiset(r) == multiset(s[..i])
    {
      var at := 0;
      while at < |r| && Before(r[at], s[i])
        invariant at <= |r|
        invariant forall k :: 0 <= k < at ==> Before(r[k], s[i])
      {
        at := at + 1;
      }
      InsertionSorts(r, at, s[i]);
      assert multiset(r[..at] + [s[i]] + r[at..]) == multiset(s[..i + 1]) by {
        assert r == r[..at] + r[at..];
        assert s[..i + 1] == s[..i] + [s[i]];
      }
      r := r[..at] + [s[i]] + r[at..];
    }
    assert s[..|s|] == s;
  }

  // ----- what a winner is ------------------------------------------------------------------

  /** What a variant attributes: its source's amount; nothing without a source. */
  function Attributed(v: Variant, port: AmountPort): Option<real> {
    if v.source.Some? && port(v.source.value).Ok? then Some(port(v.source.value).value) else None
  }

  /** The variant attributes an amount no other exceeds, with the least id among those that reach it. */
  predicate IsWinner(vs: seq<Variant>, w: Variant, port: AmountPort) {
    && w in vs && w.source.Some? && port(w.source.value).Ok?
    && forall v :: v in vs && v.source.Some? && port(v.source.value).Ok? ==>
         var a, b := port(v.source.value).value, port(w.source.value).value;
         a < b || (a == b && w.id <= v.id)
  }

  predicate Refuses(vs: seq<Variant>, port: AmountPort) {
    exists v :: v in vs && v.source.Some? && port(v.source.value).Err?
  }

  /** The distinct sources the first `n` variants cite, in first-mention order. */
  function Sources(vs: seq<Variant>, n: nat): seq<Id>
    requires n <= |vs|
  {
    if n == 0 then []
    else
      var before := Sources(vs, n - 1);
      if vs[n - 1].source.Some? && vs[n - 1].source.value !in before then before + [vs[n - 1].source.value] else before
  }

  lemma {:induction false} SourcesAreExact(vs: seq<Variant>, n: nat)
    requires n <= |vs|
    ensures forall s: Id :: s in Sources(vs, n) <==> exists i :: 0 <= i < n && vs[i].source == Some(s)
    ensures forall i, j :: 0 <= i < j < |Sources(vs, n)| ==> Sources(vs, n)[i] != Sources(vs, n)[j]
  {
    if n > 0 {
      SourcesAreExact(vs, n - 1);
      forall s: Id
        ensures s in Sources(vs, n) <==> exists i :: 0 <= i < n && vs[i].source == Some(s)
      {
        if vs[n - 1].source == Some(s) {
          assert s in Sources(vs, n);
        }
      }
    }
  }

  /**
   * The memo loop: ask the seam once per distinct source. It stops at the first refusal; otherwise
   * the memo holds the answer for every source cited.
   */
  method AskSources(vs: seq<Variant>, port: AmountPort) returns (r: Result<map<Id, real>, string>, asked: seq<Id>)
    ensures r.Err? <==> Refuses(vs, port)
    ensures r.Err? ==> exists v :: v in vs && v.source.Some? && port(v.source.value) == Err(r.error)
    ensures r.Ok? ==> asked == Sources(vs, |vs|)
    ensures forall i, j :: 0 <= i < j < |asked| ==> asked[i] != asked[j]
    ensures r.Ok? ==> forall v :: v in vs && v.source.Some? ==>
              v.source.value in r.value && port(v.source.value) == Ok(r.value[v.source.value])
  {
    var memo: map<Id, real> := map[];
    asked := [];
    for i := 0 to |vs|
      invariant asked == Sources(vs, i)
      invariant forall s: Id :: s in asked <==> s in memo
      invariant forall s: Id :: s in memo ==> port(s) == Ok(memo[s])
      invariant forall k :: 0 <= k < i && vs[k].source.Some? ==> vs[k].source.value in memo
    {
      SourcesAreExact(vs, i);
      if vs[i].source.Some? && vs[i].source.value !in memo {
        var source := vs[i].source.value;
        var answer := port(source);
        if answer.Err? {
          assert vs[i] in vs;
          return Err(answer.error), asked;
        }
        memo := memo[source := answer.value];
        asked := asked + [source];
      }
    }
    SourcesAreExact(vs, |vs|);
    return Ok(memo), asked;
  }

  lemma {:induction false} FirstIsBest(vs: seq<Variant>, ranked: seq<Ranked>, sorted: seq<Ranked>, port: AmountPort)
    requires |ranked| == |vs| > 0 && Sorted(sorted) && multiset(sorted) == multiset(ranked)
    requires !Refuses(vs, port)
    requires forall i :: 0 <= i < |vs| ==> ranked[i] == Ranked(vs[i].id, Attributed(vs[i], port))
    ensures |sorted| == |vs|
    ensures sorted[0].amount.None? <==> forall v :: v in vs ==> v.source.None?
    ensures sorted[0].amount.Some? ==> exists w :: IsWinner(vs, w, port) && w.id == sorted[0].id
  {
    assert |sorted| == |multiset(sorted)| == |multiset(ranked)| == |ranked|;
    assert sorted[0] in multiset(sorted);
    var k :| 0 <= k < |ranked| && ranked[k] == sorted[0];
    forall v | v in vs
      ensures Before(sorted[0], Ranked(v.id, Attributed(v, port)))
    {
      var i :| 0 <= i < |vs| && vs[i] == v;
      assert ranked[i] in multiset(ranked);
      var j :| 0 <= j < |sorted| && sorted[j] == ranked[i];
    }
    assert vs[k] in vs;
    if sorted[0].amount.Some? {
      assert IsWinner(vs, vs[k], port);
    }
  }

  /**
   * The whole ranking: refused exactly when some cited source is refused, waiting exactly when no
   * variant attributes anything, and otherwise naming the winner. No source is asked twice.
   */
  method RankByInvoicedAmount(vs: seq<Variant>, port: AmountPort) returns (r: RankOutcome, asked: seq<Id>)
    ensures r.SeamRefused? <==> Refuses(vs, port)
    ensures r.SeamRefused? ==> exists v :: v in vs && v.source.Some? && port(v.source.value) == Err(r.detail)
    ensures r.Wait? <==> !Refuses(vs, port) && forall v :: v in vs ==> v.source.None?
    ensures r.Winner? ==> exists w :: IsWinner(vs, w, port) && w.id == r.id
    ensures forall i, j :: 0 <= i < j < |asked| ==> asked[i] != asked[j]
  {
    var answers;
    answers, asked := AskSources(vs, port);
    if answers.Err? {
      return SeamRefused(answers.error), asked;
    }
    var memo := answers.value;
    var ranked := seq(|vs|, i requires 0 <= i < |vs| =>
      Ranked(vs[i].id,
             if vs[i].source.Some? && vs[i].source.value in memo then Some(memo[vs[i].source.value]) else None));
    forall i | 0 <= i < |vs|
      ensures ranked[i] == Ranked(vs[i].id, Attributed(vs[i], port))
    {
      assert vs[i] in vs;
    }
    if |ranked| == 0 {
      return Wait, asked;
    }
    var sorted := Sort(ranked);
    FirstIsBest(vs, ranked, sorted, port);
    if sorted[0].amount.None? {
      return Wait, asked;
    }
    return Winner(sorted[0].id), asked;
  }

  /** The winner does not depend on the order the variants are read in. */
  lemma {:induction false} WinnerIsOrderFree(a: seq<Variant>, b: seq<Variant>, v: Variant, w: Variant, port: AmountPort)
    requires multiset(a) == multiset(b)
    requires IsWinner(a, v, port) && IsWinner(b, w, port)
    ensures v.id == w.id
  {
    assert v in multiset(a) && w in multiset(b);
    assert v in b && w in a;
  }

  /** A tie does not wait: among variants attributing the same greatest amount the least id wins. */
  lemma {:induction false} TieGoesToTheLeastId(a: Variant, b: Variant, port: AmountPort)
    requires a.id < b.id && a.source.Some? && b.source.Some?
    requires port(a.source.value).Ok? && port(b.source.value) == port(a.source.value)
    ensures IsWinner([b, a], a, port) && !IsWinner([b, a], b, port)
  {
    assert a in [b, a] && b in [b, a];
  }
}
