/**
 * SQL LIKE, and what a `like` domain term really asks: the pattern is '%' || value || '%', so the
 * value's own %, _ and \ act as wildcards.
 */
module LikePattern {
  /** LIKE: % is any run, _ any one character, \ takes the next pattern character literally. */
  predicate LikeMatch(s: string, p: string)
    decreases |p| + |s|
  {
    if p == "" then s == ""
    else if p[0] == '%' then LikeMatch(s, p[1..]) || (s != "" && LikeMatch(s[1..], p))
    else if p[0] == '\\' then |p| > 1 && s != "" && s[0] == p[1] && LikeMatch(s[1..], p[2..])
    else s != "" && (p[0] == '_' || s[0] == p[0]) && LikeMatch(s[1..], p[1..])
  }

  predicate Wild(c: char) {
    c == '%' || c == '_' || c == '\\'
  }

  predicate Plain(v: string) {
    forall i :: 0 <= i < |v| ==> !Wild(v[i])
  }

  function Around(v: string): string {
    "%" + v + "%"
  }

  predicate Occurs(s: string, v: string) {
    exists i :: 0 <= i <= |s| && v <= s[i..]
  }

  lemma {:induction false} PercentMatchesAll(s: string)
    ensures LikeMatch(s, "%")
  {
    if s != "" {
      PercentMatchesAll(s[1..]);
    }
  }

  lemma {:induction false} PlainMatchesPrefix(s: string, v: string)
    requires Plain(v)
    ensures LikeMatch(s, v + "%") <==> v <= s
    decreases |v|
  {
    if v == "" {
      assert v + "%" == "%";
      PercentMatchesAll(s);
    } else {
      assert (v + "%")[1..] == v[1..] + "%";
      assert Plain(v[1..]);
      assert !Wild(v[0]);
      if s != "" {
        PlainMatchesPrefix(s[1..], v[1..]);
        assert v <= s <==> s[0] == v[0] && v[1..] <= s[1..] by {
          assert v == [v[0]] + v[1..] && s == [s[0]] + s[1..];
        }
      }
    }
  }

  /** For a value without wildcards the pattern asks for an occurrence of the value. */
  lemma {:induction false} PlainMatchesOccurrence(s: string, v: string)
    requires Plain(v)
    ensures LikeMatch(s, Around(v)) <==> Occurs(s, v)
    decreases |s|
  {
    assert Around(v)[1..] == v + "%";
    PlainMatchesPrefix(s, v);
    if s != "" {
      PlainMatchesOccurrence(s[1..], v);
      if Occurs(s[1..], v) {
        var i :| 0 <= i <= |s[1..]| && v <= s[1..][i..];
        assert s[i + 1..] == s[1..][i..];
      }
      if Occurs(s, v) && !(v <= s) {
        var i :| 0 <= i <= |s| && v <= s[i..];
        assert s[0..] == s;
        assert i > 0;
        assert s[1..][i - 1..] == s[i..];
      }
    }
    if v <= s {
      assert s[0..] == s;
    }
  }

  /** A text the pattern accepts: each % filled with nothing, each _ with an x, escapes taken literally. */
  function Instance(v: string): (t: string)
    ensures |t| <= |v|
  {
    if v == "" then ""
    else if v[0] == '%' then Instance(v[1..])
    else if v[0] == '\\' then (if |v| == 1 then "%" else [v[1]] + Instance(v[2..]))
    else if v[0] == '_' then ['x'] + Instance(v[1..])
    else [v[0]] + Instance(v[1..])
  }

  lemma {:induction false} InstanceMatches(v: string)
    ensures LikeMatch(Instance(v), v + "%")
    decreases |v|
  {
    var t, p := Instance(v), v + "%";
    if v == "" {
      assert p == "%";
      PercentMatchesAll(t);
    } else if v[0] == '\\' && |v| == 1 {
      assert p[2..] == "" && t[1..] == "";
    } else if v[0] == '\\' {
      assert p[2..] == v[2..] + "%" && t[1..] == Instance(v[2..]);
      InstanceMatches(v[2..]);
    } else {
      assert p[1..] == v[1..] + "%";
      InstanceMatches(v[1..]);
      if v[0] != '%' {
        assert t[1..] == Instance(v[1..]);
      }
    }
  }

  lemma {:induction false} InstanceDiffers(v: string)
    requires !Plain(v)
    ensures Instance(v) != v
    decreases |v|
  {
    if !Wild(v[0]) {
      var i :| 0 <= i < |v| && Wild(v[i]);
      assert v[1..][i - 1] == v[i];
      InstanceDiffers(v[1..]);
      assert Instance(v)[1..] == Instance(v[1..]);
    }
  }

  lemma {:induction false} OccurrenceInShorter(t: string, v: string)
    requires |t| <= |v|
    ensures Occurs(t, v) ==> t == v
  {
    if i :| 0 <= i <= |t| && v <= t[i..] {
      assert i == 0 && t[i..] == t;
    }
  }

  /** What each wildcard stands for: any run, any one character, and the character it shields. */
  lemma {:induction false} WildcardsMean(s: string, c: char)
    ensures LikeMatch(s, "%")
    ensures LikeMatch(s, "_") <==> |s| == 1
    ensures LikeMatch(s, ['\\', c]) <==> s == [c]
    ensures !Wild(c) ==> (LikeMatch(s, [c]) <==> s == [c])
  {
    PercentMatchesAll(s);
    assert "_"[1..] == "" && ['\\', c][2..] == "" && [c][1..] == "";
    if s != "" {
      assert s == [s[0]] + s[1..];
    }
  }

  /**
   * The exact condition: `like value` means "contains value" for every text if and only if the
   * value has no %, _ or \. Otherwise there is a text it accepts that does not contain the value.
   */
  lemma {:induction false} LikeMeansContainsIff(v: string)
    ensures '%' !in v && '_' !in v && '\\' !in v <==> forall s :: LikeMatch(s, "%" + v + "%") <==> Occurs(s, v)
  {
    assert Plain(v) <==> '%' !in v && '_' !in v && '\\' !in v;
    assert forall s :: LikeMatch(s, "%" + v + "%") <==> LikeMatch(s, Around(v));
    if Plain(v) {
      forall s
        ensures LikeMatch(s, Around(v)) <==> Occurs(s, v)
      {
        PlainMatchesOccurrence(s, v);
      }
    } else {
      var t := Instance(v);
      InstanceMatches(v);
      InstanceDiffers(v);
      assert Around(v)[1..] == v + "%";
      assert LikeMatch(t, Around(v));
      OccurrenceInShorter(t, v);
    }
  }
}
