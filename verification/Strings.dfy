/** Python string operations the text forms use, over ASCII whitespace. */
module Strings {
  predicate Blank(c: char) {
    c == ' ' || '\t' <= c <= '\r' || '\U{1c}' <= c <= '\U{1f}'
  }

  /** str.strip(). */
  function Strip(s: string): string
    decreases |s|
  {
    if s == "" then ""
    else if Blank(s[0]) then Strip(s[1..])
    else if Blank(s[|s| - 1]) then Strip(s[..|s| - 1])
    else s
  }

  /** Whitespace: the space, tab to carriage return, and the four separators. */
  ghost predicate Spaces(s: string) {
    forall i | 0 <= i < |s| :: s[i] == ' ' || 9 <= s[i] as int <= 13 || 28 <= s[i] as int <= 31
  }

  /** It begins and ends with something else. */
  ghost predicate Tight(s: string) {
    s != "" && !Spaces([s[0]]) && !Spaces([s[|s| - 1]])
  }

  lemma {:induction false} BlankIs(c: char)
    ensures Blank(c) <==> Spaces([c])
  {
    assert Spaces([c]) ==> [c][0] == c;
  }

  /** Stripping takes the whitespace at both ends and nothing else. */
  lemma {:induction false} StripExact(before: string, s: string, after: string)
    requires Spaces(before) && Spaces(after) && (s == "" || Tight(s))
    ensures Strip(before + s + after) == s
    decreases |before|
  {
    var all := before + s + after;
    if before != "" {
      BlankIs(before[0]);
      assert all[0] == before[0] && all[1..] == before[1..] + s + after;
      StripExact(before[1..], s, after);
    } else {
      assert all == s + after;
      StripAfter(s, after);
    }
  }

  lemma {:induction false} StripAfter(s: string, after: string)
    requires Spaces(after) && (s == "" || Tight(s))
    ensures Strip(s + after) == s
    decreases |after|
  {
    if after == "" {
      assert s + after == s;
      if s != "" {
        BlankIs(s[0]);
        BlankIs(s[|s| - 1]);
      }
    } else if s == "" {
      BlankIs(after[0]);
      assert (s + after)[0] == after[0] && (s + after)[1..] == s + after[1..];
      StripAfter(s, after[1..]);
    } else {
      var n := |after| - 1;
      BlankIs(s[0]);
      BlankIs(after[n]);
      assert (s + after)[0] == s[0] && (s + after)[|s| + n] == after[n] && (s + after)[..|s| + n] == s + after[..n];
      StripAfter(s, after[..n]);
    }
  }

  lemma {:induction false} StripBack(s: string) returns (after: string)
    requires s != "" && !Blank(s[0])
    ensures s == Strip(s) + after && Spaces(after) && Tight(Strip(s))
    decreases |s|
  {
    var n := |s| - 1;
    BlankIs(s[0]);
    BlankIs(s[n]);
    if Blank(s[n]) {
      after := StripBack(s[..n]);
      assert s == Strip(s) + (after + [s[n]]);
      after := after + [s[n]];
    } else {
      after := "";
    }
  }

  lemma {:induction false} OneMore(c: char, before: string, middle: string, after: string)
    requires Blank(c) && Spaces(before)
    ensures Spaces([c] + before) && [c] + (before + middle + after) == [c] + before + middle + after
  {
    BlankIs(c);
    assert forall i | 0 < i <= |before| :: ([c] + before)[i] == before[i - 1];
  }

  /** Every text is whitespace, what stripping leaves, and whitespace. */
  lemma {:induction false} StripParts(s: string) returns (before: string, after: string)
    ensures s == before + Strip(s) + after && Spaces(before) && Spaces(after) && (Strip(s) == "" || Tight(Strip(s)))
    decreases |s|
  {
    before, after := "", "";
    if s == "" {
    } else if Blank(s[0]) {
      before, after := StripParts(s[1..]);
      assert [s[0]] + s[1..] == s;
      OneMore(s[0], before, Strip(s), after);
      before := [s[0]] + before;
    } else {
      after := StripBack(s);
      assert before + Strip(s) == Strip(s);
    }
  }

  predicate OccursAt(part: string, s: string, i: int) {
    0 <= i && i + |part| <= |s| && s[i..i + |part|] == part
  }

  /** String order. */
  predicate AtMost(a: string, b: string) {
    a == [] || (b != [] && (a[0] < b[0] || (a[0] == b[0] && AtMost(a[1..], b[1..]))))
  }

  lemma {:induction false} AtMostTotal(a: string, b: string)
    ensures AtMost(a, b) || AtMost(b, a)
    decreases |a|
  {
    if a != [] && b != [] && a[0] == b[0] { AtMostTotal(a[1..], b[1..]); }
  }

  lemma {:induction false} AtMostTransitive(a: string, b: string, c: string)
    requires AtMost(a, b) && AtMost(b, c)
    ensures AtMost(a, c)
    decreases |a|
  {
    if a != [] && a[0] == b[0] == c[0] { AtMostTransitive(a[1..], b[1..], c[1..]); }
  }

  /** The strings are the same up to `k`, where the first is the smaller. */
  ghost predicate SmallerAt(a: string, b: string, k: nat) {
    k < |a| && k < |b| && a[..k] == b[..k] && a[k] < b[k]
  }

  lemma {:induction false} SmallerLater(a: string, b: string, k: nat)
    requires a != "" && b != "" && a[0] == b[0]
    ensures SmallerAt(a[1..], b[1..], k) <==> SmallerAt(a, b, k + 1)
  {
    if k + 1 < |a| && k + 1 < |b| {
      assert a[..k + 1] == [a[0]] + a[1..][..k] && b[..k + 1] == [b[0]] + b[1..][..k];
      assert a[1..][..k] == a[..k + 1][1..] && b[1..][..k] == b[..k + 1][1..];
    }
  }

  /** One string is at most another exactly when it begins it, or is smaller where they first differ. */
  lemma {:induction false} AtMostExact(a: string, b: string)
    ensures AtMost(a, b) <==> a <= b || exists k: nat :: SmallerAt(a, b, k)
    decreases |a|
  {
    if a != [] && b != [] && a[0] == b[0] {
      AtMostExact(a[1..], b[1..]);
      assert a[1..] <= b[1..] <==> a <= b by { assert a == [a[0]] + a[1..] && b == [b[0]] + b[1..]; }
      forall k: nat ensures SmallerAt(a[1..], b[1..], k) <==> SmallerAt(a, b, k + 1) { SmallerLater(a, b, k); }
      assert !SmallerAt(a, b, 0);
      if k: nat :| SmallerAt(a, b, k) { assert SmallerAt(a[1..], b[1..], k - 1); }
    } else if a != [] && b != [] && a[0] < b[0] {
      assert SmallerAt(a, b, 0);
    }
  }
}
