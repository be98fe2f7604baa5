/**
 Choosing which matched URLs of a text to keep, and which of them are unknown. The matches of the URL
 patterns are given as ranges of the text; URL normalisation is a parameter.
 */
module UrlSweep {
  import opened Options

  datatype Range = Range(start: nat, end: nat)

  predicate Contains(outer: Range, inner: Range) {
    outer.start <= inner.start && inner.end <= outer.end
  }

  /** Earlier start first, and of two with the same start the longer one. */
  predicate Before(a: Range, b: Range) {
    a.start < b.start || (a.start == b.start && a.end >= b.end)
  }

  ghost predicate Sorted(ranges: seq<Range>) {
    forall i, j :: 0 <= i < j < |ranges| ==> Before(ranges[i], ranges[j])
  }

  ghost predicate SameMembers(a: seq<Range>, b: seq<Range>) {
    multiset(a) == multiset(b)
  }

  method SortRanges(ranges: seq<Range>) returns (sorted: seq<Range>)
    ensures Sorted(sorted) && SameMembers(sorted, ranges)
  {
    sorted := [];
    for i := 0 to |ranges|
      invariant Sorted(sorted) && SameMembers(sorted, ranges[..i])
    {
      sorted := InsertRange(sorted, ranges[i]);
      assert ranges[..i + 1] == ranges[..i] + [ranges[i]];
    }
    assert ranges[..|ranges|] == ranges;
  }

  method InsertRange(sorted: seq<Range>, r: Range) returns (inserted: seq<Range>)
    requires Sorted(sorted)
    ensures Sorted(inserted) && multiset(inserted) == multiset(sorted) + multiset{r}
  {
    var k := |sorted|;
    while k > 0 && !Before(sorted[k - 1], r)
      invariant 0 <= k <= |sorted|
      invariant forall j :: k <= j < |sorted| ==> Before(r, sorted[j])
    {
      k := k - 1;
    }
    InsertedSorted(sorted, r, k);
    inserted := sorted[..k] + [r] + sorted[k..];
    assert sorted == sorted[..k] + sorted[k..];
  }

  lemma InsertedSorted(sorted: seq<Range>, r: Range, k: nat)
    requires Sorted(sorted) && k <= |sorted| && (k > 0 ==> Before(sorted[k - 1], r))
    requires forall j :: k <= j < |sorted| ==> Before(r, sorted[j])
    ensures Sorted(sorted[..k] + [r] + sorted[k..])
  {
    var inserted := sorted[..k] + [r] + sorted[k..];
    forall j | 0 <= j < k ensures Before(sorted[j], r) {
      assert j < k - 1 ==> Before(sorted[j], sorted[k - 1]);
    }
    forall i, j | 0 <= i < j < |inserted| ensures Before(inserted[i], inserted[j]) {
      assert i < k ==> inserted[i] == sorted[i];
      assert j > k ==> inserted[j] == sorted[j - 1];
      assert i > k ==> inserted[i] == sorted[i - 1];
      assert j < k ==> inserted[j] == sorted[j];
    }
  }

  /** No range of the list reaches outside its own, seen from any other. */
  ghost predicate Maximal(ranges: seq<Range>, r: Range) {
    r in ranges && forall m :: m in ranges && Contains(m, r) ==> m == r
  }

  ghost predicate Covered(ranges: seq<Range>, r: Range) {
    exists k :: k in ranges && Contains(k, r)
  }

  /** Starts and ends both strictly increase, so none contains another. */
  ghost predicate Staggered(ranges: seq<Range>) {
    forall i, j :: 0 <= i < j < |ranges| ==> ranges[i].start < ranges[j].start && ranges[i].end < ranges[j].end
  }

  ghost predicate KeepsMaximal(ranges: seq<Range>, kept: seq<Range>) {
    && (forall r :: r in kept <==> Maximal(ranges, r))
    && (forall r :: r in ranges ==> Covered(kept, r))
    && Staggered(kept)
  }

  /** A range inside a kept one is passed over. */
  lemma PassOver(before: seq<Range>, r: Range, kept: seq<Range>)
    requires KeepsMaximal(before, kept) && Covered(kept, r)
    requires forall m :: m in before ==> Before(m, r)
    ensures KeepsMaximal(before + [r], kept)
  {
    var after := before + [r];
    var k :| k in kept && Contains(k, r);
    assert Maximal(before, k);
    forall x ensures x in kept <==> Maximal(after, x) {
      if Maximal(before, x) && Contains(r, x) {
        assert Contains(k, x);
      }
      if x == r && Maximal(after, x) {
        assert k == r;
      }
    }
  }

  /** A range inside no kept one reaches beyond all ranges before it. */
  lemma ReachesBeyond(before: seq<Range>, r: Range, kept: seq<Range>)
    requires KeepsMaximal(before, kept) && !Covered(kept, r)
    requires forall m :: m in before ==> Before(m, r)
    ensures forall m :: m in before ==> m.start < r.start && m.end < r.end
  {
    forall m | m in before ensures m.start < r.start && m.end < r.end {
      assert Covered(kept, m);
      var k :| k in kept && Contains(k, m);
      assert Contains(m, r) ==> Contains(k, r);
      assert !Contains(m, r);
    }
  }

  lemma KeepRange(before: seq<Range>, r: Range, kept: seq<Range>)
    requires KeepsMaximal(before, kept) && !Covered(kept, r)
    requires forall m :: m in before ==> Before(m, r)
    ensures KeepsMaximal(before + [r], kept + [r])
  {
    var after, kept' := before + [r], kept + [r];
    ReachesBeyond(before, r, kept);
    forall x ensures x in kept' <==> Maximal(after, x) {
      if x in before {
        assert Maximal(before, x) <==> Maximal(after, x);
      }
    }
    forall m | m in after ensures Covered(kept', m) {
      if m in before {
        assert Covered(kept, m);
        var k :| k in kept && Contains(k, m);
        assert k in kept';
      } else {
        assert r in kept' && Contains(r, m);
      }
    }
    forall i | 0 <= i < |kept| ensures kept[i].start < r.start && kept[i].end < r.end {
      assert kept[i] in kept;
      assert Maximal(before, kept[i]);
    }
  }

  /** The first `n` sorted ranges have been swept. */
  lemma SweepNext(sorted: seq<Range>, n: nat, kept: seq<Range>)
    requires Sorted(sorted) && n < |sorted| && KeepsMaximal(sorted[..n], kept)
    ensures var r := sorted[n]; KeepsMaximal(sorted[..n + 1], if Covered(kept, r) then kept else kept + [r])
  {
    assert sorted[..n + 1] == sorted[..n] + [sorted[n]];
    forall m | m in sorted[..n] ensures Before(m, sorted[n]) {
      var i :| 0 <= i < n && sorted[i] == m;
    }
    if Covered(kept, sorted[n]) {
      PassOver(sorted[..n], sorted[n], kept);
    } else {
      KeepRange(sorted[..n], sorted[n], kept);
    }
  }

  method IsInside(kept: seq<Range>, r: Range) returns (inside: bool)
    ensures inside <==> Covered(kept, r)
  {
    for i := 0 to |kept|
      invariant forall j :: 0 <= j < i ==> !Contains(kept[j], r)
    {
      if kept[i].start <= r.start && r.end <= kept[i].end {
        assert Contains(kept[i], r);
        return true;
      }
    }
    return false;
  }

  method Sweep(sorted: seq<Range>) returns (kept: seq<Range>)
    requires Sorted(sorted)
    ensures KeepsMaximal(sorted, kept)
  {
    kept := [];
    for n := 0 to |sorted|
      invariant KeepsMaximal(sorted[..n], kept)
    {
      SweepNext(sorted, n, kept);
      var r := sorted[n];
      var inside := IsInside(kept, r);
      if !inside {
        kept := kept + [r];
      }
    }
    assert sorted[..|sorted|] == sorted;
  }

  ghost predicate Within(text: string, ranges: seq<Range>) {
    forall r :: r in ranges ==> r.start < r.end <= |text|
  }

  /** The matched texts of the containment-maximal ranges, from left to right, each range once. */
  method ExtractUrls(text: string, matches: seq<Range>) returns (urls: seq<string>, kept: seq<Range>)
    requires Within(text, matches)
    ensures KeepsMaximal(matches, kept)
    ensures |urls| == |kept| && Within(text, kept)
    ensures forall i :: 0 <= i < |urls| ==> urls[i] == text[kept[i].start..kept[i].end]
  {
    var sorted := SortRanges(matches);
    kept := Sweep(sorted);
    SameMeansSame(sorted, matches, kept);
    urls := [];
    assert forall r :: r in kept ==> Maximal(matches, r);
    for i := 0 to |kept|
      invariant |urls| == i
      invariant forall k :: 0 <= k < i ==> kept[k].start < kept[k].end <= |text|
                                           && urls[k] == text[kept[k].start..kept[k].end]
    {
      assert kept[i] in kept;
      urls := urls + [text[kept[i].start..kept[i].end]];
    }
  }

  lemma SameMeansSame(a: seq<Range>, b: seq<Range>, kept: seq<Range>)
    requires SameMembers(a, b) && KeepsMaximal(a, kept)
    ensures KeepsMaximal(b, kept)
  {
    forall r ensures r in a <==> r in b {
      assert r in multiset(a) <==> r in multiset(b);
    }
    forall r ensures Maximal(a, r) <==> Maximal(b, r) {}
  }

  /** The kept ranges do not depend on the order of the matches. */
  lemma KeptIsUnique(matches: seq<Range>, kept: seq<Range>, other: seq<Range>)
    requires KeepsMaximal(matches, kept) && KeepsMaximal(matches, other)
    ensures kept == other
  {
    StaggeredUnique(kept, other);
  }

  lemma {:induction false} StaggeredUnique(a: seq<Range>, b: seq<Range>)
    requires Staggered(a) && Staggered(b) && forall r :: r in a <==> r in b
    ensures a == b
  {
    assert a != [] ==> a[0] in a;
    assert b != [] ==> b[0] in b;
    if a != [] {
      var x, y := a[|a| - 1], b[|b| - 1];
      assert x in a && y in b;
      var i :| 0 <= i < |b| && b[i] == x;
      var j :| 0 <= j < |a| && a[j] == y;
      assert x == y;
      var a', b' := a[..|a| - 1], b[..|b| - 1];
      forall r ensures r in a' <==> r in b' {
        assert r in a' <==> r in a && r != x;
        assert r in b' <==> r in b && r != x;
      }
      StaggeredUnique(a', b');
    }
  }

  // ---------------------------------------------------------------------------------------------
  // Unknown URLs
  // ---------------------------------------------------------------------------------------------

  // Normalisation, and the http form of a normalised https URL.
  datatype Rules = Rules(normalize: string -> Option<string>, httpForm: string -> Option<string>)

  predicate IsAllowed(rules: Rules, allowed: set<string>, url: string) {
    url in allowed || (rules.httpForm(url).Some? && rules.httpForm(url).value in allowed)
  }

  /** Normalises to a URL that is not registered, nor is its http form if it has one. */
  ghost predicate IsUnknown(rules: Rules, allowed: set<string>, raw: string) {
    exists url :: rules.normalize(raw) == Some(url) && url !in allowed
                  && forall plain :: rules.httpForm(url) == Some(plain) ==> plain !in allowed
  }

  lemma UnknownMeans(rules: Rules, allowed: set<string>, raw: string)
    ensures IsUnknown(rules, allowed, raw) <==>
            rules.normalize(raw).Some? && !IsAllowed(rules, allowed, rules.normalize(raw).value)
  {
  }

  /** The raw URL at `i` is unknown and no earlier one is the same after normalisation. */
  ghost predicate IsFirst(rules: Rules, allowed: set<string>, raw: seq<string>, i: nat) {
    && i < |raw| && IsUnknown(rules, allowed, raw[i])
    && forall k :: 0 <= k < i ==> rules.normalize(raw[k]) != rules.normalize(raw[i])
  }

  /** The unknown URLs in order of first occurrence, each once. */
  ghost predicate ListsUnknown(rules: Rules, allowed: set<string>, raw: seq<string>, unknown: seq<string>,
                               at: seq<nat>) {
    && |at| == |unknown|
    && (forall k :: 0 <= k < |at| ==>
                      IsFirst(rules, allowed, raw, at[k]) && rules.normalize(raw[at[k]]) == Some(unknown[k]))
    && (forall j, k :: 0 <= j < k < |at| ==> at[j] < at[k])
    && forall i :: IsFirst(rules, allowed, raw, i) ==> i in at
  }

  /** The normal forms of the unknown URLs so far. */
  ghost predicate SeenSoFar(rules: Rules, allowed: set<string>, raw: seq<string>, seen: set<string>) {
    forall u :: u in seen <==>
                exists k :: 0 <= k < |raw| && rules.normalize(raw[k]) == Some(u) && IsUnknown(rules, allowed, raw[k])
  }

  /** The next URL is a first occurrence exactly when it is unknown and not yet seen. */
  lemma SeenNext(rules: Rules, allowed: set<string>, raw: seq<string>, i: nat, seen: set<string>)
    requires i < |raw| && SeenSoFar(rules, allowed, raw[..i], seen)
    ensures var url := rules.normalize(raw[i]);
            var unknown := IsUnknown(rules, allowed, raw[i]);
            && (IsFirst(rules, allowed, raw[..i + 1], i) <==> unknown && url.value !in seen)
            && SeenSoFar(rules, allowed, raw[..i + 1], if unknown then seen + {url.value} else seen)
  {
    var after := raw[..i + 1];
    assert forall k :: 0 <= k < i ==> after[k] == raw[..i][k];
    assert after[i] == raw[i];
    var seen' := if IsUnknown(rules, allowed, raw[i]) then seen + {rules.normalize(raw[i]).value} else seen;
    forall u | u in seen'
      ensures exists k :: 0 <= k < |after| && rules.normalize(after[k]) == Some(u)
                          && IsUnknown(rules, allowed, after[k])
    {
      if u in seen {
        var k :| 0 <= k < i && rules.normalize(raw[..i][k]) == Some(u) && IsUnknown(rules, allowed, raw[..i][k]);
        assert rules.normalize(after[k]) == Some(u);
      } else {
        assert rules.normalize(after[i]) == Some(u);
      }
    }
  }

  /** What has been found in the first `i` URLs. */
  ghost predicate Found(rules: Rules, allowed: set<string>, raw: seq<string>, i: nat, unknown: seq<string>,
                        at: seq<nat>, seen: set<string>) {
    && i <= |raw| && ListsUnknown(rules, allowed, raw[..i], unknown, at)
    && SeenSoFar(rules, allowed, raw[..i], seen)
  }

  lemma FoundNext(rules: Rules, allowed: set<string>, raw: seq<string>, i: nat, unknown: seq<string>, at: seq<nat>,
                  seen: set<string>)
    requires i < |raw| && Found(rules, allowed, raw, i, unknown, at, seen)
    ensures var url := rules.normalize(raw[i]);
            if url.Some? && !IsAllowed(rules, allowed, url.value) && url.value !in seen
            then Found(rules, allowed, raw, i + 1, unknown + [url.value], at + [i], seen + {url.value})
            else Found(rules, allowed, raw, i + 1, unknown, at, seen)
  {
    var url := rules.normalize(raw[i]);
    UnknownMeans(rules, allowed, raw[i]);
    FirstsNext(rules, allowed, raw, i, unknown, at);
    SeenNext(rules, allowed, raw, i, seen);
    if url.Some? && url.value in seen {
      assert seen + {url.value} == seen;
    }
  }

  method FindUnknown(rules: Rules, allowed: set<string>, raw: seq<string>)
    returns (unknown: seq<string>, ghost at: seq<nat>)
    ensures ListsUnknown(rules, allowed, raw, unknown, at)
  {
    unknown, at := [], [];
    var seen: set<string> := {};
    for i := 0 to |raw|
      invariant Found(rules, allowed, raw, i, unknown, at, seen)
    {
      FoundNext(rules, allowed, raw, i, unknown, at, seen);
      var url := rules.normalize(raw[i]);
      if url.Some? && !IsAllowed(rules, allowed, url.value) && url.value !in seen {
        unknown := unknown + [url.value];
        at := at + [i];
        seen := seen + {url.value};
      }
    }
    assert raw[..|raw|] == raw;
  }

  lemma FirstsNext(rules: Rules, allowed: set<string>, raw: seq<string>, i: nat, unknown: seq<string>, at: seq<nat>)
    requires i < |raw| && ListsUnknown(rules, allowed, raw[..i], unknown, at)
    ensures IsFirst(rules, allowed, raw[..i + 1], i) ==>
              ListsUnknown(rules, allowed, raw[..i + 1], unknown + [rules.normalize(raw[i]).value], at + [i])
    ensures !IsFirst(rules, allowed, raw[..i + 1], i) ==> ListsUnknown(rules, allowed, raw[..i + 1], unknown, at)
  {
    var before, after := raw[..i], raw[..i + 1];
    forall k: nat | k < i ensures IsFirst(rules, allowed, before, k) <==> IsFirst(rules, allowed, after, k) {
      assert forall j :: 0 <= j <= k ==> before[j] == after[j];
    }
  }

  /** What is listed is exactly the unknown URLs of the text, without repetition. */
  lemma UnknownListed(rules: Rules, allowed: set<string>, raw: seq<string>, unknown: seq<string>, at: seq<nat>)
    requires ListsUnknown(rules, allowed, raw, unknown, at)
    ensures forall j, k :: 0 <= j < k < |unknown| ==> unknown[j] != unknown[k]
    ensures forall u :: u in unknown <==>
                        exists i :: 0 <= i < |raw| && rules.normalize(raw[i]) == Some(u)
                                    && IsUnknown(rules, allowed, raw[i])
  {
    forall u, i: nat | i < |raw| && rules.normalize(raw[i]) == Some(u) && IsUnknown(rules, allowed, raw[i])
      ensures u in unknown
    {
      var f := FirstOccurrence(rules, allowed, raw, i);
      assert f in at;
      var k :| 0 <= k < |at| && at[k] == f;
      assert unknown[k] == u;
    }
  }

  lemma {:induction false} FirstOccurrence(rules: Rules, allowed: set<string>, raw: seq<string>, i: nat)
    returns (f: nat)
    requires i < |raw| && IsUnknown(rules, allowed, raw[i])
    ensures f <= i && rules.normalize(raw[f]) == rules.normalize(raw[i]) && IsFirst(rules, allowed, raw, f)
  {
    if k: nat :| k < i && rules.normalize(raw[k]) == rules.normalize(raw[i]) {
      f := FirstOccurrence(rules, allowed, raw, k);
    } else {
      f := i;
    }
  }
}
