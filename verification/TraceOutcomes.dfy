/**
 Outcomes of evaluations in a trace overview: results and errors are scattered upwards to the
 evaluations and cases above them. Spans may be missing from the overview.
 */
module TraceOutcomes {
  import opened Options
  import opened TraceLinks

  datatype Kind = Evaluation | EvaluationCase | EvaluationResult | OtherKind

  /** What an assertion of an evaluation result came to, if the result is one. */
  datatype Score = Failed | Passed | Unscored

  datatype Outcome = Pass | Fail | Error

  datatype Item = Item(id: nat, kind: Kind, score: Score, isError: bool, outcome: Option<Outcome>, failedResults: nat)

  datatype Span = Span(id: nat, parent: Option<nat>, isError: bool)

  function LinksOf(spans: seq<Span>): Links {
    if spans == [] then map[]
    else LinksOf(spans[..|spans| - 1])[spans[|spans| - 1].id := spans[|spans| - 1].parent]
  }

  predicate IsGroup(x: Item) {
    x.kind == Evaluation || x.kind == EvaluationCase
  }

  predicate Fails(x: Item) {
    x.kind == EvaluationResult && x.score == Failed
  }

  /** The positions of the failing results strictly below a span. */
  ghost function FailingBelow(links: Links, items: seq<Item>, a: nat): set<nat> {
    set i: nat | i < |items| && items[i].kind == EvaluationResult && items[i].score == Failed
                 && Below(links, items[i].id, a)
  }

  ghost predicate HasBelow(links: Links, items: seq<Item>, kind: Kind, a: nat) {
    exists i :: 0 <= i < |items| && items[i].kind == kind && Below(links, items[i].id, a)
  }

  ghost predicate ErrorBelow(links: Links, spans: seq<Span>, a: nat) {
    exists i :: 0 <= i < |spans| && spans[i].isError && Below(links, spans[i].id, a)
  }

  function OwnOutcome(x: Item): Option<Outcome> {
    if x.isError then Some(Error)
    else if Fails(x) then Some(Fail)
    else if x.kind == EvaluationResult && x.score == Passed then Some(Pass)
    else x.outcome
  }

  /** The item with the outcome and the count that it should have. */
  ghost predicate IsAnnotated(links: Links, spans: seq<Span>, items: seq<Item>, x: Item, r: Item) {
    && r == x.(outcome := r.outcome, failedResults := r.failedResults)
    && match x.kind
       case Evaluation => IsGroupAnnotated(links, spans, items, x, r)
       case EvaluationCase => IsGroupAnnotated(links, spans, items, x, r)
       case EvaluationResult =>
         && (x.isError ==> r.outcome == Some(Error))
         && (!x.isError && x.score == Failed ==> r.outcome == Some(Fail))
         && (!x.isError && x.score == Passed ==> r.outcome == Some(Pass))
         && (!x.isError && x.score == Unscored ==> r.outcome == None)
         && r.failedResults == (if x.score == Failed then 1 else 0)
       case OtherKind =>
         r.outcome == (if x.isError then Some(Error) else None) && r.failedResults == 0
  }

  /** An evaluation or case is in error if anything below it is, fails if a result below it does. */
  ghost predicate IsGroupAnnotated(links: Links, spans: seq<Span>, items: seq<Item>, x: Item, r: Item) {
    var failing := FailingBelow(links, items, x.id);
    var inError := x.isError || ErrorBelow(links, spans, x.id);
    var judged := x.kind == EvaluationCase || HasBelow(links, items, EvaluationCase, x.id)
                  || HasBelow(links, items, EvaluationResult, x.id);
    && r.failedResults == |failing|
    && (inError ==> r.outcome == Some(Error))
    && (!inError && failing != {} ==> r.outcome == Some(Fail))
    && (!inError && failing == {} && judged ==> r.outcome == Some(Pass))
    && (!inError && failing == {} && !judged ==> r.outcome == None)
  }

  ghost predicate NoRepeats(ids: seq<nat>) {
    forall i, j :: 0 <= i < j < |ids| ==> ids[i] != ids[j]
  }

  /** The spans above, nearest first, each once; a missing parent may end the list. */
  method AncestorIds(links: Links, id: nat) returns (ancestors: seq<nat>)
    requires id in links
    ensures NoRepeats(ancestors)
    ensures forall a :: a in links ==> (a in ancestors <==> Below(links, id, a))
  {
    ancestors := [];
    var seen := {id};
    ghost var k: nat := 0;
    ghost var visited := {id};
    ClimbStart(links, id);
    var parent := links[id];
    while parent.Some? && parent.value !in seen
      invariant Climbed(links, id, k, visited) && id in visited && visited <= seen
      invariant Up(links, id, k + 1) == Present(links, parent)
      invariant forall a :: a in seen <==> a == id || a in ancestors
      invariant forall a :: a in seen && a in links ==> a in visited
      invariant NoRepeats(ancestors) && id !in ancestors
      decreases links.Keys - visited
    {
      seen := seen + {parent.value};
      ancestors := ancestors + [parent.value];
      if parent.value !in links {
        break;
      }
      ClimbMore(links, id, k, visited, parent.value);
      visited := visited + {parent.value};
      k := k + 1;
      parent := links[parent.value];
    }
    VisitedIsAbove(links, id, k, visited);
  }

  /** Counts so far of the failing results below each evaluation and case that has any result below. */
  ghost predicate Counts(links: Links, items: seq<Item>, groups: set<nat>, failed: map<nat, nat>) {
    && (forall a :: a in failed <==> a in groups && HasBelow(links, items, EvaluationResult, a))
    && (forall a :: a in failed ==> failed[a] == |FailingBelow(links, items, a)|)
  }

  /** Adds to the count of every group in the list. */
  method AddTo(failed: map<nat, nat>, groups: set<nat>, ancestors: seq<nat>, n: nat) returns (r: map<nat, nat>)
    requires NoRepeats(ancestors)
    ensures forall a :: a in r <==> a in failed || (a in groups && a in ancestors)
    ensures forall a :: a in r ==> r[a] == (if a in failed then failed[a] else 0)
                                           + if a in groups && a in ancestors then n else 0
  {
    r := failed;
    for i := 0 to |ancestors|
      invariant forall a :: a in r <==> a in failed || (a in groups && a in ancestors[..i])
      invariant forall a :: a in r ==> r[a] == (if a in failed then failed[a] else 0)
                                               + if a in groups && a in ancestors[..i] then n else 0
    {
      assert ancestors[..i + 1] == ancestors[..i] + [ancestors[i]];
      assert ancestors[i] !in ancestors[..i];
      if ancestors[i] in groups {
        r := r[ancestors[i] := (if ancestors[i] in r then r[ancestors[i]] else 0) + n];
      }
    }
    assert ancestors[..|ancestors|] == ancestors;
  }

  lemma FailingBelowNext(links: Links, items: seq<Item>, x: Item, a: nat)
    ensures |FailingBelow(links, items + [x], a)|
            == |FailingBelow(links, items, a)| + if Fails(x) && Below(links, x.id, a) then 1 else 0
  {
    var before, after := FailingBelow(links, items, a), FailingBelow(links, items + [x], a);
    assert forall i: nat :: i < |items| ==> (items + [x])[i] == items[i];
    assert (items + [x])[|items|] == x;
    if Fails(x) && Below(links, x.id, a) {
      assert after == before + {|items|};
    } else {
      assert after == before;
    }
  }

  lemma HasBelowNext(links: Links, items: seq<Item>, x: Item, kind: Kind, a: nat)
    ensures HasBelow(links, items + [x], kind, a) <==>
            HasBelow(links, items, kind, a) || (x.kind == kind && Below(links, x.id, a))
  {
    assert forall i: nat :: i < |items| ==> (items + [x])[i] == items[i];
    assert (items + [x])[|items|] == x;
    if HasBelow(links, items, kind, a) {
      var i :| 0 <= i < |items| && items[i].kind == kind && Below(links, items[i].id, a);
      assert (items + [x])[i].kind == kind;
    }
  }

  /** Counting one more item. */
  lemma CountsNext(links: Links, items: seq<Item>, x: Item, groups: set<nat>, failed: map<nat, nat>, r: map<nat, nat>)
    requires Counts(links, items, groups, failed) && groups <= links.Keys
    requires x.kind != EvaluationResult ==> r == failed
    requires x.kind == EvaluationResult ==>
               forall a :: a in r <==> a in failed || (a in groups && Below(links, x.id, a))
    requires x.kind == EvaluationResult ==>
               forall a :: a in r ==> r[a] == (if a in failed then failed[a] else 0)
                                              + if a in groups && Below(links, x.id, a) && Fails(x) then 1 else 0
    ensures Counts(links, items + [x], groups, r)
  {
    forall a ensures a in r <==> a in groups && HasBelow(links, items + [x], EvaluationResult, a) {
      HasBelowNext(links, items, x, EvaluationResult, a);
    }
    forall a | a in r ensures r[a] == |FailingBelow(links, items + [x], a)| {
      FailingBelowNext(links, items, x, a);
      if a !in failed {
        NoneFailing(links, items, a);
      }
    }
  }

  lemma NoneFailing(links: Links, items: seq<Item>, a: nat)
    requires !HasBelow(links, items, EvaluationResult, a)
    ensures FailingBelow(links, items, a) == {}
  {
  }

  /** Groups below which an item of the kind was seen. */
  ghost predicate Marks(links: Links, items: seq<Item>, kind: Kind, groups: set<nat>, marked: set<nat>) {
    forall a :: a in marked <==> a in groups && HasBelow(links, items, kind, a)
  }

  ghost predicate MarksErrors(links: Links, spans: seq<Span>, groups: set<nat>, marked: set<nat>) {
    forall a :: a in marked <==> a in groups && ErrorBelow(links, spans, a)
  }

  /** Annotates an item by itself. */
  function Seen(x: Item): Item {
    x.(outcome := OwnOutcome(x), failedResults := if Fails(x) then 1 else x.failedResults)
  }

  /** Annotates the items one by one and gathers what they say about the groups above them. */
  method Gather(links: Links, items: array<Item>, groups: set<nat>, evaluations: set<nat>)
    returns (failed: map<nat, nat>, withCases: set<nat>)
    requires groups <= links.Keys && evaluations <= groups
    requires forall i :: 0 <= i < items.Length ==> items[i].id in links && items[i].failedResults == 0
    modifies items
    ensures forall i :: 0 <= i < items.Length ==> items[i] == Seen(old(items[i]))
    ensures Counts(links, old(items[..]), groups, failed)
    ensures Marks(links, old(items[..]), EvaluationCase, evaluations, withCases)
  {
    failed, withCases := map[], {};
    ghost var was := items[..];
    for i := 0 to items.Length
      invariant forall k :: 0 <= k < i ==> items[k] == Seen(was[k])
      invariant forall k :: i <= k < items.Length ==> items[k] == was[k]
      invariant Counts(links, was[..i], groups, failed)
      invariant Marks(links, was[..i], EvaluationCase, evaluations, withCases)
    {
      assert was[..i + 1] == was[..i] + [was[i]];
      forall a ensures HasBelow(links, was[..i + 1], EvaluationCase, a) <==>
                       HasBelow(links, was[..i], EvaluationCase, a)
                       || (was[i].kind == EvaluationCase && Below(links, was[i].id, a))
      {
        HasBelowNext(links, was[..i], was[i], EvaluationCase, a);
      }
      items[i] := Seen(items[i]);
      ghost var before := failed;
      if items[i].kind == EvaluationResult {
        var ancestors := AncestorIds(links, items[i].id);
        failed := AddTo(failed, groups, ancestors, items[i].failedResults);
      } else if items[i].kind == EvaluationCase {
        var ancestors := AncestorIds(links, items[i].id);
        withCases := withCases + set a | a in ancestors && a in evaluations;
      }
      CountsNext(links, was[..i], was[i], groups, before, failed);
    }
    assert was[..|was|] == was;
  }

  method GatherErrors(links: Links, spans: seq<Span>, groups: set<nat>) returns (marked: set<nat>)
    requires groups <= links.Keys && forall s :: s in spans ==> s.id in links
    ensures MarksErrors(links, spans, groups, marked)
  {
    marked := {};
    for i := 0 to |spans|
      invariant MarksErrors(links, spans[..i], groups, marked)
    {
      assert spans[i] in spans;
      ErrorBelowNext(links, spans, i);
      if spans[i].isError {
        var ancestors := AncestorIds(links, spans[i].id);
        marked := marked + set a | a in ancestors && a in groups;
      }
    }
    assert spans[..|spans|] == spans;
  }

  lemma ErrorBelowNext(links: Links, spans: seq<Span>, i: nat)
    requires i < |spans|
    ensures forall a :: ErrorBelow(links, spans[..i + 1], a) <==>
                        ErrorBelow(links, spans[..i], a) || (spans[i].isError && Below(links, spans[i].id, a))
  {
    assert spans[..i + 1] == spans[..i] + [spans[i]];
    forall a | ErrorBelow(links, spans[..i], a) ensures ErrorBelow(links, spans[..i + 1], a) {
      var k :| 0 <= k < i && spans[..i][k].isError && Below(links, spans[..i][k].id, a);
      assert spans[..i + 1][k].isError;
    }
    forall a | spans[i].isError && Below(links, spans[i].id, a) ensures ErrorBelow(links, spans[..i + 1], a) {
      assert spans[..i + 1][i].isError;
    }
  }

  ghost predicate DistinctIds(items: seq<Item>) {
    forall i, j :: 0 <= i < j < |items| ==> items[i].id != items[j].id
  }

  /** The items are fresh, one per span, and come from spans with ids of their own. */
  ghost predicate Shown(items: seq<Item>, spans: seq<Span>) {
    && DistinctIds(items)
    && (forall s, r :: s in spans && r in spans && s.id == r.id ==> s == r)
    && (forall x :: x in items ==> x.failedResults == 0 && x.outcome == None && FromSpan(x, spans))
  }

  ghost predicate FromSpan(x: Item, spans: seq<Span>) {
    exists s :: s in spans && s.id == x.id && s.isError == x.isError
  }

  function GroupIds(items: seq<Item>): set<nat> {
    set x | x in items && IsGroup(x) :: x.id
  }

  function EvaluationIds(items: seq<Item>): set<nat> {
    set x | x in items && x.kind == Evaluation :: x.id
  }

  lemma IdsTell(items: seq<Item>, i: nat)
    requires DistinctIds(items) && i < |items|
    ensures items[i].id in GroupIds(items) <==> IsGroup(items[i])
    ensures items[i].id in EvaluationIds(items) <==> items[i].kind == Evaluation
  {
    assert items[i] in items;
    forall x | x in items && x.id == items[i].id ensures x == items[i] {
      var j :| 0 <= j < |items| && items[j] == x;
    }
  }

  lemma {:induction false} LinksKeys(spans: seq<Span>)
    ensures forall id :: id in LinksOf(spans) <==> exists s :: s in spans && s.id == id
  {
    if spans != [] {
      LinksKeys(spans[..|spans| - 1]);
      assert spans == spans[..|spans| - 1] + [spans[|spans| - 1]];
    }
  }

  method AnnotateOutcomes(items: array<Item>, spans: seq<Span>)
    requires Shown(items[..], spans)
    modifies items
    ensures forall i :: 0 <= i < items.Length ==>
                          IsAnnotated(LinksOf(spans), spans, old(items[..]), old(items[i]), items[i])
  {
    var links := LinksOf(spans);
    LinksKeys(spans);
    assert forall i :: 0 <= i < items.Length ==> items[i] in items[..];
    var groups, evaluations := GroupIds(items[..]), EvaluationIds(items[..]);
    ghost var was := items[..];
    var failed, withCases := Gather(links, items, groups, evaluations);
    var errors := GatherErrors(links, spans, groups);
    Conclude(items, failed, withCases, errors);
    forall i | 0 <= i < items.Length ensures IsAnnotated(links, spans, was, was[i], items[i]) {
      IdsTell(was, i);
      assert was[i] in was;
      if IsGroup(was[i]) {
        GroupConcluded(links, spans, was, was[i], failed, withCases, errors);
      }
    }
  }

  /** Settles the evaluations and cases from what has been gathered. */
  method Conclude(items: array<Item>, failed: map<nat, nat>, withCases: set<nat>, errors: set<nat>)
    modifies items
    ensures forall i :: 0 <= i < items.Length ==>
                          items[i] == if IsGroup(old(items[i])) then Concluded(old(items[i]), failed, withCases, errors)
                                      else old(items[i])
  {
    for i := 0 to items.Length
      invariant forall k :: 0 <= k < i ==>
                              items[k] == if IsGroup(old(items[k]))
                                          then Concluded(old(items[k]), failed, withCases, errors) else old(items[k])
      invariant forall k :: i <= k < items.Length ==> items[k] == old(items[k])
    {
      if IsGroup(items[i]) {
        items[i] := Concluded(items[i], failed, withCases, errors);
      }
    }
  }

  function Concluded(x: Item, failed: map<nat, nat>, withCases: set<nat>, errors: set<nat>): Item {
    var count := if x.id in failed then failed[x.id] else 0;
    var outcome :=
      if x.outcome == Some(Error) || x.id in errors then Some(Error)
      else if count > 0 then Some(Fail)
      else if x.kind == EvaluationCase || x.id in withCases || x.id in failed then Some(Pass)
      else x.outcome;
    x.(failedResults := count, outcome := outcome)
  }

  lemma GroupConcluded(links: Links, spans: seq<Span>, items: seq<Item>, x: Item, failed: map<nat, nat>,
                       withCases: set<nat>, errors: set<nat>)
    requires Counts(links, items, GroupIds(items), failed)
    requires Marks(links, items, EvaluationCase, EvaluationIds(items), withCases)
    requires MarksErrors(links, spans, GroupIds(items), errors)
    requires IsGroup(x) && x.id in GroupIds(items) && (x.id in EvaluationIds(items) <==> x.kind == Evaluation)
    requires x.outcome == None && x.failedResults == 0
    ensures IsAnnotated(links, spans, items, x, Concluded(Seen(x), failed, withCases, errors))
  {
    GroupSees(links, items, x, GroupIds(items), EvaluationIds(items), failed, withCases);
  }

  /** What has been gathered about one group. */
  lemma GroupSees(links: Links, items: seq<Item>, x: Item, groups: set<nat>, evaluations: set<nat>,
                  failed: map<nat, nat>, withCases: set<nat>)
    requires Counts(links, items, groups, failed) && Marks(links, items, EvaluationCase, evaluations, withCases)
    requires x.id in groups && (x.id in evaluations <==> x.kind == Evaluation)
    ensures (if x.id in failed then failed[x.id] else 0) == |FailingBelow(links, items, x.id)|
    ensures x.id in failed <==> HasBelow(links, items, EvaluationResult, x.id)
    ensures x.id in withCases <==> x.kind == Evaluation && HasBelow(links, items, EvaluationCase, x.id)
  {
    if x.id !in failed {
      NoneFailing(links, items, x.id);
    }
  }

  // ---------------------------------------------------------------------------------------------
  // Outcomes agree up the tree
  // ---------------------------------------------------------------------------------------------

  lemma SubsetSize(a: set<nat>, b: set<nat>)
    requires a <= b
    ensures |a| <= |b|
  {
    assert b == a + (b - a);
  }

  /**
   An evaluation counts every failing result its cases count, and never comes out better than a case:
   it is in error if a case is, and fails or is in error if a case fails.
   */
  lemma EvaluationsAreNoBetterThanCases(spans: seq<Span>, items: seq<Item>, e: Item, c: Item, e': Item, c': Item)
    requires Shown(items, spans) && e in items && c in items && e.kind == Evaluation && c.kind == EvaluationCase
    requires Below(LinksOf(spans), c.id, e.id)
    requires IsAnnotated(LinksOf(spans), spans, items, e, e') && IsAnnotated(LinksOf(spans), spans, items, c, c')
    ensures c'.failedResults <= e'.failedResults
    ensures c'.outcome == Some(Error) ==> e'.outcome == Some(Error)
    ensures c'.outcome == Some(Fail) ==> e'.outcome == Some(Fail) || e'.outcome == Some(Error)
  {
    FailuresPassUp(spans, items, e, c);
    if c'.outcome == Some(Error) {
      ErrorsPassUp(spans, items, e, c);
    }
  }

  lemma FailuresPassUp(spans: seq<Span>, items: seq<Item>, e: Item, c: Item)
    requires Shown(items, spans) && e in items && e.kind == Evaluation && Below(LinksOf(spans), c.id, e.id)
    ensures |FailingBelow(LinksOf(spans), items, c.id)| <= |FailingBelow(LinksOf(spans), items, e.id)|
  {
    var links := LinksOf(spans);
    forall i | i in FailingBelow(links, items, c.id) ensures i in FailingBelow(links, items, e.id) {
      assert items[i].id != e.id;
      BelowChains(links, items[i].id, c.id, e.id);
    }
    SubsetSize(FailingBelow(links, items, c.id), FailingBelow(links, items, e.id));
  }

  lemma ErrorsPassUp(spans: seq<Span>, items: seq<Item>, e: Item, c: Item)
    requires Shown(items, spans) && e in items && c in items && Below(LinksOf(spans), c.id, e.id)
    requires c.isError || ErrorBelow(LinksOf(spans), spans, c.id)
    ensures e.isError || ErrorBelow(LinksOf(spans), spans, e.id)
  {
    var links := LinksOf(spans);
    var i: nat;
    if c.isError {
      var s :| s in spans && s.id == c.id && s.isError == c.isError;
      i :| 0 <= i < |spans| && spans[i] == s;
    } else {
      i :| 0 <= i < |spans| && spans[i].isError && Below(links, spans[i].id, c.id);
    }
    if spans[i].id == e.id {
      var r :| r in spans && r.id == e.id && r.isError == e.isError;
      assert spans[i] in spans;
    } else if !c.isError {
      BelowChains(links, spans[i].id, c.id, e.id);
    }
  }
}
