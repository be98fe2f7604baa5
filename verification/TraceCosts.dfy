/**
 Costs shown beside the spans of a trace: a span's own cost, or else the sum over everything below it.
 Parent links are arbitrary: they may dangle or form cycles.
 */
module TraceCosts {
  import opened Options
  import opened TraceLinks

  datatype Span = Span(id: nat, parent: Option<nat>, cost: Option<real>)

  // The spans by id.
  type Trace = map<nat, Span>

  /** Later spans replace earlier ones with the same id. */
  function ById(spans: seq<Span>): Trace {
    if spans == [] then map[]
    else
      var last := spans[|spans| - 1];
      ById(spans[..|spans| - 1])[last.id := last]
  }

  function LinksOf(t: Trace): (links: Links)
    ensures links.Keys == t.Keys
  {
    map id | id in t :: t[id].parent
  }

  ghost function Cost(t: Trace, id: nat): real {
    if id in t && t[id].cost.Some? then t[id].cost.value else 0.0
  }

  ghost function Sum(t: Trace, ids: set<nat>): real {
    if ids == {} then 0.0
    else
      var id :| id in ids;
      Cost(t, id) + Sum(t, ids - {id})
  }

  /** The order of addition does not matter. */
  lemma {:induction false} SumAdd(t: Trace, ids: set<nat>, id: nat)
    requires id !in ids
    ensures Sum(t, ids + {id}) == Sum(t, ids) + Cost(t, id)
    decreases ids
  {
    var all := ids + {id};
    var first :| first in all && Sum(t, all) == Cost(t, first) + Sum(t, all - {first});
    if first == id {
      assert all - {first} == ids;
    } else {
      SumAdd(t, ids - {first}, id);
      assert all - {first} == (ids - {first}) + {id};
      SumAdd(t, ids - {first}, first);
      assert (ids - {first}) + {first} == ids;
    }
  }

  /** The spans of the set with a cost of their own, strictly below `id`. */
  ghost function CostedBelow(t: Trace, ids: set<nat>, id: nat): set<nat> {
    set s | s in ids && s in t && t[s].cost.Some? && Below(LinksOf(t), s, id)
  }

  /** The costs shown once these spans have been counted. */
  ghost predicate Shows(t: Trace, counted: set<nat>, shown: map<nat, real>) {
    && shown.Keys <= t.Keys
    && forall id :: id in t ==> ShowsAt(t, counted, shown, id)
  }

  ghost predicate ShowsAt(t: Trace, counted: set<nat>, shown: map<nat, real>, id: nat)
    requires id in t
  {
    if t[id].cost.Some? then (id in shown <==> id in counted) && (id in shown ==> shown[id] == t[id].cost.value)
    else
      var below := CostedBelow(t, counted, id);
      (id in shown <==> below != {}) && (id in shown ==> shown[id] == Sum(t, below))
  }

  /**
   The declarative rollup: own cost if present, otherwise the sum of own costs over all strict
   descendants, each counted once; nothing where there is no cost below.
   */
  ghost function Rollup(t: Trace): map<nat, real> {
    map id | id in t && (t[id].cost.Some? || CostedBelow(t, t.Keys, id) != {}) ::
      if t[id].cost.Some? then t[id].cost.value else Sum(t, CostedBelow(t, t.Keys, id))
  }

  /** What the loop over one span's ancestors has added to `before` once `visited` were reached. */
  ghost predicate Scattered(t: Trace, before: map<nat, real>, shown: map<nat, real>, id: nat, cost: real,
                            visited: set<nat>) {
    && shown.Keys == before.Keys + {id} + (set a | a in visited && a in t && t[a].cost.None?)
    && forall a :: a in shown ==> shown[a] == ScatteredTo(t, before, id, cost, visited, a)
  }

  ghost function ScatteredTo(t: Trace, before: map<nat, real>, id: nat, cost: real, visited: set<nat>, a: nat): real {
    var so := if a in before then before[a] else 0.0;
    if a == id then cost
    else if a in visited && a in t && t[a].cost.None? then so + cost
    else so
  }

  /** Counting one more costed span. */
  lemma CountOne(t: Trace, counted: set<nat>, before: map<nat, real>, shown: map<nat, real>, id: nat, visited: set<nat>)
    requires Shows(t, counted, before) && id in t && id !in counted && t[id].cost.Some? && visited <= t.Keys
    requires forall a :: a in visited && a != id <==> Below(LinksOf(t), id, a)
    requires Scattered(t, before, shown, id, t[id].cost.value, visited)
    ensures Shows(t, counted + {id}, shown)
  {
    forall a | a in t ensures ShowsAt(t, counted + {id}, shown, a) {
      assert ShowsAt(t, counted, before, a);
      if t[a].cost.None? {
        var below := CostedBelow(t, counted, a);
        if Below(LinksOf(t), id, a) {
          SumAdd(t, below, id);
          assert CostedBelow(t, counted + {id}, a) == below + {id};
          assert below == {} ==> Sum(t, below) == 0.0;
        } else {
          assert CostedBelow(t, counted + {id}, a) == below;
        }
      }
    }
  }

  /** Counting a span without a cost of its own changes nothing. */
  lemma CountUncosted(t: Trace, counted: set<nat>, shown: map<nat, real>, id: nat)
    requires Shows(t, counted, shown) && id in t && t[id].cost.None?
    ensures Shows(t, counted + {id}, shown)
  {
    forall a | a in t ensures ShowsAt(t, counted + {id}, shown, a) {
      assert ShowsAt(t, counted, shown, a);
      assert CostedBelow(t, counted + {id}, a) == CostedBelow(t, counted, a);
    }
  }

  lemma AllCounted(t: Trace, shown: map<nat, real>)
    requires Shows(t, t.Keys, shown)
    ensures shown == Rollup(t)
  {
    forall id | id in t ensures (id in shown <==> id in Rollup(t)) && (id in shown ==> shown[id] == Rollup(t)[id]) {
      assert ShowsAt(t, t.Keys, shown, id);
    }
  }

  lemma ScatterStart(t: Trace, id: nat, before: map<nat, real>, cost: real)
    requires id in t && t[id].cost.Some? && id !in before
    ensures Scattered(t, before, before[id := cost], id, cost, {id})
  {
  }

  /** The costs shown after adding `cost` to the next span above, unless it has one of its own. */
  function AddAt(t: Trace, shown: map<nat, real>, a: nat, cost: real): map<nat, real> {
    if a in t && t[a].cost.None? then shown[a := (if a in shown then shown[a] else 0.0) + cost] else shown
  }

  lemma ScatterMore(t: Trace, before: map<nat, real>, shown: map<nat, real>, id: nat, cost: real, visited: set<nat>,
                    next: nat)
    requires Scattered(t, before, shown, id, cost, visited) && next in t && next !in visited && id in visited
    ensures Scattered(t, before, AddAt(t, shown, next, cost), id, cost, visited + {next})
  {
    var after := AddAt(t, shown, next, cost);
    forall a | a in after ensures after[a] == ScatteredTo(t, before, id, cost, visited + {next}, a) {
      assert a in shown ==> shown[a] == ScatteredTo(t, before, id, cost, visited, a);
    }
    assert (set a | a in visited + {next} && a in t && t[a].cost.None?)
           == (set a | a in visited && a in t && t[a].cost.None?) + if t[next].cost.None? then {next} else {};
  }

  /** Adds a span's cost to everything above it that has none. */
  method Scatter(t: Trace, before: map<nat, real>, id: nat) returns (shown: map<nat, real>, ghost visited: set<nat>)
    requires id in t && t[id].cost.Some? && id !in before
    ensures visited <= t.Keys && Scattered(t, before, shown, id, t[id].cost.value, visited)
    ensures forall a :: a in visited && a != id <==> Below(LinksOf(t), id, a)
  {
    var cost := t[id].cost.value;
    shown := before[id := cost];
    var parent := t[id].parent;
    var seen := {id};
    ClimbStart(LinksOf(t), id);
    ScatterStart(t, id, before, cost);
    ghost var k: nat := 0;
    while parent.Some? && parent.value !in seen && parent.value in t
      invariant Climbed(LinksOf(t), id, k, seen) && id in seen && seen <= t.Keys
      invariant Up(LinksOf(t), id, k + 1) == Present(LinksOf(t), parent)
      invariant Scattered(t, before, shown, id, cost, seen)
      decreases t.Keys - seen
    {
      ClimbMore(LinksOf(t), id, k, seen, parent.value);
      ScatterMore(t, before, shown, id, cost, seen, parent.value);
      seen := seen + {parent.value};
      shown := AddAt(t, shown, parent.value, cost);
      k := k + 1;
      parent := t[parent.value].parent;
    }
    VisitedIsAbove(LinksOf(t), id, k, seen);
    visited := seen;
  }

  method SpanDisplayCosts(spans: seq<Span>) returns (shown: map<nat, real>)
    ensures shown == Rollup(ById(spans))
  {
    var t: Trace := map[];
    for i := 0 to |spans|
      invariant t == ById(spans[..i])
    {
      assert spans[..i + 1][..i] == spans[..i];
      t := t[spans[i].id := spans[i]];
    }
    assert spans[..|spans|] == spans;
    shown := map[];
    var rest := t.Keys;
    while rest != {}
      invariant rest <= t.Keys && Shows(t, t.Keys - rest, shown)
    {
      var id :| id in rest;
      ghost var counted := t.Keys - rest;
      assert counted + {id} == t.Keys - (rest - {id});
      if t[id].cost.Some? {
        assert ShowsAt(t, counted, shown, id);
        ghost var before := shown;
        ghost var visited;
        shown, visited := Scatter(t, shown, id);
        CountOne(t, counted, before, shown, id, visited);
      } else {
        CountUncosted(t, counted, shown, id);
      }
      rest := rest - {id};
    }
    assert t.Keys - {} == t.Keys;
    AllCounted(t, shown);
  }

  ghost predicate DistinctIds(spans: seq<Span>) {
    forall i, j :: 0 <= i < j < |spans| ==> spans[i].id != spans[j].id
  }

  lemma {:induction false} ByIdHolds(spans: seq<Span>)
    requires DistinctIds(spans)
    ensures forall id, s :: id in ById(spans) && ById(spans)[id] == s <==> s in spans && s.id == id
  {
    if spans != [] {
      ByIdHolds(spans[..|spans| - 1]);
      assert spans == spans[..|spans| - 1] + [spans[|spans| - 1]];
    }
  }

  /** The costs shown do not depend on the order of the spans. */
  lemma OrderDoesNotMatter(spans: seq<Span>, reordered: seq<Span>)
    requires DistinctIds(spans) && multiset(reordered) == multiset(spans)
    ensures Rollup(ById(reordered)) == Rollup(ById(spans))
  {
    assert DistinctIds(reordered) by {
      forall i, j | 0 <= i < j < |reordered| ensures reordered[i].id != reordered[j].id {
        DistinctInReorder(spans, reordered, i, j);
      }
    }
    ByIdHolds(spans);
    ByIdHolds(reordered);
    forall s ensures s in spans <==> s in reordered {
      assert s in multiset(spans) <==> s in multiset(reordered);
    }
    assert ById(reordered) == ById(spans);
  }

  lemma DistinctInReorder(spans: seq<Span>, reordered: seq<Span>, i: nat, j: nat)
    requires DistinctIds(spans) && multiset(reordered) == multiset(spans) && i < j < |reordered|
    ensures reordered[i].id != reordered[j].id
  {
    var a, b := reordered[i], reordered[j];
    assert a in multiset(spans) && b in multiset(spans);
    if a == b {
      assert reordered == reordered[..j] + [a] + reordered[j + 1..];
      assert reordered[..j][i] == a;
      assert multiset(reordered)[a] >= 2;
      OnceEach(spans, a);
    } else {
      var k :| 0 <= k < |spans| && spans[k] == a;
      var l :| 0 <= l < |spans| && spans[l] == b;
    }
  }

  lemma {:induction false} OnceEach(spans: seq<Span>, s: Span)
    requires DistinctIds(spans)
    ensures multiset(spans)[s] <= 1
  {
    if spans != [] {
      var n := |spans| - 1;
      OnceEach(spans[..n], s);
      assert spans == spans[..n] + [spans[n]];
      if spans[n] == s {
        assert s !in spans[..n];
      }
    }
  }

  /** The sum of all costs, if any span has one. */
  method TraceTotalCost(spans: seq<Span>) returns (total: Option<real>)
    requires DistinctIds(spans)
    ensures total == Total(ById(spans))
  {
    total := None;
    for i := 0 to |spans|
      invariant total == Total(ById(spans[..i]))
    {
      NotYetThere(spans[..i], spans[i].id);
      assert spans[..i + 1][..i] == spans[..i];
      TotalWith(ById(spans[..i]), spans[i]);
      if spans[i].cost.Some? {
        total := Some(if total.None? then spans[i].cost.value else total.value + spans[i].cost.value);
      }
    }
    assert spans[..|spans|] == spans;
  }

  ghost function Costed(t: Trace): set<nat> {
    set id | id in t && t[id].cost.Some?
  }

  ghost function Total(t: Trace): Option<real> {
    if Costed(t) == {} then None else Some(Sum(t, Costed(t)))
  }

  lemma {:induction false} SumSame(t: Trace, t': Trace, ids: set<nat>)
    requires forall id :: id in ids ==> Cost(t, id) == Cost(t', id)
    ensures Sum(t, ids) == Sum(t', ids)
  {
    if ids != {} {
      var id :| id in ids;
      SumSame(t, t', ids - {id});
      SumAdd(t, ids - {id}, id);
      SumAdd(t', ids - {id}, id);
      assert ids - {id} + {id} == ids;
    }
  }

  lemma {:induction false} NotYetThere(spans: seq<Span>, id: nat)
    requires forall k :: 0 <= k < |spans| ==> spans[k].id != id
    ensures id !in ById(spans)
  {
    if spans != [] {
      NotYetThere(spans[..|spans| - 1], id);
    }
  }

  lemma TotalWith(t: Trace, s: Span)
    requires s.id !in t
    ensures var t' := t[s.id := s];
            && (s.cost.None? ==> Total(t') == Total(t))
            && (s.cost.Some? ==> Total(t') == Some(s.cost.value + if Total(t).Some? then Total(t).value else 0.0))
  {
    var t' := t[s.id := s];
    SumSame(t, t', Costed(t));
    if s.cost.Some? {
      assert Costed(t') == Costed(t) + {s.id};
      SumAdd(t', Costed(t), s.id);
      assert Costed(t) == {} ==> Sum(t', Costed(t)) == 0.0;
    } else {
      assert Costed(t') == Costed(t);
    }
  }

  /** A root without a cost of its own, above all other spans, shows the total of the trace. */
  lemma RootShowsTotal(t: Trace, root: nat)
    requires root in t && t[root].cost.None?
    requires forall id :: id in t && id != root ==> Below(LinksOf(t), id, root)
    ensures root in Rollup(t) <==> Total(t).Some?
    ensures root in Rollup(t) ==> Total(t) == Some(Rollup(t)[root])
  {
    assert CostedBelow(t, t.Keys, root) == Costed(t);
  }
}
