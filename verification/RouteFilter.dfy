/**
 A span processor that exports only traces whose root span has one of the target routes. Spans that
 end before their root are held back; decisions are remembered for a bounded number of traces.
 */
module RouteFilter {
  import opened Options

  const MAX_DECISIONS: nat := 4096
  const MAX_PENDING: nat := 512

  type Routes = set<(string, string)>

  datatype Span = Span(trace: nat, isRoot: bool, name: string, route: Option<string>, method': Option<string>,
                       marked: bool)

  /** A span that ended, and whether export was forced for the context it ended in. */
  datatype Ended = Ended(span: Span, exportEnabled: bool)

  function UpperChar(c: char): char {
    if 'a' <= c <= 'z' then (c as int - 32) as char else c
  }

  function Upper(s: string): string {
    seq(|s|, i requires 0 <= i < |s| => UpperChar(s[i]))
  }

  predicate IsForced(e: Ended) {
    e.exportEnabled || e.span.marked
  }

  /** By route attributes if the span has both, otherwise by name. */
  predicate IsAllowedRoot(routes: Routes, s: Span) {
    s.isRoot &&
    if s.route.Some? && s.method'.Some? then (Upper(s.method'.value), s.route.value) in routes
    else exists r :: r in routes && s.name == r.0 + " " + r.1
  }

  // `evicted` records the traces whose decision was dropped to keep the others bounded.
  datatype Filter = Filter(
    pending: map<nat, seq<Ended>>, allowed: set<nat>, blocked: set<nat>, order: seq<nat>, delegate: seq<Ended>,
    evicted: set<nat>)

  const EMPTY := Filter(map[], {}, {}, [], [], {})

  function Without(pending: map<nat, seq<Ended>>, trace: nat): map<nat, seq<Ended>> {
    map t | t in pending && t != trace :: pending[t]
  }

  function Evict(f: Filter): Filter {
    if |f.order| <= MAX_DECISIONS then f
    else
      f.(order := f.order[1..], allowed := f.allowed - {f.order[0]}, blocked := f.blocked - {f.order[0]},
         pending := Without(f.pending, f.order[0]), evicted := f.evicted + {f.order[0]})
  }

  function Remember(f: Filter, trace: nat, allowed: bool): Filter {
    Evict(f.(allowed := if allowed then f.allowed + {trace} else f.allowed - {trace},
             blocked := if allowed then f.blocked - {trace} else f.blocked + {trace},
             order := f.order + [trace]))
  }

  function PendingOf(f: Filter, trace: nat): seq<Ended> {
    if trace in f.pending then f.pending[trace] else []
  }

  function AfterEnd(routes: Routes, f: Filter, e: Ended): Filter {
    var t := e.span.trace;
    if IsForced(e) || t in f.allowed then f.(delegate := f.delegate + [e])
    else if t in f.blocked then f
    else if IsAllowedRoot(routes, e.span) then
      var g := Remember(f, t, true);
      g.(pending := Without(g.pending, t), delegate := f.delegate + PendingOf(g, t) + [e])
    else if e.span.isRoot then
      var g := Remember(f, t, false);
      g.(pending := Without(g.pending, t))
    else
      var held := PendingOf(f, t);
      f.(pending := f.pending[t := if |held| < MAX_PENDING then held + [e] else held])
  }

  class Processor {
    const routes: Routes
    var pending: map<nat, seq<Ended>>
    var allowed: set<nat>
    var blocked: set<nat>
    var order: seq<nat>
    var delegate: seq<Ended>
    ghost var evicted: set<nat>

    constructor (routes: Routes)
      ensures this.routes == (set r | r in routes :: (Upper(r.0), r.1)) && State() == EMPTY
    {
      this.routes := set r | r in routes :: (Upper(r.0), r.1);
      pending, allowed, blocked, order, delegate, evicted := map[], {}, {}, [], [], {};
    }

    ghost function State(): Filter
      reads this
    {
      Filter(pending, allowed, blocked, order, delegate, evicted)
    }

    method RememberDecision(trace: nat, allow: bool)
      requires |order| <= MAX_DECISIONS
      modifies this`pending, this`allowed, this`blocked, this`order, this`evicted
      ensures State() == Remember(old(State()), trace, allow)
    {
      allowed := allowed - {trace};
      blocked := blocked - {trace};
      if allow {
        allowed := allowed + {trace};
      } else {
        blocked := blocked + {trace};
      }
      order := order + [trace];
      assert allow ==> allowed == old(allowed) + {trace};
      assert !allow ==> blocked == old(blocked) + {trace};
      ghost var before := State();
      while |order| > MAX_DECISIONS
        invariant MAX_DECISIONS <= |order| || State() == before
        invariant State() == if |order| < |before.order| then Evict(before) else before
        invariant |before.order| - 1 <= |order| <= |before.order| && |before.order| <= MAX_DECISIONS + 1
      {
        var stale := order[0];
        order := order[1..];
        allowed := allowed - {stale};
        blocked := blocked - {stale};
        pending := Without(pending, stale);
        evicted := evicted + {stale};
      }
    }

    /** Hands the held-back spans to the delegate. */
    method Release(held: seq<Ended>)
      modifies this`delegate
      ensures delegate == old(delegate) + held
    {
      for i := 0 to |held|
        invariant delegate == old(delegate) + held[..i]
      {
        delegate := delegate + [held[i]];
      }
    }

    method OnEnd(e: Ended)
      requires |order| <= MAX_DECISIONS
      modifies this
      ensures State() == AfterEnd(routes, old(State()), e)
    {
      if IsForced(e) {
        delegate := delegate + [e];
        return;
      }
      var trace := e.span.trace;
      if trace in allowed {
        delegate := delegate + [e];
        return;
      }
      if trace in blocked {
        return;
      }
      if IsAllowedRoot(routes, e.span) {
        RememberDecision(trace, true);
        var held := if trace in pending then pending[trace] else [];
        pending := Without(pending, trace);
        Release(held);
        delegate := delegate + [e];
        return;
      }
      if e.span.isRoot {
        RememberDecision(trace, false);
        pending := Without(pending, trace);
        return;
      }
      var held := if trace in pending then pending[trace] else [];
      if |held| < MAX_PENDING {
        held := held + [e];
      }
      pending := pending[trace := held];
    }
  }

  // ---------------------------------------------------------------------------------------------
  // The filter of a whole trace
  // ---------------------------------------------------------------------------------------------

  /** Exported whatever its trace comes to. */
  ghost predicate Bypasses(e: Ended) {
    e.exportEnabled || e.span.marked
  }

  /** The one text is the other with its small letters capitalised. */
  ghost predicate IsUpperOf(upper: string, text: string) {
    && |upper| == |text|
    && forall i :: 0 <= i < |text| ==>
                     if 'a' <= text[i] <= 'z' then upper[i] as int == text[i] as int - 32 else upper[i] == text[i]
  }

  /** A root span of a target route: by its method, in any case, and route if it has both, else by its name. */
  ghost predicate HasTargetRoute(routes: Routes, s: Span) {
    s.isRoot &&
    match (s.method', s.route)
    case (Some(method'), Some(route)) => exists r :: r in routes && r.1 == route && IsUpperOf(r.0, method')
    case _ => exists r :: r in routes && s.name == r.0 + " " + r.1
  }

  lemma UpperMeans(upper: string, text: string)
    ensures upper == Upper(text) <==> IsUpperOf(upper, text)
  {
    if IsUpperOf(upper, text) {
      assert upper == Upper(text);
    }
  }

  lemma AllowedMeans(routes: Routes, s: Span)
    ensures IsAllowedRoot(routes, s) <==> HasTargetRoute(routes, s)
  {
    if s.route.Some? && s.method'.Some? {
      UpperMeans(Upper(s.method'.value), s.method'.value);
      if r :| r in routes && r.1 == s.route.value && IsUpperOf(r.0, s.method'.value) {
        UpperMeans(r.0, s.method'.value);
      }
      if IsAllowedRoot(routes, s) {
        var r := (Upper(s.method'.value), s.route.value);
        assert r in routes && r.1 == s.route.value && IsUpperOf(r.0, s.method'.value);
      }
    }
  }

  ghost function After(routes: Routes, stream: seq<Ended>): Filter {
    if stream == [] then EMPTY else AfterEnd(routes, After(routes, stream[..|stream| - 1]), stream[|stream| - 1])
  }

  /** The unforced spans of a trace, in order. */
  ghost function Unforced(stream: seq<Ended>, trace: nat): seq<Ended> {
    if stream == [] then []
    else
      var n := |stream| - 1;
      Unforced(stream[..n], trace)
      + if stream[n].span.trace == trace && !Bypasses(stream[n]) then [stream[n]] else []
  }

  ghost function Forced(stream: seq<Ended>): seq<Ended> {
    if stream == [] then []
    else
      var n := |stream| - 1;
      Forced(stream[..n]) + if Bypasses(stream[n]) then [stream[n]] else []
  }

  function FirstRoot(spans: seq<Ended>): (i: Option<nat>)
    ensures i.Some? ==> i.value < |spans| && spans[i.value].span.isRoot
    ensures i.Some? ==> forall k :: 0 <= k < i.value ==> !spans[k].span.isRoot
    ensures i.None? ==> forall k :: 0 <= k < |spans| ==> !spans[k].span.isRoot
  {
    if spans == [] then None
    else
      var before := FirstRoot(spans[..|spans| - 1]);
      if before.Some? then before
      else if spans[|spans| - 1].span.isRoot then Some(|spans| - 1)
      else None
  }

  function Take(spans: seq<Ended>): seq<Ended> {
    if |spans| <= 512 then spans else spans[..512]
  }

  /** What a trace exports: nothing, or the first spans before its root, the root, and all after it. */
  ghost function Batch(routes: Routes, spans: seq<Ended>): seq<Ended> {
    var root := FirstRoot(spans);
    if root.Some? && HasTargetRoute(routes, spans[root.value].span)
    then Take(spans[..root.value]) + spans[root.value..]
    else []
  }

  lemma UnforcedNext(stream: seq<Ended>, e: Ended, trace: nat)
    ensures Unforced(stream + [e], trace)
            == Unforced(stream, trace) + (if e.span.trace == trace && !IsForced(e) then [e] else [])
  {
    assert (stream + [e])[..|stream|] == stream;
  }

  /** A stretch of one trace's unforced spans. */
  ghost predicate AllOf(spans: seq<Ended>, trace: nat) {
    forall k :: 0 <= k < |spans| ==> spans[k].span.trace == trace && !IsForced(spans[k])
  }

  lemma {:induction false} UnforcedAppend(stream: seq<Ended>, spans: seq<Ended>, trace: nat, other: nat)
    requires AllOf(spans, trace)
    ensures Unforced(stream + spans, other) == Unforced(stream, other) + if other == trace then spans else []
    ensures Forced(stream + spans) == Forced(stream)
  {
    if spans == [] {
      assert stream + spans == stream;
    } else {
      var n := |spans| - 1;
      UnforcedAppend(stream, spans[..n], trace, other);
      assert (stream + spans)[..|stream| + n] == stream + spans[..n];
    }
  }

  lemma {:induction false} UnforcedAllOf(stream: seq<Ended>, trace: nat)
    ensures AllOf(Unforced(stream, trace), trace)
  {
    if stream != [] {
      UnforcedAllOf(stream[..|stream| - 1], trace);
    }
  }

  lemma FirstRootNext(spans: seq<Ended>, e: Ended)
    ensures FirstRoot(spans + [e]) == if FirstRoot(spans).Some? then FirstRoot(spans)
                                      else if e.span.isRoot then Some(|spans|) else None
  {
    assert (spans + [e])[..|spans|] == spans;
  }

  lemma BatchNext(routes: Routes, spans: seq<Ended>, e: Ended)
    ensures var root := FirstRoot(spans);
            Batch(routes, spans + [e]) ==
            if root.Some? && HasTargetRoute(routes, spans[root.value].span) then Batch(routes, spans) + [e]
            else if root.None? && HasTargetRoute(routes, e.span) then Take(spans) + [e]
            else []
  {
    FirstRootNext(spans, e);
    var root := FirstRoot(spans);
    if root.Some? {
      assert (spans + [e])[..root.value] == spans[..root.value];
      assert (spans + [e])[root.value..] == spans[root.value..] + [e];
    } else if e.span.isRoot {
      assert (spans + [e])[..|spans|] == spans;
      assert (spans + [e])[|spans|..] == [e];
    }
  }

  // ---------------------------------------------------------------------------------------------
  // Bookkeeping, with eviction
  // ---------------------------------------------------------------------------------------------

  function Members(order: seq<nat>): set<nat> {
    set t <- order
  }

  ghost predicate NoRepeats(order: seq<nat>) {
    forall i, j :: 0 <= i < j < |order| ==> order[i] != order[j]
  }

  /**
   The remembered decisions are duplicate-free, bounded, exactly the allowed and the blocked traces,
   and no decided trace has spans pending.
   */
  ghost predicate Consistent(f: Filter) {
    && NoRepeats(f.order) && |f.order| <= 4096
    && (forall t :: t in f.order <==> t in f.allowed || t in f.blocked)
    && f.allowed !! f.blocked
    && (forall t :: t in f.pending ==> t !in f.order && AllOf(f.pending[t], t) && |f.pending[t]| <= 512)
  }

  /** The trace whose decision is dropped when another one is remembered. */
  ghost function Dropped(f: Filter): set<nat> {
    if |f.order| == MAX_DECISIONS then {f.order[0]} else {}
  }

  /** The order of decisions once another one is added and the oldest dropped beyond capacity. */
  lemma OrderAfter(order: seq<nat>, trace: nat)
    requires NoRepeats(order) && |order| <= MAX_DECISIONS && trace !in order
    ensures var full := |order| == MAX_DECISIONS;
            var order' := if full then (order + [trace])[1..] else order + [trace];
            && NoRepeats(order') && |order'| <= MAX_DECISIONS
            && Members(order') == Members(order) + {trace} - if full then {order[0]} else {}
  {
    var before := order + [trace];
    assert Members(before) == Members(order) + {trace};
    if |order| == MAX_DECISIONS {
      assert before == [order[0]] + before[1..];
      assert forall k :: 0 <= k < |before[1..]| ==> before[1..][k] == before[k + 1];
      assert order[0] !in before[1..];
    }
  }

  lemma RememberMeans(f: Filter, trace: nat, allowed: bool)
    requires Consistent(f) && trace !in f.order
    ensures var g := Remember(f, trace, allowed);
            && g.pending == f.pending && g.delegate == f.delegate && g.evicted == f.evicted + Dropped(f)
            && g.allowed == (if allowed then f.allowed + {trace} else f.allowed) - Dropped(f)
            && g.blocked == (if allowed then f.blocked else f.blocked + {trace}) - Dropped(f)
            && NoRepeats(g.order) && |g.order| <= MAX_DECISIONS
            && Members(g.order) == Members(f.order) + {trace} - Dropped(f)
            && trace !in Dropped(f)
  {
    OrderAfter(f.order, trace);
    assert |f.order| == MAX_DECISIONS ==> (f.order + [trace])[0] == f.order[0] && f.order[0] in f.order;
  }

  lemma RememberKeepsConsistent(f: Filter, trace: nat, allowed: bool)
    requires Consistent(f) && trace !in f.order
    ensures var g := Remember(f, trace, allowed); Consistent(g.(pending := Without(g.pending, trace)))
  {
    RememberMeans(f, trace, allowed);
    var g := Remember(f, trace, allowed);
    forall t ensures t in g.order <==> t in Members(f.order) + {trace} - Dropped(f) {
      assert t in g.order <==> t in Members(g.order);
    }
  }

  lemma EndKeepsConsistent(routes: Routes, f: Filter, e: Ended)
    requires Consistent(f)
    ensures Consistent(AfterEnd(routes, f, e))
  {
    var t := e.span.trace;
    if !IsForced(e) && t !in f.allowed && t !in f.blocked && e.span.isRoot {
      RememberKeepsConsistent(f, t, IsAllowedRoot(routes, e.span));
    }
  }

  /** For every stream of spans. */
  lemma {:induction false} AlwaysConsistent(routes: Routes, stream: seq<Ended>)
    ensures Consistent(After(routes, stream))
  {
    if stream != [] {
      AlwaysConsistent(routes, stream[..|stream| - 1]);
      EndKeepsConsistent(routes, After(routes, stream[..|stream| - 1]), stream[|stream| - 1]);
    }
  }

  // ---------------------------------------------------------------------------------------------
  // Refinement
  // ---------------------------------------------------------------------------------------------

  /** The decision about a trace, or the spans held back, given its unforced spans so far. */
  ghost predicate Tracks(routes: Routes, f: Filter, spans: seq<Ended>, trace: nat) {
    match FirstRoot(spans)
    case None => trace !in f.order && PendingOf(f, trace) == Take(spans)
    case Some(i) => trace in f.order && (trace in f.allowed <==> HasTargetRoute(routes, spans[i].span))
  }

  /** The filter agrees with the whole-trace filter on a trace whose unforced spans were these. */
  ghost predicate Exact(routes: Routes, f: Filter, spans: seq<Ended>, trace: nat) {
    Unforced(f.delegate, trace) == Batch(routes, spans) && Tracks(routes, f, spans, trace)
  }

  /** The spans handed on when a span ends. */
  ghost function Emits(routes: Routes, f: Filter, e: Ended): seq<Ended> {
    if IsForced(e) || e.span.trace in f.allowed then [e]
    else if e.span.trace !in f.blocked && IsAllowedRoot(routes, e.span) then PendingOf(f, e.span.trace) + [e]
    else []
  }

  lemma DelegateGrows(routes: Routes, f: Filter, e: Ended)
    requires Consistent(f)
    ensures AfterEnd(routes, f, e).delegate == f.delegate + Emits(routes, f, e)
  {
    if e.span.trace !in f.order && !IsForced(e) && e.span.isRoot {
      RememberMeans(f, e.span.trace, IsAllowedRoot(routes, e.span));
    }
  }

  /** What is emitted, trace by trace. */
  lemma EmittedOf(routes: Routes, f: Filter, e: Ended, trace: nat)
    requires Consistent(f)
    ensures var mine := e.span.trace == trace && !IsForced(e);
            && Unforced(AfterEnd(routes, f, e).delegate, trace)
               == Unforced(f.delegate, trace) + (if mine then Emits(routes, f, e) else [])
            && Forced(AfterEnd(routes, f, e).delegate) == Forced(f.delegate) + if IsForced(e) then [e] else []
  {
    DelegateGrows(routes, f, e);
    if IsForced(e) {
      UnforcedNext(f.delegate, e, trace);
      assert (f.delegate + [e])[..|f.delegate|] == f.delegate;
    } else {
      UnforcedAppend(f.delegate, Emits(routes, f, e), e.span.trace, trace);
    }
  }

  /** An event of another trace, or a forced one, that does not evict the trace. */
  lemma OthersStayTracked(routes: Routes, f: Filter, spans: seq<Ended>, trace: nat, e: Ended)
    requires Consistent(f) && Tracks(routes, f, spans, trace) && (e.span.trace != trace || IsForced(e))
    requires trace !in AfterEnd(routes, f, e).evicted
    ensures Tracks(routes, AfterEnd(routes, f, e), spans, trace)
  {
    if !IsForced(e) && e.span.trace !in f.order && e.span.isRoot {
      RememberMeans(f, e.span.trace, IsAllowedRoot(routes, e.span));
      var g := Remember(f, e.span.trace, IsAllowedRoot(routes, e.span));
      assert trace in g.order <==> trace in Members(g.order);
    }
  }

  /** An unforced event of the trace itself. */
  lemma OwnEventIsTracked(routes: Routes, f: Filter, spans: seq<Ended>, e: Ended)
    requires Consistent(f) && Tracks(routes, f, spans, e.span.trace) && !IsForced(e)
    ensures Tracks(routes, AfterEnd(routes, f, e), spans + [e], e.span.trace)
  {
    FirstRootNext(spans, e);
    AllowedMeans(routes, e.span);
    if FirstRoot(spans).None? && e.span.isRoot {
      RememberMeans(f, e.span.trace, IsAllowedRoot(routes, e.span));
      var g := Remember(f, e.span.trace, IsAllowedRoot(routes, e.span));
      assert e.span.trace in g.order <==> e.span.trace in Members(g.order);
    }
  }

  lemma OwnEventIsEmitted(routes: Routes, f: Filter, spans: seq<Ended>, e: Ended)
    requires Consistent(f) && Exact(routes, f, spans, e.span.trace) && !IsForced(e)
    ensures Unforced(AfterEnd(routes, f, e).delegate, e.span.trace) == Batch(routes, spans + [e])
  {
    EmittedOf(routes, f, e, e.span.trace);
    BatchNext(routes, spans, e);
    AllowedMeans(routes, e.span);
  }

  lemma EvictedStay(routes: Routes, f: Filter, e: Ended)
    ensures f.evicted <= AfterEnd(routes, f, e).evicted
  {
  }

  lemma StepStaysExact(routes: Routes, f: Filter, spans: seq<Ended>, trace: nat, e: Ended)
    requires Consistent(f) && Exact(routes, f, spans, trace) && trace !in AfterEnd(routes, f, e).evicted
    ensures var mine := e.span.trace == trace && !IsForced(e);
            Exact(routes, AfterEnd(routes, f, e), if mine then spans + [e] else spans, trace)
  {
    if e.span.trace == trace && !IsForced(e) {
      OwnEventIsTracked(routes, f, spans, e);
      OwnEventIsEmitted(routes, f, spans, e);
    } else {
      EmittedOf(routes, f, e, trace);
      OthersStayTracked(routes, f, spans, trace, e);
    }
  }

  lemma StillThere(routes: Routes, stream: seq<Ended>, trace: nat)
    requires stream != [] && trace !in After(routes, stream).evicted
    ensures trace !in After(routes, stream[..|stream| - 1]).evicted
  {
    EvictedStay(routes, After(routes, stream[..|stream| - 1]), stream[|stream| - 1]);
  }

  lemma UnforcedLast(stream: seq<Ended>, trace: nat)
    requires stream != []
    ensures var before, e := stream[..|stream| - 1], stream[|stream| - 1];
            Unforced(stream, trace)
            == if e.span.trace == trace && !IsForced(e) then Unforced(before, trace) + [e] else Unforced(before, trace)
  {
    assert Unforced(stream[..|stream| - 1], trace) + [] == Unforced(stream[..|stream| - 1], trace);
  }

  /**
   For every stream, the delegate receives of each trace that was not evicted exactly what the
   whole-trace filter lets through of its unforced spans.
   */
  lemma {:induction false} StreamRefinesBatch(routes: Routes, stream: seq<Ended>, trace: nat)
    requires trace !in After(routes, stream).evicted
    ensures Exact(routes, After(routes, stream), Unforced(stream, trace), trace)
  {
    if stream != [] {
      var before, e := stream[..|stream| - 1], stream[|stream| - 1];
      StillThere(routes, stream, trace);
      StreamRefinesBatch(routes, before, trace);
      AlwaysConsistent(routes, before);
      StepStaysExact(routes, After(routes, before), Unforced(before, trace), trace, e);
      UnforcedLast(stream, trace);
    }
  }

  /** Forced spans all reach the delegate, in order. */
  lemma {:induction false} ForcedPassThrough(routes: Routes, stream: seq<Ended>)
    ensures Forced(After(routes, stream).delegate) == Forced(stream)
  {
    if stream != [] {
      var n := |stream| - 1;
      var f, e := After(routes, stream[..n]), stream[n];
      ForcedPassThrough(routes, stream[..n]);
      AlwaysConsistent(routes, stream[..n]);
      EmittedOf(routes, f, e, e.span.trace);
    }
  }

  // ---------------------------------------------------------------------------------------------
  // When nothing is evicted
  // ---------------------------------------------------------------------------------------------

  /** The traces whose root has ended without being forced. */
  ghost function Decided(stream: seq<Ended>): set<nat> {
    set e | e in stream && e.span.isRoot && !Bypasses(e) :: e.span.trace
  }

  lemma {:induction false} CountDistinct(order: seq<nat>)
    requires NoRepeats(order)
    ensures |Members(order)| == |order|
  {
    if order != [] {
      var n := |order| - 1;
      CountDistinct(order[..n]);
      assert Members(order) == Members(order[..n]) + {order[n]};
    }
  }

  lemma Larger(a: set<nat>, b: set<nat>)
    requires a <= b
    ensures |a| <= |b|
  {
    assert b == a + (b - a);
  }

  ghost predicate Accounts(f: Filter, stream: seq<Ended>) {
    && Members(f.order) + f.evicted == Decided(stream)
    && (f.evicted != {} ==> |Decided(stream)| > MAX_DECISIONS)
  }

  lemma DecidedNext(before: seq<Ended>, e: Ended)
    ensures Decided(before + [e]) == Decided(before) + if e.span.isRoot && !IsForced(e) then {e.span.trace} else {}
  {
  }

  /** Only the unforced root of an undecided trace changes what is remembered. */
  lemma DecidesOnce(routes: Routes, f: Filter, e: Ended)
    requires Consistent(f)
    ensures var g := AfterEnd(routes, f, e);
            var h := if !IsForced(e) && e.span.trace !in f.order && e.span.isRoot
                     then Remember(f, e.span.trace, IsAllowedRoot(routes, e.span)) else f;
            g.order == h.order && g.evicted == h.evicted
  {
  }

  lemma StepAccounts(routes: Routes, f: Filter, before: seq<Ended>, e: Ended)
    requires Consistent(f) && Accounts(f, before)
    ensures Accounts(AfterEnd(routes, f, e), before + [e])
  {
    DecidedNext(before, e);
    DecidesOnce(routes, f, e);
    if !IsForced(e) && e.span.isRoot {
      if e.span.trace !in f.order {
        DecisionAccounts(f, e.span.trace, IsAllowedRoot(routes, e.span), before, before + [e]);
      } else {
        assert e.span.trace in Members(f.order);
        assert Decided(before) + {e.span.trace} == Decided(before);
      }
    }
  }

  lemma {:induction false} EvictionAccounts(routes: Routes, stream: seq<Ended>)
    ensures Accounts(After(routes, stream), stream)
  {
    if stream != [] {
      var before, e := stream[..|stream| - 1], stream[|stream| - 1];
      EvictionAccounts(routes, before);
      AlwaysConsistent(routes, before);
      StepAccounts(routes, After(routes, before), before, e);
      assert stream == before + [e];
    }
  }

  lemma BeyondCapacity(order: seq<nat>, trace: nat, decided: set<nat>)
    requires NoRepeats(order) && trace !in order && Members(order) + {trace} <= decided
    ensures |decided| > |order|
  {
    CountDistinct(order);
    assert trace !in Members(order);
    Larger(Members(order) + {trace}, decided);
  }

  lemma Redistribute(kept: set<nat>, evicted: set<nat>, dropped: set<nat>, added: nat)
    requires dropped <= kept && added !in dropped
    ensures (kept + {added} - dropped) + (evicted + dropped) == kept + evicted + {added}
  {
  }

  lemma DecisionAccounts(f: Filter, trace: nat, allowed: bool, before: seq<Ended>, after: seq<Ended>)
    requires Consistent(f) && Accounts(f, before) && trace !in f.order
    requires Decided(after) == Decided(before) + {trace}
    ensures Accounts(Remember(f, trace, allowed), after)
  {
    var g := Remember(f, trace, allowed);
    RememberMeans(f, trace, allowed);
    assert Dropped(f) <= Members(f.order) && trace !in Dropped(f);
    Redistribute(Members(f.order), f.evicted, Dropped(f), trace);
    if |f.order| == MAX_DECISIONS {
      BeyondCapacity(f.order, trace, Decided(after));
    } else {
      Larger(Decided(before), Decided(after));
    }
  }

  /** Nothing is evicted exactly as long as at most 4096 traces have been decided. */
  lemma EvictsOnlyBeyondCapacity(routes: Routes, stream: seq<Ended>)
    ensures After(routes, stream).evicted == {} <==> |Decided(stream)| <= 4096
  {
    EvictionAccounts(routes, stream);
    AlwaysConsistent(routes, stream);
    CountDistinct(After(routes, stream).order);
  }
}
