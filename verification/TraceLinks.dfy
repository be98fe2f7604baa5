/** The parent links of a trace's spans, which may dangle or form cycles. */
module TraceLinks {
  import opened Options

  // The parent of each span, by span id.
  type Links = map<nat, Option<nat>>

  /** The span `k` parent links above, if the links lead there. */
  function Up(links: Links, id: nat, k: nat): Option<nat> {
    if k == 0 then if id in links then Some(id) else None
    else
      var below := Up(links, id, k - 1);
      if below.None? || below.value !in links then None
      else
        var parent := links[below.value];
        if parent.Some? && parent.value in links then parent else None
  }

  /** The span is strictly below the other one. */
  ghost predicate Below(links: Links, id: nat, ancestor: nat) {
    id != ancestor && exists k: nat :: Up(links, id, k) == Some(ancestor)
  }

  function Present(links: Links, parent: Option<nat>): Option<nat> {
    if parent.Some? && parent.value in links then parent else None
  }

  /** The links climbed from a span so far. */
  ghost predicate Climbed(links: Links, id: nat, k: nat, visited: set<nat>) {
    && visited <= links.Keys
    && (forall j: nat :: j <= k ==> Up(links, id, j).Some? && Up(links, id, j).value in visited)
    && forall x :: x in visited ==> exists j: nat :: j <= k && Up(links, id, j) == Some(x)
  }

  /** When the next link leads nowhere or back, everything above has been visited. */
  lemma {:induction false} ClimbIsComplete(links: Links, id: nat, k: nat, visited: set<nat>, n: nat)
    requires Climbed(links, id, k, visited)
    requires Up(links, id, k + 1).None? || Up(links, id, k + 1).value in visited
    ensures Up(links, id, n).None? || Up(links, id, n).value in visited
  {
    if n > k {
      ClimbIsComplete(links, id, k, visited, n - 1);
      if Up(links, id, n - 1).Some? {
        var x := Up(links, id, n - 1).value;
        var j: nat :| j <= k && Up(links, id, j) == Some(x);
        assert Up(links, id, n) == Up(links, id, j + 1);
      }
    }
  }

  lemma VisitedIsAbove(links: Links, id: nat, k: nat, visited: set<nat>)
    requires Climbed(links, id, k, visited)
    requires Up(links, id, k + 1).None? || Up(links, id, k + 1).value in visited
    ensures forall a :: a in visited && a != id <==> Below(links, id, a)
  {
    forall a ensures a in visited && a != id <==> Below(links, id, a) {
      if Below(links, id, a) {
        var n: nat :| Up(links, id, n) == Some(a);
        ClimbIsComplete(links, id, k, visited, n);
      }
    }
  }

  lemma ClimbStart(links: Links, id: nat)
    requires id in links
    ensures Climbed(links, id, 0, {id}) && Up(links, id, 1) == Present(links, links[id])
  {
    assert Up(links, id, 0) == Some(id);
  }

  lemma ClimbMore(links: Links, id: nat, k: nat, visited: set<nat>, next: nat)
    requires Climbed(links, id, k, visited) && Up(links, id, k + 1) == Some(next) && next in links
    ensures Climbed(links, id, k + 1, visited + {next})
    ensures Up(links, id, k + 2) == Present(links, links[next])
  {
    forall x | x in visited + {next} ensures exists j: nat :: j <= k + 1 && Up(links, id, j) == Some(x) {
      if x in visited {
        var j: nat :| j <= k && Up(links, id, j) == Some(x);
      }
    }
  }

  lemma {:induction false} UpChains(links: Links, id: nat, j: nat, k: nat)
    requires Up(links, id, j).Some?
    ensures Up(links, id, j + k) == Up(links, Up(links, id, j).value, k)
  {
    if k > 0 {
      UpChains(links, id, j, k - 1);
    } else {
      UpLeadsInside(links, id, j);
    }
  }

  lemma {:induction false} UpLeadsInside(links: Links, id: nat, k: nat)
    ensures Up(links, id, k).Some? ==> Up(links, id, k).value in links
  {
  }

  /** What is below something below is below, unless the links lead back to it. */
  lemma BelowChains(links: Links, low: nat, middle: nat, high: nat)
    requires Below(links, low, middle) && Below(links, middle, high) && low != high
    ensures Below(links, low, high)
  {
    var j: nat :| Up(links, low, j) == Some(middle);
    var k: nat :| Up(links, middle, k) == Some(high);
    UpChains(links, low, j, k);
  }
}
