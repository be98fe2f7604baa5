/**
 A conversation as a tree of messages with mutable active-child pointers. Nothing is assumed of the
 parent links: messages may form cycles, or hang below messages that are not there.
 */
module ConversationTree {
  import opened Options

  datatype Row = Row(createdAt: int, parent: Option<nat>, activeChild: Option<nat>)

  type Tree = map<nat, Row>

  predicate IsChild(t: Tree, parent: Option<nat>, c: nat) {
    c in t && t[c].parent == parent
  }

  predicate Before(t: Tree, a: nat, b: nat)
    requires a in t && b in t
  {
    t[a].createdAt < t[b].createdAt || (t[a].createdAt == t[b].createdAt && a < b)
  }

  ghost predicate HasChild(t: Tree, parent: Option<nat>) {
    exists c :: IsChild(t, parent, c)
  }

  /** The oldest child, ties broken by id. */
  ghost predicate IsFirst(t: Tree, parent: Option<nat>, c: nat) {
    IsChild(t, parent, c) && forall d :: IsChild(t, parent, d) ==> d == c || Before(t, c, d)
  }

  /** No other child was created earlier, and of those created at the same time none has a smaller id. */
  ghost predicate IsOldest(t: Tree, parent: Option<nat>, c: nat) {
    && c in t && t[c].parent == parent
    && forall d :: d in t && t[d].parent == parent ==>
                     t[c].createdAt < t[d].createdAt || (t[c].createdAt == t[d].createdAt && c <= d)
  }

  lemma FirstIsOldest(t: Tree, parent: Option<nat>, c: nat)
    requires IsFirst(t, parent, c)
    ensures IsOldest(t, parent, c)
  {
    forall d | d in t && t[d].parent == parent
      ensures t[c].createdAt < t[d].createdAt || (t[c].createdAt == t[d].createdAt && c <= d)
    {
      assert IsChild(t, parent, d);
    }
  }

  lemma {:induction false} LeastOf(t: Tree, ids: set<nat>) returns (least: nat)
    requires ids != {} && ids <= t.Keys
    ensures least in ids && forall d :: d in ids ==> d == least || Before(t, least, d)
  {
    var c :| c in ids;
    if ids == {c} {
      least := c;
    } else {
      least := LeastOf(t, ids - {c});
      assert forall d :: d in ids ==> d == c || d in ids - {c};
      if Before(t, c, least) {
        least := c;
      }
    }
  }

  lemma FirstExists(t: Tree, parent: Option<nat>)
    requires HasChild(t, parent)
    ensures exists c :: IsFirst(t, parent, c)
  {
    var ids := set c | c in t && IsChild(t, parent, c);
    var c :| IsChild(t, parent, c);
    assert c in ids;
    var least := LeastOf(t, ids);
    assert IsFirst(t, parent, least);
  }

  ghost function First(t: Tree, parent: Option<nat>): (c: nat)
    requires HasChild(t, parent)
    ensures IsFirst(t, parent, c)
  {
    FirstExists(t, parent);
    var c :| IsFirst(t, parent, c);
    c
  }

  /** The preferred message if it is a child here, otherwise the oldest child; roots have no parent. */
  ghost function Prefer(t: Tree, parent: Option<nat>, preferred: Option<nat>): (c: Option<nat>)
    ensures c.None? <==> !HasChild(t, parent)
    ensures c.Some? ==> IsChild(t, parent, c.value)
    ensures c.Some? ==> c == preferred || IsOldest(t, parent, c.value)
    ensures preferred.Some? && preferred.value in t && t[preferred.value].parent == parent ==> c == preferred
  {
    assert preferred.Some? && preferred.value in t && t[preferred.value].parent == parent ==>
             IsChild(t, parent, preferred.value);
    if !HasChild(t, parent) then None
    else if preferred.Some? && IsChild(t, parent, preferred.value) then preferred
    else
      FirstIsOldest(t, parent, First(t, parent));
      Some(First(t, parent))
  }

  ghost function Next(t: Tree, id: nat): (c: Option<nat>)
    requires id in t
    ensures c.Some? ==> IsChild(t, Some(id), c.value)
  {
    Prefer(t, Some(id), t[id].activeChild)
  }

  // ---------------------------------------------------------------------------------------------
  // Paths
  // ---------------------------------------------------------------------------------------------

  /** Each message is the parent of the next. */
  ghost predicate Descends(t: Tree, path: seq<nat>) {
    && (forall k :: 0 <= k < |path| ==> path[k] in t)
    && forall k :: 1 <= k < |path| ==> t[path[k]].parent == Some(path[k - 1])
  }

  /** A chain of messages from a root. */
  ghost predicate FromRoot(t: Tree, path: seq<nat>) {
    path != [] && Descends(t, path) && t[path[0]].parent == None
  }

  ghost predicate RootPath(t: Tree, target: nat, path: seq<nat>) {
    FromRoot(t, path) && path[|path| - 1] == target
  }

  /** From position `from` on, every message is followed by its active (or oldest) child. */
  ghost predicate Follows(t: Tree, path: seq<nat>, from: nat) {
    Descends(t, path) && forall k :: from < k < |path| ==> Next(t, path[k - 1]) == Some(path[k])
  }

  ghost predicate EndsAtLeaf(t: Tree, path: seq<nat>) {
    path != [] && path[|path| - 1] in t && !HasChild(t, Some(path[|path| - 1]))
  }

  ghost predicate NoRepeats(path: seq<nat>) {
    forall i, j :: 0 <= i < j < |path| ==> path[i] != path[j]
  }

  /** The branch that is shown: from the active root along active children to a leaf. */
  ghost predicate CurrentPath(t: Tree, activeRoot: Option<nat>, path: seq<nat>) {
    var start := Prefer(t, None, activeRoot);
    if start.None? then path == []
    else path != [] && path[0] == start.value && Follows(t, path, 0) && EndsAtLeaf(t, path)
  }

  /** The chain from a root to the message, then along active children to a leaf. */
  ghost predicate PathThrough(t: Tree, m: nat, j: nat, path: seq<nat>) {
    && j < |path| && RootPath(t, m, path[..j + 1])
    && Follows(t, path, j) && EndsAtLeaf(t, path)
  }

  ghost predicate Rooted(t: Tree, m: nat) {
    exists path :: RootPath(t, m, path)
  }

  /** Chains from a root never meet themselves, cycles elsewhere notwithstanding. */
  lemma {:induction false} FromRootNoRepeats(t: Tree, path: seq<nat>)
    requires FromRoot(t, path)
    ensures NoRepeats(path)
  {
    forall i, j | 0 <= i < j < |path| ensures path[i] != path[j] {
      RootDistance(t, path, i, j);
    }
  }

  lemma {:induction false} RootDistance(t: Tree, path: seq<nat>, i: nat, j: nat)
    requires FromRoot(t, path) && i < j < |path|
    ensures path[i] != path[j]
    decreases i
  {
    assert t[path[j]].parent == Some(path[j - 1]);
    if i > 0 {
      assert t[path[i]].parent == Some(path[i - 1]);
      RootDistance(t, path, i - 1, j - 1);
    }
  }

  /** Two chains from roots that end in the same message are the same. */
  lemma {:induction false} RootPathUnique(t: Tree, m: nat, p: seq<nat>, q: seq<nat>)
    requires RootPath(t, m, p) && RootPath(t, m, q)
    ensures p == q
    decreases |p|
  {
    assert |p| > 1 ==> t[p[|p| - 1]].parent == Some(p[|p| - 2]);
    assert |q| > 1 ==> t[q[|q| - 1]].parent == Some(q[|q| - 2]);
    if |p| > 1 && |q| > 1 {
      RootPathUnique(t, p[|p| - 2], p[..|p| - 1], q[..|q| - 1]);
      assert p == p[..|p| - 1] + [m] && q == q[..|q| - 1] + [m];
    }
  }

  /** A walk along active children to a leaf is determined by where it starts. */
  lemma {:induction false} WalkUnique(t: Tree, p: seq<nat>, q: seq<nat>, k: nat)
    requires Follows(t, p, 0) && Follows(t, q, 0) && EndsAtLeaf(t, p) && EndsAtLeaf(t, q) && p[0] == q[0]
    requires k < |p|
    ensures k < |q| && p[k] == q[k]
  {
    if k > 0 {
      WalkUnique(t, p, q, k - 1);
      assert Next(t, p[k - 1]) == Some(p[k]);
      assert k < |q| ==> Next(t, q[k - 1]) == Some(q[k]);
    }
  }

  lemma CurrentPathUnique(t: Tree, activeRoot: Option<nat>, p: seq<nat>, q: seq<nat>)
    requires CurrentPath(t, activeRoot, p) && CurrentPath(t, activeRoot, q)
    ensures p == q
  {
    if Prefer(t, None, activeRoot).Some? {
      WalkUnique(t, p, q, |p| - 1);
      WalkUnique(t, q, p, |q| - 1);
      forall k | 0 <= k < |p| ensures p[k] == q[k] {
        WalkUnique(t, p, q, k);
      }
    }
  }

  // ---------------------------------------------------------------------------------------------
  // Computing them
  // ---------------------------------------------------------------------------------------------

  ghost predicate Sorted(t: Tree, ids: seq<nat>) {
    && (forall i :: 0 <= i < |ids| ==> ids[i] in t)
    && forall i, j :: 0 <= i < j < |ids| ==> Before(t, ids[i], ids[j])
  }

  method SortIds(t: Tree) returns (order: seq<nat>)
    ensures Sorted(t, order) && forall id :: id in order <==> id in t
  {
    order := [];
    var rest := t.Keys;
    while rest != {}
      invariant rest <= t.Keys
      invariant Sorted(t, order)
      invariant forall id :: id in order <==> id in t && id !in rest
    {
      var id :| id in rest;
      rest := rest - {id};
      var i := |order|;
      while i > 0 && Before(t, id, order[i - 1])
        invariant 0 <= i <= |order|
        invariant forall j :: i <= j < |order| ==> Before(t, id, order[j])
      {
        i := i - 1;
      }
      forall j | 0 <= j < i ensures Before(t, order[j], id) {
        assert order[j] in order;
        assert j < i - 1 ==> Before(t, order[j], order[i - 1]);
      }
      order := order[..i] + [id] + order[i..];
    }
  }

  type ChildLists = map<Option<nat>, seq<nat>>

  ghost predicate Lists(t: Tree, children: ChildLists) {
    forall p ::
      && (p in children <==> HasChild(t, p))
      && (p in children ==> Sorted(t, children[p]) && forall c :: c in children[p] <==> IsChild(t, p, c))
  }

  ghost predicate ListsPrefix(t: Tree, order: seq<nat>, children: ChildLists) {
    forall p ::
      && ListsOf(t, order, p, if p in children then children[p] else [])
      && (p in children ==> children[p] != [])
  }

  /** Oldest first, ties broken by id. */
  ghost predicate OldestFirst(t: Tree, ids: seq<nat>) {
    forall i, j :: 0 <= i < j < |ids| ==>
                     && ids[i] in t && ids[j] in t
                     && (t[ids[i]].createdAt < t[ids[j]].createdAt
                         || (t[ids[i]].createdAt == t[ids[j]].createdAt && ids[i] < ids[j]))
  }

  method IndexMessages(t: Tree) returns (children: ChildLists)
    ensures Lists(t, children)
    ensures forall p :: p in children ==> OldestFirst(t, children[p])
  {
    var order := SortIds(t);
    children := map[];
    for i := 0 to |order|
      invariant ListsPrefix(t, order[..i], children)
    {
      children := AddChild(t, order, i, children);
    }
    assert order[..|order|] == order;
    forall p ensures p in children <==> HasChild(t, p) {
      assert ListsOf(t, order, p, if p in children then children[p] else []);
      if p in children {
        assert children[p][0] in children[p];
      }
    }
  }

  /** The children of one parent among the first `n` messages, in order. */
  ghost predicate ListsOf(t: Tree, order: seq<nat>, parent: Option<nat>, list: seq<nat>) {
    Sorted(t, list) && forall c :: c in list <==> c in order && IsChild(t, parent, c)
  }

  lemma ListGrows(t: Tree, order: seq<nat>, i: nat, list: seq<nat>)
    requires Sorted(t, order) && i < |order| && ListsOf(t, order[..i], t[order[i]].parent, list)
    ensures ListsOf(t, order[..i + 1], t[order[i]].parent, list + [order[i]])
  {
    assert order[..i + 1] == order[..i] + [order[i]];
    forall c | c in list ensures Before(t, c, order[i]) {
      var j :| 0 <= j < i && order[j] == c;
    }
  }

  lemma ListStays(t: Tree, order: seq<nat>, i: nat, parent: Option<nat>, list: seq<nat>)
    requires Sorted(t, order) && i < |order| && parent != t[order[i]].parent
    requires ListsOf(t, order[..i], parent, list)
    ensures ListsOf(t, order[..i + 1], parent, list)
  {
    assert order[..i + 1] == order[..i] + [order[i]];
  }

  method AddChild(t: Tree, order: seq<nat>, i: nat, children: ChildLists) returns (r: ChildLists)
    requires Sorted(t, order) && i < |order| && ListsPrefix(t, order[..i], children)
    ensures ListsPrefix(t, order[..i + 1], r)
  {
    var id := order[i];
    var parent := t[id].parent;
    var siblings := if parent in children then children[parent] else [];
    r := children[parent := siblings + [id]];
    forall p ensures ListsOf(t, order[..i + 1], p, if p in r then r[p] else []) && (p in r ==> r[p] != []) {
      if p == parent {
        ListGrows(t, order, i, siblings);
      } else {
        ListStays(t, order, i, p, if p in children then children[p] else []);
      }
    }
  }

  method PickChild(t: Tree, children: ChildLists, parent: Option<nat>, preferred: Option<nat>)
    returns (c: Option<nat>)
    requires Lists(t, children)
    ensures c == Prefer(t, parent, preferred)
  {
    if parent !in children {
      return None;
    }
    var list := children[parent];
    for i := 0 to |list|
      invariant forall j :: 0 <= j < i ==> Some(list[j]) != preferred
    {
      if Some(list[i]) == preferred {
        assert list[i] in list;
        return preferred;
      }
    }
    assert forall c :: c in list ==> Some(c) != preferred;
    var d :| IsChild(t, parent, d);
    assert d in list;
    assert IsFirst(t, parent, list[0]) by {
      assert list[0] in list;
    }
    return Some(list[0]);
  }

  /** The next step of a walk from a root is never a repetition, so its guard never fires. */
  lemma StepIsNew(t: Tree, path: seq<nat>, c: nat)
    requires FromRoot(t, path) && IsChild(t, Some(path[|path| - 1]), c)
    ensures c !in path && FromRoot(t, path + [c])
  {
    FromRootNoRepeats(t, path + [c]);
    forall k | 0 <= k < |path| ensures path[k] != c {
      assert (path + [c])[k] == path[k] && (path + [c])[|path|] == c;
    }
  }

  lemma {:induction false} WithinTree(t: Tree, path: seq<nat>)
    requires NoRepeats(path) && forall k :: 0 <= k < |path| ==> path[k] in t
    ensures |path| <= |t.Keys|
  {
    if path != [] {
      var n := |path| - 1;
      WithinTree(map id | id in t && id != path[n] :: t[id], path[..n]);
      assert (map id | id in t && id != path[n] :: t[id]).Keys == t.Keys - {path[n]};
    }
  }

  /** Follows active children down to a leaf, from the end of a chain that starts at a root. */
  method WalkDown(t: Tree, children: ChildLists, start: seq<nat>) returns (path: seq<nat>)
    requires Lists(t, children) && FromRoot(t, start)
    ensures FromRoot(t, path) && EndsAtLeaf(t, path) && NoRepeats(path)
    ensures |start| <= |path| && path[..|start|] == start && Follows(t, path, |start| - 1)
  {
    path := start;
    var current := path[|path| - 1];
    var visited := set id <- path;
    FromRootNoRepeats(t, path);
    WithinTree(t, path);
    while true
      invariant FromRoot(t, path) && NoRepeats(path) && current == path[|path| - 1]
      invariant visited == set id <- path
      invariant |start| <= |path| <= |t.Keys| && path[..|start|] == start && Follows(t, path, |start| - 1)
      decreases |t.Keys| - |path|
    {
      var c := PickChild(t, children, Some(current), t[current].activeChild);
      if c.None? {
        break;
      }
      StepIsNew(t, path, c.value);
      FromRootNoRepeats(t, path + [c.value]);
      WithinTree(t, path + [c.value]);
      current := c.value;
      if current in visited {
        break;
      }
      visited := visited + {current};
      path := path + [current];
    }
  }

  method CurrentBranch(t: Tree, activeRoot: Option<nat>) returns (path: seq<nat>)
    ensures CurrentPath(t, activeRoot, path) && NoRepeats(path)
  {
    var children := IndexMessages(t);
    var start := PickChild(t, children, None, activeRoot);
    if start.None? {
      return [];
    }
    path := WalkDown(t, children, [start.value]);
    assert path[..1][0] == path[0];
  }

  function Reversed(s: seq<nat>): (r: seq<nat>)
    ensures |r| == |s| && forall i :: 0 <= i < |s| ==> r[i] == s[|s| - 1 - i]
  {
    if s == [] then [] else Reversed(s[1..]) + [s[0]]
  }

  /** The links climbed so far are the end of any chain from a root to the target. */
  ghost predicate ClimbsWithin(climbed: seq<nat>, q: seq<nat>) {
    |climbed| <= |q| && forall k :: 0 <= k < |climbed| ==> climbed[k] == q[|q| - 1 - k]
  }

  ghost predicate Climbs(t: Tree, target: nat, climbed: seq<nat>) {
    && (forall k :: 0 <= k < |climbed| ==> climbed[k] in t)
    && (climbed != [] ==> climbed[0] == target)
    && forall k :: 1 <= k < |climbed| ==> t[climbed[k - 1]].parent == Some(climbed[k])
  }

  lemma ClimbOneMore(t: Tree, target: nat, climbed: seq<nat>, next: nat, q: seq<nat>)
    requires RootPath(t, target, q) && ClimbsWithin(climbed, q) && Climbs(t, target, climbed) && next in t
    requires if climbed == [] then next == target else t[climbed[|climbed| - 1]].parent == Some(next)
    ensures ClimbsWithin(climbed + [next], q) && next !in climbed
  {
    FromRootNoRepeats(t, q);
    var n := |q| - |climbed|;
    assert climbed != [] ==> climbed[|climbed| - 1] == q[n] && (n > 0 ==> t[q[n]].parent == Some(q[n - 1]));
    forall k | 0 <= k < |climbed| ensures climbed[k] != next {
      assert climbed[k] == q[|q| - 1 - k] && next == q[n - 1];
    }
  }

  ghost predicate AllWithin(t: Tree, target: nat, climbed: seq<nat>) {
    forall q :: RootPath(t, target, q) ==> ClimbsWithin(climbed, q)
  }

  function Present(t: Tree, id: Option<nat>): Option<nat> {
    if id.Some? && id.value in t then id else None
  }

  function Members(ids: seq<nat>): set<nat> {
    set id <- ids
  }

  /** The message to climb to: the target at first, then the parent, if that message is there. */
  function Above(t: Tree, target: nat, climbed: seq<nat>): Option<nat>
    requires Climbs(t, target, climbed)
  {
    Present(t, if climbed == [] then Some(target) else t[climbed[|climbed| - 1]].parent)
  }

  lemma ClimbStep(t: Tree, target: nat, climbed: seq<nat>, next: nat)
    requires Climbs(t, target, climbed) && AllWithin(t, target, climbed) && Above(t, target, climbed) == Some(next)
    ensures Climbs(t, target, climbed + [next]) && AllWithin(t, target, climbed + [next])
    ensures Above(t, target, climbed + [next]) == Present(t, t[next].parent)
    ensures Members(climbed + [next]) == Members(climbed) + {next}
  {
    forall q | RootPath(t, target, q) ensures ClimbsWithin(climbed + [next], q) {
      ClimbOneMore(t, target, climbed, next, q);
    }
  }

  /** A climb towards a root can only stop there. */
  lemma ClimbEndsAtRoot(t: Tree, target: nat, climbed: seq<nat>, q: seq<nat>)
    requires RootPath(t, target, q) && Climbs(t, target, climbed) && ClimbsWithin(climbed, q)
    requires var next := Above(t, target, climbed); next.None? || next.value in climbed
    ensures climbed != [] && t[climbed[|climbed| - 1]].parent.None?
  {
    if climbed != [] && t[climbed[|climbed| - 1]].parent.Some? {
      var n := |q| - |climbed|;
      assert climbed[|climbed| - 1] == q[n] && (n > 0 ==> t[q[n]].parent == Some(q[n - 1]));
      ClimbOneMore(t, target, climbed, q[n - 1], q);
    }
  }

  lemma NotRooted(t: Tree, target: nat, climbed: seq<nat>)
    requires Climbs(t, target, climbed) && AllWithin(t, target, climbed)
    requires var next := Above(t, target, climbed); next.None? || next.value in climbed
    requires climbed == [] || t[climbed[|climbed| - 1]].parent.Some?
    ensures !Rooted(t, target)
  {
    forall q ensures !RootPath(t, target, q) {
      if RootPath(t, target, q) {
        ClimbEndsAtRoot(t, target, climbed, q);
      }
    }
  }

  lemma ClimbedPath(t: Tree, target: nat, climbed: seq<nat>)
    requires climbed != [] && Climbs(t, target, climbed) && t[climbed[|climbed| - 1]].parent == None
    ensures RootPath(t, target, Reversed(climbed))
  {
    var path := Reversed(climbed);
    forall k | 1 <= k < |path| ensures t[path[k]].parent == Some(path[k - 1]) {
      assert path[k] == climbed[|climbed| - 1 - k] && path[k - 1] == climbed[|climbed| - k];
    }
  }

  /** The chain from a root to the target, or nothing if climbing from it does not reach a root. */
  method PathTo(t: Tree, target: nat) returns (path: seq<nat>)
    ensures if Rooted(t, target) then RootPath(t, target, path) else path == []
  {
    var climbed: seq<nat> := [];
    var visited: set<nat> := {};
    var current := if target in t then Some(target) else None;
    while current.Some? && current.value !in visited
      invariant visited <= t.Keys && visited == Members(climbed)
      invariant Climbs(t, target, climbed) && AllWithin(t, target, climbed)
      invariant current == Above(t, target, climbed)
      decreases t.Keys - visited
    {
      ClimbStep(t, target, climbed, current.value);
      visited := visited + {current.value};
      climbed := climbed + [current.value];
      var parent := t[current.value].parent;
      current := if parent.Some? && parent.value in t then parent else None;
    }
    if climbed == [] || t[climbed[|climbed| - 1]].parent.Some? {
      NotRooted(t, target, climbed);
      return [];
    }
    ClimbedPath(t, target, climbed);
    return Reversed(climbed);
  }

  method BranchThrough(t: Tree, target: nat) returns (path: seq<nat>)
    ensures if Rooted(t, target) then exists j: nat :: PathThrough(t, target, j, path) else path == []
    ensures NoRepeats(path)
  {
    var children := IndexMessages(t);
    var start := PathTo(t, target);
    if start == [] {
      return [];
    }
    path := WalkDown(t, children, start);
    assert PathThrough(t, target, |start| - 1, path);
  }

  // ---------------------------------------------------------------------------------------------
  // Switching branches
  // ---------------------------------------------------------------------------------------------

  function SetActive(t: Tree, id: nat, child: nat): Tree {
    if id in t then t[id := t[id].(activeChild := Some(child))] else t
  }

  /** Points the first `n` messages of the path at their successors. */
  function Redirect(t: Tree, path: seq<nat>, n: nat): Tree
    requires n < |path|
  {
    if n == 0 then t else SetActive(Redirect(t, path, n - 1), path[n - 1], path[n])
  }

  /** What switching to the message at the end of a chain from a root leaves. */
  function Switched(t: Tree, path: seq<nat>): Tree
    requires path != []
  {
    Redirect(t, path, |path| - 1)
  }

  ghost predicate SameShape(t: Tree, t': Tree) {
    t'.Keys == t.Keys && forall id :: id in t ==> t'[id].createdAt == t[id].createdAt && t'[id].parent == t[id].parent
  }

  lemma {:induction false} RedirectShape(t: Tree, path: seq<nat>, n: nat)
    requires n < |path|
    ensures SameShape(t, Redirect(t, path, n))
  {
    if n > 0 {
      RedirectShape(t, path, n - 1);
    }
  }

  lemma {:induction false} RedirectOthers(t: Tree, path: seq<nat>, n: nat, id: nat)
    requires n < |path| && id in t && id !in path[..n]
    ensures id in Redirect(t, path, n) && Redirect(t, path, n)[id] == t[id]
  {
    if n > 0 {
      assert path[..n] == path[..n - 1] + [path[n - 1]];
      RedirectOthers(t, path, n - 1, id);
    }
  }

  lemma {:induction false} RedirectPoints(t: Tree, path: seq<nat>, n: nat, k: nat)
    requires k < n < |path| && NoRepeats(path) && path[k] in t
    ensures path[k] in Redirect(t, path, n) && Redirect(t, path, n)[path[k]].activeChild == Some(path[k + 1])
  {
    if k < n - 1 {
      RedirectPoints(t, path, n - 1, k);
    } else {
      RedirectShape(t, path, n - 1);
    }
  }

  /** The preference among children depends on who they are and when they were created. */
  lemma PreferSame(t: Tree, t': Tree, parent: Option<nat>, preferred: Option<nat>)
    requires forall c :: IsChild(t, parent, c) <==> IsChild(t', parent, c)
    requires forall c :: IsChild(t, parent, c) && IsChild(t', parent, c) ==> t'[c].createdAt == t[c].createdAt
    ensures HasChild(t, parent) <==> HasChild(t', parent)
    ensures Prefer(t, parent, preferred) == Prefer(t', parent, preferred)
  {
    if HasChild(t, parent) {
      var c :| IsChild(t, parent, c);
      assert IsChild(t', parent, c);
      var a, b := First(t, parent), First(t', parent);
      assert IsChild(t', parent, a) && IsChild(t, parent, b);
      assert a == b;
    }
  }

  lemma ShapeKeepsPreference(t: Tree, t': Tree, parent: Option<nat>, preferred: Option<nat>)
    requires SameShape(t, t')
    ensures HasChild(t, parent) <==> HasChild(t', parent)
    ensures Prefer(t, parent, preferred) == Prefer(t', parent, preferred)
  {
    PreferSame(t, t', parent, preferred);
  }

  /** After switching to a message, the branch shown is the earlier branch through it. */
  lemma SwitchShowsBranchThrough(t: Tree, m: nat, j: nat, path: seq<nat>)
    requires PathThrough(t, m, j, path)
    ensures CurrentPath(Switched(t, path[..j + 1]), Some(path[0]), path) && NoRepeats(path)
  {
    var q := path[..j + 1];
    var t' := Switched(t, q);
    assert FromRoot(t, path) by {
      assert q[0] == path[0];
    }
    FromRootNoRepeats(t, path);
    RedirectShape(t, q, j);
    assert Prefer(t', None, Some(path[0])) == Some(path[0]) by {
      assert IsChild(t', None, path[0]);
    }
    forall k | 0 < k < |path|
      ensures Next(t', path[k - 1]) == Some(path[k]) && t'[path[k]].parent == Some(path[k - 1])
    {
      var id := path[k - 1];
      assert t[path[k]].parent == Some(path[k - 1]);
      assert IsChild(t', Some(id), path[k]);
      if k <= j {
        assert q[k - 1] == id && q[k] == path[k];
        RedirectPoints(t, q, j, k - 1);
      } else {
        RedirectOthers(t, q, j, id);
        ShapeKeepsPreference(t, t', Some(id), t[id].activeChild);
        assert Next(t, path[k - 1]) == Some(path[k]);
      }
    }
    ShapeKeepsPreference(t, t', Some(path[|path| - 1]), None);
  }

  /** The branch shown is the branch through each of its messages. */
  lemma ShownBranchIsThrough(t: Tree, activeRoot: Option<nat>, path: seq<nat>, j: nat)
    requires CurrentPath(t, activeRoot, path) && j < |path|
    ensures PathThrough(t, path[j], j, path)
  {
    assert path[..j + 1][0] == path[0];
  }

  /** Switching to a message that is already shown leaves the branch as it is. */
  lemma SwitchToShownKeepsBranch(t: Tree, activeRoot: Option<nat>, path: seq<nat>, j: nat, q: seq<nat>)
    requires CurrentPath(t, activeRoot, path) && j < |path| && RootPath(t, path[j], q)
    ensures CurrentPath(Switched(t, q), Some(q[0]), path)
  {
    ShownBranchIsThrough(t, activeRoot, path, j);
    RootPathUnique(t, path[j], q, path[..j + 1]);
    SwitchShowsBranchThrough(t, path[j], j, path);
  }

  // ---------------------------------------------------------------------------------------------
  // Appending
  // ---------------------------------------------------------------------------------------------

  ghost predicate Fresh(t: Tree, id: nat) {
    id !in t && !HasChild(t, Some(id))
  }

  function Point(t: Tree, parent: Option<nat>, child: nat): Tree {
    if parent.Some? then SetActive(t, parent.value, child) else t
  }

  /** A user message below the parent, and its answer. */
  function WithTurn(t: Tree, parent: Option<nat>, user: nat, userAt: int, answer: nat, answerAt: int): Tree {
    Point(WithPair(t, parent, user, userAt, answer, answerAt), parent, user)
  }

  function WithPair(t: Tree, parent: Option<nat>, user: nat, userAt: int, answer: nat, answerAt: int): Tree {
    SetActive(t[user := Row(userAt, parent, None)][answer := Row(answerAt, Some(user), None)], user, answer)
  }

  /** Another answer to the same user message. */
  function WithAnswer(t: Tree, parent: nat, answer: nat, answerAt: int): Tree {
    Point(t[answer := Row(answerAt, Some(parent), None)], Some(parent), answer)
  }

  /** Messages added below `parent`: the others keep their place, and only `parent` changes its pointer. */
  ghost predicate Extends(t: Tree, t': Tree, parent: Option<nat>) {
    && t.Keys <= t'.Keys
    && (forall id :: id in t ==> t'[id].createdAt == t[id].createdAt && t'[id].parent == t[id].parent)
    && (forall id :: id in t && Some(id) != parent ==> t'[id] == t[id])
    && (forall id :: id in t' && id !in t ==>
                       t'[id].parent == parent || (t'[id].parent.Some? && t'[id].parent.value !in t))
  }

  lemma ExtendsKeepsNext(t: Tree, t': Tree, parent: Option<nat>, id: nat)
    requires Extends(t, t', parent) && id in t && Some(id) != parent
    ensures Next(t', id) == Next(t, id)
  {
    PreferSame(t, t', Some(id), t[id].activeChild);
  }

  /** The shown branch up to the parent survives the addition. */
  lemma ExtendsKeepsPrefix(t: Tree, t': Tree, activeRoot: Option<nat>, path: seq<nat>, j: nat)
    requires CurrentPath(t, activeRoot, path) && j < |path| && Extends(t, t', Some(path[j]))
    ensures Prefer(t', None, activeRoot) == Some(path[0]) && Follows(t', path[..j + 1], 0)
  {
    PreferSame(t, t', None, activeRoot);
    assert FromRoot(t, path);
    FromRootNoRepeats(t, path);
    forall k | 0 < k <= j ensures Next(t', path[k - 1]) == Some(path[k]) && t'[path[k]].parent == Some(path[k - 1]) {
      ExtendsKeepsNext(t, t', Some(path[j]), path[k - 1]);
      assert Next(t, path[k - 1]) == Some(path[k]);
    }
  }

  /** A turn appended at a shown message extends the branch up to it by exactly the new messages. */
  lemma TurnExtendsBranch(t: Tree, activeRoot: Option<nat>, path: seq<nat>, j: nat, user: nat, userAt: int,
                          answer: nat, answerAt: int)
    requires CurrentPath(t, activeRoot, path) && j < |path|
    requires Fresh(t, user) && Fresh(t, answer) && user != answer
    ensures CurrentPath(WithTurn(t, Some(path[j]), user, userAt, answer, answerAt), activeRoot,
                        path[..j + 1] + [user, answer])
  {
    var t' := WithTurn(t, Some(path[j]), user, userAt, answer, answerAt);
    assert Extends(t, t', Some(path[j]));
    ExtendsKeepsPrefix(t, t', activeRoot, path, j);
    var r := path[..j + 1] + [user, answer];
    assert IsChild(t', Some(path[j]), user) && IsChild(t', Some(user), answer);
    forall k | 0 < k < |r| ensures Next(t', r[k - 1]) == Some(r[k]) && t'[r[k]].parent == Some(r[k - 1]) {
      if k <= j {
        assert r[k - 1] == path[..j + 1][k - 1] && r[k] == path[..j + 1][k];
      }
    }
    forall c ensures !IsChild(t', Some(answer), c) {
      assert !IsChild(t, Some(answer), c);
    }
  }

  /** A turn without a parent starts a branch of its own and shows it. */
  lemma TurnStartsBranch(t: Tree, user: nat, userAt: int, answer: nat, answerAt: int)
    requires Fresh(t, user) && Fresh(t, answer) && user != answer
    ensures CurrentPath(WithTurn(t, None, user, userAt, answer, answerAt), Some(user), [user, answer])
  {
    var t' := WithTurn(t, None, user, userAt, answer, answerAt);
    assert IsChild(t', None, user) && IsChild(t', Some(user), answer);
    forall c ensures !IsChild(t', Some(answer), c) {
      assert !IsChild(t, Some(answer), c);
    }
  }

  /** Another answer to a shown user message replaces what followed it. */
  lemma AnswerExtendsBranch(t: Tree, activeRoot: Option<nat>, path: seq<nat>, j: nat, answer: nat, answerAt: int)
    requires CurrentPath(t, activeRoot, path) && j < |path| && Fresh(t, answer)
    ensures CurrentPath(WithAnswer(t, path[j], answer, answerAt), activeRoot, path[..j + 1] + [answer])
  {
    var t' := WithAnswer(t, path[j], answer, answerAt);
    assert Extends(t, t', Some(path[j]));
    ExtendsKeepsPrefix(t, t', activeRoot, path, j);
    var r := path[..j + 1] + [answer];
    assert IsChild(t', Some(path[j]), answer);
    forall k | 0 < k < |r| ensures Next(t', r[k - 1]) == Some(r[k]) && t'[r[k]].parent == Some(r[k - 1]) {
      if k <= j {
        assert r[k - 1] == path[..j + 1][k - 1] && r[k] == path[..j + 1][k];
      }
    }
    forall c ensures !IsChild(t', Some(answer), c) {
      assert !IsChild(t, Some(answer), c);
    }
  }

  // ---------------------------------------------------------------------------------------------
  // The records
  // ---------------------------------------------------------------------------------------------

  /** Every message of the path points at the next one, and nothing else has changed. */
  ghost predicate PointsAlong(t: Tree, t': Tree, path: seq<nat>) {
    && path != [] && t'.Keys == t.Keys
    && (forall k :: 0 <= k < |path| - 1 ==>
                      path[k] in t && t'[path[k]] == t[path[k]].(activeChild := Some(path[k + 1])))
    && forall id :: id in t && id !in path[..|path| - 1] ==> t'[id] == t[id]
  }

  lemma SwitchedPoints(t: Tree, path: seq<nat>)
    requires FromRoot(t, path)
    ensures PointsAlong(t, Switched(t, path), path)
  {
    var n := |path| - 1;
    FromRootNoRepeats(t, path);
    RedirectShape(t, path, n);
    forall k | 0 <= k < n ensures Switched(t, path)[path[k]] == t[path[k]].(activeChild := Some(path[k + 1])) {
      RedirectPoints(t, path, n, k);
    }
    forall id | id in t && id !in path[..n] ensures Switched(t, path)[id] == t[id] {
      RedirectOthers(t, path, n, id);
    }
  }

  /** The two messages of a turn are there, and apart from the parent's pointer nothing else has changed. */
  ghost predicate AddsTurn(t: Tree, t': Tree, parent: Option<nat>, user: nat, userAt: int, answer: nat, answerAt: int) {
    && t'.Keys == t.Keys + {user, answer}
    && t'[user] == Row(userAt, parent, Some(answer))
    && t'[answer] == Row(answerAt, Some(user), None)
    && (forall id :: id in t && Some(id) != parent ==> t'[id] == t[id])
    && (parent.Some? && parent.value in t ==> t'[parent.value] == t[parent.value].(activeChild := Some(user)))
  }

  lemma TurnAdds(t: Tree, parent: Option<nat>, user: nat, userAt: int, answer: nat, answerAt: int)
    requires user !in t && answer !in t && user != answer && (parent.Some? ==> parent.value in t)
    ensures AddsTurn(t, WithTurn(t, parent, user, userAt, answer, answerAt), parent, user, userAt, answer, answerAt)
  {
  }

  class Message {
    const id: nat
    const createdAt: int
    const parent: Option<nat>
    var activeChild: Option<nat>

    constructor (id: nat, createdAt: int, parent: Option<nat>, activeChild: Option<nat>)
      ensures this.id == id && this.createdAt == createdAt && this.parent == parent
      ensures this.activeChild == activeChild
    {
      this.id, this.createdAt, this.parent, this.activeChild := id, createdAt, parent, activeChild;
    }
  }

  class Conversation {
    var messages: map<nat, Message>
    var activeRoot: Option<nat>

    constructor ()
      ensures Valid() && Rows() == map[] && activeRoot == None
    {
      messages, activeRoot := map[], None;
    }

    ghost predicate Valid()
      reads this
    {
      forall id :: id in messages ==> messages[id].id == id
    }

    function Rows(): (t: Tree)
      reads this, messages.Values
    {
      map id | id in messages :: Row(messages[id].createdAt, messages[id].parent, messages[id].activeChild)
    }

    /** Points the message with this id at a child. */
    method SetActiveChild(id: nat, child: nat)
      requires Valid() && id in messages
      modifies messages[id]
      ensures Rows() == SetActive(old(Rows()), id, child)
    {
      messages[id].activeChild := Some(child);
    }

    /** Shows the branch of a message; fails when the message does not reach a root. */
    method UpdateActiveBranch(target: nat) returns (ok: bool)
      requires Valid()
      modifies this`activeRoot, messages.Values
      ensures Valid() && (ok <==> Rooted(old(Rows()), target))
      ensures !ok ==> Rows() == old(Rows()) && activeRoot == old(activeRoot)
      ensures ok ==> exists path ::
                  && RootPath(old(Rows()), target, path)
                  && activeRoot == Some(path[0]) && Rows() == Switched(old(Rows()), path)
                  && PointsAlong(old(Rows()), Rows(), path)
    {
      ghost var t := Rows();
      var path := PathTo(Rows(), target);
      if path == [] {
        return false;
      }
      activeRoot := Some(path[0]);
      for k := 1 to |path|
        invariant activeRoot == Some(path[0]) && Rows() == Redirect(t, path, k - 1)
      {
        RedirectKeys(t, path, k - 1);
        SetActiveChild(path[k - 1], path[k]);
      }
      SwitchedPoints(t, path);
      return true;
    }

    method Add(m: Message)
      requires Valid() && m.id !in messages
      modifies this`messages
      ensures Valid() && messages == old(messages)[m.id := m]
      ensures Rows() == old(Rows())[m.id := Row(m.createdAt, m.parent, m.activeChild)]
    {
      messages := messages[m.id := m];
    }

    /** Stores a user message and its answer below the parent, or as a new root, and shows them. */
    method AppendTurn(parent: Option<nat>, user: nat, userAt: int, answer: nat, answerAt: int)
      requires Valid() && (parent.Some? ==> parent.value in messages)
      requires user !in messages && answer !in messages && user != answer
      modifies this, messages.Values
      ensures Valid() && Rows() == WithTurn(old(Rows()), parent, user, userAt, answer, answerAt)
      ensures AddsTurn(old(Rows()), Rows(), parent, user, userAt, answer, answerAt)
      ensures activeRoot == if parent.None? then Some(user) else old(activeRoot)
    {
      TurnAdds(Rows(), parent, user, userAt, answer, answerAt);
      AddPair(parent, user, userAt, answer, answerAt);
      if parent.None? {
        activeRoot := Some(user);
      } else {
        SetActiveChild(parent.value, user);
      }
    }

    /** A user message below the parent, pointing at its answer. */
    method AddPair(parent: Option<nat>, user: nat, userAt: int, answer: nat, answerAt: int)
      requires Valid() && user !in messages && answer !in messages && user != answer
      modifies this`messages
      ensures Valid() && Rows() == WithPair(old(Rows()), parent, user, userAt, answer, answerAt)
      ensures old(messages).Keys <= messages.Keys
      ensures forall id :: id in messages ==>
                             (id in old(messages) && messages[id] == old(messages)[id]) || fresh(messages[id])
    {
      var userRecord := new Message(user, userAt, parent, None);
      Add(userRecord);
      var answerRecord := new Message(answer, answerAt, Some(user), None);
      Add(answerRecord);
      SetActiveChild(user, answer);
    }

    /** Stores another answer to a user message and shows it. */
    method Regenerate(parent: nat, answer: nat, answerAt: int)
      requires Valid() && parent in messages && answer !in messages
      modifies this`messages, messages.Values
      ensures Valid() && Rows() == WithAnswer(old(Rows()), parent, answer, answerAt)
      ensures Rows() == old(Rows())[answer := Row(answerAt, Some(parent), None)][
                  parent := old(Rows())[parent].(activeChild := Some(answer))]
    {
      var answerRecord := new Message(answer, answerAt, Some(parent), None);
      Add(answerRecord);
      SetActiveChild(parent, answer);
    }
  }

  lemma {:induction false} RedirectKeys(t: Tree, path: seq<nat>, n: nat)
    requires n < |path|
    ensures Redirect(t, path, n).Keys == t.Keys
  {
    if n > 0 {
      RedirectKeys(t, path, n - 1);
    }
  }
}
