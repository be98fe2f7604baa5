/**
 Every interleaving of admissions, claims, heartbeats, late finishes and deletions by any number of
 workers. A claim may be replayed by anyone at any time: nothing below assumes it is still current.
 */
module ScreeningProtocol {
  import opened Options
  import opened ScreeningStore
  import E = Evidence
  import T = Transcript

  datatype Event =
    | Admit(screening: nat, targets: seq<(nat, nat)>)
    | ClaimGroup(screening: nat, conversation: nat, now: int, token: nat)
    | Renewal(claim: Claim, now: int)
    | Failure(claim: Claim, error: ErrorCode)
    | Finish(claim: Claim, work: Work, concerns: seq<E.Concern>, source: Source, authorized: bool,
             rows: seq<StoredFinding>)
    | DeleteMessages(messages: set<nat>)

  /** One accepted result: the rows it screened and the findings it stored. */
  datatype Commit = Commit(claim: Claim, held: set<nat>, rows: seq<StoredFinding>)

  // `issued`, `commits` and `grants` record the past; no transaction reads them.
  datatype World = World(
    items: seq<Item>,
    findings: seq<StoredFinding>,
    issued: set<nat>,
    commits: seq<Commit>,
    grants: multiset<(nat, nat)>
  )

  const EMPTY := World([], [], {}, [], multiset{})

  function Fresh(screening: nat, targets: seq<(nat, nat)>, from: nat): (r: seq<Item>)
    ensures |r| == |targets|
    ensures forall k :: 0 <= k < |targets| ==>
                          && r[k].message == Some(targets[k].0) && r[k].conversation == targets[k].1
                          && r[k].status == Queued && r[k].attempts == 0
  {
    seq(|targets|, k requires 0 <= k < |targets| =>
      Item(from + k, screening, targets[k].1, Some(targets[k].0), Queued, 0, None, None, None, None))
  }

  ghost function HeldIds(items: seq<Item>, claim: Claim): set<nat> {
    set x | x in items && Selects(HeldBy(claim), x) :: x.id
  }

  function Forget(items: seq<Item>, messages: set<nat>): (r: seq<Item>)
    ensures |r| == |items|
  {
    seq(|items|, i requires 0 <= i < |items| =>
      if items[i].message.Some? && items[i].message.value in messages then items[i].(message := None) else items[i])
  }

  /** The findings whose source message is still there. */
  function Surviving(fs: seq<StoredFinding>, messages: set<nat>): seq<StoredFinding> {
    if fs == [] then []
    else
      var n := |fs| - 1;
      Surviving(fs[..n], messages) + if fs[n].concern.key.messageId in messages then [] else [fs[n]]
  }

  /** What the database's own constraints and fresh tokens guarantee about an event. */
  ghost predicate Enabled(w: World, e: Event) {
    match e
    case Admit(s, targets) =>
      && (forall x :: x in w.items ==> x.screening != s)
      && (forall j, k :: 0 <= j < k < |targets| ==> targets[j].0 != targets[k].0)
    case ClaimGroup(_, _, _, token) => token !in w.issued
    case Finish(claim, work, concerns, source, authorized, rows) =>
      FinishVerdict(w.items, claim, work, concerns, source, authorized).Accepted?
      ==> RowsMatch(rows, w.items, claim, concerns)
    case _ => true
  }

  ghost function Apply(w: World, e: Event): World {
    match e
    case Admit(s, targets) => w.(items := w.items + Fresh(s, targets, |w.items|))
    case ClaimGroup(s, c, now, token) =>
      w.(items := AfterClaim(w.items, s, c, now, token),
         issued := if ClaimGranted(w.items, s, c, now) then w.issued + {token} else w.issued,
         grants := if ClaimGranted(w.items, s, c, now) then w.grants + multiset{(s, c)} else w.grants)
    case Renewal(claim, now) => w.(items := Update(w.items, HeldBy(claim), Renew(now + LEASE_SECONDS)))
    case Failure(claim, error) => w.(items := Update(w.items, HeldBy(claim), Fail(error)))
    case Finish(claim, work, concerns, source, authorized, rows) =>
      var verdict := FinishVerdict(w.items, claim, work, concerns, source, authorized);
      var after := w.(items := AfterFinish(w.items, claim, work, verdict));
      if verdict.Accepted?
      then after.(findings := w.findings + rows,
                  commits := w.commits + [Commit(claim, HeldIds(w.items, claim), rows)])
      else after
    case DeleteMessages(ms) => w.(items := Forget(w.items, ms), findings := Surviving(w.findings, ms))
  }

  ghost function Step(w: World, e: Event): World {
    if Enabled(w, e) then Apply(w, e) else w
  }

  ghost function Run(w: World, events: seq<Event>): World
    decreases |events|
  {
    if events == [] then w else Run(Step(w, events[0]), events[1..])
  }

  // ---------------------------------------------------------------------------------------------
  // Leases
  // ---------------------------------------------------------------------------------------------

  ghost predicate SameLease(a: Item, b: Item) {
    a.status == b.status && a.attempts == b.attempts && a.token == b.token && a.leasedUntil == b.leasedUntil
  }

  ghost predicate SameGroup(a: Item, b: Item) {
    InGroup(a, b.screening, b.conversation) && b.message.Some?
  }

  /** The rows of a conversation move together: same status, token, attempts and lease. */
  ghost predicate Uniform(items: seq<Item>) {
    forall i, j :: 0 <= i < |items| && 0 <= j < |items| && SameGroup(items[i], items[j])
                   ==> SameLease(items[i], items[j])
  }

  ghost predicate ItemOk(x: Item, w: World) {
    && (x.status == Running <==> x.token.Some?)
    && (x.status == Running <==> x.leasedUntil.Some?)
    && (x.token.Some? ==> x.token.value in w.issued)
    && x.attempts <= MAX_ATTEMPTS
    && (x.status == Queued ==> x.attempts == 0)
    && (x.message.Some? ==> x.attempts == w.grants[(x.screening, x.conversation)])
  }

  /** A token belongs to one group. */
  ghost predicate TokensOwned(items: seq<Item>) {
    forall i, j :: 0 <= i < |items| && 0 <= j < |items| && items[i].token.Some? && items[i].token == items[j].token
                   ==> items[i].screening == items[j].screening && items[i].conversation == items[j].conversation
  }

  ghost predicate Admitted(items: seq<Item>, screening: nat) {
    exists i :: 0 <= i < |items| && items[i].screening == screening
  }

  ghost predicate GrantsBounded(w: World) {
    forall g :: g in w.grants ==> w.grants[g] <= MAX_ATTEMPTS && Admitted(w.items, g.0)
  }

  ghost predicate ItemsOk(w: World) {
    forall i :: 0 <= i < |w.items| ==> w.items[i].id == i && ItemOk(w.items[i], w)
  }

  ghost predicate LeaseInv(w: World) {
    && ItemsOk(w)
    && Uniform(w.items)
    && TokensOwned(w.items)
    && OneRowPerMessage(w.items)
    && GrantsBounded(w)
  }

  /** Rows are never removed or re-addressed; they can only lose their message. */
  ghost predicate Evolves(a: seq<Item>, b: seq<Item>) {
    |a| <= |b| && forall i :: 0 <= i < |a| ==>
                              && b[i].screening == a[i].screening && b[i].conversation == a[i].conversation
                              && (b[i].message == a[i].message || b[i].message == None)
  }

  lemma AdmittedStays(a: seq<Item>, b: seq<Item>, s: nat)
    requires Evolves(a, b) && Admitted(a, s)
    ensures Admitted(b, s)
  {
    var i :| 0 <= i < |a| && a[i].screening == s;
    assert b[i].screening == s;
  }

  lemma RowsStayUnique(a: seq<Item>, b: seq<Item>)
    requires Evolves(a, b) && |a| == |b| && OneRowPerMessage(a)
    ensures OneRowPerMessage(b)
  {
  }

  lemma UpdateKeepsUniform(items: seq<Item>, sel: Selector, change: Change)
    requires Uniform(items)
    ensures Uniform(Update(items, sel, change))
  {
    var r := Update(items, sel, change);
    forall i, j | 0 <= i < |r| && 0 <= j < |r| && SameGroup(r[i], r[j]) ensures SameLease(r[i], r[j]) {
      assert SameGroup(items[i], items[j]);
    }
  }

  lemma UpdateEvolves(items: seq<Item>, sel: Selector, change: Change)
    ensures Evolves(items, Update(items, sel, change))
  {
  }

  lemma GrantsStay(w: World, w': World)
    requires GrantsBounded(w) && Evolves(w.items, w'.items) && w'.grants == w.grants
    ensures GrantsBounded(w')
  {
    forall g | g in w'.grants ensures Admitted(w'.items, g.0) {
      AdmittedStays(w.items, w'.items, g.0);
    }
  }

  /** An update by the holder of a claim that hands out no token. */
  lemma HeldUpdateKeepsLeaseInv(w: World, claim: Claim, change: Change, w': World)
    requires LeaseInv(w) && !change.Lease?
    requires w'.items == Update(w.items, HeldBy(claim), change) && w'.issued == w.issued && w'.grants == w.grants
    ensures LeaseInv(w')
  {
    UpdateKeepsUniform(w.items, HeldBy(claim), change);
    UpdateEvolves(w.items, HeldBy(claim), change);
    RowsStayUnique(w.items, w'.items);
    GrantsStay(w, w');
    TokensStayOwned(w.items, HeldBy(claim), change);
    assert ItemsOk(w');
  }

  /** A group with one row within its attempts has no row beyond them. */
  lemma GroupAgrees(w: World, i: nat, j: nat)
    requires LeaseInv(w) && i < |w.items| && j < |w.items| && SameGroup(w.items[i], w.items[j])
    ensures SameLease(w.items[i], w.items[j])
  {
  }

  lemma FailedItemsOk(w: World, sel: Selector, error: ErrorCode, w': World)
    requires ItemsOk(w) && w' == w.(items := Update(w.items, sel, Fail(error)))
    ensures ItemsOk(w')
  {
    forall i | 0 <= i < |w'.items| ensures w'.items[i].id == i && ItemOk(w'.items[i], w') {
      assert ItemOk(w.items[i], w);
    }
  }

  /** An update that hands out no token. */
  lemma TokensStayOwned(items: seq<Item>, sel: Selector, change: Change)
    requires TokensOwned(items) && !change.Lease?
    ensures TokensOwned(Update(items, sel, change))
  {
    var r := Update(items, sel, change);
    forall i | 0 <= i < |r| ensures TokenKept(items[i], r[i]) {
    }
  }

  ghost predicate TokenKept(x: Item, x': Item) {
    x'.screening == x.screening && x'.conversation == x.conversation && (x'.token == x.token || x'.token == None)
  }

  lemma ExhaustedClaimKeepsLeaseInv(w: World, s: nat, c: nat, w': World)
    requires LeaseInv(w)
    requires w' == w.(items := Update(w.items, PendingIn(s, c), Fail(WorkerInterrupted)))
    ensures LeaseInv(w')
  {
    UpdateKeepsUniform(w.items, PendingIn(s, c), Fail(WorkerInterrupted));
    UpdateEvolves(w.items, PendingIn(s, c), Fail(WorkerInterrupted));
    RowsStayUnique(w.items, w'.items);
    GrantsStay(w, w');
    FailedItemsOk(w, PendingIn(s, c), WorkerInterrupted, w');
    TokensStayOwned(w.items, PendingIn(s, c), Fail(WorkerInterrupted));
  }

  /** Every live row of a group with a pending row is pending. */
  lemma PendingTogether(w: World, s: nat, c: nat, i: nat)
    requires LeaseInv(w) && Any(w.items, PendingIn(s, c)) && i < |w.items| && InGroup(w.items[i], s, c)
    ensures Selects(PendingIn(s, c), w.items[i])
  {
    var y :| y in w.items && Selects(PendingIn(s, c), y);
    var n :| 0 <= n < |w.items| && w.items[n] == y;
    GroupAgrees(w, i, n);
  }

  lemma GrantedItemsOk(w: World, s: nat, c: nat, now: int, token: nat, w': World)
    requires LeaseInv(w) && ClaimGranted(w.items, s, c, now) && token !in w.issued
    requires w' == Apply(w, ClaimGroup(s, c, now, token))
    ensures ItemsOk(w')
  {
    forall i | 0 <= i < |w.items| ensures w'.items[i].id == i && ItemOk(w'.items[i], w') {
      var x := w.items[i];
      assert ItemOk(x, w);
      if InGroup(x, s, c) {
        PendingTogether(w, s, c, i);
        assert x in w.items;
      }
    }
  }

  lemma GrantedTokensOwned(w: World, s: nat, c: nat, now: int, token: nat)
    requires LeaseInv(w) && token !in w.issued
    ensures TokensOwned(Update(w.items, PendingIn(s, c), Lease(token, now + LEASE_SECONDS)))
  {
    forall i | 0 <= i < |w.items| ensures w.items[i].token != Some(token) {
      assert ItemOk(w.items[i], w);
    }
  }

  lemma GrantedStaysBounded(w: World, s: nat, c: nat, now: int, token: nat, w': World)
    requires LeaseInv(w) && ClaimGranted(w.items, s, c, now) && Evolves(w.items, w'.items)
    requires w'.grants == w.grants + multiset{(s, c)}
    ensures GrantsBounded(w')
  {
    var y :| y in w.items && Selects(PendingIn(s, c), y);
    var n :| 0 <= n < |w.items| && w.items[n] == y;
    assert ItemOk(w.items[n], w);
    assert Admitted(w.items, s);
    forall g | g in w'.grants ensures w'.grants[g] <= MAX_ATTEMPTS && Admitted(w'.items, g.0) {
      AdmittedStays(w.items, w'.items, g.0);
    }
  }

  lemma GrantedClaimKeepsLeaseInv(w: World, s: nat, c: nat, now: int, token: nat, w': World)
    requires LeaseInv(w) && ClaimGranted(w.items, s, c, now) && token !in w.issued
    requires w' == Apply(w, ClaimGroup(s, c, now, token))
    ensures LeaseInv(w')
  {
    var sel, change := PendingIn(s, c), Lease(token, now + LEASE_SECONDS);
    UpdateKeepsUniform(w.items, sel, change);
    UpdateEvolves(w.items, sel, change);
    RowsStayUnique(w.items, w'.items);
    GrantedItemsOk(w, s, c, now, token, w');
    GrantedTokensOwned(w, s, c, now, token);
    GrantedStaysBounded(w, s, c, now, token, w');
  }

  lemma UnadmittedIsUngranted(w: World, s: nat, c: nat)
    requires LeaseInv(w) && forall x :: x in w.items ==> x.screening != s
    ensures w.grants[(s, c)] == 0
  {
    assert (s, c) in w.grants ==> Admitted(w.items, s);
  }

  lemma AdmittedItemsOk(w: World, s: nat, targets: seq<(nat, nat)>, w': World)
    requires LeaseInv(w) && Enabled(w, Admit(s, targets)) && w' == Apply(w, Admit(s, targets))
    ensures ItemsOk(w') && TokensOwned(w'.items)
  {
    var n := |w.items|;
    forall i | 0 <= i < |w'.items| ensures w'.items[i].id == i && ItemOk(w'.items[i], w') {
      if i < n {
        assert w'.items[i] == w.items[i];
      } else {
        UnadmittedIsUngranted(w, s, targets[i - n].1);
      }
    }
    forall i | 0 <= i < |w'.items| && w'.items[i].token.Some? ensures i < n {
    }
  }

  lemma AdmittedRows(w: World, s: nat, targets: seq<(nat, nat)>, w': World)
    requires LeaseInv(w) && Enabled(w, Admit(s, targets)) && w' == Apply(w, Admit(s, targets))
    ensures Uniform(w'.items) && OneRowPerMessage(w'.items)
  {
    var n := |w.items|;
    forall i | 0 <= i < n ensures w'.items[i] == w.items[i] && w'.items[i].screening != s {
      assert w.items[i] in w.items;
    }
    forall i, j | 0 <= i < |w'.items| && 0 <= j < |w'.items| && SameGroup(w'.items[i], w'.items[j])
      ensures SameLease(w'.items[i], w'.items[j])
    {
      if i < n && j < n {
        GroupAgrees(w, i, j);
      }
    }
    forall i, j | 0 <= i < j < |w'.items| && w'.items[i].screening == w'.items[j].screening
      ensures w'.items[i].message.Some? ==> w'.items[i].message != w'.items[j].message
    {
      if i >= n {
        assert targets[i - n].0 != targets[j - n].0;
      }
    }
  }

  lemma AdmitKeepsLeaseInv(w: World, s: nat, targets: seq<(nat, nat)>, w': World)
    requires LeaseInv(w) && Enabled(w, Admit(s, targets)) && w' == Apply(w, Admit(s, targets))
    ensures LeaseInv(w')
  {
    AdmittedItemsOk(w, s, targets, w');
    AdmittedRows(w, s, targets, w');
    assert forall i :: 0 <= i < |w.items| ==> w'.items[i] == w.items[i];
    GrantsStay(w, w');
  }

  lemma ForgottenUniform(items: seq<Item>, ms: set<nat>)
    requires Uniform(items)
    ensures Uniform(Forget(items, ms))
  {
    var r := Forget(items, ms);
    forall i, j | 0 <= i < |r| && 0 <= j < |r| && SameGroup(r[i], r[j]) ensures SameLease(r[i], r[j]) {
      assert SameGroup(items[i], items[j]);
    }
  }

  lemma ForgottenItemsOk(w: World, ms: set<nat>, w': World)
    requires ItemsOk(w) && TokensOwned(w.items)
    requires w'.items == Forget(w.items, ms) && w'.issued == w.issued && w'.grants == w.grants
    ensures ItemsOk(w') && TokensOwned(w'.items)
  {
    forall i | 0 <= i < |w'.items|
      ensures w'.items[i].id == i && ItemOk(w'.items[i], w') && TokenKept(w.items[i], w'.items[i])
    {
      assert ItemOk(w.items[i], w);
    }
  }

  lemma ForgottenEvolves(items: seq<Item>, ms: set<nat>)
    ensures Evolves(items, Forget(items, ms))
  {
  }

  lemma DeleteKeepsLeaseInv(w: World, ms: set<nat>, w': World)
    requires LeaseInv(w)
    requires w'.items == Forget(w.items, ms) && w'.issued == w.issued && w'.grants == w.grants
    ensures LeaseInv(w')
  {
    ForgottenUniform(w.items, ms);
    ForgottenItemsOk(w, ms, w');
    ForgottenEvolves(w.items, ms);
    RowsStayUnique(w.items, w'.items);
    GrantsStay(w, w');
  }

  lemma StepKeepsLeaseInv(w: World, e: Event)
    requires LeaseInv(w)
    ensures LeaseInv(Step(w, e))
  {
    if Enabled(w, e) {
      var w' := Apply(w, e);
      match e
      case Admit(s, targets) => AdmitKeepsLeaseInv(w, s, targets, w');
      case ClaimGroup(s, c, now, token) =>
        if ClaimGranted(w.items, s, c, now) {
          GrantedClaimKeepsLeaseInv(w, s, c, now, token, w');
        } else if GroupIsFree(w.items, s, c, now) {
          ExhaustedClaimKeepsLeaseInv(w, s, c, w');
        }
      case Renewal(claim, now) => HeldUpdateKeepsLeaseInv(w, claim, Renew(now + LEASE_SECONDS), w');
      case Failure(claim, error) => HeldUpdateKeepsLeaseInv(w, claim, Fail(error), w');
      case Finish(claim, work, concerns, source, authorized, rows) =>
        match FinishVerdict(w.items, claim, work, concerns, source, authorized) {
          case Abandoned =>
          case Refused(error) => HeldUpdateKeepsLeaseInv(w, claim, Fail(error), w');
          case Accepted => HeldUpdateKeepsLeaseInv(w, claim, Screen(work.inputHash), w');
        }
      case DeleteMessages(ms) => DeleteKeepsLeaseInv(w, ms, w');
    }
  }

  lemma {:induction false} RunKeepsLeaseInv(w: World, events: seq<Event>)
    requires LeaseInv(w)
    ensures LeaseInv(Run(w, events))
    decreases |events|
  {
    if events != [] {
      StepKeepsLeaseInv(w, events[0]);
      RunKeepsLeaseInv(Step(w, events[0]), events[1..]);
    }
  }

  /** In every reachable state the live rows of a group share one lease, within the attempt limit. */
  lemma GroupsMoveTogether(events: seq<Event>)
    ensures var w := Run(EMPTY, events);
            && Uniform(w.items)
            && (forall x :: x in w.items ==> x.attempts <= MAX_ATTEMPTS && (x.status == Running <==> x.token.Some?))
            && (forall g :: w.grants[g] <= MAX_ATTEMPTS)
  {
    RunKeepsLeaseInv(EMPTY, events);
    var w := Run(EMPTY, events);
    forall x | x in w.items ensures ItemOk(x, w) {
      var i :| 0 <= i < |w.items| && w.items[i] == x;
    }
    forall g ensures w.grants[g] <= MAX_ATTEMPTS {
      assert g in w.grants || w.grants[g] == 0;
    }
  }

  /** A granted claim leaves no live pending row of its group without the new token. */
  lemma ClaimTakesWholeGroup(w: World, s: nat, c: nat, now: int, token: nat)
    requires LeaseInv(w) && ClaimGranted(w.items, s, c, now)
    ensures var r := AfterClaim(w.items, s, c, now, token);
            forall i :: 0 <= i < |r| && InGroup(r[i], s, c) ==>
                          && r[i].status == Running && r[i].token == Some(token)
                          && r[i].leasedUntil == Some(now + LEASE_SECONDS)
                          && r[i].attempts == w.items[i].attempts + 1
  {
    forall i | 0 <= i < |w.items| && InGroup(w.items[i], s, c) ensures Selects(PendingIn(s, c), w.items[i]) {
      PendingTogether(w, s, c, i);
    }
  }

  // ---------------------------------------------------------------------------------------------
  // No group is claimed forever
  // ---------------------------------------------------------------------------------------------

  function Rank(x: Item): nat {
    match x.status
    case Queued => MAX_ATTEMPTS + 1
    case Running => if x.attempts <= MAX_ATTEMPTS then MAX_ATTEMPTS + 1 - x.attempts else 1
    case _ => 0
  }

  /** Everything an event can do to one row. */
  ghost predicate RowMove(x: Item, x': Item, e: Event) {
    x' == x ||
    match e
    case Admit(_, _) => false
    case ClaimGroup(s, c, now, token) =>
      Selects(PendingIn(s, c), x) &&
      (x' == Changed(x, Fail(WorkerInterrupted))
       || (x.attempts < MAX_ATTEMPTS && x' == Changed(x, Lease(token, now + LEASE_SECONDS))))
    case Renewal(claim, now) => Selects(HeldBy(claim), x) && x' == Changed(x, Renew(now + LEASE_SECONDS))
    case Failure(claim, error) => Selects(HeldBy(claim), x) && x' == Changed(x, Fail(error))
    case Finish(claim, work, _, _, _, _) =>
      Selects(HeldBy(claim), x) &&
      (x' == Changed(x, Screen(work.inputHash)) || (x'.error.Some? && x' == Changed(x, Fail(x'.error.value))))
    case DeleteMessages(ms) => x' == x.(message := None)
  }

  lemma RowMoves(w: World, e: Event, i: nat)
    requires i < |w.items|
    ensures i < |Step(w, e).items| && RowMove(w.items[i], Step(w, e).items[i], e)
  {
    assert w.items[i] in w.items;
  }

  lemma MoveLowersRank(x: Item, x': Item, e: Event)
    requires RowMove(x, x', e) && x.attempts <= MAX_ATTEMPTS && (x.status == Queued ==> x.attempts == 0)
    ensures Rank(x') <= Rank(x)
    ensures x'.status != x.status || x'.attempts != x.attempts ==> Rank(x') < Rank(x)
  {
  }

  /** No event raises the rank of a row, and every change of status or attempts lowers it. */
  lemma RankFalls(w: World, e: Event, i: nat)
    requires LeaseInv(w) && i < |w.items|
    ensures i < |Step(w, e).items|
    ensures var x, x' := w.items[i], Step(w, e).items[i];
            && Rank(x') <= Rank(x)
            && (x'.status != x.status || x'.attempts != x.attempts ==> Rank(x') < Rank(x))
  {
    assert ItemOk(w.items[i], w);
    RowMoves(w, e, i);
    MoveLowersRank(w.items[i], Step(w, e).items[i], e);
  }

  /** When a row is claimable, claiming its group always changes it: the queue cannot get stuck. */
  lemma ClaimableMakesProgress(w: World, i: nat, now: int, token: nat)
    requires LeaseInv(w) && i < |w.items| && Claimable(w.items[i], now, {})
    ensures var x := w.items[i];
            var r := AfterClaim(w.items, x.screening, x.conversation, now, token)[i];
            && Rank(r) < Rank(x)
            && (r.status == Failed || (r.status == Running && r.token == Some(token)))
            && (r.status == Failed <==> x.attempts == MAX_ATTEMPTS)
  {
    var x := w.items[i];
    var s, c := x.screening, x.conversation;
    assert x in w.items && ItemOk(x, w);
    assert Selects(PendingIn(s, c), x);
    forall y | y in w.items && Selects(PendingIn(s, c), y)
      ensures !LeaseIsLive(y, now) && y.attempts == x.attempts
    {
      var n :| 0 <= n < |w.items| && w.items[n] == y;
      GroupAgrees(w, n, i);
    }
  }

  // ---------------------------------------------------------------------------------------------
  // Fencing
  // ---------------------------------------------------------------------------------------------

  /** The token was handed out and no row runs under it any more. */
  ghost predicate Superseded(w: World, token: nat) {
    token in w.issued && forall i :: 0 <= i < |w.items| && w.items[i].message.Some? ==> w.items[i].token != Some(token)
  }

  lemma MoveTakesNoOldToken(x: Item, x': Item, e: Event, token: nat)
    requires RowMove(x, x', e) && (e.ClaimGroup? ==> e.token != token)
    requires x'.message.Some? && (x.message.Some? ==> x.token != Some(token))
    ensures x'.token != Some(token)
  {
  }

  lemma SupersededForGood(w: World, token: nat, e: Event)
    requires LeaseInv(w) && Superseded(w, token)
    ensures Superseded(Step(w, e), token)
  {
    var w' := Step(w, e);
    if Enabled(w, e) {
      forall i | 0 <= i < |w'.items| && w'.items[i].message.Some? ensures w'.items[i].token != Some(token) {
        if i < |w.items| {
          RowMoves(w, e, i);
          MoveTakesNoOldToken(w.items[i], w'.items[i], e, token);
        }
      }
    }
  }

  lemma {:induction false} SupersededAlong(w: World, token: nat, events: seq<Event>)
    requires LeaseInv(w) && Superseded(w, token)
    ensures Superseded(Run(w, events), token)
    decreases |events|
  {
    if events != [] {
      SupersededForGood(w, token, events[0]);
      StepKeepsLeaseInv(w, events[0]);
      SupersededAlong(Step(w, events[0]), token, events[1..]);
    }
  }

  /** The events a holder of the token can cause. */
  predicate ActsFor(e: Event, token: nat) {
    match e
    case Renewal(claim, _) => claim.token == token
    case Failure(claim, _) => claim.token == token
    case Finish(claim, _, _, _, _, _) => claim.token == token
    case _ => false
  }

  lemma SupersededIsInert(w: World, token: nat, e: Event)
    requires Superseded(w, token) && ActsFor(e, token)
    ensures Step(w, e) == w
  {
    var claim := e.claim;
    assert !Any(w.items, HeldBy(claim));
    forall change ensures Update(w.items, HeldBy(claim), change) == w.items {
      forall i | 0 <= i < |w.items| ensures !Selects(HeldBy(claim), w.items[i]) {
        assert w.items[i] in w.items;
      }
    }
  }

  /** Claiming a group again supersedes the token it ran under. */
  lemma ReclaimSupersedes(w: World, s: nat, c: nat, now: int, token: nat, i: nat)
    requires LeaseInv(w) && ClaimGranted(w.items, s, c, now) && token !in w.issued
    requires i < |w.items| && InGroup(w.items[i], s, c) && w.items[i].token.Some?
    ensures Superseded(Step(w, ClaimGroup(s, c, now, token)), w.items[i].token.value)
  {
    var w' := Step(w, ClaimGroup(s, c, now, token));
    assert ItemOk(w.items[i], w);
    ClaimTakesWholeGroup(w, s, c, now, token);
  }

  /**
   Once another worker has reclaimed a group, whatever the earlier holder still does, however late
   and whatever happened in between, changes nothing.
   */
  lemma LateWorkersAreFenced(
    before: seq<Event>, s: nat, c: nat, now: int, token: nat, i: nat, after: seq<Event>, late: Event)
    requires var w := Run(EMPTY, before);
             && ClaimGranted(w.items, s, c, now) && token !in w.issued
             && i < |w.items| && InGroup(w.items[i], s, c) && w.items[i].token.Some?
             && ActsFor(late, w.items[i].token.value)
    ensures var w' := Run(Step(Run(EMPTY, before), ClaimGroup(s, c, now, token)), after);
            Step(w', late) == w'
  {
    RunKeepsLeaseInv(EMPTY, before);
    var w := Run(EMPTY, before);
    var old' := w.items[i].token.value;
    ReclaimSupersedes(w, s, c, now, token, i);
    StepKeepsLeaseInv(w, ClaimGroup(s, c, now, token));
    SupersededAlong(Step(w, ClaimGroup(s, c, now, token)), old', after);
    SupersededIsInert(Run(Step(w, ClaimGroup(s, c, now, token)), after), old', late);
  }

  // ---------------------------------------------------------------------------------------------
  // Exclusion
  // ---------------------------------------------------------------------------------------------

  /** The row runs under this token, with a lease that reaches at least `until`. */
  ghost predicate LeasedTo(x: Item, token: nat, until: int) {
    x.status == Running && x.token == Some(token) && x.leasedUntil.Some? && x.leasedUntil.value >= until
  }

  /** Not the holder letting go, and no claim attempted after the lease. */
  predicate WithinLease(e: Event, token: nat, until: int) {
    && (e.ClaimGroup? ==> e.now <= until)
    && (ActsFor(e, token) ==> e.Renewal? && e.now + 90 >= until)
  }

  lemma LeaseHoldsOneStep(w: World, i: nat, token: nat, until: int, e: Event)
    requires LeaseInv(w) && i < |w.items| && LeasedTo(w.items[i], token, until) && WithinLease(e, token, until)
    ensures i < |Step(w, e).items| && LeasedTo(Step(w, e).items[i], token, until)
  {
    RowMoves(w, e, i);
    var x := w.items[i];
    if e.ClaimGroup? && Selects(PendingIn(e.screening, e.conversation), x) {
      assert x in w.items && LeaseIsLive(x, e.now);
      assert GroupIsLeased(w.items, e.screening, e.conversation, e.now);
    }
  }

  /** Until its lease runs out, or its holder lets go, nobody can take a row from a worker. */
  lemma {:induction false} LeaseExcludesOthers(w: World, i: nat, token: nat, until: int, events: seq<Event>)
    requires LeaseInv(w) && i < |w.items| && LeasedTo(w.items[i], token, until)
    requires forall e :: e in events ==> WithinLease(e, token, until)
    ensures i < |Run(w, events).items| && LeasedTo(Run(w, events).items[i], token, until)
    decreases |events|
  {
    if events != [] {
      LeaseHoldsOneStep(w, i, token, until, events[0]);
      StepKeepsLeaseInv(w, events[0]);
      LeaseExcludesOthers(Step(w, events[0]), i, token, until, events[1..]);
    }
  }

  /** What the events of the workers do to the rows, on their fields. */
  lemma EventsMean(w: World, e: Event)
    requires Enabled(w, e)
    ensures e.Renewal? ==> Renews(w.items, Step(w, e).items, e.claim, e.now)
    ensures e.Failure? ==> FailsHeld(w.items, Step(w, e).items, e.claim, e.error)
    ensures e.ClaimGroup? && Any(w.items, PendingIn(e.screening, e.conversation)) ==>
              Took(w.items, Step(w, e).items, e.screening, e.conversation, e.now, e.token,
                   if ClaimGranted(w.items, e.screening, e.conversation, e.now)
                   then Some(Claim(e.screening, e.conversation, e.token)) else None)
    ensures e.Finish? ==> Finished(w.items, Step(w, e).items, e.claim, e.work, e.concerns, e.source, e.authorized,
                                   |Step(w, e).commits| > |w.commits|)
  {
    match e
    case Renewal(claim, now) => HeldMeans(w.items, claim, [], AccessChanged, now);
    case Failure(claim, error) => HeldMeans(w.items, claim, [], error, 0);
    case ClaimGroup(s, c, now, token) =>
      if Any(w.items, PendingIn(s, c)) {
        ClaimMeans(w.items, s, c, now, token);
      }
    case Finish(claim, work, concerns, source, authorized, _) =>
      FinishMeans(w.items, claim, work, concerns, source, authorized);
    case _ =>
  }

  /**
   A heartbeat secures the row for 90 more seconds, whatever lease it had before: until then nobody can
   take it, unless its holder lets go.
   */
  lemma RenewalSecuresTheLease(w: World, i: nat, claim: Claim, now: int, events: seq<Event>)
    requires LeaseInv(w) && i < |w.items| && IsHeld(w.items[i], claim)
    requires forall e :: e in events ==> WithinLease(e, claim.token, now + 90)
    ensures var renewed := Step(w, Renewal(claim, now));
            && i < |renewed.items| && renewed.items[i] == w.items[i].(leasedUntil := Some(now + 90))
            && i < |Run(renewed, events).items| && LeasedTo(Run(renewed, events).items[i], claim.token, now + 90)
  {
    EventsMean(w, Renewal(claim, now));
    StepKeepsLeaseInv(w, Renewal(claim, now));
    LeaseExcludesOthers(Step(w, Renewal(claim, now)), i, claim.token, now + 90, events);
  }

  /** A granted claim secures every row of its group for 90 seconds. */
  lemma ClaimSecuresTheLease(w: World, i: nat, s: nat, c: nat, now: int, token: nat, events: seq<Event>)
    requires LeaseInv(w) && i < |w.items| && IsPending(w.items[i], s, c) && token !in w.issued
    requires !SomeoneWorks(w.items, s, c, now) && !AttemptsSpent(w.items, s, c)
    requires forall e :: e in events ==> WithinLease(e, token, now + 90)
    ensures var claimed := Step(w, ClaimGroup(s, c, now, token));
            i < |Run(claimed, events).items| && LeasedTo(Run(claimed, events).items[i], token, now + 90)
  {
    var e := ClaimGroup(s, c, now, token);
    assert w.items[i] in w.items && Selects(PendingIn(s, c), w.items[i]);
    EventsMean(w, e);
    StepKeepsLeaseInv(w, e);
    LeaseExcludesOthers(Step(w, e), i, token, now + 90, events);
  }

  /** Once its lease has run out, a row is up for taking, and a claim of its group takes it. */
  lemma ExpiredLeasesAreTaken(w: World, i: nat, now: int, token: nat)
    requires LeaseInv(w) && i < |w.items| && w.items[i].message.Some? && w.items[i].status == Running
    requires w.items[i].leasedUntil.Some? && w.items[i].leasedUntil.value < now
    requires w.items[i].attempts < 3 && token !in w.issued
    ensures MayBeTaken(w.items[i], now, {})
    ensures var x, r := w.items[i], Step(w, ClaimGroup(w.items[i].screening, w.items[i].conversation, now, token));
            && i < |r.items|
            && r.items[i] == x.(attempts := x.attempts + 1, token := Some(token), leasedUntil := Some(now + 90))
  {
    var x := w.items[i];
    var s, c := x.screening, x.conversation;
    assert x.leasedUntil == Some(x.leasedUntil.value);
    ClaimableMeans(x, now, {});
    assert x in w.items && Selects(PendingIn(s, c), x);
    forall y | y in w.items && Selects(PendingIn(s, c), y) ensures SameLease(y, x) {
      var n :| 0 <= n < |w.items| && w.items[n] == y;
      GroupAgrees(w, n, i);
    }
    EventsMean(w, ClaimGroup(s, c, now, token));
  }

  // ---------------------------------------------------------------------------------------------
  // Each row is screened once
  // ---------------------------------------------------------------------------------------------

  /** A screened row is final, except that deleting its message turns it into a tombstone. */
  lemma {:induction false} ScreenedIsFinal(w: World, events: seq<Event>, i: nat)
    requires LeaseInv(w) && i < |w.items| && w.items[i].status == Screened
    ensures var w' := Run(w, events);
            i < |w'.items| && (w'.items[i] == w.items[i] || w'.items[i] == w.items[i].(message := None))
    decreases |events|
  {
    if events != [] {
      RowMoves(w, events[0], i);
      StepKeepsLeaseInv(w, events[0]);
      ScreenedIsFinal(Step(w, events[0]), events[1..], i);
    }
  }

  function FindingsOf(fs: seq<StoredFinding>, id: nat): seq<StoredFinding> {
    if fs == [] then []
    else
      var n := |fs| - 1;
      FindingsOf(fs[..n], id) + if fs[n].itemId == id then [fs[n]] else []
  }

  /** The findings all accepted results together stored for a row. */
  function CommittedFor(commits: seq<Commit>, id: nat): seq<StoredFinding> {
    if commits == [] then []
    else
      var n := |commits| - 1;
      CommittedFor(commits[..n], id) + FindingsOf(commits[n].rows, id)
  }

  lemma {:induction false} FindingsOfConcat(a: seq<StoredFinding>, b: seq<StoredFinding>, id: nat)
    ensures FindingsOf(a + b, id) == FindingsOf(a, id) + FindingsOf(b, id)
  {
    if b == [] {
      assert a + b == a;
    } else {
      var n := |b| - 1;
      FindingsOfConcat(a, b[..n], id);
      assert (a + b)[..|a + b| - 1] == a + b[..n];
    }
  }

  lemma {:induction false} FindingsOfAbsent(fs: seq<StoredFinding>, id: nat)
    requires forall k :: 0 <= k < |fs| ==> fs[k].itemId != id
    ensures FindingsOf(fs, id) == []
  {
    if fs != [] {
      FindingsOfAbsent(fs[..|fs| - 1], id);
    }
  }

  lemma {:induction false} SurvivingMembers(fs: seq<StoredFinding>, ms: set<nat>)
    ensures forall f :: f in Surviving(fs, ms) <==> f in fs && f.concern.key.messageId !in ms
  {
    if fs != [] {
      var n := |fs| - 1;
      SurvivingMembers(fs[..n], ms);
      assert fs == fs[..n] + [fs[n]];
    }
  }

  /** Deleting messages keeps all the findings of a row whose message stays. */
  lemma {:induction false} SurvivingKeeps(fs: seq<StoredFinding>, ms: set<nat>, id: nat)
    requires forall k :: 0 <= k < |fs| && fs[k].itemId == id ==> fs[k].concern.key.messageId !in ms
    ensures FindingsOf(Surviving(fs, ms), id) == FindingsOf(fs, id)
  {
    if fs != [] {
      var n := |fs| - 1;
      SurvivingKeeps(fs[..n], ms, id);
      if fs[n].concern.key.messageId !in ms {
        FindingsOfConcat(Surviving(fs[..n], ms), [fs[n]], id);
        assert FindingsOf([fs[n]], id) == if fs[n].itemId == id then [fs[n]] else [];
      } else {
        assert Surviving(fs, ms) == Surviving(fs[..n], ms);
      }
    }
  }

  ghost predicate ScreenedBy(w: World, k: nat, id: nat) {
    k < |w.commits| && id in w.commits[k].held
  }

  ghost predicate CommitsInv(w: World) {
    && (forall k: nat, id: nat :: ScreenedBy(w, k, id) ==> id < |w.items| && w.items[id].status == Screened)
    && (forall j: nat, k: nat, id: nat :: ScreenedBy(w, j, id) && ScreenedBy(w, k, id) ==> j == k)
    && (forall i :: 0 <= i < |w.items| && w.items[i].status == Screened ==> exists k: nat :: ScreenedBy(w, k, i))
    && (forall k, n :: 0 <= k < |w.commits| && 0 <= n < |w.commits[k].rows|
                       ==> w.commits[k].rows[n].itemId in w.commits[k].held)
  }

  ghost predicate FindingOk(w: World, f: StoredFinding) {
    f.itemId < |w.items| && w.items[f.itemId].status == Screened
    && w.items[f.itemId].message == Some(f.concern.key.messageId)
  }

  ghost predicate FindingsInv(w: World) {
    && (forall n :: 0 <= n < |w.findings| ==> FindingOk(w, w.findings[n]))
    && (forall i :: 0 <= i < |w.items| && w.items[i].message.Some?
                    ==> FindingsOf(w.findings, i) == CommittedFor(w.commits, i))
  }

  ghost predicate StoreInv(w: World) {
    LeaseInv(w) && CommitsInv(w) && FindingsInv(w)
  }

  lemma QuietStatus(w: World, e: Event, i: nat)
    requires ItemsOk(w) && i < |w.items| && Step(w, e).commits == w.commits
    ensures i < |Step(w, e).items|
    ensures Step(w, e).items[i].status == Screened <==> w.items[i].status == Screened
  {
    assert ItemOk(w.items[i], w);
    RowMoves(w, e, i);
  }

  lemma RowsStay(w: World, e: Event)
    ensures |w.items| <= |Step(w, e).items|
  {
  }

  /** A row that comes with an event is queued. */
  lemma NewRowsAreQueued(w: World, e: Event, i: nat)
    requires |w.items| <= i < |Step(w, e).items|
    ensures Step(w, e).items[i].status == Queued
  {
  }

  /** Screened rows come and go only with an accepted result. */
  lemma QuietCommits(w: World, e: Event)
    requires LeaseInv(w) && CommitsInv(w) && Step(w, e).commits == w.commits
    ensures CommitsInv(Step(w, e))
  {
    var w' := Step(w, e);
    RowsStay(w, e);
    forall i: nat | i < |w'.items|
      ensures w'.items[i].status == Screened <==> i < |w.items| && w.items[i].status == Screened
    {
      if i < |w.items| {
        QuietStatus(w, e, i);
      } else {
        NewRowsAreQueued(w, e, i);
      }
    }
    SameCommits(w, w');
  }

  lemma SameCommits(w: World, w': World)
    requires CommitsInv(w) && w'.commits == w.commits && |w.items| <= |w'.items|
    requires forall i: nat :: i < |w'.items| ==>
                                (w'.items[i].status == Screened <==> i < |w.items| && w.items[i].status == Screened)
    ensures CommitsInv(w')
  {
    forall k: nat, id: nat ensures ScreenedBy(w', k, id) <==> ScreenedBy(w, k, id) {
    }
    forall i | 0 <= i < |w'.items| && w'.items[i].status == Screened ensures exists k: nat :: ScreenedBy(w', k, i) {
      var k: nat :| ScreenedBy(w, k, i);
      assert ScreenedBy(w', k, i);
    }
  }

  ghost predicate Accepts(w: World, e: Event) {
    && e.Finish? && Enabled(w, e)
    && FinishVerdict(w.items, e.claim, e.work, e.concerns, e.source, e.authorized).Accepted?
  }

  lemma HeldIdsAre(w: World, claim: Claim, id: nat)
    requires ItemsOk(w)
    ensures id in HeldIds(w.items, claim) <==> id < |w.items| && Selects(HeldBy(claim), w.items[id])
  {
    if id < |w.items| {
      assert w.items[id] in w.items && w.items[id].id == id;
    }
    if id in HeldIds(w.items, claim) {
      var x :| x in w.items && Selects(HeldBy(claim), x) && x.id == id;
      var i :| 0 <= i < |w.items| && w.items[i] == x;
    }
  }

  /** Who screened which row, once another result has been accepted. */
  lemma AcceptedScreens(w: World, e: Event, k: nat, id: nat)
    requires Accepts(w, e)
    ensures ScreenedBy(Step(w, e), k, id) <==>
            ScreenedBy(w, k, id) || (k == |w.commits| && id in HeldIds(w.items, e.claim))
  {
    AcceptedStep(w, e);
  }

  lemma AcceptedStatus(w: World, e: Event, id: nat)
    requires ItemsOk(w) && Accepts(w, e) && id < |w.items|
    ensures id < |Step(w, e).items|
    ensures Step(w, e).items[id].status == Screened <==>
            w.items[id].status == Screened || id in HeldIds(w.items, e.claim)
    ensures id in HeldIds(w.items, e.claim) ==> w.items[id].status != Screened
  {
    AcceptedStep(w, e);
    HeldIdsAre(w, e.claim, id);
  }

  lemma AcceptedScreensOnce(w: World, e: Event)
    requires ItemsOk(w) && CommitsInv(w) && Accepts(w, e)
    ensures forall k: nat, id: nat :: ScreenedBy(Step(w, e), k, id) ==>
                                        id < |Step(w, e).items| && Step(w, e).items[id].status == Screened
    ensures forall j: nat, k: nat, id: nat :: ScreenedBy(Step(w, e), j, id) && ScreenedBy(Step(w, e), k, id) ==> j == k
  {
    forall k: nat, id: nat | ScreenedBy(Step(w, e), k, id)
      ensures id < |Step(w, e).items| && Step(w, e).items[id].status == Screened
      ensures k < |w.commits| <==> id < |w.items| && w.items[id].status == Screened
    {
      AcceptedScreens(w, e, k, id);
      HeldIdsAre(w, e.claim, id);
      if id < |w.items| {
        AcceptedStatus(w, e, id);
      }
    }
    forall j: nat, k: nat, id: nat | ScreenedBy(Step(w, e), j, id) && ScreenedBy(Step(w, e), k, id) ensures j == k {
      AcceptedScreens(w, e, j, id);
      AcceptedScreens(w, e, k, id);
    }
  }

  lemma AcceptedScreensAll(w: World, e: Event, i: nat)
    requires ItemsOk(w) && CommitsInv(w) && Accepts(w, e)
    requires i < |Step(w, e).items| && Step(w, e).items[i].status == Screened
    ensures exists k: nat :: ScreenedBy(Step(w, e), k, i)
  {
    AcceptedStep(w, e);
    AcceptedStatus(w, e, i);
    if w.items[i].status == Screened {
      var k: nat :| ScreenedBy(w, k, i);
      AcceptedScreens(w, e, k, i);
    } else {
      AcceptedScreens(w, e, |w.commits|, i);
    }
  }

  lemma AcceptedRowsHeld(w: World, e: Event, m: nat)
    requires Accepts(w, e) && m < |e.rows|
    ensures e.rows[m].itemId in HeldIds(w.items, e.claim)
  {
    var x :| x in w.items && Selects(HeldBy(e.claim), x) && x.id == e.rows[m].itemId;
  }

  lemma AcceptedCommits(w: World, e: Event)
    requires LeaseInv(w) && CommitsInv(w) && Accepts(w, e)
    ensures CommitsInv(Step(w, e))
  {
    AcceptedScreensOnce(w, e);
    forall i | 0 <= i < |Step(w, e).items| && Step(w, e).items[i].status == Screened
      ensures exists k: nat :: ScreenedBy(Step(w, e), k, i)
    {
      AcceptedScreensAll(w, e, i);
    }
    AcceptedStep(w, e);
    forall m | 0 <= m < |e.rows| ensures e.rows[m].itemId in HeldIds(w.items, e.claim) {
      AcceptedRowsHeld(w, e, m);
    }
  }

  lemma QuietFindingOk(w: World, e: Event, f: StoredFinding)
    requires FindingOk(w, f) && ItemsOk(w)
    requires e.DeleteMessages? ==> f.concern.key.messageId !in e.messages
    ensures FindingOk(Step(w, e), f)
  {
    RowMoves(w, e, f.itemId);
    assert ItemOk(w.items[f.itemId], w);
  }

  /** A row that does not exist yet has no findings. */
  lemma NoFindingsAhead(w: World, i: nat)
    requires CommitsInv(w) && FindingsInv(w) && i >= |w.items|
    ensures FindingsOf(w.findings, i) == CommittedFor(w.commits, i) == []
  {
    FindingsOfAbsent(w.findings, i);
    forall k, n | 0 <= k < |w.commits| && 0 <= n < |w.commits[k].rows| ensures w.commits[k].rows[n].itemId != i {
      assert ScreenedBy(w, k, w.commits[k].rows[n].itemId);
    }
    CommittedForAbsent(w.commits, i);
  }

  lemma {:induction false} CommittedForAbsent(commits: seq<Commit>, id: nat)
    requires forall k, n :: 0 <= k < |commits| && 0 <= n < |commits[k].rows| ==> commits[k].rows[n].itemId != id
    ensures CommittedFor(commits, id) == []
  {
    if commits != [] {
      CommittedForAbsent(commits[..|commits| - 1], id);
      FindingsOfAbsent(commits[|commits| - 1].rows, id);
    }
  }

  /** When one commit alone speaks of a row, the row's findings are that commit's. */
  lemma {:induction false} CommittedOnce(commits: seq<Commit>, k: nat, id: nat)
    requires k < |commits|
    requires forall j, n :: 0 <= j < |commits| && j != k && 0 <= n < |commits[j].rows|
                            ==> commits[j].rows[n].itemId != id
    ensures CommittedFor(commits, id) == FindingsOf(commits[k].rows, id)
  {
    var n := |commits| - 1;
    if k == n {
      CommittedForAbsent(commits[..n], id);
    } else {
      CommittedOnce(commits[..n], k, id);
      FindingsOfAbsent(commits[n].rows, id);
    }
  }

  lemma QuietFindings(w: World, e: Event)
    requires StoreInv(w) && !Accepts(w, e) && !e.DeleteMessages?
    ensures FindingsInv(Step(w, e))
  {
    var w' := Step(w, e);
    assert w'.findings == w.findings && w'.commits == w.commits;
    forall n | 0 <= n < |w'.findings| ensures FindingOk(w', w'.findings[n]) {
      QuietFindingOk(w, e, w.findings[n]);
    }
    forall i | 0 <= i < |w'.items| && w'.items[i].message.Some?
      ensures FindingsOf(w'.findings, i) == CommittedFor(w'.commits, i)
    {
      if i < |w.items| {
        RowMoves(w, e, i);
      } else {
        NoFindingsAhead(w, i);
      }
    }
  }

  lemma DeletedFindings(w: World, e: Event)
    requires StoreInv(w) && e.DeleteMessages?
    ensures FindingsInv(Step(w, e))
  {
    var w' := Step(w, e);
    SurvivingMembers(w.findings, e.messages);
    forall n | 0 <= n < |w'.findings| ensures FindingOk(w', w'.findings[n]) {
      var f := w'.findings[n];
      assert f in w.findings;
      QuietFindingOk(w, e, f);
    }
    forall i | 0 <= i < |w'.items| && w'.items[i].message.Some?
      ensures FindingsOf(w'.findings, i) == CommittedFor(w'.commits, i)
    {
      SurvivingKeeps(w.findings, e.messages, i);
    }
  }

  lemma AcceptedFindingOk(w: World, claim: Claim, hash: T.Hash, concerns: seq<E.Concern>, rows: seq<StoredFinding>,
                          w': World, k: nat)
    requires ItemsOk(w) && RowsMatch(rows, w.items, claim, concerns) && k < |rows|
    requires w'.items == Update(w.items, HeldBy(claim), Screen(hash))
    ensures FindingOk(w', rows[k])
  {
    assert rows[k].concern == concerns[k];
    var x :| x in w.items && Selects(HeldBy(claim), x) && x.id == rows[k].itemId
             && x.message == Some(concerns[k].key.messageId);
    var i :| 0 <= i < |w.items| && w.items[i] == x;
    assert w'.items[i] == Changed(x, Screen(hash));
  }

  /** Findings of rows that were already screened are not affected. */
  lemma OldFindingOk(w: World, claim: Claim, hash: T.Hash, w': World, f: StoredFinding)
    requires ItemsOk(w) && FindingOk(w, f)
    requires w'.items == Update(w.items, HeldBy(claim), Screen(hash))
    ensures FindingOk(w', f)
  {
    assert w'.items[f.itemId] == w.items[f.itemId];
  }

  lemma AcceptedStep(w: World, e: Event)
    requires Accepts(w, e)
    ensures Step(w, e) == World(Update(w.items, HeldBy(e.claim), Screen(e.work.inputHash)), w.findings + e.rows,
                                w.issued, w.commits + [Commit(e.claim, HeldIds(w.items, e.claim), e.rows)], w.grants)
  {
  }

  lemma AcceptedFindingsOk(w: World, claim: Claim, hash: T.Hash, concerns: seq<E.Concern>, rows: seq<StoredFinding>,
                           w': World)
    requires ItemsOk(w) && RowsMatch(rows, w.items, claim, concerns)
    requires forall n :: 0 <= n < |w.findings| ==> FindingOk(w, w.findings[n])
    requires w'.items == Update(w.items, HeldBy(claim), Screen(hash)) && w'.findings == w.findings + rows
    ensures forall k :: 0 <= k < |w'.findings| ==> FindingOk(w', w'.findings[k])
  {
    forall k | 0 <= k < |w'.findings| ensures FindingOk(w', w'.findings[k]) {
      if k < |w.findings| {
        OldFindingOk(w, claim, hash, w', w.findings[k]);
      } else {
        AcceptedFindingOk(w, claim, hash, concerns, rows, w', k - |w.findings|);
      }
    }
  }

  lemma AcceptedFindings(w: World, e: Event)
    requires StoreInv(w) && Accepts(w, e)
    ensures FindingsInv(Step(w, e))
  {
    AcceptedStep(w, e);
    var w' := Step(w, e);
    AcceptedFindingsOk(w, e.claim, e.work.inputHash, e.concerns, e.rows, w');
    assert w'.commits[..|w.commits|] == w.commits;
    forall i | 0 <= i < |w'.items| && w'.items[i].message.Some?
      ensures FindingsOf(w'.findings, i) == CommittedFor(w'.commits, i)
    {
      FindingsOfConcat(w.findings, e.rows, i);
    }
  }

  lemma StepKeepsStoreInv(w: World, e: Event)
    requires StoreInv(w)
    ensures StoreInv(Step(w, e))
  {
    StepKeepsLeaseInv(w, e);
    if Accepts(w, e) {
      AcceptedCommits(w, e);
      AcceptedFindings(w, e);
    } else {
      QuietCommits(w, e);
      if e.DeleteMessages? {
        DeletedFindings(w, e);
      } else {
        QuietFindings(w, e);
      }
    }
  }

  lemma {:induction false} RunKeepsStoreInv(w: World, events: seq<Event>)
    requires StoreInv(w)
    ensures StoreInv(Run(w, events))
    decreases |events|
  {
    if events != [] {
      StepKeepsStoreInv(w, events[0]);
      RunKeepsStoreInv(Step(w, events[0]), events[1..]);
    }
  }

  /**
   After any run, a row is screened exactly when one accepted result screened it; its findings are
   that result's, and rows that were not screened, or whose message is gone, have none.
   */
  lemma ScreenedExactlyOnce(events: seq<Event>, i: nat)
    requires i < |Run(EMPTY, events).items|
    ensures var w := Run(EMPTY, events);
            var x := w.items[i];
            && (x.status == Screened <==> exists k: nat :: ScreenedBy(w, k, i))
            && (forall j: nat, k: nat :: ScreenedBy(w, j, i) && ScreenedBy(w, k, i) ==> j == k)
            && (forall k: nat :: ScreenedBy(w, k, i) && x.message.Some?
                                 ==> FindingsOf(w.findings, i) == FindingsOf(w.commits[k].rows, i))
            && (x.status != Screened || x.message.None? ==> FindingsOf(w.findings, i) == [])
  {
    RunKeepsStoreInv(EMPTY, events);
    var w := Run(EMPTY, events);
    var x := w.items[i];
    forall k: nat | ScreenedBy(w, k, i) && x.message.Some?
      ensures FindingsOf(w.findings, i) == FindingsOf(w.commits[k].rows, i)
    {
      forall j, n | 0 <= j < |w.commits| && j != k && 0 <= n < |w.commits[j].rows|
        ensures w.commits[j].rows[n].itemId != i
      {
        assert ScreenedBy(w, j, w.commits[j].rows[n].itemId);
      }
      CommittedOnce(w.commits, k, i);
    }
    if x.status != Screened || x.message.None? {
      forall n | 0 <= n < |w.findings| ensures w.findings[n].itemId != i {
        assert FindingOk(w, w.findings[n]);
      }
      FindingsOfAbsent(w.findings, i);
    }
  }
}
