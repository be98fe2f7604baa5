/**
 The screening queue: one row per message to screen, claimed by whole conversation under a lease.
 Each method is one database transaction.
 */
module ScreeningStore {
  import opened Options
  import T = Transcript
  import E = Evidence

  const LEASE_SECONDS := 90
  const MAX_ATTEMPTS: nat := 3

  datatype Status = Queued | Running | Screened | Failed

  // `message` is empty once the screened message has been deleted; such a row is a tombstone.
  datatype Item = Item(
    id: nat,
    screening: nat,
    conversation: nat,
    message: Option<nat>,
    status: Status,
    attempts: nat,
    token: Option<nat>,
    leasedUntil: Option<int>,
    inputHash: Option<T.Hash>,
    error: Option<ErrorCode>
  )

  datatype Claim = Claim(screening: nat, conversation: nat, token: nat)

  datatype StoredFinding = StoredFinding(itemId: nat, concern: E.Concern)

  datatype Work = Work(targets: seq<nat>, inputHash: T.Hash)

  /** What locking the conversation and re-reading its transcript yields. */
  datatype Source = Gone | Unreadable(error: ErrorCode) | Readable(transcript: seq<T.TranscriptMessage>)

  /** The `WHERE` of an update, and its `SET`. */
  datatype Selector = PendingIn(screening: nat, conversation: nat) | HeldBy(claim: Claim)

  datatype Change = Lease(token: nat, until: int) | Renew(until: int) | Fail(error: ErrorCode) | Screen(hash: T.Hash)

  predicate InGroup(x: Item, screening: nat, conversation: nat) {
    x.message.Some? && x.screening == screening && x.conversation == conversation
  }

  predicate Selects(sel: Selector, x: Item) {
    match sel
    case PendingIn(s, c) => InGroup(x, s, c) && (x.status == Queued || x.status == Running)
    case HeldBy(claim) =>
      InGroup(x, claim.screening, claim.conversation) && x.token == Some(claim.token) && x.status == Running
  }

  function Changed(x: Item, change: Change): Item {
    match change
    case Lease(token, until) =>
      x.(status := Running, attempts := x.attempts + 1, token := Some(token), leasedUntil := Some(until))
    case Renew(until) => x.(leasedUntil := Some(until))
    case Fail(error) => x.(status := Failed, error := Some(error), token := None, leasedUntil := None)
    case Screen(hash) =>
      x.(status := Screened, inputHash := Some(hash), error := None, token := None, leasedUntil := None)
  }

  /** Every selected row changed, every other row kept. */
  function Update(items: seq<Item>, sel: Selector, change: Change): (r: seq<Item>)
    ensures |r| == |items|
    ensures forall i :: 0 <= i < |items| ==>
                          r[i] == if Selects(sel, items[i]) then Changed(items[i], change) else items[i]
  {
    seq(|items|, i requires 0 <= i < |items| =>
      if Selects(sel, items[i]) then Changed(items[i], change) else items[i])
  }

  predicate Any(items: seq<Item>, sel: Selector) {
    exists x :: x in items && Selects(sel, x)
  }

  predicate LeaseIsLive(x: Item, now: int) {
    x.status == Running && x.leasedUntil.Some? && x.leasedUntil.value >= now
  }

  predicate GroupIsLeased(items: seq<Item>, s: nat, c: nat, now: int) {
    exists x :: x in items && Selects(PendingIn(s, c), x) && LeaseIsLive(x, now)
  }

  predicate GroupIsExhausted(items: seq<Item>, s: nat, c: nat) {
    exists x :: x in items && Selects(PendingIn(s, c), x) && x.attempts >= MAX_ATTEMPTS
  }

  /** The group can be claimed now: it has pending rows, none under a live lease. */
  predicate GroupIsFree(items: seq<Item>, s: nat, c: nat, now: int) {
    Any(items, PendingIn(s, c)) && !GroupIsLeased(items, s, c, now)
  }

  /** Claiming a free group leases all its pending rows under one token, or fails them all. */
  function AfterClaim(items: seq<Item>, s: nat, c: nat, now: int, token: nat): seq<Item> {
    if !GroupIsFree(items, s, c, now) then items
    else if GroupIsExhausted(items, s, c) then Update(items, PendingIn(s, c), Fail(WorkerInterrupted))
    else Update(items, PendingIn(s, c), Lease(token, now + LEASE_SECONDS))
  }

  predicate ClaimGranted(items: seq<Item>, s: nat, c: nat, now: int) {
    GroupIsFree(items, s, c, now) && !GroupIsExhausted(items, s, c)
  }

  predicate Claimable(x: Item, now: int, locked: set<nat>) {
    x.message.Some? && x.conversation !in locked
    && (x.status == Queued || (x.status == Running && x.leasedUntil.Some? && x.leasedUntil.value < now))
  }

  /** The messages of the rows a claim holds. */
  ghost function HeldMessages(items: seq<Item>, claim: Claim): set<nat> {
    set x | x in items && Selects(HeldBy(claim), x) :: x.message.value
  }

  datatype Verdict = Abandoned | Refused(error: ErrorCode) | Accepted

  ghost predicate ConcernsHeld(items: seq<Item>, claim: Claim, concerns: seq<E.Concern>) {
    forall c :: c in concerns ==> c.key.messageId in HeldMessages(items, claim)
  }

  /** What finishing with a result amounts to, in the order the checks are made. */
  ghost function FinishVerdict(items: seq<Item>, claim: Claim, work: Work, concerns: seq<E.Concern>,
                               source: Source, authorized: bool): Verdict {
    if !source.Readable? || !Any(items, HeldBy(claim)) then Abandoned
    else if !authorized then Refused(AccessChanged)
    else if HeldMessages(items, claim) != (set m <- work.targets)
            || T.TranscriptHash(source.transcript) != work.inputHash then Refused(InvalidContext)
    else if !ConcernsHeld(items, claim, concerns) then Refused(InvalidEvidence)
    else Accepted
  }

  ghost function AfterFinish(items: seq<Item>, claim: Claim, work: Work, verdict: Verdict): seq<Item> {
    match verdict
    case Abandoned => items
    case Refused(error) => Update(items, HeldBy(claim), Fail(error))
    case Accepted => Update(items, HeldBy(claim), Screen(work.inputHash))
  }

  ghost predicate OneRowPerMessage(items: seq<Item>) {
    forall i, j :: 0 <= i < j < |items| && items[i].screening == items[j].screening && items[i].message.Some?
                   ==> items[i].message != items[j].message
  }

  /** One stored finding per concern, attached to the row of the message it quotes. */
  ghost predicate RowsMatch(rows: seq<StoredFinding>, items: seq<Item>, claim: Claim, concerns: seq<E.Concern>) {
    && |rows| == |concerns|
    && forall k :: 0 <= k < |rows| ==>
                     rows[k].concern == concerns[k] &&
                     exists x :: x in items && Selects(HeldBy(claim), x) && x.id == rows[k].itemId
                                 && x.message == Some(concerns[k].key.messageId)
  }

  // ---------------------------------------------------------------------------------------------
  // The same, on the fields of the rows
  // ---------------------------------------------------------------------------------------------

  ghost predicate IsHeld(x: Item, claim: Claim) {
    x.message.Some? && x.screening == claim.screening && x.conversation == claim.conversation
    && x.status == Running && x.token == Some(claim.token)
  }

  ghost predicate IsPending(x: Item, s: nat, c: nat) {
    x.message.Some? && x.screening == s && x.conversation == c && (x.status == Queued || x.status == Running)
  }

  /** Queued, or running under a lease that has run out, in a conversation that is not locked. */
  ghost predicate MayBeTaken(x: Item, now: int, locked: set<nat>) {
    x.message.Some? && x.conversation !in locked &&
    match x.status
    case Queued => true
    case Running => exists until :: x.leasedUntil == Some(until) && until < now
    case _ => false
  }

  /** The position of the oldest row that may be taken. */
  ghost predicate OldestToTake(items: seq<Item>, now: int, locked: set<nat>, n: nat) {
    n < |items| && MayBeTaken(items[n], now, locked) && forall j :: 0 <= j < n ==> !MayBeTaken(items[j], now, locked)
  }

  /** A pending row of the group still has a lease that has not run out. */
  ghost predicate SomeoneWorks(items: seq<Item>, s: nat, c: nat, now: int) {
    exists x, until :: x in items && IsPending(x, s, c) && x.status == Running && x.leasedUntil == Some(until)
                       && now <= until
  }

  ghost predicate AttemptsSpent(items: seq<Item>, s: nat, c: nat) {
    exists x :: x in items && IsPending(x, s, c) && x.attempts >= 3
  }

  /** Every pending row of the group is leased for 90 seconds under the token, every other row kept. */
  ghost predicate Leases(before: seq<Item>, after: seq<Item>, s: nat, c: nat, now: int, token: nat) {
    |after| == |before| && forall i :: 0 <= i < |before| ==>
                                         var x := before[i];
                                         && (IsPending(x, s, c) ==>
                                               after[i] == x.(status := Running, attempts := x.attempts + 1,
                                                              token := Some(token), leasedUntil := Some(now + 90)))
                                         && (!IsPending(x, s, c) ==> after[i] == x)
  }

  /** Every pending row of the group fails as interrupted, every other row is kept. */
  ghost predicate GivesUp(before: seq<Item>, after: seq<Item>, s: nat, c: nat) {
    |after| == |before| && forall i :: 0 <= i < |before| ==>
                                         var x := before[i];
                                         && (IsPending(x, s, c) ==>
                                               after[i] == x.(status := Failed, error := Some(WorkerInterrupted),
                                                              token := None, leasedUntil := None))
                                         && (!IsPending(x, s, c) ==> after[i] == x)
  }

  /** What trying to take a group comes to: nothing, giving it up, or a lease. */
  ghost predicate Took(before: seq<Item>, after: seq<Item>, s: nat, c: nat, now: int, token: nat,
                       claim: Option<Claim>) {
    if SomeoneWorks(before, s, c, now) then claim == None && after == before
    else if AttemptsSpent(before, s, c) then claim == None && GivesUp(before, after, s, c)
    else claim == Some(Claim(s, c, token)) && Leases(before, after, s, c, now, token)
  }

  /** Every held row's lease reaches 90 seconds from now, and nothing else changes. */
  ghost predicate Renews(before: seq<Item>, after: seq<Item>, claim: Claim, now: int) {
    |after| == |before| && forall i :: 0 <= i < |before| ==>
                                         var x := before[i];
                                         && (IsHeld(x, claim) ==> after[i] == x.(leasedUntil := Some(now + 90)))
                                         && (!IsHeld(x, claim) ==> after[i] == x)
  }

  /** Every held row fails with the error and is let go, and nothing else changes. */
  ghost predicate FailsHeld(before: seq<Item>, after: seq<Item>, claim: Claim, error: ErrorCode) {
    |after| == |before| && forall i :: 0 <= i < |before| ==>
                                         var x := before[i];
                                         && (IsHeld(x, claim) ==>
                                               after[i] == x.(status := Failed, error := Some(error), token := None,
                                                              leasedUntil := None))
                                         && (!IsHeld(x, claim) ==> after[i] == x)
  }

  /** Every held row is screened on this input and let go, and nothing else changes. */
  ghost predicate ScreensHeld(before: seq<Item>, after: seq<Item>, claim: Claim, hash: T.Hash) {
    |after| == |before| && forall i :: 0 <= i < |before| ==>
                                         var x := before[i];
                                         && (IsHeld(x, claim) ==>
                                               after[i] == x.(status := Screened, inputHash := Some(hash),
                                                              error := None, token := None, leasedUntil := None))
                                         && (!IsHeld(x, claim) ==> after[i] == x)
  }

  ghost predicate AnyHeld(items: seq<Item>, claim: Claim) {
    exists x :: x in items && IsHeld(x, claim)
  }

  ghost predicate HoldsMessage(items: seq<Item>, claim: Claim, message: nat) {
    exists x :: x in items && IsHeld(x, claim) && x.message == Some(message)
  }

  /** The claim holds the rows of exactly these messages. */
  ghost predicate HoldsExactly(items: seq<Item>, claim: Claim, messages: seq<nat>) {
    forall m :: HoldsMessage(items, claim, m) <==> m in messages
  }

  lemma SelectsMeans(x: Item, claim: Claim, s: nat, c: nat)
    ensures Selects(HeldBy(claim), x) <==> IsHeld(x, claim)
    ensures Selects(PendingIn(s, c), x) <==> IsPending(x, s, c)
  {
  }

  lemma ClaimMeans(items: seq<Item>, s: nat, c: nat, now: int, token: nat)
    requires Any(items, PendingIn(s, c))
    ensures var after := AfterClaim(items, s, c, now, token);
            && (SomeoneWorks(items, s, c, now) ==> after == items)
            && (!SomeoneWorks(items, s, c, now) && AttemptsSpent(items, s, c) ==> GivesUp(items, after, s, c))
            && (!SomeoneWorks(items, s, c, now) && !AttemptsSpent(items, s, c) ==>
                  Leases(items, after, s, c, now, token))
    ensures ClaimGranted(items, s, c, now) <==> !SomeoneWorks(items, s, c, now) && !AttemptsSpent(items, s, c)
  {
    assert GroupIsLeased(items, s, c, now) <==> SomeoneWorks(items, s, c, now) by {
      if x :| x in items && Selects(PendingIn(s, c), x) && LeaseIsLive(x, now) {
        assert IsPending(x, s, c) && x.leasedUntil == Some(x.leasedUntil.value) && now <= x.leasedUntil.value;
      }
      if x, until :| x in items && IsPending(x, s, c) && x.status == Running && x.leasedUntil == Some(until)
                     && now <= until {
        assert Selects(PendingIn(s, c), x) && LeaseIsLive(x, now);
      }
    }
    assert GroupIsExhausted(items, s, c) <==> AttemptsSpent(items, s, c);
  }

  lemma ClaimableMeans(x: Item, now: int, locked: set<nat>)
    ensures Claimable(x, now, locked) <==> MayBeTaken(x, now, locked)
  {
    if Claimable(x, now, locked) && x.status == Running {
      assert x.leasedUntil == Some(x.leasedUntil.value);
    }
  }

  lemma HeldMeans(items: seq<Item>, claim: Claim, hash: T.Hash, error: ErrorCode, now: int)
    ensures Any(items, HeldBy(claim)) <==> AnyHeld(items, claim)
    ensures Renews(items, Update(items, HeldBy(claim), Renew(now + LEASE_SECONDS)), claim, now)
    ensures FailsHeld(items, Update(items, HeldBy(claim), Fail(error)), claim, error)
    ensures ScreensHeld(items, Update(items, HeldBy(claim), Screen(hash)), claim, hash)
  {
  }

  lemma HeldMessagesMeans(items: seq<Item>, claim: Claim, targets: seq<nat>)
    ensures forall m :: m in HeldMessages(items, claim) <==> HoldsMessage(items, claim, m)
    ensures HeldMessages(items, claim) == (set m <- targets) <==> HoldsExactly(items, claim, targets)
  {
    forall m ensures m in HeldMessages(items, claim) <==> HoldsMessage(items, claim, m) {
      if m in HeldMessages(items, claim) {
        var x :| x in items && Selects(HeldBy(claim), x) && x.message.value == m;
        assert IsHeld(x, claim) && x.message == Some(m);
      }
      if HoldsMessage(items, claim, m) {
        var x :| x in items && IsHeld(x, claim) && x.message == Some(m);
        assert Selects(HeldBy(claim), x);
      }
    }
  }

  /** The rows after a finish: the first check that fails decides, and each leaves its own error. */
  ghost predicate Finished(before: seq<Item>, after: seq<Item>, claim: Claim, work: Work, concerns: seq<E.Concern>,
                           source: Source, authorized: bool, stored: bool) {
    var held := forall c :: c in concerns ==> HoldsMessage(before, claim, c.key.messageId);
    if !source.Readable? || !AnyHeld(before, claim) then !stored && after == before
    else if !authorized then !stored && FailsHeld(before, after, claim, AccessChanged)
    else if !HoldsExactly(before, claim, work.targets) || source.transcript != work.inputHash
    then !stored && FailsHeld(before, after, claim, InvalidContext)
    else if !held then !stored && FailsHeld(before, after, claim, InvalidEvidence)
    else stored && ScreensHeld(before, after, claim, work.inputHash)
  }

  /** The state machine of a finish does just that. */
  lemma FinishMeans(items: seq<Item>, claim: Claim, work: Work, concerns: seq<E.Concern>, source: Source,
                    authorized: bool)
    ensures var verdict := FinishVerdict(items, claim, work, concerns, source, authorized);
            Finished(items, AfterFinish(items, claim, work, verdict), claim, work, concerns, source, authorized,
                     verdict.Accepted?)
  {
    VerdictMeans(items, claim, work, concerns, source, authorized);
    var verdict := FinishVerdict(items, claim, work, concerns, source, authorized);
    HeldMeans(items, claim, work.inputHash, if verdict.Refused? then verdict.error else AccessChanged, 0);
  }

  /** Which of the checks of a finish fails first, if any. */
  lemma VerdictMeans(items: seq<Item>, claim: Claim, work: Work, concerns: seq<E.Concern>, source: Source,
                     authorized: bool)
    ensures var verdict := FinishVerdict(items, claim, work, concerns, source, authorized);
            var begun := source.Readable? && AnyHeld(items, claim);
            var current := begun && HoldsExactly(items, claim, work.targets) && source.transcript == work.inputHash;
            var held := forall c :: c in concerns ==> HoldsMessage(items, claim, c.key.messageId);
            && (verdict == Abandoned <==> !begun)
            && (verdict == Refused(AccessChanged) <==> begun && !authorized)
            && (verdict == Refused(InvalidContext) <==> begun && authorized && !current)
            && (verdict == Refused(InvalidEvidence) <==> begun && authorized && current && !held)
            && (verdict == Accepted <==> begun && authorized && current && held)
  {
    HeldMeans(items, claim, work.inputHash, AccessChanged, 0);
    HeldMessagesMeans(items, claim, work.targets);
  }

  class Store {
    var items: seq<Item>
    var findings: seq<StoredFinding>

    constructor ()
      ensures items == [] && findings == []
    {
      items, findings := [], [];
    }

    method UpdateWhere(sel: Selector, change: Change) returns (touched: bool)
      modifies this`items
      ensures items == Update(old(items), sel, change)
      ensures touched <==> Any(old(items), sel)
    {
      touched := false;
      var i := 0;
      while i < |items|
        invariant i <= |items| == |old(items)|
        invariant forall k :: 0 <= k < i ==> items[k] == Update(old(items), sel, change)[k]
        invariant forall k :: i <= k < |items| ==> items[k] == old(items)[k]
        invariant touched <==> exists k :: 0 <= k < i && Selects(sel, old(items)[k])
      {
        if Selects(sel, items[i]) {
          touched := true;
          items := items[i := Changed(items[i], change)];
        }
        i := i + 1;
      }
    }

    /** The position of the oldest row that may be taken, or the number of rows. */
    method OldestClaimable(now: int, locked: set<nat>) returns (n: nat)
      ensures n <= |items|
      ensures n == |items| ==> forall x :: x in items ==> !MayBeTaken(x, now, locked)
      ensures n < |items| ==> Claimable(items[n], now, locked) && OldestToTake(items, now, locked, n)
      ensures n < |items| ==> forall k :: OldestToTake(items, now, locked, k) ==> k == n
    {
      n := 0;
      while n < |items| && !Claimable(items[n], now, locked)
        invariant 0 <= n <= |items|
        invariant forall j :: 0 <= j < n ==> !MayBeTaken(items[j], now, locked)
      {
        ClaimableMeans(items[n], now, locked);
        n := n + 1;
      }
      if n < |items| {
        ClaimableMeans(items[n], now, locked);
      }
    }

    /** Leases the group, or fails it, unless someone works on it. */
    method TakeGroup(s: nat, c: nat, now: int, token: nat) returns (claim: Option<Claim>)
      requires Any(items, PendingIn(s, c))
      modifies this`items
      ensures items == AfterClaim(old(items), s, c, now, token)
      ensures claim == if ClaimGranted(old(items), s, c, now) then Some(Claim(s, c, token)) else None
      ensures Took(old(items), items, s, c, now, token, claim)
    {
      ClaimMeans(items, s, c, now, token);
      if !GroupIsFree(items, s, c, now) {
        return None;
      }
      if GroupIsExhausted(items, s, c) {
        var _ := UpdateWhere(PendingIn(s, c), Fail(WorkerInterrupted));
        return None;
      }
      var _ := UpdateWhere(PendingIn(s, c), Lease(token, now + LEASE_SECONDS));
      return Some(Claim(s, c, token));
    }

    /** Takes the group of the oldest row that may be taken. */
    method ClaimNext(now: int, locked: set<nat>, token: nat) returns (claim: Option<Claim>)
      modifies this`items
      ensures (forall x :: x in old(items) ==> !MayBeTaken(x, now, locked)) ==> claim == None && items == old(items)
      ensures forall n: nat :: OldestToTake(old(items), now, locked, n) ==>
                                 var x := old(items)[n];
                                 && Took(old(items), items, x.screening, x.conversation, now, token, claim)
                                 && items == AfterClaim(old(items), x.screening, x.conversation, now, token)
    {
      var n := OldestClaimable(now, locked);
      if n == |items| {
        return None;
      }
      assert Selects(PendingIn(items[n].screening, items[n].conversation), items[n]);
      claim := TakeGroup(items[n].screening, items[n].conversation, now, token);
    }

    method Heartbeat(claim: Claim, now: int) returns (renewed: bool)
      modifies this`items
      ensures items == Update(old(items), HeldBy(claim), Renew(now + LEASE_SECONDS))
      ensures Renews(old(items), items, claim, now)
      ensures renewed <==> AnyHeld(old(items), claim)
    {
      HeldMeans(items, claim, [], AccessChanged, now);
      renewed := UpdateWhere(HeldBy(claim), Renew(now + LEASE_SECONDS));
    }

    method FinishError(claim: Claim, error: ErrorCode)
      modifies this`items
      ensures items == Update(old(items), HeldBy(claim), Fail(error))
      ensures FailsHeld(old(items), items, claim, error)
    {
      HeldMeans(items, claim, [], error, 0);
      var _ := UpdateWhere(HeldBy(claim), Fail(error));
    }

    method ReadHeld(claim: Claim) returns (byMessage: map<nat, Item>)
      ensures Indexed(byMessage, claim)
    {
      byMessage := map[];
      for i := 0 to |items|
        invariant byMessage.Keys == HeldMessages(items[..i], claim)
        invariant forall m :: m in byMessage ==>
                                && byMessage[m] in items && Selects(HeldBy(claim), byMessage[m])
                                && byMessage[m].message == Some(m)
      {
        assert items[..i + 1] == items[..i] + [items[i]];
        if Selects(HeldBy(claim), items[i]) {
          byMessage := byMessage[items[i].message.value := items[i]];
        }
      }
      assert items[..|items|] == items;
    }

    /** Runs the checks of a finish in order, up to the first that fails. */
    method CheckFinish(claim: Claim, work: Work, concerns: seq<E.Concern>, source: Source, authorized: bool)
      returns (verdict: Verdict, byMessage: map<nat, Item>)
      ensures verdict == FinishVerdict(items, claim, work, concerns, source, authorized)
      ensures verdict.Accepted? ==> Indexed(byMessage, claim) && ConcernsHeld(items, claim, concerns)
    {
      byMessage := map[];
      if !source.Readable? {
        return Abandoned, byMessage;
      }
      byMessage := ReadHeld(claim);
      if byMessage.Keys == {} {
        return Abandoned, byMessage;
      }
      if !authorized {
        return Refused(AccessChanged), byMessage;
      }
      if byMessage.Keys != (set m <- work.targets) || T.TranscriptHash(source.transcript) != work.inputHash {
        return Refused(InvalidContext), byMessage;
      }
      if exists c :: c in concerns && c.key.messageId !in byMessage {
        return Refused(InvalidEvidence), byMessage;
      }
      return Accepted, byMessage;
    }

    /** The rows held under the claim, by message. */
    ghost predicate Indexed(byMessage: map<nat, Item>, claim: Claim)
      reads this
    {
      && byMessage.Keys == HeldMessages(items, claim)
      && forall m :: m in byMessage ==>
                       && byMessage[m] in items && Selects(HeldBy(claim), byMessage[m])
                       && byMessage[m].message == Some(m)
    }

    /** Stores one finding per concern, attached to the row of the message it quotes. */
    method AddFindings(claim: Claim, concerns: seq<E.Concern>, byMessage: map<nat, Item>)
      requires Indexed(byMessage, claim) && ConcernsHeld(items, claim, concerns)
      modifies this`findings
      ensures |old(findings)| <= |findings| && findings[..|old(findings)|] == old(findings)
      ensures RowsMatch(findings[|old(findings)|..], items, claim, concerns)
    {
      var rows: seq<StoredFinding> := [];
      for k := 0 to |concerns|
        invariant RowsMatch(rows, items, claim, concerns[..k])
      {
        assert concerns[k] in concerns;
        rows := rows + [StoredFinding(byMessage[concerns[k].key.messageId].id, concerns[k])];
      }
      assert concerns[..|concerns|] == concerns;
      findings := findings + rows;
    }

    method FinishResult(claim: Claim, work: Work, concerns: seq<E.Concern>, source: Source, authorized: bool)
      returns (stored: bool)
      modifies this
      ensures var verdict := FinishVerdict(old(items), claim, work, concerns, source, authorized);
              && items == AfterFinish(old(items), claim, work, verdict)
              && stored == verdict.Accepted?
      ensures Finished(old(items), items, claim, work, concerns, source, authorized, stored)
      ensures !stored ==> findings == old(findings)
      ensures stored ==> |old(findings)| <= |findings| && findings[..|old(findings)|] == old(findings)
                         && RowsMatch(findings[|old(findings)|..], old(items), claim, concerns)
    {
      FinishMeans(items, claim, work, concerns, source, authorized);
      var verdict, byMessage := CheckFinish(claim, work, concerns, source, authorized);
      match verdict
      case Abandoned =>
        return false;
      case Refused(error) =>
        FinishError(claim, error);
        return false;
      case Accepted =>
        AddFindings(claim, concerns, byMessage);
        var _ := UpdateWhere(HeldBy(claim), Screen(work.inputHash));
        return true;
    }
  }
}
