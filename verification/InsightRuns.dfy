/**
 Analysis runs over the chats. A run is claimed under a lease, prepared against the stored rows,
 classified outside any transaction, and finished if its claim still holds. Each method is one
 database transaction.
 */
module InsightRuns {
  import opened Options
  import opened InsightClassifier
  import G = GroundingReferences

  const LEASE_SECONDS := 90
  const MAX_ATTEMPTS: nat := 3

  datatype RunStatus = Queued | Running | Completed | CompletedWithErrors | CompletedWithWarnings | RunFailed

  datatype RevisionStatus = Pending | Published | Superseded

  /** Two fingerprints agree exactly when model, classifier version and definitions do. */
  datatype Fingerprint = Fingerprint(model: nat, version: nat, definitions: seq<string>)

  datatype Run = Run(
    revision: nat, backfill: bool, status: RunStatus, model: nat, version: nat, attempts: nat,
    token: Option<nat>, leasedUntil: Option<int>, eligible: nat, classified: nat, errors: nat)

  datatype Revision = Revision(definitions: seq<string>, status: RevisionStatus)

  datatype Row = Row(run: nat, fingerprint: Fingerprint, result: ChatResult)

  // One row per conversation and revision.
  type Rows = map<(nat, nat), Row>

  datatype Claim = Claim(run: nat, token: nat)

  /** What preparing a run read: every eligible chat, those still to classify, and the references. */
  datatype Prepared = Prepared(revision: nat, fingerprint: Fingerprint, all: seq<ChatInput>, pending: seq<ChatInput>,
                               plan: G.Plan)

  datatype Db = Db(runs: seq<Run>, revisions: seq<Revision>, rows: Rows, refs: G.References, nextRef: nat)

  predicate Active(r: Run) {
    r.status == Queued || r.status == Running
  }

  predicate AnyActive(runs: seq<Run>) {
    exists r :: r in runs && Active(r)
  }

  /** The highest-numbered revision of a status. */
  function Latest(revisions: seq<Revision>, status: RevisionStatus): (n: Option<nat>)
    ensures n.Some? ==> n.value < |revisions| && revisions[n.value].status == status
                        && forall k :: n.value < k < |revisions| ==> revisions[k].status != status
    ensures n.None? ==> forall k :: 0 <= k < |revisions| ==> revisions[k].status != status
  {
    if revisions == [] then None
    else
      var last := |revisions| - 1;
      if revisions[last].status == status then Some(last) else Latest(revisions[..last], status)
  }

  /** A run works on the pending revision if there is one, otherwise on the published one. */
  function Target(revisions: seq<Revision>): (n: Option<nat>)
    ensures n.Some? ==> n.value < |revisions|
  {
    var pending := Latest(revisions, Pending);
    if pending.Some? then pending else Latest(revisions, Published)
  }

  function NewRun(revisions: seq<Revision>, target: nat, model: nat): Run
    requires target < |revisions|
  {
    Run(target, revisions[target].status == Pending, Queued, model, 0, 0, None, None, 0, 0, 0)
  }

  function AfterAdmit(db: Db, model: nat): Db {
    var target := Target(db.revisions);
    if AnyActive(db.runs) || target.None? then db
    else db.(runs := db.runs + [NewRun(db.revisions, target.value, model)])
  }

  predicate QueueConflict(db: Db) {
    Latest(db.revisions, Pending).Some? || AnyActive(db.runs)
  }

  function AfterQueue(db: Db, definitions: seq<string>, model: nat): Db {
    if QueueConflict(db) then db
    else AfterAdmit(db.(revisions := db.revisions + [Revision(definitions, Pending)]), model)
  }

  predicate Claimable(r: Run, now: int) {
    r.status == Queued || (r.status == Running && r.leasedUntil.Some? && r.leasedUntil.value < now)
  }

  function Ended(r: Run, status: RunStatus): Run {
    r.(status := status, token := None, leasedUntil := None)
  }

  function Claimed(r: Run, now: int, version: nat, token: nat): Run {
    if r.attempts >= MAX_ATTEMPTS then Ended(r, RunFailed)
    else
      r.(status := Running, version := version, attempts := r.attempts + 1, token := Some(token),
         leasedUntil := Some(now + LEASE_SECONDS))
  }

  predicate Holds(runs: seq<Run>, claim: Claim) {
    claim.run < |runs| && runs[claim.run].status == Running && runs[claim.run].token == Some(claim.token)
  }

  function AfterHeartbeat(db: Db, claim: Claim, now: int): Db {
    if Holds(db.runs, claim)
    then db.(runs := db.runs[claim.run := db.runs[claim.run].(leasedUntil := Some(now + LEASE_SECONDS))])
    else db
  }

  function AfterFailure(db: Db, claim: Claim): Db {
    if Holds(db.runs, claim) then
      var r := db.runs[claim.run];
      db.(runs := db.runs[claim.run := Ended(r, RunFailed).(errors := r.errors + 1)])
    else db
  }

  // ---------------------------------------------------------------------------------------------
  // Preparing
  // ---------------------------------------------------------------------------------------------

  predicate IsFresh(row: Row, chat: ChatInput, fingerprint: Fingerprint) {
    row.result.branchHash == chat.branchHash && row.fingerprint == fingerprint
  }

  /** The chat has a row under the revision, with its hash and the fingerprint. */
  ghost predicate ExactRow(rows: Rows, revision: nat, fingerprint: Fingerprint, chat: ChatInput) {
    var key := (chat.conversation, revision);
    key in rows && rows[key].result.branchHash == chat.branchHash && rows[key].fingerprint == fingerprint
  }

  predicate HasFreshRow(rows: Rows, revision: nat, fingerprint: Fingerprint, chat: ChatInput) {
    (chat.conversation, revision) in rows && IsFresh(rows[(chat.conversation, revision)], chat, fingerprint)
  }

  /** The chats to classify, in order: on a backfill all of them, else those without a fresh row. */
  function PendingOf(rows: Rows, revision: nat, fingerprint: Fingerprint, backfill: bool, chats: seq<ChatInput>):
    seq<ChatInput>
  {
    if chats == [] then []
    else
      var n := |chats| - 1;
      PendingOf(rows, revision, fingerprint, backfill, chats[..n])
      + if backfill || !HasFreshRow(rows, revision, fingerprint, chats[n]) then [chats[n]] else []
  }

  lemma {:induction false} PendingMembers(rows: Rows, revision: nat, fingerprint: Fingerprint, backfill: bool,
                                          chats: seq<ChatInput>)
    ensures IsPending(PendingOf(rows, revision, fingerprint, backfill, chats), rows, revision, fingerprint, backfill,
                      chats)
    ensures backfill ==> PendingOf(rows, revision, fingerprint, backfill, chats) == chats
  {
    if chats != [] {
      var n := |chats| - 1;
      PendingMembers(rows, revision, fingerprint, backfill, chats[..n]);
      assert chats == chats[..n] + [chats[n]];
    }
  }

  function Ids(chats: seq<ChatInput>): set<nat> {
    set c <- chats :: c.conversation
  }

  ghost predicate DistinctChats(chats: seq<ChatInput>) {
    forall i, j :: 0 <= i < j < |chats| ==> chats[i].conversation != chats[j].conversation
  }

  function FingerprintOf(db: Db, r: Run): Fingerprint
    requires r.revision < |db.revisions|
  {
    Fingerprint(r.model, r.version, db.revisions[r.revision].definitions)
  }

  /** What a run prepares from the eligible chats, their answers and the stored rows. */
  ghost predicate IsPrepared(db: Db, r: Run, chats: seq<ChatInput>, answers: seq<G.Answer>, p: Prepared) {
    && r.revision < |db.revisions|
    && p.revision == r.revision
    && p.fingerprint == FingerprintOf(db, r)
    && p.all == chats
    && p.pending == PendingOf(db.rows, r.revision, p.fingerprint, r.backfill, chats)
    && p.plan.eligible == Ids(chats)
    && G.Planned(p.plan, answers, db.refs)
  }

  // ---------------------------------------------------------------------------------------------
  // Finishing
  // ---------------------------------------------------------------------------------------------

  /** The rows left before storing results: this revision loses rows of other chats and of failed ones. */
  function Kept(rows: Rows, revision: nat, eligible: set<nat>, failed: set<nat>): Rows {
    map k | k in rows && (k.1 != revision || (k.0 in eligible && k.0 !in failed)) :: rows[k]
  }

  function StoreAll(rows: Rows, revision: nat, run: nat, fingerprint: Fingerprint, results: seq<ChatResult>): Rows {
    if results == [] then rows
    else
      var n := |results| - 1;
      StoreAll(rows, revision, run, fingerprint, results[..n])[
      (results[n].conversation, revision) := Row(run, fingerprint, results[n])]
  }

  function Succeeded(results: seq<ChatResult>): set<nat> {
    set r <- results :: r.conversation
  }

  function StoredRows(rows: Rows, run: nat, p: Prepared, results: seq<ChatResult>): Rows {
    StoreAll(Kept(rows, p.revision, Ids(p.all), Ids(p.pending) - Succeeded(results)), p.revision, run, p.fingerprint,
             results)
  }

  /** The eligible chats whose row carries the prepared hash and fingerprint. */
  function FreshIds(rows: Rows, revision: nat, fingerprint: Fingerprint, chats: seq<ChatInput>): set<nat> {
    set c | c in chats && HasFreshRow(rows, revision, fingerprint, c) :: c.conversation
  }

  function Publish(revisions: seq<Revision>, n: nat): (r: seq<Revision>)
    ensures |r| == |revisions|
  {
    seq(|revisions|, i requires 0 <= i < |revisions| =>
      if i == n then revisions[i].(status := Published)
      else if revisions[i].status == Published then revisions[i].(status := Superseded)
      else revisions[i])
  }

  function Outcome(errors: nat, warning: bool): RunStatus {
    if errors > 0 then CompletedWithErrors else if warning then CompletedWithWarnings else Completed
  }

  /** A backfill with errors leaves everything but the run alone. */
  predicate Discards(db: Db, p: Prepared, errors: nat) {
    p.revision < |db.revisions| && db.revisions[p.revision].status == Pending && errors > 0
  }

  function ClassifiedAfter(db: Db, run: nat, p: Prepared, results: seq<ChatResult>): nat {
    |FreshIds(StoredRows(db.rows, run, p, results), p.revision, p.fingerprint, p.all)|
  }

  predicate Publishes(db: Db, run: nat, p: Prepared, results: seq<ChatResult>, errors: nat) {
    && p.revision < |db.revisions| && db.revisions[p.revision].status == Pending
    && errors == 0
    && ClassifiedAfter(db, run, p, results) == |p.all|
  }

  function AfterFinish(db: Db, claim: Claim, p: Prepared, results: seq<ChatResult>, errors: nat, warning: bool): Db {
    if !Holds(db.runs, claim) then db
    else
      var r := db.runs[claim.run].(eligible := |p.all|, errors := errors);
      if Discards(db, p, errors)
      then db.(runs := db.runs[claim.run := Ended(r, CompletedWithErrors).(classified := 0)])
      else
        var classified := ClassifiedAfter(db, claim.run, p, results);
        Db(db.runs[claim.run := Ended(r, Outcome(errors, warning)).(classified := classified)],
           if Publishes(db, claim.run, p, results, errors) then Publish(db.revisions, p.revision) else db.revisions,
           StoredRows(db.rows, claim.run, p, results),
           G.Reconciled(db.refs, db.nextRef, p.plan.eligible, p.plan.stale, p.plan.inputs, claim.run),
           db.nextRef + |p.plan.inputs|)
  }

  // ---------------------------------------------------------------------------------------------
  // The same, on the fields of the runs
  // ---------------------------------------------------------------------------------------------

  ghost predicate Held(runs: seq<Run>, claim: Claim) {
    claim.run < |runs| && runs[claim.run].status == Running && runs[claim.run].token == Some(claim.token)
  }

  /** Queued, or running under a lease that has run out. */
  ghost predicate MayBeClaimed(r: Run, now: int) {
    r.status == Queued || (r.status == Running && exists until :: r.leasedUntil == Some(until) && until < now)
  }

  ghost predicate OldestToClaim(runs: seq<Run>, now: int, locked: set<nat>, n: nat) {
    n < |runs| && n !in locked && MayBeClaimed(runs[n], now)
    && forall i: nat :: i < n && i !in locked ==> !MayBeClaimed(runs[i], now)
  }

  /** The run is leased for 90 seconds under the token, or given up after three attempts. */
  ghost predicate ClaimsRun(before: seq<Run>, after: seq<Run>, n: nat, now: int, version: nat, token: nat,
                            claim: Option<Claim>)
    requires n < |before|
  {
    var r := before[n];
    if r.attempts < 3 then
      && claim == Some(Claim(n, token))
      && after == before[n := r.(status := Running, version := version, attempts := r.attempts + 1,
                                 token := Some(token), leasedUntil := Some(now + 90))]
    else
      && claim == None
      && after == before[n := r.(status := RunFailed, token := None, leasedUntil := None)]
  }

  ghost predicate SomePending(revisions: seq<Revision>) {
    exists k :: 0 <= k < |revisions| && revisions[k].status == Pending
  }

  ghost predicate SomeActive(runs: seq<Run>) {
    exists k :: 0 <= k < |runs| && (runs[k].status == Queued || runs[k].status == Running)
  }

  /** The revision is the last one of its status. */
  ghost predicate IsLast(revisions: seq<Revision>, n: nat, status: RevisionStatus) {
    n < |revisions| && revisions[n].status == status
    && forall k :: n < k < |revisions| ==> revisions[k].status != status
  }

  /** Queued and untouched; it fills the pending revision if there is one, else it renews the published one. */
  ghost predicate IsNew(r: Run, revisions: seq<Revision>, model: nat) {
    && r.status == Queued && r.attempts == 0 && r.token == None && r.leasedUntil == None && r.model == model
    && r.eligible == 0 && r.classified == 0 && r.errors == 0
    && (SomePending(revisions) ==> r.backfill && IsLast(revisions, r.revision, Pending))
    && (!SomePending(revisions) ==> !r.backfill && IsLast(revisions, r.revision, Published))
  }

  /** What a finish under a valid claim makes of the runs, on their fields. */
  ghost predicate EndsRun(before: seq<Run>, after: seq<Run>, claim: Claim, p: Prepared, errors: nat, warning: bool) {
    && |after| == |before| && claim.run < |before|
    && (forall i :: 0 <= i < |before| && i != claim.run ==> after[i] == before[i])
    && var r, r' := before[claim.run], after[claim.run];
       && r'.revision == r.revision && r'.backfill == r.backfill && r'.model == r.model && r'.version == r.version
       && r'.attempts == r.attempts && r'.token == None && r'.leasedUntil == None
       && r'.eligible == |p.all| && r'.errors == errors
       && (errors > 0 ==> r'.status == CompletedWithErrors)
       && (errors == 0 && warning ==> r'.status == CompletedWithWarnings)
       && (errors == 0 && !warning ==> r'.status == Completed)
  }

  lemma FinishEndsRun(db: Db, claim: Claim, p: Prepared, results: seq<ChatResult>, errors: nat, warning: bool)
    requires Holds(db.runs, claim)
    ensures EndsRun(db.runs, AfterFinish(db, claim, p, results, errors, warning).runs, claim, p, errors, warning)
    ensures |AfterFinish(db, claim, p, results, errors, warning).revisions| == |db.revisions|
  {
  }

  /** The revision is published in place of any other; revisions in other states stay as they are. */
  ghost predicate Publishing(before: seq<Revision>, after: seq<Revision>, n: nat) {
    && |after| == |before|
    && forall i :: 0 <= i < |before| ==>
                     && after[i].definitions == before[i].definitions
                     && (i == n ==> after[i].status == Published)
                     && (i != n && before[i].status == Published ==> after[i].status == Superseded)
                     && (i != n && before[i].status != Published ==> after[i].status == before[i].status)
  }

  /** The chats to classify: on a backfill all, otherwise those without an exact row. */
  ghost predicate IsPending(pending: seq<ChatInput>, rows: Rows, revision: nat, fingerprint: Fingerprint,
                            backfill: bool, chats: seq<ChatInput>) {
    forall c :: c in pending <==> c in chats && (backfill || !ExactRow(rows, revision, fingerprint, c))
  }

  lemma AdmitMeans(db: Db, model: nat)
    ensures AnyActive(db.runs) <==> SomeActive(db.runs)
    ensures Target(db.revisions).Some? ==>
              IsNew(NewRun(db.revisions, Target(db.revisions).value, model), db.revisions, model)
    ensures Target(db.revisions).None? <==> forall k :: 0 <= k < |db.revisions| ==> db.revisions[k].status == Superseded
    ensures Latest(db.revisions, Pending).Some? <==> SomePending(db.revisions)
  {
    assert AnyActive(db.runs) ==> SomeActive(db.runs) by {
      if r :| r in db.runs && Active(r) {
        var k :| 0 <= k < |db.runs| && db.runs[k] == r;
      }
    }
    assert SomeActive(db.runs) ==> AnyActive(db.runs) by {
      if k :| 0 <= k < |db.runs| && (db.runs[k].status == Queued || db.runs[k].status == Running) {
        assert db.runs[k] in db.runs && Active(db.runs[k]);
      }
    }
  }

  lemma PublishMeans(revisions: seq<Revision>, n: nat)
    requires n < |revisions|
    ensures Publishing(revisions, Publish(revisions, n), n)
  {
  }

  class Database {
    var runs: seq<Run>
    var revisions: seq<Revision>
    var rows: Rows
    const references: G.ReferenceTable

    constructor (definitions: seq<string>)
      ensures State() == Db([], [Revision(definitions, Published)], map[], map[], 0)
      ensures fresh(references)
    {
      runs, revisions, rows := [], [Revision(definitions, Published)], map[];
      references := new G.ReferenceTable();
    }

    ghost function State(): Db
      reads this, references
    {
      Db(runs, revisions, rows, references.refs, references.nextId)
    }

    /** The active run if there is one, else a new one on the target revision; fails without a target. */
    method AdmitRun(model: nat) returns (r: Option<nat>, created: bool)
      modifies this`runs
      ensures State() == AfterAdmit(old(State()), model)
      ensures r.None? <==> !AnyActive(old(runs)) && Target(revisions).None?
      ensures r.Some? ==> r.value < |runs| && Active(runs[r.value])
      ensures created <==> r.Some? && !AnyActive(old(runs))
      ensures r.None? <==> !SomeActive(old(runs))
                           && forall k :: 0 <= k < |revisions| ==> revisions[k].status == Superseded
      ensures created <==> r.Some? && !SomeActive(old(runs))
      ensures !created ==> runs == old(runs)
      ensures created ==> r.value == |old(runs)| && |runs| == r.value + 1 && runs[..r.value] == old(runs)
                          && IsNew(runs[r.value], revisions, model)
    {
      AdmitMeans(State(), model);
      for i := 0 to |runs|
        invariant forall j :: 0 <= j < i ==> !Active(runs[j])
      {
        if Active(runs[i]) {
          assert runs[i] in runs;
          return Some(i), false;
        }
      }
      assert !AnyActive(runs);
      var target := Target(revisions);
      if target.None? {
        return None, false;
      }
      runs := runs + [NewRun(revisions, target.value, model)];
      return Some(|runs| - 1), true;
    }

    /** Opens a pending revision and the run that fills it, unless one is already under way. */
    method QueueRevision(definitions: seq<string>, model: nat) returns (r: Option<nat>)
      modifies this`runs, this`revisions
      ensures State() == AfterQueue(old(State()), definitions, model)
      ensures r.None? <==> QueueConflict(old(State()))
      ensures r.None? <==> SomePending(old(revisions)) || SomeActive(old(runs))
      ensures r.None? ==> runs == old(runs) && revisions == old(revisions)
      ensures r.Some? ==> revisions == old(revisions) + [Revision(definitions, Pending)]
      ensures r.Some? ==> r.value == |old(runs)| && |runs| == r.value + 1 && runs[..r.value] == old(runs)
                          && IsNew(runs[r.value], revisions, model)
    {
      AdmitMeans(State(), model);
      if Latest(revisions, Pending).Some? || AnyActive(runs) {
        return None;
      }
      revisions := revisions + [Revision(definitions, Pending)];
      var created;
      r, created := AdmitRun(model);
    }

    /** The position of the oldest run to claim, or the number of runs. */
    method FindClaimable(now: int, locked: set<nat>) returns (n: nat)
      ensures n <= |runs|
      ensures n < |runs| ==> OldestToClaim(runs, now, locked, n)
      ensures n == |runs| ==> forall i: nat :: i < |runs| && i !in locked ==> !MayBeClaimed(runs[i], now)
    {
      n := 0;
      while n < |runs| && (n in locked || !Claimable(runs[n], now))
        invariant 0 <= n <= |runs|
        invariant forall j: nat :: j < n && j !in locked ==> !MayBeClaimed(runs[j], now)
      {
        n := n + 1;
      }
      assert n < |runs| ==> runs[n].leasedUntil.Some? ==> runs[n].leasedUntil == Some(runs[n].leasedUntil.value);
    }

    method ClaimNextRun(now: int, locked: set<nat>, version: nat, token: nat) returns (claim: Option<Claim>)
      modifies this`runs
      ensures (forall i: nat :: i < |old(runs)| && i !in locked ==> !MayBeClaimed(old(runs)[i], now))
              ==> claim == None && runs == old(runs)
      ensures forall n: nat :: OldestToClaim(old(runs), now, locked, n) ==>
                                 && runs == old(runs)[n := Claimed(old(runs)[n], now, version, token)]
                                 && ClaimsRun(old(runs), runs, n, now, version, token, claim)
    {
      var i := FindClaimable(now, locked);
      if i == |runs| {
        return None;
      }
      OneOldest(runs, now, locked, i);
      var r := runs[i];
      if r.attempts >= MAX_ATTEMPTS {
        runs := runs[i := Ended(r, RunFailed)];
        return None;
      }
      runs := runs[i := r.(status := Running, version := version, attempts := r.attempts + 1, token := Some(token),
                           leasedUntil := Some(now + LEASE_SECONDS))];
      return Some(Claim(i, token));
    }

    method Heartbeat(claim: Claim, now: int) returns (renewed: bool)
      modifies this`runs
      ensures State() == AfterHeartbeat(old(State()), claim, now)
      ensures renewed <==> Held(old(runs), claim)
      ensures runs == if renewed then old(runs)[claim.run := old(runs)[claim.run].(leasedUntil := Some(now + 90))]
                      else old(runs)
    {
      renewed := Holds(runs, claim);
      if renewed {
        runs := runs[claim.run := runs[claim.run].(leasedUntil := Some(now + LEASE_SECONDS))];
      }
    }

    method FailRun(claim: Claim)
      modifies this`runs
      ensures State() == AfterFailure(old(State()), claim)
      ensures !Held(old(runs), claim) ==> runs == old(runs)
      ensures Held(old(runs), claim) ==>
                var r := old(runs)[claim.run];
                runs == old(runs)[claim.run := r.(status := RunFailed, token := None, leasedUntil := None,
                                                  errors := r.errors + 1)]
    {
      if Holds(runs, claim) {
        var r := runs[claim.run];
        runs := runs[claim.run := r.(status := RunFailed, token := None, leasedUntil := None, errors := r.errors + 1)];
      }
    }

    /** Fails when the claim has been lost; the answers are those on the active branches of the chats. */
    method PrepareRun(claim: Claim, chats: seq<ChatInput>, answers: seq<G.Answer>) returns (r: Option<Prepared>)
      requires Holds(runs, claim) ==> runs[claim.run].revision < |revisions|
      requires G.DistinctMessages(answers) && forall a :: a in answers ==> a.conversation in Ids(chats)
      ensures r.Some? <==> Holds(runs, claim)
      ensures r.Some? ==> IsPrepared(State(), runs[claim.run], chats, answers, r.value)
      ensures r.Some? ==>
                var run := runs[claim.run];
                && r.value.revision == run.revision && r.value.all == chats
                && r.value.fingerprint == Fingerprint(run.model, run.version, revisions[run.revision].definitions)
                && IsPending(r.value.pending, rows, run.revision, r.value.fingerprint, run.backfill, chats)
    {
      if !Holds(runs, claim) {
        return None;
      }
      var current := runs[claim.run];
      var fingerprint := Fingerprint(current.model, current.version, revisions[current.revision].definitions);
      var pending: seq<ChatInput> := [];
      for i := 0 to |chats|
        invariant pending == PendingOf(rows, current.revision, fingerprint, current.backfill, chats[..i])
      {
        assert chats[..i + 1][..i] == chats[..i];
        var key := (chats[i].conversation, current.revision);
        if current.backfill || key !in rows || rows[key].result.branchHash != chats[i].branchHash
           || rows[key].fingerprint != fingerprint {
          pending := pending + [chats[i]];
        }
      }
      assert chats[..|chats|] == chats;
      PendingMembers(rows, current.revision, fingerprint, current.backfill, chats);
      var plan := G.PlanReferences(Ids(chats), answers, references.refs);
      return Some(Prepared(current.revision, fingerprint, chats, pending, plan));
    }

    method StoreResults(run: nat, p: Prepared, results: seq<ChatResult>)
      modifies this`rows
      ensures rows == StoredRows(old(rows), run, p, results)
    {
      var eligible := Ids(p.all);
      rows := map k | k in rows && (k.1 != p.revision || k.0 in eligible) :: rows[k];
      var failed := Ids(p.pending) - Succeeded(results);
      rows := map k | k in rows && (k.1 != p.revision || k.0 !in failed) :: rows[k];
      ghost var kept := Kept(old(rows), p.revision, Ids(p.all), failed);
      assert rows == kept;
      for i := 0 to |results|
        invariant rows == StoreAll(kept, p.revision, run, p.fingerprint, results[..i])
      {
        assert results[..i + 1][..i] == results[..i];
        rows := rows[(results[i].conversation, p.revision) := Row(run, p.fingerprint, results[i])];
      }
      assert results[..|results|] == results;
    }

    method CountFresh(p: Prepared) returns (count: nat)
      requires DistinctChats(p.all)
      ensures count == |set c | c in p.all && ExactRow(rows, p.revision, p.fingerprint, c) :: c.conversation|
      ensures count == |FreshIds(rows, p.revision, p.fingerprint, p.all)|
    {
      count := 0;
      for i := 0 to |p.all|
        invariant count == |FreshIds(rows, p.revision, p.fingerprint, p.all[..i])|
      {
        FreshIdsNext(rows, p, i);
        var key := (p.all[i].conversation, p.revision);
        if key in rows && rows[key].result.branchHash == p.all[i].branchHash && rows[key].fingerprint == p.fingerprint {
          count := count + 1;
        }
      }
      assert p.all[..|p.all|] == p.all;
      assert FreshIds(rows, p.revision, p.fingerprint, p.all)
             == set c | c in p.all && ExactRow(rows, p.revision, p.fingerprint, c) :: c.conversation;
    }

    method PublishRevision(n: nat)
      requires n < |revisions|
      modifies this`revisions
      ensures revisions == Publish(old(revisions), n) && Publishing(old(revisions), revisions, n)
    {
      PublishMeans(revisions, n);
      for i := 0 to |revisions|
        invariant |revisions| == |old(revisions)|
        invariant forall k :: 0 <= k < i ==>
                                revisions[k] == if old(revisions)[k].status == Published
                                                then old(revisions)[k].(status := Superseded) else old(revisions)[k]
        invariant forall k :: i <= k < |revisions| ==> revisions[k] == old(revisions)[k]
      {
        if revisions[i].status == Published {
          revisions := revisions[i := revisions[i].(status := Superseded)];
        }
      }
      revisions := revisions[n := revisions[n].(status := Published)];
    }

    method FinishRun(claim: Claim, p: Prepared, results: seq<ChatResult>, errors: nat, warning: bool)
      requires DistinctChats(p.all) && p.revision < |revisions|
      modifies this, references
      ensures State() == AfterFinish(old(State()), claim, p, results, errors, warning)
      ensures Held(old(runs), claim) ==> EndsRun(old(runs), runs, claim, p, errors, warning)
      ensures !Held(old(runs), claim) || errors > 0 ==> revisions == old(revisions)
      ensures revisions == old(revisions) || Publishing(old(revisions), revisions, p.revision)
    {
      PublishMeans(revisions, p.revision);
      if Holds(runs, claim) {
        FinishEndsRun(State(), claim, p, results, errors, warning);
      }
      if !Holds(runs, claim) {
        return;
      }
      var r := runs[claim.run].(eligible := |p.all|, errors := errors);
      var pending := revisions[p.revision].status == Pending;
      if pending && errors > 0 {
        runs := runs[claim.run := Ended(r, CompletedWithErrors).(classified := 0)];
        return;
      }
      StoreResults(claim.run, p, results);
      references.Reconcile(p.plan.eligible, p.plan.stale, p.plan.inputs, claim.run);
      var classified := CountFresh(p);
      if pending && errors == 0 && classified == |p.all| {
        PublishRevision(p.revision);
      }
      runs := runs[claim.run := Ended(r, Outcome(errors, warning)).(classified := classified)];
    }
  }

  lemma OneOldest(runs: seq<Run>, now: int, locked: set<nat>, n: nat)
    requires OldestToClaim(runs, now, locked, n)
    ensures forall k: nat :: OldestToClaim(runs, now, locked, k) ==> k == n
  {
    forall k: nat | OldestToClaim(runs, now, locked, k) ensures k == n {
      assert !(k < n) && !(n < k);
    }
  }

  lemma FreshIdsNext(rows: Rows, p: Prepared, i: nat)
    requires i < |p.all| && DistinctChats(p.all)
    ensures var before, after := FreshIds(rows, p.revision, p.fingerprint, p.all[..i]),
                                 FreshIds(rows, p.revision, p.fingerprint, p.all[..i + 1]);
            |after| == |before| + if HasFreshRow(rows, p.revision, p.fingerprint, p.all[i]) then 1 else 0
  {
    var before := FreshIds(rows, p.revision, p.fingerprint, p.all[..i]);
    var after := FreshIds(rows, p.revision, p.fingerprint, p.all[..i + 1]);
    var id := p.all[i].conversation;
    assert p.all[..i + 1] == p.all[..i] + [p.all[i]];
    assert id !in before;
    if HasFreshRow(rows, p.revision, p.fingerprint, p.all[i]) {
      assert after == before + {id};
    } else {
      assert after == before;
    }
  }
}
