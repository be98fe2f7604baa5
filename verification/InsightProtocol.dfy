/**
 Every interleaving of admissions, taxonomy changes, claims, heartbeats, preparations, late finishes
 and conversation deletions. A preparation and the results built on it may be finished by anyone
 holding its claim, however late.
 */
module InsightProtocol {
  import opened Options
  import opened InsightClassifier
  import opened InsightRuns
  import opened Batching
  import G = GroundingReferences

  /** A prepared run with what it was derived from. */
  datatype Preparation = Preparation(prepared: Prepared, answers: seq<G.Answer>, snapshot: G.References)

  datatype Event =
    | Admit(model: nat)
    | Queue(definitions: seq<string>, model: nat)
    | ClaimRun(run: nat, now: int, version: nat, token: nat)
    | Renewal(claim: Claim, now: int)
    | Failure(claim: Claim)
    | Prepare(claim: Claim, chats: seq<ChatInput>, answers: seq<G.Answer>, prepared: Prepared)
    | Finish(claim: Claim, results: seq<ChatResult>, errors: nat, warning: bool, via: Answering)
    | DeleteConversations(conversations: set<nat>)

  // `issued` and `preparations` (by token) record the past; no transaction reads `issued`.
  datatype World = World(db: Db, issued: set<nat>, preparations: map<nat, Preparation>)

  function Start(definitions: seq<string>): World {
    World(Db([], [Revision(definitions, Published)], map[], map[], 0), {}, map[])
  }

  /** The calls that classified the pending chats. */
  datatype Answering = Answering(batchSize: nat, calls: seq<BatchCall>)

  /** The result is the chat's own: what the model answered for it, or the default for a chat without text. */
  ghost predicate ResultOf(result: ChatResult, c: ChatInput, pending: seq<ChatInput>, definitions: seq<string>,
                           via: Answering) {
    via.batchSize > 0
    && ClassifiedAs(result, c, definitions, Batches(Filter(pending, false), via.batchSize), via.calls)
  }

  /** Each result is that of a different pending chat; without errors every chat has one. */
  ghost predicate ResultsFor(pending: seq<ChatInput>, definitions: seq<string>, via: Answering,
                             results: seq<ChatResult>, errors: nat) {
    exists answered: seq<ChatInput> ::
      && |results| == |answered|
      && (forall i :: 0 <= i < |results| ==> ResultOf(results[i], answered[i], pending, definitions, via))
      && multiset(answered) <= multiset(pending)
      && (errors == 0 ==> multiset(answered) == multiset(pending))
  }

  ghost predicate Delivered(p: Prepared, via: Answering, results: seq<ChatResult>, errors: nat) {
    ResultsFor(p.pending, p.fingerprint.definitions, via, results, errors)
  }

  /** What classifying the pending chats returns is fit to finish with, whatever the batches came to. */
  lemma ClassifierDelivers(pending: seq<ChatInput>, definitions: seq<string>, batchSize: nat, calls: seq<BatchCall>,
                           requestTypes: set<string>, results: seq<ChatResult>, otherErrors: nat)
    requires batchSize > 0 && |calls| == |Batches(Filter(pending, false), batchSize)|
    requires var batches := Batches(Filter(pending, false), batchSize);
             var answered := Filter(pending, true) + Answered(batches, calls, (set d <- definitions), requestTypes);
             AllClassified(results, answered, definitions, batches, calls)
    ensures var batches := Batches(Filter(pending, false), batchSize);
            ResultsFor(pending, definitions, Answering(batchSize, calls), results,
                       Errors(batches, calls, (set d <- definitions), requestTypes) + otherErrors)
  {
    var batches := Batches(Filter(pending, false), batchSize);
    var answered := Filter(pending, true) + Answered(batches, calls, (set d <- definitions), requestTypes);
    var errors := Errors(batches, calls, (set d <- definitions), requestTypes);
    ResultsAccountForRows(pending, batchSize, calls, (set d <- definitions), requestTypes);
    AnsweredDelivers(pending, definitions, batchSize, calls, results, answered, errors + otherErrors);
  }

  lemma AnsweredDelivers(pending: seq<ChatInput>, definitions: seq<string>, batchSize: nat, calls: seq<BatchCall>,
                         results: seq<ChatResult>, answered: seq<ChatInput>, errors: nat)
    requires batchSize > 0
    requires AllClassified(results, answered, definitions, Batches(Filter(pending, false), batchSize), calls)
    requires multiset(answered) <= multiset(pending) && (errors == 0 ==> multiset(answered) == multiset(pending))
    ensures ResultsFor(pending, definitions, Answering(batchSize, calls), results, errors)
  {
    forall i | 0 <= i < |results|
      ensures ResultOf(results[i], answered[i], pending, definitions, Answering(batchSize, calls))
    {
      assert ClassifiedAs(results[i], answered[i], definitions, Batches(Filter(pending, false), batchSize), calls);
    }
  }

  ghost predicate Enabled(w: World, e: Event) {
    match e
    case ClaimRun(run, now, _, token) => run < |w.db.runs| && Claimable(w.db.runs[run], now) && token !in w.issued
    case Prepare(claim, chats, answers, p) =>
      && Holds(w.db.runs, claim) && claim.token !in w.preparations
      && DistinctChats(chats) && IsPrepared(w.db, w.db.runs[claim.run], chats, answers, p)
    case Finish(claim, results, errors, _, via) =>
      && claim.token in w.preparations
      && Delivered(w.preparations[claim.token].prepared, via, results, errors)
    case _ => true
  }

  function WithoutConversations(db: Db, gone: set<nat>): Db {
    db.(rows := map k | k in db.rows && k.0 !in gone :: db.rows[k],
        refs := map k | k in db.refs && db.refs[k].conversation !in gone :: db.refs[k])
  }

  ghost function Apply(w: World, e: Event): World
    requires Enabled(w, e)
  {
    match e
    case Admit(model) => w.(db := AfterAdmit(w.db, model))
    case Queue(definitions, model) => w.(db := AfterQueue(w.db, definitions, model))
    case ClaimRun(run, now, version, token) =>
      w.(db := w.db.(runs := w.db.runs[run := Claimed(w.db.runs[run], now, version, token)]),
         issued := w.issued + {token})
    case Renewal(claim, now) => w.(db := AfterHeartbeat(w.db, claim, now))
    case Failure(claim) => w.(db := AfterFailure(w.db, claim))
    case Prepare(claim, chats, answers, p) =>
      w.(preparations := w.preparations[claim.token := Preparation(p, answers, w.db.refs)])
    case Finish(claim, results, errors, warning, _) =>
      w.(db := AfterFinish(w.db, claim, w.preparations[claim.token].prepared, results, errors, warning))
    case DeleteConversations(gone) => w.(db := WithoutConversations(w.db, gone))
  }

  ghost function Step(w: World, e: Event): World {
    if Enabled(w, e) then Apply(w, e) else w
  }

  ghost function After(w: World, events: seq<Event>): World
    decreases |events|
  {
    if events == [] then w else After(Step(w, events[0]), events[1..])
  }

  // ---------------------------------------------------------------------------------------------
  // The invariant
  // ---------------------------------------------------------------------------------------------

  ghost predicate AtMostOne(revisions: seq<Revision>, status: RevisionStatus) {
    forall i, j :: 0 <= i < j < |revisions| && revisions[i].status == status ==> revisions[j].status != status
  }

  ghost predicate RevisionsOk(revisions: seq<Revision>) {
    && AtMostOne(revisions, Published) && AtMostOne(revisions, Pending)
    && exists i :: 0 <= i < |revisions| && revisions[i].status == Published
  }

  ghost predicate AtMostOneActive(runs: seq<Run>) {
    forall i, j :: 0 <= i < |runs| && 0 <= j < |runs| && Active(runs[i]) && Active(runs[j]) ==> i == j
  }

  ghost predicate RunOk(w: World, r: Run) {
    && r.revision < |w.db.revisions|
    && r.attempts <= MAX_ATTEMPTS
    && (r.status == Running <==> r.token.Some?)
    && (r.status == Running <==> r.leasedUntil.Some?)
    && (r.token.Some? ==> r.token.value in w.issued)
    && (Active(r) ==> OnTarget(w.db.revisions, r))
  }

  /** An active run works on the one revision a new run would be given. */
  ghost predicate OnTarget(revisions: seq<Revision>, r: Run) {
    Target(revisions) == Some(r.revision) && r.revision < |revisions|
    && (r.backfill <==> revisions[r.revision].status == Pending)
  }

  ghost predicate RunsOk(w: World) {
    forall i :: 0 <= i < |w.db.runs| ==> RunOk(w, w.db.runs[i])
  }

  ghost predicate RefsOk(db: Db) {
    G.UniqueIds(db.refs) && G.IdsBelow(db.refs, db.nextRef)
  }

  /** What was prepared under a claim still holds of the rows it did not ask to classify. */
  ghost predicate StillExact(db: Db, r: Run, p: Preparation) {
    && p.prepared.revision == r.revision
    && DistinctChats(p.prepared.all)
    && (forall c :: c in p.prepared.pending ==> c in p.prepared.all)
    && (r.backfill ==> p.prepared.pending == p.prepared.all)
    && (forall c :: c in p.prepared.all && c !in p.prepared.pending
                    ==> ExactIfPresent(db.rows, r.revision, p.prepared.fingerprint, c))
    && p.prepared.plan.eligible == Ids(p.prepared.all)
    && G.Planned(p.prepared.plan, p.answers, p.snapshot)
    && G.UniqueIds(p.snapshot)
    && G.Shrunk(db.refs, p.snapshot)
  }

  ghost predicate ExactIfPresent(rows: Rows, revision: nat, fingerprint: Fingerprint, c: ChatInput) {
    (c.conversation, revision) in rows ==> ExactRow(rows, revision, fingerprint, c)
  }

  ghost predicate PreparationsOk(w: World) {
    && w.preparations.Keys <= w.issued
    && forall i :: 0 <= i < |w.db.runs| && w.db.runs[i].token.Some? && w.db.runs[i].token.value in w.preparations
                   ==> StillExact(w.db, w.db.runs[i], w.preparations[w.db.runs[i].token.value])
  }

  ghost predicate Inv(w: World) {
    RevisionsOk(w.db.revisions) && AtMostOneActive(w.db.runs) && RunsOk(w) && RefsOk(w.db) && PreparationsOk(w)
  }

  lemma StartOk(definitions: seq<string>)
    ensures Inv(Start(definitions))
  {
    assert Start(definitions).db.revisions[0].status == Published;
  }

  lemma AdmitKeepsInv(w: World, model: nat, w': World)
    requires Inv(w) && w' == w.(db := AfterAdmit(w.db, model))
    ensures Inv(w')
  {
    if w' != w {
      var n := |w.db.runs|;
      assert forall i :: 0 <= i < n ==> w.db.runs[i] in w.db.runs && !Active(w'.db.runs[i]);
      assert RunOk(w', w'.db.runs[n]);
      assert RunsOk(w');
    }
  }

  lemma QueueKeepsInv(w: World, definitions: seq<string>, model: nat)
    requires Inv(w)
    ensures Inv(w.(db := AfterQueue(w.db, definitions, model)))
  {
    if !QueueConflict(w.db) {
      var revisions' := w.db.revisions + [Revision(definitions, Pending)];
      var i :| 0 <= i < |w.db.revisions| && w.db.revisions[i].status == Published;
      assert revisions'[i].status == Published;
      var w1 := w.(db := w.db.(revisions := revisions'));
      assert forall i :: 0 <= i < |w.db.runs| ==> w.db.runs[i] in w.db.runs && !Active(w.db.runs[i]);
      assert RunsOk(w1);
      AdmitKeepsInv(w1, model, w1.(db := AfterAdmit(w1.db, model)));
    }
  }

  /** One run changes to a state that agrees with the rest, under the same or no preparation. */
  lemma RunChangeKeepsInv(w: World, n: nat, r: Run, w': World)
    requires Inv(w) && n < |w.db.runs| && (Active(r) ==> Active(w.db.runs[n]))
    requires w'.db == w.db.(runs := w.db.runs[n := r])
    requires w.issued <= w'.issued && w'.preparations == w.preparations
    requires RunOk(w', r)
    requires r.token.Some? && r.token.value in w.preparations ==> StillExact(w.db, r, w.preparations[r.token.value])
    ensures Inv(w')
  {
    var runs, runs' := w.db.runs, w'.db.runs;
    forall i | 0 <= i < |runs'| ensures RunOk(w', runs'[i]) {
      assert i != n ==> RunOk(w, runs[i]);
    }
    forall i | 0 <= i < |runs'| && runs'[i].token.Some? && runs'[i].token.value in w.preparations
      ensures StillExact(w'.db, runs'[i], w.preparations[runs'[i].token.value])
    {
      assert i != n ==> StillExact(w.db, runs[i], w.preparations[runs[i].token.value]);
    }
  }

  lemma HeldChangeKeepsInv(w: World, claim: Claim, e: Event)
    requires Inv(w) && (e == Failure(claim) || exists now :: e == Renewal(claim, now))
    ensures Inv(Apply(w, e))
  {
    if Holds(w.db.runs, claim) {
      var r := w.db.runs[claim.run];
      assert RunOk(w, r);
      var w' := Apply(w, e);
      RunChangeKeepsInv(w, claim.run, w'.db.runs[claim.run], w');
    }
  }

  lemma ClaimKeepsInv(w: World, e: Event)
    requires Inv(w) && e.ClaimRun? && Enabled(w, e)
    ensures Inv(Apply(w, e))
  {
    var w' := Apply(w, e);
    assert RunOk(w, w.db.runs[e.run]);
    RunChangeKeepsInv(w, e.run, w'.db.runs[e.run], w');
  }

  lemma PrepareKeepsInv(w: World, e: Event)
    requires Inv(w) && e.Prepare? && Enabled(w, e)
    ensures Inv(Apply(w, e))
  {
    var w' := Apply(w, e);
    var r, p := w.db.runs[e.claim.run], e.prepared;
    assert RunOk(w, r);
    PendingMembers(w.db.rows, r.revision, p.fingerprint, r.backfill, e.chats);
    assert StillExact(w.db, r, Preparation(p, e.answers, w.db.refs));
    forall i | 0 <= i < |w.db.runs| && w.db.runs[i].token == Some(e.claim.token) ensures i == e.claim.run {
      assert RunOk(w, w.db.runs[i]);
    }
    assert RunsOk(w') by {
      forall i | 0 <= i < |w.db.runs| ensures RunOk(w', w.db.runs[i]) {
        assert RunOk(w, w.db.runs[i]);
      }
    }
  }

  lemma DeleteKeepsExact(db: Db, gone: set<nat>, r: Run, p: Preparation)
    requires StillExact(db, r, p)
    ensures StillExact(WithoutConversations(db, gone), r, p)
  {
    var db' := WithoutConversations(db, gone);
    forall c | c in p.prepared.all && c !in p.prepared.pending
      ensures ExactIfPresent(db'.rows, r.revision, p.prepared.fingerprint, c)
    {
      assert ExactIfPresent(db.rows, r.revision, p.prepared.fingerprint, c);
    }
  }

  lemma DeleteKeepsInv(w: World, gone: set<nat>, w': World)
    requires Inv(w) && w' == w.(db := WithoutConversations(w.db, gone))
    ensures Inv(w')
  {
    forall i | 0 <= i < |w.db.runs| ensures RunOk(w', w.db.runs[i]) {
      assert RunOk(w, w.db.runs[i]);
    }
    forall i | 0 <= i < |w.db.runs| && w.db.runs[i].token.Some? && w.db.runs[i].token.value in w.preparations
      ensures StillExact(w'.db, w.db.runs[i], w.preparations[w.db.runs[i].token.value])
    {
      DeleteKeepsExact(w.db, gone, w.db.runs[i], w.preparations[w.db.runs[i].token.value]);
    }
  }

  lemma PublishOk(revisions: seq<Revision>, n: nat)
    requires RevisionsOk(revisions) && n < |revisions| && revisions[n].status == Pending
    ensures RevisionsOk(Publish(revisions, n))
    ensures Latest(Publish(revisions, n), Pending).None?
  {
    var r := Publish(revisions, n);
    assert r[n].status == Published;
    forall i | 0 <= i < |r| ensures r[i].status != Pending {
      assert i != n ==> revisions[i].status != Pending;
    }
  }

  /** After a finish under a valid claim no run is active, so nothing prepared is current any more. */
  lemma FinishEndsActivity(w: World, claim: Claim, p: Prepared, errors: nat, warning: bool, w': World)
    requires AtMostOneActive(w.db.runs) && RunsOk(w) && Holds(w.db.runs, claim)
    requires EndsRun(w.db.runs, w'.db.runs, claim, p, errors, warning)
    requires |w'.db.revisions| == |w.db.revisions| && w'.issued == w.issued
    ensures forall i :: 0 <= i < |w'.db.runs| ==> !Active(w'.db.runs[i]) && RunOk(w', w'.db.runs[i])
  {
    assert RunOk(w, w.db.runs[claim.run]);
    forall i | 0 <= i < |w.db.runs| ensures !Active(w'.db.runs[i]) && RunOk(w', w'.db.runs[i]) {
      assert RunOk(w, w.db.runs[i]);
    }
  }

  lemma FinishKeepsTables(db: Db, claim: Claim, p: Prepared, results: seq<ChatResult>, errors: nat, warning: bool)
    requires RevisionsOk(db.revisions) && RefsOk(db)
    ensures var db' := AfterFinish(db, claim, p, results, errors, warning);
            RevisionsOk(db'.revisions) && RefsOk(db')
  {
    if Publishes(db, claim.run, p, results, errors) {
      PublishOk(db.revisions, p.revision);
    }
    G.ReconciledUniqueIds(db.refs, db.nextRef, p.plan.eligible, p.plan.stale, p.plan.inputs, claim.run);
  }

  lemma QuietKeepsInv(w: World, w': World)
    requires RevisionsOk(w'.db.revisions) && RefsOk(w'.db) && PreparationsOk(w)
    requires w'.issued == w.issued && w'.preparations == w.preparations
    requires forall i :: 0 <= i < |w'.db.runs| ==> !Active(w'.db.runs[i]) && RunOk(w', w'.db.runs[i])
    ensures Inv(w')
  {
  }

  lemma FinishKeepsInv(w: World, e: Event)
    requires Inv(w) && e.Finish? && Enabled(w, e)
    ensures Inv(Apply(w, e))
  {
    if Holds(w.db.runs, e.claim) {
      var w' := Apply(w, e);
      var p := w.preparations[e.claim.token].prepared;
      FinishEndsRun(w.db, e.claim, p, e.results, e.errors, e.warning);
      FinishEndsActivity(w, e.claim, p, e.errors, e.warning, w');
      FinishKeepsTables(w.db, e.claim, p, e.results, e.errors, e.warning);
      QuietKeepsInv(w, w');
    }
  }

  lemma StepKeepsInv(w: World, e: Event)
    requires Inv(w)
    ensures Inv(Step(w, e))
  {
    if Enabled(w, e) {
      match e
      case Admit(model) => AdmitKeepsInv(w, model, Apply(w, e));
      case Queue(definitions, model) => QueueKeepsInv(w, definitions, model);
      case ClaimRun(_, _, _, _) => ClaimKeepsInv(w, e);
      case Renewal(claim, _) => HeldChangeKeepsInv(w, claim, e);
      case Failure(claim) => HeldChangeKeepsInv(w, claim, e);
      case Prepare(_, _, _, _) => PrepareKeepsInv(w, e);
      case Finish(_, _, _, _, _) => FinishKeepsInv(w, e);
      case DeleteConversations(gone) => DeleteKeepsInv(w, gone, Apply(w, e));
    }
  }

  lemma {:induction false} RunKeepsInv(w: World, events: seq<Event>)
    requires Inv(w)
    ensures Inv(After(w, events))
    decreases |events|
  {
    if events != [] {
      StepKeepsInv(w, events[0]);
      RunKeepsInv(Step(w, events[0]), events[1..]);
    }
  }

  /**
   Every reachable state has exactly one published revision and at most one pending one, and at most
   one active run, which works on the pending revision if there is one.
   */
  lemma OnePublishedAlways(definitions: seq<string>, events: seq<Event>)
    ensures var db := After(Start(definitions), events).db;
            && RevisionsOk(db.revisions)
            && AtMostOneActive(db.runs)
            && (forall r :: r in db.runs ==> r.attempts <= MAX_ATTEMPTS && (Active(r) ==> OnTarget(db.revisions, r)))
  {
    StartOk(definitions);
    RunKeepsInv(Start(definitions), events);
    var w := After(Start(definitions), events);
    forall r | r in w.db.runs ensures RunOk(w, r) {
      var i :| 0 <= i < |w.db.runs| && w.db.runs[i] == r;
    }
  }

  // ---------------------------------------------------------------------------------------------
  // What a finish leaves
  // ---------------------------------------------------------------------------------------------

  ghost predicate ResultAt(results: seq<ChatResult>, conversation: nat) {
    exists i :: 0 <= i < |results| && results[i].conversation == conversation
  }

  lemma {:induction false} StoreAllAt(rows: Rows, revision: nat, run: nat, fingerprint: Fingerprint,
                                      results: seq<ChatResult>, key: (nat, nat))
    ensures var r := StoreAll(rows, revision, run, fingerprint, results);
            var stored := key.1 == revision && ResultAt(results, key.0);
            && (key in r <==> stored || key in rows)
            && (stored ==> r[key].fingerprint == fingerprint && r[key].run == run
                           && r[key].result in results && r[key].result.conversation == key.0)
            && (!stored && key in rows ==> r[key] == rows[key])
  {
    if results != [] {
      var n := |results| - 1;
      StoreAllAt(rows, revision, run, fingerprint, results[..n], key);
      assert results == results[..n] + [results[n]];
      if ResultAt(results, key.0) && results[n].conversation != key.0 {
        var i :| 0 <= i < |results| && results[i].conversation == key.0;
        assert results[..n][i].conversation == key.0;
      }
    }
  }

  /** A result is that of a pending chat. */
  ghost predicate AnswersSome(r: ChatResult, p: Prepared, via: Answering) {
    exists c :: c in p.pending && ResultOf(r, c, p.pending, p.fingerprint.definitions, via)
  }

  /** Results answer prepared chats; without errors every one of them. */
  lemma ResultsAnswer(p: Prepared, via: Answering, results: seq<ChatResult>, errors: nat)
    requires Delivered(p, via, results, errors)
    ensures forall r :: r in results ==> AnswersSome(r, p, via)
    ensures errors == 0 ==> forall c :: c in p.pending ==> ResultAt(results, c.conversation)
  {
    var answered: seq<ChatInput> :|
      && |results| == |answered|
      && (forall i :: 0 <= i < |results|
                      ==> ResultOf(results[i], answered[i], p.pending, p.fingerprint.definitions, via))
      && multiset(answered) <= multiset(p.pending) && (errors == 0 ==> multiset(answered) == multiset(p.pending));
    forall r | r in results ensures AnswersSome(r, p, via) {
      var i :| 0 <= i < |results| && results[i] == r;
      assert answered[i] in multiset(answered);
      assert answered[i] in p.pending;
    }
    if errors == 0 {
      forall c | c in p.pending ensures ResultAt(results, c.conversation) {
        assert c in multiset(answered);
        var i :| 0 <= i < |answered| && answered[i] == c;
        assert results[i].conversation == c.conversation;
      }
    }
  }

  lemma SameChat(chats: seq<ChatInput>, c: ChatInput, d: ChatInput)
    requires DistinctChats(chats) && c in chats && d in chats && c.conversation == d.conversation
    ensures c == d
  {
  }

  ghost predicate SameRow(before: Rows, after: Rows, key: (nat, nat)) {
    (key in after <==> key in before) && (key in after ==> after[key] == before[key])
  }

  /** What a chat's row holds is its own result. */
  ghost predicate HoldsResultOf(rows: Rows, revision: nat, c: ChatInput, p: Prepared, via: Answering) {
    (c.conversation, revision) in rows
    && ResultOf(rows[(c.conversation, revision)].result, c, p.pending, p.fingerprint.definitions, via)
  }

  /** The row of a conversation of the run's revision once results are stored. */
  lemma StoredRowExact(db: Db, r: Run, run: nat, p: Preparation, via: Answering, results: seq<ChatResult>, errors: nat,
                       c: ChatInput)
    requires StillExact(db, r, p) && Delivered(p.prepared, via, results, errors) && c in p.prepared.all
    ensures var rows := StoredRows(db.rows, run, p.prepared, results);
            var key := (c.conversation, r.revision);
            && ExactIfPresent(rows, r.revision, p.prepared.fingerprint, c)
            && (c in p.prepared.pending ==> (key in rows <==> ResultAt(results, c.conversation)))
            && (c in p.prepared.pending && key in rows ==> HoldsResultOf(rows, r.revision, c, p.prepared, via))
            && (c !in p.prepared.pending ==> SameRow(db.rows, rows, key))
  {
    var q, key := p.prepared, (c.conversation, r.revision);
    var failed := Ids(q.pending) - Succeeded(results);
    var kept := Kept(db.rows, q.revision, Ids(q.all), failed);
    StoreAllAt(kept, q.revision, run, q.fingerprint, results, key);
    ResultsAnswer(q, via, results, errors);
    assert c.conversation in Ids(q.all);
    assert ResultAt(results, c.conversation) <==> c.conversation in Succeeded(results);
    var rows := StoredRows(db.rows, run, q, results);
    if ResultAt(results, c.conversation) {
      assert AnswersSome(rows[key].result, q, via);
      var d :| d in q.pending && ResultOf(rows[key].result, d, q.pending, q.fingerprint.definitions, via);
      SameChat(q.all, c, d);
    } else if c in q.pending {
      assert c.conversation in failed;
    } else {
      assert ExactIfPresent(db.rows, r.revision, q.fingerprint, c);
      if c.conversation in Ids(q.pending) {
        var d :| d in q.pending && d.conversation == c.conversation;
        SameChat(q.all, c, d);
      }
    }
  }

  /** Rows of other revisions are untouched, and rows of this one belong to prepared chats. */
  lemma StoredRowsElsewhere(db: Db, r: Run, run: nat, p: Preparation, via: Answering, results: seq<ChatResult>,
                            errors: nat, key: (nat, nat))
    requires StillExact(db, r, p) && Delivered(p.prepared, via, results, errors)
    ensures var rows := StoredRows(db.rows, run, p.prepared, results);
            && (key.1 != r.revision ==> SameRow(db.rows, rows, key))
            && (key.1 == r.revision && key in rows ==> key.0 in Ids(p.prepared.all))
  {
    var q := p.prepared;
    var failed := Ids(q.pending) - Succeeded(results);
    StoreAllAt(Kept(db.rows, q.revision, Ids(q.all), failed), q.revision, run, q.fingerprint, results, key);
    ResultsAnswer(q, via, results, errors);
    if ResultAt(results, key.0) {
      var i :| 0 <= i < |results| && results[i].conversation == key.0;
      assert AnswersSome(results[i], q, via);
    }
  }

  /** The conversations with a row under a revision. */
  ghost function RowIds(rows: Rows, revision: nat): set<nat> {
    set k | k in rows && k.1 == revision :: k.0
  }

  /** The run a claim still holds, with what was prepared under it. */
  ghost predicate Finishes(w: World, claim: Claim, p: Preparation) {
    Holds(w.db.runs, claim) && claim.token in w.preparations && p == w.preparations[claim.token]
  }

  /**
   After a finish under a valid claim that does not discard its work, every row of the revision is an
   eligible chat's with exactly the prepared hash and fingerprint, so the recorded count is the number
   of rows. Rows of other revisions are as before.
   */
  lemma FinishLeavesExactRows(w: World, claim: Claim, results: seq<ChatResult>, errors: nat, warning: bool,
                              via: Answering, p: Preparation)
    requires Inv(w) && Enabled(w, Finish(claim, results, errors, warning, via)) && Finishes(w, claim, p)
    requires !Discards(w.db, p.prepared, errors)
    ensures var db := Step(w, Finish(claim, results, errors, warning, via)).db;
            var revision := w.db.runs[claim.run].revision;
            && (forall c :: c in p.prepared.all ==> ExactIfPresent(db.rows, revision, p.prepared.fingerprint, c))
            && (forall c :: c in p.prepared.pending && c.conversation in RowIds(db.rows, revision)
                            ==> HoldsResultOf(db.rows, revision, c, p.prepared, via))
            && RowIds(db.rows, revision) <= Ids(p.prepared.all)
            && db.runs[claim.run].classified == |RowIds(db.rows, revision)|
            && (forall k: (nat, nat) :: k.1 != revision ==> SameRow(w.db.rows, db.rows, k))
  {
    var db := Step(w, Finish(claim, results, errors, warning, via)).db;
    var r := w.db.runs[claim.run];
    assert StillExact(w.db, r, p);
    forall c | c in p.prepared.all
      ensures ExactIfPresent(db.rows, r.revision, p.prepared.fingerprint, c)
      ensures c in p.prepared.pending && c.conversation in RowIds(db.rows, r.revision)
              ==> HoldsResultOf(db.rows, r.revision, c, p.prepared, via)
    {
      StoredRowExact(w.db, r, claim.run, p, via, results, errors, c);
    }
    forall k: (nat, nat)
      ensures k.1 == r.revision && k in db.rows ==> k.0 in Ids(p.prepared.all)
      ensures k.1 != r.revision ==> SameRow(w.db.rows, db.rows, k)
    {
      StoredRowsElsewhere(w.db, r, claim.run, p, via, results, errors, k);
    }
    CountIsRows(db.rows, r.revision, p.prepared.fingerprint, p.prepared.all);
  }

  lemma CountIsRows(rows: Rows, revision: nat, fingerprint: Fingerprint, chats: seq<ChatInput>)
    requires forall c :: c in chats ==> ExactIfPresent(rows, revision, fingerprint, c)
    requires RowIds(rows, revision) <= Ids(chats)
    ensures FreshIds(rows, revision, fingerprint, chats) == RowIds(rows, revision)
  {
    forall id ensures id in FreshIds(rows, revision, fingerprint, chats) <==> id in RowIds(rows, revision) {
      if id in RowIds(rows, revision) {
        var c :| c in chats && c.conversation == id;
        assert ExactIfPresent(rows, revision, fingerprint, c);
      }
      if id in FreshIds(rows, revision, fingerprint, chats) {
        var c :| c in chats && ExactRow(rows, revision, fingerprint, c) && c.conversation == id;
        assert (id, revision) in rows;
      }
    }
  }

  // ---------------------------------------------------------------------------------------------
  // Publication
  // ---------------------------------------------------------------------------------------------

  lemma {:induction false} CountIds(chats: seq<ChatInput>)
    requires DistinctChats(chats)
    ensures |Ids(chats)| == |chats|
  {
    if chats != [] {
      var n := |chats| - 1;
      CountIds(chats[..n]);
      assert chats == chats[..n] + [chats[n]];
      assert Ids(chats) == Ids(chats[..n]) + {chats[n].conversation};
    }
  }

  lemma FullSubset(a: set<nat>, b: set<nat>)
    requires a <= b && |a| == |b|
    ensures a == b
  {
    assert |b| == |a| + |b - a|;
    assert b == a + (b - a);
  }

  lemma FreshIdsWithin(rows: Rows, revision: nat, fingerprint: Fingerprint, chats: seq<ChatInput>)
    ensures FreshIds(rows, revision, fingerprint, chats) <= Ids(chats)
  {
  }

  /** The count reaches the number of chats exactly when each of them has a fresh row. */
  lemma FullCountMeansAllFresh(rows: Rows, revision: nat, fingerprint: Fingerprint, chats: seq<ChatInput>)
    requires DistinctChats(chats)
    ensures |FreshIds(rows, revision, fingerprint, chats)| == |chats| <==>
            forall c :: c in chats ==> ExactRow(rows, revision, fingerprint, c)
  {
    var fresh' := FreshIds(rows, revision, fingerprint, chats);
    CountIds(chats);
    FreshIdsWithin(rows, revision, fingerprint, chats);
    if forall c :: c in chats ==> ExactRow(rows, revision, fingerprint, c) {
      assert fresh' == Ids(chats);
    }
    if |fresh'| == |chats| {
      FullSubset(fresh', Ids(chats));
      forall c | c in chats ensures ExactRow(rows, revision, fingerprint, c) {
        assert c.conversation in fresh';
        var d :| d in chats && ExactRow(rows, revision, fingerprint, d) && d.conversation == c.conversation;
        SameChat(chats, c, d);
      }
    }
  }

  /** A revision is pending before the step and published after it. */
  ghost predicate PublishedBy(w: World, e: Event, n: nat) {
    n < |w.db.revisions| && w.db.revisions[n].status == Pending
    && n < |Step(w, e).db.revisions| && Step(w, e).db.revisions[n].status == Published
  }

  /**
   Publication happens only by an error-free finish, and then every prepared chat has a fresh row
   under the new revision and no other chat has a row there.
   */
  lemma PublishedWithAllRows(w: World, e: Event, n: nat)
    requires Inv(w) && PublishedBy(w, e, n)
    ensures e.Finish? && e.errors == 0 && Holds(w.db.runs, e.claim) && w.db.runs[e.claim.run].revision == n
    ensures var q := w.preparations[e.claim.token].prepared;
            var rows := Step(w, e).db.rows;
            && (forall c :: c in q.all ==> ExactRow(rows, n, q.fingerprint, c))
            && RowIds(rows, n) == Ids(q.all)
            && Publishing(w.db.revisions, Step(w, e).db.revisions, n)
  {
    PublishMeans(w.db.revisions, n);
    assert e.Finish?;
    var p := w.preparations[e.claim.token];
    assert Publishes(w.db, e.claim.run, p.prepared, e.results, e.errors);
    assert RunOk(w, w.db.runs[e.claim.run]);
    assert StillExact(w.db, w.db.runs[e.claim.run], p);
    FinishLeavesExactRows(w, e.claim, e.results, e.errors, e.warning, e.via, p);
    FullCountMeansAllFresh(Step(w, e).db.rows, n, p.prepared.fingerprint, p.prepared.all);
    forall id | id in Ids(p.prepared.all) ensures id in RowIds(Step(w, e).db.rows, n) {
      var c :| c in p.prepared.all && c.conversation == id;
      assert (c.conversation, n) in Step(w, e).db.rows;
    }
  }

  /** A backfill that still holds its claim publishes exactly when it had no errors. */
  lemma BackfillPublishesUnlessErrors(w: World, claim: Claim, results: seq<ChatResult>, errors: nat, warning: bool,
                                      via: Answering, p: Preparation)
    requires Inv(w) && Enabled(w, Finish(claim, results, errors, warning, via)) && Finishes(w, claim, p)
    requires w.db.runs[claim.run].backfill
    ensures PublishedBy(w, Finish(claim, results, errors, warning, via), w.db.runs[claim.run].revision) <==> errors == 0
  {
    var r := w.db.runs[claim.run];
    assert RunOk(w, r) && StillExact(w.db, r, p);
    if errors == 0 {
      var rows := StoredRows(w.db.rows, claim.run, p.prepared, results);
      ResultsAnswer(p.prepared, via, results, errors);
      forall c | c in p.prepared.all ensures ExactRow(rows, r.revision, p.prepared.fingerprint, c) {
        StoredRowExact(w.db, r, claim.run, p, via, results, errors, c);
      }
      FullCountMeansAllFresh(rows, r.revision, p.prepared.fingerprint, p.prepared.all);
      assert Publishes(w.db, claim.run, p.prepared, results, errors);
    }
  }

  /** A backfill with errors leaves revisions, classifications and references exactly as they were. */
  lemma FailingBackfillChangesNothing(w: World, claim: Claim, results: seq<ChatResult>, errors: nat, warning: bool,
                                      via: Answering, p: Preparation)
    requires Inv(w) && Enabled(w, Finish(claim, results, errors, warning, via)) && Finishes(w, claim, p)
    requires w.db.runs[claim.run].backfill && errors > 0
    ensures var db := Step(w, Finish(claim, results, errors, warning, via)).db;
            && db.revisions == w.db.revisions && db.rows == w.db.rows && db.refs == w.db.refs
            && db.runs[claim.run].status == CompletedWithErrors && db.runs[claim.run].classified == 0
  {
    assert RunOk(w, w.db.runs[claim.run]);
    assert StillExact(w.db, w.db.runs[claim.run], p);
  }

  function StatusRank(s: RevisionStatus): nat {
    match s case Pending => 0 case Published => 1 case Superseded => 2
  }

  /** Revisions are never removed or redefined, and only move from pending to published to superseded. */
  lemma {:induction false} RevisionsOnlyAdvance(w: World, events: seq<Event>, n: nat)
    requires Inv(w) && n < |w.db.revisions|
    ensures var w' := After(w, events);
            && n < |w'.db.revisions|
            && w'.db.revisions[n].definitions == w.db.revisions[n].definitions
            && StatusRank(w.db.revisions[n].status) <= StatusRank(w'.db.revisions[n].status)
            && (w.db.revisions[n].status == Superseded ==> w'.db.revisions[n].status == Superseded)
    decreases |events|
  {
    if events != [] {
      StepKeepsInv(w, events[0]);
      RevisionAdvances(w, events[0], n);
      RevisionsOnlyAdvance(Step(w, events[0]), events[1..], n);
    }
  }

  lemma RevisionAdvances(w: World, e: Event, n: nat)
    requires Inv(w) && n < |w.db.revisions|
    ensures Advances(w.db.revisions, Step(w, e).db.revisions, n)
  {
    if e.Finish? && Enabled(w, e) {
      FinishAdvances(w.db, e.claim, w.preparations[e.claim.token].prepared, e.results, e.errors, e.warning, n);
    }
  }

  /** A revision keeps its definitions and does not go back. */
  ghost predicate Advances(before: seq<Revision>, after: seq<Revision>, n: nat) {
    n < |before| && n < |after| && after[n].definitions == before[n].definitions
    && StatusRank(before[n].status) <= StatusRank(after[n].status)
  }

  lemma FinishAdvances(db: Db, claim: Claim, p: Prepared, results: seq<ChatResult>, errors: nat, warning: bool, n: nat)
    requires n < |db.revisions|
    ensures Advances(db.revisions, AfterFinish(db, claim, p, results, errors, warning).revisions, n)
  {
  }

  // ---------------------------------------------------------------------------------------------
  // Fencing
  // ---------------------------------------------------------------------------------------------

  /** The token was handed out and no run is leased under it any more. */
  ghost predicate Lost(w: World, token: nat) {
    token in w.issued && forall i :: 0 <= i < |w.db.runs| ==> w.db.runs[i].token != Some(token)
  }

  lemma LostForGood(w: World, token: nat, e: Event)
    requires Inv(w) && Lost(w, token)
    ensures Lost(Step(w, e), token)
  {
    var w' := Step(w, e);
    if Enabled(w, e) {
      if e.Finish? && Holds(w.db.runs, e.claim) {
        FinishEndsRun(w.db, e.claim, w.preparations[e.claim.token].prepared, e.results, e.errors, e.warning);
      }
      assert w.issued <= w'.issued;
      forall i | 0 <= i < |w'.db.runs| ensures w'.db.runs[i].token != Some(token) {
        assert i < |w.db.runs| ==> w.db.runs[i].token != Some(token);
      }
    }
  }

  lemma {:induction false} LostAlong(w: World, token: nat, events: seq<Event>)
    requires Inv(w) && Lost(w, token)
    ensures Lost(After(w, events), token)
    decreases |events|
  {
    if events != [] {
      LostForGood(w, token, events[0]);
      StepKeepsInv(w, events[0]);
      LostAlong(Step(w, events[0]), token, events[1..]);
    }
  }

  predicate ActsFor(e: Event, token: nat) {
    match e
    case Renewal(claim, _) => claim.token == token
    case Failure(claim) => claim.token == token
    case Prepare(claim, _, _, _) => claim.token == token
    case Finish(claim, _, _, _, _) => claim.token == token
    case _ => false
  }

  /** Once a run has been reclaimed or ended, whatever its earlier holder still does changes nothing. */
  lemma LateFinishersAreFenced(definitions: seq<string>, before: seq<Event>, run: nat, e: Event, after: seq<Event>,
                               late: Event)
    requires var w := After(Start(definitions), before);
             && run < |w.db.runs| && w.db.runs[run].token.Some?
             && Step(w, e).db.runs[run].token != w.db.runs[run].token
             && ActsFor(late, w.db.runs[run].token.value)
    ensures var w' := After(Step(After(Start(definitions), before), e), after);
            Step(w', late) == w'
  {
    StartOk(definitions);
    RunKeepsInv(Start(definitions), before);
    var w := After(Start(definitions), before);
    var token := w.db.runs[run].token.value;
    StepKeepsInv(w, e);
    assert RunOk(w, w.db.runs[run]);
    LosingTheToken(w, e, run);
    LostAlong(Step(w, e), token, after);
    var w' := After(Step(w, e), after);
    forall claim: Claim | claim.token == token ensures !Holds(w'.db.runs, claim) {
    }
  }

  lemma LosingTheToken(w: World, e: Event, run: nat)
    requires Inv(w) && run < |w.db.runs| && w.db.runs[run].token.Some?
    requires run < |Step(w, e).db.runs| && Step(w, e).db.runs[run].token != w.db.runs[run].token
    ensures Lost(Step(w, e), w.db.runs[run].token.value)
  {
    var w', token := Step(w, e), w.db.runs[run].token;
    assert RunOk(w, w.db.runs[run]);
    forall i | 0 <= i < |w.db.runs| && w.db.runs[i].token == token ensures i == run {
      assert RunOk(w, w.db.runs[i]);
    }
  }

  lemma EndedRunStays(w: World, e: Event, n: nat)
    requires Inv(w) && n < |w.db.runs| && !Active(w.db.runs[n])
    ensures n < |Step(w, e).db.runs| && Step(w, e).db.runs[n] == w.db.runs[n]
  {
  }

  /** The run is leased under this token, at least until then. */
  ghost predicate LeasedTo(r: Run, token: nat, until: int) {
    r.status == Running && r.token == Some(token) && r.leasedUntil.Some? && r.leasedUntil.value >= until
  }

  /** Not the holder letting go, and no claim attempted after the lease. */
  ghost predicate WithinLease(e: Event, token: nat, until: int) {
    && (e.ClaimRun? ==> e.now <= until)
    && (ActsFor(e, token) ==> e.Prepare? || (e.Renewal? && e.now + 90 >= until))
  }

  lemma LeaseHoldsOneStep(w: World, n: nat, token: nat, until: int, e: Event)
    requires n < |w.db.runs| && LeasedTo(w.db.runs[n], token, until) && WithinLease(e, token, until)
    ensures n < |Step(w, e).db.runs| && LeasedTo(Step(w, e).db.runs[n], token, until)
  {
    if e.Finish? && Enabled(w, e) {
      FinishLeavesRun(w.db, e.claim, w.preparations[e.claim.token].prepared, e.results, e.errors, e.warning, n);
    }
  }

  lemma FinishLeavesRun(db: Db, claim: Claim, p: Prepared, results: seq<ChatResult>, errors: nat, warning: bool, n: nat)
    requires n < |db.runs| && !(Holds(db.runs, claim) && claim.run == n)
    ensures var after := AfterFinish(db, claim, p, results, errors, warning);
            n < |after.runs| && after.runs[n] == db.runs[n]
  {
  }

  /** Until its lease runs out, or its holder lets go, nobody can take a run from a worker. */
  lemma {:induction false} LeaseExcludesOthers(w: World, n: nat, token: nat, until: int, events: seq<Event>)
    requires n < |w.db.runs| && LeasedTo(w.db.runs[n], token, until)
    requires forall e :: e in events ==> WithinLease(e, token, until)
    ensures n < |After(w, events).db.runs| && LeasedTo(After(w, events).db.runs[n], token, until)
    decreases |events|
  {
    if events != [] {
      LeaseHoldsOneStep(w, n, token, until, events[0]);
      LeaseExcludesOthers(Step(w, events[0]), n, token, until, events[1..]);
    }
  }

  /** A heartbeat secures the run for 90 more seconds, whatever lease it had before. */
  lemma RenewalSecuresTheLease(w: World, claim: Claim, now: int, events: seq<Event>)
    requires Held(w.db.runs, claim)
    requires forall e :: e in events ==> WithinLease(e, claim.token, now + 90)
    ensures var renewed := Step(w, Renewal(claim, now));
            && claim.run < |After(renewed, events).db.runs|
            && LeasedTo(After(renewed, events).db.runs[claim.run], claim.token, now + 90)
  {
    LeaseExcludesOthers(Step(w, Renewal(claim, now)), claim.run, claim.token, now + 90, events);
  }

  /** A run that has ended never changes again. */
  lemma {:induction false} EndedRunsAreFinal(w: World, events: seq<Event>, n: nat)
    requires Inv(w) && n < |w.db.runs| && !Active(w.db.runs[n])
    ensures n < |After(w, events).db.runs| && After(w, events).db.runs[n] == w.db.runs[n]
    decreases |events|
  {
    if events != [] {
      StepKeepsInv(w, events[0]);
      EndedRunStays(w, events[0], n);
      EndedRunsAreFinal(Step(w, events[0]), events[1..], n);
    }
  }

  // ---------------------------------------------------------------------------------------------
  // References
  // ---------------------------------------------------------------------------------------------

  /**
   After a finish that does not discard its work, an active answer whose selections all resolved has
   exactly its newly derived references, one with unresolved selections keeps what it still had
   overlaid by the new ones, and no other message has any.
   */
  lemma FinishReconcilesReferences(w: World, claim: Claim, results: seq<ChatResult>, errors: nat, warning: bool,
                                   via: Answering, p: Preparation, key: (nat, string))
    requires Inv(w) && Enabled(w, Finish(claim, results, errors, warning, via)) && Finishes(w, claim, p)
    requires !Discards(w.db, p.prepared, errors)
    ensures var refs := Step(w, Finish(claim, results, errors, warning, via)).db.refs;
            && (key in refs ==> exists a :: a in p.answers && a.message == key.0)
            && forall a :: a in p.answers && a.message == key.0
                           ==> ReferencesOf(w.db.refs, refs, a, key, Ids(p.prepared.all), claim.run)
  {
    assert StillExact(w.db, w.db.runs[claim.run], p);
    var plan := p.prepared.plan;
    forall a | a in p.answers && a.message == key.0
      ensures ReferencesOf(w.db.refs, Step(w, Finish(claim, results, errors, warning, via)).db.refs, a, key,
                           Ids(p.prepared.all), claim.run)
    {
      G.ReconciledAnswer(plan, p.answers, p.snapshot, w.db.refs, w.db.nextRef, claim.run, a, key.1);
    }
    if forall a :: a in p.answers ==> a.message != key.0 {
      G.ReconciledElsewhere(plan, p.answers, p.snapshot, w.db.refs, w.db.nextRef, claim.run, key);
    }
  }

  /**
   An answer has its derived references and, while some of its selections are unresolved, those it had
   in eligible conversations.
   */
  ghost predicate ReferencesOf(before: G.References, after: G.References, a: G.Answer, key: (nat, string),
                               eligible: set<nat>, run: nat) {
    var kept := G.HasUnresolved(a) && key in before && before[key].conversation in eligible;
    && (key in after <==> G.Grounds(a, key.1) || kept)
    && (G.Grounds(a, key.1) ==> G.Derived(after[key], a, key.1, run))
    && (!G.Grounds(a, key.1) && kept ==> after[key] == before[key])
  }
}
