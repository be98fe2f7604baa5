/**
 The table of documents that grounded assistant answers. Preparing a run derives the references of
 every active answer; finishing it reconciles the stored rows with them.
 */
module GroundingReferences {
  import opened Options
  import opened Batching

  const DELETE_BATCH := 1000

  // What a reference says about its document; opaque to the reconciliation.
  datatype Content = Content(document: Option<nat>, title: string, url: string, branchHash: nat)

  datatype Reference = Reference(id: nat, conversation: nat, run: nat, content: Content)

  // At most one row per assistant message and source key.
  type References = map<(nat, string), Reference>

  datatype ReferenceInput = ReferenceInput(message: nat, conversation: nat, sourceKey: string, content: Content)

  /** A source selected for an answer, with the stable key it is stored under. */
  datatype Source = Source(key: string, sourceKey: string, canned: bool, content: Content)

  /** An assistant message on an active branch, with what its selections asked for and resolved to. */
  datatype Answer = Answer(
    message: nat, conversation: nat, grounded: bool, requested: set<string>, selected: seq<Source>)

  /** Nothing was selected, or everything requested could be resolved. */
  predicate Resolved(a: Answer) {
    !a.grounded || a.requested <= set s <- a.selected :: s.key
  }

  /** A source the answer asked for was not among those found. */
  ghost predicate HasUnresolved(a: Answer) {
    a.grounded && exists k :: k in a.requested && forall s :: s in a.selected ==> s.key != k
  }

  lemma ResolvedMeans(a: Answer)
    ensures HasUnresolved(a) <==> !Resolved(a)
  {
    if a.grounded && !Resolved(a) {
      var k :| k in a.requested && k !in set s <- a.selected :: s.key;
      assert forall s :: s in a.selected ==> s.key != k;
    }
  }

  /** The references of an answer: its document sources, the first of each key. */
  function Derive(a: Answer, count: nat): (r: seq<ReferenceInput>)
    requires count <= |a.selected|
  {
    if count == 0 || !a.grounded then []
    else
      var s := a.selected[count - 1];
      var rest := Derive(a, count - 1);
      if s.canned || HasKey(rest, s.sourceKey) then rest
      else rest + [ReferenceInput(a.message, a.conversation, s.sourceKey, s.content)]
  }

  function DeriveAll(answers: seq<Answer>): seq<ReferenceInput> {
    if answers == [] then []
    else
      var n := |answers| - 1;
      DeriveAll(answers[..n]) + Derive(answers[n], |answers[n].selected|)
  }

  /** The first document source of the answer under this key. */
  ghost predicate FirstUnder(a: Answer, sourceKey: string, content: Content) {
    a.grounded
    && exists i: nat :: LeadsAt(a, i) && a.selected[i].sourceKey == sourceKey && a.selected[i].content == content
  }

  ghost predicate DistinctMessages(answers: seq<Answer>) {
    forall i, j :: 0 <= i < j < |answers| ==> answers[i].message != answers[j].message
  }

  ghost predicate DistinctKeys(inputs: seq<ReferenceInput>) {
    forall i, j :: 0 <= i < j < |inputs| ==>
                     inputs[i].message != inputs[j].message || inputs[i].sourceKey != inputs[j].sourceKey
  }

  ghost predicate Offers(inputs: seq<ReferenceInput>, message: nat, sourceKey: string, conversation: nat,
                         content: Content) {
    ReferenceInput(message, conversation, sourceKey, content) in inputs
  }

  predicate HasKey(inputs: seq<ReferenceInput>, sourceKey: string) {
    exists x :: x in inputs && x.sourceKey == sourceKey
  }

  /** Source `i` is a document, and no document before it has its key. */
  ghost predicate LeadsAt(a: Answer, i: nat) {
    i < |a.selected| && !a.selected[i].canned
    && forall j :: 0 <= j < i ==> a.selected[j].canned || a.selected[j].sourceKey != a.selected[i].sourceKey
  }

  /** Exactly the keys of the document sources seen so far are derived. */
  lemma {:induction false} DeriveKeys(a: Answer, count: nat)
    requires count <= |a.selected| && a.grounded
    ensures forall k :: HasKey(Derive(a, count), k) <==>
                        exists i :: 0 <= i < count && !a.selected[i].canned && a.selected[i].sourceKey == k
  {
    if count > 0 {
      DeriveKeys(a, count - 1);
      var s, rest, r := a.selected[count - 1], Derive(a, count - 1), Derive(a, count);
      forall k ensures HasKey(r, k) <==> HasKey(rest, k) || (!s.canned && s.sourceKey == k) {
        if r != rest {
          var last := ReferenceInput(a.message, a.conversation, s.sourceKey, s.content);
          assert r == rest + [last] && last in r;
          forall x | x in rest ensures x in r {}
        }
      }
    }
  }

  /** Every derived reference is the first document source of its key. */
  lemma {:induction false} DeriveSound(a: Answer, count: nat)
    requires count <= |a.selected|
    ensures forall x :: x in Derive(a, count) ==>
                          x.message == a.message && x.conversation == a.conversation
                          && FirstUnder(a, x.sourceKey, x.content)
    ensures DistinctKeys(Derive(a, count))
  {
    if count > 0 && a.grounded {
      DeriveSound(a, count - 1);
      DeriveKeys(a, count - 1);
      var s, rest := a.selected[count - 1], Derive(a, count - 1);
      if !s.canned && !HasKey(rest, s.sourceKey) {
        assert LeadsAt(a, count - 1);
        forall i | 0 <= i < |rest| ensures rest[i].sourceKey != s.sourceKey {
          assert rest[i] in rest;
        }
      }
    }
  }

  lemma FirstUnderUnique(a: Answer, sourceKey: string, c: Content, d: Content)
    requires FirstUnder(a, sourceKey, c) && FirstUnder(a, sourceKey, d)
    ensures c == d
  {
    var i: nat :| LeadsAt(a, i) && a.selected[i].sourceKey == sourceKey && a.selected[i].content == c;
    var j: nat :| LeadsAt(a, j) && a.selected[j].sourceKey == sourceKey && a.selected[j].content == d;
    assert !(i < j) && !(j < i);
  }

  /** The first document source of every key is derived. */
  lemma DeriveComplete(a: Answer, sourceKey: string, c: Content)
    requires FirstUnder(a, sourceKey, c)
    ensures Offers(Derive(a, |a.selected|), a.message, sourceKey, a.conversation, c)
  {
    DeriveKeys(a, |a.selected|);
    DeriveSound(a, |a.selected|);
    var i: nat :| LeadsAt(a, i) && a.selected[i].sourceKey == sourceKey && a.selected[i].content == c;
    assert HasKey(Derive(a, |a.selected|), sourceKey);
    var x :| x in Derive(a, |a.selected|) && x.sourceKey == sourceKey;
    FirstUnderUnique(a, sourceKey, c, x.content);
  }

  /** The derived references offer exactly the first document source of every key of an active answer. */
  lemma {:induction false} DeriveAllFacts(answers: seq<Answer>)
    requires DistinctMessages(answers)
    ensures DistinctKeys(DeriveAll(answers))
    ensures forall x :: x in DeriveAll(answers) ==>
                          exists i :: 0 <= i < |answers| && answers[i].message == x.message
                                      && answers[i].conversation == x.conversation
                                      && FirstUnder(answers[i], x.sourceKey, x.content)
    ensures forall i, k, c :: 0 <= i < |answers| && FirstUnder(answers[i], k, c)
                              ==> Offers(DeriveAll(answers), answers[i].message, k, answers[i].conversation, c)
  {
    if answers != [] {
      var n := |answers| - 1;
      var a := answers[n];
      var before, mine := DeriveAll(answers[..n]), Derive(a, |a.selected|);
      DeriveAllFacts(answers[..n]);
      DeriveSound(a, |a.selected|);
      forall x | x in before ensures x.message != a.message {
        var i :| 0 <= i < n && answers[..n][i].message == x.message;
      }
      forall i, j | 0 <= i < j < |before + mine|
        ensures (before + mine)[i].message != (before + mine)[j].message
                || (before + mine)[i].sourceKey != (before + mine)[j].sourceKey
      {
        if i < |before| && j >= |before| {
          assert before[i] in before && mine[j - |before|] in mine;
        }
      }
      forall i, k, c | 0 <= i < |answers| && FirstUnder(answers[i], k, c)
        ensures Offers(before + mine, answers[i].message, k, answers[i].conversation, c)
      {
        if i < n {
          assert answers[..n][i] == answers[i];
          assert Offers(before, answers[i].message, k, answers[i].conversation, c);
        } else {
          DeriveComplete(a, k, c);
        }
      }
      forall x | x in before + mine
        ensures exists i :: 0 <= i < |answers| && answers[i].message == x.message
                            && answers[i].conversation == x.conversation
                            && FirstUnder(answers[i], x.sourceKey, x.content)
      {
        if x in before {
          var i :| 0 <= i < n && answers[..n][i].message == x.message
                   && answers[..n][i].conversation == x.conversation
                   && FirstUnder(answers[..n][i], x.sourceKey, x.content);
          assert answers[i] == answers[..n][i];
        }
      }
    }
  }

  /** Rows to delete: of eligible chats, off the active branches or about to be replaced. */
  predicate Stale(key: (nat, string), r: Reference, eligible: set<nat>, active: set<nat>, replaced: set<nat>) {
    r.conversation in eligible && (key.0 !in active || key.0 in replaced)
  }

  ghost function StaleIds(refs: References, eligible: set<nat>, active: set<nat>, replaced: set<nat>): set<nat> {
    set key | key in refs && Stale(key, refs[key], eligible, active, replaced) :: refs[key].id
  }

  function Remaining(refs: References, eligible: set<nat>, stale: seq<nat>): References {
    map key | key in refs && refs[key].conversation in eligible && refs[key].id !in stale :: refs[key]
  }

  /** Inserts a reference, or updates the row that already has its key. */
  function Upsert(refs: References, nextId: nat, input: ReferenceInput, run: nat): References {
    var key := (input.message, input.sourceKey);
    var id := if key in refs then refs[key].id else nextId;
    refs[key := Reference(id, input.conversation, run, input.content)]
  }

  function UpsertAll(refs: References, nextId: nat, inputs: seq<ReferenceInput>, run: nat): References {
    if inputs == [] then refs
    else
      var n := |inputs| - 1;
      Upsert(UpsertAll(refs, nextId, inputs[..n], run), nextId + n, inputs[n], run)
  }

  function Reconciled(refs: References, nextId: nat, eligible: set<nat>, stale: seq<nat>, inputs: seq<ReferenceInput>,
                      run: nat): References
  {
    UpsertAll(Remaining(refs, eligible, stale), nextId, inputs, run)
  }

  ghost predicate InputFor(inputs: seq<ReferenceInput>, key: (nat, string), r: Reference, run: nat) {
    Offers(inputs, key.0, key.1, r.conversation, r.content) && r.run == run
  }

  ghost predicate Mentions(inputs: seq<ReferenceInput>, key: (nat, string)) {
    exists i :: 0 <= i < |inputs| && (inputs[i].message, inputs[i].sourceKey) == key
  }

  lemma {:induction false} UpsertAllAt(refs: References, nextId: nat, inputs: seq<ReferenceInput>, run: nat,
                                       key: (nat, string))
    ensures var r := UpsertAll(refs, nextId, inputs, run);
            && (key in r <==> key in refs || Mentions(inputs, key))
            && (Mentions(inputs, key) ==> InputFor(inputs, key, r[key], run))
            && (!Mentions(inputs, key) && key in refs ==> r[key] == refs[key])
            && (key in refs ==> r[key].id == refs[key].id)
  {
    if inputs != [] {
      var n := |inputs| - 1;
      UpsertAllAt(refs, nextId, inputs[..n], run, key);
      assert inputs == inputs[..n] + [inputs[n]];
      if Mentions(inputs[..n], key) {
        var i :| 0 <= i < n && (inputs[..n][i].message, inputs[..n][i].sourceKey) == key;
        assert (inputs[i].message, inputs[i].sourceKey) == key;
      }
      if Mentions(inputs, key) && (inputs[n].message, inputs[n].sourceKey) != key {
        var i :| 0 <= i < |inputs| && (inputs[i].message, inputs[i].sourceKey) == key;
        assert (inputs[..n][i].message, inputs[..n][i].sourceKey) == key;
      }
    }
  }

  /** What preparing a run reads off the answers and the stored rows. */
  datatype Plan = Plan(eligible: set<nat>, inputs: seq<ReferenceInput>, stale: seq<nat>)

  /** The plan was derived from these answers and rows. */
  ghost predicate Planned(plan: Plan, answers: seq<Answer>, refs: References) {
    var active := set a <- answers :: a.message;
    var replaced := set a | a in answers && Resolved(a) :: a.message;
    && DistinctMessages(answers)
    && (forall a :: a in answers ==> a.conversation in plan.eligible)
    && plan.inputs == DeriveAll(answers)
    && (set id <- plan.stale) == StaleIds(refs, plan.eligible, active, replaced)
  }

  ghost predicate UniqueIds(refs: References) {
    forall k, l :: k in refs && l in refs && refs[k].id == refs[l].id ==> k == l
  }

  /** Rows can only have disappeared since the plan was made. */
  ghost predicate Shrunk(refs: References, before: References) {
    forall k :: k in refs ==> k in before && refs[k] == before[k]
  }

  ghost predicate AnswerTo(answers: seq<Answer>, message: nat, a: Answer) {
    a in answers && a.message == message
  }

  lemma StaleMeans(plan: Plan, answers: seq<Answer>, before: References, refs: References, key: (nat, string))
    requires Planned(plan, answers, before) && UniqueIds(before) && Shrunk(refs, before) && key in refs
    ensures key in Remaining(refs, plan.eligible, plan.stale) <==>
            refs[key].conversation in plan.eligible && exists a :: AnswerTo(answers, key.0, a) && HasUnresolved(a)
  {
    forall a ensures HasUnresolved(a) <==> !Resolved(a) {
      ResolvedMeans(a);
    }
    var active := set a <- answers :: a.message;
    var replaced := set a | a in answers && Resolved(a) :: a.message;
    var r := refs[key];
    assert r.id in plan.stale <==> r.id in StaleIds(before, plan.eligible, active, replaced);
    if r.id in plan.stale {
      var other :| other in before && Stale(other, before[other], plan.eligible, active, replaced)
                   && before[other].id == r.id;
      assert other == key;
    }
    assert r.id in plan.stale <==> Stale(key, r, plan.eligible, active, replaced);
    forall a, b | AnswerTo(answers, key.0, a) && AnswerTo(answers, key.0, b) ensures a == b {
    }
    if key.0 in active {
      var a :| a in answers && a.message == key.0;
      assert AnswerTo(answers, key.0, a);
    }
  }

  ghost predicate Grounds(a: Answer, sourceKey: string) {
    exists c :: FirstUnder(a, sourceKey, c)
  }

  lemma AnswersUnique(answers: seq<Answer>, message: nat, a: Answer, b: Answer)
    requires DistinctMessages(answers) && AnswerTo(answers, message, a) && AnswerTo(answers, message, b)
    ensures a == b
  {
  }

  /** Whatever is offered under a key comes from the active answer to its message. */
  lemma OfferedFrom(answers: seq<Answer>, x: ReferenceInput) returns (a: Answer)
    requires DistinctMessages(answers) && x in DeriveAll(answers)
    ensures AnswerTo(answers, x.message, a) && a.conversation == x.conversation
    ensures FirstUnder(a, x.sourceKey, x.content)
  {
    DeriveAllFacts(answers);
    var i :| 0 <= i < |answers| && answers[i].message == x.message
             && answers[i].conversation == x.conversation && FirstUnder(answers[i], x.sourceKey, x.content);
    a := answers[i];
  }

  /** An answer's grounded keys are offered. */
  lemma GroundedIsOffered(answers: seq<Answer>, a: Answer, sourceKey: string)
    requires DistinctMessages(answers) && a in answers && Grounds(a, sourceKey)
    ensures Mentions(DeriveAll(answers), (a.message, sourceKey))
  {
    DeriveAllFacts(answers);
    var c :| FirstUnder(a, sourceKey, c);
    var i :| 0 <= i < |answers| && answers[i] == a;
    assert Offers(DeriveAll(answers), answers[i].message, sourceKey, answers[i].conversation, c);
    var n :| 0 <= n < |DeriveAll(answers)|
             && DeriveAll(answers)[n] == ReferenceInput(a.message, a.conversation, sourceKey, c);
    assert (DeriveAll(answers)[n].message, DeriveAll(answers)[n].sourceKey) == (a.message, sourceKey);
  }

  /** A key is offered only if the active answer to its message is grounded in it. */
  lemma OfferedIsGrounded(answers: seq<Answer>, key: (nat, string)) returns (a: Answer)
    requires DistinctMessages(answers) && Mentions(DeriveAll(answers), key)
    ensures AnswerTo(answers, key.0, a) && Grounds(a, key.1)
  {
    var inputs := DeriveAll(answers);
    var i :| 0 <= i < |inputs| && (inputs[i].message, inputs[i].sourceKey) == key;
    a := OfferedFrom(answers, inputs[i]);
  }

  /** The reference was derived in this run from the answer's own sources. */
  ghost predicate Derived(r: Reference, a: Answer, sourceKey: string, run: nat) {
    FirstUnder(a, sourceKey, r.content) && r.conversation == a.conversation && r.run == run
  }

  /**
   After reconciliation a resolved answer has exactly its newly derived references; an unresolved one
   keeps its old references overlaid by the new ones.
   */
  lemma ReconciledAnswer(plan: Plan, answers: seq<Answer>, before: References, refs: References, nextId: nat,
                         run: nat, a: Answer, sourceKey: string)
    requires Planned(plan, answers, before) && UniqueIds(before) && Shrunk(refs, before) && a in answers
    ensures var r := Reconciled(refs, nextId, plan.eligible, plan.stale, plan.inputs, run);
            var key := (a.message, sourceKey);
            var kept := HasUnresolved(a) && key in refs && refs[key].conversation in plan.eligible;
            && (key in r <==> Grounds(a, sourceKey) || kept)
            && (Grounds(a, sourceKey) ==> Derived(r[key], a, sourceKey, run))
            && (!Grounds(a, sourceKey) && kept ==> r[key] == refs[key])
  {
    var key := (a.message, sourceKey);
    assert AnswerTo(answers, key.0, a);
    UpsertAllAt(Remaining(refs, plan.eligible, plan.stale), nextId, plan.inputs, run, key);
    var r := Reconciled(refs, nextId, plan.eligible, plan.stale, plan.inputs, run);
    if Grounds(a, sourceKey) {
      GroundedIsOffered(answers, a, sourceKey);
      var b := OfferedFrom(answers, ReferenceInput(key.0, r[key].conversation, key.1, r[key].content));
      AnswersUnique(answers, key.0, a, b);
    } else if Mentions(plan.inputs, key) {
      var b := OfferedIsGrounded(answers, key);
      AnswersUnique(answers, key.0, a, b);
    }
    if key in refs {
      StaleMeans(plan, answers, before, refs, key);
      if b :| AnswerTo(answers, key.0, b) && HasUnresolved(b) {
        AnswersUnique(answers, key.0, a, b);
      }
    }
  }

  /** A message that is not an active answer of an eligible chat has no references left. */
  lemma ReconciledElsewhere(plan: Plan, answers: seq<Answer>, before: References, refs: References, nextId: nat,
                            run: nat, key: (nat, string))
    requires Planned(plan, answers, before) && UniqueIds(before) && Shrunk(refs, before)
    requires forall a :: a in answers ==> a.message != key.0
    ensures key !in Reconciled(refs, nextId, plan.eligible, plan.stale, plan.inputs, run)
  {
    UpsertAllAt(Remaining(refs, plan.eligible, plan.stale), nextId, plan.inputs, run, key);
    if Mentions(plan.inputs, key) {
      var b := OfferedIsGrounded(answers, key);
    }
    if key in refs {
      StaleMeans(plan, answers, before, refs, key);
    }
  }

  /** Repeating the run on unchanged data leaves the same rows, by message and source key. */
  lemma ReconcilingTwiceKeepsKeys(plan: Plan, plan': Plan, answers: seq<Answer>, refs: References, nextId: nat,
                                  run: nat, nextId': nat, run': nat)
    requires Planned(plan, answers, refs) && UniqueIds(refs) && IdsBelow(refs, nextId)
    requires plan'.eligible == plan.eligible
    requires Planned(plan', answers, Reconciled(refs, nextId, plan.eligible, plan.stale, plan.inputs, run))
    ensures var once := Reconciled(refs, nextId, plan.eligible, plan.stale, plan.inputs, run);
            var twice := Reconciled(once, nextId', plan'.eligible, plan'.stale, plan'.inputs, run');
            && twice.Keys == once.Keys
            && forall key :: key in once ==> twice[key].content == once[key].content
  {
    var once := Reconciled(refs, nextId, plan.eligible, plan.stale, plan.inputs, run);
    var twice := Reconciled(once, nextId', plan'.eligible, plan'.stale, plan'.inputs, run');
    ReconciledUniqueIds(refs, nextId, plan.eligible, plan.stale, plan.inputs, run);
    forall key: (nat, string)
      ensures key in twice <==> key in once
      ensures key in once ==> twice[key].content == once[key].content
    {
      if a :| a in answers && a.message == key.0 {
        ReconciledAnswer(plan, answers, refs, refs, nextId, run, a, key.1);
        ReconciledAnswer(plan', answers, once, once, nextId', run', a, key.1);
        if Grounds(a, key.1) {
          FirstUnderUnique(a, key.1, once[key].content, twice[key].content);
        }
      } else {
        ReconciledElsewhere(plan, answers, refs, refs, nextId, run, key);
        ReconciledElsewhere(plan', answers, once, once, nextId', run', key);
      }
    }
  }

  ghost predicate IdsBelow(refs: References, bound: nat) {
    forall k :: k in refs ==> refs[k].id < bound
  }

  lemma UpsertUniqueIds(refs: References, nextId: nat, input: ReferenceInput, run: nat)
    requires UniqueIds(refs) && IdsBelow(refs, nextId)
    ensures UniqueIds(Upsert(refs, nextId, input, run)) && IdsBelow(Upsert(refs, nextId, input, run), nextId + 1)
  {
    var r, key := Upsert(refs, nextId, input, run), (input.message, input.sourceKey);
    forall k | k in r ensures r[k].id < nextId + 1 && (k != key ==> r[k] == refs[k]) {
    }
  }

  /** Fresh row ids stay distinct. */
  lemma {:induction false} UpsertAllUniqueIds(refs: References, nextId: nat, inputs: seq<ReferenceInput>, run: nat)
    requires UniqueIds(refs) && IdsBelow(refs, nextId)
    ensures UniqueIds(UpsertAll(refs, nextId, inputs, run))
    ensures IdsBelow(UpsertAll(refs, nextId, inputs, run), nextId + |inputs|)
  {
    if inputs != [] {
      var n := |inputs| - 1;
      UpsertAllUniqueIds(refs, nextId, inputs[..n], run);
      UpsertUniqueIds(UpsertAll(refs, nextId, inputs[..n], run), nextId + n, inputs[n], run);
    }
  }

  /** Reconciliation keeps row ids distinct. */
  lemma ReconciledUniqueIds(refs: References, nextId: nat, eligible: set<nat>, stale: seq<nat>,
                            inputs: seq<ReferenceInput>, run: nat)
    requires UniqueIds(refs) && IdsBelow(refs, nextId)
    ensures UniqueIds(Reconciled(refs, nextId, eligible, stale, inputs, run))
    ensures IdsBelow(Reconciled(refs, nextId, eligible, stale, inputs, run), nextId + |inputs|)
  {
    UpsertAllUniqueIds(Remaining(refs, eligible, stale), nextId, inputs, run);
  }

  class ReferenceTable {
    var refs: References
    var nextId: nat

    constructor ()
      ensures refs == map[] && nextId == 0
    {
      refs, nextId := map[], 0;
    }

    /** Deletes rows by id, a bounded number per statement. */
    method DeleteIds(ids: seq<nat>)
      modifies this`refs
      ensures refs == map k | k in old(refs) && old(refs)[k].id !in ids :: old(refs)[k]
    {
      var batches := Batches(ids, DELETE_BATCH);
      FlattenBatches(ids, DELETE_BATCH);
      for i := 0 to |batches|
        invariant refs == map k | k in old(refs) && old(refs)[k].id !in Flatten(batches[..i]) :: old(refs)[k]
      {
        assert batches[..i + 1] == batches[..i] + [batches[i]];
        FlattenSnoc(batches[..i], batches[i]);
        refs := map k | k in refs && refs[k].id !in batches[i] :: refs[k];
      }
      assert batches[..|batches|] == batches;
    }

    method Reconcile(eligible: set<nat>, stale: seq<nat>, inputs: seq<ReferenceInput>, run: nat)
      modifies this
      ensures refs == Reconciled(old(refs), old(nextId), eligible, stale, inputs, run)
      ensures nextId == old(nextId) + |inputs|
    {
      refs := map k | k in refs && refs[k].conversation in eligible :: refs[k];
      DeleteIds(stale);
      ghost var kept := Remaining(old(refs), eligible, stale);
      assert refs == kept;
      for i := 0 to |inputs|
        invariant refs == UpsertAll(kept, old(nextId), inputs[..i], run) && nextId == old(nextId) + i
      {
        assert inputs[..i + 1][..i] == inputs[..i];
        refs := Upsert(refs, nextId, inputs[i], run);
        nextId := nextId + 1;
      }
      assert inputs[..|inputs|] == inputs;
    }
  }

  lemma StaleIdsNext(refs: References, key: (nat, string), r: Reference, eligible: set<nat>, active: set<nat>,
                     replaced: set<nat>)
    requires key !in refs
    ensures StaleIds(refs[key := r], eligible, active, replaced)
            == StaleIds(refs, eligible, active, replaced)
               + (if Stale(key, r, eligible, active, replaced) then {r.id} else {})
  {
    var refs' := refs[key := r];
    forall k | k in refs && Stale(k, refs[k], eligible, active, replaced)
      ensures refs[k].id in StaleIds(refs', eligible, active, replaced)
    {
      assert k in refs' && refs'[k] == refs[k];
    }
    if Stale(key, r, eligible, active, replaced) {
      assert key in refs' && refs'[key] == r;
    }
  }

  /** The rows to delete and the references to store, read off the answers and the stored rows. */
  method PlanReferences(eligible: set<nat>, answers: seq<Answer>, refs: References) returns (plan: Plan)
    requires DistinctMessages(answers) && forall a :: a in answers ==> a.conversation in eligible
    ensures plan.eligible == eligible && Planned(plan, answers, refs)
  {
    var inputs := DeriveReferences(answers);
    var active := set a <- answers :: a.message;
    var replaced := set a | a in answers && Resolved(a) :: a.message;
    var stale: seq<nat> := [];
    var keys := refs.Keys;
    while keys != {}
      invariant keys <= refs.Keys
      invariant (set id <- stale) == StaleIds(refs - keys, eligible, active, replaced)
    {
      var key :| key in keys;
      ghost var seen := refs - keys;
      keys := keys - {key};
      assert refs - keys == seen[key := refs[key]];
      StaleIdsNext(seen, key, refs[key], eligible, active, replaced);
      if Stale(key, refs[key], eligible, active, replaced) {
        stale := stale + [refs[key].id];
      }
    }
    assert refs - {} == refs;
    plan := Plan(eligible, inputs, stale);
  }

  /** Collects the references of all active answers. */
  method DeriveReferences(answers: seq<Answer>) returns (inputs: seq<ReferenceInput>)
    ensures inputs == DeriveAll(answers)
  {
    inputs := [];
    for i := 0 to |answers|
      invariant inputs == DeriveAll(answers[..i])
    {
      assert answers[..i + 1][..i] == answers[..i];
      var a := answers[i];
      var mine: seq<ReferenceInput> := [];
      if a.grounded {
        for j := 0 to |a.selected|
          invariant mine == Derive(a, j)
        {
          var s := a.selected[j];
          if !s.canned && !HasKey(mine, s.sourceKey) {
            mine := mine + [ReferenceInput(a.message, a.conversation, s.sourceKey, s.content)];
          }
        }
      }
      inputs := inputs + mine;
    }
    assert answers[..|answers|] == answers;
  }
}
