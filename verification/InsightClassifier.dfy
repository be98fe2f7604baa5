/**
 Validation of the classifier's numbered answers, and the batching that turns pending chats into
 results. Model calls are inputs: each batch either raised or produced a list of assignments.
 */
module InsightClassifier {
  import opened Options
  import opened Batching
  import opened Text

  datatype ChatInput = ChatInput(conversation: nat, createdAt: int, branchHash: nat, userMessages: seq<string>)

  datatype ChatResult = ChatResult(
    conversation: nat, branchHash: nat, primary: string, secondary: seq<string>, requestType: string,
    confidence: string)

  datatype Assignment = Assignment(
    item: int, primary: string, secondary: seq<string>, requestType: string, confidence: string)

  datatype OutputError = UnexpectedItem | DuplicateItem | MissingItems | InvalidKey | DuplicateKey | InvalidRequest

  /** What one batch call came to. */
  datatype BatchCall = Raised | Returned(assignments: seq<Assignment>)

  const FALLBACK_TOPIC := "other-or-unclear"

  predicate InRange(item: int, expected: nat) {
    1 <= item <= expected
  }

  function Numbers(expected: nat): set<int> {
    set item: int | 1 <= item <= expected && InRange(item, expected)
  }

  ghost predicate Names(assignments: seq<Assignment>, item: int) {
    exists i :: 0 <= i < |assignments| && assignments[i].item == item
  }

  /** The answers are numbered 1 to `expected`, each number once. */
  ghost predicate NumbersAll(assignments: seq<Assignment>, expected: nat) {
    && (forall i :: 0 <= i < |assignments| ==> 1 <= assignments[i].item <= expected)
    && (forall i, j :: 0 <= i < j < |assignments| ==> assignments[i].item != assignments[j].item)
    && (forall item :: 1 <= item <= expected ==> Names(assignments, item))
  }

  method AssignmentsByItem(assignments: seq<Assignment>, expected: nat)
    returns (r: Result<map<int, Assignment>, OutputError>)
    ensures r.Ok? <==> NumbersAll(assignments, expected)
    ensures r.Ok? ==> r.value.Keys == Numbers(expected)
    ensures r.Ok? ==> forall k :: 1 <= k <= expected ==> r.value[k] in assignments && r.value[k].item == k
  {
    var returned: map<int, Assignment> := map[];
    for i := 0 to |assignments|
      invariant forall j :: 0 <= j < i ==> 1 <= assignments[j].item <= expected
      invariant forall j, k :: 0 <= j < k < i ==> assignments[j].item != assignments[k].item
      invariant forall k :: k in returned <==> exists j :: 0 <= j < i && assignments[j].item == k
      invariant forall k :: k in returned ==> returned[k] in assignments && returned[k].item == k
    {
      var item := assignments[i].item;
      if item < 1 || item > expected {
        return Err(UnexpectedItem);
      }
      if item in returned {
        return Err(DuplicateItem);
      }
      returned := returned[item := assignments[i]];
    }
    var expectedItems := Numbers(expected);
    forall k ensures k in returned <==> Names(assignments, k) {
    }
    if returned.Keys != expectedItems {
      return Err(MissingItems);
    }
    return Ok(returned);
  }

  /** A list of allowed keys, without repeats and without the primary one. */
  ghost predicate SecondaryOk(values: seq<string>, allowed: set<string>, primary: string) {
    && (forall v :: v in values ==> v in allowed && v != primary)
    && (forall i, j :: 0 <= i < j < |values| ==> values[i] != values[j])
  }

  method ValidateSecondary(values: seq<string>, allowed: set<string>, primary: string) returns (ok: bool)
    ensures ok <==> SecondaryOk(values, allowed, primary)
  {
    for i := 0 to |values|
      invariant forall j :: 0 <= j < i ==> values[j] in allowed && values[j] != primary
      invariant forall j, k :: 0 <= j < k < i ==> values[j] != values[k]
    {
      if values[i] !in allowed || values[i] == primary || values[i] in values[..i] {
        return false;
      }
    }
    return true;
  }

  ghost predicate AnswerOk(a: Assignment, allowed: set<string>, requestTypes: set<string>) {
    a.primary in allowed && SecondaryOk(a.secondary, allowed, a.primary) && a.requestType in requestTypes
  }

  /** The result carries the identity of its row and the content of the answer numbered for it. */
  predicate Answers(result: ChatResult, row: ChatInput, a: Assignment) {
    result == ChatResult(row.conversation, row.branchHash, a.primary, a.secondary, a.requestType, a.confidence)
  }

  ghost predicate Acceptable(rows: seq<ChatInput>, assignments: seq<Assignment>, allowed: set<string>,
                             requestTypes: set<string>) {
    NumbersAll(assignments, |rows|) && forall a :: a in assignments ==> AnswerOk(a, allowed, requestTypes)
  }

  /** The result of a row is the answer carrying the row's number. */
  ghost predicate AnsweredAs(result: ChatResult, row: ChatInput, assignments: seq<Assignment>, item: int) {
    exists a :: a in assignments && a.item == item && Answers(result, row, a)
  }

  method CheckAnswer(a: Assignment, allowed: set<string>, requestTypes: set<string>) returns (r: Option<OutputError>)
    ensures r.None? <==> AnswerOk(a, allowed, requestTypes)
  {
    if a.primary !in allowed {
      return Some(InvalidKey);
    }
    var secondaryOk := ValidateSecondary(a.secondary, allowed, a.primary);
    if !secondaryOk {
      return Some(DuplicateKey);
    }
    if a.requestType !in requestTypes {
      return Some(InvalidRequest);
    }
    return None;
  }

  lemma NumberedOnce(assignments: seq<Assignment>, expected: nat, a: Assignment, b: Assignment)
    requires NumbersAll(assignments, expected) && a in assignments && b in assignments && a.item == b.item
    ensures a == b
  {
    var j :| 0 <= j < |assignments| && assignments[j] == a;
    var k :| 0 <= k < |assignments| && assignments[k] == b;
    assert j == k;
  }

  /** Every key of the result is allowed, and none is repeated. */
  ghost predicate IsAllowed(r: ChatResult, allowed: set<string>, requestTypes: set<string>) {
    && r.primary in allowed && r.primary !in r.secondary && r.requestType in requestTypes
    && (forall i :: 0 <= i < |r.secondary| ==> r.secondary[i] in allowed)
    && forall i, j :: 0 <= i < j < |r.secondary| ==> r.secondary[i] != r.secondary[j]
  }

  /** Fails closed: an answer is used only when all of them are well formed. */
  method ValidateAssignments(rows: seq<ChatInput>, assignments: seq<Assignment>, allowed: set<string>,
                             requestTypes: set<string>)
    returns (r: Result<seq<ChatResult>, OutputError>)
    ensures r.Ok? <==> Acceptable(rows, assignments, allowed, requestTypes)
    ensures r.Ok? ==> |r.value| == |rows|
    ensures r.Ok? ==> forall i :: 0 <= i < |rows| ==> AnsweredAs(r.value[i], rows[i], assignments, i + 1)
    ensures r.Ok? ==> forall k :: 0 <= k < |r.value| ==> IsAllowed(r.value[k], allowed, requestTypes)
  {
    var returned := AssignmentsByItem(assignments, |rows|);
    if returned.Err? {
      return Err(returned.error);
    }
    var results: seq<ChatResult> := [];
    for i := 0 to |rows|
      invariant |results| == i
      invariant forall n :: 1 <= n <= i ==> AnswerOk(returned.value[n], allowed, requestTypes)
      invariant forall k :: 0 <= k < i ==> AnsweredAs(results[k], rows[k], assignments, k + 1)
    {
      var a := returned.value[i + 1];
      var problem := CheckAnswer(a, allowed, requestTypes);
      if problem.Some? {
        return Err(problem.value);
      }
      results := results + [ChatResult(rows[i].conversation, rows[i].branchHash, a.primary, a.secondary,
                                       a.requestType, a.confidence)];
    }
    forall a | a in assignments ensures AnswerOk(a, allowed, requestTypes) {
      NumberedOnce(assignments, |rows|, a, returned.value[a.item]);
    }
    forall k | 0 <= k < |results| ensures IsAllowed(results[k], allowed, requestTypes) {
      var a :| a in assignments && a.item == k + 1 && Answers(results[k], rows[k], a);
      assert AnswerOk(a, allowed, requestTypes);
    }
    return Ok(results);
  }

  /** A chat whose user messages hold no text. */
  predicate IsEmpty(row: ChatInput) {
    forall m :: m in row.userMessages ==> IsBlank(m)
  }

  function Filter(rows: seq<ChatInput>, empty: bool): seq<ChatInput> {
    if rows == [] then []
    else Filter(rows[..|rows| - 1], empty) + if IsEmpty(rows[|rows| - 1]) == empty then [rows[|rows| - 1]] else []
  }

  ghost predicate HasText(row: ChatInput) {
    exists m :: m in row.userMessages && !IsBlank(m)
  }

  /** Classified without a call: under the fallback topic if it is defined, else under the last one. */
  ghost predicate ByDefault(result: ChatResult, row: ChatInput, definitions: seq<string>) {
    && !HasText(row) && definitions != []
    && result.conversation == row.conversation && result.branchHash == row.branchHash
    && ("other-or-unclear" in definitions ==> result.primary == "other-or-unclear")
    && ("other-or-unclear" !in definitions ==> result.primary == definitions[|definitions| - 1])
    && result.secondary == [] && result.requestType == "other" && result.confidence == "low"
  }

  /** What the model answered to row `i` of batch `b`, under the number `i + 1`. */
  ghost predicate ByModel(result: ChatResult, row: ChatInput, definitions: seq<string>, batches: seq<seq<ChatInput>>,
                          calls: seq<BatchCall>, b: nat, i: nat, a: Assignment) {
    && HasText(row)
    && b < |batches| && b < |calls| && i < |batches[b]| && batches[b][i] == row
    && WellFormed(batches[b], calls[b], definitions) && a in calls[b].assignments && a.item == i + 1
    && result.conversation == row.conversation && result.branchHash == row.branchHash
    && result.primary == a.primary && result.secondary == a.secondary
    && result.requestType == a.requestType && result.confidence == a.confidence
  }

  /** Every answer of the call names a defined topic, and each row of the batch has one answer. */
  ghost predicate WellFormed(batch: seq<ChatInput>, call: BatchCall, definitions: seq<string>) {
    && call.Returned?
    && (forall a :: a in call.assignments ==> 1 <= a.item <= |batch| && a.primary in definitions)
    && (forall i, j :: 0 <= i < j < |call.assignments| ==> call.assignments[i].item != call.assignments[j].item)
    && forall n :: 1 <= n <= |batch| ==> Names(call.assignments, n)
  }

  /** The row's classification, from the call that answered it or without one. */
  ghost predicate ClassifiedAs(result: ChatResult, row: ChatInput, definitions: seq<string>,
                               batches: seq<seq<ChatInput>>, calls: seq<BatchCall>) {
    ByDefault(result, row, definitions) || exists b, i, a :: ByModel(result, row, definitions, batches, calls, b, i, a)
  }

  ghost predicate AllClassified(results: seq<ChatResult>, rows: seq<ChatInput>, definitions: seq<string>,
                                batches: seq<seq<ChatInput>>, calls: seq<BatchCall>) {
    |results| == |rows|
    && forall i :: 0 <= i < |rows| ==> ClassifiedAs(results[i], rows[i], definitions, batches, calls)
  }

  lemma AllClassifiedConcat(results: seq<ChatResult>, rows: seq<ChatInput>, more: seq<ChatResult>,
                            moreRows: seq<ChatInput>, definitions: seq<string>, batches: seq<seq<ChatInput>>,
                            calls: seq<BatchCall>)
    requires AllClassified(results, rows, definitions, batches, calls)
    requires AllClassified(more, moreRows, definitions, batches, calls)
    ensures AllClassified(results + more, rows + moreRows, definitions, batches, calls)
  {
  }

  lemma BatchIsWellFormed(batch: seq<ChatInput>, call: BatchCall, definitions: seq<string>, requestTypes: set<string>)
    requires BatchOk(batch, call, (set d <- definitions), requestTypes)
    ensures WellFormed(batch, call, definitions)
  {
    forall a | a in call.assignments ensures 1 <= a.item <= |batch| && a.primary in definitions {
      var k :| 0 <= k < |call.assignments| && call.assignments[k] == a;
      assert AnswerOk(a, (set d <- definitions), requestTypes);
    }
  }

  /** A well-formed batch classifies its rows. */
  lemma BatchClassifies(answers: seq<ChatResult>, definitions: seq<string>, batches: seq<seq<ChatInput>>,
                        calls: seq<BatchCall>, b: nat)
    requires b < |batches| == |calls| && WellFormed(batches[b], calls[b], definitions) && |answers| == |batches[b]|
    requires forall i :: 0 <= i < |answers| ==> AnsweredAs(answers[i], batches[b][i], calls[b].assignments, i + 1)
    requires forall row :: row in batches[b] ==> HasText(row)
    ensures AllClassified(answers, batches[b], definitions, batches, calls)
  {
    forall i | 0 <= i < |answers| ensures ClassifiedAs(answers[i], batches[b][i], definitions, batches, calls) {
      var a :| a in calls[b].assignments && a.item == i + 1 && Answers(answers[i], batches[b][i], a);
      assert batches[b][i] in batches[b];
      assert ByModel(answers[i], batches[b][i], definitions, batches, calls, b, i, a);
    }
  }

  lemma {:induction false} FilterMembers(rows: seq<ChatInput>, empty: bool)
    ensures forall row :: row in Filter(rows, empty) ==> row in rows && (IsEmpty(row) <==> empty)
    ensures forall row :: row in Filter(rows, empty) ==> (HasText(row) <==> !empty)
  {
    if rows != [] {
      FilterMembers(rows[..|rows| - 1], empty);
    }
  }

  lemma {:induction false} BatchRows(items: seq<ChatInput>, size: nat)
    requires size > 0
    ensures forall b, row :: b in Batches(items, size) && row in b ==> row in items
    decreases |items|
  {
    if |items| > size {
      BatchRows(items[size..], size);
    }
  }

  /** The results answer these rows, one each and in this order. */
  ghost predicate Covers(results: seq<ChatResult>, rows: seq<ChatInput>) {
    |results| == |rows| &&
    forall i :: 0 <= i < |rows| ==>
                  results[i].conversation == rows[i].conversation && results[i].branchHash == rows[i].branchHash
  }

  ghost predicate BatchOk(batch: seq<ChatInput>, call: BatchCall, allowed: set<string>, requestTypes: set<string>) {
    call.Returned? && Acceptable(batch, call.assignments, allowed, requestTypes)
  }

  /** The rows of the batches that came back well formed. */
  ghost function Answered(batches: seq<seq<ChatInput>>, calls: seq<BatchCall>, allowed: set<string>,
                          requestTypes: set<string>): seq<ChatInput>
    requires |batches| == |calls|
  {
    if batches == [] then []
    else
      var n := |batches| - 1;
      Answered(batches[..n], calls[..n], allowed, requestTypes)
      + if BatchOk(batches[n], calls[n], allowed, requestTypes) then batches[n] else []
  }

  ghost function Errors(batches: seq<seq<ChatInput>>, calls: seq<BatchCall>, allowed: set<string>,
                        requestTypes: set<string>): nat
    requires |batches| == |calls|
  {
    if batches == [] then 0
    else
      var n := |batches| - 1;
      Errors(batches[..n], calls[..n], allowed, requestTypes)
      + if BatchOk(batches[n], calls[n], allowed, requestTypes) then 0 else 1
  }

  /** The batches that raised or came back malformed. */
  ghost function BadBatches(batches: seq<seq<ChatInput>>, calls: seq<BatchCall>, allowed: set<string>,
                            requestTypes: set<string>): set<nat>
    requires |batches| == |calls|
  {
    set b: nat | b < |batches| && !BatchOk(batches[b], calls[b], allowed, requestTypes)
  }

  /** Each of them is one error. */
  lemma {:induction false} ErrorsCountBadBatches(batches: seq<seq<ChatInput>>, calls: seq<BatchCall>,
                                                 allowed: set<string>, requestTypes: set<string>)
    requires |batches| == |calls|
    ensures Errors(batches, calls, allowed, requestTypes) == |BadBatches(batches, calls, allowed, requestTypes)|
  {
    if batches != [] {
      var n := |batches| - 1;
      ErrorsCountBadBatches(batches[..n], calls[..n], allowed, requestTypes);
      var before := BadBatches(batches[..n], calls[..n], allowed, requestTypes);
      if BatchOk(batches[n], calls[n], allowed, requestTypes) {
        assert BadBatches(batches, calls, allowed, requestTypes) == before;
      } else {
        assert BadBatches(batches, calls, allowed, requestTypes) == before + {n};
      }
    }
  }

  lemma AnsweredNext(batches: seq<seq<ChatInput>>, calls: seq<BatchCall>, k: nat, allowed: set<string>,
                     requestTypes: set<string>)
    requires k < |batches| == |calls|
    ensures var batchOk := BatchOk(batches[k], calls[k], allowed, requestTypes);
            && Answered(batches[..k + 1], calls[..k + 1], allowed, requestTypes)
               == Answered(batches[..k], calls[..k], allowed, requestTypes) + (if batchOk then batches[k] else [])
            && Errors(batches[..k + 1], calls[..k + 1], allowed, requestTypes)
               == Errors(batches[..k], calls[..k], allowed, requestTypes) + (if batchOk then 0 else 1)
  {
    assert batches[..k + 1][..k] == batches[..k] && calls[..k + 1][..k] == calls[..k];
  }

  lemma CoversConcat(results: seq<ChatResult>, rows: seq<ChatInput>, more: seq<ChatResult>, moreRows: seq<ChatInput>)
    requires Covers(results, rows) && Covers(more, moreRows)
    ensures Covers(results + more, rows + moreRows)
  {
  }

  function Fallback(definitions: seq<string>): string
    requires definitions != []
  {
    if FALLBACK_TOPIC in definitions then FALLBACK_TOPIC else definitions[|definitions| - 1]
  }

  /** Chats without text are classified without a call; the rest go out in batches. */
  method ClassifyChats(rows: seq<ChatInput>, definitions: seq<string>, requestTypes: set<string>, batchSize: nat,
                       calls: seq<BatchCall>)
    returns (results: seq<ChatResult>, errors: nat)
    requires definitions != [] && batchSize > 0 && |calls| == |Batches(Filter(rows, false), batchSize)|
    ensures var batches := Batches(Filter(rows, false), batchSize);
            var allowed := set d <- definitions;
            var answered := Filter(rows, true) + Answered(batches, calls, allowed, requestTypes);
            && errors == Errors(batches, calls, allowed, requestTypes)
            && Covers(results, answered)
            && AllClassified(results, answered, definitions, batches, calls)
  {
    var allowed := set d <- definitions;
    var empty := Filter(rows, true);
    var batches := Batches(Filter(rows, false), batchSize);
    var defaults := DefaultAll(empty, definitions, batches, calls);
    FilterMembers(rows, true);
    FilterMembers(rows, false);
    BatchRows(Filter(rows, false), batchSize);
    var answered;
    answered, errors := CollectBatches(batches, calls, definitions, allowed, requestTypes);
    CoversConcat(defaults, empty, answered, Answered(batches, calls, allowed, requestTypes));
    AllClassifiedConcat(defaults, empty, answered, Answered(batches, calls, allowed, requestTypes), definitions,
                        batches, calls);
    results := defaults + answered;
  }

  /** The results of chats without text. */
  method DefaultAll(empty: seq<ChatInput>, definitions: seq<string>, ghost batches: seq<seq<ChatInput>>,
                    ghost calls: seq<BatchCall>)
    returns (results: seq<ChatResult>)
    requires definitions != []
    ensures Covers(results, empty)
    ensures (forall row :: row in empty ==> !HasText(row))
            ==> AllClassified(results, empty, definitions, batches, calls)
  {
    results := [];
    for i := 0 to |empty|
      invariant |results| == i
      invariant forall k :: 0 <= k < i ==> results[k].conversation == empty[k].conversation
                                           && results[k].branchHash == empty[k].branchHash
      invariant forall k :: 0 <= k < i && !HasText(empty[k]) ==> ByDefault(results[k], empty[k], definitions)
    {
      results := results + [ChatResult(empty[i].conversation, empty[i].branchHash, Fallback(definitions), [], "other",
                                       "low")];
    }
    assert forall i :: 0 <= i < |empty| ==> empty[i] in empty;
  }

  /** Collects the results of the batches that came back well formed, and counts the others. */
  method CollectBatches(batches: seq<seq<ChatInput>>, calls: seq<BatchCall>, ghost definitions: seq<string>,
                        allowed: set<string>, requestTypes: set<string>)
    returns (results: seq<ChatResult>, errors: nat)
    requires |batches| == |calls|
    requires forall b, row :: b in batches && row in b ==> HasText(row)
    requires allowed == set d <- definitions
    ensures errors == Errors(batches, calls, allowed, requestTypes)
    ensures Covers(results, Answered(batches, calls, allowed, requestTypes))
    ensures AllClassified(results, Answered(batches, calls, allowed, requestTypes), definitions, batches, calls)
  {
    errors, results := 0, [];
    for k := 0 to |batches|
      invariant errors == Errors(batches[..k], calls[..k], allowed, requestTypes)
      invariant Covers(results, Answered(batches[..k], calls[..k], allowed, requestTypes))
      invariant AllClassified(results, Answered(batches[..k], calls[..k], allowed, requestTypes), definitions, batches,
                              calls)
    {
      AnsweredNext(batches, calls, k, allowed, requestTypes);
      var answers := AnswerBatch(batches[k], calls[k], allowed, requestTypes);
      if answers.Ok? {
        ghost var before := Answered(batches[..k], calls[..k], allowed, requestTypes);
        assert batches[k] in batches;
        BatchIsWellFormed(batches[k], calls[k], definitions, requestTypes);
        BatchClassifies(answers.value, definitions, batches, calls, k);
        CoversConcat(results, before, answers.value, batches[k]);
        AllClassifiedConcat(results, before, answers.value, batches[k], definitions, batches, calls);
        results := results + answers.value;
      } else {
        errors := errors + 1;
      }
    }
    assert batches[..|batches|] == batches && calls[..|calls|] == calls;
  }

  /** One batch call, raised or validated. */
  method AnswerBatch(batch: seq<ChatInput>, call: BatchCall, allowed: set<string>, requestTypes: set<string>)
    returns (r: Result<seq<ChatResult>, ()>)
    ensures r.Ok? <==> BatchOk(batch, call, allowed, requestTypes)
    ensures r.Ok? ==> Covers(r.value, batch) && call.Returned?
    ensures r.Ok? ==> forall i :: 0 <= i < |batch| ==> AnsweredAs(r.value[i], batch[i], call.assignments, i + 1)
  {
    if call.Raised? {
      return Err(());
    }
    var answers := ValidateAssignments(batch, call.assignments, allowed, requestTypes);
    if answers.Err? {
      return Err(());
    }
    return Ok(answers.value);
  }

  lemma {:induction false} NoErrorsAnswersAll(batches: seq<seq<ChatInput>>, calls: seq<BatchCall>,
                                              allowed: set<string>, requestTypes: set<string>)
    requires |batches| == |calls| && Errors(batches, calls, allowed, requestTypes) == 0
    ensures Answered(batches, calls, allowed, requestTypes) == Flatten(batches)
  {
    if batches != [] {
      var n := |batches| - 1;
      NoErrorsAnswersAll(batches[..n], calls[..n], allowed, requestTypes);
      FlattenSnoc(batches[..n], batches[n]);
      assert batches == batches[..n] + [batches[n]];
    }
  }

  lemma {:induction false} FilterParts(rows: seq<ChatInput>)
    ensures multiset(Filter(rows, true)) + multiset(Filter(rows, false)) == multiset(rows)
  {
    if rows != [] {
      var before, row := rows[..|rows| - 1], rows[|rows| - 1];
      FilterParts(before);
      assert rows == before + [row];
      assert Filter(before, !IsEmpty(row)) + [] == Filter(before, !IsEmpty(row));
      assert Filter(rows, IsEmpty(row)) == Filter(before, IsEmpty(row)) + [row];
      assert Filter(rows, !IsEmpty(row)) == Filter(before, !IsEmpty(row));
    }
  }

  lemma FilterSplits(rows: seq<ChatInput>)
    ensures multiset(Filter(rows, true) + Filter(rows, false)) == multiset(rows)
  {
    FilterParts(rows);
  }

  lemma {:induction false} AnsweredWithin(batches: seq<seq<ChatInput>>, calls: seq<BatchCall>, allowed: set<string>,
                                          requestTypes: set<string>)
    requires |batches| == |calls|
    ensures multiset(Answered(batches, calls, allowed, requestTypes)) <= multiset(Flatten(batches))
  {
    if batches != [] {
      var n := |batches| - 1;
      AnsweredWithin(batches[..n], calls[..n], allowed, requestTypes);
      FlattenSnoc(batches[..n], batches[n]);
      assert batches == batches[..n] + [batches[n]];
    }
  }

  /**
   Whatever the calls did, the results answer a part of the rows, each at most as often as it was
   asked; without batch errors they answer all of them exactly once each.
   */
  lemma ResultsAccountForRows(rows: seq<ChatInput>, batchSize: nat, calls: seq<BatchCall>, allowed: set<string>,
                              requestTypes: set<string>)
    requires batchSize > 0 && |calls| == |Batches(Filter(rows, false), batchSize)|
    ensures var batches := Batches(Filter(rows, false), batchSize);
            var answered := Filter(rows, true) + Answered(batches, calls, allowed, requestTypes);
            && multiset(answered) <= multiset(rows)
            && (Errors(batches, calls, allowed, requestTypes) == 0 ==> multiset(answered) == multiset(rows))
  {
    var batches := Batches(Filter(rows, false), batchSize);
    FlattenBatches(Filter(rows, false), batchSize);
    FilterSplits(rows);
    AnsweredWithin(batches, calls, allowed, requestTypes);
    if Errors(batches, calls, allowed, requestTypes) == 0 {
      NoErrorsAnswersAll(batches, calls, allowed, requestTypes);
    }
  }
}
