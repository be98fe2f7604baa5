/**
 The guardrails retry loop of a turn, the spans it emits, and the reader that reconstructs the rejected
 attempts from a stored trace. Model and guardrails output are inputs.
 */
module GuardrailsRetry {
  import opened Options
  import opened Text

  /** What one attempt came to: the answer, the verdict on it, and the URLs found in it. */
  datatype Attempt = Attempt(
    response: string, valid: bool, feedback: string, blogUrls: seq<string>, unknown: seq<string>)

  // `urlFeedback` words the complaint about disallowed blog URLs and about unknown ones.
  datatype Setup = Setup(enabled: bool, checkUrls: bool, retries: nat, blogFeedback: seq<string> -> string,
                         unknownFeedback: seq<string> -> string)

  datatype Rejection = Rejection(assistant: string, feedback: string)

  datatype Kind =
    | Chatbot(output: Option<string>)
    | Guardrails(isValid: Option<bool>, feedback: Option<string>)
    | UrlCheck(isValid: Option<bool>, blogUrls: seq<string>, unknownUrls: seq<string>)
    | Other

  datatype Span = Span(start: int, kind: Kind)

  datatype Failure = Failure(assistant: string, feedback: Option<string>, urls: seq<string>)

  /** The unknown URLs that are not already complained about as blog URLs. */
  function Unknown(found: seq<string>, blogUrls: seq<string>): (r: seq<string>)
    ensures forall u :: u in r <==> u in found && u !in blogUrls
  {
    if found == [] then []
    else
      var n := |found| - 1;
      Unknown(found[..n], blogUrls) + if found[n] in blogUrls then [] else [found[n]]
  }

  /** The URLs at these positions, which are all those not among the blog URLs, in order. */
  ghost predicate ListsOthers(found: seq<string>, blogUrls: seq<string>, urls: seq<string>, at: seq<nat>) {
    && |at| == |urls|
    && (forall i :: 0 <= i < |at| ==> at[i] < |found| && found[at[i]] == urls[i])
    && (forall i, j :: 0 <= i < j < |at| ==> at[i] < at[j])
    && forall k: nat :: k < |found| ==> (k in at <==> found[k] !in blogUrls)
  }

  /** They are listed in the order they were found, as often as they were found. */
  lemma {:induction false} UnknownStand(found: seq<string>, blogUrls: seq<string>) returns (at: seq<nat>)
    ensures ListsOthers(found, blogUrls, Unknown(found, blogUrls), at)
  {
    at := [];
    if found != [] {
      var n := |found| - 1;
      var before := UnknownStand(found[..n], blogUrls);
      at := before + if found[n] in blogUrls then [] else [n];
      OthersNext(found, n, blogUrls, Unknown(found[..n], blogUrls), before);
    }
  }

  lemma OthersNext(found: seq<string>, n: nat, blogUrls: seq<string>, urls: seq<string>, at: seq<nat>)
    requires |found| == n + 1 && ListsOthers(found[..n], blogUrls, urls, at)
    ensures found[n] in blogUrls ==> ListsOthers(found, blogUrls, urls + [], at + [])
    ensures found[n] !in blogUrls ==> ListsOthers(found, blogUrls, urls + [found[n]], at + [n])
  {
    assert forall k: nat :: k < n ==> found[..n][k] == found[k];
    assert urls + [] == urls && at + [] == at;
  }

  function UnknownUrls(a: Attempt): seq<string> {
    Unknown(a.unknown, a.blogUrls)
  }

  predicate UrlsOk(a: Attempt) {
    a.blogUrls == [] && UnknownUrls(a) == []
  }

  predicate IsRejected(s: Setup, a: Attempt) {
    s.enabled && !(a.valid && (s.checkUrls ==> UrlsOk(a)))
  }

  function Joined(parts: seq<string>): string {
    if parts == [] then "" else if |parts| == 1 then parts[0] else parts[0] + "\n\n" + Joined(parts[1..])
  }

  function FeedbackOn(s: Setup, a: Attempt): string {
    Joined((if a.feedback != "" then [a.feedback] else [])
           + (if s.checkUrls && a.blogUrls != [] then [s.blogFeedback(a.blogUrls)] else [])
           + (if s.checkUrls && UnknownUrls(a) != [] then [s.unknownFeedback(UnknownUrls(a))] else []))
  }

  function NonBlank(s: string): Option<string> {
    if IsBlank(s) then None else Some(s)
  }

  /** The spans of one attempt, in the order they start. */
  function Emits(s: Setup, a: Attempt): seq<Kind> {
    [Chatbot(NonBlank(a.response))]
    + (if s.enabled then [Guardrails(Some(a.valid), NonBlank(a.feedback))] else [])
    + (if s.enabled && s.checkUrls then [UrlCheck(Some(UrlsOk(a)), a.blogUrls, UnknownUrls(a))] else [])
  }

  function EmitsAll(s: Setup, attempts: seq<Attempt>): seq<Kind> {
    if attempts == [] then [] else EmitsAll(s, attempts[..|attempts| - 1]) + Emits(s, attempts[|attempts| - 1])
  }

  /** The log entries of the rejected attempts, in order. */
  function Rejections(s: Setup, attempts: seq<Attempt>): seq<Rejection> {
    if attempts == [] then []
    else
      var n := |attempts| - 1;
      Rejections(s, attempts[..n])
      + if IsRejected(s, attempts[n]) then [Rejection(attempts[n].response, FeedbackOn(s, attempts[n]))] else []
  }

  /** The attempts made out of a supply: up to the first accepted one, and at most the retries plus one. */
  ghost predicate Made(s: Setup, supply: nat -> Attempt, attempts: seq<Attempt>) {
    && 1 <= |attempts| <= s.retries + 1
    && (forall k :: 0 <= k < |attempts| ==> attempts[k] == supply(k))
    && (forall k :: 0 <= k < |attempts| - 1 ==> IsRefused(s, attempts[k]))
    && (IsRefused(s, attempts[|attempts| - 1]) ==> |attempts| == s.retries + 1)
  }

  /** No blog URLs, and every URL that was not found in the registry is complained about as one of those. */
  ghost predicate LinksAreFine(a: Attempt) {
    |a.blogUrls| == 0 && forall u :: u in a.unknown ==> u in a.blogUrls
  }

  /** Checked, and refused by the guardrails model or for its links. */
  ghost predicate IsRefused(s: Setup, a: Attempt) {
    s.enabled && (!a.valid || (s.checkUrls && !LinksAreFine(a)))
  }

  /** The complaints, those there are, separated by blank lines. */
  ghost predicate IsFeedback(s: Setup, a: Attempt, text: string) {
    var unknown := UnknownUrls(a);
    var onBlog, onUnknown := s.blogFeedback(a.blogUrls), s.unknownFeedback(unknown);
    var said, blog, other := |a.feedback| > 0, s.checkUrls && |a.blogUrls| > 0, s.checkUrls && |unknown| > 0;
    && (!said && !blog && !other ==> text == "")
    && (said && !blog && !other ==> text == a.feedback)
    && (!said && blog && !other ==> text == onBlog)
    && (!said && !blog && other ==> text == onUnknown)
    && (said && blog && !other ==> text == a.feedback + "\n\n" + onBlog)
    && (said && !blog && other ==> text == a.feedback + "\n\n" + onUnknown)
    && (!said && blog && other ==> text == onBlog + "\n\n" + onUnknown)
    && (said && blog && other ==> text == a.feedback + "\n\n" + onBlog + "\n\n" + onUnknown)
  }

  lemma FeedbackMeans(s: Setup, a: Attempt)
    ensures IsFeedback(s, a, FeedbackOn(s, a))
  {
    var unknown := UnknownUrls(a);
    var x := if a.feedback != "" then [a.feedback] else [];
    var y := if s.checkUrls && a.blogUrls != [] then [s.blogFeedback(a.blogUrls)] else [];
    var z := if s.checkUrls && unknown != [] then [s.unknownFeedback(unknown)] else [];
    assert x + [] + [] == x && [] + y + [] == y && [] + [] + z == z;
    JoinedThree(a.feedback, s.blogFeedback(a.blogUrls), s.unknownFeedback(unknown));
    assert x == [a.feedback] && y != [] && z != [] ==> x + y + z == [a.feedback, y[0], z[0]];
    assert x != [] && y != [] && z == [] ==> x + y + z == [x[0], y[0]];
    assert x != [] && y == [] && z != [] ==> x + y + z == [x[0], z[0]];
    assert x == [] && y != [] && z != [] ==> x + y + z == [y[0], z[0]];
  }

  lemma JoinedThree(x: string, y: string, z: string)
    ensures Joined([]) == "" && Joined([x]) == x && Joined([y]) == y && Joined([z]) == z
    ensures Joined([x, y]) == x + "\n\n" + y && Joined([x, z]) == x + "\n\n" + z && Joined([y, z]) == y + "\n\n" + z
    ensures Joined([x, y, z]) == x + "\n\n" + y + "\n\n" + z
  {
    assert [x, y][1..] == [y] && [x, z][1..] == [z] && [y, z][1..] == [z] && [x, y, z][1..] == [y, z];
    assert x + "\n\n" + (y + "\n\n" + z) == x + "\n\n" + y + "\n\n" + z;
  }

  lemma RefusedMeans(s: Setup, a: Attempt)
    ensures IsRejected(s, a) <==> IsRefused(s, a)
  {
    assert UnknownUrls(a) == [] <==> forall u :: u in a.unknown ==> u in a.blogUrls by {
      if u :| u in a.unknown && u !in a.blogUrls {
        assert u in UnknownUrls(a);
      }
      if UnknownUrls(a) != [] {
        assert UnknownUrls(a)[0] in UnknownUrls(a);
      }
    }
  }

  /** The spans of an attempt: the answer, then the verdict and the link check if they were made. */
  ghost predicate AreSpansOf(s: Setup, a: Attempt, emitted: seq<Kind>) {
    && |emitted| == (if !s.enabled then 1 else if s.checkUrls then 3 else 2)
    && emitted[0].Chatbot? && (IsBlank(a.response) ==> emitted[0].output == None)
    && (!IsBlank(a.response) ==> emitted[0].output == Some(a.response))
    && (s.enabled ==> emitted[1].Guardrails? && emitted[1].isValid == Some(a.valid)
                      && (IsBlank(a.feedback) ==> emitted[1].feedback == None)
                      && (!IsBlank(a.feedback) ==> emitted[1].feedback == Some(a.feedback)))
    && (s.enabled && s.checkUrls ==>
          emitted[2].UrlCheck? && emitted[2].blogUrls == a.blogUrls && emitted[2].unknownUrls == UnknownUrls(a)
          && (emitted[2].isValid == Some(true) <==> LinksAreFine(a)))
  }

  lemma SpansMean(s: Setup, a: Attempt)
    ensures AreSpansOf(s, a, Emits(s, a))
  {
    RefusedMeans(Setup(true, true, 0, s.blogFeedback, s.unknownFeedback), a.(valid := true));
  }

  method RunGuardrails(s: Setup, a: Attempt, log: seq<Rejection>)
    returns (ok: bool, newLog: seq<Rejection>, emitted: seq<Kind>)
    requires s.enabled
    ensures ok <==> !IsRejected(s, a)
    ensures newLog == if ok then log else log + [Rejection(a.response, FeedbackOn(s, a))]
    ensures [Chatbot(NonBlank(a.response))] + emitted == Emits(s, a)
    ensures ok <==> !IsRefused(s, a)
    ensures AreSpansOf(s, a, [Chatbot(NonBlank(a.response))] + emitted)
    ensures ok ==> newLog == log
    ensures !ok ==> exists text :: newLog == log + [Rejection(a.response, text)] && IsFeedback(s, a, text)
  {
    RefusedMeans(s, a);
    FeedbackMeans(s, a);
    SpansMean(s, a);
    emitted := [Guardrails(Some(a.valid), NonBlank(a.feedback))];
    var parts: seq<string> := [];
    if a.feedback != "" {
      parts := parts + [a.feedback];
    }
    var urlsOk := true;
    if s.checkUrls {
      var unknown := UnknownUrls(a);
      urlsOk := a.blogUrls == [] && unknown == [];
      emitted := emitted + [UrlCheck(Some(urlsOk), a.blogUrls, unknown)];
      if a.blogUrls != [] {
        parts := parts + [s.blogFeedback(a.blogUrls)];
      }
      if unknown != [] {
        parts := parts + [s.unknownFeedback(unknown)];
      }
    }
    assert parts == (if a.feedback != "" then [a.feedback] else [])
                    + (if s.checkUrls && a.blogUrls != [] then [s.blogFeedback(a.blogUrls)] else [])
                    + (if s.checkUrls && UnknownUrls(a) != [] then [s.unknownFeedback(UnknownUrls(a))] else []);
    ok := a.valid && urlsOk;
    newLog := if ok then log else log + [Rejection(a.response, Joined(parts))];
  }

  /** One chatbot answer, checked if guardrails are on. */
  method RunIteration(s: Setup, a: Attempt, log: seq<Rejection>)
    returns (ok: bool, newLog: seq<Rejection>, emitted: seq<Kind>)
    ensures ok <==> !IsRejected(s, a)
    ensures newLog == log + if ok then [] else [Rejection(a.response, FeedbackOn(s, a))]
    ensures emitted == Emits(s, a)
  {
    ok, newLog, emitted := true, log, [Chatbot(NonBlank(a.response))];
    if s.enabled {
      var checks;
      ok, newLog, checks := RunGuardrails(s, a, log);
      emitted := emitted + checks;
    }
  }

  lemma NextAttempt(s: Setup, attempts: seq<Attempt>, a: Attempt)
    ensures Rejections(s, attempts + [a])
            == Rejections(s, attempts) + if IsRejected(s, a) then [Rejection(a.response, FeedbackOn(s, a))] else []
    ensures EmitsAll(s, attempts + [a]) == EmitsAll(s, attempts) + Emits(s, a)
  {
    assert (attempts + [a])[..|attempts|] == attempts;
  }

  /** The first `n` attempts were all rejected. */
  ghost predicate RejectedSoFar(s: Setup, supply: nat -> Attempt, attempts: seq<Attempt>, n: nat) {
    |attempts| == n && forall k :: 0 <= k < n ==> attempts[k] == supply(k) && IsRefused(s, attempts[k])
  }

  /** The attempts made, with the log and the spans they leave. */
  ghost predicate Leaves(s: Setup, attempts: seq<Attempt>, response: string, log: seq<Rejection>, emitted: seq<Kind>) {
    && log == Rejections(s, attempts) && emitted == EmitsAll(s, attempts)
    && (attempts != [] ==> response == attempts[|attempts| - 1].response)
  }

  lemma LeavesNext(s: Setup, attempts: seq<Attempt>, response: string, log: seq<Rejection>, emitted: seq<Kind>,
                   a: Attempt)
    requires Leaves(s, attempts, response, log, emitted)
    ensures Leaves(s, attempts + [a], a.response,
                   log + if IsRejected(s, a) then [Rejection(a.response, FeedbackOn(s, a))] else [],
                   emitted + Emits(s, a))
  {
    NextAttempt(s, attempts, a);
  }

  /** Either every attempt so far was refused, or the last one was accepted. */
  ghost predicate Underway(s: Setup, supply: nat -> Attempt, attempts: seq<Attempt>, refused: nat, ok: bool) {
    && refused <= s.retries + 1
    && (!ok ==> RejectedSoFar(s, supply, attempts, refused))
    && (ok ==> refused <= s.retries && Made(s, supply, attempts))
  }

  lemma UnderwayNext(s: Setup, supply: nat -> Attempt, attempts: seq<Attempt>, refused: nat)
    requires Underway(s, supply, attempts, refused, false) && refused <= s.retries
    ensures var a := supply(refused);
            var ok := !IsRejected(s, a);
            Underway(s, supply, attempts + [a], if ok then refused else refused + 1, ok)
  {
    RefusedMeans(s, supply(refused));
  }

  /**
   Retries until an answer is accepted or the retries are used up; the answer is blocked exactly when
   every allowed attempt was rejected.
   */
  method RunTurn(s: Setup, supply: nat -> Attempt)
    returns (response: string, blocked: bool, log: seq<Rejection>, emitted: seq<Kind>, ghost attempts: seq<Attempt>)
    ensures Made(s, supply, attempts) && Leaves(s, attempts, response, log, emitted)
    ensures blocked <==> |log| == s.retries + 1
    ensures exists at: seq<nat> :: LogTells(s, attempts, log, at)
  {
    var ok := false;
    var count := 0;
    log, emitted, attempts, response := [], [], [], "";
    while !ok && count <= s.retries
      invariant |log| == count
      invariant Leaves(s, attempts, response, log, emitted)
      invariant Underway(s, supply, attempts, count, ok)
      decreases s.retries + 1 - count, !ok
    {
      var a := supply(count);
      LeavesNext(s, attempts, response, log, emitted, a);
      UnderwayNext(s, supply, attempts, count);
      response := a.response;
      var spans;
      ok, log, spans := RunIteration(s, a, log);
      emitted := emitted + spans;
      attempts := attempts + [a];
      if !ok {
        count := count + 1;
      }
    }
    blocked := !ok;
    var _ := RejectionsTell(s, attempts);
  }

  /** The log names the refused attempts, in order, each with the complaints about it. */
  ghost predicate LogTells(s: Setup, attempts: seq<Attempt>, log: seq<Rejection>, at: seq<nat>) {
    && |at| == |log|
    && (forall i, j :: 0 <= i < j < |at| ==> at[i] < at[j])
    && (forall k: nat :: k in at <==> k < |attempts| && IsRefused(s, attempts[k]))
    && forall i :: 0 <= i < |log| && at[i] < |attempts| ==>
                     log[i].assistant == attempts[at[i]].response && IsFeedback(s, attempts[at[i]], log[i].feedback)
  }

  lemma {:induction false} RejectionsTell(s: Setup, attempts: seq<Attempt>) returns (at: seq<nat>)
    ensures LogTells(s, attempts, Rejections(s, attempts), at)
  {
    at := [];
    if attempts != [] {
      var n := |attempts| - 1;
      var before := RejectionsTell(s, attempts[..n]);
      RefusedMeans(s, attempts[n]);
      FeedbackMeans(s, attempts[n]);
      at := if IsRefused(s, attempts[n]) then before + [n] else before;
      LogTellsNext(s, attempts, n, Rejections(s, attempts[..n]), before);
    }
  }

  lemma LogTellsNext(s: Setup, attempts: seq<Attempt>, n: nat, log: seq<Rejection>, at: seq<nat>)
    requires |attempts| == n + 1 && LogTells(s, attempts[..n], log, at)
    requires IsFeedback(s, attempts[n], FeedbackOn(s, attempts[n]))
    ensures if IsRefused(s, attempts[n])
            then LogTells(s, attempts, log + [Rejection(attempts[n].response, FeedbackOn(s, attempts[n]))], at + [n])
            else LogTells(s, attempts, log, at)
  {
    PositionsBefore(s, attempts, n, log, at);
    if IsRefused(s, attempts[n]) {
      var at' := at + [n];
      forall k: nat ensures k in at' <==> k < |attempts| && IsRefused(s, attempts[k]) {
        assert k in at' <==> k in at || k == n;
      }
    }
  }

  lemma PositionsBefore(s: Setup, attempts: seq<Attempt>, n: nat, log: seq<Rejection>, at: seq<nat>)
    requires |attempts| == n + 1 && LogTells(s, attempts[..n], log, at)
    ensures forall i :: 0 <= i < |at| ==> at[i] < n && attempts[..n][at[i]] == attempts[at[i]]
    ensures forall k: nat :: k in at <==> k < n && IsRefused(s, attempts[k])
  {
    forall i | 0 <= i < |at| ensures at[i] < n {
      assert at[i] in at;
    }
    assert forall k: nat :: k < n ==> attempts[..n][k] == attempts[k];
  }

  // ---------------------------------------------------------------------------------------------
  // The reader
  // ---------------------------------------------------------------------------------------------

  datatype Reading = Reading(response: Option<string>, feedback: Option<string>, urls: seq<string>, failed: bool,
                             failures: seq<Failure>)

  const NOTHING := Reading(None, None, [], false, [])

  function Flushed(r: Reading): Reading {
    r.(failures := if r.response.Some? && r.failed then r.failures + [Failure(r.response.value, r.feedback, r.urls)]
                   else r.failures,
       failed := false, feedback := None, urls := [])
  }

  function Seen(r: Reading, k: Kind): Reading {
    match k
    case Chatbot(output) => Flushed(r).(response := output)
    case Guardrails(isValid, feedback) =>
      if isValid != Some(false) then r
      else r.(failed := true, feedback := if feedback.Some? && !IsBlank(feedback.value) then feedback else r.feedback)
    case UrlCheck(isValid, blogUrls, unknownUrls) =>
      if isValid != Some(false) then r else r.(failed := true, urls := r.urls + blogUrls + unknownUrls)
    case Other => r
  }

  function SeenAll(kinds: seq<Kind>): Reading {
    if kinds == [] then NOTHING else Seen(SeenAll(kinds[..|kinds| - 1]), kinds[|kinds| - 1])
  }

  function Kinds(spans: seq<Span>): (r: seq<Kind>)
    ensures |r| == |spans|
    ensures forall i :: 0 <= i < |spans| ==> r[i] == spans[i].kind
  {
    seq(|spans|, i requires 0 <= i < |spans| => spans[i].kind)
  }

  ghost predicate SortedByStart(spans: seq<Span>) {
    forall i, j :: 0 <= i < j < |spans| ==> spans[i].start <= spans[j].start
  }

  method SortByStart(spans: seq<Span>) returns (sorted: seq<Span>)
    ensures SortedByStart(sorted) && multiset(sorted) == multiset(spans)
  {
    sorted := [];
    for i := 0 to |spans|
      invariant SortedByStart(sorted) && multiset(sorted) == multiset(spans[..i])
    {
      sorted := InsertSpan(sorted, spans[i]);
      assert spans[..i + 1] == spans[..i] + [spans[i]];
    }
    assert spans[..|spans|] == spans;
  }

  method InsertSpan(sorted: seq<Span>, x: Span) returns (inserted: seq<Span>)
    requires SortedByStart(sorted)
    ensures SortedByStart(inserted) && multiset(inserted) == multiset(sorted) + multiset{x}
  {
    var k := |sorted|;
    while k > 0 && sorted[k - 1].start > x.start
      invariant 0 <= k <= |sorted|
      invariant forall j :: k <= j < |sorted| ==> x.start <= sorted[j].start
    {
      k := k - 1;
    }
    InsertedSorted(sorted, x, k);
    assert sorted == sorted[..k] + sorted[k..];
    inserted := sorted[..k] + [x] + sorted[k..];
  }

  lemma InsertedSorted(sorted: seq<Span>, x: Span, k: nat)
    requires SortedByStart(sorted) && k <= |sorted| && (k > 0 ==> sorted[k - 1].start <= x.start)
    requires forall j :: k <= j < |sorted| ==> x.start <= sorted[j].start
    ensures SortedByStart(sorted[..k] + [x] + sorted[k..])
  {
    var inserted := sorted[..k] + [x] + sorted[k..];
    forall i, j | 0 <= i < j < |inserted| ensures inserted[i].start <= inserted[j].start {
      assert i < k ==> inserted[i] == sorted[i];
      assert i > k ==> inserted[i] == sorted[i - 1];
      assert j < k ==> inserted[j] == sorted[j];
      assert j > k ==> inserted[j] == sorted[j - 1];
    }
  }

  method FailuresFromSpans(spans: seq<Span>) returns (failures: seq<Failure>, ghost sorted: seq<Span>)
    ensures SortedByStart(sorted) && multiset(sorted) == multiset(spans)
    ensures failures == Flushed(SeenAll(Kinds(sorted))).failures
  {
    var ordered := SortByStart(spans);
    sorted := ordered;
    var r := NOTHING;
    for i := 0 to |ordered|
      invariant r == SeenAll(Kinds(ordered[..i]))
    {
      assert Kinds(ordered[..i + 1])[..i] == Kinds(ordered[..i]);
      r := Seen(r, ordered[i].kind);
    }
    assert ordered[..|ordered|] == ordered;
    failures := Flushed(r).failures;
  }

  // ---------------------------------------------------------------------------------------------
  // What the reader reconstructs
  // ---------------------------------------------------------------------------------------------

  /** What should be reported of a rejected attempt. */
  function Reported(s: Setup, a: Attempt): Failure {
    Failure(a.response, if a.valid then None else NonBlank(a.feedback),
            if s.checkUrls && !UrlsOk(a) then a.blogUrls + UnknownUrls(a) else [])
  }

  /** The reports on the rejected attempts that answered anything, in order. */
  function Reports(s: Setup, attempts: seq<Attempt>): seq<Failure> {
    if attempts == [] then []
    else
      var n := |attempts| - 1;
      Reports(s, attempts[..n])
      + if IsRejected(s, attempts[n]) && !IsBlank(attempts[n].response) then [Reported(s, attempts[n])] else []
  }

  function SeenFrom(r: Reading, kinds: seq<Kind>): Reading {
    if kinds == [] then r else Seen(SeenFrom(r, kinds[..|kinds| - 1]), kinds[|kinds| - 1])
  }

  lemma {:induction false} SeenConcat(a: seq<Kind>, b: seq<Kind>)
    ensures SeenAll(a + b) == SeenFrom(SeenAll(a), b)
  {
    if b == [] {
      assert a + b == a;
    } else {
      SeenConcat(a, b[..|b| - 1]);
      assert (a + b)[..|a + b| - 1] == a + b[..|b| - 1];
    }
  }

  lemma SeenThree(r: Reading, a: Kind, b: Kind, c: Kind)
    ensures SeenFrom(r, [a]) == Seen(r, a)
    ensures SeenFrom(r, [a, b]) == Seen(Seen(r, a), b)
    ensures SeenFrom(r, [a, b, c]) == Seen(Seen(Seen(r, a), b), c)
  {
    assert [a][..0] == [] && [a, b][..1] == [a] && [a, b, c][..2] == [a, b];
  }

  /** Reading one attempt flushes what came before it and leaves its own verdict pending. */
  lemma ReadAttempt(s: Setup, r: Reading, a: Attempt)
    ensures var after := SeenFrom(r, Emits(s, a));
            && after.failures == Flushed(r).failures
            && after.response == NonBlank(a.response)
            && (after.failed <==> IsRejected(s, a))
            && (after.failed ==> after.feedback == Reported(s, a).feedback && after.urls == Reported(s, a).urls)
            && (!after.failed ==> after.feedback == None && after.urls == [])
  {
    var chatbot, verdict := Chatbot(NonBlank(a.response)), Guardrails(Some(a.valid), NonBlank(a.feedback));
    var urls := UrlCheck(Some(UrlsOk(a)), a.blogUrls, UnknownUrls(a));
    SeenThree(r, chatbot, verdict, urls);
    assert Emits(s, a) == if !s.enabled then [chatbot]
                          else if s.checkUrls then [chatbot, verdict, urls] else [chatbot, verdict];
    assert [] + a.blogUrls + UnknownUrls(a) == a.blogUrls + UnknownUrls(a);
  }

  /** Reading the spans of a turn reports exactly its rejected, non-blank attempts. */
  lemma {:induction false} ReadTurn(s: Setup, attempts: seq<Attempt>)
    ensures Flushed(SeenAll(EmitsAll(s, attempts))).failures == Reports(s, attempts)
  {
    if attempts != [] {
      var n := |attempts| - 1;
      ReadTurn(s, attempts[..n]);
      SeenConcat(EmitsAll(s, attempts[..n]), Emits(s, attempts[n]));
      ReadAttempt(s, SeenAll(EmitsAll(s, attempts[..n])), attempts[n]);
    }
  }

  /** The spans the reader looks at. */
  function Relevant(spans: seq<Span>): seq<Span> {
    if spans == [] then []
    else
      var n := |spans| - 1;
      Relevant(spans[..n]) + if spans[n].kind.Other? then [] else [spans[n]]
  }

  lemma SeenLast(spans: seq<Span>, x: Span)
    ensures SeenAll(Kinds(spans + [x])) == Seen(SeenAll(Kinds(spans)), x.kind)
  {
    assert Kinds(spans + [x])[..|spans|] == Kinds(spans);
  }

  lemma {:induction false} OthersIgnored(spans: seq<Span>)
    ensures SeenAll(Kinds(spans)) == SeenAll(Kinds(Relevant(spans)))
  {
    if spans != [] {
      var n := |spans| - 1;
      OthersIgnored(spans[..n]);
      SeenLast(spans[..n], spans[n]);
      assert spans == spans[..n] + [spans[n]];
      if spans[n].kind.Other? {
        assert Relevant(spans) == Relevant(spans[..n]);
      } else {
        SeenLast(Relevant(spans[..n]), spans[n]);
      }
    }
  }

  lemma {:induction false} RelevantCount(spans: seq<Span>, x: Span)
    ensures multiset(Relevant(spans))[x] == if x.kind.Other? then 0 else multiset(spans)[x]
  {
    if spans != [] {
      RelevantCount(spans[..|spans| - 1], x);
      assert spans == spans[..|spans| - 1] + [spans[|spans| - 1]];
    }
  }

  lemma {:induction false} RelevantSorted(spans: seq<Span>)
    requires SortedByStart(spans)
    ensures SortedByStart(Relevant(spans))
    ensures forall x :: x in Relevant(spans) ==> x in spans
  {
    if spans != [] {
      var n := |spans| - 1;
      var before := Relevant(spans[..n]);
      RelevantSorted(spans[..n]);
      forall i | 0 <= i < |before| ensures before[i].start <= spans[n].start {
        assert before[i] in spans[..n];
      }
    }
  }

  ghost predicate StrictlyOrdered(spans: seq<Span>) {
    forall i, j :: 0 <= i < j < |spans| ==> spans[i].start < spans[j].start
  }

  lemma LastsAgree(strict: seq<Span>, sorted: seq<Span>)
    requires StrictlyOrdered(strict) && SortedByStart(sorted) && strict != [] && sorted != []
    requires forall x :: x in sorted <==> x in strict
    ensures sorted[|sorted| - 1] == strict[|strict| - 1]
  {
    var x, y := strict[|strict| - 1], sorted[|sorted| - 1];
    assert x in sorted && y in strict;
    var i :| 0 <= i < |sorted| && sorted[i] == x;
    var j :| 0 <= j < |strict| && strict[j] == y;
  }

  /** There is one way to put spans with different start times in order. */
  lemma {:induction false} OrderIsUnique(strict: seq<Span>, sorted: seq<Span>)
    requires StrictlyOrdered(strict) && SortedByStart(sorted) && multiset(sorted) == multiset(strict)
    ensures sorted == strict
  {
    assert |sorted| == |multiset(sorted)| == |multiset(strict)| == |strict|;
    if strict != [] {
      forall x ensures x in sorted <==> x in strict {
        assert x in multiset(sorted) <==> x in multiset(strict);
      }
      LastsAgree(strict, sorted);
      var n := |strict| - 1;
      DropLast(strict, sorted);
      OrderIsUnique(strict[..n], sorted[..n]);
      assert strict == strict[..n] + [strict[n]] && sorted == sorted[..n] + [sorted[n]];
    }
  }

  lemma DropLast(a: seq<Span>, b: seq<Span>)
    requires |a| == |b| > 0 && multiset(a) == multiset(b) && a[|a| - 1] == b[|b| - 1]
    ensures multiset(a[..|a| - 1]) == multiset(b[..|b| - 1])
  {
    var n, x := |a| - 1, a[|a| - 1];
    assert a == a[..n] + [x] && b == b[..n] + [x];
    assert multiset(a[..n]) == multiset(a) - multiset{x};
    assert multiset(b[..n]) == multiset(b) - multiset{x};
  }

  /**
   However the spans of a turn are stored, and whatever other spans the trace holds, the reader
   reconstructs exactly the rejected responses that were not blank, in order.
   */
  lemma TraceTellsRejections(s: Setup, attempts: seq<Attempt>, emitted: seq<Span>, stored: seq<Span>, sorted: seq<Span>)
    requires Kinds(emitted) == EmitsAll(s, attempts) && StrictlyOrdered(emitted)
    requires multiset(Relevant(stored)) == multiset(emitted)
    requires SortedByStart(sorted) && multiset(sorted) == multiset(stored)
    ensures Flushed(SeenAll(Kinds(sorted))).failures == Reports(s, attempts)
    ensures exists at: seq<nat> :: Tells(s, attempts, Flushed(SeenAll(Kinds(sorted))).failures, at)
  {
    var _ := ReportsTell(s, attempts);
    forall x ensures multiset(Relevant(sorted))[x] == multiset(emitted)[x] {
      RelevantCount(sorted, x);
      RelevantCount(stored, x);
    }
    RelevantSorted(sorted);
    OrderIsUnique(emitted, Relevant(sorted));
    OthersIgnored(sorted);
    ReadTurn(s, attempts);
  }

  /** The failures are the refused, non-blank attempts in order, with the feedback and the links at fault. */
  ghost predicate Tells(s: Setup, attempts: seq<Attempt>, failures: seq<Failure>, at: seq<nat>) {
    && |at| == |failures|
    && (forall i, j :: 0 <= i < j < |at| ==> at[i] < at[j])
    && (forall k: nat :: k in at <==> k < |attempts| && IsRefused(s, attempts[k]) && !IsBlank(attempts[k].response))
    && forall i :: 0 <= i < |failures| && at[i] < |attempts| ==> TellsOf(s, attempts[at[i]], failures[i])
  }

  ghost predicate TellsOf(s: Setup, a: Attempt, f: Failure) {
    && f.assistant == a.response
    && (a.valid || IsBlank(a.feedback) ==> f.feedback == None)
    && (!a.valid && !IsBlank(a.feedback) ==> f.feedback == Some(a.feedback))
    && f.urls == if s.checkUrls && !LinksAreFine(a) then a.blogUrls + UnknownUrls(a) else []
  }

  lemma ReportedMeans(s: Setup, a: Attempt)
    ensures TellsOf(s, a, Reported(s, a))
  {
    RefusedMeans(Setup(true, true, 0, s.blogFeedback, s.unknownFeedback), a.(valid := true));
  }

  lemma {:induction false} ReportsTell(s: Setup, attempts: seq<Attempt>) returns (at: seq<nat>)
    ensures Tells(s, attempts, Reports(s, attempts), at)
  {
    at := [];
    if attempts != [] {
      var n := |attempts| - 1;
      var before := ReportsTell(s, attempts[..n]);
      RefusedMeans(s, attempts[n]);
      ReportedMeans(s, attempts[n]);
      at := if IsRefused(s, attempts[n]) && !IsBlank(attempts[n].response) then before + [n] else before;
      TellsNext(s, attempts, n, Reports(s, attempts[..n]), before);
    }
  }

  lemma TellsNext(s: Setup, attempts: seq<Attempt>, n: nat, failures: seq<Failure>, at: seq<nat>)
    requires |attempts| == n + 1 && Tells(s, attempts[..n], failures, at)
    requires TellsOf(s, attempts[n], Reported(s, attempts[n]))
    ensures if IsRefused(s, attempts[n]) && !IsBlank(attempts[n].response)
            then Tells(s, attempts, failures + [Reported(s, attempts[n])], at + [n])
            else Tells(s, attempts, failures, at)
  {
    forall i | 0 <= i < |at| ensures at[i] < n {
      assert at[i] in at;
    }
    assert forall k: nat :: k < n ==> attempts[..n][k] == attempts[k];
  }

  function Answers(rejections: seq<Rejection>): seq<string> {
    if rejections == [] then []
    else
      var n := |rejections| - 1;
      Answers(rejections[..n]) + if IsBlank(rejections[n].assistant) then [] else [rejections[n].assistant]
  }

  function Reporteds(failures: seq<Failure>): seq<string> {
    seq(|failures|, i requires 0 <= i < |failures| => failures[i].assistant)
  }

  /** The reports and the log of the turn name the same rejected answers. */
  lemma {:induction false} ReportsMatchLog(s: Setup, attempts: seq<Attempt>)
    ensures Reporteds(Reports(s, attempts)) == Answers(Rejections(s, attempts))
  {
    if attempts != [] {
      var n := |attempts| - 1;
      ReportsMatchLog(s, attempts[..n]);
      var log, reports := Rejections(s, attempts[..n]), Reports(s, attempts[..n]);
      if IsRejected(s, attempts[n]) {
        assert Rejections(s, attempts)[..|log|] == log;
        if !IsBlank(attempts[n].response) {
          assert Reporteds(reports + [Reported(s, attempts[n])]) == Reporteds(reports) + [attempts[n].response];
        } else {
          assert Reports(s, attempts) == reports;
        }
      } else {
        assert Rejections(s, attempts) == log && Reports(s, attempts) == reports;
      }
    }
  }
}
