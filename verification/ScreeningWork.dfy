/**
 From a claim to stored evidence: what a worker is asked to screen, and what its stored findings
 say about the messages as they stand when the result is accepted.
 */
module ScreeningWork {
  import opened Options
  import opened ScreeningStore
  import T = Transcript
  import E = Evidence
  import P = ScreeningProtocol

  /** An assistant message of the transcript inside the screened period. */
  predicate IsTarget(m: T.TranscriptMessage, startAt: int, endAt: int) {
    m.role == T.Assistant && startAt <= m.createdAt <= endAt
  }

  ghost function TargetIds(transcript: seq<T.TranscriptMessage>, startAt: int, endAt: int): set<nat> {
    set m | m in transcript && IsTarget(m, startAt, endAt) :: m.id
  }

  /** The claim holds the rows of exactly the assistant messages from `startAt` to `endAt`. */
  ghost predicate HoldsPeriod(items: seq<Item>, claim: Claim, transcript: seq<T.TranscriptMessage>, startAt: int,
                              endAt: int) {
    forall id :: HoldsMessage(items, claim, id) <==>
                 exists m :: m in transcript && m.id == id && m.role == T.Assistant
                             && startAt <= m.createdAt && m.createdAt <= endAt
  }

  lemma HoldsPeriodMeans(items: seq<Item>, claim: Claim, transcript: seq<T.TranscriptMessage>, startAt: int, endAt: int)
    ensures HoldsPeriod(items, claim, transcript, startAt, endAt) <==>
            HeldMessages(items, claim) == TargetIds(transcript, startAt, endAt)
  {
    HeldMessagesMeans(items, claim, []);
    forall id ensures id in TargetIds(transcript, startAt, endAt) <==>
                      exists m :: m in transcript && m.id == id && m.role == T.Assistant
                                  && startAt <= m.createdAt && m.createdAt <= endAt {
      if m :| m in transcript && m.id == id && m.role == T.Assistant && startAt <= m.createdAt && m.createdAt <= endAt {
        assert IsTarget(m, startAt, endAt);
      }
    }
  }

  /** The ids stand in the transcript one after the other. */
  ghost predicate InTranscriptOrder(transcript: seq<T.TranscriptMessage>, ids: seq<nat>, at: seq<nat>) {
    && |at| == |ids|
    && (forall k :: 0 <= k < |at| ==> at[k] < |transcript| && transcript[at[k]].id == ids[k])
    && forall j, k :: 0 <= j < k < |at| ==> at[j] < at[k]
  }

  /** The ids of the messages in the set, in transcript order. */
  function InOrder(transcript: seq<T.TranscriptMessage>, ids: set<nat>): seq<nat> {
    if transcript == [] then []
    else
      var n := |transcript| - 1;
      InOrder(transcript[..n], ids) + if transcript[n].id in ids then [transcript[n].id] else []
  }

  ghost predicate HasId(transcript: seq<T.TranscriptMessage>, id: nat) {
    exists i :: 0 <= i < |transcript| && transcript[i].id == id
  }

  lemma {:induction false} InOrderMembers(transcript: seq<T.TranscriptMessage>, ids: set<nat>, id: nat)
    ensures id in InOrder(transcript, ids) <==> id in ids && HasId(transcript, id)
  {
    if transcript != [] {
      var n := |transcript| - 1;
      InOrderMembers(transcript[..n], ids, id);
      if HasId(transcript, id) && transcript[n].id != id {
        var i :| 0 <= i < |transcript| && transcript[i].id == id;
        assert transcript[..n][i].id == id;
      }
    }
  }

  lemma {:induction false} InOrderStands(transcript: seq<T.TranscriptMessage>, ids: set<nat>) returns (at: seq<nat>)
    ensures InTranscriptOrder(transcript, InOrder(transcript, ids), at)
  {
    at := [];
    if transcript != [] {
      var n := |transcript| - 1;
      var before := InOrderStands(transcript[..n], ids);
      at := before + if transcript[n].id in ids then [n] else [];
      StandsNext(transcript, n, InOrder(transcript[..n], ids), before);
    }
  }

  lemma StandsNext(transcript: seq<T.TranscriptMessage>, n: nat, ids: seq<nat>, at: seq<nat>)
    requires |transcript| == n + 1 && InTranscriptOrder(transcript[..n], ids, at)
    ensures InTranscriptOrder(transcript, ids + [], at + [])
    ensures InTranscriptOrder(transcript, ids + [transcript[n].id], at + [n])
  {
    assert ids + [] == ids && at + [] == at;
    assert forall k: nat :: k < n ==> transcript[..n][k] == transcript[k];
  }

  /** The held messages in transcript order, and the hash of what was read. */
  ghost predicate IsWork(items: seq<Item>, claim: Claim, transcript: seq<T.TranscriptMessage>, work: Work) {
    && work.inputHash == T.TranscriptHash(transcript)
    && HoldsExactly(items, claim, work.targets)
    && exists at: seq<nat> :: InTranscriptOrder(transcript, work.targets, at)
  }

  /** The first check that fails decides; otherwise there is work. */
  ghost predicate PreparedAs(items: seq<Item>, claim: Claim, authorized: bool, current: bool,
                             transcript: Result<seq<T.TranscriptMessage>, ErrorCode>, startAt: int, endAt: int,
                             r: Result<Option<Work>, ErrorCode>) {
    if !AnyHeld(items, claim) then r == Ok(None)
    else if !authorized then r == Err(AccessChanged)
    else if !current then r == Err(ScreeningVersionChanged)
    else if transcript.Err? then r == Err(transcript.error)
    else if !HoldsPeriod(items, claim, transcript.value, startAt, endAt) then r == Err(InvalidContext)
    else r.Ok? && r.value.Some? && IsWork(items, claim, transcript.value, r.value.value)
  }

  /** The messages the claim should hold, and those it does hold in transcript order. */
  method SelectTargets(messages: seq<T.TranscriptMessage>, held: set<nat>, startAt: int, endAt: int)
    returns (expected: set<nat>, targets: seq<nat>)
    ensures expected == TargetIds(messages, startAt, endAt) && targets == InOrder(messages, held)
  {
    expected, targets := {}, [];
    for i := 0 to |messages|
      invariant expected == TargetIds(messages[..i], startAt, endAt)
      invariant targets == InOrder(messages[..i], held)
    {
      var m := messages[i];
      assert messages[..i + 1] == messages[..i] + [m];
      if IsTarget(m, startAt, endAt) {
        expected := expected + {m.id};
      }
      assert messages[..i + 1][..i] == messages[..i];
      if m.id in held {
        targets := targets + [m.id];
      }
    }
    assert messages[..|messages|] == messages;
  }

  lemma SelectedIsWork(items: seq<Item>, claim: Claim, transcript: seq<T.TranscriptMessage>, startAt: int, endAt: int)
    requires HeldMessages(items, claim) == TargetIds(transcript, startAt, endAt)
    ensures IsWork(items, claim, transcript,
                   Work(InOrder(transcript, HeldMessages(items, claim)), T.TranscriptHash(transcript)))
  {
    var held := HeldMessages(items, claim);
    var targets := InOrder(transcript, held);
    forall id ensures id in targets <==> id in held {
      InOrderMembers(transcript, held, id);
      if id in held {
        var m :| m in transcript && IsTarget(m, startAt, endAt) && m.id == id;
        assert HasId(transcript, id);
      }
    }
    assert (set t <- targets) == held;
    HeldMessagesMeans(items, claim, targets);
    var _ := InOrderStands(transcript, held);
  }

  lemma HeldKeys(items: seq<Item>, claim: Claim)
    ensures HeldMessages(items, claim) == {} <==> !AnyHeld(items, claim)
  {
    if x :| x in items && IsHeld(x, claim) {
      assert Selects(HeldBy(claim), x) && x.message.value in HeldMessages(items, claim);
    }
    if m :| m in HeldMessages(items, claim) {
      var x :| x in items && Selects(HeldBy(claim), x) && x.message.value == m;
      assert IsHeld(x, claim);
    }
  }

  /**
   Reads the work of a claim: the rows it holds must be exactly the assistant messages of the
   period, and they are screened in transcript order.
   */
  method PrepareWork(store: Store, claim: Claim, authorized: bool, current: bool,
                     transcript: Result<seq<T.TranscriptMessage>, ErrorCode>, startAt: int, endAt: int)
    returns (r: Result<Option<Work>, ErrorCode>)
    ensures PreparedAs(store.items, claim, authorized, current, transcript, startAt, endAt, r)
  {
    var byMessage := store.ReadHeld(claim);
    HeldKeys(store.items, claim);
    if byMessage.Keys == {} {
      return Ok(None);
    }
    if !authorized {
      return Err(AccessChanged);
    }
    if !current {
      return Err(ScreeningVersionChanged);
    }
    if transcript.Err? {
      return Err(transcript.error);
    }
    var expected, targets := SelectTargets(transcript.value, byMessage.Keys, startAt, endAt);
    HoldsPeriodMeans(store.items, claim, transcript.value, startAt, endAt);
    if byMessage.Keys != expected {
      return Err(InvalidContext);
    }
    SelectedIsWork(store.items, claim, transcript.value, startAt, endAt);
    return Ok(Some(Work(targets, T.TranscriptHash(transcript.value))));
  }

  /** The text is that of an assistant message of the transcript. */
  ghost predicate HasText(transcript: seq<T.TranscriptMessage>, id: nat, text: string) {
    exists m :: m in transcript && m.id == id && m.role == T.Assistant && m.content == text
  }

  ghost predicate IsAnswer(transcript: seq<T.TranscriptMessage>, id: nat) {
    exists m :: m in transcript && m.id == id && m.role == T.Assistant
  }

  /** The text of every message to screen; each must be an assistant message of the transcript. */
  method TargetMessages(transcript: seq<T.TranscriptMessage>, targets: seq<nat>)
    returns (r: Result<map<nat, string>, ErrorCode>)
    ensures r.Ok? ==> r.value.Keys == (set t <- targets) && targets != []
    ensures r.Ok? ==> forall id :: id in r.value ==> HasText(transcript, id, r.value[id])
    ensures r.Err? <==> targets == [] || exists t :: t in targets && !IsAnswer(transcript, t)
    ensures r.Err? ==> r.error == InvalidContext
  {
    var ids := set t <- targets;
    var texts: map<nat, string> := map[];
    for i := 0 to |transcript|
      invariant texts.Keys <= ids
      invariant forall id :: id in texts ==> HasText(transcript, id, texts[id])
      invariant forall k :: 0 <= k < i && transcript[k].id in ids && transcript[k].role == T.Assistant
                            ==> transcript[k].id in texts
    {
      var m := transcript[i];
      if m.id in ids && m.role == T.Assistant {
        assert m in transcript;
        texts := texts[m.id := m.content];
      }
    }
    forall t | t in targets ensures t in texts <==> IsAnswer(transcript, t) {
      if IsAnswer(transcript, t) {
        var m :| m in transcript && m.id == t && m.role == T.Assistant;
        var k :| 0 <= k < |transcript| && transcript[k] == m;
        assert t in ids;
      }
    }
    if texts.Keys == {} || texts.Keys != ids {
      if targets != [] {
        assert targets[0] in ids;
        var t :| t in ids && t !in texts;
      }
      return Err(InvalidContext);
    }
    return Ok(texts);
  }

  /** The stored row quotes, in the transcript as locked at storage time, a message its item names. */
  ghost predicate QuotesNow(row: StoredFinding, items: seq<Item>, transcript: seq<T.TranscriptMessage>,
                            fs: seq<E.Finding>, instructions: string) {
    exists x: Item, m: T.TranscriptMessage, f: E.Finding ::
      && x in items && x.id == row.itemId && x.message == Some(m.id)
      && m in transcript && m.role == T.Assistant
      && f in fs && f.messageId == m.id
      && E.Denotes(m.content, row.concern.key.evidence, f.messageQuote)
      && E.Denotes(instructions, row.concern.key.instruction, f.instructionQuote)
  }

  /**
   Whenever findings are stored, slicing the locked transcript and the instructions at the stored
   offsets gives back the model's own quotes, each standing there and nowhere else.
   */
  lemma StoredFindingsQuoteTheLockedTranscript(
    w: P.World, e: P.Event, seen: seq<T.TranscriptMessage>, texts: map<nat, string>, fs: seq<E.Finding>,
    ls: seq<E.Located>, instructions: string)
    requires P.Accepts(w, e) && e.work.inputHash == T.TranscriptHash(seen)
    requires forall id :: id in texts ==> HasText(seen, id, texts[id])
    requires E.LocatesAll(ls, fs, instructions, texts) && E.Groups(e.concerns, ls)
    ensures forall k :: 0 <= k < |e.rows| ==>
                          QuotesNow(e.rows[k], w.items, e.source.transcript, fs, instructions)
  {
    E.ConcernsQuoteTheirSources(e.concerns, ls, fs, instructions, texts);
    forall k | 0 <= k < |e.rows|
      ensures QuotesNow(e.rows[k], w.items, e.source.transcript, fs, instructions)
    {
      var c := e.concerns[k];
      assert c in e.concerns && E.Backed(c, fs, instructions, texts);
      var f :| && f in fs && f.messageId == c.key.messageId
               && E.Denotes(texts[c.key.messageId], c.key.evidence, f.messageQuote)
               && E.Denotes(instructions, c.key.instruction, f.instructionQuote);
      var m :| m in seen && m.id == f.messageId && m.role == T.Assistant && m.content == texts[f.messageId];
      var x :| x in w.items && Selects(HeldBy(e.claim), x) && x.id == e.rows[k].itemId
               && x.message == Some(c.key.messageId);
    }
  }
}
