/**
 The transcript a screening reads: every message of a conversation up to a cutoff, accepted only
 when the parent links form a forest of bounded depth.
 */
module Transcript {
  import opened Options

  const MAX_CONTEXT_DEPTH: nat := 512

  datatype Role = User | Assistant | Other(name: string)

  datatype Message = Message(
    id: nat,
    parent: Option<nat>,
    role: Role,
    content: string,
    blocked: bool,
    blockedMessage: string,
    createdAt: int
  )

  datatype TranscriptMessage = TranscriptMessage(
    id: nat, parent: Option<nat>, role: Role, content: string, createdAt: int)

  // Two transcripts share a hash exactly when they are equal, so the hash is the value itself.
  type Hash = seq<TranscriptMessage>

  function TranscriptHash(transcript: seq<TranscriptMessage>): Hash {
    transcript
  }

  function Ids(messages: seq<Message>): set<nat> {
    set m <- messages :: m.id
  }

  ghost predicate DistinctIds(messages: seq<Message>) {
    forall i, j :: 0 <= i < j < |messages| ==> messages[i].id != messages[j].id
  }

  /** The direct replies to a parent, in message order; `None` selects the roots. */
  function ChildIds(messages: seq<Message>, parent: Option<nat>): seq<nat> {
    if messages == [] then []
    else
      var n := |messages| - 1;
      ChildIds(messages[..n], parent) + if messages[n].parent == parent then [messages[n].id] else []
  }

  ghost predicate IsChild(messages: seq<Message>, id: nat, parent: Option<nat>) {
    exists m :: m in messages && m.id == id && m.parent == parent
  }

  lemma {:induction false} ChildIdsMembers(messages: seq<Message>, parent: Option<nat>)
    ensures forall id: nat :: id in ChildIds(messages, parent) <==> IsChild(messages, id, parent)
  {
    if messages != [] {
      var n := |messages| - 1;
      var rest := messages[..n];
      ChildIdsMembers(rest, parent);
      assert messages == rest + [messages[n]];
      forall id: nat ensures IsChild(messages, id, parent) <==>
                             IsChild(rest, id, parent) || (messages[n].parent == parent && messages[n].id == id) {
        if IsChild(messages, id, parent) {
          var m :| m in messages && m.id == id && m.parent == parent;
          assert m in rest || m == messages[n];
        }
      }
    }
  }

  lemma {:induction false} ChildIdsDistinct(messages: seq<Message>, parent: Option<nat>)
    requires DistinctIds(messages)
    ensures forall i, j :: 0 <= i < j < |ChildIds(messages, parent)| ==>
                             ChildIds(messages, parent)[i] != ChildIds(messages, parent)[j]
  {
    if messages != [] {
      var n := |messages| - 1;
      var rest := ChildIds(messages[..n], parent);
      ChildIdsDistinct(messages[..n], parent);
      ChildIdsMembers(messages[..n], parent);
      forall i | 0 <= i < |rest| ensures rest[i] != messages[n].id {
        assert rest[i] in rest;
        assert IsChild(messages[..n], rest[i], parent);
      }
    }
  }

  /** Following exactly `depth` parent links from the message leads to a root. */
  ghost predicate RootedAt(messages: seq<Message>, id: nat, depth: nat)
    decreases depth
  {
    exists m ::
      m in messages && m.id == id &&
      if depth == 0 then m.parent == None
      else m.parent.Some? && RootedAt(messages, m.parent.value, depth - 1)
  }

  ghost predicate WellPlaced(messages: seq<Message>, m: Message) {
    (m.role == User || m.role == Assistant) && (m.parent.Some? ==> m.parent.value in Ids(messages))
  }

  ghost predicate AllWellPlaced(messages: seq<Message>) {
    forall k :: 0 <= k < |messages| ==> WellPlaced(messages, messages[k])
  }

  ghost predicate TooDeep(messages: seq<Message>) {
    exists id: nat, depth: nat :: depth > 512 && RootedAt(messages, id, depth)
  }

  ghost predicate Shallow(messages: seq<Message>, id: nat) {
    exists depth: nat :: depth <= 512 && RootedAt(messages, id, depth)
  }

  ghost predicate AllRooted(messages: seq<Message>) {
    forall id :: id in Ids(messages) ==> Shallow(messages, id)
  }

  /** The content a reader saw: the replacement text when guardrails blocked the answer. */
  function DisplayContent(m: Message): Result<string, ErrorCode> {
    if !m.blocked then Ok(m.content)
    else if m.blockedMessage == "" then Err(MissingDisplay)
    else Ok(m.blockedMessage)
  }

  /** Blocked, with nothing to show in place of the answer. */
  ghost predicate Unreplaced(m: Message) {
    m.blocked && |m.blockedMessage| == 0
  }

  ghost predicate Displays(m: Message, t: TranscriptMessage) {
    && (m.blocked ==> t.content == m.blockedMessage && |t.content| > 0)
    && (!m.blocked ==> t.content == m.content)
    && t.id == m.id && t.parent == m.parent && t.role == m.role && t.createdAt == m.createdAt
  }

  ghost predicate IsTranscriptOf(messages: seq<Message>, transcript: seq<TranscriptMessage>) {
    |transcript| == |messages| && forall i :: 0 <= i < |messages| ==> Displays(messages[i], transcript[i])
  }

  /** Non-empty, of known roles, and every message within the depth limit of a root. */
  ghost predicate Screenable(messages: seq<Message>) {
    messages != [] && AllWellPlaced(messages) && AllRooted(messages)
  }

  lemma UniqueById(messages: seq<Message>, a: Message, b: Message)
    requires DistinctIds(messages) && a in messages && b in messages && a.id == b.id
    ensures a == b
  {
  }

  /** A message has at most one distance to its root. */
  lemma {:induction false} RootedDepthUnique(messages: seq<Message>, id: nat, d: nat, e: nat)
    requires DistinctIds(messages) && RootedAt(messages, id, d) && RootedAt(messages, id, e)
    ensures d == e
    decreases d
  {
    var m :| m in messages && m.id == id && (d == 0 ==> m.parent == None) &&
      (d > 0 ==> m.parent.Some? && RootedAt(messages, m.parent.value, d - 1));
    var k :| k in messages && k.id == id && (e == 0 ==> k.parent == None) &&
      (e > 0 ==> k.parent.Some? && RootedAt(messages, k.parent.value, e - 1));
    UniqueById(messages, m, k);
    if d > 0 {
      RootedDepthUnique(messages, m.parent.value, d - 1, e - 1);
    }
  }

  /** A set that holds the roots and is closed under replies holds every rooted message. */
  lemma {:induction false} ClosedHoldsRooted(messages: seq<Message>, visited: set<nat>, id: nat, depth: nat)
    requires RootedAt(messages, id, depth)
    requires forall m :: m in messages && (m.parent == None || m.parent.value in visited) ==> m.id in visited
    ensures id in visited
    decreases depth
  {
    if depth > 0 {
      var m :| m in messages && m.id == id && m.parent.Some? && RootedAt(messages, m.parent.value, depth - 1);
      ClosedHoldsRooted(messages, visited, m.parent.value, depth - 1);
    }
  }

  function PendingIds(pending: seq<(nat, nat)>): set<nat> {
    set p <- pending :: p.0
  }

  /** The waiting messages are distinct, unvisited, and queued with their distance to a root. */
  ghost predicate QueueInv(messages: seq<Message>, pending: seq<(nat, nat)>, visited: set<nat>) {
    && (forall i, j :: 0 <= i < j < |pending| ==> pending[i].0 != pending[j].0)
    && (forall i :: 0 <= i < |pending| ==> RootedAt(messages, pending[i].0, pending[i].1))
    && PendingIds(pending) !! visited
  }

  /** Every visited message is known and near its root. */
  ghost predicate VisitedInv(messages: seq<Message>, visited: set<nat>) {
    visited <= Ids(messages) && forall id :: id in visited ==> Shallow(messages, id)
  }

  /** A message is reached exactly when it is a root or its parent has been visited. */
  ghost predicate FrontierInv(messages: seq<Message>, reached: set<nat>, visited: set<nat>) {
    forall m :: m in messages ==> (m.id in reached <==> m.parent == None || m.parent.value in visited)
  }

  /** What holds between two steps of the walk over the reply forest. */
  ghost predicate WalkInv(messages: seq<Message>, pending: seq<(nat, nat)>, visited: set<nat>) {
    && QueueInv(messages, pending, visited)
    && VisitedInv(messages, visited)
    && FrontierInv(messages, PendingIds(pending) + visited, visited)
  }

  lemma RootedIsKnown(messages: seq<Message>, id: nat, depth: nat)
    requires RootedAt(messages, id, depth)
    ensures id in Ids(messages)
  {
  }

  ghost predicate RepliesOf(messages: seq<Message>, p: (nat, nat), replies: seq<(nat, nat)>) {
    var children := ChildIds(messages, Some(p.0));
    |replies| == |children| && forall k :: 0 <= k < |replies| ==> replies[k] == (children[k], p.1 + 1)
  }

  lemma ReplyFacts(messages: seq<Message>, p: (nat, nat), replies: seq<(nat, nat)>)
    requires DistinctIds(messages) && RepliesOf(messages, p, replies)
    ensures forall id :: id in PendingIds(replies) <==> IsChild(messages, id, Some(p.0))
    ensures forall i, j :: 0 <= i < j < |replies| ==> replies[i].0 != replies[j].0
  {
    var children := ChildIds(messages, Some(p.0));
    ChildIdsMembers(messages, Some(p.0));
    ChildIdsDistinct(messages, Some(p.0));
    forall id ensures id in PendingIds(replies) <==> id in children {
      if id in children {
        var k :| 0 <= k < |children| && children[k] == id;
        assert replies[k] in replies;
      }
    }
  }

  lemma ReplyIsNew(messages: seq<Message>, pending: seq<(nat, nat)>, visited: set<nat>, id: nat, child: nat)
    requires DistinctIds(messages) && WalkInv(messages, pending, visited)
    requires id in PendingIds(pending) && IsChild(messages, child, Some(id))
    ensures child !in PendingIds(pending) + visited
  {
    var c :| c in messages && c.id == child && c.parent == Some(id);
    assert c.id in PendingIds(pending) + visited <==> id in visited;
  }

  lemma PendingIdsConcat(a: seq<(nat, nat)>, b: seq<(nat, nat)>)
    ensures PendingIds(a + b) == PendingIds(a) + PendingIds(b)
  {
    forall p | p in a + b ensures p in a || p in b {}
    forall p | p in a || p in b ensures p in a + b {}
  }

  lemma PopPending(pending: seq<(nat, nat)>)
    requires pending != [] && forall i, j :: 0 <= i < j < |pending| ==> pending[i].0 != pending[j].0
    ensures PendingIds(pending[..|pending| - 1]) == PendingIds(pending) - {pending[|pending| - 1].0}
    ensures pending[|pending| - 1].0 in PendingIds(pending)
  {
    var n := |pending| - 1;
    assert pending == pending[..n] + [pending[n]];
    PendingIdsConcat(pending[..n], [pending[n]]);
    assert PendingIds([pending[n]]) == {pending[n].0};
  }

  lemma QueueStep(messages: seq<Message>, pending: seq<(nat, nat)>, visited: set<nat>, replies: seq<(nat, nat)>)
    requires DistinctIds(messages) && pending != [] && WalkInv(messages, pending, visited)
    requires RepliesOf(messages, pending[|pending| - 1], replies)
    ensures QueueInv(messages, pending[..|pending| - 1] + replies, visited + {pending[|pending| - 1].0})
  {
    var n := |pending| - 1;
    var (id, depth) := pending[n];
    var rest := pending[..n] + replies;
    PopPending(pending);
    PendingIdsConcat(pending[..n], replies);
    ReplyFacts(messages, pending[n], replies);
    forall child | child in PendingIds(replies) ensures child !in PendingIds(pending) + visited {
      ReplyIsNew(messages, pending, visited, id, child);
    }
    forall k | 0 <= k < |replies| ensures RootedAt(messages, replies[k].0, replies[k].1) {
      assert replies[k] in replies;
      assert replies[k].0 in PendingIds(replies);
    }
    forall i, j | 0 <= i < j < |rest| ensures rest[i].0 != rest[j].0 {
      if i < n && j >= n {
        assert pending[i] in pending && pending[i].0 in PendingIds(pending);
        assert replies[j - n] in replies && replies[j - n].0 in PendingIds(replies);
      }
    }
  }

  /** Visiting the last pending message and queueing its replies keeps the walk invariant. */
  lemma WalkStep(messages: seq<Message>, pending: seq<(nat, nat)>, visited: set<nat>, replies: seq<(nat, nat)>)
    requires DistinctIds(messages) && pending != [] && WalkInv(messages, pending, visited)
    requires pending[|pending| - 1].1 <= MAX_CONTEXT_DEPTH
    requires RepliesOf(messages, pending[|pending| - 1], replies)
    ensures WalkInv(messages, pending[..|pending| - 1] + replies, visited + {pending[|pending| - 1].0})
    ensures pending[|pending| - 1].0 in Ids(messages) - visited
  {
    var n := |pending| - 1;
    var (id, depth) := pending[n];
    RootedIsKnown(messages, id, depth);
    QueueStep(messages, pending, visited, replies);
    PopPending(pending);
    PendingIdsConcat(pending[..n], replies);
    ReplyFacts(messages, pending[n], replies);
    var reached := PendingIds(pending[..n] + replies) + (visited + {id});
    assert reached == PendingIds(pending) + visited + PendingIds(replies);
    forall m | m in messages
      ensures m.id in reached <==> m.parent == None || m.parent.value in visited + {id}
    {
      if m.id in PendingIds(replies) {
        var c :| c in messages && c.id == m.id && c.parent == Some(id);
        UniqueById(messages, c, m);
      } else if m.parent == Some(id) {
        assert IsChild(messages, m.id, Some(id));
      }
    }
  }

  function Lookup(children: map<Option<nat>, seq<nat>>, parent: Option<nat>): seq<nat> {
    if parent in children then children[parent] else []
  }

  ghost predicate Indexes(children: map<Option<nat>, seq<nat>>, messages: seq<Message>) {
    forall p :: Lookup(children, p) == ChildIds(messages, p)
  }

  /** Each id paired with the depth it is queued at. */
  function AtDepth(ids: seq<nat>, depth: nat): (pairs: seq<(nat, nat)>)
    ensures |pairs| == |ids| && forall k :: 0 <= k < |ids| ==> pairs[k] == (ids[k], depth)
  {
    seq(|ids|, k requires 0 <= k < |ids| => (ids[k], depth))
  }

  lemma ChildIdsExtend(messages: seq<Message>, i: nat, p: Option<nat>)
    requires i < |messages|
    ensures ChildIds(messages[..i + 1], p) ==
            ChildIds(messages[..i], p) + if messages[i].parent == p then [messages[i].id] else []
  {
    assert messages[..i + 1][..i] == messages[..i];
  }

  /** Indexes the replies of every message; refuses unknown roles and dangling parents. */
  method IndexReplies(messages: seq<Message>) returns (r: Result<map<Option<nat>, seq<nat>>, ErrorCode>)
    ensures r.Ok? <==> AllWellPlaced(messages)
    ensures r.Err? ==> r.error == InvalidContext
    ensures r.Ok? ==> Indexes(r.value, messages)
  {
    var ids := Ids(messages);
    var children: map<Option<nat>, seq<nat>> := map[];
    for i := 0 to |messages|
      invariant forall k :: 0 <= k < i ==> WellPlaced(messages, messages[k])
      invariant Indexes(children, messages[..i])
    {
      var m := messages[i];
      if (m.role != User && m.role != Assistant) || (m.parent.Some? && m.parent.value !in ids) {
        return Err(InvalidContext);
      }
      ghost var before := children;
      children := children[m.parent := Lookup(children, m.parent) + [m.id]];
      forall p ensures Lookup(children, p) == ChildIds(messages[..i + 1], p) {
        ChildIdsExtend(messages, i, p);
        assert Lookup(children, p) == Lookup(before, p) + if m.parent == p then [m.id] else [];
      }
    }
    assert messages[..|messages|] == messages;
    return Ok(children);
  }

  method QueueReplies(messages: seq<Message>, children: map<Option<nat>, seq<nat>>, p: (nat, nat))
    returns (replies: seq<(nat, nat)>)
    requires Indexes(children, messages)
    ensures RepliesOf(messages, p, replies)
  {
    replies := AtDepth(Lookup(children, Some(p.0)), p.1 + 1);
    assert Lookup(children, Some(p.0)) == ChildIds(messages, Some(p.0));
  }

  /** One step of the walk: it keeps the invariant and leaves fewer messages unvisited. */
  lemma WalkAdvance(messages: seq<Message>, pending: seq<(nat, nat)>, visited: set<nat>, replies: seq<(nat, nat)>)
    requires DistinctIds(messages) && pending != [] && WalkInv(messages, pending, visited)
    requires pending[|pending| - 1].1 <= MAX_CONTEXT_DEPTH
    requires RepliesOf(messages, pending[|pending| - 1], replies)
    ensures WalkInv(messages, pending[..|pending| - 1] + replies, visited + {pending[|pending| - 1].0})
    ensures |Ids(messages) - (visited + {pending[|pending| - 1].0})| < |Ids(messages) - visited|
  {
    WalkStep(messages, pending, visited, replies);
    FewerLeft(Ids(messages), visited, pending[|pending| - 1].0);
  }

  /**
   Walks the reply forest from its roots with an explicit stack. The walk ends for every assignment
   of parents, cycles included, because each step visits a message it has not visited before.
   */
  method WalkReplies(messages: seq<Message>, children: map<Option<nat>, seq<nat>>)
    returns (r: Result<set<nat>, ErrorCode>)
    requires DistinctIds(messages)
    requires Indexes(children, messages)
    ensures r.Err? <==> TooDeep(messages)
    ensures r.Err? ==> r.error == TooLong
    ensures r.Ok? ==> (r.value == Ids(messages) <==> AllRooted(messages))
  {
    var pending := AtDepth(Lookup(children, None), 0);
    var visited: set<nat> := {};
    WalkStart(messages, pending);
    while pending != []
      invariant WalkInv(messages, pending, visited)
      decreases |Ids(messages) - visited|
    {
      var n := |pending| - 1;
      var (id, depth) := pending[n];
      if depth > MAX_CONTEXT_DEPTH {
        AllRootedExcludesDeep(messages, id, depth);
        return Err(TooLong);
      }
      var replies := QueueReplies(messages, children, pending[n]);
      WalkAdvance(messages, pending, visited, replies);
      pending, visited := pending[..n] + replies, visited + {id};
    }
    WalkEnd(messages, visited);
    return Ok(visited);
  }

  /** The messages as their readers saw them, in order. */
  method DisplayAll(messages: seq<Message>) returns (r: Result<seq<TranscriptMessage>, ErrorCode>)
    ensures r.Ok? <==> forall m :: m in messages ==> !Unreplaced(m)
    ensures r.Err? ==> r.error == MissingDisplay
    ensures r.Ok? ==> IsTranscriptOf(messages, r.value)
  {
    var transcript: seq<TranscriptMessage> := [];
    for i := 0 to |messages|
      invariant |transcript| == i
      invariant forall k :: 0 <= k < i ==> Displays(messages[k], transcript[k])
    {
      var m := messages[i];
      var content := DisplayContent(m);
      if content.Err? {
        assert m in messages && Unreplaced(m);
        return Err(content.error);
      }
      transcript := transcript + [TranscriptMessage(m.id, m.parent, m.role, content.value, m.createdAt)];
    }
    forall m | m in messages ensures !Unreplaced(m) {
      var k :| 0 <= k < |messages| && messages[k] == m;
      assert Displays(messages[k], transcript[k]);
    }
    return Ok(transcript);
  }

  /** Loads the transcript of a conversation, or the one code that says why it cannot be screened. */
  method LoadTranscript(messages: seq<Message>) returns (r: Result<seq<TranscriptMessage>, ErrorCode>)
    requires DistinctIds(messages)
    ensures r == Err(TooLong) <==> AllWellPlaced(messages) && TooDeep(messages)
    ensures r == Err(InvalidContext) <==>
            !AllWellPlaced(messages) || (!TooDeep(messages) && (messages == [] || !AllRooted(messages)))
    ensures r == Err(MissingDisplay) <==>
            Screenable(messages) && exists m :: m in messages && Unreplaced(m)
    ensures r.Ok? <==> Screenable(messages) && forall m :: m in messages ==> !Unreplaced(m)
    ensures r.Ok? ==> IsTranscriptOf(messages, r.value)
  {
    RootedExcludesDeep(messages);
    var index := IndexReplies(messages);
    if index.Err? {
      return Err(index.error);
    }
    var walk := WalkReplies(messages, index.value);
    if walk.Err? {
      return Err(walk.error);
    }
    if messages == [] || walk.value != Ids(messages) {
      return Err(InvalidContext);
    }
    r := DisplayAll(messages);
  }

  lemma FewerLeft(all: set<nat>, visited: set<nat>, id: nat)
    requires id in all - visited
    ensures |all - (visited + {id})| < |all - visited|
  {
    assert all - visited == (all - (visited + {id})) + {id};
  }

  lemma WalkStart(messages: seq<Message>, pending: seq<(nat, nat)>)
    requires DistinctIds(messages)
    requires var roots := ChildIds(messages, None);
             |pending| == |roots| && forall k :: 0 <= k < |roots| ==> pending[k] == (roots[k], 0)
    ensures WalkInv(messages, pending, {})
  {
    var roots := ChildIds(messages, None);
    ChildIdsMembers(messages, None);
    ChildIdsDistinct(messages, None);
    forall k | 0 <= k < |pending| ensures RootedAt(messages, pending[k].0, pending[k].1) {
      assert roots[k] in roots;
    }
    forall m | m in messages ensures m.id in PendingIds(pending) <==> m.parent == None {
      if m.parent == None {
        assert IsChild(messages, m.id, None);
        var k :| 0 <= k < |roots| && roots[k] == m.id;
        assert pending[k] in pending;
      }
      if m.id in PendingIds(pending) {
        var k :| 0 <= k < |pending| && pending[k].0 == m.id;
        assert roots[k] in roots;
        var r :| r in messages && r.id == roots[k] && r.parent == None;
        UniqueById(messages, r, m);
      }
    }
  }

  /** A root more than the limit away rules out a bounded one for the same message. */
  lemma AllRootedExcludesDeep(messages: seq<Message>, id: nat, depth: nat)
    requires DistinctIds(messages) && depth > MAX_CONTEXT_DEPTH && RootedAt(messages, id, depth)
    ensures TooDeep(messages) && !AllRooted(messages)
  {
    RootedIsKnown(messages, id, depth);
    if AllRooted(messages) {
      var e: nat :| e <= MAX_CONTEXT_DEPTH && RootedAt(messages, id, e);
      RootedDepthUnique(messages, id, depth, e);
    }
  }

  lemma RootedExcludesDeep(messages: seq<Message>)
    requires DistinctIds(messages)
    ensures AllRooted(messages) ==> !TooDeep(messages)
  {
    if TooDeep(messages) {
      var id: nat, depth: nat :| depth > MAX_CONTEXT_DEPTH && RootedAt(messages, id, depth);
      AllRootedExcludesDeep(messages, id, depth);
    }
  }

  /** When the walk has run dry, it has visited exactly the messages that reach a root. */
  lemma WalkEnd(messages: seq<Message>, visited: set<nat>)
    requires DistinctIds(messages) && WalkInv(messages, [], visited)
    ensures visited == Ids(messages) <==> AllRooted(messages)
    ensures !TooDeep(messages)
  {
    assert PendingIds([]) == {};
    forall id: nat, depth: nat | RootedAt(messages, id, depth) ensures id in visited && depth <= MAX_CONTEXT_DEPTH {
      ClosedHoldsRooted(messages, visited, id, depth);
      var e: nat :| e <= MAX_CONTEXT_DEPTH && RootedAt(messages, id, e);
      RootedDepthUnique(messages, id, depth, e);
    }
  }
}
