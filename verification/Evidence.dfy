/**
 The evidence validator: every finding must quote its message and the instructions exactly once,
 and findings on the same pair of spans become one concern.
 */
module Evidence {
  import opened Options
  import opened Text

  datatype Category = Inappropriate | Misinformation | RegulatoryCompliance | ReputationRisk | Confidentiality

  const CATEGORIES := [Inappropriate, Misinformation, RegulatoryCompliance, ReputationRisk, Confidentiality]

  datatype Finding = Finding(
    messageId: nat,
    title: string,
    categories: seq<Category>,
    explanation: string,
    messageQuote: string,
    instructionQuote: string
  )

  datatype ScreeningResult = ScreeningResult(complete: bool, findings: seq<Finding>)

  datatype Key = Key(messageId: nat, evidence: (nat, nat), instruction: (nat, nat))

  datatype Concern = Concern(key: Key, title: string, categories: seq<Category>, explanation: string)

  /** The quote stands at this place in the source, character by character. */
  ghost predicate Stands(source: string, quote: string, i: nat) {
    i + |quote| <= |source| && forall k :: 0 <= k < |quote| ==> source[i + k] == quote[k]
  }

  predicate OccursAt(source: string, quote: string, i: nat): (r: bool)
    ensures r <==> Stands(source, quote, i)
  {
    i + |quote| <= |source| && source[i..i + |quote|] == quote
  }

  /** The first occurrence at or after `from`. */
  function Find(source: string, quote: string, from: nat): (r: Option<nat>)
    ensures r.Some? ==> from <= r.value && Stands(source, quote, r.value)
                        && forall i: nat :: from <= i < r.value ==> !Stands(source, quote, i)
    ensures r.None? ==> forall i: nat :: from <= i ==> !Stands(source, quote, i)
    decreases |source| - from
  {
    if OccursAt(source, quote, from) then Some(from)
    else if from >= |source| then None
    else Find(source, quote, from + 1)
  }

  /** The one place where the quote stands in the source, overlapping occurrences counted apart. */
  ghost predicate OnlyAt(source: string, quote: string, start: nat) {
    Stands(source, quote, start) && forall i: nat :: Stands(source, quote, i) ==> i == start
  }

  ghost predicate Quotable(source: string, quote: string) {
    !IsBlank(quote) && exists start: nat :: OnlyAt(source, quote, start)
  }

  function Span(source: string, quote: string): (r: Result<(nat, nat), ErrorCode>)
    ensures r.Ok? <==> Quotable(source, quote)
    ensures r.Ok? ==> r.value.0 <= r.value.1 <= |source| && source[r.value.0..r.value.1] == quote
                      && OnlyAt(source, quote, r.value.0)
    ensures r.Err? ==> r.error == InvalidEvidence
  {
    var start := Find(source, quote, 0);
    if IsBlank(quote) || start.None? || Find(source, quote, start.value + 1).Some?
    then
      assert Quotable(source, quote) ==> start.Some?;
      Err(InvalidEvidence)
    else
      assert OnlyAt(source, quote, start.value);
      Ok((start.value, start.value + |quote|))
  }

  /** Where a category is declared. */
  function Rank(c: Category): nat {
    match c
    case Inappropriate => 0
    case Misinformation => 1
    case RegulatoryCompliance => 2
    case ReputationRisk => 3
    case Confidentiality => 4
  }

  /** In the order of declaration, and so without repetition. */
  ghost predicate InDeclaredOrder(cats: seq<Category>) {
    forall i, j :: 0 <= i < j < |cats| ==> Rank(cats[i]) < Rank(cats[j])
  }

  /** The categories in their declared order, each once. */
  function Canonical(cats: set<Category>): (r: seq<Category>)
    ensures InDeclaredOrder(r)
  {
    KeepInOrder(CATEGORIES, cats);
    Keep(CATEGORIES, cats)
  }

  function Keep(order: seq<Category>, cats: set<Category>): (r: seq<Category>)
    ensures forall c :: c in r <==> c in order && c in cats
  {
    if order == [] then []
    else (if order[0] in cats then [order[0]] else []) + Keep(order[1..], cats)
  }

  lemma {:induction false} KeepInOrder(order: seq<Category>, cats: set<Category>)
    requires InDeclaredOrder(order)
    ensures InDeclaredOrder(Keep(order, cats))
  {
    if order != [] {
      var rest := Keep(order[1..], cats);
      KeepInOrder(order[1..], cats);
      forall i | 0 <= i < |rest| ensures Rank(order[0]) < Rank(rest[i]) {
        assert rest[i] in order[1..];
      }
    }
  }

  function CategorySet(cats: seq<Category>): set<Category> {
    set c <- cats
  }

  lemma CanonicalRoundTrip(cats: set<Category>)
    ensures CategorySet(Canonical(cats)) == cats
    ensures InDeclaredOrder(Canonical(cats))
  {
    forall c | c in cats ensures c in Canonical(cats) {
      assert c in CATEGORIES by {
        assert |CATEGORIES| == 5;
        match c {
          case Inappropriate => assert CATEGORIES[0] == c;
          case Misinformation => assert CATEGORIES[1] == c;
          case RegulatoryCompliance => assert CATEGORIES[2] == c;
          case ReputationRisk => assert CATEGORIES[3] == c;
          case Confidentiality => assert CATEGORIES[4] == c;
        }
      }
    }
  }

  /** What the validator demands of one finding. */
  ghost predicate Supported(f: Finding, instructions: string, targets: map<nat, string>) {
    f.messageId in targets && Quotable(targets[f.messageId], f.messageQuote)
    && Quotable(instructions, f.instructionQuote)
  }

  /** A finding with the pair of spans its quotes denote. */
  datatype Located = Located(key: Key, finding: Finding)

  ghost predicate LocatedIn(l: Located, instructions: string, targets: map<nat, string>) {
    var f := l.finding;
    && l.key.messageId == f.messageId && f.messageId in targets
    && Denotes(targets[f.messageId], l.key.evidence, f.messageQuote)
    && Denotes(instructions, l.key.instruction, f.instructionQuote)
  }

  /** The span holds the quote, and the quote stands nowhere else. */
  ghost predicate Denotes(source: string, span: (nat, nat), quote: string) {
    span.0 <= span.1 <= |source| && source[span.0..span.1] == quote && OnlyAt(source, quote, span.0)
  }

  /** The listing pairs every finding with its spans, in order. */
  ghost predicate LocatesAll(ls: seq<Located>, fs: seq<Finding>, instructions: string, targets: map<nat, string>) {
    |ls| == |fs| && forall i :: 0 <= i < |fs| ==> ls[i].finding == fs[i] && LocatedIn(ls[i], instructions, targets)
  }

  /** The position of the first finding with this key. */
  function First(ls: seq<Located>, key: Key): (i: nat)
    ensures i <= |ls| && (i < |ls| ==> ls[i].key == key)
    ensures forall j :: 0 <= j < i ==> ls[j].key != key
  {
    if ls == [] || ls[0].key == key then 0 else 1 + First(ls[1..], key)
  }

  /** Every category any finding gave to this pair of spans. */
  ghost function Merged(ls: seq<Located>, key: Key): set<Category> {
    set l, c | l in ls && l.key == key && c in l.finding.categories :: c
  }

  /** The concern carries the words of the first finding with its key and the categories of all. */
  ghost predicate Opened(c: Concern, ls: seq<Located>) {
    var i := First(ls, c.key);
    i < |ls| && c.title == ls[i].finding.title && c.explanation == ls[i].finding.explanation
    && c.categories == Canonical(Merged(ls, c.key))
  }

  ghost predicate HasKey(cs: seq<Concern>, key: Key) {
    exists k :: 0 <= k < |cs| && cs[k].key == key
  }

  /** The concerns are the findings grouped by key, in the order the keys first appear. */
  ghost predicate Groups(cs: seq<Concern>, ls: seq<Located>) {
    && (forall k :: 0 <= k < |cs| ==> Opened(cs[k], ls))
    && (forall j, k :: 0 <= j < k < |cs| ==> First(ls, cs[j].key) < First(ls, cs[k].key))
    && (forall i :: 0 <= i < |ls| ==> HasKey(cs, ls[i].key))
  }

  lemma FirstExtends(ls: seq<Located>, l: Located, key: Key)
    ensures First(ls, key) < |ls| ==> First(ls + [l], key) == First(ls, key)
    ensures First(ls, key) == |ls| && l.key == key ==> First(ls + [l], key) == |ls|
  {
    var i, j := First(ls, key), First(ls + [l], key);
    assert forall k :: 0 <= k < |ls| ==> (ls + [l])[k] == ls[k];
    assert (ls + [l])[|ls|] == l;
  }

  lemma MergedExtends(ls: seq<Located>, l: Located, key: Key)
    ensures l.key == key ==> Merged(ls + [l], key) == Merged(ls, key) + CategorySet(l.finding.categories)
    ensures l.key != key ==> Merged(ls + [l], key) == Merged(ls, key)
  {
    forall x ensures x in ls + [l] <==> x in ls || x == l {
    }
  }

  /** A finding with another key leaves a concern as it is. */
  lemma OpenedStays(c: Concern, ls: seq<Located>, l: Located)
    requires Opened(c, ls) && l.key != c.key
    ensures Opened(c, ls + [l]) && First(ls + [l], c.key) == First(ls, c.key)
  {
    FirstExtends(ls, l, c.key);
    MergedExtends(ls, l, c.key);
  }

  lemma HasKeyKept(cs: seq<Concern>, cs': seq<Concern>, key: Key)
    requires HasKey(cs, key) && |cs| <= |cs'|
    requires forall k :: 0 <= k < |cs| ==> cs'[k].key == cs[k].key
    ensures HasKey(cs', key)
  {
    var k :| 0 <= k < |cs| && cs[k].key == key;
    assert cs'[k].key == key;
  }

  /** A finding on a new pair of spans opens a concern behind the others. */
  lemma GroupsOpen(cs: seq<Concern>, ls: seq<Located>, l: Located, c: Concern)
    requires Groups(cs, ls) && !HasKey(cs, l.key)
    requires c == Concern(l.key, l.finding.title, Canonical(CategorySet(l.finding.categories)), l.finding.explanation)
    ensures Groups(cs + [c], ls + [l])
  {
    var cs', ls' := cs + [c], ls + [l];
    NewIsOpened(cs, ls, l, c);
    forall k | 0 <= k < |cs| ensures Opened(cs[k], ls') && First(ls', cs[k].key) == First(ls, cs[k].key) {
      OpenedStays(cs[k], ls, l);
    }
    KeysStayCovered(cs, c, ls, l);
  }

  lemma KeysStayCovered(cs: seq<Concern>, c: Concern, ls: seq<Located>, l: Located)
    requires (forall i :: 0 <= i < |ls| ==> HasKey(cs, ls[i].key)) && c.key == l.key
    ensures forall i :: 0 <= i < |ls + [l]| ==> HasKey(cs + [c], (ls + [l])[i].key)
  {
    forall i | 0 <= i < |ls + [l]| ensures HasKey(cs + [c], (ls + [l])[i].key) {
      if i < |ls| {
        HasKeyKept(cs, cs + [c], ls[i].key);
      } else {
        assert (cs + [c])[|cs|].key == l.key;
      }
    }
  }

  lemma NewIsOpened(cs: seq<Concern>, ls: seq<Located>, l: Located, c: Concern)
    requires Groups(cs, ls) && !HasKey(cs, l.key)
    requires c == Concern(l.key, l.finding.title, Canonical(CategorySet(l.finding.categories)), l.finding.explanation)
    ensures Opened(c, ls + [l]) && First(ls + [l], c.key) == |ls|
  {
    assert First(ls, l.key) == |ls|;
    FirstExtends(ls, l, l.key);
    MergedExtends(ls, l, l.key);
    assert Merged(ls, l.key) == {};
    assert Merged(ls + [l], l.key) == CategorySet(l.finding.categories);
  }

  /** A finding on a known pair of spans only widens the categories of its concern. */
  lemma GroupsWiden(cs: seq<Concern>, ls: seq<Located>, l: Located, k: nat, c: Concern)
    requires Groups(cs, ls) && k < |cs| && cs[k].key == l.key
    requires c == cs[k].(categories := Canonical(CategorySet(cs[k].categories) + CategorySet(l.finding.categories)))
    ensures Groups(cs[k := c], ls + [l])
  {
    var cs', ls' := cs[k := c], ls + [l];
    CanonicalRoundTrip(Merged(ls, l.key));
    FirstExtends(ls, l, l.key);
    MergedExtends(ls, l, l.key);
    forall j | 0 <= j < |cs|
      ensures Opened(cs'[j], ls') && First(ls', cs'[j].key) == First(ls, cs[j].key)
    {
      if j < k {
        assert First(ls, cs[j].key) < First(ls, cs[k].key);
        OpenedStays(cs[j], ls, l);
      } else if j > k {
        assert First(ls, cs[k].key) < First(ls, cs[j].key);
        OpenedStays(cs[j], ls, l);
      } else {
        assert Opened(cs[k], ls);
      }
    }
    forall i | 0 <= i < |ls'| ensures HasKey(cs', ls'[i].key) {
      if i < |ls| {
        HasKeyKept(cs, cs', ls[i].key);
      } else {
        assert cs'[k].key == l.key;
      }
    }
  }

  method FindKey(cs: seq<Concern>, key: Key) returns (k: nat)
    ensures k <= |cs|
    ensures k < |cs| ==> cs[k].key == key
    ensures k == |cs| ==> !HasKey(cs, key)
  {
    k := 0;
    while k < |cs| && cs[k].key != key
      invariant k <= |cs| && forall j :: 0 <= j < k ==> cs[j].key != key
    {
      k := k + 1;
    }
  }

  /** Finds where the quotes of one finding stand. */
  method Locate(f: Finding, instructions: string, targets: map<nat, string>) returns (r: Result<Key, ErrorCode>)
    ensures r.Ok? <==> Supported(f, instructions, targets)
    ensures r.Ok? ==> LocatedIn(Located(r.value, f), instructions, targets)
    ensures r.Err? ==> r.error == InvalidEvidence
  {
    if f.messageId !in targets {
      return Err(InvalidEvidence);
    }
    var evidence := Span(targets[f.messageId], f.messageQuote);
    if evidence.Err? {
      return Err(evidence.error);
    }
    var instruction := Span(instructions, f.instructionQuote);
    if instruction.Err? {
      return Err(instruction.error);
    }
    return Ok(Key(f.messageId, evidence.value, instruction.value));
  }

  /** Merges a located finding into the concerns so far. */
  method AddFinding(cs: seq<Concern>, key: Key, f: Finding, ghost ls: seq<Located>) returns (r: seq<Concern>)
    requires Groups(cs, ls)
    ensures Groups(r, ls + [Located(key, f)])
  {
    var categories := Canonical(CategorySet(f.categories));
    var k := FindKey(cs, key);
    if k < |cs| {
      var widened := cs[k].(categories := Canonical(CategorySet(cs[k].categories) + CategorySet(categories)));
      CanonicalRoundTrip(CategorySet(f.categories));
      GroupsWiden(cs, ls, Located(key, f), k, widened);
      r := cs[k := widened];
    } else {
      var concern := Concern(key, f.title, categories, f.explanation);
      GroupsOpen(cs, ls, Located(key, f), concern);
      r := cs + [concern];
    }
  }

  lemma LocatesNext(ls: seq<Located>, fs: seq<Finding>, i: nat, l: Located, instructions: string,
                    targets: map<nat, string>)
    requires i < |fs| && LocatesAll(ls, fs[..i], instructions, targets)
    requires l.finding == fs[i] && LocatedIn(l, instructions, targets)
    ensures LocatesAll(ls + [l], fs[..i + 1], instructions, targets)
  {
  }

  /** Each category that some finding gave to the concern's spans, once and in the declared order. */
  ghost predicate CarriesAll(c: Concern, ls: seq<Located>) {
    && (forall i, j :: 0 <= i < j < |c.categories| ==> Rank(c.categories[i]) < Rank(c.categories[j]))
    && forall cat :: cat in c.categories <==> exists l :: l in ls && l.key == c.key && cat in l.finding.categories
  }

  /** Every concern carries all its categories. */
  lemma AllCarryAll(cs: seq<Concern>, ls: seq<Located>)
    requires Groups(cs, ls)
    ensures forall k :: 0 <= k < |cs| ==> CarriesAll(cs[k], ls)
  {
    forall k | 0 <= k < |cs| ensures CarriesAll(cs[k], ls) {
      assert Opened(cs[k], ls);
      CategoriesOf(cs[k], ls);
    }
  }

  lemma CategoriesOf(c: Concern, ls: seq<Located>)
    requires Opened(c, ls)
    ensures CarriesAll(c, ls)
  {
    CanonicalRoundTrip(Merged(ls, c.key));
    forall cat ensures cat in c.categories <==> cat in Merged(ls, c.key) {
      assert cat in c.categories <==> cat in CategorySet(c.categories);
    }
  }

  /**
   Validates a screening result. It is refused when incomplete, or when any finding names an unknown
   message or a quote that does not stand exactly once; otherwise the concerns group the findings.
   */
  method ValidateResult(result: ScreeningResult, instructions: string, targets: map<nat, string>)
    returns (r: Result<seq<Concern>, ErrorCode>, ghost listing: seq<Located>)
    ensures r == Err(Incomplete) <==> !result.complete
    ensures r == Err(InvalidEvidence) <==>
            result.complete && exists f :: f in result.findings && !Supported(f, instructions, targets)
    ensures r.Err? ==> r.error == Incomplete || r.error == InvalidEvidence
    ensures r.Ok? ==> LocatesAll(listing, result.findings, instructions, targets) && Groups(r.value, listing)
    ensures r.Ok? ==> forall k :: 0 <= k < |r.value| ==> CarriesAll(r.value[k], listing)
  {
    listing := [];
    if !result.complete {
      return Err(Incomplete), [];
    }
    var concerns: seq<Concern> := [];
    for i := 0 to |result.findings|
      invariant LocatesAll(listing, result.findings[..i], instructions, targets)
      invariant Groups(concerns, listing)
      invariant forall k :: 0 <= k < i ==> Supported(result.findings[k], instructions, targets)
    {
      var f := result.findings[i];
      var located := Locate(f, instructions, targets);
      if located.Err? {
        return Err(located.error), [];
      }
      concerns := AddFinding(concerns, located.value, f, listing);
      LocatesNext(listing, result.findings, i, Located(located.value, f), instructions, targets);
      listing := listing + [Located(located.value, f)];
    }
    assert result.findings[..|result.findings|] == result.findings;
    AllCarryAll(concerns, listing);
    return Ok(concerns), listing;
  }

  /** Some finding's two quotes stand where the concern points, and stand nowhere else. */
  ghost predicate Backed(c: Concern, fs: seq<Finding>, instructions: string, targets: map<nat, string>) {
    && c.key.messageId in targets
    && exists f :: && f in fs && f.messageId == c.key.messageId
                   && Denotes(targets[c.key.messageId], c.key.evidence, f.messageQuote)
                   && Denotes(instructions, c.key.instruction, f.instructionQuote)
  }

  lemma ConcernsQuoteTheirSources(
    cs: seq<Concern>, ls: seq<Located>, fs: seq<Finding>, instructions: string, targets: map<nat, string>)
    requires LocatesAll(ls, fs, instructions, targets) && Groups(cs, ls)
    ensures forall c :: c in cs ==> Backed(c, fs, instructions, targets)
  {
    forall c | c in cs ensures Backed(c, fs, instructions, targets) {
      var k :| 0 <= k < |cs| && cs[k] == c;
      var i := First(ls, c.key);
      assert Opened(cs[k], ls);
      assert LocatedIn(ls[i], instructions, targets) && ls[i].finding == fs[i] && fs[i] in fs;
    }
  }

  lemma SpansUnique(a: Located, b: Located, instructions: string, targets: map<nat, string>)
    requires LocatedIn(a, instructions, targets) && LocatedIn(b, instructions, targets) && a.finding == b.finding
    ensures a == b
  {
  }

  lemma SameListing(ls: seq<Located>, fs: seq<Finding>, ks: seq<Located>, gs: seq<Finding>, instructions: string,
                    targets: map<nat, string>)
    requires LocatesAll(ls, fs, instructions, targets) && LocatesAll(ks, gs, instructions, targets)
    requires forall f :: f in fs ==> f in gs
    ensures forall l :: l in ls ==> l in ks
  {
    forall l | l in ls ensures l in ks {
      var i :| 0 <= i < |ls| && ls[i] == l;
      assert fs[i] in fs;
      var j :| 0 <= j < |gs| && gs[j] == fs[i];
      SpansUnique(ls[i], ks[j], instructions, targets);
    }
  }

  lemma SameConcern(c: Concern, ls: seq<Located>, ks: seq<Located>, ds: seq<Concern>)
    requires Opened(c, ls) && Groups(ds, ks)
    requires forall l :: l in ls <==> l in ks
    ensures exists d :: d in ds && d.key == c.key && d.categories == c.categories
  {
    var l := ls[First(ls, c.key)];
    assert l in ls;
    var j :| 0 <= j < |ks| && ks[j] == l;
    assert HasKey(ds, ks[j].key);
    var n :| 0 <= n < |ds| && ds[n].key == c.key;
    assert Opened(ds[n], ks);
    assert Merged(ls, c.key) == Merged(ks, c.key);
    assert ds[n] in ds;
  }

  /** The order of the findings, and repeating them, changes neither the spans nor their categories. */
  lemma MergeOrderIrrelevant(
    fs: seq<Finding>, ls: seq<Located>, cs: seq<Concern>, gs: seq<Finding>, ks: seq<Located>, ds: seq<Concern>,
    instructions: string, targets: map<nat, string>)
    requires LocatesAll(ls, fs, instructions, targets) && Groups(cs, ls)
    requires LocatesAll(ks, gs, instructions, targets) && Groups(ds, ks)
    requires forall f :: f in fs <==> f in gs
    ensures forall c :: c in cs ==> exists d :: d in ds && d.key == c.key && d.categories == c.categories
  {
    SameListing(ls, fs, ks, gs, instructions, targets);
    SameListing(ks, gs, ls, fs, instructions, targets);
    forall c | c in cs ensures exists d :: d in ds && d.key == c.key && d.categories == c.categories {
      var k :| 0 <= k < |cs| && cs[k] == c;
      assert Opened(cs[k], ls);
      SameConcern(c, ls, ks, ds);
    }
  }
}
