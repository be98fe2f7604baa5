/**
 Eval runs: job rows that change only together with an append-only event log, expiry of runs whose
 worker stopped, and readers that poll the log with a cursor. Each method is one database transaction.
 */
module EvalRuns {
  import opened Options

  const STALE_SECONDS := 30
  const STOPPED := "Eval run worker stopped before completion"

  // The keys of a payload that the job reads, where present and strings.
  datatype Payload = Payload(status: Option<string>, message: Option<string>, reportId: Option<string>)

  datatype Entry = Entry(sequence: nat, run: string, event: string, payload: Payload, at: int)

  datatype JobState = JobState(
    user: nat, suite: string, status: string, reportId: Option<string>, error: Option<string>, startedAt: int,
    heartbeatAt: int, completedAt: Option<int>)

  datatype Tracking = Tracking(jobs: map<string, JobState>, log: seq<Entry>, next: nat)

  predicate Active(status: string) {
    status == "start" || status == "cancelling"
  }

  /** The two statuses of a run that has not ended. */
  ghost predicate Ongoing(status: string) {
    status in {"start", "cancelling"}
  }

  function Applied(j: JobState, event: string, p: Payload, now: int): JobState {
    var seen := j.(heartbeatAt := now);
    if event == "report" then if p.reportId.Some? then seen.(reportId := p.reportId) else seen
    else if event == "error" then if p.message.Some? then seen.(error := p.message) else seen
    else if event == "status" && p.status.Some? then
      seen.(status := p.status.value,
            error := if p.message.Some? then p.message else j.error,
            completedAt := if Active(p.status.value) then j.completedAt else Some(now))
    else seen
  }

  function Appended(t: Tracking, run: string, event: string, p: Payload, now: int): Tracking
    requires run in t.jobs
  {
    Tracking(t.jobs[run := Applied(t.jobs[run], event, p, now)], t.log + [Entry(t.next, run, event, p, now)],
             t.next + 1)
  }

  function Started(user: nat, suite: string, now: int): JobState {
    JobState(user, suite, "start", None, None, now, now, None)
  }

  predicate UserIsBusy(t: Tracking, user: nat) {
    exists r :: r in t.jobs && t.jobs[r].user == user && Active(t.jobs[r].status)
  }

  function AfterCreate(t: Tracking, run: string, user: nat, suite: string, p: Payload, now: int): Tracking {
    if run in t.jobs || UserIsBusy(t, user) then t
    else Appended(t.(jobs := t.jobs[run := Started(user, suite, now)]), run, "status", p, now)
  }

  function AfterPublish(t: Tracking, run: string, event: string, p: Payload, now: int): Tracking {
    if run in t.jobs && Active(t.jobs[run].status) then Appended(t, run, event, p, now) else t
  }

  function AfterHeartbeat(t: Tracking, run: string, now: int): Tracking {
    if run in t.jobs && Active(t.jobs[run].status)
    then t.(jobs := t.jobs[run := t.jobs[run].(heartbeatAt := now)])
    else t
  }

  function AfterCancel(t: Tracking, run: string, user: nat, now: int): Tracking {
    if run in t.jobs && t.jobs[run].user == user && t.jobs[run].status == "start"
    then Appended(t, run, "status", Payload(Some("cancelling"), None, None), now)
    else t
  }

  predicate Stale(j: JobState, now: int) {
    Active(j.status) && j.heartbeatAt < now - STALE_SECONDS
  }

  function Expired(t: Tracking, run: string, now: int): Tracking
    requires run in t.jobs
  {
    var reported := Appended(t, run, "error", Payload(None, Some(STOPPED), None), now);
    Appended(reported, run, "status", Payload(Some("error"), Some(STOPPED), None), now)
  }

  function AfterExpiry(t: Tracking, runs: seq<string>, now: int): (r: Tracking)
    requires forall x :: x in runs ==> x in t.jobs
    ensures r.jobs.Keys == t.jobs.Keys
  {
    if runs == [] then t else Expired(AfterExpiry(t, runs[..|runs| - 1], now), runs[|runs| - 1], now)
  }

  /** The stale runs that no other transaction has locked, each once, in some order. */
  ghost predicate IsExpiryOrder(t: Tracking, locked: set<string>, now: int, runs: seq<string>) {
    && (forall r :: r in runs <==> r in t.jobs && r !in locked && Stale(t.jobs[r], now))
    && (forall i, j :: 0 <= i < j < |runs| ==> runs[i] != runs[j])
  }

  /** The runs, each once, in some order. */
  ghost predicate IsListing(order: seq<string>, runs: set<string>) {
    (forall r :: r in order <==> r in runs) && forall i, j :: 0 <= i < j < |order| ==> order[i] != order[j]
  }

  lemma ListingNext(order: seq<string>, runs: set<string>, rest: set<string>, r: string)
    requires IsListing(order, runs - rest) && r in rest && rest <= runs
    ensures IsListing(order + [r], runs - (rest - {r}))
  {
  }

  /** The run ends in error now. */
  function Stopped(j: JobState, now: int): JobState {
    j.(status := "error", error := Some("Eval run worker stopped before completion"), heartbeatAt := now,
       completedAt := Some(now))
  }

  /** The two events that tell of it. */
  ghost predicate TellsOfStop(error: Entry, status: Entry, run: string, sequence: nat, now: int) {
    var message := Some("Eval run worker stopped before completion");
    && error == Entry(sequence, run, "error", Payload(None, message, None), now)
    && status == Entry(sequence + 1, run, "status", Payload(Some("error"), message, None), now)
  }

  /** Exactly these runs are stopped, in this order, each with its two events. */
  ghost predicate Stops(t: Tracking, t': Tracking, runs: seq<string>, now: int) {
    && t'.jobs.Keys == t.jobs.Keys
    && (forall r :: r in t.jobs && r in runs ==> t'.jobs[r] == Stopped(t.jobs[r], now))
    && (forall r :: r in t.jobs && r !in runs ==> t'.jobs[r] == t.jobs[r])
    && |t'.log| == |t.log| + 2 * |runs| && t'.log[..|t.log|] == t.log && t'.next == t.next + 2 * |runs|
    && forall k :: 0 <= k < |runs| ==>
                     TellsOfStop(t'.log[|t.log| + 2 * k], t'.log[|t.log| + 2 * k + 1], runs[k], t.next + 2 * k, now)
  }

  lemma {:induction false} ExpiryStops(t: Tracking, runs: seq<string>, now: int)
    requires forall r :: r in runs ==> r in t.jobs
    requires forall i, j :: 0 <= i < j < |runs| ==> runs[i] != runs[j]
    ensures Stops(t, AfterExpiry(t, runs, now), runs, now)
  {
    if runs != [] {
      var n := |runs| - 1;
      ExpiryStops(t, runs[..n], now);
      assert runs == runs[..n] + [runs[n]];
      StopOneMore(t, AfterExpiry(t, runs[..n], now), runs[..n], runs[n], now);
    }
  }

  lemma StopOneMore(t: Tracking, before: Tracking, runs: seq<string>, r: string, now: int)
    requires Stops(t, before, runs, now) && r in t.jobs && r !in runs
    ensures Stops(t, Expired(before, r, now), runs + [r], now)
  {
    var after := Expired(before, r, now);
    assert after.log[..|before.log|] == before.log;
    assert after.log[..|t.log|] == before.log[..|t.log|];
    forall k | 0 <= k < |runs| + 1
      ensures TellsOfStop(after.log[|t.log| + 2 * k], after.log[|t.log| + 2 * k + 1], (runs + [r])[k], t.next + 2 * k,
                          now)
    {
      if k < |runs| {
        assert after.log[|t.log| + 2 * k] == before.log[|t.log| + 2 * k];
        assert after.log[|t.log| + 2 * k + 1] == before.log[|t.log| + 2 * k + 1];
      }
    }
  }

  /** The stale runs: ongoing, unlocked, and without a heartbeat for 30 seconds. */
  ghost predicate AreStale(t: Tracking, locked: set<string>, now: int, runs: seq<string>) {
    forall r :: r in runs <==>
                r in t.jobs && r !in locked && Ongoing(t.jobs[r].status) && t.jobs[r].heartbeatAt < now - 30
  }

  lemma OrderIsStale(t: Tracking, locked: set<string>, now: int, runs: seq<string>)
    requires IsExpiryOrder(t, locked, now, runs)
    ensures AreStale(t, locked, now, runs)
  {
  }

  lemma ExpiryNext(t: Tracking, done: seq<string>, r: string, now: int)
    requires r in t.jobs && forall x :: x in done ==> x in t.jobs
    ensures AfterExpiry(t, done + [r], now) == Expired(AfterExpiry(t, done, now), r, now)
  {
    assert (done + [r])[..|done|] == done;
  }

  /** The events of a run after a cursor, oldest first. */
  function Since(log: seq<Entry>, run: string, after: nat): seq<Entry> {
    if log == [] then []
    else
      var n := |log| - 1;
      Since(log[..n], run, after) + if log[n].run == run && log[n].sequence > after then [log[n]] else []
  }

  class Job {
    const run: string
    const user: nat
    const suite: string
    const startedAt: int
    var status: string
    var reportId: Option<string>
    var error: Option<string>
    var heartbeatAt: int
    var completedAt: Option<int>

    constructor (run: string, user: nat, suite: string, now: int)
      ensures this.run == run && State() == Started(user, suite, now)
    {
      this.run, this.user, this.suite, startedAt, heartbeatAt := run, user, suite, now, now;
      status, reportId, error, completedAt := "start", None, None, None;
    }

    function State(): JobState
      reads this
    {
      JobState(user, suite, status, reportId, error, startedAt, heartbeatAt, completedAt)
    }

    method Apply(event: string, p: Payload, now: int)
      modifies this
      ensures State() == Applied(old(State()), event, p, now)
      ensures heartbeatAt == now
      ensures reportId == if event == "report" && p.reportId.Some? then p.reportId else old(reportId)
      ensures error == if (event == "error" || (event == "status" && p.status.Some?)) && p.message.Some? then p.message
                       else old(error)
      ensures status == if event == "status" && p.status.Some? then p.status.value else old(status)
      ensures completedAt == if event == "status" && p.status.Some? && !Ongoing(p.status.value) then Some(now)
                             else old(completedAt)
    {
      heartbeatAt := now;
      if event == "report" {
        if p.reportId.Some? {
          reportId := p.reportId;
        }
        return;
      }
      if event == "error" {
        if p.message.Some? {
          error := p.message;
        }
        return;
      }
      if event != "status" || p.status.None? {
        return;
      }
      status := p.status.value;
      if p.message.Some? {
        error := p.message;
      }
      if !Active(status) {
        completedAt := Some(now);
      }
    }
  }

  class Tracker {
    var jobs: map<string, Job>
    var log: seq<Entry>
    var next: nat

    constructor ()
      ensures Valid() && State() == Tracking(map[], [], 1)
    {
      jobs, log, next := map[], [], 1;
    }

    ghost predicate Valid()
      reads this
    {
      forall r :: r in jobs ==> jobs[r].run == r
    }

    ghost function State(): Tracking
      reads this, jobs.Values
    {
      Tracking(map r | r in jobs :: jobs[r].State(), log, next)
    }

    method Append(run: string, event: string, p: Payload, now: int)
      requires Valid() && run in jobs
      modifies this`log, this`next, jobs[run]
      ensures Valid() && State() == Appended(old(State()), run, event, p, now)
    {
      jobs[run].Apply(event, p, now);
      log := log + [Entry(next, run, event, p, now)];
      next := next + 1;
    }

    method IsBusy(user: nat) returns (busy: bool)
      requires Valid()
      ensures busy <==> UserIsBusy(State(), user)
      ensures busy <==> exists r :: r in jobs && jobs[r].user == user && Ongoing(jobs[r].status)
    {
      busy := exists r :: r in jobs && jobs[r].user == user && Active(jobs[r].status);
      assert forall r :: r in jobs ==> State().jobs[r] == jobs[r].State();
    }

    method AddJob(run: string, user: nat, suite: string, now: int)
      requires Valid() && run !in jobs
      modifies this`jobs
      ensures Valid() && State() == old(State()).(jobs := old(State()).jobs[run := Started(user, suite, now)])
      ensures run in jobs && fresh(jobs[run])
    {
      var job := new Job(run, user, suite, now);
      jobs := jobs[run := job];
    }

    /** Fails when the run id is taken or the user already has an active run. */
    method CreateRow(run: string, user: nat, suite: string, p: Payload, now: int) returns (ok: bool)
      requires Valid()
      modifies this
      ensures Valid() && State() == AfterCreate(old(State()), run, user, suite, p, now)
      ensures ok <==> run !in old(jobs)
                      && !old(exists r :: r in jobs && jobs[r].user == user && Ongoing(jobs[r].status))
      ensures !ok ==> State() == old(State())
      ensures ok ==> run in jobs && jobs[run].user == user && jobs[run].suite == suite && jobs[run].startedAt == now
      ensures ok ==> log == old(log) + [Entry(old(next), run, "status", p, now)] && next == old(next) + 1
    {
      var busy := IsBusy(user);
      if run in jobs || busy {
        return false;
      }
      AddJob(run, user, suite, now);
      Append(run, "status", p, now);
      return true;
    }

    method Publish(run: string, event: string, p: Payload, now: int)
      requires Valid()
      modifies this`log, this`next, jobs.Values
      ensures Valid() && State() == AfterPublish(old(State()), run, event, p, now)
      ensures log == if run in jobs && Ongoing(old(jobs[run].status))
                     then old(log) + [Entry(old(next), run, event, p, now)] else old(log)
    {
      if run in jobs && Active(jobs[run].status) {
        Append(run, event, p, now);
      }
    }

    method Heartbeat(run: string, now: int) returns (status: Option<string>)
      requires Valid()
      modifies jobs.Values
      ensures Valid() && State() == AfterHeartbeat(old(State()), run, now)
      ensures status == if run in jobs then Some(old(jobs[run].status)) else None
      ensures run in jobs && Ongoing(old(jobs[run].status)) ==> jobs[run].heartbeatAt == now
    {
      if run !in jobs {
        return None;
      }
      if Active(jobs[run].status) {
        jobs[run].heartbeatAt := now;
      }
      return Some(jobs[run].status);
    }

    method ExpireOne(run: string, now: int)
      requires Valid() && run in jobs
      modifies this`log, this`next, jobs[run]
      ensures Valid() && State() == Expired(old(State()), run, now)
    {
      Append(run, "error", Payload(None, Some(STOPPED), None), now);
      Append(run, "status", Payload(Some("error"), Some(STOPPED), None), now);
    }

    method FindStale(locked: set<string>, now: int) returns (stale: set<string>)
      requires Valid()
      ensures forall r :: r in stale <==> r in State().jobs && r !in locked && Stale(State().jobs[r], now)
    {
      stale := set r | r in jobs && r !in locked && Stale(jobs[r].State(), now);
    }

    /** Expires each of these runs once, in some order. */
    method ExpireAll(runs: set<string>, now: int) returns (ghost order: seq<string>)
      requires Valid() && runs <= jobs.Keys
      modifies this`log, this`next, jobs.Values
      ensures Valid() && jobs == old(jobs)
      ensures IsListing(order, runs) && State() == AfterExpiry(old(State()), order, now)
    {
      ghost var before := State();
      var rest := runs;
      order := [];
      while rest != {}
        invariant Valid() && jobs == old(jobs) && rest <= runs
        invariant IsListing(order, runs - rest)
        invariant State() == AfterExpiry(before, order, now)
      {
        var r :| r in rest;
        ListingNext(order, runs, rest, r);
        ExpiryNext(before, order, r, now);
        ExpireOne(r, now);
        rest := rest - {r};
        order := order + [r];
      }
      assert runs - {} == runs;
    }

    method ExpireStaleRuns(locked: set<string>, now: int) returns (ghost order: seq<string>)
      requires Valid()
      modifies this`log, this`next, jobs.Values
      ensures Valid() && jobs == old(jobs)
      ensures IsExpiryOrder(old(State()), locked, now, order) && State() == AfterExpiry(old(State()), order, now)
      ensures AreStale(old(State()), locked, now, order) && Stops(old(State()), State(), order, now)
    {
      ghost var before := State();
      var stale := FindStale(locked, now);
      order := ExpireAll(stale, now);
      ExpiryStops(before, order, now);
      OrderIsStale(before, locked, now, order);
    }

    /** `None` when the run is not the user's. */
    method RequestCancellation(run: string, user: nat, now: int) returns (snapshot: Option<JobState>)
      requires Valid()
      modifies this`log, this`next, jobs.Values
      ensures Valid() && State() == AfterCancel(old(State()), run, user, now)
      ensures snapshot == if run in jobs && jobs[run].user == user then Some(jobs[run].State()) else None
      ensures log == if run in jobs && jobs[run].user == user && old(jobs[run].status) == "start"
                     then old(log) + [Entry(old(next), run, "status", Payload(Some("cancelling"), None, None), now)]
                     else old(log)
    {
      if run !in jobs || jobs[run].user != user {
        return None;
      }
      if jobs[run].status == "start" {
        Append(run, "status", Payload(Some("cancelling"), None, None), now);
      }
      return Some(jobs[run].State());
    }

    method ListEvents(run: string, user: nat, after: nat) returns (events: Option<seq<Entry>>)
      ensures events == if run in jobs && jobs[run].user == user then Some(Since(log, run, after)) else None
      ensures events.Some? ==> exists at: seq<nat> :: ListsFrom(log, run, after, events.value, at)
    {
      if run !in jobs || jobs[run].user != user {
        return None;
      }
      var found: seq<Entry> := [];
      for i := 0 to |log|
        invariant found == Since(log[..i], run, after)
      {
        assert log[..i + 1][..i] == log[..i];
        if log[i].run == run && log[i].sequence > after {
          found := found + [log[i]];
        }
      }
      assert log[..|log|] == log;
      var _ := SinceLists(log, run, after);
      return Some(found);
    }
  }

  // ---------------------------------------------------------------------------------------------
  // Runs of the system
  // ---------------------------------------------------------------------------------------------

  datatype Event =
    | Create(run: string, user: nat, suite: string, payload: Payload, now: int)
    | Publication(run: string, event: string, payload: Payload, now: int)
    | Beat(run: string, now: int)
    | Cancellation(run: string, user: nat, now: int)
    | Expiry(locked: set<string>, now: int, order: seq<string>)

  const EMPTY := Tracking(map[], [], 1)

  ghost function Step(t: Tracking, e: Event): Tracking {
    match e
    case Create(run, user, suite, p, now) => AfterCreate(t, run, user, suite, p, now)
    case Publication(run, event, p, now) => AfterPublish(t, run, event, p, now)
    case Beat(run, now) => AfterHeartbeat(t, run, now)
    case Cancellation(run, user, now) => AfterCancel(t, run, user, now)
    case Expiry(locked, now, order) => if IsExpiryOrder(t, locked, now, order) then AfterExpiry(t, order, now) else t
  }

  ghost function After(t: Tracking, events: seq<Event>): Tracking
    decreases |events|
  {
    if events == [] then t else After(Step(t, events[0]), events[1..])
  }

  /** The job obtained by applying a run's events in order. */
  function Folded(start: JobState, log: seq<Entry>, run: string): JobState {
    if log == [] then start
    else
      var n := |log| - 1;
      var before := Folded(start, log[..n], run);
      if log[n].run == run then Applied(before, log[n].event, log[n].payload, log[n].at) else before
  }

  /** Everything but the heartbeat, which is also renewed without an event. */
  function Core(j: JobState): JobState {
    j.(heartbeatAt := 0)
  }

  ghost predicate JobIsFold(t: Tracking, run: string) {
    run in t.jobs ==>
      var j := t.jobs[run]; Core(j) == Core(Folded(Started(j.user, j.suite, j.startedAt), t.log, run))
  }

  /** Whether the events leave a new run active. */
  ghost predicate LeavesActive(log: seq<Entry>, run: string) {
    Active(Folded(Started(0, "", 0), log, run).status)
  }

  /** Whenever an event of a run was appended, the events before it had left the run active. */
  ghost predicate AppendedWhileActive(log: seq<Entry>) {
    forall k :: 0 <= k < |log| ==> LeavesActive(log[..k], log[k].run)
  }

  ghost predicate LogOk(t: Tracking) {
    && t.next >= 1
    && (forall k :: 0 <= k < |t.log| ==> 1 <= t.log[k].sequence < t.next && t.log[k].run in t.jobs)
    && (forall i, j :: 0 <= i < j < |t.log| ==> t.log[i].sequence < t.log[j].sequence)
  }

  ghost predicate BothActive(a: JobState, b: JobState) {
    a.user == b.user && Active(a.status) && Active(b.status)
  }

  ghost predicate OneActivePerUser(t: Tracking) {
    forall r, s :: r in t.jobs && s in t.jobs && BothActive(t.jobs[r], t.jobs[s]) ==> r == s
  }

  ghost predicate JobsOk(t: Tracking) {
    forall r :: r in t.jobs ==> JobIsFold(t, r) && (t.jobs[r].completedAt.None? <==> Active(t.jobs[r].status))
  }

  ghost predicate Inv(t: Tracking) {
    LogOk(t) && OneActivePerUser(t) && JobsOk(t) && AppendedWhileActive(t.log)
  }

  lemma FoldedNext(start: JobState, log: seq<Entry>, e: Entry, run: string)
    ensures Folded(start, log + [e], run)
            == if e.run == run then Applied(Folded(start, log, run), e.event, e.payload, e.at)
               else Folded(start, log, run)
  {
    assert (log + [e])[..|log|] == log;
  }

  /** The status a run's events lead to does not depend on who started it. */
  lemma {:induction false} FoldedStatus(a: JobState, b: JobState, log: seq<Entry>, run: string)
    requires Active(a.status) && Active(b.status)
    ensures Active(Folded(a, log, run).status) <==> Active(Folded(b, log, run).status)
  {
    if log != [] {
      FoldedStatus(a, b, log[..|log| - 1], run);
    }
  }

  lemma {:induction false} FoldedCore(a: JobState, b: JobState, log: seq<Entry>, run: string)
    requires Core(a) == Core(b)
    ensures Core(Folded(a, log, run)) == Core(Folded(b, log, run))
  {
    if log != [] {
      FoldedCore(a, b, log[..|log| - 1], run);
    }
  }

  /** Without events of the run nothing is applied. */
  lemma {:induction false} FoldedWithout(start: JobState, log: seq<Entry>, run: string)
    requires forall k :: 0 <= k < |log| ==> log[k].run != run
    ensures Folded(start, log, run) == start
  {
    if log != [] {
      FoldedWithout(start, log[..|log| - 1], run);
    }
  }

  lemma ActiveJobLeavesActive(t: Tracking, run: string)
    requires JobIsFold(t, run) && run in t.jobs && Active(t.jobs[run].status)
    ensures LeavesActive(t.log, run)
  {
    var j := t.jobs[run];
    FoldedStatus(Started(j.user, j.suite, j.startedAt), Started(0, "", 0), t.log, run);
  }

  lemma AppendKeepsJobs(t: Tracking, run: string, event: string, p: Payload, now: int)
    requires run in t.jobs && JobsOk(t) && Active(t.jobs[run].status)
    ensures JobsOk(Appended(t, run, event, p, now))
  {
    var t' := Appended(t, run, event, p, now);
    forall r | r in t'.jobs ensures JobIsFold(t', r) && (t'.jobs[r].completedAt.None? <==> Active(t'.jobs[r].status)) {
      assert JobIsFold(t, r);
      var j := t'.jobs[r];
      FoldedNext(Started(j.user, j.suite, j.startedAt), t.log, t'.log[|t.log|], r);
    }
  }

  lemma AppendKeepsLog(t: Tracking, run: string, event: string, p: Payload, now: int)
    requires LogOk(t) && AppendedWhileActive(t.log) && run in t.jobs && LeavesActive(t.log, run)
    ensures LogOk(Appended(t, run, event, p, now)) && AppendedWhileActive(Appended(t, run, event, p, now).log)
  {
    var log := Appended(t, run, event, p, now).log;
    assert t.log[..|t.log|] == t.log;
    forall k | 0 <= k < |log| ensures LeavesActive(log[..k], log[k].run) {
      assert log[..k] == t.log[..k];
    }
  }

  lemma AppendKeepsOneActive(t: Tracking, run: string, event: string, p: Payload, now: int)
    requires OneActivePerUser(t) && run in t.jobs && Active(t.jobs[run].status)
    ensures OneActivePerUser(Appended(t, run, event, p, now))
  {
    var t' := Appended(t, run, event, p, now);
    forall r, s | r in t'.jobs && s in t'.jobs && BothActive(t'.jobs[r], t'.jobs[s]) ensures r == s {
      assert BothActive(t.jobs[r], t.jobs[s]);
    }
  }

  /** Appending an event to an active run. */
  lemma AppendKeepsInv(t: Tracking, run: string, event: string, p: Payload, now: int)
    requires Inv(t) && run in t.jobs && Active(t.jobs[run].status)
    ensures Inv(Appended(t, run, event, p, now))
  {
    AppendKeepsJobs(t, run, event, p, now);
    ActiveJobLeavesActive(t, run);
    AppendKeepsLog(t, run, event, p, now);
    AppendKeepsOneActive(t, run, event, p, now);
  }

  lemma AddedJobKeepsInv(t: Tracking, run: string, user: nat, suite: string, now: int)
    requires Inv(t) && run !in t.jobs && !UserIsBusy(t, user)
    ensures Inv(t.(jobs := t.jobs[run := Started(user, suite, now)]))
  {
    var t' := t.(jobs := t.jobs[run := Started(user, suite, now)]);
    FoldedWithout(Started(user, suite, now), t.log, run);
    forall r | r in t'.jobs ensures JobIsFold(t', r) && (t'.jobs[r].completedAt.None? <==> Active(t'.jobs[r].status)) {
      assert r != run ==> JobIsFold(t, r);
    }
  }

  lemma BeatKeepsInv(t: Tracking, run: string, now: int)
    requires Inv(t)
    ensures Inv(AfterHeartbeat(t, run, now))
  {
    var t' := AfterHeartbeat(t, run, now);
    forall r | r in t'.jobs ensures JobIsFold(t', r) && (t'.jobs[r].completedAt.None? <==> Active(t'.jobs[r].status)) {
      assert JobIsFold(t, r);
    }
    forall r, s | r in t'.jobs && s in t'.jobs && BothActive(t'.jobs[r], t'.jobs[s]) ensures r == s {
      assert BothActive(t.jobs[r], t.jobs[s]);
    }
  }

  lemma {:induction false} ExpiryKeepsInv(t: Tracking, runs: seq<string>, now: int)
    requires Inv(t) && forall r :: r in runs ==> r in t.jobs && Active(t.jobs[r].status)
    requires forall i, j :: 0 <= i < j < |runs| ==> runs[i] != runs[j]
    ensures Inv(AfterExpiry(t, runs, now))
    ensures forall r :: r in t.jobs && r !in runs ==> AfterExpiry(t, runs, now).jobs[r] == t.jobs[r]
  {
    if runs != [] {
      var n := |runs| - 1;
      ExpiryKeepsInv(t, runs[..n], now);
      assert runs[n] !in runs[..n];
      ExpiredKeepsInv(AfterExpiry(t, runs[..n], now), runs[n], now);
    }
  }

  lemma ExpiredKeepsInv(t: Tracking, r: string, now: int)
    requires Inv(t) && r in t.jobs && Active(t.jobs[r].status)
    ensures Inv(Expired(t, r, now))
    ensures forall other :: other in t.jobs && other != r ==> Expired(t, r, now).jobs[other] == t.jobs[other]
  {
    AppendKeepsInv(t, r, "error", Payload(None, Some(STOPPED), None), now);
    var reported := Appended(t, r, "error", Payload(None, Some(STOPPED), None), now);
    AppendKeepsInv(reported, r, "status", Payload(Some("error"), Some(STOPPED), None), now);
  }

  lemma StepKeepsInv(t: Tracking, e: Event)
    requires Inv(t)
    ensures Inv(Step(t, e))
  {
    match e
    case Create(run, user, suite, p, now) =>
      if run !in t.jobs && !UserIsBusy(t, user) {
        AddedJobKeepsInv(t, run, user, suite, now);
        AppendKeepsInv(t.(jobs := t.jobs[run := Started(user, suite, now)]), run, "status", p, now);
      }
    case Publication(run, event, p, now) =>
      if run in t.jobs && Active(t.jobs[run].status) {
        AppendKeepsInv(t, run, event, p, now);
      }
    case Beat(run, now) => BeatKeepsInv(t, run, now);
    case Cancellation(run, user, now) =>
      if run in t.jobs && t.jobs[run].user == user && t.jobs[run].status == "start" {
        AppendKeepsInv(t, run, "status", Payload(Some("cancelling"), None, None), now);
      }
    case Expiry(locked, now, order) =>
      if IsExpiryOrder(t, locked, now, order) {
        ExpiryKeepsInv(t, order, now);
      }
  }

  lemma {:induction false} RunKeepsInv(t: Tracking, events: seq<Event>)
    requires Inv(t)
    ensures Inv(After(t, events))
    decreases |events|
  {
    if events != [] {
      StepKeepsInv(t, events[0]);
      RunKeepsInv(Step(t, events[0]), events[1..]);
    }
  }

  /** In every run each job is the fold of its events, and no user has two active jobs. */
  lemma JobsAreTheirLog(events: seq<Event>)
    ensures var t := After(EMPTY, events);
            OneActivePerUser(t) && JobsOk(t) && AppendedWhileActive(t.log)
  {
    RunKeepsInv(EMPTY, events);
  }

  // ---------------------------------------------------------------------------------------------
  // What the rows say, read off the log
  // ---------------------------------------------------------------------------------------------

  datatype Field = ReportIdField | ErrorField | StatusField

  /** What an entry says about a field of the run, if anything. */
  ghost function Says(e: Entry, run: string, field: Field): Option<string> {
    if e.run != run then None
    else
      match field
      case ReportIdField => if e.event == "report" then e.payload.reportId else None
      case ErrorField =>
        if e.event == "error" || (e.event == "status" && e.payload.status.Some?) then e.payload.message else None
      case StatusField => if e.event == "status" then e.payload.status else None
  }

  /** The last entry that says anything about the field says this. */
  ghost predicate LastSaid(log: seq<Entry>, run: string, field: Field, value: string) {
    exists k :: 0 <= k < |log| && Says(log[k], run, field) == Some(value)
                && forall j :: k < j < |log| ==> Says(log[j], run, field) == None
  }

  ghost predicate NeverSaid(log: seq<Entry>, run: string, field: Field) {
    forall k :: 0 <= k < |log| ==> Says(log[k], run, field) == None
  }

  /** The field holds what was last said about it, or its first value if nothing was. */
  ghost predicate Holds(log: seq<Entry>, run: string, field: Field, first: Option<string>, value: Option<string>) {
    && (NeverSaid(log, run, field) ==> value == first)
    && (!NeverSaid(log, run, field) ==> value.Some? && LastSaid(log, run, field, value.value))
  }

  /** The entry ends the run: a status that is neither starting nor cancelling. */
  ghost predicate Ends(e: Entry, run: string) {
    e.run == run && e.event == "status" && e.payload.status.Some? && !Ongoing(e.payload.status.value)
  }

  /** The run ended at this time, by its last entry; or nothing has ended it. */
  ghost predicate EndedAt(log: seq<Entry>, run: string, at: Option<int>) {
    && (at.None? ==> forall k :: 0 <= k < |log| ==> !Ends(log[k], run))
    && (at.Some? ==> exists k :: 0 <= k < |log| && Ends(log[k], run) && log[k].at == at.value
                                 && forall j :: k < j < |log| ==> log[j].run != run)
  }

  lemma HoldsNext(log: seq<Entry>, e: Entry, run: string, field: Field, first: Option<string>, value: Option<string>)
    requires Holds(log, run, field, first, value)
    ensures Holds(log + [e], run, field, first, if Says(e, run, field).Some? then Says(e, run, field) else value)
  {
    var log' := log + [e];
    assert log'[|log|] == e && forall k :: 0 <= k < |log| ==> log'[k] == log[k];
    if Says(e, run, field).None? && !NeverSaid(log, run, field) {
      var k :| 0 <= k < |log| && Says(log[k], run, field) == value
               && forall j :: k < j < |log| ==> Says(log[j], run, field) == None;
      assert Says(log'[k], run, field) == value;
    }
  }

  ghost function FieldOf(j: JobState, field: Field): Option<string> {
    match field
    case ReportIdField => j.reportId
    case ErrorField => j.error
    case StatusField => Some(j.status)
  }

  lemma AppliedSays(j: JobState, e: Entry, field: Field)
    ensures FieldOf(Applied(j, e.event, e.payload, e.at), field)
            == if Says(e, e.run, field).Some? then Says(e, e.run, field) else FieldOf(j, field)
  {
  }

  /** Folding the events leaves in each field what was last said about it. */
  lemma {:induction false} FoldedSays(start: JobState, log: seq<Entry>, run: string, field: Field)
    ensures Holds(log, run, field, FieldOf(start, field), FieldOf(Folded(start, log, run), field))
  {
    if log != [] {
      var before, e := log[..|log| - 1], log[|log| - 1];
      FoldedSays(start, before, run, field);
      HoldsNext(before, e, run, field, FieldOf(start, field), FieldOf(Folded(start, before, run), field));
      AppliedSays(Folded(start, before, run), e, field);
      assert log == before + [e];
    }
  }

  lemma EndedNext(log: seq<Entry>, e: Entry, run: string, at: Option<int>)
    requires EndedAt(log, run, at) && (e.run == run ==> at.None?)
    ensures EndedAt(log + [e], run, if Ends(e, run) then Some(e.at) else at)
  {
    var log' := log + [e];
    assert log'[|log|] == e && forall k :: 0 <= k < |log| ==> log'[k] == log[k];
    if at.Some? {
      var k :| 0 <= k < |log| && Ends(log[k], run) && log[k].at == at.value
               && forall j :: k < j < |log| ==> log[j].run != run;
      assert Ends(log'[k], run);
    }
  }

  /** The row marks the end of the run, and whether there was one. */
  ghost predicate MarksEnd(log: seq<Entry>, run: string, j: JobState) {
    EndedAt(log, run, j.completedAt) && (Active(j.status) <==> j.completedAt.None?)
  }

  lemma AppliedMarksEnd(log: seq<Entry>, e: Entry, j: JobState)
    requires MarksEnd(log, e.run, j) && Active(j.status)
    ensures MarksEnd(log + [e], e.run, Applied(j, e.event, e.payload, e.at))
  {
    EndedNext(log, e, e.run, j.completedAt);
  }

  /** Folding the events of a run whose entries all came while it was active. */
  lemma {:induction false} FoldedEnds(start: JobState, log: seq<Entry>, run: string)
    requires Active(start.status) && start.completedAt == None && AppendedWhileActive(log)
    ensures MarksEnd(log, run, Folded(start, log, run))
  {
    if log != [] {
      var n := |log| - 1;
      var before, e := log[..n], log[n];
      forall k | 0 <= k < n ensures LeavesActive(before[..k], before[k].run) {
        assert log[..k] == before[..k];
      }
      FoldedEnds(start, before, run);
      assert log == before + [e];
      if e.run == run {
        assert LeavesActive(log[..n], log[n].run);
        FoldedStatus(start, Started(0, "", 0), before, run);
        AppliedMarksEnd(before, e, Folded(start, before, run));
      } else {
        EndedNext(before, e, run, Folded(start, before, run).completedAt);
      }
    }
  }

  /**
   In every run of the system the row of a job says what its log says: the report id, error message and
   status last published, and the time of the entry that ended it, which is its last.
   */
  lemma JobsSayWhatTheirLogSays(events: seq<Event>, run: string)
    requires run in After(EMPTY, events).jobs
    ensures var t := After(EMPTY, events);
            var j := t.jobs[run];
            && Holds(t.log, run, ReportIdField, None, j.reportId)
            && Holds(t.log, run, ErrorField, None, j.error)
            && Holds(t.log, run, StatusField, Some("start"), Some(j.status))
            && EndedAt(t.log, run, j.completedAt)
            && (j.completedAt.None? <==> Ongoing(j.status))
  {
    RunKeepsInv(EMPTY, events);
    RowSaysWhatLogSays(After(EMPTY, events), run);
  }

  lemma RowSaysWhatLogSays(t: Tracking, run: string)
    requires Inv(t) && run in t.jobs
    ensures var j := t.jobs[run];
            && Holds(t.log, run, ReportIdField, None, j.reportId)
            && Holds(t.log, run, ErrorField, None, j.error)
            && Holds(t.log, run, StatusField, Some("start"), Some(j.status))
            && EndedAt(t.log, run, j.completedAt)
            && (j.completedAt.None? <==> Ongoing(j.status))
  {
    var j := t.jobs[run];
    assert JobIsFold(t, run);
    FoldedSays(Started(j.user, j.suite, j.startedAt), t.log, run, ReportIdField);
    FoldedSays(Started(j.user, j.suite, j.startedAt), t.log, run, ErrorField);
    FoldedSays(Started(j.user, j.suite, j.startedAt), t.log, run, StatusField);
    FoldedEnds(Started(j.user, j.suite, j.startedAt), t.log, run);
  }

  // ---------------------------------------------------------------------------------------------
  // Terminal runs
  // ---------------------------------------------------------------------------------------------

  /** The job of a run and its events are as before. */
  ghost predicate Untouched(t: Tracking, t': Tracking, run: string) {
    run in t.jobs && run in t'.jobs && t'.jobs[run] == t.jobs[run] && Since(t'.log, run, 0) == Since(t.log, run, 0)
  }

  lemma AppendLeavesOthers(t: Tracking, other: string, event: string, p: Payload, now: int, run: string)
    requires other in t.jobs && run in t.jobs && run != other
    ensures Untouched(t, Appended(t, other, event, p, now), run)
  {
    assert Appended(t, other, event, p, now).log[..|t.log|] == t.log;
  }

  lemma {:induction false} ExpiryLeavesOthers(t: Tracking, runs: seq<string>, now: int, run: string)
    requires (forall r :: r in runs ==> r in t.jobs) && run in t.jobs && run !in runs
    ensures Untouched(t, AfterExpiry(t, runs, now), run)
  {
    if runs != [] {
      var n := |runs| - 1;
      ExpiryLeavesOthers(t, runs[..n], now, run);
      var before := AfterExpiry(t, runs[..n], now);
      AppendLeavesOthers(before, runs[n], "error", Payload(None, Some(STOPPED), None), now, run);
      var reported := Appended(before, runs[n], "error", Payload(None, Some(STOPPED), None), now);
      AppendLeavesOthers(reported, runs[n], "status", Payload(Some("error"), Some(STOPPED), None), now, run);
    }
  }

  lemma TerminalStep(t: Tracking, e: Event, run: string)
    requires run in t.jobs && !Active(t.jobs[run].status)
    ensures Untouched(t, Step(t, e), run)
  {
    match e
    case Create(other, user, suite, p, now) =>
      if other !in t.jobs && !UserIsBusy(t, user) {
        AppendLeavesOthers(t.(jobs := t.jobs[other := Started(user, suite, now)]), other, "status", p, now, run);
      }
    case Publication(other, event, p, now) =>
      if other != run && other in t.jobs {
        AppendLeavesOthers(t, other, event, p, now, run);
      }
    case Cancellation(other, user, now) =>
      if other != run && other in t.jobs {
        AppendLeavesOthers(t, other, "status", Payload(Some("cancelling"), None, None), now, run);
      }
    case Expiry(locked, now, order) =>
      if IsExpiryOrder(t, locked, now, order) {
        ExpiryLeavesOthers(t, order, now, run);
      }
    case Beat(_, _) =>
  }

  /** Once a run has ended, its job never changes again and nothing is appended to its events. */
  lemma {:induction false} TerminalIsFinal(t: Tracking, events: seq<Event>, run: string)
    requires Inv(t) && run in t.jobs && !Active(t.jobs[run].status)
    ensures Untouched(t, After(t, events), run)
    decreases |events|
  {
    if events != [] {
      TerminalStep(t, events[0], run);
      StepKeepsInv(t, events[0]);
      TerminalIsFinal(Step(t, events[0]), events[1..], run);
    }
  }

  // ---------------------------------------------------------------------------------------------
  // Readers
  // ---------------------------------------------------------------------------------------------

  /** Later states only append events, with higher sequence numbers. */
  ghost predicate Grows(t: Tracking, t': Tracking) {
    && |t.log| <= |t'.log| && t'.log[..|t.log|] == t.log && t.next <= t'.next
    && forall k :: |t.log| <= k < |t'.log| ==> t'.log[k].sequence >= t.next
  }

  lemma {:induction false} ExpiryGrows(t: Tracking, runs: seq<string>, now: int)
    requires forall r :: r in runs ==> r in t.jobs
    ensures Grows(t, AfterExpiry(t, runs, now))
  {
    if runs != [] {
      ExpiryGrows(t, runs[..|runs| - 1], now);
    }
  }

  lemma StepGrows(t: Tracking, e: Event)
    ensures Grows(t, Step(t, e))
  {
    if e.Expiry? && IsExpiryOrder(t, e.locked, e.now, e.order) {
      ExpiryGrows(t, e.order, e.now);
    }
  }

  lemma GrowsTogether(a: Tracking, b: Tracking, c: Tracking)
    requires Grows(a, b) && Grows(b, c)
    ensures Grows(a, c)
  {
    assert c.log[..|a.log|] == c.log[..|b.log|][..|a.log|];
    forall k | |a.log| <= k < |c.log| ensures c.log[k].sequence >= a.next {
      assert k < |b.log| ==> c.log[k] == c.log[..|b.log|][k];
    }
  }

  lemma {:induction false} RunGrows(t: Tracking, events: seq<Event>)
    ensures Grows(t, After(t, events))
    decreases |events|
  {
    if events != [] {
      StepGrows(t, events[0]);
      RunGrows(Step(t, events[0]), events[1..]);
      GrowsTogether(t, Step(t, events[0]), After(t, events));
    }
  }

  /** The highest sequence number the reader has seen. */
  function Cursor(after: nat, got: seq<Entry>): nat {
    if got == [] then after else got[|got| - 1].sequence
  }

  /** The states after each round of events. */
  ghost function States(t: Tracking, rounds: seq<seq<Event>>): (r: seq<Tracking>)
    ensures |r| == |rounds|
    decreases |rounds|
  {
    if rounds == [] then [] else [After(t, rounds[0])] + States(After(t, rounds[0]), rounds[1..])
  }

  /** A reader that polls in each of these states, from its last sequence number on. */
  function Polled(states: seq<Tracking>, run: string, after: nat): seq<Entry> {
    if states == [] then []
    else
      var got := Since(states[0].log, run, after);
      got + Polled(states[1..], run, Cursor(after, got))
  }

  /** States that follow `t` and one another in one run of the system. */
  ghost predicate Evolving(t: Tracking, states: seq<Tracking>)
    decreases |states|
  {
    LogOk(t) && (states == [] || (Grows(t, states[0]) && Evolving(states[0], states[1..])))
  }

  function Last(t: Tracking, states: seq<Tracking>): Tracking
    decreases |states|
  {
    if states == [] then t else Last(states[0], states[1..])
  }

  /** The cursor separates the run's events so far from all later ones. */
  ghost predicate CursorOk(t: Tracking, run: string, after: nat) {
    after < t.next && forall k :: 0 <= k < |t.log| && t.log[k].run == run ==> t.log[k].sequence <= after
  }

  /** Events up to a cursor and events from it on are all the events. */
  lemma {:induction false} SinceSplits(log: seq<Entry>, n: nat, run: string, after: nat)
    requires n <= |log|
    requires forall k :: 0 <= k < |log| && log[k].run == run ==> (log[k].sequence <= after <==> k < n)
    requires forall k :: 0 <= k < |log| ==> log[k].sequence >= 1
    ensures Since(log, run, 0) == Since(log[..n], run, 0) + Since(log, run, after)
    ensures Since(log[..n], run, after) == []
  {
    if log != [] {
      var last := |log| - 1;
      if n == |log| {
        assert log[..n] == log;
        if last >= 0 {
          assert log[..last][..last] == log[..last];
          SinceSplits(log[..last], last, run, after);
        }
      } else {
        assert log[..last][..n] == log[..n];
        SinceSplits(log[..last], n, run, after);
      }
    }
  }

  /** The entries at these positions, which are the run's entries after the cursor, in log order. */
  ghost predicate ListsFrom(log: seq<Entry>, run: string, after: nat, got: seq<Entry>, at: seq<nat>) {
    && |at| == |got|
    && (forall i :: 0 <= i < |at| ==> at[i] < |log| && log[at[i]] == got[i])
    && (forall i, j :: 0 <= i < j < |at| ==> at[i] < at[j])
    && forall k: nat :: k < |log| ==> (k in at <==> log[k].run == run && log[k].sequence > after)
  }

  lemma {:induction false} SinceLists(log: seq<Entry>, run: string, after: nat) returns (at: seq<nat>)
    ensures ListsFrom(log, run, after, Since(log, run, after), at)
  {
    at := [];
    if log != [] {
      var n := |log| - 1;
      var before := SinceLists(log[..n], run, after);
      at := before + if log[n].run == run && log[n].sequence > after then [n] else [];
      assert forall k :: 0 <= k < n ==> log[..n][k] == log[k];
    }
  }

  lemma {:induction false} SinceLast(log: seq<Entry>, run: string, after: nat)
    requires forall i, j :: 0 <= i < j < |log| ==> log[i].sequence < log[j].sequence
    ensures var got := Since(log, run, after);
            && Cursor(after, got) >= after
            && (got != [] ==> exists k :: 0 <= k < |log| && log[k].sequence == Cursor(after, got))
            && forall k :: 0 <= k < |log| && log[k].run == run ==> log[k].sequence <= Cursor(after, got)
  {
    if log != [] {
      var last := |log| - 1;
      SinceLast(log[..last], run, after);
      var got, before := Since(log, run, after), Since(log[..last], run, after);
      if got == before && got != [] {
        var k :| 0 <= k < last && log[..last][k].sequence == Cursor(after, got);
        assert log[k].sequence == Cursor(after, got);
      }
      forall k | 0 <= k < |log| && log[k].run == run ensures log[k].sequence <= Cursor(after, got) {
        if k < last {
          assert log[..last][k] == log[k];
          assert log[k].sequence <= Cursor(after, before);
        }
      }
    }
  }

  lemma PollOnce(t: Tracking, t': Tracking, run: string, after: nat)
    requires LogOk(t) && LogOk(t') && Grows(t, t') && CursorOk(t, run, after)
    ensures var got := Since(t'.log, run, after);
            && Since(t'.log, run, 0) == Since(t.log, run, 0) + got
            && CursorOk(t', run, Cursor(after, got))
  {
    forall k | 0 <= k < |t'.log| && t'.log[k].run == run ensures t'.log[k].sequence <= after <==> k < |t.log| {
      if k < |t.log| {
        assert t'.log[k] == t'.log[..|t.log|][k] == t.log[k];
      }
    }
    SinceSplits(t'.log, |t.log|, run, after);
    SinceLast(t'.log, run, after);
  }

  lemma Regroup<T>(a: seq<T>, b: seq<T>, c: seq<T>)
    ensures (a + b) + c == a + (b + c)
  {
  }

  /** A polling reader sees exactly the events after its cursor, once each and in order. */
  lemma {:induction false} PollingFrom(t: Tracking, states: seq<Tracking>, run: string, after: nat)
    requires Evolving(t, states) && CursorOk(t, run, after)
    ensures Since(Last(t, states).log, run, 0) == Since(t.log, run, 0) + Polled(states, run, after)
    decreases |states|
  {
    if states != [] {
      PollOnce(t, states[0], run, after);
      var got := Since(states[0].log, run, after);
      PollingFrom(states[0], states[1..], run, Cursor(after, got));
      Regroup(Since(t.log, run, 0), got, Polled(states[1..], run, Cursor(after, got)));
    }
  }

  lemma {:induction false} StatesEvolve(t: Tracking, rounds: seq<seq<Event>>)
    requires Inv(t)
    ensures Evolving(t, States(t, rounds))
    decreases |rounds|
  {
    if rounds != [] {
      RunKeepsInv(t, rounds[0]);
      RunGrows(t, rounds[0]);
      StatesEvolve(After(t, rounds[0]), rounds[1..]);
    }
  }

  /** However events and polls interleave, a reader starting at zero sees every event once and in order. */
  lemma PollingSeesEverything(run: string, rounds: seq<seq<Event>>)
    ensures var states := States(EMPTY, rounds);
            var log := Last(EMPTY, states).log;
            && Polled(states, run, 0) == Since(log, run, 0)
            && exists at: seq<nat> :: IsWholeRun(log, run, Polled(states, run, 0), at)
  {
    StatesEvolve(EMPTY, rounds);
    PollingFrom(EMPTY, States(EMPTY, rounds), run, 0);
    var states := States(EMPTY, rounds);
    var log := Last(EMPTY, states).log;
    LastLogOk(EMPTY, states);
    WholeRun(Last(EMPTY, states), run);
  }

  lemma WholeRun(t: Tracking, run: string)
    requires LogOk(t)
    ensures exists at: seq<nat> :: IsWholeRun(t.log, run, Since(t.log, run, 0), at)
  {
    var at := SinceLists(t.log, run, 0);
    assert IsWholeRun(t.log, run, Since(t.log, run, 0), at);
  }

  /** Every entry of the run, once each and in log order. */
  ghost predicate IsWholeRun(log: seq<Entry>, run: string, got: seq<Entry>, at: seq<nat>) {
    && |at| == |got|
    && (forall i :: 0 <= i < |at| ==> at[i] < |log| && log[at[i]] == got[i])
    && (forall i, j :: 0 <= i < j < |at| ==> at[i] < at[j])
    && forall k: nat :: k < |log| ==> (k in at <==> log[k].run == run)
  }

  lemma {:induction false} LastLogOk(t: Tracking, states: seq<Tracking>)
    requires Evolving(t, states)
    ensures LogOk(Last(t, states))
    decreases |states|
  {
    if states != [] {
      LastLogOk(states[0], states[1..]);
    }
  }
}
