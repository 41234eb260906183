/** Whole runs of the reconciler: grace, no repeats, retry spacing, and who is left connected. */
module ReconcilerRuns {
  import opened Sums
  import opened SessionReconciler

  /** The state of all users after a run of snapshots. */
  function AfterAll(timing: Timing, ticks: seq<Snapshot>): map<Username, UserState> {
    if ticks == [] then map[] else Next(timing, AfterAll(timing, ticks[..|ticks| - 1]), ticks[|ticks| - 1])
  }

  /** The state of one user, whose snapshots alone decide it. */
  function After(timing: Timing, u: Username, ticks: seq<Snapshot>): Option<UserState> {
    if ticks == [] then None else Tick(timing, After(timing, u, ticks[..|ticks| - 1]), u, ticks[|ticks| - 1]).state
  }

  lemma {:induction false} UsersAreIndependent(timing: Timing, u: Username, ticks: seq<Snapshot>)
    requires u.text != ""
    ensures LookupState(AfterAll(timing, ticks), u) == After(timing, u, ticks)
  {
    if ticks != [] {
      UsersAreIndependent(timing, u, ticks[..|ticks| - 1]);
      NamesCover(ticks[|ticks| - 1].sessions, u);
    }
  }

  /** The terminate calls of snapshot `n` for one user. */
  function CallsAt(timing: Timing, u: Username, ticks: seq<Snapshot>, n: nat): seq<Call>
    requires n < |ticks|
  {
    Tick(timing, After(timing, u, ticks[..n]), u, ticks[n]).calls
  }

  predicate Over(s: Snapshot, u: Username) {
    |Mine(s.sessions, u)| > Limit(s.limits, u)
  }

  /** Over the limit: more SAs than the account's limit, where one is always allowed, also without a limit. */
  lemma OverExactly(s: Snapshot, u: Username)
    ensures Over(s, u) <==>
            |Mine(s.sessions, u)| > 1 && (u in s.limits ==> |Mine(s.sessions, u)| > s.limits[u])
  {
  }

  /** The sessions of a user that a snapshot would terminate. */
  function Excess(s: Snapshot, u: Username): seq<Session> {
    SelectExcess(Mine(s.sessions, u), Limit(s.limits, u), s.policy)
  }

  predicate Lists(s: Snapshot, u: Username, id: nat) {
    id in IdsOf(Mine(s.sessions, u))
  }

  predicate Called(calls: seq<Call>, id: nat) {
    exists i :: 0 <= i < |calls| && calls[i].ikeId == id
  }

  // ---------- Grace ----------

  lemma {:induction false} SinceWitness(timing: Timing, u: Username, ticks: seq<Snapshot>) returns (i: nat)
    requires After(timing, u, ticks).Some?
    ensures i < |ticks| && ticks[i].now == After(timing, u, ticks).value.since
    ensures forall j :: i <= j < |ticks| ==> Over(ticks[j], u)
  {
    var n := |ticks| - 1;
    var before := After(timing, u, ticks[..n]);
    if before.Some? {
      i := SinceWitness(timing, u, ticks[..n]);
      forall j | i <= j < |ticks| ensures Over(ticks[j], u) {
        if j < n { assert ticks[..n][j] == ticks[j]; }
      }
    } else {
      i := n;
    }
  }

  /** A terminate is issued only when some snapshot at least graceMs old, and every one since, was over the limit. */
  lemma GraceRespected(timing: Timing, u: Username, ticks: seq<Snapshot>, n: nat) returns (i: nat)
    requires n < |ticks| && CallsAt(timing, u, ticks, n) != []
    ensures i <= n && ticks[n].now - ticks[i].now >= timing.graceMs
    ensures forall j :: i <= j <= n ==> Over(ticks[j], u)
  {
    var before := After(timing, u, ticks[..n]);
    if before.Some? {
      i := SinceWitness(timing, u, ticks[..n]);
      forall j | i <= j <= n ensures Over(ticks[j], u) {
        if j < n { assert ticks[..n][j] == ticks[j]; }
      }
    } else {
      i := n;
    }
  }

  // ---------- One pass over the excess ----------

  lemma {:induction false} TryAllFacts(extras: seq<Session>, attempts: map<nat, Attempt>, now: int, retryMs: nat,
                                       reply: nat -> Reply, id: nat)
    requires retryMs > 0
    ensures var tried := TryAll(extras, attempts, now, retryMs, reply);
            && (Called(tried.calls, id) ==> !Settled(attempts, id, now, retryMs) && Call(id, reply(id)) in tried.calls
                                            && id in tried.attempts &&
                                              tried.attempts[id] == Attempt(reply(id) != Failed, now)
                                            && exists x :: x in extras && x.ikeId == id)
            && (!Called(tried.calls, id) ==>
                (id in tried.attempts <==> id in attempts) && (id in attempts ==> tried.attempts[id] == attempts[id]))
            && ((exists x :: x in extras && x.ikeId == id) ==> Settled(tried.attempts, id, now, retryMs))
  {
    if extras != [] {
      var n := |extras| - 1;
      TryAllFacts(extras[..n], attempts, now, retryMs, reply, id);
      var before := TryAll(extras[..n], attempts, now, retryMs, reply);
      var tried := TryAll(extras, attempts, now, retryMs, reply);
      if Called(before.calls, id) {
        var i :| 0 <= i < |before.calls| && before.calls[i].ikeId == id;
        assert tried.calls[i].ikeId == id;
      }
      if tried != before {
        assert tried.calls[|before.calls|].ikeId == extras[n].ikeId;
        if Called(tried.calls, id) && extras[n].ikeId != id { assert Called(before.calls, id); }
      }
      if x :| x in extras && x.ikeId == id {
        if x !in extras[..n] { assert x == extras[n]; }
      }
    }
  }

  lemma {:induction false} CallsDistinct(extras: seq<Session>, attempts: map<nat, Attempt>, now: int, retryMs: nat,
                                         reply: nat -> Reply)
    requires retryMs > 0
    ensures var calls := TryAll(extras, attempts, now, retryMs, reply).calls;
            forall i, j :: 0 <= i < j < |calls| ==> calls[i].ikeId != calls[j].ikeId
  {
    if extras != [] {
      var n := |extras| - 1;
      var before := TryAll(extras[..n], attempts, now, retryMs, reply);
      CallsDistinct(extras[..n], attempts, now, retryMs, reply);
      TryAllFacts(extras[..n], attempts, now, retryMs, reply, extras[n].ikeId);
    }
  }

  /** One reconcile calls terminate at most once for each id of a user. */
  lemma OncePerSnapshot(timing: Timing, u: Username, ticks: seq<Snapshot>, n: nat)
    requires n < |ticks| && timing.retryMs > 0
    ensures var calls := CallsAt(timing, u, ticks, n);
            forall i, j :: 0 <= i < j < |calls| ==> calls[i].ikeId != calls[j].ikeId
  {
    var s := ticks[n];
    var mine := Mine(s.sessions, u);
    var state := After(timing, u, ticks[..n]);
    var current := if state.Some? then Listed(state.value, mine) else UserState(s.now, map[]);
    var excess := SelectExcess(mine, Limit(s.limits, u), s.policy);
    CallsDistinct(excess, current.attempts, s.now, timing.retryMs, RepliesFor(s, u));
    assert CallsAt(timing, u, ticks, n) in
           {[], TryAll(excess, current.attempts, s.now, timing.retryMs, RepliesFor(s, u)).calls};
  }

  lemma {:induction false} MineAreListed(sessions: seq<Session>, u: Username, x: Session)
    requires x in Mine(sessions, u)
    ensures x in sessions && x.user == u
  {
    var n := |sessions| - 1;
    assert sessions == sessions[..n] + [sessions[n]];
    if x in Mine(sessions[..n], u) { MineAreListed(sessions[..n], u, x); }
  }

  lemma {:induction false} MineAreDistinct(sessions: seq<Session>, u: Username)
    requires DistinctIds(sessions)
    ensures DistinctIds(Mine(sessions, u))
  {
    if sessions != [] {
      var n := |sessions| - 1;
      MineAreDistinct(sessions[..n], u);
      var mine := Mine(sessions[..n], u);
      forall i | 0 <= i < |mine| ensures mine[i].ikeId != sessions[n].ikeId {
        MineAreListed(sessions[..n], u, mine[i]);
        var j :| 0 <= j < n && sessions[j] == mine[i];
      }
    }
  }

  /** What is called for a user is an SA of that user. */
  lemma CallsAreMine(timing: Timing, u: Username, ticks: seq<Snapshot>, n: nat, id: nat)
    requires n < |ticks| && timing.retryMs > 0 && DistinctIds(ticks[n].sessions) &&
             Called(CallsAt(timing, u, ticks, n), id)
    ensures exists x :: x in ticks[n].sessions && x.user == u && x.ikeId == id
  {
    var s := ticks[n];
    CallsMeanOver(timing, u, ticks, n, id);
    TickRecord(timing, After(timing, u, ticks[..n]), u, s, id);
    var x :| x in Excess(s, u) && x.ikeId == id;
    MineAreDistinct(s.sessions, u);
    LimitIsPositive(s, u);
    ExcessExactly(Mine(s.sessions, u), Limit(s.limits, u), s.policy);
    MineAreListed(s.sessions, u, x);
  }

  /** With the ids of a snapshot distinct, no id is called for two users: one reconcile calls each id at most once. */
  lemma OncePerReconcile(timing: Timing, u: Username, v: Username, ticks: seq<Snapshot>, n: nat, id: nat)
    requires n < |ticks| && timing.retryMs > 0 && DistinctIds(ticks[n].sessions)
    requires Called(CallsAt(timing, u, ticks, n), id) && Called(CallsAt(timing, v, ticks, n), id)
    ensures u == v
  {
    CallsAreMine(timing, u, ticks, n, id);
    CallsAreMine(timing, v, ticks, n, id);
    var sessions := ticks[n].sessions;
    var x :| x in sessions && x.user == u && x.ikeId == id;
    var y :| y in sessions && y.user == v && y.ikeId == id;
    SameSession(sessions, x, y);
  }

  /** What one snapshot over the limit does to the record of an id. */
  lemma TickRecord(timing: Timing, state: Option<UserState>, u: Username, s: Snapshot, id: nat)
    requires timing.retryMs > 0 && Over(s, u)
    ensures var r := Tick(timing, state, u, s);
            && r.state.Some?
            && (Called(r.calls, id) ==> id in r.state.value.attempts
                                        && r.state.value.attempts[id] == Attempt(s.reply(u, id) != Failed, s.now)
                                        && Call(id, s.reply(u, id)) in r.calls
                                        && !(state.Some? && Lists(s, u, id) &&
                                             Settled(state.value.attempts, id, s.now, timing.retryMs))
                                        && exists x :: x in Excess(s, u) && x.ikeId == id)
            && (!Called(r.calls, id) && state.Some? && id in state.value.attempts && Lists(s, u, id) ==>
                  id in r.state.value.attempts && r.state.value.attempts[id] == state.value.attempts[id])
            && (!Called(r.calls, id) && id in r.state.value.attempts ==> state.Some? && id in state.value.attempts)
            && (r.waiting.None? &&
                (exists x :: x in Excess(s, u) && x.ikeId == id) ==>
                  Settled(r.state.value.attempts, id, s.now, timing.retryMs))
  {
    var mine := Mine(s.sessions, u);
    var current := if state.Some? then Listed(state.value, mine) else UserState(s.now, map[]);
    TryAllFacts(SelectExcess(mine, Limit(s.limits, u), s.policy), current.attempts, s.now, timing.retryMs,
                RepliesFor(s, u), id);
  }

  // ---------- Across snapshots ----------

  /** Listed and over the limit in every snapshot of (i, j]. */
  predicate Stays(u: Username, ticks: seq<Snapshot>, id: nat, i: nat, j: nat)
    requires i <= j < |ticks|
  {
    forall k :: i < k <= j ==> Lists(ticks[k], u, id) && Over(ticks[k], u)
  }

  /** No call for the id in the snapshots of (i, j). */
  predicate Untouched(timing: Timing, u: Username, ticks: seq<Snapshot>, id: nat, i: nat, j: nat)
    requires i <= j < |ticks|
  {
    forall k :: i < k < j ==> !Called(CallsAt(timing, u, ticks, k), id)
  }

  lemma CallsMeanOver(timing: Timing, u: Username, ticks: seq<Snapshot>, n: nat, id: nat)
    requires n < |ticks| && Called(CallsAt(timing, u, ticks, n), id)
    ensures Over(ticks[n], u)
  {
  }

  /** A call is recorded with its result and time; the record stays while the id is listed and not called again. */
  lemma RecordStays(timing: Timing, state: Option<UserState>, u: Username, s: Snapshot, id: nat)
    requires timing.retryMs > 0 && Over(s, u)
    requires Called(Tick(timing, state, u, s).calls, id) ||
             (state.Some? && id in state.value.attempts && Lists(s, u, id))
    ensures var r := Tick(timing, state, u, s);
            r.state.Some? && id in r.state.value.attempts &&
            r.state.value.attempts[id] ==
              if Called(r.calls, id) then Attempt(s.reply(u, id) != Failed, s.now) else state.value.attempts[id]
  {
    TickRecord(timing, state, u, s, id);
  }

  predicate Records(state: Option<UserState>, id: nat, attempt: Attempt) {
    state.Some? && id in state.value.attempts && state.value.attempts[id] == attempt
  }

  lemma CallIsRecorded(timing: Timing, u: Username, ticks: seq<Snapshot>, id: nat, i: nat)
    requires timing.retryMs > 0 && i < |ticks| && Called(CallsAt(timing, u, ticks, i), id)
    ensures Records(After(timing, u, ticks[..i + 1]), id, Attempt(ticks[i].reply(u, id) != Failed, ticks[i].now))
  {
    assert ticks[..i + 1][..i] == ticks[..i];
    CallsMeanOver(timing, u, ticks, i, id);
    RecordStays(timing, After(timing, u, ticks[..i]), u, ticks[i], id);
  }

  lemma RecordCarriesOver(timing: Timing, u: Username, ticks: seq<Snapshot>, id: nat, k: nat, attempt: Attempt)
    requires timing.retryMs > 0 && k < |ticks| && !Called(CallsAt(timing, u, ticks, k), id)
    requires Lists(ticks[k], u, id) && Over(ticks[k], u) && Records(After(timing, u, ticks[..k]), id, attempt)
    ensures Records(After(timing, u, ticks[..k + 1]), id, attempt)
  {
    assert ticks[..k + 1][..k] == ticks[..k];
    RecordStays(timing, After(timing, u, ticks[..k]), u, ticks[k], id);
  }

  lemma WithinSpan(timing: Timing, u: Username, ticks: seq<Snapshot>, id: nat, i: nat, j: nat, k: nat)
    requires i < k < j < |ticks| && Untouched(timing, u, ticks, id, i, j) && Stays(u, ticks, id, i, j - 1)
    ensures !Called(CallsAt(timing, u, ticks, k), id) && Lists(ticks[k], u, id) && Over(ticks[k], u)
  {
  }

  lemma {:induction false} RecordSpans(timing: Timing, u: Username, ticks: seq<Snapshot>, id: nat, i: nat, j: nat,
                                       attempt: Attempt)
    requires timing.retryMs > 0 && i < j < |ticks| && Records(After(timing, u, ticks[..i + 1]), id, attempt)
    requires Untouched(timing, u, ticks, id, i, j) && Stays(u, ticks, id, i, j - 1)
    ensures Records(After(timing, u, ticks[..j]), id, attempt)
    decreases j
  {
    if i + 1 < j {
      RecordSpans(timing, u, ticks, id, i, j - 1, attempt);
      WithinSpan(timing, u, ticks, id, i, j, j - 1);
      RecordCarriesOver(timing, u, ticks, id, j - 1, attempt);
    }
  }

  lemma AttemptRemembered(timing: Timing, u: Username, ticks: seq<Snapshot>, id: nat, i: nat, j: nat)
    requires timing.retryMs > 0 && i < j < |ticks|
    requires Called(CallsAt(timing, u, ticks, i), id) && Untouched(timing, u, ticks, id, i, j) &&
             Stays(u, ticks, id, i, j - 1)
    ensures Records(After(timing, u, ticks[..j]), id, Attempt(ticks[i].reply(u, id) != Failed, ticks[i].now))
  {
    CallIsRecorded(timing, u, ticks, id, i);
    RecordSpans(timing, u, ticks, id, i, j, Attempt(ticks[i].reply(u, id) != Failed, ticks[i].now));
  }

  /** After a successful or already-gone terminate the SA is left alone while it stays listed and over the limit. */
  lemma {:induction false} NoRepeatAfterSuccess(timing: Timing, u: Username, ticks: seq<Snapshot>, id: nat, i: nat,
                                                j: nat)
    requires timing.retryMs > 0 && i < j < |ticks|
    requires Called(CallsAt(timing, u, ticks, i), id) && ticks[i].reply(u, id) != Failed && Stays(u, ticks, id, i, j)
    ensures !Called(CallsAt(timing, u, ticks, j), id)
    decreases j
  {
    forall k | i < k < j ensures !Called(CallsAt(timing, u, ticks, k), id) {
      NoRepeatAfterSuccess(timing, u, ticks, id, i, k);
    }
    AttemptRemembered(timing, u, ticks, id, i, j);
    assert Lists(ticks[j], u, id) && Over(ticks[j], u);
    TickRecord(timing, After(timing, u, ticks[..j]), u, ticks[j], id);
  }

  /** After a failed terminate the next attempt comes at least retryMs later. */
  lemma RetrySpacing(timing: Timing, u: Username, ticks: seq<Snapshot>, id: nat, i: nat, j: nat)
    requires timing.retryMs > 0 && i < j < |ticks|
    requires Called(CallsAt(timing, u, ticks, i), id) && Called(CallsAt(timing, u, ticks, j), id)
    requires Untouched(timing, u, ticks, id, i, j) && Stays(u, ticks, id, i, j)
    ensures ticks[i].reply(u, id) == Failed && ticks[j].now - ticks[i].now >= timing.retryMs
  {
    AttemptRemembered(timing, u, ticks, id, i, j);
    assert Lists(ticks[j], u, id) && Over(ticks[j], u);
    TickRecord(timing, After(timing, u, ticks[..j]), u, ticks[j], id);
  }

  // ---------- The limit is enforced ----------

  predicate ClockAdvances(ticks: seq<Snapshot>) {
    forall a, b :: 0 <= a <= b < |ticks| ==> ticks[a].now <= ticks[b].now
  }

  /** While a user stays over the limit its grace period counts from the first snapshot that showed it. */
  lemma {:induction false} SinceIsOld(timing: Timing, u: Username, ticks: seq<Snapshot>, i: nat)
    requires i < |ticks| && ClockAdvances(ticks) && forall j :: i <= j < |ticks| ==> Over(ticks[j], u)
    ensures After(timing, u, ticks).Some? && After(timing, u, ticks).value.since <= ticks[i].now
    decreases |ticks|
  {
    var n := |ticks| - 1;
    var front := ticks[..n];
    assert forall j :: 0 <= j < n ==> front[j] == ticks[j];
    if i < n {
      SinceIsOld(timing, u, front, i);
    } else if After(timing, u, front).Some? {
      var first := SinceWitness(timing, u, front);
      assert ticks[first].now <= ticks[n].now;
    }
  }

  lemma ExcessIsMine(s: Snapshot, u: Username, x: Session)
    requires x in Excess(s, u)
    ensures x in Mine(s.sessions, u)
  {
    var mine, max := Mine(s.sessions, u), Limit(s.limits, u);
    var o := if s.policy.RejectNewest? then NewestFirst else OldestFirst;
    SelectedIsSorted(mine, max, s.policy);
    SortIsSorted(o, mine);
    assert x in multiset(Sort(o, mine));
  }

  /** A recorded attempt is on a listed SA; it is the snapshot's own call, or was recorded before. */
  lemma AttemptKept(timing: Timing, state: Option<UserState>, u: Username, s: Snapshot, id: nat)
    requires timing.retryMs > 0
    requires var r := Tick(timing, state, u, s); r.state.Some? && id in r.state.value.attempts
    ensures var r := Tick(timing, state, u, s);
            if Called(r.calls, id) then r.state.value.attempts[id] == Attempt(s.reply(u, id) != Failed, s.now)
            else state.Some? && id in state.value.attempts && r.state.value.attempts[id] == state.value.attempts[id]
    ensures Lists(s, u, id)
  {
    var mine := Mine(s.sessions, u);
    var current := if state.Some? then Listed(state.value, mine) else UserState(s.now, map[]);
    TryAllFacts(Excess(s, u), current.attempts, s.now, timing.retryMs, RepliesFor(s, u), id);
    if Called(Tick(timing, state, u, s).calls, id) {
      var x :| x in Excess(s, u) && x.ikeId == id;
      ExcessIsMine(s, u, x);
    }
  }

  predicate ListedSince(u: Username, ticks: seq<Snapshot>, id: nat, k: nat, n: nat)
    requires n < |ticks|
  {
    forall j :: k <= j <= n ==> Lists(ticks[j], u, id)
  }

  lemma ListedOneMore(u: Username, ticks: seq<Snapshot>, id: nat, k: nat)
    requires |ticks| >= 2 && ListedSince(u, ticks[..|ticks| - 1], id, k, |ticks| - 2)
    requires Lists(ticks[|ticks| - 1], u, id)
    ensures ListedSince(u, ticks, id, k, |ticks| - 1)
  {
    var front := ticks[..|ticks| - 1];
    forall j | k <= j < |ticks|
      ensures Lists(ticks[j], u, id)
    {
      if j < |front| { assert front[j] == ticks[j]; }
    }
  }

  /** Every recorded attempt is a call of the run, with its result and its time, on an SA that was listed ever since. */
  lemma {:induction false} AttemptIsCall(timing: Timing, u: Username, ticks: seq<Snapshot>, id: nat) returns (k: nat)
    requires timing.retryMs > 0 && After(timing, u, ticks).Some? && id in After(timing, u, ticks).value.attempts
    ensures k < |ticks| && Called(CallsAt(timing, u, ticks, k), id) && ListedSince(u, ticks, id, k, |ticks| - 1)
    ensures After(timing, u, ticks).value.attempts[id] == Attempt(ticks[k].reply(u, id) != Failed, ticks[k].now)
  {
    var n := |ticks| - 1;
    var before := After(timing, u, ticks[..n]);
    AttemptKept(timing, before, u, ticks[n], id);
    if Called(CallsAt(timing, u, ticks, n), id) {
      k := n;
    } else {
      k := AttemptIsCall(timing, u, ticks[..n], id);
      assert ticks[..n][..k] == ticks[..k] && ticks[..n][k] == ticks[k];
      ListedOneMore(u, ticks, id, k);
    }
  }

  /**
   * An SA needs no further attempt: since one that succeeded, or one more recent than the retry delay, every
   * snapshot has listed it.
   */
  predicate Attempted(timing: Timing, u: Username, ticks: seq<Snapshot>, id: nat, n: nat)
    requires n < |ticks|
  {
    exists k :: 0 <= k <= n && Called(CallsAt(timing, u, ticks, k), id) && ListedSince(u, ticks, id, k, n) &&
                (ticks[k].reply(u, id) != Failed || ticks[n].now - ticks[k].now < timing.retryMs)
  }

  lemma SettledMeansAttempted(timing: Timing, u: Username, ticks: seq<Snapshot>, id: nat)
    requires timing.retryMs > 0 && ticks != [] && After(timing, u, ticks).Some?
    requires Settled(After(timing, u, ticks).value.attempts, id, ticks[|ticks| - 1].now, timing.retryMs)
    ensures Attempted(timing, u, ticks, id, |ticks| - 1)
  {
    var k := AttemptIsCall(timing, u, ticks, id);
    assert Called(CallsAt(timing, u, ticks, k), id);
  }

  /**
   * Once a user was over the limit for graceMs, every SA of the excess has been attempted, in this snapshot or
   * before.
   */
  lemma ExcessIsEnforced(timing: Timing, u: Username, ticks: seq<Snapshot>, i: nat, x: Session)
    requires timing.retryMs > 0 && i < |ticks| && ClockAdvances(ticks)
    requires forall j :: i <= j < |ticks| ==> Over(ticks[j], u)
    requires ticks[|ticks| - 1].now - ticks[i].now >= timing.graceMs
    requires var s := ticks[|ticks| - 1]; x in Excess(s, u)
    ensures Attempted(timing, u, ticks, x.ikeId, |ticks| - 1)
  {
    var n := |ticks| - 1;
    var before := After(timing, u, ticks[..n]);
    SinceIsOld(timing, u, ticks, i);
    TickSettles(timing, before, u, ticks[n], x);
    SettledMeansAttempted(timing, u, ticks, x.ikeId);
  }

  lemma GraceIsOver(timing: Timing, before: Option<UserState>, u: Username, s: Snapshot)
    requires Over(s, u)
    requires var r := Tick(timing, before, u, s); r.state.Some? && s.now - r.state.value.since >= timing.graceMs
    ensures Tick(timing, before, u, s).waiting.None?
  {
  }

  lemma TickSettles(timing: Timing, before: Option<UserState>, u: Username, s: Snapshot, x: Session)
    requires timing.retryMs > 0 && Over(s, u)
    requires var r := Tick(timing, before, u, s); r.state.Some? && s.now - r.state.value.since >= timing.graceMs
    requires x in Excess(s, u)
    ensures Settled(Tick(timing, before, u, s).state.value.attempts, x.ikeId, s.now, timing.retryMs)
  {
    GraceIsOver(timing, before, u, s);
    TickRecord(timing, before, u, s, x.ikeId);
  }

  // ---------- Who is left connected ----------

  /** The ids terminated in a run. */
  function Terminated(timing: Timing, u: Username, ticks: seq<Snapshot>): set<nat> {
    if ticks == [] then {} else
      var n := |ticks| - 1;
      Terminated(timing, u, ticks[..n]) + set c | c in CallsAt(timing, u, ticks, n) :: c.ikeId
  }

  /** SAs listed twice keep their relative age. */
  ghost predicate KeepsOrder(previous: seq<Session>, mine: seq<Session>) {
    forall a, b, a', b' ::
      a in previous && b in previous && a' in mine && b' in mine && a.ikeId == a'.ikeId && b.ikeId == b'.ikeId ==>
        (Younger(a, b) <==> Younger(a', b'))
  }

  /** Arriving SAs are younger than those still listed and were never terminated. */
  ghost predicate ArrivesFresh(previous: seq<Session>, mine: seq<Session>, terminated: set<nat>) {
    && (forall c, b ::
          c in mine && c.ikeId !in IdsOf(previous) && b in mine && b.ikeId in IdsOf(previous) ==> Younger(c, b))
    && (forall c :: c in mine && c.ikeId !in IdsOf(previous) ==> c.ikeId !in terminated)
  }

  ghost predicate Calm(timing: Timing, u: Username, ticks: seq<Snapshot>)
    decreases |ticks|
  {
    ticks == [] ||
    var n := |ticks| - 1;
    && Calm(timing, u, ticks[..n])
    && ticks[n].policy.DisconnectOldest? && DistinctIds(Mine(ticks[n].sessions, u))
    && (forall id :: ticks[n].reply(u, id) != Failed)
    && var previous := if n == 0 then [] else Mine(ticks[n - 1].sessions, u);
       KeepsOrder(previous, Mine(ticks[n].sessions, u)) &&
       ArrivesFresh(previous, Mine(ticks[n].sessions, u), Terminated(timing, u, ticks[..n]))
  }

  /** With a terminated SA every older listed one was terminated too. */
  predicate Closed(mine: seq<Session>, terminated: set<nat>) {
    forall a, b :: a in mine && b in mine && a.ikeId in terminated && Younger(a, b) ==> b.ikeId in terminated
  }

  /** Two SAs listed before and now, the older one terminated with the newer one. */
  lemma BothListed(previous: seq<Session>, mine: seq<Session>, terminated: set<nat>, a: Session, b: Session)
    requires Closed(previous, terminated) && KeepsOrder(previous, mine)
    requires a in mine && b in mine && a.ikeId in IdsOf(previous) && b.ikeId in IdsOf(previous)
    requires a.ikeId in terminated && Younger(a, b)
    ensures b.ikeId in terminated
  {
    var a0 :| a0 in previous && a0.ikeId == a.ikeId;
    var b0 :| b0 in previous && b0.ikeId == b.ikeId;
    assert Younger(a0, b0) <==> Younger(a, b);
  }

  lemma OlderWasListed(previous: seq<Session>, mine: seq<Session>, terminated: set<nat>, a: Session, b: Session)
    requires ArrivesFresh(previous, mine, terminated)
    requires a in mine && b in mine && a.ikeId in terminated && Younger(a, b)
    ensures a.ikeId in IdsOf(previous) && b.ikeId in IdsOf(previous)
  {
  }

  lemma ClosedCarriesOver(previous: seq<Session>, mine: seq<Session>, terminated: set<nat>)
    requires Closed(previous, terminated) && KeepsOrder(previous, mine) && ArrivesFresh(previous, mine, terminated)
    ensures Closed(mine, terminated)
  {
    forall a, b | a in mine && b in mine && a.ikeId in terminated && Younger(a, b) ensures b.ikeId in terminated {
      OlderWasListed(previous, mine, terminated, a, b);
      BothListed(previous, mine, terminated, a, b);
    }
  }

  /** Every recorded attempt was a call of the run. */
  lemma {:induction false} AttemptsWereCalls(timing: Timing, u: Username, ticks: seq<Snapshot>, id: nat)
    requires timing.retryMs > 0 && After(timing, u, ticks).Some? && id in After(timing, u, ticks).value.attempts
    ensures id in Terminated(timing, u, ticks)
  {
    var n := |ticks| - 1;
    var before := After(timing, u, ticks[..n]);
    TickRecord(timing, before, u, ticks[n], id);
    if Called(CallsAt(timing, u, ticks, n), id) {
      assert Call(id, ticks[n].reply(u, id)) in CallsAt(timing, u, ticks, n);
    } else {
      AttemptsWereCalls(timing, u, ticks[..n], id);
    }
  }

  lemma ExcessClosed(mine: seq<Session>, max: nat, terminated: set<nat>, after: set<nat>)
    requires DistinctIds(mine) && |mine| > AtLeastOne(max) && Closed(mine, terminated)
    requires terminated <= after <= terminated + IdsOf(SelectExcess(mine, max, DisconnectOldest))
    requires IdsOf(SelectExcess(mine, max, DisconnectOldest)) <= after
    ensures Closed(mine, after)
  {
    var excess := SelectExcess(mine, max, DisconnectOldest);
    ExcessExactly(mine, max, DisconnectOldest);
    forall a, b | a in mine && b in mine && a.ikeId in after && Younger(a, b) ensures b.ikeId in after {
      if a.ikeId !in terminated {
        var x :| x in excess && x.ikeId == a.ikeId;
        assert x in mine && x == a by { SameSession(mine, x, a); }
        assert b in excess;
      }
    }
  }

  lemma SameSession(mine: seq<Session>, a: Session, b: Session)
    requires DistinctIds(mine) && a in mine && b in mine && a.ikeId == b.ikeId
    ensures a == b
  {
    var i :| 0 <= i < |mine| && mine[i] == a;
    var j :| 0 <= j < |mine| && mine[j] == b;
  }

  lemma LimitIsPositive(s: Snapshot, u: Username)
    ensures AtLeastOne(Limit(s.limits, u)) == Limit(s.limits, u)
  {
  }

  /** A snapshot terminates the whole excess or nothing. */
  lemma TerminatedGrows(timing: Timing, u: Username, ticks: seq<Snapshot>)
    requires timing.retryMs > 0 && ticks != []
    ensures var n := |ticks| - 1;
            var s, before, after := ticks[n], Terminated(timing, u, ticks[..n]), Terminated(timing, u, ticks);
            var excess := IdsOf(Excess(s, u));
            after == before || (Over(s, u) && excess <= after && before <= after <= before + excess)
  {
    var n := |ticks| - 1;
    var s := ticks[n];
    var state := After(timing, u, ticks[..n]);
    var r := Tick(timing, state, u, s);
    if Over(s, u) && r.waiting.None? {
      var excess := Excess(s, u);
      forall id | id in IdsOf(excess) ensures id in Terminated(timing, u, ticks) {
        TickRecord(timing, state, u, s, id);
        AttemptsWereCalls(timing, u, ticks, id);
      }
      forall c | c in r.calls ensures c.ikeId in IdsOf(excess) {
        assert Called(r.calls, c.ikeId);
        TickRecord(timing, state, u, s, c.ikeId);
      }
    } else {
      assert r.calls == [];
    }
  }

  /** One snapshot keeps the terminated SAs closed. */
  lemma TickCloses(timing: Timing, u: Username, ticks: seq<Snapshot>)
    requires timing.retryMs > 0 && Calm(timing, u, ticks) && ticks != []
    requires Closed(Mine(ticks[|ticks| - 1].sessions, u), Terminated(timing, u, ticks[..|ticks| - 1]))
    ensures Closed(Mine(ticks[|ticks| - 1].sessions, u), Terminated(timing, u, ticks))
  {
    var n := |ticks| - 1;
    var s := ticks[n];
    var before, after := Terminated(timing, u, ticks[..n]), Terminated(timing, u, ticks);
    TerminatedGrows(timing, u, ticks);
    if after != before {
      LimitIsPositive(s, u);
      ExcessClosed(Mine(s.sessions, u), Limit(s.limits, u), before, after);
    }
  }

  lemma {:induction false} TerminatedClosed(timing: Timing, u: Username, ticks: seq<Snapshot>)
    requires timing.retryMs > 0 && Calm(timing, u, ticks) && ticks != []
    ensures Closed(Mine(ticks[|ticks| - 1].sessions, u), Terminated(timing, u, ticks[..|ticks| - 1]))
    ensures Closed(Mine(ticks[|ticks| - 1].sessions, u), Terminated(timing, u, ticks))
    decreases |ticks|
  {
    var n := |ticks| - 1;
    if n > 0 {
      TerminatedClosed(timing, u, ticks[..n]);
      ClosedCarriesOver(Mine(ticks[n - 1].sessions, u), Mine(ticks[n].sessions, u), Terminated(timing, u, ticks[..n]));
    }
    TickCloses(timing, u, ticks);
  }

  function ToSet(s: seq<Session>): set<Session> {
    set x | x in s
  }

  lemma {:induction false} DistinctCount(s: seq<Session>)
    requires DistinctIds(s)
    ensures |ToSet(s)| == |s|
  {
    if s != [] {
      DistinctCount(s[1..]);
      assert ToSet(s) == ToSet(s[1..]) + {s[0]};
      assert s[0] !in ToSet(s[1..]);
    }
  }

  /** A snapshot only calls sessions of its excess. */
  lemma SparedSession(timing: Timing, u: Username, ticks: seq<Snapshot>, k: Session)
    requires timing.retryMs > 0 && ticks != []
    requires var s := ticks[|ticks| - 1];
             DistinctIds(Mine(s.sessions, u)) && k in Mine(s.sessions, u) &&
             k !in Excess(s, u) &&
             forall x :: x in Excess(s, u) ==>
                 x in Mine(s.sessions, u)
    ensures k.ikeId in Terminated(timing, u, ticks) <==> k.ikeId in Terminated(timing, u, ticks[..|ticks| - 1])
  {
    var n := |ticks| - 1;
    var s := ticks[n];
    if Called(CallsAt(timing, u, ticks, n), k.ikeId) {
      TickRecord(timing, After(timing, u, ticks[..n]), u, s, k.ikeId);
      var z :| z in Excess(s, u) && z.ikeId == k.ikeId;
      SameSession(Mine(s.sessions, u), k, z);
    }
  }

  /** Terminating an SA for the first time leaves as many younger SAs of the account as it may have. */
  lemma KeepsNewest(timing: Timing, u: Username, ticks: seq<Snapshot>, x: Session)
    requires timing.retryMs > 0 && Calm(timing, u, ticks) && ticks != []
    requires var n := |ticks| - 1;
             && x in Mine(ticks[n].sessions, u) && Called(CallsAt(timing, u, ticks, n), x.ikeId)
             && x.ikeId !in Terminated(timing, u, ticks[..n])
    ensures var s := ticks[|ticks| - 1];
            var spared := set k | k in Mine(s.sessions, u) && Younger(k, x) && k.ikeId !in Terminated(timing, u, ticks);
            |spared| >= 1 && (u in s.limits ==> |spared| >= s.limits[u])
  {
    var n := |ticks| - 1;
    var s, mine := ticks[n], Mine(ticks[n].sessions, u);
    var max := Limit(s.limits, u);
    var excess := SelectExcess(mine, max, s.policy);
    var spared := set k | k in mine && Younger(k, x) && k.ikeId !in Terminated(timing, u, ticks);
    LimitIsPositive(s, u);
    CallsMeanOver(timing, u, ticks, n, x.ikeId);
    ExcessExactly(mine, max, s.policy);
    TerminatedClosed(timing, u, ticks);
    TickRecord(timing, After(timing, u, ticks[..n]), u, s, x.ikeId);
    var y :| y in excess && y.ikeId == x.ikeId;
    SameSession(mine, x, y);
    forall k | k in ToSet(mine) - ToSet(excess) ensures k in spared {
      assert Younger(k, x);
      SparedSession(timing, u, ticks, k);
    }
    DistinctCount(mine);
    DistinctCount(excess);
    assert ToSet(excess) <= ToSet(mine);
    assert |ToSet(mine) - ToSet(excess)| == max;
    SubsetCount(ToSet(mine) - ToSet(excess), spared);
  }

  /** Such a termination happens already in a run of one snapshot with two SAs and one allowed. */
  lemma TerminationHappens(u: Username) returns (timing: Timing, ticks: seq<Snapshot>, x: Session)
    ensures timing.retryMs > 0 && Calm(timing, u, ticks) && |ticks| == 1 && x in Mine(ticks[0].sessions, u)
    ensures Called(CallsAt(timing, u, ticks, 0), x.ikeId) && x.ikeId !in Terminated(timing, u, ticks[..0])
  {
    var older, newer := Session(u, 1, Some(100)), Session(u, 2, Some(50));
    var s := Snapshot([older, newer], map[], DisconnectOldest, 0, (_, _) => Done);
    timing, ticks := Timing(0, 1000), [s];
    var mine := Mine(s.sessions, u);
    assert mine == [older, newer] by {
      assert [older, newer][..1] == [older] && [older][..0] == [];
      assert Mine([older], u) == Mine([], u) + [older];
    }
    assert ticks[..0] == [] && Calm(timing, u, []) && Terminated(timing, u, []) == {};
    assert IdsOf([]) == {};
    assert Calm(timing, u, ticks);
    var excess := SelectExcess(mine, Limit(s.limits, u), s.policy);
    ExcessExactly(mine, Limit(s.limits, u), s.policy);
    x := excess[0];
    assert x in excess;
    TickRecord(timing, None, u, s, x.ikeId);
    if !Called(CallsAt(timing, u, ticks, 0), x.ikeId) {
      AttemptKept(timing, None, u, s, x.ikeId);
    }
  }

  lemma {:induction false} SubsetCount(a: set<Session>, b: set<Session>)
    requires a <= b
    ensures |a| <= |b|
  {
    assert b == a + (b - a);
  }
}
