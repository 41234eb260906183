/** What one reconcile reads from a snapshot and reports of it, without the functions that compute it. */
module ReconcilerReports {
  import opened Sums
  import opened SessionReconciler
  import opened ReconcilerRuns

  /** A user's SAs are exactly the listed ones under its name. */
  lemma {:induction false} MineExactly(sessions: seq<Session>, u: Username, x: Session)
    ensures multiset(Mine(sessions, u))[x] == if x.user == u then multiset(sessions)[x] else 0
  {
    if sessions != [] {
      var n := |sessions| - 1;
      MineExactly(sessions[..n], u, x);
      assert sessions == sessions[..n] + [sessions[n]];
    }
  }

  /** Their order is that of the snapshot. */
  lemma {:induction false} MineInOrder(sessions: seq<Session>, u: Username) returns (at: seq<nat>)
    ensures |at| == |Mine(sessions, u)|
    ensures forall i :: 0 <= i < |at| ==> at[i] < |sessions| && Mine(sessions, u)[i] == sessions[at[i]]
    ensures forall i, j :: 0 <= i < j < |at| ==> at[i] < at[j]
  {
    at := [];
    if sessions != [] {
      var n := |sessions| - 1;
      at := MineInOrder(sessions[..n], u);
      if sessions[n].user == u { at := at + [n]; }
    }
  }

  /** The report of one call. */
  predicate Reports(a: Action, u: Username, id: nat, reply: Reply) {
    match reply
    case Done => a == Terminated(u, id)
    case AlreadyGone => a == WasGone(u, id)
    case Failed => a == TerminateError(u, id)
  }

  lemma {:induction false} ActionsReport(u: Username, calls: seq<Call>)
    ensures |Actions(u, calls)| == |calls|
    ensures forall i :: 0 <= i < |calls| ==> Reports(Actions(u, calls)[i], u, calls[i].ikeId, calls[i].reply)
  {
    if calls != [] { ActionsReport(u, calls[..|calls| - 1]); }
  }

  /** The calls follow the excess in its order, and each holds the reply it got. */
  lemma {:induction false} CallsFollow(extras: seq<Session>, attempts: map<nat, Attempt>, now: int, retryMs: nat,
                                       reply: nat -> Reply) returns (at: seq<nat>)
    ensures var calls := TryAll(extras, attempts, now, retryMs, reply).calls;
            && |at| == |calls|
            && (forall i :: 0 <= i < |at| ==>
                  at[i] < |extras| && calls[i] == Call(extras[at[i]].ikeId, reply(extras[at[i]].ikeId)))
            && (forall i, j :: 0 <= i < j < |at| ==> at[i] < at[j])
  {
    at := [];
    if extras != [] {
      var n := |extras| - 1;
      var before := TryAll(extras[..n], attempts, now, retryMs, reply);
      at := CallsFollow(extras[..n], attempts, now, retryMs, reply);
      if !Settled(before.attempts, extras[n].ikeId, now, retryMs) { at := at + [n]; }
    }
  }

  /** When the user's time over the limit began. */
  function Since(state: Option<UserState>, s: Snapshot): int { if state.Some? then state.value.since else s.now }

  /**
   * A user within its limit is not reported; within the grace period its SAs, limit and remaining time are;
   * afterwards every call is, by its reply.
   */
  lemma ReportsExactly(timing: Timing, state: Option<UserState>, u: Username, s: Snapshot)
    ensures var actions, waited := UserActions(timing, state, u, s), s.now - Since(state, s);
            if !Over(s, u) then actions == []
            else if waited < timing.graceMs then
              actions == [Grace(u, |Mine(s.sessions, u)|, Limit(s.limits, u), timing.graceMs - waited)]
            else
              var calls := Tick(timing, state, u, s).calls;
              |actions| == |calls| && forall i :: 0 <= i < |calls| ==>
                  Reports(actions[i], u, calls[i].ikeId, s.reply(u, calls[i].ikeId))
  {
    var current := if state.Some? then Listed(state.value, Mine(s.sessions, u)) else UserState(s.now, map[]);
    var calls := Tick(timing, state, u, s).calls;
    ActionsReport(u, calls);
    if Over(s, u) && s.now - Since(state, s) >= timing.graceMs {
      var at := CallsFollow(Excess(s, u), current.attempts, s.now, timing.retryMs, RepliesFor(s, u));
    }
  }

  /** The limit that is reported and enforced: the account's, at least one, and one without an entry. */
  lemma LimitExactly(limits: map<Username, int>, u: Username)
    ensures Limit(limits, u) >= 1 && (u in limits ==> Limit(limits, u) >= limits[u])
    ensures Limit(limits, u) == 1 || (u in limits && Limit(limits, u) == limits[u])
  {
  }

  /** Users are walked in the order in which the snapshot first names them, each once, the nameless never. */
  lemma {:induction false} NamesInOrder(sessions: seq<Session>) returns (at: seq<nat>)
    ensures |at| == |Names(sessions)|
    ensures forall i :: 0 <= i < |at| ==> at[i] < |sessions| && Names(sessions)[i] == sessions[at[i]].user
    ensures forall i, k :: 0 <= i < |at| && 0 <= k < at[i] ==> sessions[k].user != sessions[at[i]].user
    ensures forall i, j :: 0 <= i < j < |at| ==> at[i] < at[j]
  {
    at := [];
    if sessions != [] {
      var n := |sessions| - 1;
      at := NamesInOrder(sessions[..n]);
      if sessions[n].user.text != "" && sessions[n].user !in Names(sessions[..n]) {
        forall k | 0 <= k < n
          ensures sessions[k].user != sessions[n].user
        {
          if sessions[k].user.text != "" { NamedOnce(sessions[..n], k); }
        }
        at := at + [n];
      }
    }
  }

  lemma {:induction false} NamedOnce(sessions: seq<Session>, k: nat)
    requires k < |sessions| && sessions[k].user.text != ""
    ensures sessions[k].user in Names(sessions)
  {
    var n := |sessions| - 1;
    if k < n { NamedOnce(sessions[..n], k); }
  }
}
