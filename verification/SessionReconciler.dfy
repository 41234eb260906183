/** The max-devices reconciler of backend/src/services/sessionReconciler.js, without persistence callbacks. */
module SessionReconciler {
  import opened Sums

  datatype Username = Username(text: string)

  /** One listed IKE SA; `established` is its age in seconds, None when it is not a number. */
  datatype Session = Session(user: Username, ikeId: nat, established: Option<int>)

  datatype Policy = DisconnectOldest | RejectNewest

  const MAX_SAFE_INTEGER := 9007199254740991

  function AgeOf(s: Session): int {
    if s.established.Some? && s.established.value >= 0 then s.established.value else MAX_SAFE_INTEGER
  }

  // ---------- Orders ----------

  datatype Order = NewestFirst | OldestFirst

  /** The comparator of newestFirst or oldestFirst is negative. */
  predicate Before(o: Order, a: Session, b: Session) {
    match o
    case NewestFirst => AgeOf(a) < AgeOf(b) || (AgeOf(a) == AgeOf(b) && a.ikeId > b.ikeId)
    case OldestFirst => AgeOf(a) > AgeOf(b) || (AgeOf(a) == AgeOf(b) && a.ikeId < b.ikeId)
  }

  function Insert(o: Order, x: Session, sorted: seq<Session>): seq<Session> {
    if sorted == [] || !Before(o, sorted[0], x) then [x] + sorted else [sorted[0]] + Insert(o, x, sorted[1..])
  }

  /** The stable sort of a copy. */
  function Sort(o: Order, sessions: seq<Session>): seq<Session> {
    if sessions == [] then [] else Insert(o, sessions[0], Sort(o, sessions[1..]))
  }

  function AtLeastOne(n: int): nat { if n > 1 then n else 1 }

  /** The sessions to terminate: all but the `max` newest, or all but the `max` oldest. */
  function SelectExcess(sessions: seq<Session>, max: int, policy: Policy): seq<Session> {
    var allowed := AtLeastOne(max);
    if |sessions| <= allowed then [] else
      SortedLength(if policy.RejectNewest? then NewestFirst else OldestFirst, sessions);
      Sort(if policy.RejectNewest? then NewestFirst else OldestFirst, sessions)[..|sessions| - allowed]
  }

  predicate InOrder(o: Order, s: seq<Session>) {
    forall i, j :: 0 <= i < j < |s| ==> !Before(o, s[j], s[i])
  }

  lemma {:induction false} InsertLength(o: Order, x: Session, sorted: seq<Session>)
    ensures |Insert(o, x, sorted)| == |sorted| + 1
  {
    if sorted != [] && Before(o, sorted[0], x) { InsertLength(o, x, sorted[1..]); }
  }

  lemma {:induction false} SortedLength(o: Order, sessions: seq<Session>)
    ensures |Sort(o, sessions)| == |sessions|
  {
    if sessions != [] {
      SortedLength(o, sessions[1..]);
      InsertLength(o, sessions[0], Sort(o, sessions[1..]));
    }
  }

  lemma {:induction false} InsertCounts(o: Order, x: Session, sorted: seq<Session>)
    ensures multiset(Insert(o, x, sorted)) == multiset(sorted) + multiset{x}
  {
    if sorted != [] && Before(o, sorted[0], x) {
      InsertCounts(o, x, sorted[1..]);
      assert sorted == [sorted[0]] + sorted[1..];
    }
  }

  lemma InsertedFrom(o: Order, x: Session, sorted: seq<Session>, y: Session)
    requires y in Insert(o, x, sorted)
    ensures y == x || y in sorted
  {
    InsertCounts(o, x, sorted);
    assert y in multiset(Insert(o, x, sorted));
  }

  lemma {:induction false} InsertKeeps(o: Order, x: Session, sorted: seq<Session>)
    requires InOrder(o, sorted)
    ensures InOrder(o, Insert(o, x, sorted))
  {
    if sorted != [] && Before(o, sorted[0], x) {
      InsertKeeps(o, x, sorted[1..]);
      forall y | y in Insert(o, x, sorted[1..]) ensures !Before(o, y, sorted[0]) {
        InsertedFrom(o, x, sorted[1..], y);
      }
    } else if sorted != [] {
      forall j | 0 <= j < |sorted| ensures !Before(o, sorted[j], x) {
        if j > 0 { assert !Before(o, sorted[j], sorted[0]); }
      }
    }
  }

  /** The sort orders its input and keeps every session. */
  lemma {:induction false} SortIsSorted(o: Order, sessions: seq<Session>)
    ensures InOrder(o, Sort(o, sessions))
    ensures multiset(Sort(o, sessions)) == multiset(sessions)
  {
    if sessions != [] {
      SortIsSorted(o, sessions[1..]);
      InsertKeeps(o, sessions[0], Sort(o, sessions[1..]));
      InsertCounts(o, sessions[0], Sort(o, sessions[1..]));
      assert sessions == [sessions[0]] + sessions[1..];
    }
  }

  predicate DistinctIds(s: seq<Session>) {
    forall i, j :: 0 <= i < j < |s| ==> s[i].ikeId != s[j].ikeId
  }

  /** With distinct ids nothing comes before the head of an ordered list. */
  lemma HeadIsFirst(o: Order, s: seq<Session>, x: Session)
    requires InOrder(o, s) && s != [] && x in multiset(s)
    ensures x == s[0] || !Before(o, x, s[0])
  {
  }

  lemma OrderIsTotal(o: Order, a: Session, b: Session)
    requires !Before(o, a, b) && !Before(o, b, a)
    ensures a.ikeId == b.ikeId
  {
  }

  lemma HeadsEqual(o: Order, s: seq<Session>, t: seq<Session>)
    requires InOrder(o, s) && InOrder(o, t) && DistinctIds(s) && multiset(s) == multiset(t) && s != [] && t != []
    ensures s[0] == t[0]
  {
    assert s[0] in multiset(t) && t[0] in multiset(s);
    HeadIsFirst(o, t, s[0]);
    HeadIsFirst(o, s, t[0]);
    if s[0] != t[0] {
      OrderIsTotal(o, s[0], t[0]);
    }
  }

  lemma TailCounts(s: seq<Session>)
    requires s != []
    ensures multiset(s[1..]) == multiset(s) - multiset{s[0]}
  {
    assert s == [s[0]] + s[1..];
  }

  /** Two ordered lists of the same sessions, with distinct ids, are the same list. */
  lemma {:induction false} OrderedUnique(o: Order, s: seq<Session>, t: seq<Session>)
    requires InOrder(o, s) && InOrder(o, t) && DistinctIds(s) && multiset(s) == multiset(t)
    ensures s == t
    decreases |s|
  {
    assert |s| == |multiset(s)| == |t|;
    if s != [] {
      HeadsEqual(o, s, t);
      TailCounts(s);
      TailCounts(t);
      OrderedUnique(o, s[1..], t[1..]);
      assert s == [s[0]] + s[1..] && t == [t[0]] + t[1..];
    }
  }

  lemma {:induction false} CountedOnce(s: seq<Session>, x: Session)
    requires DistinctIds(s)
    ensures multiset(s)[x] <= 1
  {
    if s != [] {
      CountedOnce(s[1..], x);
      assert s == [s[0]] + s[1..];
      if s[0] == x { assert x !in s[1..]; }
    }
  }

  lemma CountedTwice(t: seq<Session>, i: nat, j: nat)
    requires i < j < |t| && t[i] == t[j]
    ensures multiset(t)[t[i]] >= 2
  {
    assert t == t[..j] + t[j..];
    assert t[..j][i] in multiset(t[..j]) && t[j..][0] in multiset(t[j..]);
  }

  lemma SameIdsDistinct(s: seq<Session>, t: seq<Session>)
    requires DistinctIds(s) && multiset(s) == multiset(t)
    ensures DistinctIds(t)
  {
    forall i, j | 0 <= i < j < |t| ensures t[i].ikeId != t[j].ikeId {
      assert t[i] in multiset(s) && t[j] in multiset(s);
      CountedOnce(s, t[i]);
      if t[i] == t[j] { CountedTwice(t, i, j); }
    }
  }

  /** The choice does not depend on the order of the snapshot. */
  lemma ExcessIgnoresInputOrder(s: seq<Session>, t: seq<Session>, max: int, policy: Policy)
    requires DistinctIds(s) && multiset(s) == multiset(t)
    ensures SelectExcess(s, max, policy) == SelectExcess(t, max, policy)
  {
    var o := if policy.RejectNewest? then NewestFirst else OldestFirst;
    SortIsSorted(o, s);
    SortIsSorted(o, t);
    SameIdsDistinct(s, Sort(o, s));
    OrderedUnique(o, Sort(o, s), Sort(o, t));
    assert |s| == |multiset(s)| == |t|;
  }

  lemma SelectedIsSorted(s: seq<Session>, max: int, policy: Policy)
    requires |s| > AtLeastOne(max)
    ensures var o := if policy.RejectNewest? then NewestFirst else OldestFirst;
            |Sort(o, s)| == |s| && SelectExcess(s, max, policy) == Sort(o, s)[..|s| - AtLeastOne(max)]
  {
    SortedLength(NewestFirst, s);
    SortedLength(OldestFirst, s);
  }

  /** Of a sorted list, what is not in the first part comes behind it. */
  lemma SplitSorted(o: Order, s: seq<Session>, sorted: seq<Session>, n: nat)
    requires InOrder(o, sorted) && DistinctIds(sorted) && multiset(sorted) == multiset(s) && n <= |sorted|
    ensures forall x :: x in sorted[..n] ==> x in s
    ensures forall x, k :: x in sorted[..n] && k in s && k !in sorted[..n] ==> Before(o, x, k)
  {
    forall x | x in sorted[..n] ensures x in s { assert x in multiset(sorted); }
    forall x, k | x in sorted[..n] && k in s && k !in sorted[..n] ensures Before(o, x, k) {
      assert k in multiset(sorted);
      var i :| 0 <= i < n && sorted[i] == x;
      var j :| 0 <= j < |sorted| && sorted[j] == k;
      assert j >= n;
      BeforeInOrder(o, sorted, i, j);
    }
  }

  lemma BeforeInOrder(o: Order, sorted: seq<Session>, i: nat, j: nat)
    requires InOrder(o, sorted) && DistinctIds(sorted) && i < j < |sorted|
    ensures Before(o, sorted[i], sorted[j])
  {
    if !Before(o, sorted[i], sorted[j]) { OrderIsTotal(o, sorted[i], sorted[j]); }
  }

  /** An age is a number of seconds that is not negative. */
  predicate HasAge(s: Session) { s.established.Some? && s.established.value >= 0 }

  /**
   * Connected more recently: fewer seconds ago, and of two equal ages the one with the greater id. A session
   * without a valid age counts as old as the largest exact number of seconds.
   */
  predicate Younger(a: Session, b: Session) {
    if HasAge(a) && HasAge(b) then
      a.established.value < b.established.value || (a.established.value == b.established.value && a.ikeId > b.ikeId)
    else if HasAge(a) then
      a.established.value < 9007199254740991 || (a.established.value == 9007199254740991 && a.ikeId > b.ikeId)
    else if HasAge(b) then
      b.established.value > 9007199254740991 || (b.established.value == 9007199254740991 && a.ikeId > b.ikeId)
    else
      a.ikeId > b.ikeId
  }

  /** The two comparators order by seconds, one from the youngest on and the other from the oldest on. */
  lemma OrdersAreBySeconds(a: Session, b: Session)
    ensures Before(NewestFirst, a, b) <==> Younger(a, b)
    ensures Before(OldestFirst, a, b) <==> Younger(b, a)
  {
  }

  /** The sorted lists, in seconds: no later session of newestFirst is younger, and none of oldestFirst older. */
  lemma SortsBySeconds(sessions: seq<Session>)
    ensures var s := Sort(NewestFirst, sessions); forall i, j :: 0 <= i < j < |s| ==> !Younger(s[j], s[i])
    ensures var s := Sort(OldestFirst, sessions); forall i, j :: 0 <= i < j < |s| ==> !Younger(s[i], s[j])
  {
    SortIsSorted(NewestFirst, sessions);
    SortIsSorted(OldestFirst, sessions);
    forall a, b { OrdersAreBySeconds(a, b); }
  }

  /**
   * Exactly `max` sessions stay. Under disconnect_oldest each of them is younger than every selected one, under
   * reject_newest each selected one is younger.
   */
  lemma ExcessExactly(s: seq<Session>, max: int, policy: Policy)
    requires DistinctIds(s) && |s| > AtLeastOne(max)
    ensures var excess := SelectExcess(s, max, policy);
            && |excess| == |s| - (if max > 1 then max else 1) && DistinctIds(excess)
            && (forall x :: x in excess ==> x in s)
            && (forall x, k :: x in excess && k in s && k !in excess ==>
                                 if policy == RejectNewest then Younger(x, k) else Younger(k, x))
  {
    var o := if policy.RejectNewest? then NewestFirst else OldestFirst;
    var sorted, excess := Sort(o, s), SelectExcess(s, max, policy);
    SelectedIsSorted(s, max, policy);
    SortIsSorted(o, s);
    SameIdsDistinct(s, sorted);
    SplitSorted(o, s, sorted, |excess|);
    forall x, k | x in excess && k in s && k !in excess
      ensures if policy == RejectNewest then Younger(x, k) else Younger(k, x)
    {
      OrdersAreBySeconds(x, k);
    }
  }

  /**
   * With valid ages: nobody who stays has been connected longer than somebody who goes, or shorter, as the policy
   * says.
   */
  lemma ExcessInSeconds(s: seq<Session>, max: int, policy: Policy, x: Session, k: Session)
    requires DistinctIds(s) && |s| > AtLeastOne(max)
    requires x in SelectExcess(s, max, policy) && k in s && k !in SelectExcess(s, max, policy)
    ensures HasAge(x) && HasAge(k) && policy == DisconnectOldest ==> x.established.value >= k.established.value
    ensures HasAge(x) && HasAge(k) && policy == RejectNewest ==> x.established.value <= k.established.value
    ensures HasAge(x) && x.established.value < 9007199254740991 && policy == DisconnectOldest ==> HasAge(k)
  {
    ExcessExactly(s, max, policy);
  }

  /** Nobody goes while there are no more sessions than allowed. */
  lemma NoExcess(s: seq<Session>, max: int, policy: Policy)
    requires |s| <= max || |s| <= 1
    ensures SelectExcess(s, max, policy) == []
  {
  }

  // ---------- One user, one snapshot ----------

  datatype Attempt = Attempt(ok: bool, at: int)

  datatype UserState = UserState(since: int, attempts: map<nat, Attempt>)

  /** What a terminate command comes back with. */
  datatype Reply = Done | AlreadyGone | Failed

  datatype Call = Call(ikeId: nat, reply: Reply)

  datatype Timing = Timing(graceMs: nat, retryMs: nat)

  datatype Outcome = Outcome(state: Option<UserState>, waiting: Option<nat>, calls: seq<Call>)

  datatype Tried = Tried(attempts: map<nat, Attempt>, calls: seq<Call>)

  /** A recorded attempt that forbids another one now. */
  predicate Settled(attempts: map<nat, Attempt>, id: nat, now: int, retryMs: nat) {
    id in attempts && (attempts[id].ok || now - attempts[id].at < retryMs)
  }

  function TryAll(extras: seq<Session>, attempts: map<nat, Attempt>, now: int, retryMs: nat,
                  reply: nat -> Reply): Tried {
    if extras == [] then Tried(attempts, []) else
      var n := |extras| - 1;
      var before := TryAll(extras[..n], attempts, now, retryMs, reply);
      var id := extras[n].ikeId;
      if Settled(before.attempts, id, now, retryMs) then before else
        Tried(before.attempts[id := Attempt(reply(id) != Failed, now)], before.calls + [Call(id, reply(id))])
  }

  function IdsOf(mine: seq<Session>): set<nat> {
    set s | s in mine :: s.ikeId
  }

  function Listed(state: UserState, mine: seq<Session>): UserState {
    state.(attempts := map id | id in state.attempts && id in IdsOf(mine) :: state.attempts[id])
  }

  /** What is left of a user's state once the attempts on vanished SAs are dropped. */
  function Remembered(before: Option<UserState>, mine: seq<Session>): Option<UserState> {
    if before.Some? then Some(Listed(before.value, mine)) else None
  }

  function UserTick(timing: Timing, state: Option<UserState>, mine: seq<Session>, max: nat, policy: Policy, now: int,
                    reply: nat -> Reply): Outcome {
    if |mine| <= max then Outcome(None, None, []) else
      var current := if state.Some? then Listed(state.value, mine) else UserState(now, map[]);
      var age := now - current.since;
      if age < timing.graceMs then Outcome(Some(current), Some(timing.graceMs - age), []) else
        var tried := TryAll(SelectExcess(mine, max, policy), current.attempts, now, timing.retryMs, reply);
        Outcome(Some(current.(attempts := tried.attempts)), None, tried.calls)
  }

  // ---------- One snapshot of all users ----------

  datatype Snapshot = Snapshot(sessions: seq<Session>, limits: map<Username, int>, policy: Policy, now: int,
                               reply: (Username, nat) -> Reply)

  datatype Action =
    | Grace(user: Username, count: nat, max: nat, remainingMs: nat)
    | Terminated(user: Username, ikeId: nat)
    | WasGone(user: Username, ikeId: nat)
    | TerminateError(user: Username, ikeId: nat)

  function Mine(sessions: seq<Session>, user: Username): seq<Session> {
    if sessions == [] then [] else
      var n := |sessions| - 1;
      Mine(sessions[..n], user) + (if sessions[n].user == user then [sessions[n]] else [])
  }

  /** The users of a snapshot in order of first appearance; sessions without a name are skipped. */
  function Names(sessions: seq<Session>): seq<Username> {
    if sessions == [] then [] else
      var n := |sessions| - 1;
      var before := Names(sessions[..n]);
      if sessions[n].user.text == "" || sessions[n].user in before then before else before + [sessions[n].user]
  }

  function Limit(limits: map<Username, int>, user: Username): nat {
    if user in limits then AtLeastOne(limits[user]) else 1
  }

  function LookupState(users: map<Username, UserState>, user: Username): Option<UserState> {
    if user in users then Some(users[user]) else None
  }

  function RepliesFor(s: Snapshot, user: Username): nat -> Reply {
    (id: nat) => s.reply(user, id)
  }

  function Tick(timing: Timing, state: Option<UserState>, user: Username, s: Snapshot): Outcome {
    UserTick(timing, state, Mine(s.sessions, user), Limit(s.limits, user), s.policy, s.now, RepliesFor(s, user))
  }

  function Next(timing: Timing, users: map<Username, UserState>, s: Snapshot): map<Username, UserState> {
    map u | u in Names(s.sessions) && Tick(timing, LookupState(users, u), u, s).state.Some? ::
      Tick(timing, LookupState(users, u), u, s).state.value
  }

  function Actions(user: Username, calls: seq<Call>): seq<Action> {
    if calls == [] then [] else
      var n := |calls| - 1;
      Actions(user, calls[..n]) +
      [match calls[n].reply
       case Done => Terminated(user, calls[n].ikeId)
       case AlreadyGone => WasGone(user, calls[n].ikeId)
       case Failed => TerminateError(user, calls[n].ikeId)]
  }

  function UserActions(timing: Timing, state: Option<UserState>, user: Username, s: Snapshot): seq<Action> {
    var r := Tick(timing, state, user, s);
    if r.waiting.Some? then [Grace(user, |Mine(s.sessions, user)|, Limit(s.limits, user), r.waiting.value)]
    else Actions(user, r.calls)
  }

  function AllActions(timing: Timing, users: map<Username, UserState>, names: seq<Username>, s: Snapshot): seq<Action> {
    if names == [] then [] else
      var n := |names| - 1;
      AllActions(timing, users, names[..n], s) + UserActions(timing, LookupState(users, names[n]), names[n], s)
  }

  // ---------- The reconciler in place ----------

  lemma {:induction false} NamesCover(sessions: seq<Session>, u: Username)
    requires u.text != ""
    ensures u in Names(sessions) <==> Mine(sessions, u) != []
  {
    if sessions != [] { NamesCover(sessions[..|sessions| - 1], u); }
  }

  lemma {:induction false} NamesDistinct(sessions: seq<Session>)
    ensures forall i, j :: 0 <= i < j < |Names(sessions)| ==> Names(sessions)[i] != Names(sessions)[j]
    ensures forall u :: u in Names(sessions) ==> u.text != ""
  {
    if sessions != [] { NamesDistinct(sessions[..|sessions| - 1]); }
  }

  method TerminateExtras(user: Username, extras: seq<Session>, attempts: map<nat, Attempt>, now: int, retryMs: nat,
                         reply: nat -> Reply)
    returns (after: map<nat, Attempt>, actions: seq<Action>)
    ensures var tried := TryAll(extras, attempts, now, retryMs, reply);
            after == tried.attempts && actions == Actions(user, tried.calls)
  {
    after, actions := attempts, [];
    for i := 0 to |extras|
      invariant after == TryAll(extras[..i], attempts, now, retryMs, reply).attempts
      invariant actions == Actions(user, TryAll(extras[..i], attempts, now, retryMs, reply).calls)
    {
      assert extras[..i + 1][..i] == extras[..i];
      var ikeId := extras[i].ikeId;
      if ikeId in after && after[ikeId].ok { continue; }
      if ikeId in after && now - after[ikeId].at < retryMs { continue; }
      ghost var calls := TryAll(extras[..i], attempts, now, retryMs, reply).calls;
      assert (calls + [Call(ikeId, reply(ikeId))])[..|calls|] == calls;
      match reply(ikeId)
      case Done =>
        after := after[ikeId := Attempt(true, now)];
        actions := actions + [Terminated(user, ikeId)];
      case AlreadyGone =>
        after := after[ikeId := Attempt(true, now)];
        actions := actions + [WasGone(user, ikeId)];
      case Failed =>
        after := after[ikeId := Attempt(false, now)];
        actions := actions + [TerminateError(user, ikeId)];
    }
    assert extras[..|extras|] == extras;
  }

  method GroupByUser(sessions: seq<Session>) returns (byUser: map<Username, seq<Session>>, order: seq<Username>)
    ensures order == Names(sessions)
    ensures byUser.Keys == set u | u in order
    ensures forall u :: u in byUser ==> byUser[u] == Mine(sessions, u)
  {
    byUser, order := map[], [];
    for i := 0 to |sessions|
      invariant order == Names(sessions[..i])
      invariant byUser.Keys == set u | u in order
      invariant forall u :: u in byUser ==> byUser[u] == Mine(sessions[..i], u)
    {
      var session := sessions[i];
      assert sessions[..i + 1][..i] == sessions[..i];
      if session.user.text == "" {
        NamesDistinct(sessions[..i]);
        continue;
      }
      if session.user !in byUser {
        NamesCover(sessions[..i], session.user);
        byUser := byUser[session.user := []];
        order := order + [session.user];
      }
      byUser := byUser[session.user := byUser[session.user] + [session]];
    }
    assert sessions[..|sessions|] == sessions;
  }

  class Reconciler {
    const graceMs: nat
    const retryMs: nat
    var users: map<Username, UserState>

    function Time(): Timing { Timing(graceMs, retryMs) }

    constructor (grace: int, retry: int)
      ensures graceMs == (if grace > 0 then grace else 0) && retryMs == (if retry > 1000 then retry else 1000)
      ensures users == map[]
    {
      graceMs := if grace > 0 then grace else 0;
      retryMs := if retry > 1000 then retry else 1000;
      users := map[];
    }

    /** Drops users without a session and attempts on sessions no longer listed. */
    method Forget(byUser: map<Username, seq<Session>>)
      modifies this`users
      ensures users == map u | u in old(users) && u in byUser :: Listed(old(users)[u], byUser[u])
    {
      var todo := users.Keys;
      while todo != {}
        invariant todo <= old(users).Keys
        invariant users.Keys == todo + old(users).Keys * byUser.Keys
        invariant forall u :: u in todo ==> users[u] == old(users)[u]
        invariant forall u :: u in users && u !in todo ==> users[u] == Listed(old(users)[u], byUser[u])
        decreases todo
      {
        var u :| u in todo;
        todo := todo - {u};
        if u in byUser {
          users := users[u := Listed(users[u], byUser[u])];
        } else {
          users := users - {u};
        }
      }
    }

    /** Decides for one user; `before` is its state before the snapshot and `done` what it must become. */
    method ReconcileUser(user: Username, mine: seq<Session>, max: nat, s: Snapshot, ghost before: Option<UserState>,
                         ghost done: Option<UserState>)
      returns (actions: seq<Action>)
      requires done == Tick(Time(), before, user, s).state
      requires mine == Mine(s.sessions, user) && max == Limit(s.limits, user)
      requires LookupState(users, user) == Remembered(before, mine)
      modifies this`users
      ensures LookupState(users, user) == done
      ensures forall u :: u != user ==> LookupState(users, u) == LookupState(old(users), u)
      ensures actions == UserActions(Time(), before, user, s)
    {
      if |mine| <= max {
        users := users - {user};
        return [];
      }
      if user !in users {
        users := users[user := UserState(s.now, map[])];
      }
      var state := users[user];
      var age := s.now - state.since;
      if age < graceMs {
        return [Grace(user, |mine|, max, graceMs - age)];
      }
      var extras := SelectExcess(mine, max, s.policy);
      var attempts;
      attempts, actions := TerminateExtras(user, extras, state.attempts, s.now, retryMs, RepliesFor(s, user));
      users := users[user := state.(attempts := attempts)];
    }

    /** Walks the users of a snapshot; `done` is what their states must become. */
    method ReconcileAll(byUser: map<Username, seq<Session>>, order: seq<Username>, s: Snapshot,
                        ghost before: map<Username, UserState>, ghost done: map<Username, UserState>,
                          ghost timing: Timing)
      returns (actions: seq<Action>)
      requires timing == Time()
      requires forall i {:trigger DoneBy(timing, before, done, order[i], s)} :: 0 <= i < |order| ==>
                 DoneBy(timing, before, done, order[i], s)
      requires forall i, j :: 0 <= i < j < |order| ==> order[i] != order[j]
      requires forall i :: 0 <= i < |order| ==> order[i] in byUser
      requires forall i {:trigger byUser[order[i]]} :: 0 <= i < |order| ==>
                 byUser[order[i]] == Mine(s.sessions, order[i])
      requires forall i {:trigger Remembered(LookupState(before, order[i]), byUser[order[i]])} ::
                 0 <= i < |order| ==>
                     LookupState(users, order[i]) == Remembered(LookupState(before, order[i]), byUser[order[i]])
      modifies this`users
      ensures forall i :: 0 <= i < |order| ==> LookupState(users, order[i]) == LookupState(done, order[i])
      ensures forall u :: u !in order ==> LookupState(users, u) == LookupState(old(users), u)
      ensures actions == AllActions(timing, before, order, s)
    {
      actions := [];
      for i := 0 to |order|
        invariant forall j :: 0 <= j < i ==> LookupState(users, order[j]) == LookupState(done, order[j])
        invariant forall j {:trigger Remembered(LookupState(before, order[j]), byUser[order[j]])} ::
                    i <= j < |order| ==>
                        LookupState(users, order[j]) == Remembered(LookupState(before, order[j]), byUser[order[j]])
        invariant forall u :: u !in order ==> LookupState(users, u) == LookupState(old(users), u)
        invariant actions == AllActions(timing, before, order[..i], s)
      {
        var user := order[i];
        assert DoneBy(timing, before, done, user, s);
        AllActionsStep(timing, before, order, i, s);
        var more := ReconcileUser(user, byUser[user], Limit(s.limits, user), s, LookupState(before, user),
                                  LookupState(done, user));
        actions := actions + more;
      }
      assert order[..|order|] == order;
    }

    method Reconcile(s: Snapshot) returns (actions: seq<Action>)
      modifies this`users
      ensures users == Next(Time(), old(users), s)
      ensures actions == AllActions(Time(), old(users), Names(s.sessions), s)
    {
      var byUser, order := GroupByUser(s.sessions);
      Forget(byUser);
      NamesDistinct(s.sessions);
      ghost var done := Next(Time(), old(users), s);
      forall i | 0 <= i < |order| ensures DoneBy(Time(), old(users), done, order[i], s) { assert order[i] in order; }
      actions := ReconcileAll(byUser, order, s, old(users), done, Time());
      forall u ensures LookupState(users, u) == LookupState(done, u) {
        if u in order { var i :| 0 <= i < |order| && order[i] == u; }
      }
      SameLookups(users, done);
    }
  }

  ghost predicate DoneBy(timing: Timing, before: map<Username, UserState>, done: map<Username, UserState>,
                         user: Username, s: Snapshot) {
    LookupState(done, user) == Tick(timing, LookupState(before, user), user, s).state
  }

  lemma AllActionsStep(timing: Timing, users: map<Username, UserState>, names: seq<Username>, i: nat, s: Snapshot)
    requires i < |names|
    ensures AllActions(timing, users, names[..i + 1], s) ==
            AllActions(timing, users, names[..i], s) + UserActions(timing, LookupState(users, names[i]), names[i], s)
  {
    assert names[..i + 1][..i] == names[..i];
  }

  lemma SameLookups(m: map<Username, UserState>, n: map<Username, UserState>)
    requires forall u :: LookupState(m, u) == LookupState(n, u)
    ensures m == n
  {
    forall u ensures (u in m <==> u in n) && (u in m ==> m[u] == n[u]) {
      assert LookupState(m, u) == LookupState(n, u);
    }
  }
}
