/**
 * One IKE id seen over time: SAs come and go under it, their CHILDs carry traffic, restart their
 * counters, hide and return, while the worker samples the id and purges stale rows. What is billed
 * is compared with what was carried, and the runs that keep the bill honest are told apart exactly.
 */
module SaMetering {
  import opened Sums
  import opened IkeCounters

  /** The poll interval, and the least time from a purge to the next sample. */
  datatype Schedule = Schedule(pollMs: nat, gap: nat)

  datatype ChildSa = ChildSa(counter: Flow, visible: bool)

  /**
   * A live SA. The last three fields are kept for the statements only: the CHILDs whose cursors were
   * lost while they were hidden, the bytes billed, and the bytes carried.
   */
  datatype Sa = Sa(user: UserId, identity: Option<Spis>, startedAt: nat, children: map<Spis, ChildSa>,
                   forgotten: set<Spis>, billed: Flow, carried: Flow)

  datatype World = World(now: nat, row: Option<Snapshot>, purgedAt: Option<nat>, sa: Sa, past: seq<Sa>)

  datatype Step =
    | Connect(user: UserId, identity: Option<Spis>)
    | Rekey(key: Spis)
    | Traffic(key: Spis, bytes: Flow)
    | Restart(key: Spis)
    | Show(key: Spis, visible: bool)
    | Drop(key: Spis)
    | Elapse(ms: nat)
    | Sample(order: seq<Spis>)
    | Purge

  function Counters(children: map<Spis, ChildSa>): map<Spis, Flow> {
    map k | k in children :: children[k].counter
  }

  function Visible(children: map<Spis, ChildSa>): map<Spis, ChildSa> {
    map k | k in children && children[k].visible :: children[k]
  }

  function TotalBytes(children: seq<Child>): Flow {
    if children == [] then NO_FLOW else
      var n := |children| - 1;
      TotalBytes(children[..n]).Plus(children[n].bytes)
  }

  /** What a sample reports: the visible CHILDs in some order, and their byte totals. */
  function Report(w: World, order: seq<Spis>): Session
    requires forall k :: k in order ==> k in w.sa.children
    requires w.sa.startedAt <= w.now
  {
    var children := seq(|order|, i requires 0 <= i < |order| => Child(order[i], w.sa.children[order[i]].counter));
    Session(0, w.sa.identity, (w.now - w.sa.startedAt) / 1000, false, children, TotalBytes(children))
  }

  predicate Distinct(order: seq<Spis>) {
    forall i, j :: 0 <= i < j < |order| ==> order[i] != order[j]
  }

  /**
   * The sample leaves no cursor for the hidden CHILDs of an SA that was billed before: it lists no
   * CHILD at all, or its row was purged.
   */
  predicate Forgets(w: World, order: seq<Spis>) {
    w.sa.billed != NO_FLOW && (order == [] || w.row.None?)
  }

  predicate Enabled(w: World, s: Step, c: Schedule) {
    match s
    case Connect(_, _) => true
    case Rekey(key) => key !in w.sa.children
    case Traffic(key, _) => key in w.sa.children
    case Restart(key) => key in w.sa.children
    case Show(key, _) => key in w.sa.children
    case Drop(key) => key in w.sa.children
    case Elapse(_) => true
    case Sample(order) =>
      && Distinct(order) && w.sa.startedAt <= w.now && (w.purgedAt.Some? ==> w.now >= w.purgedAt.value + c.gap)
      && (forall k :: k in order ==> k in Visible(w.sa.children))
      && (forall k :: k in Visible(w.sa.children) ==> k in order)
    case Purge => w.row.Some? && w.row.value.lastSeen < w.now - PURGE_MS
  }

  function WithChild(w: World, key: Spis, child: ChildSa): World {
    w.(sa := w.sa.(children := w.sa.children[key := child]))
  }

  /** A CHILD that counts from zero, or that is gone, has nothing left to be forgotten. */
  function Afresh(w: World, key: Spis): World {
    w.(sa := w.sa.(forgotten := w.sa.forgotten - {key}))
  }

  /** A sample changes the row and the books; what it lists has a cursor again. */
  function Apply(w: World, s: Step, c: Schedule): World
    requires Enabled(w, s, c)
  {
    match s
    case Connect(user, identity) =>
      w.(past := w.past + [w.sa], sa := Sa(user, identity, w.now, map[], {}, NO_FLOW, NO_FLOW))
    case Rekey(key) => WithChild(Afresh(w, key), key, ChildSa(NO_FLOW, true))
    case Traffic(key, bytes) =>
      var child := w.sa.children[key];
      var carrying := w.(sa := w.sa.(carried := w.sa.carried.Plus(bytes)));
      WithChild(carrying, key, child.(counter := child.counter.Plus(bytes)))
    case Restart(key) => WithChild(Afresh(w, key), key, w.sa.children[key].(counter := NO_FLOW))
    case Show(key, visible) => WithChild(w, key, w.sa.children[key].(visible := visible))
    case Drop(key) => w.(sa := w.sa.(children := w.sa.children - {key}, forgotten := w.sa.forgotten - {key}))
    case Elapse(ms) => w.(now := w.now + ms)
    case Sample(order) =>
      var session := Report(w, order);
      var billing := Bill(session, w.row, w.sa.user, c.pollMs);
      var lost := if Forgets(w, order) then w.sa.children.Keys else w.sa.forgotten;
      w.(row := Some(NextRow(session, w.sa.user, billing, w.now)),
         sa := w.sa.(billed := w.sa.billed.Plus(billing.flow), forgotten := lost - Visible(w.sa.children).Keys))
    case Purge => w.(row := None, purgedAt := Some(w.now))
  }

  /** A forgotten CHILD is listed again with the counter it had. */
  predicate Returns(w: World, s: Step) {
    s.Show? && s.visible && s.key in w.sa.forgotten
  }

  /** An SA that connects under an id whose row may be left over from anything. */
  predicate Initial(w: World) {
    w.sa.startedAt == w.now && w.sa.children == map[] && w.sa.forgotten == {} &&
      w.sa.billed == w.sa.carried == NO_FLOW && w.past == []
  }

  /** The stored row is taken to be a row of the live SA. */
  predicate Continues(w: World) {
    w.row.Some? && w.row.value.userId == w.sa.user &&
    (w.row.value.identity.None? || w.sa.identity.None? || w.row.value.identity == w.sa.identity)
  }

  function Known(w: World): map<Spis, Flow> {
    if Continues(w) && w.row.value.children.Some? then w.row.value.children.value else map[]
  }

  /** What each CHILD still adds when measured against a cursor map. */
  function Owed(counters: map<Spis, Flow>, cursors: map<Spis, Flow>, d: Direction): map<Spis, nat> {
    map k | k in counters :: Growth(counters[k].At(d), Cursor(cursors, k).At(d))
  }

  /** The CHILDs that a sample measures as it should. */
  function Remembered(sa: Sa): map<Spis, Flow> {
    Counters(sa.children - sa.forgotten)
  }

  ghost predicate Invariant(w: World) {
    && w.sa.startedAt <= w.now
    && (w.sa.billed != NO_FLOW ==>
          if w.row.None? then w.purgedAt.Some? && w.purgedAt.value - w.sa.startedAt > PURGE_MS
          else Continues(w) && w.row.value.lastSeen >= w.sa.startedAt)
    && (forall k :: k in w.sa.forgotten ==> k in w.sa.children && !w.sa.children[k].visible)
    && (forall d :: Bounded(w, d))
    && (forall i :: 0 <= i < |w.past| ==> w.past[i].billed.AtMost(w.past[i].carried))
  }

  ghost predicate Bounded(w: World, d: Direction) {
    && Sum(Column(Counters(w.sa.children), d)) <= w.sa.carried.At(d)
    && var owed := if w.row.None? && w.sa.billed != NO_FLOW then 0 else Sum(Owed(Remembered(w.sa), Known(w), d));
       w.sa.billed.At(d) + owed <= w.sa.carried.At(d)
  }

  /** An SA purged at its earliest and sampled again at the earliest is recognised as late. */
  predicate SafeSchedule(c: Schedule) {
    Late((PURGE_MS + 1 + c.gap) / 1000, c.pollMs)
  }

  // ---------- Samples ----------

  lemma OwedWithCursor(counters: map<Spis, Flow>, cursors: map<Spis, Flow>, key: Spis, value: Flow, d: Direction)
    requires key in counters
    ensures Sum(Owed(counters, cursors[key := value], d)) + Growth(counters[key].At(d), Cursor(cursors, key).At(d))
         == Sum(Owed(counters, cursors, d)) + Growth(counters[key].At(d), value.At(d))
  {
    var due := Growth(counters[key].At(d), value.At(d));
    SumUpdate(Owed(counters, cursors, d), key, due);
    assert Owed(counters, cursors[key := value], d) == Owed(counters, cursors, d)[key := due];
  }

  lemma OwedWithCounter(counters: map<Spis, Flow>, cursors: map<Spis, Flow>, key: Spis, value: Flow, d: Direction)
    requires key in counters
    ensures Sum(Owed(counters[key := value], cursors, d)) + Growth(counters[key].At(d), Cursor(cursors, key).At(d))
         == Sum(Owed(counters, cursors, d)) + Growth(value.At(d), Cursor(cursors, key).At(d))
  {
    var due := Growth(value.At(d), Cursor(cursors, key).At(d));
    SumUpdate(Owed(counters, cursors, d), key, due);
    assert Owed(counters[key := value], cursors, d) == Owed(counters, cursors, d)[key := due];
  }

  predicate Lists(counters: map<Spis, Flow>, listed: seq<Child>) {
    && DistinctKeys(listed)
    && forall i :: 0 <= i < |listed| ==> listed[i].key in counters && counters[listed[i].key] == listed[i].bytes
  }

  lemma {:induction false} OwedDrops(counters: map<Spis, Flow>, cursors: map<Spis, Flow>, listed: seq<Child>,
                                     d: Direction)
    requires Lists(counters, listed)
    ensures Sum(Owed(counters, Overlay(cursors, listed), d)) + Charge(listed, cursors).At(d) ==
            Sum(Owed(counters, cursors, d))
  {
    if listed != [] {
      var n := |listed| - 1;
      OwedDrops(counters, cursors, listed[..n], d);
      OverlayAt(cursors, listed[..n], listed[n].key);
      OwedWithCursor(counters, Overlay(cursors, listed[..n]), listed[n].key, listed[n].bytes, d);
    }
  }

  lemma {:induction false} TotalIsFullCharge(children: seq<Child>)
    ensures TotalBytes(children) == Charge(children, map[])
  {
    if children != [] {
      TotalIsFullCharge(children[..|children| - 1]);
    }
  }

  lemma OwedOfNothing(counters: map<Spis, Flow>, d: Direction)
    ensures Owed(counters, map[], d) == Column(counters, d)
  {
  }

  lemma OwedAtMostColumn(counters: map<Spis, Flow>, cursors: map<Spis, Flow>, d: Direction)
    ensures Sum(Owed(counters, cursors, d)) <= Sum(Column(counters, d))
  {
    SumAtMost(Owed(counters, cursors, d), Column(counters, d));
  }

  lemma SampleReport(w: World, order: seq<Spis>, c: Schedule)
    requires Enabled(w, Sample(order), c)
    ensures var children := Report(w, order).children;
            && Lists(Counters(w.sa.children), children) && Lists(Counters(Visible(w.sa.children)), children)
            && (forall k :: k in Visible(w.sa.children) ==> exists i :: 0 <= i < |children| && children[i].key == k)
            && Report(w, order).bytes == Charge(children, map[])
  {
    var children := Report(w, order).children;
    TotalIsFullCharge(children);
    forall i | 0 <= i < |children| ensures children[i].key in Visible(w.sa.children) { assert order[i] in order; }
    forall k | k in Visible(w.sa.children) ensures exists i :: 0 <= i < |children| && children[i].key == k {
      var i :| 0 <= i < |order| && order[i] == k;
      assert children[i].key == k;
    }
  }

  /** A CHILD the sample lists owes nothing afterwards. */
  lemma ListedOweNothing(w: World, order: seq<Spis>, cursors: map<Spis, Flow>, c: Schedule, d: Direction)
    requires Enabled(w, Sample(order), c)
    ensures Sum(Owed(Counters(Visible(w.sa.children)), Overlay(cursors, Report(w, order).children), d)) == 0
  {
    var children := Report(w, order).children;
    SampleReport(w, order, c);
    forall k | k in Visible(w.sa.children)
      ensures Cursor(Overlay(cursors, children), k) == w.sa.children[k].counter
    {
      OverlayAt(cursors, children, k);
      var i :| 0 <= i < |children| && children[i].key == k;
      assert children[i] in children;
    }
    SumOfZeros(Owed(Counters(Visible(w.sa.children)), Overlay(cursors, children), d));
  }

  function Charged(w: World, order: seq<Spis>, c: Schedule): Flow
    requires Enabled(w, Sample(order), c)
  {
    Bill(Report(w, order), w.row, w.sa.user, c.pollMs).flow
  }

  lemma SampleKnown(w: World, order: seq<Spis>, c: Schedule)
    requires Enabled(w, Sample(order), c)
    ensures Known(Apply(w, Sample(order), c)) ==
            if order == [] then map[] else Overlay(Known(w), Report(w, order).children)
  {
  }

  lemma BillAtMost(session: Session, row: Option<Snapshot>, user: UserId, pollMs: nat)
    ensures Bill(session, row, user, pollMs).flow.AtMost(session.bytes)
         || (session.children != [] && Previous(session, row, user).Some? &&
             Previous(session, row, user).value.children.Some?
             && Bill(session, row, user, pollMs).flow ==
               Charge(session.children, Previous(session, row, user).value.children.value))
  {
  }

  /** A sample bills at most each listed CHILD measured against the known cursors. */
  lemma SampleBilling(w: World, order: seq<Spis>, c: Schedule, d: Direction)
    requires Enabled(w, Sample(order), c)
    ensures Charged(w, order, c).At(d) <= Charge(Report(w, order).children, Known(w)).At(d)
  {
    var session := Report(w, order);
    TotalIsFullCharge(session.children);
    BillAtMost(session, w.row, w.sa.user, c.pollMs);
    if order == [] || Known(w) == map[] {
    } else {
      assert Previous(session, w.row, w.sa.user) == w.row;
    }
  }

  /** A purged SA is old enough for its next sample to set cursors only. */
  lemma {:induction false} PurgedIsLate(w: World, order: seq<Spis>, c: Schedule)
    requires Invariant(w) && Enabled(w, Sample(order), c) && SafeSchedule(c)
    requires w.row.None? && w.sa.billed != NO_FLOW
    ensures Charged(w, order, c) == NO_FLOW
  {
    assert w.now - w.sa.startedAt >= PURGE_MS + 1 + c.gap;
    assert Late((w.now - w.sa.startedAt) / 1000, c.pollMs);
  }

  /** After a sample that forgets only the listed CHILDs are remembered, and they owe nothing. */
  lemma ForgettingOwesNothing(w: World, order: seq<Spis>, c: Schedule, d: Direction)
    requires Enabled(w, Sample(order), c) && Forgets(w, order)
    ensures var w' := Apply(w, Sample(order), c); Sum(Owed(Remembered(w'.sa), Known(w'), d)) == 0
  {
    var w' := Apply(w, Sample(order), c);
    SampleKnown(w, order, c);
    assert w'.sa.children - w'.sa.forgotten == Visible(w.sa.children);
    if order == [] {
      assert Visible(w.sa.children) == map[];
      SumOfZeros(Owed(Remembered(w'.sa), Known(w'), d));
    } else {
      ListedOweNothing(w, order, Known(w), c, d);
    }
  }

  /** A sample that forgets nothing lists remembered CHILDs, and goes on remembering the same. */
  lemma ListsRemembered(w: World, order: seq<Spis>, c: Schedule)
    requires Invariant(w) && Enabled(w, Sample(order), c) && !Forgets(w, order)
    ensures Lists(Remembered(w.sa), Report(w, order).children)
    ensures Remembered(Apply(w, Sample(order), c).sa) == Remembered(w.sa)
  {
    var listed := Report(w, order).children;
    SampleReport(w, order, c);
    forall i | 0 <= i < |listed| ensures listed[i].key in Remembered(w.sa) {
      assert listed[i].key in Visible(w.sa.children);
    }
    assert w.sa.forgotten - Visible(w.sa.children).Keys == w.sa.forgotten;
  }

  lemma RememberingBillsOwed(w: World, order: seq<Spis>, c: Schedule, d: Direction)
    requires Invariant(w) && Enabled(w, Sample(order), c) && !Forgets(w, order)
    ensures Bounded(Apply(w, Sample(order), c), d)
  {
    assert Bounded(w, d);
    ListsRemembered(w, order, c);
    SampleKnown(w, order, c);
    SampleBilling(w, order, c, d);
    OwedDrops(Remembered(w.sa), Known(w), Report(w, order).children, d);
    if order == [] {
      OwedOfNothing(Remembered(w.sa), d);
      SumAtMost(Column(Remembered(w.sa), d), Column(Counters(w.sa.children), d));
    }
  }

  /** What a sample bills was still owed. */
  lemma SampleBillsOwed(w: World, order: seq<Spis>, c: Schedule, d: Direction)
    requires Invariant(w) && Enabled(w, Sample(order), c) && SafeSchedule(c)
    ensures Bounded(Apply(w, Sample(order), c), d)
  {
    assert Bounded(w, d);
    if Forgets(w, order) {
      ForgettingOwesNothing(w, order, c, d);
      ForgettingBillsNothing(w, order, c);
    } else {
      RememberingBillsOwed(w, order, c, d);
    }
  }

  /** A sample that forgets bills nothing: it lists nothing, or the SA is late. */
  lemma ForgettingBillsNothing(w: World, order: seq<Spis>, c: Schedule)
    requires Invariant(w) && Enabled(w, Sample(order), c) && SafeSchedule(c) && Forgets(w, order)
    ensures Charged(w, order, c) == NO_FLOW
  {
    if w.row.None? {
      PurgedIsLate(w, order, c);
    } else {
      SampleReport(w, order, c);
    }
  }

  // ---------- Every other step ----------

  lemma TrafficCounts(w: World, key: Spis, bytes: Flow, c: Schedule)
    requires key in w.sa.children
    ensures var w', value := Apply(w, Traffic(key, bytes), c), Counters(w.sa.children)[key].Plus(bytes);
            && Counters(w'.sa.children) == Counters(w.sa.children)[key := value] && Known(w') == Known(w)
            && Remembered(w'.sa) == if key in w.sa.forgotten then Remembered(w.sa) else Remembered(w.sa)[key := value]
  {
  }

  lemma TrafficCarries(w: World, key: Spis, bytes: Flow, c: Schedule, d: Direction)
    requires Bounded(w, d) && key in w.sa.children
    ensures Bounded(Apply(w, Traffic(key, bytes), c), d)
  {
    var all := Counters(w.sa.children);
    var value := all[key].Plus(bytes);
    TrafficCounts(w, key, bytes, c);
    ColumnUpdate(all, key, value, d);
    if key !in w.sa.forgotten { OwedWithCounter(Remembered(w.sa), Known(w), key, value, d); }
  }

  /** Counters that fall, start from zero or go away owe at most what they did. */
  lemma FewerOwe(counters: map<Spis, Flow>, counters': map<Spis, Flow>, cursors: map<Spis, Flow>, d: Direction)
    requires forall k :: k in counters' ==> counters'[k] == NO_FLOW || (k in counters && counters'[k] == counters[k])
    ensures Sum(Column(counters', d)) <= Sum(Column(counters, d))
    ensures Sum(Owed(counters', cursors, d)) <= Sum(Owed(counters, cursors, d))
  {
    SumAtMost(Column(counters', d), Column(counters, d));
    SumAtMost(Owed(counters', cursors, d), Owed(counters, cursors, d));
  }

  /** Steps on CHILDs other than traffic. */
  lemma CountersShrink(w: World, w': World, d: Direction)
    requires Bounded(w, d) && w'.row == w.row &&
             w'.sa == w.sa.(children := w'.sa.children, forgotten := w'.sa.forgotten)
    requires forall k :: k in w'.sa.children ==>
                           w'.sa.children[k].counter == NO_FLOW ||
                           (k in w.sa.children && w'.sa.children[k].counter == w.sa.children[k].counter &&
                            (k in w.sa.forgotten ==> k in w'.sa.forgotten))
    ensures Bounded(w', d)
  {
    FewerOwe(Counters(w.sa.children), Counters(w'.sa.children), Known(w), d);
    FewerOwe(Remembered(w.sa), Remembered(w'.sa), Known(w), d);
    assert Known(w') == Known(w);
  }

  lemma ConnectOwesNothing(w: World, user: UserId, identity: Option<Spis>, c: Schedule, d: Direction)
    ensures Bounded(Apply(w, Connect(user, identity), c), d)
  {
    var w' := Apply(w, Connect(user, identity), c);
    SumOfZeros(Column(Counters(w'.sa.children), d));
    SumOfZeros(Owed(Remembered(w'.sa), Known(w'), d));
  }

  lemma PurgeBounded(w: World, c: Schedule, d: Direction)
    requires Invariant(w) && Enabled(w, Purge, c)
    ensures Bounded(Apply(w, Purge, c), d)
  {
    assert Bounded(w, d);
    OwedAtMostColumn(Remembered(w.sa), map[], d);
    SumAtMost(Column(Remembered(w.sa), d), Column(Counters(w.sa.children), d));
  }

  lemma StepBounded(w: World, s: Step, c: Schedule, d: Direction)
    requires Invariant(w) && Enabled(w, s, c) && SafeSchedule(c)
    ensures Bounded(Apply(w, s, c), d)
  {
    assert Bounded(w, d);
    match s
    case Connect(user, identity) => ConnectOwesNothing(w, user, identity, c, d);
    case Traffic(key, bytes) => TrafficCarries(w, key, bytes, c, d);
    case Sample(order) => SampleBillsOwed(w, order, c, d);
    case Purge => PurgeBounded(w, c, d);
    case _ => CountersShrink(w, Apply(w, s, c), d);
  }

  lemma {:induction false} StepKeepsInvariant(w: World, s: Step, c: Schedule)
    requires Invariant(w) && Enabled(w, s, c) && SafeSchedule(c) && !Returns(w, s)
    ensures Invariant(Apply(w, s, c))
  {
    forall d ensures Bounded(Apply(w, s, c), d) { StepBounded(w, s, c, d); }
    assert Bounded(w, Up) && Bounded(w, Down);
  }

  // ---------- Runs ----------

  predicate Run(w: World, steps: seq<Step>, c: Schedule)
    decreases |steps|
  {
    steps == [] || (Enabled(w, steps[0], c) && Run(Apply(w, steps[0], c), steps[1..], c))
  }

  function End(w: World, steps: seq<Step>, c: Schedule): World
    requires Run(w, steps, c)
    decreases |steps|
  {
    if steps == [] then w else End(Apply(w, steps[0], c), steps[1..], c)
  }

  /** No forgotten CHILD is listed again in the run. */
  predicate NoReturn(w: World, steps: seq<Step>, c: Schedule)
    requires Run(w, steps, c)
    decreases |steps|
  {
    steps == [] || (!Returns(w, steps[0]) && NoReturn(Apply(w, steps[0], c), steps[1..], c))
  }

  lemma {:induction false} RunKeepsInvariant(w: World, steps: seq<Step>, c: Schedule)
    requires Invariant(w) && Run(w, steps, c) && NoReturn(w, steps, c) && SafeSchedule(c)
    ensures Invariant(End(w, steps, c))
    decreases |steps|
  {
    if steps != [] {
      StepKeepsInvariant(w, steps[0], c);
      RunKeepsInvariant(Apply(w, steps[0], c), steps[1..], c);
    }
  }

  predicate Honest(sa: Sa) { sa.billed.AtMost(sa.carried) }

  lemma InvariantIsHonest(w: World)
    requires Invariant(w)
    ensures Honest(w.sa) && forall i :: 0 <= i < |w.past| ==> Honest(w.past[i])
  {
    assert Bounded(w, Up) && Bounded(w, Down);
  }

  /** Every SA that ever used the id, the live one included, was billed at most what it carried. */
  lemma NeverOverbilled(w: World, steps: seq<Step>, c: Schedule)
    requires Initial(w) && Run(w, steps, c) && NoReturn(w, steps, c) && SafeSchedule(c)
    ensures var end := End(w, steps, c); Honest(end.sa) && forall i :: 0 <= i < |end.past| ==> Honest(end.past[i])
  {
    forall d ensures Bounded(w, d) {
      SumOfZeros(Column(Counters(w.sa.children), d));
      SumOfZeros(Owed(Remembered(w.sa), Known(w), d));
    }
    RunKeepsInvariant(w, steps, c);
    InvariantIsHonest(End(w, steps, c));
  }
}
