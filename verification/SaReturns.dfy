/**
 * Forgotten CHILDs that come back, and rows purged too early: exactly when an SA can be billed for
 * more than it carried.
 */
module SaReturns {
  import opened Sums
  import opened IkeCounters
  import opened SaMetering

  // ---------- Runs in pieces ----------

  lemma RunOneMore(w: World, s: Step, rest: seq<Step>, c: Schedule)
    requires Enabled(w, s, c) && Run(Apply(w, s, c), rest, c)
    ensures Run(w, [s] + rest, c) && End(w, [s] + rest, c) == End(Apply(w, s, c), rest, c)
    ensures !Returns(w, s) && NoReturn(Apply(w, s, c), rest, c) ==> NoReturn(w, [s] + rest, c)
  {
    assert ([s] + rest)[1..] == rest;
  }

  lemma {:induction false} RunAppend(w: World, a: seq<Step>, b: seq<Step>, c: Schedule)
    requires Run(w, a, c) && Run(End(w, a, c), b, c)
    ensures Run(w, a + b, c) && End(w, a + b, c) == End(End(w, a, c), b, c)
    ensures NoReturn(w, a, c) && NoReturn(End(w, a, c), b, c) ==> NoReturn(w, a + b, c)
    decreases |a|
  {
    if a == [] {
      assert a + b == b;
    } else {
      RunAppend(Apply(w, a[0], c), a[1..], b, c);
      RunOneMore(w, a[0], a[1..] + b, c);
      assert a + b == [a[0]] + (a[1..] + b);
    }
  }

  lemma RunOne(w: World, s: Step, c: Schedule)
    requires Enabled(w, s, c)
    ensures Run(w, [s], c) && End(w, [s], c) == Apply(w, s, c) && (!Returns(w, s) ==> NoReturn(w, [s], c))
  {
    RunOneMore(w, s, [], c);
    assert [s] + [] == [s];
  }

  // ---------- Everything is listed again ----------

  function Shown(children: map<Spis, ChildSa>): map<Spis, ChildSa> {
    map k | k in children :: children[k].(visible := true)
  }

  function Hidden(children: map<Spis, ChildSa>): set<Spis> {
    set k | k in children && !children[k].visible
  }

  /** Every hidden CHILD comes back. */
  lemma {:induction false} ShowAll(w: World, c: Schedule) returns (steps: seq<Step>)
    ensures Run(w, steps, c) && End(w, steps, c) == w.(sa := w.sa.(children := Shown(w.sa.children)))
    ensures w.sa.forgotten == {} ==> NoReturn(w, steps, c)
    decreases Hidden(w.sa.children)
  {
    if k :| k in Hidden(w.sa.children) {
      var s := Show(k, true);
      var next := Apply(w, s, c);
      assert Hidden(next.sa.children) == Hidden(w.sa.children) - {k};
      steps := ShowAll(next, c);
      RunOneMore(w, s, steps, c);
      assert Shown(next.sa.children) == Shown(w.sa.children);
      steps := [s] + steps;
    } else {
      steps := [];
      forall k | k in w.sa.children ensures w.sa.children[k].visible { assert k !in Hidden(w.sa.children); }
      assert Shown(w.sa.children) == w.sa.children;
    }
  }

  lemma {:induction false} Enumerate(keys: set<Spis>) returns (order: seq<Spis>)
    ensures Distinct(order) && forall k :: k in keys <==> k in order
  {
    if k :| k in keys {
      var rest := Enumerate(keys - {k});
      order := [k] + rest;
    } else {
      order := [];
    }
  }

  /** The row is one that a sample of the live SA wrote. */
  predicate Sampled(w: World) {
    Continues(w) && (w.row.value.children.Some? || w.row.value.last == NO_FLOW)
  }

  /** A sample that continues bills each listed CHILD exactly for what it owes. */
  lemma ContinuedBill(w: World, order: seq<Spis>, c: Schedule)
    requires Enabled(w, Sample(order), c) && Sampled(w) && order != []
    ensures Charged(w, order, c) == Charge(Report(w, order).children, Known(w))
  {
    TotalIsFullCharge(Report(w, order).children);
  }

  /** Listing every CHILD bills everything they owe. */
  lemma RelistingBills(w: World, order: seq<Spis>, c: Schedule, d: Direction)
    requires Enabled(w, Sample(order), c) && Sampled(w) && order != [] && Visible(w.sa.children) == w.sa.children
    ensures Apply(w, Sample(order), c).sa.billed.At(d) ==
            w.sa.billed.At(d) + Sum(Owed(Counters(w.sa.children), Known(w), d))
  {
    ContinuedBill(w, order, c);
    SampleReport(w, order, c);
    OwedDrops(Counters(w.sa.children), Known(w), Report(w, order).children, d);
    ListedOweNothing(w, order, Known(w), c, d);
  }

  /** No gap since a purge stands in the way of a sample now. */
  predicate MaySample(w: World, c: Schedule) {
    w.sa.startedAt <= w.now && (w.purgedAt.Some? ==> w.now >= w.purgedAt.value + c.gap)
  }

  /** Every CHILD listed again at once: the books then hold everything that any of them owed. */
  lemma Relist(w: World, c: Schedule) returns (steps: seq<Step>)
    requires Sampled(w) && MaySample(w, c)
    ensures Run(w, steps, c) && (w.sa.forgotten == {} ==> NoReturn(w, steps, c))
    ensures End(w, steps, c).sa.carried == w.sa.carried
    ensures forall d: Direction ::
              End(w, steps, c).sa.billed.At(d) == w.sa.billed.At(d) + Sum(Owed(Counters(w.sa.children), Known(w), d))
  {
    if w.sa.children == map[] {
      steps := [];
      forall d: Direction ensures Sum(Owed(Counters(w.sa.children), Known(w), d)) == 0 {
        SumOfZeros(Owed(Counters(w.sa.children), Known(w), d));
      }
    } else {
      steps := ShowAll(w, c);
      var shown := End(w, steps, c);
      var order := Enumerate(w.sa.children.Keys);
      var k :| k in w.sa.children;
      assert k in order;
      assert Visible(shown.sa.children) == shown.sa.children;
      assert Counters(shown.sa.children) == Counters(w.sa.children) && Known(shown) == Known(w);
      forall d: Direction { RelistingBills(shown, order, c, d); }
      RunOne(shown, Sample(order), c);
      RunAppend(w, steps, [Sample(order)], c);
      steps := steps + [Sample(order)];
    }
  }

  // ---------- Exactly when forgotten CHILDs may return ----------

  /** Nothing that follows overbills, as long as no CHILD forgotten from now on returns. */
  ghost predicate SafeFrom(w: World, c: Schedule) {
    forall steps: seq<Step> :: Run(w, steps, c) && NoReturn(w, steps, c) ==> Honest(End(w, steps, c).sa)
  }

  /** The world in which every hidden CHILD is free to return. */
  function Free(w: World): World { w.(sa := w.sa.(forgotten := {})) }

  /** The bytes of the CHILDs that a sample did not list. */
  function Unlisted(w: World, d: Direction): map<Spis, nat> {
    Column(Counters(w.sa.children - Visible(w.sa.children).Keys), d)
  }

  lemma {:induction false} SampleIsSampled(w: World, order: seq<Spis>, c: Schedule)
    requires Enabled(w, Sample(order), c)
    ensures Sampled(Apply(w, Sample(order), c)) && MaySample(Apply(w, Sample(order), c), c)
  {
    SampleReport(w, order, c);
  }

  lemma SumSplitKeys(m: map<Spis, nat>, keys: set<Spis>)
    ensures Sum(m) == Sum(m - keys) + Sum(map k | k in m && k in keys :: m[k])
  {
    var inside := map k | k in m && k in keys :: m[k];
    var outside := m - keys;
    var a := map k | k in m :: if k in keys then m[k] else 0;
    var b := map k | k in m :: if k in keys then 0 else m[k];
    SumPlus(m, a, b);
    SumAtMost(a, inside);
    SumAtMost(inside, a);
    SumAtMost(b, outside);
    SumAtMost(outside, b);
  }

  /** The cursors after a sample that forgets are those of the listed CHILDs alone. */
  lemma ForgettingKnows(w: World, order: seq<Spis>, c: Schedule)
    requires Enabled(w, Sample(order), c) && Forgets(w, order)
    ensures Known(Apply(w, Sample(order), c)) == Overlay(map[], Report(w, order).children)
    ensures forall k :: k in w.sa.children && k !in Visible(w.sa.children) ==>
              Cursor(Known(Apply(w, Sample(order), c)), k) == NO_FLOW
  {
    var listed := Report(w, order).children;
    SampleKnown(w, order, c);
    SampleReport(w, order, c);
    forall k | k in w.sa.children && k !in Visible(w.sa.children) ensures Cursor(Overlay(map[], listed), k) == NO_FLOW {
      assert forall i :: 0 <= i < |listed| ==> listed[i].key in Counters(Visible(w.sa.children));
      OverlayAt(map[], listed, k);
    }
  }

  lemma OwedVisible(children: map<Spis, ChildSa>, cursors: map<Spis, Flow>, d: Direction)
    ensures var owed := Owed(Counters(children), cursors, d);
            (map k | k in owed && k in Visible(children).Keys :: owed[k]) ==
              Owed(Counters(Visible(children)), cursors, d)
  {
  }

  lemma OwedHidden(children: map<Spis, ChildSa>, cursors: map<Spis, Flow>, d: Direction)
    requires forall k :: k in children && !children[k].visible ==> Cursor(cursors, k) == NO_FLOW
    ensures Owed(Counters(children), cursors, d) - Visible(children).Keys ==
            Column(Counters(children - Visible(children).Keys), d)
  {
    var left := Owed(Counters(children), cursors, d) - Visible(children).Keys;
    forall k | k in left ensures left[k] == children[k].counter.At(d) { assert !children[k].visible; }
  }

  lemma OwedInParts(children: map<Spis, ChildSa>, cursors: map<Spis, Flow>, d: Direction)
    requires forall k :: k in children && !children[k].visible ==> Cursor(cursors, k) == NO_FLOW
    ensures Sum(Owed(Counters(children), cursors, d)) ==
            Sum(Column(Counters(children - Visible(children).Keys), d)) +
              Sum(Owed(Counters(Visible(children)), cursors, d))
  {
    SumSplitKeys(Owed(Counters(children), cursors, d), Visible(children).Keys);
    OwedVisible(children, cursors, d);
    OwedHidden(children, cursors, d);
  }

  /** After a sample that forgets, all CHILDs together owe the bytes of the hidden ones. */
  lemma HiddenOweEverything(w: World, order: seq<Spis>, c: Schedule, d: Direction)
    requires Enabled(w, Sample(order), c) && Forgets(w, order)
    ensures var w' := Apply(w, Sample(order), c);
            Sum(Owed(Counters(w'.sa.children), Known(w'), d)) == Sum(Unlisted(w, d))
  {
    ForgettingKnows(w, order, c);
    OwedInParts(w.sa.children, Overlay(map[], Report(w, order).children), d);
    ListedOweNothing(w, order, map[], c, d);
  }

  /** Every CHILD free to return, the books hold if and only if all that they owe was not billed yet. */
  lemma FreeReturnsExactly(w: World, c: Schedule)
    requires Invariant(w) && Sampled(w) && MaySample(w, c) && SafeSchedule(c)
    ensures SafeFrom(Free(w), c) <==>
            forall d: Direction ::
              w.sa.billed.At(d) + Sum(Owed(Counters(w.sa.children), Known(w), d)) <= w.sa.carried.At(d)
  {
    var free := Free(w);
    assert free.sa.children - free.sa.forgotten == free.sa.children;
    if forall d: Direction ::
         w.sa.billed.At(d) + Sum(Owed(Counters(w.sa.children), Known(w), d)) <= w.sa.carried.At(d)
    {
      forall d ensures Bounded(free, d) { assert Bounded(w, d) && Known(free) == Known(w); }
      assert Invariant(free);
      forall steps: seq<Step> | Run(free, steps, c) && NoReturn(free, steps, c) ensures Honest(End(free, steps, c).sa) {
        RunKeepsInvariant(free, steps, c);
        InvariantIsHonest(End(free, steps, c));
      }
    } else {
      var steps := Relist(free, c);
      assert Known(free) == Known(w);
    }
  }

  /**
   * Before a sample that forgets: its hidden CHILDs may return if and only if the bill and their bytes stay within
   * what was carried.
   */
  lemma ForgottenMayReturnExactly(w: World, order: seq<Spis>, c: Schedule)
    requires Invariant(w) && Enabled(w, Sample(order), c) && Forgets(w, order) && SafeSchedule(c)
    ensures SafeFrom(Free(Apply(w, Sample(order), c)), c) <==>
            forall d: Direction :: w.sa.billed.At(d) + Sum(Unlisted(w, d)) <= w.sa.carried.At(d)
  {
    var w' := Apply(w, Sample(order), c);
    StepKeepsInvariant(w, Sample(order), c);
    SampleIsSampled(w, order, c);
    FreeReturnsExactly(w', c);
    ForgettingBillsNothing(w, order, c);
    assert w'.sa.billed == w.sa.billed;
    forall d: Direction { HiddenOweEverything(w, order, c, d); }
  }

  lemma SumOfSome(m: map<Spis, nat>, k: Spis)
    requires k in m
    ensures m[k] <= Sum(m)
  {
    SumSplit(m, k);
  }

  lemma UnlistedIsZero(w: World, d: Direction)
    ensures Sum(Unlisted(w, d)) == 0 <==> forall k :: k in Hidden(w.sa.children) ==> w.sa.children[k].counter.At(d) == 0
  {
    if forall k :: k in Hidden(w.sa.children) ==> w.sa.children[k].counter.At(d) == 0 {
      SumOfZeros(Unlisted(w, d));
    } else {
      var k :| k in Hidden(w.sa.children) && w.sa.children[k].counter.At(d) != 0;
      SumOfSome(Unlisted(w, d), k);
    }
  }

  lemma NothingSpare(w: World)
    requires w.sa.billed == w.sa.carried
    ensures (forall d: Direction :: w.sa.billed.At(d) + Sum(Unlisted(w, d)) <= w.sa.carried.At(d)) <==>
            Sum(Unlisted(w, Up)) == 0 && Sum(Unlisted(w, Down)) == 0
  {
    assert forall d: Direction :: w.sa.billed.At(d) == w.sa.carried.At(d) && (d == Up || d == Down);
    if forall d: Direction :: w.sa.billed.At(d) + Sum(Unlisted(w, d)) <= w.sa.carried.At(d) {
      assert w.sa.billed.At(Up) + Sum(Unlisted(w, Up)) <= w.sa.carried.At(Up);
      assert w.sa.billed.At(Down) + Sum(Unlisted(w, Down)) <= w.sa.carried.At(Down);
    }
  }

  /** An SA billed for all it carried can only lose CHILDs that have counted nothing. */
  lemma PaidUpMayReturnExactly(w: World, order: seq<Spis>, c: Schedule)
    requires Invariant(w) && Enabled(w, Sample(order), c) && Forgets(w, order) && SafeSchedule(c)
    requires w.sa.billed == w.sa.carried
    ensures SafeFrom(Free(Apply(w, Sample(order), c)), c) <==>
            forall k :: k in Hidden(w.sa.children) ==> w.sa.children[k].counter == NO_FLOW
  {
    ForgottenMayReturnExactly(w, order, c);
    NothingSpare(w);
    UnlistedIsZero(w, Up);
    UnlistedIsZero(w, Down);
  }

  // ---------- Runs that overbill ----------

  function FirstWorld(): World {
    World(0, None, None, Sa(UserId(""), None, 0, map[], {}, NO_FLOW, NO_FLOW), [])
  }

  /** A sample and a return: the books grow by what the sample charged and by all it did not list. */
  lemma ForgetAndReturn(w: World, order: seq<Spis>, c: Schedule) returns (steps: seq<Step>)
    requires Enabled(w, Sample(order), c) && Forgets(w, order)
    ensures Run(w, steps, c) && End(w, steps, c).sa.carried == w.sa.carried
    ensures forall d: Direction ::
              End(w, steps, c).sa.billed.At(d) ==
              w.sa.billed.At(d) + Charged(w, order, c).At(d) + Sum(Unlisted(w, d))
  {
    var w' := Apply(w, Sample(order), c);
    SampleIsSampled(w, order, c);
    steps := Relist(w', c);
    forall d: Direction { HiddenOweEverything(w, order, c, d); }
    RunOneMore(w, Sample(order), steps, c);
    steps := [Sample(order)] + steps;
  }

  /** An SA whose one CHILD has counted `bytes`. */
  predicate OneChild(sa: Sa, key: Spis, bytes: Flow, visible: bool) {
    sa.children == map[key := ChildSa(bytes, visible)]
  }

  /** Without a row, an SA that is not late is billed everything its one CHILD counts. */
  lemma SampleWithoutRow(w: World, key: Spis, bytes: Flow, c: Schedule)
    requires w.row.None? && OneChild(w.sa, key, bytes, true) && MaySample(w, c)
    requires !Late((w.now - w.sa.startedAt) / 1000, c.pollMs)
    ensures Enabled(w, Sample([key]), c) && Charged(w, [key], c) == bytes
  {
    assert Visible(w.sa.children) == w.sa.children;
    assert Enabled(w, Sample([key]), c);
    var children := Report(w, [key]).children;
    assert |children| == 1 && children[0] == Child(key, bytes);
    assert TotalBytes(children[..0]) == NO_FLOW;
    assert TotalBytes(children) == NO_FLOW.Plus(bytes);
  }

  /** A first CHILD carries `bytes` and is sampled at once. */
  lemma FirstSample(key: Spis, bytes: Flow, c: Schedule) returns (steps: seq<Step>)
    ensures var w := FirstWorld();
            && Run(w, steps, c) && NoReturn(w, steps, c)
            && var end := End(w, steps, c);
               && OneChild(end.sa, key, bytes, true) && end.sa.billed == end.sa.carried == bytes &&
                 end.sa.forgotten == {}
               && end.now == end.sa.startedAt == 0 && end.purgedAt.None? && end.past == [] && Sampled(end) &&
                 end.row.value.lastSeen == 0
  {
    var w0 := FirstWorld();
    var w1 := Apply(w0, Rekey(key), c);
    var w2 := Apply(w1, Traffic(key, bytes), c);
    SampleWithoutRow(w2, key, bytes, c);
    SampleIsSampled(w2, [key], c);
    RunOne(w2, Sample([key]), c);
    RunOneMore(w1, Traffic(key, bytes), [Sample([key])], c);
    RunOneMore(w0, Rekey(key), [Traffic(key, bytes)] + [Sample([key])], c);
    steps := [Rekey(key)] + ([Traffic(key, bytes)] + [Sample([key])]);
  }

  lemma UnlistedOne(w: World, key: Spis, d: Direction)
    requires key in w.sa.children && Hidden(w.sa.children) == {key}
    ensures Sum(Unlisted(w, d)) == w.sa.children[key].counter.At(d)
  {
    forall k | k in w.sa.children ensures k in Hidden(w.sa.children) <==> k !in Visible(w.sa.children) {}
    SumUpdate<Spis>(map[], key, w.sa.children[key].counter.At(d));
    assert Unlisted(w, d) == map[key := w.sa.children[key].counter.At(d)];
  }

  /** Under every schedule: a CHILD hidden from one empty sample is billed twice when it returns. */
  lemma EmptySampleOverbills(key: Spis, bytes: Flow, c: Schedule) returns (steps: seq<Step>)
    requires bytes != NO_FLOW
    ensures Run(FirstWorld(), steps, c)
    ensures var sa := End(FirstWorld(), steps, c).sa; sa.carried == bytes && sa.billed == bytes.Plus(bytes)
  {
    steps := FirstSample(key, bytes, c);
    var w := End(FirstWorld(), steps, c);
    var hidden := Apply(w, Show(key, false), c);
    assert OneChild(hidden.sa, key, bytes, false);
    assert Visible(hidden.sa.children) == map[] && Hidden(hidden.sa.children) == {key};
    assert Enabled(hidden, Sample([]), c) && Forgets(hidden, []) && Charged(hidden, [], c) == NO_FLOW;
    var more := ForgetAndReturn(hidden, [], c);
    RunOneMore(w, Show(key, false), more, c);
    RunAppend(FirstWorld(), steps, [Show(key, false)] + more, c);
    steps := steps + ([Show(key, false)] + more);
    var end := End(FirstWorld(), steps, c);
    UnlistedOne(hidden, key, Up);
    UnlistedOne(hidden, key, Down);
    BothDirections(end.sa, bytes);
  }

  /** The row is purged at the earliest, and the least gap passes. */
  lemma PurgeSoon(w: World, c: Schedule) returns (steps: seq<Step>)
    requires w.row.Some? && w.row.value.lastSeen == w.now
    ensures Run(w, steps, c) && NoReturn(w, steps, c)
    ensures End(w, steps, c) ==
            w.(now := w.now + PURGE_MS + 1 + c.gap, row := None, purgedAt := Some(w.now + PURGE_MS + 1))
  {
    var w1 := Apply(w, Elapse(PURGE_MS + 1), c);
    var w2 := Apply(w1, Purge, c);
    RunOne(w2, Elapse(c.gap), c);
    RunOneMore(w1, Purge, [Elapse(c.gap)], c);
    RunOneMore(w, Elapse(PURGE_MS + 1), [Purge] + [Elapse(c.gap)], c);
    steps := [Elapse(PURGE_MS + 1)] + ([Purge] + [Elapse(c.gap)]);
  }

  lemma TotalOfOne(child: Child)
    ensures TotalBytes([child]) == child.bytes
  {
    assert [child][..0] == [];
    assert TotalBytes([child]) == TotalBytes([]).Plus(child.bytes);
  }

  /** Without a row a sample charges at most what it lists. */
  lemma ChargedWithoutRow(w: World, order: seq<Spis>, c: Schedule)
    requires Enabled(w, Sample(order), c) && w.row.None?
    ensures Charged(w, order, c).AtMost(Report(w, order).bytes)
  {
  }

  lemma TwoChildren(children: map<Spis, ChildSa>, key: Spis, other: Spis)
    requires key in children && other in children && forall k :: k in children ==> k == key || k == other
    requires !children[key].visible && children[other].visible
    ensures Hidden(children) == {key} && Visible(children).Keys == {other}
  {
  }

  /** A sample that lists one CHILD reports its bytes. */
  lemma ListsOne(w: World, key: Spis, c: Schedule)
    requires Visible(w.sa.children).Keys == {key} && MaySample(w, c)
    ensures Enabled(w, Sample([key]), c) && Report(w, [key]).bytes == w.sa.children[key].counter
  {
    assert key in Visible(w.sa.children);
    forall k ensures k in [key] <==> k in Visible(w.sa.children).Keys {}
    var children := Report(w, [key]).children;
    TotalOfOne(Child(key, w.sa.children[key].counter));
    assert children == [Child(key, w.sa.children[key].counter)];
  }

  /** Only the CHILD that has counted nothing is listed, so the sample charges nothing. */
  lemma ListsOther(w: World, key: Spis, other: Spis, c: Schedule)
    requires key in w.sa.children && other in w.sa.children && forall k :: k in w.sa.children ==> k == key || k == other
    requires !w.sa.children[key].visible && w.sa.children[other] == ChildSa(NO_FLOW, true) && w.row.None? &&
             MaySample(w, c)
    ensures Enabled(w, Sample([other]), c) && Charged(w, [other], c) == NO_FLOW && Hidden(w.sa.children) == {key}
  {
    TwoChildren(w.sa.children, key, other);
    ListsOne(w, other, c);
    ChargedWithoutRow(w, [other], c);
  }

  /** A second CHILD comes up and the first one hides. */
  lemma OtherComesUp(w: World, key: Spis, other: Spis, bytes: Flow, c: Schedule) returns (steps: seq<Step>)
    requires key != other && OneChild(w.sa, key, bytes, true) && w.sa.forgotten == {}
    ensures Run(w, steps, c) && NoReturn(w, steps, c)
    ensures End(w, steps, c) ==
            w.(sa := w.sa.(children := map[key := ChildSa(bytes, false), other := ChildSa(NO_FLOW, true)]))
  {
    var w1 := Apply(w, Rekey(other), c);
    RunOne(w1, Show(key, false), c);
    RunOneMore(w, Rekey(other), [Show(key, false)], c);
    steps := [Rekey(other)] + [Show(key, false)];
    assert End(w, steps, c).sa.children == map[key := ChildSa(bytes, false), other := ChildSa(NO_FLOW, true)];
  }

  /**
   * Under every schedule: a CHILD that is hidden from the first sample after a purge, while another is
   * listed, is billed twice when it returns.
   */
  lemma PurgeOverbills(key: Spis, other: Spis, bytes: Flow, c: Schedule) returns (steps: seq<Step>)
    requires bytes != NO_FLOW && key != other
    ensures Run(FirstWorld(), steps, c)
    ensures var sa := End(FirstWorld(), steps, c).sa; sa.carried == bytes && sa.billed == bytes.Plus(bytes)
  {
    var first := FirstSample(key, bytes, c);
    var w := End(FirstWorld(), first, c);
    var second := OtherComesUp(w, key, other, bytes, c);
    var w' := End(w, second, c);
    var third := PurgeSoon(w', c);
    var w'' := End(w', third, c);
    ListsOther(w'', key, other, c);
    var last := ForgetAndReturn(w'', [other], c);
    UnlistedOne(w'', key, Up);
    UnlistedOne(w'', key, Down);
    RunAppend(w', third, last, c);
    RunAppend(w, second, third + last, c);
    RunAppend(FirstWorld(), first, second + (third + last), c);
    steps := first + (second + (third + last));
    BothDirections(End(FirstWorld(), steps, c).sa, bytes);
  }

  lemma BothDirections(sa: Sa, bytes: Flow)
    requires sa.billed.At(Up) == bytes.up + bytes.up && sa.billed.At(Down) == bytes.down + bytes.down
    ensures sa.billed == bytes.Plus(bytes)
  {
  }

  /** A schedule under which a purged SA is not recognised as late bills it twice, with no return at all. */
  lemma HastyScheduleOverbills(key: Spis, bytes: Flow, c: Schedule) returns (steps: seq<Step>)
    requires !SafeSchedule(c)
    ensures Run(FirstWorld(), steps, c) && NoReturn(FirstWorld(), steps, c)
    ensures var sa := End(FirstWorld(), steps, c).sa; sa.carried == bytes && sa.billed == bytes.Plus(bytes)
  {
    var first := FirstSample(key, bytes, c);
    var w := End(FirstWorld(), first, c);
    var second := PurgeSoon(w, c);
    var w' := End(w, second, c);
    SampleWithoutRow(w', key, bytes, c);
    RunOne(w', Sample([key]), c);
    RunAppend(w, second, [Sample([key])], c);
    RunAppend(FirstWorld(), first, second + [Sample([key])], c);
    steps := first + (second + [Sample([key])]);
  }

  // ---------- Which runs are honest ----------

  /** No SA is ever overbilled; `returning` says whether forgotten CHILDs may come back. */
  ghost predicate Safe(c: Schedule, returning: bool) {
    forall w: World, steps: seq<Step> ::
      Initial(w) && Run(w, steps, c) && (returning || NoReturn(w, steps, c)) ==> Honest(End(w, steps, c).sa)
  }

  /**
   * All runs are honest if and only if forgotten CHILDs stay away and the schedule recognises every purged SA as
   * late.
   */
  lemma SafeExactly(c: Schedule, returning: bool)
    ensures Safe(c, returning) <==> !returning && SafeSchedule(c)
  {
    var key, bytes := Spis("", ""), Flow(100, 0);
    assert Initial(FirstWorld());
    if returning {
      var steps := EmptySampleOverbills(key, bytes, c);
    } else if !SafeSchedule(c) {
      var steps := HastyScheduleOverbills(key, bytes, c);
    } else {
      forall w: World, steps: seq<Step> | Initial(w) && Run(w, steps, c) && NoReturn(w, steps, c)
        ensures Honest(End(w, steps, c).sa)
      {
        NeverOverbilled(w, steps, c);
      }
    }
  }

  /**
   * A sample may follow a purge at once, after a restart or an overlong tick: then 299 s is the longest safe
   * interval.
   */
  lemma SafeWithoutGap(pollMs: nat)
    ensures SafeSchedule(Schedule(pollMs, 0)) <==> pollMs <= 299000
  {
  }

  /**
   * Ticks start an interval apart and end with the purge: with ticks that take `duration`, the next samples
   * come the rest of the interval after it. Then this is exactly what the schedule needs.
   */
  lemma SafeOnTime(pollMs: nat, duration: nat)
    requires duration <= pollMs
    ensures SafeSchedule(Schedule(pollMs, pollMs - duration)) <==>
            2000 * ((pollMs + 999) / 1000) + duration <= 599001 + pollMs
    ensures pollMs % 1000 == 0 ==> (SafeSchedule(Schedule(pollMs, pollMs - duration)) <==> pollMs + duration <= 599001)
  {
    var c := (pollMs + 999) / 1000;
    assert (PURGE_MS + 1 + pollMs - duration) / 1000 > 2 * c <==>
           PURGE_MS + 1 + pollMs - duration >= 1000 * (2 * c + 1);
  }
}
