/**
 * The other side of the bill: as long as no byte is lost, every byte that an SA carried is billed or still
 * owed, also when the id's stored row was left by another SA and when counters start again from zero.
 */
module SaAccounting {
  import opened Sums
  import opened IkeCounters
  import opened SaMetering
  import opened SaReturns

  /** Nothing of the counter is unbilled. */
  predicate SettledIn(counter: Flow, cursor: Flow, d: Direction) {
    counter.At(d) == 0 || counter.At(d) == cursor.At(d)
  }

  /** A counter that started again does not climb back over its cursor unseen. */
  predicate RecognisedIn(counter: Flow, bytes: Flow, cursor: Flow, d: Direction) {
    counter.At(d) >= cursor.At(d) || counter.At(d) + bytes.At(d) < cursor.At(d)
  }

  predicate Settled(counter: Flow, cursor: Flow) { SettledIn(counter, cursor, Up) && SettledIn(counter, cursor, Down) }

  predicate Recognised(counter: Flow, bytes: Flow, cursor: Flow) {
    RecognisedIn(counter, bytes, cursor, Up) && RecognisedIn(counter, bytes, cursor, Down)
  }

  /**
   * A step that loses no bytes: a CHILD restarts its counters or goes away only when they are billed, a restarted
   * counter stays recognisable, no row is purged, no sample forgets, and a sample without any row comes early
   * enough to be billed.
   */
  predicate Lossless(w: World, s: Step, c: Schedule) {
    match s
    case Rekey(_) => true
    case Traffic(key, bytes) =>
      key in w.sa.children ==> Recognised(w.sa.children[key].counter, bytes, Cursor(Known(w), key))
    case Restart(key) => key in w.sa.children ==> Settled(w.sa.children[key].counter, Cursor(Known(w), key))
    case Drop(key) => key in w.sa.children ==> Settled(w.sa.children[key].counter, Cursor(Known(w), key))
    case Show(_, _) => true
    case Elapse(_) => true
    case Sample(order) =>
      !Forgets(w, order) &&
        (w.row.None? && w.sa.startedAt <= w.now ==> !Late((w.now - w.sa.startedAt) / 1000, c.pollMs))
    case _ => false
  }

  predicate LosslessRun(w: World, steps: seq<Step>, c: Schedule)
    requires Run(w, steps, c)
    decreases |steps|
  {
    steps == [] || (Lossless(w, steps[0], c) && LosslessRun(Apply(w, steps[0], c), steps[1..], c))
  }

  /**
   * Billed and owed bytes are the carried ones. A row of this SA is one of its samples, and no cursor is beyond
   * what was billed.
   */
  ghost predicate Exact(w: World) {
    && (Continues(w) ==> Sampled(w))
    && (forall k :: k in Known(w) ==> Known(w)[k].AtMost(w.sa.billed))
    && forall d :: ExactIn(w, d)
  }

  ghost predicate ExactIn(w: World, d: Direction) {
    w.sa.billed.At(d) + Sum(Owed(Counters(w.sa.children), Known(w), d)) == w.sa.carried.At(d)
  }

  /** A sample bills each listed CHILD exactly for what it owes, whoever's row it finds. */
  lemma ExactCharge(w: World, order: seq<Spis>, c: Schedule)
    requires Enabled(w, Sample(order), c) && Lossless(w, Sample(order), c) && (Continues(w) ==> Sampled(w))
    ensures Charged(w, order, c) == Charge(Report(w, order).children, Known(w))
  {
    TotalIsFullCharge(Report(w, order).children);
  }

  /** What a sample does to the books. */
  lemma SampleBooks(w: World, order: seq<Spis>, c: Schedule, d: Direction)
    requires Enabled(w, Sample(order), c)
    ensures var w' := Apply(w, Sample(order), c);
            && w'.sa.billed.At(d) == w.sa.billed.At(d) + Charged(w, order, c).At(d)
            && w'.sa.carried == w.sa.carried && w'.sa.children == w.sa.children
  {
  }

  /** The cursors after the sample owe what is left of the debt. */
  lemma SampleLeaves(w: World, order: seq<Spis>, c: Schedule, d: Direction)
    requires Exact(w) && Enabled(w, Sample(order), c) && Lossless(w, Sample(order), c)
    ensures Sum(Owed(Counters(w.sa.children), Known(Apply(w, Sample(order), c)), d)) +
            Charge(Report(w, order).children, Known(w)).At(d) == Sum(Owed(Counters(w.sa.children), Known(w), d))
  {
    var counters := Counters(w.sa.children);
    SampleKnown(w, order, c);
    if order == [] {
      forall k ensures Cursor(Known(w), k) == NO_FLOW {}
      assert Owed(counters, map[], d) == Owed(counters, Known(w), d);
    } else {
      SampleReport(w, order, c);
      OwedDrops(counters, Known(w), Report(w, order).children, d);
    }
  }

  lemma SampleIsExact(w: World, order: seq<Spis>, c: Schedule, d: Direction)
    requires Exact(w) && Enabled(w, Sample(order), c) && Lossless(w, Sample(order), c)
    ensures ExactIn(Apply(w, Sample(order), c), d)
  {
    assert ExactIn(w, d);
    ExactCharge(w, order, c);
    SampleBooks(w, order, c, d);
    SampleLeaves(w, order, c, d);
  }

  lemma {:induction false} ChargeCovers(listed: seq<Child>, cursors: map<Spis, Flow>, i: nat)
    requires i < |listed|
    ensures FlowGrowth(listed[i].bytes, Cursor(cursors, listed[i].key)).AtMost(Charge(listed, cursors))
  {
    var n := |listed| - 1;
    if i < n {
      assert listed[..n][i] == listed[i];
      ChargeCovers(listed[..n], cursors, i);
    }
  }

  /** A cursor after some readings is at most the old bill and what the readings charge. */
  lemma OverlayWithin(cursors: map<Spis, Flow>, listed: seq<Child>, billed: Flow, k: Spis)
    requires forall j :: j in cursors ==> cursors[j].AtMost(billed)
    requires DistinctKeys(listed) && k in Overlay(cursors, listed)
    ensures Overlay(cursors, listed)[k].AtMost(billed.Plus(Charge(listed, cursors)))
  {
    OverlayAt(cursors, listed, k);
    if i :| 0 <= i < |listed| && listed[i].key == k {
      ChargeCovers(listed, cursors, i);
      assert Cursor(cursors, k).AtMost(billed);
    }
  }

  /** No cursor gets ahead of the bill. */
  lemma SampleKeepsCursors(w: World, order: seq<Spis>, c: Schedule)
    requires Exact(w) && Enabled(w, Sample(order), c) && Lossless(w, Sample(order), c)
    ensures var w' := Apply(w, Sample(order), c);
            forall k :: k in Known(w') ==> Known(w')[k].AtMost(w'.sa.billed)
  {
    var w', listed := Apply(w, Sample(order), c), Report(w, order).children;
    SampleKnown(w, order, c);
    SampleReport(w, order, c);
    ExactCharge(w, order, c);
    assert w'.sa.billed == w.sa.billed.Plus(Charge(listed, Known(w)));
    if order != [] {
      forall k | k in Known(w')
        ensures Known(w')[k].AtMost(w'.sa.billed)
      {
        OverlayWithin(Known(w), listed, w.sa.billed, k);
      }
    }
  }

  /** Traffic keeps the books exact if and only if a restarted counter stays recognisable. */
  lemma TrafficExactly(w: World, key: Spis, bytes: Flow, c: Schedule, d: Direction)
    requires ExactIn(w, d) && key in w.sa.children
    ensures ExactIn(Apply(w, Traffic(key, bytes), c), d) <==>
            RecognisedIn(w.sa.children[key].counter, bytes, Cursor(Known(w), key), d)
  {
    var counters := Counters(w.sa.children);
    TrafficCounts(w, key, bytes, c);
    OwedWithCounter(counters, Known(w), key, counters[key].Plus(bytes), d);
  }

  lemma OwedFresh(counters: map<Spis, Flow>, cursors: map<Spis, Flow>, key: Spis, d: Direction)
    requires key !in counters
    ensures Sum(Owed(counters[key := NO_FLOW], cursors, d)) == Sum(Owed(counters, cursors, d))
  {
    SumUpdate(Owed(counters, cursors, d), key, 0);
    assert Owed(counters[key := NO_FLOW], cursors, d) == Owed(counters, cursors, d)[key := 0];
  }

  /** A new CHILD, also one under the name of an earlier one. */
  lemma RekeyIsExact(w: World, key: Spis, c: Schedule, d: Direction)
    requires ExactIn(w, d) && key !in w.sa.children
    ensures ExactIn(Apply(w, Rekey(key), c), d)
  {
    var w' := Apply(w, Rekey(key), c);
    assert Counters(w'.sa.children) == Counters(w.sa.children)[key := NO_FLOW] && Known(w') == Known(w);
    OwedFresh(Counters(w.sa.children), Known(w), key, d);
  }

  /** A restart keeps them exact if and only if the counter was settled. */
  lemma RestartExactly(w: World, key: Spis, c: Schedule, d: Direction)
    requires ExactIn(w, d) && key in w.sa.children
    ensures ExactIn(Apply(w, Restart(key), c), d) <==>
            SettledIn(w.sa.children[key].counter, Cursor(Known(w), key), d)
  {
    var w' := Apply(w, Restart(key), c);
    assert Counters(w'.sa.children) == Counters(w.sa.children)[key := NO_FLOW] && Known(w') == Known(w);
    OwedWithCounter(Counters(w.sa.children), Known(w), key, NO_FLOW, d);
  }

  lemma OwedWithout(counters: map<Spis, Flow>, cursors: map<Spis, Flow>, key: Spis, d: Direction)
    requires key in counters
    ensures Sum(Owed(counters - {key}, cursors, d)) + Growth(counters[key].At(d), Cursor(cursors, key).At(d)) ==
            Sum(Owed(counters, cursors, d))
  {
    SumSplit(Owed(counters, cursors, d), key);
    assert Owed(counters - {key}, cursors, d) == Owed(counters, cursors, d) - {key};
  }

  /** So does a CHILD that goes away. */
  lemma DropExactly(w: World, key: Spis, c: Schedule, d: Direction)
    requires ExactIn(w, d) && key in w.sa.children
    ensures ExactIn(Apply(w, Drop(key), c), d) <==> SettledIn(w.sa.children[key].counter, Cursor(Known(w), key), d)
  {
    var w' := Apply(w, Drop(key), c);
    assert Counters(w'.sa.children) == Counters(w.sa.children) - {key} && Known(w') == Known(w);
    OwedWithout(Counters(w.sa.children), Known(w), key, d);
  }

  /** Steps that touch neither counters nor books. */
  lemma QuietIsExact(w: World, w': World)
    requires Exact(w) && Counters(w'.sa.children) == Counters(w.sa.children) && w'.row == w.row
    requires w'.sa.user == w.sa.user && w'.sa.identity == w.sa.identity
    requires w'.sa.billed == w.sa.billed && w'.sa.carried == w.sa.carried
    ensures Exact(w')
  {
    assert Known(w') == Known(w);
    forall d ensures ExactIn(w', d) { assert ExactIn(w, d); }
  }

  /** Steps other than samples leave the row and the bill. */
  lemma OthersKeepCursors(w: World, s: Step, c: Schedule)
    requires Exact(w) && Enabled(w, s, c) && (s.Rekey? || s.Traffic? || s.Restart? || s.Drop?)
    ensures var w' := Apply(w, s, c);
            (Continues(w') ==> Sampled(w')) && forall k :: k in Known(w') ==> Known(w')[k].AtMost(w'.sa.billed)
  {
    assert Known(Apply(w, s, c)) == Known(w);
  }

  lemma StepIsExact(w: World, s: Step, c: Schedule)
    requires Exact(w) && Enabled(w, s, c) && Lossless(w, s, c)
    ensures Exact(Apply(w, s, c))
  {
    if s.Sample? {
      SampleIsSampled(w, s.order, c);
      SampleKeepsCursors(w, s.order, c);
      forall d ensures ExactIn(Apply(w, s, c), d) { SampleIsExact(w, s.order, c, d); }
    } else if s.Show? || s.Elapse? {
      QuietIsExact(w, Apply(w, s, c));
    } else {
      OthersKeepCursors(w, s, c);
      forall d ensures ExactIn(Apply(w, s, c), d) { BooksStayExact(w, s, c, d); }
    }
  }

  lemma BooksStayExact(w: World, s: Step, c: Schedule, d: Direction)
    requires ExactIn(w, d) && Enabled(w, s, c) && Lossless(w, s, c)
    requires s.Rekey? || s.Traffic? || s.Restart? || s.Drop?
    ensures ExactIn(Apply(w, s, c), d)
  {
    if s.Rekey? {
      RekeyIsExact(w, s.key, c, d);
    } else if s.Traffic? {
      TrafficExactly(w, s.key, s.bytes, c, d);
    } else if s.Restart? {
      RestartExactly(w, s.key, c, d);
    } else {
      DropExactly(w, s.key, c, d);
    }
  }

  lemma {:induction false} RunIsExact(w: World, steps: seq<Step>, c: Schedule)
    requires Exact(w) && Run(w, steps, c) && LosslessRun(w, steps, c)
    ensures Exact(End(w, steps, c))
    decreases |steps|
  {
    if steps != [] {
      StepIsExact(w, steps[0], c);
      RunIsExact(Apply(w, steps[0], c), steps[1..], c);
    }
  }

  /**
   * An SA that connects under an id without a row, or with the row of another SA or another account: whatever
   * happens without a loss, billed and owed bytes together are the bytes it carried.
   */
  lemma EveryByteIsBilled(w: World, steps: seq<Step>, c: Schedule)
    requires Initial(w) && !Continues(w) && Run(w, steps, c) && LosslessRun(w, steps, c)
    ensures var end := End(w, steps, c);
            forall d: Direction ::
              end.sa.billed.At(d) + Sum(Owed(Counters(end.sa.children), Known(end), d)) == end.sa.carried.At(d)
  {
    forall d ensures ExactIn(w, d) {
      SumOfZeros(Owed(Counters(w.sa.children), Known(w), d));
    }
    RunIsExact(w, steps, c);
    forall d: Direction
      ensures var end := End(w, steps, c);
              end.sa.billed.At(d) + Sum(Owed(Counters(end.sa.children), Known(end), d)) == end.sa.carried.At(d)
    {
      assert ExactIn(End(w, steps, c), d);
    }
  }

  /** A sample that lists every CHILD settles the bill: everything carried is billed. */
  lemma FullSampleSettles(w: World, steps: seq<Step>, order: seq<Spis>, c: Schedule)
    requires Initial(w) && !Continues(w) && Run(w, steps, c) && LosslessRun(w, steps, c)
    requires var end := End(w, steps, c);
             && Enabled(end, Sample(order), c) && Lossless(end, Sample(order), c)
             && order != [] && Visible(end.sa.children) == end.sa.children
    ensures Apply(End(w, steps, c), Sample(order), c).sa.billed == End(w, steps, c).sa.carried
  {
    var end := End(w, steps, c);
    var after := Apply(end, Sample(order), c);
    forall d ensures ExactIn(w, d) {
      SumOfZeros(Owed(Counters(w.sa.children), Known(w), d));
    }
    RunIsExact(w, steps, c);
    StepIsExact(end, Sample(order), c);
    SampleKnown(end, order, c);
    forall d: Direction ensures after.sa.billed.At(d) == after.sa.carried.At(d) {
      assert ExactIn(after, d);
      ListedOweNothing(end, order, Known(end), c, d);
    }
    assert after.sa.billed.At(Up) == after.sa.carried.At(Up) && after.sa.billed.At(Down) == after.sa.carried.At(Down);
  }
}
