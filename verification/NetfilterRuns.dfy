/** Runs of the WARP router's firewall commands, cut short anywhere, beside foreign edits of the same chains. */
module NetfilterRuns {
  import opened Sums
  import opened WarpPolicy
  import opened WarpEgress
  import opened Netfilter

  // ---------- The guard rules stay a prefix of their installation ----------

  predicate Omits(p: Line -> bool) { !p(REJECT) && !p(ACCEPT80) && !p(ACCEPT443) }

  lemma TopDownHas(m: nat, j: nat)
    requires m <= 3 && j < 3
    ensures INSTALL[j] in TopDown(m) <==> j < m
  {
    if m > 0 {
      if m - 1 > 0 { assert TopDown(m - 1) == [INSTALL[m - 2]] + TopDown(m - 2); }
    }
  }

  lemma {:induction false} WithoutAbsent(lines: seq<Line>, x: Line)
    requires x !in lines
    ensures Without(lines, x) == lines
  {
    if lines != [] { WithoutAbsent(lines[1..], x); }
  }

  // ---------- One pass over a staged chain ----------

  /** The stage that k obeyed installation steps lead to. */
  function StageUp(n: nat, k: nat): nat { if n < k then k else n }

  /** The stage after k removal steps, when refusals leave a stage at all. */
  function StageDown(n: nat, k: nat, refused: set<nat>): nat
    requires k <= 3
  {
    if k == 0 then n else
      var m := StageDown(n, k - 1, refused);
      if k - 1 in refused || m < 3 - k then m else 3 - k
  }

  /** No check fails for a rule that is there. */
  predicate OrderlyUp(n: nat, k: nat, deaf: set<nat>) {
    forall j :: 0 <= j < k && j in deaf ==> n <= j
  }

  /** Once the deletion of a present rule is refused, every later deletion of the pass is refused too. */
  predicate OrderlyDown(n: nat, k: nat, refused: set<nat>) {
    forall i, j :: 0 <= i < j < k && i in refused && j !in refused ==> n <= 2 - i
  }

  /** A pass touches no rule that is not the guard's, whatever fails. */
  lemma {:induction false} PassesOmit(lines: seq<Line>, k: nat, failing: set<nat>, p: Line -> bool)
    requires k <= 3 && Omits(p)
    ensures Keep(Guarded(lines, k, failing), p) == Keep(lines, p)
    ensures Keep(Unguarded(lines, k, failing), p) == Keep(lines, p)
  {
    if k > 0 {
      PassesOmit(lines, k - 1, failing, p);
      KeepFront(INSTALL[k - 1], Guarded(lines, k - 1, failing), p);
      KeepWithout(Unguarded(lines, k - 1, failing), INSTALL[3 - k], p);
    }
  }

  /** Installing k rules over n present ones leaves the larger prefix. */
  lemma {:induction false} InstallStages(lines: seq<Line>, n: nat, k: nat, deaf: set<nat>)
    requires Staged(lines, n) && k <= 3 && OrderlyUp(n, k, deaf)
    ensures Staged(Guarded(lines, k, deaf), StageUp(n, k))
  {
    if k > 0 {
      var before, x := Guarded(lines, k - 1, deaf), INSTALL[k - 1];
      InstallStages(lines, n, k - 1, deaf);
      KeepShorter(before, IsGuard);
      TopDownHas(StageUp(n, k - 1), k - 1);
      KeepFront(x, before, IsGuard);
    }
  }

  /** The top rule of stage m goes, and any other rule of the stage is absent from the smaller ones. */
  lemma TopDownWithout(m: nat, j: nat)
    requires m <= j + 1 <= 3
    ensures Without(TopDown(m), INSTALL[j]) == TopDown(if m < j then m else j)
  {
    TopDownHas(m, j);
    if m == j + 1 { assert TopDown(m)[1..] == TopDown(j); } else { WithoutAbsent(TopDown(m), INSTALL[j]); }
  }

  lemma StageDownBound(n: nat, k: nat, refused: set<nat>)
    requires n <= 3 && 0 < k <= 3 && OrderlyDown(n, k, refused) && k - 1 !in refused
    ensures StageDown(n, k - 1, refused) <= 4 - k
  {
    if k > 1 && k - 2 in refused { StageDownFalls(n, k - 1, refused); }
  }

  lemma {:induction false} StageDownFalls(n: nat, k: nat, refused: set<nat>)
    requires k <= 3
    ensures StageDown(n, k, refused) <= n
  {
    if k > 0 { StageDownFalls(n, k - 1, refused); }
  }

  /** An orderly removal leaves an earlier stage. */
  lemma {:induction false} RemovalStages(lines: seq<Line>, n: nat, k: nat, refused: set<nat>)
    requires Staged(lines, n) && k <= 3 && OrderlyDown(n, k, refused)
    ensures Staged(Unguarded(lines, k, refused), StageDown(n, k, refused))
  {
    if k > 0 {
      RemovalStages(lines, n, k - 1, refused);
      StageDownFalls(n, k - 1, refused);
      if k - 1 !in refused {
        StageDownBound(n, k, refused);
        KeepWithout(Unguarded(lines, k - 1, refused), INSTALL[3 - k], IsGuard);
        TopDownWithout(StageDown(n, k - 1, refused), 3 - k);
      }
    }
  }

  // ---------- Nothing else leaves a stage ----------

  function Count(lines: seq<Line>, x: Line): nat { multiset(lines)[x] }

  lemma {:induction false} KeepCounts(lines: seq<Line>, p: Line -> bool, x: Line)
    requires p(x)
    ensures Count(Keep(lines, p), x) == Count(lines, x)
  {
    if lines != [] {
      KeepCounts(lines[..|lines| - 1], p, x);
      assert lines == lines[..|lines| - 1] + [lines[|lines| - 1]];
    }
  }

  lemma FrontCounts(x: Line, lines: seq<Line>, y: Line)
    ensures Count([x] + lines, y) == Count(lines, y) + if x == y then 1 else 0
  {
  }

  lemma {:induction false} TopDownCounts(m: nat, j: nat)
    requires m <= 3 && j < 3
    ensures Count(TopDown(m), INSTALL[j]) == if j < m then 1 else 0
  {
    if m > 0 {
      TopDownCounts(m - 1, j);
      FrontCounts(INSTALL[m - 1], TopDown(m - 1), INSTALL[j]);
    }
  }

  lemma StagedCounts(lines: seq<Line>, n: nat, j: nat)
    requires Staged(lines, n) && j < 3
    ensures Count(lines, INSTALL[j]) == if j < n then 1 else 0
  {
    KeepCounts(lines, IsGuard, INSTALL[j]);
    TopDownCounts(n, j);
  }

  lemma {:induction false} WithoutCounts(lines: seq<Line>, x: Line, y: Line)
    ensures Count(Without(lines, x), y) ==
            if x == y && Count(lines, x) > 0 then Count(lines, x) - 1 else Count(lines, y)
  {
    if lines != [] {
      assert lines == [lines[0]] + lines[1..];
      if lines[0] != x { WithoutCounts(lines[1..], x, y); }
    }
  }

  /** A check that fails for a rule that is there puts it in twice. */
  lemma {:induction false} GuardedCounts(lines: seq<Line>, k: nat, deaf: set<nat>, j: nat)
    requires k <= 3 && j < 3
    ensures Count(Guarded(lines, k, deaf), INSTALL[j]) >= Count(lines, INSTALL[j]) + if j < k && j in deaf then 1 else 0
  {
    if k > 0 {
      GuardedCounts(lines, k - 1, deaf, j);
      var before, x := Guarded(lines, k - 1, deaf), INSTALL[k - 1];
      assert Count([x] + before, INSTALL[j]) == Count(before, INSTALL[j]) + if j == k - 1 then 1 else 0;
    }
  }

  /** A removal deletes the rule of installation step j. */
  predicate Deletes(k: nat, refused: set<nat>, j: nat) { 2 - j < k && 2 - j !in refused }

  lemma InstallDistinct(i: nat, j: nat)
    requires i < 3 && j < 3
    ensures INSTALL[i] == INSTALL[j] <==> i == j
  {
  }

  /** A removal takes one copy of each rule whose step it reached and the kernel obeyed. */
  lemma {:induction false} UnguardedCounts(lines: seq<Line>, k: nat, refused: set<nat>, j: nat)
    requires k <= 3 && j < 3
    ensures var c := Count(lines, INSTALL[j]);
            Count(Unguarded(lines, k, refused), INSTALL[j]) == if Deletes(k, refused, j) && c > 0 then c - 1 else c
  {
    if k > 0 {
      UnguardedCounts(lines, k - 1, refused, j);
      InstallDistinct(3 - k, j);
      WithoutCounts(Unguarded(lines, k - 1, refused), INSTALL[3 - k], INSTALL[j]);
    }
  }

  /** The guard rules present are some prefix of the installation. */
  ghost predicate HasStage(lines: seq<Line>) { exists m :: Staged(lines, m) }

  /** From a stage an installation leads to a stage exactly when it is orderly. */
  lemma {:induction false} InstallStagesExactly(lines: seq<Line>, n: nat, k: nat, deaf: set<nat>)
    requires Staged(lines, n) && k <= 3
    ensures HasStage(Guarded(lines, k, deaf)) <==> OrderlyUp(n, k, deaf)
  {
    if OrderlyUp(n, k, deaf) {
      InstallStages(lines, n, k, deaf);
    } else if m :| Staged(Guarded(lines, k, deaf), m) {
      var j :| 0 <= j < k && j in deaf && j < n;
      StagedCounts(lines, n, j);
      GuardedCounts(lines, k, deaf, j);
      StagedCounts(Guarded(lines, k, deaf), m, j);
    }
  }

  /** A rule above a deleted one stayed: that is no stage. */
  lemma GapIsNoStage(lines: seq<Line>, n: nat, k: nat, refused: set<nat>, low: nat, high: nat, m: nat)
    requires Staged(lines, n) && k <= 3 && low < high < n
    requires Deletes(k, refused, low) && !Deletes(k, refused, high)
    ensures !Staged(Unguarded(lines, k, refused), m)
  {
    if Staged(Unguarded(lines, k, refused), m) {
      StagedCounts(lines, n, low);
      StagedCounts(lines, n, high);
      UnguardedCounts(lines, k, refused, low);
      UnguardedCounts(lines, k, refused, high);
      StagedCounts(Unguarded(lines, k, refused), m, low);
      StagedCounts(Unguarded(lines, k, refused), m, high);
    }
  }

  /** So does a removal. */
  lemma {:induction false} RemovalStagesExactly(lines: seq<Line>, n: nat, k: nat, refused: set<nat>)
    requires Staged(lines, n) && k <= 3
    ensures HasStage(Unguarded(lines, k, refused)) <==> OrderlyDown(n, k, refused)
  {
    if OrderlyDown(n, k, refused) {
      RemovalStages(lines, n, k, refused);
    } else {
      var i, j :| 0 <= i < j < k && i in refused && j !in refused && 2 - i < n;
      forall m: nat
        ensures !Staged(Unguarded(lines, k, refused), m)
      {
        GapIsNoStage(lines, n, k, refused, 2 - j, 2 - i, m);
      }
    }
  }

  // ---------- Runs ----------

  /**
   * What the component and its neighbours do: a guard pass or a cleanup cut short anywhere, some of its
   * commands failing unseen, rules put on top, and edits by others that leave this component's rules alone.
   */
  datatype Event =
    | GuardUp(done: nat, deaf: set<nat>)
    | GuardDown(done: nat, refused: set<nat>)
    | Clean(filter: nat, nat_: nat, inFilter: set<nat>, inNat: set<nat>)
    | Push(rules: seq<FirewallRule>)
    | Undo(rules: seq<FirewallRule>, done: nat, refused: set<nat>)
    | Edit(lines: seq<Line>)

  predicate Ours(l: Line) { IsManaged(l) || IsGuard(l) }

  function Capped(k: nat, most: nat): nat { if k <= most then k else most }

  function Apply(lines: seq<Line>, e: Event): seq<Line> {
    match e
    case GuardUp(k, deaf) => Guarded(lines, Capped(k, 3), deaf)
    case GuardDown(k, refused) => Unguarded(lines, Capped(k, 3), refused)
    case Clean(i, j, inFilter, inNat) => Cleaned(lines, i, j, inFilter, inNat)
    case Push(rules) => Stack(rules, lines)
    case Undo(rules, k, refused) => Undone(lines, rules, Capped(k, |rules|), refused)
    case Edit(other) => if Keep(other, Ours) == Keep(lines, Ours) then other else lines
  }

  function Run(lines: seq<Line>, events: seq<Event>): seq<Line> {
    if events == [] then lines else Apply(Run(lines, events[..|events| - 1]), events[|events| - 1])
  }

  function Stage(n: nat, e: Event): nat {
    match e
    case GuardUp(k, _) => StageUp(n, Capped(k, 3))
    case GuardDown(k, refused) => StageDown(n, Capped(k, 3), refused)
    case _ => n
  }

  function StageAfter(n: nat, events: seq<Event>): nat {
    if events == [] then n else Stage(StageAfter(n, events[..|events| - 1]), events[|events| - 1])
  }

  predicate Orderly(n: nat, e: Event) {
    match e
    case GuardUp(k, deaf) => OrderlyUp(n, Capped(k, 3), deaf)
    case GuardDown(k, refused) => OrderlyDown(n, Capped(k, 3), refused)
    case _ => true
  }

  predicate OrderlyRun(n: nat, events: seq<Event>) {
    events == [] ||
    (OrderlyRun(n, events[..|events| - 1]) && Orderly(StageAfter(n, events[..|events| - 1]), events[|events| - 1]))
  }

  lemma CleanedKeeps(lines: seq<Line>, i: nat, j: nat, inFilter: set<nat>, inNat: set<nat>, p: Line -> bool)
    requires forall l :: p(l) ==> Unmanaged(l)
    ensures Keep(Cleaned(lines, i, j, inFilter, inNat), p) == Keep(lines, p)
  {
    KeepTwice(lines, Unmanaged, p, p);
    KeepTwice(Cleaned(lines, i, j, inFilter, inNat), Unmanaged, p, p);
    if i < |lines| {
      SweptUnmanaged(lines, Filter, i, inFilter);
    } else {
      var half := Swept(lines, Filter, |lines|, inFilter);
      SweptUnmanaged(lines, Filter, |lines|, inFilter);
      SweptUnmanaged(half, Nat, if j < |half| then j else |half|, inNat);
    }
  }

  /** One event leads from a stage to a stage exactly when it is orderly. */
  lemma {:induction false} EventStagesExactly(lines: seq<Line>, n: nat, e: Event)
    requires Staged(lines, n)
    ensures HasStage(Apply(lines, e)) <==> Orderly(n, e)
    ensures Orderly(n, e) ==> Staged(Apply(lines, e), Stage(n, e))
  {
    match e {
      case GuardUp(k, deaf) =>
        InstallStagesExactly(lines, n, Capped(k, 3), deaf);
        if Orderly(n, e) { InstallStages(lines, n, Capped(k, 3), deaf); }
      case GuardDown(k, refused) =>
        RemovalStagesExactly(lines, n, Capped(k, 3), refused);
        if Orderly(n, e) { RemovalStages(lines, n, Capped(k, 3), refused); }
      case Clean(i, j, inFilter, inNat) =>
        CleanedKeeps(lines, i, j, inFilter, inNat, IsGuard);
        assert Staged(Apply(lines, e), n);
      case Push(rules) =>
        StackKeeps(rules, lines, IsGuard);
        assert Staged(Apply(lines, e), n);
      case Undo(rules, k, refused) =>
        UndoneKeeps(lines, rules, Capped(k, |rules|), refused, IsGuard);
        assert Staged(Apply(lines, e), n);
      case Edit(other) =>
        KeepTwice(other, Ours, IsGuard, IsGuard);
        KeepTwice(lines, Ours, IsGuard, IsGuard);
        assert Staged(Apply(lines, e), n);
    }
    assert Orderly(n, e) ==> Staged(Apply(lines, e), Stage(n, e));
  }

  /** A stage after every event of the run. */
  ghost predicate StagedThroughout(lines: seq<Line>, events: seq<Event>)
    decreases |events|
  {
    HasStage(Run(lines, events)) && (events == [] || StagedThroughout(lines, events[..|events| - 1]))
  }

  /**
   * Whatever is cut short or fails unseen, the guard rules present are a prefix of the installation
   * throughout a run if and only if every pass of the run is orderly.
   */
  lemma {:induction false} StagedExactly(lines: seq<Line>, n: nat, events: seq<Event>)
    requires Staged(lines, n)
    ensures StagedThroughout(lines, events) <==> OrderlyRun(n, events)
    ensures OrderlyRun(n, events) ==> Staged(Run(lines, events), StageAfter(n, events))
    decreases |events|
  {
    if events != [] {
      var before := events[..|events| - 1];
      StagedExactly(lines, n, before);
      if OrderlyRun(n, before) { EventStagesExactly(Run(lines, before), StageAfter(n, before), events[|events| - 1]); }
    }
    assert OrderlyRun(n, events) ==> Staged(Run(lines, events), StageAfter(n, events));
  }

  /**
   * After an orderly run, cut short anywhere, a full guard completes the installation, a full removal leaves
   * no guard rule, and a full cleanup leaves no redirection.
   */
  lemma {:induction false} CrashesRecover(lines: seq<Line>, n: nat, events: seq<Event>)
    requires Staged(lines, n) && OrderlyRun(n, events)
    ensures var now := Run(lines, events);
            Staged(now, StageAfter(n, events)) && Staged(Guarded(now, 3, {}), 3) && Staged(Unguarded(now, 3, {}), 0) &&
            Cleaned(now, |now|, |now|, {}, {}) == Keep(now, Unmanaged)
  {
    var now := Run(lines, events);
    StagedExactly(lines, n, events);
    InstallStages(now, StageAfter(n, events), 3, {});
    RemovalStages(now, StageAfter(n, events), 3, {});
    FullClean(now);
  }

  predicate NoEdits(events: seq<Event>) {
    forall i :: 0 <= i < |events| ==> !events[i].Edit?
  }

  /** The component never adds, drops or reorders a rule that is not its own, orderly or not. */
  lemma {:induction false} ForeignUntouched(lines: seq<Line>, events: seq<Event>)
    requires NoEdits(events)
    ensures Keep(Run(lines, events), IsForeign) == Keep(lines, IsForeign)
  {
    if events != [] {
      var before, e := Run(lines, events[..|events| - 1]), events[|events| - 1];
      ForeignUntouched(lines, events[..|events| - 1]);
      match e
      case GuardUp(k, deaf) => PassesOmit(before, Capped(k, 3), deaf, IsForeign);
      case GuardDown(k, refused) => PassesOmit(before, Capped(k, 3), refused, IsForeign);
      case Clean(i, j, inFilter, inNat) => CleanedKeeps(before, i, j, inFilter, inNat, IsForeign);
      case Push(rules) => StackKeeps(rules, before, IsForeign);
      case Undo(rules, k, refused) => UndoneKeeps(before, rules, Capped(k, |rules|), refused, IsForeign);
    }
  }

  // ---------- What a failed installation leaves ----------

  lemma {:induction false} UndoneKeeps(lines: seq<Line>, rules: seq<FirewallRule>, k: nat, refused: set<nat>,
                                       p: Line -> bool)
    requires k <= |rules| && forall r: FirewallRule :: !p(Marked(r))
    ensures Keep(Undone(lines, rules, k, refused), p) == Keep(lines, p)
  {
    if k > 0 {
      UndoneKeeps(lines, rules, k - 1, refused, p);
      KeepWithout(Undone(lines, rules, k - 1, refused), Marked(rules[|rules| - k]), p);
    }
  }

  /** The refused ones of k deletions. */
  function RefusedOf(k: nat, refused: set<nat>): nat {
    if k == 0 then 0 else RefusedOf(k - 1, refused) + if k - 1 in refused then 1 else 0
  }

  lemma {:induction false} NoneRefused(k: nat, refused: set<nat>)
    ensures RefusedOf(k, refused) == 0 <==> forall i :: 0 <= i < k ==> i !in refused
  {
    if k > 0 { NoneRefused(k - 1, refused); }
  }

  /** The first m rules are all in the chains, as often as they were inserted. */
  ghost predicate Present(lines: seq<Line>, rules: seq<FirewallRule>, m: nat)
    requires m <= |rules|
  {
    forall x :: Occurrences(rules, m, x) <= Count(lines, x)
  }

  function Occurrences(rules: seq<FirewallRule>, m: nat, x: Line): nat
    requires m <= |rules|
  {
    if m == 0 then 0 else Occurrences(rules, m - 1, x) + if Marked(rules[m - 1]) == x then 1 else 0
  }

  lemma PresentTop(lines: seq<Line>, rules: seq<FirewallRule>, m: nat)
    requires m < |rules| && Present(lines, rules, m + 1)
    ensures Marked(rules[m]) in lines && Present(lines, rules, m) && Present(Without(lines, Marked(rules[m])), rules, m)
  {
    var top := Marked(rules[m]);
    assert Occurrences(rules, m + 1, top) >= 1;
    forall x ensures Occurrences(rules, m, x) <= Count(lines, x) &&
      Occurrences(rules, m, x) <= Count(Without(lines, top), x) {
      assert Occurrences(rules, m + 1, x) <= Count(lines, x);
      WithoutCounts(lines, top, x);
    }
  }

  lemma {:induction false} StackPresent(rules: seq<FirewallRule>, m: nat, base: seq<Line>)
    requires m <= |rules|
    ensures forall x :: Occurrences(rules, m, x) <= Count(Stack(rules[..m], base), x)
  {
    if m > 0 {
      StackPresent(rules, m - 1, base);
      assert rules[..m][..m - 1] == rules[..m - 1];
      forall x ensures Occurrences(rules, m, x) <= Count(Stack(rules[..m], base), x) {
        FrontCounts(Marked(rules[m - 1]), Stack(rules[..m - 1], base), x);
      }
    }
  }

  /** An obeyed deletion takes one managed rule. */
  lemma UndoOne(lines: seq<Line>, x: Line)
    requires IsManaged(x) && x in lines
    ensures |Keep(Without(lines, x), IsManaged)| == |Keep(lines, IsManaged)| - 1
  {
    KeepWithout(lines, x, IsManaged);
    KeepShorter(lines, IsManaged);
    WithoutOne(Keep(lines, IsManaged), x);
  }

  /** Every rule that is still to be deleted is there. */
  lemma {:induction false} UndonePresent(lines: seq<Line>, rules: seq<FirewallRule>, k: nat, refused: set<nat>)
    requires k <= |rules| && Present(lines, rules, |rules|)
    ensures Present(Undone(lines, rules, k, refused), rules, |rules| - k)
  {
    if k > 0 {
      UndonePresent(lines, rules, k - 1, refused);
      PresentTop(Undone(lines, rules, k - 1, refused), rules, |rules| - k);
    }
  }

  /** One more deletion, obeyed or refused. */
  lemma UndoneStep(lines: seq<Line>, rules: seq<FirewallRule>, k: nat, refused: set<nat>)
    requires k < |rules| && Marked(rules[|rules| - k - 1]) in Undone(lines, rules, k, refused)
    ensures |Keep(Undone(lines, rules, k + 1, refused), IsManaged)| + 1 ==
            |Keep(Undone(lines, rules, k, refused), IsManaged)| + if k in refused then 1 else 0
  {
    UndoOne(Undone(lines, rules, k, refused), Marked(rules[|rules| - k - 1]));
  }

  lemma StillThere(lines: seq<Line>, rules: seq<FirewallRule>, k: nat, refused: set<nat>)
    requires k < |rules| && Present(lines, rules, |rules|)
    ensures Marked(rules[|rules| - k - 1]) in Undone(lines, rules, k, refused)
  {
    UndonePresent(lines, rules, k, refused);
    PresentTop(Undone(lines, rules, k, refused), rules, |rules| - k - 1);
  }

  /** Each obeyed deletion takes one managed rule. */
  lemma {:induction false} UndoneCounts(lines: seq<Line>, rules: seq<FirewallRule>, k: nat, refused: set<nat>)
    requires k <= |rules| && Present(lines, rules, |rules|)
    ensures |Keep(Undone(lines, rules, k, refused), IsManaged)| + k == |Keep(lines, IsManaged)| + RefusedOf(k, refused)
  {
    if k > 0 {
      UndoneCounts(lines, rules, k - 1, refused);
      StillThere(lines, rules, k - 1, refused);
      UndoneStep(lines, rules, k - 1, refused);
    }
  }

  lemma {:induction false} StackCounts(rules: seq<FirewallRule>, base: seq<Line>)
    ensures |Keep(Stack(rules, base), IsManaged)| == |rules| + |Keep(base, IsManaged)|
  {
    if rules != [] {
      var n := |rules| - 1;
      StackCounts(rules[..n], base);
      KeepFront(Marked(rules[n]), Stack(rules[..n], base), IsManaged);
    }
  }

  /**
   * The rules of a failed installation that stay: those never deleted, those whose deletion was refused, and a
   * stray one.
   */
  function Leftovers(rules: seq<FirewallRule>, fault: Fault): nat
    requires Strikes(rules, fault)
  {
    var n := Inserted(rules, fault);
    var k := Reached(n, fault);
    n - k + (if Strays(fault) then 1 else 0) + if fault.Raises? then RefusedOf(k, fault.refused) else 0
  }

  lemma AtFaultCounts(rules: seq<FirewallRule>, base: seq<Line>, fault: Fault)
    requires Strikes(rules, fault)
    ensures var n, lines := Inserted(rules, fault), AtFault(rules, base, fault);
            && |Keep(lines, IsManaged)| == n + (if Strays(fault) then 1 else 0) + |Keep(base, IsManaged)|
            && Keep(lines, Unmanaged) == Keep(base, Unmanaged)
  {
    var n := Inserted(rules, fault);
    StackCounts(rules[..n], base);
    StackKeeps(rules[..n], base, Unmanaged);
    if Strays(fault) {
      KeepFront(Marked(rules[n]), Stack(rules[..n], base), IsManaged);
      KeepFront(Marked(rules[n]), Stack(rules[..n], base), Unmanaged);
    } else {
      assert AtFault(rules, base, fault) == Stack(rules[..n], base);
    }
  }

  lemma AtFaultPresent(rules: seq<FirewallRule>, base: seq<Line>, fault: Fault)
    requires Strikes(rules, fault)
    ensures var n := Inserted(rules, fault); Present(AtFault(rules, base, fault), rules[..n], n)
  {
    var n := Inserted(rules, fault);
    assert rules[..n][..n] == rules[..n];
    StackPresent(rules[..n], n, base);
    if Strays(fault) {
      forall x ensures Occurrences(rules[..n], n, x) <= Count(AtFault(rules, base, fault), x) {
        FrontCounts(Marked(rules[n]), Stack(rules[..n], base), x);
      }
    } else {
      assert AtFault(rules, base, fault) == Stack(rules[..n], base);
    }
  }

  /** A failed installation adds exactly its leftovers to the managed rules, and touches no other rule. */
  lemma FailureLeavesExactly(rules: seq<FirewallRule>, base: seq<Line>, fault: Fault)
    requires Strikes(rules, fault)
    ensures |Keep(Failed(rules, base, fault), IsManaged)| == |Keep(base, IsManaged)| + Leftovers(rules, fault)
    ensures Keep(Failed(rules, base, fault), Unmanaged) == Keep(base, Unmanaged)
  {
    var n, lines := Inserted(rules, fault), AtFault(rules, base, fault);
    AtFaultCounts(rules, base, fault);
    AtFaultPresent(rules, base, fault);
    if fault.Raises? {
      UndoneCounts(lines, rules[..n], Reached(n, fault), fault.refused);
      UndoneKeeps(lines, rules[..n], Reached(n, fault), fault.refused, Unmanaged);
    }
  }

  /** Obeyed deletions take the rules off the top, down to what was there before. */
  lemma {:induction false} UndoneIsShorter(rules: seq<FirewallRule>, base: seq<Line>, k: nat, refused: set<nat>)
    requires k <= |rules| && forall i :: 0 <= i < k ==> i !in refused
    ensures Undone(Stack(rules, base), rules, k, refused) == Stack(rules[..|rules| - k], base)
  {
    if k == 0 {
      assert rules[..|rules|] == rules;
    } else {
      var m := |rules| - k;
      UndoneIsShorter(rules, base, k - 1, refused);
      assert rules[..m + 1][..m] == rules[..m];
    }
  }

  /**
   * An exception whose deletions are all reached restores the rules that were there before if and only if no
   * deletion was refused and no insertion took effect unseen.
   */
  lemma FailureIsUndoneExactly(rules: seq<FirewallRule>, base: seq<Line>, fault: Fault)
    requires Strikes(rules, fault) && fault.Raises? && fault.deletions >= Inserted(rules, fault)
    ensures Failed(rules, base, fault) == base <==>
            !Strays(fault) && forall i :: 0 <= i < Inserted(rules, fault) ==> i !in fault.refused
  {
    var n := Inserted(rules, fault);
    if !Strays(fault) && forall i :: 0 <= i < n ==> i !in fault.refused {
      UndoneIsShorter(rules[..n], base, n, fault.refused);
      assert AtFault(rules, base, fault) == Stack(rules[..n], base);
    } else {
      FailureLeavesExactly(rules, base, fault);
      NoneRefused(n, fault.refused);
    }
  }

  /** After a complete cleanup a failed installation leaves no managed rule under exactly the same condition. */
  lemma NoManagedLeftExactly(rules: seq<FirewallRule>, lines: seq<Line>, fault: Fault)
    requires Strikes(rules, fault) && fault.Raises? && fault.deletions >= Inserted(rules, fault)
    ensures var left := Failed(rules, Keep(lines, Unmanaged), fault);
            (forall l :: l in left ==> !IsManaged(l)) <==>
            !Strays(fault) && forall i :: 0 <= i < Inserted(rules, fault) ==> i !in fault.refused
  {
    var base, left := Keep(lines, Unmanaged), Failed(rules, Keep(lines, Unmanaged), fault);
    FailureLeavesExactly(rules, base, fault);
    KeepShorter(lines, Unmanaged);
    NoneRefused(Inserted(rules, fault), fault.refused);
    NoneKept(base);
    NoneKept(left);
  }

  lemma NoneKept(lines: seq<Line>)
    ensures |Keep(lines, IsManaged)| == 0 <==> forall l :: l in lines ==> !IsManaged(l)
  {
    KeepShorter(lines, IsManaged);
    if |Keep(lines, IsManaged)| > 0 { assert Keep(lines, IsManaged)[0] in Keep(lines, IsManaged); }
  }

  /** The input: one rule goes in, the journal fails, and the kernel refuses the one deletion. */
  lemma RefusedUndoLeavesRule(rule: FirewallRule, base: seq<Line>)
    ensures Failed([rule], base, Raises(1, false, 1, {0})) == [Marked(rule)] + base
  {
    var refused: set<nat> := {0};
    assert [rule][..1] == [rule] && [rule][..0] == [];
    assert AtFault([rule], base, Raises(1, false, 1, refused)) == Stack([rule], base);
    assert Undone(Stack([rule], base), [rule], 1, refused) == Undone(Stack([rule], base), [rule], 0, refused);
  }

  /** However an installation ended, the next complete cleanup leaves exactly the rules that are not managed. */
  lemma InstallationIsUndone(rules: seq<FirewallRule>, base: seq<Line>, fault: Fault)
    ensures var left := if Strikes(rules, fault) then Failed(rules, base, fault) else Stack(rules, base);
            Cleaned(left, |left|, |left|, {}, {}) == Keep(base, Unmanaged)
  {
    var left := if Strikes(rules, fault) then Failed(rules, base, fault) else Stack(rules, base);
    FullClean(left);
    if Strikes(rules, fault) { FailureLeavesExactly(rules, base, fault); } else { StackKeeps(rules, base, Unmanaged); }
  }

  // ---------- What a cleanup leaves ----------

  function Managed(t: Table): Line -> bool { (l: Line) => !Spared(t)(l) }

  /** The refused deletions among the first i lines. */
  function Refusals(lines: seq<Line>, t: Table, i: nat, refused: set<nat>): nat
    requires i <= |lines|
  {
    if i == 0 then 0 else
      Refusals(lines, t, i - 1, refused) + if !Spared(t)(lines[i - 1]) && i - 1 in refused then 1 else 0
  }

  /** A line that is still to be processed is still there, and each obeyed deletion takes one managed line. */
  lemma {:induction false} SweptCounts(lines: seq<Line>, t: Table, i: nat, refused: set<nat>)
    requires i <= |lines|
    ensures multiset(lines[i..]) <= multiset(Swept(lines, t, i, refused))
    ensures |Keep(Swept(lines, t, i, refused), Managed(t))| ==
            |Keep(lines[i..], Managed(t))| + Refusals(lines, t, i, refused)
  {
    if i == 0 {
      assert lines[0..] == lines;
    } else {
      var before, x := Swept(lines, t, i - 1, refused), lines[i - 1];
      SweptCounts(lines, t, i - 1, refused);
      assert lines[i - 1..] == [x] + lines[i..];
      KeepFront(x, lines[i..], Managed(t));
      if !Spared(t)(x) && i - 1 !in refused {
        assert x in multiset(lines[i - 1..]);
        WithoutOne(before, x);
        KeepWithout(before, x, Managed(t));
        KeepShorter(before, Managed(t));
        WithoutOne(Keep(before, Managed(t)), x);
      }
    }
  }

  lemma {:induction false} WithoutOne(lines: seq<Line>, x: Line)
    requires x in lines
    ensures multiset(Without(lines, x)) == multiset(lines) - multiset{x} && |Without(lines, x)| == |lines| - 1
  {
    assert lines == [lines[0]] + lines[1..];
    if lines[0] != x { WithoutOne(lines[1..], x); }
  }

  /** A complete sweep leaves as many managed rules of its table as the kernel refused deletions. */
  lemma SweepLeavesExactly(lines: seq<Line>, t: Table, refused: set<nat>)
    ensures |Keep(Swept(lines, t, |lines|, refused), Managed(t))| == Refusals(lines, t, |lines|, refused)
    ensures Refusals(lines, t, |lines|, refused) == 0 <==>
            forall i :: 0 <= i < |lines| && i in refused ==> Spared(t)(lines[i])
  {
    SweptCounts(lines, t, |lines|, refused);
    assert lines[|lines|..] == [];
    NoRefusals(lines, t, |lines|, refused);
  }

  lemma {:induction false} NoRefusals(lines: seq<Line>, t: Table, n: nat, refused: set<nat>)
    requires n <= |lines|
    ensures Refusals(lines, t, n, refused) == 0 <==> forall i :: 0 <= i < n && i in refused ==> Spared(t)(lines[i])
  {
    if n > 0 { NoRefusals(lines, t, n - 1, refused); }
  }

  // ---------- What the guard decides ----------

  /** A connection to the gateway's port: its source, whether a tunnel carried it, the port it first asked for. */
  datatype Arrival = Arrival(src: nat, tunnel: bool, original: nat)

  predicate Hits(l: Line, a: Arrival) {
    l == REJECT || (l == ACCEPT80 && InPool(a.src) && a.tunnel && a.original == 80) ||
      (l == ACCEPT443 && InPool(a.src) && a.tunnel && a.original == 443)
  }

  datatype Verdict = Undecided | Accepted | Rejected

  function Decide(lines: seq<Line>, a: Arrival): Verdict {
    if lines == [] then Undecided
    else if Hits(lines[0], a) then (if lines[0] == REJECT then Rejected else Accepted)
    else Decide(lines[1..], a)
  }

  lemma {:induction false} DecideByGuard(lines: seq<Line>, a: Arrival)
    ensures Decide(lines, a) == Decide(Keep(lines, IsGuard), a)
  {
    if lines != [] {
      var head, rest := lines[0], lines[1..];
      assert lines == [head] + rest;
      KeepFront(head, rest, IsGuard);
      DecideByGuard(rest, a);
      if IsGuard(head) {
        DecideFront(head, Keep(rest, IsGuard), a);
      } else {
        assert Keep(lines, IsGuard) == Keep(rest, IsGuard);
      }
      assert Hits(head, a) ==> IsGuard(head);
    }
  }

  lemma DecideFront(head: Line, rest: seq<Line>, a: Arrival)
    ensures Decide([head] + rest, a) ==
            if Hits(head, a) then (if head == REJECT then Rejected else Accepted) else Decide(rest, a)
  {
    assert ([head] + rest)[1..] == rest;
  }

  /**
   * At every stage no outsider is accepted; from the first rule on every outsider is rejected; a full guard lets
   * the redirected tunnels in.
   */
  lemma {:induction false} StageDecides(lines: seq<Line>, n: nat, a: Arrival)
    requires Staged(lines, n)
    ensures var inside := InPool(a.src) && a.tunnel;
            Decide(lines, a) == if n == 0 then Undecided
                                else if inside && ((n >= 2 && a.original == 80) || (n == 3 && a.original == 443))
                                then Accepted
                                else Rejected
  {
    DecideByGuard(lines, a);
    DecideFront(REJECT, TopDown(0), a);
    DecideFront(ACCEPT80, TopDown(1), a);
    DecideFront(ACCEPT443, TopDown(2), a);
    assert TopDown(1) == [REJECT] + TopDown(0) && TopDown(2) == [ACCEPT80] + TopDown(1) &&
           TopDown(3) == [ACCEPT443] + TopDown(2);
  }

  // ---------- Exactly when a full guard protects ----------

  function Position(lines: seq<Line>, x: Line): (i: nat)
    ensures i < |lines| <==> x in lines
    ensures i <= |lines|
  {
    if lines == [] || lines[0] == x then 0 else 1 + Position(lines[1..], x)
  }

  lemma PositionFront(x: Line, lines: seq<Line>, y: Line)
    ensures Position([x] + lines, y) == if x == y then 0 else 1 + Position(lines, y)
  {
    assert ([x] + lines)[1..] == lines;
  }

  /** Present, and the accepting rule is met before the rejecting one. */
  predicate Above(lines: seq<Line>, accept: Line) {
    accept in lines && REJECT in lines && Position(lines, accept) < Position(lines, REJECT)
  }

  lemma EnsuredAbove(lines: seq<Line>, x: Line, accept: Line, deaf: bool)
    requires accept == ACCEPT80 || accept == ACCEPT443
    ensures Above(Ensured(lines, x, deaf), accept) <==>
            if x in lines && !deaf then Above(lines, accept)
            else if x == accept then REJECT in lines
            else if x == REJECT then false
            else Above(lines, accept)
  {
    PositionFront(x, lines, accept);
    PositionFront(x, lines, REJECT);
  }

  /** The installation inserts the rule of step j. */
  predicate Inserts(lines: seq<Line>, j: nat, deaf: set<nat>)
    requires j < 3
  {
    INSTALL[j] !in lines || j in deaf
  }

  /**
   * From any chain, a full guard puts an accepting rule above the rejecting one if and only if it inserts that
   * rule, or it leaves the rejecting rule alone and found the order right.
   */
  lemma {:induction false} AboveExactly(lines: seq<Line>, deaf: set<nat>)
    ensures Above(Guarded(lines, 3, deaf), ACCEPT80) <==>
            Inserts(lines, 1, deaf) || (!Inserts(lines, 0, deaf) && Above(lines, ACCEPT80))
    ensures Above(Guarded(lines, 3, deaf), ACCEPT443) <==>
            Inserts(lines, 2, deaf) || (!Inserts(lines, 0, deaf) && Above(lines, ACCEPT443))
  {
    var one := Guarded(lines, 1, deaf);
    var two := Guarded(lines, 2, deaf);
    assert one == Ensured(Guarded(lines, 0, deaf), REJECT, 0 in deaf) && two == Ensured(one, ACCEPT80, 1 in deaf);
    assert Guarded(lines, 3, deaf) == Ensured(two, ACCEPT443, 2 in deaf);
    EnsuredAbove(lines, REJECT, ACCEPT80, 0 in deaf);
    EnsuredAbove(lines, REJECT, ACCEPT443, 0 in deaf);
    EnsuredAbove(one, ACCEPT80, ACCEPT80, 1 in deaf);
    EnsuredAbove(one, ACCEPT80, ACCEPT443, 1 in deaf);
    EnsuredAbove(two, ACCEPT443, ACCEPT80, 2 in deaf);
    EnsuredAbove(two, ACCEPT443, ACCEPT443, 2 in deaf);
  }

  /** With truthful checks: exactly when no accepting rule was there without a rejecting one below it. */
  lemma GuardProtectsExactly(lines: seq<Line>)
    ensures Above(Guarded(lines, 3, {}), ACCEPT80) && Above(Guarded(lines, 3, {}), ACCEPT443) <==>
            (ACCEPT80 in lines ==> Above(lines, ACCEPT80)) && (ACCEPT443 in lines ==> Above(lines, ACCEPT443))
  {
    AboveExactly(lines, {});
  }

  /** What a stage holds, in the right order. */
  lemma {:induction false} StageAbove(lines: seq<Line>, n: nat)
    requires Staged(lines, n)
    ensures ACCEPT80 in lines <==> n >= 2
    ensures ACCEPT443 in lines <==> n == 3
    ensures REJECT in lines <==> n >= 1
    ensures n >= 2 ==> Above(lines, ACCEPT80)
    ensures n == 3 ==> Above(lines, ACCEPT443)
  {
    TopDownHas(n, 0);
    TopDownHas(n, 1);
    TopDownHas(n, 2);
    KeepShorter(lines, IsGuard);
    if n >= 2 {
      OrderKept(lines, ACCEPT80);
      PositionFront(ACCEPT80, TopDown(1), ACCEPT80);
      PositionFront(ACCEPT80, TopDown(1), REJECT);
      if n == 3 {
        OrderKept(lines, ACCEPT443);
        PositionFront(ACCEPT443, TopDown(2), ACCEPT80);
        PositionFront(ACCEPT443, TopDown(2), REJECT);
      }
    }
  }

  /** The order of two guard rules is their order among the guard rules. */
  lemma {:induction false} OrderKept(lines: seq<Line>, accept: Line)
    requires accept == ACCEPT80 || accept == ACCEPT443
    ensures accept in lines && REJECT in lines ==>
              (Position(lines, accept) < Position(lines, REJECT) <==>
               Position(Keep(lines, IsGuard), accept) < Position(Keep(lines, IsGuard), REJECT))
  {
    if lines != [] {
      var head, rest := lines[0], lines[1..];
      assert lines == [head] + rest;
      OrderKept(rest, accept);
      KeepFront(head, rest, IsGuard);
      KeepShorter(rest, IsGuard);
      if IsGuard(head) {
        PositionFront(head, Keep(rest, IsGuard), accept);
        PositionFront(head, Keep(rest, IsGuard), REJECT);
      } else {
        assert Keep(lines, IsGuard) == Keep(rest, IsGuard);
      }
    }
  }

  /**
   * A removal with refusals, then a full guard: the order is right if and only if the rejecting rule stayed, or
   * no accepting rule did.
   */
  lemma {:induction false} RefusalsProtectExactly(lines: seq<Line>, n: nat, k: nat, refused: set<nat>)
    requires Staged(lines, n) && 1 <= n && k <= 3
    ensures var left := Unguarded(lines, k, refused);
            Above(Guarded(left, 3, {}), ACCEPT80) && Above(Guarded(left, 3, {}), ACCEPT443) <==>
            !Deletes(k, refused, 0) || ((n < 2 || Deletes(k, refused, 1)) && (n < 3 || Deletes(k, refused, 2)))
  {
    var left := Unguarded(lines, k, refused);
    GuardProtectsExactly(left);
    forall j | 0 <= j < 3 ensures INSTALL[j] in left <==> j < n && !Deletes(k, refused, j) {
      StagedCounts(lines, n, j);
      UnguardedCounts(lines, k, refused, j);
    }
    assert INSTALL[0] == REJECT && INSTALL[1] == ACCEPT80 && INSTALL[2] == ACCEPT443;
    StageAbove(lines, n);
    if !Deletes(k, refused, 0) {
      if ACCEPT80 in left { RemovalKeepsOrder(lines, k, refused, ACCEPT80); }
      if ACCEPT443 in left { RemovalKeepsOrder(lines, k, refused, ACCEPT443); }
    }
  }

  /** Deleting another rule keeps the order of two. */
  lemma {:induction false} WithoutKeepsOrder(lines: seq<Line>, x: Line, accept: Line)
    requires Above(lines, accept) && x != accept && x != REJECT
    ensures Above(Without(lines, x), accept)
  {
    var head, rest := lines[0], lines[1..];
    if head == x {
    } else if head == accept {
      assert REJECT in rest;
      WithoutCounts(rest, x, REJECT);
      PositionFront(head, Without(rest, x), accept);
      PositionFront(head, Without(rest, x), REJECT);
    } else {
      WithoutKeepsOrder(rest, x, accept);
      PositionFront(head, Without(rest, x), accept);
      PositionFront(head, Without(rest, x), REJECT);
    }
  }

  lemma {:induction false} RemovalKeepsOrder(lines: seq<Line>, k: nat, refused: set<nat>, accept: Line)
    requires k <= 3 && Above(lines, accept) && !Deletes(k, refused, 0)
    requires (accept == ACCEPT80 && !Deletes(k, refused, 1)) || (accept == ACCEPT443 && !Deletes(k, refused, 2))
    ensures Above(Unguarded(lines, k, refused), accept)
  {
    if k > 0 {
      RemovalKeepsOrder(lines, k - 1, refused, accept);
      if k - 1 !in refused { WithoutKeepsOrder(Unguarded(lines, k - 1, refused), INSTALL[3 - k], accept); }
    }
  }

  lemma UnguardedStep(lines: seq<Line>, k: nat, refused: set<nat>)
    requires 0 < k <= 3
    ensures Unguarded(lines, 0, refused) == lines
    ensures Unguarded(lines, k, refused) ==
            if k - 1 in refused then Unguarded(lines, k - 1, refused)
            else Without(Unguarded(lines, k - 1, refused), INSTALL[3 - k])
  {
  }

  lemma WithoutFront(x: Line, lines: seq<Line>, y: Line)
    ensures Without([x] + lines, y) == if x == y then lines else [x] + Without(lines, y)
  {
    assert ([x] + lines)[1..] == lines;
  }

  /**
   * The input: the kernel refuses the deletion of the topmost rule and obeys the other two; a full guard then
   * fails.
   */
  lemma RefusedDeletionBreaksGuard()
    ensures Unguarded(TopDown(3), 3, {0}) == [ACCEPT443]
    ensures !Above(Guarded([ACCEPT443], 3, {}), ACCEPT443)
  {
    var refused: set<nat> := {0};
    UnguardedStep(TopDown(3), 1, refused);
    UnguardedStep(TopDown(3), 2, refused);
    UnguardedStep(TopDown(3), 3, refused);
    assert TopDown(3) == [ACCEPT443] + TopDown(2) && TopDown(2) == [ACCEPT80] + TopDown(1) &&
           TopDown(1) == [REJECT] + TopDown(0);
    WithoutFront(ACCEPT443, TopDown(2), ACCEPT80);
    WithoutFront(ACCEPT80, TopDown(1), ACCEPT80);
    WithoutFront(ACCEPT443, TopDown(1), REJECT);
    WithoutFront(REJECT, TopDown(0), REJECT);
    AboveExactly([ACCEPT443], {});
  }

  // ---------- The redirections as installed ----------

  function Reversed(rules: seq<FirewallRule>): seq<FirewallRule> {
    if rules == [] then [] else [rules[|rules| - 1]] + Reversed(rules[..|rules| - 1])
  }

  /** The installed redirections are the policy's, last one first. */
  lemma {:induction false} StackIsReversed(rules: seq<FirewallRule>, base: seq<Line>)
    ensures |Stack(rules, base)| == |rules| + |base| && |Reversed(rules)| == |rules|
    ensures forall i :: 0 <= i < |rules| ==> Stack(rules, base)[i] == Marked(Reversed(rules)[i])
    ensures Stack(rules, base)[|rules|..] == base
  {
    if rules != [] { StackIsReversed(rules[..|rules| - 1], base); }
  }

  predicate ToGateway(rules: seq<FirewallRule>) {
    forall i :: 0 <= i < |rules| && rules[i].Redirect? ==> rules[i].to == IKE_PORT
  }

  lemma {:induction false} EgressByMembers(rules: seq<FirewallRule>, gateway: Config, k: Packet, host: string)
    requires ToGateway(rules)
    ensures IkeEgress(rules, gateway, k, host) ==
            if !AnyCaught(rules, k) then Direct
            else if k.network.Tcp? then Redirected(gateway, IKE_PORT, Request(IkeWeb, "", host, k.network, k.port))
            else Blocked
  {
    if rules != [] {
      EgressByMembers(rules[1..], gateway, k, host);
      assert forall i :: 1 <= i < |rules| ==> rules[i] == rules[1..][i - 1];
    }
  }

  lemma {:induction false} ReversedMembers(rules: seq<FirewallRule>)
    ensures forall r :: r in Reversed(rules) <==> r in rules
  {
    if rules != [] {
      var n := |rules| - 1;
      ReversedMembers(rules[..n]);
      assert rules == rules[..n] + [rules[n]];
    }
  }

  lemma CaughtBySet(a: seq<FirewallRule>, b: seq<FirewallRule>, k: Packet)
    requires forall r :: r in a ==> r in b
    ensures AnyCaught(a, k) ==> AnyCaught(b, k)
  {
    if i :| 0 <= i < |a| && Caught(a[i], k) {
      assert a[i] in b;
      var j :| 0 <= j < |b| && b[j] == a[i];
    }
  }

  lemma {:induction false} RulesToGateway(p: Policy, matches: seq<Match>)
    ensures ToGateway(RulesFor(p, matches))
  {
    if matches != [] { RulesToGateway(p, matches[..|matches| - 1]); }
  }

  /** The installed chain begins with the policy's rules reversed, and that changes nothing for any packet. */
  lemma ReversalIsHarmless(policy: Option<Policy>, peers: seq<Peer>, base: seq<Line>, gateway: Config, k: Packet,
                           host: string)
    ensures var rules, lines := Firewall(policy, peers), Stack(Firewall(policy, peers), base);
            && |Reversed(rules)| == |rules| && |lines| == |rules| + |base| && lines[|rules|..] == base
            && (forall i :: 0 <= i < |rules| ==> lines[i] == Marked(Reversed(rules)[i]))
            && IkeEgress(Reversed(rules), gateway, k, host) == IkeEgress(rules, gateway, k, host)
  {
    var rules := Firewall(policy, peers);
    StackIsReversed(rules, base);
    if policy.Some? && policy.value.enabled {
      RulesToGateway(policy.value, if policy.value.everyone then [FromPool] else Chosen(policy.value, peers));
    }
    assert ToGateway(rules);
    ReversedMembers(rules);
    assert ToGateway(Reversed(rules)) by {
      forall i | 0 <= i < |Reversed(rules)| && Reversed(rules)[i].Redirect? ensures Reversed(rules)[i].to == IKE_PORT {
        assert Reversed(rules)[i] in rules;
      }
    }
    CaughtBySet(rules, Reversed(rules), k);
    CaughtBySet(Reversed(rules), rules, k);
    EgressByMembers(rules, gateway, k, host);
    EgressByMembers(Reversed(rules), gateway, k, host);
  }
}
