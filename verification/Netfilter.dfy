/**
 * The kernel rules of the WARP router: the guard of the transparent listener, and the redirections
 * that are replaced as tunnels come and go. The process can die at every command boundary.
 */
module Netfilter {
  import opened Sums
  import opened WarpEgress

  datatype Table = Filter | Nat | OtherTable

  datatype Chain = Input | Forward | Prerouting | Custom(name: string)

  datatype Comment = Managed | GuardMark | Foreign(text: string)

  datatype Body = RejectGateway | AcceptPool(port: nat) | RejectGateway6 | Web(rule: FirewallRule) | Text(text: string)

  /** One rule of a chain. A state lists the rules of all chains so that each chain's own rules keep their order. */
  datatype Line = Line(table: Table, chain: Chain, comment: Comment, body: Body)

  // ---------- Commands of the kernel ----------

  /** -D: the first identical rule goes, and nothing happens when there is none. */
  function Without(lines: seq<Line>, x: Line): seq<Line> {
    if lines == [] then [] else if lines[0] == x then lines[1..] else [lines[0]] + Without(lines[1..], x)
  }

  function Keep(lines: seq<Line>, p: Line -> bool): seq<Line> {
    if lines == [] then [] else
      var n := |lines| - 1;
      Keep(lines[..n], p) + if p(lines[n]) then [lines[n]] else []
  }

  // ---------- The guard ----------

  const REJECT := Line(Filter, Input, GuardMark, RejectGateway)
  const ACCEPT80 := Line(Filter, Input, GuardMark, AcceptPool(80))
  const ACCEPT443 := Line(Filter, Input, GuardMark, AcceptPool(443))
  const REJECT6 := Line(Filter, Input, GuardMark, RejectGateway6)

  /** The order of installation; each rule goes on top of its chain. */
  const INSTALL := [REJECT, ACCEPT80, ACCEPT443]

  predicate IsGuard(l: Line) { l == REJECT || l == ACCEPT80 || l == ACCEPT443 }

  predicate IsManaged(l: Line) { l.comment == Managed && (l.table == Filter || l.table == Nat) }

  predicate Unmanaged(l: Line) { !IsManaged(l) }

  predicate IsForeign(l: Line) { !IsManaged(l) && !IsGuard(l) }

  /** -C, then -I at position 1 when the check found nothing; a deaf check finds nothing even if the rule is there. */
  function Ensured(lines: seq<Line>, x: Line, deaf: bool): seq<Line> {
    if x in lines && !deaf then lines else [x] + lines
  }

  /** The first k steps of an installation; the checks of the steps in `deaf` fail for another reason. */
  function Guarded(lines: seq<Line>, k: nat, deaf: set<nat>): seq<Line>
    requires k <= 3
  {
    if k == 0 then lines else Ensured(Guarded(lines, k - 1, deaf), INSTALL[k - 1], k - 1 in deaf)
  }

  /** The first k steps of a removal; the kernel refuses the deletions of the steps in `refused`, and nobody looks. */
  function Unguarded(lines: seq<Line>, k: nat, refused: set<nat>): seq<Line>
    requires k <= 3
  {
    if k == 0 then lines
    else if k - 1 in refused then Unguarded(lines, k - 1, refused)
    else Without(Unguarded(lines, k - 1, refused), INSTALL[3 - k])
  }

  /** The one rule of the IPv6 chain, whose command is number 3 of `failing`. */
  function Guarded6(lines6: seq<Line>, remove: bool, failing: set<nat>): seq<Line> {
    if !remove then Ensured(lines6, REJECT6, 3 in failing)
    else if 3 in failing then lines6
    else Without(lines6, REJECT6)
  }

  /** The guard rules of the first n installation steps, as the chain lists them. */
  function TopDown(n: nat): seq<Line>
    requires n <= 3
  {
    if n == 0 then [] else [INSTALL[n - 1]] + TopDown(n - 1)
  }

  ghost predicate Staged(lines: seq<Line>, n: nat) {
    n <= 3 && Keep(lines, IsGuard) == TopDown(n)
  }

  // ---------- The redirections ----------

  function Marked(rule: FirewallRule): Line {
    match rule
    case Redirect(_, _) => Line(Nat, Prerouting, Managed, Web(rule))
    case Reject(_) => Line(Filter, Forward, Managed, Web(rule))
  }

  /** Every rule goes on top, so the last one is first in the chain. */
  function Stack(rules: seq<FirewallRule>, base: seq<Line>): seq<Line> {
    if rules == [] then base else [Marked(rules[|rules| - 1])] + Stack(rules[..|rules| - 1], base)
  }

  function Spared(t: Table): Line -> bool { (l: Line) => !(l.comment == Managed && l.table == t) }

  /**
   * The cleanup of one table after the first i listed rules; the kernel refuses the deletions of the lines in
   * `refused`.
   */
  function Swept(lines: seq<Line>, t: Table, i: nat, refused: set<nat>): seq<Line>
    requires i <= |lines|
  {
    if i == 0 then lines
    else if Spared(t)(lines[i - 1]) || i - 1 in refused then Swept(lines, t, i - 1, refused)
    else Without(Swept(lines, t, i - 1, refused), lines[i - 1])
  }

  /** A cleanup that stopped after i lines of the filter table, or after j of the nat table. */
  function Cleaned(lines: seq<Line>, i: nat, j: nat, inFilter: set<nat>, inNat: set<nat>): seq<Line> {
    if i < |lines| then Swept(lines, Filter, i, inFilter) else
      var half := Swept(lines, Filter, |lines|, inFilter);
      Swept(half, Nat, if j < |half| then j else |half|, inNat)
  }

  /**
   * How an installation ends early. Operations alternate: insert a rule, write the journal. One that raises may
   * have taken effect; it is followed by deletions, some of which the kernel may refuse unseen, until the process dies.
   */
  datatype Fault = NoFault | Raises(at: nat, took: bool, deletions: nat, refused: set<nat>) | Dies(at: nat)

  predicate Strikes(rules: seq<FirewallRule>, fault: Fault) { !fault.NoFault? && fault.at < 2 * |rules| }

  /** The rules that the process counts as inserted when the fault strikes. */
  function Inserted(rules: seq<FirewallRule>, fault: Fault): (n: nat)
    requires Strikes(rules, fault)
    ensures n <= |rules| && (fault.at % 2 == 0 ==> n < |rules|)
  {
    (fault.at + 1) / 2
  }

  /** An insertion that raised and took effect is not counted. */
  predicate Strays(fault: Fault) { fault.Raises? && fault.took && fault.at % 2 == 0 }

  /** Deletes the last k rules, the last one first; the refused deletions have no effect. */
  function Undone(lines: seq<Line>, rules: seq<FirewallRule>, k: nat, refused: set<nat>): seq<Line>
    requires k <= |rules|
  {
    if k == 0 then lines
    else if k - 1 in refused then Undone(lines, rules, k - 1, refused)
    else Without(Undone(lines, rules, k - 1, refused), Marked(rules[|rules| - k]))
  }

  function AtFault(rules: seq<FirewallRule>, base: seq<Line>, fault: Fault): seq<Line>
    requires Strikes(rules, fault)
  {
    var n := Inserted(rules, fault);
    (if Strays(fault) then [Marked(rules[n])] else []) + Stack(rules[..n], base)
  }

  /** The deletions that an exception gets to. */
  function Reached(n: nat, fault: Fault): (k: nat)
    ensures k <= n
  {
    if !fault.Raises? then 0 else if fault.deletions < n then fault.deletions else n
  }

  /** What an installation that failed leaves. */
  function Failed(rules: seq<FirewallRule>, base: seq<Line>, fault: Fault): seq<Line>
    requires Strikes(rules, fault)
  {
    var n := Inserted(rules, fault);
    if fault.Raises? then Undone(AtFault(rules, base, fault), rules[..n], Reached(n, fault), fault.refused)
    else AtFault(rules, base, fault)
  }

  class Kernel {
    var lines: seq<Line>
    var lines6: seq<Line>
    var journal: Option<seq<FirewallRule>>

    constructor (lines: seq<Line>, lines6: seq<Line>)
      ensures this.lines == lines && this.lines6 == lines6 && journal == None
    {
      this.lines, this.lines6, journal := lines, lines6, None;
    }

    /**
     * Installs or removes the guard; the commands in `failing` have no effect, and the process dies after `budget`
     * commands.
     */
    method Guard(remove: bool, ipv6: bool, budget: nat, failing: set<nat>) returns (done: nat, completed: bool)
      modifies this`lines, this`lines6
      ensures done <= 3
      ensures lines == if remove then Unguarded(old(lines), done, failing) else Guarded(old(lines), done, failing)
      ensures ipv6 && (done > 0 || completed) ==> lines6 == Guarded6(old(lines6), remove, failing)
      ensures lines6 in {old(lines6), Guarded6(old(lines6), remove, failing)}
      ensures !ipv6 ==> lines6 == old(lines6)
      ensures completed ==> done == 3
      ensures budget >= 8 ==> completed
    {
      done, completed := 0, false;
      var left := budget;
      if ipv6 {
        if left == 0 { return; }
        left := left - 1;
        if remove {
          if 3 !in failing { lines6 := Without(lines6, REJECT6); }
        } else if REJECT6 !in lines6 || 3 in failing {
          if left == 0 { return; }
          left := left - 1;
          lines6 := [REJECT6] + lines6;
        }
      }
      while done < 3
        invariant done <= 3
        invariant lines == if remove then Unguarded(old(lines), done, failing) else Guarded(old(lines), done, failing)
        invariant lines6 == if ipv6 then Guarded6(old(lines6), remove, failing) else old(lines6)
        invariant budget >= 8 ==> left >= 2 * (3 - done)
      {
        if left == 0 { return; }
        left := left - 1;
        if remove {
          if done !in failing { lines := Without(lines, INSTALL[2 - done]); }
        } else if INSTALL[done] !in lines || done in failing {
          if left == 0 { return; }
          left := left - 1;
          lines := [INSTALL[done]] + lines;
        }
        done := done + 1;
      }
      completed := true;
    }

    /** Deletes the managed rules of one table one by one; the process dies after `budget` commands. */
    method Sweep(t: Table, budget: nat, refused: set<nat>) returns (ghost i: nat, left: nat, completed: bool)
      modifies this`lines
      ensures i <= |old(lines)| && lines == Swept(old(lines), t, i, refused)
      ensures completed ==> i == |old(lines)|
      ensures budget > |old(lines)| ==> completed && left >= budget - 1 - |old(lines)|
    {
      var saved := lines;
      var at := 0;
      i, left, completed := 0, budget, false;
      if left == 0 { return; }
      left := left - 1;
      while at < |saved|
        invariant 0 <= at <= |saved| && i == at
        invariant lines == Swept(saved, t, at, refused)
        invariant budget > |saved| ==> left + at >= budget - 1
      {
        if saved[at].table == t && saved[at].comment == Managed {
          if left == 0 { return; }
          left := left - 1;
          if at !in refused { lines := Without(lines, saved[at]); }
        }
        at := at + 1;
        i := at;
      }
      completed := true;
    }

    method Cleanup(budget: nat, inFilter: set<nat>, inNat: set<nat>)
      returns (completed: bool, ghost i: nat, ghost j: nat)
      modifies this`lines, this`journal
      ensures lines == Cleaned(old(lines), i, j, inFilter, inNat)
      ensures Keep(lines, Unmanaged) == Keep(old(lines), Unmanaged)
      ensures completed ==>
                i >= |old(lines)| && j >= |Swept(old(lines), Filter, |old(lines)|, inFilter)| && journal == None
      ensures completed && inFilter == {} && inNat == {} ==> lines == Keep(old(lines), Unmanaged)
      ensures !completed ==> journal == old(journal)
      ensures budget > 2 * |old(lines)| + 2 ==> completed
    {
      completed, j := false, 0;
      var left, filterDone;
      i, left, filterDone := Sweep(Filter, budget, inFilter);
      SweptUnmanaged(old(lines), Filter, i, inFilter);
      if !filterDone { return; }
      ghost var half := lines;
      SweptLength(old(lines), Filter, i, inFilter);
      var rest, natDone;
      j, rest, natDone := Sweep(Nat, left, inNat);
      SweptUnmanaged(half, Nat, j, inNat);
      if !natDone { return; }
      if inFilter == {} && inNat == {} { FullClean(old(lines)); }
      journal := None;
      completed := true;
    }

    /** Replaces the redirections: what raises is undone, what dies is left for the next cleanup. */
    method InstallRules(rules: seq<FirewallRule>, fault: Fault, budget: nat, inFilter: set<nat>, inNat: set<nat>)
      returns (cleaned: bool, ok: bool, ghost base: seq<Line>, ghost i: nat, ghost j: nat)
      modifies this`lines, this`journal
      ensures base == Cleaned(old(lines), i, j, inFilter, inNat) && Keep(base, Unmanaged) == Keep(old(lines), Unmanaged)
      ensures cleaned && inFilter == {} && inNat == {} ==> base == Keep(old(lines), Unmanaged)
      ensures budget > 2 * |old(lines)| + 2 ==> cleaned
      ensures !cleaned ==> !ok && lines == base && journal == old(journal)
      ensures cleaned ==> (ok <==> !Strikes(rules, fault))
      ensures ok ==> lines == Stack(rules, base) && journal == if rules == [] then None else Some(rules)
      ensures cleaned && !ok ==> lines == Failed(rules, base, fault)
      ensures cleaned && !ok ==> journal == if fault.at / 2 == 0 then None else Some(rules[..fault.at / 2])
    {
      cleaned, i, j := Cleanup(budget, inFilter, inNat);
      base := lines;
      ok := false;
      if cleaned { ok := InsertAll(rules, fault); }
    }

    /** The guarded loop of the installation. */
    method InsertAll(rules: seq<FirewallRule>, fault: Fault) returns (ok: bool)
      requires journal == None
      modifies this`lines, this`journal
      ensures ok <==> !Strikes(rules, fault)
      ensures ok ==> lines == Stack(rules, old(lines)) && journal == if rules == [] then None else Some(rules)
      ensures !ok ==> lines == Failed(rules, old(lines), fault)
      ensures !ok ==> journal == if fault.at / 2 == 0 then None else Some(rules[..fault.at / 2])
    {
      ghost var base := lines;
      var n := 0;
      while n < |rules|
        invariant 0 <= n <= |rules|
        invariant lines == Stack(rules[..n], base)
        invariant journal == if n == 0 then None else Some(rules[..n])
        invariant fault.NoFault? || fault.at >= 2 * n
      {
        if !fault.NoFault? && fault.at / 2 == n {
          Interrupt(rules, n, fault, base);
          return false;
        }
        lines := [Marked(rules[n])] + lines;
        assert rules[..n + 1][..n] == rules[..n];
        journal := Some(rules[..n + 1]);
        n := n + 1;
      }
      assert rules[..n] == rules;
      return true;
    }

    /** The fault at the n-th insertion, or at the journal after it, and the undo of what is counted as inserted. */
    method Interrupt(rules: seq<FirewallRule>, n: nat, fault: Fault, ghost base: seq<Line>)
      requires Strikes(rules, fault) && fault.at / 2 == n && lines == Stack(rules[..n], base)
      modifies this`lines
      ensures lines == Failed(rules, base, fault)
    {
      FaultAt(rules, base, fault, n);
      if fault.at % 2 == 1 || Strays(fault) {
        lines := [Marked(rules[n])] + lines;
        assert rules[..n + 1][..n] == rules[..n];
      }
      Abandon(rules[..n + fault.at % 2], fault);
    }

    /** Deletes what was inserted in reverse order, after an exception and as long as the process lives. */
    method Abandon(installed: seq<FirewallRule>, fault: Fault)
      modifies this`lines
      ensures lines ==
              if fault.Raises? then Undone(old(lines), installed, Reached(|installed|, fault), fault.refused)
              else old(lines)
    {
      if !fault.Raises? { return; }
      var k := 0;
      while k < |installed| && k < fault.deletions
        invariant 0 <= k <= Reached(|installed|, fault)
        invariant lines == Undone(old(lines), installed, k, fault.refused)
      {
        if k !in fault.refused { lines := Without(lines, Marked(installed[|installed| - 1 - k])); }
        k := k + 1;
      }
    }
  }

  /** What a fault at the n-th insertion, or at the journal after it, finds. */
  lemma FaultAt(rules: seq<FirewallRule>, base: seq<Line>, fault: Fault, n: nat)
    requires Strikes(rules, fault) && fault.at / 2 == n
    ensures n < |rules| && Inserted(rules, fault) == n + fault.at % 2
    ensures AtFault(rules, base, fault) ==
            if Strays(fault) then [Marked(rules[n])] + Stack(rules[..n], base)
            else Stack(rules[..n + fault.at % 2], base)
  {
    assert fault.at == 2 * n + fault.at % 2;
  }

  // ---------- Lists of rules ----------

  lemma {:induction false} KeepConcat(a: seq<Line>, b: seq<Line>, p: Line -> bool)
    ensures Keep(a + b, p) == Keep(a, p) + Keep(b, p)
  {
    if b == [] {
      assert a + b == a;
    } else {
      var n := |b| - 1;
      assert (a + b)[..|a| + n] == a + b[..n];
      KeepConcat(a, b[..n], p);
    }
  }

  lemma {:induction false} KeepShorter(lines: seq<Line>, p: Line -> bool)
    ensures forall l :: l in Keep(lines, p) <==> l in lines && p(l)
  {
    if lines != [] {
      KeepShorter(lines[..|lines| - 1], p);
      assert lines == lines[..|lines| - 1] + [lines[|lines| - 1]];
    }
  }

  lemma {:induction false} KeepLength(lines: seq<Line>, p: Line -> bool)
    ensures |Keep(lines, p)| <= |lines|
  {
    if lines != [] { KeepLength(lines[..|lines| - 1], p); }
  }

  lemma {:induction false} KeepTwice(lines: seq<Line>, p: Line -> bool, q: Line -> bool, both: Line -> bool)
    requires forall l :: both(l) <==> p(l) && q(l)
    ensures Keep(Keep(lines, p), q) == Keep(lines, both)
  {
    if lines != [] {
      var n := |lines| - 1;
      KeepTwice(lines[..n], p, q, both);
      var last := if p(lines[n]) then [lines[n]] else [];
      KeepConcat(Keep(lines[..n], p), last, q);
      assert p(lines[n]) ==> last[..0] == [];
    }
  }

  lemma {:induction false} WithoutPast(a: seq<Line>, b: seq<Line>, x: Line)
    requires x !in a
    ensures Without(a + b, x) == a + Without(b, x)
  {
    if a == [] {
      assert a + b == b;
    } else {
      assert (a + b)[1..] == a[1..] + b;
      WithoutPast(a[1..], b, x);
    }
  }

  lemma KeepFront(x: Line, lines: seq<Line>, p: Line -> bool)
    ensures Keep([x] + lines, p) == (if p(x) then [x] else []) + Keep(lines, p)
  {
    KeepConcat([x], lines, p);
    assert [x][..0] == [];
    assert Keep([x], p) == if p(x) then [x] else [];
  }

  lemma {:induction false} KeepWithout(lines: seq<Line>, x: Line, p: Line -> bool)
    ensures Keep(Without(lines, x), p) == if p(x) then Without(Keep(lines, p), x) else Keep(lines, p)
  {
    if lines != [] {
      var head, rest := lines[0], lines[1..];
      assert lines == [head] + rest;
      KeepFront(head, rest, p);
      if head == x {
        assert ([x] + Keep(rest, p))[1..] == Keep(rest, p);
      } else {
        KeepFront(head, Without(rest, x), p);
        KeepWithout(rest, x, p);
        WithoutPast(if p(head) then [head] else [], Keep(rest, p), x);
      }
    }
  }

  // ---------- Cleanup ----------

  lemma {:induction false} WithoutLength(lines: seq<Line>, x: Line)
    ensures |Without(lines, x)| <= |lines|
  {
    if lines != [] && lines[0] != x { WithoutLength(lines[1..], x); }
  }

  lemma {:induction false} SweptLength(lines: seq<Line>, t: Table, i: nat, refused: set<nat>)
    requires i <= |lines|
    ensures |Swept(lines, t, i, refused)| <= |lines|
  {
    if i > 0 {
      SweptLength(lines, t, i - 1, refused);
      WithoutLength(Swept(lines, t, i - 1, refused), lines[i - 1]);
    }
  }

  /** One more processed line: it stays, or it is the first of its kind that is left. */
  lemma KeptOne(lines: seq<Line>, t: Table, i: nat)
    requires i < |lines|
    ensures var kept := Keep(lines[..i], Spared(t)) + lines[i..];
            Keep(lines[..i + 1], Spared(t)) + lines[i + 1..] ==
            if Spared(t)(lines[i]) then kept else Without(kept, lines[i])
  {
    var kept, rest, last := Keep(lines[..i], Spared(t)), lines[i + 1..], lines[i];
    assert lines[..i + 1][..i] == lines[..i];
    assert lines[i..] == [last] + rest;
    if Spared(t)(last) {
      assert kept + [last] + rest == kept + ([last] + rest);
    } else {
      KeepShorter(lines[..i], Spared(t));
      WithoutPast(kept, [last] + rest, last);
      assert ([last] + rest)[1..] == rest;
    }
  }

  /** With every deletion obeyed, the processed lines lose the managed ones. */
  lemma {:induction false} SweptIsKept(lines: seq<Line>, t: Table, i: nat)
    requires i <= |lines|
    ensures Swept(lines, t, i, {}) == Keep(lines[..i], Spared(t)) + lines[i..]
  {
    if i > 0 {
      SweptIsKept(lines, t, i - 1);
      KeptOne(lines, t, i - 1);
    }
  }

  lemma {:induction false} SweptUnmanaged(lines: seq<Line>, t: Table, i: nat, refused: set<nat>)
    requires i <= |lines| && (t == Filter || t == Nat)
    ensures Keep(Swept(lines, t, i, refused), Unmanaged) == Keep(lines, Unmanaged)
  {
    if i > 0 {
      SweptUnmanaged(lines, t, i - 1, refused);
      KeepWithout(Swept(lines, t, i - 1, refused), lines[i - 1], Unmanaged);
    }
  }

  lemma FullSweep(lines: seq<Line>, t: Table)
    ensures Swept(lines, t, |lines|, {}) == Keep(lines, Spared(t))
  {
    SweptIsKept(lines, t, |lines|);
    assert lines[..|lines|] == lines;
  }

  /** A full cleanup whose deletions are all obeyed leaves exactly the rules that are not managed. */
  lemma FullClean(lines: seq<Line>)
    ensures forall i, j :: i >= |lines| && j >= |lines| ==> Cleaned(lines, i, j, {}, {}) == Keep(lines, Unmanaged)
    ensures Swept(Swept(lines, Filter, |lines|, {}), Nat, |Swept(lines, Filter, |lines|, {})|, {}) ==
            Keep(lines, Unmanaged)
  {
    FullSweep(lines, Filter);
    FullSweep(Keep(lines, Spared(Filter)), Nat);
    KeepLength(lines, Spared(Filter));
    KeepTwice(lines, Spared(Filter), Spared(Nat), Unmanaged);
  }

  lemma {:induction false} StackKeeps(rules: seq<FirewallRule>, base: seq<Line>, p: Line -> bool)
    requires forall r: FirewallRule :: !p(Marked(r))
    ensures Keep(Stack(rules, base), p) == Keep(base, p)
  {
    if rules != [] {
      var n := |rules| - 1;
      StackKeeps(rules[..n], base, p);
      KeepFront(Marked(rules[n]), Stack(rules[..n], base), p);
    }
  }
}
