/**
 * What the kernel does with a tunnel's packets once the guard and the redirections are installed: the tables
 * and chains in which the rules stand, the guard in front of the gateway, and the gateway behind them.
 */
module WarpKernel {
  import opened Sums
  import opened WarpPolicy
  import opened WarpEgress
  import opened Netfilter
  import opened NetfilterRuns

  // ---------- The path of a packet ----------

  predicate Redirects(l: Line, k: Packet) {
    l.table == Nat && l.chain == Prerouting && l.body.Web? && l.body.rule.Redirect? && Caught(l.body.rule, k)
  }

  predicate Refuses(l: Line, k: Packet) {
    l.table == Filter && l.chain == Forward && l.body.Web? && l.body.rule.Reject? && Caught(l.body.rule, k)
  }

  /** The port of the first redirection before routing that catches the packet. */
  function Target(lines: seq<Line>, k: Packet): Option<nat> {
    if lines == [] then None
    else if Redirects(lines[0], k) then Some(lines[0].body.rule.to)
    else Target(lines[1..], k)
  }

  predicate Refused(lines: seq<Line>, k: Packet) {
    exists i :: 0 <= i < |lines| && Refuses(lines[i], k)
  }

  predicate Stops(l: Line, a: Arrival) { l.table == Filter && l.chain == Input && l.body == RejectGateway }

  predicate Lets(l: Line, a: Arrival) {
    && l.table == Filter && l.chain == Input && l.body.AcceptPool?
    && InPool(a.src) && a.tunnel && a.original == l.body.port
  }

  /** What the input chain says of a connection to the gateway's port. */
  function Admitted(lines: seq<Line>, a: Arrival): Verdict {
    if lines == [] then Undecided
    else if Stops(lines[0], a) then Rejected
    else if Lets(lines[0], a) then Accepted
    else Admitted(lines[1..], a)
  }

  /**
   * A redirected packet is for this machine and meets the input chain, where the guard stands before the port of
   * the gateway; any other packet is forwarded and meets the forward chain.
   */
  function KernelEgress(lines: seq<Line>, gateway: Config, k: Packet, host: string): Egress {
    match Target(lines, k)
    case Some(to) =>
      if to == 10087 && Admitted(lines, Arrival(k.src, k.tunnel.Some?, k.port)) == Rejected then Blocked
      else Redirected(gateway, to, Request(IkeWeb, "", host, k.network, k.port))
    case None => if Refused(lines, k) then Blocked else Direct
  }

  predicate Proper(l: Line) {
    && (l.body.Web? ==> IsManaged(l))
    && (l.body.RejectGateway? || l.body.AcceptPool? ==> IsGuard(l))
  }

  /** The lines of other owners do none of what this component's lines do. */
  predicate Ordinary(lines: seq<Line>) { forall i :: 0 <= i < |lines| ==> Proper(lines[i]) }

  // ---------- Installed rules ----------

  lemma {:induction false} NoTarget(lines: seq<Line>, k: Packet)
    requires forall i :: 0 <= i < |lines| ==> !lines[i].body.Web?
    ensures Target(lines, k) == None && !Refused(lines, k)
  {
    if lines != [] { NoTarget(lines[1..], k); }
  }

  lemma FrontLine(l: Line, rest: seq<Line>, k: Packet)
    ensures Target([l] + rest, k) == if Redirects(l, k) then Some(l.body.rule.to) else Target(rest, k)
    ensures Refused([l] + rest, k) <==> Refuses(l, k) || Refused(rest, k)
  {
    var lines := [l] + rest;
    assert lines[1..] == rest;
    if i :| 0 <= i < |rest| && Refuses(rest[i], k) { assert Refuses(lines[i + 1], k); }
    if Refuses(l, k) { assert Refuses(lines[0], k); }
  }

  lemma LastCaught(rules: seq<FirewallRule>, k: Packet)
    requires rules != []
    ensures AnyCaught(rules, k) <==> Caught(rules[|rules| - 1], k) || AnyCaught(rules[..|rules| - 1], k)
  {
    var n := |rules| - 1;
    if i :| 0 <= i < n && Caught(rules[..n][i], k) { assert Caught(rules[i], k); }
    if i :| 0 <= i < |rules| && Caught(rules[i], k) { assert i < n ==> Caught(rules[..n][i], k); }
  }

  /** A marked rule stands where the kernel looks for it. */
  lemma MarkedActs(rule: FirewallRule, k: Packet)
    ensures Redirects(Marked(rule), k) <==> rule.Redirect? && Caught(rule, k)
    ensures Refuses(Marked(rule), k) <==> rule.Reject? && Caught(rule, k)
    ensures Caught(rule, k) ==> (k.network.Tcp? <==> rule.Redirect?)
  {
  }

  lemma {:induction false} StackActs(rules: seq<FirewallRule>, base: seq<Line>, k: Packet)
    requires ToGateway(rules) && Target(base, k) == None && !Refused(base, k)
    ensures Target(Stack(rules, base), k) ==
            if AnyCaught(rules, k) && k.network.Tcp? then Some(IKE_PORT) else None
    ensures Refused(Stack(rules, base), k) <==> AnyCaught(rules, k) && k.network.Udp?
  {
    if rules != [] {
      var n := |rules| - 1;
      StackActs(rules[..n], base, k);
      MarkedActs(rules[n], k);
      LastCaught(rules, k);
      FrontLine(Marked(rules[n]), Stack(rules[..n], base), k);
    }
  }

  /** The redirections do not come between a connection and the guard. */
  lemma StackDecides(rules: seq<FirewallRule>, base: seq<Line>, n: nat, a: Arrival)
    requires Staged(base, n)
    ensures Staged(Stack(rules, base), n) && Decide(Stack(rules, base), a) == Decide(base, a)
  {
    StackKeeps(rules, base, IsGuard);
    DecideByGuard(base, a);
    DecideByGuard(Stack(rules, base), a);
  }

  /** The guard is met in the input chain of the filter table. */
  lemma {:induction false} DecideIsAdmitted(lines: seq<Line>, a: Arrival)
    requires Ordinary(lines)
    ensures Admitted(lines, a) == Decide(lines, a)
  {
    if lines != [] {
      assert Proper(lines[0]);
      DecideIsAdmitted(lines[1..], a);
    }
  }

  lemma {:induction false} StackOrdinary(rules: seq<FirewallRule>, base: seq<Line>)
    requires Ordinary(base)
    ensures Ordinary(Stack(rules, base))
  {
    if rules != [] { StackOrdinary(rules[..|rules| - 1], base); }
  }

  /** What is left after a complete cleanup: the guard in its place, and nothing that acts on web flows. */
  lemma CleanBase(before: seq<Line>, k: Packet)
    requires Staged(before, 3) && Ordinary(before)
    ensures Staged(Keep(before, Unmanaged), 3)
    ensures Ordinary(Keep(before, Unmanaged))
    ensures Target(Keep(before, Unmanaged), k) == None && !Refused(Keep(before, Unmanaged), k)
  {
    var base := Keep(before, Unmanaged);
    KeepTwice(before, Unmanaged, IsGuard, IsGuard);
    KeepShorter(before, Unmanaged);
    forall i | 0 <= i < |base|
      ensures Proper(base[i]) && !base[i].body.Web?
    {
      assert base[i] in base;
    }
    NoTarget(base, k);
  }

  /** Behind a full guard the installed rules treat every packet as the list of rules says. */
  lemma KernelIsIke(rules: seq<FirewallRule>, before: seq<Line>, gateway: Config, k: Packet, host: string)
    requires Staged(before, 3) && Ordinary(before) && ToGateway(rules)
    requires AnyCaught(rules, k) ==> InPool(k.src) && k.tunnel.Some?
    ensures KernelEgress(Stack(rules, Keep(before, Unmanaged)), gateway, k, host) == IkeEgress(rules, gateway, k, host)
  {
    var base := Keep(before, Unmanaged);
    var a := Arrival(k.src, k.tunnel.Some?, k.port);
    CleanBase(before, k);
    StackActs(rules, base, k);
    StackDecides(rules, base, 3, a);
    StageDecides(base, 3, a);
    StackOrdinary(rules, base);
    DecideIsAdmitted(Stack(rules, base), a);
    EgressByMembers(rules, gateway, k, host);
    if AnyCaught(rules, k) && k.network.Tcp? { CaughtPort(rules, k); }
  }

  lemma CaughtPort(rules: seq<FirewallRule>, k: Packet)
    requires AnyCaught(rules, k) && k.network.Tcp?
    ensures k.port in {80, 443}
  {
  }

  /** Every source of the policy's rules is a tunnel with an address of the pool. */
  lemma FirewallCatchesTunnels(policy: Option<Policy>, peers: seq<Peer>, k: Packet)
    requires AnyCaught(Firewall(policy, peers), k)
    ensures InPool(k.src) && k.tunnel.Some?
  {
    var p := policy.value;
    var matches := if p.everyone then [FromPool] else Chosen(p, peers);
    RulesTreat(p, matches, Config([], [], []), k, "");
    var i :| 0 <= i < |matches| && Sent(matches[i], k);
    if !p.everyone { ChosenHas(p, peers, matches[i]); }
  }

  lemma FirewallToGateway(policy: Option<Policy>, peers: seq<Peer>)
    ensures ToGateway(Firewall(policy, peers))
  {
    if policy.Some? && policy.value.enabled {
      RulesToGateway(policy.value, if policy.value.everyone then [FromPool] else Chosen(policy.value, peers));
    }
  }

  /**
   * From firewall to gateway: with a full guard and the policy's rules installed over a clean base, every packet of
   * every tunnel is treated as the policy says.
   */
  lemma InstalledMeansSpec(p: Policy, peers: seq<Peer>, at: nat, before: seq<Line>, k: Packet, host: string,
                           healthy: bool, warpHealthy: bool)
    requires at < |peers| && DistinctTunnels(peers) && InPool(peers[at].vip) && p.domains != []
    requires k.src == peers[at].vip && k.tunnel == Some(peers[at].reqid)
    requires Staged(before, 3) && Ordinary(before)
    ensures var lines := Stack(Firewall(Some(p), peers), Keep(before, Unmanaged));
            var covered := p.everyone || Named(p, peers[at].identity);
            KernelEgress(lines, Gateway(p, healthy, warpHealthy), k, host) ==
            if k.network.Tcp? && k.port in {80, 443} then Spec(p, covered, host, healthy, warpHealthy)
            else if k.network.Udp? && k.port == 443 && p.enabled && p.disableQuic && covered then Blocked
            else Direct
  {
    var rules := Firewall(Some(p), peers);
    FirewallToGateway(Some(p), peers);
    KernelIsIke(rules, before, Gateway(p, healthy, warpHealthy), k, host);
    IkeMeansSpec(p, peers, at, k, host, healthy, warpHealthy);
  }

  /** A packet outside every tunnel is forwarded as before, whatever policy is installed. */
  lemma InstalledSparesOutsiders(policy: Option<Policy>, peers: seq<Peer>, before: seq<Line>, gateway: Config,
                                 k: Packet, host: string)
    requires Staged(before, 3) && Ordinary(before) && k.tunnel.None?
    ensures KernelEgress(Stack(Firewall(policy, peers), Keep(before, Unmanaged)), gateway, k, host) == Direct
  {
    var rules := Firewall(policy, peers);
    FirewallToGateway(policy, peers);
    if AnyCaught(rules, k) { FirewallCatchesTunnels(policy, peers, k); }
    KernelIsIke(rules, before, gateway, k, host);
    OutsidersUntouched(policy, peers, gateway, k, host);
  }

  // ---------- The IPv6 chain ----------

  /** After an installation the IPv6 listener is closed; a truthful one repeats nothing, a removal undoes one. */
  lemma Ipv6GuardExactly(lines6: seq<Line>, failing: set<nat>)
    ensures REJECT6 in Guarded6(lines6, false, failing)
    ensures Guarded6(lines6, false, failing) == lines6 <==> REJECT6 in lines6 && 3 !in failing
    ensures Guarded6(lines6, false, failing) in {lines6, [REJECT6] + lines6}
    ensures REJECT6 !in lines6 ==>
              (Guarded6(Guarded6(lines6, false, {}), true, failing) == lines6 <==> 3 !in failing)
  {
    assert |[REJECT6] + lines6| != |lines6|;
    WithoutFront(REJECT6, lines6, REJECT6);
  }
}
