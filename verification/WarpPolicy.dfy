/**
 * The WARP policy compiled into two chained rule lists: the main Xray hands flows to a local gateway,
 * which picks their egress; IKE flows reach the gateway by a firewall redirect.
 */
module WarpPolicy {
  import opened Sums

  datatype Provider = Warp | Psiphon | Firefox

  datatype User = User(id: string, name: string)

  datatype Policy = Policy(enabled: bool, everyone: bool, users: seq<User>, domains: seq<string>, excluded: seq<string>,
                           block: bool, disableQuic: bool, provider: Provider, antigravityViaWarp: bool)

  const ANTIGRAVITY := ["daily-cloudcode-pa.googleapis.com", "cloudcode-pa.googleapis.com",
                        "cloudaicompanion.googleapis.com", "jetski-webchannel.googleapis.com"]

  const WARP_PORT := 40000
  const ROUTER_PORT := 40001
  const PSIPHON_PORT := 40002
  const FIREFOX_PORT := 40003
  const IKE_PORT := 10087

  function ProviderPort(p: Provider): nat {
    match p case Warp => WARP_PORT case Psiphon => PSIPHON_PORT case Firefox => FIREFOX_PORT
  }

  predicate Separate(p: Policy) { p.provider.Psiphon? && p.antigravityViaWarp }

  // ---------- Xray rules ----------

  datatype Network = Tcp | Udp

  /** The tags of the fixed configurations: where flows enter and where they are sent. */
  datatype Entry = ApiIn | Vless(tag: string) | IkeWeb | XrayWeb

  datatype Exit = ToDirect | ToApi | ToRouter | ToQuic | ToWarp | ToAntigravity

  /** Absent and empty lists constrain nothing, as in Xray. */
  datatype Rule = Rule(inboundTag: Option<Entry>, users: seq<string>, domains: seq<string>, network: Option<Network>,
                       port: Option<nat>, outbound: Exit)

  datatype Request = Request(inbound: Entry, user: string, host: string, network: Network, port: nat)

  datatype Kind = Freedom | Blackhole | Socks(port: nat) | Control

  datatype Outbound = Outbound(tag: Exit, kind: Kind)

  /** What an inbound speaks: VLESS, SOCKS for TCP, connections redirected by the kernel, or one fixed service. */
  datatype Protocol = VlessIn | SocksIn | Transparent | FixedIn

  /** Whether the host name is read from the flow, for routing only or also as its destination. */
  datatype Sniffing = Off | RouteOnly | Override

  datatype Inbound = Inbound(tag: Entry, protocol: Protocol, loopback: bool, port: nat, sniffing: Sniffing)

  datatype Config = Config(inbounds: seq<Inbound>, outbounds: seq<Outbound>, rules: seq<Rule>)

  /** domain:d matches d and every name below it. */
  predicate Below(host: string, d: string) {
    host == d || (|host| > |d| && host[|host| - |d|..] == d && host[|host| - |d| - 1] == '.')
  }

  predicate Listed(domains: seq<string>, host: string) {
    exists i :: 0 <= i < |domains| && Below(host, domains[i])
  }

  predicate Matches(rule: Rule, f: Request) {
    && (rule.inboundTag.Some? ==> f.inbound == rule.inboundTag.value)
    && (rule.users != [] ==> f.user in rule.users)
    && (rule.domains != [] ==> Listed(rule.domains, f.host))
    && (rule.network.Some? ==> f.network == rule.network.value)
    && (rule.port.Some? ==> f.port == rule.port.value)
  }

  /** The outbound tag of the first matching rule, or of the first outbound. */
  function Route(rules: seq<Rule>, default: Exit, f: Request): Exit {
    if rules == [] then default else if Matches(rules[0], f) then rules[0].outbound else Route(rules[1..], default, f)
  }

  function KindOf(outbounds: seq<Outbound>, tag: Exit): Kind {
    if outbounds == [] then Control else if outbounds[0].tag == tag then outbounds[0].kind
                                         else KindOf(outbounds[1..], tag)
  }

  // ---------- The two compilers ----------

  function Emails(users: seq<User>): seq<string> {
    if users == [] then [] else
      var n := |users| - 1;
      Emails(users[..n]) + ["zvpn-" + users[n].id, "zvpn-netlify-" + users[n].id, "zvpn-iran-" + users[n].id]
  }

  /** dict.fromkeys: the first occurrence of each name. */
  function Unique(names: seq<string>): seq<string> {
    if names == [] then [] else
      var n := |names| - 1;
      var before := Unique(names[..n]);
      if names[n] in before then before else before + [names[n]]
  }

  predicate Applies(p: Policy) { p.enabled && (p.everyone || p.users != []) }

  function HandedDomains(p: Policy): seq<string> {
    Unique(p.domains + if Separate(p) then ANTIGRAVITY else [])
  }

  function PolicyRules(p: Policy): seq<Rule> {
    var users := if p.everyone then [] else Emails(p.users);
    (if p.excluded != [] then [Rule(None, users, p.excluded, None, None, ToDirect)] else []) +
    ((if p.disableQuic then [Rule(None, users, HandedDomains(p), Some(Udp), Some(443), ToQuic)] else []) +
     [Rule(None, users, HandedDomains(p), Some(Tcp), None, ToRouter)])
  }

  function Sniffed(inbounds: seq<Inbound>): seq<Inbound> {
    if inbounds == [] then [] else
      var n := |inbounds| - 1;
      var last := inbounds[n];
      Sniffed(inbounds[..n]) + [if last.protocol.VlessIn? then last.(sniffing := RouteOnly) else last]
  }

  function Compiled(config: Config, policy: Option<Policy>): Config {
    if policy.None? || !Applies(policy.value) then config else
      Config(Sniffed(config.inbounds),
             config.outbounds + [Outbound(ToRouter, Socks(ROUTER_PORT)), Outbound(ToQuic, Blackhole)],
             config.rules + PolicyRules(policy.value))
  }

  method EmailList(users: seq<User>) returns (emails: seq<string>)
    ensures emails == Emails(users)
  {
    emails := [];
    for i := 0 to |users|
      invariant emails == Emails(users[..i])
    {
      assert users[..i + 1][..i] == users[..i];
      emails := emails + ["zvpn-" + users[i].id, "zvpn-netlify-" + users[i].id, "zvpn-iran-" + users[i].id];
    }
    assert users[..|users|] == users;
  }

  method FirstOccurrences(names: seq<string>) returns (kept: seq<string>)
    ensures kept == Unique(names)
  {
    kept := [];
    for i := 0 to |names|
      invariant kept == Unique(names[..i])
    {
      assert names[..i + 1][..i] == names[..i];
      if names[i] !in kept { kept := kept + [names[i]]; }
    }
    assert names[..|names|] == names;
  }

  /** The inbounds as they were, except that every VLESS inbound sniffs for routing. */
  predicate SniffsVless(before: seq<Inbound>, after: seq<Inbound>) {
    && |after| == |before|
    && forall i :: 0 <= i < |before| ==>
         after[i] == before[i].(sniffing := if before[i].protocol.VlessIn? then RouteOnly else before[i].sniffing)
  }

  lemma {:induction false} SniffedVless(inbounds: seq<Inbound>)
    ensures SniffsVless(inbounds, Sniffed(inbounds))
  {
    if inbounds != [] { SniffedVless(inbounds[..|inbounds| - 1]); }
  }

  method SniffInbounds(inbounds: seq<Inbound>) returns (sniffed: seq<Inbound>)
    ensures sniffed == Sniffed(inbounds) && SniffsVless(inbounds, sniffed)
  {
    sniffed := [];
    for i := 0 to |inbounds|
      invariant sniffed == Sniffed(inbounds[..i])
    {
      assert inbounds[..i + 1][..i] == inbounds[..i];
      var inbound := inbounds[i];
      if inbound.protocol == VlessIn { inbound := inbound.(sniffing := RouteOnly); }
      sniffed := sniffed + [inbound];
    }
    assert inbounds[..|inbounds|] == inbounds;
    SniffedVless(inbounds);
  }

  method MainXray(config: Config, policy: Option<Policy>) returns (data: Config)
    ensures data == Compiled(config, policy)
    ensures policy.None? || !Applies(policy.value) ==> data == config
    ensures policy.Some? && Applies(policy.value) ==>
              SniffsVless(config.inbounds, data.inbounds) && config.outbounds <= data.outbounds &&
              config.rules <= data.rules
  {
    data := config;
    if policy.None? || !policy.value.enabled { return; }
    var p := policy.value;
    if !p.everyone && p.users == [] { return; }
    var inbounds := SniffInbounds(config.inbounds);
    var outbounds := config.outbounds + [Outbound(ToRouter, Socks(ROUTER_PORT)), Outbound(ToQuic, Blackhole)];
    var users: seq<string> := [];
    if !p.everyone { users := EmailList(p.users); }
    var rules := config.rules;
    if p.excluded != [] { rules := rules + [Rule(None, users, p.excluded, None, None, ToDirect)]; }
    var domain := FirstOccurrences(p.domains + if Separate(p) then ANTIGRAVITY else []);
    if p.disableQuic { rules := rules + [Rule(None, users, domain, Some(Udp), Some(443), ToQuic)]; }
    rules := rules + [Rule(None, users, domain, Some(Tcp), None, ToRouter)];
    data := Config(inbounds, outbounds, rules);
  }

  function Gateway(p: Policy, healthy: bool, warpHealthy: bool): Config {
    var target := if healthy || p.block then ToWarp else ToDirect;
    Config(
      [Inbound(IkeWeb, Transparent, false, IKE_PORT, Override), Inbound(XrayWeb, SocksIn, true, ROUTER_PORT, RouteOnly),
       Inbound(ApiIn, FixedIn, true, 10089, Off)],
      [Outbound(ToDirect, Freedom), Outbound(ToWarp, Socks(ProviderPort(p.provider)))] +
      (if Separate(p) then [Outbound(ToAntigravity, Socks(WARP_PORT))] else []),
      [Rule(Some(ApiIn), [], [], None, None, ToApi)] +
      ((if p.excluded != [] then [Rule(None, [], p.excluded, None, None, ToDirect)] else []) +
      ((if Separate(p)
        then [Rule(None, [], ANTIGRAVITY, None, None, if warpHealthy || p.block then ToAntigravity else ToDirect)]
        else []) +
      [Rule(None, [], p.domains, None, None, target)])))
  }

  // ---------- Where flows leave ----------

  /** `Through` a provider's proxy; `Local` is the control API; `Lost` when nothing takes the flow. */
  datatype Egress = Direct | Blocked | Through(provider: Provider) | Local | Lost

  /** The provider whose service listens on a loopback port. */
  function ServiceAt(port: nat): Option<Provider> {
    if port == 40000 then Some(Warp) else if port == 40002 then Some(Psiphon)
    else if port == 40003 then Some(Firefox) else None
  }

  function EgressOf(kind: Kind): Egress {
    match kind
    case Freedom => Direct
    case Blackhole => Blocked
    case Socks(port) => (match ServiceAt(port) case Some(p) => Through(p) case None => Lost)
    case Control => Local
  }

  function ConfigRoute(c: Config, f: Request): Kind {
    KindOf(c.outbounds, Route(c.rules, if c.outbounds == [] then ToDirect else c.outbounds[0].tag, f))
  }

  function InboundOf(inbounds: seq<Inbound>, tag: Entry): Option<Inbound> {
    if inbounds == [] then None else if inbounds[0].tag == tag then Some(inbounds[0]) else InboundOf(inbounds[1..], tag)
  }

  function Listener(inbounds: seq<Inbound>, port: nat): Option<Inbound> {
    if inbounds == [] then None
    else if inbounds[0].port == port then Some(inbounds[0])
    else Listener(inbounds[1..], port)
  }

  /** The host name the rules see: the request names it, or the inbound sniffs it. */
  function Seen(sniffing: Sniffing, byName: bool, host: string): string {
    if byName || !sniffing.Off? then host else ""
  }

  /** A flow inside a configuration, from one of its inbounds. */
  function From(c: Config, door: Inbound, byName: bool, f: Request): Egress {
    EgressOf(ConfigRoute(c, Request(door.tag, f.user, Seen(door.sniffing, byName, f.host), f.network, f.port)))
  }

  /** A flow handed to a local SOCKS port: the gateway's if it listens there, else that of a provider. */
  function Handed(gateway: Config, port: nat, byName: bool, f: Request): Egress {
    match Listener(gateway.inbounds, port)
    case None => EgressOf(Socks(port))
    case Some(door) =>
      if door.protocol.SocksIn? && f.network.Tcp? then From(gateway, door, byName, f.(user := "")) else Lost
  }

  /** A connection the kernel redirects to a port of this machine; the inbound must listen on every address. */
  function Redirected(gateway: Config, port: nat, f: Request): Egress {
    match Listener(gateway.inbounds, port)
    case None => Lost
    case Some(door) =>
      if door.protocol.Transparent? && !door.loopback && f.network.Tcp? then From(gateway, door, false, f) else Lost
  }

  /** A connection to the port of a fixed service. */
  function Asked(c: Config, port: nat): Egress {
    match Listener(c.inbounds, port)
    case None => Lost
    case Some(door) =>
      if door.protocol.FixedIn? then From(c, door, false, Request(door.tag, "", "", Tcp, port)) else Lost
  }

  /** A flow enters the main Xray by its inbound, and leaves or is handed on as its rules say. */
  function XrayEgress(main: Config, gateway: Config, byName: bool, f: Request): Egress {
    match InboundOf(main.inbounds, f.inbound)
    case None => Lost
    case Some(door) =>
      match ConfigRoute(main, f.(host := Seen(door.sniffing, byName, f.host)))
      case Socks(port) => Handed(gateway, port, byName, f)
      case kind => EgressOf(kind)
  }

  /** The policy read as a reader would: excluded, then the Antigravity split, then included, then direct. */
  function Spec(p: Policy, selected: bool, host: string, healthy: bool, warpHealthy: bool): Egress {
    if !p.enabled || !selected || Listed(p.excluded, host) then Direct
    else if Separate(p) && Listed(ANTIGRAVITY, host) then (if warpHealthy || p.block then Through(Warp) else Direct)
    else if Listed(p.domains, host) then (if healthy || p.block then Through(p.provider) else Direct)
    else Direct
  }

  predicate Selected(p: Policy, user: string) { p.everyone || user in Emails(p.users) }

  // ---------- Lemmas ----------

  lemma RouteFirst(rule: Rule, more: seq<Rule>, default: Exit, f: Request)
    ensures Route([rule] + more, default, f) == if Matches(rule, f) then rule.outbound else Route(more, default, f)
  {
    assert ([rule] + more)[1..] == more;
  }

  lemma {:induction false} UniqueMembers(names: seq<string>)
    ensures forall n :: n in Unique(names) <==> n in names
  {
    if names != [] { UniqueMembers(names[..|names| - 1]); }
  }

  /** `kept` lists the names at the positions `at`, which are those of first occurrences, in order. */
  ghost predicate Firsts(names: seq<string>, kept: seq<string>, at: seq<nat>) {
    && |at| == |kept|
    && (forall i :: 0 <= i < |at| ==> at[i] < |names| && names[at[i]] !in names[..at[i]] && kept[i] == names[at[i]])
    && (forall i, j :: 0 <= i < j < |at| ==> at[i] < at[j])
    && (forall k: nat :: k < |names| && names[k] !in names[..k] ==> k in at)
  }

  lemma FirstsSkip(names: seq<string>, kept: seq<string>, at: seq<nat>, name: string)
    requires Firsts(names, kept, at) && name in names
    ensures Firsts(names + [name], kept, at)
  {
    var all := names + [name];
    assert all[..|names|] == names;
    forall k: nat | k < |names|
      ensures all[..k] == names[..k] && all[k] == names[k]
    {
    }
  }

  lemma FirstsNext(names: seq<string>, kept: seq<string>, at: seq<nat>, name: string)
    requires Firsts(names, kept, at) && name !in names
    ensures Firsts(names + [name], kept + [name], at + [|names|])
  {
    var all, next := names + [name], at + [|names|];
    assert all[..|names|] == names;
    forall k: nat | k < |names|
      ensures all[..k] == names[..k] && all[k] == names[k]
    {
    }
    assert next[|at|] == |names|;
    forall k: nat | k < |all| && all[k] !in all[..k]
      ensures k in next
    {
      if k < |names| {
        var i :| 0 <= i < |at| && at[i] == k;
        assert next[i] == k;
      }
    }
  }

  ghost predicate FirstsOf(names: seq<string>, kept: seq<string>) { exists at: seq<nat> :: Firsts(names, kept, at) }

  lemma FirstsStep(names: seq<string>, kept: seq<string>, name: string)
    requires FirstsOf(names, kept)
    ensures FirstsOf(names + [name], if name in names then kept else kept + [name])
  {
    var at: seq<nat> :| Firsts(names, kept, at);
    if name in names {
      FirstsSkip(names, kept, at, name);
    } else {
      FirstsNext(names, kept, at, name);
    }
  }

  lemma FirstsOfNone(kept: seq<string>)
    requires kept == []
    ensures FirstsOf([], kept)
  {
    assert Firsts([], kept, []);
  }

  lemma UniqueLast(before: seq<string>, name: string)
    ensures Unique(before + [name]) == if name in before then Unique(before) else Unique(before) + [name]
  {
    var names := before + [name];
    assert names[..|names| - 1] == before;
    UniqueMembers(before);
  }

  /** Every name once, in the order of first occurrences. */
  lemma {:induction false} UniqueExactly(names: seq<string>)
    ensures FirstsOf(names, Unique(names))
  {
    if names == [] {
      FirstsOfNone(Unique(names));
    } else {
      var before, last := names[..|names| - 1], names[|names| - 1];
      assert names == before + [last];
      UniqueExactly(before);
      UniqueLast(before, last);
      FirstsStep(before, Unique(before), last);
    }
  }

  lemma ListedBySet(a: seq<string>, b: seq<string>, host: string)
    requires forall n :: n in a ==> n in b
    ensures Listed(a, host) ==> Listed(b, host)
  {
    if i :| 0 <= i < |a| && Below(host, a[i]) {
      assert a[i] in b;
      var j :| 0 <= j < |b| && b[j] == a[i];
    }
  }

  lemma ListedAppend(a: seq<string>, b: seq<string>, host: string)
    ensures Listed(a + b, host) <==> Listed(a, host) || Listed(b, host)
  {
    if i :| 0 <= i < |a| && Below(host, a[i]) { assert Below(host, (a + b)[i]); }
    if i :| 0 <= i < |b| && Below(host, b[i]) { assert Below(host, (a + b)[|a| + i]); }
  }

  /** The main Xray hands over the included names and, with the split, the Antigravity names. */
  lemma HandedExactly(p: Policy, host: string)
    ensures Listed(HandedDomains(p), host) <==> Listed(p.domains, host) || (Separate(p) && Listed(ANTIGRAVITY, host))
    ensures p.domains != [] ==> HandedDomains(p) != []
  {
    var names := p.domains + if Separate(p) then ANTIGRAVITY else [];
    UniqueMembers(names);
    ListedBySet(Unique(names), names, host);
    ListedBySet(names, Unique(names), host);
    ListedAppend(p.domains, if Separate(p) then ANTIGRAVITY else [], host);
    if p.domains != [] { assert names[0] in Unique(names); }
  }

  lemma {:induction false} EmailsNonempty(users: seq<User>)
    ensures users != [] ==> Emails(users) != []
  {
  }

  /** A rule that is added only when it is needed. */
  lemma OnTop(use: bool, rule: Rule, more: seq<Rule>, default: Exit, f: Request)
    ensures Route((if use then [rule] else []) + more, default, f) ==
            if use && Matches(rule, f) then rule.outbound else Route(more, default, f)
  {
    if use { RouteFirst(rule, more, default, f); } else { assert [] + more == more; }
  }

  /** What the policy rules alone decide. */
  lemma {:induction false} PolicyRoute(p: Policy, f: Request)
    requires Applies(p) && p.domains != []
    ensures Route(PolicyRules(p), ToDirect, f) ==
            if !Selected(p, f.user) || Listed(p.excluded, f.host) || !Listed(HandedDomains(p), f.host) then ToDirect
            else if f.network.Tcp? then ToRouter
            else if p.disableQuic && f.port == 443 then ToQuic
            else ToDirect
  {
    var users := if p.everyone then [] else Emails(p.users);
    EmailsNonempty(p.users);
    HandedExactly(p, f.host);
    var e := Rule(None, users, p.excluded, None, None, ToDirect);
    var q := Rule(None, users, HandedDomains(p), Some(Udp), Some(443), ToQuic);
    var h := Rule(None, users, HandedDomains(p), Some(Tcp), None, ToRouter);
    var tail := (if p.disableQuic then [q] else []) + [h];
    assert PolicyRules(p) == (if p.excluded != [] then [e] else []) + tail;
    OnTop(p.excluded != [], e, tail, ToDirect, f);
    OnTop(p.disableQuic, q, [h], ToDirect, f);
    OnTop(true, h, [], ToDirect, f);
    assert [h] == [h] + [];
  }
}
