/** Where a flow of an account leaves the server under a WARP policy, over Xray and over IKE. */
module WarpEgress {
  import opened Sums
  import opened WarpPolicy
  import opened XrayIdentity

  // ---------- Identities ----------

  lemma {:induction false} EmailOf(users: seq<User>, i: nat, t: Inlet)
    requires i < |users|
    ensures Prefix(t) + users[i].id in Emails(users)
  {
    var n := |users| - 1;
    var last := ["zvpn-" + users[n].id, "zvpn-netlify-" + users[n].id, "zvpn-iran-" + users[n].id];
    if i < n {
      assert users[..n][i] == users[i];
      EmailOf(users[..n], i, t);
    } else {
      assert Prefix(t) + users[i].id == last[if t == Main then 0 else if t == Netlify then 1 else 2];
    }
  }

  lemma {:induction false} EmailFrom(users: seq<User>, email: string) returns (i: nat, t: Inlet)
    requires email in Emails(users)
    ensures i < |users| && email == Prefix(t) + users[i].id
  {
    var n := |users| - 1;
    var last := ["zvpn-" + users[n].id, "zvpn-netlify-" + users[n].id, "zvpn-iran-" + users[n].id];
    if email in Emails(users[..n]) {
      i, t := EmailFrom(users[..n], email);
      assert users[..n][i] == users[i];
    } else {
      assert email in last;
      i := n;
      if email == last[0] {
        t := Main;
      } else if email == last[1] {
        t := Netlify;
      } else {
        assert email == last[2];
        t := Iran;
      }
    }
  }

  /** Identifiers of one length: the e-mail of a transport selects exactly the accounts of the policy. */
  lemma EmailSelectsAccount(users: seq<User>, id: string, t: Inlet)
    requires forall i :: 0 <= i < |users| ==> |users[i].id| == |id|
    ensures Prefix(t) + id in Emails(users) <==> exists i :: 0 <= i < |users| && users[i].id == id
  {
    if Prefix(t) + id in Emails(users) {
      var i, s := EmailFrom(users, Prefix(t) + id);
      assert |Prefix(s)| == |Prefix(t)|;
      assert (Prefix(t) + id)[|Prefix(t)|..] == id && (Prefix(s) + users[i].id)[|Prefix(s)|..] == users[i].id;
    }
    if i :| 0 <= i < |users| && users[i].id == id { EmailOf(users, i, t); }
  }

  // ---------- The gateway ----------

  lemma {:induction false} GatewayRoute(p: Policy, healthy: bool, warpHealthy: bool, f: Request)
    requires p.domains != [] && f.inbound != ApiIn
    ensures Route(Gateway(p, healthy, warpHealthy).rules, ToDirect, f) ==
            if Listed(p.excluded, f.host) then ToDirect
            else if Separate(p) && Listed(ANTIGRAVITY, f.host)
            then (if warpHealthy || p.block then ToAntigravity else ToDirect)
            else if Listed(p.domains, f.host) && (healthy || p.block) then ToWarp
            else ToDirect
  {
    var api := Rule(Some(ApiIn), [], [], None, None, ToApi);
    var e := Rule(None, [], p.excluded, None, None, ToDirect);
    var a := Rule(None, [], ANTIGRAVITY, None, None, if warpHealthy || p.block then ToAntigravity else ToDirect);
    var d := Rule(None, [], p.domains, None, None, if healthy || p.block then ToWarp else ToDirect);
    var split := (if Separate(p) then [a] else []) + [d];
    var all := (if p.excluded != [] then [e] else []) + split;
    assert Gateway(p, healthy, warpHealthy).rules == [api] + all;
    RouteFirst(api, all, ToDirect, f);
    OnTop(p.excluded != [], e, split, ToDirect, f);
    SplitRoute(p, a, d, f);
  }

  lemma {:induction false} SplitRoute(p: Policy, a: Rule, d: Rule, f: Request)
    ensures Route((if Separate(p) then [a] else []) + [d], ToDirect, f) ==
            if Separate(p) && Matches(a, f) then a.outbound else if Matches(d, f) then d.outbound else ToDirect
  {
    OnTop(Separate(p), a, [d], ToDirect, f);
    OnTop(true, d, [], ToDirect, f);
    assert [d] == [d] + [];
  }

  lemma KindFirst(o: Outbound, more: seq<Outbound>, tag: Exit)
    ensures KindOf([o] + more, tag) == if o.tag == tag then o.kind else KindOf(more, tag)
  {
    assert ([o] + more)[1..] == more;
  }

  lemma {:induction false} GatewayKinds(p: Policy, healthy: bool, warpHealthy: bool)
    ensures KindOf(Gateway(p, healthy, warpHealthy).outbounds, ToDirect) == Freedom
    ensures KindOf(Gateway(p, healthy, warpHealthy).outbounds, ToWarp) == Socks(ProviderPort(p.provider))
    ensures Separate(p) ==> KindOf(Gateway(p, healthy, warpHealthy).outbounds, ToAntigravity) == Socks(WARP_PORT)
  {
    var direct, warp := Outbound(ToDirect, Freedom), Outbound(ToWarp, Socks(ProviderPort(p.provider)));
    var split := if Separate(p) then [Outbound(ToAntigravity, Socks(WARP_PORT))] else [];
    assert Gateway(p, healthy, warpHealthy).outbounds == [direct] + ([warp] + split);
    KindFirst(direct, [warp] + split, ToDirect);
    KindFirst(direct, [warp] + split, ToWarp);
    KindFirst(direct, [warp] + split, ToAntigravity);
    KindFirst(warp, split, ToWarp);
    KindFirst(warp, split, ToAntigravity);
    if Separate(p) { KindFirst(split[0], [], ToAntigravity); assert split == [split[0]] + []; }
  }

  /** The gateway alone applies the policy to every flow of a selected account that reaches it. */
  lemma GatewayMeansSpec(p: Policy, healthy: bool, warpHealthy: bool, f: Request)
    requires p.enabled && p.domains != [] && f.inbound != ApiIn
    ensures EgressOf(ConfigRoute(Gateway(p, healthy, warpHealthy), f)) == Spec(p, true, f.host, healthy, warpHealthy)
  {
    GatewayRoute(p, healthy, warpHealthy, f);
    GatewayKinds(p, healthy, warpHealthy);
  }

  /** The statistics API stays reachable whatever the policy excludes. */
  lemma GatewayKeepsApi(p: Policy, healthy: bool, warpHealthy: bool, f: Request)
    requires f.inbound == ApiIn
    ensures EgressOf(ConfigRoute(Gateway(p, healthy, warpHealthy), f)) == Local
  {
    var rules, outbounds := Gateway(p, healthy, warpHealthy).rules, Gateway(p, healthy, warpHealthy).outbounds;
    assert Matches(rules[0], f) && Route(rules, ToDirect, f) == ToApi;
    KindOfMissing(outbounds, ToApi);
  }

  lemma {:induction false} KindOfMissing(outbounds: seq<Outbound>, tag: Exit)
    requires forall o :: o in outbounds ==> o.tag != tag
    ensures KindOf(outbounds, tag) == Control
  {
    if outbounds != [] {
      assert outbounds[0] in outbounds;
      KindOfMissing(outbounds[1..], tag);
    }
  }

  /** Where the gateway sends every flow. */
  lemma GatewayDecides(p: Policy, healthy: bool, warpHealthy: bool)
    ensures p.enabled && p.domains != [] ==>
              forall f :: EgressOf(ConfigRoute(Gateway(p, healthy, warpHealthy), f)) ==
                          if f.inbound == ApiIn then Local else Spec(p, true, f.host, healthy, warpHealthy)
  {
    if p.enabled && p.domains != [] {
      forall f
        ensures EgressOf(ConfigRoute(Gateway(p, healthy, warpHealthy), f)) ==
                if f.inbound == ApiIn then Local else Spec(p, true, f.host, healthy, warpHealthy)
      {
        if f.inbound == ApiIn {
          GatewayKeepsApi(p, healthy, warpHealthy, f);
        } else {
          GatewayMeansSpec(p, healthy, warpHealthy, f);
        }
      }
    }
  }

  lemma ListenerFirst(v: Inbound, more: seq<Inbound>, port: nat)
    ensures Listener([v] + more, port) == if v.port == port then Some(v) else Listener(more, port)
    ensures InboundOf([v] + more, v.tag) == Some(v)
    ensures forall tag :: tag != v.tag ==> InboundOf([v] + more, tag) == InboundOf(more, tag)
  {
    assert ([v] + more)[1..] == more;
  }

  /** What listens on the ports of the gateway. */
  lemma GatewayDoors(p: Policy, healthy: bool, warpHealthy: bool)
    ensures var inbounds := Gateway(p, healthy, warpHealthy).inbounds;
            && Listener(inbounds, 10087) == Some(Inbound(IkeWeb, Transparent, false, 10087, Override))
            && Listener(inbounds, 40001) == Some(Inbound(XrayWeb, SocksIn, true, 40001, RouteOnly))
            && Listener(inbounds, 10089) == Some(Inbound(ApiIn, FixedIn, true, 10089, Off))
  {
    var ike := Inbound(IkeWeb, Transparent, false, 10087, Override);
    var xray := Inbound(XrayWeb, SocksIn, true, 40001, RouteOnly);
    var api := Inbound(ApiIn, FixedIn, true, 10089, Off);
    assert Gateway(p, healthy, warpHealthy).inbounds == [ike] + ([xray] + ([api] + []));
    forall port: nat
      ensures Listener([ike] + ([xray] + ([api] + [])), port) ==
              if port == 10087 then Some(ike) else if port == 40001 then Some(xray)
              else if port == 10089 then Some(api) else None
    {
      ListenerFirst(ike, [xray] + ([api] + []), port);
      ListenerFirst(xray, [api] + [], port);
      ListenerFirst(api, [], port);
    }
  }

  /** A TCP flow handed to the gateway's SOCKS port, or redirected to its transparent one, meets the policy. */
  lemma DoorsMeanSpec(p: Policy, healthy: bool, warpHealthy: bool, byName: bool, f: Request)
    requires p.enabled && p.domains != [] && f.network.Tcp?
    ensures Handed(Gateway(p, healthy, warpHealthy), 40001, byName, f) == Spec(p, true, f.host, healthy, warpHealthy)
    ensures Redirected(Gateway(p, healthy, warpHealthy), 10087, f) == Spec(p, true, f.host, healthy, warpHealthy)
  {
    GatewayDoors(p, healthy, warpHealthy);
    GatewayMeansSpec(p, healthy, warpHealthy, Request(XrayWeb, "", f.host, f.network, f.port));
    GatewayMeansSpec(p, healthy, warpHealthy, Request(IkeWeb, f.user, f.host, f.network, f.port));
  }

  /** Whether what enters by a port goes on to its outbound under a host name rather than an address. */
  predicate HandsName(c: Config, port: nat, byName: bool) {
    var door := Listener(c.inbounds, port);
    door.Some? && (byName || door.value.sniffing.Override?)
  }

  /** Over IKE a proxy is always asked by name; over Xray exactly when the client asked so. */
  lemma NameHandedExactly(p: Policy, healthy: bool, warpHealthy: bool, byName: bool)
    ensures HandsName(Gateway(p, healthy, warpHealthy), 10087, false)
    ensures HandsName(Gateway(p, healthy, warpHealthy), 40001, byName) <==> byName
  {
    GatewayDoors(p, healthy, warpHealthy);
  }

  /** The counters of the gateway answer on the port they are read from. */
  lemma GatewayAnswers(p: Policy, healthy: bool, warpHealthy: bool)
    ensures Asked(Gateway(p, healthy, warpHealthy), 10089) == Local
  {
    GatewayDoors(p, healthy, warpHealthy);
    GatewayKeepsApi(p, healthy, warpHealthy, Request(ApiIn, "", "", Tcp, 10089));
  }

  lemma Regroup(a: seq<Rule>, b: seq<Rule>, c: seq<Rule>, d: seq<Rule>)
    ensures a + b + c + d == a + (b + (c + d))
  {
  }

  /** The gateway's configuration, and what it does with every flow. */
  method GatewayConfig(p: Policy, healthy: bool, warpHealthy: bool) returns (c: Config)
    ensures c == Gateway(p, healthy, warpHealthy)
    ensures p.enabled && p.domains != [] ==>
              forall f :: EgressOf(ConfigRoute(c, f)) ==
                if f.inbound == ApiIn then Local else Spec(p, true, f.host, healthy, warpHealthy)
  {
    var target := if healthy || p.block then ToWarp else ToDirect;
    var split := if warpHealthy || p.block then ToAntigravity else ToDirect;
    ghost var e := if p.excluded != [] then [Rule(None, [], p.excluded, None, None, ToDirect)] else [];
    ghost var a := if Separate(p)
                   then [Rule(None, [], ANTIGRAVITY, None, None, split)]
                   else [];
    var api := Rule(Some(ApiIn), [], [], None, None, ToApi);
    var rules: seq<Rule> := [api];
    if p.excluded != [] { rules := rules + [Rule(None, [], p.excluded, None, None, ToDirect)]; }
    assert rules == [api] + e;
    var extra: seq<Outbound> := [];
    if p.provider == Psiphon && p.antigravityViaWarp {
      extra := extra + [Outbound(ToAntigravity, Socks(40000))];
      rules := rules + [Rule(None, [], ANTIGRAVITY, None, None, split)];
    }
    assert rules == [api] + e + a;
    rules := rules + [Rule(None, [], p.domains, None, None, target)];
    Regroup([api], e, a, [Rule(None, [], p.domains, None, None, target)]);
    var port := match p.provider case Warp => 40000 case Psiphon => 40002 case Firefox => 40003;
    c := Config(
      [Inbound(IkeWeb, Transparent, false, 10087, Override), Inbound(XrayWeb, SocksIn, true, 40001, RouteOnly),
       Inbound(ApiIn, FixedIn, true, 10089, Off)],
      [Outbound(ToDirect, Freedom), Outbound(ToWarp, Socks(port))] + extra,
      rules);
    GatewayDecides(p, healthy, warpHealthy);
  }

  // ---------- The main Xray ----------

  /** The inbound of each transport. */
  function EntryOf(t: Inlet): Entry {
    match t case Main => Vless("zvpn-vless") case Netlify => Vless("zvpn-netlify") case Iran => Vless("zvpn-iran")
  }

  function FixedInbounds(iran: bool): seq<Inbound> {
    [Inbound(ApiIn, FixedIn, true, 10086, Off),
     Inbound(EntryOf(Main), VlessIn, true, 10085, Off),
     Inbound(EntryOf(Netlify), VlessIn, true, 10090, Off)] +
    if iran then [Inbound(EntryOf(Iran), VlessIn, true, 10091, Off)] else []
  }

  /** The only shape the apply helper accepts: fixed inbounds, one direct outbound, the rule of the statistics API. */
  predicate FixedShape(config: Config) {
    && (config.inbounds == FixedInbounds(false) || config.inbounds == FixedInbounds(true))
    && config.outbounds == [Outbound(ToDirect, Freedom)]
    && config.rules == [Rule(Some(ApiIn), [], [], None, None, ToApi)]
  }

  predicate Serves(config: Config, entry: Entry) { exists v :: v in config.inbounds && v.tag == entry }

  lemma {:induction false} DoorFound(inbounds: seq<Inbound>, entry: Entry)
    ensures InboundOf(inbounds, entry).Some? <==> exists v :: v in inbounds && v.tag == entry
    ensures InboundOf(inbounds, entry).Some? ==>
              InboundOf(inbounds, entry).value in inbounds && InboundOf(inbounds, entry).value.tag == entry
  {
    if inbounds != [] { DoorFound(inbounds[1..], entry); }
  }

  lemma {:induction false} DoorSniffs(before: seq<Inbound>, after: seq<Inbound>, entry: Entry)
    requires SniffsVless(before, after)
    ensures match InboundOf(before, entry)
            case None => InboundOf(after, entry).None?
            case Some(v) =>
              InboundOf(after, entry) == Some(v.(sniffing := if v.protocol.VlessIn? then RouteOnly else v.sniffing))
  {
    if before != [] {
      assert after[0].tag == before[0].tag;
      DoorSniffs(before[1..], after[1..], entry);
    }
  }

  lemma {:induction false} SamePorts(before: seq<Inbound>, after: seq<Inbound>, port: nat)
    requires SniffsVless(before, after)
    ensures match Listener(before, port)
            case None => Listener(after, port).None?
            case Some(v) =>
              Listener(after, port) == Some(v.(sniffing := if v.protocol.VlessIn? then RouteOnly else v.sniffing))
  {
    if before != [] {
      assert after[0].port == before[0].port;
      SamePorts(before[1..], after[1..], port);
    }
  }

  /** In the fixed shape every inbound but that of the statistics API speaks VLESS. */
  lemma FixedDoors(config: Config, entry: Entry)
    requires FixedShape(config)
    ensures Serves(config, entry) <==> InboundOf(config.inbounds, entry).Some?
    ensures Serves(config, entry) && entry != ApiIn ==> InboundOf(config.inbounds, entry).value.protocol.VlessIn?
    ensures Serves(config, ApiIn)
  {
    DoorFound(config.inbounds, entry);
    assert config.inbounds[0].tag == ApiIn;
  }

  /** Who enters the compiled configuration is seen with the name of the host. */
  lemma CompiledSees(config: Config, p: Policy, entry: Entry)
    requires FixedShape(config) && Applies(p) && Serves(config, entry) && entry != ApiIn
    ensures var door := InboundOf(Compiled(config, Some(p)).inbounds, entry);
            door.Some? && door.value.sniffing == RouteOnly
  {
    FixedDoors(config, entry);
    SniffedVless(config.inbounds);
    DoorSniffs(config.inbounds, Sniffed(config.inbounds), entry);
  }

  lemma CompiledKinds(config: Config, p: Policy)
    requires FixedShape(config) && Applies(p)
    ensures KindOf(Compiled(config, Some(p)).outbounds, ToDirect) == Freedom
    ensures KindOf(Compiled(config, Some(p)).outbounds, ToRouter) == Socks(ROUTER_PORT)
    ensures KindOf(Compiled(config, Some(p)).outbounds, ToQuic) == Blackhole
    ensures KindOf(Compiled(config, Some(p)).outbounds, ToApi) == Control
  {
    var d, r, q := Outbound(ToDirect, Freedom), Outbound(ToRouter, Socks(ROUTER_PORT)), Outbound(ToQuic, Blackhole);
    assert Compiled(config, Some(p)).outbounds == [d] + ([r] + ([q] + []));
    forall tag ensures KindOf(Compiled(config, Some(p)).outbounds, tag) ==
                       if tag == d.tag then d.kind
                       else if tag == r.tag then r.kind
                       else if tag == q.tag then q.kind
                       else Control {
      KindFirst(d, [r] + ([q] + []), tag);
      KindFirst(r, [q] + [], tag);
      KindFirst(q, [], tag);
    }
  }

  /** Where the main Xray sends a flow: the statistics API is untouched, the policy decides the rest. */
  lemma {:induction false} CompiledRoute(config: Config, p: Policy, f: Request)
    requires FixedShape(config) && Applies(p) && p.domains != []
    ensures ConfigRoute(Compiled(config, Some(p)), f) ==
            if f.inbound == ApiIn then Control
            else if !Selected(p, f.user) || Listed(p.excluded, f.host) || !Listed(HandedDomains(p), f.host) then Freedom
            else if f.network.Tcp? then Socks(ROUTER_PORT)
            else if p.disableQuic && f.port == 443 then Blackhole
            else Freedom
  {
    CompiledKinds(config, p);
    RouteFirst(config.rules[0], PolicyRules(p), ToDirect, f);
    PolicyRoute(p, f);
    assert config.rules + PolicyRules(p) == [config.rules[0]] + PolicyRules(p);
  }

  lemma IdleRoute(config: Config, f: Request)
    requires FixedShape(config)
    ensures ConfigRoute(config, f) == if f.inbound == ApiIn then Control else Freedom
  {
    RouteFirst(config.rules[0], [], ToDirect, f);
    assert config.rules == [config.rules[0]] + [];
    KindFirst(config.outbounds[0], [], ToDirect);
    KindFirst(config.outbounds[0], [], ToApi);
    assert config.outbounds == [config.outbounds[0]] + [];
  }

  lemma NobodySelected(p: Policy, user: string)
    requires !p.everyone && p.users == []
    ensures !Selected(p, user)
  {
  }

  /** What happens to a UDP flow: HTTP/3 to the handed names is refused, everything else is left alone. */
  function UdpSpec(p: Policy, selected: bool, host: string, port: nat): Egress {
    if p.enabled && selected && p.disableQuic && port == 443 && !Listed(p.excluded, host) &&
       (Listed(p.domains, host) || (Separate(p) && Listed(ANTIGRAVITY, host)))
    then Blocked else Direct
  }

  lemma UnknownIsLost(config: Config, policy: Option<Policy>, gateway: Config, byName: bool, f: Request)
    requires FixedShape(config) && !Serves(config, f.inbound)
    ensures XrayEgress(Compiled(config, policy), gateway, byName, f) == Lost
  {
    FixedDoors(config, f.inbound);
    SniffedVless(config.inbounds);
    DoorSniffs(config.inbounds, Sniffed(config.inbounds), f.inbound);
  }

  /** The statistics API answers its requests under every policy. */
  lemma ApiIsLocal(config: Config, policy: Option<Policy>, gateway: Config, byName: bool, f: Request)
    requires FixedShape(config) && f.inbound == ApiIn && (policy.Some? ==> policy.value.domains != [])
    ensures XrayEgress(Compiled(config, policy), gateway, byName, f) == Local
  {
    var main := Compiled(config, policy);
    FixedDoors(config, ApiIn);
    SniffedVless(config.inbounds);
    DoorSniffs(config.inbounds, Sniffed(config.inbounds), ApiIn);
    var door := InboundOf(main.inbounds, ApiIn).value;
    var seen := f.(host := Seen(door.sniffing, byName, f.host));
    if policy.Some? && Applies(policy.value) {
      CompiledRoute(config, policy.value, seen);
    } else {
      IdleRoute(config, seen);
    }
  }

  /** The panel reads the counters of the main Xray from its fixed port, under every policy. */
  lemma MainAnswers(config: Config, policy: Option<Policy>)
    requires FixedShape(config) && (policy.Some? ==> policy.value.domains != [])
    ensures Asked(Compiled(config, policy), 10086) == Local
  {
    var request := Request(ApiIn, "", "", Tcp, 10086);
    assert Listener(config.inbounds, 10086) == Some(config.inbounds[0]);
    SniffedVless(config.inbounds);
    SamePorts(config.inbounds, Sniffed(config.inbounds), 10086);
    if policy.Some? && Applies(policy.value) {
      CompiledRoute(config, policy.value, request);
    } else {
      IdleRoute(config, request);
    }
  }

  lemma AppliedMeansSpec(config: Config, p: Policy, healthy: bool, warpHealthy: bool, byName: bool, f: Request)
    requires FixedShape(config) && p.domains != [] && Applies(p) && Serves(config, f.inbound) && f.inbound != ApiIn
    ensures XrayEgress(Compiled(config, Some(p)), Gateway(p, healthy, warpHealthy), byName, f) ==
            if f.network.Tcp? then Spec(p, Selected(p, f.user), f.host, healthy, warpHealthy)
            else UdpSpec(p, Selected(p, f.user), f.host, f.port)
  {
    CompiledSees(config, p, f.inbound);
    assert f.(host := f.host) == f;
    CompiledRoute(config, p, f);
    HandedExactly(p, f.host);
    if f.network.Tcp? { DoorsMeanSpec(p, healthy, warpHealthy, byName, f); }
  }

  lemma IdleMeansDirect(config: Config, gateway: Config, byName: bool, f: Request)
    requires FixedShape(config) && Serves(config, f.inbound) && f.inbound != ApiIn
    ensures XrayEgress(config, gateway, byName, f) == Direct
  {
    FixedDoors(config, f.inbound);
    var seen := f.(host := Seen(InboundOf(config.inbounds, f.inbound).value.sniffing, byName, f.host));
    IdleRoute(config, seen);
  }

  /**
   * Main Xray followed by the gateway means the policy, for every flow of every account, whether it asks for its
   * host by name or by address; a flow for an inbound that does not exist is lost.
   */
  lemma XrayMeansSpec(config: Config, p: Policy, healthy: bool, warpHealthy: bool, byName: bool, f: Request)
    requires FixedShape(config) && p.domains != []
    ensures XrayEgress(Compiled(config, Some(p)), Gateway(p, healthy, warpHealthy), byName, f) ==
            if !Serves(config, f.inbound) then Lost
            else if f.inbound == ApiIn then Local
            else if f.network.Tcp? then Spec(p, Selected(p, f.user), f.host, healthy, warpHealthy)
            else UdpSpec(p, Selected(p, f.user), f.host, f.port)
  {
    if !Serves(config, f.inbound) {
      UnknownIsLost(config, Some(p), Gateway(p, healthy, warpHealthy), byName, f);
    } else if f.inbound == ApiIn {
      ApiIsLocal(config, Some(p), Gateway(p, healthy, warpHealthy), byName, f);
    } else if Applies(p) {
      AppliedMeansSpec(config, p, healthy, warpHealthy, byName, f);
    } else {
      IdleMeansDirect(config, Gateway(p, healthy, warpHealthy), byName, f);
      if p.enabled { NobodySelected(p, f.user); }
    }
  }

  /** A flow handed to the gateway leaves directly exactly when the policy fails open and its proxy is down. */
  lemma HandedLeavesDirectExactly(config: Config, p: Policy, healthy: bool, warpHealthy: bool, byName: bool,
                                  f: Request)
    requires FixedShape(config) && p.domains != []
    requires Serves(config, f.inbound) && ConfigRoute(Compiled(config, Some(p)), f) == Socks(ROUTER_PORT)
    ensures XrayEgress(Compiled(config, Some(p)), Gateway(p, healthy, warpHealthy), byName, f) == Direct <==>
            !p.block && !(if Separate(p) && Listed(ANTIGRAVITY, f.host) then warpHealthy else healthy)
  {
    if Applies(p) {
      CompiledRoute(config, p, f);
      HandedExactly(p, f.host);
      XrayMeansSpec(config, p, healthy, warpHealthy, byName, f);
    } else {
      IdleRoute(config, f);
    }
  }

  // ---------- IKE ----------

  /** An IKE tunnel: its EAP identity, the inner address, and the kernel's request identifier. */
  datatype Peer = Peer(identity: string, vip: nat, reqid: nat)

  /** 10.0.0.0/8. */
  predicate InPool(address: nat) { address / 0x100_0000 == 10 }

  datatype Match = FromPeer(vip: nat, reqid: nat) | FromPool

  datatype FirewallRule = Redirect(source: Match, to: nat) | Reject(source: Match)

  datatype Packet = Packet(src: nat, tunnel: Option<nat>, network: Network, port: nat)

  predicate Named(p: Policy, identity: string) {
    exists i :: 0 <= i < |p.users| && p.users[i].name == identity
  }

  /** Only tunnels of the policy's accounts with an address of the pool. */
  function Chosen(p: Policy, peers: seq<Peer>): seq<Match> {
    if peers == [] then [] else
      var n := |peers| - 1;
      Chosen(p, peers[..n]) +
      if Named(p, peers[n].identity) && InPool(peers[n].vip) then [FromPeer(peers[n].vip, peers[n].reqid)] else []
  }

  function RulesFor(p: Policy, matches: seq<Match>): seq<FirewallRule> {
    if matches == [] then [] else
      var n := |matches| - 1;
      RulesFor(p, matches[..n]) + [Redirect(matches[n], IKE_PORT)] + if p.disableQuic then [Reject(matches[n])] else []
  }

  function Firewall(policy: Option<Policy>, peers: seq<Peer>): seq<FirewallRule> {
    if policy.None? || !policy.value.enabled then [] else
      RulesFor(policy.value, if policy.value.everyone then [FromPool] else Chosen(policy.value, peers))
  }

  method FirewallRules(policy: Option<Policy>, peers: seq<Peer>) returns (rules: seq<FirewallRule>)
    ensures rules == Firewall(policy, peers)
  {
    rules := [];
    if policy.None? || !policy.value.enabled { return; }
    var p := policy.value;
    var matches: seq<Match> := [];
    for i := 0 to |peers|
      invariant matches == Chosen(p, peers[..i])
    {
      assert peers[..i + 1][..i] == peers[..i];
      if Named(p, peers[i].identity) && InPool(peers[i].vip) {
        matches := matches + [FromPeer(peers[i].vip, peers[i].reqid)];
      }
    }
    assert peers[..|peers|] == peers;
    if p.everyone { matches := [FromPool]; }
    for i := 0 to |matches|
      invariant rules == RulesFor(p, matches[..i])
    {
      assert matches[..i + 1][..i] == matches[..i];
      rules := rules + [Redirect(matches[i], 10087)];
      if p.disableQuic { rules := rules + [Reject(matches[i])]; }
    }
    assert matches[..|matches|] == matches;
  }

  /** Both kinds of source demand that the packet came out of an IPsec tunnel. */
  predicate Sent(m: Match, k: Packet) {
    match m
    case FromPeer(vip, reqid) => k.src == vip && k.tunnel == Some(reqid)
    case FromPool => InPool(k.src) && k.tunnel.Some?
  }

  predicate AnySent(matches: seq<Match>, k: Packet) {
    exists i :: 0 <= i < |matches| && Sent(matches[i], k)
  }

  predicate Caught(rule: FirewallRule, k: Packet) {
    match rule
    case Redirect(source, _) => Sent(source, k) && k.network.Tcp? && k.port in {80, 443}
    case Reject(source) => Sent(source, k) && k.network.Udp? && k.port == 443
  }

  predicate AnyCaught(rules: seq<FirewallRule>, k: Packet) {
    exists i :: 0 <= i < |rules| && Caught(rules[i], k)
  }

  /** The first rule that catches the packet decides; an uncaught packet is forwarded as before. */
  function IkeEgress(rules: seq<FirewallRule>, gateway: Config, k: Packet, host: string): Egress {
    if rules == [] then Direct
    else if !Caught(rules[0], k) then IkeEgress(rules[1..], gateway, k, host)
    else match rules[0]
      case Redirect(_, to) => Redirected(gateway, to, Request(IkeWeb, "", host, k.network, k.port))
      case Reject(_) => Blocked
  }

  lemma {:induction false} ChosenHas(p: Policy, peers: seq<Peer>, m: Match)
    ensures m in Chosen(p, peers) <==>
            exists i :: 0 <= i < |peers| && Named(p, peers[i].identity) && InPool(peers[i].vip) &&
              m == FromPeer(peers[i].vip, peers[i].reqid)
  {
    if peers != [] {
      var n := |peers| - 1;
      ChosenHas(p, peers[..n], m);
      forall i | 0 <= i < n ensures peers[..n][i] == peers[i] {}
    }
  }

  lemma {:induction false} IkeEgressConcat(a: seq<FirewallRule>, b: seq<FirewallRule>, gateway: Config, k: Packet,
                                           host: string)
    ensures IkeEgress(a + b, gateway, k, host) ==
            if AnyCaught(a, k) then IkeEgress(a, gateway, k, host) else IkeEgress(b, gateway, k, host)
    ensures AnyCaught(a + b, k) <==> AnyCaught(a, k) || AnyCaught(b, k)
  {
    if a == [] {
      assert a + b == b;
    } else {
      assert (a + b)[1..] == a[1..] + b;
      IkeEgressConcat(a[1..], b, gateway, k, host);
      forall i | 1 <= i < |a| ensures a[i] == a[1..][i - 1] {}
      forall i | 0 <= i < |a| ensures a[i] == (a + b)[i] {}
      forall i | 0 <= i < |b| ensures b[i] == (a + b)[|a| + i] {}
    }
  }

  /** What the rules of some sources do to a packet. */
  function Treated(p: Policy, sent: bool, k: Packet, gateway: Config, host: string): Egress {
    if sent && k.network.Tcp? && k.port in {80, 443}
    then Redirected(gateway, IKE_PORT, Request(IkeWeb, "", host, k.network, k.port))
    else if sent && k.network.Udp? && k.port == 443 && p.disableQuic then Blocked
    else Direct
  }

  lemma {:induction false} OneSource(p: Policy, m: Match, gateway: Config, k: Packet, host: string)
    ensures var own := [Redirect(m, IKE_PORT)] + if p.disableQuic then [Reject(m)] else [];
            IkeEgress(own, gateway, k, host) == Treated(p, Sent(m, k), k, gateway, host) &&
            (AnyCaught(own, k) <==>
             Sent(m, k) &&
               ((k.network.Tcp? && k.port in {80, 443}) || (k.network.Udp? && k.port == 443 && p.disableQuic)))
  {
    var own := [Redirect(m, IKE_PORT)] + if p.disableQuic then [Reject(m)] else [];
    if p.disableQuic {
      assert own[1..] == [Reject(m)];
      assert [Reject(m)][1..] == [];
      assert IkeEgress([Reject(m)], gateway, k, host) == if Caught(Reject(m), k) then Blocked else Direct;
    } else {
      assert own == [Redirect(m, IKE_PORT)] && own[1..] == [];
    }
  }

  lemma {:induction false} RulesTreat(p: Policy, matches: seq<Match>, gateway: Config, k: Packet, host: string)
    ensures IkeEgress(RulesFor(p, matches), gateway, k, host) ==
            Treated(p, AnySent(matches, k), k, gateway, host)
    ensures AnyCaught(RulesFor(p, matches), k) <==>
            AnySent(matches, k) &&
            ((k.network.Tcp? && k.port in {80, 443}) || (k.network.Udp? && k.port == 443 && p.disableQuic))
  {
    if matches != [] {
      var n := |matches| - 1;
      var own := [Redirect(matches[n], IKE_PORT)] + if p.disableQuic then [Reject(matches[n])] else [];
      assert RulesFor(p, matches) == RulesFor(p, matches[..n]) + own;
      RulesTreat(p, matches[..n], gateway, k, host);
      IkeEgressConcat(RulesFor(p, matches[..n]), own, gateway, k, host);
      OneSource(p, matches[n], gateway, k, host);
      assert AnySent(matches, k) <==> AnySent(matches[..n], k) || Sent(matches[n], k) by {
        if i :| 0 <= i < |matches| && Sent(matches[i], k) { assert i < n ==> matches[..n][i] == matches[i]; }
        if i :| 0 <= i < n && Sent(matches[..n][i], k) { assert Sent(matches[i], k); }
      }
      forall i | 0 <= i < n ensures matches[..n][i] == matches[i] {}
    }
  }

  /** Addresses and request identifiers name at most one tunnel. */
  predicate DistinctTunnels(peers: seq<Peer>) {
    forall i, j ::
      0 <= i < |peers| && 0 <= j < |peers| && peers[i].vip == peers[j].vip && peers[i].reqid == peers[j].reqid ==>
        i == j
  }

  lemma {:induction false} SentExactly(p: Policy, peers: seq<Peer>, at: nat, k: Packet)
    requires at < |peers| && DistinctTunnels(peers) && InPool(peers[at].vip)
    requires k.src == peers[at].vip && k.tunnel == Some(peers[at].reqid)
    ensures var matches := if p.everyone then [FromPool] else Chosen(p, peers);
            AnySent(matches, k) <==> p.everyone || Named(p, peers[at].identity)
  {
    if p.everyone {
      assert Sent([FromPool][0], k);
    } else {
      var m := FromPeer(peers[at].vip, peers[at].reqid);
      var matches := Chosen(p, peers);
      ChosenHas(p, peers, m);
      if i :| 0 <= i < |matches| && Sent(matches[i], k) {
        ChosenHas(p, peers, matches[i]);
        assert matches[i] == m;
      }
      if m in matches { var i :| 0 <= i < |matches| && matches[i] == m; assert Sent(matches[i], k); }
    }
  }

  /** The redirect path applies the policy to the web flows of a tunnel, and refuses its HTTP/3 whatever the name. */
  lemma IkeMeansSpec(p: Policy, peers: seq<Peer>, at: nat, k: Packet, host: string, healthy: bool, warpHealthy: bool)
    requires at < |peers| && DistinctTunnels(peers) && InPool(peers[at].vip) && p.domains != []
    requires k.src == peers[at].vip && k.tunnel == Some(peers[at].reqid)
    ensures IkeEgress(Firewall(Some(p), peers), Gateway(p, healthy, warpHealthy), k, host) ==
            var covered := p.everyone || Named(p, peers[at].identity);
            if k.network.Tcp? && k.port in {80, 443} then Spec(p, covered, host, healthy, warpHealthy)
            else if k.network.Udp? && k.port == 443 && p.enabled && p.disableQuic && covered then Blocked
            else Direct
  {
    if p.enabled {
      var matches := if p.everyone then [FromPool] else Chosen(p, peers);
      assert Firewall(Some(p), peers) == RulesFor(p, matches);
      RulesTreat(p, matches, Gateway(p, healthy, warpHealthy), k, host);
      SentExactly(p, peers, at, k);
      if k.network.Tcp? {
        DoorsMeanSpec(p, healthy, warpHealthy, false, Request(IkeWeb, "", host, k.network, k.port));
      }
      assert IkeEgress(Firewall(Some(p), peers), Gateway(p, healthy, warpHealthy), k, host) ==
             Treated(p, AnySent(matches, k), k, Gateway(p, healthy, warpHealthy), host);
    } else {
      assert Firewall(Some(p), peers) == [];
      assert IkeEgress(Firewall(Some(p), peers), Gateway(p, healthy, warpHealthy), k, host) == Direct;
    }
  }

  /** A packet that did not come out of a tunnel is never redirected or refused, whatever address it claims. */
  lemma OutsidersUntouched(policy: Option<Policy>, peers: seq<Peer>, gateway: Config, k: Packet, host: string)
    requires k.tunnel.None?
    ensures IkeEgress(Firewall(policy, peers), gateway, k, host) == Direct
  {
    if policy.Some? && policy.value.enabled {
      var matches := if policy.value.everyone then [FromPool] else Chosen(policy.value, peers);
      assert Firewall(policy, peers) == RulesFor(policy.value, matches);
      RulesTreat(policy.value, matches, gateway, k, host);
    }
  }

  /** One account's web flow leaves by the same egress over any Xray transport and over its IKE tunnel. */
  lemma SameEgressOnEveryPath(config: Config, p: Policy, account: User, t: Inlet, byName: bool,
                              peers: seq<Peer>, at: nat, host: string, port: nat, healthy: bool, warpHealthy: bool)
    requires FixedShape(config) && p.domains != [] && Serves(config, EntryOf(t)) && port in {80, 443}
    requires forall i :: 0 <= i < |p.users| ==> |p.users[i].id| == |account.id|
    requires forall i :: 0 <= i < |p.users| ==> (p.users[i].id == account.id <==> p.users[i].name == account.name)
    requires at < |peers| && DistinctTunnels(peers) && InPool(peers[at].vip) && peers[at].identity == account.name
    ensures var gateway := Gateway(p, healthy, warpHealthy);
            var ike := IkeEgress(Firewall(Some(p), peers), gateway,
                                 Packet(peers[at].vip, Some(peers[at].reqid), Tcp, port), host);
            var xray := XrayEgress(Compiled(config, Some(p)), gateway, byName,
                                   Request(EntryOf(t), Prefix(t) + account.id, host, Tcp, port));
            ike == xray == Spec(p, p.everyone || Named(p, account.name), host, healthy, warpHealthy)
  {
    XrayMeansSpec(config, p, healthy, warpHealthy, byName,
                  Request(EntryOf(t), Prefix(t) + account.id, host, Tcp, port));
    IkeMeansSpec(p, peers, at, Packet(peers[at].vip, Some(peers[at].reqid), Tcp, port), host, healthy, warpHealthy);
    EmailSelectsAccount(p.users, account.id, t);
  }

  /** Whether the two paths treat HTTP/3 alike. Over IKE it is refused for every name, over Xray for the handed ones. */
  lemma SameQuicExactly(config: Config, p: Policy, account: User, t: Inlet, byName: bool,
                        peers: seq<Peer>, at: nat, host: string, healthy: bool, warpHealthy: bool)
    requires FixedShape(config) && p.domains != [] && Serves(config, EntryOf(t))
    requires forall i :: 0 <= i < |p.users| ==> |p.users[i].id| == |account.id|
    requires forall i :: 0 <= i < |p.users| ==> (p.users[i].id == account.id <==> p.users[i].name == account.name)
    requires at < |peers| && DistinctTunnels(peers) && InPool(peers[at].vip) && peers[at].identity == account.name
    ensures var gateway := Gateway(p, healthy, warpHealthy);
            var ike := IkeEgress(Firewall(Some(p), peers), gateway,
                                 Packet(peers[at].vip, Some(peers[at].reqid), Udp, 443), host);
            var xray := XrayEgress(Compiled(config, Some(p)), gateway, byName,
                                   Request(EntryOf(t), Prefix(t) + account.id, host, Udp, 443));
            ike == xray <==>
            !p.enabled || !p.disableQuic || !(p.everyone || Named(p, account.name)) ||
              (!Listed(p.excluded, host) && Listed(HandedDomains(p), host))
  {
    XrayMeansSpec(config, p, healthy, warpHealthy, byName, Request(EntryOf(t), Prefix(t) + account.id, host, Udp, 443));
    IkeMeansSpec(p, peers, at, Packet(peers[at].vip, Some(peers[at].reqid), Udp, 443), host, healthy, warpHealthy);
    EmailSelectsAccount(p.users, account.id, t);
    HandedExactly(p, host);
  }
}
