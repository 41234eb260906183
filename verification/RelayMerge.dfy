/**
 * Merging a relay fragment into a foreign Xray template, under first-match routing: the backend merge
 * for IKE and for Xray fragments, and the browser's copy of both.
 */
module RelayMerge {
  import opened Sums

  /** A port as JSON holds it. */
  datatype Port = Number(n: nat) | Text(s: string) | Missing

  /** The fields of an inbound the merge looks at; `rest` stands for all others. */
  datatype Inbound = Inbound(tag: Option<string>, port: Port, protocol: string, network: Option<string>,
                             rewritePort: Option<nat>, rest: string)

  /** `inboundTag` None when absent; `condition` stands for every other matcher, `rest` for every other field. */
  datatype Rule = Rule(inboundTag: Option<seq<string>>, condition: Option<string>, outboundTag: Option<string>,
                       rest: string)

  /** A template; a list is None when the field is missing or not an array. */
  datatype Template = Template(inbounds: Option<seq<Inbound>>, outbounds: Option<seq<Option<string>>>,
                               rules: Option<seq<Rule>>, rest: string)

  /** A fragment has one inbound, one rule for it, and a numeric port. */
  datatype Fragment = Fragment(tag: string, port: nat, network: string, rewritePort: nat, rest: string,
                               outboundTag: string) {
    function Entry(): Inbound { Inbound(Some(tag), Number(port), "tunnel", Some(network), Some(rewritePort), rest) }

    function Route(): Rule { Rule(Some([tag]), None, Some(outboundTag), "field") }
  }

  datatype MergeError = InvalidTemplate | OutboundNotFound | PortInUse

  const IKE_TAG := "zvpn-ike-relay"
  const XRAY_TAG := "zvpn-xray-iran"
  const XRAY_TEST_TAG := "zvpn-xray-relay-test"
  const IKE_TEST_PREFIX := "ir-ike-test-"
  const API := "api"

  // ---------- Decimal ports ----------

  function Digit(d: nat): char
    requires d < 10
  {
    "0123456789"[d]
  }

  function Decimal(n: nat): string {
    if n < 10 then [Digit(n)] else Decimal(n / 10) + [Digit(n % 10)]
  }

  function PortText(p: Port): string {
    match p case Number(n) => Decimal(n) case Text(s) => s case Missing => "undefined"
  }

  lemma {:induction false} DecimalInjective(m: nat, n: nat)
    requires Decimal(m) == Decimal(n)
    ensures m == n
  {
    var a, b := Decimal(m), Decimal(n);
    assert a[|a| - 1] == Digit(m % 10) && b[|b| - 1] == Digit(n % 10);
    if m >= 10 && n >= 10 {
      assert a[..|a| - 1] == Decimal(m / 10) && b[..|b| - 1] == Decimal(n / 10);
      DecimalInjective(m / 10, n / 10);
    }
  }

  function IkeTestTag(port: nat): string { IKE_TEST_PREFIX + Decimal(port) }

  // ---------- First-match routing ----------

  /** A request: its inbound, and which conditions hold of it. */
  datatype Request = Request(inbound: string, holds: set<string>)

  predicate Matches(rule: Rule, r: Request) {
    && (rule.inboundTag.None? || rule.inboundTag.value == [] || r.inbound in rule.inboundTag.value)
    && (rule.condition.None? || rule.condition.value in r.holds)
  }

  /** The first matching rule; None when the default outbound is taken. */
  function Decide(rules: seq<Rule>, r: Request): Option<Rule> {
    if rules == [] then None
    else if Matches(rules[0], r) then Some(rules[0])
    else Decide(rules[1..], r)
  }

  /** Where a decision sends a request. */
  datatype Egress = Default | To(outboundTag: Option<string>, rest: string)

  function RouteTo(rules: seq<Rule>, r: Request): Egress {
    match Decide(rules, r) case None => Default case Some(rule) => To(rule.outboundTag, rule.rest)
  }

  // ---------- The merge ----------

  function Without(tags: seq<string>, owned: set<string>): seq<string> {
    if tags == [] then [] else
      (if tags[0] in owned then [] else [tags[0]]) + Without(tags[1..], owned)
  }

  /** A rule on owned inbounds loses them; one on nothing else goes away. */
  function Strip(rule: Rule, owned: set<string>): seq<Rule> {
    if rule.inboundTag.None? || (forall t :: t in rule.inboundTag.value ==> t !in owned) then [rule]
    else if Without(rule.inboundTag.value, owned) == [] then []
    else [rule.(inboundTag := Some(Without(rule.inboundTag.value, owned)))]
  }

  function StripAll(rules: seq<Rule>, owned: set<string>): seq<Rule> {
    if rules == [] then [] else Strip(rules[0], owned) + StripAll(rules[1..], owned)
  }

  /** How many leading rules route to the control API. */
  function Lead(rules: seq<Rule>): (n: nat)
    ensures n <= |rules|
  {
    if rules == [] || rules[0].outboundTag != Some(API) then 0 else 1 + Lead(rules[1..])
  }

  function Splice(rules: seq<Rule>, route: Rule): seq<Rule> {
    rules[..Lead(rules)] + [route] + rules[Lead(rules)..]
  }

  predicate IsIkeTest(v: Inbound, port: nat) {
    v.tag == Some(IkeTestTag(port)) && v.protocol == "tunnel" && v.network == Some("udp") && v.rewritePort == Some(4500)
  }

  predicate IsXrayTest(v: Inbound, port: nat) {
    v.tag == Some(XRAY_TEST_TAG) && v.port == Number(port) && v.protocol == "tunnel" && v.network == Some("tcp")
  }

  predicate Owns(owned: set<string>, v: Inbound) { v.tag.Some? && v.tag.value in owned }

  function Unowned(inbounds: seq<Inbound>, owned: set<string>): seq<Inbound> {
    if inbounds == [] then [] else
      (if Owns(owned, inbounds[0]) then [] else [inbounds[0]]) + Unowned(inbounds[1..], owned)
  }

  predicate PortTaken(inbounds: seq<Inbound>, owned: set<string>, port: nat) {
    exists i :: 0 <= i < |inbounds| && !Owns(owned, inbounds[i]) && PortText(inbounds[i].port) == Decimal(port)
  }

  predicate Valid(t: Template) { t.inbounds.Some? && t.outbounds.Some? && t.rules.Some? }

  predicate AdoptsIkeTest(inbounds: seq<Inbound>, port: nat) {
    exists i :: 0 <= i < |inbounds| && IsIkeTest(inbounds[i], port)
  }

  predicate AdoptsXrayTest(inbounds: seq<Inbound>, port: nat) {
    exists i :: 0 <= i < |inbounds| && IsXrayTest(inbounds[i], port)
  }

  function Owned(inbounds: seq<Inbound>, f: Fragment): set<string> {
    {f.tag} + if AdoptsIkeTest(inbounds, f.port) then {IkeTestTag(f.port)} else {}
  }

  /** The checks and rewrites once the owned tags are known. */
  function MergeOwned(t: Template, f: Fragment, owned: set<string>): Result<Template, MergeError>
    requires Valid(t)
  {
    if Some(f.outboundTag) !in t.outbounds.value then Err(OutboundNotFound)
    else if PortTaken(t.inbounds.value, owned, f.port) then Err(PortInUse)
    else Ok(t.(inbounds := Some(Unowned(t.inbounds.value, owned) + [f.Entry()]),
               rules := Some(Splice(StripAll(t.rules.value, owned), f.Route()))))
  }

  /** mergeRelayTemplate. */
  function Merge(t: Template, f: Fragment): Result<Template, MergeError> {
    if !Valid(t) then Err(InvalidTemplate) else MergeOwned(t, f, Owned(t.inbounds.value, f))
  }

  // ---------- mergeXrayRelayTemplate ----------

  /** Renames the first test inbound, if any. */
  function RenameTest(inbounds: seq<Inbound>, port: nat): seq<Inbound> {
    if inbounds == [] then []
    else if IsXrayTest(inbounds[0], port) then [inbounds[0].(tag := Some(XRAY_TAG))] + inbounds[1..]
    else [inbounds[0]] + RenameTest(inbounds[1..], port)
  }

  function RenameTags(tags: seq<string>): seq<string> {
    if tags == [] then [] else [if tags[0] == XRAY_TEST_TAG then XRAY_TAG else tags[0]] + RenameTags(tags[1..])
  }

  function RenameRules(rules: seq<Rule>): seq<Rule> {
    if rules == [] then [] else
      [if rules[0].inboundTag.Some? then rules[0].(inboundTag := Some(RenameTags(rules[0].inboundTag.value)))
       else rules[0]]
      + RenameRules(rules[1..])
  }

  function Renamed(t: Template, port: nat): Template {
    if t.inbounds.Some? && AdoptsXrayTest(t.inbounds.value, port) then
      t.(inbounds := Some(RenameTest(t.inbounds.value, port)),
         rules := if t.rules.Some? then Some(RenameRules(t.rules.value)) else None)
    else t
  }

  function MergeXray(t: Template, f: Fragment): Result<Template, MergeError> {
    Merge(Renamed(t, f.port), f)
  }

  // ---------- The browser's copy ----------

  /** The page's search for a test inbound of an earlier hand-made relay. */
  method FindTest(inbounds: seq<Inbound>, port: nat, xray: bool) returns (found: bool)
    ensures found <==> if xray then AdoptsXrayTest(inbounds, port) else AdoptsIkeTest(inbounds, port)
  {
    found := false;
    var i := 0;
    while i < |inbounds|
      invariant 0 <= i <= |inbounds| && !found
      invariant forall j :: 0 <= j < i ==>
                if xray then !IsXrayTest(inbounds[j], port) else !IsIkeTest(inbounds[j], port)
    {
      var v := inbounds[i];
      if xray {
        if v.tag == Some(XRAY_TEST_TAG) && v.port == Number(port) && v.protocol == "tunnel" &&
          v.network == Some("tcp") {
          return true;
        }
      } else {
        if v.tag == Some(IkeTestTag(port)) && v.protocol == "tunnel" && v.network == Some("udp") &&
          v.rewritePort == Some(4500) {
          return true;
        }
      }
      i := i + 1;
    }
  }

  /** Some inbound that stays has the port, compared as text. */
  method PortInTemplate(inbounds: seq<Inbound>, owned: set<string>, port: nat) returns (taken: bool)
    ensures taken <==> PortTaken(inbounds, owned, port)
  {
    taken := false;
    for i := 0 to |inbounds|
      invariant !taken && forall j :: 0 <= j < i ==>
                  Owns(owned, inbounds[j]) || PortText(inbounds[j].port) != Decimal(port)
    {
      var v := inbounds[i];
      if (v.tag.None? || v.tag.value !in owned) && PortText(v.port) == Decimal(port) { return true; }
    }
  }

  method KeptInbounds(inbounds: seq<Inbound>, owned: set<string>) returns (kept: seq<Inbound>)
    ensures kept == Unowned(inbounds, owned)
  {
    kept := [];
    for i := 0 to |inbounds|
      invariant kept == Unowned(inbounds[..i], owned)
    {
      assert inbounds[..i + 1] == inbounds[..i] + [inbounds[i]];
      UnownedAppend(inbounds[..i], inbounds[i], owned);
      if inbounds[i].tag.None? || inbounds[i].tag.value !in owned { kept := kept + [inbounds[i]]; }
    }
    assert inbounds[..|inbounds|] == inbounds;
  }

  method KeptTags(tags: seq<string>, owned: set<string>) returns (kept: seq<string>)
    ensures kept == Without(tags, owned)
  {
    kept := [];
    for i := 0 to |tags|
      invariant kept == Without(tags[..i], owned)
    {
      assert tags[..i + 1] == tags[..i] + [tags[i]];
      WithoutAppend(tags[..i], tags[i], owned);
      if tags[i] !in owned { kept := kept + [tags[i]]; }
    }
    assert tags[..|tags|] == tags;
  }

  lemma {:induction false} WithoutAppend(tags: seq<string>, tag: string, owned: set<string>)
    ensures Without(tags + [tag], owned) == Without(tags, owned) + if tag in owned then [] else [tag]
  {
    if tags == [] {
      assert [tag][1..] == [];
      assert tags + [tag] == [tag];
    } else {
      assert (tags + [tag])[1..] == tags[1..] + [tag];
      WithoutAppend(tags[1..], tag, owned);
    }
  }

  method SomeOwned(tags: seq<string>, owned: set<string>) returns (some: bool)
    ensures some <==> exists t :: t in tags && t in owned
  {
    some := false;
    for i := 0 to |tags|
      invariant !some && forall j :: 0 <= j < i ==> tags[j] !in owned
    {
      if tags[i] in owned { return true; }
    }
  }

  /** Rules on owned inbounds lose them, and go when nothing is left. */
  method KeptRules(rules: seq<Rule>, owned: set<string>) returns (kept: seq<Rule>)
    ensures kept == StripAll(rules, owned)
  {
    kept := [];
    for i := 0 to |rules|
      invariant kept == StripAll(rules[..i], owned)
    {
      var rule := rules[i];
      assert rules[..i + 1] == rules[..i] + [rule];
      StripAppend(rules[..i], [rule], owned);
      StripOnce(rule, owned);
      var hit := false;
      if rule.inboundTag.Some? { hit := SomeOwned(rule.inboundTag.value, owned); }
      if !hit {
        kept := kept + [rule];
      } else {
        var tags := KeptTags(rule.inboundTag.value, owned);
        if |tags| > 0 { kept := kept + [rule.(inboundTag := Some(tags))]; }
      }
    }
    assert rules[..|rules|] == rules;
  }

  /** The index of the first rule that does not lead to the control API, or the end. */
  method FirstOther(rules: seq<Rule>) returns (at: nat)
    ensures at == Lead(rules)
  {
    at := 0;
    assert rules[0..] == rules;
    while at < |rules| && rules[at].outboundTag == Some(API)
      invariant at <= |rules| && Lead(rules) == at + Lead(rules[at..])
    {
      assert rules[at..][1..] == rules[at + 1..];
      at := at + 1;
    }
  }

  /** The merge of the settings page, step by step; None when it shows a message instead. */
  method BrowserMerge(original: Template, f: Fragment, isXray: bool) returns (result: Option<Template>)
    ensures result == Accepted(BrowserSpec(original, f, isXray))
    ensures !isXray ==> result == Accepted(Merge(original, f))
    ensures result.Some? ==> result.value.rest == original.rest && result.value.outbounds == original.outbounds
    ensures isXray && IsXrayFragment(f) &&
            (original.inbounds.Some? && AdoptsXrayTest(original.inbounds.value, f.port) ==>
             OneTest(original.inbounds.value)) ==>
              result == Accepted(MergeXray(original, f))
  {
    if !isXray {
      IkeBrowserIsBackend(original, f);
    } else if IsXrayFragment(f) &&
      (original.inbounds.Some? && AdoptsXrayTest(original.inbounds.value, f.port) ==>
       OneTest(original.inbounds.value)) {
      BrowserIsBackend(original, f);
    }
    var input := original;
    if input.inbounds.None? || input.outbounds.None? || input.rules.None? { return None; }
    var inbound, rule := f.Entry(), f.Route();
    var owned := {f.tag};
    var legacy := FindTest(input.inbounds.value, f.port, false);
    if legacy { owned := owned + {IkeTestTag(f.port)}; }
    if isXray {
      var test := FindTest(input.inbounds.value, f.port, true);
      if test { owned := owned + {XRAY_TEST_TAG}; }
    }
    assert owned == BrowserOwned(original.inbounds.value, f, isXray);
    if rule.outboundTag !in input.outbounds.value { return None; }
    var taken := PortInTemplate(input.inbounds.value, owned, f.port);
    if taken { return None; }
    var kept := KeptInbounds(input.inbounds.value, owned);
    input := input.(inbounds := Some(kept + [inbound]));
    var rules := KeptRules(input.rules.value, owned);
    var at := FirstOther(rules);
    input := input.(rules := Some(rules[..at] + [rule] + rules[at..]));
    result := Some(input);
  }

  function BrowserOwned(inbounds: seq<Inbound>, f: Fragment, isXray: bool): set<string> {
    Owned(inbounds, f) + if isXray && AdoptsXrayTest(inbounds, f.port) then {XRAY_TEST_TAG} else {}
  }

  function BrowserSpec(t: Template, f: Fragment, isXray: bool): Result<Template, MergeError> {
    if !Valid(t) then Err(InvalidTemplate) else MergeOwned(t, f, BrowserOwned(t.inbounds.value, f, isXray))
  }

  predicate IsIkeFragment(f: Fragment) { f.tag == IKE_TAG && f.network == "udp" && f.rewritePort == 4500 }

  predicate IsXrayFragment(f: Fragment) { f.tag == XRAY_TAG && f.network == "tcp" }

  // ---------- Stripping ----------

  lemma {:induction false} WithoutOwned(tags: seq<string>, owned: set<string>)
    ensures forall t :: t in Without(tags, owned) <==> t in tags && t !in owned
    ensures (forall t :: t in tags ==> t !in owned) ==> Without(tags, owned) == tags
  {
    if tags != [] { WithoutOwned(tags[1..], owned); }
  }

  lemma {:induction false} WithoutTwice(tags: seq<string>, a: set<string>, b: set<string>)
    ensures Without(Without(tags, a), b) == Without(tags, a + b)
  {
    if tags != [] {
      WithoutTwice(tags[1..], a, b);
      assert ([tags[0]] + Without(tags[1..], a))[1..] == Without(tags[1..], a);
      assert [] + Without(tags[1..], a) == Without(tags[1..], a);
    }
  }

  /** Strip by what is left of the tags. */
  lemma StripByTags(rule: Rule, owned: set<string>)
    ensures rule.inboundTag.None? || rule.inboundTag.value == [] ==> Strip(rule, owned) == [rule]
    ensures rule.inboundTag.Some? && rule.inboundTag.value != [] ==>
              Strip(rule, owned) == if Without(rule.inboundTag.value, owned) == [] then []
                                    else [rule.(inboundTag := Some(Without(rule.inboundTag.value, owned)))]
  {
    if rule.inboundTag.Some? { WithoutOwned(rule.inboundTag.value, owned); }
  }

  lemma {:induction false} StripAppend(x: seq<Rule>, y: seq<Rule>, owned: set<string>)
    ensures StripAll(x + y, owned) == StripAll(x, owned) + StripAll(y, owned)
  {
    if x == [] {
      assert x + y == y;
    } else {
      assert (x + y)[1..] == x[1..] + y;
      StripAppend(x[1..], y, owned);
    }
  }

  lemma StripOnce(rule: Rule, owned: set<string>)
    ensures StripAll([rule], owned) == Strip(rule, owned)
  {
    assert [rule][1..] == [];
  }

  lemma StripRuleTwice(rule: Rule, a: set<string>, b: set<string>)
    ensures StripAll(Strip(rule, a), b) == Strip(rule, a + b)
  {
    StripByTags(rule, a);
    StripByTags(rule, a + b);
    if rule.inboundTag.Some? {
      var left := rule.(inboundTag := Some(Without(rule.inboundTag.value, a)));
      WithoutTwice(rule.inboundTag.value, a, b);
      StripByTags(left, b);
      StripOnce(left, b);
    }
    StripByTags(rule, b);
    StripOnce(rule, b);
  }

  lemma {:induction false} StripTwice(rules: seq<Rule>, a: set<string>, b: set<string>)
    ensures StripAll(StripAll(rules, a), b) == StripAll(rules, a + b)
  {
    if rules != [] {
      StripAppend(Strip(rules[0], a), StripAll(rules[1..], a), b);
      StripRuleTwice(rules[0], a, b);
      StripTwice(rules[1..], a, b);
    }
  }

  // ---------- First match ----------

  lemma {:induction false} DecideAppend(x: seq<Rule>, y: seq<Rule>, r: Request)
    ensures Decide(x + y, r) == if Decide(x, r).Some? then Decide(x, r) else Decide(y, r)
  {
    if x == [] {
      assert x + y == y;
    } else {
      assert (x + y)[1..] == x[1..] + y;
      DecideAppend(x[1..], y, r);
    }
  }

  lemma DecideOne(rule: Rule, r: Request)
    ensures Decide([rule], r) == if Matches(rule, r) then Some(rule) else None
  {
    assert Decide([], r) == None;
    assert [rule][1..] == [];
  }

  /** A request on an inbound that is not owned does not notice the stripping. */
  lemma {:induction false} StripKeepsRoute(rules: seq<Rule>, owned: set<string>, r: Request)
    requires r.inbound !in owned
    ensures RouteTo(StripAll(rules, owned), r) == RouteTo(rules, r)
  {
    if rules != [] {
      StripKeepsRoute(rules[1..], owned, r);
      StripByTags(rules[0], owned);
      if rules[0].inboundTag.Some? { WithoutOwned(rules[0].inboundTag.value, owned); }
      DecideAppend(Strip(rules[0], owned), StripAll(rules[1..], owned), r);
      if Strip(rules[0], owned) != [] { DecideOne(Strip(rules[0], owned)[0], r); }
    }
  }

  lemma SpliceRoute(rules: seq<Rule>, route: Rule, r: Request)
    ensures var lead := rules[..Lead(rules)];
            Decide(Splice(rules, route), r) ==
            if !Matches(route, r) then Decide(rules, r)
            else if Decide(lead, r).Some? then Decide(lead, r) else Some(route)
  {
    var lead, tail := rules[..Lead(rules)], rules[Lead(rules)..];
    assert rules == lead + tail;
    DecideAppend(lead, tail, r);
    DecideAppend(lead + [route], tail, r);
    DecideAppend(lead, [route], r);
    DecideOne(route, r);
  }

  lemma {:induction false} LeadIsApi(rules: seq<Rule>)
    ensures forall i :: 0 <= i < Lead(rules) ==> rules[i].outboundTag == Some(API)
    ensures Lead(rules) < |rules| ==> rules[Lead(rules)].outboundTag != Some(API)
  {
    if rules != [] && rules[0].outboundTag == Some(API) { LeadIsApi(rules[1..]); }
  }

  lemma {:induction false} DecisionIsRule(rules: seq<Rule>, r: Request)
    requires Decide(rules, r).Some?
    ensures Decide(rules, r).value in rules && Matches(Decide(rules, r).value, r)
  {
    if !Matches(rules[0], r) { DecisionIsRule(rules[1..], r); }
  }

  // ---------- What a merge does to routing ----------

  /** The leading api rules a relay request still meets first. */
  function Guards(t: Template, owned: set<string>): seq<Rule>
    requires t.rules.Some?
  {
    var rules := StripAll(t.rules.value, owned);
    rules[..Lead(rules)]
  }

  /** Requests on foreign inbounds are routed as before. */
  lemma MergeKeepsForeignRoutes(t: Template, f: Fragment, r: Request)
    requires Merge(t, f).Ok? && r.inbound !in Owned(t.inbounds.value, f)
    ensures RouteTo(Merge(t, f).value.rules.value, r) == RouteTo(t.rules.value, r)
  {
    var owned := Owned(t.inbounds.value, f);
    SpliceRoute(StripAll(t.rules.value, owned), f.Route(), r);
    StripKeepsRoute(t.rules.value, owned, r);
  }

  /** Requests on the relay inbound leave by the fragment's outbound unless a leading api rule matches. */
  lemma MergeRoutesRelay(t: Template, f: Fragment, r: Request)
    requires Merge(t, f).Ok? && r.inbound == f.tag
    ensures var guard := Decide(Guards(t, Owned(t.inbounds.value, f)), r);
            RouteTo(Merge(t, f).value.rules.value, r) ==
            if guard.Some? then To(Some(API), guard.value.rest) else To(Some(f.outboundTag), "field")
  {
    var rules := StripAll(t.rules.value, Owned(t.inbounds.value, f));
    SpliceRoute(rules, f.Route(), r);
    LeadIsApi(rules);
    if Decide(rules[..Lead(rules)], r).Some? { DecisionIsRule(rules[..Lead(rules)], r); }
  }

  // ---------- Idempotence ----------

  lemma {:induction false} UnownedFacts(inbounds: seq<Inbound>, owned: set<string>)
    ensures forall v :: v in Unowned(inbounds, owned) <==> v in inbounds && !Owns(owned, v)
  {
    if inbounds != [] { UnownedFacts(inbounds[1..], owned); }
  }

  lemma {:induction false} UnownedAll(inbounds: seq<Inbound>, owned: set<string>)
    requires forall v :: v in inbounds ==> !Owns(owned, v)
    ensures Unowned(inbounds, owned) == inbounds
  {
    if inbounds != [] { UnownedAll(inbounds[1..], owned); }
  }

  lemma {:induction false} UnownedAppend(x: seq<Inbound>, v: Inbound, owned: set<string>)
    ensures Unowned(x + [v], owned) == Unowned(x, owned) + if Owns(owned, v) then [] else [v]
  {
    if x == [] {
      assert x + [v] == [v];
      assert Unowned([v][1..], owned) == [];
    } else {
      assert (x + [v])[1..] == x[1..] + [v];
      UnownedAppend(x[1..], v, owned);
    }
  }

  lemma TestTagDiffers(port: nat)
    ensures IkeTestTag(port) !in {IKE_TAG, XRAY_TAG, XRAY_TEST_TAG}
  {
    assert IkeTestTag(port)[0] == 'i';
  }

  lemma StripRoute(route: Rule, tag: string, owned: set<string>)
    requires route.inboundTag == Some([tag]) && tag in owned
    ensures StripAll([route], owned) == []
  {
    StripByTags(route, owned);
    WithoutOwned([tag], owned);
    StripOnce(route, owned);
  }

  lemma SpliceStripped(s: seq<Rule>, route: Rule, owned: set<string>)
    requires StripAll([route], owned) == []
    ensures StripAll(Splice(s, route), owned) == StripAll(s, owned)
  {
    StripAround(s[..Lead(s)], route, s[Lead(s)..], owned);
    StripPieces(s, Lead(s), owned);
    assert StripAll(s[..Lead(s)], owned) + [] == StripAll(s[..Lead(s)], owned);
  }

  lemma StripPieces(s: seq<Rule>, n: nat, owned: set<string>)
    requires n <= |s|
    ensures StripAll(s[..n], owned) + StripAll(s[n..], owned) == StripAll(s, owned)
  {
    StripAppend(s[..n], s[n..], owned);
    assert s == s[..n] + s[n..];
  }

  lemma StripAround(lead: seq<Rule>, route: Rule, tail: seq<Rule>, owned: set<string>)
    ensures StripAll(lead + [route] + tail, owned) ==
            StripAll(lead, owned) + StripAll([route], owned) + StripAll(tail, owned)
  {
    StripAppend(lead + [route], tail, owned);
    StripAppend(lead, [route], owned);
  }

  /** The rules of a merge, stripped of the relay tag, are the rules it was spliced into. */
  lemma SpliceStrips(rules: seq<Rule>, route: Rule, tag: string, a: set<string>)
    requires route.inboundTag == Some([tag]) && tag in a
    ensures StripAll(Splice(StripAll(rules, a), route), {tag}) == StripAll(rules, a)
  {
    StripRoute(route, tag, {tag});
    SpliceStripped(StripAll(rules, a), route, {tag});
    StripTwice(rules, a, {tag});
    assert a + {tag} == a;
  }

  lemma MergedInbounds(t: Template, f: Fragment)
    requires Merge(t, f).Ok? && f.tag in {IKE_TAG, XRAY_TAG}
    ensures var t' := Merge(t, f).value;
            && !AdoptsIkeTest(t'.inbounds.value, f.port)
            && Unowned(t'.inbounds.value, {f.tag}) + [f.Entry()] == t'.inbounds.value
            && !PortTaken(t'.inbounds.value, {f.tag}, f.port)
  {
    var owned, t' := Owned(t.inbounds.value, f), Merge(t, f).value;
    var kept := Unowned(t.inbounds.value, owned);
    TestTagDiffers(f.port);
    UnownedFacts(t.inbounds.value, owned);
    UnownedAppend(kept, f.Entry(), {f.tag});
    UnownedAll(kept, {f.tag});
    forall i | 0 <= i < |t'.inbounds.value| ensures !IsIkeTest(t'.inbounds.value[i], f.port) {
      if i < |kept| { KeptIsNoTest(t, f, kept[i]); }
    }
    forall i | 0 <= i < |t'.inbounds.value| && !Owns({f.tag}, t'.inbounds.value[i])
      ensures PortText(t'.inbounds.value[i].port) != Decimal(f.port)
    {
      var v := t'.inbounds.value[i];
      assert v in kept;
      var j :| 0 <= j < |t.inbounds.value| && t.inbounds.value[j] == v;
    }
  }

  lemma KeptIsNoTest(t: Template, f: Fragment, v: Inbound)
    requires Valid(t) && v in Unowned(t.inbounds.value, Owned(t.inbounds.value, f))
    ensures !IsIkeTest(v, f.port)
  {
    UnownedFacts(t.inbounds.value, Owned(t.inbounds.value, f));
    var j :| 0 <= j < |t.inbounds.value| && t.inbounds.value[j] == v;
  }

  lemma MergedOwns(t: Template, f: Fragment)
    requires Merge(t, f).Ok? && f.tag in {IKE_TAG, XRAY_TAG}
    ensures Owned(Merge(t, f).value.inbounds.value, f) == {f.tag}
  {
    MergedInbounds(t, f);
  }

  /** Merging again changes nothing, also after a legacy test inbound was adopted. */
  lemma MergeIdempotent(t: Template, f: Fragment)
    requires Merge(t, f).Ok? && f.tag in {IKE_TAG, XRAY_TAG}
    ensures Merge(Merge(t, f).value, f) == Merge(t, f)
  {
    var t' := Merge(t, f).value;
    MergedInbounds(t, f);
    MergedOwns(t, f);
    SpliceStrips(t.rules.value, f.Route(), f.tag, Owned(t.inbounds.value, f));
    assert t'.rules.value == Splice(StripAll(t.rules.value, Owned(t.inbounds.value, f)), f.Route());
    assert MergeOwned(t', f, {f.tag}) == Ok(t');
  }

  // ---------- The Xray variant and the browser ----------

  lemma {:induction false} RenameThenWithout(tags: seq<string>, owned: set<string>)
    requires XRAY_TAG in owned
    ensures Without(RenameTags(tags), owned) == Without(tags, owned + {XRAY_TEST_TAG})
    ensures |RenameTags(tags)| == |tags|
  {
    if tags != [] {
      RenameThenWithout(tags[1..], owned);
      assert RenameTags(tags)[1..] == RenameTags(tags[1..]);
    }
  }

  lemma RenameStripRule(rule: Rule, owned: set<string>)
    requires XRAY_TAG in owned && rule.inboundTag.Some?
    ensures Strip(rule.(inboundTag := Some(RenameTags(rule.inboundTag.value))), owned) ==
            Strip(rule, owned + {XRAY_TEST_TAG})
  {
    StripByTags(rule, owned + {XRAY_TEST_TAG});
    StripByTags(rule.(inboundTag := Some(RenameTags(rule.inboundTag.value))), owned);
    RenameThenWithout(rule.inboundTag.value, owned);
  }

  /** Renaming the test tag and stripping is stripping the test tag too. */
  lemma {:induction false} RenameStrips(rules: seq<Rule>, owned: set<string>)
    requires XRAY_TAG in owned
    ensures StripAll(RenameRules(rules), owned) == StripAll(rules, owned + {XRAY_TEST_TAG})
  {
    if rules != [] {
      RenameStrips(rules[1..], owned);
      assert RenameRules(rules)[1..] == RenameRules(rules[1..]);
      if rules[0].inboundTag.Some? {
        RenameStripRule(rules[0], owned);
      } else {
        StripByTags(rules[0], owned);
      }
    }
  }

  /** The index of the inbound that is renamed. */
  lemma {:induction false} RenamedAt(inbounds: seq<Inbound>, port: nat) returns (k: nat)
    requires AdoptsXrayTest(inbounds, port)
    ensures k < |inbounds| && IsXrayTest(inbounds[k], port)
    ensures forall j :: 0 <= j < k ==> !IsXrayTest(inbounds[j], port)
    ensures RenameTest(inbounds, port) == inbounds[k := inbounds[k].(tag := Some(XRAY_TAG))]
  {
    if IsXrayTest(inbounds[0], port) {
      k := 0;
    } else {
      var i :| 0 <= i < |inbounds| && IsXrayTest(inbounds[i], port);
      assert inbounds[1..][i - 1] == inbounds[i];
      k := RenamedAt(inbounds[1..], port);
      k := k + 1;
    }
  }

  lemma {:induction false} UnownedSame(x: seq<Inbound>, y: seq<Inbound>, a: set<string>, b: set<string>)
    requires |x| == |y| && forall i :: 0 <= i < |x| ==>
               Owns(a, x[i]) == Owns(b, y[i]) && (!Owns(a, x[i]) ==> x[i] == y[i])
    ensures Unowned(x, a) == Unowned(y, b)
  {
    if x != [] { UnownedSame(x[1..], y[1..], a, b); }
  }

  /** Only one inbound carries the test tag. */
  predicate OneTest(inbounds: seq<Inbound>) {
    forall i, j :: 0 <= i < j < |inbounds| ==>
        !(inbounds[i].tag == Some(XRAY_TEST_TAG) && inbounds[j].tag == Some(XRAY_TEST_TAG))
  }

  lemma RenamedOwned(inbounds: seq<Inbound>, f: Fragment)
    requires AdoptsXrayTest(inbounds, f.port)
    ensures Owned(RenameTest(inbounds, f.port), f) == Owned(inbounds, f)
  {
    var k := RenamedAt(inbounds, f.port);
    var renamed := RenameTest(inbounds, f.port);
    TestTagDiffers(f.port);
    assert forall i :: 0 <= i < |inbounds| ==> (IsIkeTest(renamed[i], f.port) <==> IsIkeTest(inbounds[i], f.port));
    if AdoptsIkeTest(inbounds, f.port) {
      var i :| 0 <= i < |inbounds| && IsIkeTest(inbounds[i], f.port);
      assert IsIkeTest(renamed[i], f.port);
    }
  }

  /** With one test inbound, renaming it and owning the new tag drops exactly what owning both tags drops. */
  lemma RenamedUnowned(inbounds: seq<Inbound>, f: Fragment, owned: set<string>)
    requires AdoptsXrayTest(inbounds, f.port) && OneTest(inbounds) && XRAY_TAG in owned && XRAY_TEST_TAG !in owned
    ensures Unowned(RenameTest(inbounds, f.port), owned) == Unowned(inbounds, owned + {XRAY_TEST_TAG})
    ensures PortTaken(RenameTest(inbounds, f.port), owned, f.port) <==>
            PortTaken(inbounds, owned + {XRAY_TEST_TAG}, f.port)
  {
    var k := RenamedAt(inbounds, f.port);
    var renamed := RenameTest(inbounds, f.port);
    forall i | 0 <= i < |inbounds|
      ensures Owns(owned, renamed[i]) == Owns(owned + {XRAY_TEST_TAG}, inbounds[i]) &&
              (!Owns(owned, renamed[i]) ==> renamed[i] == inbounds[i])
    {
      if i != k { assert inbounds[i].tag != Some(XRAY_TEST_TAG); }
    }
    UnownedSame(renamed, inbounds, owned, owned + {XRAY_TEST_TAG});
    if PortTaken(inbounds, owned + {XRAY_TEST_TAG}, f.port) {
      var i :| 0 <= i < |inbounds| && !Owns(owned + {XRAY_TEST_TAG}, inbounds[i]) &&
        PortText(inbounds[i].port) == Decimal(f.port);
      assert !Owns(owned, renamed[i]);
    }
  }

  lemma TestNotOwned(inbounds: seq<Inbound>, f: Fragment)
    requires IsXrayFragment(f)
    ensures XRAY_TAG in Owned(inbounds, f) && XRAY_TEST_TAG !in Owned(inbounds, f)
  {
    TestTagDiffers(f.port);
  }

  /** With one test inbound the browser and the backend give the same template or the same rejection. */
  lemma BrowserIsBackend(t: Template, f: Fragment)
    requires IsXrayFragment(f) &&
             (t.inbounds.Some? && AdoptsXrayTest(t.inbounds.value, f.port) ==> OneTest(t.inbounds.value))
    ensures BrowserSpec(t, f, true) == MergeXray(t, f)
  {
    if Valid(t) {
      var inbounds, owned := t.inbounds.value, Owned(t.inbounds.value, f);
      if AdoptsXrayTest(inbounds, f.port) {
        TestNotOwned(inbounds, f);
        RenamedOwned(inbounds, f);
        RenamedUnowned(inbounds, f, owned);
        RenameStrips(t.rules.value, owned);
      } else {
        assert BrowserOwned(inbounds, f, true) == owned;
      }
    }
  }

  /** On the page of the IKE relay they agree on every template and fragment. */
  lemma IkeBrowserIsBackend(t: Template, f: Fragment)
    ensures BrowserSpec(t, f, false) == Merge(t, f)
  {
    if Valid(t) { assert BrowserOwned(t.inbounds.value, f, false) == Owned(t.inbounds.value, f); }
  }

  function Accepted(r: Result<Template, MergeError>): Option<Template> {
    if r.Ok? then Some(r.value) else None
  }

  /** Renaming one of two inbounds under the test tag leaves the other. */
  lemma OtherTest(inbounds: seq<Inbound>, port: nat) returns (v: Inbound)
    requires AdoptsXrayTest(inbounds, port) && !OneTest(inbounds)
    ensures v in RenameTest(inbounds, port) && v.tag == Some(XRAY_TEST_TAG)
  {
    var k := RenamedAt(inbounds, port);
    var i, j :| 0 <= i < j < |inbounds| && inbounds[i].tag == Some(XRAY_TEST_TAG) &&
      inbounds[j].tag == Some(XRAY_TEST_TAG);
    v := RenameTest(inbounds, port)[if i == k then j else i];
  }

  /** A second inbound under the test tag stays in the backend's merge, which may then find its port taken. */
  lemma SecondTestStays(t: Template, f: Fragment)
    requires IsXrayFragment(f) && Valid(t) && AdoptsXrayTest(t.inbounds.value, f.port) && !OneTest(t.inbounds.value)
    requires BrowserSpec(t, f, true).Ok?
    ensures Accepted(MergeXray(t, f)) != Accepted(BrowserSpec(t, f, true))
  {
    var inbounds, owned := t.inbounds.value, Owned(t.inbounds.value, f);
    TestNotOwned(inbounds, f);
    RenamedOwned(inbounds, f);
    var v := OtherTest(inbounds, f.port);
    UnownedFacts(RenameTest(inbounds, f.port), owned);
    UnownedFacts(inbounds, owned + {XRAY_TEST_TAG});
    if MergeXray(t, f).Ok? {
      assert v in MergeXray(t, f).value.inbounds.value;
      assert v !in BrowserSpec(t, f, true).value.inbounds.value;
    }
  }

  /** Browser and backend agree on a template exactly when the browser rejects it or adopts no ambiguous test tag. */
  lemma BrowserIsBackendExactly(t: Template, f: Fragment)
    requires IsXrayFragment(f)
    ensures Accepted(BrowserSpec(t, f, true)) == Accepted(MergeXray(t, f)) <==>
            !Valid(t) || !AdoptsXrayTest(t.inbounds.value, f.port) || OneTest(t.inbounds.value)
            || Some(f.outboundTag) !in t.outbounds.value
            || PortTaken(t.inbounds.value, BrowserOwned(t.inbounds.value, f, true), f.port)
  {
    if !Valid(t) || !AdoptsXrayTest(t.inbounds.value, f.port) || OneTest(t.inbounds.value) {
      if Valid(t) { BrowserIsBackend(t, f); }
    } else if BrowserSpec(t, f, true).Ok? {
      SecondTestStays(t, f);
    } else if Some(f.outboundTag) in t.outbounds.value {
      BackendSeesPort(t, f);
    }
  }

  /** A port the browser finds taken is taken for the backend too. */
  lemma BackendSeesPort(t: Template, f: Fragment)
    requires IsXrayFragment(f) && Valid(t) && AdoptsXrayTest(t.inbounds.value, f.port)
    requires PortTaken(t.inbounds.value, BrowserOwned(t.inbounds.value, f, true), f.port)
    ensures MergeXray(t, f).Err?
  {
    var inbounds := t.inbounds.value;
    var owned := BrowserOwned(inbounds, f, true);
    var k := RenamedAt(inbounds, f.port);
    RenamedOwned(inbounds, f);
    var i :| 0 <= i < |inbounds| && !Owns(owned, inbounds[i]) && PortText(inbounds[i].port) == Decimal(f.port);
    assert RenameTest(inbounds, f.port)[i] == inbounds[i];
  }

  lemma UnownedIsNoTest(t: Template, f: Fragment, v: Inbound)
    requires Merge(t, f).Ok? && IsXrayFragment(f) && v in Unowned(t.inbounds.value, Owned(t.inbounds.value, f))
    ensures !IsXrayTest(v, f.port)
  {
    UnownedFacts(t.inbounds.value, Owned(t.inbounds.value, f));
    var j :| 0 <= j < |t.inbounds.value| && t.inbounds.value[j] == v;
    assert PortText(v.port) != Decimal(f.port);
  }

  /** The Xray merge is idempotent too: no test inbound survives it. */
  lemma MergeXrayIdempotent(t: Template, f: Fragment)
    requires MergeXray(t, f).Ok? && IsXrayFragment(f)
    ensures MergeXray(MergeXray(t, f).value, f) == MergeXray(t, f)
  {
    var before, t' := Renamed(t, f.port), MergeXray(t, f).value;
    var owned := Owned(before.inbounds.value, f);
    UnownedFacts(before.inbounds.value, owned);
    TestNotOwned(before.inbounds.value, f);
    forall i | 0 <= i < |t'.inbounds.value| ensures !IsXrayTest(t'.inbounds.value[i], f.port) {
      var v := t'.inbounds.value[i];
      if v in Unowned(before.inbounds.value, owned) { UnownedIsNoTest(before, f, v); }
    }
    MergeIdempotent(before, f);
  }

  // ---------- Both merges, in either order ----------

  /** The tags each merge owns in a template. */
  function IkeOwned(t: Template, f: Fragment): set<string>
    requires t.inbounds.Some?
  {
    Owned(t.inbounds.value, f)
  }

  function XrayOwned(t: Template, f: Fragment): set<string>
    requires t.inbounds.Some?
  {
    BrowserOwned(t.inbounds.value, f, true)
  }

  lemma IkeRules(t: Template, f: Fragment)
    requires Merge(t, f).Ok?
    ensures Merge(t, f).value.rules.value == Splice(StripAll(t.rules.value, IkeOwned(t, f)), f.Route())
  {
  }

  lemma XrayRules(t: Template, f: Fragment)
    requires MergeXray(t, f).Ok? && IsXrayFragment(f)
    ensures MergeXray(t, f).value.rules.value == Splice(StripAll(t.rules.value, XrayOwned(t, f)), f.Route())
  {
    var owned := Owned(t.inbounds.value, f);
    if AdoptsXrayTest(t.inbounds.value, f.port) {
      RenamedOwned(t.inbounds.value, f);
      RenameStrips(t.rules.value, owned);
    } else {
      assert XrayOwned(t, f) == owned;
    }
  }

  /** The Xray merge, too, leaves requests on every inbound it does not own as they were. */
  lemma XrayMergeKeepsForeignRoutes(t: Template, f: Fragment, r: Request)
    requires MergeXray(t, f).Ok? && IsXrayFragment(f) && r.inbound !in XrayOwned(t, f)
    ensures RouteTo(MergeXray(t, f).value.rules.value, r) == RouteTo(t.rules.value, r)
  {
    XrayRules(t, f);
    SpliceRoute(StripAll(t.rules.value, XrayOwned(t, f)), f.Route(), r);
    StripKeepsRoute(t.rules.value, XrayOwned(t, f), r);
  }

  /** It sends the relay's requests to the fragment's outbound unless a leading api rule matches. */
  lemma XrayMergeRoutesRelay(t: Template, f: Fragment, r: Request)
    requires MergeXray(t, f).Ok? && IsXrayFragment(f) && r.inbound == f.tag
    ensures var guard := Decide(Guards(t, XrayOwned(t, f)), r);
            RouteTo(MergeXray(t, f).value.rules.value, r) ==
            if guard.Some? then To(Some(API), guard.value.rest) else To(Some(f.outboundTag), "field")
  {
    XrayRules(t, f);
    var rules := StripAll(t.rules.value, XrayOwned(t, f));
    SpliceRoute(rules, f.Route(), r);
    LeadIsApi(rules);
    if Decide(rules[..Lead(rules)], r).Some? { DecisionIsRule(rules[..Lead(rules)], r); }
  }

  /** The inbounds of a template that neither merge nor renaming removes keep the other merge's tests. */
  lemma IkeKeepsXrayTests(t: Template, ike: Fragment, xray: Fragment)
    requires Merge(t, ike).Ok? && IsIkeFragment(ike) && IsXrayFragment(xray) && ike.port != xray.port
    ensures XrayOwned(Merge(t, ike).value, xray) == XrayOwned(t, xray)
  {
    var before, after := t.inbounds.value, Merge(t, ike).value.inbounds.value;
    var owned := IkeOwned(t, ike);
    TestTagDiffers(ike.port);
    TestTagDiffers(xray.port);
    TestTagsDiffer(ike.port, xray.port);
    KeptSame(before, after, owned, ike.Entry());
    SameTests(before, after, owned, ike.Entry(), xray.port);
  }

  lemma TestTagsDiffer(p: nat, q: nat)
    requires p != q
    ensures IkeTestTag(p) != IkeTestTag(q)
  {
    if IkeTestTag(p) == IkeTestTag(q) {
      assert IkeTestTag(p)[|IKE_TEST_PREFIX|..] == Decimal(p) && IkeTestTag(q)[|IKE_TEST_PREFIX|..] == Decimal(q);
      DecimalInjective(p, q);
    }
  }

  ghost predicate Keeps(before: seq<Inbound>, after: seq<Inbound>, owned: set<string>, entry: Inbound) {
    forall v :: v in after <==> v == entry || (v in before && !Owns(owned, v))
  }

  lemma KeptSame(before: seq<Inbound>, after: seq<Inbound>, owned: set<string>, entry: Inbound)
    requires after == Unowned(before, owned) + [entry]
    ensures Keeps(before, after, owned, entry)
  {
    UnownedFacts(before, owned);
  }

  /** A list that loses only unrelated tags and gains an unrelated entry keeps its tests. */
  lemma SameTests(before: seq<Inbound>, after: seq<Inbound>, owned: set<string>, entry: Inbound, port: nat)
    requires Keeps(before, after, owned, entry)
    requires IkeTestTag(port) !in owned && XRAY_TEST_TAG !in owned && !IsIkeTest(entry, port) &&
             !IsXrayTest(entry, port)
    ensures AdoptsIkeTest(after, port) <==> AdoptsIkeTest(before, port)
    ensures AdoptsXrayTest(after, port) <==> AdoptsXrayTest(before, port)
  {
    if i :| 0 <= i < |before| && IsIkeTest(before[i], port) {
      assert before[i] in after;
      var j :| 0 <= j < |after| && after[j] == before[i];
    }
    if i :| 0 <= i < |before| && IsXrayTest(before[i], port) {
      assert before[i] in after;
      var j :| 0 <= j < |after| && after[j] == before[i];
    }
    if i :| 0 <= i < |after| && IsIkeTest(after[i], port) {
      assert after[i] in before;
      var j :| 0 <= j < |before| && before[j] == after[i];
    }
    if i :| 0 <= i < |after| && IsXrayTest(after[i], port) {
      assert after[i] in before;
      var j :| 0 <= j < |before| && before[j] == after[i];
    }
  }

  lemma RenameKeepsIkeTests(inbounds: seq<Inbound>, port: nat, p: nat)
    requires AdoptsXrayTest(inbounds, port)
    ensures AdoptsIkeTest(RenameTest(inbounds, port), p) <==> AdoptsIkeTest(inbounds, p)
  {
    var k := RenamedAt(inbounds, port);
    var renamed := RenameTest(inbounds, port);
    TestTagDiffers(p);
    assert forall i :: 0 <= i < |inbounds| ==> (IsIkeTest(renamed[i], p) <==> IsIkeTest(inbounds[i], p));
    if AdoptsIkeTest(inbounds, p) {
      var i :| 0 <= i < |inbounds| && IsIkeTest(inbounds[i], p);
      assert IsIkeTest(renamed[i], p);
    }
  }

  lemma XrayKeepsIkeTests(t: Template, ike: Fragment, xray: Fragment)
    requires MergeXray(t, xray).Ok? && IsIkeFragment(ike) && IsXrayFragment(xray) && ike.port != xray.port
    ensures IkeOwned(MergeXray(t, xray).value, ike) == IkeOwned(t, ike)
  {
    var renamed, after := Renamed(t, xray.port).inbounds.value, MergeXray(t, xray).value.inbounds.value;
    var owned := Owned(renamed, xray);
    TestTagDiffers(ike.port);
    TestTagDiffers(xray.port);
    TestTagsDiffer(ike.port, xray.port);
    KeptSame(renamed, after, owned, xray.Entry());
    SameTests(renamed, after, owned, xray.Entry(), ike.port);
    if AdoptsXrayTest(t.inbounds.value, xray.port) { RenameKeepsIkeTests(t.inbounds.value, xray.port, ike.port); }
  }

  /** Two relays on one port cannot both be merged. */
  lemma PortsDiffer(t: Template, ike: Fragment, xray: Fragment)
    requires IsIkeFragment(ike) && IsXrayFragment(xray) && Merge(t, ike).Ok? && MergeXray(Merge(t, ike).value, xray).Ok?
    ensures ike.port != xray.port
  {
    var a := Merge(t, ike).value.inbounds.value;
    var renamed := Renamed(Merge(t, ike).value, xray.port).inbounds.value;
    var n := |a| - 1;
    assert a[n] == ike.Entry();
    if AdoptsXrayTest(a, xray.port) { var k := RenamedAt(a, xray.port); }
    assert renamed[n] == ike.Entry();
    TestTagDiffers(xray.port);
    assert !Owns(Owned(renamed, xray), renamed[n]);
  }

  /** Rules that can match a request on a relay inbound: those that name no inbound. */
  predicate Exposed(rule: Rule) {
    rule.inboundTag.None? || rule.inboundTag.value == []
  }

  /** The conditions under which some api rule of `guards` takes a request from every inbound. */
  function Conditions(guards: seq<Rule>): set<Option<string>> {
    set rule | rule in guards && Exposed(rule) :: rule.condition
  }

  predicate SameGuards(a: seq<Rule>, b: seq<Rule>) {
    Conditions(a) == Conditions(b) || (None in Conditions(a) && None in Conditions(b))
  }

  /** The api rules before the relay routes when the Xray fragment, or the IKE fragment, is merged last. */
  function XrayLastGuards(t: Template, ike: Fragment, xray: Fragment): seq<Rule>
    requires Valid(t)
  {
    StripAll(Guards(t, IkeOwned(t, ike)), XrayOwned(t, xray))
  }

  function IkeLastGuards(t: Template, ike: Fragment, xray: Fragment): seq<Rule>
    requires Valid(t)
  {
    StripAll(Guards(t, XrayOwned(t, xray)), IkeOwned(t, ike))
  }

  lemma {:induction false} LeadAppend(x: seq<Rule>, y: seq<Rule>)
    requires forall rule :: rule in x ==> rule.outboundTag == Some(API)
    ensures Lead(x + y) == |x| + Lead(y)
  {
    if x == [] {
      assert x + y == y;
    } else {
      assert (x + y)[1..] == x[1..] + y;
      assert x[0] in x;
      LeadAppend(x[1..], y);
    }
  }

  lemma {:induction false} StripKeepsApi(rules: seq<Rule>, owned: set<string>)
    requires forall rule :: rule in rules ==> rule.outboundTag == Some(API)
    ensures forall rule :: rule in StripAll(rules, owned) ==> rule.outboundTag == Some(API)
  {
    if rules != [] {
      assert rules[0] in rules;
      StripKeepsApi(rules[1..], owned);
    }
  }

  lemma {:induction false} StrippedTags(rules: seq<Rule>, owned: set<string>)
    ensures forall rule, tag ::
              rule in StripAll(rules, owned) && rule.inboundTag.Some? && tag in rule.inboundTag.value ==> tag !in owned
  {
    if rules != [] {
      StrippedTags(rules[1..], owned);
      StripByTags(rules[0], owned);
      if rules[0].inboundTag.Some? { WithoutOwned(rules[0].inboundTag.value, owned); }
    }
  }

  lemma SpliceAfterGuards(guards: seq<Rule>, first: Rule, tail: seq<Rule>, second: Rule)
    requires first.outboundTag != Some(API) && forall rule :: rule in guards ==> rule.outboundTag == Some(API)
    ensures Splice(guards + [first] + tail, second) == guards + [second] + [first] + tail
  {
    var rest := [first] + tail;
    var all := guards + [first] + tail;
    assert all == guards + rest && rest[0] == first;
    LeadAppend(guards, rest);
    assert Lead(all) == |guards|;
    assert all[..|guards|] == guards && all[|guards|..] == rest;
  }

  /** Stripping the other owner from a spliced list leaves its route behind the remaining guards. */
  lemma StripSpliced(s: seq<Rule>, first: Rule, b: set<string>)
    requires StripAll([first], b) == [first]
    ensures StripAll(Splice(s, first), b) == StripAll(s[..Lead(s)], b) + [first] + StripAll(s[Lead(s)..], b)
  {
    StripAround(s[..Lead(s)], first, s[Lead(s)..], b);
  }

  lemma GuardsAreApi(s: seq<Rule>, b: set<string>)
    ensures forall rule :: rule in StripAll(s[..Lead(s)], b) ==> rule.outboundTag == Some(API)
  {
    LeadIsApi(s);
    StripKeepsApi(s[..Lead(s)], b);
  }

  /** Splicing one route, stripping the other owner and splicing its route puts both after the remaining guards. */
  lemma SpliceBoth(s: seq<Rule>, first: Rule, b: set<string>, second: Rule)
    requires first.outboundTag != Some(API) && StripAll([first], b) == [first]
    ensures Splice(StripAll(Splice(s, first), b), second) ==
            StripAll(s[..Lead(s)], b) + [second] + [first] + StripAll(s[Lead(s)..], b)
  {
    StripSpliced(s, first, b);
    GuardsAreApi(s, b);
    SpliceAfterGuards(StripAll(s[..Lead(s)], b), first, StripAll(s[Lead(s)..], b), second);
  }

  /** Routing through guards, two routes on different inbounds, and the rest. */
  lemma RouteThrough(guards: seq<Rule>, x: Rule, y: Rule, tail: seq<Rule>, r: Request)
    requires !(Matches(x, r) && Matches(y, r))
    ensures Decide(guards + [x] + [y] + tail, r) ==
            if Matches(x, r) || Matches(y, r) then
              (if Decide(guards, r).Some? then Decide(guards, r) else Some(if Matches(x, r) then x else y))
            else Decide(guards + tail, r)
  {
    DecideAppend(guards + [x] + [y], tail, r);
    DecideAppend(guards + [x], [y], r);
    DecideAppend(guards, [x], r);
    DecideAppend(guards, tail, r);
    DecideOne(x, r);
    DecideOne(y, r);
  }

  lemma StripOtherRoute(f: Fragment, owned: set<string>)
    requires f.tag !in owned
    ensures StripAll([f.Route()], owned) == [f.Route()]
  {
    StripOnce(f.Route(), owned);
  }

  /** The rules after both merges: guards, the two routes, and the rest of the stripped rules. */
  lemma RulesAfterBoth(t: Template, first: Fragment, a: set<string>, second: Fragment, b: set<string>, r: Request)
    requires t.rules.Some? && first.outboundTag != API && first.tag !in b && first.tag != second.tag
    ensures var s := StripAll(t.rules.value, a);
            var guards := StripAll(s[..Lead(s)], b);
            var rules := Splice(StripAll(Splice(s, first.Route()), b), second.Route());
            Decide(rules, r) ==
            if r.inbound == first.tag || r.inbound == second.tag then
              (if Decide(guards, r).Some? then Decide(guards, r)
               else Some(if r.inbound == first.tag then first.Route() else second.Route()))
            else Decide(StripAll(t.rules.value, a + b), r)
  {
    var s := StripAll(t.rules.value, a);
    var guards, tail := StripAll(s[..Lead(s)], b), StripAll(s[Lead(s)..], b);
    StripOtherRoute(first, b);
    SpliceBoth(s, first.Route(), b, second.Route());
    RouteThrough(guards, second.Route(), first.Route(), tail, r);
    StripPieces(s, Lead(s), b);
    StripTwice(t.rules.value, a, b);
  }

  // ---------- When the order does not matter ----------

  predicate AllApi(guards: seq<Rule>, tag: string) {
    forall rule :: rule in guards ==> rule.outboundTag == Some(API) && (Exposed(rule) || tag !in rule.inboundTag.value)
  }

  predicate Holds(condition: Option<string>, r: Request) { condition.None? || condition.value in r.holds }

  /** Guards take a request on a relay inbound exactly when one of their exposed conditions holds. */
  lemma {:induction false} GuardsDecide(guards: seq<Rule>, r: Request)
    requires AllApi(guards, r.inbound)
    ensures Decide(guards, r).Some? <==> exists c :: c in Conditions(guards) && Holds(c, r)
    ensures Decide(guards, r).Some? ==> Decide(guards, r).value.outboundTag == Some(API)
  {
    if guards != [] {
      var rest := guards[1..];
      assert guards == [guards[0]] + rest && guards[0] in guards;
      GuardsDecide(rest, r);
      if Matches(guards[0], r) {
        assert guards[0].condition in Conditions(guards);
      } else if c :| c in Conditions(guards) && Holds(c, r) {
        var rule :| rule in guards && Exposed(rule) && rule.condition == c;
        assert rule in rest;
        assert c in Conditions(rest);
      }
      forall c | c in Conditions(rest) ensures c in Conditions(guards) {
        var rule :| rule in rest && Exposed(rule) && rule.condition == c;
        assert rule in guards;
      }
    }
  }

  /** Where a request on the inbound of `f` goes behind `guards`. */
  function Behind(guards: seq<Rule>, f: Fragment, r: Request): Egress {
    var d := Decide(guards, r);
    if d.Some? then To(d.value.outboundTag, d.value.rest) else To(Some(f.outboundTag), "field")
  }

  /** Longer guards with the same conditions send every relay request the same way. */
  lemma SameGuardsSameRoute(a: seq<Rule>, extra: seq<Rule>, f: Fragment, r: Request)
    requires AllApi(a, r.inbound) && AllApi(a + extra, r.inbound) && SameGuards(a, a + extra)
    ensures Behind(a, f, r) == Behind(a + extra, f, r)
  {
    DecideAppend(a, extra, r);
    GuardsDecide(a, r);
    GuardsDecide(a + extra, r);
    if None in Conditions(a) { assert Holds(None, r); }
  }

  /** Longer guards with a further condition take some request the shorter ones leave to the relay. */
  lemma OtherGuardsOtherRoute(a: seq<Rule>, extra: seq<Rule>, f: Fragment) returns (r: Request)
    requires AllApi(a, f.tag) && AllApi(a + extra, f.tag) && !SameGuards(a, a + extra) && f.outboundTag != API
    ensures r.inbound == f.tag && Behind(a, f, r) != Behind(a + extra, f, r)
  {
    forall c | c in Conditions(a) ensures c in Conditions(a + extra) {
      var rule :| rule in a && Exposed(rule) && rule.condition == c;
      assert rule in a + extra;
    }
    var c :| c in Conditions(a + extra) && c !in Conditions(a);
    r := Request(f.tag, if c.Some? then {c.value} else {});
    GuardsDecide(a, r);
    GuardsDecide(a + extra, r);
    assert Holds(c, r);
    assert None !in Conditions(a);
    forall other | other in Conditions(a) ensures !Holds(other, r) {
      assert other != c && other.Some?;
    }
  }

  /** The outbound a request takes; None is the default. */
  function Leaves(e: Egress): Option<Option<string>> {
    match e case Default => None case To(outboundTag, _) => Some(outboundTag)
  }

  /** Guards with different conditions take different requests. */
  lemma OtherGuards(a: seq<Rule>, b: seq<Rule>, tag: string) returns (r: Request)
    requires AllApi(a, tag) && AllApi(b, tag) && !SameGuards(a, b)
    ensures r.inbound == tag && (Decide(a, r).Some? <==> Decide(b, r).None?)
  {
    var x, y := Conditions(a), Conditions(b);
    var c: Option<string>;
    if None in x || None in y { c := None; } else { c :| c in (x - y) + (y - x); }
    r := Request(tag, if c.Some? then {c.value} else {});
    assert Holds(c, r);
    assert forall other :: Holds(other, r) ==> other == c || other == None;
    GuardsDecide(a, r);
    GuardsDecide(b, r);
  }

  lemma SameGuardsDecide(a: seq<Rule>, b: seq<Rule>, r: Request)
    requires AllApi(a, r.inbound) && AllApi(b, r.inbound) && SameGuards(a, b)
    ensures Decide(a, r).Some? <==> Decide(b, r).Some?
  {
    GuardsDecide(a, r);
    GuardsDecide(b, r);
    assert Holds(None, r);
  }

  /** The api rules that stay before a route are api rules, and none of them names an owned inbound. */
  lemma GuardsOfOwner(t: Template, owned: set<string>, tag: string)
    requires t.rules.Some? && tag in owned
    ensures AllApi(Guards(t, owned), tag)
  {
    var rules := StripAll(t.rules.value, owned);
    LeadIsApi(rules);
    StrippedTags(t.rules.value, owned);
    forall rule | rule in Guards(t, owned) ensures rule.outboundTag == Some(API) && rule in rules {
      var i :| 0 <= i < Lead(rules) && rules[i] == rule;
    }
  }

  /**
   * Behind guards with the same conditions, or with the control API as its own outbound, a relay's requests leave
   * alike, and only then.
   */
  lemma LeaveAlikeExactly(f: Fragment, a: seq<Rule>, b: seq<Rule>)
    requires AllApi(a, f.tag) && AllApi(b, f.tag)
    ensures (forall r: Request :: r.inbound == f.tag ==> Leaves(Behind(a, f, r)) == Leaves(Behind(b, f, r))) <==>
            f.outboundTag == API || SameGuards(a, b)
  {
    if f.outboundTag == API || SameGuards(a, b) {
      forall r: Request | r.inbound == f.tag ensures Leaves(Behind(a, f, r)) == Leaves(Behind(b, f, r)) {
        GuardsDecide(a, r);
        GuardsDecide(b, r);
        if SameGuards(a, b) { SameGuardsDecide(a, b, r); }
      }
    } else {
      var r := OtherGuards(a, b, f.tag);
      GuardsDecide(a, r);
      GuardsDecide(b, r);
    }
  }

  lemma GuardsAllApi(rules: seq<Rule>, a: set<string>, b: set<string>, tag: string)
    requires tag in a || tag in b
    ensures var s := StripAll(rules, a); AllApi(StripAll(s[..Lead(s)], b), tag)
  {
    var s := StripAll(rules, a);
    GuardsAreApi(s, b);
    StripPieces(s, Lead(s), b);
    StripTwice(rules, a, b);
    StrippedTags(rules, a + b);
    forall rule | rule in StripAll(s[..Lead(s)], b) ensures rule in StripAll(rules, a + b) {
      assert rule in StripAll(s[..Lead(s)], b) + StripAll(s[Lead(s)..], b);
    }
  }

  /** Of the two guard lists one continues the other. */
  lemma GuardsNest(rules: seq<Rule>, a: set<string>, b: set<string>)
    ensures var s, t := StripAll(rules, a), StripAll(rules, b);
            var x, y := StripAll(s[..Lead(s)], b), StripAll(t[..Lead(t)], a);
            if |x| <= |y| then y == x + y[|x|..] else x == y + x[|y|..]
  {
    var s, t := StripAll(rules, a), StripAll(rules, b);
    StripPieces(s, Lead(s), b);
    StripPieces(t, Lead(t), a);
    StripTwice(rules, a, b);
    StripTwice(rules, b, a);
    assert a + b == b + a;
    Prefixes(StripAll(s[..Lead(s)], b), StripAll(s[Lead(s)..], b), StripAll(t[..Lead(t)], a),
             StripAll(t[Lead(t)..], a));
  }

  lemma Prefixes(x: seq<Rule>, x': seq<Rule>, y: seq<Rule>, y': seq<Rule>)
    requires x + x' == y + y'
    ensures if |x| <= |y| then y == x + y[|x|..] else x == y + x[|y|..]
  {
    var all := x + x';
    assert all[..|x|] == x && all[..|y|] == y;
  }

  /** Both orders of the two merges succeed. */
  ghost predicate BothMerged(t: Template, ike: Fragment, xray: Fragment, xrayLast: Template, ikeLast: Template) {
    && IsIkeFragment(ike) && IsXrayFragment(xray)
    && Merge(t, ike).Ok? && MergeXray(Merge(t, ike).value, xray) == Ok(xrayLast)
    && MergeXray(t, xray).Ok? && Merge(MergeXray(t, xray).value, ike) == Ok(ikeLast)
  }

  /** And neither relay's own route leads to the control API. */
  ghost predicate BothOrders(t: Template, ike: Fragment, xray: Fragment, xrayLast: Template, ikeLast: Template) {
    BothMerged(t, ike, xray, xrayLast, ikeLast) && ike.outboundTag != API && xray.outboundTag != API
  }

  lemma RulesInBothOrders(t: Template, ike: Fragment, xray: Fragment, xrayLast: Template, ikeLast: Template)
    requires BothOrders(t, ike, xray, xrayLast, ikeLast)
    ensures var a, b := IkeOwned(t, ike), XrayOwned(t, xray);
            && xrayLast.rules.value ==
              Splice(StripAll(Splice(StripAll(t.rules.value, a), ike.Route()), b), xray.Route())
            && ikeLast.rules.value == Splice(StripAll(Splice(StripAll(t.rules.value, b), xray.Route()), a), ike.Route())
  {
    PortsDiffer(t, ike, xray);
    IkeKeepsXrayTests(t, ike, xray);
    XrayKeepsIkeTests(t, ike, xray);
    IkeRules(t, ike);
    XrayRules(Merge(t, ike).value, xray);
    XrayRules(t, xray);
    IkeRules(MergeXray(t, xray).value, ike);
  }

  lemma OwnersApart(t: Template, ike: Fragment, xray: Fragment)
    requires t.inbounds.Some? && IsIkeFragment(ike) && IsXrayFragment(xray)
    ensures ike.tag in IkeOwned(t, ike) && ike.tag !in XrayOwned(t, xray)
    ensures xray.tag in XrayOwned(t, xray) && xray.tag !in IkeOwned(t, ike)
  {
    TestTagDiffers(ike.port);
    TestTagDiffers(xray.port);
  }

  lemma RoutesInBothOrders(t: Template, ike: Fragment, xray: Fragment, xrayLast: Template, ikeLast: Template,
                           r: Request)
    requires BothOrders(t, ike, xray, xrayLast, ikeLast)
    ensures if r.inbound == ike.tag || r.inbound == xray.tag then
              var f := if r.inbound == ike.tag then ike else xray;
              && RouteTo(xrayLast.rules.value, r) == Behind(XrayLastGuards(t, ike, xray), f, r)
              && RouteTo(ikeLast.rules.value, r) == Behind(IkeLastGuards(t, ike, xray), f, r)
            else RouteTo(xrayLast.rules.value, r) == RouteTo(ikeLast.rules.value, r)
  {
    var a, b := IkeOwned(t, ike), XrayOwned(t, xray);
    RulesInBothOrders(t, ike, xray, xrayLast, ikeLast);
    OwnersApart(t, ike, xray);
    RulesAfterBoth(t, ike, a, xray, b, r);
    RulesAfterBoth(t, xray, b, ike, a, r);
    assert a + b == b + a;
  }

  /** The two orders route every request alike exactly when their guards have the same conditions. */
  lemma MergesCommuteExactly(t: Template, ike: Fragment, xray: Fragment, xrayLast: Template, ikeLast: Template)
    requires BothOrders(t, ike, xray, xrayLast, ikeLast)
    ensures (forall r :: RouteTo(xrayLast.rules.value, r) == RouteTo(ikeLast.rules.value, r)) <==>
            SameGuards(XrayLastGuards(t, ike, xray), IkeLastGuards(t, ike, xray))
  {
    var x, y := XrayLastGuards(t, ike, xray), IkeLastGuards(t, ike, xray);
    var a, b := IkeOwned(t, ike), XrayOwned(t, xray);
    GuardsNest(t.rules.value, a, b);
    forall tag | tag in {ike.tag, xray.tag} ensures AllApi(x, tag) && AllApi(y, tag) {
      GuardsAllApi(t.rules.value, a, b, tag);
      GuardsAllApi(t.rules.value, b, a, tag);
    }
    if SameGuards(x, y) {
      forall r ensures RouteTo(xrayLast.rules.value, r) == RouteTo(ikeLast.rules.value, r) {
        RoutesInBothOrders(t, ike, xray, xrayLast, ikeLast, r);
        if r.inbound in {ike.tag, xray.tag} {
          var f := if r.inbound == ike.tag then ike else xray;
          if |x| <= |y| { SameGuardsSameRoute(x, y[|x|..], f, r); } else { SameGuardsSameRoute(y, x[|y|..], f, r); }
        }
      }
    } else {
      var r;
      if |x| <= |y| {
        r := OtherGuardsOtherRoute(x, y[|x|..], ike);
      } else {
        r := OtherGuardsOtherRoute(y, x[|y|..], ike);
      }
      RoutesInBothOrders(t, ike, xray, xrayLast, ikeLast, r);
    }
  }

  /** Every api rule names its inbounds. */
  predicate ApiRulesNamed(rules: seq<Rule>) {
    forall rule :: rule in rules && rule.outboundTag == Some(API) ==> !Exposed(rule)
  }

  /** Then no leading api rule takes a request on an owned inbound. */
  lemma NamedGuardsMiss(rules: seq<Rule>, owned: set<string>, r: Request)
    requires ApiRulesNamed(rules) && r.inbound in owned
    ensures var s := StripAll(rules, owned); Decide(s[..Lead(s)], r).None?
  {
    var s := StripAll(rules, owned);
    LeadIsApi(s);
    StripHides(rules, owned);
    StrippedTags(rules, owned);
    if Decide(s[..Lead(s)], r).Some? {
      DecisionIsRule(s[..Lead(s)], r);
      assert Decide(s[..Lead(s)], r).value in s;
    }
  }

  lemma SpliceNamed(rules: seq<Rule>, route: Rule)
    requires ApiRulesNamed(rules) && !Exposed(route)
    ensures ApiRulesNamed(Splice(rules, route))
  {
    assert rules == rules[..Lead(rules)] + rules[Lead(rules)..];
  }

  lemma MissedRule(p: seq<Rule>, x: Rule, q: seq<Rule>, r: Request)
    requires !Matches(x, r)
    ensures Decide(p + [x] + q, r) == Decide(p + q, r)
  {
    DecideAppend(p + [x], q, r);
    DecideAppend(p, [x], r);
    DecideOne(x, r);
    DecideAppend(p, q, r);
  }

  /** A request that the spliced route misses sees the stripped rules without it. */
  lemma SplicedMiss(s: seq<Rule>, x: Rule, b: set<string>, r: Request)
    requires StripAll([x], b) == [x] && !Matches(x, r)
    ensures Decide(StripAll(Splice(s, x), b), r) == Decide(StripAll(s, b), r)
  {
    var lead, tail := s[..Lead(s)], s[Lead(s)..];
    StripSpliced(s, x, b);
    MissedRule(StripAll(lead, b), x, StripAll(tail, b), r);
    StripAppend(lead, tail, b);
    assert s == lead + tail;
  }

  /** A request on no relay inbound does not notice the routes that both merges splice in. */
  lemma SplicedBothMiss(rules: seq<Rule>, first: Fragment, a: set<string>, second: Fragment, b: set<string>, r: Request)
    requires first.tag !in b && r.inbound != first.tag && r.inbound != second.tag
    ensures Decide(Splice(StripAll(Splice(StripAll(rules, a), first.Route()), b), second.Route()), r) ==
            Decide(StripAll(rules, a + b), r)
  {
    StripOtherRoute(first, b);
    SplicedMiss(StripAll(rules, a), first.Route(), b, r);
    StripTwice(rules, a, b);
    SpliceMissed(StripAll(Splice(StripAll(rules, a), first.Route()), b), second.Route(), r);
  }

  lemma SpliceMissed(rules: seq<Rule>, x: Rule, r: Request)
    requires !Matches(x, r)
    ensures Decide(Splice(rules, x), r) == Decide(rules, r)
  {
    SpliceRoute(rules, x, r);
  }

  /** Requests on the IKE relay take its route in both orders. */
  lemma NamedIkeRoutes(t: Template, ike: Fragment, xray: Fragment, xrayLast: Template, ikeLast: Template, r: Request)
    requires BothMerged(t, ike, xray, xrayLast, ikeLast) && ApiRulesNamed(t.rules.value) && r.inbound == ike.tag
    ensures RouteTo(xrayLast.rules.value, r) == RouteTo(ikeLast.rules.value, r) == To(Some(ike.outboundTag), "field")
  {
    var first, other := Merge(t, ike).value, MergeXray(t, xray).value;
    OwnersApart(first, ike, xray);
    XrayMergeKeepsForeignRoutes(first, xray, r);
    MergeRoutesRelay(t, ike, r);
    NamedGuardsMiss(t.rules.value, Owned(t.inbounds.value, ike), r);
    XrayRules(t, xray);
    StripHides(t.rules.value, XrayOwned(t, xray));
    SpliceNamed(StripAll(t.rules.value, XrayOwned(t, xray)), xray.Route());
    MergeRoutesRelay(other, ike, r);
    NamedGuardsMiss(other.rules.value, Owned(other.inbounds.value, ike), r);
  }

  lemma NamedXrayRoutes(t: Template, ike: Fragment, xray: Fragment, xrayLast: Template, ikeLast: Template, r: Request)
    requires BothMerged(t, ike, xray, xrayLast, ikeLast) && ApiRulesNamed(t.rules.value) && r.inbound == xray.tag
    ensures RouteTo(xrayLast.rules.value, r) == RouteTo(ikeLast.rules.value, r) == To(Some(xray.outboundTag), "field")
  {
    var first, other := MergeXray(t, xray).value, Merge(t, ike).value;
    OwnersApart(first, ike, xray);
    MergeKeepsForeignRoutes(first, ike, r);
    XrayMergeRoutesRelay(t, xray, r);
    OwnersApart(t, ike, xray);
    NamedGuardsMiss(t.rules.value, XrayOwned(t, xray), r);
    IkeRules(t, ike);
    StripHides(t.rules.value, IkeOwned(t, ike));
    SpliceNamed(StripAll(t.rules.value, IkeOwned(t, ike)), ike.Route());
    XrayMergeRoutesRelay(other, xray, r);
    OwnersApart(other, ike, xray);
    NamedGuardsMiss(other.rules.value, XrayOwned(other, xray), r);
  }

  /**
   * When every api rule names its inbounds, the order of the merges never matters, whatever outbounds the relays
   * use.
   */
  lemma NamedApiRulesCommute(t: Template, ike: Fragment, xray: Fragment, xrayLast: Template, ikeLast: Template,
                             r: Request)
    requires BothMerged(t, ike, xray, xrayLast, ikeLast) && ApiRulesNamed(t.rules.value)
    ensures RouteTo(xrayLast.rules.value, r) == RouteTo(ikeLast.rules.value, r)
  {
    if r.inbound == ike.tag {
      NamedIkeRoutes(t, ike, xray, xrayLast, ikeLast, r);
    } else if r.inbound == xray.tag {
      NamedXrayRoutes(t, ike, xray, xrayLast, ikeLast, r);
    } else {
      OthersCommute(t, ike, xray, xrayLast, ikeLast, r);
    }
  }

  /** Requests on every other inbound are routed alike in both orders, with no condition at all. */
  lemma OthersCommute(t: Template, ike: Fragment, xray: Fragment, xrayLast: Template, ikeLast: Template, r: Request)
    requires BothMerged(t, ike, xray, xrayLast, ikeLast) && r.inbound != ike.tag && r.inbound != xray.tag
    ensures RouteTo(xrayLast.rules.value, r) == RouteTo(ikeLast.rules.value, r)
  {
    var a, b := IkeOwned(t, ike), XrayOwned(t, xray);
    PortsDiffer(t, ike, xray);
    OwnersApart(t, ike, xray);
    IkeKeepsXrayTests(t, ike, xray);
    XrayKeepsIkeTests(t, ike, xray);
    IkeRules(t, ike);
    XrayRules(Merge(t, ike).value, xray);
    XrayRules(t, xray);
    IkeRules(MergeXray(t, xray).value, ike);
    SplicedBothMiss(t.rules.value, ike, a, xray, b, r);
    SplicedBothMiss(t.rules.value, xray, b, ike, a, r);
    assert a + b == b + a;
  }

  lemma {:induction false} StripHides(rules: seq<Rule>, owned: set<string>)
    requires ApiRulesNamed(rules)
    ensures ApiRulesNamed(StripAll(rules, owned))
  {
    if rules != [] {
      StripHides(rules[1..], owned);
      StripByTags(rules[0], owned);
      assert rules[0] in rules;
    }
  }

  /** What the IKE relay's requests meet when its fragment is merged first, and when it is merged last. */
  function IkeGuardsFirst(t: Template, ike: Fragment): seq<Rule>
    requires Valid(t)
  {
    Guards(t, IkeOwned(t, ike))
  }

  function IkeGuardsLast(t: Template, ike: Fragment, xray: Fragment): seq<Rule>
    requires MergeXray(t, xray).Ok?
  {
    IkeGuardsFirst(MergeXray(t, xray).value, ike)
  }

  /** The same for the Xray relay. */
  function XrayGuardsFirst(t: Template, xray: Fragment): seq<Rule>
    requires Valid(t)
  {
    Guards(t, XrayOwned(t, xray))
  }

  function XrayGuardsLast(t: Template, ike: Fragment, xray: Fragment): seq<Rule>
    requires Merge(t, ike).Ok?
  {
    XrayGuardsFirst(Merge(t, ike).value, xray)
  }

  /** A relay's requests pass the guards its own merge left, whatever is merged afterwards. */
  lemma RelaysBehindGuards(t: Template, ike: Fragment, xray: Fragment, xrayLast: Template, ikeLast: Template,
                           r: Request)
    requires BothMerged(t, ike, xray, xrayLast, ikeLast)
    ensures r.inbound == ike.tag ==>
              && RouteTo(xrayLast.rules.value, r) == Behind(IkeGuardsFirst(t, ike), ike, r)
              && RouteTo(ikeLast.rules.value, r) == Behind(IkeGuardsLast(t, ike, xray), ike, r)
    ensures r.inbound == xray.tag ==>
              && RouteTo(xrayLast.rules.value, r) == Behind(XrayGuardsLast(t, ike, xray), xray, r)
              && RouteTo(ikeLast.rules.value, r) == Behind(XrayGuardsFirst(t, xray), xray, r)
  {
    var ikeFirst, xrayFirst := Merge(t, ike).value, MergeXray(t, xray).value;
    if r.inbound == ike.tag {
      IkeBehindGuards(t, ike, r);
      IkeBehindGuards(xrayFirst, ike, r);
      OwnersApart(ikeFirst, ike, xray);
      XrayMergeKeepsForeignRoutes(ikeFirst, xray, r);
    } else if r.inbound == xray.tag {
      XrayBehindGuards(t, xray, r);
      XrayBehindGuards(ikeFirst, xray, r);
      OwnersApart(xrayFirst, ike, xray);
      MergeKeepsForeignRoutes(xrayFirst, ike, r);
    }
  }

  lemma IkeBehindGuards(t: Template, ike: Fragment, r: Request)
    requires Merge(t, ike).Ok? && r.inbound == ike.tag
    ensures RouteTo(Merge(t, ike).value.rules.value, r) == Behind(IkeGuardsFirst(t, ike), ike, r)
  {
    MergeRoutesRelay(t, ike, r);
    GuardsOfOwner(t, IkeOwned(t, ike), ike.tag);
    GuardsDecide(IkeGuardsFirst(t, ike), r);
  }

  lemma XrayBehindGuards(t: Template, xray: Fragment, r: Request)
    requires MergeXray(t, xray).Ok? && IsXrayFragment(xray) && r.inbound == xray.tag
    ensures Valid(t) && RouteTo(MergeXray(t, xray).value.rules.value, r) == Behind(XrayGuardsFirst(t, xray), xray, r)
  {
    XrayMergeRoutesRelay(t, xray, r);
    TestNotOwned(t.inbounds.value, xray);
    GuardsOfOwner(t, XrayOwned(t, xray), xray.tag);
    GuardsDecide(XrayGuardsFirst(t, xray), r);
  }

  /**
   * The two orders send every request to the same outbound if and only if, for each relay whose own outbound is
   * not the control API, the api rules it stays behind have the same conditions in both orders.
   */
  lemma OrdersAgreeExactly(t: Template, ike: Fragment, xray: Fragment, xrayLast: Template, ikeLast: Template)
    requires BothMerged(t, ike, xray, xrayLast, ikeLast)
    ensures (forall r :: Leaves(RouteTo(xrayLast.rules.value, r)) == Leaves(RouteTo(ikeLast.rules.value, r))) <==>
            && (ike.outboundTag == API || SameGuards(IkeGuardsFirst(t, ike), IkeGuardsLast(t, ike, xray)))
            && (xray.outboundTag == API || SameGuards(XrayGuardsLast(t, ike, xray), XrayGuardsFirst(t, xray)))
  {
    RelayGuardsAllApi(t, ike, xray, xrayLast, ikeLast);
    LeaveAlikeExactly(ike, IkeGuardsFirst(t, ike), IkeGuardsLast(t, ike, xray));
    LeaveAlikeExactly(xray, XrayGuardsLast(t, ike, xray), XrayGuardsFirst(t, xray));
    forall r: Request
      ensures r.inbound == ike.tag || r.inbound == xray.tag ||
              RouteTo(xrayLast.rules.value, r) == RouteTo(ikeLast.rules.value, r)
    {
      if r.inbound != ike.tag && r.inbound != xray.tag { OthersCommute(t, ike, xray, xrayLast, ikeLast, r); }
    }
    forall r: Request { RelaysBehindGuards(t, ike, xray, xrayLast, ikeLast, r); }
  }

  lemma RelayGuardsAllApi(t: Template, ike: Fragment, xray: Fragment, xrayLast: Template, ikeLast: Template)
    requires BothMerged(t, ike, xray, xrayLast, ikeLast)
    ensures AllApi(IkeGuardsFirst(t, ike), ike.tag) && AllApi(IkeGuardsLast(t, ike, xray), ike.tag)
    ensures AllApi(XrayGuardsFirst(t, xray), xray.tag) && AllApi(XrayGuardsLast(t, ike, xray), xray.tag)
  {
    var ikeFirst, xrayFirst := Merge(t, ike).value, MergeXray(t, xray).value;
    OwnersApart(t, ike, xray);
    OwnersApart(ikeFirst, ike, xray);
    OwnersApart(xrayFirst, ike, xray);
    GuardsOfOwner(t, IkeOwned(t, ike), ike.tag);
    GuardsOfOwner(xrayFirst, IkeOwned(xrayFirst, ike), ike.tag);
    GuardsOfOwner(t, XrayOwned(t, xray), xray.tag);
    GuardsOfOwner(ikeFirst, XrayOwned(ikeFirst, xray), xray.tag);
  }

  /** Two rules, the second on every inbound: stripping the first one's inbound uncovers the second. */
  lemma Uncovered(own: Rule, guard: Rule, tag: string, a: set<string>, b: set<string>)
    requires own.inboundTag == Some([tag]) && tag !in a && tag in b && guard.inboundTag.None?
    requires own.outboundTag != Some(API) && guard.outboundTag == Some(API)
    ensures StripAll([own, guard], a) == [own, guard] && Lead([own, guard]) == 0
    ensures StripAll([own, guard], b) == [guard] && Lead([guard]) == 1
  {
    assert [own, guard] == [own] + [guard];
    StripAppend([own], [guard], a);
    StripAppend([own], [guard], b);
    StripRoute(own, tag, b);
    StripOnce(guard, a);
    StripOnce(guard, b);
    StripOnce(own, a);
    assert Lead([guard]) == 1 + Lead([]) by { assert [guard][1..] == []; }
  }

  /** A template whose api rule on every inbound stands behind a rule on the Xray relay. */
  function HiddenApiRule(outboundTag: string, condition: string): Template {
    Template(Some([]), Some([Some(outboundTag)]),
             Some([Rule(Some([XRAY_TAG]), None, Some(outboundTag), ""), Rule(None, Some(condition), Some(API), "")]),
             "")
  }

  lemma GuardsDiffer(ike: Fragment, xray: Fragment, outboundTag: string, condition: string)
    requires IsIkeFragment(ike) && IsXrayFragment(xray) && outboundTag != API
    ensures var t := HiddenApiRule(outboundTag, condition);
            !SameGuards(XrayLastGuards(t, ike, xray), IkeLastGuards(t, ike, xray))
  {
    var t := HiddenApiRule(outboundTag, condition);
    var own, guard := t.rules.value[0], t.rules.value[1];
    var a, b := IkeOwned(t, ike), XrayOwned(t, xray);
    OwnersApart(t, ike, xray);
    Uncovered(own, guard, XRAY_TAG, a, b);
    assert Guards(t, a) == [] && StripAll([], b) == [];
    assert Guards(t, b) == [guard];
    StripOnce(guard, a);
    assert guard.condition in Conditions([guard]);
  }

  /** An api rule on every inbound, behind a rule on one relay: the two orders route some request differently. */
  lemma OrderMatters(ike: Fragment, xray: Fragment, condition: string)
    returns (t: Template, xrayLast: Template, ikeLast: Template, r: Request)
    requires IsIkeFragment(ike) && IsXrayFragment(xray) && ike.port != xray.port
    requires ike.outboundTag == xray.outboundTag && ike.outboundTag != API
    ensures BothOrders(t, ike, xray, xrayLast, ikeLast)
    ensures RouteTo(xrayLast.rules.value, r) != RouteTo(ikeLast.rules.value, r)
  {
    t := HiddenApiRule(ike.outboundTag, condition);
    GuardsDiffer(ike, xray, ike.outboundTag, condition);
    MergesOfEmpty(t, ike, xray);
    xrayLast := MergeXray(Merge(t, ike).value, xray).value;
    ikeLast := Merge(MergeXray(t, xray).value, ike).value;
    MergesCommuteExactly(t, ike, xray, xrayLast, ikeLast);
    r :| RouteTo(xrayLast.rules.value, r) != RouteTo(ikeLast.rules.value, r);
  }

  /** A template without inbounds takes both fragments in either order, when their ports differ. */
  lemma MergesOfEmpty(t: Template, ike: Fragment, xray: Fragment)
    requires Valid(t) && t.inbounds.value == [] && Some(ike.outboundTag) in t.outbounds.value &&
             Some(xray.outboundTag) in t.outbounds.value
    requires IsIkeFragment(ike) && IsXrayFragment(xray) && ike.port != xray.port
    ensures Merge(t, ike).Ok? && MergeXray(Merge(t, ike).value, xray).Ok?
    ensures MergeXray(t, xray).Ok? && Merge(MergeXray(t, xray).value, ike).Ok?
  {
    if Decimal(ike.port) == Decimal(xray.port) { DecimalInjective(ike.port, xray.port); }
    assert Merge(t, ike).value.inbounds.value == [ike.Entry()];
    assert MergeXray(t, xray).value.inbounds.value == [xray.Entry()];
  }
}
