/**
 * What a merge leaves of a template, said of the template itself: which inbounds, rules and tags remain and in
 * which order, what is added and where, and exactly when a template is refused.
 */
module RelayTemplates {
  import opened Sums
  import opened RelayMerge

  // ---------- Remainders of a list ----------

  /** `part` lists, in their order, the elements of `all` at the positions `at`, which are those not dropped. */
  ghost predicate Picked<T>(all: seq<T>, dropped: set<nat>, part: seq<T>, at: seq<nat>) {
    && |at| == |part|
    && (forall i :: 0 <= i < |at| ==> at[i] < |all| && at[i] !in dropped && part[i] == all[at[i]])
    && (forall i, j :: 0 <= i < j < |at| ==> at[i] < at[j])
    && (forall k :: 0 <= k < |all| && k !in dropped ==> k in at)
  }

  ghost predicate Remains<T>(all: seq<T>, dropped: set<nat>, part: seq<T>) {
    exists at: seq<nat> :: Picked(all, dropped, part, at)
  }

  lemma PickNext<T>(all: seq<T>, dropped: set<nat>, part: seq<T>, at: seq<nat>, x: T)
    requires Picked(all, dropped, part, at)
    ensures |all| in dropped ==> Picked(all + [x], dropped, part, at)
    ensures |all| !in dropped ==> Picked(all + [x], dropped, part + [x], at + [|all|])
  {
    if |all| !in dropped {
      var next := at + [|all|];
      forall k | 0 <= k < |all + [x]| && k !in dropped ensures k in next {
        if k == |all| { assert next[|at|] == k; }
      }
    }
  }

  // ---------- The tags a merge replaces ----------

  /** An inbound of a hand-made IKE relay on the port. */
  predicate HandMadeIke(v: Inbound, port: nat) {
    && v.tag == Some("ir-ike-test-" + Decimal(port))
    && v.protocol == "tunnel" && v.network == Some("udp") && v.rewritePort == Some(4500)
  }

  predicate HandMadeXray(v: Inbound, port: nat) {
    && v.tag == Some("zvpn-xray-relay-test") && v.port == Number(port)
    && v.protocol == "tunnel" && v.network == Some("tcp")
  }

  /** The relay's own tag, and those of hand-made relays it takes over. */
  ghost predicate Replaced(inbounds: seq<Inbound>, f: Fragment, isXray: bool, tag: string) {
    || tag == f.tag
    || (exists v :: v in inbounds && HandMadeIke(v, f.port) && v.tag == Some(tag))
    || (isXray && exists v :: v in inbounds && HandMadeXray(v, f.port) && v.tag == Some(tag))
  }

  ghost predicate AreReplaced(inbounds: seq<Inbound>, f: Fragment, isXray: bool, tags: set<string>) {
    forall tag :: tag in tags <==> Replaced(inbounds, f, isXray, tag)
  }

  lemma OwnedExactly(inbounds: seq<Inbound>, f: Fragment, isXray: bool)
    ensures AreReplaced(inbounds, f, isXray, BrowserOwned(inbounds, f, isXray))
  {
    forall tag
      ensures tag in BrowserOwned(inbounds, f, isXray) <==> Replaced(inbounds, f, isXray, tag)
    {
      if AdoptsIkeTest(inbounds, f.port) {
        var i :| 0 <= i < |inbounds| && IsIkeTest(inbounds[i], f.port);
        assert inbounds[i] in inbounds && HandMadeIke(inbounds[i], f.port);
      }
      if AdoptsXrayTest(inbounds, f.port) {
        var i :| 0 <= i < |inbounds| && IsXrayTest(inbounds[i], f.port);
        assert inbounds[i] in inbounds && HandMadeXray(inbounds[i], f.port);
      }
    }
  }

  // ---------- Inbounds ----------

  function Tagged(inbounds: seq<Inbound>, tags: set<string>): set<nat> {
    set k: nat | k < |inbounds| && inbounds[k].tag.Some? && inbounds[k].tag.value in tags
  }

  lemma {:induction false} UnownedPicked(inbounds: seq<Inbound>, tags: set<string>, n: nat) returns (at: seq<nat>)
    requires n <= |inbounds|
    ensures Picked(inbounds[..n], Tagged(inbounds, tags), Unowned(inbounds[..n], tags), at)
  {
    if n == 0 {
      at := [];
    } else {
      at := UnownedPicked(inbounds, tags, n - 1);
      var before, v := inbounds[..n - 1], inbounds[n - 1];
      assert inbounds[..n] == before + [v];
      UnownedAppend(before, v, tags);
      PickNext(before, Tagged(inbounds, tags), Unowned(before, tags), at, v);
      if n - 1 in Tagged(inbounds, tags) {
        assert Unowned(before, tags) + [] == Unowned(before, tags);
      } else {
        at := at + [n - 1];
      }
    }
  }

  lemma UnownedRemains(inbounds: seq<Inbound>, tags: set<string>)
    ensures Remains(inbounds, Tagged(inbounds, tags), Unowned(inbounds, tags))
  {
    var at := UnownedPicked(inbounds, tags, |inbounds|);
    assert inbounds[..|inbounds|] == inbounds;
  }

  // ---------- Rules ----------

  function Listed(list: seq<string>, tags: set<string>): set<nat> {
    set k: nat | k < |list| && list[k] in tags
  }

  /** A rule that names a tag loses every such tag and keeps everything else; any other rule stays as it is. */
  ghost predicate Struck(before: Rule, tags: set<string>, after: Rule) {
    if before.inboundTag.Some? && (exists t :: t in before.inboundTag.value && t in tags) then
      && after.inboundTag.Some?
      && after == before.(inboundTag := after.inboundTag)
      && Remains(before.inboundTag.value, Listed(before.inboundTag.value, tags), after.inboundTag.value)
    else after == before
  }

  /** A rule on nothing but the tags. */
  predicate OnlyOn(rule: Rule, tags: set<string>) {
    && rule.inboundTag.Some? && rule.inboundTag.value != []
    && forall t :: t in rule.inboundTag.value ==> t in tags
  }

  function RulesOnlyOn(rules: seq<Rule>, tags: set<string>): set<nat> {
    set k: nat | k < |rules| && OnlyOn(rules[k], tags)
  }

  ghost predicate AllStruck(before: seq<Rule>, tags: set<string>, struck: seq<Rule>) {
    |struck| == |before| && forall i :: 0 <= i < |before| ==> Struck(before[i], tags, struck[i])
  }

  /** The rules without the tags, in their order; those on nothing else are gone. */
  ghost predicate RulesRemain(before: seq<Rule>, tags: set<string>, after: seq<Rule>) {
    exists struck: seq<Rule> :: AllStruck(before, tags, struck) && Remains(struck, RulesOnlyOn(before, tags), after)
  }

  lemma {:induction false} WithoutPicked(list: seq<string>, tags: set<string>, n: nat) returns (at: seq<nat>)
    requires n <= |list|
    ensures Picked(list[..n], Listed(list, tags), Without(list[..n], tags), at)
  {
    if n == 0 {
      at := [];
    } else {
      at := WithoutPicked(list, tags, n - 1);
      var before, t := list[..n - 1], list[n - 1];
      assert list[..n] == before + [t];
      WithoutAppend(before, t, tags);
      PickNext(before, Listed(list, tags), Without(before, tags), at, t);
      if n - 1 in Listed(list, tags) {
        assert Without(before, tags) + [] == Without(before, tags);
      } else {
        at := at + [n - 1];
      }
    }
  }

  /** What is left of one rule, whether or not it is kept. */
  function Left(rule: Rule, tags: set<string>): Rule {
    if rule.inboundTag.Some? && (exists t :: t in rule.inboundTag.value && t in tags) then
      rule.(inboundTag := Some(Without(rule.inboundTag.value, tags)))
    else rule
  }

  lemma LeftIsStruck(rule: Rule, tags: set<string>)
    ensures Struck(rule, tags, Left(rule, tags))
  {
    if rule.inboundTag.Some? {
      var list := rule.inboundTag.value;
      var at := WithoutPicked(list, tags, |list|);
      assert list[..|list|] == list;
    }
  }

  lemma NothingLeft(list: seq<string>, tags: set<string>)
    ensures Without(list, tags) == [] <==> forall t :: t in list ==> t in tags
  {
    WithoutOwned(list, tags);
    if Without(list, tags) != [] {
      assert Without(list, tags)[0] in Without(list, tags);
    }
  }

  lemma StripIsLeft(rule: Rule, tags: set<string>)
    ensures Strip(rule, tags) == if OnlyOn(rule, tags) then [] else [Left(rule, tags)]
  {
    StripByTags(rule, tags);
    if rule.inboundTag.Some? {
      NothingLeft(rule.inboundTag.value, tags);
      WithoutOwned(rule.inboundTag.value, tags);
    }
  }

  function AllLeft(rules: seq<Rule>, tags: set<string>): (r: seq<Rule>)
    ensures |r| == |rules|
    ensures forall i :: 0 <= i < |rules| ==> r[i] == Left(rules[i], tags)
  {
    seq(|rules|, i requires 0 <= i < |rules| => Left(rules[i], tags))
  }

  lemma {:induction false} StripPicked(rules: seq<Rule>, tags: set<string>, n: nat) returns (at: seq<nat>)
    requires n <= |rules|
    ensures Picked(AllLeft(rules, tags)[..n], RulesOnlyOn(rules, tags), StripAll(rules[..n], tags), at)
  {
    if n == 0 {
      at := [];
    } else {
      at := StripPicked(rules, tags, n - 1);
      var before, rule := rules[..n - 1], rules[n - 1];
      var left := AllLeft(rules, tags);
      assert rules[..n] == before + [rule];
      assert left[..n] == left[..n - 1] + [left[n - 1]];
      StripAppend(before, [rule], tags);
      StripOnce(rule, tags);
      StripIsLeft(rule, tags);
      PickNext(left[..n - 1], RulesOnlyOn(rules, tags), StripAll(before, tags), at, left[n - 1]);
      if n - 1 in RulesOnlyOn(rules, tags) {
        assert StripAll(before, tags) + [] == StripAll(before, tags);
      } else {
        at := at + [n - 1];
      }
    }
  }

  lemma StripRemains(rules: seq<Rule>, tags: set<string>)
    ensures RulesRemain(rules, tags, StripAll(rules, tags))
  {
    var left := AllLeft(rules, tags);
    var at := StripPicked(rules, tags, |rules|);
    assert left[..|left|] == left && rules[..|rules|] == rules;
    forall i | 0 <= i < |rules|
      ensures Struck(rules[i], tags, left[i])
    {
      LeftIsStruck(rules[i], tags);
    }
    assert AllStruck(rules, tags, left);
  }

  /** `at` is the first rule that does not lead to the control API, or the end. */
  predicate FirstNotApi(rules: seq<Rule>, at: nat) {
    && at <= |rules|
    && (forall i :: 0 <= i < at ==> rules[i].outboundTag == Some("api"))
    && (at < |rules| ==> rules[at].outboundTag != Some("api"))
  }

  // ---------- Templates ----------

  ghost predicate InboundsMerged(before: seq<Inbound>, dropped: set<nat>, f: Fragment, after: seq<Inbound>) {
    && after != []
    && after[|after| - 1] ==
       Inbound(Some(f.tag), Number(f.port), "tunnel", Some(f.network), Some(f.rewritePort), f.rest)
    && Remains(before, dropped, after[..|after| - 1])
  }

  ghost predicate RuleAt(before: seq<Rule>, tags: set<string>, f: Fragment, after: seq<Rule>, at: nat) {
    && at < |after| && after[at] == Rule(Some([f.tag]), None, Some(f.outboundTag), "field")
    && RulesRemain(before, tags, after[..at] + after[at + 1..])
    && FirstNotApi(after[..at] + after[at + 1..], at)
  }

  ghost predicate RulesMerged(before: seq<Rule>, tags: set<string>, f: Fragment, after: seq<Rule>) {
    exists at: nat :: RuleAt(before, tags, f, after, at)
  }

  /** The template with the relay added, its predecessors gone, and nothing else changed. */
  ghost predicate IsMerged(t: Template, f: Fragment, tags: set<string>, dropped: set<nat>, after: Template)
    requires Valid(t)
  {
    && after.rest == t.rest && after.outbounds == t.outbounds
    && after.inbounds.Some? && InboundsMerged(t.inbounds.value, dropped, f, after.inbounds.value)
    && after.rules.Some? && RulesMerged(t.rules.value, tags, f, after.rules.value)
  }

  /** The lists are there, the outbound exists, and no inbound that stays has the port. */
  ghost predicate Acceptable(t: Template, f: Fragment, dropped: set<nat>) {
    && t.inbounds.Some? && t.outbounds.Some? && t.rules.Some?
    && Some(f.outboundTag) in t.outbounds.value
    && forall k :: 0 <= k < |t.inbounds.value| && k !in dropped ==>
        PortText(t.inbounds.value[k].port) != Decimal(f.port)
  }

  /** What a refusal says: a list is missing, else the outbound is, else the port is taken. */
  predicate RefusedWith(t: Template, f: Fragment, e: MergeError) {
    if t.inbounds.None? || t.outbounds.None? || t.rules.None? then e == InvalidTemplate
    else if Some(f.outboundTag) !in t.outbounds.value then e == OutboundNotFound
    else e == PortInUse
  }

  lemma Inserted<T>(lead: seq<T>, x: T, tail: seq<T>)
    ensures (lead + [x] + tail)[|lead|] == x
    ensures (lead + [x] + tail)[..|lead|] + (lead + [x] + tail)[|lead| + 1..] == lead + tail
  {
    var all := lead + [x] + tail;
    assert all[..|lead|] == lead;
    assert all[|lead| + 1..] == tail;
  }

  lemma LeadIsFirst(rules: seq<Rule>)
    ensures FirstNotApi(rules, Lead(rules))
  {
    LeadIsApi(rules);
  }

  lemma SpliceInserts(left: seq<Rule>, route: Rule)
    ensures var after, at := Splice(left, route), Lead(left);
            at < |after| && after[at] == route && after[..at] + after[at + 1..] == left
  {
    var at := Lead(left);
    Inserted(left[..at], route, left[at..]);
    assert left[..at] + left[at..] == left;
  }

  lemma RuleIsAt(before: seq<Rule>, tags: set<string>, f: Fragment, left: seq<Rule>, after: seq<Rule>, at: nat)
    requires at < |after| && after[at] == f.Route() && after[..at] + after[at + 1..] == left
    requires RulesRemain(before, tags, left) && FirstNotApi(left, at)
    ensures RulesMerged(before, tags, f, after)
  {
    assert RuleAt(before, tags, f, after, at);
  }

  lemma SpliceMerged(rules: seq<Rule>, tags: set<string>, f: Fragment)
    ensures RulesMerged(rules, tags, f, Splice(StripAll(rules, tags), f.Route()))
  {
    var left := StripAll(rules, tags);
    StripRemains(rules, tags);
    LeadIsFirst(left);
    SpliceInserts(left, f.Route());
    RuleIsAt(rules, tags, f, left, Splice(left, f.Route()), Lead(left));
  }

  lemma OwnedMerged(t: Template, f: Fragment, tags: set<string>)
    requires Valid(t)
    ensures MergeOwned(t, f, tags).Ok? <==> Acceptable(t, f, Tagged(t.inbounds.value, tags))
    ensures MergeOwned(t, f, tags).Ok? ==>
              IsMerged(t, f, tags, Tagged(t.inbounds.value, tags), MergeOwned(t, f, tags).value)
  {
    UnownedRemains(t.inbounds.value, tags);
    SpliceMerged(t.rules.value, tags, f);
    var kept := Unowned(t.inbounds.value, tags);
    assert (kept + [f.Entry()])[..|kept|] == kept;
  }

  /**
   * The page's merge, on either tab: which templates it accepts, and what it makes of them. A template without its
   * lists is accepted under no tags.
   */
  lemma BrowserExactly(t: Template, f: Fragment, isXray: bool, tags: set<string>)
    requires t.inbounds.Some? ==> AreReplaced(t.inbounds.value, f, isXray, tags)
    ensures BrowserSpec(t, f, isXray).Ok? <==>
            t.inbounds.Some? && Acceptable(t, f, Tagged(t.inbounds.value, tags))
    ensures BrowserSpec(t, f, isXray).Ok? ==>
              IsMerged(t, f, tags, Tagged(t.inbounds.value, tags), BrowserSpec(t, f, isXray).value)
  {
    if Valid(t) {
      OwnedExactly(t.inbounds.value, f, isXray);
      assert tags == BrowserOwned(t.inbounds.value, f, isXray);
      OwnedMerged(t, f, tags);
    }
  }

  /** mergeRelayTemplate, for every fragment. */
  lemma MergeExactly(t: Template, f: Fragment, tags: set<string>)
    requires t.inbounds.Some? ==> AreReplaced(t.inbounds.value, f, false, tags)
    ensures Merge(t, f).Ok? <==> t.inbounds.Some? && Acceptable(t, f, Tagged(t.inbounds.value, tags))
    ensures Merge(t, f).Err? ==> RefusedWith(t, f, Merge(t, f).error)
    ensures Merge(t, f).Ok? ==> IsMerged(t, f, tags, Tagged(t.inbounds.value, tags), Merge(t, f).value)
  {
    BrowserExactly(t, f, false, tags);
    IkeBrowserIsBackend(t, f);
  }

  // ---------- The Xray variant ----------

  /** Of several hand-made Xray relays on the port only the first is taken over. */
  ghost predicate GoesForXray(inbounds: seq<Inbound>, f: Fragment, k: nat)
    requires k < |inbounds|
  {
    || (inbounds[k].tag.Some? && Replaced(inbounds, f, false, inbounds[k].tag.value))
    || (HandMadeXray(inbounds[k], f.port) && forall j :: 0 <= j < k ==> !HandMadeXray(inbounds[j], f.port))
  }

  ghost function XrayDropped(inbounds: seq<Inbound>, f: Fragment): set<nat> {
    set k: nat | k < |inbounds| && GoesForXray(inbounds, f, k)
  }

  /** An inbound that is dropped may read anything. */
  lemma RemainsDespite<T>(all: seq<T>, other: seq<T>, dropped: set<nat>, part: seq<T>)
    requires Remains(other, dropped, part) && |all| == |other|
    requires forall i :: 0 <= i < |all| && i !in dropped ==> all[i] == other[i]
    ensures Remains(all, dropped, part)
  {
    var at: seq<nat> :| Picked(other, dropped, part, at);
    assert Picked(all, dropped, part, at);
  }

  /** In the renamed list the first test inbound is under the relay's tag, the others are as they were. */
  lemma RenamedTagged(inbounds: seq<Inbound>, f: Fragment, own: set<string>)
    requires IsXrayFragment(f) && AdoptsXrayTest(inbounds, f.port) && own == Owned(inbounds, f)
    ensures var renamed := RenameTest(inbounds, f.port);
            && Owned(renamed, f) == own && |renamed| == |inbounds|
            && Tagged(renamed, own) == XrayDropped(inbounds, f)
            && forall i :: 0 <= i < |inbounds| && i !in XrayDropped(inbounds, f) ==> renamed[i] == inbounds[i]
  {
    var renamed := RenameTest(inbounds, f.port);
    var k := RenamedAt(inbounds, f.port);
    RenamedOwned(inbounds, f);
    TestNotOwned(inbounds, f);
    OwnedExactly(inbounds, f, false);
    assert BrowserOwned(inbounds, f, false) == own;
    forall i: nat | i < |inbounds|
      ensures i in Tagged(renamed, own) <==> GoesForXray(inbounds, f, i)
    {
      if i != k {
        assert renamed[i] == inbounds[i];
        assert i < k ==> !HandMadeXray(inbounds[i], f.port);
        assert HandMadeXray(inbounds[k], f.port);
      }
    }
  }

  lemma XrayInbounds(t: Template, f: Fragment)
    requires IsXrayFragment(f) && Valid(t)
    ensures var dropped := XrayDropped(t.inbounds.value, f);
            && (MergeXray(t, f).Ok? <==> Acceptable(t, f, dropped))
            && (MergeXray(t, f).Ok? ==>
                  MergeXray(t, f).value.inbounds.Some? &&
                  InboundsMerged(t.inbounds.value, dropped, f, MergeXray(t, f).value.inbounds.value))
  {
    var inbounds, before := t.inbounds.value, Renamed(t, f.port);
    var own, dropped := Owned(inbounds, f), XrayDropped(inbounds, f);
    OwnedMerged(before, f, own);
    if AdoptsXrayTest(inbounds, f.port) {
      RenamedTagged(inbounds, f, own);
      if MergeXray(t, f).Ok? {
        var after := MergeXray(t, f).value.inbounds.value;
        RemainsDespite(inbounds, before.inbounds.value, dropped, after[..|after| - 1]);
      }
    } else {
      OwnedExactly(inbounds, f, false);
      assert BrowserOwned(inbounds, f, false) == own;
      forall k: nat | k < |inbounds|
        ensures !HandMadeXray(inbounds[k], f.port)
      {
        assert !IsXrayTest(inbounds[k], f.port);
      }
      assert Tagged(inbounds, own) == dropped;
    }
  }

  /** mergeXrayRelayTemplate: rules lose the test tag everywhere, of the inbounds under it only one goes. */
  lemma MergeXrayExactly(t: Template, f: Fragment, tags: set<string>)
    requires IsXrayFragment(f) && (t.inbounds.Some? ==> AreReplaced(t.inbounds.value, f, true, tags))
    ensures MergeXray(t, f).Ok? <==> t.inbounds.Some? && Acceptable(t, f, XrayDropped(t.inbounds.value, f))
    ensures MergeXray(t, f).Err? ==> RefusedWith(t, f, MergeXray(t, f).error)
    ensures MergeXray(t, f).Ok? ==>
              IsMerged(t, f, tags, XrayDropped(t.inbounds.value, f), MergeXray(t, f).value)
  {
    if Valid(t) {
      XrayInbounds(t, f);
      OwnedExactly(t.inbounds.value, f, true);
      assert tags == XrayOwned(t, f);
      if MergeXray(t, f).Ok? {
        XrayRules(t, f);
        SpliceMerged(t.rules.value, tags, f);
      }
    }
  }

  // ---------- Ports as text ----------

  ghost predicate Digits(s: string) { forall i :: 0 <= i < |s| ==> '0' <= s[i] <= '9' }

  ghost function Value(s: string): int {
    if s == [] then 0 else 10 * Value(s[..|s| - 1]) + (s[|s| - 1] as int - '0' as int)
  }

  /** A port's text is its decimal form, without leading zeros. */
  lemma {:induction false} DecimalExactly(n: nat)
    ensures Digits(Decimal(n)) && Value(Decimal(n)) == n
    ensures Decimal(n) != [] && (n > 0 ==> Decimal(n)[0] != '0')
  {
    var s := Decimal(n);
    assert forall d: nat :: d < 10 ==> Digit(d) as int == '0' as int + d;
    if n < 10 {
      assert s[..0] == [];
    } else {
      DecimalExactly(n / 10);
      assert s[..|s| - 1] == Decimal(n / 10);
    }
  }
}
