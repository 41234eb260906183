/**
 * What strongSwan reads after an update of the relay helper: the main file with the files it includes, and which
 * connections they declare.
 */
module RelayMeaning {
  import opened Sums
  import opened RelayApply
  import opened RelayText

  // ---------- The relay's own file ----------

  /** An indented setting of a connection. */
  predicate Sets(line: string, key: string, value: string) {
    exists i :: 0 < i <= |line| && Blank(line[..i]) && line[i..] == key + "=" + value
  }

  predicate SomeSets(lines: seq<string>, key: string, value: string) {
    exists i :: 0 <= i < |lines| && Sets(lines[i], key, value)
  }

  predicate SomeDeclares(lines: seq<string>, name: string) {
    exists i :: 0 <= i < |lines| && Declares(lines[i], "conn", name)
  }

  lemma OneSets(line: string, key: string, value: string)
    requires line == "    " + key + "=" + value
    ensures Sets(line, key, value)
  {
    assert Blank(line[..4]) && line[4..] == key + "=" + value;
  }

  lemma {:induction false} NotTrimmed(line: string)
    requires line != [] && !White(line[|line| - 1])
    ensures TrimRight(line) == line
  {
  }

  lemma RelayLine()
    ensures Declares("conn zvpn-ike-relay", "conn", "zvpn-ike-relay")
  {
    var line := "conn zvpn-ike-relay";
    assert line[..4] == "conn" && line[5..] == "zvpn-ike-relay" && Blank(line[4..5]);
    NotTrimmed("zvpn-ike-relay");
  }

  lemma CommentDeclaresNothing(line: string, name: string)
    requires line == [] || line[0] == '#'
    ensures !Declares(line, "conn", name)
  {
    if line != [] { assert |line| > 4 ==> line[..4][0] == '#'; }
  }

  lemma AlsoLine()
    ensures Sets("    also=ikev2-vpn", "also", "ikev2-vpn")
  {
    OneSets("    also=ikev2-vpn", "also", "ikev2-vpn");
  }

  lemma IdentityLine(hostname: string)
    ensures Sets("    leftid=" + hostname, "leftid", hostname)
  {
    assert "    leftid=" + hostname == "    " + "leftid" + "=" + hostname;
    OneSets("    leftid=" + hostname, "leftid", hostname);
  }

  lemma CertificateLine()
    ensures Sets("    leftcert=zvpn-ike-relay-cert.pem", "leftcert", "zvpn-ike-relay-cert.pem")
  {
    OneSets("    leftcert=zvpn-ike-relay-cert.pem", "leftcert", "zvpn-ike-relay-cert.pem");
  }

  lemma AutoLine()
    ensures Sets("    auto=add", "auto", "add")
  {
    OneSets("    auto=add", "auto", "add");
  }

  lemma EnabledSettings(p: Policy)
    requires p.enabled
    ensures SomeSets(ConnectionText(p), "also", "ikev2-vpn")
    ensures SomeSets(ConnectionText(p), "leftid", p.hostname)
    ensures SomeSets(ConnectionText(p), "leftcert", "zvpn-ike-relay-cert.pem")
    ensures SomeSets(ConnectionText(p), "auto", "add")
  {
    var text := ConnectionText(p);
    AlsoLine();
    IdentityLine(p.hostname);
    CertificateLine();
    AutoLine();
    assert Sets(text[2], "also", "ikev2-vpn") && Sets(text[3], "leftid", p.hostname);
    assert Sets(text[4], "leftcert", "zvpn-ike-relay-cert.pem") && Sets(text[6], "auto", "add");
  }

  lemma EnabledDeclares(p: Policy)
    requires p.enabled
    ensures SomeDeclares(ConnectionText(p), "zvpn-ike-relay")
  {
    RelayLine();
    assert Declares(ConnectionText(p)[1], "conn", "zvpn-ike-relay");
  }

  lemma DisabledDeclaresNothing(p: Policy)
    requires !p.enabled
    ensures !SomeDeclares(ConnectionText(p), "zvpn-ike-relay")
  {
    CommentDeclaresNothing(ConnectionText(p)[0], "zvpn-ike-relay");
    CommentDeclaresNothing(ConnectionText(p)[1], "zvpn-ike-relay");
  }

  /** The file declares the relay's connection exactly when it is enabled: the production's, with its own identity. */
  lemma ConnectionExactly(p: Policy)
    ensures SomeDeclares(ConnectionText(p), "zvpn-ike-relay") <==> p.enabled
    ensures p.enabled ==>
              && SomeSets(ConnectionText(p), "also", "ikev2-vpn")
              && SomeSets(ConnectionText(p), "leftid", p.hostname)
              && SomeSets(ConnectionText(p), "leftcert", "zvpn-ike-relay-cert.pem")
              && SomeSets(ConnectionText(p), "auto", "add")
  {
    if p.enabled {
      EnabledDeclares(p);
      EnabledSettings(p);
    } else {
      DisabledDeclaresNothing(p);
    }
  }

  // ---------- Substrings ----------

  predicate PartAt(s: string, part: string, i: nat) { i + |part| <= |s| && s[i..i + |part|] == part }

  lemma {:induction false} ContainsExactly(s: string, part: string)
    ensures Contains(s, part) <==> exists i: nat :: PartAt(s, part, i)
  {
    if PartAt(s, part, 0) || |part| > |s| || s == [] {
      assert s[..|s|] == s;
      assert |part| <= |s| ==> s[0..|part|] == s[..|part|];
    } else {
      ContainsExactly(s[1..], part);
      if i: nat :| PartAt(s[1..], part, i) {
        assert s[i + 1..i + 1 + |part|] == s[1..][i..i + |part|];
        assert PartAt(s, part, i + 1);
      }
      if i: nat :| PartAt(s, part, i) {
        assert s[1..][i - 1..i - 1 + |part|] == s[i..i + |part|];
        assert PartAt(s[1..], part, i - 1);
      }
    }
  }

  ghost predicate Mentions(lines: seq<string>, part: string) {
    exists k, i: nat :: 0 <= k < |lines| && PartAt(lines[k], part, i)
  }

  lemma MentionsExactly(lines: seq<string>, part: string)
    ensures SomeLineContains(lines, part) <==> Mentions(lines, part)
  {
    forall k | 0 <= k < |lines|
      ensures Contains(lines[k], part) <==> exists i: nat :: PartAt(lines[k], part, i)
    {
      ContainsExactly(lines[k], part);
    }
  }

  /** A hand-made test identity is retired exactly when it names this host and its own certificate. */
  lemma RetiredExactly(nodes: Nodes, p: Policy, luck: Luck)
    requires Readable(nodes)
    ensures var after := Target(nodes, p, luck);
            var mine := p.hostname != "" && Legacy in nodes && nodes[Legacy].File? &&
                        Mentions(TextOf(nodes, Legacy), "leftcert=ir-ike-test-cert.pem") &&
                        Mentions(TextOf(nodes, Legacy), "leftid=" + p.hostname);
            && (mine ==> Legacy in after && TextOf(after, Legacy) == ["# Superseded by the managed ZVPN relay.", ""])
            && (mine ==> forall l :: l in TextOf(after, Main) ==> !IncludesLegacy(l))
            && (!mine ==> SameFile(nodes, after, Legacy))
  {
    MentionsExactly(TextOf(nodes, Legacy), "leftcert=ir-ike-test-cert.pem");
    MentionsExactly(TextOf(nodes, Legacy), "leftid=" + p.hostname);
    TargetFiles(nodes, p, luck);
    UpdatedText(nodes[Main].content.lines, Adopts(nodes, p));
  }

  // ---------- What strongSwan reads ----------

  predicate IncludesTest(lines: seq<string>) { exists i :: 0 <= i < |lines| && IncludesLegacy(lines[i]) }

  /** A connection declared by the main file or by one of the two files it may include. */
  predicate Declared(nodes: Nodes, name: string) {
    var main := TextOf(nodes, Path.Main);
    || SomeDeclares(main, name)
    || (INCLUDE in main && SomeDeclares(TextOf(nodes, Connection), name))
    || (IncludesTest(main) && SomeDeclares(TextOf(nodes, Legacy), name))
  }

  /** Declared outside the relay's own file. */
  predicate DeclaredElsewhere(nodes: Nodes, name: string) {
    var main := TextOf(nodes, Path.Main);
    SomeDeclares(main, name) || (IncludesTest(main) && SomeDeclares(TextOf(nodes, Legacy), name))
  }

  lemma {:induction false} StripFrom(lines: seq<string>, l: string)
    requires l in StripEnd(lines)
    ensures l == [] || l in lines || exists m :: m in lines && l == TrimRight(m)
  {
    if lines != [] {
      var front, last := lines[..|lines| - 1], lines[|lines| - 1];
      assert lines == front + [last];
      if Blank(last) {
        StripFrom(front, l);
      } else if l !in front {
        assert last in lines && l == TrimRight(last);
      }
    }
  }

  lemma {:induction false} DropFrom(lines: seq<string>, l: string)
    requires l in DropLegacy(lines)
    ensures l == [] || l in lines
    decreases |lines|
  {
    if IncludesLegacy(lines[0]) {
      var rest := SkipBlank(lines[1..]);
      if l != [] {
        assert l in DropLegacy(rest);
        DropFrom(rest, l);
        SkipFrom(lines[1..], l);
      }
    } else if l != lines[0] {
      DropFrom(lines[1..], l);
    }
  }

  lemma {:induction false} SkipFrom(lines: seq<string>, l: string)
    requires l in SkipBlank(lines)
    ensures l in lines
  {
    if lines != [] && Blank(lines[0]) { SkipFrom(lines[1..], l); }
  }

  /** Every line of the updated main file was there, up to trailing white space, or is the include or empty. */
  lemma MainFrom(lines: seq<string>, adopt: bool, l: string)
    requires l in NewMain(lines, adopt)
    ensures l == [] || l == INCLUDE || l in lines || exists m :: m in lines && l == TrimRight(m)
  {
    var added := WithInclude(lines);
    if adopt { DropFrom(added, l); }
    if l != [] && INCLUDE !in lines && l != INCLUDE { StripFrom(lines, l); }
  }

  lemma DeclaresLonger(t: string, w: string, name: string)
    requires Declares(t, "conn", name) && Blank(w)
    ensures Declares(t + w, "conn", name)
  {
    var line := t + w;
    var i :| 4 < i <= |t| && Blank(t[4..i]) && TrimRight(t[i..]) == name;
    assert line[..4] == t[..4] && line[4] == t[4] && line[4..i] == t[4..i];
    assert line[i..] == t[i..] + w;
    TrimIgnores(t[i..], w);
  }

  lemma DeclaresUntrimmed(line: string, name: string)
    requires Declares(TrimRight(line), "conn", name)
    ensures Declares(line, "conn", name)
  {
    var t := TrimRight(line);
    Trim(line);
    assert line == t + line[|t|..];
    DeclaresLonger(t, line[|t|..], name);
  }

  lemma IncludeDeclaresNothing(name: string)
    ensures !Declares(INCLUDE, "conn", name) && !Declares([], "conn", name)
  {
    assert INCLUDE[0] == 'i' && INCLUDE[..4][0] == INCLUDE[0];
  }

  /** The update of the main file declares nothing new. */
  lemma MainDeclaresNoMore(lines: seq<string>, adopt: bool, name: string)
    requires SomeDeclares(NewMain(lines, adopt), name)
    ensures SomeDeclares(lines, name)
  {
    var text := NewMain(lines, adopt);
    var i :| 0 <= i < |text| && Declares(text[i], "conn", name);
    MainFrom(lines, adopt, text[i]);
    IncludeDeclaresNothing(name);
    if text[i] !in lines {
      var m :| m in lines && text[i] == TrimRight(m);
      DeclaresUntrimmed(m, name);
      var j :| 0 <= j < |lines| && lines[j] == m;
    } else {
      var j :| 0 <= j < |lines| && lines[j] == text[i];
    }
  }

  lemma TestIncludeKept(lines: seq<string>, adopt: bool)
    requires IncludesTest(NewMain(lines, adopt))
    ensures IncludesTest(lines) && !adopt
  {
    var text := NewMain(lines, adopt);
    var i :| 0 <= i < |text| && IncludesLegacy(text[i]);
    UpdatedText(lines, adopt);
    MainFrom(lines, adopt, text[i]);
    IncludeIsOther();
    LegacyTrimmed(text[i]);
    if text[i] !in lines {
      var m :| m in lines && text[i] == TrimRight(m);
      LegacyTrimmed(m);
      var j :| 0 <= j < |lines| && lines[j] == m;
    } else {
      var j :| 0 <= j < |lines| && lines[j] == text[i];
    }
  }

  /**
   * After an update strongSwan reads the production connection; it reads the relay's exactly when the relay is
   * enabled, unless somebody declared one of that name elsewhere.
   */
  lemma RelayDeclaredExactly(nodes: Nodes, p: Policy, luck: Luck)
    requires Usable(nodes) && !DeclaredElsewhere(nodes, "zvpn-ike-relay")
    ensures Declared(Target(nodes, p, luck), "zvpn-ike-relay") <==> p.enabled
    ensures Declared(Target(nodes, p, luck), "ikev2-vpn")
  {
    var after, lines := Target(nodes, p, luck), TextOf(nodes, Path.Main);
    var adopt := Adopts(nodes, p);
    TargetFiles(nodes, p, luck);
    UpdatedText(lines, adopt);
    ProductionStays(lines, adopt);
    var text := NewMain(lines, adopt);
    assert TextOf(after, Path.Main) == text && TextOf(after, Connection) == ConnectionText(p);
    var i :| 0 <= i < |text| && Production(text[i]);
    assert Declares(text[i], "conn", "ikev2-vpn");
    ConnectionExactly(p);
    if SomeDeclares(text, "zvpn-ike-relay") { MainDeclaresNoMore(lines, adopt, "zvpn-ike-relay"); }
    if IncludesTest(text) {
      TestIncludeKept(lines, adopt);
      assert SameFile(nodes, after, Legacy);
    }
  }

  /** The policy is recorded as given, for the owner alone; the status is for everybody to read. */
  lemma RecordedExactly(nodes: Nodes, p: Policy, luck: Luck)
    requires Usable(nodes)
    ensures var after := Target(nodes, p, luck);
            && after[State] == File(Json(p), 6 * 64) && after[Connection].mode == 6 * 64
            && after[Status] == File(Report(p, if p.enabled then luck.info else None), 6 * 64 + 4 * 8 + 4)
            && after[Path.Main].mode == nodes[Path.Main].mode
  {
    TargetFiles(nodes, p, luck);
  }

  /** The certificate is the old one if that matched or the relay is off, and else the one just issued. */
  lemma CertificateExactly(nodes: Nodes, p: Policy, luck: Luck)
    requires CertificateOk(nodes, p, luck) && (Cert in nodes ==> nodes[Cert].File?)
    ensures var after := Target(nodes, p, luck);
            && (!p.enabled || (Cert in nodes && luck.matches == Some(true)) ==> SameFile(nodes, after, Cert))
            && (p.enabled && (Cert !in nodes || luck.matches == Some(false)) ==>
                  luck.issued.Some? && Cert in after &&
                  after[Cert] == File(Lines(luck.issued.value), 6 * 64 + 4 * 8 + 4))
  {
  }

  /** An identity that first shows up at look k, counted from 0, is in time exactly when k is below eleven. */
  lemma InTimeExactly(replies: seq<Option<bool>>, k: nat)
    requires k < |replies| && replies[k] == Some(true) && forall j :: 0 <= j < k ==> replies[j] == Some(false)
    ensures Loaded(replies) <==> k < 11
  {
    if i :| 0 <= i < 11 && i < |replies| && replies[i] == Some(true) && forall j :: 0 <= j < i ==>
        replies[j] == Some(false)
    {
      assert k <= i;
    }
  }
}
