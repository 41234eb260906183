/** What the relay helper's update does to the main configuration text, and what a second update does. */
module RelayText {
  import opened Sums
  import opened RelayApply

  // ---------- White space ----------

  lemma {:induction false} Trim(line: string)
    ensures var t := TrimRight(line);
            |t| <= |line| && line[..|t|] == t && Blank(line[|t|..]) && (t != [] ==> !White(t[|t| - 1]))
  {
    if line != [] && White(line[|line| - 1]) {
      var front := line[..|line| - 1];
      Trim(front);
      assert line[..|TrimRight(front)|] == front[..|TrimRight(front)|];
      forall i | |TrimRight(front)| <= i < |line| ensures White(line[i]) {
        if i < |front| { assert White(front[|TrimRight(front)|..][i - |TrimRight(front)|]); }
      }
    }
  }

  lemma BlankAt(line: string, from: nat, i: nat)
    requires from <= i < |line| && Blank(line[from..])
    ensures White(line[i])
  {
    assert line[from..][i - from] == line[i];
  }

  lemma {:induction false} TrimIgnores(a: string, w: string)
    requires Blank(w)
    ensures TrimRight(a + w) == TrimRight(a)
  {
    if w == [] {
      assert a + w == a;
    } else {
      assert (a + w)[..|a + w| - 1] == a + w[..|w| - 1];
      TrimIgnores(a, w[..|w| - 1]);
    }
  }

  lemma TrimTwice(line: string)
    ensures TrimRight(TrimRight(line)) == TrimRight(line)
    ensures Blank(TrimRight(line)) <==> Blank(line)
    ensures Blank(line) <==> TrimRight(line) == []
  {
    Trim(line);
    var t := TrimRight(line);
    assert line == t + line[|t|..];
  }

  lemma LegacyTrimmed(line: string)
    ensures IncludesLegacy(TrimRight(line)) <==> IncludesLegacy(line)
    ensures IncludesLegacy(line) ==> !Blank(line)
  {
    Trim(line);
    var t, n := TrimRight(line), |LEGACY_INCLUDE|;
    if IncludesLegacy(line) {
      assert LEGACY_INCLUDE[n - 1] == 'f' && line[n - 1] == 'f';
      if |t| < n { BlankAt(line, |t|, n - 1); }
      if |t| > n { BlankAt(line, n, |t| - 1); }
    }
    if IncludesLegacy(t) {
      if |t| > n { BlankAt(t, n, |t| - 1); }
      assert line[n..] == line[|t|..];
    }
  }

  lemma IncludeIsOther()
    ensures !IncludesLegacy(INCLUDE) && !Blank(INCLUDE) && TrimRight(INCLUDE) == INCLUDE
  {
    assert LEGACY_INCLUDE[21] == 'i' && INCLUDE[21] == 'z';
    assert INCLUDE[|INCLUDE| - 1] == 'f';
  }

  // ---------- The lines that matter ----------

  /** The lines that are not blank, without trailing white space; `drop` also leaves out the legacy include. */
  function Others(lines: seq<string>, drop: bool): seq<string> {
    if lines == [] then [] else
      (if Blank(lines[0]) || (drop && IncludesLegacy(lines[0])) then [] else [TrimRight(lines[0])]) +
        Others(lines[1..], drop)
  }

  lemma {:induction false} OthersConcat(a: seq<string>, b: seq<string>, drop: bool)
    ensures Others(a + b, drop) == Others(a, drop) + Others(b, drop)
  {
    if a == [] {
      assert a + b == b;
    } else {
      assert (a + b)[1..] == a[1..] + b;
      OthersConcat(a[1..], b, drop);
    }
  }

  lemma OthersOne(line: string, drop: bool)
    ensures Others([line], drop) == if Blank(line) || (drop && IncludesLegacy(line)) then [] else [TrimRight(line)]
  {
    assert [line][1..] == [];
  }

  lemma {:induction false} OthersStrip(lines: seq<string>, drop: bool)
    ensures Others(StripEnd(lines), drop) == Others(lines, drop)
  {
    if lines == [] {
      OthersOne([], drop);
    } else {
      var front, last := lines[..|lines| - 1], lines[|lines| - 1];
      assert lines == front + [last];
      OthersConcat(front, [last], drop);
      OthersOne(last, drop);
      if Blank(last) {
        OthersStrip(front, drop);
      } else {
        OthersConcat(front, [TrimRight(last)], drop);
        OthersOne(TrimRight(last), drop);
        TrimTwice(last);
        LegacyTrimmed(last);
      }
    }
  }

  lemma {:induction false} OthersSkip(lines: seq<string>, drop: bool)
    ensures Others(SkipBlank(lines), drop) == Others(lines, drop)
  {
    if lines != [] && Blank(lines[0]) { OthersSkip(lines[1..], drop); }
  }

  lemma {:induction false} OthersDrop(lines: seq<string>)
    ensures Others(DropLegacy(lines), true) == Others(lines, true)
    decreases |lines|
  {
    if lines == [] {
    } else if IncludesLegacy(lines[0]) {
      var rest := SkipBlank(lines[1..]);
      OthersDrop(rest);
      OthersSkip(lines[1..], true);
      assert ([[]] + DropLegacy(rest))[1..] == DropLegacy(rest);
    } else {
      OthersDrop(lines[1..]);
      assert ([lines[0]] + DropLegacy(lines[1..]))[1..] == DropLegacy(lines[1..]);
    }
  }

  lemma OthersInclude(lines: seq<string>, drop: bool)
    ensures Others(WithInclude(lines), drop) == Others(lines, drop) + if INCLUDE in lines then [] else [INCLUDE]
  {
    if INCLUDE !in lines {
      IncludeIsOther();
      OthersStrip(lines, drop);
      OthersConcat(StripEnd(lines), [[], INCLUDE, []], drop);
      assert [[], INCLUDE, []] == [[]] + ([INCLUDE] + [[]]);
      OthersConcat([[]], [INCLUDE] + [[]], drop);
      OthersConcat([INCLUDE], [[]], drop);
      OthersOne([], drop);
      OthersOne(INCLUDE, drop);
    }
  }

  /**
   * The update keeps every line of the production configuration in order; it adds its include and drops the legacy
   * one on adoption.
   */
  lemma ProductionTextKept(lines: seq<string>, adopt: bool)
    ensures Others(NewMain(lines, adopt), adopt) == Others(lines, adopt) + if INCLUDE in lines then [] else [INCLUDE]
  {
    OthersInclude(lines, adopt);
    if adopt { OthersDrop(WithInclude(lines)); }
  }

  // ---------- A second update ----------

  lemma {:induction false} DropKeeps(lines: seq<string>, line: string)
    requires line in lines && !Blank(line) && !IncludesLegacy(line)
    ensures line in DropLegacy(lines)
    decreases |lines|
  {
    if IncludesLegacy(lines[0]) {
      assert line in lines[1..];
      SkipKeeps(lines[1..], line);
      DropKeeps(SkipBlank(lines[1..]), line);
    } else if line != lines[0] {
      DropKeeps(lines[1..], line);
    }
  }

  lemma {:induction false} SkipKeeps(lines: seq<string>, line: string)
    requires line in lines && !Blank(line)
    ensures line in SkipBlank(lines)
  {
    if Blank(lines[0]) { SkipKeeps(lines[1..], line); }
  }

  lemma {:induction false} DropLeavesNone(lines: seq<string>)
    ensures forall l :: l in DropLegacy(lines) ==> !IncludesLegacy(l)
    decreases |lines|
  {
    if lines == [] {
    } else if IncludesLegacy(lines[0]) {
      DropLeavesNone(SkipBlank(lines[1..]));
      LegacyTrimmed([]);
    } else {
      DropLeavesNone(lines[1..]);
    }
  }

  /** The updated text includes the relay and, after an adoption, no longer the test identity. */
  lemma UpdatedText(lines: seq<string>, adopt: bool)
    ensures INCLUDE in NewMain(lines, adopt)
    ensures NewMain(NewMain(lines, adopt), false) == NewMain(lines, adopt)
    ensures adopt ==> forall l :: l in NewMain(lines, adopt) ==> !IncludesLegacy(l)
  {
    var added := WithInclude(lines);
    assert INCLUDE in added by {
      if INCLUDE !in lines { assert added[|StripEnd(lines)| + 1] == INCLUDE; }
    }
    if adopt {
      IncludeIsOther();
      DropKeeps(added, INCLUDE);
      DropLeavesNone(added);
    }
  }

  lemma {:induction false} LacksPart(s: string, part: string, c: char)
    requires c in part && c !in s
    ensures !Contains(s, part)
  {
    if |part| <= |s| {
      assert s[..|part|] != part;
      if s != [] { LacksPart(s[1..], part, c); }
    }
  }

  lemma NoLineContains(lines: seq<string>, part: string, c: char)
    requires c in part && forall i :: 0 <= i < |lines| ==> c !in lines[i]
    ensures !SomeLineContains(lines, part)
  {
    if i :| 0 <= i < |lines| && Contains(lines[i], part) { LacksPart(lines[i], part, c); }
  }

  lemma RetiredText()
    ensures !SomeLineContains([SUPERSEDED, ""], LEFTCERT)
  {
    assert LEFTCERT[8] == '=';
    assert '=' !in SUPERSEDED;
    NoLineContains([SUPERSEDED, ""], LEFTCERT, '=');
  }

  /** A retired identity is never taken over again. */
  lemma RetiredForGood(nodes: Nodes, p: Policy)
    requires Legacy in nodes && nodes[Legacy] == File(Lines([SUPERSEDED, ""]), PRIVATE)
    ensures !Adopts(nodes, p)
  {
    RetiredText();
  }

  predicate Readable(nodes: Nodes) { Main in nodes && nodes[Main].File? && nodes[Main].content.Lines? }

  lemma TargetFiles(nodes: Nodes, p: Policy, luck: Luck)
    requires Readable(nodes)
    ensures var after := Target(nodes, p, luck);
            && after[Main] == File(Lines(NewMain(nodes[Main].content.lines, Adopts(nodes, p))), nodes[Main].mode)
            && (if Adopts(nodes, p) then Legacy in after && after[Legacy] == File(Lines([SUPERSEDED, ""]), PRIVATE)
                else SameFile(nodes, after, Legacy))
            && after[Connection] == File(Lines(ConnectionText(p)), PRIVATE) && after[State] == File(Json(p), PRIVATE)
  {
  }

  lemma AdoptsByLegacy(a: Nodes, b: Nodes, p: Policy, q: Policy)
    requires SameFile(a, b, Legacy) && p.hostname == q.hostname
    ensures Adopts(a, p) <==> Adopts(b, q)
  {
  }

  lemma AdoptedOnce(nodes: Nodes, p: Policy, q: Policy, luck: Luck)
    requires Readable(nodes) && p.hostname == q.hostname
    ensures !Adopts(Target(nodes, p, luck), q)
  {
    TargetFiles(nodes, p, luck);
    if Adopts(nodes, p) {
      RetiredForGood(Target(nodes, p, luck), q);
    } else {
      AdoptsByLegacy(nodes, Target(nodes, p, luck), p, q);
    }
  }

  /**
   * After an update for a host, another one for the same host adopts nothing and leaves the main and the legacy
   * file alone.
   */
  lemma SameHostKeepsMain(nodes: Nodes, p: Policy, q: Policy, luck: Luck, again: Luck)
    requires Readable(nodes) && p.hostname == q.hostname
    ensures var after := Target(nodes, p, luck);
            !Adopts(after, q) && NewMain(TextOf(after, Main), false) == TextOf(after, Main) &&
            SameFile(after, Target(after, q, again), Main) && SameFile(after, Target(after, q, again), Legacy)
  {
    AdoptedOnce(nodes, p, q, luck);
    UpdatedText(nodes[Main].content.lines, Adopts(nodes, p));
    TargetFiles(nodes, p, luck);
    TargetFiles(Target(nodes, p, luck), q, again);
  }

  /** Applying the same policy again, with the certificate still good, changes no file at all. */
  lemma ReapplyChangesNothing(nodes: Nodes, p: Policy, luck: Luck, again: Luck)
    requires Usable(nodes) && CertificateOk(nodes, p, luck) &&
             (p.enabled ==> Cert in Target(nodes, p, luck) && Target(nodes, p, luck)[Cert].File?)
    requires again.matches == Some(true) && again.info == luck.info
    ensures Target(Target(nodes, p, luck), p, again) == Target(nodes, p, luck)
  {
    var after := Target(nodes, p, luck);
    SameHostKeepsMain(nodes, p, p, luck, again);
    TargetFiles(nodes, p, luck);
    assert KeepsCertificate(after, p, again);
    assert Target(after, p, again) ==
           after[Connection := after[Connection]][Main := after[Main]][State := after[State]][Status := after[Status]];
  }

  // ---------- The production connection survives ----------

  lemma ProductionIsOther(line: string)
    requires Production(line)
    ensures !Blank(line) && !IncludesLegacy(line)
  {
    assert line[0] == line[..4][0] == 'c' && LEGACY_INCLUDE[0] == 'i';
  }

  lemma {:induction false} TrimReaches(line: string, last: nat)
    requires last < |line| && !White(line[last])
    ensures |TrimRight(line)| > last
  {
    if White(line[|line| - 1]) { TrimReaches(line[..|line| - 1], last); }
  }

  /** Trimming the whole line and trimming one of its tails agree. */
  lemma TrimTail(line: string, i: nat)
    requires i <= |TrimRight(line)| <= |line|
    ensures TrimRight(TrimRight(line)[i..]) == TrimRight(line[i..])
  {
    Trim(line);
    var t := TrimRight(line);
    assert line[i..] == t[i..] + line[|t|..];
    TrimIgnores(t[i..], line[|t|..]);
  }

  lemma {:induction false} DeclaresTrimmed(line: string, keyword: string, name: string)
    requires Declares(line, keyword, name) && name != []
    ensures Declares(TrimRight(line), keyword, name)
  {
    var t, k := TrimRight(line), |keyword|;
    var i :| k < i <= |line| && Blank(line[k..i]) && TrimRight(line[i..]) == name;
    Trim(line);
    Trim(line[i..]);
    TrimReaches(line, i + |name| - 1);
    TrimTail(line, i);
    assert t[k..i] == line[k..i] && t[..k] == line[..k];
  }

  lemma ProductionTrimmed(line: string)
    requires Production(line)
    ensures Production(TrimRight(line))
  {
    DeclaresTrimmed(line, "conn", "ikev2-vpn");
  }

  lemma {:induction false} StripKeeps(lines: seq<string>, line: string)
    requires line in lines && !Blank(line)
    ensures line in StripEnd(lines) || TrimRight(line) in StripEnd(lines)
  {
    var front, last := lines[..|lines| - 1], lines[|lines| - 1];
    assert lines == front + [last];
    if Blank(last) { StripKeeps(front, line); }
  }

  lemma ProductionStays(lines: seq<string>, adopt: bool)
    requires HasProduction(lines)
    ensures HasProduction(NewMain(lines, adopt))
  {
    var i :| 0 <= i < |lines| && Production(lines[i]);
    var line, added := lines[i], WithInclude(lines);
    ProductionTrimmed(line);
    ProductionIsOther(line);
    ProductionIsOther(TrimRight(line));
    if INCLUDE !in lines { StripKeeps(lines, line); }
    var kept := if line in added then line else TrimRight(line);
    assert kept in added;
    if adopt { DropKeeps(added, kept); }
    var text := NewMain(lines, adopt);
    var j :| 0 <= j < |text| && text[j] == kept;
  }

  /** A configuration that could be updated can be updated again. */
  lemma StaysUsable(nodes: Nodes, p: Policy, luck: Luck)
    requires Usable(nodes)
    ensures Usable(Target(nodes, p, luck))
  {
    TargetFiles(nodes, p, luck);
    ProductionStays(nodes[Main].content.lines, Adopts(nodes, p));
  }
}
