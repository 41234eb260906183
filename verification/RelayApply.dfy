/**
 * The relay helper's update of several strongSwan files: every external result is a parameter, a failure
 * can come at every step, in-place writes can be torn, and everything touched is put back.
 */
module RelayApply {
  import opened Sums

  // ---------- Text, cut at newlines ----------

  predicate White(c: char) {
    var u := c as int;
    9 <= u <= 13 || 28 <= u <= 32 || u in {0x85, 0xa0, 0x1680, 0x2028, 0x2029, 0x202f, 0x205f, 0x3000} ||
      0x2000 <= u <= 0x200a
  }

  predicate Blank(line: string) {
    forall i :: 0 <= i < |line| ==> White(line[i])
  }

  function TrimRight(line: string): string {
    if line == [] then [] else if White(line[|line| - 1]) then TrimRight(line[..|line| - 1]) else line
  }

  /** rstrip of the whole text. */
  function StripEnd(lines: seq<string>): seq<string> {
    if lines == [] then [[]]
    else if Blank(lines[|lines| - 1]) then StripEnd(lines[..|lines| - 1])
    else lines[..|lines| - 1] + [TrimRight(lines[|lines| - 1])]
  }

  predicate Contains(s: string, part: string) {
    |part| <= |s| && (s[..|part|] == part || Contains(s[1..], part))
  }

  predicate SomeLineContains(lines: seq<string>, part: string) {
    exists i :: 0 <= i < |lines| && Contains(lines[i], part)
  }

  const INCLUDE := "include /etc/ipsec.d/zvpn-ike-relay.conf"
  const LEGACY_INCLUDE := "include /etc/ipsec.d/ir-ike-test.conf"
  const LEFTCERT := "leftcert=ir-ike-test-cert.pem"
  const SUPERSEDED := "# Superseded by the managed ZVPN relay."

  /** The pattern's dots stand for any character, and the line may end in white space. */
  predicate IncludesLegacy(line: string) {
    && |line| >= |LEGACY_INCLUDE|
    && (forall i :: 0 <= i < |LEGACY_INCLUDE| ==> LEGACY_INCLUDE[i] == '.' || line[i] == LEGACY_INCLUDE[i])
    && Blank(line[|LEGACY_INCLUDE|..])
  }

  function SkipBlank(lines: seq<string>): (r: seq<string>)
    ensures |r| <= |lines|
  {
    if lines != [] && Blank(lines[0]) then SkipBlank(lines[1..]) else lines
  }

  /** The substitution takes the blank lines below an include with it and leaves one empty line. */
  function DropLegacy(lines: seq<string>): seq<string>
    decreases |lines|
  {
    if lines == [] then []
    else if IncludesLegacy(lines[0]) then [[]] + DropLegacy(SkipBlank(lines[1..]))
    else [lines[0]] + DropLegacy(lines[1..])
  }

  function WithInclude(lines: seq<string>): seq<string> {
    if INCLUDE in lines then lines else StripEnd(lines) + [[], INCLUDE, []]
  }

  function NewMain(lines: seq<string>, adopt: bool): seq<string> {
    if adopt then DropLegacy(WithInclude(lines)) else WithInclude(lines)
  }

  /** A keyword, white space, a name, white space. */
  predicate Declares(line: string, keyword: string, name: string) {
    |line| > |keyword| && line[..|keyword|] == keyword && White(line[|keyword|]) &&
    exists i :: |keyword| < i <= |line| && Blank(line[|keyword|..i]) && TrimRight(line[i..]) == name
  }

  predicate Production(line: string) { Declares(line, "conn", "ikev2-vpn") }

  predicate HasProduction(lines: seq<string>) {
    exists i :: 0 <= i < |lines| && Production(lines[i])
  }

  // ---------- Files ----------

  datatype Policy = Policy(enabled: bool, hostname: string, port: nat, outboundTag: string)

  datatype Path = Main | Connection | Cert | State | Legacy | Status

  datatype Content =
    | Lines(lines: seq<string>)
    | Json(policy: Policy)
    | Report(policy: Policy, certificate: Option<string>)

  datatype Node = Link | File(content: Content, mode: nat)

  const PRIVATE := 384
  const PUBLIC := 420

  type Nodes = map<Path, Node>

  function TextOf(nodes: Nodes, p: Path): seq<string> {
    if p in nodes && nodes[p].File? && nodes[p].content.Lines? then nodes[p].content.lines else []
  }

  predicate ValidPolicy(p: Policy) {
    1024 <= p.port <= 65535 && (p.enabled ==> p.hostname != "")
  }

  /** The hand-made test identity of the same host is taken over. */
  predicate Adopts(nodes: Nodes, p: Policy) {
    && Legacy in nodes && nodes[Legacy].File?
    && SomeLineContains(TextOf(nodes, Legacy), LEFTCERT)
    && SomeLineContains(TextOf(nodes, Legacy), "leftid=" + p.hostname)
    && p.hostname != ""
  }

  function Files(adopt: bool): seq<Path> {
    [Main, Connection, Cert, State] + if adopt then [Legacy] else []
  }

  function ConnectionText(p: Policy): seq<string> {
    if !p.enabled then ["# Managed by ZVPN: relay disabled.", ""] else
      ["# Managed by ZVPN; production connection is inherited, not replaced.",
       "conn zvpn-ike-relay", "    also=ikev2-vpn", "    leftid=" + p.hostname,
       "    leftcert=zvpn-ike-relay-cert.pem", "    mobike=no", "    auto=add", ""]
  }

  /** How one write ends; only the main file is rewritten in place, so only it can be torn. */
  datatype Fate = Done | Before | Torn(content: Content, mode: nat) | After

  /** The result of every external call; None is an exception. */
  datatype Luck = Luck(matches: Option<bool>, issued: Option<seq<string>>, cert: Fate, read: bool, legacy: Fate,
                       connection: Fate, main: Fate, update: bool, reread: bool, replies: seq<Option<bool>>,
                       down: bool, state: Fate, info: Option<string>, status: Fate, undo: Path -> Fate)

  function Written(nodes: Nodes, p: Path, content: Content, mode: nat, fate: Fate): Nodes {
    if p in nodes && nodes[p].Link? then nodes
    else match fate
      case Done => nodes[p := File(content, mode)]
      case After => nodes[p := File(content, mode)]
      case Before => nodes
      case Torn(c, m) => if p == Main && p in nodes then nodes[p := File(c, m)] else nodes
  }

  predicate KeepsCertificate(nodes: Nodes, p: Policy, luck: Luck) {
    !p.enabled || (Cert in nodes && nodes[Cert].File? && luck.matches == Some(true))
  }

  function Certified(nodes: Nodes, p: Policy, luck: Luck): Nodes {
    if KeepsCertificate(nodes, p, luck) || luck.issued.None? then nodes
    else nodes[Cert := File(Lines(luck.issued.value), PUBLIC)]
  }

  /** The superseded identity, the connection, and the main file with its mode kept. */
  function Rewritten(nodes: Nodes, p: Policy, adopt: bool): Nodes {
    var adopted := if adopt then nodes[Legacy := File(Lines([SUPERSEDED, ""]), PRIVATE)] else nodes;
    var mode := if Main in nodes && nodes[Main].File? then nodes[Main].mode else PRIVATE;
    var main := File(Lines(NewMain(TextOf(nodes, Main), adopt)), mode);
    adopted[Connection := File(Lines(ConnectionText(p)), PRIVATE)][Main := main]
  }

  /** The files after a successful update. */
  function Target(nodes: Nodes, p: Policy, luck: Luck): Nodes {
    Rewritten(Certified(nodes, p, luck), p, Adopts(nodes, p))[State := File(Json(p), PRIVATE)]
      [Status := File(Report(p, if p.enabled then luck.info else None), PUBLIC)]
  }

  predicate Touched(adopt: bool, q: Path) {
    q == Main || q == Connection || q == Cert || q == State || (adopt && q == Legacy)
  }

  predicate NoLinks(nodes: Nodes, adopt: bool) {
    forall q :: q in nodes && Touched(adopt, q) ==> nodes[q].File?
  }

  predicate Usable(nodes: Nodes) {
    Main in nodes && nodes[Main].File? && nodes[Main].content.Lines? && HasProduction(nodes[Main].content.lines)
  }

  /** An identity shows up within eleven looks. */
  predicate Loaded(replies: seq<Option<bool>>) {
    exists k ::
      0 <= k < 11 && k < |replies| && replies[k] == Some(true) && forall j :: 0 <= j < k ==> replies[j] == Some(false)
  }

  predicate CertificateOk(nodes: Nodes, p: Policy, luck: Luck) {
    p.enabled ==>
      && (Cert in nodes && nodes[Cert].File? ==> luck.matches.Some?)
      && (KeepsCertificate(nodes, p, luck) || (luck.issued.Some? && luck.cert.Done?))
  }

  predicate RewriteOk(nodes: Nodes, adopt: bool, luck: Luck) {
    && Usable(nodes) && luck.read && (adopt ==> luck.legacy.Done?) && luck.connection.Done?
    && (NewMain(TextOf(nodes, Main), adopt) != TextOf(nodes, Main) ==> luck.main.Done?)
  }

  predicate LoadOk(p: Policy, luck: Luck) {
    luck.update && luck.reread && (if p.enabled then Loaded(luck.replies) else luck.down)
  }

  predicate PublishOk(nodes: Nodes, p: Policy, luck: Luck) {
    luck.state.Done? && (p.enabled ==> luck.info.Some?) && luck.status.Done? &&
      !(Status in nodes && nodes[Status].Link?)
  }

  /** No step the update takes goes wrong. */
  predicate Succeeds(nodes: Nodes, p: Policy, luck: Luck) {
    CertificateOk(nodes, p, luck) && RewriteOk(nodes, Adopts(nodes, p), luck) && LoadOk(p, luck) &&
      PublishOk(nodes, p, luck)
  }

  /** Stranded: the rollback itself failed, after putting back the first `restored` files. */
  datatype Outcome = Invalid | Unsafe | RolledBack | Stranded(restored: nat) | Applied

  predicate SameFile(a: Nodes, b: Nodes, p: Path) {
    if p in a then p in b && a[p] == b[p] else p !in b
  }

  class Disk {
    var nodes: Nodes

    constructor (nodes: Nodes)
      ensures this.nodes == nodes
    {
      this.nodes := nodes;
    }

    method Write(p: Path, content: Content, mode: nat, fate: Fate) returns (ok: bool)
      modifies this
      ensures nodes == Written(old(nodes), p, content, mode, fate)
      ensures ok <==> fate.Done? && !(p in old(nodes) && old(nodes)[p].Link?)
    {
      if p in nodes && nodes[p].Link? { return false; }
      match fate {
        case Done => nodes := nodes[p := File(content, mode)]; return true;
        case After => nodes := nodes[p := File(content, mode)]; return false;
        case Before => return false;
        case Torn(c, m) => if p == Main && p in nodes { nodes := nodes[p := File(c, m)]; } return false;
      }
    }

    /** Issues a certificate unless the present one serves. */
    method Certify(p: Policy, ghost adopt: bool, luck: Luck) returns (ok: bool)
      requires NoLinks(nodes, adopt)
      modifies this
      ensures NoLinks(nodes, adopt)
      ensures forall q :: q != Cert ==> SameFile(old(nodes), nodes, q)
      ensures ok <==> CertificateOk(old(nodes), p, luck)
      ensures ok ==> nodes == Certified(old(nodes), p, luck)
    {
      if !p.enabled { return true; }
      var matching := false;
      assert Touched(adopt, Cert);
      if Cert in nodes {
        if luck.matches.None? { return false; }
        matching := luck.matches.value;
      }
      if matching { return true; }
      if luck.issued.None? { return false; }
      ok := Write(Cert, Lines(luck.issued.value), PUBLIC, luck.cert);
    }

    /** Rewrites the main file only when its text changes, and keeps its mode. */
    method RewriteMain(text: seq<string>, ghost adopt: bool, fate: Fate) returns (ok: bool)
      requires NoLinks(nodes, adopt) && Main in nodes && nodes[Main].File? && nodes[Main].content.Lines?
      modifies this
      ensures NoLinks(nodes, adopt)
      ensures forall q :: q != Main ==> SameFile(old(nodes), nodes, q)
      ensures ok <==> (text != old(nodes)[Main].content.lines ==> fate.Done?)
      ensures ok ==> nodes == old(nodes)[Main := File(Lines(text), old(nodes)[Main].mode)]
    {
      if text != nodes[Main].content.lines {
        ok := Write(Main, Lines(text), nodes[Main].mode, fate);
      } else {
        assert nodes[Main := nodes[Main]] == nodes;
        ok := true;
      }
    }

    /** Retires the adopted identity. */
    method Retire(ghost adopt: bool, fate: Fate) returns (ok: bool)
      requires NoLinks(nodes, adopt) && adopt
      modifies this
      ensures NoLinks(nodes, adopt)
      ensures forall q :: q != Legacy ==> SameFile(old(nodes), nodes, q)
      ensures ok <==> fate.Done?
      ensures ok ==> nodes == old(nodes)[Legacy := File(Lines([SUPERSEDED, ""]), PRIVATE)]
    {
      assert Touched(adopt, Legacy);
      ok := Write(Legacy, Lines([SUPERSEDED, ""]), PRIVATE, fate);
    }

    method Connect(p: Policy, ghost adopt: bool, fate: Fate) returns (ok: bool)
      requires NoLinks(nodes, adopt)
      modifies this
      ensures NoLinks(nodes, adopt)
      ensures forall q :: q != Connection ==> SameFile(old(nodes), nodes, q)
      ensures ok <==> fate.Done?
      ensures ok ==> nodes == old(nodes)[Connection := File(Lines(ConnectionText(p)), PRIVATE)]
    {
      assert Touched(adopt, Connection);
      ok := Write(Connection, Lines(ConnectionText(p)), PRIVATE, fate);
    }

    method Rewrite(p: Policy, adopt: bool, luck: Luck) returns (ok: bool)
      requires NoLinks(nodes, adopt)
      modifies this
      ensures NoLinks(nodes, adopt)
      ensures forall q :: !Touched(adopt, q) ==> SameFile(old(nodes), nodes, q)
      ensures ok <==> RewriteOk(old(nodes), adopt, luck)
      ensures ok ==> nodes == Rewritten(old(nodes), p, adopt)
    {
      if !(Main in nodes && nodes[Main].File? && nodes[Main].content.Lines? && luck.read) { return false; }
      ghost var start, was := nodes, nodes[Main];
      var text := nodes[Main].content.lines;
      if !HasProduction(text) { return false; }
      if INCLUDE !in text { text := StripEnd(text) + [[], INCLUDE, []]; }
      if adopt {
        text := DropLegacy(text);
        ok := Retire(adopt, luck.legacy);
        assert forall q :: !Touched(adopt, q) ==> SameFile(start, nodes, q);
        if !ok { return; }
        assert SameFile(old(nodes), nodes, Main);
      }
      assert Main in nodes && nodes[Main] == was;
      ghost var retired := nodes;
      ok := Connect(p, adopt, luck.connection);
      FrameChains(start, retired, nodes, adopt);
      if !ok { return; }
      assert Main in nodes && nodes[Main] == was;
      ghost var connected := nodes;
      ok := RewriteMain(text, adopt, luck.main);
      FrameChains(start, connected, nodes, adopt);
    }

    /** The certificate, the legacy identity, the connection and the main file. */
    method WriteConfiguration(p: Policy, adopt: bool, luck: Luck) returns (ok: bool)
      requires NoLinks(nodes, adopt)
      modifies this
      ensures NoLinks(nodes, adopt)
      ensures forall q :: !Touched(adopt, q) ==> SameFile(old(nodes), nodes, q)
      ensures ok <==> CertificateOk(old(nodes), p, luck) && RewriteOk(old(nodes), adopt, luck)
      ensures ok ==> nodes == Rewritten(Certified(old(nodes), p, luck), p, adopt)
    {
      ok := Certify(p, adopt, luck);
      assert SameFile(old(nodes), nodes, Main);
      if ok { ok := Rewrite(p, adopt, luck); }
    }

    /** Reloads strongSwan and waits for the identity, or takes it down. */
    method Load(p: Policy, luck: Luck) returns (ok: bool)
      ensures ok <==> LoadOk(p, luck)
    {
      if !luck.update || !luck.reread { return false; }
      if !p.enabled { return luck.down; }
      var attempt := 0;
      while attempt < 11
        invariant 0 <= attempt <= 11 && attempt <= |luck.replies|
        invariant forall j :: 0 <= j < attempt ==> luck.replies[j] == Some(false)
      {
        if attempt >= |luck.replies| || luck.replies[attempt].None? { return false; }
        if luck.replies[attempt].value { return true; }
        attempt := attempt + 1;
      }
      return false;
    }

    /** The recorded policy, and the report that is never rolled back. */
    method Publish(p: Policy, ghost adopt: bool, luck: Luck) returns (ok: bool)
      requires NoLinks(nodes, adopt)
      modifies this
      ensures NoLinks(nodes, adopt)
      ensures forall q :: q != Status && q != State ==> SameFile(old(nodes), nodes, q)
      ensures ok <==> PublishOk(old(nodes), p, luck)
      ensures ok ==>
                var report := Report(p, if p.enabled then luck.info else None);
                nodes == old(nodes)[State := File(Json(p), PRIVATE)][Status := File(report, PUBLIC)]
    {
      assert Touched(adopt, State);
      ok := Write(State, Json(p), PRIVATE, luck.state);
      if ok && p.enabled { ok := luck.info.Some?; }
      if ok { ok := Write(Status, Report(p, if p.enabled then luck.info else None), PUBLIC, luck.status); }
    }

    /** Puts one file back: its content and mode, or its absence. */
    method Undo(file: Path, before: Nodes, ghost adopt: bool, fate: Fate) returns (ok: bool)
      requires NoLinks(nodes, adopt) && NoLinks(before, adopt) && Touched(adopt, file)
      modifies this
      ensures NoLinks(nodes, adopt)
      ensures ok <==> fate.Done?
      ensures ok ==> SameFile(before, nodes, file)
      ensures forall q :: q != file ==> SameFile(old(nodes), nodes, q)
    {
      if file in before {
        ok := Write(file, before[file].content, before[file].mode, fate);
      } else {
        if fate.Done? || fate.After? { nodes := map q | q in nodes && q != file :: nodes[q]; }
        ok := fate.Done?;
      }
    }

    /** Puts the touched files back one by one; the first failure leaves the rest of them as they are. */
    method Restore(before: Nodes, adopt: bool, undo: Path -> Fate) returns (restored: nat, ok: bool)
      requires NoLinks(nodes, adopt) && NoLinks(before, adopt)
      modifies this
      ensures restored <= |Files(adopt)| && (ok <==> restored == |Files(adopt)|)
      ensures forall j :: 0 <= j < restored ==> undo(Files(adopt)[j]).Done? && SameFile(before, nodes, Files(adopt)[j])
      ensures !ok ==> !undo(Files(adopt)[restored]).Done?
      ensures forall j :: restored < j < |Files(adopt)| ==> SameFile(old(nodes), nodes, Files(adopt)[j])
      ensures forall q :: !Touched(adopt, q) ==> SameFile(old(nodes), nodes, q)
    {
      var files := Files(adopt);
      ghost var start := nodes;
      FilesAre(adopt);
      restored := 0;
      while restored < |files|
        invariant restored <= |files| && NoLinks(nodes, adopt)
        invariant forall j :: 0 <= j < restored ==> undo(files[j]).Done? && SameFile(before, nodes, files[j])
        invariant forall j :: restored <= j < |files| ==> SameFile(start, nodes, files[j])
        invariant forall q :: !Touched(adopt, q) ==> SameFile(start, nodes, q)
      {
        var file := files[restored];
        ghost var was := nodes;
        assert file in files;
        ok := Undo(file, before, adopt, undo(file));
        forall j | 0 <= j < |files| && j != restored
          ensures SameFile(was, nodes, files[j])
        {
          FilesDiffer(adopt, restored, j);
        }
        forall j | restored < j < |files|
          ensures SameFile(start, nodes, files[j])
        {
          assert SameFile(start, was, files[j]);
        }
        FrameChains(start, was, nodes, adopt);
        if !ok { return; }
        restored := restored + 1;
      }
      ok := true;
    }

    /**
     * All or nothing, exactly when no step fails: a failure anywhere gives back every file exactly, and only the
     * status report may be newer.
     */
    method Apply(p: Policy, luck: Luck) returns (result: Outcome)
      modifies this
      ensures result.Invalid? <==> !ValidPolicy(p)
      ensures result.Unsafe? <==> ValidPolicy(p) && !NoLinks(old(nodes), Adopts(old(nodes), p))
      ensures result.Invalid? || result.Unsafe? ==> nodes == old(nodes)
      ensures result.RolledBack? ==> forall q :: q != Status ==> SameFile(old(nodes), nodes, q)
      ensures result.Stranded? ==>
                var files := Files(Adopts(old(nodes), p));
                && result.restored < |files| && !luck.undo(files[result.restored]).Done?
                && forall j :: 0 <= j < result.restored ==>
                    luck.undo(files[j]).Done? && SameFile(old(nodes), nodes, files[j])
      ensures (forall q :: luck.undo(q).Done?) ==> !result.Stranded?
      ensures result.Applied? <==>
              ValidPolicy(p) && NoLinks(old(nodes), Adopts(old(nodes), p)) && Succeeds(old(nodes), p, luck)
      ensures result.Applied? ==> nodes == Target(old(nodes), p, luck)
    {
      if !ValidPolicy(p) { return Invalid; }
      var adopt := Adopts(nodes, p);
      if !NoLinks(nodes, adopt) { return Unsafe; }
      var before := nodes;
      var ok := WriteConfiguration(p, adopt, luck);
      ghost var written := nodes;
      if ok { ok := Load(p, luck); }
      if ok { ok := Publish(p, adopt, luck); }
      if ok { return Applied; }
      ghost var failed := nodes;
      forall q | q != Status && !Touched(adopt, q) ensures SameFile(before, failed, q) {
        assert SameFile(before, written, q) && (written == failed || SameFile(written, failed, q));
      }
      var restored, restoredAll := Restore(before, adopt, luck.undo);
      if !restoredAll { return Stranded(restored); }
      FilesAre(adopt);
      forall q | q != Status ensures SameFile(before, nodes, q) {
        if Touched(adopt, q) {
          var j :| 0 <= j < |Files(adopt)| && Files(adopt)[j] == q;
        } else {
          assert SameFile(before, failed, q) && SameFile(failed, nodes, q);
        }
      }
      return RolledBack;
    }
  }

  lemma FrameChains(a: Nodes, b: Nodes, c: Nodes, adopt: bool)
    requires forall q :: !Touched(adopt, q) ==> SameFile(a, b, q)
    requires forall q :: !Touched(adopt, q) ==> SameFile(b, c, q)
    ensures forall q :: !Touched(adopt, q) ==> SameFile(a, c, q)
  {
    forall q | !Touched(adopt, q) ensures SameFile(a, c, q) {
      assert SameFile(a, b, q) && SameFile(b, c, q);
    }
  }

  lemma FilesDiffer(adopt: bool, i: nat, j: nat)
    requires i < |Files(adopt)| && j < |Files(adopt)| && i != j
    ensures Files(adopt)[i] != Files(adopt)[j]
  {
  }

  lemma FilesAre(adopt: bool)
    ensures forall q :: q in Files(adopt) <==> Touched(adopt, q)
  {
  }
}
