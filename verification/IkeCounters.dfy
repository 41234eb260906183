/** The per-CHILD delta kernel of backend/src/services/ikeCounters.js. */
module IkeCounters {
  import opened Sums

  datatype UserId = UserId(text: string)

  /** strongSwan's uniqueid; the parser admits only decimal digits. */
  type IkeId = nat

  /** Two SPIs: the CHILD key spi-in:spi-out, or the session identity initiator:responder. */
  datatype Spis = Spis(first: string, second: string)

  /** One CHILD SA of a sample; bytes-in is what the client uploaded. */
  datatype Child = Child(key: Spis, bytes: Flow)

  /** One parsed IKE SA. `established` is its age in seconds. */
  datatype Session = Session(ikeId: IkeId, identity: Option<Spis>, established: nat, relay: bool,
                             children: seq<Child>, bytes: Flow)

  /** A row of sa_snapshots. `children` is None when no cursor map is stored. */
  datatype Snapshot = Snapshot(userId: UserId, identity: Option<Spis>, last: Flow,
                               children: Option<map<Spis, Flow>>, lastSeen: int)

  /** Rows not refreshed for ten minutes are deleted. */
  const PURGE_MS := 600000

  datatype Billing = Billing(flow: Flow, children: Option<map<Spis, Flow>>)

  /** Growth of a counter; a counter below its cursor restarted from zero. */
  function Growth(value: nat, last: nat): nat {
    if value >= last then value - last else value
  }

  function FlowGrowth(value: Flow, last: Flow): (r: Flow)
    ensures r.AtMost(value)
  {
    Flow(Growth(value.up, last.up), Growth(value.down, last.down))
  }

  function Cursor(cursors: map<Spis, Flow>, key: Spis): Flow {
    if key in cursors then cursors[key] else NO_FLOW
  }

  predicate SameSession(session: Session, row: Snapshot, user: UserId) {
    && row.userId == user
    && (row.identity.None? || session.identity.None? || row.identity == session.identity)
  }

  /** A session first seen this late is only given a cursor, not a bill. */
  predicate Late(established: nat, pollMs: nat) {
    established > (pollMs + 999) / 1000 * 2
  }

  /** What a list of children adds, each measured against the same cursors. */
  function Charge(children: seq<Child>, cursors: map<Spis, Flow>): Flow {
    if children == [] then NO_FLOW else
      var n := |children| - 1;
      Charge(children[..n], cursors).Plus(FlowGrowth(children[n].bytes, Cursor(cursors, children[n].key)))
  }

  /** The cursors after a sample: listed children move, the others stay. */
  function Overlay(cursors: map<Spis, Flow>, children: seq<Child>): map<Spis, Flow> {
    if children == [] then cursors else
      var n := |children| - 1;
      Overlay(cursors, children[..n])[children[n].key := children[n].bytes]
  }

  /** The row a sample continues, if any. */
  function Previous(session: Session, row: Option<Snapshot>, user: UserId): Option<Snapshot> {
    if row.Some? && SameSession(session, row.value, user) then row else None
  }

  function Bill(session: Session, row: Option<Snapshot>, user: UserId, pollMs: nat): Billing {
    var previous := Previous(session, row, user);
    var last := if previous.Some? then previous.value.last else NO_FLOW;
    var known := if previous.Some? && previous.value.children.Some? then previous.value.children.value else map[];
    var whole := if row.None? && Late(session.established, pollMs) then NO_FLOW else FlowGrowth(session.bytes, last);
    if session.children == [] then
      Billing(whole, None)
    else if previous.Some? && previous.value.children.Some? then
      Billing(Charge(session.children, known), Some(Overlay(known, session.children)))
    else
      Billing(whole, Some(Overlay(known, session.children)))
  }

  /** The row recordIkeSession stores for a sample. */
  function NextRow(session: Session, user: UserId, billing: Billing, now: int): Snapshot {
    Snapshot(user, session.identity, session.bytes, billing.children, now)
  }

  method IkeCounterDelta(session: Session, row: Option<Snapshot>, user: UserId, pollMs: nat) returns (r: Billing)
    ensures r == Bill(session, row, user, pollMs)
    ensures row.None? ==>
              r.flow == if session.established > 2 * ((pollMs + 999) / 1000) then NO_FLOW else session.bytes
    ensures row.Some? && row.value.userId != user ==> r.flow == session.bytes
    ensures row.Some? && row.value.identity.Some? && session.identity.Some? &&
            row.value.identity != session.identity ==>
              r.flow == session.bytes
    ensures r.children.Some? <==> session.children != []
  {
    var same := row.Some? && row.value.userId == user &&
                (row.value.identity.None? || session.identity.None? || row.value.identity == session.identity);
    var previous := if same then row else None;
    var baseline := previous.None? && row.None? && session.established > (pollMs + 999) / 1000 * 2;
    var last := if previous.Some? then previous.value.last else NO_FLOW;
    var incoming: nat := if baseline then 0 else Growth(session.bytes.up, last.up);
    var outgoing: nat := if baseline then 0 else Growth(session.bytes.down, last.down);
    var children: Option<map<Spis, Flow>> := None;
    if |session.children| > 0 {
      var known := if previous.Some? && previous.value.children.Some? then previous.value.children.value else map[];
      if previous.Some? && previous.value.children.Some? {
        incoming, outgoing := 0, 0;
        for i := 0 to |session.children|
          invariant Flow(incoming, outgoing) == Charge(session.children[..i], known)
        {
          var child := session.children[i];
          assert session.children[..i + 1][..i] == session.children[..i];
          var before := Cursor(known, child.key);
          incoming := incoming + Growth(child.bytes.up, before.up);
          outgoing := outgoing + Growth(child.bytes.down, before.down);
        }
        assert session.children[..|session.children|] == session.children;
      }
      var cursors := known;
      for i := 0 to |session.children|
        invariant cursors == Overlay(known, session.children[..i])
      {
        assert session.children[..i + 1][..i] == session.children[..i];
        cursors := cursors[session.children[i].key := session.children[i].bytes];
      }
      assert session.children[..|session.children|] == session.children;
      children := Some(cursors);
    }
    r := Billing(Flow(incoming, outgoing), children);
  }

  // ---------- Samples of one SA: telescoping ----------

  predicate DistinctKeys(children: seq<Child>) {
    forall i, j :: 0 <= i < j < |children| ==> children[i].key != children[j].key
  }

  lemma {:induction false} OverlayAt(cursors: map<Spis, Flow>, children: seq<Child>, key: Spis)
    requires DistinctKeys(children)
    ensures (exists i :: 0 <= i < |children| && children[i].key == key) ==> key in Overlay(cursors, children)
    ensures forall i :: 0 <= i < |children| && children[i].key == key ==>
              Overlay(cursors, children)[key] == children[i].bytes
    ensures (forall i :: 0 <= i < |children| ==> children[i].key != key) ==>
              Cursor(Overlay(cursors, children), key) == Cursor(cursors, key)
              && (key in Overlay(cursors, children) <==> key in cursors)
  {
    if children != [] {
      OverlayAt(cursors, children[..|children| - 1], key);
    }
  }

  lemma ColumnUpdate(m: map<Spis, Flow>, key: Spis, value: Flow, d: Direction)
    ensures Sum(Column(m[key := value], d)) + Cursor(m, key).At(d) == Sum(Column(m, d)) + value.At(d)
  {
    SumUpdate(Column(m, d), key, value.At(d));
    assert Column(m[key := value], d) == Column(m, d)[key := value.At(d)];
  }

  /** Counters that never fall below their cursor are billed by exactly the rise of the cursor map. */
  lemma {:induction false} ChargeTelescopes(cursors: map<Spis, Flow>, children: seq<Child>, d: Direction)
    requires DistinctKeys(children)
    requires forall c :: c in children ==> Cursor(cursors, c.key).AtMost(c.bytes)
    ensures Sum(Column(Overlay(cursors, children), d)) == Sum(Column(cursors, d)) + Charge(children, cursors).At(d)
  {
    if children != [] {
      var n := |children| - 1;
      var first, c := children[..n], children[n];
      assert c in children;
      forall e | e in first ensures Cursor(cursors, e.key).AtMost(e.bytes) { assert e in children; }
      ChargeTelescopes(cursors, first, d);
      OverlayAt(cursors, first, c.key);
      ColumnUpdate(Overlay(cursors, first), c.key, c.bytes, d);
    }
  }

  /** A sample of one SA and the moment its row is written. */
  datatype Observation = Observation(session: Session, now: int)

  function After(row: Snapshot, o: Observation, user: UserId, pollMs: nat): Snapshot {
    NextRow(o.session, user, Bill(o.session, Some(row), user, pollMs), o.now)
  }

  /** The total billed over successive samples that start from a stored row. */
  function Billed(row: Snapshot, run: seq<Observation>, user: UserId, pollMs: nat): Flow
    decreases |run|
  {
    if run == [] then NO_FLOW else
      Bill(run[0].session, Some(row), user,
           pollMs).flow.Plus(Billed(After(row, run[0], user, pollMs), run[1..], user, pollMs))
  }

  function Cursors(row: Snapshot): map<Spis, Flow> {
    if row.children.Some? then row.children.value else map[]
  }

  /** The cursors left by the last sample of a run. */
  function FinalCursors(row: Snapshot, run: seq<Observation>, user: UserId, pollMs: nat): map<Spis, Flow>
    decreases |run|
  {
    if run == [] then Cursors(row) else FinalCursors(After(row, run[0], user, pollMs), run[1..], user, pollMs)
  }

  /** Samples of one SA of one account, each with a CHILD, whose counters never fall below the last value seen. */
  predicate OneSa(row: Snapshot, run: seq<Observation>, user: UserId, pollMs: nat)
    decreases |run|
  {
    && row.userId == user && row.children.Some?
    && (run == [] ||
        (&& SameSession(run[0].session, row, user)
         && run[0].session.children != [] && DistinctKeys(run[0].session.children)
         && (forall c :: c in run[0].session.children ==> Cursor(Cursors(row), c.key).AtMost(c.bytes))
         && OneSa(After(row, run[0], user, pollMs), run[1..], user, pollMs)))
  }

  function KeysOf(children: seq<Child>): set<Spis> {
    set c | c in children :: c.key
  }

  /** Every key a run lists. */
  function Listed(run: seq<Observation>): set<Spis> {
    if run == [] then {} else KeysOf(run[0].session.children) + Listed(run[1..])
  }

  function Reading(children: seq<Child>, key: Spis, otherwise: Flow): Flow {
    if children == [] then otherwise else
      var n := |children| - 1;
      if children[n].key == key then children[n].bytes else Reading(children[..n], key, otherwise)
  }

  /** The value the last sample listing `key` gave it, or `start` when no sample lists it. */
  function LastSeen(run: seq<Observation>, key: Spis, start: Flow): Flow {
    if run == [] then start else LastSeen(run[1..], key, Reading(run[0].session.children, key, start))
  }

  lemma {:induction false} OverlayReads(cursors: map<Spis, Flow>, children: seq<Child>, key: Spis)
    ensures Cursor(Overlay(cursors, children), key) == Reading(children, key, Cursor(cursors, key))
    ensures Overlay(cursors, children).Keys == cursors.Keys + KeysOf(children)
  {
    if children != [] {
      var n := |children| - 1;
      OverlayReads(cursors, children[..n], key);
      assert children == children[..n] + [children[n]];
    }
  }

  /** The cursors a run leaves are the last readings of every key it started from or listed. */
  lemma {:induction false} FinalCursorsRead(row: Snapshot, run: seq<Observation>, user: UserId, pollMs: nat, key: Spis)
    requires OneSa(row, run, user, pollMs)
    ensures Cursor(FinalCursors(row, run, user, pollMs), key) == LastSeen(run, key, Cursor(Cursors(row), key))
    ensures FinalCursors(row, run, user, pollMs).Keys == Cursors(row).Keys + Listed(run)
    decreases |run|
  {
    if run != [] {
      OverlayReads(Cursors(row), run[0].session.children, key);
      FinalCursorsRead(After(row, run[0], user, pollMs), run[1..], user, pollMs, key);
    }
  }

  lemma {:induction false} BilledIsRise(row: Snapshot, run: seq<Observation>, user: UserId, pollMs: nat, d: Direction)
    requires OneSa(row, run, user, pollMs)
    ensures Billed(row, run, user, pollMs).At(d) + Sum(Column(Cursors(row), d)) ==
            Sum(Column(FinalCursors(row, run, user, pollMs), d))
    decreases |run|
  {
    if run != [] {
      ChargeTelescopes(Cursors(row), run[0].session.children, d);
      BilledIsRise(After(row, run[0], user, pollMs), run[1..], user, pollMs, d);
    }
  }

  lemma {:induction false} ReadingRises(row: Snapshot, run: seq<Observation>, user: UserId, pollMs: nat, key: Spis)
    requires OneSa(row, run, user, pollMs)
    ensures Cursor(Cursors(row), key).AtMost(LastSeen(run, key, Cursor(Cursors(row), key)))
    decreases |run|
  {
    if run != [] {
      var children := run[0].session.children;
      OverlayReads(Cursors(row), children, key);
      OverlayAt(Cursors(row), children, key);
      ReadingRises(After(row, run[0], user, pollMs), run[1..], user, pollMs, key);
    }
  }

  /** How far a key's counter rose over a run. */
  ghost function Rise(row: Snapshot, run: seq<Observation>, user: UserId, pollMs: nat, key: Spis, d: Direction): nat
    requires OneSa(row, run, user, pollMs)
  {
    ReadingRises(row, run, user, pollMs, key);
    LastSeen(run, key, Cursor(Cursors(row), key)).At(d) - Cursor(Cursors(row), key).At(d)
  }

  ghost function Rises(row: Snapshot, run: seq<Observation>, user: UserId, pollMs: nat, d: Direction): map<Spis, nat>
    requires OneSa(row, run, user, pollMs)
  {
    map key | key in Cursors(row).Keys + Listed(run) :: Rise(row, run, user, pollMs, key, d)
  }

  /**
   * However children overlap, retire and reappear, the bill is the sum over all keys of last value minus first
   * cursor.
   */
  lemma BilledTelescopes(row: Snapshot, run: seq<Observation>, user: UserId, pollMs: nat, d: Direction)
    requires OneSa(row, run, user, pollMs)
    ensures Billed(row, run, user, pollMs).At(d) == Sum(Rises(row, run, user, pollMs, d))
  {
    var final := Column(FinalCursors(row, run, user, pollMs), d);
    var keys := Cursors(row).Keys + Listed(run);
    var start := map key | key in keys :: Cursor(Cursors(row), key).At(d);
    var rises := Rises(row, run, user, pollMs, d);
    FinalCursorsRead(row, run, user, pollMs, Spis("", ""));
    assert final.Keys == keys;
    forall key | key in keys ensures final[key] == start[key] + rises[key] {
      FinalCursorsRead(row, run, user, pollMs, key);
      ReadingRises(row, run, user, pollMs, key);
    }
    SumPlus(final, start, rises);
    SumAtMost(start, Column(Cursors(row), d));
    SumAtMost(Column(Cursors(row), d), start);
    BilledIsRise(row, run, user, pollMs, d);
  }
}
