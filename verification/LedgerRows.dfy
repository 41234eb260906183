/**
 * Which rows and columns a record moves, column by column: the given day, the given hour, the given account
 * and the transport's own columns, and nothing else.
 */
module LedgerRows {
  import opened Sums
  import opened IkeCounters
  import opened Ledger

  /** The row of an account and a date; a missing row is all zero. */
  function Cell(table: map<UserId, map<Date, UsageRow>>, id: UserId, date: Date): UsageRow {
    if id in table && date in table[id] then table[id][date] else UsageRow(0, 0, 0)
  }

  /** The cell of `id` at `date` grew by the given amounts, and every other cell is unchanged. */
  ghost predicate OnlyGrew(table: map<UserId, map<Date, UsageRow>>, table': map<UserId, map<Date, UsageRow>>,
                     id: UserId, date: Date, bytes: nat, relay: nat, iran: nat)
  {
    forall k, d :: Cell(table', k, d) ==
                   if k == id && d == date
                   then UsageRow(Cell(table, k, d).bytes + bytes, Cell(table, k, d).relay + relay,
                                 Cell(table, k, d).iran + iran)
                   else Cell(table, k, d)
  }

  lemma BookGrows(table: map<UserId, map<Date, UsageRow>>, id: UserId, date: Date, add: UsageRow)
    ensures OnlyGrew(table, Book(table, id, date, add), id, date, add.bytes, add.relay, add.iran)
  {
  }

  lemma NothingGrew(table: map<UserId, map<Date, UsageRow>>, id: UserId, date: Date)
    ensures OnlyGrew(table, table, id, date, 0, 0, 0)
  {
  }

  ghost predicate OthersKept(db: Db, db': Db, id: UserId) {
    && db'.accounts.Keys == db.accounts.Keys
    && forall k :: k in db.accounts && k != id ==> db'.accounts[k] == db.accounts[k]
  }

  // ---------- IKE ----------

  lemma IkeTables(db: Db, id: UserId, session: Session, date: Date, hour: Date, pollMs: nat, now: int)
    requires id in db.accounts
    ensures var db' := RecordIke(db, id, session, date, hour, pollMs, now);
            var flow := Bill(session, Lookup(db.snapshots, session.ikeId), id, pollMs).flow;
            var row := UsageRow(flow.up + flow.down, if session.relay then flow.up + flow.down else 0, 0);
            && db'.daily == (if flow.up + flow.down == 0 then db.daily else Book(db.daily, id, date, row))
            && db'.hourly == (if flow.up + flow.down == 0 then db.hourly else Book(db.hourly, id, hour, row))
  {
  }

  lemma BookOrNothing(table: map<UserId, map<Date, UsageRow>>, id: UserId, date: Date, add: UsageRow)
    requires add.bytes == 0 ==> add.relay == add.iran == 0
    ensures var after := if add.bytes == 0 then table else Book(table, id, date, add);
            OnlyGrew(table, after, id, date, add.bytes, add.relay, add.iran)
  {
    if add.bytes == 0 { NothingGrew(table, id, date); } else { BookGrows(table, id, date, add); }
  }

  /**
   * An IKE record books its bill to the given day and hour, and relay bytes to the relay columns only for a relay
   * session.
   */
  lemma IkeRowsExactly(db: Db, id: UserId, session: Session, date: Date, hour: Date, pollMs: nat, now: int)
    requires id in db.accounts
    ensures var db' := RecordIke(db, id, session, date, hour, pollMs, now);
            var flow := Bill(session, Lookup(db.snapshots, session.ikeId), id, pollMs).flow;
            var total := flow.up + flow.down;
            var relay := if session.relay then total else 0;
            && OnlyGrew(db.daily, db'.daily, id, date, total, relay, 0)
            && OnlyGrew(db.hourly, db'.hourly, id, hour, total, relay, 0)
  {
    IkeTables(db, id, session, date, hour, pollMs, now);
    var flow := Bill(session, Lookup(db.snapshots, session.ikeId), id, pollMs).flow;
    var db' := RecordIke(db, id, session, date, hour, pollMs, now);
    IkeTableGrows(db.daily, db'.daily, id, date, flow.up + flow.down, session.relay);
    IkeTableGrows(db.hourly, db'.hourly, id, hour, flow.up + flow.down, session.relay);
  }

  lemma IkeTableGrows(table: map<UserId, map<Date, UsageRow>>, table': map<UserId, map<Date, UsageRow>>, id: UserId,
                      date: Date, total: nat, relay: bool)
    requires table' ==
             if total == 0 then table else Book(table, id, date, UsageRow(total, if relay then total else 0, 0))
    ensures OnlyGrew(table, table', id, date, total, if relay then total else 0, 0)
  {
    BookOrNothing(table, id, date, UsageRow(total, if relay then total else 0, 0));
  }

  /** It moves the shared columns and the relay column, and no Xray column. */
  lemma IkeColumnsExactly(db: Db, id: UserId, session: Session, date: Date, hour: Date, pollMs: nat, now: int)
    requires id in db.accounts
    ensures var db' := RecordIke(db, id, session, date, hour, pollMs, now);
            var flow := Bill(session, Lookup(db.snapshots, session.ikeId), id, pollMs).flow;
            && OthersKept(db, db', id)
            && var a, a' := db.accounts[id], db'.accounts[id];
               && a'.balance.upload == a.balance.upload + flow.up &&
                 a'.balance.download == a.balance.download + flow.down
               && a'.balance.total == a.balance.total + flow.up + flow.down
               && a'.balance.relay == a.balance.relay + (if session.relay then flow.up + flow.down else 0)
               && a'.balance.xray == a.balance.xray && a'.balance.netlify == a.balance.netlify
               && a'.balance.iran == a.balance.iran && a'.balance.legacy == a.balance.legacy
               && a'.clock == a.clock && a'.gate == a.gate
  {
  }

  /** The cursors of a bill are those of its sample. */
  lemma BillCursors(session: Session, row: Option<Snapshot>, user: UserId, pollMs: nat, c: Child)
    requires DistinctKeys(session.children) && c in session.children
    ensures var children := Bill(session, row, user, pollMs).children;
            children.Some? && c.key in children.value && children.value[c.key] == c.bytes
  {
    var previous := Previous(session, row, user);
    var known := if previous.Some? && previous.value.children.Some? then previous.value.children.value else map[];
    OverlayAt(known, session.children, c.key);
    var i :| 0 <= i < |session.children| && session.children[i] == c;
    assert session.children[i].key == c.key;
  }

  /** The id's row is replaced by the sample; every other cursor stays, and the account is marked active on the day. */
  lemma IkeCursorExactly(db: Db, id: UserId, session: Session, date: Date, hour: Date, pollMs: nat, now: int)
    requires id in db.accounts && DistinctKeys(session.children)
    ensures var db' := RecordIke(db, id, session, date, hour, pollMs, now);
            && session.ikeId in db'.snapshots
            && var row := db'.snapshots[session.ikeId];
               && row.userId == id && row.identity == session.identity && row.last == session.bytes &&
                 row.lastSeen == now
               && (row.children.Some? <==> session.children != [])
               && (forall c :: c in session.children ==>
                     row.children.Some? && c.key in row.children.value && row.children.value[c.key] == c.bytes)
    ensures var db' := RecordIke(db, id, session, date, hour, pollMs, now);
            && (forall k :: k != session.ikeId ==> Lookup(db'.snapshots, k) == Lookup(db.snapshots, k))
            && db'.xray == db.xray && db'.activity == db.activity + {(date, id)}
  {
    var row := Lookup(db.snapshots, session.ikeId);
    assert Lookup(RecordIke(db, id, session, date, hour, pollMs, now).snapshots, session.ikeId) ==
           Some(NextRow(session, id, Bill(session, row, id, pollMs), now));
    forall c | c in session.children
      ensures var children := Bill(session, row, id, pollMs).children;
              children.Some? && c.key in children.value && children.value[c.key] == c.bytes
    {
      BillCursors(session, row, id, pollMs, c);
    }
  }

  // ---------- Xray ----------

  /** What the cursor of the same epoch has already booked. */
  function Booked(db: Db, id: UserId, transport: Transport, epoch: Epoch): Flow {
    if (id, transport) in db.xray && db.xray[(id, transport)].epoch == epoch then db.xray[(id, transport)].counters
    else NO_FLOW
  }

  /** The growth of both counters since then. */
  lemma GrowthSinceBooked(db: Db, id: UserId, transport: Transport, counters: Flow, epoch: Epoch)
    ensures var before := Booked(db, id, transport, epoch);
            XrayDelta(Lookup(db.xray, (id, transport)), counters, epoch) ==
            if before.AtMost(counters) then Some(Flow(counters.up - before.up, counters.down - before.down)) else None
  {
  }

  lemma XrayTables(db: Db, id: UserId, transport: Transport, counters: Flow, epoch: Epoch, date: Date, hour: Date,
                   now: int)
    requires id in db.accounts && RecordXray(db, id, transport, counters, epoch, date, hour, now).Ok?
    ensures var db' := RecordXray(db, id, transport, counters, epoch, date, hour, now).value;
            var delta := XrayDelta(Lookup(db.xray, (id, transport)), counters, epoch);
            && delta.Some?
            && var total := delta.value.up + delta.value.down;
               var row := UsageRow(total, 0, if transport == Transport.Iran then total else 0);
               && db'.daily == (if total == 0 then db.daily else Book(db.daily, id, date, row))
               && db'.hourly == (if total == 0 then db.hourly else Book(db.hourly, id, hour, row))
  {
  }

  /** An Xray record books the growth to the given day and hour, and to the Iran columns only on that transport. */
  lemma XrayRowsExactly(db: Db, id: UserId, transport: Transport, counters: Flow, epoch: Epoch, date: Date, hour: Date,
                        now: int)
    requires id in db.accounts && RecordXray(db, id, transport, counters, epoch, date, hour, now).Ok?
    ensures var db' := RecordXray(db, id, transport, counters, epoch, date, hour, now).value;
            var before := Booked(db, id, transport, epoch);
            && before.AtMost(counters)
            && var total := counters.up - before.up + counters.down - before.down;
               var iran := if transport == Transport.Iran then total else 0;
               && OnlyGrew(db.daily, db'.daily, id, date, total, 0, iran)
               && OnlyGrew(db.hourly, db'.hourly, id, hour, total, 0, iran)
  {
    GrowthSinceBooked(db, id, transport, counters, epoch);
    XrayTables(db, id, transport, counters, epoch, date, hour, now);
    var before := Booked(db, id, transport, epoch);
    var total := counters.up - before.up + counters.down - before.down;
    var db' := RecordXray(db, id, transport, counters, epoch, date, hour, now).value;
    XrayTableGrows(db.daily, db'.daily, id, date, total, transport);
    XrayTableGrows(db.hourly, db'.hourly, id, hour, total, transport);
  }

  lemma XrayTableGrows(table: map<UserId, map<Date, UsageRow>>, table': map<UserId, map<Date, UsageRow>>, id: UserId,
                       date: Date, total: nat, t: Transport)
    requires table' ==
             if total == 0 then table
             else Book(table, id, date, UsageRow(total, 0, if t == Transport.Iran then total else 0))
    ensures OnlyGrew(table, table', id, date, total, 0, if t == Transport.Iran then total else 0)
  {
    BookOrNothing(table, id, date, UsageRow(total, 0, if t == Transport.Iran then total else 0));
  }

  lemma XrayBalances(db: Db, id: UserId, transport: Transport, counters: Flow, epoch: Epoch, date: Date, hour: Date,
                     now: int)
    requires id in db.accounts && RecordXray(db, id, transport, counters, epoch, date, hour, now).Ok?
    ensures var db' := RecordXray(db, id, transport, counters, epoch, date, hour, now).value;
            var delta := XrayDelta(Lookup(db.xray, (id, transport)), counters, epoch);
            && delta.Some? && OthersKept(db, db', id) && db'.accounts[id].gate == db.accounts[id].gate
            && db'.accounts[id].balance == XrayBalance(db.accounts[id].balance, transport, delta.value)
  {
  }

  /** It moves the shared columns, the Xray column and the transport's column, and no relay or legacy column. */
  lemma XrayColumnsExactly(db: Db, id: UserId, transport: Transport, counters: Flow, epoch: Epoch, date: Date,
                           hour: Date, now: int)
    requires id in db.accounts && RecordXray(db, id, transport, counters, epoch, date, hour, now).Ok?
    ensures var db' := RecordXray(db, id, transport, counters, epoch, date, hour, now).value;
            var before := Booked(db, id, transport, epoch);
            && OthersKept(db, db', id) && before.AtMost(counters)
            && var total := counters.up - before.up + counters.down - before.down;
               var b, b' := db.accounts[id].balance, db'.accounts[id].balance;
               && b'.upload == b.upload + counters.up - before.up &&
                 b'.download == b.download + counters.down - before.down
               && b'.total == b.total + total && b'.xray == b.xray + total
               && b'.netlify == b.netlify + (if transport == Transport.Netlify then total else 0)
               && b'.iran == b.iran + (if transport == Transport.Iran then total else 0)
               && b'.relay == b.relay && b'.legacy == b.legacy
               && db'.accounts[id].gate == db.accounts[id].gate
  {
    GrowthSinceBooked(db, id, transport, counters, epoch);
    XrayBalances(db, id, transport, counters, epoch, date, hour, now);
  }

  /** Exactly its own cursor moves, and traffic marks the account active on the day. */
  lemma XrayCursorExactly(db: Db, id: UserId, transport: Transport, counters: Flow, epoch: Epoch, date: Date,
                          hour: Date, now: int)
    requires id in db.accounts && RecordXray(db, id, transport, counters, epoch, date, hour, now).Ok?
    ensures var db' := RecordXray(db, id, transport, counters, epoch, date, hour, now).value;
            && Lookup(db'.xray, (id, transport)) == Some(XrayCursor(epoch, counters))
            && (forall k :: k != (id, transport) ==> Lookup(db'.xray, k) == Lookup(db.xray, k))
            && db'.snapshots == db.snapshots
            && db'.activity == db.activity + if counters == Booked(db, id, transport, epoch) then {} else {(date, id)}
  {
    GrowthSinceBooked(db, id, transport, counters, epoch);
  }

  /**
   * A record is refused exactly for an unknown transport, or for a known account whose counter fell within its
   * epoch.
   */
  lemma XrayRefusedExactly(db: Db, id: UserId, transport: Transport, counters: Flow, epoch: Epoch, date: Date,
                           hour: Date, now: int)
    ensures RecordXray(db, id, transport, counters, epoch, date, hour, now).Err? <==>
            transport !in {Transport.Direct, Transport.Netlify, Transport.Iran} ||
            (id in db.accounts && !Booked(db, id, transport, epoch).AtMost(counters))
    ensures RecordXray(db, id, transport, counters, epoch, date, hour, now).Ok? && id !in db.accounts ==>
              RecordXray(db, id, transport, counters, epoch, date, hour, now).value == db
  {
  }

  // ---------- Resets, purges and the clock ----------

  /** A reset empties one account's balance and rows; cursors, clock, gate and everyone else stay. */
  lemma ResetExactly(db: Db, id: UserId)
    requires id in db.accounts
    ensures var db' := ResetUsage(db, id);
            && OthersKept(db, db', id) &&
              db'.accounts[id] == db.accounts[id].(balance := Balance(0, 0, 0, 0, 0, 0, 0, 0))
            && (forall d :: Cell(db'.daily, id, d) == Cell(db'.hourly, id, d) == UsageRow(0, 0, 0))
            && (forall k, d :: k != id ==> Cell(db'.daily, k, d) == Cell(db.daily, k, d))
            && (forall k, d :: k != id ==> Cell(db'.hourly, k, d) == Cell(db.hourly, k, d))
            && db'.snapshots == db.snapshots && db'.xray == db.xray && db'.activity == db.activity
  {
  }

  /** A purge keeps exactly the rows seen within the last ten minutes. */
  lemma PurgeExactly(db: Db, now: int, k: IkeId)
    ensures Lookup(PurgeSnapshots(db, now).snapshots, k) ==
            if k in db.snapshots && now - db.snapshots[k].lastSeen <= 10 * 60 * 1000 then Some(db.snapshots[k])
            else None
    ensures PurgeSnapshots(db, now) == db.(snapshots := PurgeSnapshots(db, now).snapshots)
  {
  }

  const DAY := 24 * 60 * 60 * 1000

  /** The clock runs from `now`; an expiry that was fixed before stays, and without a duration there is none. */
  predicate StartedAt(c: Clock, c': Clock, now: int) {
    && c'.first == Some(now) && c'.activated && c'.days == c.days
    && (c.expires.Some? ==> c'.expires == c.expires)
    && (c.expires.None? && c.days.Some? ==> c'.expires == Some(now + DAY * c.days.value))
    && (c.expires.None? && c.days.None? ==> c'.expires == None)
  }

  /** A connection starts the clock exactly when neither the row the worker read nor the stored one was started. */
  lemma ConnectStartsExactly(db: Db, id: UserId, stale: Clock, now: int)
    requires id in db.accounts
    ensures var c, c' := db.accounts[id].clock, Connect(db, id, stale, now).accounts[id].clock;
            if stale.first.None? && !stale.activated && c.first.None? then StartedAt(c, c', now)
            else Connect(db, id, stale, now) == db
    ensures OthersKept(db, Connect(db, id, stale, now), id)
    ensures Connect(db, id, stale, now) == db.(accounts := Connect(db, id, stale, now).accounts)
    ensures Connect(db, id, stale, now).accounts[id] ==
            db.accounts[id].(clock := Connect(db, id, stale, now).accounts[id].clock)
  {
  }

  /** Xray traffic starts a clock that was not started; a record without traffic leaves it alone. */
  lemma XrayStartsExactly(db: Db, id: UserId, transport: Transport, counters: Flow, epoch: Epoch, date: Date,
                          hour: Date, now: int)
    requires id in db.accounts && RecordXray(db, id, transport, counters, epoch, date, hour, now).Ok?
    ensures var c := db.accounts[id].clock;
            var c' := RecordXray(db, id, transport, counters, epoch, date, hour, now).value.accounts[id].clock;
            if counters == Booked(db, id, transport, epoch) then c' == c
            else if c.first.None? then StartedAt(c, c', now)
            else c' == c.(activated := true)
  {
    GrowthSinceBooked(db, id, transport, counters, epoch);
  }
}
