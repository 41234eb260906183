/**
 * The account database: balances, daily and hourly rows, IKE and Xray cursors. Each function is one
 * committed transaction on the value of the database; the class runs the same statements in place.
 */
module Ledger {
  import opened Sums
  import opened IkeCounters

  type Date = int
  type Epoch = nat

  const DAY_MS := 86400000

  datatype Transport = Direct | Netlify | Iran | Unknown(name: string)

  type CursorKey = (UserId, Transport)

  datatype XrayCursor = XrayCursor(epoch: Epoch, counters: Flow)

  /** The usage columns of a vpn_users row. */
  datatype Balance = Balance(total: nat, upload: nat, download: nat, xray: nat, netlify: nat, iran: nat, relay: nat,
                             legacy: nat)

  const NO_USAGE := Balance(0, 0, 0, 0, 0, 0, 0, 0)

  /** The subscription clock of a vpn_users row; times in milliseconds. */
  datatype Clock = Clock(first: Option<int>, expires: Option<int>, days: Option<nat>, activated: bool)

  datatype Reason = Expired | DailyQuota | TotalQuota

  /** Limits and access columns of a vpn_users row. */
  datatype Gate = Gate(enabled: bool, blocked: bool, reason: Option<Reason>, unlimited: bool,
                       daily: Option<nat>, limit: Option<nat>)

  datatype Account = Account(balance: Balance, clock: Clock, gate: Gate)

  /** A usage_daily or usage_hourly row. */
  datatype UsageRow = UsageRow(bytes: nat, relay: nat, iran: nat)

  datatype Db = Db(
    accounts: map<UserId, Account>,
    daily: map<UserId, map<Date, UsageRow>>,
    hourly: map<UserId, map<Date, UsageRow>>,
    snapshots: map<IkeId, Snapshot>,
    xray: map<CursorKey, XrayCursor>,
    activity: set<(Date, UserId)>)

  datatype LedgerError = InvalidTransport | CounterRegressed

  function Lookup<K, V>(m: map<K, V>, k: K): Option<V> {
    if k in m then Some(m[k]) else None
  }

  function RowsOf(table: map<UserId, map<Date, UsageRow>>, id: UserId): map<Date, UsageRow> {
    if id in table then table[id] else map[]
  }

  /** INSERT ... ON CONFLICT DO UPDATE, adding to the row of `date`. */
  function Book(table: map<UserId, map<Date, UsageRow>>, id: UserId, date: Date,
                add: UsageRow): map<UserId, map<Date, UsageRow>> {
    var rows := RowsOf(table, id);
    var row := if date in rows then rows[date] else UsageRow(0, 0, 0);
    table[id := rows[date := UsageRow(row.bytes + add.bytes, row.relay + add.relay, row.iran + add.iran)]]
  }

  // ---------- IKE ----------

  /** Books `flow` once into the account, its day and its hour. */
  function ChargeIke(db: Db, id: UserId, relayed: bool, flow: Flow, date: Date, hour: Date): Db
    requires id in db.accounts
  {
    var account := db.accounts[id];
    var b, total := account.balance, flow.up + flow.down;
    var relay := if relayed then total else 0;
    var balance :=
      Balance(b.total + total, b.upload + flow.up, b.download + flow.down, b.xray, b.netlify, b.iran, b.relay + relay,
              b.legacy);
    var row := UsageRow(total, relay, 0);
    db.(accounts := db.accounts[id := account.(balance := balance)],
        daily := Book(db.daily, id, date, row), hourly := Book(db.hourly, id, hour, row))
  }

  function RecordIke(db: Db, id: UserId, session: Session, date: Date, hour: Date, pollMs: nat, now: int): Db {
    if id !in db.accounts then db else
      var billing := Bill(session, Lookup(db.snapshots, session.ikeId), id, pollMs);
      var marked := db.(activity := db.activity + {(date, id)},
                        snapshots := db.snapshots[session.ikeId := NextRow(session, id, billing, now)]);
      if billing.flow.up + billing.flow.down == 0 then marked
      else ChargeIke(marked, id, session.relay, billing.flow, date, hour)
  }

  /** The first connection starts the clock; `stale` is the row the worker read earlier. */
  function Connect(db: Db, id: UserId, stale: Clock, now: int): Db {
    if stale.first.Some? || stale.activated || id !in db.accounts then db else
      var account := db.accounts[id];
      if account.clock.first.Some? then db else
        db.(accounts := db.accounts[id := account.(clock := Activated(account.clock, now))])
  }

  function Activated(clock: Clock, now: int): Clock {
    clock.(first := Some(now), activated := true,
           expires := if clock.expires.None? && clock.days.Some? then Some(now + clock.days.value * DAY_MS)
                      else clock.expires)
  }

  // ---------- Xray ----------

  /** Growth of one Xray counter within an epoch; None when it fell. */
  function CounterDelta(current: nat, previous: nat, sameEpoch: bool): Option<nat> {
    var last := if sameEpoch then previous else 0;
    if current < last then None else Some(current - last)
  }

  function XrayBalance(b: Balance, transport: Transport, flow: Flow): Balance {
    var total := flow.up + flow.down;
    Balance(b.total + total, b.upload + flow.up, b.download + flow.down, b.xray + total,
            b.netlify + (if transport.Netlify? then total else 0), b.iran + (if transport.Iran? then total else 0),
            b.relay, b.legacy)
  }

  /** Books `flow` once into every total of the account; the first traffic starts the clock. */
  function ChargeXray(db: Db, id: UserId, transport: Transport, flow: Flow, date: Date, hour: Date, now: int): Db
    requires id in db.accounts
  {
    var account := db.accounts[id];
    var balance := XrayBalance(account.balance, transport, flow);
    var clock := if account.clock.first.None? then Activated(account.clock, now) else account.clock.(activated := true);
    var total := flow.up + flow.down;
    var row := UsageRow(total, 0, if transport.Iran? then total else 0);
    db.(activity := db.activity + {(date, id)},
        accounts := db.accounts[id := account.(balance := balance, clock := clock)],
        daily := Book(db.daily, id, date, row), hourly := Book(db.hourly, id, hour, row))
  }

  /** Growth since the cursor of the same epoch, in both directions. */
  function XrayDelta(previous: Option<XrayCursor>, counters: Flow, epoch: Epoch): Option<Flow> {
    var same := previous.Some? && previous.value.epoch == epoch;
    var last := if previous.Some? then previous.value.counters else NO_FLOW;
    var up := CounterDelta(counters.up, last.up, same);
    var down := CounterDelta(counters.down, last.down, same);
    if up.None? || down.None? then None else Some(Flow(up.value, down.value))
  }

  function RecordXray(db: Db, id: UserId, transport: Transport, counters: Flow, epoch: Epoch, date: Date, hour: Date,
                      now: int): Result<Db, LedgerError> {
    if transport.Unknown? then Err(InvalidTransport)
    else if id !in db.accounts then Ok(db) else
      var delta := XrayDelta(Lookup(db.xray, (id, transport)), counters, epoch);
      if delta.None? then Err(CounterRegressed) else
        var charged :=
          if delta.value.up + delta.value.down == 0 then db
          else ChargeXray(db, id, transport, delta.value, date, hour, now);
        Ok(charged.(xray := db.xray[(id, transport) := XrayCursor(epoch, counters)]))
  }

  // ---------- Resets and housekeeping ----------

  /** Balances and rows go; cursors stay. */
  function ResetUsage(db: Db, id: UserId): Db {
    if id !in db.accounts then db else
      db.(accounts := db.accounts[id := db.accounts[id].(balance := NO_USAGE)], daily := db.daily - {id},
          hourly := db.hourly - {id})
  }

  function PurgeSnapshots(db: Db, now: int): Db {
    db.(snapshots := map k | k in db.snapshots && db.snapshots[k].lastSeen >= now - PURGE_MS :: db.snapshots[k])
  }

  // ---------- The same statements in place ----------

  class Database {
    var accounts: map<UserId, Account>
    var daily: map<UserId, map<Date, UsageRow>>
    var hourly: map<UserId, map<Date, UsageRow>>
    var snapshots: map<IkeId, Snapshot>
    var xray: map<CursorKey, XrayCursor>
    var activity: set<(Date, UserId)>

    function State(): Db
      reads this
    {
      Db(accounts, daily, hourly, snapshots, xray, activity)
    }

    constructor ()
      ensures State() == Db(map[], map[], map[], map[], map[], {})
    {
      accounts, daily, hourly := map[], map[], map[];
      snapshots, xray, activity := map[], map[], {};
    }

    method BookIke(id: UserId, relayed: bool, incoming: nat, outgoing: nat, date: Date, hour: Date)
      requires id in accounts
      modifies this
      ensures State() == ChargeIke(old(State()), id, relayed, Flow(incoming, outgoing), date, hour)
    {
      var total := incoming + outgoing;
      var relayBytes := if relayed then total else 0;
      var b := accounts[id].balance;
      b := b.(total := b.total + total, download := b.download + outgoing, upload := b.upload + incoming,
              relay := b.relay + relayBytes);
      accounts := accounts[id := accounts[id].(balance := b)];
      var row := UsageRow(total, relayBytes, 0);
      daily := Book(daily, id, date, row);
      hourly := Book(hourly, id, hour, row);
    }

    method RecordIkeSession(id: UserId, session: Session, date: Date, hour: Date, pollMs: nat, now: int)
      modifies this
      ensures State() == RecordIke(old(State()), id, session, date, hour, pollMs, now)
    {
      if id !in accounts { return; }
      activity := activity + {(date, id)};
      var billing := IkeCounterDelta(session, Lookup(snapshots, session.ikeId), id, pollMs);
      snapshots := snapshots[session.ikeId := Snapshot(id, session.identity, session.bytes, billing.children, now)];
      if billing.flow.up + billing.flow.down > 0 {
        BookIke(id, session.relay, billing.flow.up, billing.flow.down, date, hour);
      }
    }

    method ActivateOnFirstConnect(id: UserId, stale: Clock, now: int)
      modifies this
      ensures State() == Connect(old(State()), id, stale, now)
    {
      if stale.first.Some? || stale.activated { return; }
      if id in accounts && accounts[id].clock.first.None? {
        var clock := accounts[id].clock;
        if clock.expires.None? && clock.days.Some? {
          clock := clock.(expires := Some(now + clock.days.value * DAY_MS));
        }
        accounts := accounts[id := accounts[id].(clock := clock.(first := Some(now), activated := true))];
      }
    }

    method BookXray(id: UserId, transport: Transport, upload: nat, download: nat, date: Date, hour: Date, now: int)
      requires id in accounts
      modifies this
      ensures State() == ChargeXray(old(State()), id, transport, Flow(upload, download), date, hour, now)
    {
      var total := upload + download;
      var account := accounts[id];
      activity := activity + {(date, id)};
      var clock := account.clock;
      if clock.first.None? && clock.days.Some? && clock.expires.None? {
        clock := clock.(expires := Some(now + clock.days.value * DAY_MS));
      }
      clock := clock.(first := if clock.first.Some? then clock.first else Some(now), activated := true);
      var b := account.balance;
      b := b.(total := b.total + total, xray := b.xray + total,
              netlify := if transport.Netlify? then b.netlify + total else b.netlify,
              iran := if transport.Iran? then b.iran + total else b.iran,
              upload := b.upload + upload, download := b.download + download);
      assert b == XrayBalance(account.balance, transport, Flow(upload, download));
      assert clock ==
             if account.clock.first.None? then Activated(account.clock, now) else account.clock.(activated := true);
      accounts := accounts[id := account.(clock := clock, balance := b)];
      var row := UsageRow(total, 0, if transport.Iran? then total else 0);
      daily := Book(daily, id, date, row);
      hourly := Book(hourly, id, hour, row);
    }

    method RecordXrayCounters(id: UserId, transport: Transport, counters: Flow, epoch: Epoch, date: Date, hour: Date,
                              now: int)
      returns (error: Option<LedgerError>)
      modifies this
      ensures var r := RecordXray(old(State()), id, transport, counters, epoch, date, hour, now);
              if r.Ok? then error == None && State() == r.value else error == Some(r.error) && State() == old(State())
    {
      error := None;
      if transport.Unknown? { return Some(InvalidTransport); }
      if id !in accounts { return; }
      var previous := Lookup(xray, (id, transport));
      var sameEpoch := previous.Some? && previous.value.epoch == epoch;
      var last := if previous.Some? then previous.value.counters else NO_FLOW;
      var upload := CounterDelta(counters.up, last.up, sameEpoch);
      if upload.None? { return Some(CounterRegressed); }
      var download := CounterDelta(counters.down, last.down, sameEpoch);
      if download.None? { return Some(CounterRegressed); }
      if upload.value + download.value > 0 {
        BookXray(id, transport, upload.value, download.value, date, hour, now);
      }
      xray := xray[(id, transport) := XrayCursor(epoch, counters)];
    }

    method Reset(id: UserId)
      modifies this
      ensures State() == ResetUsage(old(State()), id)
    {
      if id in accounts {
        accounts := accounts[id := accounts[id].(balance := NO_USAGE)];
        daily := daily - {id};
        hourly := hourly - {id};
      }
    }

    method Purge(now: int)
      modifies this
      ensures State() == PurgeSnapshots(old(State()), now)
    {
      snapshots := map k | k in snapshots && snapshots[k].lastSeen >= now - PURGE_MS :: snapshots[k];
    }
  }
}
