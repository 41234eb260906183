/** What every interleaving of transactions keeps: one balance booked alike everywhere, one start of the clock. */
module LedgerRuns {
  import opened Sums
  import opened IkeCounters
  import opened Ledger

  datatype Event =
    | Ike(id: UserId, session: Session, date: Date, hour: Date, pollMs: nat, now: int)
    | Connected(id: UserId, stale: Clock, now: int)
    | Xray(id: UserId, transport: Transport, counters: Flow, epoch: Epoch, date: Date, hour: Date, now: int)
    | Reset(id: UserId)
    | Purge(now: int)
    // administrator steps
    | Provision(id: UserId, clock: Clock, gate: Gate)
    | Delete(id: UserId)
    | Extend(id: UserId, days: nat, now: int)
    | ResetActivation(id: UserId)

  predicate Administrative(e: Event) {
    e.Provision? || e.Delete? || e.Extend? || e.ResetActivation?
  }

  function SetClock(db: Db, id: UserId, clock: Clock): Db
    requires id in db.accounts
  {
    db.(accounts := db.accounts[id := db.accounts[id].(clock := clock)])
  }

  /** Deleting an account cascades to every table that references it. */
  function DeleteAccount(db: Db, id: UserId): Db {
    Db(db.accounts - {id}, db.daily - {id}, db.hourly - {id},
       map k | k in db.snapshots && db.snapshots[k].userId != id :: db.snapshots[k],
       map k | k in db.xray && k.0 != id :: db.xray[k],
       set a | a in db.activity && a.1 != id)
  }

  function Unblocked(db: Db, id: UserId): Db
    requires id in db.accounts
  {
    var a := db.accounts[id];
    db.(accounts := db.accounts[id := a.(gate := a.gate.(blocked := false, reason := None))])
  }

  function Extended(clock: Clock, days: nat, now: int): Clock {
    var base := if clock.expires.Some? && clock.expires.value > now then clock.expires.value else now;
    clock.(expires := Some(base + days * DAY_MS), activated := true)
  }

  /** A transaction that throws leaves the database as it was. */
  function Apply(db: Db, e: Event): Db {
    match e
    case Ike(id, session, date, hour, pollMs, now) => RecordIke(db, id, session, date, hour, pollMs, now)
    case Connected(id, stale, now) => Connect(db, id, stale, now)
    case Xray(id, transport, counters, epoch, date, hour, now) =>
      var r := RecordXray(db, id, transport, counters, epoch, date, hour, now);
      if r.Ok? then r.value else db
    case Reset(id) => ResetUsage(db, id)
    case Purge(now) => PurgeSnapshots(db, now)
    case Provision(id, clock, gate) =>
      if id in db.accounts then db else db.(accounts := db.accounts[id := Account(NO_USAGE, clock, gate)])
    case Delete(id) => DeleteAccount(db, id)
    case Extend(id, days, now) =>
      if id in db.accounts then SetClock(Unblocked(db, id), id, Extended(db.accounts[id].clock, days, now)) else db
    case ResetActivation(id) =>
      if id in db.accounts && db.accounts[id].clock.days.Some?
      then SetClock(db, id, Clock(None, None, db.accounts[id].clock.days, false)) else db
  }

  function Run(db: Db, events: seq<Event>): Db {
    if events == [] then db else
      var n := |events| - 1;
      Apply(Run(db, events[..n]), events[n])
  }

  const EMPTY := Db(map[], map[], map[], map[], map[], {})

  // ---------- Conservation ----------

  datatype Column = Bytes | RelayBytes | IranBytes

  function Of(row: UsageRow, c: Column): nat {
    match c case Bytes => row.bytes case RelayBytes => row.relay case IranBytes => row.iran
  }

  function Track(rows: map<Date, UsageRow>, c: Column): map<Date, nat> {
    map d | d in rows :: Of(rows[d], c)
  }

  ghost function Booked(table: map<UserId, map<Date, UsageRow>>, id: UserId, c: Column): nat {
    Sum(Track(RowsOf(table, id), c))
  }

  function Balanced(b: Balance, c: Column): nat {
    match c case Bytes => b.total case RelayBytes => b.relay case IranBytes => b.iran
  }

  /** The account's own columns agree. */
  predicate Consistent(b: Balance) {
    && b.total == b.upload + b.download
    && b.netlify + b.iran + b.legacy <= b.xray
    && b.xray + b.relay <= b.total
  }

  /** Each total equals the sum of its daily column and of its hourly column. */
  ghost predicate Conserved(db: Db) {
    && db.daily.Keys <= db.accounts.Keys && db.hourly.Keys <= db.accounts.Keys
    && forall id :: id in db.accounts ==> Consistent(db.accounts[id].balance) && forall c :: Agrees(db, id, c)
  }

  ghost predicate Agrees(db: Db, id: UserId, c: Column)
    requires id in db.accounts
  {
    Balanced(db.accounts[id].balance, c) == Booked(db.daily, id, c) == Booked(db.hourly, id, c)
  }

  lemma BookAdds(table: map<UserId, map<Date, UsageRow>>, id: UserId, date: Date, add: UsageRow, c: Column)
    ensures Booked(Book(table, id, date, add), id, c) == Booked(table, id, c) + Of(add, c)
    ensures forall other :: other != id ==> Booked(Book(table, id, date, add), other, c) == Booked(table, other, c)
  {
    var rows, after := RowsOf(table, id), RowsOf(Book(table, id, date, add), id);
    SumUpdate(Track(rows, c), date, Of(after[date], c));
    assert Track(after, c) == Track(rows, c)[date := Of(after[date], c)];
  }

  /** A charge books the same bytes into the balance, a day and an hour. */
  ghost predicate Charges(db: Db, db': Db, id: UserId, date: Date, hour: Date, row: UsageRow) {
    && id in db.accounts && id in db'.accounts && db'.accounts == db.accounts[id := db'.accounts[id]]
    && db'.daily == Book(db.daily, id, date, row)
    && db'.hourly == Book(db.hourly, id, hour, row)
    && Consistent(db'.accounts[id].balance)
    && forall c :: Balanced(db'.accounts[id].balance, c) == Balanced(db.accounts[id].balance, c) + Of(row, c)
  }

  lemma ChargeAgrees(db: Db, db': Db, id: UserId, date: Date, hour: Date, row: UsageRow, k: UserId, c: Column)
    requires id in db.accounts && Charges(db, db', id, date, hour, row)
    requires k in db.accounts && Agrees(db, k, c)
    ensures Agrees(db', k, c)
  {
    BookAdds(db.daily, id, date, row, c);
    BookAdds(db.hourly, id, hour, row, c);
    assert Balanced(db'.accounts[id].balance, c) == Balanced(db.accounts[id].balance, c) + Of(row, c);
  }

  lemma ChargeConserves(db: Db, db': Db, id: UserId, date: Date, hour: Date, row: UsageRow)
    requires Conserved(db) && id in db'.accounts && Charges(db, db', id, date, hour, row)
    ensures Conserved(db')
  {
    forall k, c | k in db'.accounts ensures Agrees(db', k, c) {
      assert Agrees(db, k, c);
      ChargeAgrees(db, db', id, date, hour, row, k, c);
    }
  }

  /** Same balances, same rows. */
  lemma RowsKeptConserves(db: Db, db': Db)
    requires Conserved(db)
    requires db'.accounts.Keys == db.accounts.Keys && db'.daily == db.daily && db'.hourly == db.hourly
    requires forall id :: id in db.accounts ==> db'.accounts[id].balance == db.accounts[id].balance
    ensures Conserved(db')
  {
    forall id, c | id in db'.accounts ensures Agrees(db', id, c) { assert Agrees(db, id, c); }
  }

  /** Accounts and rows of one id removed together, or the account left with nothing booked. */
  lemma EmptiedConserves(db: Db, db': Db, id: UserId)
    requires Conserved(db)
    requires db'.daily == db.daily - {id} && db'.hourly == db.hourly - {id}
    requires db'.accounts - {id} == db.accounts - {id}
    requires id in db'.accounts ==> db'.accounts[id].balance == NO_USAGE
    ensures Conserved(db')
  {
    forall k | k in db'.accounts
      ensures Consistent(db'.accounts[k].balance) && forall c :: Agrees(db', k, c)
    {
      if k != id {
        assert k in db'.accounts - {id};
        assert db.accounts[k] == (db.accounts - {id})[k] == (db'.accounts - {id})[k];
        forall c ensures Agrees(db', k, c) { assert Agrees(db, k, c); }
      } else {
        forall c ensures Agrees(db', k, c) { SumOfZeros(Track(map[], c)); }
      }
    }
    forall k | k in db'.daily || k in db'.hourly ensures k in db'.accounts {
      assert k in db.accounts - {id};
    }
  }

  lemma IkeConserves(db: Db, id: UserId, session: Session, date: Date, hour: Date, pollMs: nat, now: int)
    requires Conserved(db)
    ensures Conserved(RecordIke(db, id, session, date, hour, pollMs, now))
  {
    var db' := RecordIke(db, id, session, date, hour, pollMs, now);
    if id in db.accounts {
      var flow := Bill(session, Lookup(db.snapshots, session.ikeId), id, pollMs).flow;
      var total := flow.up + flow.down;
      if total == 0 {
        RowsKeptConserves(db, db');
      } else {
        assert Consistent(db.accounts[id].balance);
        ChargeConserves(db, db', id, date, hour, UsageRow(total, if session.relay then total else 0, 0));
      }
    }
  }

  lemma XrayConserves(db: Db, id: UserId, transport: Transport, counters: Flow, epoch: Epoch, date: Date, hour: Date,
                      now: int)
    requires Conserved(db)
    requires RecordXray(db, id, transport, counters, epoch, date, hour, now).Ok?
    ensures Conserved(RecordXray(db, id, transport, counters, epoch, date, hour, now).value)
  {
    var db' := RecordXray(db, id, transport, counters, epoch, date, hour, now).value;
    if id in db.accounts {
      var delta := XrayDelta(Lookup(db.xray, (id, transport)), counters, epoch);
      var total := delta.value.up + delta.value.down;
      if total == 0 {
        RowsKeptConserves(db, db');
      } else {
        assert Consistent(db.accounts[id].balance);
        ChargeConserves(db, db', id, date, hour, UsageRow(total, 0, if transport.Iran? then total else 0));
      }
    }
  }

  lemma DeleteConserves(db: Db, id: UserId)
    requires Conserved(db)
    ensures Conserved(DeleteAccount(db, id))
  {
    EmptiedConserves(db, DeleteAccount(db, id), id);
  }

  lemma ResetConserves(db: Db, id: UserId)
    requires Conserved(db)
    ensures Conserved(ResetUsage(db, id))
  {
    if id in db.accounts {
      EmptiedConserves(db, ResetUsage(db, id), id);
    }
  }

  lemma MissingKey<V>(m: map<UserId, V>, id: UserId)
    requires id !in m
    ensures m - {id} == m
  {
  }

  lemma AddedConserves(db: Db, db': Db, id: UserId, account: Account)
    requires Conserved(db) && id !in db.accounts && account.balance == NO_USAGE
    requires db'.accounts == db.accounts[id := account] && db'.daily == db.daily && db'.hourly == db.hourly
    ensures Conserved(db')
  {
    MissingKey(db.daily, id);
    MissingKey(db.hourly, id);
    assert db'.accounts - {id} == db.accounts - {id};
    EmptiedConserves(db, db', id);
  }

  lemma ProvisionConserves(db: Db, id: UserId, clock: Clock, gate: Gate)
    requires Conserved(db)
    ensures Conserved(Apply(db, Provision(id, clock, gate)))
  {
    if id !in db.accounts {
      AddedConserves(db, Apply(db, Provision(id, clock, gate)), id, Account(NO_USAGE, clock, gate));
    }
  }

  lemma ClockConserves(db: Db, id: UserId, clock: Clock)
    requires Conserved(db) && id in db.accounts
    ensures Conserved(SetClock(db, id, clock))
  {
    RowsKeptConserves(db, SetClock(db, id, clock));
  }

  lemma ConnectConserves(db: Db, id: UserId, stale: Clock, now: int)
    requires Conserved(db)
    ensures Conserved(Connect(db, id, stale, now))
  {
    if id in db.accounts {
      ClockConserves(db, id, Activated(db.accounts[id].clock, now));
    }
  }

  lemma AdministratorClockConserves(db: Db, e: Event)
    requires Conserved(db) && (e.Extend? || e.ResetActivation?)
    ensures Conserved(Apply(db, e))
  {
    if e.id in db.accounts {
      var clock := db.accounts[e.id].clock;
      if e.Extend? {
        RowsKeptConserves(db, Unblocked(db, e.id));
        ClockConserves(Unblocked(db, e.id), e.id, Extended(clock, e.days, e.now));
      } else {
        ClockConserves(db, e.id, Clock(None, None, clock.days, false));
      }
    }
  }

  lemma PurgeConserves(db: Db, now: int)
    requires Conserved(db)
    ensures Conserved(PurgeSnapshots(db, now))
  {
    RowsKeptConserves(db, PurgeSnapshots(db, now));
  }

  lemma XrayEventConserves(db: Db, e: Event)
    requires Conserved(db) && e.Xray?
    ensures Conserved(Apply(db, e))
  {
    if RecordXray(db, e.id, e.transport, e.counters, e.epoch, e.date, e.hour, e.now).Ok? {
      XrayConserves(db, e.id, e.transport, e.counters, e.epoch, e.date, e.hour, e.now);
    }
  }

  lemma EventConserves(db: Db, e: Event)
    requires Conserved(db)
    ensures Conserved(Apply(db, e))
  {
    match e
    case Ike(id, session, date, hour, pollMs, now) => IkeConserves(db, id, session, date, hour, pollMs, now);
    case Xray(_, _, _, _, _, _, _) => XrayEventConserves(db, e);
    case Reset(id) => ResetConserves(db, id);
    case Delete(id) => DeleteConserves(db, id);
    case Provision(id, clock, gate) => ProvisionConserves(db, id, clock, gate);
    case Connected(id, stale, now) => ConnectConserves(db, id, stale, now);
    case Purge(now) => PurgeConserves(db, now);
    case _ => AdministratorClockConserves(db, e);
  }

  /** From an empty database, every interleaving keeps every total equal to the sum of its rows. */
  lemma {:induction false} RunConserves(events: seq<Event>)
    ensures Conserved(Run(EMPTY, events))
  {
    if events != [] {
      RunConserves(events[..|events| - 1]);
      EventConserves(Run(EMPTY, events[..|events| - 1]), events[|events| - 1]);
    }
  }

  // ---------- Display ----------

  function Clamped(value: int): nat { if value > 0 then value else 0 }

  /** The parts sanitizeUser shows for one account, and the dashboard for column sums. */
  datatype Split = Split(ike: nat, relay: nat, direct: nat, netlify: nat, iran: nat, legacy: nat) {
    function Total(): nat { ike + relay + direct + netlify + iran + legacy }
  }

  function Shown(b: Balance): Split {
    Split(Clamped(b.total - b.xray - b.relay), b.relay, Clamped(b.xray - b.netlify - b.legacy - b.iran), b.netlify,
          b.iran, b.legacy)
  }

  /** No clamp bites exactly when the columns nest, and then the parts add up to usage_total. */
  lemma ShownIsPartition(b: Balance)
    ensures (b.netlify + b.iran + b.legacy <= b.xray && b.xray + b.relay <= b.total) <==>
            (Shown(b).ike == b.total - b.xray - b.relay && Shown(b).direct == b.xray - b.netlify - b.legacy - b.iran)
    ensures Consistent(b) ==> Shown(b).Total() == b.total
  {
  }

  datatype Part = Total | Upload | Download | XrayPart | NetlifyPart | IranPart | RelayPart | LegacyPart

  function Amount(b: Balance, part: Part): nat {
    match part
    case Total => b.total
    case Upload => b.upload
    case Download => b.download
    case XrayPart => b.xray
    case NetlifyPart => b.netlify
    case IranPart => b.iran
    case RelayPart => b.relay
    case LegacyPart => b.legacy
  }

  function Amounts(accounts: map<UserId, Account>, part: Part): map<UserId, nat> {
    map id | id in accounts :: Amount(accounts[id].balance, part)
  }

  /** The SQL sums behind the dashboard. */
  ghost function Totals(accounts: map<UserId, Account>): Balance {
    Balance(Sum(Amounts(accounts, Total)), Sum(Amounts(accounts, Upload)), Sum(Amounts(accounts, Download)),
            Sum(Amounts(accounts, XrayPart)), Sum(Amounts(accounts, NetlifyPart)), Sum(Amounts(accounts, IranPart)),
            Sum(Amounts(accounts, RelayPart)), Sum(Amounts(accounts, LegacyPart)))
  }

  lemma TransportsNest(accounts: map<UserId, Account>)
    requires forall id :: id in accounts ==> Consistent(accounts[id].balance)
    ensures Sum(Amounts(accounts, NetlifyPart)) + Sum(Amounts(accounts, IranPart)) + Sum(Amounts(accounts, LegacyPart))
         <= Sum(Amounts(accounts, XrayPart))
  {
    var two := map id | id in accounts :: accounts[id].balance.netlify + accounts[id].balance.iran;
    SumPlus(two, Amounts(accounts, NetlifyPart), Amounts(accounts, IranPart));
    SumPlusAtMost(two, Amounts(accounts, LegacyPart), Amounts(accounts, XrayPart));
  }

  lemma ProtocolsNest(accounts: map<UserId, Account>)
    requires forall id :: id in accounts ==> Consistent(accounts[id].balance)
    ensures Sum(Amounts(accounts, XrayPart)) + Sum(Amounts(accounts, RelayPart)) <= Sum(Amounts(accounts, Total))
  {
    SumPlusAtMost(Amounts(accounts, XrayPart), Amounts(accounts, RelayPart), Amounts(accounts, Total));
  }

  lemma DirectionsAdd(accounts: map<UserId, Account>)
    requires forall id :: id in accounts ==> Consistent(accounts[id].balance)
    ensures Sum(Amounts(accounts, Total)) == Sum(Amounts(accounts, Upload)) + Sum(Amounts(accounts, Download))
  {
    SumPlus(Amounts(accounts, Total), Amounts(accounts, Upload), Amounts(accounts, Download));
  }

  /** After any run the display is an exact partition, for each account and in the dashboard sums. */
  lemma DisplayPartitions(events: seq<Event>)
    ensures var db := Run(EMPTY, events);
            && (forall id :: id in db.accounts ==>
                Shown(db.accounts[id].balance).Total() == db.accounts[id].balance.total)
            && Shown(Totals(db.accounts)).Total() == Totals(db.accounts).total == Sum(Amounts(db.accounts, Total))
  {
    RunConserves(events);
    var db := Run(EMPTY, events);
    TransportsNest(db.accounts);
    ProtocolsNest(db.accounts);
    DirectionsAdd(db.accounts);
    ShownIsPartition(Totals(db.accounts));
    forall id | id in db.accounts ensures Shown(db.accounts[id].balance).Total() == db.accounts[id].balance.total {
      ShownIsPartition(db.accounts[id].balance);
    }
  }

  // ---------- The subscription clock ----------

  function Now(e: Event): int {
    match e
    case Ike(_, _, _, _, _, now) => now
    case Connected(_, _, now) => now
    case Xray(_, _, _, _, _, _, now) => now
    case Purge(now) => now
    case Extend(_, _, now) => now
    case _ => 0
  }

  predicate SameClock(c: Clock, c': Clock) {
    c'.first == c.first && c'.expires == c.expires && c'.days == c.days
  }

  /** The first event at `now`; the expiry is set from the duration unless one was fixed before. */
  predicate Started(c: Clock, c': Clock, now: int) {
    && c.first.None? && c'.first == Some(now) && c'.days == c.days
    && c'.expires == if c.expires.None? && c.days.Some? then Some(now + c.days.value * DAY_MS) else c.expires
  }

  lemma ClockStep(db: Db, e: Event, id: UserId)
    requires id in db.accounts && !Administrative(e)
    ensures id in Apply(db, e).accounts
    ensures var c, c' := db.accounts[id].clock, Apply(db, e).accounts[id].clock;
            SameClock(c, c') || Started(c, c', Now(e))
  {
  }

  /** An extension reaches the given days beyond both the present and the old expiry, no further, and unblocks. */
  lemma ExtendReaches(db: Db, id: UserId, days: nat, now: int)
    requires id in db.accounts
    ensures var db' := Apply(db, Extend(id, days, now));
            id in db'.accounts &&
            var a, a' := db.accounts[id], db'.accounts[id];
            var added := days * (24 * 60 * 60 * 1000);
            && db' == db.(accounts := db.accounts[id := a'])
            && a' == a.(gate := a.gate.(blocked := false, reason := None), clock := a'.clock)
            && a'.clock.first == a.clock.first && a'.clock.days == a.clock.days && a'.clock.activated
            && a'.clock.expires.Some? && a'.clock.expires.value >= now + added
            && (a.clock.expires.Some? ==> a'.clock.expires.value >= a.clock.expires.value + added)
            && (a'.clock.expires == Some(now + added) ||
                (a.clock.expires.Some? && a'.clock.expires == Some(a.clock.expires.value + added)))
  {
    var a := db.accounts[id];
    assert Unblocked(db, id).accounts[id] == a.(gate := a.gate.(blocked := false, reason := None));
    var a' := Apply(db, Extend(id, days, now)).accounts[id];
    assert db.accounts[id := Unblocked(db, id).accounts[id]][id := a'] == db.accounts[id := a'];
  }

  ghost predicate ClockAt(db: Db, events: seq<Event>, id: UserId, start: nat, k: nat)
    requires id in db.accounts && start <= |events| && k <= |events|
  {
    var db' := Run(db, events[..k]);
    id in db'.accounts &&
    if k <= start then SameClock(db.accounts[id].clock, db'.accounts[id].clock)
    else Started(db.accounts[id].clock, db'.accounts[id].clock, Now(events[start]))
  }

  /** Whatever rows the worker read, the clock starts at most once, at one event, and never moves again. */
  lemma {:induction false} ClockStartsOnce(db: Db, events: seq<Event>, id: UserId) returns (start: nat)
    requires id in db.accounts && forall e :: e in events ==> !Administrative(e)
    ensures start <= |events|
    ensures forall k :: 0 <= k <= |events| ==> ClockAt(db, events, id, start, k)
  {
    var n := |events|;
    if n == 0 {
      start := 0;
      assert events[..0] == [];
    } else {
      var before := events[..n - 1];
      start := ClockStartsOnce(db, before, id);
      assert ClockAt(db, before, id, start, n - 1);
      assert before[..n - 1] == before && events[..n] == events;
      ClockStep(Run(db, before), events[n - 1], id);
      if start == n - 1 && SameClock(Run(db, before).accounts[id].clock, Run(db, events).accounts[id].clock) {
        start := n;
      }
      forall k | 0 <= k < n ensures ClockAt(db, events, id, start, k) {
        assert events[..k] == before[..k];
        assert ClockAt(db, before, id, if start == n then n - 1 else start, k);
      }
      assert ClockAt(db, events, id, start, n);
    }
  }

  // ---------- Balance and CHILD counters ----------

  /** Successive samples of one SA, recorded for one account. */
  function RecordAll(db: Db, id: UserId, run: seq<Observation>, date: Date, hour: Date, pollMs: nat): Db
    decreases |run|
  {
    if run == [] then db else
      RecordAll(RecordIke(db, id, run[0].session, date, hour, pollMs, run[0].now), id, run[1..], date, hour, pollMs)
  }

  lemma SampleMoves(db: Db, id: UserId, o: Observation, date: Date, hour: Date, pollMs: nat)
    requires id in db.accounts && o.session.ikeId in db.snapshots
    ensures var next := RecordIke(db, id, o.session, date, hour, pollMs, o.now);
            var row := db.snapshots[o.session.ikeId];
            var b, b' := db.accounts[id].balance, next.accounts[id].balance;
            var flow := Bill(o.session, Some(row), id, pollMs).flow;
            && o.session.ikeId in next.snapshots && next.snapshots[o.session.ikeId] == After(row, o, id, pollMs)
            && b'.upload == b.upload + flow.up && b'.download == b.download + flow.down &&
              b'.total == b.total + flow.up + flow.down
  {
  }

  lemma {:induction false} BalanceFollowsBills(db: Db, id: UserId, ikeId: IkeId, run: seq<Observation>, date: Date,
                                               hour: Date, pollMs: nat)
    requires id in db.accounts && ikeId in db.snapshots
    requires forall o :: o in run ==> o.session.ikeId == ikeId
    ensures var end := RecordAll(db, id, run, date, hour, pollMs);
            var billed := Billed(db.snapshots[ikeId], run, id, pollMs);
            && id in end.accounts
            && end.accounts[id].balance.upload == db.accounts[id].balance.upload + billed.up
            && end.accounts[id].balance.download == db.accounts[id].balance.download + billed.down
            && end.accounts[id].balance.total == db.accounts[id].balance.total + billed.up + billed.down
    decreases |run|
  {
    if run != [] {
      var next := RecordIke(db, id, run[0].session, date, hour, pollMs, run[0].now);
      assert run[0] in run;
      SampleMoves(db, id, run[0], date, hour, pollMs);
      BalanceFollowsBills(next, id, ikeId, run[1..], date, hour, pollMs);
    }
  }

  /** The upload column grows by exactly the rise of the CHILDs' bytes-in counters, download by bytes-out. */
  lemma BalanceFollowsCounters(db: Db, id: UserId, ikeId: IkeId, run: seq<Observation>, date: Date, hour: Date,
                               pollMs: nat)
    requires id in db.accounts && ikeId in db.snapshots
    requires forall o :: o in run ==> o.session.ikeId == ikeId
    requires OneSa(db.snapshots[ikeId], run, id, pollMs)
    ensures var end := RecordAll(db, id, run, date, hour, pollMs);
            var row := db.snapshots[ikeId];
            && id in end.accounts
            && end.accounts[id].balance.upload == db.accounts[id].balance.upload + Sum(Rises(row, run, id, pollMs, Up))
            && end.accounts[id].balance.download ==
              db.accounts[id].balance.download + Sum(Rises(row, run, id, pollMs, Down))
  {
    BalanceFollowsBills(db, id, ikeId, run, date, hour, pollMs);
    BilledTelescopes(db.snapshots[ikeId], run, id, pollMs, Up);
    BilledTelescopes(db.snapshots[ikeId], run, id, pollMs, Down);
  }
}
