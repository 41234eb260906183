/** The quota pass of backend/src/worker.js against the lifecycle shown to users and the Xray client lists. */
module Enforcement {
  import opened Sums
  import opened IkeCounters
  import opened Ledger
  import opened XrayIdentity
  import LedgerRows

  function TodayBytes(db: Db, id: UserId, date: Date): nat {
    var rows := RowsOf(db.daily, id);
    if date in rows then rows[date].bytes else 0
  }

  /** The reason to block. A stored limit of 0 is present: the database returns it as a non-empty string. */
  function Verdict(a: Account, today: nat, now: int): Option<Reason> {
    if a.clock.expires.Some? && a.clock.expires.value <= now then Some(Expired)
    else if !a.gate.unlimited && a.gate.daily.Some? && today >= a.gate.daily.value then Some(DailyQuota)
    else if !a.gate.unlimited && a.gate.limit.Some? && a.balance.total >= a.gate.limit.value then Some(TotalQuota)
    else None
  }

  predicate NeedsWrite(gate: Gate, verdict: Option<Reason>) {
    verdict.Some? != gate.blocked || (verdict.Some? && verdict != gate.reason)
  }

  function Enforced(a: Account, today: nat, now: int): Account {
    var verdict := Verdict(a, today, now);
    if NeedsWrite(a.gate, verdict) then a.(gate := a.gate.(blocked := verdict.Some?, reason := verdict)) else a
  }

  function Enforce(db: Db, date: Date, now: int): Db {
    db.(accounts := map id | id in db.accounts :: Enforced(db.accounts[id], TodayBytes(db, id, date), now))
  }

  method Review(u: Account, used: nat, now: int) returns (reason: Option<Reason>, write: bool)
    ensures reason == Verdict(u, used, now)
    ensures write <==> Enforced(u, used, now).gate != u.gate
  {
    reason := None;
    if u.clock.expires.Some? && u.clock.expires.value <= now { reason := Some(Expired); }
    if reason.None? && !u.gate.unlimited && u.gate.daily.Some? && used >= u.gate.daily.value {
      reason := Some(DailyQuota);
    }
    if reason.None? && !u.gate.unlimited && u.gate.limit.Some? && u.balance.total >= u.gate.limit.value {
      reason := Some(TotalQuota);
    }
    write := reason.Some? != u.gate.blocked || (reason.Some? && reason != u.gate.reason);
  }

  method EnforceQuotas(database: Database, date: Date, now: int) returns (written: set<UserId>)
    modifies database
    ensures database.State() == Enforce(old(database.State()), date, now)
    ensures forall id :: id in written <==>
                         id in old(database.accounts) && database.accounts[id].gate != old(database.accounts)[id].gate
  {
    var rows := database.accounts;
    ghost var before := database.State();
    written := {};
    var todo := rows.Keys;
    while todo != {}
      invariant todo <= rows.Keys && database.accounts.Keys == rows.Keys && written <= rows.Keys - todo
      invariant database.State() == before.(accounts := database.accounts)
      invariant forall id :: id in todo ==> database.accounts[id] == rows[id]
      invariant forall id :: id in rows.Keys - todo ==>
                  database.accounts[id] == Enforced(rows[id], TodayBytes(before, id, date), now)
      invariant forall id :: id in rows.Keys - todo ==> (id in written <==> database.accounts[id].gate != rows[id].gate)
      decreases todo
    {
      var id :| id in todo;
      todo := todo - {id};
      var used := TodayBytes(database.State(), id, date);
      var reason, write := Review(rows[id], used, now);
      if write {
        database.accounts :=
          database.accounts[id := rows[id].(gate := rows[id].gate.(blocked := reason.Some?, reason := reason))];
        written := written + {id};
      }
    }
    assert database.accounts == Enforce(before, date, now).accounts;
  }

  // ---------- What users are shown ----------

  predicate DateEnded(a: Account, now: int) {
    a.clock.expires.Some? && a.clock.expires.value <= now
  }

  predicate Exhausted(a: Account) {
    !a.gate.unlimited && a.gate.limit.Some? && a.gate.limit.value > 0 && a.balance.total >= a.gate.limit.value
  }

  predicate Ended(a: Account, now: int) {
    DateEnded(a, now) || Exhausted(a)
  }

  predicate DailyReached(a: Account, today: nat) {
    !a.gate.unlimited && a.gate.daily.Some? && a.gate.daily.value > 0 && today >= a.gate.daily.value
  }

  predicate StoresZero(gate: Gate) {
    gate.daily == Some(0) || gate.limit == Some(0)
  }

  /**
   * After a pass an account is blocked exactly when the panel shows it ended or its day used up,
   * unless it stores a limit of 0 that nothing else masks: then it is blocked without being shown so.
   */
  lemma BlockedExactly(a: Account, today: nat, now: int)
    ensures (Enforced(a, today, now).gate.blocked <==> Ended(a, now) || DailyReached(a, today)) <==>
            (!StoresZero(a.gate) || a.gate.unlimited || Ended(a, now) || DailyReached(a, today))
    ensures StoresZero(a.gate) && !a.gate.unlimited ==> Enforced(a, today, now).gate.blocked
  {
  }

  /** A second pass with the same usage and clock writes nothing. */
  lemma PassIsStable(db: Db, date: Date, now: int)
    ensures Enforce(Enforce(db, date, now), date, now) == Enforce(db, date, now)
    ensures var db' := Enforce(db, date, now);
            forall id :: id in db'.accounts ==>
                !NeedsWrite(db'.accounts[id].gate, Verdict(db'.accounts[id], TodayBytes(db', id, date), now))
  {
    var db' := Enforce(db, date, now);
    forall id | id in db'.accounts
      ensures !NeedsWrite(db'.accounts[id].gate, Verdict(db'.accounts[id], TodayBytes(db', id, date), now))
    {
      assert TodayBytes(db', id, date) == TodayBytes(db, id, date);
    }
  }

  /** The reason, read off what the account shows: the date first, then the day, then the total. */
  lemma ReasonExactly(a: Account, today: nat, now: int)
    requires !StoresZero(a.gate)
    ensures Enforced(a, today, now).gate.reason == (
              if DateEnded(a, now) then Some(Expired)
              else if DailyReached(a, today) then Some(DailyQuota)
              else if Exhausted(a) then Some(TotalQuota)
              else if a.gate.blocked then None
              else a.gate.reason)
  {
  }

  /** A pass sets the block and its reason, and nothing else of the database. */
  lemma PassTouchesOnlyBlocks(db: Db, date: Date, now: int)
    ensures var db' := Enforce(db, date, now);
            && db' == db.(accounts := db'.accounts) && db'.accounts.Keys == db.accounts.Keys
            && forall id :: id in db.accounts ==>
                 var a, a' := db.accounts[id], db'.accounts[id];
                 && a'.balance == a.balance && a'.clock == a.clock
                 && a'.gate == a.gate.(blocked := a'.gate.blocked, reason := a'.gate.reason)
  {
  }

  /** What counts against the daily limit is the account's row of that day. */
  lemma TodayIsDailyRow(db: Db, id: UserId, date: Date)
    ensures TodayBytes(db, id, date) == LedgerRows.Cell(db.daily, id, date).bytes
  {
  }

  /** So traffic on either protocol counts towards the limit of its own day, and of no other. */
  lemma TodayCountsIke(db: Db, id: UserId, session: Session, date: Date, hour: Date, pollMs: nat, now: int, day: Date)
    requires id in db.accounts
    ensures var db' := RecordIke(db, id, session, date, hour, pollMs, now);
            TodayBytes(db', id, day) - TodayBytes(db, id, day) ==
            if day == date then db'.accounts[id].balance.total - db.accounts[id].balance.total else 0
  {
    LedgerRows.IkeRowsExactly(db, id, session, date, hour, pollMs, now);
    LedgerRows.IkeColumnsExactly(db, id, session, date, hour, pollMs, now);
    TodayIsDailyRow(db, id, day);
    TodayIsDailyRow(RecordIke(db, id, session, date, hour, pollMs, now), id, day);
  }

  lemma TodayCountsXray(db: Db, id: UserId, transport: Transport, counters: Flow, epoch: Epoch, date: Date, hour: Date,
                        now: int, day: Date)
    requires id in db.accounts && RecordXray(db, id, transport, counters, epoch, date, hour, now).Ok?
    ensures var db' := RecordXray(db, id, transport, counters, epoch, date, hour, now).value;
            && id in db'.accounts
            && TodayBytes(db', id, day) - TodayBytes(db, id, day) ==
               if day == date then db'.accounts[id].balance.total - db.accounts[id].balance.total else 0
  {
    LedgerRows.XrayRowsExactly(db, id, transport, counters, epoch, date, hour, now);
    LedgerRows.XrayColumnsExactly(db, id, transport, counters, epoch, date, hour, now);
    TodayIsDailyRow(db, id, day);
    TodayIsDailyRow(RecordXray(db, id, transport, counters, epoch, date, hour, now).value, id, day);
  }

  // ---------- Xray client lists ----------

  predicate Eligible(a: Account, now: int) {
    a.gate.enabled && !a.gate.blocked && (a.clock.expires.None? || a.clock.expires.value > now)
  }

  /** The statistics names of an inlet's clients, in the order of the user rows. */
  function Clients(rows: seq<(UserId, Account)>, enabled: bool, iranEnabled: bool, inlet: Inlet,
                   now: int): seq<string> {
    if !enabled || (inlet == Inlet.Iran && !iranEnabled) || rows == [] then [] else
      var rest := Clients(rows[1..], enabled, iranEnabled, inlet, now);
      if Eligible(rows[0].1, now) then [Prefix(inlet) + rows[0].0.text] + rest else rest
  }

  lemma {:induction false} ClientsExactly(rows: seq<(UserId, Account)>, iranEnabled: bool, inlet: Inlet, now: int,
                                          id: UserId)
    requires inlet == Inlet.Iran ==> iranEnabled
    ensures Prefix(inlet) + id.text in Clients(rows, true, iranEnabled, inlet, now) <==>
            exists i :: 0 <= i < |rows| && rows[i].0 == id && Eligible(rows[i].1, now)
  {
    if rows != [] {
      ClientsExactly(rows[1..], iranEnabled, inlet, now, id);
      if Prefix(inlet) + rows[0].0.text == Prefix(inlet) + id.text {
        assert (Prefix(inlet) + id.text)[|Prefix(inlet)|..] == id.text;
        assert (Prefix(inlet) + rows[0].0.text)[|Prefix(inlet)|..] == rows[0].0.text;
      }
      var tail := rows[1..];
      if i :| 0 <= i < |tail| && tail[i].0 == id && Eligible(tail[i].1, now) {
        assert rows[i + 1] == tail[i];
      }
      if i :| 0 <= i < |rows| && rows[i].0 == id && Eligible(rows[i].1, now) {
        if i > 0 { assert tail[i - 1] == rows[i]; }
      }
    }
  }

  /** The rows of a database, one for each account. */
  predicate RowsOfAccounts(rows: seq<(UserId, Account)>, db: Db) {
    && (forall i :: 0 <= i < |rows| ==> rows[i].0 in db.accounts && rows[i].1 == db.accounts[rows[i].0])
    && (forall id :: id in db.accounts ==> exists i :: 0 <= i < |rows| && rows[i].0 == id)
  }

  /** Lists built at or after a pass hold exactly the enabled accounts that are neither ended nor over their day. */
  lemma ClientsAfterPass(db: Db, date: Date, now: int, rows: seq<(UserId, Account)>, iranEnabled: bool, inlet: Inlet,
                         later: int, id: UserId)
    requires RowsOfAccounts(rows, Enforce(db, date, now)) && now <= later && id in db.accounts
    requires inlet == Inlet.Iran ==> iranEnabled
    requires !StoresZero(db.accounts[id].gate)
    ensures Prefix(inlet) + id.text in Clients(rows, true, iranEnabled, inlet, later) <==>
            db.accounts[id].gate.enabled && !Ended(db.accounts[id], later) &&
              !DailyReached(db.accounts[id], TodayBytes(db, id, date))
  {
    ClientsExactly(rows, iranEnabled, inlet, later, id);
    BlockedExactly(db.accounts[id], TodayBytes(db, id, date), now);
    assert id in Enforce(db, date, now).accounts;
    var i :| 0 <= i < |rows| && rows[i].0 == id;
  }
}
