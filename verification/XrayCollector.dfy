/**
 * Xray usage collection while Xray restarts: epoch, statistics, epoch again, then one transaction
 * for each reading. Any step may be followed by traffic, a stop, a start, an abort of the collection,
 * or by any other transaction on the database.
 */
module XrayCollector {
  import opened Sums
  import opened IkeCounters
  import opened Ledger
  import LedgerRuns

  datatype Phase =
    | Idle
    | Opened(before: Epoch)
    | Queried(before: Epoch, reading: map<CursorKey, Flow>)
    | Committing(before: Epoch, reading: map<CursorKey, Flow>, todo: seq<CursorKey>)

  /**
   * Readings committed under a generation, bytes billed in the life of an account, bytes billed since its
   * last reset, and IKE bytes billed since then.
   */
  datatype Books = Books(booked: map<CursorKey, map<Epoch, Flow>>, billed: map<CursorKey, Flow>, since: map<CursorKey,
                         Flow>, ike: map<UserId, Flow>)

  /**
   * `counters` holds what each process generation has counted. The readings taken from a generation and
   * the books are kept for the statements only.
   */
  datatype World = World(
    db: Db, epoch: Epoch, up: bool, counters: map<Epoch, map<CursorKey, Flow>>, phase: Phase,
    taken: set<(Epoch, CursorKey, Flow)>, books: Books)

  datatype Step =
    | Traffic(key: CursorKey, bytes: Flow)
    | Stop
    | Start
    | Open
    | Query
    | Check(order: seq<CursorKey>)
    | Commit(date: Date, hour: Date, now: int)
    | Finish
    | Abort
    | Other(event: LedgerRuns.Event)

  function FlowOf<K>(m: map<K, Flow>, k: K): Flow {
    if k in m then m[k] else NO_FLOW
  }

  /** What a generation has counted for a key. */
  function Counted(w: World, e: Epoch, key: CursorKey): Flow {
    if e in w.counters then FlowOf(w.counters[e], key) else NO_FLOW
  }

  function Generation(w: World): map<CursorKey, Flow> {
    if w.epoch in w.counters then w.counters[w.epoch] else map[]
  }

  predicate Enabled(w: World, s: Step) {
    match s
    case Traffic(key, _) => w.up && !key.1.Unknown?
    case Stop => w.up
    case Start => !w.up
    case Open => w.phase.Idle?
    case Query => w.phase.Opened?
    case Check(order) => w.phase.Queried? && (forall k :: k in order ==> k in w.phase.reading)
    case Commit(_, _, _) => w.phase.Committing? && w.phase.todo != []
    case Finish => w.phase.Committing? && w.phase.todo == []
    case Abort => true
    case Other(e) => !e.Xray?
  }

  /** The bookkeeping of a committed reading; `delta` is what its transaction charged. */
  function Note(w: World, key: CursorKey, before: Epoch, reading: Flow, delta: Flow): World {
    w.(books := Books(w.books.booked[key := BookedOf(w, key)[before := reading]],
                      w.books.billed[key := FlowOf(w.books.billed, key).Plus(delta)],
                      w.books.since[key := FlowOf(w.books.since, key).Plus(delta)],
                      w.books.ike))
  }

  function Dropped<V>(m: map<CursorKey, V>, id: UserId): map<CursorKey, V> {
    map k | k in m && k.0 != id :: m[k]
  }

  /** Any transaction but an Xray record: IKE records, connections, resets, purges and administrator steps. */
  function OtherNext(w: World, e: LedgerRuns.Event): World {
    w.(db := LedgerRuns.Apply(w.db, e), books := OtherBooks(w, e))
  }

  function OtherBooks(w: World, e: LedgerRuns.Event): Books {
    Books(if e.Delete? then Dropped(w.books.booked, e.id) else w.books.booked,
          if e.Delete? then Dropped(w.books.billed, e.id) else w.books.billed,
          if e.Delete? || e.Reset? then Dropped(w.books.since, e.id) else w.books.since,
          if e.Delete? || e.Reset? then w.books.ike - {e.id} else if e.Ike? then IkeBilled(w, e) else w.books.ike)
  }

  function IkeBilled(w: World, e: LedgerRuns.Event): map<UserId, Flow>
    requires e.Ike?
  {
    if e.id !in w.db.accounts then w.books.ike else
      w.books.ike[e.id :=
                  FlowOf(w.books.ike,
                         e.id).Plus(Bill(e.session, Lookup(w.db.snapshots, e.session.ikeId), e.id, e.pollMs).flow)]
  }

  /** One transaction of the commit loop; an error ends the collection. */
  function CommitNext(w: World, date: Date, hour: Date, now: int): World
    requires w.phase.Committing? && w.phase.todo != []
  {
    var key, before := w.phase.todo[0], w.phase.before;
    var reading := FlowOf(w.phase.reading, key);
    var r := RecordXray(w.db, key.0, key.1, reading, before, date, hour, now);
    if r.Err? then
      w.(phase := Idle)
    else
      var delta := XrayDelta(Lookup(w.db.xray, key), reading, before);
      var noted := if key.0 in w.db.accounts && delta.Some? then Note(w, key, before, reading, delta.value) else w;
      noted.(db := r.value, phase := Committing(before, w.phase.reading, w.phase.todo[1..]))
  }

  function Apply(w: World, s: Step): World
    requires Enabled(w, s)
  {
    match s
    case Traffic(key, bytes) =>
      w.(counters := w.counters[w.epoch := Generation(w)[key := FlowOf(Generation(w), key).Plus(bytes)]])
    case Stop => w.(up := false)
    case Start => w.(up := true, epoch := w.epoch + 1)
    case Open => if w.up then w.(phase := Opened(w.epoch)) else w
    case Query =>
      if !w.up then w.(phase := Idle) else
        w.(phase := Queried(w.phase.before, Generation(w)),
           taken := w.taken + set k | k in Generation(w) :: (w.epoch, k, Generation(w)[k]))
    case Check(order) =>
      if !w.up || w.epoch != w.phase.before then w.(phase := Idle)
      else w.(phase := Committing(w.phase.before, w.phase.reading, order))
    case Commit(date, hour, now) => CommitNext(w, date, hour, now)
    case Finish => w.(phase := Idle)
    case Abort => w.(phase := Idle)
    case Other(e) => OtherNext(w, e)
  }

  // ---------- Invariant ----------

  /** Readings were really counted by their generation, and under known transports. */
  ghost predicate TakenCounted(w: World) {
    && (forall t :: t in w.taken ==> t.0 <= w.epoch && t.2.AtMost(Counted(w, t.0, t.1)) && !t.1.1.Unknown?)
    && (forall e :: e in w.counters ==> e <= w.epoch && forall k :: k in w.counters[e] ==> !k.1.Unknown?)
  }

  /** A cursor is the last committed reading of the latest generation with a commit. */
  ghost predicate CursorsBooked(w: World) {
    && (forall k :: k in w.books.booked <==> k in w.db.xray)
    && (forall k :: k in w.db.xray ==> w.db.xray[k].epoch <= w.epoch && w.db.xray[k].epoch in w.books.booked[k]
                                       && w.books.booked[k][w.db.xray[k].epoch] == w.db.xray[k].counters)
    && (forall k, e :: k in w.books.booked && e in w.books.booked[k] ==>
        e <= w.db.xray[k].epoch && (e, k, w.books.booked[k][e]) in w.taken)
  }

  ghost predicate Billed(w: World) {
    forall k, d: Direction :: FlowOf(w.books.billed, k).At(d) == Sum(Column(BookedOf(w, k), d))
  }

  function BookedOf(w: World, k: CursorKey): map<Epoch, Flow> {
    if k in w.books.booked then w.books.booked[k] else map[]
  }

  /** A reading still to be committed is not behind the cursor it will meet. */
  predicate Ahead(w: World, k: CursorKey, before: Epoch, reading: Flow) {
    k in w.db.xray ==>
        w.db.xray[k].epoch <= before && (w.db.xray[k].epoch == before ==> w.db.xray[k].counters.AtMost(reading))
  }

  ghost predicate PhaseSound(w: World) {
    match w.phase
    case Idle => true
    case Opened(before) => before <= w.epoch
    case Queried(before, reading) =>
      before <= w.epoch &&
      (before == w.epoch ==> forall k :: k in reading ==>
       (before, k, reading[k]) in w.taken && Ahead(w, k, before, reading[k]))
    case Committing(before, reading, todo) =>
      before <= w.epoch &&
      forall k :: k in todo ==> k in reading && (before, k, reading[k]) in w.taken && Ahead(w, k, before, reading[k])
  }

  ghost predicate Invariant(w: World) {
    TakenCounted(w) && CursorsBooked(w) && Billed(w) && PhaseSound(w)
  }

  // ---------- Steps ----------

  /** The records of commits do not depend on what else happens. */
  lemma RecordsKept(w: World, w': World)
    requires CursorsBooked(w) && Billed(w)
    requires w'.db.xray == w.db.xray && w'.books.booked == w.books.booked && w'.books.billed == w.books.billed
    requires w.epoch <= w'.epoch && w.taken <= w'.taken
    ensures CursorsBooked(w') && Billed(w')
  {
    BilledKept(w, w');
  }

  lemma BilledKept(w: World, w': World)
    requires Billed(w) && w'.books.booked == w.books.booked && w'.books.billed == w.books.billed
    ensures Billed(w')
  {
    forall k, d ensures FlowOf(w'.books.billed, k).At(d) == Sum(Column(BookedOf(w', k), d)) {
      assert FlowOf(w.books.billed, k).At(d) == Sum(Column(BookedOf(w, k), d));
    }
  }

  lemma TrafficKeeps(w: World, key: CursorKey, bytes: Flow)
    requires Invariant(w) && w.up && !key.1.Unknown?
    ensures Invariant(Apply(w, Traffic(key, bytes)))
  {
    var w' := Apply(w, Traffic(key, bytes));
    RecordsKept(w, w');
    assert TakenCounted(w') by {
      forall e, k ensures Counted(w, e, k).AtMost(Counted(w', e, k)) {}
    }
    assert PhaseSound(w') by { SamePhase(w, w'); }
  }

  lemma SamePhase(w: World, w': World)
    requires PhaseSound(w) && w'.phase == w.phase && w'.epoch == w.epoch && w'.db.xray == w.db.xray &&
             w'.taken == w.taken
    ensures PhaseSound(w')
  {
    forall k, before, reading ensures Ahead(w', k, before, reading) == Ahead(w, k, before, reading) {}
  }

  lemma QueryAhead(w: World, k: CursorKey)
    requires Invariant(w) && k in Generation(w)
    ensures Ahead(w, k, w.epoch, Generation(w)[k])
  {
    if k in w.db.xray && w.db.xray[k].epoch == w.epoch {
      assert (w.epoch, k, w.books.booked[k][w.epoch]) in w.taken;
    }
  }

  lemma QueryKeeps(w: World)
    requires Invariant(w) && w.phase.Opened?
    ensures Invariant(Apply(w, Query))
  {
    var w' := Apply(w, Query);
    RecordsKept(w, w');
    assert TakenCounted(w') by {
      forall e, k ensures Counted(w', e, k) == Counted(w, e, k) {}
    }
    assert PhaseSound(w') by {
      if w.up && w.phase.before == w.epoch {
        forall k | k in w'.phase.reading
          ensures (w.epoch, k, w'.phase.reading[k]) in w'.taken && Ahead(w', k, w.epoch, w'.phase.reading[k])
        {
          QueryAhead(w, k);
        }
      }
    }
  }

  /** What a transaction does to cursors: it moves its own, or nothing when the account is gone. */
  lemma RecordMovesCursor(db: Db, key: CursorKey, reading: Flow, before: Epoch, date: Date, hour: Date, now: int)
    requires !key.1.Unknown?
    requires key in db.xray && db.xray[key].epoch == before ==> db.xray[key].counters.AtMost(reading)
    ensures XrayDelta(Lookup(db.xray, key), reading, before).Some?
    ensures var r := RecordXray(db, key.0, key.1, reading, before, date, hour, now);
            && r.Ok? && r.value.accounts.Keys == db.accounts.Keys
            && r.value.xray == if key.0 in db.accounts then db.xray[key := XrayCursor(before, reading)] else db.xray
  {
    assert (key.0, key.1) == key;
  }

  lemma NextReading(w: World)
    requires Invariant(w) && w.phase.Committing? && w.phase.todo != []
    ensures var key := w.phase.todo[0];
            && key in w.phase.reading && !key.1.Unknown? && (w.phase.before, key, w.phase.reading[key]) in w.taken
            && Ahead(w, key, w.phase.before, w.phase.reading[key])
  {
    assert w.phase.todo[0] in w.phase.todo;
  }

  /** Committed under its own generation, a reading never falls below the cursor it meets. */
  lemma CommitNeverRegresses(w: World, date: Date, hour: Date, now: int)
    requires Invariant(w) && w.phase.Committing? && w.phase.todo != []
    ensures var key := w.phase.todo[0];
            RecordXray(w.db, key.0, key.1, FlowOf(w.phase.reading, key), w.phase.before, date, hour, now).Ok?
  {
    NextReading(w);
    RecordMovesCursor(w.db, w.phase.todo[0], w.phase.reading[w.phase.todo[0]], w.phase.before, date, hour, now);
  }

  /** A delta measured against the cursor is the rise of the booked readings. */
  lemma DeltaIsRise(generations: map<Epoch, Flow>, previous: Option<XrayCursor>, before: Epoch, reading: Flow,
                    delta: Flow, d: Direction)
    requires XrayDelta(previous, reading, before) == Some(delta)
    requires previous.None? ==> generations == map[]
    requires previous.Some? ==>
               previous.value.epoch in generations && generations[previous.value.epoch] == previous.value.counters
    requires previous.Some? ==> previous.value.epoch <= before && forall e :: e in generations ==>
               e <= previous.value.epoch
    ensures Sum(Column(generations[before := reading], d)) == Sum(Column(generations, d)) + delta.At(d)
  {
    SumUpdate(Column(generations, d), before, reading.At(d));
    assert Column(generations[before := reading], d) == Column(generations, d)[before := reading.At(d)];
  }

  lemma NoteBills(w: World, key: CursorKey, before: Epoch, reading: Flow, delta: Flow, d: Direction)
    requires CursorsBooked(w) && Billed(w) && Ahead(w, key, before, reading)
    requires XrayDelta(Lookup(w.db.xray, key), reading, before) == Some(delta)
    ensures FlowOf(Note(w, key, before, reading, delta).books.billed, key).At(d)
         == Sum(Column(BookedOf(Note(w, key, before, reading, delta), key), d))
  {
    assert FlowOf(w.books.billed, key).At(d) == Sum(Column(BookedOf(w, key), d));
    DeltaIsRise(BookedOf(w, key), Lookup(w.db.xray, key), before, reading, delta, d);
  }

  /** `w'` follows `w` by booking `reading` for `key`. */
  ghost predicate Follows(w: World, w': World, key: CursorKey, before: Epoch, reading: Flow, delta: Flow) {
    && XrayDelta(Lookup(w.db.xray, key), reading, before) == Some(delta)
    && Ahead(w, key, before, reading) && (before, key, reading) in w.taken
    && w'.epoch == w.epoch && w'.counters == w.counters && w'.taken == w.taken
    && w'.books.booked == Note(w, key, before, reading, delta).books.booked
    && w'.books.billed == Note(w, key, before, reading, delta).books.billed
    && w'.db.xray == w.db.xray[key := XrayCursor(before, reading)]
  }

  lemma FollowingKeepsCursors(w: World, w': World, key: CursorKey, before: Epoch, reading: Flow, delta: Flow)
    requires CursorsBooked(w) && Follows(w, w', key, before, reading, delta) && before <= w.epoch
    ensures CursorsBooked(w')
  {
  }

  lemma FollowingKeepsBilled(w: World, w': World, key: CursorKey, before: Epoch, reading: Flow, delta: Flow)
    requires CursorsBooked(w) && Billed(w) && Follows(w, w', key, before, reading, delta)
    ensures Billed(w')
  {
    forall k, d ensures FlowOf(w'.books.billed, k).At(d) == Sum(Column(BookedOf(w', k), d)) {
      if k == key {
        NoteBills(w, key, before, reading, delta, d);
      } else {
        assert FlowOf(w.books.billed, k).At(d) == Sum(Column(BookedOf(w, k), d));
      }
    }
  }

  lemma FollowingKeepsPhase(w: World, w': World, key: CursorKey, before: Epoch, delta: Flow)
    requires PhaseSound(w) && w.phase.Committing? && w.phase.todo != [] && w.phase.todo[0] == key &&
             w.phase.before == before
    requires key in w.phase.reading && Follows(w, w', key, before, w.phase.reading[key], delta)
    requires w'.phase == Committing(before, w.phase.reading, w.phase.todo[1..])
    ensures PhaseSound(w')
  {
    forall k | k in w'.phase.todo
      ensures k in w'.phase.reading && (before, k, w'.phase.reading[k]) in w'.taken &&
              Ahead(w', k, before, w'.phase.reading[k])
    {
      assert k in w.phase.todo;
      assert Ahead(w, k, before, w.phase.reading[k]);
    }
  }

  lemma CommitKeeps(w: World, date: Date, hour: Date, now: int)
    requires Invariant(w) && w.phase.Committing? && w.phase.todo != []
    ensures Invariant(CommitNext(w, date, hour, now))
  {
    var w' := CommitNext(w, date, hour, now);
    var key, before := w.phase.todo[0], w.phase.before;
    NextReading(w);
    var reading := w.phase.reading[key];
    RecordMovesCursor(w.db, key, reading, before, date, hour, now);
    assert w'.epoch == w.epoch && w'.counters == w.counters && w'.taken == w.taken;
    CountsKept(w, w');
    if key.0 in w.db.accounts {
      var delta := XrayDelta(Lookup(w.db.xray, key), reading, before).value;
      FollowingKeepsCursors(w, w', key, before, reading, delta);
      FollowingKeepsBilled(w, w', key, before, reading, delta);
      FollowingKeepsPhase(w, w', key, before, delta);
    } else {
      RecordsKept(w, w');
      FewerToCommit(w, w');
    }
  }

  lemma CountsKept(w: World, w': World)
    requires TakenCounted(w) && w.epoch <= w'.epoch && w'.counters == w.counters && w'.taken == w.taken
    ensures TakenCounted(w')
  {
    forall e, k ensures Counted(w', e, k) == Counted(w, e, k) {}
  }

  lemma FewerToCommit(w: World, w': World)
    requires PhaseSound(w) && w.phase.Committing? && w.phase.todo != []
    requires w'.epoch == w.epoch && w'.db.xray == w.db.xray && w'.taken == w.taken
    requires w'.phase == Committing(w.phase.before, w.phase.reading, w.phase.todo[1..])
    ensures PhaseSound(w')
  {
    forall k | k in w'.phase.todo
      ensures k in w'.phase.reading && (w.phase.before, k, w'.phase.reading[k]) in w'.taken &&
              Ahead(w', k, w.phase.before, w'.phase.reading[k])
    {
      assert k in w.phase.todo;
      assert Ahead(w, k, w.phase.before, w.phase.reading[k]);
    }
  }

  /** Steps that touch neither the database nor any record of it. */
  lemma QuietKeeps(w: World, w': World)
    requires Invariant(w) && w' == w.(epoch := w'.epoch, up := w'.up, phase := w'.phase) && w.epoch <= w'.epoch
    requires PhaseSound(w')
    ensures Invariant(w')
  {
    CountsKept(w, w');
    RecordsKept(w, w');
  }

  /** Only a deletion touches Xray cursors. */
  lemma OtherCursors(db: Db, e: LedgerRuns.Event)
    requires !e.Xray?
    ensures LedgerRuns.Apply(db, e).xray == if e.Delete? then Dropped(db.xray, e.id) else db.xray
  {
  }

  lemma UntouchedKeeps(w: World, w': World)
    requires Invariant(w) && w'.epoch == w.epoch && w'.counters == w.counters && w'.taken == w.taken &&
             w'.phase == w.phase
    requires w'.db.xray == w.db.xray && w'.books.booked == w.books.booked && w'.books.billed == w.books.billed
    ensures Invariant(w')
  {
    CountsKept(w, w');
    RecordsKept(w, w');
    SamePhase(w, w');
  }

  lemma OtherKeeps(w: World, e: LedgerRuns.Event)
    requires Invariant(w) && !e.Xray?
    ensures Invariant(OtherNext(w, e))
  {
    OtherCursors(w.db, e);
    if e.Delete? { DeletionKeeps(w, OtherNext(w, e), e.id); } else { UntouchedKeeps(w, OtherNext(w, e)); }
  }

  lemma DeletionKeepsBilled(w: World, w': World, id: UserId)
    requires Billed(w) && w'.books.booked == Dropped(w.books.booked, id) &&
             w'.books.billed == Dropped(w.books.billed, id)
    ensures Billed(w')
  {
    forall k, d ensures FlowOf(w'.books.billed, k).At(d) == Sum(Column(BookedOf(w', k), d)) {
      if k.0 == id {
        SumOfZeros(Column(BookedOf(w', k), d));
      } else {
        assert FlowOf(w.books.billed, k).At(d) == Sum(Column(BookedOf(w, k), d));
        assert BookedOf(w', k) == BookedOf(w, k) && FlowOf(w'.books.billed, k) == FlowOf(w.books.billed, k);
      }
    }
  }

  lemma DeletionKeepsPhase(w: World, w': World, id: UserId)
    requires PhaseSound(w) && w'.db.xray == Dropped(w.db.xray, id) && w'.epoch == w.epoch && w'.taken == w.taken &&
             w'.phase == w.phase
    ensures PhaseSound(w')
  {
    forall k, before, reading | Ahead(w, k, before, reading) ensures Ahead(w', k, before, reading) {}
  }

  /** A deleted account takes its cursors and its records with it. */
  lemma DeletionKeeps(w: World, w': World, id: UserId)
    requires Invariant(w) && w'.epoch == w.epoch && w'.counters == w.counters && w'.taken == w.taken &&
             w'.phase == w.phase
    requires w'.db.xray == Dropped(w.db.xray, id) && w'.books.booked == Dropped(w.books.booked, id) &&
             w'.books.billed == Dropped(w.books.billed, id)
    ensures Invariant(w')
  {
    CountsKept(w, w');
    DeletionKeepsBilled(w, w', id);
    DeletionKeepsPhase(w, w', id);
  }

  lemma StepKeeps(w: World, s: Step)
    requires Invariant(w) && Enabled(w, s)
    ensures Invariant(Apply(w, s))
  {
    match s
    case Traffic(key, bytes) => TrafficKeeps(w, key, bytes);
    case Query => QueryKeeps(w);
    case Commit(date, hour, now) => CommitKeeps(w, date, hour, now);
    case Other(e) => OtherKeeps(w, e);
    case _ => QuietKeeps(w, Apply(w, s));
  }

  // ---------- Accounts ----------

  function BilledTo(w: World, id: UserId, t: Transport): Flow {
    FlowOf(w.books.since, (id, t))
  }

  /** The columns of an account are what was billed to its three transports and over IKE since its last reset. */
  predicate Matches(b: Balance, direct: Flow, netlify: Flow, iran: Flow, ike: Flow) {
    && b.xray == direct.up + direct.down + netlify.up + netlify.down + iran.up + iran.down
    && b.total == b.xray + ike.up + ike.down
    && b.netlify == netlify.up + netlify.down && b.iran == iran.up + iran.down
    && b.upload == direct.up + netlify.up + iran.up + ike.up
    && b.download == direct.down + netlify.down + iran.down + ike.down
  }

  predicate AccountAgrees(w: World, id: UserId)
    requires id in w.db.accounts
  {
    Matches(w.db.accounts[id].balance, BilledTo(w, id, Direct), BilledTo(w, id, Netlify), BilledTo(w, id, Iran),
            FlowOf(w.books.ike, id))
  }

  /** Every account agrees, and only accounts have anything on record. */
  ghost predicate AccountsAgree(w: World) {
    && (forall id :: id in w.db.accounts ==> AccountAgrees(w, id))
    && (forall k :: k in w.books.since ==> k.0 in w.db.accounts)
    && (forall id :: id in w.books.ike ==> id in w.db.accounts)
  }

  /** Charging one transport moves its own column and the shared ones. */
  lemma ChargedMatches(b: Balance, direct: Flow, netlify: Flow, iran: Flow, ike: Flow, t: Transport, delta: Flow)
    requires !t.Unknown? && Matches(b, direct, netlify, iran, ike)
    ensures Matches(XrayBalance(b, t, delta), if t.Direct? then direct.Plus(delta) else direct,
                    if t.Netlify? then netlify.Plus(delta) else netlify, if t.Iran? then iran.Plus(delta)
                                                                         else iran, ike)
  {
  }

  lemma NoteBilledTo(w: World, key: CursorKey, before: Epoch, reading: Flow, delta: Flow, id: UserId, t: Transport)
    ensures BilledTo(Note(w, key, before, reading, delta), id, t) ==
            if id == key.0 && t == key.1 then BilledTo(w, id, t).Plus(delta) else BilledTo(w, id, t)
  {
    assert (id, t) == key <==> id == key.0 && t == key.1;
  }

  lemma NoteMatches(w: World, key: CursorKey, before: Epoch, reading: Flow, delta: Flow, id: UserId, b: Balance)
    requires !key.1.Unknown? &&
             Matches(b, BilledTo(w, id, Direct), BilledTo(w, id, Netlify), BilledTo(w, id, Iran),
                     FlowOf(w.books.ike, id))
    ensures var w' := Note(w, key, before, reading, delta);
            Matches(if id == key.0 then XrayBalance(b, key.1, delta) else b,
                    BilledTo(w', id, Direct), BilledTo(w', id, Netlify), BilledTo(w', id, Iran),
                      FlowOf(w'.books.ike, id))
  {
    ChargedMatches(b, BilledTo(w, id, Direct), BilledTo(w, id, Netlify), BilledTo(w, id, Iran),
                   FlowOf(w.books.ike, id), key.1, delta);
    NoteBilledTo(w, key, before, reading, delta, id, Direct);
    NoteBilledTo(w, key, before, reading, delta, id, Netlify);
    NoteBilledTo(w, key, before, reading, delta, id, Iran);
  }

  lemma RecordCharges(db: Db, key: CursorKey, reading: Flow, before: Epoch, date: Date, hour: Date, now: int,
                      id: UserId)
    requires !key.1.Unknown? && key.0 in db.accounts && id in db.accounts
    requires RecordXray(db, key.0, key.1, reading, before, date, hour, now).Ok?
    ensures var r := RecordXray(db, key.0, key.1, reading, before, date, hour, now).value;
            var delta := XrayDelta(Lookup(db.xray, key), reading, before);
            && delta.Some? && id in r.accounts
            && r.accounts[id].balance ==
              if id == key.0 then XrayBalance(db.accounts[id].balance, key.1, delta.value) else db.accounts[id].balance
  {
    assert (key.0, key.1) == key;
  }

  lemma CommitAgrees(w: World, date: Date, hour: Date, now: int)
    requires Invariant(w) && AccountsAgree(w) && w.phase.Committing? && w.phase.todo != []
    ensures AccountsAgree(CommitNext(w, date, hour, now))
  {
    var w' := CommitNext(w, date, hour, now);
    var key, before := w.phase.todo[0], w.phase.before;
    NextReading(w);
    var reading := w.phase.reading[key];
    RecordMovesCursor(w.db, key, reading, before, date, hour, now);
    if key.0 in w.db.accounts {
      var delta := XrayDelta(Lookup(w.db.xray, key), reading, before).value;
      assert w'.books.since == Note(w, key, before, reading, delta).books.since && w'.books.ike == w.books.ike;
      forall id | id in w'.db.accounts ensures AccountAgrees(w', id) {
        RecordCharges(w.db, key, reading, before, date, hour, now, id);
        assert AccountAgrees(w, id);
        NoteMatches(w, key, before, reading, delta, id, w.db.accounts[id].balance);
      }
    } else {
      SameBillsAgree(w, w');
    }
  }

  /** The account's balance and records are as before. */
  lemma KeptAgrees(w: World, w': World, id: UserId)
    requires id in w.db.accounts && id in w'.db.accounts && AccountAgrees(w, id)
    requires w'.db.accounts[id].balance == w.db.accounts[id].balance &&
             FlowOf(w'.books.ike, id) == FlowOf(w.books.ike, id)
    requires forall t: Transport :: BilledTo(w', id, t) == BilledTo(w, id, t)
    ensures AccountAgrees(w', id)
  {
  }

  lemma SameBillsAgree(w: World, w': World)
    requires AccountsAgree(w) && w'.db.accounts == w.db.accounts && w'.books.since == w.books.since &&
             w'.books.ike == w.books.ike
    ensures AccountsAgree(w')
  {
    SameBalancesAgree(w, w');
  }

  /** Balances and bills kept, though other columns of the accounts may move. */
  lemma SameBalancesAgree(w: World, w': World)
    requires AccountsAgree(w) && w'.books.since == w.books.since && w'.books.ike == w.books.ike
    requires forall id :: id in w'.db.accounts <==> id in w.db.accounts
    requires forall id :: id in w.db.accounts ==> w'.db.accounts[id].balance == w.db.accounts[id].balance
    ensures AccountsAgree(w')
  {
    forall id | id in w'.db.accounts ensures AccountAgrees(w', id) { KeptAgrees(w, w', id); }
  }

  lemma NothingMatches(b: Balance, direct: Flow, netlify: Flow, iran: Flow, ike: Flow)
    requires b.total == b.upload == b.download == b.xray == b.netlify == b.iran == 0
    requires direct.up == direct.down == netlify.up == netlify.down == iran.up == iran.down == ike.up == ike.down == 0
    ensures Matches(b, direct, netlify, iran, ike)
  {
  }

  /** An empty account without records. */
  lemma EmptyAgrees(w: World, id: UserId)
    requires id in w.db.accounts && w.db.accounts[id].balance == NO_USAGE && id !in w.books.ike
    requires forall k :: k in w.books.since ==> k.0 != id
    ensures AccountAgrees(w, id)
  {
    NothingBilled(w, id, Direct);
    NothingBilled(w, id, Netlify);
    NothingBilled(w, id, Iran);
    NothingMatches(w.db.accounts[id].balance, BilledTo(w, id, Direct), BilledTo(w, id, Netlify),
                   BilledTo(w, id, Iran), FlowOf(w.books.ike, id));
  }

  lemma NothingBilled(w: World, id: UserId, t: Transport)
    requires forall k :: k in w.books.since ==> k.0 != id
    ensures BilledTo(w, id, t) == NO_FLOW
  {
    assert (id, t).0 == id;
  }

  lemma DroppedBilledTo(w: World, w': World, id: UserId, other: UserId, t: Transport)
    requires w'.books.since == Dropped(w.books.since, other) && id != other
    ensures BilledTo(w', id, t) == BilledTo(w, id, t)
  {
    assert (id, t).0 == id;
  }

  /** One account's records are dropped, and its balance is empty or gone. */
  lemma DroppedAgrees(w: World, w': World, id: UserId)
    requires AccountsAgree(w) && w'.books.since == Dropped(w.books.since, id) && w'.books.ike == w.books.ike - {id}
    requires forall k :: k != id ==> (k in w'.db.accounts <==> k in w.db.accounts)
    requires forall k :: k in w'.db.accounts && k != id ==> w'.db.accounts[k].balance == w.db.accounts[k].balance
    requires id in w'.db.accounts ==> w'.db.accounts[id].balance == NO_USAGE
    ensures AccountsAgree(w')
  {
    forall k | k in w'.db.accounts ensures AccountAgrees(w', k) {
      if k == id {
        EmptyAgrees(w', k);
      } else {
        forall t: Transport { DroppedBilledTo(w, w', k, id, t); }
        KeptAgrees(w, w', k);
      }
    }
  }

  lemma IkeMatches(b: Balance, direct: Flow, netlify: Flow, iran: Flow, ike: Flow, flow: Flow, b': Balance)
    requires Matches(b, direct, netlify, iran, ike)
    requires b'.total == b.total + flow.up + flow.down && b'.upload == b.upload + flow.up &&
             b'.download == b.download + flow.down
    requires b'.xray == b.xray && b'.netlify == b.netlify && b'.iran == b.iran
    ensures Matches(b', direct, netlify, iran, ike.Plus(flow))
  {
  }

  /** What an IKE record does to balances. */
  lemma IkeCharges(db: Db, e: LedgerRuns.Event)
    requires e.Ike? && e.id in db.accounts
    ensures var db' := LedgerRuns.Apply(db, e);
            var flow := Bill(e.session, Lookup(db.snapshots, e.session.ikeId), e.id, e.pollMs).flow;
            && db'.accounts.Keys == db.accounts.Keys
            && (forall k :: k in db.accounts && k != e.id ==> db'.accounts[k].balance == db.accounts[k].balance)
            && var b, b' := db.accounts[e.id].balance, db'.accounts[e.id].balance;
               && b'.total == b.total + flow.up + flow.down && b'.upload == b.upload + flow.up &&
                 b'.download == b.download + flow.down
               && b'.xray == b.xray && b'.netlify == b.netlify && b'.iran == b.iran
  {
  }

  lemma ChargedAgrees(w: World, w': World, id: UserId, flow: Flow)
    requires id in w.db.accounts && id in w'.db.accounts && AccountAgrees(w, id)
    requires forall t: Transport :: BilledTo(w', id, t) == BilledTo(w, id, t)
    requires FlowOf(w'.books.ike, id) == FlowOf(w.books.ike, id).Plus(flow)
    requires var b, b' := w.db.accounts[id].balance, w'.db.accounts[id].balance;
             && b'.total == b.total + flow.up + flow.down && b'.upload == b.upload + flow.up &&
               b'.download == b.download + flow.down
             && b'.xray == b.xray && b'.netlify == b.netlify && b'.iran == b.iran
    ensures AccountAgrees(w', id)
  {
    IkeMatches(w.db.accounts[id].balance, BilledTo(w, id, Direct), BilledTo(w, id, Netlify), BilledTo(w, id, Iran),
               FlowOf(w.books.ike, id), flow,
               w'.db.accounts[id].balance);
  }

  /** What an IKE record does to the books. */
  lemma IkeBooks(w: World, e: LedgerRuns.Event, k: UserId)
    requires e.Ike? && e.id in w.db.accounts
    ensures var w' := OtherNext(w, e);
            && w'.books.since == w.books.since && w'.db == LedgerRuns.Apply(w.db, e)
            && (forall t: Transport :: BilledTo(w', k, t) == BilledTo(w, k, t))
            && w'.books.ike.Keys == w.books.ike.Keys + {e.id}
            && FlowOf(w'.books.ike, k) ==
               if k == e.id then FlowOf(w.books.ike,
                                        k).Plus(Bill(e.session, Lookup(w.db.snapshots, e.session.ikeId), e.id,
                                                     e.pollMs).flow)
               else FlowOf(w.books.ike, k)
  {
  }

  /** An IKE record adds to the shared columns and leaves Xray's alone. */
  lemma IkeAgrees(w: World, e: LedgerRuns.Event)
    requires AccountsAgree(w) && e.Ike? && e.id in w.db.accounts
    ensures AccountsAgree(OtherNext(w, e))
  {
    var w' := OtherNext(w, e);
    IkeCharges(w.db, e);
    IkeBooks(w, e, e.id);
    forall k | k in w'.db.accounts ensures AccountAgrees(w', k) {
      assert AccountAgrees(w, k);
      IkeBooks(w, e, k);
      if k == e.id {
        ChargedAgrees(w, w', k, Bill(e.session, Lookup(w.db.snapshots, e.session.ikeId), e.id, e.pollMs).flow);
      } else {
        KeptAgrees(w, w', k);
      }
    }
  }

  lemma NothingToDrop(w: World, id: UserId)
    requires AccountsAgree(w) && id !in w.db.accounts
    ensures w.books.since == Dropped(w.books.since, id) && w.books.ike == w.books.ike - {id}
  {
  }

  lemma UnknownIkeAgrees(w: World, e: LedgerRuns.Event)
    requires AccountsAgree(w) && e.Ike? && e.id !in w.db.accounts
    ensures AccountsAgree(OtherNext(w, e))
  {
    SameBillsAgree(w, OtherNext(w, e));
  }

  lemma OtherAgrees(w: World, e: LedgerRuns.Event)
    requires AccountsAgree(w) && !e.Xray?
    ensures AccountsAgree(OtherNext(w, e))
  {
    if e.Ike? {
      if e.id in w.db.accounts { IkeAgrees(w, e); } else { UnknownIkeAgrees(w, e); }
    } else if e.Reset? || e.Delete? {
      DroppedAgrees(w, OtherNext(w, e), e.id);
    } else {
      RestAgrees(w, e);
    }
  }

  lemma RestAgrees(w: World, e: LedgerRuns.Event)
    requires AccountsAgree(w) && !e.Xray? && !e.Ike? && !e.Reset? && !e.Delete?
    ensures AccountsAgree(OtherNext(w, e))
  {
    RestBalances(w.db, e);
    if e.Provision? && e.id !in w.db.accounts {
      NothingToDrop(w, e.id);
      DroppedAgrees(w, OtherNext(w, e), e.id);
    } else {
      SameBalancesAgree(w, OtherNext(w, e));
    }
  }

  /** The remaining transactions leave balances alone, and a new account starts at zero. */
  lemma RestBalances(db: Db, e: LedgerRuns.Event)
    requires !e.Xray? && !e.Ike? && !e.Reset? && !e.Delete?
    ensures var db' := LedgerRuns.Apply(db, e);
            && (forall k :: k in db.accounts ==> k in db'.accounts && db'.accounts[k].balance == db.accounts[k].balance)
            && (forall k :: k in db'.accounts ==> k in db.accounts || (e.Provision? && k == e.id))
            && (e.Provision? && e.id !in db.accounts ==> e.id in db'.accounts && db'.accounts[e.id].balance == NO_USAGE)
  {
  }

  // ---------- Runs ----------

  predicate Initial(w: World) {
    && w.db.xray == map[] && w.phase.Idle? && w.counters == map[] && w.taken == {} && w.books.booked == map[] &&
      w.books.billed == map[] && w.books.since == map[] && w.books.ike == map[]
    && forall id :: id in w.db.accounts ==> w.db.accounts[id].balance == NO_USAGE
  }

  predicate Run(w: World, steps: seq<Step>)
    decreases |steps|
  {
    steps == [] || (Enabled(w, steps[0]) && Run(Apply(w, steps[0]), steps[1..]))
  }

  function End(w: World, steps: seq<Step>): World
    requires Run(w, steps)
    decreases |steps|
  {
    if steps == [] then w else End(Apply(w, steps[0]), steps[1..])
  }

  lemma CollectionOnly(w: World, s: Step)
    requires Enabled(w, s) && !s.Commit? && !s.Other?
    ensures Apply(w, s).db == w.db && Apply(w, s).books == w.books
  {
  }

  lemma StepAgrees(w: World, s: Step)
    requires Invariant(w) && AccountsAgree(w) && Enabled(w, s)
    ensures AccountsAgree(Apply(w, s))
  {
    match s {
      case Commit(date, hour, now) => CommitAgrees(w, date, hour, now);
      case Other(e) => OtherAgrees(w, e);
      case _ =>
        CollectionOnly(w, s);
        SameBillsAgree(w, Apply(w, s));
    }
  }

  lemma {:induction false} RunKeeps(w: World, steps: seq<Step>)
    requires Run(w, steps) && Invariant(w) && AccountsAgree(w)
    ensures Invariant(End(w, steps)) && AccountsAgree(End(w, steps))
    decreases |steps|
  {
    if steps != [] {
      StepKeeps(w, steps[0]);
      StepAgrees(w, steps[0]);
      RunKeeps(Apply(w, steps[0]), steps[1..]);
    }
  }

  lemma InitialBilled(w: World)
    requires Initial(w)
    ensures Billed(w)
  {
    forall k, d ensures FlowOf(w.books.billed, k).At(d) == Sum(Column(BookedOf(w, k), d)) {
      SumOfZeros(Column(BookedOf(w, k), d));
    }
  }

  lemma InitialInvariant(w: World)
    requires Initial(w)
    ensures TakenCounted(w) && CursorsBooked(w) && PhaseSound(w)
  {
  }

  /** What each generation truly counted for a key. */
  function Carried(w: World, key: CursorKey): map<Epoch, Flow> {
    map e | e in w.counters :: Counted(w, e, key)
  }

  /**
   * Over any run: a reading is booked under the generation it was taken from; the bill of an account
   * and transport is the sum over generations of the last committed reading, at most the true traffic;
   * the account columns are the bills since the last reset, IKE's included; and the next transaction
   * does not see a counter fall.
   */
  lemma BillIsLastReadings(w: World, steps: seq<Step>)
    requires Initial(w) && Run(w, steps)
    ensures var end := End(w, steps);
            && (forall k, e :: k in end.books.booked && e in end.books.booked[k] ==>
                (e, k, end.books.booked[k][e]) in end.taken)
            && (forall k, d: Direction :: FlowOf(end.books.billed, k).At(d) == Sum(Column(BookedOf(end, k), d))
                                          && Sum(Column(BookedOf(end, k), d)) <= Sum(Column(Carried(end, k), d)))
            && AccountsAgree(end)
            && (forall date, hour, now :: Enabled(end, Commit(date, hour, now)) ==>
                CommitNext(end, date, hour, now).phase.Committing?)
  {
    InitialInvariant(w);
    InitialBilled(w);
    forall id | id in w.db.accounts ensures AccountAgrees(w, id) { EmptyAgrees(w, id); }
    RunKeeps(w, steps);
    var end := End(w, steps);
    forall k, d: Direction
      ensures FlowOf(end.books.billed, k).At(d) == Sum(Column(BookedOf(end, k), d))
              && Sum(Column(BookedOf(end, k), d)) <= Sum(Column(Carried(end, k), d))
    {
      SumAtMost(Column(BookedOf(end, k), d), Column(Carried(end, k), d));
    }
    forall date, hour,
      now | Enabled(end, Commit(date, hour, now)) ensures CommitNext(end, date, hour, now).phase.Committing? {
      CommitNeverRegresses(end, date, hour, now);
    }
  }
}
