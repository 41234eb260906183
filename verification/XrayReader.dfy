/**
 * One serialized collection of Xray usage as the backend performs it, in place, and the steps of the
 * collector's world that it amounts to.
 */
module XrayReader {
  import opened Sums
  import opened IkeCounters
  import opened Ledger
  import opened XrayCollector

  /** What a foreign call gave back, or that it failed. */
  datatype Answer<+T> = Broken | Got(value: T)

  /** The answers of the epoch helper (None is "stopped") around the statistics query, already sorted. */
  datatype Calls = Calls(available: bool, before: Answer<Option<Epoch>>, stats: Answer<seq<(CursorKey, Flow)>>,
                         after: Answer<Option<Epoch>>,
                         date: Date, hour: Date, clock: nat -> int, failing: set<nat>)

  /** One transaction for each entry from the i-th on; the first error ends the loop and keeps what was committed. */
  function CommitAll(db: Db, entries: seq<(CursorKey, Flow)>, i: nat, before: Epoch, calls: Calls): (Db, bool)
    requires i <= |entries|
    decreases |entries| - i
  {
    if i == |entries| then (db, true)
    else if i in calls.failing then (db, false)
    else
      var key, reading := entries[i].0, entries[i].1;
      var r := RecordXray(db, key.0, key.1, reading, before, calls.date, calls.hour, calls.clock(i));
      if r.Err? then (db, false) else CommitAll(r.value, entries, i + 1, before, calls)
  }

  /** Nothing to collect, without an error. */
  predicate Quiet(installed: bool, calls: Calls) {
    (!installed && !calls.available) || calls.before == Got(None)
  }

  /** The same process answered before and after the statistics. */
  predicate OneGeneration(calls: Calls) {
    calls.before.Got? && calls.before.value.Some? && calls.stats.Got? && calls.after == calls.before
  }

  class Reader {
    var installed: bool
    var usageFailed: bool
    var lastUsageAt: Option<int>

    constructor ()
      ensures !installed && !usageFailed && lastUsageAt == None
    {
      installed, usageFailed, lastUsageAt := false, false, None;
    }

    method CommitEach(database: Database, entries: seq<(CursorKey, Flow)>, before: Epoch, calls: Calls)
      returns (ok: bool)
      modifies database
      ensures (database.State(), ok) == CommitAll(old(database.State()), entries, 0, before, calls)
    {
      var i := 0;
      while i < |entries|
        invariant 0 <= i <= |entries|
        invariant CommitAll(database.State(), entries, i, before, calls) ==
                  CommitAll(old(database.State()), entries, 0, before, calls)
      {
        if i in calls.failing { return false; }
        var key, reading := entries[i].0, entries[i].1;
        var error := database.RecordXrayCounters(key.0, key.1, reading, before, calls.date, calls.hour, calls.clock(i));
        if error.Some? { return false; }
        i := i + 1;
      }
      return true;
    }

    /** Usage is committed only when one process generation answered throughout; a failure is remembered. */
    method CollectXrayUsage(database: Database, calls: Calls, now: int) returns (ok: bool)
      modifies this, database
      ensures installed == (old(installed) || calls.available)
      ensures Quiet(old(installed), calls) ==>
                ok && database.State() == old(database.State()) && lastUsageAt == old(lastUsageAt) &&
                  usageFailed == old(usageFailed)
      ensures !Quiet(old(installed), calls) && !OneGeneration(calls) ==>
                !ok && database.State() == old(database.State())
      ensures !Quiet(old(installed), calls) && OneGeneration(calls) ==>
                (database.State(), ok) ==
                  CommitAll(old(database.State()), calls.stats.value, 0, calls.before.value.value, calls)
      ensures ok && !Quiet(old(installed), calls) ==> lastUsageAt == Some(now) && !usageFailed
      ensures !ok ==> usageFailed && lastUsageAt == old(lastUsageAt)
      ensures database.State() != old(database.State()) ==> calls.after == calls.before && calls.before != Got(None)
    {
      ok := true;
      if !installed {
        installed := calls.available;
        if !installed { return; }
      }
      if calls.before == Got(None) { return; }
      if calls.before.Broken? || calls.stats.Broken? || calls.after.Broken? || calls.after.value != calls.before.value {
        usageFailed := true;
        return false;
      }
      ok := CommitEach(database, calls.stats.value, calls.before.value.value, calls);
      if ok {
        lastUsageAt := Some(now);
        usageFailed := false;
      } else {
        usageFailed := true;
      }
    }
  }

  // ---------- One generation throughout ----------

  /** What the epoch helper answers. */
  function Answered(w: World): Answer<Option<Epoch>> { Got(if w.up then Some(w.epoch) else None) }

  /** The statistics are those of the running process. */
  predicate Taken(w: World, stats: Answer<seq<(CursorKey, Flow)>>) {
    stats.Got? ==>
      w.up && forall i :: 0 <= i < |stats.value| ==>
          stats.value[i].0 in Generation(w) && stats.value[i].1 == Generation(w)[stats.value[i].0]
  }

  lemma {:induction false} EpochRises(w: World, steps: seq<Step>)
    requires Run(w, steps)
    ensures w.epoch <= End(w, steps).epoch
    decreases |steps|
  {
    if steps != [] { EpochRises(Apply(w, steps[0]), steps[1..]); }
  }

  /**
   * Whatever happens between the three calls: the statistics that are committed, under the generation that
   * answered first, are the counters of that generation.
   */
  lemma CommittedFromOneGeneration(w: World, toStats: seq<Step>, toAfter: seq<Step>, calls: Calls)
    requires Run(w, toStats) && Run(End(w, toStats), toAfter)
    requires var asked := End(w, toStats);
             calls.before == Answered(w) && Taken(asked, calls.stats) && calls.after == Answered(End(asked, toAfter))
    requires OneGeneration(calls)
    ensures var asked, before := End(w, toStats), calls.before.value.value;
            && asked.epoch == before
            && forall i :: 0 <= i < |calls.stats.value| ==>
                 calls.stats.value[i].1 == Counted(asked, before, calls.stats.value[i].0)
  {
    EpochRises(w, toStats);
    EpochRises(End(w, toStats), toAfter);
  }

  /** The keys still to be committed. */
  function Keys(entries: seq<(CursorKey, Flow)>): seq<CursorKey> {
    if entries == [] then [] else [entries[0].0] + Keys(entries[1..])
  }

  predicate Readings(entries: seq<(CursorKey, Flow)>, reading: map<CursorKey, Flow>) {
    forall i :: 0 <= i < |entries| ==> entries[i].0 in reading && reading[entries[i].0] == entries[i].1
  }

  lemma RunCommit(w: World, s: Step, rest: seq<Step>)
    requires Enabled(w, s) && Run(Apply(w, s), rest)
    ensures Run(w, [s] + rest) && End(w, [s] + rest) == End(Apply(w, s), rest)
  {
    assert ([s] + rest)[1..] == rest;
  }

  /** The commit loop is a run of the collector's world, so every statement about its runs is one about the loop. */
  lemma {:induction false} LoopIsRun(w: World, entries: seq<(CursorKey, Flow)>, i: nat, before: Epoch, calls: Calls)
    returns (steps: seq<Step>)
    requires i <= |entries| && w.phase.Committing? && w.phase.before == before && w.phase.todo == Keys(entries[i..])
    requires Readings(entries, w.phase.reading)
    ensures Run(w, steps) && End(w, steps).db == CommitAll(w.db, entries, i, before, calls).0
    ensures CommitAll(w.db, entries, i, before, calls).1 ==>
              End(w, steps).phase == Committing(before, w.phase.reading, [])
    decreases |entries| - i
  {
    steps := [];
    if i < |entries| && i !in calls.failing {
      assert entries[i..][1..] == entries[i + 1..];
      var s := Commit(calls.date, calls.hour, calls.clock(i));
      var next := Apply(w, s);
      if next.phase.Committing? {
        steps := LoopIsRun(next, entries, i + 1, before, calls);
        RunCommit(w, s, steps);
        steps := [s] + steps;
      }
    }
  }

  /** A loop that ends without an error leaves every reading of a known account as its cursor. */
  lemma {:induction false} EveryReadingIsCommitted(db: Db, entries: seq<(CursorKey, Flow)>, i: nat, before: Epoch,
                                                   calls: Calls)
    requires forall j, k :: 0 <= j < k < |entries| ==> entries[j].0 != entries[k].0
    requires i <= |entries| && CommitAll(db, entries, i, before, calls).1
    ensures var end := CommitAll(db, entries, i, before, calls).0;
            && end.accounts.Keys == db.accounts.Keys
            && (forall j :: i <= j < |entries| && entries[j].0.0 in db.accounts ==>
                              entries[j].0 in end.xray && end.xray[entries[j].0] == XrayCursor(before, entries[j].1))
            && (forall k :: (forall j :: i <= j < |entries| ==> entries[j].0 != k) ==>
                Lookup(end.xray, k) == Lookup(db.xray, k))
    decreases |entries| - i
  {
    if i < |entries| {
      var key, reading := entries[i].0, entries[i].1;
      var r := RecordXray(db, key.0, key.1, reading, before, calls.date, calls.hour, calls.clock(i));
      EveryReadingIsCommitted(r.value, entries, i + 1, before, calls);
      assert Lookup(CommitAll(db, entries, i, before, calls).0.xray, key) == Lookup(r.value.xray, key);
    }
  }
}
