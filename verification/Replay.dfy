/** The replay guard: an evicting nonce cache, and the full history it stands for. */
module Replay {
  import opened Base

  // ---- The guard -----------------------------------------------------------------------------

  function Evict(seen: map<string, int>, now: int, retention: int): map<string, int> {
    map k | k in seen && now - seen[k] <= retention :: seen[k]
  }

  function AcceptStep(seen: map<string, int>, key: string, now: int, retention: int): (map<string, int>, bool) {
    var kept := Evict(seen, now, retention);
    if key in kept then (kept, false) else (kept[key := now], true)
  }

  class ReplayGuard {
    var seen: map<string, int>
    const maxAge: int

    constructor (maxAge: int)
      ensures this.maxAge == maxAge && seen == map[]
    {
      this.maxAge := maxAge;
      seen := map[];
    }

    method Accept(key: string, now: int) returns (ok: bool)
      modifies this
      ensures (seen, ok) == AcceptStep(old(seen), key, now, 2 * maxAge)
    {
      var todo := seen.Keys;
      while todo != {}
        invariant todo <= old(seen).Keys
        invariant seen == map k | k in old(seen) && (k in todo || now - old(seen)[k] <= 2 * maxAge) :: old(seen)[k]
      {
        var candidate :| candidate in todo;
        if now - seen[candidate] > maxAge * 2 {
          seen := seen - {candidate};
        }
        todo := todo - {candidate};
      }
      assert seen == Evict(old(seen), now, 2 * maxAge);
      if key in seen {
        return false;
      }
      seen := seen[key := now];
      ok := true;
    }
  }

  // ---- The history it refines ----------------------------------------------------------------

  /** One call of Accept, or one call that succeeded. */
  datatype Event = Event(key: string, time: int)

  ghost predicate Monotone(calls: seq<Event>) {
    forall i, j :: 0 <= i <= j < |calls| ==> calls[i].time <= calls[j].time
  }

  ghost predicate Recent(log: seq<Event>, key: string, now: int, retention: int) {
    exists i :: 0 <= i < |log| && log[i].key == key && now - log[i].time <= retention
  }

  /** The acceptances a guard that forgets nothing would make: `key` passes when it did not pass lately. */
  ghost function Accepted(calls: seq<Event>, retention: int): seq<Event> {
    if calls == [] then [] else
      var log := Accepted(calls[..|calls| - 1], retention);
      var call := calls[|calls| - 1];
      if Recent(log, call.key, call.time, retention) then log else log + [call]
  }

  function SeenAfter(calls: seq<Event>, retention: int): map<string, int> {
    if calls == [] then map[] else
      var call := calls[|calls| - 1];
      AcceptStep(SeenAfter(calls[..|calls| - 1], retention), call.key, call.time, retention).0
  }

  /** The cache is the part of the history that is at most `retention` old at `now`. */
  ghost predicate Holds(seen: map<string, int>, log: seq<Event>, now: int, retention: int) {
    && (forall i :: 0 <= i < |log| ==> log[i].time <= now)
    && (forall i :: 0 <= i < |log| && now - log[i].time <= retention ==> log[i].key in seen && seen[log[i].key] == log[i].time)
    && (forall k :: k in seen ==> now - seen[k] <= retention && Event(k, seen[k]) in log)
  }

  /** One step: the decision is the history's decision, and the cache is again exactly the recent history. */
  lemma AcceptRefines(seen: map<string, int>, log: seq<Event>, last: int, key: string, now: int, retention: int)
    requires Holds(seen, log, last, retention) && last <= now && retention >= 0
    ensures var (after, ok) := AcceptStep(seen, key, now, retention);
      && ok == !Recent(log, key, now, retention)
      && Holds(after, if ok then log + [Event(key, now)] else log, now, retention)
  {
    var kept := Evict(seen, now, retention);
    if key in kept {
      assert Event(key, seen[key]) in log;
      assert Recent(log, key, now, retention);
    }
    var log' := log + [Event(key, now)];
    assert forall e :: e in log ==> e in log';
    assert log'[|log|] == Event(key, now);
    assert Event(key, now) in log';
  }

  /**
   * Whole runs: with a nondecreasing clock the evicting guard makes the decisions of the guard that forgets
   * nothing, and after a call its map holds precisely the keys accepted in the window that ends at that call.
   */
  lemma {:induction false} GuardRefinesHistory(calls: seq<Event>, retention: int)
    requires Monotone(calls) && calls != [] && retention >= 0
    ensures var n := |calls| - 1;
      var call := calls[n];
      && AcceptStep(SeenAfter(calls[..n], retention), call.key, call.time, retention).1
         == !Recent(Accepted(calls[..n], retention), call.key, call.time, retention)
      && Holds(SeenAfter(calls, retention), Accepted(calls, retention), call.time, retention)
  {
    var n := |calls| - 1;
    var call, before := calls[n], calls[..n];
    if n > 0 {
      GuardRefinesHistory(before, retention);
      AcceptRefines(SeenAfter(before, retention), Accepted(before, retention), before[n - 1].time, call.key, call.time, retention);
    } else {
      assert before == [];
      AcceptRefines(map[], [], call.time, call.key, call.time, retention);
    }
  }

  /** The clock hypothesis is needed: after a step back, an evicted key passes a second time. */
  lemma StepBackReadmits(retention: int)
    requires retention >= 0
    ensures var calls := [Event("a", 0), Event("b", retention + 1), Event("a", 0)];
      && AcceptStep(SeenAfter(calls[..2], retention), "a", 0, retention).1
      && Recent(Accepted(calls[..2], retention), "a", 0, retention)
  {
    var a, b := Event("a", 0), Event("b", retention + 1);
    var calls := [a, b, Event("a", 0)];
    assert calls[..2] == [a, b];
    assert [a, b][..1] == [a] && [a][..0] == [];
    assert SeenAfter([a], retention) == map["a" := 0];
    assert SeenAfter([a, b], retention) == map["b" := retention + 1];
    assert Accepted([a], retention) == [a];
    var log := Accepted([a, b], retention);
    assert log[0] == a;
  }

  // ---- Replay safety -------------------------------------------------------------------------

  /** The time window of Verify. */
  predicate InWindow(timestamp: int, now: int, maxAge: int) {
    -maxAge <= now - timestamp <= maxAge
  }

  /** Calls `i` and `j` present one signed message, both inside its window, and the guard lets both pass. */
  ghost predicate AcceptedTwice(calls: seq<Event>, i: nat, j: nat, timestamp: int, maxAge: int, retention: int) {
    && i < j < |calls| && calls[i].key == calls[j].key
    && InWindow(timestamp, calls[i].time, maxAge) && InWindow(timestamp, calls[j].time, maxAge)
    && AcceptStep(SeenAfter(calls[..i], retention), calls[i].key, calls[i].time, retention).1
    && AcceptStep(SeenAfter(calls[..j], retention), calls[j].key, calls[j].time, retention).1
  }

  ghost predicate ReplaySafe(maxAge: int, retention: int) {
    forall calls: seq<Event>, i: nat, j: nat, timestamp: int ::
      Monotone(calls) ==> !AcceptedTwice(calls, i, j, timestamp, maxAge, retention)
  }

  lemma {:induction false} AcceptedKeepsPrefix(calls: seq<Event>, k: nat, retention: int)
    requires k <= |calls|
    ensures Accepted(calls[..k], retention) <= Accepted(calls, retention)
    decreases |calls| - k
  {
    if k < |calls| {
      AcceptedKeepsPrefix(calls, k + 1, retention);
      assert calls[..k + 1][..k] == calls[..k];
    } else {
      assert calls[..k] == calls;
    }
  }

  lemma DecisionIsHistory(calls: seq<Event>, i: nat, retention: int)
    requires Monotone(calls) && i < |calls| && retention >= 0
    ensures AcceptStep(SeenAfter(calls[..i], retention), calls[i].key, calls[i].time, retention).1
         == !Recent(Accepted(calls[..i], retention), calls[i].key, calls[i].time, retention)
  {
    assert calls[..i + 1][..i] == calls[..i];
    GuardRefinesHistory(calls[..i + 1], retention);
  }

  /** A key that passed at call `i` does not pass at a later call `j` at most `retention` away. */
  lemma PassesOnce(calls: seq<Event>, i: nat, j: nat, retention: int)
    requires Monotone(calls) && retention >= 0
    requires i < j < |calls| && calls[i].key == calls[j].key && calls[j].time - calls[i].time <= retention
    requires AcceptStep(SeenAfter(calls[..i], retention), calls[i].key, calls[i].time, retention).1
    ensures !AcceptStep(SeenAfter(calls[..j], retention), calls[j].key, calls[j].time, retention).1
  {
    DecisionIsHistory(calls, i, retention);
    DecisionIsHistory(calls, j, retention);
    var early := calls[..j];
    AcceptedKeepsPrefix(early, i + 1, retention);
    assert early[..i + 1][..i] == calls[..i];
    var log := Accepted(early[..i + 1], retention);
    assert log == Accepted(calls[..i], retention) + [calls[i]];
    assert Accepted(early, retention)[|log| - 1] == log[|log| - 1] == calls[i];
  }

  /**
   * The two bounds fit exactly: no message inside its +-maxAge window passes twice, in any run with a
   * nondecreasing clock, if and only if keys are kept for at least 2*maxAge.
   */
  lemma RetentionFitsExactly(maxAge: int, retention: int)
    requires maxAge >= 0
    ensures ReplaySafe(maxAge, retention) <==> retention >= 2 * maxAge
  {
    if retention >= 2 * maxAge {
      forall calls: seq<Event>, i: nat, j: nat, timestamp: int | Monotone(calls)
        ensures !AcceptedTwice(calls, i, j, timestamp, maxAge, retention)
      {
        if i < j < |calls| && calls[i].key == calls[j].key && InWindow(timestamp, calls[i].time, maxAge)
           && InWindow(timestamp, calls[j].time, maxAge)
           && AcceptStep(SeenAfter(calls[..i], retention), calls[i].key, calls[i].time, retention).1 {
          PassesOnce(calls, i, j, retention);
        }
      }
    } else {
      var early, late := Event("nonce", -maxAge), Event("nonce", maxAge);
      var calls := [early, late];
      assert calls[..0] == [] && calls[..1] == [early] && [early][..0] == [];
      assert SeenAfter([early], retention) == map["nonce" := -maxAge];
      assert AcceptedTwice(calls, 0, 1, 0, maxAge, retention);
      assert Monotone(calls);
    }
  }
}
