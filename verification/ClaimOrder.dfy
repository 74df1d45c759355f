/** The order in which repeated claims hand out rows while nothing else happens. */
module ClaimOrder {
  import opened Prelude
  import opened TaskTable

  function AfterClaim(t: Table, id: Id, worker: WorkerId, now: Time): Table {
    Update(t, MarkRunning(id, worker), now)
  }

  /** `ids` is a complete run of claims: each one is best when it is made, and at the end nothing is eligible. */
  ghost predicate Drain(t: Table, statuses: set<Status>, worker: WorkerId, now: Time, ids: seq<Id>) {
    if ids == [] then EligibleIds(t, statuses, now) == {}
    else Best(t, statuses, now, ids[0]) && Drain(AfterClaim(t, ids[0], worker, now), statuses, worker, now, ids[1..])
  }

  /** A claim takes its row out of the eligible ones exactly when running rows cannot be claimed. */
  lemma ClaimConsumes(t: Table, statuses: set<Status>, worker: WorkerId, now: Time, id: Id)
    requires id in EligibleIds(t, statuses, now)
    ensures EligibleIds(AfterClaim(t, id, worker, now), statuses, now)
         == (if Running in statuses then EligibleIds(t, statuses, now) else EligibleIds(t, statuses, now) - {id})
  {
    var u := AfterClaim(t, id, worker, now);
    assert forall other :: other in t && other != id ==> u[other] == t[other];
    assert u[id].status == Running && u[id].scheduledAt == t[id].scheduledAt;
  }

  lemma {:induction false} BestExists(t: Table, statuses: set<Status>, now: Time, among: set<Id>) returns (best: Id)
    requires among != {} && among <= EligibleIds(t, statuses, now)
    ensures best in among && forall id :: id in among ==> !Before(t[id], t[best])
    decreases |among|
  {
    best :| best in among;
    if among != {best} {
      var rest := BestExists(t, statuses, now, among - {best});
      if Before(t[rest], t[best]) {
        best := rest;
      }
    }
  }

  /** Claims with nothing in between can always go on until nothing is eligible. */
  lemma {:induction false} DrainExists(t: Table, statuses: set<Status>, worker: WorkerId, now: Time)
    returns (ids: seq<Id>)
    requires Running !in statuses
    ensures Drain(t, statuses, worker, now, ids)
    decreases |EligibleIds(t, statuses, now)|
  {
    if EligibleIds(t, statuses, now) == {} {
      ids := [];
    } else {
      var id := BestExists(t, statuses, now, EligibleIds(t, statuses, now));
      ClaimConsumes(t, statuses, worker, now, id);
      var rest := DrainExists(AfterClaim(t, id, worker, now), statuses, worker, now);
      ids := [id] + rest;
    }
  }

  predicate InOrder(t: Table, first: Id, later: Id) {
    first in t && later in t && first != later && !Before(t[later], t[first])
  }

  lemma {:induction false} DrainInOrder(t: Table, statuses: set<Status>, worker: WorkerId, now: Time, ids: seq<Id>)
    requires Running !in statuses && Drain(t, statuses, worker, now, ids)
    ensures forall id :: id in ids <==> id in EligibleIds(t, statuses, now)
    ensures forall i, j :: 0 <= i < j < |ids| ==> InOrder(t, ids[i], ids[j])
  {
    if ids == [] {
    } else {
      var id, rest := ids[0], ids[1..];
      var u := AfterClaim(t, id, worker, now);
      ClaimConsumes(t, statuses, worker, now, id);
      DrainInOrder(u, statuses, worker, now, rest);
      assert ids == [id] + rest;
      forall i, j | 0 <= i < j < |ids|
        ensures InOrder(t, ids[i], ids[j])
      {
        assert ids[j] == rest[j - 1] && ids[j] in rest;
        if i > 0 {
          assert ids[i] == rest[i - 1] && ids[i] in rest;
        }
      }
    }
  }

  /** Highest priority first, and within a priority the oldest first. */
  predicate NoLaterThan(first: Row, later: Row) {
    first.priority > later.priority || (first.priority == later.priority && first.createdAt <= later.createdAt)
  }

  /**
   * Such a run hands out exactly the rows that have one of the statuses and are due, each once, by descending
   * priority and within a priority by creation.
   */
  lemma {:induction false} DrainIsSorted(t: Table, statuses: set<Status>, worker: WorkerId, now: Time, ids: seq<Id>)
    requires Running !in statuses && Drain(t, statuses, worker, now, ids)
    ensures forall id :: id in ids <==> id in t && t[id].status in statuses && t[id].scheduledAt <= now
    ensures forall i, j :: 0 <= i < j < |ids| ==> ids[i] != ids[j] && NoLaterThan(t[ids[i]], t[ids[j]])
  {
    DrainInOrder(t, statuses, worker, now, ids);
    forall id ensures id in ids <==> id in t && t[id].status in statuses && t[id].scheduledAt <= now {
      assert id in ids <==> id in EligibleIds(t, statuses, now);
    }
    forall i, j | 0 <= i < j < |ids| ensures ids[i] != ids[j] && NoLaterThan(t[ids[i]], t[ids[j]]) {
      assert InOrder(t, ids[i], ids[j]);
    }
  }
}
