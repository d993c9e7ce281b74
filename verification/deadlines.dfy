/** Deadlines of tasks and the scan that reports the overdue ones. */
module Deadlines {
  import opened Wrappers
  import opened TaskSm
  import opened Db

  /** The columns of a task that hold its deadline and when it was last reported overdue. */
  datatype Deadline = Deadline(at: Option<int>, notified: Option<int>)

  predicate IsOpen(tasks: TaskTable, id: TaskId) {
    id in tasks && !IsTerminal(tasks[id].status)
  }

  /** The row is overdue and has not been reported for this deadline. */
  predicate IsDue(d: Deadline, open: bool, now: int) {
    open && d.at.Some? && d.at.value < now && (d.notified.None? || d.notified.value < d.at.value)
  }

  function AfterScan(d: Deadline, open: bool, now: int): Deadline {
    if IsDue(d, open, now) then d.(notified := Some(now)) else d
  }

  /** What one scan does to every row and which events it emits. */
  ghost predicate IsScan(rows: map<TaskId, Deadline>, tasks: TaskTable, now: int, rows': map<TaskId, Deadline>,
                         events: seq<TaskId>)
  {
    && rows'.Keys == rows.Keys
    && (forall id :: id in rows ==> rows'[id] == AfterScan(rows[id], IsOpen(tasks, id), now))
    && (forall id :: id in events <==> id in rows && IsDue(rows[id], IsOpen(tasks, id), now))
    && forall i, j :: 0 <= i < j < |events| ==> events[i] != events[j]
  }

  class DeadlineTable {
    var rows: map<TaskId, Deadline>

    constructor ()
      ensures rows == map[]
    {
      rows := map[];
    }

    /** Sets or clears a deadline; the old one's report is forgotten. */
    method SetDeadline(id: TaskId, at: Option<int>)
      modifies this
      ensures rows == old(rows)[id := Deadline(at, None)]
    {
      rows := rows[id := Deadline(at, None)];
    }

    /** Reports each due row once, in any order, and stamps it. */
    method Scan(db: Database, now: int) returns (events: seq<TaskId>)
      modifies this
      ensures IsScan(old(rows), db.tasks, now, rows, events)
    {
      var due := set id | id in rows && IsDue(rows[id], IsOpen(db.tasks, id), now);
      var left := due;
      events := [];
      while left != {}
        invariant left <= due && rows.Keys == old(rows).Keys
        invariant forall id :: id in rows ==>
          rows[id] == if id in due - left then old(rows)[id].(notified := Some(now)) else old(rows)[id]
        invariant forall id :: id in events <==> id in due - left
        invariant forall i, j :: 0 <= i < j < |events| ==> events[i] != events[j]
        decreases |left|
      {
        var id :| id in left;
        events := events + [id];
        rows := rows[id := rows[id].(notified := Some(now))];
        left := left - {id};
      }
    }
  }

  /** A scan reports, once each, exactly the tasks that are neither done nor failed nor escalated and whose deadline has
      passed without having been reported since it was set, and stamps just these. */
  lemma ScanExactly(rows: map<TaskId, Deadline>, tasks: TaskTable, now: int, rows': map<TaskId, Deadline>,
                    events: seq<TaskId>, id: TaskId)
    requires IsScan(rows, tasks, now, rows', events)
    ensures id in events <==>
              && id in rows && id in tasks
              && tasks[id].status in {Proposed, Queued, InProgress, AwaitingReview, ChangesRequested}
              && (match rows[id]
                  case Deadline(Some(at), None) => at < now
                  case Deadline(Some(at), Some(notified)) => at < now && notified < at
                  case Deadline(None, _) => false)
    ensures forall i, j :: 0 <= i < |events| && 0 <= j < |events| && events[i] == id && events[j] == id ==> i == j
    ensures id in rows <==> id in rows'
    ensures id in rows ==> rows'[id] == if id in events then Deadline(rows[id].at, Some(now)) else rows[id]
  {}

  // ---------------------------------------------------------------- one row over many scans

  /** One scan as a row sees it: the clock, and whether its task is open then. */
  datatype Visit = Visit(now: int, open: bool)

  ghost function AfterVisits(d: Deadline, visits: seq<Visit>): Deadline {
    if visits == [] then d
    else
      var v := visits[|visits| - 1];
      AfterScan(AfterVisits(d, visits[..|visits| - 1]), v.open, v.now)
  }

  /** Scan number `i` reports the row. */
  ghost predicate Reports(d: Deadline, visits: seq<Visit>, i: nat)
    requires i < |visits|
  {
    IsDue(AfterVisits(d, visits[..i]), visits[i].open, visits[i].now)
  }

  /** Scan number `i` finds the task open and its deadline `at` past. */
  ghost predicate FindsOverdue(at: int, visits: seq<Visit>, i: nat)
    requires i < |visits|
  {
    visits[i].open && at < visits[i].now
  }

  ghost predicate NoneOverdue(at: int, visits: seq<Visit>) {
    forall i: nat :: i < |visits| ==> !FindsOverdue(at, visits, i)
  }

  /** A freshly set deadline is stamped once some scan has found it overdue, and with a later time. */
  lemma {:induction false} StampedOnceOverdue(at: int, visits: seq<Visit>)
    ensures var d := AfterVisits(Deadline(Some(at), None), visits);
            && d.at == Some(at)
            && (d.notified == None <==> NoneOverdue(at, visits))
            && (d.notified.Some? ==> at < d.notified.value)
  {
    if visits != [] {
      var front, n := visits[..|visits| - 1], |visits| - 1;
      StampedOnceOverdue(at, front);
      assert forall i: nat :: i < n ==> FindsOverdue(at, front, i) == FindsOverdue(at, visits, i);
      assert FindsOverdue(at, visits, n) == (visits[n].open && at < visits[n].now);
    }
  }

  /** From the moment a deadline is set until it is set again, whatever the clock does, exactly the first scan that
      finds the open task overdue reports it: once, or never when there is no such scan. */
  lemma ReportedExactlyOnce(at: int, visits: seq<Visit>, i: nat)
    requires i < |visits|
    ensures Reports(Deadline(Some(at), None), visits, i) <==>
            FindsOverdue(at, visits, i) && forall j: nat :: j < i ==> !FindsOverdue(at, visits, j)
  {
    StampedOnceOverdue(at, visits[..i]);
    assert forall j: nat :: j < i ==> FindsOverdue(at, visits[..i], j) == FindsOverdue(at, visits, j);
  }
}
