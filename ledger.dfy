/**
 * The attendance log and the reconciliation done inside the `setLogs`
 * updater of `handleScan` (src/pages/TestPage.tsx:32-53): find the first
 * open entry of the scanned employee id; close it if there is one, append a
 * new open entry otherwise.
 */
module Ledger {
  import opened Wrappers

  /** One row of the log, the `Log` interface (src/pages/TestPage.tsx:5-10); `null` times are None. */
  datatype Log = Log(name: string, employeeId: string, timeIn: Option<string>, timeOut: Option<string>)

  /** The `findIndex` test: same employee id (`===` on strings) and no time-out yet. */
  predicate IsOpenFor(l: Log, id: string) {
    l.employeeId == id && l.timeOut.None?
  }

  /** Some entry of `logs` is open for `id`. */
  predicate HasOpen(logs: seq<Log>, id: string) {
    exists i :: 0 <= i < |logs| && IsOpenFor(logs[i], id)
  }

  /** What `findIndex` returns: the lowest index of an open entry for `id`, or -1. */
  function FirstOpen(logs: seq<Log>, id: string): (r: int)
    ensures -1 <= r < |logs|
    ensures r == -1 <==> !HasOpen(logs, id)
    ensures r >= 0 ==> IsOpenFor(logs[r], id)
    ensures r >= 0 ==> forall i :: 0 <= i < r ==> !IsOpenFor(logs[i], id)
  {
    if |logs| == 0 then -1
    else if IsOpenFor(logs[0], id) then 0
    else
      var k := FirstOpen(logs[1..], id);
      assert forall i :: 1 <= i < |logs| ==> logs[i] == logs[1..][i - 1];
      if k == -1 then -1 else k + 1
  }

  /** The linear scan of `findIndex` (src/pages/TestPage.tsx:33-35). */
  method FindIndex(logs: seq<Log>, id: string) returns (index: int)
    ensures index == FirstOpen(logs, id)
  {
    index := 0;
    while index < |logs| && !IsOpenFor(logs[index], id)
      invariant 0 <= index <= |logs|
      invariant forall i :: 0 <= i < index ==> !IsOpenFor(logs[i], id)
    {
      index := index + 1;
    }
    if index == |logs| {
      index := -1;
    }
  }

  /** The invariant of the log: no employee id has two open entries. */
  predicate AtMostOneOpen(logs: seq<Log>) {
    forall i, j :: 0 <= i < j < |logs| && logs[i].timeOut.None? && logs[j].timeOut.None?
      ==> logs[i].employeeId != logs[j].employeeId
  }

  /**
   * `after` grows `before` without disturbing it: no entry is removed or
   * moved, and every entry keeps its name, id and time-in; a time-out once
   * set stays.
   */
  predicate Extends(before: seq<Log>, after: seq<Log>) {
    && |before| <= |after|
    && forall i :: 0 <= i < |before| ==>
         && after[i].name == before[i].name
         && after[i].employeeId == before[i].employeeId
         && after[i].timeIn == before[i].timeIn
         && (before[i].timeOut.Some? ==> after[i].timeOut == before[i].timeOut)
  }

  /** Which of the two branches of the updater ran. */
  datatype Branch = CheckedIn | CheckedOut

  /** The new log and the branch taken. */
  datatype Outcome = Outcome(logs: seq<Log>, branch: Branch)

  /**
   * The updater of src/pages/TestPage.tsx:32-53 for a scan of (`name`, `id`)
   * at time `now`.
   */
  function Reconcile(logs: seq<Log>, name: string, id: string, now: string): (r: Outcome)
    ensures r.branch == CheckedOut <==> HasOpen(logs, id)
    ensures |r.logs| == if r.branch == CheckedOut then |logs| else |logs| + 1
    ensures Extends(logs, r.logs)
  {
    var k := FirstOpen(logs, id);
    if k >= 0 then Outcome(logs[k := logs[k].(timeOut := Some(now))], CheckedOut)
    else Outcome(logs + [Log(name, id, Some(now), None)], CheckedIn)
  }

  /**
   * Check-out branch: the first open entry for `id` gets time-out `now`; it
   * keeps its position, its name (even when the scan carries another name),
   * its id and its time-in; the length and every other entry are unchanged.
   */
  lemma CheckOut(logs: seq<Log>, name: string, id: string, now: string, k: nat)
    requires k < |logs| && IsOpenFor(logs[k], id)
    requires forall i :: 0 <= i < k ==> !IsOpenFor(logs[i], id)
    ensures var r := Reconcile(logs, name, id, now);
      && r.branch == CheckedOut
      && |r.logs| == |logs|
      && r.logs[k] == Log(logs[k].name, logs[k].employeeId, logs[k].timeIn, Some(now))
      && forall i :: 0 <= i < |logs| && i != k ==> r.logs[i] == logs[i]
  {
  }

  /**
   * Check-in branch: with no open entry for `id`, the log gains exactly one
   * entry, at the end, open, stamped `now`; the old entries are its prefix.
   */
  lemma CheckIn(logs: seq<Log>, name: string, id: string, now: string)
    requires forall i :: 0 <= i < |logs| ==> !IsOpenFor(logs[i], id)
    ensures var r := Reconcile(logs, name, id, now);
      && r.branch == CheckedIn
      && r.logs == logs + [Log(name, id, Some(now), None)]
      && r.logs[..|logs|] == logs
  {
  }

  /** Under the invariant the open entry of an id is unique, so the first-match rule picks it. */
  lemma OpenEntryIsFirst(logs: seq<Log>, id: string, k: nat)
    requires AtMostOneOpen(logs)
    requires k < |logs| && IsOpenFor(logs[k], id)
    ensures FirstOpen(logs, id) == k
  {
  }

  /** Every reconciliation keeps the invariant. */
  lemma ReconcileKeepsAtMostOneOpen(logs: seq<Log>, name: string, id: string, now: string)
    requires AtMostOneOpen(logs)
    ensures AtMostOneOpen(Reconcile(logs, name, id, now).logs)
  {
  }

  /** Extends is transitive. */
  lemma ExtendsTransitive(a: seq<Log>, b: seq<Log>, c: seq<Log>)
    requires Extends(a, b) && Extends(b, c)
    ensures Extends(a, c)
  {
  }

  /**
   * The toggle law: starting with no open entry for `id`, three scans of
   * the same identity check in, check out, and check in again with a second
   * entry appended after the first, now closed one.
   */
  lemma ThreeScans(logs: seq<Log>, name: string, id: string, t1: string, t2: string, t3: string)
    requires !HasOpen(logs, id)
    ensures var r1 := Reconcile(logs, name, id, t1);
      var r2 := Reconcile(r1.logs, name, id, t2);
      var r3 := Reconcile(r2.logs, name, id, t3);
      && r1.branch == CheckedIn && r2.branch == CheckedOut && r3.branch == CheckedIn
      && r1.logs == logs + [Log(name, id, Some(t1), None)]
      && r2.logs == logs + [Log(name, id, Some(t1), Some(t2))]
      && r3.logs == logs + [Log(name, id, Some(t1), Some(t2)), Log(name, id, Some(t3), None)]
  {
    var r1 := Reconcile(logs, name, id, t1);
    CheckIn(logs, name, id, t1);
    CheckOut(r1.logs, name, id, t2, |logs|);
    var r2 := Reconcile(r1.logs, name, id, t2);
    assert r2.logs == logs + [Log(name, id, Some(t1), Some(t2))];
    forall i | 0 <= i < |r2.logs| ensures !IsOpenFor(r2.logs[i], id) {
      if i < |logs| { assert r2.logs[i] == logs[i]; }
    }
    CheckIn(r2.logs, name, id, t3);
  }
}
