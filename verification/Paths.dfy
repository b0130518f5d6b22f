/** Chains of next hops in an arbitrary finite graph, where each node has at most one next
    hop: how long a chain can be before it meets a destination. */
module Paths {
  import opened Wrappers

  function Walk<A>(next: A -> Option<A>, start: A, k: nat): Option<A> {
    if k == 0 then Some(start)
    else
      match Walk(next, start, k - 1)
      case Some(a) => next(a)
      case None => None
  }

  /** The chain from start meets a destination for the first time after k >= 1 hops. The start
      itself is not looked at. */
  ghost predicate FirstMeets<A>(next: A -> Option<A>, start: A, dest: A -> bool, k: nat) {
    && k >= 1
    && Walk(next, start, k).Some? && dest(Walk(next, start, k).value)
    && forall j :: 1 <= j < k ==> Walk(next, start, j).Some? && !dest(Walk(next, start, j).value)
  }

  lemma {:induction false} WalkPrefix<A>(next: A -> Option<A>, start: A, j: nat, k: nat)
    requires j <= k && Walk(next, start, k).Some?
    ensures Walk(next, start, j).Some?
  {
    if j < k {
      WalkPrefix(next, start, j, k - 1);
    }
  }

  /** From equal places the chain goes on alike. */
  lemma {:induction false} WalkShift<A>(next: A -> Option<A>, start: A, i: nat, j: nat, n: nat)
    requires Walk(next, start, i) == Walk(next, start, j)
    ensures Walk(next, start, i + n) == Walk(next, start, j + n)
  {
    if n > 0 {
      WalkShift(next, start, i, j, n - 1);
      assert i + n - 1 == i + (n - 1) && j + n - 1 == j + (n - 1);
    }
  }

  /** Before its first meeting a chain visits no node twice. */
  lemma {:induction false} NoRepeatBeforeMeeting<A>(next: A -> Option<A>, start: A, dest: A -> bool, k: nat, i: nat, j: nat)
    requires FirstMeets(next, start, dest, k) && i < j <= k
    requires i == 0 ==> !dest(start)
    ensures Walk(next, start, i) != Walk(next, start, j)
  {
    var m := i + (k - j);
    assert j + (k - j) == k;
    assert m == 0 || Walk(next, start, m).None? || !dest(Walk(next, start, m).value);
    if Walk(next, start, i) == Walk(next, start, j) {
      WalkShift(next, start, i, j, k - j);
    }
  }

  ghost predicate ClosedUnder<A>(nodes: set<A>, next: A -> Option<A>) {
    forall a :: a in nodes && next(a).Some? ==> next(a).value in nodes
  }

  lemma {:induction false} WalkStays<A>(nodes: set<A>, next: A -> Option<A>, start: A, k: nat)
    requires ClosedUnder(nodes, next) && start in nodes
    ensures Walk(next, start, k).Some? ==> Walk(next, start, k).value in nodes
  {
    if k > 0 {
      WalkStays(nodes, next, start, k - 1);
    }
  }

  lemma {:induction false} Pigeonhole<A>(nodes: set<A>, s: seq<A>)
    requires forall i :: 0 <= i < |s| ==> s[i] in nodes
    requires forall i, j :: 0 <= i < j < |s| ==> s[i] != s[j]
    ensures |s| <= |nodes|
  {
    if s != [] {
      Pigeonhole(nodes - {s[0]}, s[1..]);
    }
  }

  /** A chain that meets a destination at all does so within as many hops as there are nodes,
      and within one less when it does not start at a destination. */
  lemma {:induction false} MeetingIsShort<A>(nodes: set<A>, next: A -> Option<A>, start: A, dest: A -> bool, k: nat)
    requires ClosedUnder(nodes, next) && start in nodes && FirstMeets(next, start, dest, k)
    ensures k <= |nodes|
    ensures !dest(start) ==> k < |nodes|
  {
    forall i: nat | i <= k ensures Walk(next, start, i).Some? && Walk(next, start, i).value in nodes {
      WalkPrefix(next, start, i, k);
      WalkStays(nodes, next, start, i);
    }
    var from := if dest(start) then 1 else 0;
    var visited := seq(k + 1 - from, i requires 0 <= i < k + 1 - from => Walk(next, start, i + from).value);
    forall i, j | 0 <= i < j < |visited| ensures visited[i] != visited[j] {
      NoRepeatBeforeMeeting(next, start, dest, k, i + from, j + from);
    }
    Pigeonhole(nodes, visited);
  }

  /** Within n hops the chain comes back to a node it has been at. */
  ghost predicate Cycles<A>(next: A -> Option<A>, start: A, n: nat) {
    exists i: nat, j: nat :: i < j <= n && Walk(next, start, i).Some? && Walk(next, start, i) == Walk(next, start, j)
  }

  /** A chain with at least as many hops as there are nodes runs in a cycle. */
  lemma {:induction false} LongWalkCycles<A>(nodes: set<A>, next: A -> Option<A>, start: A, n: nat)
    requires ClosedUnder(nodes, next) && start in nodes
    requires n >= |nodes| && Walk(next, start, n).Some?
    ensures Cycles(next, start, n)
  {
    forall i: nat | i <= n ensures Walk(next, start, i).Some? && Walk(next, start, i).value in nodes {
      WalkPrefix(next, start, i, n);
      WalkStays(nodes, next, start, i);
    }
    var visited := seq(n + 1, i requires 0 <= i < n + 1 => Walk(next, start, i).value);
    if forall i, j :: 0 <= i < j < |visited| ==> visited[i] != visited[j] {
      Pigeonhole(nodes, visited);
    } else {
      var i, j :| 0 <= i < j < |visited| && visited[i] == visited[j];
      assert Walk(next, start, i) == Walk(next, start, j);
    }
  }

  /** Meetings are unique. */
  lemma {:induction false} MeetingUnique<A>(next: A -> Option<A>, start: A, dest: A -> bool, k: nat, m: nat)
    requires FirstMeets(next, start, dest, k) && FirstMeets(next, start, dest, m)
    ensures k == m
  {
  }
}
