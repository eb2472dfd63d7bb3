/** Selection of runnable work items: order the queue, truncate it, and only then look at the
    dependencies. Whether that can starve a run is a property of the whole graph. */
module Scheduler {
  import opened WorkItems

  type Edge = (nat, nat)  // (parent row, child row)

  ghost predicate WellFormed(items: seq<Item>, edges: seq<Edge>) {
    forall e <- edges :: e.0 < |items| && e.1 < |items|
  }

  /** The invariant of the graph that makes truncation harmless. */
  ghost predicate PriorityDecreases(items: seq<Item>, edges: seq<Edge>) {
    && WellFormed(items, edges)
    && forall e <- edges :: items[e.0].profile.priority > items[e.1].profile.priority
  }

  ghost predicate NoneActive(items: seq<Item>) {
    forall i <- items :: !Active(i)
  }

  ghost predicate NoBlockingFailure(items: seq<Item>) {
    forall i <- items :: !BlockingFailure(i)
  }

  ghost predicate SomeQueued(items: seq<Item>) {
    exists i <- items :: i.status == Queued
  }

  // ---------------------------------------------------------------- the queue

  /** Queue order: higher priority first, then the older row. */
  predicate Before(items: seq<Item>, a: nat, b: nat)
    requires a < |items| && b < |items|
  {
    || items[a].profile.priority > items[b].profile.priority
    || (items[a].profile.priority == items[b].profile.priority && a < b)
  }

  predicate InRange(items: seq<Item>, q: seq<nat>) {
    forall k :: 0 <= k < |q| ==> q[k] < |items|
  }

  ghost predicate Ordered(items: seq<Item>, q: seq<nat>) {
    && InRange(items, q)
    && forall j, k :: 0 <= j < k < |q| ==> Before(items, q[j], q[k])
  }

  function Insert(items: seq<Item>, q: seq<nat>, x: nat): (r: seq<nat>)
    requires x < |items| && InRange(items, q)
    ensures InRange(items, r)
  {
    if q == [] then [x]
    else if Before(items, x, q[0]) then [x] + q
    else [q[0]] + Insert(items, q[1..], x)
  }

  /** The queued rows among the first `n`, in queue order. */
  function QueueUpTo(items: seq<Item>, n: nat): (q: seq<nat>)
    requires n <= |items|
    ensures InRange(items, q)
  {
    if n == 0 then []
    else
      var q := QueueUpTo(items, n - 1);
      if items[n - 1].status == Queued then Insert(items, q, n - 1) else q
  }

  function Queue(items: seq<Item>): (q: seq<nat>)
    ensures InRange(items, q)
  {
    QueueUpTo(items, |items|)
  }

  lemma {:induction false} InsertKeepsOrder(items: seq<Item>, q: seq<nat>, x: nat)
    requires x < |items| && Ordered(items, q) && x !in q
    ensures Ordered(items, Insert(items, q, x))
    ensures forall y :: y in Insert(items, q, x) <==> y == x || y in q
  {
    if q != [] && !Before(items, x, q[0]) {
      InsertKeepsOrder(items, q[1..], x);
      var t := Insert(items, q[1..], x);
      assert q == [q[0]] + q[1..];
      forall k | 0 <= k < |t| ensures Before(items, q[0], t[k]) {
        assert t[k] in t;
        if t[k] != x {
          var m :| 0 <= m < |q[1..]| && q[1..][m] == t[k];
          assert q[m + 1] == t[k];
        }
      }
    }
  }

  lemma {:induction false} QueueUpToOrdered(items: seq<Item>, n: nat)
    requires n <= |items|
    ensures Ordered(items, QueueUpTo(items, n))
    ensures forall y :: y in QueueUpTo(items, n) <==> 0 <= y < n && items[y].status == Queued
  {
    if n > 0 {
      QueueUpToOrdered(items, n - 1);
      var q := QueueUpTo(items, n - 1);
      if items[n - 1].status == Queued {
        assert n - 1 !in q;
        InsertKeepsOrder(items, q, n - 1);
        assert QueueUpTo(items, n) == Insert(items, q, n - 1);
      } else {
        assert QueueUpTo(items, n) == q;
      }
    }
  }

  /** The queue lists exactly the queued rows, each once, best first. */
  lemma QueueOrdered(items: seq<Item>)
    ensures Ordered(items, Queue(items))
    ensures forall y :: y in Queue(items) <==> 0 <= y < |items| && items[y].status == Queued
    ensures forall j, k :: 0 <= j < k < |Queue(items)| ==> Queue(items)[j] != Queue(items)[k]
    ensures forall j, k :: 0 <= j < k < |Queue(items)| ==>
              var a, b := Queue(items)[j], Queue(items)[k];
              || items[a].profile.priority > items[b].profile.priority
              || (items[a].profile.priority == items[b].profile.priority && a < b)
  {
    QueueUpToOrdered(items, |items|);
  }

  lemma BestComesFirst(items: seq<Item>, x: nat)
    requires x < |items| && items[x].status == Queued
    requires forall y :: 0 <= y < |items| && items[y].status == Queued && y != x ==> Before(items, x, y)
    ensures |Queue(items)| > 0 && Queue(items)[0] == x
  {
    QueueOrdered(items);
    var q := Queue(items);
    assert x in q;
    var k :| 0 <= k < |q| && q[k] == x;
    assert q[0] in q;
    if k != 0 {
      assert false;
    }
  }

  /** The rows the truncated query returns. */
  function Batch(items: seq<Item>, limit: int): (b: seq<nat>)
    ensures InRange(items, b)
  {
    var n := if limit > 1 then limit else 1;
    if n < |Queue(items)| then Queue(items)[..n] else Queue(items)
  }

  /** The queued rows that come before `x`. */
  ghost function Ahead(items: seq<Item>, x: nat): set<nat>
    requires x < |items|
  {
    set y: nat | y < |items| && items[y].status == Queued && Before(items, y, x)
  }

  ghost function FirstRows(q: seq<nat>, n: nat): set<nat>
    requires n <= |q|
  {
    set j | 0 <= j < n :: q[j]
  }

  lemma {:induction false} FirstRowsCounted(q: seq<nat>, n: nat)
    requires n <= |q| && forall j, k :: 0 <= j < k < |q| ==> q[j] != q[k]
    ensures |FirstRows(q, n)| == n
  {
    if n > 0 {
      FirstRowsCounted(q, n - 1);
      assert FirstRows(q, n) == FirstRows(q, n - 1) + {q[n - 1]};
    }
  }

  lemma AheadInQueue(items: seq<Item>, k: nat)
    requires k < |Queue(items)|
    ensures |Ahead(items, Queue(items)[k])| == k
  {
    var q := Queue(items);
    QueueOrdered(items);
    FirstRowsCounted(q, k);
    forall y ensures y in Ahead(items, q[k]) <==> y in FirstRows(q, k) {
      if y in Ahead(items, q[k]) {
        assert y in q;
        var j :| 0 <= j < |q| && q[j] == y;
      }
      if y in FirstRows(q, k) {
        assert y in q;
      }
    }
    assert Ahead(items, q[k]) == FirstRows(q, k);
  }

  /** The truncated query returns exactly the queued rows with fewer queued rows ahead of them than its limit. */
  lemma BatchIff(items: seq<Item>, limit: int, x: nat)
    requires x < |items|
    ensures x in Batch(items, limit) <==>
            items[x].status == Queued && |Ahead(items, x)| < if limit > 1 then limit else 1
  {
    var q, b := Queue(items), Batch(items, limit);
    QueueOrdered(items);
    if x in b {
      var j :| 0 <= j < |b| && b[j] == x;
      assert q[j] in q;
      AheadInQueue(items, j);
    }
    if items[x].status == Queued && |Ahead(items, x)| < if limit > 1 then limit else 1 {
      assert x in q;
      var k :| 0 <= k < |q| && q[k] == x;
      AheadInQueue(items, k);
      assert b[k] == x;
    }
  }

  /** A row stays within reach of the query for as long as it is queued, since the queue only shrinks. */
  lemma StaysInBatch(items: seq<Item>, next: seq<Item>, limit: int, x: nat)
    requires |next| == |items|
    requires forall y :: 0 <= y < |items| ==> next[y].profile == items[y].profile
    requires forall y :: 0 <= y < |items| && next[y].status == Queued ==> items[y].status == Queued
    requires x in Batch(items, limit) && next[x].status == Queued
    ensures x in Batch(next, limit)
  {
    BatchIff(items, limit, x);
    BatchIff(next, limit, x);
    SubsetIsSmaller(Ahead(next, x), Ahead(items, x));
  }

  lemma {:induction false} SubsetIsSmaller(a: set<nat>, b: set<nat>)
    requires a <= b
    ensures |a| <= |b|
  {
    if a != {} {
      var y :| y in a;
      SubsetIsSmaller(a - {y}, b - {y});
    }
  }

  /** With room for one row only the query returns the best one. */
  lemma BestIsSelected(items: seq<Item>, x: nat)
    requires x < |items| && items[x].status == Queued
    requires forall y :: 0 <= y < |items| && items[y].status == Queued && y != x ==> Before(items, x, y)
    ensures Batch(items, 1) == [x]
  {
    BestComesFirst(items, x);
    assert Queue(items)[..1] == [x];
  }

  predicate Ready(items: seq<Item>, edges: seq<Edge>, x: nat)
    requires WellFormed(items, edges)
  {
    forall e <- edges | e.1 == x :: Releases(items[e.0])
  }

  function KeepReady(items: seq<Item>, edges: seq<Edge>, b: seq<nat>): (r: seq<nat>)
    requires WellFormed(items, edges)
    ensures forall x :: x in r <==> x in b && Ready(items, edges, x)
  {
    if b == [] then []
    else if Ready(items, edges, b[0]) then [b[0]] + KeepReady(items, edges, b[1..])
    else KeepReady(items, edges, b[1..])
  }

  /** The work items that one pass of the loop may start. */
  function Runnable(items: seq<Item>, edges: seq<Edge>, limit: int): (r: seq<nat>)
    requires WellFormed(items, edges)
  {
    KeepReady(items, edges, Batch(items, limit))
  }

  lemma {:induction false} KeepReadyOrdered(items: seq<Item>, edges: seq<Edge>, b: seq<nat>)
    requires WellFormed(items, edges) && Ordered(items, b)
    ensures Ordered(items, KeepReady(items, edges, b))
  {
    if b != [] {
      assert b == [b[0]] + b[1..];
      KeepReadyOrdered(items, edges, b[1..]);
      var t := KeepReady(items, edges, b[1..]);
      forall k | 0 <= k < |t| ensures Before(items, b[0], t[k]) {
        assert t[k] in b[1..];
        var m :| 0 <= m < |b[1..]| && b[1..][m] == t[k];
        assert b[m + 1] == t[k];
      }
    }
  }

  lemma {:induction false} NoneReadyKeepsNone(items: seq<Item>, edges: seq<Edge>, b: seq<nat>)
    requires WellFormed(items, edges)
    requires forall k :: 0 <= k < |b| ==> !Ready(items, edges, b[k])
    ensures KeepReady(items, edges, b) == []
  {
    if b != [] {
      NoneReadyKeepsNone(items, edges, b[1..]);
    }
  }

  /** Rows are selected once each, all of them queued with every parent released. */
  lemma RunnableSelects(items: seq<Item>, edges: seq<Edge>, limit: int)
    requires WellFormed(items, edges)
    ensures Ordered(items, Runnable(items, edges, limit))
    ensures forall x <- Runnable(items, edges, limit) ::
              x < |items| && items[x].status == Queued && Ready(items, edges, x)
  {
    QueueOrdered(items);
    assert forall x <- Batch(items, limit) :: x in Queue(items);
    KeepReadyOrdered(items, edges, Batch(items, limit));
  }

  // ---------------------------------------------------------------- starvation

  /** A dependency chain from a dead end down to a queued row, through queued rows only. */
  ghost predicate Chain(items: seq<Item>, edges: seq<Edge>, path: seq<nat>) {
    && |path| >= 2
    && InRange(items, path)
    && DeadEnd(items[path[0]])
    && (forall k :: 1 <= k < |path| ==> items[path[k]].status == Queued)
    && (forall k :: 1 <= k < |path| ==> (path[k - 1], path[k]) in edges)
  }

  ghost predicate Blocked(items: seq<Item>, edges: seq<Edge>, x: nat) {
    exists path :: Chain(items, edges, path) && path[|path| - 1] == x
  }

  lemma BlockedIsNotReady(items: seq<Item>, edges: seq<Edge>, x: nat)
    requires WellFormed(items, edges) && Blocked(items, edges, x)
    ensures !Ready(items, edges, x)
  {
    var path :| Chain(items, edges, path) && path[|path| - 1] == x;
    var k := |path| - 1;
    assert (path[k - 1], path[k]) in edges;
  }

  lemma ChainExtends(items: seq<Item>, edges: seq<Edge>, y: nat, x: nat)
    requires Blocked(items, edges, y) && (y, x) in edges
    requires x < |items| && items[x].status == Queued
    ensures Blocked(items, edges, x)
  {
    var path :| Chain(items, edges, path) && path[|path| - 1] == y;
    var longer := path + [x];
    assert Chain(items, edges, longer) && longer[|longer| - 1] == x;
  }

  /** Queued parents of a row at position `k` of the queue sit before it. */
  lemma QueuedParentComesFirst(items: seq<Item>, edges: seq<Edge>, k: nat, parent: nat)
    returns (j: nat)
    requires PriorityDecreases(items, edges) && k < |Queue(items)|
    requires (parent, Queue(items)[k]) in edges && items[parent].status == Queued
    ensures j < k && Queue(items)[j] == parent
  {
    QueueOrdered(items);
    assert parent in Queue(items);
    j :| 0 <= j < |Queue(items)| && Queue(items)[j] == parent;
  }

  /** When nothing in a prefix of the queue is ready, every row of it hangs off a dead end. */
  lemma {:induction false} UnreadyPrefixIsBlocked(items: seq<Item>, edges: seq<Edge>, n: nat, k: nat)
    requires PriorityDecreases(items, edges) && NoneActive(items)
    requires k < n <= |Queue(items)|
    requires forall j :: 0 <= j < n ==> !Ready(items, edges, Queue(items)[j])
    ensures Blocked(items, edges, Queue(items)[k])
    decreases k
  {
    QueueOrdered(items);
    var x := Queue(items)[k];
    assert x in Queue(items);
    var e :| e in edges && e.1 == x && !Releases(items[e.0]);
    assert (e.0, x) in edges;
    if items[e.0].status == Queued {
      var j := QueuedParentComesFirst(items, edges, k, e.0);
      UnreadyPrefixIsBlocked(items, edges, n, j);
      ChainExtends(items, edges, e.0, x);
    } else {
      var path := [e.0, x];
      assert Chain(items, edges, path) && path[|path| - 1] == x;
    }
  }

  /** Scheduler progress, exactly: with nothing active, an empty selection means that every row
      of the truncated queue hangs off a dead end, and nothing else can cause it. */
  lemma EmptySelectionIff(items: seq<Item>, edges: seq<Edge>, limit: int)
    requires PriorityDecreases(items, edges) && NoneActive(items)
    ensures Runnable(items, edges, limit) == []
       <==> forall x <- Batch(items, limit) :: Blocked(items, edges, x)
  {
    var b := Batch(items, limit);
    if Runnable(items, edges, limit) == [] {
      forall x | x in b ensures Blocked(items, edges, x) {
        assert forall y <- b :: y !in Runnable(items, edges, limit);
        var k :| 0 <= k < |b| && b[k] == x;
        assert forall j :: 0 <= j < |b| ==> b[j] == Queue(items)[j] && b[j] in b;
        UnreadyPrefixIsBlocked(items, edges, |b|, k);
      }
    }
    if forall x <- b :: Blocked(items, edges, x) {
      forall x | x in b ensures !Ready(items, edges, x) {
        BlockedIsNotReady(items, edges, x);
      }
      NoneReadyKeepsNone(items, edges, b);
    }
  }

  lemma NothingBlocked(items: seq<Item>, edges: seq<Edge>, x: nat)
    requires forall i <- items :: !BlockingFailure(i) && i.status != Canceled && !SplitView(i)
    ensures !Blocked(items, edges, x)
  {
    forall path ensures !Chain(items, edges, path) {
      if |path| >= 2 && InRange(items, path) {
        DeadEndCauses(items[path[0]]);
        assert items[path[0]] in items;
      }
    }
  }

  /** No livelock: with nothing active, no blocking failure and nothing canceled or split, a
      non-empty queue always yields something to start, whatever the limit. */
  lemma Progress(items: seq<Item>, edges: seq<Edge>, limit: int)
    requires PriorityDecreases(items, edges) && NoneActive(items)
    requires NoBlockingFailure(items) && SomeQueued(items)
    requires forall i <- items :: i.status != Canceled && !SplitView(i)
    ensures Runnable(items, edges, limit) != []
  {
    QueueOrdered(items);
    var i :| i in items && i.status == Queued;
    var n :| 0 <= n < |items| && items[n] == i;
    assert n in Queue(items);
    var x := Batch(items, limit)[0];
    assert x in Batch(items, limit);
    NothingBlocked(items, edges, x);
    EmptySelectionIff(items, edges, limit);
  }

  /** The side condition of `Progress` on split failures cannot be dropped: a code row that failed with an error
      text naming the budget, and a queued child, leave nothing to start and nothing failed. */
  lemma SplitFailureStarves(limit: int) returns (items: seq<Item>, edges: seq<Edge>)
    ensures PriorityDecreases(items, edges) && NoneActive(items)
    ensures NoBlockingFailure(items) && SomeQueued(items)
    ensures Runnable(items, edges, limit) == []
  {
    var code := Item(Failed, Profile(OtherKind, Absent, 2, 1), Flags(false, false, true), 0);
    var validate := Item(Queued, Profile(OtherKind, Absent, 1, 1), NO_FLAGS, 0);
    items, edges := [code, validate], [(0, 1)];
    assert items[1].status == Queued;
    assert Chain(items, edges, [0, 1]);
    QueueOrdered(items);
    forall x | x in Batch(items, limit) ensures Blocked(items, edges, x) {
      assert x in Queue(items);
      var path := [0, 1];
      assert path[|path| - 1] == x;
    }
    EmptySelectionIff(items, edges, limit);
  }

  /** Neither can the edge invariant: with a child outranking its parent and room for one row,
      the truncated query never reaches the parent. */
  lemma RankInversionStarves() returns (items: seq<Item>, edges: seq<Edge>)
    ensures WellFormed(items, edges) && NoneActive(items)
    ensures NoBlockingFailure(items) && SomeQueued(items)
    ensures forall i <- items :: i.status != Canceled && !SplitView(i)
    ensures Runnable(items, edges, 1) == []
  {
    var parent := Item(Queued, Profile(OtherKind, Absent, 1, 1), NO_FLAGS, 0);
    items, edges := [parent, parent.(profile := Profile(OtherKind, Absent, 2, 1))], [(0, 1)];
    assert items[0].status == Queued;
    assert Batch(items, 1) == [1] by {
      BestIsSelected(items, 1);
    }
    assert (0, 1) in edges && !Releases(items[0]);
    NoneReadyKeepsNone(items, edges, [1]);
  }

  // ---------------------------------------------------------------- cancellation

  function CancelQueued(items: seq<Item>): (r: seq<Item>)
    ensures |r| == |items|
    ensures forall k :: 0 <= k < |items| ==>
              r[k] == if items[k].status == Queued then items[k].(status := Canceled) else items[k]
  {
    seq(|items|, k requires 0 <= k < |items| =>
      if items[k].status == Queued then items[k].(status := Canceled) else items[k])
  }

  /** Cancellation exactness: when the query saw the whole queue and selected nothing, every row
      canceled is a descendant, through queued rows, of a dead end. */
  lemma CanceledAreDescendants(items: seq<Item>, edges: seq<Edge>, limit: int, x: nat)
    requires PriorityDecreases(items, edges) && NoneActive(items)
    requires limit >= |Queue(items)| && Runnable(items, edges, limit) == []
    requires x < |items| && CancelQueued(items)[x] != items[x]
    ensures Blocked(items, edges, x)
  {
    QueueOrdered(items);
    assert x in Queue(items);
    assert Batch(items, limit) == Queue(items);
    EmptySelectionIff(items, edges, limit);
  }

  /** Only blocked rows are canceled, exactly: if and only if a query without a limit would have selected nothing
      either. */
  lemma CanceledAreBlockedIff(items: seq<Item>, edges: seq<Edge>)
    requires PriorityDecreases(items, edges) && NoneActive(items)
    ensures (forall x :: 0 <= x < |items| && CancelQueued(items)[x] != items[x] ==> Blocked(items, edges, x))
       <==> Runnable(items, edges, |Queue(items)|) == []
  {
    QueueOrdered(items);
    var all := Batch(items, |Queue(items)|);
    assert all == Queue(items);
    EmptySelectionIff(items, edges, |Queue(items)|);
    forall x | 0 <= x < |items| ensures CancelQueued(items)[x] != items[x] <==> x in all {
    }
  }

  /** Without split or canceled rows the dead end is a blocking failure. */
  lemma CanceledDescendFromBlockingFailure(items: seq<Item>, edges: seq<Edge>, limit: int, x: nat)
    returns (path: seq<nat>)
    requires PriorityDecreases(items, edges) && NoneActive(items)
    requires limit >= |Queue(items)| && Runnable(items, edges, limit) == []
    requires forall i <- items :: i.status != Canceled && !SplitView(i)
    requires x < |items| && CancelQueued(items)[x] != items[x]
    ensures Chain(items, edges, path) && path[|path| - 1] == x
    ensures path[0] < |items| && BlockingFailure(items[path[0]])
  {
    CanceledAreDescendants(items, edges, limit, x);
    path :| Chain(items, edges, path) && path[|path| - 1] == x;
    DeadEndCauses(items[path[0]]);
    assert items[path[0]] in items;
  }

  /** Both conditions matter: with room for one row only, an item nothing blocks is canceled
      along with the blocked one ahead of it. */
  lemma SmallLimitCancelsReadyWork() returns (items: seq<Item>, edges: seq<Edge>)
    ensures PriorityDecreases(items, edges) && NoneActive(items)
    ensures Runnable(items, edges, 1) == []
    ensures |items| == 3 && Ready(items, edges, 2) && CancelQueued(items)[2] != items[2]
  {
    var failed := Item(Failed, Profile(OtherKind, Absent, 3, 1), NO_FLAGS, 0);
    var child := Item(Queued, Profile(OtherKind, Absent, 2, 1), NO_FLAGS, 0);
    var free := Item(Queued, Profile(OtherKind, Absent, 1, 1), NO_FLAGS, 0);
    items, edges := [failed, child, free], [(0, 1)];
    assert Batch(items, 1) == [1] by {
      BestIsSelected(items, 1);
    }
    assert Runnable(items, edges, 1) == [] by {
      assert (0, 1) in edges && !Releases(items[0]);
      NoneReadyKeepsNone(items, edges, [1]);
    }
  }
}
