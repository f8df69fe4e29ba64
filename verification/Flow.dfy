/**
 Assembling a flow (internal/domain/activity.go): a business process's
 activities and change events merged into one chronological sequence and read
 page by page through cursors.
 */
module Flow {

  import opened Wrappers
  import opened Text

  /** What ordering needs of a node; times are instants on one scale. */
  datatype Node =
    | ActivityNode(activityId: string, received: int)
    | EventNode(collection: string, entity: string, version: int, received: int)

  datatype Position = Position(ts: int, id: string)

  function NodeId(n: Node): string {
    match n
    case ActivityNode(id, _) => "a|" + id
    case EventNode(c, e, v, _) => "e|" + c + "|" + e + "|" + Itoa(v)
  }

  function At(n: Node): Position {
    Position(n.received, NodeId(n))
  }

  predicate Before(p: Position, q: Position) {
    p.ts < q.ts || (p.ts == q.ts && Less(p.id, q.id))
  }

  predicate After(n: Node, p: Position) {
    Before(p, At(n))
  }

  lemma BeforeTotal(p: Position, q: Position)
    ensures p == q || Before(p, q) || Before(q, p)
    ensures !(Before(p, q) && Before(q, p)) && (p == q ==> !Before(p, q))
  {
    LessTotal(p.id, q.id);
  }

  lemma BeforeTransitive(p: Position, q: Position, r: Position)
    requires Before(p, q) && Before(q, r)
    ensures Before(p, r)
  {
    if p.ts == q.ts == r.ts { LessTransitive(p.id, q.id, r.id); }
  }

  // --------------------------------------------------------------------- sorting

  /** No node comes before an earlier one. */
  ghost predicate Ordered(ns: seq<Node>) {
    forall i, j | 0 <= i < j < |ns| :: !Before(At(ns[j]), At(ns[i]))
  }

  ghost predicate Strict(ns: seq<Node>) {
    forall i, j | 0 <= i < j < |ns| :: Before(At(ns[i]), At(ns[j]))
  }

  ghost predicate DistinctKeys(ns: seq<Node>) {
    forall i, j | 0 <= i < j < |ns| :: At(ns[i]) != At(ns[j])
  }

  function Insert(n: Node, ns: seq<Node>): seq<Node> {
    if ns == [] || !Before(At(ns[0]), At(n)) then [n] + ns else [ns[0]] + Insert(n, ns[1..])
  }

  /** The nodes in order of time, then id. */
  function Sort(ns: seq<Node>): seq<Node> {
    if ns == [] then [] else Insert(ns[0], Sort(ns[1..]))
  }

  lemma {:induction false} InsertHolds(n: Node, ns: seq<Node>)
    ensures multiset(Insert(n, ns)) == multiset(ns) + multiset{n}
  {
    if ns != [] {
      InsertHolds(n, ns[1..]);
      assert ns == [ns[0]] + ns[1..];
    }
  }

  lemma InsertMembers(n: Node, ns: seq<Node>)
    ensures forall x :: x in Insert(n, ns) <==> x == n || x in ns
  {
    InsertHolds(n, ns);
    forall x ensures x in Insert(n, ns) <==> x == n || x in ns {
      assert x in Insert(n, ns) <==> x in multiset(Insert(n, ns));
    }
  }

  lemma NotBeforeTransitive(p: Position, q: Position, r: Position)
    requires !Before(q, p) && !Before(r, q)
    ensures !Before(r, p)
  {
    BeforeTotal(p, q);
    BeforeTotal(q, r);
    BeforeTotal(p, r);
    if Before(p, q) && Before(q, r) { BeforeTransitive(p, q, r); }
  }

  lemma OrderedCons(n: Node, ns: seq<Node>)
    requires Ordered(ns) && forall x <- ns :: !Before(At(x), At(n))
    ensures Ordered([n] + ns)
  {
    var all := [n] + ns;
    forall i, j | 0 <= i < j < |all| ensures !Before(At(all[j]), At(all[i])) {
      assert all[j] in ns;
    }
  }

  lemma {:induction false} InsertOrders(n: Node, ns: seq<Node>)
    requires Ordered(ns)
    ensures Ordered(Insert(n, ns))
  {
    if ns == [] {
    } else if !Before(At(ns[0]), At(n)) {
      forall x <- ns ensures !Before(At(x), At(n)) {
        var i :| 0 <= i < |ns| && ns[i] == x;
        if i > 0 { NotBeforeTransitive(At(n), At(ns[0]), At(x)); }
      }
      OrderedCons(n, ns);
    } else {
      InsertOrders(n, ns[1..]);
      InsertMembers(n, ns[1..]);
      forall x <- Insert(n, ns[1..]) ensures !Before(At(x), At(ns[0])) {
        if x == n {
          BeforeTotal(At(ns[0]), At(n));
        } else {
          var i :| 0 <= i < |ns[1..]| && ns[1..][i] == x;
          assert x == ns[i + 1];
        }
      }
      OrderedCons(ns[0], Insert(n, ns[1..]));
    }
  }

  lemma ConsHolds(n: Node, ns: seq<Node>)
    ensures multiset([n] + ns) == multiset(ns) + multiset{n}
  {
  }

  /** Sorting orders the nodes and neither drops nor adds any. */
  lemma {:induction false} SortSorts(ns: seq<Node>)
    ensures Ordered(Sort(ns)) && multiset(Sort(ns)) == multiset(ns)
  {
    if ns == [] {
      assert Sort(ns) == [];
    } else {
      var n, rest := ns[0], ns[1..];
      assert Sort(ns) == Insert(n, Sort(rest)) && ns == [n] + rest;
      hide *;
      SortSorts(rest);
      InsertOrders(n, Sort(rest));
      InsertHolds(n, Sort(rest));
      ConsHolds(n, rest);
    }
  }

  lemma SortMembers(ns: seq<Node>)
    ensures |Sort(ns)| == |ns| && forall x :: x in Sort(ns) <==> x in ns
  {
    SortSorts(ns);
    assert |multiset(Sort(ns))| == |multiset(ns)|;
    forall x ensures x in Sort(ns) <==> x in ns { assert x in Sort(ns) <==> x in multiset(Sort(ns)); }
  }

  // ------------------------------------------------------------------------ pages

  predicate Past(n: Node, after: Option<Position>) {
    after.None? || After(n, after.value)
  }

  /** The nodes past a cursor. */
  function Rest(ns: seq<Node>, after: Option<Position>): (r: seq<Node>)
    ensures forall x :: x in r <==> x in ns && Past(x, after)
  {
    if ns == [] then []
    else (if Past(ns[0], after) then [ns[0]] else []) + Rest(ns[1..], after)
  }

  /** One page of the sorted nodes past the cursor, and the next cursor. */
  function Page(nodes: seq<Node>, after: Option<Position>, limit: int): (seq<Node>, Option<Position>) {
    var rest := Rest(Sort(nodes), after);
    if limit > 0 && |rest| > limit then (rest[..limit], Some(At(rest[limit - 1]))) else (rest, None)
  }

  lemma {:induction false} RestSkips(ns: seq<Node>, p: Position, start: nat)
    requires Ordered(ns) && start <= |ns|
    requires forall i | 0 <= i < start :: !After(ns[i], p)
    requires start < |ns| ==> After(ns[start], p)
    ensures Rest(ns, Some(p)) == ns[start..]
    decreases |ns|
  {
    if ns != [] {
      if start > 0 {
        assert forall i | 0 <= i < start - 1 :: ns[1..][i] == ns[i + 1];
        RestSkips(ns[1..], p, start - 1);
      } else {
        AllPast(ns, p);
      }
    }
  }

  lemma {:induction false} AllPast(ns: seq<Node>, p: Position)
    requires Ordered(ns) && ns != [] && After(ns[0], p)
    ensures Rest(ns, Some(p)) == ns
  {
    if |ns| > 1 {
      BeforeTotal(At(ns[0]), At(ns[1]));
      if Before(At(ns[0]), At(ns[1])) { BeforeTransitive(p, At(ns[0]), At(ns[1])); }
      AllPast(ns[1..], p);
    }
  }

  lemma {:induction false} RestOfNone(ns: seq<Node>)
    ensures Rest(ns, None) == ns
  {
    if ns != [] { RestOfNone(ns[1..]); }
  }

  // --------------------------------------------------------------- in plain terms

  /** The id of m is smaller, character by character. */
  ghost predicate SmallerId(x: string, y: string) {
    exists i: nat :: SmallerAt(x, y, i)
  }

  /** Nodes in order of received time and, at the same time, of id. */
  ghost predicate Chronological(ns: seq<Node>) {
    forall i, j | 0 <= i < j < |ns| ::
      && ns[i].received <= ns[j].received
      && (ns[i].received == ns[j].received ==> !SmallerId(NodeId(ns[j]), NodeId(ns[i])))
  }

  /** The node was received after the cursor's time, or at it with a greater id. */
  ghost predicate Later(n: Node, p: Position) {
    n.received > p.ts || (n.received == p.ts && SmallerId(p.id, NodeId(n)))
  }

  ghost predicate Wanted(n: Node, after: Option<Position>) {
    after.Some? ==> Later(n, after.value)
  }

  lemma PastExactly(n: Node, after: Option<Position>)
    ensures Past(n, after) <==> Wanted(n, after)
  {
    if after.Some? { LessExactly(after.value.id, NodeId(n)); }
  }

  lemma OrderedIsChronological(ns: seq<Node>)
    requires Ordered(ns)
    ensures Chronological(ns)
  {
    forall i, j | 0 <= i < j < |ns|
      ensures ns[i].received <= ns[j].received
      ensures ns[i].received == ns[j].received ==> !SmallerId(NodeId(ns[j]), NodeId(ns[i]))
    {
      assert !Before(At(ns[j]), At(ns[i]));
      LessExactly(NodeId(ns[j]), NodeId(ns[i]));
    }
  }

  lemma {:induction false} RestOrdered(ns: seq<Node>, after: Option<Position>)
    requires Ordered(ns)
    ensures Ordered(Rest(ns, after))
  {
    if ns != [] {
      RestOrdered(ns[1..], after);
      if Past(ns[0], after) {
        forall x <- Rest(ns[1..], after) ensures !Before(At(x), At(ns[0])) {
          var j :| 0 <= j < |ns[1..]| && ns[1..][j] == x;
          assert ns[j + 1] == x;
        }
        OrderedCons(ns[0], Rest(ns[1..], after));
      }
    }
  }

  /** How often each node of `all` belongs on the remaining pages. */
  lemma {:induction false} RestCounts(ns: seq<Node>, after: Option<Position>, n: Node)
    ensures multiset(Rest(ns, after))[n] == if Past(n, after) then multiset(ns)[n] else 0
  {
    if ns != [] {
      var x, rest := ns[0], ns[1..];
      assert ns == [x] + rest;
      RestUnfolds(x, rest, after);
      hide *;
      RestCounts(rest, after, n);
      ConsHolds(x, rest);
      ConsHolds(x, Rest(rest, after));
    }
  }

  lemma RestUnfolds(x: Node, rest: seq<Node>, after: Option<Position>)
    ensures Rest([x] + rest, after) == if Past(x, after) then [x] + Rest(rest, after) else Rest(rest, after)
  {
    assert ([x] + rest)[1..] == rest;
    hide Past;
  }

  /** What is left to page through: every wanted node, as often as it was given, in
      order of time. */
  ghost predicate Remaining(all: seq<Node>, after: Option<Position>, rest: seq<Node>) {
    && Chronological(rest)
    && forall n :: multiset(rest)[n] == if Wanted(n, after) then multiset(all)[n] else 0
  }

  lemma RestRemains(all: seq<Node>, after: Option<Position>)
    ensures Remaining(all, after, Rest(Sort(all), after))
  {
    SortSorts(all);
    RestOrdered(Sort(all), after);
    OrderedIsChronological(Rest(Sort(all), after));
    hide *;
    var rest := Rest(Sort(all), after);
    forall n ensures multiset(rest)[n] == if Wanted(n, after) then multiset(all)[n] else 0 {
      RestCounts(Sort(all), after, n);
      PastExactly(n, after);
    }
    RemainingIs(all, after, rest);
  }

  lemma RemainingIs(all: seq<Node>, after: Option<Position>, rest: seq<Node>)
    requires Chronological(rest) && forall n :: multiset(rest)[n] == if Wanted(n, after) then multiset(all)[n] else 0
    ensures Remaining(all, after, rest)
  {
  }

  /** At one time activities come before events. */
  lemma ActivitiesFirst(ns: seq<Node>, i: nat, j: nat)
    requires Chronological(ns) && i < |ns| && j < |ns| && ns[i].received == ns[j].received
    requires ns[i].ActivityNode? && ns[j].EventNode?
    ensures i < j
  {
    assert NodeId(ns[i])[0] == 'a' && NodeId(ns[j])[0] == 'e';
    assert SmallerAt(NodeId(ns[i]), NodeId(ns[j]), 0);
    assert SmallerId(NodeId(ns[i]), NodeId(ns[j]));
  }

  /** The page is the front of what remains past the cursor, all of it unless the
      limit cuts it, and the next cursor is the last node shown. */
  ghost predicate IsFront(rest: seq<Node>, limit: int, page: seq<Node>, next: Option<Position>) {
    && page <= rest
    && (next.None? <==> limit <= 0 || |rest| <= limit)
    && (next.None? ==> page == rest)
    && (next.Some? ==> |page| == limit && next.value == Position(page[limit - 1].received, NodeId(page[limit - 1])))
  }

  ghost predicate ShowsFlow(all: seq<Node>, after: Option<Position>, limit: int, page: seq<Node>, next: Option<Position>) {
    exists rest :: Remaining(all, after, rest) && IsFront(rest, limit, page, next)
  }

  lemma PageShows(all: seq<Node>, after: Option<Position>, limit: int)
    ensures var (page, next) := Page(all, after, limit); ShowsFlow(all, after, limit, page, next)
  {
    RestRemains(all, after);
    var rest := Rest(Sort(all), after);
    hide Remaining, Rest, Sort, NodeId;
    assert IsFront(rest, limit, Page(all, after, limit).0, Page(all, after, limit).1);
  }

  /** The page, as it is assembled: merge, sort, skip to the cursor, cut. */
  method AssembleFlow(activities: seq<Node>, events: seq<Node>, after: Option<Position>, limit: int)
    returns (page: seq<Node>, next: Option<Position>)
    ensures (page, next) == Page(activities + events, after, limit)
    ensures ShowsFlow(activities + events, after, limit, page, next)
  {
    PageShows(activities + events, after, limit);
    hide ShowsFlow, Page;
    var nodes := [];
    for i := 0 to |activities|
      invariant nodes == activities[..i]
    {
      nodes := nodes + [activities[i]];
    }
    for i := 0 to |events|
      invariant nodes == activities + events[..i]
    {
      nodes := nodes + [events[i]];
    }
    assert nodes == activities + events;
    hide *;
    SortSorts(nodes);
    nodes := Sort(nodes);
    RestOfNone(nodes);
    if after.Some? {
      var start := SkipTo(nodes, after.value);
      nodes := nodes[start..];
    }
    PageIs(activities + events, after, limit);
    if limit > 0 && |nodes| > limit {
      return nodes[..limit], Some(At(nodes[limit - 1]));
    }
    return nodes, None;
  }

  /** The first node past the cursor. */
  method SkipTo(nodes: seq<Node>, p: Position) returns (start: nat)
    requires Ordered(nodes)
    ensures start <= |nodes| && Rest(nodes, Some(p)) == nodes[start..]
  {
    start := 0;
    while start < |nodes| && !After(nodes[start], p)
      invariant start <= |nodes| && forall i | 0 <= i < start :: !After(nodes[i], p)
    {
      start := start + 1;
    }
    RestSkips(nodes, p, start);
  }

  lemma PageIs(nodes: seq<Node>, after: Option<Position>, limit: int)
    ensures var rest := Rest(Sort(nodes), after);
      Page(nodes, after, limit) ==
      if limit > 0 && |rest| > limit then (rest[..limit], Some(At(rest[limit - 1]))) else (rest, None)
  {
    hide Rest, Sort, At;
  }

  // --------------------------------------------------------------- distinct keys

  lemma DistinctCons(n: Node, ns: seq<Node>)
    ensures DistinctKeys([n] + ns) <==> DistinctKeys(ns) && forall x <- ns :: At(x) != At(n)
  {
    hide At;
    var all := [n] + ns;
    assert forall i | 0 <= i < |ns| :: all[i + 1] == ns[i];
    if DistinctKeys(all) {
      forall x <- ns ensures At(x) != At(n) {
        var i :| 0 <= i < |ns| && ns[i] == x;
        assert At(all[0]) != At(all[i + 1]);
      }
      forall i, j | 0 <= i < j < |ns| ensures At(ns[i]) != At(ns[j]) { assert At(all[i + 1]) != At(all[j + 1]); }
    }
    if DistinctKeys(ns) && forall x <- ns :: At(x) != At(n) {
      forall i, j | 0 <= i < j < |all| ensures At(all[i]) != At(all[j]) { assert all[j] in ns; }
    }
  }

  lemma {:induction false} InsertDistinct(n: Node, ns: seq<Node>)
    ensures DistinctKeys(Insert(n, ns)) <==> DistinctKeys([n] + ns)
  {
    hide DistinctKeys;
    DistinctCons(n, ns);
    if ns != [] && Before(At(ns[0]), At(n)) {
      InsertDistinct(n, ns[1..]);
      InsertMembers(n, ns[1..]);
      DistinctCons(n, ns[1..]);
      DistinctCons(ns[0], Insert(n, ns[1..]));
      DistinctCons(ns[0], ns[1..]);
      assert ns == [ns[0]] + ns[1..];
      BeforeTotal(At(ns[0]), At(n));
    }
  }

  lemma {:induction false} SortDistinct(ns: seq<Node>)
    ensures DistinctKeys(Sort(ns)) <==> DistinctKeys(ns)
  {
    if ns != [] {
      SortDistinct(ns[1..]);
      SortMembers(ns[1..]);
      InsertDistinct(ns[0], Sort(ns[1..]));
      hide DistinctKeys;
      DistinctCons(ns[0], Sort(ns[1..]));
      DistinctCons(ns[0], ns[1..]);
      assert ns == [ns[0]] + ns[1..];
    }
  }

  lemma SortStrict(ns: seq<Node>)
    ensures Strict(Sort(ns)) <==> DistinctKeys(ns)
  {
    SortDistinct(ns);
    SortSorts(ns);
    var all := Sort(ns);
    forall i, j | 0 <= i < j < |all| ensures Before(At(all[i]), At(all[j])) <==> At(all[i]) != At(all[j]) {
      BeforeTotal(At(all[i]), At(all[j]));
    }
  }

  // ----------------------------------------------------------------- one set of nodes

  lemma {:induction false} RestShrinks(ns: seq<Node>, after: Option<Position>, x: Node)
    requires Past(x, after)
    ensures |Rest(ns, Some(At(x)))| <= |Rest(ns, after)|
    ensures x in ns ==> |Rest(ns, Some(At(x)))| < |Rest(ns, after)|
  {
    if ns != [] {
      RestShrinks(ns[1..], after, x);
      StillPast(ns[0], x, after);
    }
  }

  /** Past a node that is past the cursor is past the cursor; no node is past itself. */
  lemma StillPast(n: Node, x: Node, after: Option<Position>)
    requires Past(x, after)
    ensures Past(n, Some(At(x))) ==> Past(n, after)
    ensures !Past(x, Some(At(x)))
  {
    BeforeTotal(At(x), At(x));
    if after.Some? && Past(n, Some(At(x))) { BeforeTransitive(after.value, At(x), At(n)); }
  }

  /** Following cursors over one set of nodes: the pages put together. */
  function Follow(nodes: seq<Node>, after: Option<Position>, limit: int): seq<Node>
    decreases |Rest(Sort(nodes), after)|
  {
    var rest := Rest(Sort(nodes), after);
    var (page, next) := Page(nodes, after, limit);
    if next.None? then page
    else
      assert rest[limit - 1] in rest;
      RestShrinks(Sort(nodes), after, rest[limit - 1]);
      page + Follow(nodes, next, limit)
  }

  lemma RestIsSuffix(ns: seq<Node>, after: Option<Position>) returns (start: nat)
    requires Ordered(ns)
    ensures start <= |ns| && Rest(ns, after) == ns[start..]
  {
    start := 0;
    if after.None? {
      RestOfNone(ns);
      return;
    }
    while start < |ns| && !After(ns[start], after.value)
      invariant start <= |ns| && forall i | 0 <= i < start :: !After(ns[i], after.value)
    {
      start := start + 1;
    }
    RestSkips(ns, after.value, start);
  }

  lemma RestAfterNode(ns: seq<Node>, k: nat)
    requires Strict(ns) && Ordered(ns) && k < |ns|
    ensures Rest(ns, Some(At(ns[k]))) == ns[k + 1..]
  {
    hide NodeId, Less, Rest;
    forall i | 0 <= i < k + 1 ensures !After(ns[i], At(ns[k])) { BeforeTotal(At(ns[i]), At(ns[k])); }
    RestSkips(ns, At(ns[k]), k + 1);
  }

  lemma {:induction false} FollowIsRest(nodes: seq<Node>, after: Option<Position>, limit: int)
    requires DistinctKeys(nodes)
    ensures Follow(nodes, after, limit) == Rest(Sort(nodes), after)
    decreases |Rest(Sort(nodes), after)|
  {
    var all, rest := Sort(nodes), Rest(Sort(nodes), after);
    SortStrict(nodes);
    SortSorts(nodes);
    hide Sort, NodeId, Less, Rest, Ordered, Strict, Before;
    var start := RestIsSuffix(all, after);
    if limit > 0 && |rest| > limit {
      hide DistinctKeys;
      assert rest[limit - 1] == all[start + limit - 1] && rest[limit - 1] in rest;
      RestShrinks(all, after, rest[limit - 1]);
      RestAfterNode(all, start + limit - 1);
      assert rest[limit..] == all[start + limit..];
      FollowIsRest(nodes, Some(At(rest[limit - 1])), limit);
      assert rest == rest[..limit] + rest[limit..];
    }
  }

  /** One node a page, whatever the keys: what comes out strictly ascends. */
  lemma {:induction false} SinglesAscend(nodes: seq<Node>, after: Option<Position>)
    ensures Strict(Follow(nodes, after, 1)) && forall x <- Follow(nodes, after, 1) :: Past(x, after)
    decreases |Rest(Sort(nodes), after)|
  {
    var rest := Rest(Sort(nodes), after);
    hide Sort;
    if |rest| > 1 {
      var x := rest[0];
      assert x in rest;
      RestShrinks(Sort(nodes), after, x);
      var later := Follow(nodes, Some(At(x)), 1);
      SinglesAscend(nodes, Some(At(x)));
      assert Follow(nodes, after, 1) == [x] + later;
      forall y <- later ensures Past(y, after) { StillPast(y, x, after); }
      forall j | 0 <= j < |later| ensures Before(At(x), At(later[j])) { assert later[j] in later; }
    }
  }

  /** Following the cursors lists the sorted nodes, at every page size, exactly
      when no two nodes share time and id. */
  lemma PagingExactly(nodes: seq<Node>)
    ensures (forall limit: int :: Follow(nodes, None, limit) == Sort(nodes)) <==> DistinctKeys(nodes)
  {
    RestOfNone(Sort(nodes));
    SortStrict(nodes);
    SinglesAscend(nodes, None);
    hide Follow, Sort, Strict, DistinctKeys, Rest;
    if DistinctKeys(nodes) {
      forall limit: int ensures Follow(nodes, None, limit) == Sort(nodes) { FollowIsRest(nodes, None, limit); }
    } else {
      assert Follow(nodes, None, 1) != Sort(nodes);
    }
  }

  // --------------------------------------------------- nodes arriving between pages

  /** The pages so far, whether the last has been read, and the cursor. */
  datatype Walk = Walk(out: seq<Node>, done: bool, cursor: Option<Position>)

  /** Each page is cut from what is there when it is fetched. */
  function Fetch(fetches: seq<seq<Node>>, after: Option<Position>, limit: int): Walk {
    if fetches == [] then Walk([], false, after)
    else
      var (page, next) := Page(fetches[0], after, limit);
      if next.None? then Walk(page, true, after)
      else
        var later := Fetch(fetches[1..], next, limit);
        later.(out := page + later.out)
  }

  ghost predicate Throughout(n: Node, fetches: seq<seq<Node>>) {
    forall k | 0 <= k < |fetches| :: n in fetches[k]
  }

  ghost predicate AllDistinct(fetches: seq<seq<Node>>) {
    forall k | 0 <= k < |fetches| :: DistinctKeys(fetches[k])
  }

  /** Cutting a strictly ascending list: the cut takes exactly what is up to its last. */
  lemma CutFacts(rest: seq<Node>, limit: nat)
    requires Strict(rest) && 0 < limit <= |rest|
    ensures forall x <- rest :: x in rest[..limit] <==> !Past(x, Some(At(rest[limit - 1])))
  {
    hide NodeId, Less;
    var last := rest[limit - 1];
    forall x <- rest ensures x in rest[..limit] <==> !Past(x, Some(At(last))) {
      var i :| 0 <= i < |rest| && rest[i] == x;
      BeforeTotal(At(x), At(last));
      if i < limit {
        assert rest[..limit][i] == x;
      } else {
        assert Before(At(last), At(x));
        assert forall j | 0 <= j < limit :: Before(At(rest[j]), At(x));
        BeforeTotal(At(x), At(x));
      }
    }
  }

  lemma RestFacts(nodes: seq<Node>, after: Option<Position>)
    requires DistinctKeys(nodes)
    ensures Strict(Rest(Sort(nodes), after))
    ensures forall n :: n in Rest(Sort(nodes), after) <==> n in nodes && Past(n, after)
  {
    SortStrict(nodes);
    SortSorts(nodes);
    SortMembers(nodes);
    var start := RestIsSuffix(Sort(nodes), after);
    hide Sort, At, Before, Ordered;
  }

  lemma CutAdvances(rest: seq<Node>, limit: nat, after: Option<Position>)
    requires Strict(rest) && 0 < limit <= |rest| && forall x <- rest :: Past(x, after)
    ensures Strict(rest[..limit]) && forall x <- rest[..limit] :: x in rest && Past(x, after)
    ensures forall n: Node :: Past(n, Some(At(rest[limit - 1]))) ==> Past(n, after)
  {
    hide At, Before, Past;
    assert rest[limit - 1] in rest;
    forall n: Node ensures Past(n, Some(At(rest[limit - 1]))) ==> Past(n, after) { StillPast(n, rest[limit - 1], after); }
  }

  /** A page strictly ascends past the cursor and takes exactly what is up to the next. */
  lemma PageFacts(nodes: seq<Node>, after: Option<Position>, limit: int)
    requires DistinctKeys(nodes)
    ensures var (page, next) := Page(nodes, after, limit);
      && Strict(page)
      && (forall x <- page :: Past(x, after) && (next.Some? ==> !Past(x, next)))
      && (forall n <- nodes | Past(n, after) :: n in page <==> next.None? || !Past(n, next))
      && (next.Some? ==> forall n: Node :: Past(n, next) ==> Past(n, after))
  {
    var rest := Rest(Sort(nodes), after);
    hide Sort, Rest, Strict, Past, At, DistinctKeys;
    RestFacts(nodes, after);
    if limit > 0 && |rest| > limit {
      CutFacts(rest, limit);
      CutAdvances(rest, limit, after);
    }
  }

  lemma {:induction false} CursorAdvances(fetches: seq<seq<Node>>, after: Option<Position>, limit: int, n: Node)
    requires AllDistinct(fetches) && Past(n, Fetch(fetches, after, limit).cursor)
    ensures Past(n, after)
  {
    if fetches != [] {
      var (page, next) := Page(fetches[0], after, limit);
      if next.Some? {
        PageFacts(fetches[0], after, limit);
        hide Page;
        CursorAdvances(fetches[1..], next, limit, n);
      }
    }
  }

  lemma StrictConcat(page: seq<Node>, later: seq<Node>, p: Position)
    requires Strict(page) && Strict(later)
    requires (forall x <- page :: !Past(x, Some(p))) && forall y <- later :: Past(y, Some(p))
    ensures Strict(page + later)
  {
    var all := page + later;
    forall i, j | 0 <= i < j < |all| ensures Before(At(all[i]), At(all[j])) {
      if i < |page| <= j {
        assert all[i] in page && all[j] in later;
        BeforeTotal(p, At(all[i]));
        if Before(At(all[i]), p) { BeforeTransitive(At(all[i]), p, At(all[j])); }
      }
    }
  }

  lemma {:induction false} FetchAscends(fetches: seq<seq<Node>>, after: Option<Position>, limit: int)
    requires AllDistinct(fetches)
    ensures var w := Fetch(fetches, after, limit); Strict(w.out) && forall x <- w.out :: Past(x, after)
  {
    if fetches != [] {
      var (page, next) := Page(fetches[0], after, limit);
      PageFacts(fetches[0], after, limit);
      hide Page;
      if next.Some? {
        FetchAscends(fetches[1..], next, limit);
        StrictConcat(page, Fetch(fetches[1..], next, limit).out, next.value);
      }
    }
  }

  /** Whatever arrives between fetches, no node is seen twice, and a node present
      throughout has been seen as soon as the cursor is past it, hence by the end. */
  lemma {:induction false} PresentSeenOnce(fetches: seq<seq<Node>>, after: Option<Position>, limit: int, n: Node)
    requires AllDistinct(fetches) && Throughout(n, fetches) && Past(n, after)
    ensures var w := Fetch(fetches, after, limit);
      Strict(w.out) && (n in w.out <==> w.done || !Past(n, w.cursor))
  {
    FetchAscends(fetches, after, limit);
    if fetches != [] {
      var (page, next) := Page(fetches[0], after, limit);
      PageFacts(fetches[0], after, limit);
      hide Page, Strict;
      if next.Some? {
        var w := Fetch(fetches[1..], next, limit);
        if Past(n, next) {
          PresentSeenOnce(fetches[1..], next, limit, n);
        } else {
          if Past(n, w.cursor) { CursorAdvances(fetches[1..], next, limit, n); }
        }
      }
    }
  }

  // -------------------------------------------------------------------- node ids

  lemma CutFirst(a: string, x: string, b: string, y: string)
    requires '|' !in a && '|' !in b && a + "|" + x == b + "|" + y
    ensures a == b && x == y
  {
    CutAt(a, '|', x);
    CutAt(b, '|', y);
  }

  lemma CutLast(a: string, x: string, b: string, y: string)
    requires '|' !in x && '|' !in y && a + "|" + x == b + "|" + y
    ensures a == b && x == y
  {
    var s := a + "|" + x;
    assert s[|a|] == '|' && s[|b|] == '|';
    assert forall i | |a| < i < |s| :: s[i] == x[i - |a| - 1] && s[i] in x;
    assert forall i | |b| < i < |s| :: s[i] == y[i - |b| - 1] && s[i] in y;
    assert |a| == |b|;
    assert s[..|a|] == a && s[..|b|] == b && s[|a| + 1..] == x && s[|b| + 1..] == y;
  }

  lemma {:induction false} ItoaPlain(v: int)
    ensures '|' !in Itoa(v)
  {
    if v < 0 { assert forall c <- Itoa(-v) :: IsDigit(c); } else { assert forall c <- Itoa(v) :: IsDigit(c); }
  }

  predicate PlainName(n: Node) { n.EventNode? ==> '|' !in n.collection }

  /** What a node id is meant to stand for. */
  predicate SameNode(m: Node, n: Node) {
    match (m, n)
    case (ActivityNode(a, _), ActivityNode(b, _)) => a == b
    case (EventNode(c, e, v, _), EventNode(d, f, w, _)) => c == d && e == f && v == w
    case _ => false
  }

  /** Node ids tell nodes apart as long as collection names have no '|'. */
  lemma NodeIdInjective(m: Node, n: Node)
    requires PlainName(m) && PlainName(n)
    ensures NodeId(m) == NodeId(n) <==> SameNode(m, n)
  {
    if NodeId(m) == NodeId(n) {
      assert NodeId(m)[0] == NodeId(n)[0] && NodeId(m)[2..] == NodeId(n)[2..];
      match (m, n)
      case (ActivityNode(a, _), ActivityNode(b, _)) =>
        assert NodeId(m)[2..] == a && NodeId(n)[2..] == b;
      case (EventNode(c, e, v, _), EventNode(d, f, w, _)) =>
        EventIdInjective(c, e, v, d, f, w);
      case _ =>
        assert false;
    }
  }

  lemma EventIdInjective(c: string, e: string, v: int, d: string, f: string, w: int)
    requires '|' !in c && '|' !in d
    requires "e|" + c + "|" + e + "|" + Itoa(v) == "e|" + d + "|" + f + "|" + Itoa(w)
    ensures c == d && e == f && v == w
  {
    ItoaPlain(v);
    ItoaPlain(w);
    CutLast("e|" + c + "|" + e, Itoa(v), "e|" + d + "|" + f, Itoa(w));
    ItoaInjective(v, w);
    assert ("e|" + c + "|" + e)[2..] == c + "|" + e && ("e|" + d + "|" + f)[2..] == d + "|" + f;
    CutFirst(c, e, d, f);
  }

  /** Nodes that differ in what they are have different keys, so following the cursors
      lists them all, whatever the page size and however many share a time. */
  lemma DistinctNodesPage(nodes: seq<Node>, limit: int)
    requires (forall n <- nodes :: PlainName(n)) && forall i, j | 0 <= i < j < |nodes| :: !SameNode(nodes[i], nodes[j])
    ensures Follow(nodes, None, limit) == Sort(nodes)
  {
    hide Follow, Sort, NodeId, SameNode;
    forall i, j | 0 <= i < j < |nodes| ensures At(nodes[i]) != At(nodes[j]) {
      assert nodes[i] in nodes && nodes[j] in nodes;
      NodeIdInjective(nodes[i], nodes[j]);
    }
    PagingExactly(nodes);
  }

  /** A name with '|' in it always shares its ids with nodes of a shorter name. */
  lemma BarredNameClashes(n: Node) returns (m: Node)
    requires n.EventNode? && '|' in n.collection
    ensures m.EventNode? && '|' !in m.collection && NodeId(m) == NodeId(n) && !SameNode(m, n)
  {
    var c, k := n.collection, Find(n.collection, '|');
    m := EventNode(c[..k], c[k + 1..] + "|" + n.entity, n.version, n.received);
    assert c == c[..k] + "|" + c[k + 1..];
    assert c + "|" + n.entity == c[..k] + "|" + (c[k + 1..] + "|" + n.entity);
    assert "e|" + c + "|" + n.entity == "e|" + (c + "|" + n.entity);
    assert "e|" + c[..k] + "|" + m.entity == "e|" + (c[..k] + "|" + m.entity);
  }
}
