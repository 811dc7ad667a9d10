/**
 The search for the users of a value: depth first over a graph that may have cycles, with one set
 of visited values shared by all branches, and with some edges that are followed only if another
 value has been visited already.
 */
module UserWalk {
  import opened Prelude

  type Value = nat

  datatype Callee = Callee(params: seq<Value>, isInto: bool)

  /** An indirect call has no known callee. */
  datatype Kind =
    | Call(callee: Option<Callee>, args: seq<Value>)
    | Store(pointer: Value)
    | Other

  datatype Node = Node(isLabel: bool, kind: Kind, users: seq<Value>)

  type Graph = seq<Node>

  datatype Mode = Mode(restrictCrossFunction: bool, disableCrossFunction: bool)

  /** Every reference is to a value of the graph, and a callee has a parameter for every argument. */
  predicate WellFormed(g: Graph) {
    forall x :: 0 <= x < |g| ==>
      && (forall y :: y in g[x].users ==> y < |g|)
      && (g[x].kind.Store? ==> g[x].kind.pointer < |g|)
      && (g[x].kind.Call? ==>
           && (forall y :: y in g[x].kind.args ==> y < |g|)
           && (g[x].kind.callee.Some? ==>
                && |g[x].kind.callee.value.params| >= |g[x].kind.args|
                && forall y :: y in g[x].kind.callee.value.params ==> y < |g|))
  }

  predicate InGraph(g: Graph, x: Value) {
    x < |g|
  }

  function Values(g: Graph): set<Value> {
    set x: Value | 0 <= x < |g| && InGraph(g, x)
  }

  predicate IsParameter(call: Kind, y: Value) {
    call.Call? && call.callee.Some?
    && exists i :: 0 <= i < |call.args| && i < |call.callee.value.params| && call.callee.value.params[i] == y
  }

  /** Edges followed whenever x is visited. */
  predicate Edge(g: Graph, m: Mode, x: Value, y: Value) {
    x < |g|
    && (|| y in g[x].users
        || (g[x].kind.Store? && g[x].kind.pointer == y)
        || (!m.disableCrossFunction && !m.restrictCrossFunction && IsParameter(g[x].kind, y)))
  }

  /** A call leads to a parameter whose argument was visited, and an into() back to its result slot. */
  predicate ConditionalEdge(g: Graph, m: Mode, visited: set<Value>, x: Value, y: Value) {
    x < |g| && g[x].kind.Call? && g[x].kind.callee.Some?
    && var args := g[x].kind.args;
       var callee := g[x].kind.callee.value;
       || (!m.disableCrossFunction
           && exists i :: 0 <= i < |args| && i < |callee.params| && callee.params[i] == y && args[i] in visited)
       || (callee.isInto && |args| >= 2 && args[1] in visited && args[0] == y)
  }

  predicate Visitable(g: Graph, y: Value) {
    y < |g| && !g[y].isLabel
  }

  /** Nothing visitable is one unconditional edge away from a value of s. */
  ghost predicate ClosedUnderEdges(g: Graph, m: Mode, s: set<Value>) {
    forall x, y :: x in s && Edge(g, m, x, y) && Visitable(g, y) ==> y in s
  }

  /** Nothing visitable is one edge of any kind away from a value of s. */
  ghost predicate ClosedUnderAll(g: Graph, m: Mode, s: set<Value>) {
    && ClosedUnderEdges(g, m, s)
    && forall x, y :: x in s && ConditionalEdge(g, m, s, x, y) && Visitable(g, y) ==> y in s
  }

  /** The unconditional edges from the values of done have been followed. */
  ghost predicate Followed(g: Graph, m: Mode, done: set<Value>, visited: set<Value>) {
    forall x, y :: x in done && Edge(g, m, x, y) && Visitable(g, y) ==> y in visited
  }

  /** The conditional edges from the values of done that fire given the base have been followed. */
  ghost predicate Fired(g: Graph, m: Mode, base: set<Value>, done: set<Value>, visited: set<Value>) {
    forall x, y :: x in done && ConditionalEdge(g, m, base, x, y) && Visitable(g, y) ==> y in visited
  }

  /** The visited values lie in every closed set that holds the base. */
  ghost predicate WithinClosure(g: Graph, m: Mode, base: set<Value>, visited: set<Value>) {
    forall t: set<Value> :: base <= t && ClosedUnderAll(g, m, t) ==> visited <= t
  }

  // The order in which values are visited

  ghost function SetOf(order: seq<Value>): set<Value> {
    set x | x in order
  }

  /** An edge leads from x to y, given what has been visited. */
  predicate Leads(g: Graph, m: Mode, visited: set<Value>, x: Value, y: Value) {
    Visitable(g, y) && (Edge(g, m, x, y) || ConditionalEdge(g, m, visited, x, y))
  }

  /** Where the edges lead that were there when the k-th value was visited, is visited as well. */
  ghost predicate CompleteAt(g: Graph, m: Mode, order: seq<Value>, k: nat)
    requires k < |order|
  {
    forall y :: Leads(g, m, SetOf(order[..k + 1]), order[k], y) ==> y in order
  }

  ghost predicate Complete(g: Graph, m: Mode, order: seq<Value>, from: nat) {
    forall k :: from <= k < |order| ==> CompleteAt(g, m, order, k)
  }

  /** The k-th value was visited because of an edge, there at that moment, from a value of the same search. */
  ghost predicate ReachedAt(g: Graph, m: Mode, order: seq<Value>, from: nat, k: nat)
    requires k < |order|
  {
    exists j :: from <= j < k && Leads(g, m, SetOf(order[..k]), order[j], order[k])
  }

  ghost predicate Reached(g: Graph, m: Mode, order: seq<Value>, from: nat) {
    forall k :: from < k < |order| ==> ReachedAt(g, m, order, from, k)
  }

  /** A search that the value at a position has led to goes on in the same order. */
  lemma GoesOn(g: Graph, m: Mode, before: seq<Value>, after: seq<Value>, at: nat, y: Value)
    requires at < |before| && before <= after
    requires Complete(g, m, before, at + 1) && Complete(g, m, after, |before|)
    requires Reached(g, m, before, at) && Reached(g, m, after, |before|)
    requires before == after || (after[|before|] == y && Leads(g, m, SetOf(before), before[at], y))
    ensures Complete(g, m, after, at + 1) && Reached(g, m, after, at)
  {
    forall k | at < k < |after|
      ensures CompleteAt(g, m, after, k) && ReachedAt(g, m, after, at, k)
    {
      if k < |before| {
        assert CompleteAt(g, m, before, k) && ReachedAt(g, m, before, at, k);
        assert before[..k + 1] == after[..k + 1] && before[..k] == after[..k];
        assert after == before + after[|before|..];
      } else if k == |before| {
        assert after[..k] == before && after[at] == before[at];
      } else {
        assert ReachedAt(g, m, after, |before|, k);
      }
    }
  }

  /** What fewer visited values make fire, more do. */
  lemma MoreFires(g: Graph, m: Mode, fewer: set<Value>, more: set<Value>, x: Value, y: Value)
    requires fewer <= more && ConditionalEdge(g, m, fewer, x, y)
    ensures ConditionalEdge(g, m, more, x, y)
  {
  }

  /** Edges that what was visited before a search, or its start, makes fire were there all along. */
  lemma CompleteMeansFired(g: Graph, m: Mode, before: seq<Value>, v: Value, order: seq<Value>)
    requires before + [v] <= order && Complete(g, m, order, |before|)
    ensures Followed(g, m, SetOf(order) - SetOf(before), SetOf(order))
    ensures Fired(g, m, SetOf(before) + {v}, SetOf(order) - SetOf(before), SetOf(order))
  {
    forall x: Value, y: Value | x in SetOf(order) - SetOf(before) && Leads(g, m, SetOf(before) + {v}, x, y)
      ensures y in order
    {
      var k := PositionOfNew(before, order, x);
      assert CompleteAt(g, m, order, k);
      StartIsVisited(before, v, order, k);
      if ConditionalEdge(g, m, SetOf(before) + {v}, x, y) {
        MoreFires(g, m, SetOf(before) + {v}, SetOf(order[..k + 1]), x, y);
      }
    }
    assert forall x, y :: Visitable(g, y) && (Edge(g, m, x, y) || ConditionalEdge(g, m, SetOf(before) + {v}, x, y))
                          ==> Leads(g, m, SetOf(before) + {v}, x, y);
  }

  lemma PositionOfNew(before: seq<Value>, order: seq<Value>, x: Value) returns (k: nat)
    requires before <= order && x in order && x !in before
    ensures |before| <= k < |order| && order[k] == x
  {
    assert order == before + order[|before|..];
    var i :| 0 <= i < |order| - |before| && order[|before|..][i] == x;
    k := |before| + i;
  }

  lemma StartIsVisited(before: seq<Value>, v: Value, order: seq<Value>, k: nat)
    requires before + [v] <= order && |before| <= k < |order|
    ensures SetOf(before) + {v} <= SetOf(order[..k + 1])
  {
    forall x | x in SetOf(before) + {v}
      ensures x in order[..k + 1]
    {
      assert x in before + [v];
      var i :| 0 <= i < |before + [v]| && (before + [v])[i] == x;
      assert order[..k + 1][i] == order[i] == x;
    }
  }

  /** By induction along the order: a closed set that holds the start holds all that is visited. */
  lemma {:induction false} ReachedIsWithin(g: Graph, m: Mode, order: seq<Value>, from: nat, t: set<Value>, k: nat)
    requires from < |order| && Reached(g, m, order, from)
    requires SetOf(order[..from + 1]) <= t && ClosedUnderAll(g, m, t) && k <= |order|
    ensures SetOf(order[..k]) <= t
  {
    if k > from + 1 {
      ReachedIsWithin(g, m, order, from, t, k - 1);
      assert ReachedAt(g, m, order, from, k - 1);
      var j :| from <= j < k - 1 && Leads(g, m, SetOf(order[..k - 1]), order[j], order[k - 1]);
      assert order[j] == order[..k - 1][j];
      if ConditionalEdge(g, m, SetOf(order[..k - 1]), order[j], order[k - 1]) {
        MoreFires(g, m, SetOf(order[..k - 1]), t, order[j], order[k - 1]);
      }
      assert order[..k] == order[..k - 1] + [order[k - 1]];
    } else {
      assert order[..k] <= order[..from + 1];
    }
  }

  lemma ReachedMeansWithin(g: Graph, m: Mode, before: seq<Value>, v: Value, order: seq<Value>)
    requires before + [v] <= order && Reached(g, m, order, |before|)
    ensures WithinClosure(g, m, SetOf(before) + {v}, SetOf(order))
  {
    assert order[..|before| + 1] == before + [v];
    forall t: set<Value> | SetOf(before) + {v} <= t && ClosedUnderAll(g, m, t)
      ensures SetOf(order) <= t
    {
      ReachedIsWithin(g, m, order, |before|, t, |order|);
      assert order[..|order|] == order;
    }
  }

  /** The set that the search fills in place, and the order in which it does. */
  class ValueSet {
    var elems: set<Value>
    ghost var order: seq<Value>

    ghost predicate Valid()
      reads this
    {
      elems == SetOf(order) && forall j, k :: 0 <= j < k < |order| ==> order[j] != order[k]
    }

    constructor ()
      ensures Valid() && elems == {} && order == []
    {
      elems, order := {}, [];
    }

    method Insert(v: Value)
      requires Valid() && v !in elems
      modifies this
      ensures Valid() && elems == old(elems) + {v} && order == old(order) + [v]
    {
      elems, order := elems + {v}, order + [v];
    }
  }

  /**
   Visits v unless it is a label or visited. Whatever is visited after v is visited because of an edge
   that is there at that moment, from v or from a value visited since. Where the edges of a visited
   value lead that are there when it is visited, all is visited in the end.
   */
  method SimpleFindUsers(g: Graph, v: Value, acc: ValueSet, m: Mode)
    requires WellFormed(g) && InGraph(g, v) && acc.Valid() && acc.elems <= Values(g)
    modifies acc
    ensures acc.Valid() && old(acc.elems) <= acc.elems <= Values(g)
    ensures g[v].isLabel || v in old(acc.elems) ==> acc.order == old(acc.order)
    ensures !g[v].isLabel && v !in old(acc.elems) ==> old(acc.order) + [v] <= acc.order
    ensures Reached(g, m, acc.order, |old(acc.order)|)
    ensures Complete(g, m, acc.order, |old(acc.order)|)
    decreases Values(g) - acc.elems, 1
  {
    if g[v].isLabel {
      return;
    }
    if v in acc.elems {
      return;
    }
    ghost var at := |acc.order|;
    acc.Insert(v);
    ghost var start := acc.order;
    match g[v].kind {
      case Call(callee, args) =>
        FollowCall(g, v, acc, m);
      case Store(pointer) =>
        SimpleFindUsers(g, pointer, acc, m);
        GoesOn(g, m, start, acc.order, at, pointer);
      case Other =>
    }
    ghost var withoutUsers := acc.order;
    for k := 0 to |g[v].users|
      invariant acc.Valid() && acc.elems <= Values(g) && withoutUsers <= acc.order
      invariant Complete(g, m, acc.order, at + 1) && Reached(g, m, acc.order, at)
      invariant forall j :: 0 <= j < k && Visitable(g, g[v].users[j]) ==> g[v].users[j] in acc.order
    {
      assert g[v].users[k] in g[v].users;
      ghost var before := acc.order;
      SimpleFindUsers(g, g[v].users[k], acc, m);
      GoesOn(g, m, before, acc.order, at, g[v].users[k]);
    }
    StartIsComplete(g, m, v, start, withoutUsers, acc.order);
  }

  lemma StartIsComplete(g: Graph, m: Mode, v: Value, start: seq<Value>, withoutUsers: seq<Value>, order: seq<Value>)
    requires start != [] && start[|start| - 1] == v && start <= withoutUsers <= order && Visitable(g, v)
    requires g[v].kind.Call? ==> CallFollowed(g, m, v, SetOf(start), SetOf(withoutUsers))
    requires g[v].kind.Store? && Visitable(g, g[v].kind.pointer) ==> g[v].kind.pointer in withoutUsers
    requires forall y :: y in g[v].users && Visitable(g, y) ==> y in order
    ensures CompleteAt(g, m, order, |start| - 1)
  {
    assert order[..|start|] == start;
    forall y: Value | Leads(g, m, SetOf(start), v, y)
      ensures y in order
    {
      assert y in withoutUsers ==> y in order;
    }
  }

  /** The edges of the call are followed but for those to its users. */
  ghost predicate CallFollowed(g: Graph, m: Mode, v: Value, base: set<Value>, visited: set<Value>)
    requires v < |g| && g[v].kind.Call?
  {
    && Fired(g, m, base, {v}, visited)
    && (!m.disableCrossFunction && !m.restrictCrossFunction ==>
         forall y :: IsParameter(g[v].kind, y) && Visitable(g, y) ==> y in visited)
  }

  /** The call's argument with this number, if it was visited in time, has led to its parameter. */
  predicate ArgumentFollowed(g: Graph, m: Mode, call: Kind, j: nat, base: set<Value>, visited: set<Value>)
    requires call.Call? && j < |call.args| && (call.callee.Some? ==> |call.callee.value.params| >= |call.args|)
  {
    call.callee.Some? && !m.disableCrossFunction && (!m.restrictCrossFunction || call.args[j] in base)
    && Visitable(g, call.callee.value.params[j])
    ==> call.callee.value.params[j] in visited
  }

  /** The conversion into() has led back to its result slot, if its source was visited in time. */
  predicate IntoFollowed(g: Graph, call: Kind, base: set<Value>, visited: set<Value>)
    requires call.Call?
  {
    call.callee.Some? && call.callee.value.isInto && |call.args| >= 2 && call.args[1] in base && Visitable(g, call.args[0])
    ==> call.args[0] in visited
  }

  /** The edges of a call, argument by argument, after the call itself was added. */
  method FollowCall(g: Graph, v: Value, acc: ValueSet, m: Mode)
    requires WellFormed(g) && Visitable(g, v) && acc.Valid() && acc.elems <= Values(g)
    requires acc.order != [] && acc.order[|acc.order| - 1] == v
    requires g[v].kind.Call?
    modifies acc
    ensures acc.Valid() && acc.elems <= Values(g) && old(acc.order) <= acc.order
    ensures Complete(g, m, acc.order, |old(acc.order)|) && Reached(g, m, acc.order, |old(acc.order)| - 1)
    ensures CallFollowed(g, m, v, old(acc.elems), acc.elems)
    decreases Values(g) - acc.elems, 3
  {
    ghost var base, at := acc.elems, |acc.order| - 1;
    for i := 0 to |g[v].kind.args|
      invariant acc.Valid() && base <= acc.elems <= Values(g) && old(acc.order) <= acc.order
      invariant Complete(g, m, acc.order, at + 1) && Reached(g, m, acc.order, at)
      invariant forall j :: 0 <= j < i ==> ArgumentFollowed(g, m, g[v].kind, j, base, acc.elems)
      invariant i > 0 ==> IntoFollowed(g, g[v].kind, base, acc.elems)
    {
      ghost var start := acc.elems;
      FollowArgument(g, v, i, acc, m, at);
      ArgumentsStayFollowed(g, m, g[v].kind, i, base, start, acc.elems);
    }
    CallFired(g, m, v, base, acc.elems);
  }

  /** What the call does for one of its arguments: on to the parameter, and from an into() to its result slot. */
  method FollowArgument(g: Graph, v: Value, i: nat, acc: ValueSet, m: Mode, ghost at: nat)
    requires WellFormed(g) && Visitable(g, v) && acc.Valid() && acc.elems <= Values(g)
    requires g[v].kind.Call? && i < |g[v].kind.args|
    requires at < |acc.order| && acc.order[at] == v
    requires Complete(g, m, acc.order, at + 1) && Reached(g, m, acc.order, at)
    modifies acc
    ensures acc.Valid() && old(acc.elems) <= acc.elems <= Values(g) && old(acc.order) <= acc.order
    ensures Complete(g, m, acc.order, at + 1) && Reached(g, m, acc.order, at)
    ensures ArgumentFollowed(g, m, g[v].kind, i, old(acc.elems), acc.elems)
    ensures IntoFollowed(g, g[v].kind, old(acc.elems), acc.elems)
    decreases Values(g) - acc.elems, 2
  {
    var callee, args := g[v].kind.callee, g[v].kind.args;
    ghost var start := acc.order;
    if !m.disableCrossFunction && callee.Some? && (!m.restrictCrossFunction || args[i] in acc.elems) {
      assert callee.value.params[i] in callee.value.params;
      SimpleFindUsers(g, callee.value.params[i], acc, m);
      GoesOn(g, m, start, acc.order, at, callee.value.params[i]);
    }
    ghost var middle := acc.order;
    if callee.Some? && callee.value.isInto && |args| >= 2 && args[1] in acc.elems {
      assert args[0] in args;
      SimpleFindUsers(g, args[0], acc, m);
      GoesOn(g, m, middle, acc.order, at, args[0]);
    }
  }

  lemma ArgumentsStayFollowed(g: Graph, m: Mode, call: Kind, i: nat, base: set<Value>, before: set<Value>, after: set<Value>)
    requires call.Call? && i <= |call.args| && (call.callee.Some? ==> |call.callee.value.params| >= |call.args|)
    requires before <= after
    requires forall j :: 0 <= j < i ==> ArgumentFollowed(g, m, call, j, base, before)
    ensures forall j :: 0 <= j < i ==> ArgumentFollowed(g, m, call, j, base, after)
  {
    forall j | 0 <= j < i
      ensures ArgumentFollowed(g, m, call, j, base, after)
    {
      assert ArgumentFollowed(g, m, call, j, base, before);
    }
  }

  lemma CallFired(g: Graph, m: Mode, v: Value, base: set<Value>, visited: set<Value>)
    requires WellFormed(g) && Visitable(g, v) && g[v].kind.Call?
    requires forall j :: 0 <= j < |g[v].kind.args| ==> ArgumentFollowed(g, m, g[v].kind, j, base, visited)
    requires |g[v].kind.args| > 0 ==> IntoFollowed(g, g[v].kind, base, visited)
    ensures CallFollowed(g, m, v, base, visited)
  {
    var call := g[v].kind;
    forall y: Value | ConditionalEdge(g, m, base, v, y) && Visitable(g, y)
      ensures y in visited
    {
      if i :| 0 <= i < |call.args| && call.callee.value.params[i] == y && call.args[i] in base && !m.disableCrossFunction {
        assert ArgumentFollowed(g, m, call, i, base, visited);
      }
    }
    if !m.disableCrossFunction && !m.restrictCrossFunction {
      forall y: Value | IsParameter(call, y) && Visitable(g, y)
        ensures y in visited
      {
        var i :| 0 <= i < |call.args| && call.callee.value.params[i] == y;
        assert ArgumentFollowed(g, m, call, i, base, visited);
      }
    }
  }

  // What a search from an empty set finds

  /** A path of unconditional edges over visitable values. */
  ghost predicate IsPath(g: Graph, m: Mode, path: seq<Value>) {
    && path != []
    && (forall i :: 0 <= i < |path| ==> Visitable(g, path[i]))
    && forall i :: 0 < i < |path| ==> Edge(g, m, path[i - 1], path[i])
  }

  ghost predicate Reaches(g: Graph, m: Mode, v: Value, x: Value) {
    exists path :: IsPath(g, m, path) && path[0] == v && path[|path| - 1] == x
  }

  ghost function Reachable(g: Graph, m: Mode, v: Value): set<Value> {
    set x | x in Values(g) && Reaches(g, m, v, x)
  }

  lemma {:induction false} ClosedSetsHoldPaths(g: Graph, m: Mode, s: set<Value>, path: seq<Value>)
    requires IsPath(g, m, path) && path[0] in s && ClosedUnderEdges(g, m, s)
    ensures path[|path| - 1] in s
  {
    if |path| > 1 {
      var init := path[..|path| - 1];
      assert IsPath(g, m, init);
      ClosedSetsHoldPaths(g, m, s, init);
    }
  }

  /** The reachable values are the least set that holds v and is closed under the unconditional edges. */
  lemma ReachableIsLeastClosed(g: Graph, m: Mode, v: Value)
    requires WellFormed(g) && Visitable(g, v)
    ensures v in Reachable(g, m, v) && ClosedUnderEdges(g, m, Reachable(g, m, v))
    ensures forall s: set<Value> :: v in s && ClosedUnderEdges(g, m, s) ==> Reachable(g, m, v) <= s
  {
    assert IsPath(g, m, [v]) && [v][0] == v && [v][|[v]| - 1] == v;
    forall x: Value, y: Value | x in Reachable(g, m, v) && Edge(g, m, x, y) && Visitable(g, y)
      ensures y in Reachable(g, m, v)
    {
      var path :| IsPath(g, m, path) && path[0] == v && path[|path| - 1] == x;
      var longer := path + [y];
      assert IsPath(g, m, longer);
      assert longer[0] == v && longer[|longer| - 1] == y;
      assert InGraph(g, y);
    }
    forall s: set<Value>, x | v in s && ClosedUnderEdges(g, m, s) && x in Reachable(g, m, v)
      ensures x in s
    {
      var path :| IsPath(g, m, path) && path[0] == v && path[|path| - 1] == x;
      ClosedSetsHoldPaths(g, m, s, path);
    }
  }

  /** No edge depends on what was visited: calls are followed always or never, and there is no into(). */
  predicate Unconditional(g: Graph, m: Mode) {
    && (m.disableCrossFunction || !m.restrictCrossFunction)
    && forall x :: 0 <= x < |g| && g[x].kind.Call? && g[x].kind.callee.Some? ==> !g[x].kind.callee.value.isInto
  }

  lemma UnconditionalClosure(g: Graph, m: Mode, s: set<Value>)
    requires Unconditional(g, m) && ClosedUnderEdges(g, m, s)
    ensures ClosedUnderAll(g, m, s)
  {
    forall x: Value, y: Value | x in s && ConditionalEdge(g, m, s, x, y) && Visitable(g, y)
      ensures y in s
    {
      assert Edge(g, m, x, y);
    }
  }

  /** A search from v alone visits the values in this order, each once. */
  ghost predicate VisitOrder(g: Graph, m: Mode, v: Value, order: seq<Value>) {
    && [v] <= order
    && (forall j, k :: 0 <= j < k < |order| ==> order[j] != order[k])
    && Complete(g, m, order, 0)
    && Reached(g, m, order, 0)
  }

  /**
   As the detectors call it. The result lies between the values reachable by unconditional edges and
   every set that holds v and is closed under all edges; with no conditional edges it is the former.
   In every mode a call that takes v as an argument leads to that parameter, if calls are followed.
   */
  method FindUsers(g: Graph, v: Value, m: Mode) returns (users: set<Value>)
    requires WellFormed(g) && InGraph(g, v)
    ensures g[v].isLabel ==> users == {}
    ensures !g[v].isLabel ==> exists order :: VisitOrder(g, m, v, order) && users == SetOf(order)
    ensures !g[v].isLabel ==> Reachable(g, m, v) <= users
    ensures !g[v].isLabel ==> forall t: set<Value> :: v in t && ClosedUnderAll(g, m, t) ==> users <= t
    ensures Fired(g, m, {v}, users, users)
    ensures !g[v].isLabel && Unconditional(g, m) ==> users == Reachable(g, m, v)
  {
    var acc := new ValueSet();
    SimpleFindUsers(g, v, acc, m);
    users := acc.elems;
    if !g[v].isLabel {
      assert VisitOrder(g, m, v, acc.order);
      FoundFromEmpty(g, v, m, acc.order);
    }
  }

  /** What the order of visiting says about the set of all that is visited. */
  lemma FoundFromEmpty(g: Graph, v: Value, m: Mode, order: seq<Value>)
    requires WellFormed(g) && Visitable(g, v) && VisitOrder(g, m, v, order)
    ensures Reachable(g, m, v) <= SetOf(order)
    ensures forall t: set<Value> :: v in t && ClosedUnderAll(g, m, t) ==> SetOf(order) <= t
    ensures Fired(g, m, {v}, SetOf(order), SetOf(order))
    ensures Unconditional(g, m) ==> SetOf(order) == Reachable(g, m, v)
  {
    assert [] + [v] == [v] && SetOf([]) == {} && {} + {v} == {v} && SetOf(order) - {} == SetOf(order);
    CompleteMeansFired(g, m, [], v, order);
    ReachedMeansWithin(g, m, [], v, order);
    ReachableIsLeastClosed(g, m, v);
    assert order[0] == v;
    assert v in SetOf(order) && ClosedUnderEdges(g, m, SetOf(order));
    assert forall t: set<Value> :: v in t ==> {v} <= t;
    if Unconditional(g, m) {
      UnconditionalClosure(g, m, Reachable(g, m, v));
    }
  }
}
