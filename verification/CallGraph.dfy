/** Depth-bounded searches over a program's call graph, which may be recursive. */
module CallGraph {
  import opened Prelude

  type Func = nat

  // Callers

  /**
   A use of a function: by a call instruction, which lies in some function, or anything else. As in
   the search, passing the function as an argument is such a use just as calling it is.
   */
  datatype Use = CallIn(caller: Option<Func>) | OtherUse

  /** The uses of each function. */
  type Uses = seq<seq<Use>>

  predicate WellFormed(uses: Uses) {
    forall f, u :: 0 <= f < |uses| && u in uses[f] && u.CallIn? && u.caller.Some? ==> u.caller.value < |uses|
  }

  predicate IsFunc(uses: Uses, f: Func) {
    f < |uses|
  }

  function Funcs(uses: Uses): set<Func> {
    set f: Func | 0 <= f < |uses| && IsFunc(uses, f)
  }

  lemma {:induction false} FuncsCount(uses: Uses)
    ensures |Funcs(uses)| == |uses|
  {
    if uses != [] {
      var rest := uses[..|uses| - 1];
      FuncsCount(rest);
      assert Funcs(uses) == Funcs(rest) + {|uses| - 1} by {
        forall f: Func
          ensures f in Funcs(uses) <==> f in Funcs(rest) + {|uses| - 1}
        {
          assert IsFunc(uses, f) <==> IsFunc(rest, f) || f == |uses| - 1;
        }
      }
    }
  }

  predicate Calls(uses: Uses, caller: Func, f: Func) {
    f < |uses| && CallIn(Some(caller)) in uses[f]
  }

  function Callers(uses: Uses, f: Func): set<Func> {
    set c | c in Funcs(uses) && Calls(uses, c, f)
  }

  /** A chain of k calls leads from x to f. */
  ghost predicate Chain(uses: Uses, x: Func, f: Func, k: nat)
    decreases k
  {
    k > 0 && (if k == 1 then Calls(uses, x, f) else exists y :: Calls(uses, y, f) && Chain(uses, x, y, k - 1))
  }

  ghost predicate ChainWithin(uses: Uses, x: Func, f: Func, depth: int) {
    exists k: nat :: 1 <= k <= depth && Chain(uses, x, f, k)
  }

  ghost predicate CallsInto(uses: Uses, x: Func, f: Func) {
    exists k: nat :: Chain(uses, x, f, k)
  }

  class FuncSet {
    var elems: set<Func>

    constructor ()
      ensures elems == {}
    {
      elems := {};
    }
  }

  /** The callers of all functions in done are among the found ones. */
  ghost predicate CallersFound(uses: Uses, done: set<Func>, found: set<Func>) {
    forall f, c :: f in done && Calls(uses, c, f) ==> c in found
  }

  /** Every function of added has a chain of at most depth calls to f. */
  ghost predicate AllChain(uses: Uses, added: set<Func>, f: Func, depth: int) {
    forall x :: x in added ==> ChainWithin(uses, x, f, depth)
  }

  lemma LongerChains(uses: Uses, added: set<Func>, y: Func, f: Func, depth: int)
    requires Calls(uses, y, f) && AllChain(uses, added, y, depth) && depth >= 0
    ensures AllChain(uses, added + {y}, f, depth + 1)
  {
    forall x | x in added + {y}
      ensures ChainWithin(uses, x, f, depth + 1)
    {
      assert Chain(uses, y, f, 1);
      if x in added {
        var k: nat :| 1 <= k <= depth && Chain(uses, x, y, k);
        assert Chain(uses, x, f, k + 1);
      }
    }
  }

  /**
   The search stops at a function of added only where the depth runs out: all its callers are found,
   or it heads a chain of exactly depth calls to f.
   */
  ghost predicate ExpandedOrDeep(uses: Uses, added: set<Func>, found: set<Func>, f: Func, depth: int) {
    forall x :: x in added ==> CallersFound(uses, {x}, found) || (depth >= 1 && Chain(uses, x, f, depth))
  }

  lemma DeepenedChains(uses: Uses, added: set<Func>, found: set<Func>, y: Func, f: Func, depth: int)
    requires Calls(uses, y, f) && ExpandedOrDeep(uses, added, found, y, depth) && depth >= 0
    requires depth >= 1 ==> Callers(uses, y) <= found
    requires WellFormed(uses)
    ensures ExpandedOrDeep(uses, added + {y}, found, f, depth + 1)
  {
    forall x | x in added + {y}
      ensures CallersFound(uses, {x}, found) || Chain(uses, x, f, depth + 1)
    {
      if x in added {
        assert CallersFound(uses, {x}, found) || Chain(uses, x, y, depth);
      } else if depth >= 1 {
        CallersAreFuncs(uses, y);
      }
    }
  }

  lemma CallersAreFuncs(uses: Uses, f: Func)
    requires WellFormed(uses)
    ensures forall c: Func :: Calls(uses, c, f) ==> c in Callers(uses, f)
  {
    forall c: Func | Calls(uses, c, f)
      ensures c in Callers(uses, f)
    {
      assert IsFunc(uses, c);
    }
  }

  /**
   Adds the functions that call f, directly or through others. Whatever is added has a call chain
   of at most depth calls to f, and is searched further unless it heads one of exactly depth calls.
   When the depth is at least the number of functions not yet found, nothing is missed: the depth
   cannot run out before the functions do.
   */
  method FindFunctionCallerRec(uses: Uses, f: Func, acc: FuncSet, depth: int)
    requires WellFormed(uses) && IsFunc(uses, f) && acc.elems <= Funcs(uses)
    modifies acc
    ensures old(acc.elems) <= acc.elems <= Funcs(uses)
    ensures AllChain(uses, acc.elems - old(acc.elems), f, depth)
    ensures ExpandedOrDeep(uses, acc.elems - old(acc.elems), acc.elems, f, depth)
    ensures depth >= 1 ==> Callers(uses, f) <= acc.elems
    ensures depth == 1 ==> acc.elems == old(acc.elems) + Callers(uses, f)
    ensures depth <= 0 ==> acc.elems == old(acc.elems)
    ensures depth >= |Funcs(uses) - old(acc.elems)| ==>
      CallersFound(uses, {f} + (acc.elems - old(acc.elems)), acc.elems)
    decreases depth, 1
  {
    if depth <= 0 {
      NoneLeft(uses, f, acc.elems);
      return;
    }
    for i := 0 to |uses[f]|
      invariant old(acc.elems) <= acc.elems <= Funcs(uses)
      invariant AllChain(uses, acc.elems - old(acc.elems), f, depth)
      invariant ExpandedOrDeep(uses, acc.elems - old(acc.elems), acc.elems, f, depth)
      invariant forall j :: 0 <= j < i && uses[f][j].CallIn? && uses[f][j].caller.Some? ==> uses[f][j].caller.value in acc.elems
      invariant depth == 1 ==> acc.elems <= old(acc.elems) + Callers(uses, f)
      invariant depth >= |Funcs(uses) - old(acc.elems)| ==>
        CallersFound(uses, acc.elems - old(acc.elems), acc.elems)
    {
      var ui := uses[f][i];
      if ui.CallIn? {
        var caller := ui.caller;
        if caller.Some? && caller.value !in acc.elems {
          assert ui in uses[f];
          AddCaller(uses, f, caller.value, acc, depth, old(acc.elems));
        }
      }
    }
  }

  /** The step for one new caller: it is added, and then its own callers are. */
  method AddCaller(uses: Uses, f: Func, caller: Func, acc: FuncSet, depth: int, ghost first: set<Func>)
    requires WellFormed(uses) && Calls(uses, caller, f) && IsFunc(uses, caller) && depth > 0
    requires first <= acc.elems <= Funcs(uses) && caller !in acc.elems
    requires AllChain(uses, acc.elems - first, f, depth)
    requires ExpandedOrDeep(uses, acc.elems - first, acc.elems, f, depth)
    requires depth >= |Funcs(uses) - first| ==> CallersFound(uses, acc.elems - first, acc.elems)
    modifies acc
    ensures old(acc.elems) + {caller} <= acc.elems <= Funcs(uses)
    ensures AllChain(uses, acc.elems - first, f, depth)
    ensures ExpandedOrDeep(uses, acc.elems - first, acc.elems, f, depth)
    ensures depth == 1 ==> acc.elems == old(acc.elems) + {caller}
    ensures depth >= |Funcs(uses) - first| ==> CallersFound(uses, acc.elems - first, acc.elems)
    decreases depth, 0
  {
    ghost var before := acc.elems;
    acc.elems := acc.elems + {caller};
    OneFewer(Funcs(uses), first, before, caller);
    FindFunctionCallerRec(uses, caller, acc, depth - 1);
    CallerFound(uses, f, first, before, caller, acc.elems, depth);
  }

  /** What was found earlier, the new caller, and what was found for it, seen from f. */
  lemma CallerFound(uses: Uses, f: Func, first: set<Func>, before: set<Func>, caller: Func, after: set<Func>, depth: int)
    requires WellFormed(uses) && Calls(uses, caller, f) && depth > 0
    requires first <= before && before + {caller} <= after
    requires AllChain(uses, before - first, f, depth)
    requires AllChain(uses, after - (before + {caller}), caller, depth - 1)
    requires ExpandedOrDeep(uses, before - first, before, f, depth)
    requires ExpandedOrDeep(uses, after - (before + {caller}), after, caller, depth - 1)
    requires depth > 1 ==> Callers(uses, caller) <= after
    ensures AllChain(uses, after - first, f, depth)
    ensures ExpandedOrDeep(uses, after - first, after, f, depth)
    ensures CallersFound(uses, before - first, before)
         && CallersFound(uses, {caller} + (after - (before + {caller})), after)
        ==> CallersFound(uses, after - first, after)
  {
    var added := after - (before + {caller}) + {caller};
    LongerChains(uses, after - (before + {caller}), caller, f, depth - 1);
    DeepenedChains(uses, after - (before + {caller}), after, caller, f, depth - 1);
    assert forall x :: x in after - first ==> x in before - first || x in added;
  }

  lemma NoneLeft(uses: Uses, f: Func, found: set<Func>)
    requires WellFormed(uses) && IsFunc(uses, f)
    ensures |Funcs(uses) - found| == 0 ==> CallersFound(uses, {f}, found)
  {
    if |Funcs(uses) - found| == 0 {
      forall c: Func | Calls(uses, c, f)
        ensures c in found
      {
        assert IsFunc(uses, c) && c in Funcs(uses);
        assert c !in Funcs(uses) - found;
      }
    }
  }

  lemma OneFewer(all: set<Func>, first: set<Func>, found: set<Func>, c: Func)
    requires first <= found && c in all && c !in found
    ensures |all - (found + {c})| < |all - first|
  {
    assert all - (found + {c}) <= (all - first) - {c};
    SubsetIsSmaller(all - (found + {c}), (all - first) - {c});
  }

  lemma {:induction false} SubsetIsSmaller(a: set<Func>, b: set<Func>)
    requires a <= b
    ensures |a| <= |b|
    decreases |a|
  {
    if a != {} {
      var x :| x in a;
      SubsetIsSmaller(a - {x}, b - {x});
    }
  }

  /** A set that holds the callers of f and of its own members holds all that call into f. */
  lemma {:induction false} ClosedSetsHoldChains(uses: Uses, f: Func, found: set<Func>, x: Func, y: Func, k: nat)
    requires CallersFound(uses, {f} + found, found) && y in {f} + found
    requires Chain(uses, x, y, k)
    ensures x in found
    decreases k
  {
    if k > 1 {
      var z :| Calls(uses, z, y) && Chain(uses, x, z, k - 1);
      ClosedSetsHoldChains(uses, f, found, x, z, k - 1);
    }
  }

  /**
   As the detectors call it, with an empty set. What is found calls into f; a depth of at least the
   number of functions finds all that do, and depth 1 finds the direct callers. At every depth the
   search ends only at functions that head a chain of exactly that many calls.
   */
  method FindFunctionCallers(uses: Uses, f: Func, depth: int) returns (found: set<Func>)
    requires WellFormed(uses) && IsFunc(uses, f)
    ensures AllChain(uses, found, f, depth)
    ensures depth >= 1 ==> Callers(uses, f) <= found
    ensures ExpandedOrDeep(uses, found, found, f, depth)
    ensures depth == 1 ==> found == Callers(uses, f)
    ensures depth >= |uses| ==> forall x :: x in found <==> CallsInto(uses, x, f)
  {
    var acc := new FuncSet();
    FindFunctionCallerRec(uses, f, acc, depth);
    found := acc.elems;
    FuncsCount(uses);
    assert Funcs(uses) - {} == Funcs(uses) && found - {} == found;
    if depth >= |uses| {
      assert CallersFound(uses, {f} + found, found);
      forall x
        ensures x in found <==> CallsInto(uses, x, f)
      {
        if CallsInto(uses, x, f) {
          var k: nat :| Chain(uses, x, f, k);
          ClosedSetsHoldChains(uses, f, found, x, f, k);
        }
      }
    }
  }
}
