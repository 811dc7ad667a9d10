/** The check whether a function compares its caller with some account, itself or in what it calls. */
module PrivilegeCheck {
  import opened Prelude

  type Func = nat

  /**
   What the check asks of an instruction: whether it comes from the user's own code, whether it
   calls predecessor_account_id or the comparison of accounts, and which function it calls, if any.
   */
  datatype Inst = Inst(userLocated: bool, callsPredecessor: bool, callsEquality: bool, callee: Option<Func>)

  type Block = seq<Inst>
  type Program = seq<seq<Block>>

  predicate WellFormed(p: Program) {
    forall f, b, i :: 0 <= f < |p| && b in p[f] && i in b && i.callee.Some? ==> i.callee.value < |p|
  }

  predicate Occurs(p: Program, f: Func, inst: Inst) {
    f < |p| && exists b :: b in p[f] && inst in b
  }

  predicate ComparesAccounts(p: Program, f: Func) {
    f < |p| && exists b :: b in p[f] && exists i :: i in b && i.callsEquality
  }

  /** The function itself asks for the predecessor, in the user's code, and compares accounts. */
  ghost predicate Guarded(p: Program, f: Func) {
    ComparesAccounts(p, f) && exists i :: Occurs(p, f, i) && i.userLocated && i.callsPredecessor
  }

  /** A direct call in the user's code that is not the call for the predecessor. */
  ghost predicate Follows(p: Program, f: Func, callee: Func) {
    exists i :: Occurs(p, f, i) && i.userLocated && !i.callsPredecessor && i.callee == Some(callee)
  }

  /** A chain of followed calls from f to a guarded function. */
  ghost predicate IsTrail(p: Program, f: Func, trail: seq<Func>) {
    && trail != [] && trail[0] == f
    && (forall k :: 0 < k < |trail| ==> Follows(p, trail[k - 1], trail[k]))
    && Guarded(p, trail[|trail| - 1])
  }

  ghost predicate Privileged(p: Program, f: Func, depth: int) {
    exists trail :: IsTrail(p, f, trail) && |trail| - 1 <= depth
  }

  lemma PrivilegedHere(p: Program, f: Func, depth: int)
    requires Guarded(p, f) && depth >= 0
    ensures Privileged(p, f, depth)
  {
    assert IsTrail(p, f, [f]);
  }

  lemma PrivilegedByCallee(p: Program, f: Func, callee: Func, depth: int)
    requires Follows(p, f, callee) && Privileged(p, callee, depth - 1)
    ensures Privileged(p, f, depth)
  {
    var trail :| IsTrail(p, callee, trail) && |trail| - 1 <= depth - 1;
    var longer := [f] + trail;
    assert forall k :: 0 < k < |longer| ==> longer[k] == trail[k - 1];
    assert IsTrail(p, f, longer);
  }

  lemma FirstStep(p: Program, f: Func, depth: int)
    requires Privileged(p, f, depth)
    ensures depth >= 0
    ensures Guarded(p, f) || exists callee :: Follows(p, f, callee) && Privileged(p, callee, depth - 1)
  {
    var trail :| IsTrail(p, f, trail) && |trail| - 1 <= depth;
    if |trail| > 1 {
      var rest := trail[1..];
      assert forall k :: 0 < k < |rest| ==> rest[k] == trail[k + 1] && rest[k - 1] == trail[k];
      assert IsTrail(p, trail[1], rest);
    }
  }

  method FindsEquality(p: Program, f: Func) returns (found: bool)
    requires f < |p|
    ensures found == ComparesAccounts(p, f)
  {
    for b := 0 to |p[f]|
      invariant forall c, i :: 0 <= c < b && i in p[f][c] ==> !i.callsEquality
    {
      for i := 0 to |p[f][b]|
        invariant forall j :: 0 <= j < i ==> !p[f][b][j].callsEquality
      {
        if p[f][b][i].callsEquality {
          assert p[f][b] in p[f] && p[f][b][i] in p[f][b];
          return true;
        }
      }
    }
    return false;
  }

  /** The instruction neither shows f to be guarded nor leads to a privileged callee. */
  ghost predicate Passed(p: Program, f: Func, inst: Inst, depth: int) {
    inst.userLocated ==>
      if inst.callsPredecessor then !ComparesAccounts(p, f)
      else inst.callee.Some? ==> !Privileged(p, inst.callee.value, depth - 1)
  }

  /** True just when a chain of at most depth followed calls leads from the function to a guarded one. */
  method IsFuncPrivileged(p: Program, func: Option<Func>, depth: int) returns (r: bool)
    requires WellFormed(p) && (func.Some? ==> func.value < |p|)
    ensures r <==> func.Some? && Privileged(p, func.value, depth)
    decreases depth + 1
  {
    if func.None? {
      return false;
    }
    var f := func.value;
    if depth < 0 {
      return false;
    }
    for b := 0 to |p[f]|
      invariant forall c, i :: 0 <= c < b && i in p[f][c] ==> Passed(p, f, i, depth)
    {
      for i := 0 to |p[f][b]|
        invariant forall j :: 0 <= j < i ==> Passed(p, f, p[f][b][j], depth)
      {
        var inst := p[f][b][i];
        if !inst.userLocated {
          continue;
        }
        assert p[f][b] in p[f] && inst in p[f][b];
        assert Occurs(p, f, inst);
        if inst.callsPredecessor {
          var compares := FindsEquality(p, f);
          if compares {
            PrivilegedHere(p, f, depth);
            return true;
          }
        } else if inst.callee.Some? {
          var calleePrivileged := IsFuncPrivileged(p, inst.callee, depth - 1);
          if calleePrivileged {
            PrivilegedByCallee(p, f, inst.callee.value, depth);
            return true;
          }
        }
      }
    }
    AllPassed(p, f, depth);
    return false;
  }

  lemma AllPassed(p: Program, f: Func, depth: int)
    requires f < |p| && forall c, i :: 0 <= c < |p[f]| && i in p[f][c] ==> Passed(p, f, i, depth)
    ensures !Privileged(p, f, depth)
  {
    assert forall i :: Occurs(p, f, i) ==> Passed(p, f, i, depth);
    assert !Guarded(p, f);
    assert forall callee :: Follows(p, f, callee) ==> !Privileged(p, callee, depth - 1);
    if Privileged(p, f, depth) {
      FirstStep(p, f, depth);
    }
  }

  /** A deeper check finds whatever a shallower one does. */
  lemma DeeperFindsMore(p: Program, f: Func, depth: int, deeper: int)
    requires Privileged(p, f, depth) && depth <= deeper
    ensures Privileged(p, f, deeper)
  {
    var trail :| IsTrail(p, f, trail) && |trail| - 1 <= depth;
    assert IsTrail(p, f, trail) && |trail| - 1 <= deeper;
  }

  predicate NoRepeats(trail: seq<Func>) {
    forall i, j :: 0 <= i < j < |trail| ==> trail[i] != trail[j]
  }

  lemma {:induction false} NoRepeatsIsShort(trail: seq<Func>, n: nat)
    requires NoRepeats(trail) && forall k :: 0 <= k < |trail| ==> trail[k] < n
    ensures |trail| <= n
    decreases n
  {
    if |trail| > 0 {
      assert trail[0] < n;
      if exists k :: 0 <= k < |trail| && trail[k] == n - 1 {
        var k :| 0 <= k < |trail| && trail[k] == n - 1;
        NoRepeatsIsShort(trail[..k] + trail[k + 1..], n - 1);
      } else {
        NoRepeatsIsShort(trail, n - 1);
      }
    }
  }

  /** A trail that comes back to a function can be cut short. */
  lemma {:induction false} SomeTrailHasNoRepeats(p: Program, f: Func, trail: seq<Func>) returns (short: seq<Func>)
    requires IsTrail(p, f, trail)
    ensures IsTrail(p, f, short) && NoRepeats(short)
    decreases |trail|
  {
    if NoRepeats(trail) {
      return trail;
    }
    var i, j :| 0 <= i < j < |trail| && trail[i] == trail[j];
    var cut := trail[..i] + trail[j..];
    assert cut[|cut| - 1] == trail[|trail| - 1];
    forall k | 0 < k < |cut|
      ensures Follows(p, cut[k - 1], cut[k])
    {
      if k < i {
        assert cut[k] == trail[k] && cut[k - 1] == trail[k - 1];
      } else if k == i {
        assert cut[k] == trail[i] && cut[k - 1] == trail[i - 1];
      } else {
        assert cut[k] == trail[k - i + j] && cut[k - 1] == trail[k - i + j - 1];
      }
    }
    short := SomeTrailHasNoRepeats(p, f, cut);
  }

  /** One less than the number of functions is depth enough, however recursive the program. */
  lemma DepthSaturates(p: Program, f: Func, depth: int)
    requires Privileged(p, f, depth)
    ensures Privileged(p, f, |p| - 1)
  {
    var trail :| IsTrail(p, f, trail) && |trail| - 1 <= depth;
    var short := SomeTrailHasNoRepeats(p, f, trail);
    forall k | 0 <= k < |short|
      ensures short[k] < |p|
    {
      if k < |short| - 1 {
        assert Follows(p, short[k + 1 - 1], short[k + 1]);
      }
    }
    NoRepeatsIsShort(short, |p|);
  }
}
