/**
 * Bound-state bookkeeping over the per-component bound-state counts
 * (the array returned by numBoundStatesPerComponent()).
 *
 * Within one cell the solid phase holds the bound states of component 0, then those of
 * component 1, and so on; `FlatBound` is the position of one bound state in that run.
 */
module BoundStates {

  /** Total number of bound states. */
  function Sum(s: seq<nat>): nat
  {
    if s == [] then 0 else s[0] + Sum(s[1..])
  }

  /** Number of bound states of the components before c. */
  function BoundOffset(s: seq<nat>, c: nat): nat
  {
    if c == 0 || s == [] then 0 else s[0] + BoundOffset(s[1..], c - 1)
  }

  /** Position of bound state b of component c among all bound states of one cell. */
  function FlatBound(s: seq<nat>, c: nat, b: nat): nat
  {
    BoundOffset(s, c) + b
  }

  /** Some component has no bound state, scanning the counts front to back. */
  predicate AnyNonBinding(s: seq<nat>)
  {
    s != [] && (s[0] == 0 || AnyNonBinding(s[1..]))
  }

  /** Some component has more than one bound state, scanning the counts front to back. */
  predicate AnyMultiple(s: seq<nat>)
  {
    s != [] && (s[0] > 1 || AnyMultiple(s[1..]))
  }

  lemma {:induction false} AnyNonBindingIff(s: seq<nat>)
    ensures AnyNonBinding(s) <==> exists c :: 0 <= c < |s| && s[c] == 0
  {
    if s != [] {
      AnyNonBindingIff(s[1..]);
      if AnyNonBinding(s[1..]) {
        var c :| 0 <= c < |s| - 1 && s[1..][c] == 0;
        assert s[c + 1] == 0;
      }
      if exists c :: 0 <= c < |s| && s[c] == 0 {
        var c :| 0 <= c < |s| && s[c] == 0;
        if c > 0 {
          assert s[1..][c - 1] == 0;
        }
      }
    }
  }

  lemma {:induction false} AnyMultipleIff(s: seq<nat>)
    ensures AnyMultiple(s) <==> exists c :: 0 <= c < |s| && s[c] > 1
  {
    if s != [] {
      AnyMultipleIff(s[1..]);
      if AnyMultiple(s[1..]) {
        var c :| 0 <= c < |s| - 1 && s[1..][c] > 1;
        assert s[c + 1] > 1;
      }
      if exists c :: 0 <= c < |s| && s[c] > 1 {
        var c :| 0 <= c < |s| && s[c] > 1;
        if c > 0 {
          assert s[1..][c - 1] > 1;
        }
      }
    }
  }

  /** Moving past component c adds exactly its bound states. */
  lemma {:induction false} BoundOffsetStep(s: seq<nat>, c: nat)
    requires c < |s|
    ensures BoundOffset(s, c + 1) == BoundOffset(s, c) + s[c]
  {
    if c > 0 {
      BoundOffsetStep(s[1..], c - 1);
    }
  }

  /** Past the last component the offset is the total. */
  lemma {:induction false} BoundOffsetAll(s: seq<nat>, c: nat)
    requires c >= |s|
    ensures BoundOffset(s, c) == Sum(s)
  {
    if s != [] {
      BoundOffsetAll(s[1..], c - 1);
    }
  }

  lemma {:induction false} BoundOffsetMonotone(s: seq<nat>, c: nat, d: nat)
    requires c <= d
    ensures BoundOffset(s, c) <= BoundOffset(s, d)
  {
    if c > 0 && s != [] {
      BoundOffsetMonotone(s[1..], c - 1, d - 1);
    }
  }

  /** The bound states of component c occupy flat positions below the total. */
  lemma FlatBoundInRange(s: seq<nat>, c: nat, b: nat)
    requires c < |s| && b < s[c]
    ensures FlatBound(s, c, b) < Sum(s)
  {
    BoundOffsetStep(s, c);
    BoundOffsetMonotone(s, c + 1, |s|);
    BoundOffsetAll(s, |s|);
  }

  /** Distinct (component, bound state) pairs have distinct flat positions. */
  lemma FlatBoundInjective(s: seq<nat>, c: nat, b: nat, c': nat, b': nat)
    requires c < |s| && b < s[c] && c' < |s| && b' < s[c']
    requires FlatBound(s, c, b) == FlatBound(s, c', b')
    ensures c == c' && b == b'
  {
    if c < c' {
      BoundOffsetStep(s, c);
      BoundOffsetMonotone(s, c + 1, c');
      assert false;
    } else if c' < c {
      BoundOffsetStep(s, c');
      BoundOffsetMonotone(s, c' + 1, c);
      assert false;
    }
  }

  /** The (component, bound state) pair at flat position k: the inverse of FlatBound. */
  function LocateBound(s: seq<nat>, k: nat): (cb: (nat, nat))
    requires k < Sum(s)
    ensures cb.0 < |s| && cb.1 < s[cb.0] && FlatBound(s, cb.0, cb.1) == k
    decreases |s|
  {
    if k < s[0] then (0, k)
    else
      var cb := LocateBound(s[1..], k - s[0]);
      assert s[1..][cb.0] == s[cb.0 + 1];
      (cb.0 + 1, cb.1)
  }

  /** Without multiple bound states there are at most as many bound states as components. */
  lemma {:induction false} SingleBoundStatesAtMostComponents(s: seq<nat>)
    requires !AnyMultiple(s)
    ensures Sum(s) <= |s|
  {
    if s != [] {
      SingleBoundStatesAtMostComponents(s[1..]);
    }
  }

  /** Without non-binding components there are at least as many bound states as components. */
  lemma {:induction false} BindingComponentsAtLeastComponents(s: seq<nat>)
    requires !AnyNonBinding(s)
    ensures Sum(s) >= |s|
  {
    if s != [] {
      BindingComponentsAtLeastComponents(s[1..]);
    }
  }
}
