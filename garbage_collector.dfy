/**
 * The tracing collector (src/interpretting/garbage_collector.rs). Its
 * allocation table is a map from index to slot, unlike the vector of
 * `Variables`. The roots are the indices bound by the frames; values are not
 * traced into, so what survives depends only on the frames and the keys.
 */
module GarbageCollector {
  import opened Values
  import opened Scopes

  /** Every index bound by some frame of the stack. */
  function Roots(stack: seq<Frame>): set<nat>
  {
    if |stack| == 0 then {} else Roots(stack[..|stack| - 1]) + stack[|stack| - 1].Values
  }

  /** The table restricted to the slots whose index is a root. */
  function Collect(alloced: map<nat, AllocedValue>, stack: seq<Frame>): (r: map<nat, AllocedValue>)
    ensures r.Keys <= alloced.Keys
    ensures forall k :: k in r ==> r[k] == alloced[k]
  {
    map k | k in alloced && k in Roots(stack) :: alloced[k]
  }

  /** An index is a root exactly when some frame binds some name to it. */
  lemma {:induction false} RootsAreBoundIndices(stack: seq<Frame>, k: nat)
    ensures k in Roots(stack) <==> exists i, name :: 0 <= i < |stack| && name in stack[i] && stack[i][name] == k
  {
    if |stack| > 0 {
      var init := stack[..|stack| - 1];
      RootsAreBoundIndices(init, k);
      if exists i, name :: 0 <= i < |stack| && name in stack[i] && stack[i][name] == k {
        var i, name :| 0 <= i < |stack| && name in stack[i] && stack[i][name] == k;
        if i < |stack| - 1 {
          assert name in init[i] && init[i][name] == k;
        } else {
          assert k in stack[|stack| - 1].Values;
        }
      }
      if k in stack[|stack| - 1].Values {
        var name :| name in stack[|stack| - 1] && stack[|stack| - 1][name] == k;
        assert 0 <= |stack| - 1 < |stack| && name in stack[|stack| - 1];
      }
    }
  }

  /** Every slot bound by a frame survives with its value; nothing else does. */
  lemma CollectKeepsExactlyBound(alloced: map<nat, AllocedValue>, stack: seq<Frame>, k: nat)
    ensures k in Collect(alloced, stack) <==>
            k in alloced && exists i, name :: 0 <= i < |stack| && name in stack[i] && stack[i][name] == k
    ensures k in Collect(alloced, stack) ==> Collect(alloced, stack)[k] == alloced[k]
  {
    RootsAreBoundIndices(stack, k);
  }

  /** The surviving keys are the old keys intersected with the roots. */
  lemma CollectKeys(alloced: map<nat, AllocedValue>, stack: seq<Frame>)
    ensures Collect(alloced, stack).Keys == alloced.Keys * Roots(stack)
  {
  }

  /** Collecting twice is collecting once. */
  lemma CollectIdempotent(alloced: map<nat, AllocedValue>, stack: seq<Frame>)
    ensures Collect(Collect(alloced, stack), stack) == Collect(alloced, stack)
  {
  }

  /**
   * Values are never traced: two tables with the same keys keep the same keys,
   * whatever objects their slots hold.
   */
  lemma CollectIgnoresValues(a: map<nat, AllocedValue>, b: map<nat, AllocedValue>, stack: seq<Frame>)
    requires a.Keys == b.Keys
    ensures Collect(a, stack).Keys == Collect(b, stack).Keys
  {
    CollectKeys(a, stack);
    CollectKeys(b, stack);
  }

  /**
   * `gc_collect`: gathers every index bound by every frame into `visplane`,
   * then removes each key of the table that is not in it. The scope stack is
   * only read.
   */
  method GcCollect(alloced: map<nat, AllocedValue>, scopestack: seq<Frame>) returns (remaining: map<nat, AllocedValue>)
    ensures remaining == Collect(alloced, scopestack)
  {
    var visplane: seq<nat> := [];
    var i := 0;
    while i < |scopestack|
      invariant 0 <= i <= |scopestack|
      invariant forall x :: x in visplane <==> x in Roots(scopestack[..i])
    {
      var scope := scopestack[i];
      var names := scope.Keys;
      while names != {}
        invariant names <= scope.Keys
        invariant forall x :: x in visplane <==>
          x in Roots(scopestack[..i]) || exists n :: n in scope && n !in names && scope[n] == x
        decreases names
      {
        var n :| n in names;
        visplane := visplane + [scope[n]];
        names := names - {n};
      }
      assert scopestack[..i + 1][..i] == scopestack[..i];
      i := i + 1;
    }
    assert scopestack[..i] == scopestack;

    remaining := alloced;
    var allIdx := alloced.Keys;
    while allIdx != {}
      invariant allIdx <= alloced.Keys
      invariant remaining == map k | k in alloced && (k in allIdx || k in Roots(scopestack)) :: alloced[k]
      decreases allIdx
    {
      var ai :| ai in allIdx;
      if ai !in visplane {
        remaining := remaining - {ai};
      }
      allIdx := allIdx - {ai};
    }
  }
}
