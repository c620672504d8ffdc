/**
 * The interpreter's runtime store (src/interpretting/variables.rs): an
 * allocation table addressed by index and a stack of scope frames mapping
 * names to indices, the innermost frame last.
 */
module Scopes {
  import opened Wrappers
  import opened Values

  /** One scope frame: a name is bound to an index of the allocation table. */
  type Frame = map<string, nat>

  datatype RuntimeError =
    /** `scopestack.len() - 1` underflows on an empty stack. */
    | EmptyScopeStack
    | UnresolvedIdentifier(name: string)
    /** A frame binds an index past the end of the allocation table. */
    | IndexOutOfBounds(index: nat)

  /** The binding of `name` in the innermost frame that has one. */
  function Lookup(stack: seq<Frame>, name: string): Option<nat>
  {
    if |stack| == 0 then None
    else if name in stack[|stack| - 1] then Some(stack[|stack| - 1][name])
    else Lookup(stack[..|stack| - 1], name)
  }

  /** A binding that lookup finds is the binding of the name in some frame. */
  lemma {:induction false} LookupFromFrame(stack: seq<Frame>, name: string)
    ensures Lookup(stack, name).Some? ==>
              exists i :: 0 <= i < |stack| && name in stack[i] && stack[i][name] == Lookup(stack, name).value
  {
    if |stack| > 0 && name !in stack[|stack| - 1] {
      var init := stack[..|stack| - 1];
      LookupFromFrame(init, name);
      if Lookup(init, name).Some? {
        var i :| 0 <= i < |init| && name in init[i] && init[i][name] == Lookup(init, name).value;
        assert stack[i] == init[i];
      }
    }
  }

  /**
   * What `find_variable_index` returns, or the panic it raises: an empty stack
   * is an error of its own; otherwise the name is found exactly when some frame
   * binds it, and then it is the innermost binding.
   */
  function FindIndex(stack: seq<Frame>, name: string): (r: Result<nat, RuntimeError>)
    ensures r == Failure(EmptyScopeStack) <==> |stack| == 0
    ensures r.Success? <==> |stack| > 0 && exists i :: 0 <= i < |stack| && name in stack[i]
    ensures r.Success? ==> exists i :: 0 <= i < |stack| && name in stack[i] && stack[i][name] == r.value
    ensures forall i :: InnermostBinding(stack, name, i) ==> r == Success(stack[i][name])
    ensures r.Failure? && |stack| > 0 ==> r.error == UnresolvedIdentifier(name)
  {
    LookupInnermost(stack, name);
    LookupFromFrame(stack, name);
    if |stack| == 0 then Failure(EmptyScopeStack)
    else match Lookup(stack, name)
      case Some(idx) => Success(idx)
      case None => Failure(UnresolvedIdentifier(name))
  }

  /**
   * What `resolve_identifier` returns, or the panic it raises: the value of a
   * slot some frame binds the name to. In a well-formed store it fails only
   * where `find_variable_index` does.
   */
  function Resolve(alloced: seq<AllocedValue>, stack: seq<Frame>, name: string): (r: Result<KaffeeValue, RuntimeError>)
    ensures r.Success? ==>
              exists i :: 0 <= i < |stack| && name in stack[i] && stack[i][name] < |alloced| &&
                          r.value == alloced[stack[i][name]].value
    ensures WellFormed(alloced, stack) ==> (r.Success? <==> FindIndex(stack, name).Success?)
  {
    match FindIndex(stack, name)
    case Failure(e) => Failure(e)
    case Success(idx) =>
      if idx < |alloced| then Success(alloced[idx].value) else Failure(IndexOutOfBounds(idx))
  }

  /** The stack after binding `name` to `idx` in its last frame (an existing binding there is overwritten). */
  function Bind(stack: seq<Frame>, name: string, idx: nat): seq<Frame>
    requires |stack| > 0
  {
    stack[..|stack| - 1] + [stack[|stack| - 1][name := idx]]
  }

  /** The stack after `pop_scope`: `Vec::pop` on an empty vector changes nothing. */
  function PopFrame(stack: seq<Frame>): seq<Frame>
  {
    if |stack| == 0 then stack else stack[..|stack| - 1]
  }

  /** Frame `i` binds `name` and no frame above it does. */
  ghost predicate InnermostBinding(stack: seq<Frame>, name: string, i: int)
  {
    0 <= i < |stack| && name in stack[i] &&
    forall j :: i < j < |stack| ==> name !in stack[j]
  }

  /** Every index bound by a frame addresses a slot of the table. */
  ghost predicate WellFormed(alloced: seq<AllocedValue>, stack: seq<Frame>)
  {
    forall i, name :: 0 <= i < |stack| && name in stack[i] ==> stack[i][name] < |alloced|
  }

  /** Lookup finds a binding exactly when some frame binds the name, and it is the innermost one. */
  lemma {:induction false} LookupInnermost(stack: seq<Frame>, name: string)
    ensures Lookup(stack, name).Some? <==> exists i :: 0 <= i < |stack| && name in stack[i]
    ensures forall i :: InnermostBinding(stack, name, i) ==> Lookup(stack, name) == Some(stack[i][name])
  {
    if |stack| > 0 {
      var init := stack[..|stack| - 1];
      LookupInnermost(init, name);
      if name !in stack[|stack| - 1] {
        forall i | InnermostBinding(stack, name, i)
          ensures InnermostBinding(init, name, i)
        {
          assert i < |stack| - 1;
        }
        if exists i :: 0 <= i < |stack| && name in stack[i] {
          var i :| 0 <= i < |stack| && name in stack[i];
          assert name in init[i];
        }
      }
    }
  }

  /** Lookup over a stack whose top frames do not bind `name` equals lookup below them. */
  lemma {:induction false} LookupSkipsUnbound(stack: seq<Frame>, name: string, k: nat)
    requires k <= |stack|
    requires forall j :: k <= j < |stack| ==> name !in stack[j]
    ensures Lookup(stack, name) == Lookup(stack[..k], name)
  {
    if k < |stack| {
      var init := stack[..|stack| - 1];
      assert init[..k] == stack[..k];
      LookupSkipsUnbound(init, name, k);
    } else {
      assert stack[..k] == stack;
    }
  }

  /** After a binding in the last frame, the name resolves to it and every other name resolves as before. */
  lemma {:induction false} LookupAfterBind(stack: seq<Frame>, name: string, idx: nat, other: string)
    requires |stack| > 0
    ensures Lookup(Bind(stack, name, idx), name) == Some(idx)
    ensures other != name ==> Lookup(Bind(stack, name, idx), other) == Lookup(stack, other)
  {
    var b := Bind(stack, name, idx);
    assert b[..|b| - 1] == stack[..|stack| - 1];
  }

  /** A name bound in a pushed frame shadows the outer binding; popping the frame brings the outer one back. */
  lemma ShadowThenPop(stack: seq<Frame>, name: string, idx: nat)
    ensures Lookup(Bind(stack + [map[]], name, idx), name) == Some(idx)
    ensures PopFrame(Bind(stack + [map[]], name, idx)) == stack
  {
    LookupAfterBind(stack + [map[]], name, idx, name);
  }

  /** Popping a freshly pushed frame gives back the stack. */
  lemma PopAfterPush(stack: seq<Frame>)
    ensures PopFrame(stack + [map[]]) == stack
  {
  }

  /** In a well-formed store, every name bound by some frame resolves to the value of its innermost slot. */
  lemma ResolveBound(alloced: seq<AllocedValue>, stack: seq<Frame>, name: string, i: int)
    requires WellFormed(alloced, stack)
    requires InnermostBinding(stack, name, i)
    ensures Resolve(alloced, stack, name) == Success(alloced[stack[i][name]].value)
  {
    LookupInnermost(stack, name);
  }

  /** Allocating a slot and binding it in the last frame keeps the store well formed. */
  lemma {:induction false} AllocInScopeKeepsWellFormed(alloced: seq<AllocedValue>, stack: seq<Frame>, name: string, v: AllocedValue)
    requires WellFormed(alloced, stack) && |stack| > 0
    ensures WellFormed(alloced + [v], Bind(stack, name, |alloced|))
  {
    var b := Bind(stack, name, |alloced|);
    forall i, n | 0 <= i < |b| && n in b[i]
      ensures b[i][n] < |alloced + [v]|
    {
      if i < |stack| - 1 || n != name {
        assert n in stack[i] && b[i][n] == stack[i][n];
      }
    }
  }

  /** The store of one interpreter: `alloced` grows by pushes, `scopestack` by pushes and pops. */
  class Variables {
    var alloced: seq<AllocedValue>
    var scopestack: seq<Frame>

    /** `variables::new`: no slots and no frames. */
    constructor ()
      ensures alloced == [] && scopestack == []
    {
      alloced := [];
      scopestack := [];
    }

    /** Searches the frames from the innermost outwards and returns the first binding of `name`. */
    method FindVariableIndex(name: string) returns (r: Result<nat, RuntimeError>)
      ensures r == FindIndex(scopestack, name)
    {
      if |scopestack| == 0 {
        return Failure(EmptyScopeStack);
      }
      var i := |scopestack|;
      while i > 0
        invariant 0 <= i <= |scopestack|
        invariant forall j :: i <= j < |scopestack| ==> name !in scopestack[j]
      {
        var hm := scopestack[i - 1];
        if name in hm {
          LookupSkipsUnbound(scopestack, name, i);
          assert scopestack[..i][..i - 1] == scopestack[..i - 1];
          return Success(hm[name]);
        }
        i := i - 1;
      }
      LookupSkipsUnbound(scopestack, name, 0);
      return Failure(UnresolvedIdentifier(name));
    }

    /** The value in the slot `name` is bound to; the store is left as it was. */
    method ResolveIdentifier(name: string) returns (r: Result<KaffeeValue, RuntimeError>)
      ensures r == Resolve(alloced, scopestack, name)
    {
      var found := FindVariableIndex(name);
      match found {
        case Failure(e) =>
          r := Failure(e);
        case Success(idx) =>
          if idx < |alloced| {
            r := Success(alloced[idx].value);
          } else {
            r := Failure(IndexOutOfBounds(idx));
          }
      }
    }

    /** Pushes an empty innermost frame. */
    method NewScope()
      modifies this
      ensures scopestack == old(scopestack) + [map[]]
      ensures alloced == old(alloced)
    {
      scopestack := scopestack + [map[]];
    }

    /** Removes the innermost frame, if there is one. */
    method PopScope()
      modifies this
      ensures scopestack == PopFrame(old(scopestack))
      ensures alloced == old(alloced)
    {
      if |scopestack| > 0 {
        scopestack := scopestack[..|scopestack| - 1];
      }
    }

    /** Appends a slot holding `value` and returns its index; earlier slots are untouched. */
    method AllocValue(value: KaffeeValue, constant: bool) returns (idx: nat)
      modifies this
      ensures alloced == old(alloced) + [AllocedValue(value, constant)]
      ensures idx == |old(alloced)|
      ensures scopestack == old(scopestack)
    {
      alloced := alloced + [AllocedValue(value, constant)];
      idx := |alloced| - 1;
    }

    /** Binds `identifier` to `allocIndex` in the innermost frame; panics when there is no frame. */
    method AddToScope(identifier: string, allocIndex: nat) returns (ok: bool)
      modifies this
      ensures ok == (|old(scopestack)| > 0)
      ensures scopestack == if ok then Bind(old(scopestack), identifier, allocIndex) else old(scopestack)
      ensures alloced == old(alloced)
    {
      if |scopestack| == 0 {
        return false;
      }
      var idx := |scopestack| - 1;
      var frame: Frame := scopestack[idx][identifier := allocIndex];
      scopestack := scopestack[idx := frame];
      assert scopestack == Bind(old(scopestack), identifier, allocIndex);
      return true;
    }

    /**
     * Allocates `value` and binds `identifier` to the new slot in the innermost
     * frame. With no frame the slot is still allocated before the panic.
     */
    method AllocInScope(identifier: string, value: KaffeeValue, constant: bool) returns (ok: bool)
      modifies this
      ensures alloced == old(alloced) + [AllocedValue(value, constant)]
      ensures ok == (|old(scopestack)| > 0)
      ensures scopestack == if ok then Bind(old(scopestack), identifier, |old(alloced)|) else old(scopestack)
      ensures ok ==> FindIndex(scopestack, identifier) == Success(|old(alloced)|)
    {
      var idx := |alloced|;
      var _ := AllocValue(value, constant);
      ok := AddToScope(identifier, idx);
      if ok {
        LookupAfterBind(old(scopestack), identifier, idx, identifier);
      }
    }
  }
}
