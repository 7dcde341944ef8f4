/**
 * The parent-scope stack as a value: every `with element:` block pushes the
 * element on entry (`__enter__`) and pops the top on exit (`__exit__`).
 * A run of such events is replayed on a stack; well-nested blocks never touch
 * what was on the stack before them and leave it as it was.
 */
module Scoping {
  import opened Driver

  /** One scope event: `__enter__` of an element, or `__exit__`. */
  datatype ScopeEvent<T> = Enter(element: T) | Exit

  /** One event on the stack: `append`, or `pop`, which fails on an empty stack. */
  function Apply<T>(stack: seq<T>, ev: ScopeEvent<T>): (r: Option<seq<T>>)
    ensures ev.Enter? ==> r == Some(stack + [ev.element])
    ensures ev.Exit? ==> (r.None? <==> stack == [])
    ensures ev.Exit? && r.Some? ==> r.value + [stack[|stack| - 1]] == stack
  {
    match ev
    case Enter(e) => Some(stack + [e])
    case Exit => if |stack| == 0 then None else Some(stack[..|stack| - 1])
  }

  /** Replays a run of events, the last one last; None once a pop failed. */
  function Run<T>(stack: seq<T>, evs: seq<ScopeEvent<T>>): Option<seq<T>>
    decreases |evs|
  {
    if |evs| == 0 then Some(stack)
    else
      match Run(stack, evs[..|evs| - 1])
      case None => None
      case Some(s) => Apply(s, evs[|evs| - 1])
  }

  /** Entries minus exits. */
  function Depth<T>(evs: seq<ScopeEvent<T>>): int
    decreases |evs|
  {
    if |evs| == 0 then 0
    else Depth(evs[..|evs| - 1]) + (if evs[|evs| - 1].Enter? then 1 else -1)
  }

  /** No prefix of the run exits more scopes than it entered. */
  ghost predicate NeverUnderflows<T>(evs: seq<ScopeEvent<T>>) {
    forall k :: 0 <= k <= |evs| ==> Depth(evs[..k]) >= 0
  }

  /** The events of well-nested `with` blocks: never underflowing, all closed. */
  ghost predicate Balanced<T>(evs: seq<ScopeEvent<T>>) {
    NeverUnderflows(evs) && Depth(evs) == 0
  }

  /**
   * Inside nested scopes the stack is the old stack with the open scopes on
   * top: no pop fails and nothing below the starting height is touched.
   */
  lemma {:induction false} RunKeepsOuter<T>(stack: seq<T>, evs: seq<ScopeEvent<T>>)
    requires NeverUnderflows(evs)
    ensures Depth(evs) >= 0 && Run(stack, evs).Some?
    ensures |Run(stack, evs).value| == |stack| + Depth(evs)
    ensures Run(stack, evs).value[..|stack|] == stack
    decreases |evs|
  {
    assert evs[..|evs|] == evs;
    if |evs| > 0 {
      var init := evs[..|evs| - 1];
      assert NeverUnderflows(init) by {
        forall k | 0 <= k <= |init| ensures Depth(init[..k]) >= 0 {
          assert init[..k] == evs[..k];
        }
      }
      RunKeepsOuter(stack, init);
      var s := Run(stack, init).value;
      if evs[|evs| - 1].Exit? {
        assert Depth(evs) >= 0;
        assert (s[..|s| - 1])[..|stack|] == s[..|stack|];
      } else {
        assert (s + [evs[|evs| - 1].element])[..|stack|] == s[..|stack|];
      }
    }
  }

  /** Well-nested scopes leave the stack exactly as they found it. */
  lemma BalancedRestores<T>(stack: seq<T>, evs: seq<ScopeEvent<T>>)
    requires Balanced(evs)
    ensures Run(stack, evs) == Some(stack)
  {
    RunKeepsOuter(stack, evs);
    var s := Run(stack, evs).value;
    assert s == s[..|stack|];
  }

  /** One enter/exit pair around any well-nested body restores the stack. */
  lemma {:induction false} EnterBodyExit<T>(stack: seq<T>, e: T, body: seq<ScopeEvent<T>>)
    requires Balanced(body)
    ensures Run(stack, [Enter(e)] + body + [Exit]) == Some(stack)
  {
    var evs := [Enter(e)] + body + [Exit];
    var inner := [Enter(e)] + body;
    assert evs[..|evs| - 1] == inner;
    RunPrefix(stack, e, body);
    assert evs[|evs| - 1] == Exit;
    assert Run(stack, evs) == Apply(stack + [e], Exit);
    assert (stack + [e])[..|stack|] == stack;
  }

  /** Running `[Enter(e)] + body` runs `body` on the stack with `e` on top. */
  lemma {:induction false} RunPrefix<T>(stack: seq<T>, e: T, body: seq<ScopeEvent<T>>)
    requires Balanced(body)
    ensures Run(stack, [Enter(e)] + body) == Run(stack + [e], body)
    ensures Run(stack + [e], body) == Some(stack + [e])
  {
    BalancedRestores(stack + [e], body);
    RunShift(stack, e, body);
  }

  /** Replaying after a first entry equals replaying on the pushed stack. */
  lemma {:induction false} RunShift<T>(stack: seq<T>, e: T, body: seq<ScopeEvent<T>>)
    ensures Run(stack, [Enter(e)] + body) == Run(stack + [e], body)
    decreases |body|
  {
    var evs := [Enter(e)] + body;
    if |body| == 0 {
      assert evs[..|evs| - 1] == [];
    } else {
      assert evs[..|evs| - 1] == [Enter(e)] + body[..|body| - 1];
      assert evs[|evs| - 1] == body[|body| - 1];
      RunShift(stack, e, body[..|body| - 1]);
    }
  }
}
