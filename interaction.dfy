/**
 * `gui_interaction`: wait for the page once, then try the action up to three
 * times, logging a warning on every driver failure and sleeping before each
 * retry. The readiness waits, the logger and the sleeps are recorded as
 * events of a trace; the action is a script giving the outcome of each of
 * the three calls it may receive.
 */
module Interaction {
  import opened Driver

  /** What the wrapper does that the outside world can see. */
  datatype Event =
    | WaitDomLoaded         // wait_until_dom_is_loaded()
    | WaitNoLoaders         // wait_until_there_are_no_loaders()
    | Call(attempt: nat)    // the action is called, for the attempt-th time (from 0)
    | Warn(text: string)    // logger.warn(...)
    | Sleep                 // time.sleep(1)

  /** The number of attempts the loop allows (`n = 3`). */
  const MaxAttempts: nat := 3

  /** The outcomes of the action's calls, one per attempt. */
  type Script<T> = s: seq<Result<T>> | |s| == MaxAttempts
    witness [Err(NotImplemented), Err(NotImplemented), Err(NotImplemented)]

  /** An outcome the `except WebDriverException` clause catches. */
  predicate IsDriverFailure<T>(o: Result<T>) {
    o.Err? && o.error.IsWebDriverException()
  }

  /** The warning `'{} failed\n{}'.format(message, e.msg)`. */
  function WarnText(message: string, msg: string): string {
    message + " failed\n" + msg
  }

  /** The events of the attempts from `k` on. */
  function RetryTrace<T>(script: Script<T>, message: string, k: nat): seq<Event>
    requires k < MaxAttempts
    decreases MaxAttempts - k
  {
    var o := script[k];
    if !IsDriverFailure(o) then [Call(k)]
    else if k == MaxAttempts - 1 then [Call(k), Warn(WarnText(message, o.error.msg))]
    else [Call(k), Warn(WarnText(message, o.error.msg)), Sleep] + RetryTrace(script, message, k + 1)
  }

  /** What the attempts from `k` on return or raise. */
  function RetryResult<T>(script: Script<T>, k: nat): Result<T>
    requires k < MaxAttempts
    decreases MaxAttempts - k
  {
    if !IsDriverFailure(script[k]) || k == MaxAttempts - 1 then script[k]
    else RetryResult(script, k + 1)
  }

  /** How many times the action is called: up to the first call that is not a driver failure, at most three. */
  function Calls<T>(script: Script<T>): (n: nat)
    ensures 1 <= n <= MaxAttempts
  {
    if !IsDriverFailure(script[0]) then 1
    else if !IsDriverFailure(script[1]) then 2
    else 3
  }

  /** The number of calls from attempt `k` on. */
  function CallsFrom<T>(script: Script<T>, k: nat): (n: nat)
    requires k < MaxAttempts
    ensures 1 <= n <= MaxAttempts - k
    ensures k == 0 ==> n == Calls(script)
    decreases MaxAttempts - k
  {
    if !IsDriverFailure(script[k]) || k == MaxAttempts - 1 then 1 else 1 + CallsFrom(script, k + 1)
  }

  predicate IsCall(e: Event) { e.Call? }
  predicate IsWarn(e: Event) { e.Warn? }
  predicate IsSleep(e: Event) { e.Sleep? }
  predicate IsWait(e: Event) { e.WaitDomLoaded? || e.WaitNoLoaders? }

  /** The number of events of one kind in a trace. */
  function Count(t: seq<Event>, p: Event -> bool): nat
    decreases |t|
  {
    if |t| == 0 then 0 else (if p(t[0]) then 1 else 0) + Count(t[1..], p)
  }

  lemma {:induction false} CountAppend(a: seq<Event>, b: seq<Event>, p: Event -> bool)
    ensures Count(a + b, p) == Count(a, p) + Count(b, p)
    decreases |a|
  {
    if |a| == 0 {
      assert a + b == b;
    } else {
      assert (a + b)[0] == a[0];
      assert (a + b)[1..] == a[1..] + b;
      CountAppend(a[1..], b, p);
    }
  }

  /** `gui_interaction(action, message)`. */
  method GuiInteraction<T>(script: Script<T>, message: string) returns (r: Result<T>, trace: seq<Event>)
    ensures trace == [WaitDomLoaded, WaitNoLoaders] + RetryTrace(script, message, 0)
    ensures r == RetryResult(script, 0)
  {
    trace := [WaitDomLoaded, WaitNoLoaders];
    var n := MaxAttempts;
    while n != 0
      invariant 0 < n <= MaxAttempts
      invariant trace + RetryTrace(script, message, MaxAttempts - n) == [WaitDomLoaded, WaitNoLoaders] + RetryTrace(script, message, 0)
      invariant RetryResult(script, MaxAttempts - n) == RetryResult(script, 0)
      decreases n
    {
      n := n - 1;
      var attempt := MaxAttempts - 1 - n;
      var o := script[attempt];
      trace := trace + [Call(attempt)];
      if !IsDriverFailure(o) {
        return o, trace;
      }
      trace := trace + [Warn(WarnText(message, o.error.msg))];
      if n == 0 {
        return o, trace;
      }
      trace := trace + [Sleep];
    }
  }

  /** The wrapper returns or raises the outcome of its last call, and every earlier call was a driver failure. */
  lemma RetryResultIsLastCall<T>(script: Script<T>)
    ensures RetryResult(script, 0) == script[Calls(script) - 1]
    ensures forall j :: 0 <= j < Calls(script) - 1 ==> IsDriverFailure(script[j])
    ensures Calls(script) < MaxAttempts ==> !IsDriverFailure(RetryResult(script, 0))
  {
  }

  /**
   * The counts of the trace: one call per attempt made; one warning per
   * driver failure, the re-raised third one included; one sleep per retry.
   */
  lemma RetryTraceCounts<T>(script: Script<T>, message: string)
    ensures Count(RetryTrace(script, message, 0), IsCall) == Calls(script)
    ensures Count(RetryTrace(script, message, 0), IsSleep) == Calls(script) - 1
    ensures Count(RetryTrace(script, message, 0), IsWarn) ==
            Calls(script) - 1 + (if IsDriverFailure(RetryResult(script, 0)) then 1 else 0)
    ensures Count(RetryTrace(script, message, 0), IsWait) == 0
  {
    RetryTraceCountsFrom(script, message, 0);
  }

  /** The counts of the trace from attempt `k`, by induction on the attempts left. */
  lemma {:induction false} RetryTraceCountsFrom<T>(script: Script<T>, message: string, k: nat)
    requires k < MaxAttempts
    ensures Count(RetryTrace(script, message, k), IsCall) == CallsFrom(script, k)
    ensures Count(RetryTrace(script, message, k), IsSleep) == CallsFrom(script, k) - 1
    ensures Count(RetryTrace(script, message, k), IsWarn) ==
            CallsFrom(script, k) - 1 + (if IsDriverFailure(RetryResult(script, k)) then 1 else 0)
    ensures Count(RetryTrace(script, message, k), IsWait) == 0
    decreases MaxAttempts - k
  {
    var o := script[k];
    var t := RetryTrace(script, message, k);
    if !IsDriverFailure(o) {
      assert t == [Call(k)];
      assert t[1..] == [];
    } else if k == MaxAttempts - 1 {
      var w := Warn(WarnText(message, o.error.msg));
      assert t == [Call(k)] + [w];
      CountAppend([Call(k)], [w], IsCall);
      CountAppend([Call(k)], [w], IsSleep);
      CountAppend([Call(k)], [w], IsWarn);
      CountAppend([Call(k)], [w], IsWait);
    } else {
      var w := Warn(WarnText(message, o.error.msg));
      var head := [Call(k), w, Sleep];
      assert head[1..] == [w, Sleep] && [w, Sleep][1..] == [Sleep] && [Sleep][1..] == [];
      assert Count([Sleep], IsCall) == 0 && Count([Sleep], IsSleep) == 1 && Count([Sleep], IsWarn) == 0 && Count([Sleep], IsWait) == 0;
      assert Count([w, Sleep], IsCall) == 0 && Count([w, Sleep], IsSleep) == 1 && Count([w, Sleep], IsWarn) == 1 && Count([w, Sleep], IsWait) == 0;
      assert Count(head, IsCall) == 1 && Count(head, IsSleep) == 1 && Count(head, IsWarn) == 1 && Count(head, IsWait) == 0;
      var rest := RetryTrace(script, message, k + 1);
      assert t == head + rest;
      RetryTraceCountsFrom(script, message, k + 1);
      CountAppend(head, rest, IsCall);
      CountAppend(head, rest, IsSleep);
      CountAppend(head, rest, IsWarn);
      CountAppend(head, rest, IsWait);
    }
  }

  /**
   * Every sleep comes right after a warning and right before the next call,
   * and every warning carries the wrapper's message.
   */
  lemma {:induction false} TraceShape<T>(script: Script<T>, message: string, k: nat)
    requires k < MaxAttempts
    ensures var t := RetryTrace(script, message, k);
            t[0] == Call(k) &&
            (forall j :: 0 <= j < |t| && t[j] == Sleep ==> 0 < j && t[j - 1].Warn? && j + 1 < |t| && t[j + 1].Call?) &&
            (forall j :: 0 <= j < |t| && t[j].Warn? ==> message + " failed\n" <= t[j].text)
    decreases MaxAttempts - k
  {
    var o := script[k];
    if IsDriverFailure(o) && k < MaxAttempts - 1 {
      TraceShape(script, message, k + 1);
    }
  }

  /** A failure that is not a driver exception propagates from the first call, with no warning and no retry. */
  lemma OtherFailureNotRetried<T>(script: Script<T>, message: string)
    requires script[0].Err? && !script[0].error.IsWebDriverException()
    ensures RetryTrace(script, message, 0) == [Call(0)]
    ensures RetryResult(script, 0) == script[0]
  {
  }

  /** Two driver failures and then a success: the success is returned, after two warnings and two sleeps. */
  lemma TwoFailuresThenSuccess<T>(script: Script<T>, message: string)
    requires IsDriverFailure(script[0]) && IsDriverFailure(script[1]) && script[2].Ok?
    ensures RetryResult(script, 0) == script[2]
    ensures RetryTrace(script, message, 0) ==
            [Call(0), Warn(WarnText(message, script[0].error.msg)), Sleep,
             Call(1), Warn(WarnText(message, script[1].error.msg)), Sleep,
             Call(2)]
  {
  }

  /** Three driver failures: the third is re-raised after three warnings, with a sleep only between calls. */
  lemma ThreeFailuresReraised<T>(script: Script<T>, message: string)
    requires IsDriverFailure(script[0]) && IsDriverFailure(script[1]) && IsDriverFailure(script[2])
    ensures RetryResult(script, 0) == script[2]
    ensures RetryTrace(script, message, 0) ==
            [Call(0), Warn(WarnText(message, script[0].error.msg)), Sleep,
             Call(1), Warn(WarnText(message, script[1].error.msg)), Sleep,
             Call(2), Warn(WarnText(message, script[2].error.msg))]
  {
  }
}
