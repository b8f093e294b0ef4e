/**
  Short traces through the coordinator, including those where its
  behaviour differs from a controller that would track which session a
  callback belongs to.
 */
module Scenarios {
  import opened WebAuthTypes
  import opened Coordinator
  import opened Traces

  /** The callback never consults which session it came from: the same
      result from any two sessions has the same effect. */
  lemma CallbackIgnoresHandle(s: State, h1: Handle, h2: Handle, u: Option<Url>, err: Option<Error>)
    ensures SessionCallback(s, h1, u, err) == SessionCallback(s, h2, u, err)
  {
  }

  /** Running four events is applying them one after the other. */
  lemma RunOfFour(s: State, e1: Event, e2: Event, e3: Event, e4: Event)
    ensures var t1 := Apply(s, e1); var t2 := Apply(t1.state, e2);
      var t3 := Apply(t2.state, e3); var t4 := Apply(t3.state, e4);
      Run(s, [e1, e2, e3, e4]) == Transition(t4.state, t1.effects + (t2.effects + (t3.effects + t4.effects)))
  {
    var evs := [e1, e2, e3, e4];
    assert evs[1..] == [e2, e3, e4];
    assert evs[1..][1..] == [e3, e4];
    assert evs[1..][1..][1..] == [e4];
    assert evs[1..][1..][1..][1..] == [];
    var t1 := Apply(s, e1);
    var t2 := Apply(t1.state, e2);
    var t3 := Apply(t2.state, e3);
    var t4 := Apply(t3.state, e4);
    assert t4.effects + [] == t4.effects;
    assert Run(t3.state, [e4]) == Transition(t4.state, t4.effects);
    assert Run(t2.state, [e3, e4]) == Transition(t4.state, t3.effects + t4.effects);
    assert Run(t1.state, [e2, e3, e4]) == Transition(t4.state, t2.effects + (t3.effects + t4.effects));
  }

  /** Present, then clear, then present again, then a late `canceledLogin`
      callback from the first session, whose handle is `first`. */
  function LateCallbackEvents(c: Config, first: Handle): (evs: seq<Event>)
    ensures |evs| == 4 && evs[3] == Callback(first, None, Some(Canceled))
  {
    [ViewUpdate(c), ViewUpdate(c.(isPresented := false)), ViewUpdate(c), Callback(first, None, Some(Canceled))]
  }

  /** The state and the effects that the late-callback trace ends with. */
  lemma LateCallbackTrace(s: State, c: Config, d: HandlerId)
    requires !s.parent.isPresented
    requires c.isPresented && c.url.Some? && c.onDismiss == Some(d)
    ensures var first := s.nextHandle;
      var start1 := StartSession(first, c.url.value, c.callbackScheme, c.ephemeral);
      var start2 := StartSession(first + 1, c.url.value, c.callbackScheme, c.ephemeral);
      Run(s, LateCallbackEvents(c, first))
      == Transition(State(c, Some(first + 1), first + 2),
                    [start1] + ([CancelSession(first)] + ([start2] + [ResetFlag, CallDismiss(d)])))
  {
    var off := c.(isPresented := false);
    var first := s.nextHandle;
    RunOfFour(s, ViewUpdate(c), ViewUpdate(off), ViewUpdate(c), Callback(first, None, Some(Canceled)));
    var t1 := Update(s, c);
    assert t1.state == State(c, Some(first), first + 1);
    assert t1.effects == [StartSession(first, c.url.value, c.callbackScheme, c.ephemeral)];
    var t2 := Update(t1.state, off);
    assert t2.state == State(off, Some(first), first + 1) && t2.effects == [CancelSession(first)];
    var t3 := Update(t2.state, c);
    assert t3.state == State(c, Some(first + 1), first + 2);
    assert t3.effects == [StartSession(first + 1, c.url.value, c.callbackScheme, c.ephemeral)];
    var t4 := SessionCallback(t3.state, first, None, Some(Canceled));
    assert t4.state == t3.state && t4.effects == [ResetFlag, CallDismiss(d)];
  }

  /** What the effects and the final state of the late-callback trace say:
      two starts, one cancel, the dismiss closure after the flag reset, the
      second session recorded. */
  lemma LateCallbackOutcome(r: Transition, c: Config, d: HandlerId, first: Handle)
    requires c.isPresented && c.url.Some?
    requires r == Transition(State(c, Some(first + 1), first + 2),
                             [StartSession(first, c.url.value, c.callbackScheme, c.ephemeral)]
                             + ([CancelSession(first)]
                             + ([StartSession(first + 1, c.url.value, c.callbackScheme, c.ephemeral)]
                             + [ResetFlag, CallDismiss(d)])))
    ensures Starts(r.effects) == [first, first + 1]
    ensures Cancels(r.effects) == [first]
    ensures r.effects[|r.effects| - 1] == CallDismiss(d)
    ensures r.effects[|r.effects| - 2] == ResetFlag
    ensures r.state.session == Some(first + 1)
  {
    var e1 := [StartSession(first, c.url.value, c.callbackScheme, c.ephemeral)];
    var e2 := [CancelSession(first)];
    var e3 := [StartSession(first + 1, c.url.value, c.callbackScheme, c.ephemeral)];
    var e4 := [ResetFlag, CallDismiss(d)];
    assert Starts(e4) == [] && Cancels(e4) == [] by {
      assert e4[1..] == [CallDismiss(d)];
      assert e4[1..][1..] == [];
    }
    assert Starts(e1) == [first] && Starts(e2) == [] && Starts(e3) == [first + 1];
    assert Cancels(e1) == [] && Cancels(e2) == [first] && Cancels(e3) == [];
    StartsAppend(e3, e4);
    StartsAppend(e2, e3 + e4);
    StartsAppend(e1, e2 + (e3 + e4));
    CancelsAppend(e3, e4);
    CancelsAppend(e2, e3 + e4);
    CancelsAppend(e1, e2 + (e3 + e4));
  }

  /** In that trace two sessions are started and the first is cancelled. */
  lemma LateCallbackStartsTwoSessions(s: State, c: Config, d: HandlerId)
    requires !s.parent.isPresented
    requires c.isPresented && c.url.Some? && c.onDismiss == Some(d)
    ensures var first := s.nextHandle;
      var r := Run(s, LateCallbackEvents(c, first));
      && Starts(r.effects) == [first, first + 1]
      && Cancels(r.effects) == [first]
  {
    LateCallbackTrace(s, c, d);
    LateCallbackOutcome(Run(s, LateCallbackEvents(c, s.nextHandle)), c, d, s.nextHandle);
  }

  /** The late `canceledLogin` callback of the first session is not
      discarded: it fires the current dismiss closure and asks for the flag
      to be cleared while the second session is the recorded one. */
  lemma LateCallbackOfCancelledSessionIsApplied(s: State, c: Config, d: HandlerId)
    requires !s.parent.isPresented
    requires c.isPresented && c.url.Some? && c.onDismiss == Some(d)
    ensures var first := s.nextHandle;
      var r := Run(s, LateCallbackEvents(c, first));
      && r.effects[|r.effects| - 1] == CallDismiss(d)
      && r.effects[|r.effects| - 2] == ResetFlag
      && r.state.session == Some(first + 1)
  {
    LateCallbackTrace(s, c, d);
    LateCallbackOutcome(Run(s, LateCallbackEvents(c, s.nextHandle)), c, d, s.nextHandle);
  }

  /** Clearing the flag while a session is recorded cancels exactly that
      session. */
  lemma FallingEdgeCancelsRecordedSession(s: State, p: Config)
    requires s.parent.isPresented && !p.isPresented && s.session.Some?
    ensures Cancels(Update(s, p).effects) == [s.session.value]
  {
    assert Update(s, p).effects == [CancelSession(s.session.value)];
  }

  /** After that late callback the view re-renders with the cleared flag, and
      that update cancels the second session, which is still running. */
  lemma LateCallbackCancelsNextSession(s: State, c: Config, d: HandlerId)
    requires !s.parent.isPresented
    requires c.isPresented && c.url.Some? && c.onDismiss == Some(d)
    ensures var first := s.nextHandle;
      var r := Run(s, LateCallbackEvents(c, first));
      Cancels(Update(r.state, c.(isPresented := false)).effects) == [first + 1]
  {
    LateCallbackTrace(s, c, d);
    FallingEdgeCancelsRecordedSession(State(c, Some(s.nextHandle + 1), s.nextHandle + 2), c.(isPresented := false));
  }

  /** A closure that sets the flag again to retry, before the view has pushed
      the cleared flag, is not seen as a new request: the stored snapshot
      still holds the set flag, so the re-render has no rising edge and no
      second session starts. */
  lemma RetryFromClosureIsIgnored(s: State, c: Config, h: Handle, u: Option<Url>, err: Option<Error>, retry: Config)
    requires !s.parent.isPresented
    requires c.isPresented && c.url.Some? && retry.isPresented
    ensures var r := Run(s, [ViewUpdate(c), Callback(h, u, err), ViewUpdate(retry)]);
      && Starts(r.effects) == [s.nextHandle]
      && r.state.session == Some(s.nextHandle)
      && r.state.parent == retry
  {
    var evs := [ViewUpdate(c), Callback(h, u, err), ViewUpdate(retry)];
    assert evs[1..] == [Callback(h, u, err), ViewUpdate(retry)];
    assert evs[1..][1..] == [ViewUpdate(retry)];
    var t1 := Update(s, c);
    assert t1.effects == [StartSession(s.nextHandle, c.url.value, c.callbackScheme, c.ephemeral)];
    var t2 := SessionCallback(t1.state, h, u, err);
    var t3 := Update(t2.state, retry);
    assert t3.effects == [] && t3.state.session == Some(s.nextHandle);
    assert t3.effects + [] == t3.effects;
    assert Run(t2.state, [ViewUpdate(retry)]) == Transition(t3.state, t3.effects);
    assert Run(t1.state, evs[1..]) == Transition(t3.state, t2.effects + t3.effects);
    assert Run(s, evs) == Transition(t3.state, t1.effects + (t2.effects + t3.effects));
    StartsAppend(t2.effects, t3.effects);
    StartsAppend(t1.effects, t2.effects + t3.effects);
  }

  /** Once the view has pushed the cleared flag, a closure that sets the flag
      again (for instance from a late callback of a cancelled session) is a
      new request: the re-render is a rising edge and starts a fresh session. */
  lemma RetryAfterClearStarts(s: State, retry: Config)
    requires !s.parent.isPresented
    requires retry.isPresented && retry.url.Some?
    ensures var r := Update(s, retry);
      && Starts(r.effects) == [s.nextHandle]
      && r.state.session == Some(s.nextHandle)
  {
    assert Update(s, retry).effects == [StartSession(s.nextHandle, retry.url.value, retry.callbackScheme, retry.ephemeral)];
  }

  /** The coordinator never forgets its session: neither the callback nor a
      cancel clears the weak reference. So after a successful completion the
      re-render that pushes the cleared flag still sends a cancel to the
      finished session, unless the platform has released it in between. */
  lemma NormalFlowCancelsCompletedSession(s: State, c: Config, u: Url)
    requires !s.parent.isPresented
    requires c.isPresented && c.url.Some?
    ensures var r := Run(s, [ViewUpdate(c), Callback(s.nextHandle, Some(u), None), ViewUpdate(c.(isPresented := false))]);
      && Cancels(r.effects) == [s.nextHandle]
      && r.state.session == Some(s.nextHandle)
  {
    var off := c.(isPresented := false);
    var evs := [ViewUpdate(c), Callback(s.nextHandle, Some(u), None), ViewUpdate(off)];
    assert evs[1..] == [Callback(s.nextHandle, Some(u), None), ViewUpdate(off)];
    assert evs[1..][1..] == [ViewUpdate(off)];
    var t1 := Update(s, c);
    assert t1.effects == [StartSession(s.nextHandle, c.url.value, c.callbackScheme, c.ephemeral)];
    assert t1.state.session == Some(s.nextHandle);
    var t2 := SessionCallback(t1.state, s.nextHandle, Some(u), None);
    assert t2.effects == [ResetFlag, CallCompletion(c.onCompletion, Success(u))];
    assert t2.effects[1..] == [CallCompletion(c.onCompletion, Success(u))];
    var t3 := Update(t2.state, off);
    assert t3.effects == [CancelSession(s.nextHandle)] && t3.state.session == Some(s.nextHandle);
    assert t3.effects + [] == t3.effects;
    assert Run(t2.state, [ViewUpdate(off)]) == Transition(t3.state, t3.effects);
    assert Run(t1.state, evs[1..]) == Transition(t3.state, t2.effects + t3.effects);
    assert Run(s, evs) == Transition(t3.state, t1.effects + (t2.effects + t3.effects));
    CancelsAppend(t2.effects, t3.effects);
    CancelsAppend(t1.effects, t2.effects + t3.effects);
  }

  /** A view that asks for presentation with a URL and a callback scheme starts
      one session on exactly those; a callback URL then goes to the completion
      closure as a success after the flag reset. */
  lemma PresentThenSucceed(s: State, c: Config, h: Handle, callback: Url)
    requires !s.parent.isPresented
    requires c.isPresented && c.url.Some?
    ensures var r := Run(s, [ViewUpdate(c), Callback(h, Some(callback), None)]);
      && r.effects == [
           StartSession(s.nextHandle, c.url.value, c.callbackScheme, c.ephemeral),
           ResetFlag,
           CallCompletion(c.onCompletion, Success(callback))]
      && r.state.session == Some(s.nextHandle)
  {
    var evs := [ViewUpdate(c), Callback(h, Some(callback), None)];
    assert evs[1..] == [Callback(h, Some(callback), None)];
    var t1 := Update(s, c);
    assert t1.effects == [StartSession(s.nextHandle, c.url.value, c.callbackScheme, c.ephemeral)];
    var t2 := SessionCallback(t1.state, h, Some(callback), None);
    assert t2.effects == [ResetFlag, CallCompletion(c.onCompletion, Success(callback))];
    assert Run(t1.state, evs[1..]) == Transition(t2.state, t2.effects);
  }
}
