/**
  The `isPresented` binding as the host sees it. The coordinator writes it
  only through `ResetFlag`; the closures it calls observe the value the
  binding holds at the moment they run.
 */
module PresentationBinding {
  import opened WebAuthTypes
  import opened Coordinator

  /** The binding's value after the host has performed `effs` in order,
      starting from `flag`: it stays as it was unless some effect resets it. */
  function FlagAfter(flag: bool, effs: seq<Effect>): (r: bool)
    ensures r == (flag && ResetFlag !in effs)
    decreases |effs|
  {
    if effs == [] then flag
    else FlagAfter(if effs[0] == ResetFlag then false else flag, effs[1..])
  }

  /** The completion closure and the dismiss closure always see the flag
      already cleared and, assuming the closures do not write the binding,
      the flag stays cleared once the callback is done, whatever value it had. */
  lemma CallbackClearsFlagBeforeHandlers(s: State, h: Handle, u: Option<Url>, err: Option<Error>, flag: bool)
    ensures var effs := SessionCallback(s, h, u, err).effects;
      && !FlagAfter(flag, effs)
      && (forall i :: 0 < i <= |effs| ==> !FlagAfter(flag, effs[..i]))
      && (forall i :: 0 <= i < |effs| && IsHandlerCall(effs[i]) ==> !FlagAfter(flag, effs[..i]))
  {
    var effs := SessionCallback(s, h, u, err).effects;
    forall i | 0 < i <= |effs|
      ensures !FlagAfter(flag, effs[..i])
    {
      assert effs[..i][0] == ResetFlag;
    }
    assert effs[..|effs|] == effs;
    forall i | 0 <= i < |effs| && IsHandlerCall(effs[i])
      ensures !FlagAfter(flag, effs[..i])
    {
      assert i != 0;
    }
  }

  /** A rising edge without a URL leaves the binding cleared and starts no
      session. */
  lemma MissingUrlClearsFlag(s: State, p: Config, flag: bool)
    requires !s.parent.isPresented && p.isPresented && p.url.None?
    ensures var r := Update(s, p);
      && !FlagAfter(flag, r.effects)
      && Starts(r.effects) == []
      && r.state.session == s.session
      && NoHandlerCalls(r.effects)
  {
  }

  /** Updates and cancels leave the binding alone except for the missing-URL
      reset; a started session never touches it. */
  lemma UpdateTouchesFlagOnlyWithoutUrl(s: State, p: Config, flag: bool)
    ensures FlagAfter(flag, Update(s, p).effects) ==
      (flag && !(!s.parent.isPresented && p.isPresented && p.url.None?))
  {
  }

  /** Assuming the closures do not write the binding, the view re-renders
      after a callback with the cleared flag, so that update can never start
      a session. */
  lemma RerenderAfterCallbackStartsNothing(s: State, h: Handle, u: Option<Url>, err: Option<Error>, flag: bool, p: Config)
    requires p.isPresented == FlagAfter(flag, SessionCallback(s, h, u, err).effects)
    ensures !p.isPresented
    ensures Starts(Update(SessionCallback(s, h, u, err).state, p).effects) == []
  {
    CallbackClearsFlagBeforeHandlers(s, h, u, err, flag);
  }
}
