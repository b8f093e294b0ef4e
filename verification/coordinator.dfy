/**
  The coordinator that sits between the reactive `isPresented` flag of a
  view and the one-shot platform authentication session
  (`WebAuthenticationRepresentable.Coordinator`).

  Every entry point is a pure step: it takes the coordinator's state and
  returns the next state together with the effects it performs, in the
  order it performs them. Writes to the `isPresented` binding are the
  `ResetFlag` effect: they go through the binding's non-mutating setter,
  so they change the host's source of truth and not the configuration
  snapshot the coordinator stores.
 */
module Coordinator {
  import opened WebAuthTypes

  /** `parent` is the last configuration stored; `session` is the weak
      reference to the running session; `nextHandle` is the identity the
      next session object created will have. */
  datatype State = State(parent: Config, session: Option<Handle>, nextHandle: Handle)

  datatype Transition = Transition(state: State, effects: seq<Effect>)

  /** The recorded session, if any, is one this coordinator created. */
  ghost predicate Valid(s: State) {
    s.session.Some? ==> s.session.value < s.nextHandle
  }

  /** Creating the coordinator stores the first configuration without running
      the change observer: no session starts, whatever the flag says. */
  function Init(parent: Config): (r: Transition)
    ensures r.state.parent == parent
    ensures r.state.session.None?
    ensures r.effects == []
    ensures Valid(r.state)
  {
    Transition(State(parent, None, 0), [])
  }

  /** The view pushes a new configuration; the observer compares its flag with
      the previous snapshot and starts on a rising edge, cancels on a falling
      edge and does nothing else otherwise. */
  function Update(s: State, p: Config): (r: Transition)
    ensures r.state.parent == p
    ensures p.isPresented == s.parent.isPresented ==> r.effects == [] && r.state == s.(parent := p)
    ensures NoHandlerCalls(r.effects)
    ensures Valid(s) ==> Valid(r.state)
  {
    var stored := s.(parent := p);
    if p.isPresented && !s.parent.isPresented then
      StartAuthentication(stored)
    else if !p.isPresented && s.parent.isPresented then
      CancelAuthentication(stored)
    else
      Transition(stored, [])
  }

  /** Edge detection: an update starts a session exactly on a rising edge
      with a URL, cancels exactly on a falling edge while a session is
      recorded, and resets the flag exactly on a rising edge without a URL;
      only a start changes the recorded session. */
  lemma UpdateEdges(s: State, p: Config)
    ensures var r := Update(s, p);
      && |Starts(r.effects)| <= 1 && |Cancels(r.effects)| <= 1
      && (|Starts(r.effects)| == 1 <==> !s.parent.isPresented && p.isPresented && p.url.Some?)
      && (|Cancels(r.effects)| == 1 <==> s.parent.isPresented && !p.isPresented && s.session.Some?)
      && (ResetFlag in r.effects <==> !s.parent.isPresented && p.isPresented && p.url.None?)
      && (Starts(r.effects) == [] ==> r.state.session == s.session && r.state.nextHandle == s.nextHandle)
  {
  }

  /** Starting reads the stored configuration. Without a URL it only asks for
      the flag to be reset and raises a developer assertion; with one it
      starts exactly one fresh session on that URL, scheme and ephemeral
      preference, and records it as the current session. */
  function StartAuthentication(s: State): (r: Transition)
    ensures r.state.parent == s.parent
    ensures NoHandlerCalls(r.effects) && Cancels(r.effects) == []
    ensures s.parent.url.None? ==>
      && r.state == s
      && Starts(r.effects) == []
      && r.effects == [ResetFlag, AssertionFailure(MissingUrl)]
    ensures s.parent.url.Some? ==>
      && Starts(r.effects) == [s.nextHandle]
      && r.effects == [StartSession(s.nextHandle, s.parent.url.value, s.parent.callbackScheme, s.parent.ephemeral)]
      && r.state.session == Some(s.nextHandle)
      && s.nextHandle < r.state.nextHandle
    ensures Valid(s) ==> Valid(r.state)
  {
    match s.parent.url
    case None =>
      Transition(s, [ResetFlag, AssertionFailure(MissingUrl)])
    case Some(url) =>
      var h := s.nextHandle;
      var start := StartSession(h, url, s.parent.callbackScheme, s.parent.ephemeral);
      Transition(s.(session := Some(h), nextHandle := h + 1), [start])
  }

  /** Cancelling forwards to the recorded session if the weak reference still
      holds one, and is a no-op otherwise. It does not forget the session. */
  function CancelAuthentication(s: State): (r: Transition)
    ensures r.state == s
    ensures Starts(r.effects) == [] && NoHandlerCalls(r.effects) && ResetFlag !in r.effects
    ensures |r.effects| <= 1
    ensures forall h :: h in Cancels(r.effects) <==> s.session == Some(h)
  {
    match s.session
    case None => Transition(s, [])
    case Some(h) => Transition(s, [CancelSession(h)])
  }

  /** The one-shot callback of a session. It resets the flag first, then
      hands the raw `(callbackURL?, error?)` pair to at most one closure of
      the configuration stored NOW (not the one the session started with):
      a URL wins; else the platform's `canceledLogin` goes to `onDismiss`
      when there is one; else any error goes to `onCompletion` as a failure;
      else only a developer assertion is raised. The handle is not consulted. */
  function SessionCallback(s: State, h: Handle, callbackUrl: Option<Url>, error: Option<Error>): (r: Transition)
    ensures r.state == s
    ensures 1 <= |r.effects| <= 2 && r.effects[0] == ResetFlag
    ensures Starts(r.effects) == [] && Cancels(r.effects) == []
  {
    var outcome :=
      if callbackUrl.Some? then
        [CallCompletion(s.parent.onCompletion, Success(callbackUrl.value))]
      else if error == Some(Canceled) then
        (match s.parent.onDismiss
         case Some(d) => [CallDismiss(d)]
         case None => [])
      else if error.Some? then
        [CallCompletion(s.parent.onCompletion, Failure(error.value))]
      else
        [AssertionFailure(NoCallbackResult)];
    Transition(s, [ResetFlag] + outcome)
  }

  /** Outcome classification of a callback: the flag reset comes first and
      only once; at most one closure runs, and exactly one unless the login
      was cancelled with no dismiss closure or the result is empty; each
      closure is reached for exactly the inputs below, always the one the
      stored configuration holds, and `onCompletion` never sees
      `canceledLogin`. */
  lemma CallbackClassification(s: State, h: Handle, callbackUrl: Option<Url>, error: Option<Error>)
    ensures var effs := SessionCallback(s, h, callbackUrl, error).effects;
      && (forall i :: 1 <= i < |effs| ==> effs[i] != ResetFlag)
      && HandlerCalls(effs) <= 1
      && (HandlerCalls(effs) == 1 <==>
           callbackUrl.Some? || (error.Some? && (error.value != Canceled || s.parent.onDismiss.Some?)))
      && (forall u :: CallCompletion(s.parent.onCompletion, Success(u)) in effs <==> callbackUrl == Some(u))
      && (forall e :: CallCompletion(s.parent.onCompletion, Failure(e)) in effs <==>
           callbackUrl.None? && error == Some(e) && e != Canceled)
      && (forall d: HandlerId :: CallDismiss(d) in effs <==>
           callbackUrl.None? && error == Some(Canceled) && s.parent.onDismiss == Some(d))
      && (AssertionFailure(NoCallbackResult) in effs <==> callbackUrl.None? && error.None?)
      && (forall e :: e in effs && e.CallCompletion? ==> e.handler == s.parent.onCompletion)
      && (forall e :: e in effs && e.CallCompletion? && e.result.Failure? ==> e.result.error != Canceled)
  {
  }

  /** The platform drops its last strong reference to session `h`: the weak
      reference reads as absent from then on if it pointed at `h`. */
  function Release(s: State, h: Handle): (r: Transition)
    ensures r.effects == []
    ensures r.state.parent == s.parent && r.state.nextHandle == s.nextHandle
    ensures r.state.session == (if s.session == Some(h) then None else s.session)
    ensures Valid(s) ==> Valid(r.state)
  {
    if s.session == Some(h) then Transition(s.(session := None), []) else Transition(s, [])
  }

  datatype Window = Window(id: nat)

  /** The anchor the platform attaches its UI to. */
  datatype Anchor = ViewWindow(window: Window) | NewWindow

  /** The anchor is the window the coordinator's view is in, or a freshly
      created window when the view is not in one yet; the session asking is
      not consulted. */
  function PresentationAnchor(viewWindow: Option<Window>, session: Handle): (a: Anchor)
    ensures a.ViewWindow? <==> viewWindow.Some?
    ensures forall w :: a == ViewWindow(w) <==> viewWindow == Some(w)
  {
    match viewWindow
    case Some(w) => ViewWindow(w)
    case None => NewWindow
  }
}
