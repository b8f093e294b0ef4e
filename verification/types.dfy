/**
  Values exchanged between the web-authentication coordinator, the view
  layer that configures it, and the platform authentication session.

  Closures supplied by the caller are represented by opaque identities
  (`HandlerId`), platform session objects by opaque handles (`Handle`),
  and every observable action of the coordinator by an `Effect`.
 */
module WebAuthTypes {

  datatype Option<+T> = None | Some(value: T)

  /** A URL, kept opaque: the coordinator never parses or validates one. */
  type Url = string

  /** Identity of a caller-supplied closure (`onCompletion`, `onDismiss`). */
  type HandlerId = nat

  /** Identity of one platform authentication session object. */
  type Handle = nat

  /** One snapshot of the view's inputs, replaced wholesale on every update. */
  datatype Config = Config(
    isPresented: bool,
    url: Option<Url>,
    callbackScheme: Option<string>,
    ephemeral: bool,
    onDismiss: Option<HandlerId>,
    onCompletion: HandlerId)

  /** Codes of the platform's own session error type. */
  datatype SessionErrorCode =
    | CanceledLogin
    | PresentationContextNotProvided
    | PresentationContextInvalid

  /** An error delivered to the session callback: either the platform's own
      session error type, or any other error value. */
  datatype Error =
    | SessionError(code: SessionErrorCode)
    | OtherError(id: nat)

  const Canceled: Error := SessionError(CanceledLogin)

  /** The value handed to `onCompletion`. */
  datatype AuthResult = Success(callbackUrl: Url) | Failure(error: Error)

  /** Developer assertions the coordinator can raise. */
  datatype Assertion = MissingUrl | NoCallbackResult

  datatype Effect =
    | StartSession(handle: Handle, url: Url, callbackScheme: Option<string>, ephemeral: bool)
    | CancelSession(handle: Handle)
    | ResetFlag
    | CallCompletion(handler: HandlerId, result: AuthResult)
    | CallDismiss(handler: HandlerId)
    | AssertionFailure(reason: Assertion)

  predicate IsHandlerCall(e: Effect) {
    e.CallCompletion? || e.CallDismiss?
  }

  predicate NoHandlerCalls(effs: seq<Effect>) {
    forall i :: 0 <= i < |effs| ==> !IsHandlerCall(effs[i])
  }

  /** Handles of the sessions started by `effs`, in order. */
  function Starts(effs: seq<Effect>): (hs: seq<Handle>)
    ensures |hs| <= |effs|
  {
    if effs == [] then []
    else (if effs[0].StartSession? then [effs[0].handle] else []) + Starts(effs[1..])
  }

  /** Handles of the sessions cancelled by `effs`, in order. */
  function Cancels(effs: seq<Effect>): (hs: seq<Handle>)
    ensures |hs| <= |effs|
  {
    if effs == [] then []
    else (if effs[0].CancelSession? then [effs[0].handle] else []) + Cancels(effs[1..])
  }

  /** Number of caller closures invoked by `effs`. */
  function HandlerCalls(effs: seq<Effect>): (n: nat)
    ensures n <= |effs|
  {
    if effs == [] then 0
    else (if IsHandlerCall(effs[0]) then 1 else 0) + HandlerCalls(effs[1..])
  }

  lemma {:induction false} StartsAppend(a: seq<Effect>, b: seq<Effect>)
    ensures Starts(a + b) == Starts(a) + Starts(b)
  {
    if a == [] {
      assert a + b == b;
    } else {
      assert (a + b)[0] == a[0];
      assert (a + b)[1..] == a[1..] + b;
      StartsAppend(a[1..], b);
    }
  }

  lemma {:induction false} CancelsAppend(a: seq<Effect>, b: seq<Effect>)
    ensures Cancels(a + b) == Cancels(a) + Cancels(b)
  {
    if a == [] {
      assert a + b == b;
    } else {
      assert (a + b)[0] == a[0];
      assert (a + b)[1..] == a[1..] + b;
      CancelsAppend(a[1..], b);
    }
  }

  lemma {:induction false} HandlerCallsAppend(a: seq<Effect>, b: seq<Effect>)
    ensures HandlerCalls(a + b) == HandlerCalls(a) + HandlerCalls(b)
  {
    if a == [] {
      assert a + b == b;
    } else {
      assert (a + b)[0] == a[0];
      assert (a + b)[1..] == a[1..] + b;
      HandlerCallsAppend(a[1..], b);
    }
  }
}
