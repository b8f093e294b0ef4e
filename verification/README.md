# SwiftUIWebAuthentication coordinator, modelled in Dafny

SwiftUIWebAuthentication lets a SwiftUI view drive the platform's
browser-based authentication session (`ASWebAuthenticationSession`) from a
`Binding<Bool>` named `isPresented`. All of its logic sits in one class:
`WebAuthenticationRepresentable.Coordinator`. This project models that
coordinator as a pure state machine.

- `types.dfy` (module `WebAuthTypes`) holds the values involved. `Config` is
  the view's configuration: `isPresented`, an optional URL, an optional
  callback scheme, the ephemeral-session preference, an optional
  `onDismiss` and a mandatory `onCompletion`. Session errors are the
  platform's own error codes (only `canceledLogin` is special) or any
  other error. `Effect` lists what the coordinator can do: start or cancel
  a session, reset the flag, call a closure, or raise a developer
  assertion. Closures are opaque `HandlerId`s and session objects are
  opaque `Handle`s.
- `coordinator.dfy` (module `Coordinator`) has one step function per entry
  point. Each takes the state (stored configuration, weak session
  reference, next session identity) and returns the new state plus the
  effects, in order:
  - `Update` is `updateView` followed by the `didSet` observer;
  - `StartAuthentication` and `CancelAuthentication` are the two private
    paths;
  - `SessionCallback` is the session's completion closure;
  - `Release` is the platform dropping the session, which empties the weak
    reference;
  - `PresentationAnchor` picks the presentation anchor.
- `traces.dfy` (module `Traces`) runs sequences of events through these
  steps and proves properties that span several steps.
- `binding.dfy` (module `PresentationBinding`) follows the binding's value
  as the effects are applied, so it can state when closures observe the
  flag cleared.
- `scenarios.dfy` (module `Scenarios`) has concrete traces, including one
  where a late callback from a cancelled session is applied to the next
  flow.

Writing `self.parent.isPresented = false` goes through the binding's
non-mutating setter. It changes the host's source of truth but does not
replace the coordinator's stored snapshot, so `didSet` does not run. The
model therefore represents this write as the `ResetFlag` effect. The
coordinator only sees the cleared flag when the view re-renders and pushes
a new configuration through `Update`.

The model follows the code where a controller of this kind might be
expected to do more. It differs from such expectations in four places:
- The documentation of `url` says only http:// and https:// URLs are
  supported. The code rejects only an absent URL, so the model accepts any
  URL.
- A callback is never matched against the current session. A late callback
  from a cancelled session still resets the flag and calls the current
  closures. `Scenarios.LateCallbackOfCancelledSessionIsApplied` shows this.
- When both the callback URL and the error are absent, the code raises only
  a developer assertion. No failure is passed to `onCompletion`.
- The coordinator never clears its session reference. Neither a cancel nor
  the callback empties it; only the platform releasing the session does.
  After a successful completion, the re-render that pushes the cleared flag
  therefore cancels the finished session, unless the platform has released
  it first. `Scenarios.NormalFlowCancelsCompletedSession` shows this.

## Model

| member | source | states |
|---|---|---|
| Coordinator.Init | Sources/SwiftUIWebAuthentication/WebAuthenticationRepresentable.swift:48-50 | Creating the coordinator stores the first configuration, records no session and has no effects. The observer does not run in the initializer, so nothing starts even if the flag is already set. |
| Coordinator.Update | Sources/SwiftUIWebAuthentication/WebAuthenticationRepresentable.swift:28-30 | Every update stores the new configuration in full. An update that leaves the flag unchanged has no other effect. Updates never call a closure. The recorded session is always one the coordinator created. |
| Coordinator.UpdateEdges | Sources/SwiftUIWebAuthentication/WebAuthenticationRepresentable.swift:36-44 | A session starts if and only if the flag goes from false to true and a URL is present. A cancel is issued if and only if the flag goes from true to false and a session is recorded. The flag is reset if and only if there is a rising edge without a URL. Each update issues at most one start and at most one cancel. Only a start changes the recorded session. |
| Coordinator.StartAuthentication | Sources/SwiftUIWebAuthentication/WebAuthenticationRepresentable.swift:56-84 | Without a URL, no session is created, the recorded session is unchanged, and the only effects are a flag reset and a missing-URL assertion. With a URL, exactly one session starts. It has a fresh identity and uses the stored URL, callback scheme and ephemeral preference, and it becomes the recorded session. No closure is called and nothing is cancelled. |
| Coordinator.CancelAuthentication | Sources/SwiftUIWebAuthentication/WebAuthenticationRepresentable.swift:86-88 | A cancel is forwarded to exactly the recorded session, if there is one. It is a no-op when there is none. It leaves the state unchanged and calls no closure. |
| Coordinator.SessionCallback | Sources/SwiftUIWebAuthentication/WebAuthenticationRepresentable.swift:65-77 | The callback changes no coordinator state. Its first effect is the flag reset, followed by at most one other effect. It never starts or cancels a session. |
| Coordinator.CallbackClassification | Sources/SwiftUIWebAuthentication/WebAuthenticationRepresentable.swift:66-76 | The flag reset happens only once, before anything else. At most one closure is called, always one from the currently stored configuration. A callback URL is passed to `onCompletion` as success if and only if one is present. `onDismiss` runs if and only if there is no URL, the error is `canceledLogin` and a dismiss closure exists. Any other error is passed to `onCompletion` as failure. If both are absent, only an assertion is raised. Exactly one closure runs except in those last two silent cases. `onCompletion` never receives `canceledLogin`. |
| Coordinator.Release | Sources/SwiftUIWebAuthentication/WebAuthenticationRepresentable.swift:46 | The weak reference becomes empty once the session it points at is released. Releasing any other session changes nothing. |
| Coordinator.PresentationAnchor | Sources/SwiftUIWebAuthentication/WebAuthenticationRepresentable.swift:52-54 | The anchor is the view's window if and only if the view has one. Otherwise it is a new window, so there is always an anchor. |
| Traces.RunStoresLatestConfig | Sources/SwiftUIWebAuthentication/WebAuthenticationRepresentable.swift:28-44 | After any sequence of events, the stored configuration is the one from the last update. |
| Traces.CallbackUsesLatestHandlers | Sources/SwiftUIWebAuthentication/WebAuthenticationRepresentable.swift:66-73 | A callback calls the `onCompletion` or `onDismiss` from the most recent update, not the ones in place when its session started. |
| Traces.UnchangedFlagUpdatesAreSilent | Sources/SwiftUIWebAuthentication/WebAuthenticationRepresentable.swift:38-42 | Any number of updates that keep the flag's value produce no effects. They leave the recorded session and the next session identity unchanged. |
| Traces.AtMostOneStartUntilCleared | Sources/SwiftUIWebAuthentication/WebAuthenticationRepresentable.swift:38-39 | While the view never pushes a cleared flag, at most one session starts. None starts if the stored flag was already set. |
| Traces.SessionsAreFresh | Sources/SwiftUIWebAuthentication/WebAuthenticationRepresentable.swift:63-83 | Along any trace, started sessions have strictly increasing identities that were never issued before. Every cancel targets a session the coordinator created. The recorded session is always one that was created. |
| PresentationBinding.CallbackClearsFlagBeforeHandlers | Sources/SwiftUIWebAuthentication/View+WebAuthentication.swift:9-11 | Any closure the callback calls sees the binding already false. Assuming no closure writes the binding itself, it stays false after the callback, whatever its earlier value. |
| PresentationBinding.MissingUrlClearsFlag | Sources/SwiftUIWebAuthentication/WebAuthenticationRepresentable.swift:57-61 | A rising edge without a URL leaves the binding false. It starts no session, leaves the recorded session unchanged and calls no closure. |
| PresentationBinding.UpdateTouchesFlagOnlyWithoutUrl | Sources/SwiftUIWebAuthentication/WebAuthenticationRepresentable.swift:56-88 | An update changes the binding only on a rising edge without a URL, and then sets it to false. Starting or cancelling a session never writes the binding. |
| PresentationBinding.RerenderAfterCallbackStartsNothing | Sources/SwiftUIWebAuthentication/WebAuthenticationRepresentable.swift:66 | Assuming no closure writes the binding, the re-render after a callback pushes the cleared flag, so it can never start a session. |
| Scenarios.CallbackIgnoresHandle | Sources/SwiftUIWebAuthentication/WebAuthenticationRepresentable.swift:65-76 | The callback's effect does not depend on which session delivered it. |
| Scenarios.LateCallbackTrace | Sources/SwiftUIWebAuthentication/WebAuthenticationRepresentable.swift:36-88 | Consider the sequence present, clear, present again, then a late `canceledLogin` callback from the first session (`LateCallbackEvents`). It ends with the second session recorded and the configuration stored. Its effects are, in order: start the first session, cancel it, start the second, reset the flag, call the dismiss closure. |
| Scenarios.LateCallbackStartsTwoSessions | Sources/SwiftUIWebAuthentication/WebAuthenticationRepresentable.swift:36-44 | Running that trace starts two sessions, the first with the next fresh identity and the second with the one after it, and cancels only the first. |
| Scenarios.LateCallbackOfCancelledSessionIsApplied | Sources/SwiftUIWebAuthentication/WebAuthenticationRepresentable.swift:65-71 | Running that trace, the late callback is not discarded: its last two effects are the flag reset and the current dismiss closure, and the second session stays recorded. |
| Scenarios.FallingEdgeCancelsRecordedSession | Sources/SwiftUIWebAuthentication/WebAuthenticationRepresentable.swift:40-41 | Clearing the flag while a session is recorded cancels exactly that session. |
| Scenarios.LateCallbackCancelsNextSession | Sources/SwiftUIWebAuthentication/WebAuthenticationRepresentable.swift:40-41 | After that trace, the re-render that pushes the cleared flag cancels the second session, which the late callback did not belong to. |
| Scenarios.RetryFromClosureIsIgnored | Sources/SwiftUIWebAuthentication/WebAuthenticationRepresentable.swift:36-44 | If a closure sets the binding again during the callback, the next update carries a set flag while the stored snapshot is still set. There is no rising edge, so no second session starts and the first stays recorded. |
| Scenarios.RetryAfterClearStarts | Sources/SwiftUIWebAuthentication/WebAuthenticationRepresentable.swift:38-39 | Once the stored snapshot holds the cleared flag, an update that sets the flag again with a URL is a rising edge: it starts a session with the next fresh identity and records it. A closure that retries after a clear, such as the late callback of a cancelled session, therefore starts a new session. |
| Scenarios.NormalFlowCancelsCompletedSession | Sources/SwiftUIWebAuthentication/WebAuthenticationRepresentable.swift:40-41 | Neither the callback nor a cancel clears the recorded session. After a rising edge with a URL and a successful callback from that session, the re-render with the cleared flag cancels that finished session, and it stays recorded. |
| Scenarios.PresentThenSucceed | Sources/SwiftUIWebAuthentication/WebAuthenticationRepresentable.swift:63-73 | A rising edge with a URL, followed by a callback URL, produces exactly three effects in order: start on the configured URL, scheme and ephemeral preference; reset the flag; pass the callback URL to `onCompletion` as success. |

## Left out

- SwiftUI plumbing is not modelled because it is framework glue: the `UIViewRepresentable`/`NSViewRepresentable` conformances, `makeCoordinator` and `makeView`.
- `WebAuthenticationModifier` and the `View.webAuthentication` extension are not modelled because they only forward their parameters. Their doc comment is used as the stated contract.
- The example application (`ContentView`, `OptionsView`) is not modelled because it is UI with no logic.
- The platform session is not modelled: browser UI, cookies, redirect matching against the callback scheme, and when or whether it calls back. The model treats a session as an opaque handle. Its callback and its release are events the environment may deliver at any time.
- Threading is not modelled. The `Task { @MainActor ... }` hop that resets the flag on a missing URL happens after the assertion in real time. The model emits both effects synchronously, in source order. The callback's background thread is also treated as a synchronous step.
- `assertionFailure` is modelled as an `AssertionFailure` effect. The model does not distinguish a debug build, where it stops the program, from a release build, where it does nothing.
- When the platform releases a session is not modelled. The weak reference is emptied only by an explicit `Release` event.
- The window of the coordinator's view is an input to `PresentationAnchor`. Whether the view has been placed in a window is outside the model.
- Closures are compared only by identity, so what `onCompletion` and `onDismiss` do is not modelled.
- Coordinator.StartAuthentication: every session it starts has this coordinator as its `presentationContextProvider` (WebAuthenticationRepresentable.swift:79). With one coordinator the provider carries no information, so `StartSession` does not record it. `PresentationAnchor` stands for the anchor query that any started session makes.
- PresentationBinding.CallbackClearsFlagBeforeHandlers: "stays false after the callback" assumes the closures do not write the binding. Closures are opaque, so the model cannot see such a write. `Scenarios.RetryFromClosureIsIgnored` covers a closure that sets it again in the normal flow, and `Scenarios.RetryAfterClearStarts` covers it after a clear.
- PresentationBinding.RerenderAfterCallbackStartsNothing: assumes the closures do not write the binding, for the same reason. When one does, the re-render starts nothing while the stored snapshot is still set (`Scenarios.RetryFromClosureIsIgnored`), but starts a new session once a cleared flag has been pushed (`Scenarios.RetryAfterClearStarts`).
- Coordinator.PresentationAnchor: the "never absent" promise follows from the result type, so the contract states only which anchor is picked.

