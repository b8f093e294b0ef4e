/**
  Sequences of events delivered to one coordinator: configuration updates
  from the view, session callbacks and weak-reference releases from the
  platform. Lemmas here relate several steps.
 */
module Traces {
  import opened WebAuthTypes
  import opened Coordinator

  datatype Event =
    | ViewUpdate(config: Config)
    | Callback(handle: Handle, callbackUrl: Option<Url>, error: Option<Error>)
    | Released(handle: Handle)

  function Apply(s: State, e: Event): (r: Transition) {
    match e
    case ViewUpdate(c) => Update(s, c)
    case Callback(h, u, err) => SessionCallback(s, h, u, err)
    case Released(h) => Release(s, h)
  }

  /** Deliver `evs` in order; the effects are concatenated in order. */
  function Run(s: State, evs: seq<Event>): (r: Transition)
    decreases |evs|
  {
    if evs == [] then Transition(s, [])
    else
      var first := Apply(s, evs[0]);
      var rest := Run(first.state, evs[1..]);
      Transition(rest.state, first.effects + rest.effects)
  }

  /** The configuration of the last update in `evs`, or `initial` if none. */
  function LatestConfig(initial: Config, evs: seq<Event>): (latest: Config) {
    if evs == [] then initial
    else if evs[|evs| - 1].ViewUpdate? then evs[|evs| - 1].config
    else LatestConfig(initial, evs[..|evs| - 1])
  }

  lemma {:induction false} RunSnoc(s: State, evs: seq<Event>, e: Event)
    ensures var r := Run(s, evs); var last := Apply(r.state, e);
      Run(s, evs + [e]) == Transition(last.state, r.effects + last.effects)
    decreases |evs|
  {
    if evs == [] {
      assert evs + [e] == [e];
    } else {
      assert (evs + [e])[0] == evs[0];
      assert (evs + [e])[1..] == evs[1..] + [e];
      RunSnoc(Apply(s, evs[0]).state, evs[1..], e);
    }
  }

  /** Updates replace the whole configuration: after any trace the coordinator
      holds the configuration of the last update, whatever came between. */
  lemma {:induction false} RunStoresLatestConfig(s: State, evs: seq<Event>)
    ensures Run(s, evs).state.parent == LatestConfig(s.parent, evs)
    decreases |evs|
  {
    if evs != [] {
      var init := evs[..|evs| - 1];
      var last := evs[|evs| - 1];
      assert evs == init + [last];
      RunSnoc(s, init, last);
      RunStoresLatestConfig(s, init);
    }
  }

  /** A callback fires the closures of the configuration most recently pushed
      by the view, not those present when its session was started. */
  lemma CallbackUsesLatestHandlers(s: State, evs: seq<Event>, h: Handle, u: Option<Url>, err: Option<Error>)
    ensures var latest := LatestConfig(s.parent, evs);
      var effs := Apply(Run(s, evs).state, Callback(h, u, err)).effects;
      && (forall e :: e in effs && e.CallCompletion? ==> e.handler == latest.onCompletion)
      && (forall e :: e in effs && e.CallDismiss? ==> latest.onDismiss == Some(e.handler))
  {
    RunStoresLatestConfig(s, evs);
  }

  /** Repeated updates that leave the flag as it was start nothing, cancel
      nothing and call no closure, whatever else they change. */
  lemma {:induction false} UnchangedFlagUpdatesAreSilent(s: State, evs: seq<Event>)
    requires forall i :: 0 <= i < |evs| ==> evs[i].ViewUpdate? && evs[i].config.isPresented == s.parent.isPresented
    ensures Run(s, evs).effects == []
    ensures Run(s, evs).state.session == s.session
    ensures Run(s, evs).state.nextHandle == s.nextHandle
    decreases |evs|
  {
    if evs != [] {
      var next := Apply(s, evs[0]).state;
      assert next.parent.isPresented == s.parent.isPresented;
      UnchangedFlagUpdatesAreSilent(next, evs[1..]);
    }
  }

  /** A session is started only on a rising edge of the stored flag, so as long
      as the view never pushes a cleared flag at most one session is started,
      and none at all if the flag was already set. */
  lemma {:induction false} AtMostOneStartUntilCleared(s: State, evs: seq<Event>)
    requires forall i :: 0 <= i < |evs| && evs[i].ViewUpdate? ==> evs[i].config.isPresented
    ensures |Starts(Run(s, evs).effects)| <= (if s.parent.isPresented then 0 else 1)
    ensures s.parent.isPresented ==> Run(s, evs).state.parent.isPresented
    decreases |evs|
  {
    if evs != [] {
      var first := Apply(s, evs[0]);
      assert first.state.parent.isPresented == (s.parent.isPresented || evs[0].ViewUpdate?);
      assert |Starts(first.effects)| == 0 || (!s.parent.isPresented && first.state.parent.isPresented);
      AtMostOneStartUntilCleared(first.state, evs[1..]);
      StartsAppend(first.effects, Run(first.state, evs[1..]).effects);
    }
  }

  predicate StrictlyIncreasing(hs: seq<Handle>) {
    forall i, j :: 0 <= i < j < |hs| ==> hs[i] < hs[j]
  }

  /** One event starts at most one session, with the next fresh handle, and
      cancels only a session already created. */
  lemma ApplyIssuesFreshHandles(s: State, e: Event)
    requires Valid(s)
    ensures var r := Apply(s, e);
      && Valid(r.state)
      && s.nextHandle <= r.state.nextHandle
      && StrictlyIncreasing(Starts(r.effects))
      && (forall h :: h in Starts(r.effects) ==> s.nextHandle <= h < r.state.nextHandle)
      && (forall h :: h in Cancels(r.effects) ==> h < r.state.nextHandle)
  {
  }

  /** Every session object is fresh: handles started along a trace are pairwise
      distinct (strictly increasing) and were never issued before; every
      cancel names a session this coordinator created. */
  lemma {:induction false} SessionsAreFresh(s: State, evs: seq<Event>)
    requires Valid(s)
    ensures var r := Run(s, evs); var hs := Starts(r.effects);
      && Valid(r.state)
      && s.nextHandle <= r.state.nextHandle
      && StrictlyIncreasing(hs)
      && (forall h :: h in hs ==> s.nextHandle <= h < r.state.nextHandle)
      && (forall h :: h in Cancels(r.effects) ==> h < r.state.nextHandle)
    decreases |evs|
  {
    if evs != [] {
      var first := Apply(s, evs[0]);
      var rest := Run(first.state, evs[1..]);
      ApplyIssuesFreshHandles(s, evs[0]);
      SessionsAreFresh(first.state, evs[1..]);
      StartsAppend(first.effects, rest.effects);
      CancelsAppend(first.effects, rest.effects);
      var a, b := Starts(first.effects), Starts(rest.effects);
      assert forall i :: 0 <= i < |a| ==> a[i] in a;
      assert forall j :: 0 <= j < |b| ==> b[j] in b;
      assert forall i, j :: 0 <= i < |a| && 0 <= j < |b| ==> a[i] < b[j];
      assert Run(s, evs) == Transition(rest.state, first.effects + rest.effects);
    }
  }
}
