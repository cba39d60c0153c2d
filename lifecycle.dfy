/** The component's lifecycle as a pure state machine. A snapshot holds the
    bound inputs, the container element, the stored handle, the log of calls
    made to the facade and the log of `embedded` notifications. One function
    per lifecycle operation gives the snapshot after it; the class in module
    Component is proved to follow them. */
module Lifecycle {
  import opened Wrappers
  import opened EmbedConfig
  import opened Service

  datatype Snapshot = Snapshot(
    attrs: Attributes,
    container: Option<Element>,
    handle: Option<Handle>,
    calls: seq<Call>,
    emitted: seq<Handle>)

  /** A freshly constructed component: no input bound, no view yet. */
  const Initial := Snapshot(Unset, None, None, [], [])

  /** The handle a component holds after a log of calls: the result of the
      last call if it was an embed, none otherwise. */
  function HandleAfter(calls: seq<Call>): Option<Handle> {
    if calls == [] then None
    else match calls[|calls| - 1]
      case EmbedCall(_, _, h) => Some(h)
      case ResetCall(_) => None
  }

  /** The handles returned by the embed calls of a log, in order. */
  function Results(calls: seq<Call>): seq<Handle> {
    if calls == [] then []
    else
      Results(calls[..|calls| - 1]) +
      match calls[|calls| - 1]
      case EmbedCall(_, _, h) => [h]
      case ResetCall(_) => []
  }

  /** Every embed call of a log was given a URL and a token. */
  predicate EmbedsReady(calls: seq<Call>) {
    forall i | 0 <= i < |calls| :: calls[i].EmbedCall? ==> ConfigReady(calls[i].config)
  }

  /** A handle is only ever held once a container is known. */
  predicate HandleNeedsContainer(s: Snapshot) {
    s.handle.Some? ==> s.container.Some?
  }

  /** The invariant of the component: the stored handle is the one the last
      facade call left, one notification was emitted per embed call carrying
      its handle, and the facade never embedded without a URL and a token. */
  predicate Consistent(s: Snapshot) {
    && HandleNeedsContainer(s)
    && s.handle == HandleAfter(s.calls)
    && s.emitted == Results(s.calls)
    && EmbedsReady(s.calls)
  }

  /** The private `embed`: one facade embed, the returned handle `h` stored
      and emitted once; the inputs and the container untouched. */
  function Embed(s: Snapshot, element: Element, config: EmbedConfiguration, h: Handle): (r: Snapshot)
    ensures r.handle == Some(h)
    ensures r.calls == s.calls + [EmbedCall(element, config, h)]
    ensures r.emitted == s.emitted + [h]
    ensures r.attrs == s.attrs && r.container == s.container
  {
    s.(handle := Some(h), calls := s.calls + [EmbedCall(element, config, h)], emitted := s.emitted + [h])
  }

  /** The public `reset(element)`: one facade reset on `element`, then no
      handle; nothing emitted, the inputs and the container untouched. */
  function Reset(s: Snapshot, element: Element): (r: Snapshot)
    ensures r.handle == None
    ensures r.calls == s.calls + [ResetCall(element)]
    ensures r.emitted == s.emitted && r.attrs == s.attrs && r.container == s.container
  {
    s.(handle := None, calls := s.calls + [ResetCall(element)])
  }

  /** The host resolves the view child: the container becomes known. */
  function AttachView(s: Snapshot, element: Element): (r: Snapshot)
    ensures r.container == Some(element)
    ensures r.attrs == s.attrs && r.handle == s.handle && r.calls == s.calls && r.emitted == s.emitted
  {
    s.(container := Some(element))
  }

  /** `ngAfterViewInit`, the facade answering `h` should it be asked: exactly
      one embed, with the configuration of the stored inputs, when the
      container is present and the inputs are ready; otherwise nothing at all. */
  function AfterViewInit(s: Snapshot, h: Handle): (r: Snapshot)
    ensures s.container.Some? && Ready(s.attrs) ==>
              && r.calls == s.calls + [EmbedCall(s.container.value, GetConfig(s.attrs, Unset), h)]
              && r.handle == Some(h) && r.emitted == s.emitted + [h]
              && r.attrs == s.attrs && r.container == s.container
    ensures !(s.container.Some? && Ready(s.attrs)) ==> r == s
  {
    if s.container.Some? && Ready(s.attrs) then
      Embed(s, s.container.value, GetConfig(s.attrs, Unset), h)
    else s
  }

  /** `ngOnChanges` as the host drives it: the changed inputs are assigned
      first, then the hook runs. Without a container nothing but the
      assignment happens. With one: ready inputs give exactly one embed with
      the configuration of the stored inputs and never a reset, even when a
      handle is held; unready inputs with a handle give exactly one reset and
      no handle; unready inputs without a handle change nothing further. */
  function OnChanges(s: Snapshot, incoming: Attributes, changed: set<Input>, h: Handle): (r: Snapshot)
    ensures var a := Assign(s.attrs, incoming, changed);
            && r.attrs == a && r.container == s.container
            && (s.container.None? ==> r == s.(attrs := a))
            && (s.container.Some? && Ready(a) ==>
                  && r.calls == s.calls + [EmbedCall(s.container.value, GetConfig(a, Unset), h)]
                  && r.handle == Some(h) && r.emitted == s.emitted + [h])
            && (s.container.Some? && !Ready(a) && s.handle.Some? ==>
                  && r.calls == s.calls + [ResetCall(s.container.value)]
                  && r.handle == None && r.emitted == s.emitted)
            && (s.container.Some? && !Ready(a) && s.handle.None? ==> r == s.(attrs := a))
  {
    var a := Assign(s.attrs, incoming, changed);
    var t := s.(attrs := a);
    if t.container.None? then t
    else if Ready(a) then
      ChangedValuesGiveStoredConfig(s.attrs, incoming, changed);
      Embed(t, t.container.value, GetConfig(a, Assign(Unset, incoming, changed)), h)
    else if t.handle.Some? then Reset(t, t.container.value)
    else t
  }

  /** `ngOnDestroy`: exactly one facade reset on the container when a handle
      is held, after which none is; no facade call at all otherwise. */
  function OnDestroy(s: Snapshot): (r: Snapshot)
    requires HandleNeedsContainer(s)
    ensures s.handle.Some? ==>
              && r.calls == s.calls + [ResetCall(s.container.value)]
              && r.handle == None
              && r.emitted == s.emitted && r.attrs == s.attrs && r.container == s.container
    ensures s.handle.None? ==> r == s
  {
    if s.handle.Some? then Reset(s, s.container.value) else s
  }

  /** Appending one call to a log extends the handle, the results and the
      readiness of the log by that call alone. */
  lemma {:induction false} AppendCall(calls: seq<Call>, c: Call)
    ensures HandleAfter(calls + [c]) == if c.EmbedCall? then Some(c.result) else None
    ensures Results(calls + [c]) == Results(calls) + if c.EmbedCall? then [c.result] else []
    ensures EmbedsReady(calls + [c]) <==> EmbedsReady(calls) && (c.EmbedCall? ==> ConfigReady(c.config))
  {
    var longer := calls + [c];
    assert HandleAfter(longer) == if c.EmbedCall? then Some(c.result) else None by {
      assert longer[|longer| - 1] == c;
    }
    assert Results(longer) == Results(calls) + if c.EmbedCall? then [c.result] else [] by {
      assert longer[|longer| - 1] == c;
      assert longer[..|longer| - 1] == calls;
    }
    assert EmbedsReady(longer) <==> EmbedsReady(calls) && (c.EmbedCall? ==> ConfigReady(c.config)) by {
      assert longer[|longer| - 1] == c;
      assert forall i | 0 <= i < |calls| :: longer[i] == calls[i];
    }
  }

  /** The private `embed` keeps the invariant when given a ready configuration
      for the known container. */
  lemma EmbedKeepsConsistent(s: Snapshot, element: Element, config: EmbedConfiguration, h: Handle)
    requires Consistent(s) && s.container == Some(element) && ConfigReady(config)
    ensures Consistent(Embed(s, element, config, h))
  {
    AppendCall(s.calls, EmbedCall(element, config, h));
  }

  /** `reset` keeps the invariant, whatever the element. */
  lemma ResetKeepsConsistent(s: Snapshot, element: Element)
    requires Consistent(s)
    ensures Consistent(Reset(s, element))
  {
    AppendCall(s.calls, ResetCall(element));
  }

  /** One lifecycle operation, as the host may invoke it; `answer` is the
      handle the facade returns should the operation embed. */
  datatype Event =
    | AttachViewEvent(element: Element)
    | AfterViewInitEvent(answer: Handle)
    | OnChangesEvent(incoming: Attributes, changed: set<Input>, answer: Handle)
    | OnDestroyEvent
    | ResetEvent(element: Element)

  function Step(s: Snapshot, e: Event): (r: Snapshot)
    requires HandleNeedsContainer(s)
    ensures HandleNeedsContainer(r)
  {
    match e
    case AttachViewEvent(el) => AttachView(s, el)
    case AfterViewInitEvent(h) => AfterViewInit(s, h)
    case OnChangesEvent(incoming, changed, h) => OnChanges(s, incoming, changed, h)
    case OnDestroyEvent => OnDestroy(s)
    case ResetEvent(el) => Reset(s, el)
  }

  /** The snapshot after a sequence of lifecycle operations. */
  function Run(s: Snapshot, events: seq<Event>): Snapshot
    requires HandleNeedsContainer(s)
    decreases |events|
  {
    if events == [] then s else Run(Step(s, events[0]), events[1..])
  }

  /** Every lifecycle operation keeps the invariant. */
  lemma StepKeepsConsistent(s: Snapshot, e: Event)
    requires Consistent(s)
    ensures Consistent(Step(s, e))
  {
    match e
    case AttachViewEvent(el) =>
    case AfterViewInitEvent(h) =>
      if s.container.Some? && Ready(s.attrs) {
        ReadyGivesReadyConfig(s.attrs, Unset);
        EmbedKeepsConsistent(s, s.container.value, GetConfig(s.attrs, Unset), h);
      }
    case OnChangesEvent(incoming, changed, h) =>
      var a := Assign(s.attrs, incoming, changed);
      var t := s.(attrs := a);
      if s.container.Some? {
        if Ready(a) {
          ReadyGivesReadyConfig(a, Unset);
          EmbedKeepsConsistent(t, s.container.value, GetConfig(a, Unset), h);
        } else if s.handle.Some? {
          ResetKeepsConsistent(t, s.container.value);
        }
      }
    case OnDestroyEvent =>
      if s.handle.Some? {
        ResetKeepsConsistent(s, s.container.value);
      }
    case ResetEvent(el) =>
      ResetKeepsConsistent(s, el);
  }

  /** Whatever the host does, from construction on: the stored handle is the
      one the last facade call left, each embed was notified exactly once with
      its own handle, and the facade was never asked to embed without a URL
      and a token. */
  lemma {:induction false} RunKeepsConsistent(s: Snapshot, events: seq<Event>)
    requires Consistent(s)
    ensures Consistent(Run(s, events))
    decreases |events|
  {
    if events != [] {
      StepKeepsConsistent(s, events[0]);
      RunKeepsConsistent(Step(s, events[0]), events[1..]);
    }
  }

  /** From construction on, whatever the host does, the facade is never asked
      to embed without a URL and a token. */
  lemma NeverEmbedsWithoutCredentials(events: seq<Event>)
    ensures var r := Run(Initial, events);
            forall i | 0 <= i < |r.calls| :: r.calls[i].EmbedCall? ==> ConfigReady(r.calls[i].config)
  {
    RunKeepsConsistent(Initial, events);
  }

  /** From construction: a first change binds URL "https://x", token "tok"
      and type "Report" before the view is known, so nothing is embedded;
      once the view is resolved, initialisation embeds once with the Aad
      token kind and emits once. */
  lemma InitialisationScenario(element: Element, h0: Handle, h: Handle)
    ensures var bound := Unset.(embedUrl := Some("https://x"), accessToken := Some("tok"), reportType := Some("Report"));
            var r := Run(Initial, [OnChangesEvent(bound, {EmbedUrlInput, AccessTokenInput, TypeInput}, h0),
                                   AttachViewEvent(element), AfterViewInitEvent(h)]);
            && r.calls == [EmbedCall(element, EmbedConfiguration("Report", Some("https://x"), Some("tok"), SdkAad, None, None, None), h)]
            && r.emitted == [h] && r.handle == Some(h)
  {
    var bound := Unset.(embedUrl := Some("https://x"), accessToken := Some("tok"), reportType := Some("Report"));
    var changed := {EmbedUrlInput, AccessTokenInput, TypeInput};
    var events := [OnChangesEvent(bound, changed, h0), AttachViewEvent(element), AfterViewInitEvent(h)];
    var s1 := OnChanges(Initial, bound, changed, h0);
    assert s1 == Initial.(attrs := bound);
    assert events[1..] == [AttachViewEvent(element), AfterViewInitEvent(h)];
    assert events[1..][1..] == [AfterViewInitEvent(h)];
    var s2 := AttachView(s1, element);
    assert Run(Initial, events) == Run(s2, [AfterViewInitEvent(h)]);
    assert [AfterViewInitEvent(h)][1..] == [];
    assert Run(s2, [AfterViewInitEvent(h)]) == AfterViewInit(s2, h);
    assert Ready(s2.attrs);
  }

  /** Inputs that start ready, then a change clearing the URL: the first
      change embeds, the second resets the container once, leaves no handle
      and embeds nothing more. */
  lemma UrlClearedScenario(element: Element, bound: Attributes, changed: set<Input>, h1: Handle, h2: Handle)
    requires Ready(Assign(Unset, bound, changed))
    ensures var cleared := Unset.(embedUrl := Some(""));
            var r := Run(Initial, [AttachViewEvent(element), OnChangesEvent(bound, changed, h1),
                                   OnChangesEvent(cleared, {EmbedUrlInput}, h2)]);
            var c := GetConfig(Assign(Unset, bound, changed), Unset);
            r.calls == [EmbedCall(element, c, h1), ResetCall(element)] && r.handle == None && r.emitted == [h1]
  {
    var cleared := Unset.(embedUrl := Some(""));
    var events := [AttachViewEvent(element), OnChangesEvent(bound, changed, h1), OnChangesEvent(cleared, {EmbedUrlInput}, h2)];
    var s2 := OnChanges(AttachView(Initial, element), bound, changed, h1);
    assert events[1..] == [OnChangesEvent(bound, changed, h1), OnChangesEvent(cleared, {EmbedUrlInput}, h2)];
    assert events[1..][1..] == [OnChangesEvent(cleared, {EmbedUrlInput}, h2)];
    assert Run(Initial, events) == Run(s2, [OnChangesEvent(cleared, {EmbedUrlInput}, h2)]);
  }

  /** When the view is resolved before the first change and the inputs are
      ready from the start, the first change and the initialisation each
      embed: the facade sees two embeds with the same configuration. */
  lemma StartupEmbedsTwice(element: Element, bound: Attributes, changed: set<Input>, h1: Handle, h2: Handle)
    requires Ready(Assign(Unset, bound, changed))
    ensures var r := Run(Initial, [AttachViewEvent(element), OnChangesEvent(bound, changed, h1), AfterViewInitEvent(h2)]);
            var c := GetConfig(Assign(Unset, bound, changed), Unset);
            r.calls == [EmbedCall(element, c, h1), EmbedCall(element, c, h2)] && r.emitted == [h1, h2] && r.handle == Some(h2)
  {
    var events := [AttachViewEvent(element), OnChangesEvent(bound, changed, h1), AfterViewInitEvent(h2)];
    var s1 := AttachView(Initial, element);
    var s2 := OnChanges(s1, bound, changed, h1);
    assert events[1..] == [OnChangesEvent(bound, changed, h1), AfterViewInitEvent(h2)];
    assert events[1..][1..] == [AfterViewInitEvent(h2)];
    assert Run(Initial, events) == Run(s2, [AfterViewInitEvent(h2)]);
  }
}
