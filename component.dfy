/** The component itself: an object whose lifecycle hooks update its stored
    handle, call the shared facade and emit `embedded` notifications. Each
    method is proved to move the object as the matching function of module
    Lifecycle says, and to keep the invariant `Lifecycle.Consistent`. */
module Component {
  import opened Wrappers
  import opened EmbedConfig
  import opened Service
  import Lifecycle

  class PowerBiComponent {
    /** The bound inputs. */
    var attrs: Attributes
    /** The view child's element, once the host has resolved it. */
    var container: Option<Element>
    /** The embedded instance currently held. */
    var handle: Option<Handle>
    /** The calls made to the facade, oldest first. */
    ghost var calls: seq<Call>
    /** The handles emitted on `embedded`, oldest first. */
    ghost var emitted: seq<Handle>
    /** The injected facade, possibly shared with other components. */
    const service: PowerBiService

    ghost function State(): Lifecycle.Snapshot
      reads this
    {
      Lifecycle.Snapshot(attrs, container, handle, calls, emitted)
    }

    ghost predicate Valid()
      reads this
    {
      Lifecycle.Consistent(State())
    }

    constructor (service: PowerBiService)
      ensures Valid() && State() == Lifecycle.Initial && this.service == service
    {
      attrs := Unset;
      container := None;
      handle := None;
      calls := [];
      emitted := [];
      this.service := service;
    }

    /** The host resolves the view child `ngxPowerBiIFrame`. */
    method AttachView(element: Element)
      requires Valid()
      modifies this
      ensures Valid() && State() == Lifecycle.AttachView(old(State()), element)
    {
      container := Some(element);
    }

    method AfterViewInit()
      requires Valid()
      requires service.Valid()
      modifies this, service
      ensures service.Valid()
      ensures Valid()
      ensures State() == Lifecycle.AfterViewInit(old(State()), Handle(old(service.issued)))
      ensures service.issued == old(service.issued) + (|emitted| - |old(emitted)|)
      ensures service.log == old(service.log) + calls[|old(calls)|..]
    {
      if container.Some? && Ready(attrs) {
        ReadyGivesReadyConfig(attrs, Unset);
        Embed(container.value, GetConfig(attrs, Unset));
      }
    }

    /** The host assigns the inputs named in `changed` their `incoming`
        values, then calls `ngOnChanges` with those changes. */
    method OnChanges(incoming: Attributes, changed: set<Input>)
      requires Valid()
      requires service.Valid()
      modifies this, service
      ensures service.Valid()
      ensures Valid()
      ensures State() == Lifecycle.OnChanges(old(State()), incoming, changed, Handle(old(service.issued)))
      ensures service.issued == old(service.issued) + (|emitted| - |old(emitted)|)
      ensures service.log == old(service.log) + calls[|old(calls)|..]
    {
      attrs := Assign(attrs, incoming, changed);
      if container.None? {
        return;
      }
      if Ready(attrs) {
        var config := GetConfig(attrs, Assign(Unset, incoming, changed));
        ReadyGivesReadyConfig(attrs, Assign(Unset, incoming, changed));
        Embed(container.value, config);
      } else if handle.Some? {
        Reset(container.value);
      }
    }

    method OnDestroy()
      requires Valid()
      requires service.Valid()
      modifies this, service
      ensures service.Valid()
      ensures Valid() && State() == Lifecycle.OnDestroy(old(State()))
      ensures service.issued == old(service.issued)
      ensures service.log == old(service.log) + calls[|old(calls)|..]
    {
      if handle.Some? {
        Reset(container.value);
      }
    }

    /** The private `embed`; its two callers hand it the container and a
        configuration built on ready inputs. */
    method Embed(element: Element, config: EmbedConfiguration)
      requires Valid() && container == Some(element) && ConfigReady(config)
      requires service.Valid()
      modifies this, service
      ensures service.Valid()
      ensures Valid()
      ensures State() == Lifecycle.Embed(old(State()), element, config, Handle(old(service.issued)))
      ensures service.issued == old(service.issued) + 1
      ensures service.log == old(service.log) + calls[|old(calls)|..]
    {
      Lifecycle.EmbedKeepsConsistent(State(), element, config, Handle(service.issued));
      var h := service.Embed(element, config);
      handle := Some(h);
      calls := calls + [EmbedCall(element, config, h)];
      emitted := emitted + [h];
    }

    /** The public `reset(element)`. */
    method Reset(element: Element)
      requires Valid()
      requires service.Valid()
      modifies this, service
      ensures service.Valid()
      ensures Valid() && State() == Lifecycle.Reset(old(State()), element)
      ensures service.issued == old(service.issued)
      ensures service.log == old(service.log) + calls[|old(calls)|..]
    {
      Lifecycle.ResetKeepsConsistent(State(), element);
      service.Reset(element);
      handle := None;
      calls := calls + [ResetCall(element)];
    }
  }
}
