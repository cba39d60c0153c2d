/** The embedding facade as the component uses it: `embed` hands back a handle
    to the embedded instance, `reset` detaches whatever is bound to an element.
    What the SDK does behind these calls is not modelled. */
module Service {
  import EmbedConfig

  /** A DOM element, by identity. */
  datatype Element = Element(node: nat)

  /** An opaque embedded-instance handle, numbered in the order the facade issues them. */
  datatype Handle = Handle(serial: nat)

  /** A call made to the facade; an embed call records the handle it returned. */
  datatype Call =
    | EmbedCall(element: Element, config: EmbedConfig.EmbedConfiguration, result: Handle)
    | ResetCall(element: Element)

  class PowerBiService {
    /** How many handles have been issued so far. */
    var issued: nat
    /** Every call received so far, oldest first, from whichever component. */
    ghost var log: seq<Call>

    /** Every handle in the log was issued before the current count. */
    ghost predicate Valid()
      reads this
    {
      forall i | 0 <= i < |log| :: log[i].EmbedCall? ==> log[i].result.serial < issued
    }

    constructor ()
      ensures Valid() && issued == 0 && log == []
    {
      issued := 0;
      log := [];
    }

    /** `embed(element, config)`: records the call and returns a handle
        different from every handle already in the log. */
    method Embed(element: Element, config: EmbedConfig.EmbedConfiguration) returns (h: Handle)
      requires Valid()
      modifies this
      ensures Valid()
      ensures h == Handle(old(issued)) && issued == old(issued) + 1
      ensures log == old(log) + [EmbedCall(element, config, h)]
      ensures forall i | 0 <= i < |old(log)| :: old(log)[i].EmbedCall? ==> old(log)[i].result != h
    {
      h := Handle(issued);
      issued := issued + 1;
      log := log + [EmbedCall(element, config, h)];
    }

    /** `reset(element)`: records the call; its effect lies inside the SDK. */
    method Reset(element: Element)
      requires Valid()
      modifies this
      ensures Valid()
      ensures issued == old(issued)
      ensures log == old(log) + [ResetCall(element)]
    {
      log := log + [ResetCall(element)];
    }
  }
}
