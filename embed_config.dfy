/** The pure part of the Power BI embedding component: its two enumerations,
    the record of bound input attributes, the readiness test, the mapping of
    token kinds onto the SDK's, and the builder of the embed configuration. */
module EmbedConfig {
  import opened Wrappers

  /** The component's own token-kind enumeration (a string enum). */
  datatype TokenType = Aad | Embed {
    /** The string an input holds for this member. */
    function Value(): string {
      match this
      case Aad => "Aad"
      case Embed => "Embed"
    }
  }

  /** The component's content-kind enumeration (a string enum). */
  datatype ReportType = Dashboard | Report | Tile {
    function Value(): string {
      match this
      case Dashboard => "Dashboard"
      case Report => "Report"
      case Tile => "Tile"
    }
  }

  /** The SDK's own token-kind enumeration. */
  datatype SdkTokenType = SdkAad | SdkEmbed

  /** The open settings object passed through unchanged; its contents are not interpreted. */
  datatype Settings = Settings(entries: map<string, string>)

  /** The bound inputs of the component. `None` stands for undefined or null.
      The two enumerations are string enums, so at run time an input may hold
      any string; they are kept as strings. `reportType` is the `type` input. */
  datatype Attributes = Attributes(
    accessToken: Option<string>,
    tokenType: Option<string>,
    embedUrl: Option<string>,
    id: Option<string>,
    reportType: Option<string>,
    name: Option<string>,
    options: Option<Settings>)

  /** No input bound: every argument of `getConfig` left out. */
  const Unset := Attributes(None, None, None, None, None, None, None)

  /** The names of the inputs, as they appear as keys of a change record. */
  datatype Input =
    | AccessTokenInput | TokenTypeInput | EmbedUrlInput | IdInput
    | TypeInput | NameInput | OptionsInput

  /** The configuration object passed to the SDK's embed. */
  datatype EmbedConfiguration = EmbedConfiguration(
    reportType: string,
    embedUrl: Option<string>,
    accessToken: Option<string>,
    tokenType: SdkTokenType,
    id: Option<string>,
    uniqueId: Option<string>,
    settings: Option<Settings>)

  /** JavaScript truthiness of an optional string: defined and not empty. */
  predicate Truthy(v: Option<string>) {
    v.Some? && v.value != ""
  }

  /** `given ? given : stored` on optional strings. */
  function Or(given: Option<string>, stored: Option<string>): Option<string> {
    if Truthy(given) then given else stored
  }

  /** `validateRequiredAttributes`: embedUrl and accessToken are both strings of
      positive length, which is the same as both being truthy. */
  function Ready(a: Attributes): (r: bool)
    ensures r <==> Truthy(a.embedUrl) && Truthy(a.accessToken)
  {
    a.embedUrl.Some? && |a.embedUrl.value| > 0 &&
    a.accessToken.Some? && |a.accessToken.value| > 0
  }

  /** `getTokenType`: total; only the string of `TokenType.Embed` selects the
      SDK's Embed kind, and Aad, unset and unrecognised values all give Aad. */
  function GetTokenType(t: Option<string>): (r: SdkTokenType)
    ensures r == SdkEmbed <==> t == Some(TokenType.Embed.Value())
  {
    if Truthy(t) then
      if t.value == TokenType.Aad.Value() then SdkAad
      else if t.value == TokenType.Embed.Value() then SdkEmbed
      else SdkAad
    else SdkAad
  }

  /** `getConfig(given...)` on a component whose inputs are `stored`: each field
      takes the argument when it is truthy and the stored input otherwise; the
      name becomes the unique id; the content kind falls back further to
      Report, so it is never empty. */
  function GetConfig(stored: Attributes, given: Attributes): (r: EmbedConfiguration)
    ensures Truthy(given.embedUrl) ==> r.embedUrl == given.embedUrl
    ensures !Truthy(given.embedUrl) ==> r.embedUrl == stored.embedUrl
    ensures Truthy(given.accessToken) ==> r.accessToken == given.accessToken
    ensures !Truthy(given.accessToken) ==> r.accessToken == stored.accessToken
    ensures Truthy(given.id) ==> r.id == given.id
    ensures !Truthy(given.id) ==> r.id == stored.id
    ensures Truthy(given.name) ==> r.uniqueId == given.name
    ensures !Truthy(given.name) ==> r.uniqueId == stored.name
    ensures r.settings == if given.options.Some? then given.options else stored.options
    ensures r.tokenType == SdkEmbed <==>
              Or(given.tokenType, stored.tokenType) == Some(TokenType.Embed.Value())
    ensures Truthy(given.reportType) ==> Some(r.reportType) == given.reportType
    ensures !Truthy(given.reportType) && Truthy(stored.reportType) ==>
              Some(r.reportType) == stored.reportType
    ensures !Truthy(given.reportType) && !Truthy(stored.reportType) ==>
              r.reportType == ReportType.Report.Value()
    ensures r.reportType != ""
  {
    EmbedConfiguration(
      reportType :=
        if Truthy(given.reportType) then given.reportType.value
        else if Truthy(stored.reportType) then stored.reportType.value
        else ReportType.Report.Value(),
      embedUrl := Or(given.embedUrl, stored.embedUrl),
      accessToken := Or(given.accessToken, stored.accessToken),
      tokenType :=
        if Truthy(given.tokenType) then GetTokenType(given.tokenType)
        else GetTokenType(stored.tokenType),
      id := Or(given.id, stored.id),
      uniqueId := Or(given.name, stored.name),
      settings := if given.options.Some? then given.options else stored.options)
  }

  /** A configuration the SDK can embed with: URL and token both non-empty. */
  predicate ConfigReady(c: EmbedConfiguration) {
    Truthy(c.embedUrl) && Truthy(c.accessToken)
  }

  /** Whatever the arguments, a configuration built on ready inputs is ready. */
  lemma ReadyGivesReadyConfig(stored: Attributes, given: Attributes)
    requires Ready(stored)
    ensures ConfigReady(GetConfig(stored, given))
  {
  }

  /** The inputs after the host framework has assigned the changed ones their
      new values; also, with `Unset` as `stored`, the `currentValue`s of a
      change record (undefined for an input not in it). */
  function Assign(stored: Attributes, incoming: Attributes, changed: set<Input>): Attributes {
    Attributes(
      if AccessTokenInput in changed then incoming.accessToken else stored.accessToken,
      if TokenTypeInput in changed then incoming.tokenType else stored.tokenType,
      if EmbedUrlInput in changed then incoming.embedUrl else stored.embedUrl,
      if IdInput in changed then incoming.id else stored.id,
      if TypeInput in changed then incoming.reportType else stored.reportType,
      if NameInput in changed then incoming.name else stored.name,
      if OptionsInput in changed then incoming.options else stored.options)
  }

  /** The change values handed to `getConfig` in the change hook are already
      stored, so the configuration they give is the one built from the stored
      inputs alone. */
  lemma ChangedValuesGiveStoredConfig(stored: Attributes, incoming: Attributes, changed: set<Input>)
    ensures var a := Assign(stored, incoming, changed);
            GetConfig(a, Assign(Unset, incoming, changed)) == GetConfig(a, Unset)
  {
  }
}
