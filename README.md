# ngx-powerbi component, modelled in Dafny

`NgxPowerBiComponent` (projects/ngx-powerbi/src/lib/ngx-powerbi.component.ts) is an
Angular component that embeds Power BI content. It takes a handful of bound inputs
(access token, token kind, embed URL, id, content type, name, settings), checks that
the URL and the token are present, builds an embed configuration from them and hands
it, with its container element, to the injected `NgxPowerBiService` facade. It keeps
the handle the facade returns, announces it on its `embedded` output, and resets the
container when the inputs stop being usable or the component is destroyed.

The model has five modules:

- `Wrappers` (wrappers.dfy): the `Option` type standing for undefined/null.
- `EmbedConfig` (embed_config.dfy): the pure helpers. The `TokenType` and
  `ReportType` string enums, the SDK's token kind, the record of bound inputs
  (`Attributes`; `None` is undefined or null, and the enum-typed inputs hold raw
  strings so unrecognised values can be expressed), JavaScript truthiness of a
  string, `Ready` (`validateRequiredAttributes`), `GetTokenType` and `GetConfig`.
  `Assign` is what Angular does before calling `ngOnChanges`: it stores the new
  values of the changed inputs. Applied to `Unset`, it also gives the
  `currentValue`s of the change record.
- `Service` (service.dfy): the facade as the component sees it. It keeps a ghost
  log of every call it receives, and a count of issued handles. Its invariant
  `Valid` says every handle in the log is numbered below that count. `Embed` logs
  the call and hands back a handle that differs from every handle already in the log. `Reset` logs the call and has no
  other effect in the model.
- `Lifecycle` (lifecycle.dfy): the component's lifecycle as a pure state machine over a
  `Snapshot`. A snapshot holds the inputs, the container, the stored handle, the log of
  facade calls and the log of emitted handles. There is one function per operation. The
  invariant `Consistent` says four things. A handle is held only once a container is
  known (`HandleNeedsContainer`, which `OnDestroy` and `Step` rely on). The stored
  handle is what the last facade call left. The notifications are exactly the embed
  calls' handles, in order. No embed call went out without a URL and a token. `RunKeepsConsistent` proves the invariant for
  any sequence of host-driven operations.
- `Component` (component.dfy): the class `PowerBiComponent`. Its fields are the inputs,
  the container, the optional handle and two ghost logs. Each method is proved to move
  `State()` exactly as the matching `Lifecycle` function says, and to keep `Valid()`.
  Each method also ensures that the facade's own log grows by exactly the calls the
  component recorded, so the calls counted in `State()` are calls the facade received.

The change hook reads readiness from the stored inputs (already updated by Angular).
It builds the configuration from the change record's `currentValue`s, and a falsy one
falls back to the stored input. `ChangedValuesGiveStoredConfig` proves that both ways
give the same configuration. So `Lifecycle.OnChanges` states its embed with
`GetConfig(stored, Unset)`.

When ready, the change hook always re-embeds, even if a handle is already held. The
stricter guard is commented out in the source. `StartupEmbedsTwice` shows a
consequence. Suppose the view is known at the first change and the inputs are ready
from the start. Then the first change embeds, and initialisation embeds again with
the same configuration.

## Model

| member | source | states |
|---|---|---|
| `EmbedConfig.Ready` | projects/ngx-powerbi/src/lib/ngx-powerbi.component.ts:111-117 | Ready exactly when embedUrl and accessToken are both strings of positive length, which is the same as both being truthy |
| `EmbedConfig.GetTokenType` | projects/ngx-powerbi/src/lib/ngx-powerbi.component.ts:124-138 | total; gives the SDK's Embed kind if and only if the input is the string of `TokenType.Embed`, and Aad for Aad, unset or unrecognised values |
| `EmbedConfig.GetConfig` | projects/ngx-powerbi/src/lib/ngx-powerbi.component.ts:151-173 | URL, token, id and the unique id (from name) are the argument when truthy, else the stored input. Settings are the argument when present. The token kind is mapped from the chosen token-kind value. The type is the argument, else the stored type, else Report, so it is never empty |
| `EmbedConfig.ReadyGivesReadyConfig` | projects/ngx-powerbi/src/lib/ngx-powerbi.component.ts:162-172 | a configuration built on ready stored inputs carries a non-empty URL and token, whatever the arguments |
| `EmbedConfig.ChangedValuesGiveStoredConfig` | projects/ngx-powerbi/src/lib/ngx-powerbi.component.ts:86-95 | once the changed inputs are stored, building the configuration from the change values gives the same result as building it from the stored inputs |
| `Service.PowerBiService.Embed` | projects/ngx-powerbi/src/lib/ngx-powerbi.service.ts:57-59 | the facade's embed logs the call and returns a handle that differs from every handle already in its log, keeping its invariant |
| `Service.PowerBiService.Reset` | projects/ngx-powerbi/src/lib/ngx-powerbi.service.ts:115-117 | the facade's reset logs one reset call on the element, issues no handle and keeps its invariant |
| `Lifecycle.Embed` | projects/ngx-powerbi/src/lib/ngx-powerbi.component.ts:180-187 | one facade embed call. The handle it returned is stored and emitted exactly once. Inputs and container are unchanged |
| `Lifecycle.Reset` | projects/ngx-powerbi/src/lib/ngx-powerbi.component.ts:193-196 | one facade reset, on the given element. Afterwards no handle is held and nothing is emitted |
| `Lifecycle.AttachView` | projects/ngx-powerbi/src/lib/ngx-powerbi.component.ts:44 | resolving the view child sets the container and nothing else |
| `Lifecycle.AfterViewInit` | projects/ngx-powerbi/src/lib/ngx-powerbi.component.ts:54-62 | with a container and ready inputs: exactly one embed, configured from the stored inputs, and its handle stored and emitted. Otherwise the state and both logs are unchanged |
| `Lifecycle.OnChanges` | projects/ngx-powerbi/src/lib/ngx-powerbi.component.ts:64-100 | changed inputs are stored first. Without a container nothing else happens. Ready inputs give exactly one embed and never a reset, even if a handle is held. Unready inputs with a handle give exactly one reset and no handle. Unready inputs without a handle change nothing more |
| `Lifecycle.OnDestroy` | projects/ngx-powerbi/src/lib/ngx-powerbi.component.ts:102-106 | exactly one facade reset on the container if a handle is held, then none is held. No facade call otherwise |
| `Lifecycle.EmbedKeepsConsistent` | projects/ngx-powerbi/src/lib/ngx-powerbi.component.ts:180-187 | the private embed, given a ready configuration for the known container, keeps the invariant |
| `Lifecycle.ResetKeepsConsistent` | projects/ngx-powerbi/src/lib/ngx-powerbi.component.ts:193-196 | reset keeps the invariant whatever element it is given |
| `Lifecycle.StepKeepsConsistent` | projects/ngx-powerbi/src/lib/ngx-powerbi.component.ts:54-106 | every lifecycle operation keeps the invariant |
| `Lifecycle.RunKeepsConsistent` | projects/ngx-powerbi/src/lib/ngx-powerbi.component.ts:54-196 | for any sequence of operations: the stored handle is what the last facade call left, each embed is notified exactly once with its own handle, and no embed lacks a URL or a token |
| `Lifecycle.NeverEmbedsWithoutCredentials` | projects/ngx-powerbi/src/lib/ngx-powerbi.component.ts:56-99 | from construction on, the facade is never asked to embed without a non-empty URL and token |
| `Lifecycle.InitialisationScenario` | projects/ngx-powerbi/src/lib/ngx-powerbi.component.ts:54-62 | URL "https://x", token "tok" and type "Report" with a resolved view: one embed with the Aad token kind and one notification |
| `Lifecycle.UrlClearedScenario` | projects/ngx-powerbi/src/lib/ngx-powerbi.component.ts:86-99 | from construction: view resolved, a ready first change embeds, then a change clearing the URL resets the container once, leaves no handle and embeds nothing more |
| `Lifecycle.StartupEmbedsTwice` | projects/ngx-powerbi/src/lib/ngx-powerbi.component.ts:54-100 | view resolved, then a ready first change, then initialisation: two embeds with the same configuration |
| `Component.PowerBiComponent.constructor` | projects/ngx-powerbi/src/lib/ngx-powerbi.component.ts:50-52 | a fresh component with the injected facade: no inputs, no view, no handle, empty logs, invariant established |
| `Component.PowerBiComponent.AttachView` | projects/ngx-powerbi/src/lib/ngx-powerbi.component.ts:44 | follows `Lifecycle.AttachView` and keeps the invariant |
| `Component.PowerBiComponent.AfterViewInit` | projects/ngx-powerbi/src/lib/ngx-powerbi.component.ts:54-62 | follows `Lifecycle.AfterViewInit`, with the handle the facade issues. Keeps the invariant. The facade issues one handle per notification, and its log gains exactly the calls recorded |
| `Component.PowerBiComponent.OnChanges` | projects/ngx-powerbi/src/lib/ngx-powerbi.component.ts:64-100 | follows `Lifecycle.OnChanges`, with the handle the facade issues. Keeps the invariant. The facade's log gains exactly the calls recorded |
| `Component.PowerBiComponent.OnDestroy` | projects/ngx-powerbi/src/lib/ngx-powerbi.component.ts:102-106 | follows `Lifecycle.OnDestroy` and keeps the invariant. The facade's log gains exactly the calls recorded |
| `Component.PowerBiComponent.Embed` | projects/ngx-powerbi/src/lib/ngx-powerbi.component.ts:180-187 | follows `Lifecycle.Embed`: stores and emits exactly the handle the facade returned. Keeps the invariant. The facade's log gains exactly the calls recorded |
| `Component.PowerBiComponent.Reset` | projects/ngx-powerbi/src/lib/ngx-powerbi.component.ts:193-196 | follows `Lifecycle.Reset` and keeps the invariant. The facade's log gains exactly the calls recorded |

## Left out

- The rest of the facade: `createReport`, `load`, `enableAutoEmbed`, `get`, `findById`, `handleTileEvents` and `preload` (ngx-powerbi.service.ts:44-140) each forward one call to the SDK. The component never calls them.
- The facade constructor's choice between a supplied SDK service and a new one (ngx-powerbi.service.ts:26-36). The model's facade has no SDK object behind it.
- `Service.PowerBiService.Reset`: only logs the call. Detaching and destroying the embedded instance happens inside the SDK.
- `Service.PowerBiService.Embed`: always issues a new handle. The SDK can reuse the instance already bound to the element, and that is not modelled.
- Errors raised by the SDK: they would propagate out of the lifecycle hook. In the model every facade call returns.
- Angular plumbing: decorators, dependency injection and the `EventEmitter`. The emitter is the ghost log `emitted`. The `ViewChild` `ElementRef` and its `nativeElement` are one optional container, because a template reference always has its element.
- `Lifecycle.AfterViewInit`: with no resolved view at all, the source would fail reading `nativeElement` of an undefined reference. The model treats that case as "no container" and does nothing.
- The order in which Angular invokes the hooks: each one is an operation the host may call at any time.
- Inputs holding non-string values (numbers, objects) where a string is declared.
- The contents of the settings object: it is passed through.
- The commented-out code (component.ts:79-84 and 181-183): it never runs.
- `Component.PowerBiComponent.Embed`: requires the known container and a configuration with a URL and a token. The source's private `embed` does not check this. Its only two callers (component.ts:56-60, 86-96) guarantee it, and the invariant depends on it.
