# FubuMVC view rendering, action sources and packaging path: a Dafny model

This project models the decision and state logic of several FubuMVC components. The
Spark and Razor template engines and the ASP.NET host are treated as oracles.

- **Spark view rendering** (`spark_cache.dfy`, `spark_rendering.dfy`).
  - `ViewEngine` caches compiled view entries in a dictionary shared by all views.
    The dictionary is keyed by the descriptor's hash code. On a miss, or when the cached
    entry is no longer current, it compiles a new entry and overwrites the slot.
  - `ViewFactory` creates a view instance from an entry. It then runs the registered view
    modifications whose `Applies` holds at their turn.
  - `NestedOutput` holds the delegate that yields the enclosing view's output writer.
  - There are three view renderers:
    - default (full view into a new buffer, then flushed once);
    - partial (the same, with the partial view);
    - nested (the partial view into the existing nested writer, with no flush).
  - There are three render strategies (nested, ajax, default).
- **Razor rendering** (`razor_rendering.dfy`): the default and ajax render strategies,
  and `RenderRazorBehavior`'s `Invoke`/`InvokePartial` over a chain of inner behaviors.
  These are written as call traces.
- **Action sources** (`action_sources.dfy`): the append-only registry of action
  sources. When nothing was added, it falls back to a single `EndpointActionSource`.
- **Packaging facility** (`package_facility.dfy`): the application-path fallback
  chain, the rule that strips a trailing `bin` from the base directory, and the order in
  which the constructor registers loaders and activators.

How the engines are represented:
- A compiled entry is an id plus the descriptor it was compiled from.
- The Spark engine's `CreateEntry` returns the next fresh id and logs the call.
- `IsCurrent` means the entry's id is not in a set of "templates changed" ids, which
  the environment grows.
- `RenderView` appends one abstract `Markup` item to the writer it is given.
- `IOutputWriter.WriteHtml` appends the writer's text to an output trace.
- `GetHashCode` of a descriptor is an arbitrary function value fixed for the cache. So
  descriptors with equal hashes share a slot, as in the code.

Methods that change objects are proved against pure specification functions:
- `SparkCache.Resolve` for the cache lookup;
- `SparkRendering.Applied` for the modification pass.

The properties of the system are lemmas about those functions.

## Model

| member | source | states |
|---|---|---|
| `SparkCache.ResolveHit` | src/FubuMVC.Spark/Rendering/Classes.cs:72-84 | A cached entry that is current is returned as it is. The cache and the compilation log stay unchanged, so `CreateEntry` is not called. |
| `SparkCache.Resolve` | src/FubuMVC.Spark/Rendering/Classes.cs:70-85 | A lookup always leaves the returned entry in the looked-up slot. Either the entry is current or it is the one just compiled. At most one compilation happens, always of the requested descriptor, and it happens exactly when the slot held no current entry. Only that slot can be added or changed. |
| `SparkCache.ResolveMiss` | src/FubuMVC.Spark/Rendering/Classes.cs:73-84 | On a miss or a stale entry, `CreateEntry` is called exactly once, for the requested descriptor. The new entry's id is held by no slot. It is stored at the hash key and returned, and every other slot keeps its entry. |
| `SparkCache.ResolveConsistent` | src/FubuMVC.Spark/Rendering/Classes.cs:73-83 | A lookup keeps the cache consistent: every slot holds a compiled entry under its descriptor's hash. The returned entry has the requested hash, and the compilation log only grows. |
| `SparkCache.ResolveKeepsHits` | src/FubuMVC.Spark/Rendering/Classes.cs:76-82 | A lookup never evicts or replaces a slot whose entry is current. |
| `SparkCache.ResolveTwice` | src/FubuMVC.Spark/Rendering/Classes.cs:70-85 | If no template changes, a second lookup of the same descriptor returns the same entry and compiles nothing. |
| `SparkCache.RecompileOnceAfterChange` | src/FubuMVC.Spark/Rendering/Classes.cs:76-82 | After the cached entry's templates change, the next lookup compiles exactly once and returns a different entry. The lookup after that returns the same new entry without compiling. |
| `SparkCache.EqualHashesShareSlot` | src/FubuMVC.Spark/Rendering/Classes.cs:73-76 | Two different descriptors with the same hash share one slot. After the first is compiled, a lookup of the second returns the first one's entry and never compiles the second. |
| `SparkCache.CompileAtMostOncePerSlot` | src/FubuMVC.Spark/Rendering/Classes.cs:70-85 | In a run of lookups with no template change, the descriptors compiled have pairwise different hashes, and none of those hashes was a current hit before the run. So there are at most as many compilations as lookups. Each returned entry has the requested hash. |
| `SparkRendering.ViewEngine.GetEntry` | src/FubuMVC.Spark/Rendering/Classes.cs:70-85 | The new cache state and the returned entry are those of `Resolve` for the descriptor's hash. The stale set is untouched, and the cache stays consistent. |
| `SparkRendering.ViewEngine.GetViewEntry` | src/FubuMVC.Spark/Rendering/Classes.cs:59-63 | This is `getEntry` of the full-view descriptor, so only that descriptor's hash slot can change. |
| `SparkRendering.ViewEngine.GetPartialViewEntry` | src/FubuMVC.Spark/Rendering/Classes.cs:64-68 | This is `getEntry` of the partial-view descriptor, so only that descriptor's hash slot can change. |
| `SparkRendering.AppliedInRegistrationOrder` | src/FubuMVC.Spark/Rendering/Classes.cs:119-124 | Applying modifications only appends to the view's record. What it appends is registered modifications, each at most once, in registration order. |
| `SparkRendering.ApplicationOrderMatters` | src/FubuMVC.Spark/Rendering/Classes.cs:121-123 | Each `Applies` is asked after the earlier modifications have run. Take a modification that applies only to an already-modified view: it runs when registered after the other one, and is skipped when registered before it. |
| `SparkRendering.ViewFactory.ApplyModifications` | src/FubuMVC.Spark/Rendering/Classes.cs:119-124 | The loop leaves the view with exactly `Applied(modifications, …)`: `Modify` is called, in order, on those modifications whose `Applies` held at their turn. |
| `SparkRendering.ViewFactory.GetView` | src/FubuMVC.Spark/Rendering/Classes.cs:105-110 | The result is a fresh instance of the entry that the full-view lookup resolves to, with its applicable modifications applied and no output set. |
| `SparkRendering.ViewFactory.GetPartialView` | src/FubuMVC.Spark/Rendering/Classes.cs:112-117 | The same as `GetView`, for the partial-view descriptor. |
| `SparkRendering.NestedOutput.constructor` | src/FubuMVC.Spark/Rendering/Classes.cs:12-14 | A new `NestedOutput` is not active. |
| `SparkRendering.NestedOutput.SetWriter` | src/FubuMVC.Spark/Rendering/Classes.cs:16-19 | Afterwards the holder is active and reads the given view's output, replacing any earlier delegate. No operation clears it. |
| `SparkRendering.WriterBeforeSetWriter` | src/FubuMVC.Spark/Rendering/Classes.cs:14-25 | Reading `Writer` from a holder on which `SetWriter` was never called is the failure case, because the null delegate is invoked. |
| `SparkRendering.WriterFollowsLaterOutput` | src/FubuMVC.Spark/Rendering/Classes.cs:14-20 | `SetWriter` stores `() => view.Output`, not a writer. When the view's `Output` is replaced after `SetWriter`, `Writer` yields the replacement. |
| `SparkRendering.PartialViewRenderer.Render` | src/FubuMVC.Spark/Rendering/Classes.cs:144-152 | The partial view is looked up and instantiated, and renders into a new buffer. `NestedOutput` afterwards yields that view's output. `WriteHtml` is called exactly once, with exactly that buffer's contents. |
| `SparkRendering.NestedViewRenderer.Render` | src/FubuMVC.Spark/Rendering/Classes.cs:165-169 | The partial view is looked up in every case, and its markup is appended to the nested output's current writer. Nothing is written to `IOutputWriter`. Without a writer the render fails after the lookup. |
| `SparkRendering.DefaultViewRenderer.Render` | src/FubuMVC.Spark/Rendering/Classes.cs:184-192 | The same as the partial renderer, with the full view: one new buffer, `NestedOutput` set to the view, one `WriteHtml` of that buffer. |
| `SparkRendering.NestedRenderStrategy.Invoke` | src/FubuMVC.Spark/Rendering/Classes.cs:211-219 | It renders once through the nested renderer. When both share the request's `NestedOutput`, the render succeeds exactly when `Applies` held and the enclosing view's `Output` was set. |
| `SparkRendering.AjaxRenderStrategy.Invoke` | src/FubuMVC.Spark/Rendering/Classes.cs:232-240 | It renders once through the partial renderer, with that renderer's full effect: the rendered view and its buffer are new, `NestedOutput` yields that buffer, and `WriteHtml` is called once with its contents. |
| `SparkRendering.DefaultRenderStrategy.Invoke` | src/FubuMVC.Spark/Rendering/Classes.cs:256-259 | It renders once through the default renderer, with that renderer's full effect: the rendered view and its buffer are new, `NestedOutput` yields that buffer, and `WriteHtml` is called once with its contents. |
| `SparkRendering.StrategyApplicability` | src/FubuMVC.Spark/Rendering/Classes.cs:211-254 | Take strategies that share one request's `NestedOutput` and `RequestData`. The nested strategy applies exactly when the holder is active, the ajax strategy exactly for ajax requests, and the default strategy always. So at least one applies in every state. |
| `Registration.ActionSources.constructor` | src/FubuMVC.Core/Registration/IActionSource.cs:19 | The registry starts with no stored sources. |
| `Registration.ActionSources.AddSource` | src/FubuMVC.Core/Registration/IActionSource.cs:21-24 | The source is appended at the end. Earlier sources are kept in order, and duplicates are not removed. |
| `Registration.ActionSources.AllSources` | src/FubuMVC.Core/Registration/IActionSource.cs:26-29 | The result is never empty. It is the stored sources when there are any, and otherwise exactly one `EndpointActionSource`. It is a function of the state, so it stores nothing. |
| `Registration.Register` | src/FubuMVC.Core/Registration/IActionSource.cs:21-29 | Sources are added one by one to a new registry. `AllSources` then returns exactly the added sources in insertion order, without the default, or only the default when none were added. |
| `RazorRendering.StrategyContracts` | src/FubuMVC.Razor/Rendering/RenderStrategies.cs:12-35 | The default strategy always applies and calls `Render` exactly once and `RenderPartial` never. The ajax strategy applies exactly for ajax requests and calls `RenderPartial` exactly once and `Render` never. |
| `RazorRendering.InvokeRendersFirst` | src/FubuMVC.Razor/RenderRazorBehavior.cs:17-22 | `Invoke` renders before anything else and then hands over to the inner behavior. With no inner behavior, it renders once and does nothing else. |
| `RazorRendering.InvokeChainOrder` | src/FubuMVC.Razor/RenderRazorBehavior.cs:17-22 | On a chain of behaviors, `Invoke` renders every Razor level exactly once, outermost first. It then invokes the non-Razor behavior at the end of the chain, if there is one. |
| `RazorRendering.InvokePartialMirrorsInvoke` | src/FubuMVC.Razor/RenderRazorBehavior.cs:24-29 | `InvokePartial` makes, level for level, the partial counterpart of every call `Invoke` makes. So it never calls `Render` or an inner `Invoke`. |
| `PackageFacility.GetApplicationPath` | src/FubuMVC.Core/Packaging/FubuMvcPackageFacility.cs:46-49 | The application path equals an independent first-non-null definition over `PhysicalRootPath`, then the hosting path, with the AppDomain-derived path as the last resort. |
| `PackageFacility.ApplicationPathPrecedence` | src/FubuMVC.Core/Packaging/FubuMvcPackageFacility.cs:48 | A non-null `PhysicalRootPath` wins, even when it is empty. The hosting path is used when `PhysicalRootPath` is null and the hosting path is not. |
| `PackageFacility.TrimEnd` | src/FubuMVC.Core/Packaging/FubuMvcPackageFacility.cs:56 | `TrimEnd(c)` returns the prefix of its input that does not end in `c` and after which only `c` characters follow. |
| `PackageFacility.PathFromBaseDirectory` | src/FubuMVC.Core/Packaging/FubuMvcPackageFacility.cs:51-60 | The derived path is always a prefix of the base directory. Without a `bin` suffix, it is the base directory unchanged. With one, it is at least three characters shorter and does not end in `\`. |
| `PackageFacility.BinSuffixStripped` | src/FubuMVC.Core/Packaging/FubuMvcPackageFacility.cs:54-56 | A base directory ending in `bin` is split as: the result, then a run of `\`, then a run of `/`, then `bin`. The result is a prefix of the input and never ends in `\`. |
| `PackageFacility.SuffixTestIsTextual` | src/FubuMVC.Core/Packaging/FubuMvcPackageFacility.cs:54 | The suffix test is textual: `/srv/cabin` becomes `/srv/ca`. |
| `PackageFacility.SlashBeforeBackslashSurvives` | src/FubuMVC.Core/Packaging/FubuMvcPackageFacility.cs:56 | The separators are trimmed `/` first and `\` second. So `app/\bin` becomes `app/`, and the derived path can still end in a separator. |
| `PackageFacility.FubuMvcPackageFacility.constructor` | src/FubuMVC.Core/Packaging/FubuMvcPackageFacility.cs:17-37 | Loaders are registered only when the application path is non-empty: the manifest reader first, then the zip reader, both for that path. The virtual-path activator and then the package-folder activator are always registered. |

## Left out

- Locking and concurrency: the `lock` around the cache write, and any sharing of the cache between threads. The cache is modelled single-threaded.
- Spark engine internals are oracles:
  - `CreateEntry` always succeeds, so a compilation failure is not modelled.
  - `IsCurrent` is membership in a "templates changed" set.
  - `CreateInstance` makes an unmodified view.
  - `RenderView` appends one abstract markup item.
- A view does not render nested partials from inside its own `RenderView` in this model. So the layout case, where a nested partial writes into the buffer before the outer flush, is not captured. Only the renderers' own steps are.
- View modifications observe, and record, only which modifications have run on the view. What `Modify` does to a real view is not modelled.
- The delegate that `NestedOutput.SetWriter` receives is always the `() => view.Output` written by the renderers. Other delegates are not modelled.
- SparkRendering.NestedOutput.Writer: two different cases both yield `None`, and the nested renderer reports both as the failure outcome. With no delegate set, invoking the null delegate throws `NullReferenceException`. With a delegate set but a null `Output` on the enclosing view, the code instead passes a null writer to Spark's `RenderView`, whose behaviour is not part of this model. So rendering into a null `Output` is modelled as the failure case. The modelled renderers set `Output` before `SetWriter`, so they never create that second case.
- `NestedOutput` is never cleared or restored after a render: once set, it stays active for the rest of the request. The model follows the code in this.
- The loop that walks the render strategies in priority order is not in these source files. So first-match-wins selection is not modelled or claimed. Only each strategy's `Applies` and `Invoke` are.
- SparkRendering.AjaxRenderStrategy.Invoke: modelled with a `PartialViewRenderer`. The code accepts any `IViewRenderer`, and the wiring that picks one is not in these files.
- SparkRendering.DefaultRenderStrategy.Invoke: modelled with a `DefaultViewRenderer`. The code accepts any `IViewRenderer`.
- SparkRendering.NestedRenderStrategy.Invoke: modelled with a `NestedViewRenderer`. The code accepts any `IViewRenderer`.
- `AllSources` returns the live `_sources` list itself once a source was added, so a caller holding that result sees later `AddSource` calls. When the list is empty, every call returns a new array holding a new `EndpointActionSource`. The model returns values, so it does not capture this aliasing or the identity of the default.
- The casts to `SparkViewBase` in the partial and default renderers can throw `InvalidCastException` for a view of another type. In the model every view instance is a `SparkViewBase`, so this failure is not modelled.
- `InsideBehavior` is a settable property, so a behavior chain can be re-pointed after construction. It can even be made cyclic, and then `Invoke` recurses without end. The model's chain is a finite, immutable value, so it captures neither re-pointing nor cycles.
- `IRequestData.IsAjaxRequest` is a boolean oracle. How it reads the request headers is not part of this model.
- `TextWriter`/`StringWriter` contents and `IOutputWriter.WriteHtml` are appends to abstract sequences.
- `src/FubuMVC.Razor/Registration/Nodes/RazorViewNode.cs` is dependency-injection wiring and a formatted description string. It is not modelled.
- The environment lookups in the packaging facility (`HostingEnvironment`, `AppDomain`) are parameters. File-system, zip and exploder objects are represented only by the path given to each loader. `AddRoutes`, `RegisterServices`, `ToString`, the image URL resolver and console logging are I/O and routing plumbing.
- The `PackageFacility` base class is not part of this model. Its `Loader` and `Activator` registration calls are modelled as appends to two lists.
- `String.EndsWith("bin")` is culture-sensitive in .NET. The model compares ordinally, so culture-ignorable characters are not modelled.
