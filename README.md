# SwEx.MacroFeature core, modelled in Dafny

SwEx.MacroFeature is a framework for SOLIDWORKS macro features. The host calls three entry points
on a macro feature: edit, regenerate and security. The framework forwards each one to an
overridable hook. Behind that, a handler registry keeps exactly one user-supplied handler per live
(document, feature) pair. It creates and initialises the handler on first use. It unloads and evicts
the handler when the document's lifecycle manager reports that the feature, or the whole document,
was disposed.

This project models four parts of that:

- `register.dfy`, module `Register` (`Base/Helpers/MacroFeatureRegister.cs`). The registry is a
  class with the source's two dictionaries as `map` fields. Documents, features and handlers are
  modelled as integer identities. Creating a handler takes the next unused identity. Ghost counters
  record how many times each handler got `Init` and `Unload`. The class invariant `Valid()` says:
  - every handler ever created was initialised exactly once;
  - an evicted handler was unloaded exactly once, and a live one never;
  - both maps know the same documents.

  Module `RegisterScenarios` proves the documented scenarios for every register state: repeated
  registration, re-registration after disposal, two features under one disposed document, and a
  double `Dispose`.
- `core.dfy`, module `Core` (`Base/Core/MacroFeatureEx.cs`). The base macro feature class: the
  provider tag fixed at construction, the icon fallback choice, the three entry points, and the
  default hooks. A derived class's overrides are `Option`s of functions; `None` means the base
  class's default. `FeatureData` stands for the host's `IMacroFeatureData` and holds the stored
  provider and a ghost count of writes to it.
- `info.dfy`, module `Info` (`Base/Helpers/MacroFeatureInfo.cs`). The fallback chains for the base
  name and the ProgId, over a reflected type description (`attributes.dfy`).
- `example.dfy`, module `Example` (`AddInExample/MacroFeatureAddInExample.cs`). `CompareIDs` and the
  `ignorePrevious` decision.

`wrappers.dfy` holds `Option`, `Result` and `IsNullOrEmpty`. A .NET string that may be null is an
`Option<string>`.

Three points about the order and extent of the registry's work:
- The code stores a new handler in its slot before calling `Init`
  (`Base/Helpers/MacroFeatureRegister.cs:67-68`). `InitHandler` requires the handler to be stored
  already.
- The code never unsubscribes a lifecycle manager's events when a document is evicted. It only drops
  the manager from the map, and so does the model.
- `Dispose` clears only the feature register. That still leaves both maps empty, because every
  document-level teardown already removed its lifecycle manager.

## Model

| member | source | states |
|---|---|---|
| `Register.CheckHandlerType` | Base/Helpers/MacroFeatureRegister.cs:30-38 | construction succeeds exactly when the handler type implements the handler interface and has a parameterless constructor; the interface check comes first (InvalidCastException), then the constructor check (InvalidOperationException) |
| `Register.Create` | Base/Helpers/MacroFeatureRegister.cs:28-44 | fails with exactly the configuration error of `CheckHandlerType`, before any register exists; on success returns a fresh, valid, empty register with the given base name and handler type |
| `Register.MacroFeatureRegister.constructor` | Base/Helpers/MacroFeatureRegister.cs:40-43 | for a validated handler type: both maps empty, no handler created, invariant established |
| `Register.MacroFeatureRegister.EnsureFeatureRegistered` | Base/Helpers/MacroFeatureRegister.cs:46-73 | a pair already stored gives back its stored handler, `isNew` false, nothing changed; an unseen pair gets a handler with an identity never used before, stored in its slot, initialised once, `isNew` true; the document gains its lifecycle manager if it had none; invariant kept |
| `Register.MacroFeatureRegister.AddModel` | Base/Helpers/MacroFeatureRegister.cs:52-61 | an unseen document gets an empty feature map and a lifecycle manager for it and the register's base name, in both maps at once |
| `Register.MacroFeatureRegister.AddHandler` | Base/Helpers/MacroFeatureRegister.cs:63-70 | the new handler takes the next identity, is stored under (model, feat) and then initialised exactly once; no other slot changes |
| `Register.MacroFeatureRegister.InitHandler` | Base/Helpers/MacroFeatureRegister.cs:68 | `Init` can only be called on a handler already stored in its slot, and increments only that handler's init count |
| `Register.MacroFeatureRegister.UnloadHandler` | Base/Helpers/MacroFeatureRegister.cs:125 | `Unload` can only be called on a live handler, and increments only that handler's unload count |
| `Register.MacroFeatureRegister.DestroyFeatureInRegister` | Base/Helpers/MacroFeatureRegister.cs:115-138 | a stored pair: its handler is unloaded exactly once and only that feature key is removed; other features, other documents and the lifecycle managers are unchanged; a missing document or feature changes nothing and does not fail |
| `Register.MacroFeatureRegister.DestroyModelInRegister` | Base/Helpers/MacroFeatureRegister.cs:85-113 | every handler stored under the document gets exactly one more `Unload`, no other handler gets any; the document leaves both maps; an unknown document changes nothing and does not fail |
| `Register.MacroFeatureRegister.UnloadModelHandlers` | Base/Helpers/MacroFeatureRegister.cs:100-105 | the loop over the document's handlers, in any order, unloads each live handler of that document once and no other |
| `Register.MacroFeatureRegister.OnFeatureDisposed` | Base/Helpers/MacroFeatureRegister.cs:75-78 | the lifecycle manager's feature event has exactly the effect of the feature-level teardown |
| `Register.MacroFeatureRegister.OnModelDisposed` | Base/Helpers/MacroFeatureRegister.cs:80-83 | the lifecycle manager's document event has exactly the effect of the document-level teardown |
| `Register.MacroFeatureRegister.Dispose` | Base/Helpers/MacroFeatureRegister.cs:140-147 | every handler live before gets exactly one `Unload`; afterwards both maps are empty and every handler the register ever created has been unloaded exactly once |
| `Register.HandlersOfModel` | Base/Helpers/MacroFeatureRegister.cs:102 | the values of a document's feature map are exactly the live handlers whose slot lies in that document |
| `Register.SlotsMatchAfterStore` | Base/Helpers/MacroFeatureRegister.cs:67 | storing a new handler in a free slot keeps "one slot per live handler, one handler per slot" |
| `Register.SlotsMatchAfterEvict` | Base/Helpers/MacroFeatureRegister.cs:127 | removing one feature key keeps that correspondence |
| `Register.SlotsMatchAfterDrop` | Base/Helpers/MacroFeatureRegister.cs:107 | removing a whole document keeps that correspondence |
| `Register.ConsistentAfterDrop` | Base/Helpers/MacroFeatureRegister.cs:89-107 | dropping a document from both maps after unloading each of its handlers once preserves the whole register invariant |
| `RegisterScenarios.RegisterTwice` | Base/Helpers/MacroFeatureRegister.cs:48-72 | two requests for the same pair return the same handler; only the first can report `isNew`; `Init` runs once in total, and only if the pair was new |
| `RegisterScenarios.ReRegisterAfterFeatureDisposed` | Base/Helpers/MacroFeatureRegister.cs:115-128 | after a feature is disposed, the next request creates a different, fresh handler with `isNew` true; the evicted one was unloaded exactly once |
| `RegisterScenarios.DisposeTwice` | Base/Helpers/MacroFeatureRegister.cs:140-147 | two `Dispose` calls leave both maps empty and unload each previously live handler exactly once in total, and no other handler |
| `RegisterScenarios.TwoFeaturesThenModelDisposed` | Base/Helpers/MacroFeatureRegister.cs:85-112 | for every valid register: two features of one document get distinct handlers; disposing the document leaves each unloaded exactly once and the document in neither map |
| `Core.TryCreateIcons` | Base/Core/MacroFeatureEx.cs:49-96 | an icon given by the icon attribute is kept; a missing regular icon becomes the default master icon; a missing highlighted or suppressed icon is the regular icon's picture under its own name |
| `Core.MacroFeatureEx.constructor` | Base/Core/MacroFeatureEx.cs:37-47 | the provider tag is the options attribute's `Provider` (null without the attribute) and, being a constant, never changes afterwards; the icons are those `TryCreateIcons` chooses |
| `Core.MacroFeatureEx.OnEditDefinition` | Base/Core/MacroFeatureEx.cs:193-196 | the edit hook answers `true` unless a concrete feature overrides it, then the override's answer |
| `Core.MacroFeatureEx.OnRebuild` | Base/Core/MacroFeatureEx.cs:206-209 | the rebuild hook gives no result (null) unless overridden, then the override's result for the stored provider |
| `Core.MacroFeatureEx.OnUpdateState` | Base/Core/MacroFeatureEx.cs:219-222 | the state hook answers `swMacroFeatureSecurityByDefault` unless overridden, then the override's answer |
| `Core.MacroFeatureEx.Edit` | Base/Core/MacroFeatureEx.cs:135-138 | answers exactly what `OnEditDefinition` answers: the override's answer, or `true` when not overridden |
| `Core.MacroFeatureEx.Security` | Base/Core/MacroFeatureEx.cs:171-174 | answers exactly what `OnUpdateState` answers: the override's answer, or `swMacroFeatureSecurityByDefault` when not overridden |
| `Core.MacroFeatureEx.SetProvider` | Base/Core/MacroFeatureEx.cs:157-168 | with a null or empty tag the stored provider and its write count are untouched; otherwise the stored provider equals the tag, and one write happened exactly when it differed |
| `Core.FeatureData.WriteProvider` | Base/Core/MacroFeatureEx.cs:165 | the `Provider` setter stores the value and counts one write |
| `Core.RegenerateStampsOnce` | Base/Core/MacroFeatureEx.cs:141-168 | a feature tagged "Acme" without overrides, regenerated twice over an empty stored provider: "Acme" is stored with exactly one write, both answers are null, and edit and security give their defaults |
| `Core.SetProviderTwice` | Base/Core/MacroFeatureEx.cs:157-168 | two stamps in a row leave the configured tag stored and write the stored provider at most once in total |
| `Core.RebuildOutcome` | Base/Core/MacroFeatureEx.cs:147-154 | null exactly when the rebuild hook gave no result, otherwise that result's `GetResult()` |
| `Core.MacroFeatureEx.Regenerate` | Base/Core/MacroFeatureEx.cs:141-155 | stamps the provider as `SetProvider` does and only then runs the rebuild hook, which sees the stamped provider; answers the translated hook result; without an override the answer is null |
| `Info.GetBaseName` | Base/Helpers/MacroFeatureInfo.cs:27-56 | a type not derived from `MacroFeatureEx` fails with the cast error naming it; otherwise the options' base name if non-empty, else the display name if non-empty, else the type name |
| `Info.GetBaseNameIsFirstNonEmpty` | Base/Helpers/MacroFeatureInfo.cs:35-55 | the base name is the first usable name in the order options, display name, type name |
| `Info.BaseNameIsNeverEmpty` | Base/Helpers/MacroFeatureInfo.cs:50-53 | a type with a non-empty name never gets an empty base name |
| `Info.GetProgId` | Base/Helpers/MacroFeatureInfo.cs:64-80 | a type not derived from `MacroFeatureEx` fails with the cast error; otherwise the ProgId attribute's value whenever the attribute is present, even empty or null, and the type's full name only when it is absent |
| `Info.GetBaseNameOf` | Base/Helpers/MacroFeatureInfo.cs:21-25 | the generic overload, whose type parameter must derive from `MacroFeatureEx`, does not fail and equals the `Type` overload's answer |
| `Info.GetProgIdOf` | Base/Helpers/MacroFeatureInfo.cs:58-62 | the generic overload does not fail and equals the `Type` overload's answer |
| `Example.CompareIDs` | AddInExample/MacroFeatureAddInExample.cs:194-203 | true exactly when the two id arrays hold the same ids equally often (equal as multisets); neither array is modified |
| `Example.Sort` | AddInExample/MacroFeatureAddInExample.cs:199-200 | sorting a copy gives an ascending list of exactly the same ids |
| `Example.SortedArrangementIsUnique` | AddInExample/MacroFeatureAddInExample.cs:199-202 | two ascending lists with the same ids are equal, so comparing sorted copies is multiset equality whatever sort is used |
| `Example.SortedCopiesEqualIffSameIds` | AddInExample/MacroFeatureAddInExample.cs:199-202 | the sorted copies are equal if and only if the id lists are equal as multisets |
| `Example.SameIdsIgnoreOrder` | AddInExample/MacroFeatureAddInExample.cs:199-202 | the comparison does not depend on the order of either list; symmetry follows from `Example.CompareIDs`'s multiset contract |
| `Example.DecideIgnorePrevious` | AddInExample/MacroFeatureAddInExample.cs:156-170 | `ignorePrevious` is true exactly when the host returned stored group data and its ids differ, as a multiset, from the add-in's single command id |

## Left out

- Icon conversion and file output (`IconsConverter.ConvertIcon`, `Base/Core/MacroFeatureEx.cs:83-95`) are host and filesystem bound. Their failures are swallowed, so the model keeps only the icon choice, which does not depend on them.
- `UpdateIconsIfRequired` (`Base/Core/MacroFeatureEx.cs:98-128`) is filesystem and host bound and is never called.
- `MacroFeatureIconInfo` (icon names and locations) and the default icon resource are not part of this model. The slots are named by `IconSlot` and the default picture by `DefaultPicture`.
- Add-in COM registration, registry keys, the command manager and toolbar wiring (`AddInExample/MacroFeatureAddInExample.cs:45-192`, except the `ignorePrevious` decision) belong to the host and the operating system.
- `Base/Extensions/DimensionEx.cs` (floating-point geometry through the host), `Base/Icons/HighResIcon.cs` (image containers) and `Base/Attributes/ParameterEditBodyAttribute.cs` (a data holder) are not part of this model.
- `GC.Collect` and `GC.WaitForPendingFinalizers` in `Dispose` are a runtime concern.
- `MacroFeatureLifecycleManager` is not part of this model. It appears only as a record per document and as the caller of `OnFeatureDisposed` and `OnModelDisposed`. Subscribing to its events is implicit in creating that record.
- `IMacroFeatureHandler` is not part of this model beyond counting `Init` and `Unload` calls. The host application handle and the arguments of `Init` are passed along but not recorded.
- Exceptions thrown by a handler's `Init` or `Unload`, or by a hook, are not modelled. The model's handlers and hooks always return.
- `Register.MacroFeatureRegister.AddHandler`: handler construction (`Activator.CreateInstance`, `Base/Helpers/MacroFeatureRegister.cs:66`) always succeeds in the model. In the framework it throws when the handler's constructor throws, or when an abstract or open generic type passed both construction checks. The document's feature map and lifecycle manager are then already added, and no handler is stored. The model does not capture that state.
- `Register.MacroFeatureRegister.UnloadModelHandlers`: the order in which a document's handlers are unloaded is not modelled. Dictionary enumeration order is unspecified, so only the counts are stated.
- `Register.MacroFeatureRegister.Dispose`: the source enumerates `m_Register.Keys` while each document teardown removes from `m_Register`. A .NET Framework dictionary enumerator throws on the next step after such a removal. The model iterates over a snapshot of the keys, which is the evident intent.
- `Register.MacroFeatureRegister.constructor` requires a validated handler type because a Dafny constructor cannot fail. `Register.Create` models the whole constructor, including both exceptions.
- Nested feature dictionaries are `map` values written back into the outer map. No one else holds a reference to them, so adding to one in place and writing back are the same.
- The `as` casts on host objects (`app as ISldWorks` and the like) are not modelled. The entry points receive identities (`Core.Context`), never a wrongly typed object.
- `Core.MacroFeatureEx.SetProvider`: a null stored provider is modelled as `""`. The tag written is never null or empty, so the two compare the same way.
- `Debug.Assert(false, ...)` on an unknown document or feature is a debug-build diagnostic. In the model that path changes nothing.
- `swMacroFeatureSecurityOptions_e` is a host enumeration. Only `swMacroFeatureSecurityByDefault` is named; other members are carried by their code.
- `MacroFeatureRebuildResult` is reduced to the host value its `GetResult()` returns.
- `Example.CompareIDs`: `List<int>.Sort` is modelled as a sort of the copied contents (`Example.Sort`), not as in-place work on the list. Any correct sort gives the same result (`Example.SortedArrangementIsUnique`). Null arrays and the `(int[])` cast of the registry data are not modelled.
