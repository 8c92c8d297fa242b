# godi in Dafny

A model of the registration and resolution engine of godi, a small dependency
injection library for Go. The library has these parts:

- A tree of scopes (`registrationContext`). Each scope maps a target type name
  to a list of bindings, newest first.
- A binding (`typeRegistration`) names a target type and an implementor type.
  It either holds a ready-made instance or builds one on demand, once if it is
  cached and on every call if not.
- Resolution finds the newest binding for the requested name in the current
  scope. A scope with no binding falls back to its parent.
- A binding that creates an object runs it through an initializer chain: the
  binding's own callback, the object's `GodiInit`, then the first accepting
  `InstanceInitializer` of the scope that holds the binding, then its parent's.
- A catalog of registered types (`typeMap`) lets bindings made by name find
  their implementor type on first use.
- Tokens remove single bindings. The package globals hold the catalog, the
  registration counter, the root scope and the current scope.

How the modules fit together:

- `Types` (types.dfy) holds canonical type names and the lazily filled type
  descriptor `TypeInfo` of typeInfo.go. A type is the string Go prints for it;
  a pointer type is its element type with a leading `*`.
- `Registrations` (registrations.dfy) holds bindings and `realize` from
  typeRegistration.go. Objects built by the library get fresh identities from
  an `Allocator`. The user program (which type implements which interface,
  and what `GodiInit` does) is a `Program` value.
- `Registry` (registry.dfy) defines a scope's map of binding lists as values:
  push to the front, head lookup and removal by id. The lemmas state
  last-wins and the id-uniqueness invariant.
- `Godi` (godi.dfy) holds the scope, token and globals as classes:
  `RegistrationContext`, `RegistrationToken`, and `Runtime` for the package
  globals of godi.go. Each method is proved against a ghost specification.
  `Lookup` is the binding in force, `InitChain` the initializer chain and
  `ResolveSpec` the result of a resolution.
- `GodiProperties` (godi_properties.dfy) proves the properties of resolution
  and of the initializer chain over the whole parent chain of a scope.
- `Scenarios` (scenarios.dfy) holds verified scenarios of scope pushing on a
  fresh runtime, as written and as documented.

A Go panic is the outcome `Fatal(message)`. The panic messages are kept as the
code writes them, with type names for the `%v` of a type.

## Model

| member | source | states |
|---|---|---|
| Types.FormatType | typeInfo.go:20-22 | the canonical name has no `*` and is no longer than the input |
| Types.FormatTypeAppend | typeInfo.go:21 | stripping stars distributes over concatenation, so every other character is kept in order |
| Types.FormatTypeFixesStarFree | typeInfo.go:20-22 | a name is its own canonical name exactly when it has no `*` |
| Types.FormatTypeIdempotent | typeInfo.go:20-22 | formatting twice is formatting once |
| Types.FormatTypeOfPtr | typeInfo.go:20-22 | a pointer type has the canonical name of its element type |
| Types.TypeToString | godi.go:74-77 | the canonical name of a type holds no `*`, is unchanged by formatting again, and equals the name exactly when the name holds no `*` |
| Types.ExtractType | godi.go:57-77 | the type is the value's type with one leading `*` removed when it is a pointer, and the value's type otherwise; the name is the canonical name of the value's type |
| Types.InstanceToType | godi.go:169-172 | the value's type with one leading `*` removed when it is a pointer; it has the canonical name of the value's type |
| Types.TypeInfo.constructor | typeInfo.go:24-35 | a descriptor without a type stores the formatted name; with a type, the name comes from the type and the argument is ignored |
| Types.TypeInfo.Type | typeInfo.go:37-46 | the result is the stored type, else the catalog entry for the name, which is then stored; a missing name panics and stores nothing |
| Types.TypeFailsOnlyWhenUnregistered | typeInfo.go:37-42 | Type panics exactly when no type is stored and the name is not in the catalog, with a message naming the type |
| Types.CachedTypeIgnoresCatalog | typeInfo.go:38-45 | once a type is stored, the catalog is never consulted again |
| Registrations.Allocator.New | typeRegistration.go:40 | each construction yields an object with a new identity of the pointer type |
| Registrations.EnsureImplementor | typeRegistration.go:21-29 | no error exactly when the type or a pointer to it implements the target; otherwise the "Expected … to implement …" error |
| Registrations.TypeRegistration.Realize | typeRegistration.go:31-72 | the result is the realization rule, and only the cached instance, the implementor descriptor and one allocation change, as that rule says |
| Registrations.CachedHitReturnsStored | typeRegistration.go:48-71 | a cached binding with an instance returns it with created=false |
| Registrations.OtherwiseCreatesFresh | typeRegistration.go:49-70 | any other binding builds a new object of its implementor type with created=true, or panics when that type is unknown |
| Registrations.CachedRealizeIsStable | typeRegistration.go:51-62 | realize never replaces a stored instance, and a cached binding answers the next call with the same instance and created=false |
| Registry.IndexOfId | registrationContext.go:144-150 | the position found holds the id, and no earlier element does; none means no element does |
| Registry.RemoveByIdSplices | registrationContext.go:144-151 | removal by id cuts out exactly the first element with that id, or changes nothing |
| Registry.RemoveByIdExact | registrationContext.go:144-151 | in a list of distinct ids, removal keeps every other element, drops that id, and shortens the list by one exactly when the id was present |
| Registry.PushMakesHead | registrationContext.go:102-128 | after adding a binding, lookup of its name returns it (last wins); other names are untouched |
| Registry.RemoveKeepsOtherNames | registrationContext.go:130-152 | removal leaves the lists of other names untouched |
| Registry.RemoveDropsExactly | registrationContext.go:130-152 | removing a listed binding reports success and drops exactly that binding |
| Registry.RemoveUndoesPush | registrationContext.go:102-152 | removing the binding just added restores the previous list and head |
| Registry.RemoveBelowHeadKeepsHead | registrationContext.go:117-152 | removing a binding that is not the head keeps the head |
| Registry.RemoveLastLeavesNone | registrationContext.go:117-152 | removing the only binding for a name leaves no binding for it |
| Registry.PushKeepsWellFormed | registrationContext.go:158-168 | adding a binding with the next counter value keeps ids distinct and drawn from the counter |
| Registry.RemoveKeepsWellFormed | registrationContext.go:130-152 | removal keeps ids distinct and drawn from the counter |
| Godi.FirstHalt | registrationContext.go:82-88 | the position, in list order, of the first element that is nil (its type assertion panics) or accepts the instance; none means every element is non-nil and declines |
| Godi.TypeNameOfExtracted | godi.go:57-77 | the canonical name of the extracted type is the formatted printed type |
| Godi.RegistrationContext.constructor | registrationContext.go:31-40 | a new scope has the given parent, no bindings, no initializers and no close handler |
| Godi.RegistrationContext.RegisterInstanceInitializer | registrationContext.go:46-49 | the initializer goes to the front of the list; no error |
| Godi.RegistrationContext.InitializeInstance | registrationContext.go:53-96 | the result is the initializer chain: callback, then GodiInit, then this scope's list in order, panicking at a nil element and stopping at the first accepting initializer, then the parent's chain |
| Godi.RegistrationContext.AddRegistration | registrationContext.go:102-115 | the binding is pushed to the front of the list of its target name |
| Godi.RegistrationContext.FindRegistration | registrationContext.go:117-128 | nil exactly when the scope has no binding for the formatted name; otherwise the newest one |
| Godi.RegistrationContext.RemoveRegistration | registrationContext.go:130-152 | reports whether a binding with the id was listed and unlinks the first such, leaving the rest in order |
| Godi.RegistrationContext.RegisterByName | registrationContext.go:158-170 | the counter moves on and one binding by name, with that id and no types, is added in front |
| Godi.RegistrationContext.RegisterInstanceImplementor | registrationContext.go:172-192 | a nil instance panics first; a mismatch panics after the counter moved, adding nothing; otherwise one cached binding holding the instance is added |
| Godi.RegistrationContext.RegisterTypeImplementor | registrationContext.go:194-213 | a mismatch panics after the counter moved, adding nothing; otherwise one binding with the implementor type, cache flag and callback is added |
| Godi.RegistrationContext.Resolve | registrationContext.go:215-218 | the result is the resolution of the target with one pointer level removed, and the found binding is left as realize leaves it |
| Godi.RegistrationContext.ResolveCore | registrationContext.go:220-240 | the result is the resolution specification: parent fallback, realize, the initializer chain for a new object, else NotFound |
| Godi.RegistrationContext.Close | registrationContext.go:242-257 | the close handler runs once and is dropped, the parent is cleared and the scope is emptied |
| Godi.RegistrationContext.CreateScopeCore | registrationContext.go:259-265 | a new empty child scope carrying the given close handler |
| Godi.RegistrationContext.CreateScope | registrationContext.go:267-271 | a new empty child scope without close handler |
| Godi.RegistrationContext.Reset | registrationContext.go:273-279 | bindings and initializers are emptied |
| Godi.RegistrationToken.Close | godi.go:129-134 | the first call removes its binding from its scope and clears the scope; later calls change nothing |
| Godi.LookupFallsThrough | registrationContext.go:223-227 | a scope without a binding resolves exactly as its parent |
| Godi.ResolveHere | registrationContext.go:229-238 | a scope with a binding resolves through that binding's realization |
| Godi.CatalogAdd | godi.go:151-161 | a taken canonical name is an error and the catalog is unchanged; otherwise exactly that name is added, mapped to the extracted type |
| Godi.Runtime.constructor | godi.go:46-49 | empty catalog, counter 0, one empty root scope that is current |
| Godi.Runtime.RegisterType | godi.go:151-161 | the catalog and error are those of CatalogAdd |
| Godi.Runtime.Reset | godi.go:79-83 | the catalog and the root scope are emptied and the root becomes current |
| Godi.Runtime.RegisterInstanceInitializer | godi.go:165-167 | the initializer goes to the front of the current scope's list |
| Godi.Runtime.RegisterInstanceImplementor | godi.go:177-179 | the scope method's contract, on the current scope |
| Godi.Runtime.RegisterTypeImplementor | godi.go:186-188 | the scope method's contract, on the current scope |
| Godi.Runtime.RegisterByName | godi.go:195-197 | the scope method's contract, on the current scope |
| Godi.Runtime.Resolve | godi.go:201-203 | resolution in the current scope, keeping the globals' invariant |
| Godi.Runtime.ResolveByName | godi.go:207-213 | the current scope alone is searched; no binding is NotFound; a binding without a target type dereferences nil; else its target type is resolved |
| Godi.Runtime.CreateScope | godi.go:217-232 | a new empty child of the current scope, carrying the restore-parent handler when pushed |
| Godi.Runtime.CreateScopeAsDocumented | godi.go:215-232 | as CreateScope, and a pushed scope becomes the current one |
| Godi.Runtime.AfterPush | godi.go:47 | adding a binding with the next counter value keeps every scope's ids distinct and drawn from the counter |
| GodiProperties.AncestryIsParentChain | registrationContext.go:225-226 | the scopes resolution visits form the parent chain up to a scope without a parent |
| GodiProperties.LookupNoneIffUnbound | registrationContext.go:220-240 | no binding is found exactly when no scope on the parent chain has one |
| GodiProperties.LookupFindsNearest | registrationContext.go:223-229 | the binding found is the head of the nearest scope on the chain that has one: the child shadows its ancestors |
| GodiProperties.ResolveUnboundIsNotFound | registrationContext.go:239 | with no binding on the chain, resolution is a nil value with the NotFound error |
| GodiProperties.CacheHitSkipsInitializers | registrationContext.go:229-237 | a cached, filled binding resolves to its instance and runs no callback or initializer |
| GodiProperties.FreshInstanceGoesThroughChain | registrationContext.go:229-236 | otherwise the new object goes through the chain of the scope holding the binding, even when that is an ancestor |
| GodiProperties.UnregisteredImplementorPanics | typeInfo.go:37-42 | resolving a by-name binding whose implementor is not in the catalog panics naming it |
| GodiProperties.CallbackStopsChain | registrationContext.go:63-95 | a callback returning (false, err) panics; (false, nil) returns the instance untouched |
| GodiProperties.GodiInitFailurePanics | registrationContext.go:71-78 | a failing GodiInit panics naming implementor and target |
| GodiProperties.FirstHaltDecides | registrationContext.go:81-92 | the first scope on the chain whose scan stops decides: a nil element there panics with the interface-conversion message, an accepting initializer there gives the result |
| GodiProperties.NoAcceptingInitializerLeavesInstance | registrationContext.go:81-95 | when every initializer on the chain is non-nil and declines, the instance is returned unchanged |
| GodiProperties.NewestInitializerFirst | registrationContext.go:46-49 | the newest initializer is looked at first: if it is nil or accepts the scan stops there, otherwise the scan goes on over the older ones |
| GodiProperties.ByNameIgnoresAncestors | godi.go:207-211 | ResolveByName is NotFound when the current scope has no binding, whatever its ancestors hold |
| GodiProperties.ByNameWithoutTargetTypePanics | godi.go:212 | a binding without a target type makes ResolveByName dereference nil |
| GodiProperties.ByNameAgreesWithResolve | godi.go:212 | a binding with a target type is resolved by name as Resolve resolves that type |
| GodiProperties.RegisterTypeRejectsDuplicates | godi.go:151-161 | a second registration of the same canonical name fails and keeps the catalog |
| Scenarios.PushedScopeStaysBehind | godi.go:217-232 | after CreateScope(true) the root stays current and receives the next registration |
| Scenarios.PushedScopeIsCurrentUntilClosed | godi.go:215-232 | the documented push makes the scope current and the holder of the next registration, and closing it restores the root |

## Left out

- Locks: the read/write mutexes of scopes and bindings are left out, and everything runs sequentially. The re-check of `instance` in realize is kept as a plain test.
- Reflection: types are their printed names. `Implements` and `GodiInit` come from an abstract `Program`, and `reflect.New` is the `Allocator`. The `"rtype"` branch of `ExtractType` is taken where the library passes a `reflect.Type` on: the parent fallback of `resolveCore` (registrationContext.go:226) calls `Resolve` with the type, and `ResolveCore` models this by resolving the type again in the parent, which removes one more leading `*`. A value of the user's own whose type name contains "rtype" is not modelled.
- Nil targets: a target is a type name, so a nil target passed to `Resolve` or to a registration, a nil implementor passed to `RegisterTypeImplementor` (registrationContext.go:197) and a nil value passed to `RegisterType` (godi.go:153) cannot be expressed; in Go each of these panics. A nil instance passed to `RegisterInstanceImplementor` is modelled, as the nil dereference of `reflect.TypeOf(nil).Kind()`.
- User code: the binding callback, `GodiInit` and the `InstanceInitializer` methods are pure functions of the instance. Their side effects on the instance are not modelled. The chain runs the callback and `GodiInit` again at each parent level, as the code does, which is unobservable for pure functions.
- fbinject: the adapter to an external object-graph library is not part of this model. It is one more `InstanceInitializer` value.
- Counter width: `registrationCounter` is an unbounded integer, so Go `int` overflow is not modelled.
- Reset: `Reset` empties only the catalog and the root scope and makes the root current, as the code does. It does not reset the counter, and child scopes keep their bindings.
- By-name bindings: `Resolve` needs only the implementor name in the catalog, because the target is looked up by its formatted name and the target descriptor's type is never read. Nothing in the code fills a by-name binding's target type, so `ResolveByName` on such a binding always dereferences nil.
- Close: the `registrations != nil` guard in `registrationContext.Close` always holds, because every scope is built with a map, so the model has no such guard.
- godi_test.go: it calls functions that do not exist in this version of the library. Its override, removal, caching and initializer scenarios are covered by the general lemmas rather than replayed step by step.
- Godi.Runtime.ResolveByName: states its result but not the state it leaves (the stored instance and the allocation); Godi.RegistrationContext.Resolve states those for the same resolution.

## Findings

| source | as written | input that shows it | evidently intended | confidence | as-written member | corrected member |
|---|---|---|---|---|---|---|
| godi.go:215-232 | `CreateScope(true)` installs the close handler that restores the parent, but never makes the new scope current | on a fresh runtime, `CreateScope(true)` then `RegisterByName`: the binding lands in the root scope (Scenarios.PushedScopeStaysBehind) | with `pushScope` the new scope becomes the current one until it is closed, as the comment at godi.go:215 says (Scenarios.PushedScopeIsCurrentUntilClosed) | high; not executed | Godi.Runtime.CreateScope | Godi.Runtime.CreateScopeAsDocumented |
