# Crossplane package installer, modelled in Dafny

This project models the package installer that Crossplane runs at start-up
(`internal/initializer/installer.go`). The installer is given a list of raw
Provider image references and a list of raw Configuration image references.
`Run` works in two phases:

1. **Build.** It fills a slice of exactly `len(Providers) + len(Configurations)`
   objects through a separate counter `pkgsIdx`. Providers come first, then
   Configurations, each list in input order. Each reference is parsed. The
   object's name is the DNS label of the reference's package source. Its
   `spec.package` is the canonical form of the reference. The first reference
   that does not parse ends the run with a "package name is not valid" error,
   before anything has been applied.
2. **Apply.** It applies the objects in slice order through a patching
   applicator. The first failing Apply ends the run with a "cannot apply
   package" error. Objects applied before it stay applied.

The model has four modules:

- `Wrappers` (`wrappers.dfy`): `Option` and `Result`.
- `Packages` (`packages.dfy`):
  - the package record `Package(kind, name, package)`;
  - the library functions the installer calls, gathered in `Naming`, as
    parameters;
  - the build phase as specification functions `Build`, `BuildAll` and
    `Desired`.
- `Store` (`store.dfy`):
  - the cluster behind the patching applicator, a map from (kind, name) to
    `spec.package` plus a log of every Apply call;
  - a failure oracle that decides which call fails;
  - the class `Applicator`, whose `Apply` creates or patches one object;
  - the specification function `ApplyAll`.
- `Installer` (`installer.dfy`):
  - the class `PackageInstaller`, whose `Run` is imperative. It fills an array
    through `pkgsIdx` in two `for` loops, then applies the array element by
    element and returns early on the first error;
  - the specification `Install` that `Run` is proved against, and the
    lemmas about `Install`.

`Run`'s result is `Ok` or `Err(phase, index)`. The index is the position, in
providers followed by configurations, of the reference whose parse or Apply
failed.

## Model

| member | source | states |
|---|---|---|
| Installer.PackageInstaller.constructor | internal/initializer/installer.go:38-44 | the installer holds exactly the Provider and Configuration lists it was given |
| Installer.PackageInstaller.Run | internal/initializer/installer.go:53-101 | the outcome and the store's new contents and call log are those of `Install` on the old state. The build loops keep every filled slot equal to the object built from its reference, with `pkgsIdx` counting the filled slots. The apply loop keeps the store equal to applying the prefix applied so far |
| Store.Applicator.constructor | internal/initializer/installer.go:94 | a fresh applicator over the given objects, with an empty call log |
| Store.Applicator.Apply | internal/initializer/installer.go:96 | every call is logged. The call fails exactly when the oracle rejects it, and then no object changes. Otherwise the object addressed by (kind, name) is created or patched to the record's package |
| Packages.BuildAll | internal/initializer/installer.go:58-75 | on success, one record per reference, each the one built from that reference. On failure, the index of the first reference that does not parse, with every earlier one parsing |
| Packages.DesiredSpec | internal/initializer/installer.go:54-93 | the desired set has length `len(Providers)+len(Configurations)`. Slot i holds the Provider built from `Providers[i]` and slot `len(Providers)+j` the Configuration built from `Configurations[j]`. On failure, the reported position is the first unparseable reference in Providers-then-Configurations order |
| Packages.DesiredSucceedsIffAllParse | internal/initializer/installer.go:58-93 | the build phase succeeds if and only if every reference parses |
| Packages.DesiredIs | internal/initializer/installer.go:54-93 | any sequence of the right length whose every slot holds what the build loops produce there is the desired set |
| Packages.FirstInvalidUnique | internal/initializer/installer.go:58-80 | the first unparseable position is unique |
| Packages.BuildDependsOnlyOnParsedReference | internal/initializer/installer.go:63-72 | the record depends only on the kind and the parsed reference, so equal references of the same kind give identical records |
| Packages.SameSourceSameName | internal/initializer/installer.go:65 | references with the same package source, whatever their tag or digest, give objects of the same name |
| Store.UpsertAllFrame | internal/initializer/installer.go:95-99 | applying a sequence adds exactly its keys and leaves every other object unchanged |
| Store.UpsertAllSnoc | internal/initializer/installer.go:95-99 | applying one more record after a sequence is applying the longer sequence |
| Store.UpsertAllLastWins | internal/initializer/installer.go:95-99 | a record with no later record of the same key decides that object's package |
| Store.UpsertAllIsOverride | internal/initializer/installer.go:95-99 | applying a sequence overrides the old store with the store the sequence alone builds |
| Store.UpsertAllIdempotent | internal/initializer/installer.go:95-99 | applying the same records a second time changes no object |
| Store.ApplyAllSucceeded | internal/initializer/installer.go:95-100 | when no Apply fails, no call was rejected, every record is applied in order and every call is logged |
| Store.ApplyAllFailed | internal/initializer/installer.go:95-98 | when Apply k fails, call k is the first rejected one. Records before k stay applied, calls 0..k are logged and no later record is applied |
| Store.ApplyAllCompletes | internal/initializer/installer.go:95-100 | when the oracle accepts every call, the apply loop succeeds and applies every record |
| Store.ApplyAllStopsAt | internal/initializer/installer.go:95-98 | when call k is the first the oracle rejects, the apply loop stops at k with the prefix before k applied |
| Store.ApplyAllSnoc | internal/initializer/installer.go:95-98 | one more iteration of the apply loop after a prefix that succeeded either extends the prefix or ends the whole loop at that index |
| Installer.InstallStopsAtBadName | internal/initializer/installer.go:58-80 | when position i is the first unparseable reference, the run reports a parse error at i and the store is untouched |
| Installer.InstallRejectsOnlyBadNames | internal/initializer/installer.go:58-80 | when the build phase fails, the run returns the parse error at the failing position and the state is unchanged |
| Installer.InstallApplies | internal/initializer/installer.go:94-100 | once the desired set is built, the run's state and outcome are those of the apply loop over it |
| Installer.ParseErrorAppliesNothing | internal/initializer/installer.go:58-80 | the run reports a parse error at i if and only if i is the first unparseable reference. In that case no Apply call is made at all, even for earlier valid references |
| Installer.ApplyErrorKeepsPrefix | internal/initializer/installer.go:95-98 | an apply error at k comes only after every reference parsed. Call k was the first rejected one, records before k stay applied, exactly calls 0..k were made and no later record was applied |
| Installer.SuccessAppliesEveryPackageInOrder | internal/initializer/installer.go:54-100 | a successful run made exactly `len(Providers)+len(Configurations)` Apply calls. They are the Providers in input order, then the Configurations in input order, and the store holds all of them |
| Installer.EmptyInstallIsNoop | internal/initializer/installer.go:54-100 | with both lists empty the run succeeds with no Apply call |
| Installer.CallsFollowDesired | internal/initializer/installer.go:95-99 | whatever the outcome, the run only appends to the call log. What it appends is a prefix of the desired set, and nothing is appended unless the build phase succeeded |
| Installer.DesiredKinds | internal/initializer/installer.go:58-93 | in the desired set, a record is a Provider exactly when its position is below `len(Providers)` |
| Installer.ProvidersBeforeConfigurations | internal/initializer/installer.go:58-99 | within a run, no Configuration is applied before a Provider |
| Installer.RerunChangesNothing | internal/initializer/installer.go:94-100 | after a successful run, a second successful run over the same lists leaves every object as it was |
| Installer.LaterReferenceWins | internal/initializer/installer.go:91-99 | after a successful run, a record with no later record of the same kind and name decides that object's package |
| Installer.PhaseMessagesDiffer | internal/initializer/installer.go:33-36 | parse errors and apply errors carry different messages |

## Left out

- The reference grammar of `name.ParseReference` with an empty default registry is not modelled. `xpkg.ParsePackageSourceFromReference`, `xpkg.ToDNSLabel` and the canonical `String()` of a reference are not modelled either. They are the uninterpreted fields of `Naming`, given to `Run` as a parameter. Nothing is proved about DNS-label legality or name collisions.
- The Kubernetes client and `resource.NewAPIPatchingApplicator` become a keyed store with create-or-patch semantics and an external failure oracle. Network I/O, conflict and validation errors, and field-level patch semantics are not modelled. A failed Apply is assumed to change no object.
- `RerunChangesNothing` and `UpsertAllIdempotent` are properties of this store abstraction, not of the installer code itself.
- `context.Context` cancellation and deadlines are not modelled. The context is only passed on to the applicator.
- Of the `v1.Provider`, `v1.Configuration`, `ObjectMeta` and `PackageSpec` structs, only kind, name and `spec.package` are kept.
- The error value is reduced to its phase and the failing index. Phase's `Message()` carries the two constant messages. The wrapped cause and the exact text built by `errors.Wrap` are not modelled. The Go error carries no index: the index is added by the model so that the failing reference can be stated.
- "No later entry is parsed" after a parse failure is not modelled. Parsing is a pure function here, so a parse that does not happen cannot be observed. What is stated is that the reported position is the first bad one and that no Apply happens.
- The `pkgs` slice holds interface values (`client.Object`) in Go. The model holds records by value in an `array<Package>`, so aliasing between slots and the store is not modelled.
