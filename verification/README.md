# Verification of the guest runtime

This project models the parts of the guest runtime where several pieces of state have to agree
while code calls back into the code that called it, and proves what they keep.

- **Imports** (`Names`, `Importer`, `ImportLaws`, `ImportOutcomes`, `FromLists`, `Submodules`, `ImportRuns`,
  `DeniedNames`, `GuestImports`, `Overlay`, `GuestBindings`, `MountedRuns`). A guest owns a table of module
  objects. `Importer` gives the meaning of importing as total functions over guest programs made of imports,
  bindings, `try` and `raise`; `GuestImports` is the same importer on a mutable table and objects, each method
  proved to have exactly that meaning. The frame of an import (what is cached stays the same object, what is
  bound stays bound) is what makes cyclic imports terminate and the importer's internal errors unreachable.
  `ImportOutcomes` says what realising a name answers from each source, and `FromLists` what becomes of the
  names of a from-list and of a star. `Overlay` and `GuestBindings` are what a guest is bound to, with bundles
  mounted later, and `MountedRuns` a guest's life with mounts between its calls. `Submodules` says when a
  submodule is an attribute of its package, and `DeniedNames` which names a denial keeps out.
- **Host futures and coroutines** (`FutureRuns`, `LastPolls`, `HostFutures`, `Coroutine`, `Timer`). `FutureRuns` is a
  state machine with a stack of open `poll_all` and `publish` calls; `HostFutures` is the queue with its
  fields updated in place, and every execution, with futures and deliveries calling back into it, is
  proved to be a run of that machine. `Coroutine` drives a guest task and proves that no wake-up is lost.
- **Activity and deadlines** (`Activity`, `Policy`). Guards of many guests on one shared stack, and one
  64-bit deadline for each guest that only its outermost operation starts.
- **Native extensions** (`NativeLoad`, `NativeExtensions`). Loading as a transaction on the process-wide
  module table, with arbitrary edits by foreign code, and the registry of loaded extensions.
- **Arguments** (`Arguments`, `Args`), **bundles** (`BundleNames`, `Bundles`, `BundleRuns`,
  `BundleBuilder`), **classes and exceptions** (`Classes`, `ClassRealiser`, `Exceptions`) and **unions**
  (`Unions`). Each is a loop or a recursion with a declarative meaning that it is proved to have.

Foreign calls appear as parameters: the clock, what a future returns and does while it is polled,
whether a class can be created, what an extension does to the module table, which ambient imports
exist. A theorem holds for all values of them.

## Where the code does less than one might expect

Each of these is proved, with a concrete run or call where one is given, next to the exact condition
under which the expected property holds.

- A delivery that fails inside `publish` drops the rest of its batch: `FutureRuns.FailedPublishLosesTheRest`;
  nothing is lost exactly in runs without such a failure: `FutureRuns.NothingLostIffNoFailure`.
- A host future registered by the poll of another one is queued without having been polled with the
  waker of that pass: `FutureRuns.RegisteredDuringPassWaits`. Of the futures then queued the pass was the
  last to poll exactly those registered before it: `HostFutures.PendingHostFutures.PollAll`.
- A later pass with another waker takes a queued future over: `LastPolls.SecondWakerTakesOver`. A queued
  future keeps its waker exactly if no pass took it: `LastPolls.QueuedKeepsItsWakerIff`.
- An elapsed timer is armed again instead of reported: `Timer.WaitTimerNeverFinishes`, with the exact
  condition in `Timer.ReadyOnlyIfClockMovesWithinPoll`.
- A budget that reaches past the last 64-bit nanosecond is never armed: `Policy.ArmingSaturates`.
- A signature that collects the remaining keywords accepts a parameter given twice:
  `Arguments.RepeatIsAccepted`, with the exact condition in `Arguments.BindIsExactIff`.
- A module whose file is written again stands in other bytes than its source: a plain module called as
  the initialiser of a package overwrites it, and so does data at its path
  (`BundleRuns.InitialiserOverwritesPackage`, `BundleRuns.DataOverwritesModule`), with the exact condition
  in `BundleRuns.HoldsUnlessOverwritten` and the only possible causes in `BundleRuns.OverwriterIs`.
- A class with a static member that fails after the class was made is made again by the next call:
  `Classes.CreatedOnceIff`. It is memoised at most once: `Classes.MemoIsPermanent`.
- A from-list realises a submodule that is denied: `ImportRuns.DeniedSubmoduleIsRealised`. Denied names stay
  out of every run exactly if the heads of all of them are denied: `DeniedNames.DenialHoldsIff`.
- A rollback stops at the first deletion the table refuses: `NativeLoad.UndoStopsAtRefusal`, with the exact
  condition for a restored table in `NativeLoad.FailureRestoresIff`.
- A package that failed and is realised again need not have a submodule that stayed cached:
  `ImportRuns.PackageForgetsSubmodule`, with the exact condition in `Submodules.AttachedIff`.

## Model

| member | source | states |
|---|---|---|
| Names.HeadIsFirstComponent | crates/guestpy-core/src/imports/name.rs:35-39 | the head of a dotted name is its first component |
| Names.ParentDropsLastComponent | crates/guestpy-core/src/imports/name.rs:41-43 | the parent is all components but the last, with that last one; there is none for a single component |
| Names.PrefixesAreComponentPrefixes | crates/guestpy-core/src/imports/name.rs:45-52 | the prefixes found by scanning for dots are the joins of the component prefixes, shortest first |
| Names.PrefixesOfPrefix | crates/guestpy-core/src/imports/name.rs:45-52 | the prefixes of a prefix are the shorter prefixes of the whole name |
| Names.ParentOfPrefix | crates/guestpy-core/src/imports/name.rs:41-52 | each prefix has the one before it as parent, and the first is the head |
| Names.DeniedByComponents | crates/guestpy-core/src/imports/name.rs:54-57 | a name is denied if and only if some nonempty component prefix is in the set |
| Names.DenialCoversDescendants | crates/guestpy-core/src/imports/name.rs:54-57 | denying a name denies everything below it |
| Names.Absolutise | crates/guestpy-core/src/imports/name.rs:9-33 | the loop over the levels gives the absolute name or the same error as its specification |
| Names.AbsoluteComponents | crates/guestpy-core/src/imports/name.rs:9-33 | section 5.7 of the Python Language Reference on components: `level - 1` trailing components go, the name is appended, and it fails if and only if there is no package, or too few components remain, each with its own error |
| Importer.Realise | crates/guestpy-core/src/imports/realise.rs:289-337 | from an uncached name, success means the name is cached as the returned object and failure that it is not cached; everything cached before stays the same object; the preferred source is used |
| Importer.RealiseHost | crates/guestpy-core/src/imports/realise.rs:140-191 | a host module is a transaction on the module table: a failing member takes it out again |
| Importer.RealiseNative | crates/guestpy-core/src/imports/realise.rs:193-203 | a native module is cached only if it could be declared |
| Importer.RealiseExtension | crates/guestpy-core/src/imports/realise.rs:274-287 | an extension is a transaction on the module table, and the missing-parent error is not reached when the parents are cached |
| Importer.RealiseBundle | crates/guestpy-core/src/imports/realise.rs:205-272 | a bundle module is cached before its code runs and is a transaction however its code imports and fails; with well-formed bindings neither missing-source error is reached |
| ImportOutcomes.HostOutcome | crates/guestpy-core/src/imports/realise.rs:140-191 | an uncached name with a host module is realised as it if and only if no member fails; the first failing member gives the error, and then only the cache entry is gone again |
| ImportOutcomes.NativeOutcome | crates/guestpy-core/src/imports/realise.rs:193-203 | an uncached name with a native module and no host module succeeds if and only if the native module can be declared, with its error if not, and leaves exactly the new cached object or nothing |
| ImportOutcomes.BundleOutcome | crates/guestpy-core/src/imports/realise.rs:205-272 | an uncached name that only bundles and extensions provide is decided by the bundle: the missing-module and missing-preparation errors, code that does not compile, and otherwise the outcome of its code, run with the new object of the stated attributes and package already cached |
| ImportOutcomes.ExtensionOutcome | crates/guestpy-core/src/imports/realise.rs:274-287 | an uncached name that only an extension provides succeeds if and only if its loader does and every proper prefix is cached; otherwise the error is the loader's or the missing parent, and nothing is left behind |
| ImportLaws.SeedsAre | crates/guestpy-core/src/imports/realise.rs:117-240 | the names each kind of module starts with, and `__path__` besides in a package |
| Importer.ImportPrefix | crates/guestpy-core/src/imports/realise.rs:342-357 | after one turn of the loop the prefix is cached and bound in its parent |
| Importer.ImportFrom | crates/guestpy-core/src/imports/realise.rs:339-360 | the rest of the loop over the prefixes leaves each of them cached and bound in the one before, or one of them uncached |
| Importer.ImportModule | crates/guestpy-core/src/imports/realise.rs:339-360 | section 5.4.2 of the Python Language Reference: success leaves every prefix cached and bound in its parent as exactly the cached object; the missing-parent errors are not reached |
| Importer.Expand | crates/guestpy-core/src/imports/mod.rs:62-74 | on success every name asked for that is realised as a submodule is an attribute of the module |
| Importer.Answer | crates/guestpy-core/src/imports/mod.rs:215-230 | without a from-list the head module is returned, with one the named module after its names were worked through; the missing-head error is not reached |
| Importer.Dispatch | crates/guestpy-core/src/imports/mod.rs:188-231 | which imports are refused unchanged, delegated or served, and what a served one leaves behind |
| FromLists.WantedIff | crates/guestpy-core/src/imports/mod.rs:50-60 | a name is worked through if and only if it is listed and no star, or a star is listed, the module has `__all__`, and the name is in it and no star |
| FromLists.WantedInOrder | crates/guestpy-core/src/imports/mod.rs:50-60 | the names come in the order of the list, with those of `__all__` in place of the star |
| FromLists.ExpandAppend | crates/guestpy-core/src/imports/mod.rs:62-74 | a list is worked through piece by piece unless an earlier piece broke off |
| ImportLaws.ExpandsOne | crates/guestpy-core/src/imports/mod.rs:62-74 | a single name is left alone if the module has it; otherwise its submodule is imported, and only an error that is no import error breaks off |
| FromLists.EachNameIsTried | crates/guestpy-core/src/imports/mod.rs:62-74 | each name of a list that is worked through was there when its turn came, or is bound as the submodule imported then, or its import failed with an import error |
| FromLists.LoadsAtItsTurn | crates/guestpy-core/src/imports/mod.rs:62-74 | a name missing at its turn whose source makes a module is realised as a submodule and attached when the list is done; the first missing name has its turn right after the module's own import |
| FromLists.DispatchExpands | crates/guestpy-core/src/imports/mod.rs:215-230 | with a from-list an import is the import of the named module followed by working through the names asked for, and fails as one of the two does |
| FromLists.ListedNamesArrive | crates/guestpy-core/src/imports/mod.rs:47-75 | after a successful import with a from-list every name listed, and with a star every name of `__all__`, whose source makes a module is an attribute of the module |
| FromLists.FromStatementBinds | crates/guestpy-core/src/imports/mod.rs:188-231 | `from m import names` completes if and only if the import succeeds and the module then has every name asked for; exactly those are bound, each to what the module has |
| FromLists.PlainStatementBinds | crates/guestpy-core/src/imports/mod.rs:215-226 | `import name` completes if and only if the import succeeds, and binds the first component to its answer and nothing else |
| FromLists.ForeignStatementBinds | crates/guestpy-core/src/imports/mod.rs:211-213 | a from-list of a delegated import completes if and only if the ambient import does, and binds exactly its names but the star |
| FromLists.StarImportsSubmodule | crates/guestpy-core/src/imports/mod.rs:47-75 | a run in which a star import realises and binds a submodule that the package only lists in `__all__` |
| Importer.Exec | crates/guestpy-core/src/imports/realise.rs:268-271 | running any guest code, with imports at any depth, keeps the frame: cached objects stay, links outside the running module stay, new submodules are linked; it terminates because names are cached before their code runs |
| Importer.ExecStmt | crates/guestpy-core/src/imports/realise.rs:268-271 | the same for one statement, caught failures included |
| Importer.Run | crates/guestpy-core/src/imports/realise.rs:289-360 | the frame over any sequence of host imports and guest programs |
| ImportLaws.NoInternalError | crates/guestpy-core/src/imports/realise.rs:71-88 | in no run with well-formed bindings is an internal error of the importer raised, and every cached object was made for its name by the preferred source |
| ImportLaws.CacheIsPermanent | crates/guestpy-core/src/imports/realise.rs:289-337 | section 5.3.1 of the Python Language Reference: what is cached when a call returns stays the same object and its code never runs again |
| ImportLaws.LinksArePermanent | crates/guestpy-core/src/imports/realise.rs:345-354 | a submodule bound in its parent when a call returns stays bound |
| ImportLaws.ImportOutcome | crates/guestpy-core/src/imports/realise.rs:339-360 | an import succeeds if and only if every prefix is cached afterwards, and then all of them are linked |
| ImportLaws.HeadLeadsToLeaf | crates/guestpy-core/src/imports/mod.rs:128-133 | following the components as attributes from the head module ends at the object cached for the whole name |
| FromLists.ExpandReportsFirstBreak | crates/guestpy-core/src/imports/mod.rs:62-74 | the names are worked through in order, and the first submodule that fails with anything but an import error ends the expansion with that error |
| ImportLaws.ImportStatementBindsHead | crates/guestpy-core/src/imports/mod.rs:218-226 | the import statement binds the first component of the name to the cached head module |
| ImportLaws.RelativeImportStartsAtHome | crates/guestpy-core/src/imports/realise.rs:242-251 | relative imports start at the package itself inside a package and at the parent inside another module, one component further up for each further dot; without a home they are delegated and with more dots than components refused |
| ImportLaws.HostModuleHasItsMembers | crates/guestpy-core/src/imports/realise.rs:140-191 | a host module is realised if and only if no member fails, and then its attributes are exactly the six it is seeded with and its declared members, with `__getattr__` if and only if some are lazy |
| ImportLaws.ReimportChangesNothing | crates/guestpy-core/src/imports/realise.rs:289-292 | importing again right after an import finds the same object and changes nothing |
| ImportLaws.CycleFindsItself | crates/guestpy-core/src/imports/realise.rs:268-269 | while its body runs, a module imported again is the unfinished object |
| ImportLaws.DeniedImportChangesNothing | crates/guestpy-core/src/imports/mod.rs:135-143 | a denied component prefix of the resolved name refuses the import before anything happens |
| ImportLaws.AbsoluteNameIsServed | crates/guestpy-core/src/imports/mod.rs:135-150 | an absolute name is refused if and only if a component prefix is denied, and else served if and only if its first component is a host, native, source or extension name or is cached |
| ImportLaws.DelegatedImport | crates/guestpy-core/src/imports/mod.rs:106-126 | a delegated import is handed on with its name and level and changes nothing |
| ImportLaws.FailureKeepsOthers | crates/guestpy-core/src/imports/realise.rs:326-334 | a failed module is taken out alone: whatever its code realised stays cached |
| Submodules.DotIsItself | crates/guestpy-core/src/imports/name.rs:9-33 | inside a package the name relative to one dot with nothing behind it is the package itself, so `from . import` imports from itself |
| Submodules.AttachedIff | crates/guestpy-core/src/imports/realise.rs:339-360 | in every run a cached submodule of a cached package whose own code binds nothing else to its name, from-imports of itself allowed, is an attribute of it if and only if the importer has bound it since the package's present object was made; always if it is the younger of the two, in particular if the package was realised once |
| Submodules.TidyRun | crates/guestpy-core/src/imports/realise.rs:289-360 | the invariant behind it, over any nesting of imports and failures: which objects have which submodules bound, and which of two modules is older |
| ImportRuns.PackageForgetsSubmodule | crates/guestpy-core/src/imports/realise.rs:326-357 | a run after which a package is cached and its cached submodule is not an attribute of it |
| ImportRuns.DeniedSubmoduleIsRealised | crates/guestpy-core/src/imports/mod.rs:62-74 | a from-list realises a submodule whose import by name is refused as denied |
| DeniedNames.RunKeepsHeadsOpen | crates/guestpy-core/src/imports/mod.rs:188-231 | over any host calls and guest programs, with imports at any depth, nothing under a denied head is ever realised |
| DeniedNames.BornLifeKeepsHeadsOpen | crates/guestpy-core/src/imports/mod.rs:135-143 | the same over any sequence of calls and mounts in the life of a guest |
| DeniedNames.RealisableIff | crates/guestpy-core/src/imports/mod.rs:47-75 | for all denied names and every name, some guest with those denied names has a run that realises it if and only if the head of the name is not denied |
| DeniedNames.DenialHoldsIff | crates/guestpy-core/src/imports/mod.rs:47-75 | denying keeps every denied name out of all runs of all guests if and only if the denied names contain the head of each of them |
| GuestImports.Guest.RealiseHostModule | crates/guestpy-core/src/imports/realise.rs:140-191 | on the mutable table and objects, exactly the effect of `Importer.RealiseHost` |
| GuestImports.Guest.RealiseNativeModule | crates/guestpy-core/src/imports/realise.rs:193-203 | exactly the effect of `Importer.RealiseNative` |
| GuestImports.Guest.FindParents | crates/guestpy-core/src/imports/realise.rs:71-88 | the loop finds all parents if and only if every proper prefix is cached |
| GuestImports.Guest.RealiseExtensionModule | crates/guestpy-core/src/imports/realise.rs:274-287 | exactly the effect of `Importer.RealiseExtension` |
| GuestImports.Guest.RealiseBundleModule | crates/guestpy-core/src/imports/realise.rs:205-272 | exactly the effect of `Importer.RealiseBundle` |
| GuestImports.Guest.RealiseModule | crates/guestpy-core/src/imports/realise.rs:289-337 | exactly the effect of `Importer.Realise` |
| GuestImports.Guest.ModuleOf | crates/guestpy-core/src/imports/realise.rs:339-360 | the loop over the prefixes has exactly the effect of `Importer.ImportModule` |
| GuestImports.Guest.ExpandNames | crates/guestpy-core/src/imports/mod.rs:62-74 | the loop over the wanted names has exactly the effect of `Importer.Expand` |
| GuestImports.Guest.ResolveName | crates/guestpy-core/src/imports/mod.rs:194-213 | exactly the resolution, denial and binding decision of `Importer.Resolve` |
| GuestImports.Guest.DispatchImport | crates/guestpy-core/src/imports/mod.rs:188-231 | exactly the effect and answer of `Importer.Dispatch` |
| GuestImports.Guest.ExecCode | crates/guestpy-core/src/imports/realise.rs:268-271 | exactly the effect of `Importer.Exec` |
| GuestImports.Guest.MakeCalls | crates/guestpy-core/src/imports/mod.rs:166-172 | any sequence of host calls refines `Importer.Run`: the table only grows, and no internal error is reached |
| Overlay.MountEffect | crates/guestpy-core/src/imports/bindings.rs:221-250 | a mount changes nothing if and only if it is refused or repeats an earlier one, with the refusal of each case; one that takes effect makes exactly the names of its bundle resolve to it |
| Overlay.SourcesAreValid | crates/guestpy-core/src/imports/bindings.rs:93-99 | over construction and any mounts each source contains its name and its bundle is prepared, no bundle is prepared twice, and the importer's precondition holds |
| Overlay.LoadersArePermanent | crates/guestpy-core/src/imports/bindings.rs:123-132 | the loader of a prepared bundle is never replaced |
| Overlay.LastBundleWins | crates/guestpy-core/src/imports/bindings.rs:97-99 | the last listed bundle that contains a name provides it |
| Overlay.PrepareKeepsInv | crates/guestpy-core/src/imports/bindings.rs:116-143 | preparing a bundle keeps the invariant of the sources, extensions and loaders |
| Overlay.PrepareEffect | crates/guestpy-core/src/imports/bindings.rs:116-143 | preparing fails only for a bundle not prepared before; else exactly the bundle's modules come from it, and exactly the extensions its loader claims from that loader, the one from before or a new one with the names preparing gave |
| Overlay.AllPreparedIff | crates/guestpy-core/src/imports/bindings.rs:93-99 | the bundles of a new guest are all prepared if and only if preparing succeeds wherever a bundle is listed first, and each loader claims what that preparation gave |
| Overlay.OwnerIsFirst | crates/guestpy-core/src/imports/bindings.rs:60-63 | a class is owned if and only if a module has it in its lineages, and its owner is the first listed module that does |
| Overlay.RefusedIffContested | crates/guestpy-core/src/imports/bindings.rs:64-73 | construction fails on ownership if and only if a module has a class with requirements that a distinct module listed before it had first |
| Overlay.UnambiguousIffOneModuleEach | crates/guestpy-core/src/imports/bindings.rs:64-73 | with one specification for each class, construction fails on ownership if and only if two modules with different identities have the same class with requirements in their lineages |
| GuestBindings.GuestBindings.PrepareBundle | crates/guestpy-core/src/imports/bindings.rs:116-143 | fills the three maps in place as `Overlay.Prepare` does, or changes nothing |
| GuestBindings.GuestBindings.MountBundle | crates/guestpy-core/src/imports/bindings.rs:221-250 | exactly the effect and refusal of `Overlay.Mount` |
| GuestBindings.OwnersOf | crates/guestpy-core/src/imports/bindings.rs:50-77 | the nested loops fail if and only if a module has a class with requirements that a distinct module had first; otherwise every class in the lineages is owned by the first listed module that has it |
| GuestBindings.NewGuestBindings | crates/guestpy-core/src/imports/bindings.rs:42-114 | construction succeeds if and only if no class with requirements is contested and every bundle can be prepared, with the owners and specs of the listed modules |
| MountedRuns.MountKeepsReady | crates/guestpy-core/src/imports/bindings.rs:221-250 | mounting between calls keeps the importer's invariant: what is realised still comes from the preferred source, or from an extension the new bundle shadows |
| MountedRuns.EveryLife | crates/guestpy-core/src/imports/bindings.rs:221-250 | over any sequence of calls and mounts no internal error is raised, and what is cached or bound at some point stays so, with its code never running again |
| FutureRuns.StepKeepsInv | crates/guestpy-core/src/driver/host_futures.rs:31-49 | every step of every open call keeps order, conservation and the count of polled futures |
| FutureRuns.FirstInFirstOut | crates/guestpy-core/src/driver/host_futures.rs:97-121 | in every run, with any nesting, the unfinished futures stand in registration order: outermost batch, inner batches, queue |
| FutureRuns.PollingCounts | crates/guestpy-core/src/driver/host_futures.rs:32-71 | `polling` is the size of all open batches, settling never underflows, and `is_empty` means nothing is queued, in an open batch or ready |
| FutureRuns.NeverPolledAfterReady | crates/guestpy-core/src/driver/host_futures.rs:107-116 | a future that returned its result is never polled again |
| FutureRuns.ResolvedAtMostOnce | crates/guestpy-core/src/driver/host_futures.rs:127-170 | a result is resolved, found cancelled or dropped at most once, with the outcome the future returned |
| FutureRuns.QuietAccounting | crates/guestpy-core/src/driver/host_futures.rs:31-49 | when all calls have returned and nothing is ready, a future is queued or has been resolved, found cancelled or lost, exactly one of these |
| FutureRuns.NothingLostIffNoFailure | crates/guestpy-core/src/driver/host_futures.rs:127-170 | results are lost in a run if and only if a delivery failed in it |
| FutureRuns.FailedPublishLosesTheRest | crates/guestpy-core/src/driver/host_futures.rs:128-152 | a run in which a failed delivery loses the rest of its batch |
| FutureRuns.BatchKeepsItsWaker | crates/guestpy-core/src/driver/host_futures.rs:97-121 | in every run, whatever is polled by passes nested in an open batch, a waiting future of the batch was last polled by the batch's own pass, with its waker |
| FutureRuns.RegisteredDuringPassWaits | crates/guestpy-core/src/driver/host_futures.rs:98-104 | a run in which a future registered by a poll is queued when the pass ends and was never polled |
| LastPolls.QueuedKeepsItsWakerIff | crates/guestpy-core/src/driver/host_futures.rs:97-121 | over any run, with any wakers and nesting, a future queued before and after it was last polled by the pass that last took it, and keeps the waker it had if and only if no pass took it |
| LastPolls.FirstPassHoldsIff | crates/guestpy-core/src/driver/host_futures.rs:97-121 | of the futures queued before and after a run that begins with a pass, the pass was the last to poll exactly those no later pass took |
| LastPolls.SecondWakerTakesOver | crates/guestpy-core/src/driver/host_futures.rs:97-121 | a run of two passes with different wakers that leaves a pending future to the second |
| HostFutures.PendingHostFutures.HasNothing | crates/guestpy-core/src/driver/host_futures.rs:67-71 | answers whether queue, open batches and ready list are all empty |
| HostFutures.PendingHostFutures.RegisterFuture | crates/guestpy-core/src/driver/host_futures.rs:77-95 | the new future is queued last |
| HostFutures.PendingHostFutures.TakeEntries | crates/guestpy-core/src/driver/host_futures.rs:32-39 | the whole queue is moved out and counted |
| HostFutures.PendingHostFutures.SettleBatch | crates/guestpy-core/src/driver/host_futures.rs:41-45 | survivors return in front of the queue, results join the ready list behind what was there, and the count does not underflow |
| HostFutures.PendingHostFutures.DrainReady | crates/guestpy-core/src/driver/host_futures.rs:47-49 | all ready results are moved out |
| HostFutures.BatchIsSplit | crates/guestpy-core/src/driver/host_futures.rs:106-119 | each future of a batch stands at its place among the survivors if its poll was pending, and with its result at its place among the results if not |
| HostFutures.PendingHostFutures.PollAll | crates/guestpy-core/src/driver/host_futures.rs:97-121 | each queued future is polled once in order with the given waker; survivors keep their order ahead of everything registered meanwhile, and the ready list ends with the results in the order of the queue; of the futures then queued this pass was the last to poll exactly those registered before it; and every execution with re-entrant calls is a run of the state machine |
| HostFutures.PendingHostFutures.Publish | crates/guestpy-core/src/driver/host_futures.rs:127-170 | succeeds if and only if no delivery fails, and then every drained result was resolved or found cancelled; every execution is a run of the state machine |
| Coroutine.AsyncRuntime.Advance | crates/guestpy-core/src/driver/runtime.rs:151-158 | an advance fails if and only if a delivery of a ready result or the step of the loop does; an idle loop with host futures outstanding is reported as blocked, and nothing else is |
| Coroutine.AsyncDriverSlot.Ensure | crates/guestpy-core/src/driver/runtime.rs:55-65 | a driver is made once and kept |
| Coroutine.CoroutineFuture.Stepped | crates/guestpy-core/src/driver/coroutine.rs:47-73 | a step fails if and only if the driver, the task, a delivery or the loop does, and each is tried only after those before it; the guest task is made on the first poll that gets this far; blocked and idle tell whether host futures are outstanding |
| Coroutine.CoroutineFuture.LastPass | crates/guestpy-core/src/driver/coroutine.rs:186-196 | the last pass polls every future queued when it begins with the waker, and the waker is woken if and only if something is ready after it |
| Coroutine.CoroutineFuture.PollActive | crates/guestpy-core/src/driver/coroutine.rs:147-200 | once the guest is active: the answer in every case, a failure if and only if the poll is aborted or the step fails, else the extracted result if and only if the task is done, else pending; the futures queued on entry are polled first with the waker, whatever the answer; the wake-up guarantee; and exactly when the waker is woken at once |
| Coroutine.CoroutineFuture.Poll | crates/guestpy-core/src/driver/coroutine.rs:130-200 | the answer in every case; and no lost wake-up: a pending poll has woken its waker, or polled with it a sleep within the clamped delay plus slack while its first pass still holds exactly the futures no pass of the step took, or ended with a pass after which nothing is ready and which was the last to poll, with this waker, exactly those queued futures that were registered before it; and exactly when it wakes at once |
| Timer.PendingSleepIsPrompt | crates/guestpy-core/src/driver/timer.rs:24-55 | after any history a pending poll leaves a sleep that is still ahead and ends within the delay, the slack and the clock advance |
| Timer.SleepDoesNotDrift | crates/guestpy-core/src/driver/timer.rs:28-45 | polling for one fixed instant keeps the sleep of the first poll as long as it is pending |
| Timer.ClampBounds | crates/guestpy-core/src/driver/coroutine.rs:104-115 | clamping takes the least of delay, remaining budget and poll interval |
| Timer.SleepRespectsDeadline | crates/guestpy-core/src/driver/timer.rs:24-55 | deadline, clamp and timer compose: a pending sleep ends by the end of the budget plus slack and clock advance |
| Timer.ReadyOnlyIfClockMovesWithinPoll | crates/guestpy-core/src/driver/timer.rs:28-50 | a poll is ready exactly when the clock passes the end of the sleep within that poll |
| Timer.WaitTimerNeverFinishes | crates/guestpy-core/src/driver/timer.rs:28-38 | an elapsed timer is armed again, so waiting out a positive delay never finishes while each poll sees one clock reading |
| Timer.ReusableTimer.Poll | crates/guestpy-core/src/driver/timer.rs:24-55 | the two fields change exactly as the transition function says, and the sleep was last polled with the given waker |
| Policy.DeadlineIsExact | crates/guestpy-core/src/policy.rs:24-54 | while readings fit in 64 bits a deadline expires exactly when its budget has passed, and the remaining time is zero exactly then |
| Policy.ArmingSaturates | crates/guestpy-core/src/policy.rs:24-44 | a budget past the last representable instant counts as not armed, exactly then, and never expires |
| Policy.AbortRulesAgree | crates/guestpy-core/src/policy.rs:149-183 | the rule that asks for an abort, the one that names it and the one that classifies outcomes agree |
| Policy.Deadline.Arm | crates/guestpy-core/src/policy.rs:24-32 | arming stores the saturated end of the budget |
| Policy.ExecutionPolicy.Begin | crates/guestpy-core/src/policy.rs:131-147 | a tripped signal refuses and changes nothing; a running deadline is not restarted |
| Activity.DropIsBalanced | crates/guestpy-core/src/guest/registry.rs:68-73 | both balance checks hold whenever a live guard is dropped |
| Activity.StepKeepsInv | crates/guestpy-core/src/guest/activity.rs:21-45 | every activation and every drop keeps depths, stack length and deadlines consistent |
| Activity.EveryRunIsBalanced | crates/guestpy-core/src/guest/activity.rs:56-78 | for every interleaving, with guards dropped in any order, each depth is the number of live guards and the stack length their total; an armed deadline belongs to an active operation |
| Activity.IdleIsInv | crates/guestpy-core/src/guest/activity.rs:17-19 | a runtime with nobody active satisfies the invariant |
| Activity.DeadlineIsFixed | crates/guestpy-core/src/guest/activity.rs:21-45 | while a guest stays active its deadline does not move |
| Activity.OutermostDecides | crates/guestpy-core/src/guest/activity.rs:21-31 | an outermost operation starts the budget, an outermost cleanup never does, a rejected one changes nothing |
| Activity.DropUndoesActivate | crates/guestpy-core/src/guest/activity.rs:73-78 | dropping a guard right away restores the whole state |
| Activity.Guarded | crates/guestpy-core/src/guest/mod.rs:156-172 | a guarded call returns to the state it started in, whatever it calls, except for guests closed on the way, and succeeds exactly if it was not rejected and its body succeeds |
| Activity.EnterGuest | crates/guestpy-core/src/guest/mod.rs:98-123 | entering a guest restores stack, depths and deadlines, and succeeds exactly if it is open, innermost already or not rejected, and its body succeeds |
| Activity.Eval | crates/guestpy-core/src/guest/mod.rs:446-459 | properly nested entries and closings, of closed or innermost guests too, restore the stack, all depths and all deadlines, on success and failure; exactly which of them succeed; guests are closed if and only if a closing gets to them and succeeds |
| Activity.EvalAll | crates/guestpy-core/src/guest/mod.rs:98-172 | so does any sequence of them |
| Activity.GuestActivity.Begin | crates/guestpy-core/src/guest/activity.rs:21-31 | exactly the transition of the state machine, or a refusal that changes nothing |
| Activity.GuestActivity.Finish | crates/guestpy-core/src/guest/activity.rs:33-45 | exactly the transition of the state machine |
| Activity.OpenGuard | crates/guestpy-core/src/guest/activity.rs:56-62 | depth and shared stack move together as in the state machine |
| Activity.CloseGuard | crates/guestpy-core/src/guest/activity.rs:73-78 | dropping a live guard never fails a balance check and moves as in the state machine |
| NativeLoad.UndoRemovesExactly | crates/guestpy-pyo3/src/native_extensions.rs:306-333 | a rollback removes exactly the entries that are still the same object |
| NativeLoad.UndoKeepsUndeletable | crates/guestpy-pyo3/src/native_extensions.rs:306-333 | an entry whose deletion is refused stays |
| NativeLoad.UndoStopsAtRefusal | crates/guestpy-pyo3/src/native_extensions.rs:306-333 | a rollback takes out exactly the entries behind the last one that is refused: that one and all before it stay |
| NativeLoad.FailureRemovesExactly | crates/guestpy-pyo3/src/native_extensions.rs:379-432 | whatever foreign code did, a failed load ends by removing exactly the entries it inserted that are still the same object |
| NativeLoad.SuccessAddsExactly | crates/guestpy-pyo3/src/native_extensions.rs:379-432 | a successful load adds exactly the missing parents and the module |
| NativeLoad.SucceedsIff | crates/guestpy-pyo3/src/native_extensions.rs:379-432 | a load succeeds, with the module that was created, if and only if there is a spec, every parent is the same object already or absent and insertable, the module is created and insertable, and its code succeeds |
| NativeLoad.FailureRestoresIff | crates/guestpy-pyo3/src/native_extensions.rs:335-432 | a load that fails at a parent, at creation, insertion or execution leaves the table as if only foreign code working elsewhere had run, if and only if its entries can be deleted |
| NativeLoad.LoadedIsPermanent | crates/guestpy-pyo3/src/native_extensions.rs:434-481 | a recorded extension is never replaced, whatever is loaded and edited |
| NativeLoad.OneModuleForEachName | crates/guestpy-pyo3/src/native_extensions.rs:434-481 | over any sequence of loads, with foreign code editing the table between them, a dotted name keeps one content and one module object |
| NativeLoad.FailedLoad | crates/guestpy-pyo3/src/native_extensions.rs:434-470 | a failed load records nothing; one refused before anything runs changes nothing; without interference a failed one restores the table if and only if its entries can be deleted |
| NativeLoad.LoadDecides | crates/guestpy-pyo3/src/native_extensions.rs:434-481 | the answer of every load: the recorded module for the same contents, each refusal under its own condition, and the created module, then recorded, if and only if the loader succeeds |
| NativeExtensions.NativeExtensionRegistry.Rollback | crates/guestpy-pyo3/src/native_extensions.rs:319-333 | the loop has exactly the effect of `NativeLoad.Undo`, child first and parents last to first |
| NativeExtensions.NativeExtensionRegistry.RegisterParents | crates/guestpy-pyo3/src/native_extensions.rs:335-366 | the loop has exactly the effect of `NativeLoad.Register` |
| NativeExtensions.NativeExtensionRegistry.ExecuteLoader | crates/guestpy-pyo3/src/native_extensions.rs:379-432 | exactly the effect of `NativeLoad.Execute` |
| NativeExtensions.NativeExtensionRegistry.Load | crates/guestpy-pyo3/src/native_extensions.rs:434-481 | exactly the effect and answer of `NativeLoad.Load` |
| Arguments.BindMatches | crates/guestpy-core/src/marshal/args.rs:90-250 | binding succeeds if and only if the call matches the signature; a signature with remaining keywords does not refuse a repeated parameter |
| Arguments.BindIsExactIff | crates/guestpy-core/src/marshal/args.rs:234-250 | the exact condition under which binding decides as section 6.3.4 of the Python Language Reference |
| Arguments.RepeatIsAccepted | crates/guestpy-core/src/marshal/args.rs:234-250 | a call with a repeated parameter that is accepted |
| Arguments.NoArgumentLost | crates/guestpy-core/src/marshal/args.rs:40-76 | each argument of a bound call is the value of a parameter or among the remaining ones |
| Arguments.BindGives | crates/guestpy-core/src/marshal/args.rs:40-76 | each parameter of a bound call has the positional argument of its slot, else the keyword argument of its name, else nothing, and the positional arguments beyond the last slot remain |
| Arguments.SlotsCount | crates/guestpy-core/src/marshal/args.rs:40-64 | the slot of a parameter is the number of parameters before it that are not keyword-only |
| Arguments.RemainingKeywords | crates/guestpy-core/src/marshal/args.rs:234-250 | the remaining keywords are exactly those no parameter takes, each once and in the order of the call |
| Arguments.BindRefuses | crates/guestpy-core/src/marshal/args.rs:90-220 | a refused call is told the first required parameter that is missing, else the surplus of positional arguments, else the first keyword no parameter takes |
| Args.Args.ValueOf | crates/guestpy-core/src/marshal/args.rs:40-64 | the value and the one flag each kind of parameter consumes |
| Args.Args.RestValues | crates/guestpy-core/src/marshal/args.rs:66-76 | the values from an index on, all of them marked |
| Args.Args.RestKeywords | crates/guestpy-core/src/marshal/args.rs:234-250 | exactly the keywords nobody consumed, all of them marked |
| Args.Args.Finish | crates/guestpy-core/src/marshal/args.rs:90-116 | no error if and only if everything was consumed; otherwise the surplus count or the first unused keyword |
| Args.Args.Bind | crates/guestpy-core/src/marshal/args.rs:40-250 | the accessors in declaration order and then `finish` compute the declarative binding, with the same first error |
| Args.Args.SplitReceiver | crates/guestpy-core/src/marshal/args.rs:292-301 | the receiver leaves the arguments as if they had come without it |
| Args.Args.BindMethod | crates/guestpy-core/src/marshal/args.rs:292-301 | a method call binds if and only if its receiver is there and the other arguments match, with remaining keywords too |
| BundleNames.ValidNames | crates/guestpy-core/src/bundle.rs:234-256 | a dotted name is refused as empty or as bad: bad exactly if a component is empty, starts with a digit or contains anything but ASCII letters, digits and underscores |
| BundleNames.ComponentsOfStem | crates/guestpy-core/src/bundle.rs:300-306 | cutting the suffix off the file name is cutting it off the path, so the suffix is always there to be cut |
| BundleNames.OriginOfEntry | crates/guestpy-core/src/bundle.rs:258-330 | the dotted name computed from an accepted source path is valid and leads back to that path |
| BundleNames.BareInitialiser | crates/guestpy-core/src/bundle.rs:318-325 | only an initialiser outside every directory is accepted without naming a module |
| BundleNames.EntryOfOrigin | crates/guestpy-core/src/bundle.rs:258-330 | the path of a valid name leads back to it, except exactly for a plain module called as an initialiser |
| BundleNames.SharedOrigin | crates/guestpy-core/src/bundle.rs:258-266 | a package and a module called as its initialiser have the same path |
| Bundles.SlashesOnly | crates/guestpy-core/src/bundle.rs:288-290 | each backslash of a path becomes a slash and nothing else changes |
| Bundles.LastFileStands | crates/guestpy-core/src/bundle.rs:288-298 | every file stands with its own contents unless a later one has the same path, and exactly the files that are no sources are data |
| Bundles.FirstBadNameIsReported | crates/guestpy-core/src/bundle.rs:268-285 | of several bad names the first is reported, and without one every module is there |
| Bundles.FillErrors | crates/guestpy-core/src/bundle.rs:288-336 | reading fails if and only if a source has a bad name or is not text; the bundle is spoilt if and only if there is a bare initialiser |
| BundleRuns.SameOrigin | crates/guestpy-core/src/bundle.rs:258-266 | two valid names have one path if and only if they are the same module or a package and its plain `__init__` module |
| BundleRuns.CleanIff | crates/guestpy-core/src/bundle.rs:268-336 | in any sequence of additions nothing goes wrong if and only if each of them is fine by itself |
| BundleRuns.LastWriteStands | crates/guestpy-core/src/bundle.rs:268-336 | each file holds what the last addition writing its path gave |
| BundleRuns.LastAdditionProvides | crates/guestpy-core/src/bundle.rs:268-336 | each module is what the last addition providing it gave, wherever later ones write |
| BundleRuns.HoldsUnlessOverwritten | crates/guestpy-core/src/bundle.rs:268-381 | after any additions every module stands in the file at its origin if and only if for no module the last addition that writes its path left other bytes there |
| BundleRuns.OverwriterIs | crates/guestpy-core/src/bundle.rs:268-381 | only data put at its path, its initialiser module or the package around it can overwrite a module |
| BundleRuns.FilledIsSourced | crates/guestpy-core/src/bundle.rs:288-336 | in a bundle filled from files each module stands in the file at its origin, and the path leads back to the module |
| BundleRuns.LastFileProvides | crates/guestpy-core/src/bundle.rs:288-336 | every source file becomes the module of its path unless a later one provides it |
| BundleRuns.InitialiserOverwritesPackage | crates/guestpy-core/src/bundle.rs:268-285 | adding a module called as an initialiser overwrites the file of its package |
| BundleRuns.DataOverwritesModule | crates/guestpy-core/src/bundle.rs:372-381 | data put at the path of a module overwrites its file and leaves the module |
| Bundles.ChainIsPrefixes | crates/guestpy-core/src/bundle.rs:388-402 | climbing from parent to parent checks exactly the proper prefixes |
| Bundles.OneRoot | crates/guestpy-core/src/bundle.rs:404-409 | a bundle has a root if and only if it is not empty and every name is under it |
| BundleBuilder.BundleBuilder.AddModule | crates/guestpy-core/src/bundle.rs:268-285 | exactly the effect of `Bundles.InsertModule` |
| BundleBuilder.BundleBuilder.AddEntry | crates/guestpy-core/src/bundle.rs:288-336 | exactly the effect and refusal of `Bundles.InsertEntry` |
| BundleBuilder.BundleBuilder.AddData | crates/guestpy-core/src/bundle.rs:372-381 | exactly the effect of `Bundles.InsertData` |
| BundleBuilder.BundleBuilder.HasParents | crates/guestpy-core/src/bundle.rs:389-401 | the climbing loop answers whether every ancestor is a package |
| BundleBuilder.BundleBuilder.Build | crates/guestpy-core/src/bundle.rs:383-418 | succeeds if and only if there was no error and every proper prefix of every module is a package; the root is the one name everything is under |
| Classes.LineageClosed | crates/guestpy-core/src/host/class.rs:332-342 | a lineage contains the host bases of everything in it |
| Classes.LineageIsInherited | crates/guestpy-core/src/host/class.rs:332-342 | a lineage lists a declaration and exactly what it inherits from, at any depth |
| Classes.AbsorbCloses | crates/guestpy-core/src/catalog.rs:143-162 | the registered classes are closed under host bases after any absorption, and the first registration of a payload stays |
| Classes.AbsorbAddsLineages | crates/guestpy-core/src/catalog.rs:143-162 | an absorption registers nothing but what the given declarations inherit from |
| Classes.Realised | crates/guestpy-core/src/host/class.rs:535-615 | realising a registered class fails exactly as creating it from scratch would, before or after the class is made, and otherwise gives the memoised object |
| Classes.CreateKeepsInv | crates/guestpy-core/src/host/class.rs:586-614 | a new class has the memoised objects of its bases as bases and moves no other |
| Classes.RunKeepsInv | crates/guestpy-core/src/host/class.rs:485-615 | the registry and the memo stay consistent over any sequence of absorptions and realisations |
| Classes.EveryRun | crates/guestpy-core/src/host/class.rs:485-615 | in every run a class is reported as missing if and only if it is not registered, one whose static members do not fail is created at most once, and the result is the class tree its declaration gives |
| Classes.CreatableIff | crates/guestpy-core/src/host/class.rs:485-615 | a declaration can be created if and only if everything in its lineage has importable bases and neither it nor its static members fail |
| Classes.FirstErrorDecides | crates/guestpy-core/src/host/class.rs:485-612 | the first base that fails gives the error; with all bases there the class itself does, and then its static members |
| Classes.CreatedOnceIff | crates/guestpy-core/src/host/class.rs:601-612 | every run creates a class at most once if and only if it is not one that gets made and then has a static member fail |
| Classes.MemoIsPermanent | crates/guestpy-core/src/host/class.rs:543-612 | what is memoised for a payload in a run is never replaced, and no class object ever changes |
| Classes.MemoRepresents | crates/guestpy-core/src/host/class.rs:485-515 | a memoised class unfolds to its declaration, down to every base of every base |
| Classes.MostDerivedWins | crates/guestpy-core/src/host/class.rs:517-533 | if one metaclass is below all others the loop finds it, whatever their order |
| ClassRealiser.RealisationCache.AbsorbModule | crates/guestpy-core/src/catalog.rs:143-162 | the loops intern exactly the lineages, first registration wins |
| ClassRealiser.RealisationCache.Bases | crates/guestpy-core/src/host/class.rs:485-515 | the loop gives the bases in order, with the native base in front if and only if no host base is among them |
| ClassRealiser.RealisationCache.RealiseClass | crates/guestpy-core/src/host/class.rs:535-615 | exactly the effect of `Classes.Realise` |
| ClassRealiser.Metaclass | crates/guestpy-core/src/host/class.rs:517-533 | the loop computes `Classes.Winner` |
| Exceptions.Realised | crates/guestpy-core/src/host/exception.rs:67-99 | given acyclic bases, realising an exception fails exactly as creating its chain from scratch would and otherwise gives the memoised object |
| Exceptions.EveryRun | crates/guestpy-core/src/host/exception.rs:67-99 | each exception class is created at most once, every answer is what the chain of bases determines, and the class answered unfolds to that chain |
| Exceptions.ChainExists | crates/guestpy-core/src/host/exception.rs:67-99 | with acyclic bases every key starts a chain that ends at an unregistered key, a builtin or a guest class |
| Exceptions.ChainDecides | crates/guestpy-core/src/host/exception.rs:67-99 | whether a key can be created and with which error, read off its chain: the end is looked at first, and else the refused key nearest the end decides |
| Exceptions.ExceptionRealiser.HostException | crates/guestpy-core/src/host/exception.rs:67-99 | the recursion with its memo has exactly the effect of `Exceptions.Realise` |
| Unions.ScanDecides | crates/guestpy-macros/src/derive.rs:208-232 | the first leaf that takes the value or breaks decides, and none does if and only if all refuse |
| Unions.ConversionScans | crates/guestpy-macros/src/derive.rs:208-232 | conversion of any shape follows the scan of its leaves |
| Unions.UnionsFlatten | crates/guestpy-macros/src/derive.rs:208-257 | for any tree of unions conversion is the left-to-right scan of the leaves, and a value that fits none is answered with the names of all leaves, each once |
| Unions.DescribePushes | crates/guestpy-macros/src/derive.rs:233-255 | describing a tree of unions pushes the names of its leaves from left to right |
| Unions.PushAllIsFirstOccurrences | crates/guestpy-core/src/marshal/describe.rs:20-26 | pushing keeps the first occurrence of each name, without repetition or loss |
| Unions.RenderReads | crates/guestpy-core/src/marshal/describe.rs:29-37 | how a list of expected names reads: nothing, one name, or names parted by commas with an "or" before the last |
| Unions.Expected.DescribeShape | crates/guestpy-core/src/marshal/describe.rs:12-26 | the list filled in place is the described one |

## Left out

- Guest programs beyond imports, bindings, export lists, `raise` and `try`: code that deletes or
  overwrites attributes of other modules, and interrupts or aborts raised inside guest code.
- Failures of setting attributes and dictionary items on module objects, and the cache of compiled code.
- `native.declare` and host members that import again while they are realised, and metaclass or
  subclass hooks: they are single steps here.
- Bundles mounted while an import is running: mounts stand between the calls of a life in `MountedRuns`.
- Attributes that a new module object has before the importer seeds it, and those of native modules and
  extensions, which their own loaders make.
- Overlay.SourcesAreValid: says nothing about the native modules and denied names, which are only copied.
- The ambient importer behind delegated imports: a set of imports that succeed.
- `leaf` and `qualified` on delegated modules: attribute access in the ambient interpreter.
- The loop of `drive`, cancelling and closing tasks, and taking the driver out of its slot: thin loops
  over foreign calls.
- Fairness and rounding of the event loop and of the sleep implementation: a step is an oracle, and a
  sleep ends at its nanosecond.
- Which guest stands on top of the stack after guards are dropped out of order: `pop` ignores the guest,
  so only the length of the stack is an invariant then.
- Activity.GuestRegistry.PopInnermost: the table of registered guests and its weak references are not modelled.
- Conversion of bound arguments: values are taken as they come.
- Args.Args.Bind: assumes that the keyword names of a call are distinct, as the caller's dictionary makes them.
- Walking directories, embedded directories and materialised paths: a bundle starts from a list of paths
  and contents.
- Submodules.AttachedIff: judges by its text whether a module's own code binds a name to something else, so it
  says nothing about packages with a star import from another module, native packages and extensions.
- Classes.EveryRun: assumes one declaration for each payload, as the type of the payload gives it, and that
  a declaration that fails does so in each call; of members, namespace and static members only whether
  they fail before or after the class is made is modelled.
- Exceptions.EveryRun: assumes that the registered bases are acyclic; matching of raised exceptions is not modelled.
- NativeLoad.OneModuleForEachName: a poisoned registry lock and the process-wide import lock are not
  modelled; extension code that loads extensions itself is one step.
- Rename rules and generated code other than the attempts and the description of unions.
