# Hierarchical state machine processor — a Dafny model

The Go package `hsm` drives a tree of business entities (an order with its line items, say)
through one action. `Process` runs three phases over the tree. Each phase handles a node's
sub-entities first, through the processor that a resolver picks for each one. Then it handles
the node itself:

1. **syncAndValidate**
   - Children first.
   - Then the first syncer that accepts the node refreshes it, if that syncer says a sync is
     needed for the action.
   - Then the first state machine that accepts the node validates the action.
2. **act**
   - Children first.
   - Then an optional action syncer runs.
   - Then the state machine's transition runs. It is also handed the syncer's error.
3. **save**
   - Compares the tree as it was passed in with the acted tree, key by key.
   - Saves every child on either side, old-only and new-only children included.
   - Writes saved children back into the new tree.
   - Finally hands the old node and the reconciled new one to the repository.

A type-erasure adapter, `WrapProcessor`, lets processors for different concrete entity types
sit in one tree. It refuses an entity of another type with `ErrorInvalidEntityType`.

The model has two layers:

- **Pure functions in `Model`.** Each returns what the Go function returns, an `Out` value and
  an optional error. It also returns the trace of the effectful collaborator calls it made, as
  a `Run`. Those calls are sync, validate, syncer and state-machine actions, and repository
  saves. Each call is tagged with the path of the sub-entity it was made for.
- **Imperative methods in `Engine`.** They follow the Go code loop for loop. Each is proved to
  compute exactly its `Model` function.

Lemmas in `Phases`, `Saving`, `Processing` and `Adapter` prove what the engine promises:

- Children are processed before their parent.
- Each child is processed at most once, through its own processor, and every child exactly once
  when the phase succeeds.
- Results are written back only under the key they were read from.
- The first error stops everything after it.
- The save diff covers every key of both trees.
- Every error was returned by a collaborator, or is one of the engine's own sentinels. Each
  sentinel needs its own cause among the configurations in play: ProcessorNotFound a resolver
  that returns no processor, InvalidEntityType a resolver that returns an adapter, and
  UnprocessableEntity a configuration with no state machine for some entity.

Modules:

- `errors.dfy`: the sentinel errors.
- `types.dfy`: the entity tree, collaborators, configuration and processors.
- `keyorder.dfy`: a fixed visiting order for key sets.
- `calls.dfy`: call traces.
- `model.dfy`: the engine as functions.
- `engine.dfy`: the engine as methods.
- `phases.dfy`, `saving.dfy`, `processing.dfy`, `adapter.dfy`: properties.

Collaborators are modelled as values. The resolver, state machines, syncers and the repository
are records of (pure) functions in the configuration. Entities are immutable values: an
entity's type, its business fields (opaque to the engine) and its sub-entities, two levels of
keys deep. The generic type parameter `E` becomes the entity's `kind`. Narrowing to `E` is the
check `kind == entityKind`.

Statements about error origins range over a *world*: a predicate on configurations that holds
for the top-level configuration and for the configuration of every processor that a resolver
of one of its configurations returns (`Model.Closed`). `Model.CanRaise` says which collaborator
choice in the world each engine sentinel needs.

## Model

| member | source | states |
|---|---|---|
| Errors.SentinelsDistinct | errors.go:7-10 | The four sentinels are pairwise different values. InvalidState is not one the engine raises itself. |
| Types.Entity.SubEntities | types.go:10 | The sub-entity view has exactly the entity's type keys, and under each one exactly that group's children. |
| Types.Entity.UpdateSubEntity | types.go:11 | Succeeds iff the slot exists, and fails with InvalidState otherwise. On success only that child is replaced: the same keys, type and fields, and every other child is unchanged. |
| Types.WrapProcessor | generic.go:7-9 | Builds the adapter that narrows to `entityKind` around the given configuration. |
| Model.FirstMatch | processor.go:276-309 | Returns the first index whose element is accepted, or none iff no element is accepted. |
| Model.GetStateMachineForEntity | processor.go:276-285 | Returns the first state machine whose CanProcess accepts the entity. Fails with UnprocessableEntity iff none does. |
| Model.GetSyncerForEntity | processor.go:287-297 | Returns the first syncer that accepts the entity, or none iff no syncer does. |
| Model.GetSyncerForEntityAndAction | processor.go:299-309 | Returns the first syncer that both accepts the entity and has the action, or none iff there is no such syncer. |
| Model.ChildOrderMembers | processor.go:51-52 | The children loop visits exactly the slots the entity holds. |
| Model.ChildOrderDistinct | processor.go:51-52 | The children loop visits no slot twice. |
| Model.DiffOrderMembers | processor.go:156-216 | The save loop visits exactly the slots held by the old or the new entity. |
| Model.DiffOrderDistinct | processor.go:156-216 | The save loop visits no slot twice. |
| KeyOrder.KeyUnion | processor.go:157-163 | Collecting the keys of both maps yields exactly their union. |
| Engine.Process | processor.go:25-47 | Computes Model.Process: syncAndValidate, then act, then save of the original against the acted entity. The first error returns the entity of the previous phase, and a nil save result returns the acted entity. |
| Engine.SyncAndValidate | processor.go:49-90 | Computes Model.SyncAndValidate: children, then the syncer chosen on the updated entity with NeedSync asked of the original, then the state machine chosen on the original validates the updated one. |
| Engine.Act | processor.go:92-132 | Computes Model.Act: children, then the state machine and action syncer chosen on the updated entity, then the transition with the syncer's error. |
| Engine.Children | processor.go:50-69 | Computes Model.Children over every child, from a copy of the entity. |
| Engine.ChildTypes | processor.go:51-69 | The outer loop computes Model.Children over the slots of the type keys walked so far, and stops at the first error. |
| Engine.ChildrenOfType | processor.go:52-68 | The inner loop computes Model.Children over one type key's slots, appended to the ones already visited. |
| Engine.VisitChild | processor.go:53-67 | One child: ProcessorNotFound when there is no processor; otherwise the child's error, or its result written back with UpdateSubEntity. |
| Engine.Save | processor.go:134-274 | Computes Model.Save, including the both-nil shortcut, the repository call and the no-repository result. |
| Engine.SaveChildren | processor.go:140-163 | Copies and collects both sides' sub-entities and their type keys, then computes Model.SaveChildren over the diff order. |
| Engine.SaveTypes | processor.go:165-252 | The loop over the type keys computes Model.SaveChildren over their slots, and stops at the first error. |
| Engine.SaveType | processor.go:166-251 | One type key: cases 1, 2 and 3 each walk the right key set (old only, new only, or their union). |
| Engine.SaveTyped | processor.go:171-250 | The loop over one type key's entity keys computes Model.SaveChildren over those slots. |
| Engine.SaveSubEntity | processor.go:216-249 | One child: resolve from the old version if present, else the new. ProcessorNotFound when there is none. Save the pair. Write back only when the new side holds the slot and something was saved. |
| Engine.ErasedSyncAndValidate | generic.go:23-29 | Computes Model.Erased for syncAndValidate: narrow or refuse, then delegate. |
| Engine.ErasedAct | generic.go:31-37 | Computes Model.Erased for act. |
| Engine.ErasedSave | generic.go:39-74 | Computes Model.ErasedSave: narrow both sides, delegate, then map the result. |
| Engine.ErasedProcess | generic.go:15-21 | Computes Model.ErasedProcess. |
| Phases.ChildrenShape | processor.go:51-69 | The children loop keeps the entity's keys, type and fields. Every call it makes is for a sub-entity. On success each child holds exactly what its own phase run returned. |
| Phases.ChildrenFacts | processor.go:51-69 | The children loop makes only this phase's kind of calls. Any error it returns was returned by a recorded collaborator call, or is an engine sentinel whose cause the world holds. |
| Phases.ChildStepFacts | processor.go:53-67 | The same, for one child. |
| Phases.ErasedFacts | generic.go:23-37 | The same, through the adapter, whose refusal is InvalidEntityType only when the world's resolvers return adapters. |
| Phases.SyncAndValidateFacts | processor.go:49-90 | syncAndValidate only syncs and validates. Its error was returned by a recorded sync or validation, or is UnprocessableEntity, InvalidEntityType or ProcessorNotFound with its cause in the world. |
| Phases.ActFacts | processor.go:92-132 | act only runs action syncers and transitions. Its error was returned by a recorded action-syncer or transition call, or is a sentinel with its cause in the world. |
| Phases.ChildrenCalls | processor.go:51-69 | The calls under a slot are none, or exactly that child's own run through its resolved processor. On success every child was run. |
| Phases.SyncOwnCalls | processor.go:49-90 | The entity's own calls come after the children. A child error returns at once. On success the last call validated the returned entity. |
| Phases.ActOwnCalls | processor.go:92-132 | The entity's own calls come after the children, and a child error returns at once. |
| Phases.ChildrenFirst | processor.go:49-132 | In both phases no sub-entity call follows one of the entity's own calls. A failing child means the entity's own collaborators are never called. |
| Phases.PhaseChildCalls | processor.go:49-132 | Over a whole phase, each child is processed at most once, through its resolved processor and on its original value. On success every child was processed without error. |
| Phases.ActForwardsSyncerError | processor.go:115-131 | Once a state machine is found, act's last call is its Do. Do receives the action syncer's entity and error (or the entity and no error when no syncer has the action), and act returns exactly Do's result. |
| Saving.SaveChildrenShape | processor.go:165-252 | The save loop keeps the new entity's keys, type and fields. Each visited child of the new side becomes its save result, or stays as it was when that is nil. |
| Saving.SaveChildrenCalls | processor.go:165-252 | The calls under each slot are none, or exactly that child's save with its old and new versions. On success every slot was saved. |
| Saving.ErasedSaveFacts | generic.go:39-74 | The adapter's save makes only repository calls. Its error is a repository's, or InvalidEntityType or ProcessorNotFound with its cause in the world. |
| Saving.SaveChildrenFacts | processor.go:165-252 | The save loop makes only repository calls. Its error is a repository's, or InvalidEntityType or ProcessorNotFound with its cause in the world. |
| Saving.SaveStepFacts | processor.go:216-249 | The same, for one child. |
| Saving.SaveFacts | processor.go:134-274 | save makes only repository calls. Its error is a repository's, or InvalidEntityType or ProcessorNotFound with its cause in the world. save never raises UnprocessableEntity itself. |
| Saving.PersistFacts | processor.go:254-273 | The final step adds only repository calls, and any error it returns is the repository's. |
| Saving.SaveOutcome | processor.go:134-274 | Both nil: no call and nil. Otherwise a child error returns nil with that error. With a repository there is exactly one Save call, with the old entity and the reconciled new one (nil when new is nil), and its answer is returned (nil on error). Without a repository the reconciled new entity is returned. |
| Saving.SaveVisitsDiff | processor.go:156-252 | Every slot of either side is saved at most once, with both versions, through the processor resolved from the old version if there is one. No other slot is saved. On success every slot was saved. |
| Saving.SaveReconciles | processor.go:184-251 | On success the reconciled entity has the new entity's keys, and each child is replaced by its saved version when one was returned. |
| Processing.ProcessStopsAfterSync | processor.go:25-29 | A syncAndValidate error returns the input entity with that error. Only syncs and validations were called. |
| Processing.ProcessStopsAfterAct | processor.go:31-34 | An act error returns the synced entity with that error. No repository was called. |
| Processing.ProcessAfterSave | processor.go:36-46 | After both phases succeed: a save error returns the acted entity; a nil save result returns the acted entity; otherwise the saved one is returned. The calls are the three phases' in order. |
| Processing.ProcessErrorsIn | processor.go:25-47 | In any world holding the configuration, every error Process returns was returned by a recorded collaborator call, or is a sentinel whose cause the world holds. |
| Processing.ProcessorNotFoundFromResolver | processor.go:53-56 | A ProcessorNotFound that no collaborator returned means some resolver of the world returned no processor (raised at processor.go:55, 99, 174, 189 and 227). |
| Processing.InvalidEntityTypeFromAdapter | generic.go:15-56 | An InvalidEntityType that no collaborator returned means some resolver of the world returned an adapter: only the adapter's narrowing raises it. |
| Processing.UnprocessableEntityFromSelection | processor.go:276-285 | An UnprocessableEntity that no collaborator returned means some configuration of the world has no state machine for some entity. |
| Processing.ProcessErrors | processor.go:25-47 | Every error Process returns is one of the engine's sentinels or was returned by a recorded collaborator call. |
| Processing.InvalidStateOnlyFromCollaborators | errors.go:8 | A Process failing with InvalidState got it from a collaborator. |
| Adapter.AdapterRefusesWrongType | generic.go:15-56 | An entity of another concrete type is refused with InvalidEntityType and no call, by Process, syncAndValidate, act, and save on either side. |
| Adapter.AdapterDelegates | generic.go:15-37 | On its own type the adapter returns exactly the wrapped processor's result and calls for Process, syncAndValidate and act. |
| Adapter.AdapterSave | generic.go:39-74 | On its own type the adapter's save makes the wrapped save's calls. On error it returns the caller's new entity with that error, otherwise the wrapped result. Both nil gives nil and no call. |

## Left out

- `context.Context` is not modelled. No cancellation, deadlines or values.
- The collaborators have no real implementations. State machines, syncers, repositories and the resolver are arbitrary functions in the configuration. Their side effects appear only as the recorded calls.
- Queries are not recorded in the call trace. These are CanProcess, NeedSync and HasAction, which the model treats as pure. The trace holds only the effectful calls.
- Concurrency is not modelled. The engine is sequential.
- Go map iteration order is not modelled. Go visits sub-entities and type keys in an unspecified order. The model fixes one order, ascending by key. No property depends on that choice beyond "each key once".
- isNilProcessor (processor.go:311-313) is not modelled as a reflection check. A nil processor or a typed nil pointer is the resolver returning `None`.
- The checks for ambiguous selection are not modelled. The TODO notes in getStateMachineForEntity and the two syncer getters suggest rejecting more than one match; the code takes the first match, and so does the model.
- Mutation through pointers and aliasing are not modelled. Entities are values, so `Copy` is the identity.
- The widening check at generic.go:67-71 is left out. The model cannot express its failure branch, because every saved entity is already a value of the abstract entity type.
- Types.Entity.UpdateSubEntity is a canonical implementation: replace an existing child, fail with InvalidState on a missing one. Concrete entity types supply their own in Go. The engine only calls it on slots it just read, so that failure branch is never taken by the engine.
- `actionParams` is untyped in Go. The model treats it as an opaque string. Business fields are an opaque string map.
- Processing.ProcessorNotFoundFromResolver, Processing.InvalidEntityTypeFromAdapter and Processing.UnprocessableEntityFromSelection name the cause of each sentinel within the world, not the visited slot or entity at which it arose, because the trace records only effectful calls.
- The wrapped type is assumed to be a concrete type. In Go, `entity.(E)` (generic.go:16, 24, 32, 42, 51) accepts every concrete type implementing `E` when `E` is an interface type, and WrapProcessor can wrap another adapter (`E` the abstract entity type). The model's narrowing is only the kind equality check, so neither case is represented.
- Two behaviours worth noting, which the model keeps as written:
  - syncAndValidate picks the syncer on the child-updated entity but asks NeedSync, and picks the state machine, on the entity as passed in (processor.go:71-79).
  - save returns nil, not a partial entity, on every error (processor.go:169-251).
