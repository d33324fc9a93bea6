/** What the type-erasure adapter guarantees (generic.go): it refuses an entity of another
    concrete type before calling the processor it wraps, and otherwise returns exactly what
    that processor returns, widened to the abstract entity type. */
module Adapter {
  import opened Errors
  import opened Types
  import opened Calls
  import opened Model

  /** The adapter's answer to an entity of the wrong concrete type. */
  const Refused: Run<Option<Entity>> := Run(Out(None, Some(InvalidEntityType)), [])

  /** An entity of another concrete type is refused with InvalidEntityType by every method
      of the adapter, before the wrapped processor is called (no call is made). In save this
      holds for either argument, whatever the other one is. */
  lemma AdapterRefusesWrongType(phase: Phase, kind: string, cfg: Config, e: Entity, action: Action, params: ActionParams)
    requires e.kind != kind
    ensures Erased(phase, WrapProcessor(kind, cfg), e, action, params) == Refused
    ensures ErasedProcess(WrapProcessor(kind, cfg), e, action, params) == Refused
    ensures forall other :: ErasedSave(WrapProcessor(kind, cfg), Some(e), other) == Refused
    ensures forall other :: ErasedSave(WrapProcessor(kind, cfg), other, Some(e)) == Refused
  {
  }

  /** On an entity of its concrete type the adapter is transparent: Process, syncAndValidate
      and act return exactly what the wrapped processor returns, with the same calls. */
  lemma AdapterDelegates(phase: Phase, cfg: Config, e: Entity, action: Action, params: ActionParams)
    ensures var p := WrapProcessor(e.kind, cfg);
      var inner := if phase == SyncPhase then SyncAndValidate(cfg, e, action, params) else Act(cfg, e, action, params);
      && Erased(phase, p, e, action, params) == Erased(phase, Direct(cfg), e, action, params)
      && Erased(phase, p, e, action, params).out == Out(Some(inner.out.value), inner.out.err)
      && Erased(phase, p, e, action, params).calls == inner.calls
    ensures var p := WrapProcessor(e.kind, cfg);
      var inner := Process(cfg, e, action, params);
      ErasedProcess(p, e, action, params) == Run(Out(Some(inner.out.value), inner.out.err), inner.calls)
  {
  }

  /** The adapter's save on arguments of its concrete type (absent ones pass through as
      absent): it makes exactly the wrapped save's calls; on the wrapped save's error it
      returns the caller's own new entity with that error; when the wrapped save returns
      nothing so does the adapter; otherwise it returns that same entity. */
  lemma AdapterSave(kind: string, cfg: Config, oldEntity: Option<Entity>, newEntity: Option<Entity>)
    requires oldEntity.Some? ==> oldEntity.value.kind == kind
    requires newEntity.Some? ==> newEntity.value.kind == kind
    ensures var r := ErasedSave(WrapProcessor(kind, cfg), oldEntity, newEntity);
      var inner := Save(cfg, oldEntity, newEntity);
      && r.calls == inner.calls
      && (inner.out.err.Some? ==> r.out == Out(newEntity, inner.out.err))
      && (inner.out.err.None? ==> r.out == inner.out)
      && (oldEntity.None? && newEntity.None? ==> r == Run(Out(None, None), []))
  {
    var inner := Save(cfg, oldEntity, newEntity);
    assert ErasedSave(WrapProcessor(kind, cfg), oldEntity, newEntity) ==
      if inner.out.err.Some? then Run(Out(newEntity, inner.out.err), inner.calls)
      else if inner.out.value.None? then Run(Out(None, None), inner.calls)
      else Run(Out(Some(inner.out.value.value), None), inner.calls);
    if oldEntity.None? && newEntity.None? {
      assert inner == Run(Out(None, None), []);
    }
  }
}
