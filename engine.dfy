/** The engine as the source writes it (processor.go, generic.go): methods whose loops walk
    the sub-entity maps and rebind the changed entity as each child is folded back. Each
    method is proved to compute exactly what its function in Model specifies. */
module Engine {
  import opened Errors
  import opened Types
  import opened KeyOrder
  import opened Calls
  import Model

  // Facts about the visiting order that the loops below rely on.

  lemma {:induction false} ChildSlotsPrefix(e: Entity, ts: seq<TypeKey>, n: nat)
    requires n <= |ts|
    ensures Model.ChildSlots(e, ts[..n]) <= Model.ChildSlots(e, ts)
    decreases |ts| - n
  {
    if n < |ts| {
      var ts' := ts[..|ts| - 1];
      assert ts'[..n] == ts[..n];
      ChildSlotsPrefix(e, ts', n);
    } else {
      assert ts[..n] == ts;
    }
  }

  lemma {:induction false} DiffSlotsPrefix(oldEntity: Option<Entity>, newEntity: Option<Entity>, ts: seq<TypeKey>, n: nat)
    requires n <= |ts|
    ensures Model.DiffSlots(oldEntity, newEntity, ts[..n]) <= Model.DiffSlots(oldEntity, newEntity, ts)
    decreases |ts| - n
  {
    if n < |ts| {
      var ts' := ts[..|ts| - 1];
      assert ts'[..n] == ts[..n];
      DiffSlotsPrefix(oldEntity, newEntity, ts', n);
    } else {
      assert ts[..n] == ts;
    }
  }

  /** The slots visited once the first `j` entity keys of a type key are done. */
  ghost function Visited(done: seq<Slot>, t: TypeKey, ks: seq<EntityKey>, j: nat): seq<Slot>
    requires j <= |ks|
  {
    done + Model.SlotsIn(t, ks[..j])
  }

  lemma VisitedStep(done: seq<Slot>, t: TypeKey, ks: seq<EntityKey>, j: nat)
    requires j < |ks|
    ensures Visited(done, t, ks, j + 1) == Visited(done, t, ks, j) + [Slot(t, ks[j])]
  {
    assert Model.SlotsIn(t, ks[..j + 1]) == Model.SlotsIn(t, ks[..j]) + [Slot(t, ks[j])];
  }

  lemma VisitedPrefix(done: seq<Slot>, t: TypeKey, ks: seq<EntityKey>, j: nat)
    requires j <= |ks|
    ensures Visited(done, t, ks, j) <= Visited(done, t, ks, |ks|)
  {
    assert Model.SlotsIn(t, ks[..j]) == Model.SlotsIn(t, ks)[..j];
    assert ks[..|ks|] == ks;
  }

  lemma VisitedStart(done: seq<Slot>, t: TypeKey, ks: seq<EntityKey>)
    ensures Visited(done, t, ks, 0) == done
  {
  }

  lemma VisitedEnds(done: seq<Slot>, t: TypeKey, ks: seq<EntityKey>)
    ensures Visited(done, t, ks, |ks|) == done + Model.SlotsIn(t, ks)
  {
    assert ks[..|ks|] == ks;
  }

  /** The entity keys `e` holds under `typeKey`, in visiting order. */
  ghost function HeldKeys(e: Entity, typeKey: TypeKey): seq<EntityKey> {
    Enumerate(Model.EntityKeysOf(Some(e), typeKey))
  }

  lemma ChildSlotsStep(e: Entity, ts: seq<TypeKey>, i: nat)
    requires i < |ts|
    ensures Model.ChildSlots(e, ts[..i + 1]) == Model.ChildSlots(e, ts[..i]) + Model.SlotsIn(ts[i], HeldKeys(e, ts[i]))
  {
    assert ts[..i + 1][..i] == ts[..i];
  }

  lemma HeldKey(e: Entity, typeKey: TypeKey, ks: seq<EntityKey>, j: nat)
    requires ks == HeldKeys(e, typeKey) && j < |ks|
    ensures typeKey in e.groups && ks[j] in e.groups[typeKey].members
  {
    assert ks[j] in ks;
  }

  lemma DiffSlotsStep(oldEntity: Option<Entity>, newEntity: Option<Entity>, ts: seq<TypeKey>, i: nat)
    requires i < |ts|
    ensures Model.DiffSlots(oldEntity, newEntity, ts[..i + 1])
         == Model.DiffSlots(oldEntity, newEntity, ts[..i]) + Model.SlotsIn(ts[i], DiffKeys(oldEntity, newEntity, ts[i]))
  {
    assert ts[..i + 1][..i] == ts[..i];
  }

  /** Once the children loop has failed, visiting further slots changes nothing. */
  lemma {:induction false} ChildrenStopAtError(phase: Model.Phase, cfg: Config, e: Entity, action: Action,
                                               params: ActionParams, xs: seq<Slot>, ys: seq<Slot>)
    requires xs <= ys
    requires Model.Children(phase, cfg, e, action, params, xs).out.err.Some?
    ensures Model.Children(phase, cfg, e, action, params, ys) == Model.Children(phase, cfg, e, action, params, xs)
    decreases |ys|
  {
    if |xs| < |ys| {
      ChildrenStopAtError(phase, cfg, e, action, params, xs, ys[..|ys| - 1]);
    } else {
      assert xs == ys;
    }
  }

  /** Once one type key of the children loop has failed, the remaining type keys change nothing. */
  lemma ChildTypesStop(phase: Model.Phase, cfg: Config, e: Entity, action: Action, params: ActionParams,
                       ts: seq<TypeKey>, n: nat)
    requires n <= |ts|
    requires Model.Children(phase, cfg, e, action, params, Model.ChildSlots(e, ts[..n])).out.err.Some?
    ensures Model.Children(phase, cfg, e, action, params, Model.ChildSlots(e, ts))
         == Model.Children(phase, cfg, e, action, params, Model.ChildSlots(e, ts[..n]))
  {
    ChildSlotsPrefix(e, ts, n);
    ChildrenStopAtError(phase, cfg, e, action, params, Model.ChildSlots(e, ts[..n]), Model.ChildSlots(e, ts));
  }

  /** Once one entity key of a type key has failed, the remaining keys change nothing. */
  lemma VisitedStop(phase: Model.Phase, cfg: Config, e: Entity, action: Action, params: ActionParams,
                    done: seq<Slot>, t: TypeKey, ks: seq<EntityKey>, j: nat)
    requires j <= |ks|
    requires Model.Children(phase, cfg, e, action, params, Visited(done, t, ks, j)).out.err.Some?
    ensures Model.Children(phase, cfg, e, action, params, done + Model.SlotsIn(t, ks))
         == Model.Children(phase, cfg, e, action, params, Visited(done, t, ks, j))
  {
    VisitedPrefix(done, t, ks, j);
    VisitedEnds(done, t, ks);
    ChildrenStopAtError(phase, cfg, e, action, params, Visited(done, t, ks, j), Visited(done, t, ks, |ks|));
  }

  lemma SaveVisitedStop(cfg: Config, oldEntity: Option<Entity>, newEntity: Option<Entity>,
                        done: seq<Slot>, t: TypeKey, ks: seq<EntityKey>, j: nat)
    requires j <= |ks|
    requires Model.SaveChildren(cfg, oldEntity, newEntity, Visited(done, t, ks, j)).out.err.Some?
    ensures Model.SaveChildren(cfg, oldEntity, newEntity, done + Model.SlotsIn(t, ks))
         == Model.SaveChildren(cfg, oldEntity, newEntity, Visited(done, t, ks, j))
  {
    VisitedPrefix(done, t, ks, j);
    VisitedEnds(done, t, ks);
    SaveChildrenStopAtError(cfg, oldEntity, newEntity, Visited(done, t, ks, j), Visited(done, t, ks, |ks|));
  }

  /** Once one type key of save has failed, the remaining type keys change nothing. */
  lemma SaveTypesStop(cfg: Config, oldEntity: Option<Entity>, newEntity: Option<Entity>, ts: seq<TypeKey>, n: nat)
    requires n <= |ts|
    requires Model.SaveChildren(cfg, oldEntity, newEntity, Model.DiffSlots(oldEntity, newEntity, ts[..n])).out.err.Some?
    ensures Model.SaveChildren(cfg, oldEntity, newEntity, Model.DiffSlots(oldEntity, newEntity, ts))
         == Model.SaveChildren(cfg, oldEntity, newEntity, Model.DiffSlots(oldEntity, newEntity, ts[..n]))
  {
    DiffSlotsPrefix(oldEntity, newEntity, ts, n);
    SaveChildrenStopAtError(cfg, oldEntity, newEntity, Model.DiffSlots(oldEntity, newEntity, ts[..n]),
                            Model.DiffSlots(oldEntity, newEntity, ts));
  }

  lemma {:induction false} SaveChildrenStopAtError(cfg: Config, oldEntity: Option<Entity>, newEntity: Option<Entity>,
                                                   xs: seq<Slot>, ys: seq<Slot>)
    requires xs <= ys
    requires Model.SaveChildren(cfg, oldEntity, newEntity, xs).out.err.Some?
    ensures Model.SaveChildren(cfg, oldEntity, newEntity, ys) == Model.SaveChildren(cfg, oldEntity, newEntity, xs)
    decreases |ys|
  {
    if |xs| < |ys| {
      SaveChildrenStopAtError(cfg, oldEntity, newEntity, xs, ys[..|ys| - 1]);
    } else {
      assert xs == ys;
    }
  }

  lemma ChildrenSnoc(phase: Model.Phase, cfg: Config, e: Entity, action: Action, params: ActionParams,
                     xs: seq<Slot>, s: Slot)
    requires e.Has(s)
    requires Model.Children(phase, cfg, e, action, params, xs).out.err.None?
    ensures Model.Children(phase, cfg, e, action, params, xs + [s])
         == Model.ChildStep(phase, cfg, e, action, params, Model.Children(phase, cfg, e, action, params, xs), s)
  {
    assert (xs + [s])[..|xs|] == xs;
  }

  lemma SaveChildrenSnoc(cfg: Config, oldEntity: Option<Entity>, newEntity: Option<Entity>, xs: seq<Slot>, s: Slot)
    requires Model.InDiff(oldEntity, newEntity, s)
    requires Model.SaveChildren(cfg, oldEntity, newEntity, xs).out.err.None?
    ensures Model.SaveChildren(cfg, oldEntity, newEntity, xs + [s])
         == Model.SaveStep(cfg, oldEntity, newEntity, Model.SaveChildren(cfg, oldEntity, newEntity, xs), s)
  {
    assert (xs + [s])[..|xs|] == xs;
  }

  // generic.go: the adapter.

  method ErasedSyncAndValidate(p: Processor, e: Entity, action: Action, params: ActionParams)
    returns (r: Out<Option<Entity>>, calls: seq<Call>)
    ensures Run(r, calls) == Model.Erased(Model.SyncPhase, p, e, action, params)
    decreases Height(e), 2, 0
  {
    if p.Wrapped? && e.kind != p.entityKind {
      return Out(None, Some(InvalidEntityType)), [];
    }
    var inner;
    inner, calls := SyncAndValidate(p.config, e, action, params);
    r := Out(Some(inner.value), inner.err);
  }

  method ErasedAct(p: Processor, e: Entity, action: Action, params: ActionParams)
    returns (r: Out<Option<Entity>>, calls: seq<Call>)
    ensures Run(r, calls) == Model.Erased(Model.ActPhase, p, e, action, params)
    decreases Height(e), 2, 0
  {
    if p.Wrapped? && e.kind != p.entityKind {
      return Out(None, Some(InvalidEntityType)), [];
    }
    var inner;
    inner, calls := Act(p.config, e, action, params);
    r := Out(Some(inner.value), inner.err);
  }

  method ErasedSave(p: Processor, oldEntity: Option<Entity>, newEntity: Option<Entity>)
    returns (r: Out<Option<Entity>>, calls: seq<Call>)
    ensures Run(r, calls) == Model.ErasedSave(p, oldEntity, newEntity)
    decreases PairHeight(oldEntity, newEntity), 2, 0
  {
    if p.Direct? {
      r, calls := Save(p.config, oldEntity, newEntity);
      return;
    }
    if oldEntity.Some? && oldEntity.value.kind != p.entityKind {
      return Out(None, Some(InvalidEntityType)), [];
    }
    if newEntity.Some? && newEntity.value.kind != p.entityKind {
      return Out(None, Some(InvalidEntityType)), [];
    }
    var saved;
    saved, calls := Save(p.config, oldEntity, newEntity);
    if saved.err.Some? {
      return Out(newEntity, saved.err), calls;
    }
    if saved.value.None? {
      return Out(None, None), calls;
    }
    r := Out(Some(saved.value.value), None);
  }

  method ErasedProcess(p: Processor, e: Entity, action: Action, params: ActionParams)
    returns (r: Out<Option<Entity>>, calls: seq<Call>)
    ensures Run(r, calls) == Model.ErasedProcess(p, e, action, params)
  {
    if p.Wrapped? && e.kind != p.entityKind {
      return Out(None, Some(InvalidEntityType)), [];
    }
    var inner;
    inner, calls := Process(p.config, e, action, params);
    r := Out(Some(inner.value), inner.err);
  }

  // processor.go

  method Process(cfg: Config, e: Entity, action: Action, params: ActionParams)
    returns (r: Out<Entity>, calls: seq<Call>)
    ensures Run(r, calls) == Model.Process(cfg, e, action, params)
  {
    var synced, syncCalls := SyncAndValidate(cfg, e, action, params);
    calls := syncCalls;
    if synced.err.Some? {
      return Out(e, synced.err), calls;
    }
    var changed, actCalls := Act(cfg, synced.value, action, params);
    calls := calls + actCalls;
    if changed.err.Some? {
      return Out(synced.value, changed.err), calls;
    }
    var saved, saveCalls := Save(cfg, Some(e), Some(changed.value));
    calls := calls + saveCalls;
    if saved.err.Some? {
      return Out(changed.value, saved.err), calls;
    }
    if saved.value.None? {
      return Out(changed.value, None), calls;
    }
    r := Out(saved.value.value, None);
  }

  /** The children loop of syncAndValidate and act: every sub-entity, type key by type key. */
  method Children(phase: Model.Phase, cfg: Config, e: Entity, action: Action, params: ActionParams)
    returns (r: Out<Entity>, calls: seq<Call>)
    ensures Run(r, calls) == Model.Children(phase, cfg, e, action, params, Model.ChildOrder(e))
    decreases Height(e), 0, 3
  {
    var changedEntity := e.Copy();
    var subEntities := e.SubEntities();
    var typeKeys := Enumerate(subEntities.Keys);
    r, calls := ChildTypes(phase, cfg, e, action, params, subEntities, typeKeys, changedEntity);
  }

  /** The outer loop of the children loop: the type keys, in order. */
  method ChildTypes(phase: Model.Phase, cfg: Config, e: Entity, action: Action, params: ActionParams,
                    subEntities: map<TypeKey, map<EntityKey, Entity>>, typeKeys: seq<TypeKey>, changedEntity: Entity)
    returns (r: Out<Entity>, calls: seq<Call>)
    requires forall t :: t in subEntities ==> t in e.groups && subEntities[t] == e.groups[t].members
    requires forall k :: k in typeKeys ==> k in subEntities
    requires changedEntity == e
    ensures Run(r, calls) == Model.Children(phase, cfg, e, action, params, Model.ChildSlots(e, typeKeys))
    decreases Height(e), 0, 2
  {
    var changed := changedEntity;
    calls := [];
    ghost var done: seq<Slot> := [];
    var i := 0;
    while i < |typeKeys|
      invariant 0 <= i <= |typeKeys|
      invariant done == Model.ChildSlots(e, typeKeys[..i])
      invariant Run(Out(changed, None), calls) == Model.Children(phase, cfg, e, action, params, done)
    {
      ChildSlotsStep(e, typeKeys, i);
      var res;
      res, calls := ChildrenOfType(phase, cfg, e, action, params, typeKeys[i], subEntities[typeKeys[i]],
                                   done, changed, calls);
      done := done + Model.SlotsIn(typeKeys[i], HeldKeys(e, typeKeys[i]));
      if res.err.Some? {
        ChildTypesStop(phase, cfg, e, action, params, typeKeys, i + 1);
        return res, calls;
      }
      changed := res.value;
      i := i + 1;
    }
    Whole(typeKeys);
    r := Out(changed, None);
  }

  /** The inner loop of the children loop: the sub-entities under one type key, in key order. */
  method ChildrenOfType(phase: Model.Phase, cfg: Config, e: Entity, action: Action, params: ActionParams,
                        typeKey: TypeKey, typedSubEntities: map<EntityKey, Entity>,
                        ghost done: seq<Slot>, changedEntity: Entity, calls0: seq<Call>)
    returns (r: Out<Entity>, calls: seq<Call>)
    requires typeKey in e.groups && typedSubEntities == e.groups[typeKey].members
    requires Run(Out(changedEntity, None), calls0) == Model.Children(phase, cfg, e, action, params, done)
    ensures Run(r, calls)
         == Model.Children(phase, cfg, e, action, params, done + Model.SlotsIn(typeKey, HeldKeys(e, typeKey)))
    decreases Height(e), 0, 1
  {
    var entityKeys := Enumerate(typedSubEntities.Keys);
    assert entityKeys == HeldKeys(e, typeKey);
    calls := calls0;
    var changed := changedEntity;
    VisitedStart(done, typeKey, entityKeys);
    var j := 0;
    while j < |entityKeys|
      invariant 0 <= j <= |entityKeys|
      invariant Run(Out(changed, None), calls)
             == Model.Children(phase, cfg, e, action, params, Visited(done, typeKey, entityKeys, j))
    {
      var slot := Slot(typeKey, entityKeys[j]);
      ghost var prev, next := Visited(done, typeKey, entityKeys, j), Visited(done, typeKey, entityKeys, j + 1);
      VisitedStep(done, typeKey, entityKeys, j);
      HeldKey(e, typeKey, entityKeys, j);
      var res;
      res, calls := VisitChild(phase, cfg, e, action, params, slot, typedSubEntities, prev, next, changed, calls);
      if res.err.Some? {
        VisitedStop(phase, cfg, e, action, params, done, typeKey, entityKeys, j + 1);
        return res, calls;
      }
      changed := res.value;
      j := j + 1;
    }
    VisitedEnds(done, typeKey, entityKeys);
    r := Out(changed, None);
  }

  /** The body of the children loop for one sub-entity: resolve its processor, run the phase on
      it through the adapter, and write the changed sub-entity back. */
  method VisitChild(phase: Model.Phase, cfg: Config, e: Entity, action: Action, params: ActionParams,
                    slot: Slot, typedSubEntities: map<EntityKey, Entity>, ghost prev: seq<Slot>, ghost next: seq<Slot>,
                    changedEntity: Entity, calls0: seq<Call>)
    returns (r: Out<Entity>, calls: seq<Call>)
    requires slot.typeKey in e.groups && typedSubEntities == e.groups[slot.typeKey].members
    requires slot.entityKey in typedSubEntities
    requires Run(Out(changedEntity, None), calls0) == Model.Children(phase, cfg, e, action, params, prev)
    requires next == prev + [slot]
    ensures Run(r, calls) == Model.Children(phase, cfg, e, action, params, next)
    decreases Height(e), 0, 0
  {
    var subEntity := typedSubEntities[slot.entityKey];
    ChildrenSnoc(phase, cfg, e, action, params, prev, slot);
    calls := calls0;
    var subProcessor := cfg.getProcessor(subEntity);
    if subProcessor.None? {
      return Out(changedEntity, Some(ProcessorNotFound)), calls;
    }
    HeightBelow(e, slot);
    var changedSub, subCalls;
    if phase == Model.SyncPhase {
      changedSub, subCalls := ErasedSyncAndValidate(subProcessor.value, subEntity, action, params);
    } else {
      changedSub, subCalls := ErasedAct(subProcessor.value, subEntity, action, params);
    }
    calls := calls + Nest(slot, subCalls);
    if changedSub.err.Some? {
      return Out(changedEntity, changedSub.err), calls;
    }
    var updated := changedEntity.UpdateSubEntity(slot.typeKey, slot.entityKey, changedSub.value.value);
    if updated.Err? {
      return Out(changedEntity, Some(updated.error)), calls;
    }
    r := Out(updated.value, None);
  }

  method SyncAndValidate(cfg: Config, e: Entity, action: Action, params: ActionParams)
    returns (r: Out<Entity>, calls: seq<Call>)
    ensures Run(r, calls) == Model.SyncAndValidate(cfg, e, action, params)
    decreases Height(e), 1, 0
  {
    var children;
    children, calls := Children(Model.SyncPhase, cfg, e, action, params);
    var changedEntity := children.value;
    if children.err.Some? {
      return children, calls;
    }
    var syncer := Model.GetSyncerForEntity(cfg.syncers, changedEntity);
    if syncer.Some? && syncer.value.needSync(e, action) {
      var synced := syncer.value.sync(changedEntity);
      calls := calls + [Call([], Synced(changedEntity, synced))];
      changedEntity := synced.value;
      if synced.err.Some? {
        return synced, calls;
      }
    }
    var sm := Model.GetStateMachineForEntity(cfg.stateMachines, e);
    if sm.Err? {
      return Out(changedEntity, Some(sm.error)), calls;
    }
    var err := sm.value.validate(changedEntity, action, params);
    calls := calls + [Call([], Validated(changedEntity, err))];
    r := Out(changedEntity, err);
  }

  method Act(cfg: Config, e: Entity, action: Action, params: ActionParams)
    returns (r: Out<Entity>, calls: seq<Call>)
    ensures Run(r, calls) == Model.Act(cfg, e, action, params)
    decreases Height(e), 1, 0
  {
    var children;
    children, calls := Children(Model.ActPhase, cfg, e, action, params);
    var changedEntity := children.value;
    if children.err.Some? {
      return children, calls;
    }
    var sm := Model.GetStateMachineForEntity(cfg.stateMachines, changedEntity);
    if sm.Err? {
      return Out(changedEntity, Some(sm.error)), calls;
    }
    var actSyncer := Model.GetSyncerForEntityAndAction(cfg.syncers, changedEntity, action);
    var syncerErr: Option<Error> := None;
    if actSyncer.Some? {
      var synced := actSyncer.value.doAction(changedEntity, action, params);
      calls := calls + [Call([], SyncerDid(changedEntity, synced))];
      changedEntity, syncerErr := synced.value, synced.err;
    }
    r := sm.value.doAction(changedEntity, action, params, syncerErr);
    calls := calls + [Call([], MachineDid(changedEntity, syncerErr, r))];
  }

  method Save(cfg: Config, oldEntity: Option<Entity>, newEntity: Option<Entity>)
    returns (r: Out<Option<Entity>>, calls: seq<Call>)
    ensures Run(r, calls) == Model.Save(cfg, oldEntity, newEntity)
    decreases PairHeight(oldEntity, newEntity), 1, 0
  {
    if oldEntity.None? && newEntity.None? {
      return Out(None, None), [];
    }
    var changedNewEntity;
    changedNewEntity, calls := SaveChildren(cfg, oldEntity, newEntity);
    if changedNewEntity.err.Some? {
      return Out(None, changedNewEntity.err), calls;
    }
    if cfg.repository.Some? {
      var entityToSave: Option<Entity> := None;
      if newEntity.Some? {
        entityToSave := changedNewEntity.value;
      }
      var saved := cfg.repository.value.save(oldEntity, entityToSave);
      calls := calls + [Call([], Saved(oldEntity, entityToSave, saved))];
      if saved.err.Some? {
        return Out(None, saved.err), calls;
      }
      return saved, calls;
    }
    if newEntity.None? {
      return Out(None, None), calls;
    }
    r := Out(changedNewEntity.value, None);
  }

  /** The sub-entity part of save: gather the type keys of both sides, then save their children. */
  method SaveChildren(cfg: Config, oldEntity: Option<Entity>, newEntity: Option<Entity>)
    returns (r: Out<Option<Entity>>, calls: seq<Call>)
    ensures Run(r, calls) == Model.SaveChildren(cfg, oldEntity, newEntity, Model.DiffOrder(oldEntity, newEntity))
    decreases PairHeight(oldEntity, newEntity), 0, 4
  {
    var changedNewEntity := if newEntity.Some? then Some(newEntity.value.Copy()) else None;
    var oldSubEntities := if oldEntity.Some? then oldEntity.value.SubEntities() else map[];
    var newSubEntities := if newEntity.Some? then newEntity.value.SubEntities() else map[];
    SubEntitiesOfKeys(oldEntity);
    SubEntitiesOfKeys(newEntity);
    var allTypeKeys := KeyUnion(oldSubEntities.Keys, newSubEntities.Keys);
    r, calls := SaveTypes(cfg, oldEntity, newEntity, oldSubEntities, newSubEntities, Enumerate(allTypeKeys),
                          changedNewEntity);
  }

  /** The loop of save over the type keys, in order. */
  method SaveTypes(cfg: Config, oldEntity: Option<Entity>, newEntity: Option<Entity>,
                   oldSubEntities: map<TypeKey, map<EntityKey, Entity>>,
                   newSubEntities: map<TypeKey, map<EntityKey, Entity>>,
                   typeKeys: seq<TypeKey>, changedNewEntity: Option<Entity>)
    returns (r: Out<Option<Entity>>, calls: seq<Call>)
    requires oldSubEntities == SubEntitiesOf(oldEntity) && newSubEntities == SubEntitiesOf(newEntity)
    requires changedNewEntity == newEntity
    ensures Run(r, calls) == Model.SaveChildren(cfg, oldEntity, newEntity, Model.DiffSlots(oldEntity, newEntity, typeKeys))
    decreases PairHeight(oldEntity, newEntity), 0, 3
  {
    var changed := changedNewEntity;
    ghost var done: seq<Slot> := [];
    calls := [];
    var i := 0;
    while i < |typeKeys|
      invariant 0 <= i <= |typeKeys|
      invariant done == Model.DiffSlots(oldEntity, newEntity, typeKeys[..i])
      invariant Run(Out(changed, None), calls) == Model.SaveChildren(cfg, oldEntity, newEntity, done)
    {
      DiffSlotsStep(oldEntity, newEntity, typeKeys, i);
      var typeKey := typeKeys[i];
      ghost var next := Model.DiffSlots(oldEntity, newEntity, typeKeys[..i + 1]);
      var res;
      res, calls := SaveType(cfg, oldEntity, newEntity, typeKey, oldSubEntities, newSubEntities,
                             done, changed, calls);
      done := next;
      if res.err.Some? {
        SaveTypesStop(cfg, oldEntity, newEntity, typeKeys, i + 1);
        return Out(None, res.err), calls;
      }
      changed := res.value;
      i := i + 1;
    }
    Whole(typeKeys);
    r := Out(changed, None);
  }

  /** The sub-entity maps of one side of save; empty when that side is absent. */
  ghost function SubEntitiesOf(x: Option<Entity>): map<TypeKey, map<EntityKey, Entity>> {
    if x.Some? then x.value.SubEntities() else map[]
  }

  lemma SubEntitiesOfKeys(x: Option<Entity>)
    ensures (if x.Some? then x.value.SubEntities() else map[]) == SubEntitiesOf(x)
    ensures SubEntitiesOf(x).Keys == Model.TypeKeysOf(x)
  {
  }

  lemma TypedOfLookup(x: Option<Entity>, subEntities: map<TypeKey, map<EntityKey, Entity>>, typeKey: TypeKey)
    requires subEntities == SubEntitiesOf(x)
    ensures (if typeKey in subEntities then subEntities[typeKey] else map[]) == TypedOf(x, typeKey)
    ensures TypedOf(x, typeKey).Keys == Model.EntityKeysOf(x, typeKey)
  {
  }

  /** One type key of save, in the source's three cases: present in the old entity only, in
      the new entity only, or in both (then the union of their entity keys is walked). */
  method SaveType(cfg: Config, oldEntity: Option<Entity>, newEntity: Option<Entity>, typeKey: TypeKey,
                  oldSubEntities: map<TypeKey, map<EntityKey, Entity>>,
                  newSubEntities: map<TypeKey, map<EntityKey, Entity>>,
                  ghost done: seq<Slot>, changedNewEntity: Option<Entity>, calls0: seq<Call>)
    returns (r: Out<Option<Entity>>, calls: seq<Call>)
    requires oldSubEntities == SubEntitiesOf(oldEntity) && newSubEntities == SubEntitiesOf(newEntity)
    requires Run(Out(changedNewEntity, None), calls0) == Model.SaveChildren(cfg, oldEntity, newEntity, done)
    ensures Run(r, calls)
         == Model.SaveChildren(cfg, oldEntity, newEntity, done + Model.SlotsIn(typeKey, DiffKeys(oldEntity, newEntity, typeKey)))
    decreases PairHeight(oldEntity, newEntity), 0, 2
  {
    var oldTypedEntitiesExists := typeKey in oldSubEntities;
    var newTypedEntitiesExists := typeKey in newSubEntities;
    var oldTypedEntities := if oldTypedEntitiesExists then oldSubEntities[typeKey] else map[];
    var newTypedEntities := if newTypedEntitiesExists then newSubEntities[typeKey] else map[];
    TypedOfLookup(oldEntity, oldSubEntities, typeKey);
    TypedOfLookup(newEntity, newSubEntities, typeKey);
    var entityKeySet;
    if oldTypedEntitiesExists && !newTypedEntitiesExists {
      entityKeySet := oldTypedEntities.Keys;
    } else if newTypedEntitiesExists && !oldTypedEntitiesExists {
      entityKeySet := newTypedEntities.Keys;
    } else if newTypedEntitiesExists && oldTypedEntitiesExists {
      entityKeySet := KeyUnion(oldTypedEntities.Keys, newTypedEntities.Keys);
    } else {
      // not reached from save, which only passes type keys one side holds
      entityKeySet := {};
    }
    r, calls := SaveTyped(cfg, oldEntity, newEntity, typeKey, oldTypedEntities, newTypedEntities,
                          entityKeySet, done, changedNewEntity, calls0);
  }

  /** The children one side holds under a type key; empty when it holds none. */
  ghost function TypedOf(x: Option<Entity>, typeKey: TypeKey): map<EntityKey, Entity> {
    if x.Some? && typeKey in x.value.groups then x.value.groups[typeKey].members else map[]
  }

  /** The entity keys one type key contributes to the save diff, in visiting order. */
  ghost function DiffKeys(oldEntity: Option<Entity>, newEntity: Option<Entity>, typeKey: TypeKey): seq<EntityKey>
  {
    Enumerate(Model.EntityKeysOf(oldEntity, typeKey) + Model.EntityKeysOf(newEntity, typeKey))
  }

  lemma DiffKeysInDiff(oldEntity: Option<Entity>, newEntity: Option<Entity>, typeKey: TypeKey, entityKey: EntityKey)
    requires entityKey in DiffKeys(oldEntity, newEntity, typeKey)
    ensures Model.InDiff(oldEntity, newEntity, Slot(typeKey, entityKey))
  {
    assert entityKey in Model.EntityKeysOf(oldEntity, typeKey) + Model.EntityKeysOf(newEntity, typeKey);
  }

  /** The body shared by the three cases of save for one child: resolve a processor from the
      old version when there is one, save the pair through the adapter, and write a saved new
      version back into the new entity. */
  method SaveSubEntity(cfg: Config, oldEntity: Option<Entity>, newEntity: Option<Entity>, slot: Slot,
                       oldTypedEntities: map<EntityKey, Entity>, newTypedEntities: map<EntityKey, Entity>,
                       ghost prev: seq<Slot>, ghost next: seq<Slot>, changedNewEntity: Option<Entity>, calls0: seq<Call>)
    returns (r: Out<Option<Entity>>, calls: seq<Call>)
    requires Model.InDiff(oldEntity, newEntity, slot)
    requires oldTypedEntities == TypedOf(oldEntity, slot.typeKey) && newTypedEntities == TypedOf(newEntity, slot.typeKey)
    requires Run(Out(changedNewEntity, None), calls0) == Model.SaveChildren(cfg, oldEntity, newEntity, prev)
    requires next == prev + [slot]
    ensures Run(r, calls) == Model.SaveChildren(cfg, oldEntity, newEntity, next)
    decreases PairHeight(oldEntity, newEntity), 0, 0
  {
    SaveChildrenSnoc(cfg, oldEntity, newEntity, prev, slot);
    calls := calls0;
    var oldSubEntity := if slot.entityKey in oldTypedEntities then Some(oldTypedEntities[slot.entityKey]) else None;
    var newSubEntity := if slot.entityKey in newTypedEntities then Some(newTypedEntities[slot.entityKey]) else None;
    var subProcessor;
    if oldSubEntity.Some? {
      subProcessor := cfg.getProcessor(oldSubEntity.value);
    } else {
      subProcessor := cfg.getProcessor(newSubEntity.value);
    }
    if subProcessor.None? {
      return Out(None, Some(ProcessorNotFound)), calls;
    }
    PairHeightBelow(oldEntity, newEntity, slot);
    var saved, subCalls := ErasedSave(subProcessor.value, oldSubEntity, newSubEntity);
    calls := calls + Nest(slot, subCalls);
    if saved.err.Some? {
      return Out(None, saved.err), calls;
    }
    if newSubEntity.Some? && saved.value.Some? {
      var updated := changedNewEntity.value.UpdateSubEntity(slot.typeKey, slot.entityKey, saved.value.value);
      if updated.Err? {
        return Out(None, Some(updated.error)), calls;
      }
      return Out(Some(updated.value), None), calls;
    }
    r := Out(changedNewEntity, None);
  }

  /** Walks one type key's entity keys in order, saving each child; all three cases of save
      end here, and differ only in the key set walked and which versions exist. */
  method SaveTyped(cfg: Config, oldEntity: Option<Entity>, newEntity: Option<Entity>, typeKey: TypeKey,
                   oldTypedEntities: map<EntityKey, Entity>, newTypedEntities: map<EntityKey, Entity>,
                   entityKeySet: set<EntityKey>, ghost done: seq<Slot>,
                   changedNewEntity: Option<Entity>, calls0: seq<Call>)
    returns (r: Out<Option<Entity>>, calls: seq<Call>)
    requires entityKeySet == Model.EntityKeysOf(oldEntity, typeKey) + Model.EntityKeysOf(newEntity, typeKey)
    requires oldTypedEntities == TypedOf(oldEntity, typeKey) && newTypedEntities == TypedOf(newEntity, typeKey)
    requires Run(Out(changedNewEntity, None), calls0) == Model.SaveChildren(cfg, oldEntity, newEntity, done)
    ensures Run(r, calls)
         == Model.SaveChildren(cfg, oldEntity, newEntity, done + Model.SlotsIn(typeKey, DiffKeys(oldEntity, newEntity, typeKey)))
    decreases PairHeight(oldEntity, newEntity), 0, 1
  {
    var entityKeys := Enumerate(entityKeySet);
    assert entityKeys == DiffKeys(oldEntity, newEntity, typeKey);
    calls := calls0;
    var changed := changedNewEntity;
    VisitedStart(done, typeKey, entityKeys);
    var j := 0;
    while j < |entityKeys|
      invariant 0 <= j <= |entityKeys|
      invariant Run(Out(changed, None), calls)
             == Model.SaveChildren(cfg, oldEntity, newEntity, Visited(done, typeKey, entityKeys, j))
    {
      var entityKey := entityKeys[j];
      var slot := Slot(typeKey, entityKey);
      VisitedStep(done, typeKey, entityKeys, j);
      DiffKeysInDiff(oldEntity, newEntity, typeKey, entityKey);
      var res;
      res, calls := SaveSubEntity(cfg, oldEntity, newEntity, slot, oldTypedEntities, newTypedEntities,
                                  Visited(done, typeKey, entityKeys, j), Visited(done, typeKey, entityKeys, j + 1),
                                  changed, calls);
      if res.err.Some? {
        SaveVisitedStop(cfg, oldEntity, newEntity, done, typeKey, entityKeys, j + 1);
        return res, calls;
      }
      changed := res.value;
      j := j + 1;
    }
    VisitedEnds(done, typeKey, entityKeys);
    r := Out(changed, None);
  }
}
