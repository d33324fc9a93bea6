/** The engine as pure functions: processor selection, the three phases, Process, and the
    type-erasure adapter (processor.go, generic.go). Each function returns what the source
    returns, together with the calls it made to effectful collaborators. */
module Model {
  import opened Errors
  import opened Types
  import opened KeyOrder
  import opened Calls

  // Selection of collaborators: the first candidate in list order that accepts.

  /** The index of the first element that satisfies `p`, if any. */
  function FirstMatch<T>(xs: seq<T>, p: T -> bool): (r: Option<nat>)
    ensures r.Some? ==> r.value < |xs| && p(xs[r.value]) && forall j :: 0 <= j < r.value ==> !p(xs[j])
    ensures r.None? ==> forall j :: 0 <= j < |xs| ==> !p(xs[j])
  {
    if xs == [] then None
    else if p(xs[0]) then Some(0)
    else
      match FirstMatch(xs[1..], p)
      case None => None
      case Some(i) => Some(i + 1)
  }

  function GetStateMachineForEntity(machines: seq<StateMachine>, e: Entity): (r: Result<StateMachine>)
    ensures r.Err? <==> forall j :: 0 <= j < |machines| ==> !machines[j].canProcess(e)
    ensures r.Err? ==> r.error == UnprocessableEntity
    ensures r.Ok? ==> exists i :: 0 <= i < |machines| && r.value == machines[i] && machines[i].canProcess(e)
                                 && forall j :: 0 <= j < i ==> !machines[j].canProcess(e)
  {
    match FirstMatch(machines, (m: StateMachine) => m.canProcess(e))
    case Some(i) => Ok(machines[i])
    case None => Err(UnprocessableEntity)
  }

  function GetSyncerForEntity(syncers: seq<Syncer>, e: Entity): (r: Option<Syncer>)
    ensures r.None? <==> forall j :: 0 <= j < |syncers| ==> !syncers[j].canProcess(e)
    ensures r.Some? ==> exists i :: 0 <= i < |syncers| && r.value == syncers[i] && syncers[i].canProcess(e)
                                   && forall j :: 0 <= j < i ==> !syncers[j].canProcess(e)
  {
    match FirstMatch(syncers, (y: Syncer) => y.canProcess(e))
    case Some(i) => Some(syncers[i])
    case None => None
  }

  function GetSyncerForEntityAndAction(syncers: seq<Syncer>, e: Entity, action: Action): (r: Option<Syncer>)
    ensures r.None? <==> forall j :: 0 <= j < |syncers| ==> !(syncers[j].canProcess(e) && syncers[j].hasAction(action))
    ensures r.Some? ==> exists i :: 0 <= i < |syncers| && r.value == syncers[i]
                                   && syncers[i].canProcess(e) && syncers[i].hasAction(action)
                                   && forall j :: 0 <= j < i ==> !(syncers[j].canProcess(e) && syncers[j].hasAction(action))
  {
    match FirstMatch(syncers, (y: Syncer) => y.canProcess(e) && y.hasAction(action))
    case Some(i) => Some(syncers[i])
    case None => None
  }

  // The order in which the engine visits sub-entities.

  /** The slots `t`/`k` for the keys `k` of `ks`, in that order. */
  function SlotsIn(t: TypeKey, ks: seq<EntityKey>): seq<Slot> {
    seq(|ks|, i requires 0 <= i < |ks| => Slot(t, ks[i]))
  }

  lemma SlotsInMembers(t: TypeKey, ks: seq<EntityKey>)
    ensures forall s :: s in SlotsIn(t, ks) <==> s.typeKey == t && s.entityKey in ks
  {
    var r := SlotsIn(t, ks);
    forall s: Slot | s.typeKey == t && s.entityKey in ks
      ensures s in r
    {
      var i :| 0 <= i < |ks| && ks[i] == s.entityKey;
      assert r[i] == s;
    }
  }

  function TypeKeysOf(x: Option<Entity>): set<TypeKey> {
    if x.Some? then x.value.groups.Keys else {}
  }

  /** The entity keys `x` holds under `t`; none when `x` is absent or lacks `t`. */
  function EntityKeysOf(x: Option<Entity>, t: TypeKey): set<EntityKey> {
    if x.Some? && t in x.value.groups then x.value.groups[t].members.Keys else {}
  }

  lemma EntityKeysOfMembers(x: Option<Entity>, t: TypeKey)
    ensures forall s: Slot :: s.typeKey == t ==> (s.entityKey in EntityKeysOf(x, t) <==> SubAt(x, s).Some?)
  {
  }

  /** The children of `e` under the type keys `ts`, type key by type key. */
  function ChildSlots(e: Entity, ts: seq<TypeKey>): seq<Slot> {
    if ts == [] then []
    else
      var t := ts[|ts| - 1];
      ChildSlots(e, ts[..|ts| - 1]) + SlotsIn(t, Enumerate(EntityKeysOf(Some(e), t)))
  }

  lemma {:induction false} ChildSlotsMembers(e: Entity, ts: seq<TypeKey>)
    ensures forall s :: s in ChildSlots(e, ts) <==> s.typeKey in ts && e.Has(s)
  {
    if ts != [] {
      var t := ts[|ts| - 1];
      var init := ts[..|ts| - 1];
      ChildSlotsMembers(e, init);
      SlotsInMembers(t, Enumerate(EntityKeysOf(Some(e), t)));
      EntityKeysOfMembers(Some(e), t);
      assert forall u :: u in ts <==> u in init || u == t;
    }
  }

  /** Every child of `e`, once each, in the order the phases visit them. */
  function ChildOrder(e: Entity): seq<Slot> {
    ChildSlots(e, Enumerate(e.groups.Keys))
  }

  lemma ChildOrderMembers(e: Entity)
    ensures forall s :: s in ChildOrder(e) <==> e.Has(s)
  {
    ChildSlotsMembers(e, Enumerate(e.groups.Keys));
  }

  lemma DistinctConcat<T>(a: seq<T>, b: seq<T>)
    requires Distinct(a) && Distinct(b)
    requires forall x :: x in a ==> x !in b
    ensures Distinct(a + b)
  {
    var ab := a + b;
    forall i, j | 0 <= i < j < |ab|
      ensures ab[i] != ab[j]
    {
      if j < |a| {
        assert ab[i] == a[i] && ab[j] == a[j];
      } else if i >= |a| {
        assert ab[i] == b[i - |a|] && ab[j] == b[j - |a|];
      } else {
        assert ab[i] == a[i] && ab[j] == b[j - |a|];
        assert b[j - |a|] in b;
      }
    }
  }

  lemma SlotsInDistinct(t: TypeKey, ks: seq<EntityKey>)
    requires Distinct(ks)
    ensures Distinct(SlotsIn(t, ks))
  {
  }

  lemma {:induction false} ChildSlotsDistinct(e: Entity, ts: seq<TypeKey>)
    requires Distinct(ts)
    ensures Distinct(ChildSlots(e, ts))
  {
    if ts != [] {
      var t := ts[|ts| - 1];
      var init := ts[..|ts| - 1];
      var ks := Enumerate(EntityKeysOf(Some(e), t));
      ChildSlotsDistinct(e, init);
      ChildSlotsMembers(e, init);
      EnumerateDistinct(EntityKeysOf(Some(e), t));
      SlotsInDistinct(t, ks);
      assert forall k :: 0 <= k < |init| ==> init[k] == ts[k];
      assert t !in init;
      DistinctConcat(ChildSlots(e, init), SlotsIn(t, ks));
    }
  }

  /** The children loop visits each child once. */
  lemma ChildOrderDistinct(e: Entity)
    ensures Distinct(ChildOrder(e))
  {
    EnumerateDistinct(e.groups.Keys);
    ChildSlotsDistinct(e, Enumerate(e.groups.Keys));
  }

  /** A slot that exists on at least one side of a save. */
  predicate InDiff(oldEntity: Option<Entity>, newEntity: Option<Entity>, s: Slot) {
    SubAt(oldEntity, s).Some? || SubAt(newEntity, s).Some?
  }

  /** The slots of both sides under the type keys `ts`, type key by type key. */
  function DiffSlots(oldEntity: Option<Entity>, newEntity: Option<Entity>, ts: seq<TypeKey>): seq<Slot> {
    if ts == [] then []
    else
      var t := ts[|ts| - 1];
      DiffSlots(oldEntity, newEntity, ts[..|ts| - 1])
        + SlotsIn(t, Enumerate(EntityKeysOf(oldEntity, t) + EntityKeysOf(newEntity, t)))
  }

  lemma {:induction false} DiffSlotsMembers(oldEntity: Option<Entity>, newEntity: Option<Entity>, ts: seq<TypeKey>)
    ensures forall s :: s in DiffSlots(oldEntity, newEntity, ts) <==> s.typeKey in ts && InDiff(oldEntity, newEntity, s)
  {
    if ts != [] {
      var t := ts[|ts| - 1];
      var init := ts[..|ts| - 1];
      DiffSlotsMembers(oldEntity, newEntity, init);
      SlotsInMembers(t, Enumerate(EntityKeysOf(oldEntity, t) + EntityKeysOf(newEntity, t)));
      EntityKeysOfMembers(oldEntity, t);
      EntityKeysOfMembers(newEntity, t);
      assert forall u :: u in ts <==> u in init || u == t;
    }
  }

  lemma {:induction false} DiffSlotsDistinct(oldEntity: Option<Entity>, newEntity: Option<Entity>, ts: seq<TypeKey>)
    requires Distinct(ts)
    ensures Distinct(DiffSlots(oldEntity, newEntity, ts))
  {
    if ts != [] {
      var t := ts[|ts| - 1];
      var init := ts[..|ts| - 1];
      var keys := EntityKeysOf(oldEntity, t) + EntityKeysOf(newEntity, t);
      DiffSlotsDistinct(oldEntity, newEntity, init);
      DiffSlotsMembers(oldEntity, newEntity, init);
      EnumerateDistinct(keys);
      SlotsInDistinct(t, Enumerate(keys));
      assert forall k :: 0 <= k < |init| ==> init[k] == ts[k];
      assert t !in init;
      DistinctConcat(DiffSlots(oldEntity, newEntity, init), SlotsIn(t, Enumerate(keys)));
    }
  }

  /** Every slot of either side, once each, in the order save visits them. */
  function DiffOrder(oldEntity: Option<Entity>, newEntity: Option<Entity>): seq<Slot> {
    DiffSlots(oldEntity, newEntity, Enumerate(TypeKeysOf(oldEntity) + TypeKeysOf(newEntity)))
  }

  lemma DiffOrderMembers(oldEntity: Option<Entity>, newEntity: Option<Entity>)
    ensures forall s :: s in DiffOrder(oldEntity, newEntity) <==> InDiff(oldEntity, newEntity, s)
  {
    var ts := Enumerate(TypeKeysOf(oldEntity) + TypeKeysOf(newEntity));
    DiffSlotsMembers(oldEntity, newEntity, ts);
    forall s: Slot | InDiff(oldEntity, newEntity, s)
      ensures s.typeKey in ts
    {
      EntityKeysOfMembers(oldEntity, s.typeKey);
    }
  }

  /** Save visits each slot of either side once. */
  lemma DiffOrderDistinct(oldEntity: Option<Entity>, newEntity: Option<Entity>)
    ensures Distinct(DiffOrder(oldEntity, newEntity))
  {
    EnumerateDistinct(TypeKeysOf(oldEntity) + TypeKeysOf(newEntity));
    DiffSlotsDistinct(oldEntity, newEntity, Enumerate(TypeKeysOf(oldEntity) + TypeKeysOf(newEntity)));
  }

  // The two recursive phases, syncAndValidate and act.

  datatype Phase = SyncPhase | ActPhase

  function Widen(r: Run<Entity>): (w: Run<Option<Entity>>)
    ensures w.out.value == Some(r.out.value) && w.out.err == r.out.err && w.calls == r.calls
  {
    Run(Out(Some(r.out.value), r.out.err), r.calls)
  }

  /** The adapter's syncAndValidate or act (generic.go): narrow, delegate, widen. A processor
      used directly accepts every entity. */
  function Erased(phase: Phase, p: Processor, e: Entity, action: Action, params: ActionParams): (r: Run<Option<Entity>>)
    ensures r.out.err.None? ==> r.out.value.Some?
    decreases Height(e), 2, 0
  {
    if p.Wrapped? && e.kind != p.entityKind then Run(Out(None, Some(InvalidEntityType)), [])
    else if phase == SyncPhase then Widen(SyncAndValidate(p.config, e, action, params))
    else Widen(Act(p.config, e, action, params))
  }

  /** The children loop the two phases share: resolve each child's processor, run the phase
      on it, and write its result back in place, stopping at the first error. */
  function Children(phase: Phase, cfg: Config, e: Entity, action: Action, params: ActionParams, slots: seq<Slot>)
    : (r: Run<Entity>)
    decreases Height(e), 0, |slots|
  {
    if slots == [] then Run(Out(e.Copy(), None), [])
    else
      var st := Children(phase, cfg, e, action, params, slots[..|slots| - 1]);
      if st.out.err.Some? then st
      else ChildStep(phase, cfg, e, action, params, st, slots[|slots| - 1])
  }

  /** One child of the children loop: resolve its processor, recurse, write the result back
      into the entity built so far. A slot the entity does not hold is passed over (the loop
      only ever visits held slots, see ChildOrder). */
  function ChildStep(phase: Phase, cfg: Config, e: Entity, action: Action, params: ActionParams,
                     st: Run<Entity>, s: Slot): (r: Run<Entity>)
    ensures st.calls <= r.calls
    decreases Height(e), 0, 0
  {
    if !e.Has(s) then st else
    var child := e.At(s);
    match cfg.getProcessor(child)
    case None => Run(Out(st.out.value, Some(ProcessorNotFound)), st.calls)
    case Some(p) =>
      HeightBelow(e, s);
      var cr := Erased(phase, p, child, action, params);
      var calls := st.calls + Nest(s, cr.calls);
      if cr.out.err.Some? then Run(Out(st.out.value, cr.out.err), calls)
      else
        match st.out.value.UpdateSubEntity(s.typeKey, s.entityKey, cr.out.value.value)
        case Err(err) => Run(Out(st.out.value, Some(err)), calls)
        case Ok(updated) => Run(Out(updated, None), calls)
  }

  function SyncAndValidate(cfg: Config, e: Entity, action: Action, params: ActionParams): (r: Run<Entity>)
    decreases Height(e), 1, 0
  {
    var kids := Children(SyncPhase, cfg, e, action, params, ChildOrder(e));
    if kids.out.err.Some? then kids
    else
      var synced := SyncOwn(cfg, e, action, kids);
      if synced.out.err.Some? then synced
      else ValidateOwn(cfg, e, action, params, synced)
  }

  /** The entity's own unconditional sync: the syncer is chosen on the child-updated entity,
      but whether it must sync is asked of the entity as passed in. */
  function SyncOwn(cfg: Config, e: Entity, action: Action, kids: Run<Entity>): Run<Entity> {
    var changed := kids.out.value;
    match GetSyncerForEntity(cfg.syncers, changed)
    case Some(syncer) =>
      if syncer.needSync(e, action) then
        var res := syncer.sync(changed);
        Run(res, kids.calls + [Call([], Synced(changed, res))])
      else kids
    case None => kids
  }

  /** The entity's own validation: the state machine is chosen on the entity as passed in,
      and validates the synced entity. */
  function ValidateOwn(cfg: Config, e: Entity, action: Action, params: ActionParams, synced: Run<Entity>): Run<Entity> {
    match GetStateMachineForEntity(cfg.stateMachines, e)
    case Err(err) => Run(Out(synced.out.value, Some(err)), synced.calls)
    case Ok(sm) =>
      var verdict := sm.validate(synced.out.value, action, params);
      Run(Out(synced.out.value, verdict), synced.calls + [Call([], Validated(synced.out.value, verdict))])
  }

  function Act(cfg: Config, e: Entity, action: Action, params: ActionParams): (r: Run<Entity>)
    decreases Height(e), 1, 0
  {
    var kids := Children(ActPhase, cfg, e, action, params, ChildOrder(e));
    if kids.out.err.Some? then kids
    else ActOwn(cfg, action, params, kids)
  }

  /** The entity's own part of act, once its children are done: the state machine is chosen
      on the child-updated entity, then the action syncer runs, then the transition. */
  function ActOwn(cfg: Config, action: Action, params: ActionParams, kids: Run<Entity>): Run<Entity> {
    match GetStateMachineForEntity(cfg.stateMachines, kids.out.value)
    case Err(err) => Run(Out(kids.out.value, Some(err)), kids.calls)
    case Ok(sm) => Transition(sm, action, params, ActionSync(cfg, action, params, kids))
  }

  /** The action-specific sync, when a syncer for the child-updated entity has the action. */
  function ActionSync(cfg: Config, action: Action, params: ActionParams, kids: Run<Entity>): Run<Entity> {
    var changed := kids.out.value;
    match GetSyncerForEntityAndAction(cfg.syncers, changed, action)
    case Some(syncer) =>
      var res := syncer.doAction(changed, action, params);
      Run(res, kids.calls + [Call([], SyncerDid(changed, res))])
    case None => kids
  }

  /** The state machine's transition, given the syncer's entity and error. */
  function Transition(sm: StateMachine, action: Action, params: ActionParams, synced: Run<Entity>): Run<Entity> {
    var res := sm.doAction(synced.out.value, action, params, synced.out.err);
    Run(res, synced.calls + [Call([], MachineDid(synced.out.value, synced.out.err, res))])
  }

  // save: a diff of the original tree against the acted one.

  /** The adapter's save (generic.go). */
  function ErasedSave(p: Processor, oldEntity: Option<Entity>, newEntity: Option<Entity>): (r: Run<Option<Entity>>)
    decreases PairHeight(oldEntity, newEntity), 2, 0
  {
    match p
    case Direct(cfg) => Save(cfg, oldEntity, newEntity)
    case Wrapped(kind, cfg) =>
      if oldEntity.Some? && oldEntity.value.kind != kind then Run(Out(None, Some(InvalidEntityType)), [])
      else if newEntity.Some? && newEntity.value.kind != kind then Run(Out(None, Some(InvalidEntityType)), [])
      else
        var inner := Save(cfg, oldEntity, newEntity);
        if inner.out.err.Some? then Run(Out(newEntity, inner.out.err), inner.calls)
        else if inner.out.value.None? then Run(Out(None, None), inner.calls)
        else Run(Out(Some(inner.out.value.value), None), inner.calls)
  }

  /** The children loop of save: each slot is saved with whichever sides hold it, and a saved
      child is written back only where the new side holds the slot. */
  function SaveChildren(cfg: Config, oldEntity: Option<Entity>, newEntity: Option<Entity>, slots: seq<Slot>)
    : (r: Run<Option<Entity>>)
    ensures r.out.err.None? ==> (r.out.value.Some? <==> newEntity.Some?)
    ensures r.out.err.Some? ==> r.out.value.None?
    decreases PairHeight(oldEntity, newEntity), 0, |slots|
  {
    if slots == [] then Run(Out(newEntity, None), [])
    else
      var st := SaveChildren(cfg, oldEntity, newEntity, slots[..|slots| - 1]);
      if st.out.err.Some? then st
      else SaveStep(cfg, oldEntity, newEntity, st, slots[|slots| - 1])
  }

  /** One slot of the save diff: resolve a processor from the old child if there is one,
      otherwise from the new, save the pair, and write a saved new child back. A slot neither
      side holds is passed over (the diff only lists held slots, see DiffOrder). */
  function SaveStep(cfg: Config, oldEntity: Option<Entity>, newEntity: Option<Entity>,
                    st: Run<Option<Entity>>, s: Slot): (r: Run<Option<Entity>>)
    requires st.out.err.None? && (st.out.value.Some? <==> newEntity.Some?)
    ensures r.out.err.None? ==> (r.out.value.Some? <==> newEntity.Some?)
    ensures r.out.err.Some? ==> r.out.value.None?
    ensures st.calls <= r.calls
    decreases PairHeight(oldEntity, newEntity), 0, 0
  {
    if !InDiff(oldEntity, newEntity, s) then st else
    var oldChild := SubAt(oldEntity, s);
    var newChild := SubAt(newEntity, s);
    match cfg.getProcessor(if oldChild.Some? then oldChild.value else newChild.value)
    case None => Run(Out(None, Some(ProcessorNotFound)), st.calls)
    case Some(p) =>
      PairHeightBelow(oldEntity, newEntity, s);
      var cr := ErasedSave(p, oldChild, newChild);
      var calls := st.calls + Nest(s, cr.calls);
      if cr.out.err.Some? then Run(Out(None, cr.out.err), calls)
      else if newChild.Some? && cr.out.value.Some? then
        match st.out.value.value.UpdateSubEntity(s.typeKey, s.entityKey, cr.out.value.value)
        case Err(err) => Run(Out(None, Some(err)), calls)
        case Ok(updated) => Run(Out(Some(updated), None), calls)
      else Run(st.out, calls)
  }

  function Save(cfg: Config, oldEntity: Option<Entity>, newEntity: Option<Entity>): (r: Run<Option<Entity>>)
    decreases PairHeight(oldEntity, newEntity), 1, 0
  {
    if oldEntity.None? && newEntity.None? then Run(Out(None, None), [])
    else
      var kids := SaveChildren(cfg, oldEntity, newEntity, DiffOrder(oldEntity, newEntity));
      if kids.out.err.Some? then kids
      else Persist(cfg, oldEntity, newEntity, kids)
  }

  /** The end of save, once the children are reconciled: hand the old entity and the
      reconciled new one (none when the new side is absent) to the repository and return its
      answer; without a repository, return the reconciled new entity, if any. */
  function Persist(cfg: Config, oldEntity: Option<Entity>, newEntity: Option<Entity>, kids: Run<Option<Entity>>)
    : Run<Option<Entity>>
  {
    match cfg.repository
    case Some(repo) =>
      var toSave := if newEntity.Some? then kids.out.value else None;
      var res := repo.save(oldEntity, toSave);
      Run(if res.err.Some? then Out(None, res.err) else res, kids.calls + [Call([], Saved(oldEntity, toSave, res))])
    case None =>
      Run(Out(if newEntity.None? then None else kids.out.value, None), kids.calls)
  }

  // Process: the three phases in order.

  function Process(cfg: Config, e: Entity, action: Action, params: ActionParams): (r: Run<Entity>) {
    var synced := SyncAndValidate(cfg, e, action, params);
    if synced.out.err.Some? then Run(Out(e, synced.out.err), synced.calls)
    else
      var acted := Act(cfg, synced.out.value, action, params);
      var calls := synced.calls + acted.calls;
      if acted.out.err.Some? then Run(Out(synced.out.value, acted.out.err), calls)
      else
        var saved := Save(cfg, Some(e), Some(acted.out.value));
        if saved.out.err.Some? then Run(Out(acted.out.value, saved.out.err), calls + saved.calls)
        else if saved.out.value.None? then Run(Out(acted.out.value, None), calls + saved.calls)
        else Run(Out(saved.out.value.value, None), calls + saved.calls)
  }

  /** The adapter's Process (generic.go). */
  function ErasedProcess(p: Processor, e: Entity, action: Action, params: ActionParams): (r: Run<Option<Entity>>) {
    if p.Wrapped? && e.kind != p.entityKind then Run(Out(None, Some(InvalidEntityType)), [])
    else Widen(Process(p.config, e, action, params))
  }

  // Where the engine's own errors can come from.

  /** A world of processor configurations: every processor that a resolver of one of them
      returns is configured by another one of them. */
  ghost predicate Closed(world: Config -> bool) {
    forall c, x :: world(c) && c.getProcessor(x).Some? ==> world(c.getProcessor(x).value.config)
  }

  /** The collaborator choice in `world` without which the engine cannot raise `err`:
      ProcessorNotFound needs a resolver that returns no processor for some entity,
      InvalidEntityType a resolver that returns an adapter, and UnprocessableEntity a
      configuration with no state machine for some entity. The engine raises no other error. */
  ghost predicate CanRaise(world: Config -> bool, err: Error) {
    match err
    case ProcessorNotFound => exists c, x :: world(c) && c.getProcessor(x).None?
    case InvalidEntityType => exists c, x :: world(c) && c.getProcessor(x).Some? && c.getProcessor(x).value.Wrapped?
    case UnprocessableEntity => exists c, x :: world(c) && GetStateMachineForEntity(c.stateMachines, x).Err?
    case _ => false
  }

  /** What resolving `x` in a configuration of a closed world gives: no processor, which
      ProcessorNotFound needs, or a processor configured in the world, which is an adapter
      only if InvalidEntityType can be raised. */
  lemma ResolvedIn(world: Config -> bool, cfg: Config, x: Entity)
    requires Closed(world) && world(cfg)
    ensures cfg.getProcessor(x).None? ==> CanRaise(world, ProcessorNotFound)
    ensures cfg.getProcessor(x).Some? ==>
      world(cfg.getProcessor(x).value.config) &&
      (cfg.getProcessor(x).value.Wrapped? ==> CanRaise(world, InvalidEntityType))
  {
  }

  /** Without a state machine for `x`, a configuration of `world` lets the engine raise
      UnprocessableEntity. */
  lemma NoMachineIn(world: Config -> bool, cfg: Config, x: Entity)
    requires world(cfg) && GetStateMachineForEntity(cfg.stateMachines, x).Err?
    ensures CanRaise(world, UnprocessableEntity)
  {
  }
}
