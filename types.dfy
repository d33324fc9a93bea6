/** The entity contract, the collaborator contracts and the processor configuration
    (types.go), with the two kinds of type-erased processor (processor.go, generic.go). */
module Types {
  import opened Errors
  import opened KeyOrder

  datatype Option<+T> = None | Some(value: T)

  /** The outcome of an operation that can only fail. */
  datatype Result<+T> = Ok(value: T) | Err(error: Error)

  /** Go's `(value, error)` pair: a value is returned alongside the error, if any. */
  datatype Out<+T> = Out(value: T, err: Option<Error>)

  type TypeKey = string
  type EntityKey = string

  /** The label of the requested operation. */
  type Action = string

  /** The action's payload; the engine only passes it on. */
  type ActionParams = string

  /** The position of a sub-entity inside its parent. */
  datatype Slot = Slot(typeKey: TypeKey, entityKey: EntityKey)

  /** The sub-entities of one type key, by entity key. */
  datatype Group = Group(members: map<EntityKey, Entity>)

  /** One node of the tree: its concrete type, its business fields (opaque to the engine)
      and its sub-entities. Values are immutable, so copying is the identity. */
  datatype Entity = Entity(kind: string, fields: map<string, string>, groups: map<TypeKey, Group>)
  {
    /** The structural view every entity exposes: typeKey -> entityKey -> child. */
    function SubEntities(): (m: map<TypeKey, map<EntityKey, Entity>>)
      ensures m.Keys == groups.Keys
      ensures forall t :: t in m ==> m[t] == groups[t].members
    {
      map t | t in groups :: groups[t].members
    }

    predicate Has(s: Slot) {
      s.typeKey in groups && s.entityKey in groups[s.typeKey].members
    }

    function At(s: Slot): Entity
      requires Has(s)
    {
      groups[s.typeKey].members[s.entityKey]
    }

    function Copy(): Entity {
      this
    }

    /** Replaces one existing child; fails with InvalidState when the slot does not exist. */
    function UpdateSubEntity(typeKey: TypeKey, entityKey: EntityKey, child: Entity): (r: Result<Entity>)
      ensures r.Ok? <==> Has(Slot(typeKey, entityKey))
      ensures r.Err? ==> r.error == InvalidState
      ensures r.Ok? ==> r.value.kind == kind && r.value.fields == fields && SameShape(r.value, this)
      ensures r.Ok? ==> r.value.At(Slot(typeKey, entityKey)) == child
      ensures r.Ok? ==> forall s :: Has(s) && s != Slot(typeKey, entityKey) ==> r.value.At(s) == At(s)
    {
      if Has(Slot(typeKey, entityKey)) then
        var g := groups[typeKey];
        Ok(this.(groups := groups[typeKey := Group(g.members[entityKey := child])]))
      else
        Err(InvalidState)
    }
  }

  /** Same type keys, and the same entity keys under each. */
  predicate SameShape(a: Entity, b: Entity) {
    && a.groups.Keys == b.groups.Keys
    && forall t :: t in a.groups ==> a.groups[t].members.Keys == b.groups[t].members.Keys
  }

  /** The child at `s` of an optional entity, if both exist. */
  function SubAt(x: Option<Entity>, s: Slot): (r: Option<Entity>)
    ensures r.Some? <==> x.Some? && x.value.Has(s)
  {
    if x.Some? && x.value.Has(s) then Some(x.value.At(s)) else None
  }

  /** A state machine: whether it governs an entity, whether an action is legal for it,
      and the transition itself, which also receives the action syncer's error. */
  datatype StateMachine = StateMachine(
    canProcess: Entity -> bool,
    validate: (Entity, Action, ActionParams) -> Option<Error>,
    doAction: (Entity, Action, ActionParams, Option<Error>) -> Out<Entity>)

  /** A syncer with an external system. `canProcess` sees only the entity, `needSync` the
      entity and the action, `hasAction` only the action. */
  datatype Syncer = Syncer(
    sync: Entity -> Out<Entity>,
    canProcess: Entity -> bool,
    needSync: (Entity, Action) -> bool,
    doAction: (Entity, Action, ActionParams) -> Out<Entity>,
    hasAction: Action -> bool)

  /** Persists the difference between an optional old and an optional new entity. */
  datatype Repository = Repository(save: (Option<Entity>, Option<Entity>) -> Out<Option<Entity>>)

  /** The configuration of one processor. `getProcessor` returns None where Go's resolver
      returns a nil processor or a typed nil pointer. */
  datatype Config = Config(
    getProcessor: Entity -> Option<Processor>,
    stateMachines: seq<StateMachine>,
    repository: Option<Repository>,
    syncers: seq<Syncer>)

  /** A type-erased processor, as the resolver returns it: either a processor over the
      abstract entity type used directly, or a processor for one concrete type behind the
      adapter, which narrows every argument to that type first. */
  datatype Processor =
    | Direct(config: Config)
    | Wrapped(entityKind: string, config: Config)

  /** Creates the adapter around a processor for entities of concrete type `entityKind`. */
  function WrapProcessor(entityKind: string, config: Config): (p: Processor)
    ensures p.Wrapped? && p.entityKind == entityKind && p.config == config
  {
    Wrapped(entityKind, config)
  }

  // A well-founded measure for recursion over the tree.

  function Max(a: nat, b: nat): (m: nat)
    ensures a <= m && b <= m && (m == a || m == b)
  {
    if a < b then b else a
  }

  ghost function Height(e: Entity): nat
    decreases e, 2, 0
  {
    1 + GroupsHeight(e, Enumerate(e.groups.Keys))
  }

  ghost function GroupsHeight(e: Entity, ts: seq<TypeKey>): nat
    requires forall t :: t in ts ==> t in e.groups
    decreases e, 1, |ts|
  {
    if ts == [] then 0
    else Max(MembersHeight(e, ts[0], Enumerate(e.groups[ts[0]].members.Keys)), GroupsHeight(e, ts[1..]))
  }

  ghost function MembersHeight(e: Entity, t: TypeKey, ks: seq<EntityKey>): nat
    requires t in e.groups && forall k :: k in ks ==> k in e.groups[t].members
    decreases e, 0, |ks|
  {
    if ks == [] then 0
    else Max(Height(e.groups[t].members[ks[0]]), MembersHeight(e, t, ks[1..]))
  }

  lemma {:induction false} MembersHeightBound(e: Entity, t: TypeKey, ks: seq<EntityKey>, k: EntityKey)
    requires t in e.groups && (forall k :: k in ks ==> k in e.groups[t].members) && k in ks
    ensures Height(e.groups[t].members[k]) <= MembersHeight(e, t, ks)
    decreases |ks|
  {
    if ks[0] != k {
      MembersHeightBound(e, t, ks[1..], k);
    }
  }

  lemma {:induction false} GroupsHeightBound(e: Entity, ts: seq<TypeKey>, t: TypeKey)
    requires (forall t :: t in ts ==> t in e.groups) && t in ts
    ensures MembersHeight(e, t, Enumerate(e.groups[t].members.Keys)) <= GroupsHeight(e, ts)
    decreases |ts|
  {
    if ts[0] != t {
      GroupsHeightBound(e, ts[1..], t);
    }
  }

  /** Every child is strictly lower than its parent. */
  lemma HeightBelow(e: Entity, s: Slot)
    requires e.Has(s)
    ensures Height(e.At(s)) < Height(e)
  {
    MembersHeightBound(e, s.typeKey, Enumerate(e.groups[s.typeKey].members.Keys), s.entityKey);
    GroupsHeightBound(e, Enumerate(e.groups.Keys), s.typeKey);
  }

  ghost function OptionHeight(x: Option<Entity>): nat {
    if x.Some? then Height(x.value) else 0
  }

  /** The measure of a save call: the height of the taller of its two sides. */
  ghost function PairHeight(oldEntity: Option<Entity>, newEntity: Option<Entity>): nat {
    Max(OptionHeight(oldEntity), OptionHeight(newEntity))
  }

  lemma PairHeightBelow(oldEntity: Option<Entity>, newEntity: Option<Entity>, s: Slot)
    requires SubAt(oldEntity, s).Some? || SubAt(newEntity, s).Some?
    ensures PairHeight(SubAt(oldEntity, s), SubAt(newEntity, s)) < PairHeight(oldEntity, newEntity)
  {
    if SubAt(oldEntity, s).Some? { HeightBelow(oldEntity.value, s); }
    if SubAt(newEntity, s).Some? { HeightBelow(newEntity.value, s); }
  }
}
