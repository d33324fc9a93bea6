/** What save guarantees (processor.go:134-274): it visits every slot of the old and the new
    entity exactly once, saves each child with whichever versions exist, writes a saved child
    back only where the new entity holds it, and ends with at most one repository call. */
module Saving {
  import opened Errors
  import opened Types
  import opened KeyOrder
  import opened Calls
  import opened Model

  /** The processor save resolves for a slot: from the old child when there is one, from the
      new child otherwise. */
  ghost function Resolved(cfg: Config, oldEntity: Option<Entity>, newEntity: Option<Entity>, s: Slot): Option<Processor>
    requires InDiff(oldEntity, newEntity, s)
  {
    var oldChild := SubAt(oldEntity, s);
    cfg.getProcessor(if oldChild.Some? then oldChild.value else SubAt(newEntity, s).value)
  }

  /** The save of the child at `s`, with its old and new versions (either may be absent),
      through the resolved processor; None when none is resolved. */
  ghost function ChildSave(cfg: Config, oldEntity: Option<Entity>, newEntity: Option<Entity>, s: Slot)
    : Option<Run<Option<Entity>>>
    requires InDiff(oldEntity, newEntity, s)
  {
    match Resolved(cfg, oldEntity, newEntity, s)
    case None => None
    case Some(p) => Some(ErasedSave(p, SubAt(oldEntity, s), SubAt(newEntity, s)))
  }

  /** The child the reconciled new entity holds at `s`: what the child's save returned, or
      the new child itself when that save returned nothing. */
  ghost function Reconciled(cfg: Config, oldEntity: Option<Entity>, newEntity: Entity, s: Slot): Entity
    requires newEntity.Has(s)
  {
    match ChildSave(cfg, oldEntity, Some(newEntity), s)
    case Some(run) => if run.out.err.None? && run.out.value.Some? then run.out.value.value else newEntity.At(s)
    case None => newEntity.At(s)
  }

  /** What the children loop of save has established after the slots `slots`: all its calls
      are made below the entity, and on success every listed slot held on either side was
      saved without error, and the new entity (if any) keeps its shape, type and fields, with
      each listed child reconciled and every other child as it was. */
  ghost predicate SavedSoFar(cfg: Config, oldEntity: Option<Entity>, newEntity: Option<Entity>, slots: seq<Slot>,
                             r: Run<Option<Entity>>)
  {
    && AllNested(r.calls)
    && (r.out.err.None? ==>
          && (forall s :: s in slots && InDiff(oldEntity, newEntity, s) ==>
                ChildSave(cfg, oldEntity, newEntity, s).Some?
                && ChildSave(cfg, oldEntity, newEntity, s).value.out.err.None?)
          && (newEntity.Some? ==>
                && r.out.value.Some? && SameShape(r.out.value.value, newEntity.value)
                && r.out.value.value.kind == newEntity.value.kind && r.out.value.value.fields == newEntity.value.fields
                && forall s :: newEntity.value.Has(s) ==>
                     r.out.value.value.At(s) ==
                       if s in slots then Reconciled(cfg, oldEntity, newEntity.value, s) else newEntity.value.At(s)))
  }

  /** The children loop of save adds no key and removes none: on success the new entity keeps
      its shape, each child visited is replaced by what its save returned (if anything), and
      old-only children leave no trace in it. All its calls are made below the entity. */
  lemma {:induction false} SaveChildrenShape(cfg: Config, oldEntity: Option<Entity>, newEntity: Option<Entity>,
                                             slots: seq<Slot>)
    ensures SavedSoFar(cfg, oldEntity, newEntity, slots, SaveChildren(cfg, oldEntity, newEntity, slots))
    decreases |slots|
  {
    if slots != [] {
      var init, last := slots[..|slots| - 1], slots[|slots| - 1];
      assert slots == init + [last];
      SaveChildrenShape(cfg, oldEntity, newEntity, init);
      var st := SaveChildren(cfg, oldEntity, newEntity, init);
      if st.out.err.None? {
        assert SaveChildren(cfg, oldEntity, newEntity, slots) == SaveStep(cfg, oldEntity, newEntity, st, last);
        SaveStepShape(cfg, oldEntity, newEntity, init, st, last);
      } else {
        assert SaveChildren(cfg, oldEntity, newEntity, slots) == st;
      }
    }
  }

  /** One slot of the save loop keeps SavedSoFar, with that slot added. */
  lemma SaveStepShape(cfg: Config, oldEntity: Option<Entity>, newEntity: Option<Entity>, slots: seq<Slot>,
                      st: Run<Option<Entity>>, last: Slot)
    requires st.out.err.None? && (st.out.value.Some? <==> newEntity.Some?)
    requires SavedSoFar(cfg, oldEntity, newEntity, slots, st)
    ensures SavedSoFar(cfg, oldEntity, newEntity, slots + [last], SaveStep(cfg, oldEntity, newEntity, st, last))
  {
    var r := SaveStep(cfg, oldEntity, newEntity, st, last);
    assert forall s :: s in slots + [last] <==> s in slots || s == last;
    if !InDiff(oldEntity, newEntity, last) {
      assert r == st;
    } else if Resolved(cfg, oldEntity, newEntity, last).None? {
      assert r == Run(Out(None, Some(ProcessorNotFound)), st.calls);
    } else {
      var cr := ChildSave(cfg, oldEntity, newEntity, last).value;
      var calls := st.calls + Nest(last, cr.calls);
      AllNestedAppend(st.calls, Nest(last, cr.calls));
      if cr.out.err.Some? {
        assert r == Run(Out(None, cr.out.err), calls);
      } else if SubAt(newEntity, last).Some? && cr.out.value.Some? {
        SaveStepWrites(cfg, oldEntity, newEntity.value, slots, st, last);
      } else {
        assert r == Run(st.out, calls);
      }
    }
  }

  /** The slot case of SaveStepShape where a saved new child is written back. */
  lemma SaveStepWrites(cfg: Config, oldEntity: Option<Entity>, newEntity: Entity, slots: seq<Slot>,
                       st: Run<Option<Entity>>, last: Slot)
    requires st.out.err.None? && st.out.value.Some?
    requires SavedSoFar(cfg, oldEntity, Some(newEntity), slots, st)
    requires newEntity.Has(last) && Resolved(cfg, oldEntity, Some(newEntity), last).Some?
    requires ChildSave(cfg, oldEntity, Some(newEntity), last).value.out.err.None?
    requires ChildSave(cfg, oldEntity, Some(newEntity), last).value.out.value.Some?
    ensures SavedSoFar(cfg, oldEntity, Some(newEntity), slots + [last], SaveStep(cfg, oldEntity, Some(newEntity), st, last))
  {
    var cr := ChildSave(cfg, oldEntity, Some(newEntity), last).value;
    var calls := st.calls + Nest(last, cr.calls);
    AllNestedAppend(st.calls, Nest(last, cr.calls));
    var v := st.out.value.value;
    assert v.Has(last);
    var u := v.UpdateSubEntity(last.typeKey, last.entityKey, cr.out.value.value);
    assert SaveStep(cfg, oldEntity, Some(newEntity), st, last) == Run(Out(Some(u.value), None), calls);
    assert Reconciled(cfg, oldEntity, newEntity, last) == cr.out.value.value;
    forall s | newEntity.Has(s)
      ensures u.value.At(s) == if s in slots + [last] then Reconciled(cfg, oldEntity, newEntity, s) else newEntity.At(s)
    {
      if s != last {
        assert u.value.At(s) == v.At(s);
        assert s in slots + [last] <==> s in slots;
      }
    }
  }

  /** What the children loop of save has called after the slots `slots`: below each slot,
      nothing, or exactly the save of that listed slot through its own resolved processor with
      its own old and new versions; on success, that save for every listed slot. */
  ghost predicate CalledSoFar(cfg: Config, oldEntity: Option<Entity>, newEntity: Option<Entity>, slots: seq<Slot>,
                              r: Run<Option<Entity>>)
  {
    && (forall s :: Under(r.calls, s) == [] ||
          (s in slots && InDiff(oldEntity, newEntity, s) && ChildSave(cfg, oldEntity, newEntity, s).Some?
           && Under(r.calls, s) == ChildSave(cfg, oldEntity, newEntity, s).value.calls))
    && (r.out.err.None? ==>
          forall s :: s in slots && InDiff(oldEntity, newEntity, s) ==>
            ChildSave(cfg, oldEntity, newEntity, s).Some?
            && Under(r.calls, s) == ChildSave(cfg, oldEntity, newEntity, s).value.calls)
  }

  /** Each slot is saved at most once, and only through its own resolved processor with its
      own old and new versions; slots outside the loop's list are not saved at all. On
      success every listed slot was saved. */
  lemma {:induction false} SaveChildrenCalls(cfg: Config, oldEntity: Option<Entity>, newEntity: Option<Entity>,
                                             slots: seq<Slot>)
    requires Distinct(slots)
    ensures CalledSoFar(cfg, oldEntity, newEntity, slots, SaveChildren(cfg, oldEntity, newEntity, slots))
    decreases |slots|
  {
    var r := SaveChildren(cfg, oldEntity, newEntity, slots);
    if slots == [] {
      forall s ensures Under(r.calls, s) == [] { }
    } else {
      var init, last := slots[..|slots| - 1], slots[|slots| - 1];
      assert slots == init + [last];
      assert Distinct(init);
      assert last !in init;
      SaveChildrenCalls(cfg, oldEntity, newEntity, init);
      var st := SaveChildren(cfg, oldEntity, newEntity, init);
      if st.out.err.None? {
        assert r == SaveStep(cfg, oldEntity, newEntity, st, last);
        SaveStepCalls(cfg, oldEntity, newEntity, init, st, last);
      } else {
        assert r == st;
        assert forall s :: s in init ==> s in slots;
      }
    }
  }

  /** One slot of the save loop keeps CalledSoFar, with that slot added. */
  lemma SaveStepCalls(cfg: Config, oldEntity: Option<Entity>, newEntity: Option<Entity>, slots: seq<Slot>,
                      st: Run<Option<Entity>>, last: Slot)
    requires st.out.err.None? && (st.out.value.Some? <==> newEntity.Some?)
    requires last !in slots
    requires CalledSoFar(cfg, oldEntity, newEntity, slots, st)
    ensures CalledSoFar(cfg, oldEntity, newEntity, slots + [last], SaveStep(cfg, oldEntity, newEntity, st, last))
  {
    var r := SaveStep(cfg, oldEntity, newEntity, st, last);
    if InDiff(oldEntity, newEntity, last) && Resolved(cfg, oldEntity, newEntity, last).Some? {
      var cr := ChildSave(cfg, oldEntity, newEntity, last).value;
      assert r.calls == st.calls + Nest(last, cr.calls);
      assert r.out.err.None? ==> cr.out.err.None?;
      CalledAfterSave(cfg, oldEntity, newEntity, slots, st, last, r);
    } else {
      assert r.calls == st.calls;
      assert r.out.err.None? ==> !InDiff(oldEntity, newEntity, last);
      CalledAfterSkip(cfg, oldEntity, newEntity, slots, st, last, r);
    }
  }

  /** CalledSoFar after a slot whose child was saved: its calls are appended under the slot. */
  lemma CalledAfterSave(cfg: Config, oldEntity: Option<Entity>, newEntity: Option<Entity>, slots: seq<Slot>,
                        st: Run<Option<Entity>>, last: Slot, r: Run<Option<Entity>>)
    requires last !in slots && CalledSoFar(cfg, oldEntity, newEntity, slots, st)
    requires InDiff(oldEntity, newEntity, last) && ChildSave(cfg, oldEntity, newEntity, last).Some?
    requires r.calls == st.calls + Nest(last, ChildSave(cfg, oldEntity, newEntity, last).value.calls)
    requires r.out.err.None? ==> st.out.err.None?
    ensures CalledSoFar(cfg, oldEntity, newEntity, slots + [last], r)
  {
    var cr := ChildSave(cfg, oldEntity, newEntity, last).value;
    forall s
      ensures Under(r.calls, s) == if s == last then cr.calls else Under(st.calls, s)
    {
      UnderAppend(st.calls, Nest(last, cr.calls), s);
      UnderNest(last, cr.calls, s);
      if s == last {
        assert Under(st.calls, s) == [];
      }
    }
    forall s | Under(r.calls, s) != []
      ensures s in slots + [last] && InDiff(oldEntity, newEntity, s) && ChildSave(cfg, oldEntity, newEntity, s).Some?
              && Under(r.calls, s) == ChildSave(cfg, oldEntity, newEntity, s).value.calls
    {
      if s != last {
        assert Under(st.calls, s) != [];
        assert s in slots;
      }
    }
    if r.out.err.None? {
      forall s | s in slots + [last] && InDiff(oldEntity, newEntity, s)
        ensures ChildSave(cfg, oldEntity, newEntity, s).Some?
                && Under(r.calls, s) == ChildSave(cfg, oldEntity, newEntity, s).value.calls
      {
        if s != last {
          assert s in slots;
        }
      }
    }
  }

  /** CalledSoFar after a slot that made no call, which on success is one neither side holds. */
  lemma CalledAfterSkip(cfg: Config, oldEntity: Option<Entity>, newEntity: Option<Entity>, slots: seq<Slot>,
                        st: Run<Option<Entity>>, last: Slot, r: Run<Option<Entity>>)
    requires CalledSoFar(cfg, oldEntity, newEntity, slots, st)
    requires r.calls == st.calls
    requires r.out.err.None? ==> st.out.err.None? && !InDiff(oldEntity, newEntity, last)
    ensures CalledSoFar(cfg, oldEntity, newEntity, slots + [last], r)
  {
    assert forall s :: s in slots + [last] <==> s in slots || s == last;
  }

  /** Save only ever calls repositories. */
  predicate AllSaves(calls: seq<Call>) {
    forall i :: 0 <= i < |calls| ==> calls[i].op.Saved?
  }

  lemma AllSavesAppend(a: seq<Call>, b: seq<Call>)
    requires AllSaves(a) && AllSaves(b)
    ensures AllSaves(a + b)
  {
    assert forall i :: |a| <= i < |a + b| ==> (a + b)[i] == b[i - |a|];
  }

  /** An error of save is returned by a repository call in the trace, or it is one of the two
      sentinels save raises itself (it selects no state machine, so never
      UnprocessableEntity) and `world` holds the collaborator choice that sentinel needs. */
  ghost predicate SaveAccounted(world: Config -> bool, err: Option<Error>, calls: seq<Call>) {
    err.Some? ==>
      (err.value != UnprocessableEntity && CanRaise(world, err.value)) || Reported(err.value, calls)
  }

  lemma {:induction false} ErasedSaveFacts(world: Config -> bool, p: Processor, oldEntity: Option<Entity>,
                                           newEntity: Option<Entity>)
    requires Closed(world) && world(p.config)
    requires p.Wrapped? ==> CanRaise(world, InvalidEntityType)
    ensures var r := ErasedSave(p, oldEntity, newEntity);
      AllSaves(r.calls) && SaveAccounted(world, r.out.err, r.calls)
    decreases PairHeight(oldEntity, newEntity), 2, 0
  {
    SaveFacts(world, p.config, oldEntity, newEntity);
    var inner := Save(p.config, oldEntity, newEntity);
    var r := ErasedSave(p, oldEntity, newEntity);
    if p.Wrapped? {
      if oldEntity.Some? && oldEntity.value.kind != p.entityKind {
        assert r.calls == [];
      } else if newEntity.Some? && newEntity.value.kind != p.entityKind {
        assert r.calls == [];
      } else {
        assert r.calls == inner.calls && r.out.err == inner.out.err;
      }
    }
  }

  lemma {:induction false} SaveChildrenFacts(world: Config -> bool, cfg: Config, oldEntity: Option<Entity>,
                                             newEntity: Option<Entity>, slots: seq<Slot>)
    requires Closed(world) && world(cfg)
    ensures var r := SaveChildren(cfg, oldEntity, newEntity, slots);
      AllSaves(r.calls) && SaveAccounted(world, r.out.err, r.calls)
    decreases PairHeight(oldEntity, newEntity), 0, |slots|
  {
    if slots != [] {
      var init := slots[..|slots| - 1];
      SaveChildrenFacts(world, cfg, oldEntity, newEntity, init);
      SaveChildrenShape(cfg, oldEntity, newEntity, init);
      var st := SaveChildren(cfg, oldEntity, newEntity, init);
      if st.out.err.None? {
        SaveStepFacts(world, cfg, oldEntity, newEntity, st, slots[|slots| - 1]);
      }
    }
  }

  lemma {:induction false} SaveStepFacts(world: Config -> bool, cfg: Config, oldEntity: Option<Entity>,
                                         newEntity: Option<Entity>, st: Run<Option<Entity>>, s: Slot)
    requires Closed(world) && world(cfg)
    requires st.out.err.None? && (st.out.value.Some? <==> newEntity.Some?)
    requires newEntity.Some? ==> SameShape(st.out.value.value, newEntity.value)
    requires AllSaves(st.calls)
    ensures var r := SaveStep(cfg, oldEntity, newEntity, st, s);
      AllSaves(r.calls) && SaveAccounted(world, r.out.err, r.calls)
    decreases PairHeight(oldEntity, newEntity), 0, 0
  {
    if InDiff(oldEntity, newEntity, s) {
      var oldChild, newChild := SubAt(oldEntity, s), SubAt(newEntity, s);
      ResolvedIn(world, cfg, if oldChild.Some? then oldChild.value else newChild.value);
      if Resolved(cfg, oldEntity, newEntity, s).Some? {
        var p := Resolved(cfg, oldEntity, newEntity, s).value;
        PairHeightBelow(oldEntity, newEntity, s);
        ErasedSaveFacts(world, p, oldChild, newChild);
        SaveStepAfterChild(world, cfg, oldEntity, newEntity, st, s);
      }
    }
  }

  /** One slot of save adds to the loop's calls only the child's own, nested under the slot. */
  lemma SaveStepAfterChild(world: Config -> bool, cfg: Config, oldEntity: Option<Entity>, newEntity: Option<Entity>,
                           st: Run<Option<Entity>>, s: Slot)
    requires st.out.err.None? && (st.out.value.Some? <==> newEntity.Some?)
    requires newEntity.Some? ==> SameShape(st.out.value.value, newEntity.value)
    requires AllSaves(st.calls)
    requires InDiff(oldEntity, newEntity, s) && ChildSave(cfg, oldEntity, newEntity, s).Some?
    requires var cr := ChildSave(cfg, oldEntity, newEntity, s).value;
      AllSaves(cr.calls) && SaveAccounted(world, cr.out.err, cr.calls)
    ensures var r := SaveStep(cfg, oldEntity, newEntity, st, s);
      AllSaves(r.calls) && SaveAccounted(world, r.out.err, r.calls)
  {
    var cr := ChildSave(cfg, oldEntity, newEntity, s).value;
    var nested := Nest(s, cr.calls);
    assert AllSaves(nested);
    AllSavesAppend(st.calls, nested);
    if cr.out.err.Some? {
      ReportedNest(cr.out.err.value, s, cr.calls);
      ReportedAppend(cr.out.err.value, st.calls, nested);
    }
  }

  lemma {:induction false} SaveFacts(world: Config -> bool, cfg: Config, oldEntity: Option<Entity>,
                                     newEntity: Option<Entity>)
    requires Closed(world) && world(cfg)
    ensures var r := Save(cfg, oldEntity, newEntity);
      AllSaves(r.calls) && SaveAccounted(world, r.out.err, r.calls)
    decreases PairHeight(oldEntity, newEntity), 1, 0
  {
    if oldEntity.Some? || newEntity.Some? {
      var kids := SaveChildren(cfg, oldEntity, newEntity, DiffOrder(oldEntity, newEntity));
      SaveChildrenFacts(world, cfg, oldEntity, newEntity, DiffOrder(oldEntity, newEntity));
      SaveUnfold(cfg, oldEntity, newEntity);
      SaveAfterChildren(world, cfg, oldEntity, newEntity, kids, Save(cfg, oldEntity, newEntity));
    }
  }

  /** save adds to what its children loop established only the repository call. */
  lemma SaveAfterChildren(world: Config -> bool, cfg: Config, oldEntity: Option<Entity>, newEntity: Option<Entity>,
                          kids: Run<Option<Entity>>, r: Run<Option<Entity>>)
    requires r == if kids.out.err.Some? then kids else Persist(cfg, oldEntity, newEntity, kids)
    requires AllSaves(kids.calls) && SaveAccounted(world, kids.out.err, kids.calls)
    ensures AllSaves(r.calls) && SaveAccounted(world, r.out.err, r.calls)
  {
    if kids.out.err.None? {
      PersistFacts(world, cfg, oldEntity, newEntity, kids);
    }
  }

  /** save, once both sides are not absent: the children loop, then Persist unless it failed. */
  lemma SaveUnfold(cfg: Config, oldEntity: Option<Entity>, newEntity: Option<Entity>)
    requires oldEntity.Some? || newEntity.Some?
    ensures var kids := SaveChildren(cfg, oldEntity, newEntity, DiffOrder(oldEntity, newEntity));
      Save(cfg, oldEntity, newEntity) == if kids.out.err.Some? then kids else Persist(cfg, oldEntity, newEntity, kids)
  {
  }

  lemma PersistFacts(world: Config -> bool, cfg: Config, oldEntity: Option<Entity>, newEntity: Option<Entity>,
                     kids: Run<Option<Entity>>)
    requires AllSaves(kids.calls)
    ensures var r := Persist(cfg, oldEntity, newEntity, kids);
      AllSaves(r.calls) && SaveAccounted(world, r.out.err, r.calls)
  {
    var r := Persist(cfg, oldEntity, newEntity, kids);
    if cfg.repository.Some? {
      var own := r.calls[|kids.calls|..];
      assert r.calls == kids.calls + own;
      assert Returned(own[0].op) == r.out.err;
      AllSavesAppend(kids.calls, own);
      if r.out.err.Some? {
        ReportedAppend(r.out.err.value, kids.calls, own);
      }
    }
  }

  /** save with neither version does nothing; otherwise it reconciles the children first and
      then, with a repository, makes exactly one repository call, with the old entity and the
      reconciled new one (none when the new side is absent), returning the repository's
      answer (none on error); without a repository it returns the reconciled new entity,
      which is absent exactly when the new side is. A failing child stops save with that
      error and nothing else is called. */
  lemma SaveOutcome(cfg: Config, oldEntity: Option<Entity>, newEntity: Option<Entity>)
    ensures var r := Save(cfg, oldEntity, newEntity);
      && (oldEntity.None? && newEntity.None? ==> r == Run(Out(None, None), []))
      && (oldEntity.Some? || newEntity.Some? ==>
            var kids := SaveChildren(cfg, oldEntity, newEntity, DiffOrder(oldEntity, newEntity));
            && (kids.out.err.Some? ==> r.out == Out(None, kids.out.err) && r.calls == kids.calls)
            && (kids.out.err.None? ==>
                  && (kids.out.value.Some? <==> newEntity.Some?)
                  && match cfg.repository
                     case None => r.calls == kids.calls && r.out == Out(kids.out.value, None)
                     case Some(repo) =>
                       var res := repo.save(oldEntity, kids.out.value);
                       && r.calls == kids.calls + [Call([], Saved(oldEntity, kids.out.value, res))]
                       && r.out == if res.err.Some? then Out(None, res.err) else res))
  {
  }

  /** Save diff completeness: every slot of the old or the new entity is saved exactly once,
      with its old and new versions (one of them absent for old-only and new-only keys),
      through the processor resolved from the old version when there is one; no other slot
      is saved. A failing save stops the diff, so on error some slots may not be saved. */
  lemma SaveVisitsDiff(cfg: Config, oldEntity: Option<Entity>, newEntity: Option<Entity>)
    ensures var r := Save(cfg, oldEntity, newEntity);
      && (forall s :: !InDiff(oldEntity, newEntity, s) ==> Under(r.calls, s) == [])
      && (forall s :: InDiff(oldEntity, newEntity, s) ==>
            Under(r.calls, s) == [] ||
            (ChildSave(cfg, oldEntity, newEntity, s).Some?
             && Under(r.calls, s) == ChildSave(cfg, oldEntity, newEntity, s).value.calls))
      && (r.out.err.None? ==>
            forall s :: InDiff(oldEntity, newEntity, s) ==>
              ChildSave(cfg, oldEntity, newEntity, s).Some?
              && ChildSave(cfg, oldEntity, newEntity, s).value.out.err.None?
              && Under(r.calls, s) == ChildSave(cfg, oldEntity, newEntity, s).value.calls)
  {
    var r := Save(cfg, oldEntity, newEntity);
    if oldEntity.None? && newEntity.None? {
      forall s ensures !InDiff(oldEntity, newEntity, s) && Under(r.calls, s) == [] { }
    } else {
      var order := DiffOrder(oldEntity, newEntity);
      var kids := SaveChildren(cfg, oldEntity, newEntity, order);
      DiffOrderDistinct(oldEntity, newEntity);
      DiffOrderMembers(oldEntity, newEntity);
      SaveChildrenCalls(cfg, oldEntity, newEntity, order);
      SaveChildrenShape(cfg, oldEntity, newEntity, order);
      SaveOutcome(cfg, oldEntity, newEntity);
      var own := r.calls[|kids.calls|..];
      assert r.calls == kids.calls + own;
      forall s ensures Under(r.calls, s) == Under(kids.calls, s) {
        UnderAppend(kids.calls, own, s);
        UnderOwn(own, s);
      }
    }
  }

  /** On success the reconciled new entity (the one handed to the repository, or returned
      without one) is the new entity with the same keys, each child replaced by what its save
      returned when that is a value, and kept as it was when the save returned nothing. */
  lemma SaveReconciles(cfg: Config, oldEntity: Option<Entity>, newEntity: Entity)
    ensures var kids := SaveChildren(cfg, oldEntity, Some(newEntity), DiffOrder(oldEntity, Some(newEntity)));
      kids.out.err.None? ==>
        && kids.out.value.Some? && SameShape(kids.out.value.value, newEntity)
        && kids.out.value.value.kind == newEntity.kind && kids.out.value.value.fields == newEntity.fields
        && forall s :: newEntity.Has(s) ==> kids.out.value.value.At(s) == Reconciled(cfg, oldEntity, newEntity, s)
  {
    DiffOrderMembers(oldEntity, Some(newEntity));
    SaveChildrenShape(cfg, oldEntity, Some(newEntity), DiffOrder(oldEntity, Some(newEntity)));
  }
}
