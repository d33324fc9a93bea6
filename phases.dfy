/** What syncAndValidate, act and Process guarantee (processor.go:25-132): the children are
    processed before their parent, a child's result is written back only under the slot it
    was read from, errors stop everything that follows, and every error that is not one of
    the engine's own sentinels was returned by a collaborator. */
module Phases {
  import opened Errors
  import opened Types
  import opened KeyOrder
  import opened Calls
  import opened Model

  /** The phase run on the child at `s` through the processor the resolver gives for it;
      None when the resolver gives none. */
  ghost function ChildRun(phase: Phase, cfg: Config, e: Entity, action: Action, params: ActionParams, s: Slot)
    : Option<Run<Option<Entity>>>
    requires e.Has(s)
  {
    match cfg.getProcessor(e.At(s))
    case None => None
    case Some(p) => Some(Erased(phase, p, e.At(s), action, params))
  }

  /** What the children loop has established after the slots `slots`: the entity keeps its
      keys, type and fields, all calls are made below it, and on success each listed child
      was resolved and processed without error and holds what that run returned, while every
      other child is as it was. */
  ghost predicate RanSoFar(phase: Phase, cfg: Config, e: Entity, action: Action, params: ActionParams,
                           slots: seq<Slot>, r: Run<Entity>)
  {
    && SameShape(r.out.value, e) && r.out.value.kind == e.kind && r.out.value.fields == e.fields
    && AllNested(r.calls)
    && (r.out.err.None? ==>
          forall s :: e.Has(s) ==>
            if s in slots then
              var run := ChildRun(phase, cfg, e, action, params, s);
              run.Some? && run.value.out.err.None? && r.out.value.At(s) == run.value.out.value.value
            else r.out.value.At(s) == e.At(s))
  }

  /** The children loop changes no key of the entity, only the children it visits, and each
      of those only to what the phase made of that same child; on success every visited
      child was resolved and processed without error. All calls it makes are made below the
      entity, none for the entity itself. */
  lemma {:induction false} ChildrenShape(phase: Phase, cfg: Config, e: Entity, action: Action, params: ActionParams,
                                         slots: seq<Slot>)
    ensures RanSoFar(phase, cfg, e, action, params, slots, Children(phase, cfg, e, action, params, slots))
    decreases |slots|
  {
    if slots != [] {
      var init, last := slots[..|slots| - 1], slots[|slots| - 1];
      assert slots == init + [last];
      ChildrenShape(phase, cfg, e, action, params, init);
      var st := Children(phase, cfg, e, action, params, init);
      if st.out.err.None? {
        assert Children(phase, cfg, e, action, params, slots) == ChildStep(phase, cfg, e, action, params, st, last);
        ChildStepShape(phase, cfg, e, action, params, init, st, last);
      } else {
        assert Children(phase, cfg, e, action, params, slots) == st;
      }
    }
  }

  /** One child of the children loop keeps RanSoFar, with its slot added. */
  lemma ChildStepShape(phase: Phase, cfg: Config, e: Entity, action: Action, params: ActionParams,
                       slots: seq<Slot>, st: Run<Entity>, last: Slot)
    requires st.out.err.None? && RanSoFar(phase, cfg, e, action, params, slots, st)
    ensures RanSoFar(phase, cfg, e, action, params, slots + [last], ChildStep(phase, cfg, e, action, params, st, last))
  {
    var r := ChildStep(phase, cfg, e, action, params, st, last);
    if !e.Has(last) {
      assert r == st;
      assert forall s :: e.Has(s) ==> (s in slots + [last] <==> s in slots);
    } else if cfg.getProcessor(e.At(last)).None? {
      assert r == Run(Out(st.out.value, Some(ProcessorNotFound)), st.calls);
    } else {
      var cr := ChildRun(phase, cfg, e, action, params, last).value;
      var calls := st.calls + Nest(last, cr.calls);
      AllNestedAppend(st.calls, Nest(last, cr.calls));
      if cr.out.err.Some? {
        assert r == Run(Out(st.out.value, cr.out.err), calls);
      } else {
        ChildStepWrites(phase, cfg, e, action, params, slots, st, last);
      }
    }
  }

  /** The case of ChildStepShape where the child's result is written back. */
  lemma ChildStepWrites(phase: Phase, cfg: Config, e: Entity, action: Action, params: ActionParams,
                        slots: seq<Slot>, st: Run<Entity>, last: Slot)
    requires st.out.err.None? && RanSoFar(phase, cfg, e, action, params, slots, st)
    requires e.Has(last) && ChildRun(phase, cfg, e, action, params, last).Some?
    requires ChildRun(phase, cfg, e, action, params, last).value.out.err.None?
    ensures RanSoFar(phase, cfg, e, action, params, slots + [last], ChildStep(phase, cfg, e, action, params, st, last))
  {
    var cr := ChildRun(phase, cfg, e, action, params, last).value;
    var calls := st.calls + Nest(last, cr.calls);
    AllNestedAppend(st.calls, Nest(last, cr.calls));
    var v := st.out.value;
    assert v.Has(last);
    var u := v.UpdateSubEntity(last.typeKey, last.entityKey, cr.out.value.value);
    assert ChildStep(phase, cfg, e, action, params, st, last) == Run(Out(u.value, None), calls);
    forall s | e.Has(s)
      ensures if s in slots + [last] then
          var run := ChildRun(phase, cfg, e, action, params, s);
          run.Some? && run.value.out.err.None? && u.value.At(s) == run.value.out.value.value
        else u.value.At(s) == e.At(s)
    {
      if s != last {
        assert u.value.At(s) == v.At(s);
        assert s in slots + [last] <==> s in slots;
      }
    }
  }

  /** The collaborator calls a phase may make: syncAndValidate only syncs and validates,
      act only runs action syncers and state-machine transitions. */
  predicate OpOf(phase: Phase, op: Op) {
    if phase == SyncPhase then op.Synced? || op.Validated? else op.SyncerDid? || op.MachineDid?
  }

  predicate AllOf(phase: Phase, calls: seq<Call>) {
    forall i :: 0 <= i < |calls| ==> OpOf(phase, calls[i].op)
  }

  lemma AllOfAppend(phase: Phase, a: seq<Call>, b: seq<Call>)
    requires AllOf(phase, a) && AllOf(phase, b)
    ensures AllOf(phase, a + b)
  {
    assert forall i :: |a| <= i < |a + b| ==> (a + b)[i] == b[i - |a|];
  }

  /** An error is accounted for in `world` when a collaborator call in the trace returned it,
      or it is a sentinel the engine raises on its own account and `world` holds the
      collaborator choice that sentinel needs. */
  ghost predicate Accounted(world: Config -> bool, err: Option<Error>, calls: seq<Call>) {
    err.Some? ==> CanRaise(world, err.value) || Reported(err.value, calls)
  }

  lemma AccountedAppend(world: Config -> bool, err: Option<Error>, a: seq<Call>, b: seq<Call>)
    requires Accounted(world, err, a) || Accounted(world, err, b)
    ensures Accounted(world, err, a + b)
  {
    if err.Some? { ReportedAppend(err.value, a, b); }
  }

  /** The adapter's syncAndValidate and act make only calls of their phase and account for
      every error they return. */
  lemma {:induction false} ErasedFacts(world: Config -> bool, phase: Phase, p: Processor, e: Entity, action: Action,
                                       params: ActionParams)
    requires Closed(world) && world(p.config)
    requires p.Wrapped? ==> CanRaise(world, InvalidEntityType)
    ensures var r := Erased(phase, p, e, action, params);
      AllOf(phase, r.calls) && Accounted(world, r.out.err, r.calls)
    decreases Height(e), 2, 0
  {
    if p.Wrapped? && e.kind != p.entityKind {
    } else if phase == SyncPhase {
      SyncAndValidateFacts(world, p.config, e, action, params);
    } else {
      ActFacts(world, p.config, e, action, params);
    }
  }

  lemma {:induction false} ChildrenFacts(world: Config -> bool, phase: Phase, cfg: Config, e: Entity, action: Action,
                                         params: ActionParams, slots: seq<Slot>)
    requires Closed(world) && world(cfg)
    ensures var r := Children(phase, cfg, e, action, params, slots);
      AllOf(phase, r.calls) && Accounted(world, r.out.err, r.calls)
    decreases Height(e), 0, |slots|
  {
    if slots != [] {
      var init := slots[..|slots| - 1];
      ChildrenFacts(world, phase, cfg, e, action, params, init);
      var st := Children(phase, cfg, e, action, params, init);
      if st.out.err.None? {
        ChildrenShape(phase, cfg, e, action, params, init);
        ChildStepFacts(world, phase, cfg, e, action, params, st, slots[|slots| - 1]);
      }
    }
  }

  lemma {:induction false} ChildStepFacts(world: Config -> bool, phase: Phase, cfg: Config, e: Entity, action: Action,
                                          params: ActionParams, st: Run<Entity>, s: Slot)
    requires Closed(world) && world(cfg)
    requires st.out.err.None? && SameShape(st.out.value, e) && AllOf(phase, st.calls)
    ensures var r := ChildStep(phase, cfg, e, action, params, st, s);
      AllOf(phase, r.calls) && Accounted(world, r.out.err, r.calls)
    decreases Height(e), 0, 0
  {
    if e.Has(s) {
      ResolvedIn(world, cfg, e.At(s));
      if cfg.getProcessor(e.At(s)).Some? {
        var p := cfg.getProcessor(e.At(s)).value;
        HeightBelow(e, s);
        ErasedFacts(world, phase, p, e.At(s), action, params);
        assert ChildRun(phase, cfg, e, action, params, s) == Some(Erased(phase, p, e.At(s), action, params));
        ChildStepAfterRun(world, phase, cfg, e, action, params, st, s);
      }
    }
  }

  /** One child adds to the loop's calls only its own, nested under its slot, and the
      loop's error is then the child's, or none. */
  lemma ChildStepAfterRun(world: Config -> bool, phase: Phase, cfg: Config, e: Entity, action: Action,
                          params: ActionParams, st: Run<Entity>, s: Slot)
    requires st.out.err.None? && SameShape(st.out.value, e) && AllOf(phase, st.calls)
    requires e.Has(s) && ChildRun(phase, cfg, e, action, params, s).Some?
    requires var cr := ChildRun(phase, cfg, e, action, params, s).value;
      AllOf(phase, cr.calls) && Accounted(world, cr.out.err, cr.calls)
    ensures var r := ChildStep(phase, cfg, e, action, params, st, s);
      AllOf(phase, r.calls) && Accounted(world, r.out.err, r.calls)
  {
    var cr := ChildRun(phase, cfg, e, action, params, s).value;
    var nested := Nest(s, cr.calls);
    assert AllOf(phase, nested);
    AllOfAppend(phase, st.calls, nested);
    assert st.out.value.Has(s);
    if cr.out.err.Some? && !CanRaise(world, cr.out.err.value) {
      ReportedNest(cr.out.err.value, s, cr.calls);
      ReportedAppend(cr.out.err.value, st.calls, nested);
    }
  }

  lemma {:induction false} SyncAndValidateFacts(world: Config -> bool, cfg: Config, e: Entity, action: Action,
                                                params: ActionParams)
    requires Closed(world) && world(cfg)
    ensures var r := SyncAndValidate(cfg, e, action, params);
      AllOf(SyncPhase, r.calls) && Accounted(world, r.out.err, r.calls)
    decreases Height(e), 1, 0
  {
    ChildrenFacts(world, SyncPhase, cfg, e, action, params, ChildOrder(e));
    var kids := Children(SyncPhase, cfg, e, action, params, ChildOrder(e));
    if kids.out.err.None? {
      SyncOwnFacts(world, cfg, e, action, kids);
      var synced := SyncOwn(cfg, e, action, kids);
      if synced.out.err.None? {
        ValidateOwnFacts(world, cfg, e, action, params, synced);
      }
    }
  }

  lemma SyncOwnFacts(world: Config -> bool, cfg: Config, e: Entity, action: Action, kids: Run<Entity>)
    requires AllOf(SyncPhase, kids.calls) && kids.out.err.None?
    ensures var r := SyncOwn(cfg, e, action, kids);
      AllOf(SyncPhase, r.calls) && Accounted(world, r.out.err, r.calls)
  {
    var r := SyncOwn(cfg, e, action, kids);
    if r != kids {
      var own := [Call([], Synced(kids.out.value, r.out))];
      assert r.calls == kids.calls + own;
      assert Returned(own[0].op) == r.out.err;
      AllOfAppend(SyncPhase, kids.calls, own);
      AccountedAppend(world, r.out.err, kids.calls, own);
    }
  }

  lemma ValidateOwnFacts(world: Config -> bool, cfg: Config, e: Entity, action: Action, params: ActionParams,
                         synced: Run<Entity>)
    requires world(cfg) && AllOf(SyncPhase, synced.calls)
    ensures var r := ValidateOwn(cfg, e, action, params, synced);
      AllOf(SyncPhase, r.calls) && Accounted(world, r.out.err, r.calls)
  {
    if GetStateMachineForEntity(cfg.stateMachines, e).Ok? {
      var sm := GetStateMachineForEntity(cfg.stateMachines, e).value;
      var verdict := sm.validate(synced.out.value, action, params);
      var own := [Call([], Validated(synced.out.value, verdict))];
      assert Returned(own[0].op) == verdict;
      AllOfAppend(SyncPhase, synced.calls, own);
      AccountedAppend(world, verdict, synced.calls, own);
    } else {
      NoMachineIn(world, cfg, e);
    }
  }

  lemma {:induction false} ActFacts(world: Config -> bool, cfg: Config, e: Entity, action: Action, params: ActionParams)
    requires Closed(world) && world(cfg)
    ensures var r := Act(cfg, e, action, params);
      AllOf(ActPhase, r.calls) && Accounted(world, r.out.err, r.calls)
    decreases Height(e), 1, 0
  {
    ChildrenFacts(world, ActPhase, cfg, e, action, params, ChildOrder(e));
    var kids := Children(ActPhase, cfg, e, action, params, ChildOrder(e));
    if kids.out.err.None? {
      if GetStateMachineForEntity(cfg.stateMachines, kids.out.value).Ok? {
        var sm := GetStateMachineForEntity(cfg.stateMachines, kids.out.value).value;
        ActOwnFacts(world, cfg, sm, action, params, kids);
      } else {
        NoMachineIn(world, cfg, kids.out.value);
      }
    }
  }

  lemma ActOwnFacts(world: Config -> bool, cfg: Config, sm: StateMachine, action: Action, params: ActionParams,
                    kids: Run<Entity>)
    requires AllOf(ActPhase, kids.calls)
    ensures var r := Transition(sm, action, params, ActionSync(cfg, action, params, kids));
      AllOf(ActPhase, r.calls) && Accounted(world, r.out.err, r.calls)
  {
    var synced := ActionSync(cfg, action, params, kids);
    if synced != kids {
      var own := [Call([], SyncerDid(kids.out.value, synced.out))];
      assert synced.calls == kids.calls + own;
      AllOfAppend(ActPhase, kids.calls, own);
    }
    var res := sm.doAction(synced.out.value, action, params, synced.out.err);
    var own := [Call([], MachineDid(synced.out.value, synced.out.err, res))];
    assert Returned(own[0].op) == res.err;
    AllOfAppend(ActPhase, synced.calls, own);
    AccountedAppend(world, res.err, synced.calls, own);
  }

  /** What the children loop has called after the slots `slots`: below each slot, nothing,
      or exactly the run of that listed child through its resolved processor; on success,
      that run for every listed child. */
  ghost predicate ProcessedSoFar(phase: Phase, cfg: Config, e: Entity, action: Action, params: ActionParams,
                                 slots: seq<Slot>, r: Run<Entity>)
  {
    && (forall s :: Under(r.calls, s) == [] ||
          (s in slots && e.Has(s) && ChildRun(phase, cfg, e, action, params, s).Some?
           && Under(r.calls, s) == ChildRun(phase, cfg, e, action, params, s).value.calls))
    && (r.out.err.None? ==>
          forall s :: s in slots && e.Has(s) ==>
            ChildRun(phase, cfg, e, action, params, s).Some?
            && Under(r.calls, s) == ChildRun(phase, cfg, e, action, params, s).value.calls)
  }

  /** Each child is processed at most once, through the processor resolved for it, on its
      original value: the calls made below a slot are none, or exactly the calls of that
      child's own run. A child whose processor is not found is not processed at all. On
      success every child was processed. */
  lemma {:induction false} ChildrenCalls(phase: Phase, cfg: Config, e: Entity, action: Action, params: ActionParams,
                                         slots: seq<Slot>)
    requires Distinct(slots)
    ensures ProcessedSoFar(phase, cfg, e, action, params, slots, Children(phase, cfg, e, action, params, slots))
    decreases |slots|
  {
    var r := Children(phase, cfg, e, action, params, slots);
    if slots == [] {
      forall s ensures Under(r.calls, s) == [] { }
    } else {
      var init, last := slots[..|slots| - 1], slots[|slots| - 1];
      assert slots == init + [last];
      assert Distinct(init);
      assert last !in init;
      ChildrenCalls(phase, cfg, e, action, params, init);
      var st := Children(phase, cfg, e, action, params, init);
      if st.out.err.None? {
        assert r == ChildStep(phase, cfg, e, action, params, st, last);
        ChildStepCalls(phase, cfg, e, action, params, init, st, last);
      } else {
        assert r == st;
        assert forall s :: s in init ==> s in slots;
      }
    }
  }

  /** One child of the children loop keeps ProcessedSoFar, with its slot added. */
  lemma ChildStepCalls(phase: Phase, cfg: Config, e: Entity, action: Action, params: ActionParams,
                       slots: seq<Slot>, st: Run<Entity>, last: Slot)
    requires st.out.err.None? && last !in slots
    requires ProcessedSoFar(phase, cfg, e, action, params, slots, st)
    ensures ProcessedSoFar(phase, cfg, e, action, params, slots + [last], ChildStep(phase, cfg, e, action, params, st, last))
  {
    var r := ChildStep(phase, cfg, e, action, params, st, last);
    if e.Has(last) && cfg.getProcessor(e.At(last)).Some? {
      var cr := ChildRun(phase, cfg, e, action, params, last).value;
      assert r.calls == st.calls + Nest(last, cr.calls);
      ProcessedAfterRun(phase, cfg, e, action, params, slots, st, last, r);
    } else {
      assert r.calls == st.calls;
      assert r.out.err.None? ==> !e.Has(last);
      ProcessedAfterSkip(phase, cfg, e, action, params, slots, st, last, r);
    }
  }

  /** ProcessedSoFar after a child that was run: its calls are appended under its slot. */
  lemma ProcessedAfterRun(phase: Phase, cfg: Config, e: Entity, action: Action, params: ActionParams,
                          slots: seq<Slot>, st: Run<Entity>, last: Slot, r: Run<Entity>)
    requires last !in slots && ProcessedSoFar(phase, cfg, e, action, params, slots, st)
    requires e.Has(last) && ChildRun(phase, cfg, e, action, params, last).Some?
    requires r.calls == st.calls + Nest(last, ChildRun(phase, cfg, e, action, params, last).value.calls)
    requires r.out.err.None? ==> st.out.err.None?
    ensures ProcessedSoFar(phase, cfg, e, action, params, slots + [last], r)
  {
    var cr := ChildRun(phase, cfg, e, action, params, last).value;
    forall s
      ensures Under(r.calls, s) == if s == last then cr.calls else Under(st.calls, s)
    {
      UnderAppend(st.calls, Nest(last, cr.calls), s);
      UnderNest(last, cr.calls, s);
      if s == last {
        assert Under(st.calls, s) == [];
      }
    }
    forall s | Under(r.calls, s) != []
      ensures s in slots + [last] && e.Has(s) && ChildRun(phase, cfg, e, action, params, s).Some?
              && Under(r.calls, s) == ChildRun(phase, cfg, e, action, params, s).value.calls
    {
      if s != last {
        assert Under(st.calls, s) != [];
        assert s in slots;
      }
    }
    if r.out.err.None? {
      forall s | s in slots + [last] && e.Has(s)
        ensures ChildRun(phase, cfg, e, action, params, s).Some?
                && Under(r.calls, s) == ChildRun(phase, cfg, e, action, params, s).value.calls
      {
        if s != last {
          assert s in slots;
        }
      }
    }
  }

  /** ProcessedSoFar after a child that made no call, which on success is a slot the entity
      does not hold. */
  lemma ProcessedAfterSkip(phase: Phase, cfg: Config, e: Entity, action: Action, params: ActionParams,
                           slots: seq<Slot>, st: Run<Entity>, last: Slot, r: Run<Entity>)
    requires ProcessedSoFar(phase, cfg, e, action, params, slots, st)
    requires r.calls == st.calls
    requires r.out.err.None? ==> st.out.err.None? && !e.Has(last)
    ensures ProcessedSoFar(phase, cfg, e, action, params, slots + [last], r)
  {
    assert forall s :: s in slots + [last] <==> s in slots || s == last;
  }

  /** `calls` is `prefix` followed only by calls made for the entity itself. */
  predicate OwnAfter(prefix: seq<Call>, calls: seq<Call>) {
    prefix <= calls && forall i :: |prefix| <= i < |calls| ==> calls[i].path == []
  }

  lemma OwnAfterTrans(a: seq<Call>, b: seq<Call>, c: seq<Call>)
    requires OwnAfter(a, b) && OwnAfter(b, c)
    ensures OwnAfter(a, c)
  {
  }

  lemma SyncOwnAfter(cfg: Config, e: Entity, action: Action, kids: Run<Entity>)
    ensures OwnAfter(kids.calls, SyncOwn(cfg, e, action, kids).calls)
  {
  }

  lemma ValidateOwnAfter(cfg: Config, e: Entity, action: Action, params: ActionParams, synced: Run<Entity>)
    ensures OwnAfter(synced.calls, ValidateOwn(cfg, e, action, params, synced).calls)
    ensures var r := ValidateOwn(cfg, e, action, params, synced);
      r.out.err.None? ==>
        |r.calls| > |synced.calls| && r.calls[|r.calls| - 1] == Call([], Validated(r.out.value, None))
  {
  }

  lemma ActOwnAfter(cfg: Config, sm: StateMachine, action: Action, params: ActionParams, kids: Run<Entity>)
    ensures OwnAfter(kids.calls, Transition(sm, action, params, ActionSync(cfg, action, params, kids)).calls)
    ensures |Transition(sm, action, params, ActionSync(cfg, action, params, kids)).calls| > |kids.calls|
  {
    var synced := ActionSync(cfg, action, params, kids);
    assert OwnAfter(kids.calls, synced.calls);
    OwnAfterTrans(kids.calls, synced.calls, Transition(sm, action, params, synced).calls);
  }

  /** syncAndValidate first runs the children loop, then makes its own calls, all for the
      entity itself; when the children loop fails it returns that outcome and calls nothing
      for the entity; on success its last call validated the entity it returns. */
  lemma SyncOwnCalls(cfg: Config, e: Entity, action: Action, params: ActionParams)
    ensures var r := SyncAndValidate(cfg, e, action, params);
      var kids := Children(SyncPhase, cfg, e, action, params, ChildOrder(e));
      && OwnAfter(kids.calls, r.calls)
      && (kids.out.err.Some? ==> r == kids)
      && (r.out.err.None? ==> |r.calls| > |kids.calls| && r.calls[|r.calls| - 1] == Call([], Validated(r.out.value, None)))
  {
    var r := SyncAndValidate(cfg, e, action, params);
    var kids := Children(SyncPhase, cfg, e, action, params, ChildOrder(e));
    if kids.out.err.Some? {
      assert r == kids;
    } else {
      var synced := SyncOwn(cfg, e, action, kids);
      SyncOwnAfter(cfg, e, action, kids);
      if synced.out.err.Some? {
        assert r == synced;
      } else {
        assert r == ValidateOwn(cfg, e, action, params, synced);
        ValidateOwnAfter(cfg, e, action, params, synced);
        OwnAfterTrans(kids.calls, synced.calls, r.calls);
      }
    }
  }

  /** act first runs the children loop, then makes its own calls, all for the entity itself;
      when the children loop fails it returns that outcome and calls nothing for the entity. */
  lemma ActOwnCalls(cfg: Config, e: Entity, action: Action, params: ActionParams)
    ensures var r := Act(cfg, e, action, params);
      var kids := Children(ActPhase, cfg, e, action, params, ChildOrder(e));
      && OwnAfter(kids.calls, r.calls)
      && (kids.out.err.Some? ==> r == kids)
      && (r.out.err.None? ==> |r.calls| > |kids.calls|)
  {
    var r := Act(cfg, e, action, params);
    var kids := Children(ActPhase, cfg, e, action, params, ChildOrder(e));
    if kids.out.err.Some? {
      assert r == kids;
    } else {
      assert r == ActOwn(cfg, action, params, kids);
      if GetStateMachineForEntity(cfg.stateMachines, kids.out.value).Ok? {
        ActOwnAfter(cfg, GetStateMachineForEntity(cfg.stateMachines, kids.out.value).value, action, params, kids);
      }
    }
  }

  /** The run of one of the two recursive phases. */
  function PhaseRun(phase: Phase, cfg: Config, e: Entity, action: Action, params: ActionParams): Run<Entity> {
    if phase == SyncPhase then SyncAndValidate(cfg, e, action, params) else Act(cfg, e, action, params)
  }

  /** Either phase runs its children loop first and stops there when it fails. */
  lemma PhaseAfterChildren(phase: Phase, cfg: Config, e: Entity, action: Action, params: ActionParams)
    ensures var r := PhaseRun(phase, cfg, e, action, params);
      var kids := Children(phase, cfg, e, action, params, ChildOrder(e));
      OwnAfter(kids.calls, r.calls) && (kids.out.err.Some? ==> r == kids)
  {
    if phase == SyncPhase { SyncOwnCalls(cfg, e, action, params); } else { ActOwnCalls(cfg, e, action, params); }
  }

  /** Calls appended for the entity itself leave the calls below every slot unchanged. */
  lemma OwnAfterUnder(prefix: seq<Call>, calls: seq<Call>)
    requires OwnAfter(prefix, calls)
    ensures forall s :: Under(calls, s) == Under(prefix, s)
  {
    var own := calls[|prefix|..];
    assert calls == prefix + own;
    forall s ensures Under(calls, s) == Under(prefix, s) {
      UnderAppend(prefix, own, s);
      UnderOwn(own, s);
    }
  }

  /** Every child is processed before the entity's own collaborators are called, and a child
      that fails stops the phase before any of them is. */
  lemma ChildrenFirst(phase: Phase, cfg: Config, e: Entity, action: Action, params: ActionParams)
    ensures var r := PhaseRun(phase, cfg, e, action, params);
      var kids := Children(phase, cfg, e, action, params, ChildOrder(e));
      && OwnAfter(kids.calls, r.calls) && AllNested(kids.calls) && OwnCallsLast(r.calls)
      && (kids.out.err.Some? ==> r == kids && AllNested(r.calls))
  {
    var kids := Children(phase, cfg, e, action, params, ChildOrder(e));
    var r := PhaseRun(phase, cfg, e, action, params);
    ChildrenShape(phase, cfg, e, action, params, ChildOrder(e));
    PhaseAfterChildren(phase, cfg, e, action, params);
    NestedThenOwn(kids.calls, r.calls);
  }

  /** Calls below the entity followed by calls for the entity itself have the entity's own
      calls last. */
  lemma NestedThenOwn(prefix: seq<Call>, calls: seq<Call>)
    requires AllNested(prefix) && OwnAfter(prefix, calls)
    ensures OwnCallsLast(calls)
  {
    var own := calls[|prefix|..];
    assert calls == prefix + own;
    OwnCallsLastAfterNested(prefix, own);
  }

  /** The calls made below the child at `s` during a whole phase: none, or exactly that
      child's own run of the phase; on success, every child's run. */
  lemma PhaseChildCalls(phase: Phase, cfg: Config, e: Entity, action: Action, params: ActionParams)
    ensures var r := PhaseRun(phase, cfg, e, action, params);
      && (forall s :: Under(r.calls, s) == [] ||
            (e.Has(s) && ChildRun(phase, cfg, e, action, params, s).Some?
             && Under(r.calls, s) == ChildRun(phase, cfg, e, action, params, s).value.calls))
      && (r.out.err.None? ==>
            forall s :: e.Has(s) ==>
              ChildRun(phase, cfg, e, action, params, s).Some?
              && ChildRun(phase, cfg, e, action, params, s).value.out.err.None?
              && Under(r.calls, s) == ChildRun(phase, cfg, e, action, params, s).value.calls)
  {
    var r := PhaseRun(phase, cfg, e, action, params);
    var kids := Children(phase, cfg, e, action, params, ChildOrder(e));
    ChildOrderDistinct(e);
    ChildOrderMembers(e);
    ChildrenCalls(phase, cfg, e, action, params, ChildOrder(e));
    ChildrenShape(phase, cfg, e, action, params, ChildOrder(e));
    PhaseAfterChildren(phase, cfg, e, action, params);
    OwnAfterUnder(kids.calls, r.calls);
    ChildCallsOfPhase(phase, cfg, e, action, params, ChildOrder(e), kids, r);
  }

  /** PhaseChildCalls, from what the children loop established over all the entity's slots. */
  lemma ChildCallsOfPhase(phase: Phase, cfg: Config, e: Entity, action: Action, params: ActionParams,
                          slots: seq<Slot>, kids: Run<Entity>, r: Run<Entity>)
    requires forall s :: s in slots <==> e.Has(s)
    requires ProcessedSoFar(phase, cfg, e, action, params, slots, kids)
    requires RanSoFar(phase, cfg, e, action, params, slots, kids)
    requires forall s :: Under(r.calls, s) == Under(kids.calls, s)
    requires r.out.err.None? ==> kids.out.err.None?
    ensures forall s :: Under(r.calls, s) == [] ||
              (e.Has(s) && ChildRun(phase, cfg, e, action, params, s).Some?
               && Under(r.calls, s) == ChildRun(phase, cfg, e, action, params, s).value.calls)
    ensures r.out.err.None? ==>
              forall s :: e.Has(s) ==>
                ChildRun(phase, cfg, e, action, params, s).Some?
                && ChildRun(phase, cfg, e, action, params, s).value.out.err.None?
                && Under(r.calls, s) == ChildRun(phase, cfg, e, action, params, s).value.calls
  {
  }

  /** act never returns the action syncer's error as such: once the children are done and a
      state machine is chosen for the child-updated entity, act's last call is that machine's
      Do, which receives the syncer's entity and error (none when no syncer has the action),
      and act returns exactly what Do returned. */
  lemma ActForwardsSyncerError(cfg: Config, action: Action, params: ActionParams, kids: Run<Entity>)
    requires kids.out.err.None? && GetStateMachineForEntity(cfg.stateMachines, kids.out.value).Ok?
    ensures var r := ActOwn(cfg, action, params, kids);
        var sm := GetStateMachineForEntity(cfg.stateMachines, kids.out.value).value;
        && |r.calls| > |kids.calls|
        && var last := r.calls[|r.calls| - 1];
        && last.path == [] && last.op.MachineDid?
        && r.out == last.op.result == sm.doAction(last.op.input, action, params, last.op.syncerErr)
        && match GetSyncerForEntityAndAction(cfg.syncers, kids.out.value, action)
           case None =>
             && |r.calls| == |kids.calls| + 1
             && last.op.input == kids.out.value && last.op.syncerErr.None?
           case Some(syncer) =>
             var res := syncer.doAction(kids.out.value, action, params);
             && |r.calls| == |kids.calls| + 2
             && r.calls[|r.calls| - 2] == Call([], SyncerDid(kids.out.value, res))
             && last.op.input == res.value && last.op.syncerErr == res.err
  {
  }
}
