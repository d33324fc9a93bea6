/** What Process guarantees (processor.go:25-47) and where its errors come from (errors.go):
    the three phases run in order, the first error stops the rest with a fixed partial entity,
    and an InvalidState error always comes from a collaborator. */
module Processing {
  import opened Errors
  import opened Types
  import opened Calls
  import opened Model
  import Phases
  import Saving

  /** Every configuration: a world that is trivially closed. */
  ghost function Everything(): Config -> bool {
    (c: Config) => true
  }

  /** No repository was called. */
  predicate NoSaves(calls: seq<Call>) {
    forall i :: 0 <= i < |calls| ==> !calls[i].op.Saved?
  }

  /** A syncAndValidate error stops Process: it returns the entity as passed in with that
      error, and nothing but syncing and validation ran. */
  lemma ProcessStopsAfterSync(cfg: Config, e: Entity, action: Action, params: ActionParams)
    ensures var r := Process(cfg, e, action, params);
      var synced := SyncAndValidate(cfg, e, action, params);
      synced.out.err.Some? ==>
        r.out == Out(e, synced.out.err) && r.calls == synced.calls && Phases.AllOf(SyncPhase, r.calls)
  {
    Phases.SyncAndValidateFacts(Everything(), cfg, e, action, params);
  }

  /** An act error stops Process: it returns the synced entity with that error, and no
      repository was called. */
  lemma ProcessStopsAfterAct(cfg: Config, e: Entity, action: Action, params: ActionParams)
    ensures var r := Process(cfg, e, action, params);
      var synced := SyncAndValidate(cfg, e, action, params);
      var acted := Act(cfg, synced.out.value, action, params);
      synced.out.err.None? && acted.out.err.Some? ==>
        r.out == Out(synced.out.value, acted.out.err) && r.calls == synced.calls + acted.calls && NoSaves(r.calls)
  {
    var r := Process(cfg, e, action, params);
    var synced := SyncAndValidate(cfg, e, action, params);
    var acted := Act(cfg, synced.out.value, action, params);
    if synced.out.err.None? && acted.out.err.Some? {
      Phases.SyncAndValidateFacts(Everything(), cfg, e, action, params);
      Phases.ActFacts(Everything(), cfg, synced.out.value, action, params);
      NoSavesAppend(synced.calls, acted.calls);
    }
  }

  lemma NoSavesAppend(a: seq<Call>, b: seq<Call>)
    requires Phases.AllOf(SyncPhase, a) && Phases.AllOf(ActPhase, b)
    ensures NoSaves(a + b)
  {
    assert forall i :: 0 <= i < |a| ==> (a + b)[i] == a[i];
    assert forall i :: |a| <= i < |a + b| ==> (a + b)[i] == b[i - |a|];
  }

  /** Once syncAndValidate and act succeed, Process returns save's error with the acted
      entity, or on success the saved entity, or the acted one when save returned none. */
  lemma ProcessAfterSave(cfg: Config, e: Entity, action: Action, params: ActionParams)
    ensures var r := Process(cfg, e, action, params);
      var synced := SyncAndValidate(cfg, e, action, params);
      var acted := Act(cfg, synced.out.value, action, params);
      var saved := Save(cfg, Some(e), Some(acted.out.value));
      synced.out.err.None? && acted.out.err.None? ==>
        && r.calls == synced.calls + acted.calls + saved.calls
        && (saved.out.err.Some? ==> r.out == Out(acted.out.value, saved.out.err))
        && (saved.out.err.None? ==>
              r.out.err.None? && r.out.value == if saved.out.value.Some? then saved.out.value.value else acted.out.value)
  {
    var synced := SyncAndValidate(cfg, e, action, params);
    if synced.out.err.None? {
      var acted := Act(cfg, synced.out.value, action, params);
      if acted.out.err.None? {
        var saved := Save(cfg, Some(e), Some(acted.out.value));
        var calls := synced.calls + acted.calls + saved.calls;
        assert Process(cfg, e, action, params) ==
          if saved.out.err.Some? then Run(Out(acted.out.value, saved.out.err), calls)
          else if saved.out.value.None? then Run(Out(acted.out.value, None), calls)
          else Run(Out(saved.out.value.value, None), calls);
      }
    }
  }

  /** Every error Process returns was returned by a collaborator call in the trace, or is a
      sentinel the engine raises itself whose collaborator choice `world` holds: a resolver
      returning no processor (ProcessorNotFound), a resolver returning an adapter
      (InvalidEntityType), or a configuration without a state machine for some entity
      (UnprocessableEntity). `world` is any closed set of configurations holding `cfg`. */
  lemma ProcessErrorsIn(world: Config -> bool, cfg: Config, e: Entity, action: Action, params: ActionParams)
    requires Closed(world) && world(cfg)
    ensures var r := Process(cfg, e, action, params);
      r.out.err.Some? ==> CanRaise(world, r.out.err.value) || Reported(r.out.err.value, r.calls)
  {
    var synced := SyncAndValidate(cfg, e, action, params);
    Phases.SyncAndValidateFacts(world, cfg, e, action, params);
    var acted := Act(cfg, synced.out.value, action, params);
    Phases.ActFacts(world, cfg, synced.out.value, action, params);
    var saved := Save(cfg, Some(e), Some(acted.out.value));
    Saving.SaveFacts(world, cfg, Some(e), Some(acted.out.value));
    PhaseErrors(world, e, synced, acted, saved, Process(cfg, e, action, params));
  }

  /** Process's result from its three phases' runs: an error of Process is one of theirs, with
      the calls made up to it. */
  lemma PhaseErrors(world: Config -> bool, e: Entity, synced: Run<Entity>, acted: Run<Entity>,
                    saved: Run<Option<Entity>>, r: Run<Entity>)
    requires Phases.Accounted(world, synced.out.err, synced.calls)
    requires Phases.Accounted(world, acted.out.err, acted.calls)
    requires Saving.SaveAccounted(world, saved.out.err, saved.calls)
    requires r ==
      if synced.out.err.Some? then Run(Out(e, synced.out.err), synced.calls)
      else if acted.out.err.Some? then Run(Out(synced.out.value, acted.out.err), synced.calls + acted.calls)
      else if saved.out.err.Some? then Run(Out(acted.out.value, saved.out.err), synced.calls + acted.calls + saved.calls)
      else if saved.out.value.None? then Run(Out(acted.out.value, None), synced.calls + acted.calls + saved.calls)
      else Run(Out(saved.out.value.value, None), synced.calls + acted.calls + saved.calls)
    ensures r.out.err.Some? ==> CanRaise(world, r.out.err.value) || Reported(r.out.err.value, r.calls)
  {
    if synced.out.err.None? {
      Phases.AccountedAppend(world, acted.out.err, synced.calls, acted.calls);
      if acted.out.err.None? && saved.out.err.Some? {
        ReportedAppend(saved.out.err.value, synced.calls + acted.calls, saved.calls);
      }
    }
  }

  /** ProcessorNotFound that no collaborator returned comes from a resolver of the world
      that returned no processor for some entity. */
  lemma ProcessorNotFoundFromResolver(world: Config -> bool, cfg: Config, e: Entity, action: Action,
                                      params: ActionParams)
    requires Closed(world) && world(cfg)
    ensures var r := Process(cfg, e, action, params);
      r.out.err == Some(ProcessorNotFound) && !Reported(ProcessorNotFound, r.calls) ==>
        exists c, x :: world(c) && c.getProcessor(x).None?
  {
    ProcessErrorsIn(world, cfg, e, action, params);
  }

  /** InvalidEntityType that no collaborator returned comes from an adapter that a resolver
      of the world returned: only the adapter's narrowing raises it. */
  lemma InvalidEntityTypeFromAdapter(world: Config -> bool, cfg: Config, e: Entity, action: Action,
                                     params: ActionParams)
    requires Closed(world) && world(cfg)
    ensures var r := Process(cfg, e, action, params);
      r.out.err == Some(InvalidEntityType) && !Reported(InvalidEntityType, r.calls) ==>
        exists c, x :: world(c) && c.getProcessor(x).Some? && c.getProcessor(x).value.Wrapped?
  {
    ProcessErrorsIn(world, cfg, e, action, params);
  }

  /** UnprocessableEntity that no collaborator returned comes from a configuration of the
      world that has no state machine for some entity. */
  lemma UnprocessableEntityFromSelection(world: Config -> bool, cfg: Config, e: Entity, action: Action,
                                         params: ActionParams)
    requires Closed(world) && world(cfg)
    ensures var r := Process(cfg, e, action, params);
      r.out.err == Some(UnprocessableEntity) && !Reported(UnprocessableEntity, r.calls) ==>
        exists c, x :: world(c) && GetStateMachineForEntity(c.stateMachines, x).Err?
  {
    ProcessErrorsIn(world, cfg, e, action, params);
  }

  /** Every error Process returns is one the engine raises itself (UnprocessableEntity,
      InvalidEntityType, ProcessorNotFound) or one a collaborator call returned. */
  lemma ProcessErrors(cfg: Config, e: Entity, action: Action, params: ActionParams)
    ensures var r := Process(cfg, e, action, params);
      r.out.err.Some? ==> RaisedByEngine(r.out.err.value) || Reported(r.out.err.value, r.calls)
  {
    ProcessErrorsIn(Everything(), cfg, e, action, params);
  }

  /** The engine never raises InvalidState itself: a Process that fails with it got it from
      a collaborator (a syncer, a validation, a transition or a repository). */
  lemma InvalidStateOnlyFromCollaborators(cfg: Config, e: Entity, action: Action, params: ActionParams)
    ensures var r := Process(cfg, e, action, params);
      r.out.err == Some(InvalidState) ==> Reported(InvalidState, r.calls)
  {
    ProcessErrors(cfg, e, action, params);
  }
}
