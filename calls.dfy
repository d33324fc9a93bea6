/** The calls the engine makes to effectful collaborators.

    Syncers, state machines and repositories act on the world outside the engine (remote
    systems, storage), so which of them the engine calls, in what order and with what
    arguments is the engine's observable behaviour. The model records every such call, with
    its arguments and its result, in a trace. The pure gates (CanProcess, NeedSync, HasAction)
    take no context in the source and are not recorded. */
module Calls {
  import opened Errors
  import opened Types

  datatype Op =
    | Synced(input: Entity, result: Out<Entity>)                                // Syncer.Sync
    | Validated(input: Entity, verdict: Option<Error>)                          // StateMachine.Validate
    | SyncerDid(input: Entity, result: Out<Entity>)                             // Syncer.Do
    | MachineDid(input: Entity, syncerErr: Option<Error>, result: Out<Entity>)  // StateMachine.Do
    | Saved(oldEntity: Option<Entity>, newEntity: Option<Entity>, saved: Out<Option<Entity>>) // Repository.Save

  /** The error the collaborator returned from this call, if any. */
  function Returned(op: Op): Option<Error> {
    match op
    case Synced(_, r) => r.err
    case Validated(_, v) => v
    case SyncerDid(_, r) => r.err
    case MachineDid(_, _, r) => r.err
    case Saved(_, _, r) => r.err
  }

  /** A call made while processing the sub-entity reached by `path` from the entity being
      processed; an empty path is a call made for that entity itself. */
  datatype Call = Call(path: seq<Slot>, op: Op)

  /** What one engine operation returns, together with the calls it made. */
  datatype Run<+T> = Run(out: Out<T>, calls: seq<Call>)

  /** The calls a child made, as its parent sees them. */
  function Nest(s: Slot, calls: seq<Call>): (r: seq<Call>)
    ensures |r| == |calls|
    ensures forall i :: 0 <= i < |r| ==> r[i].path == [s] + calls[i].path && r[i].op == calls[i].op
  {
    if calls == [] then [] else [Call([s] + calls[0].path, calls[0].op)] + Nest(s, calls[1..])
  }

  /** The calls made below the child at `s`, as that child sees them. */
  function Under(calls: seq<Call>, s: Slot): seq<Call> {
    if calls == [] then [] else UnderOne(calls[0], s) + Under(calls[1..], s)
  }

  /** One call as the child at `s` sees it: nothing unless the call was made below that child. */
  function UnderOne(c: Call, s: Slot): seq<Call> {
    if |c.path| > 0 && c.path[0] == s then [Call(c.path[1..], c.op)] else []
  }

  lemma {:induction false} UnderAppend(a: seq<Call>, b: seq<Call>, s: Slot)
    ensures Under(a + b, s) == Under(a, s) + Under(b, s)
  {
    if a != [] {
      assert (a + b)[0] == a[0] && (a + b)[1..] == a[1..] + b;
      UnderAppend(a[1..], b, s);
      calc {
        Under(a + b, s);
        UnderOne(a[0], s) + Under(a[1..] + b, s);
        UnderOne(a[0], s) + (Under(a[1..], s) + Under(b, s));
        (UnderOne(a[0], s) + Under(a[1..], s)) + Under(b, s);
      }
    } else {
      assert a + b == b;
    }
  }

  lemma {:induction false} UnderNest(s: Slot, calls: seq<Call>, t: Slot)
    ensures Under(Nest(s, calls), t) == if s == t then calls else []
  {
    if calls != [] {
      UnderNest(s, calls[1..], t);
      assert ([s] + calls[0].path)[1..] == calls[0].path;
      if s == t {
        assert calls == [Call(calls[0].path, calls[0].op)] + calls[1..];
      }
    }
  }

  /** No call was made for the entity itself. */
  predicate AllNested(calls: seq<Call>) {
    forall i :: 0 <= i < |calls| ==> calls[i].path != []
  }

  lemma {:induction false} UnderOwn(calls: seq<Call>, s: Slot)
    requires forall i :: 0 <= i < |calls| ==> calls[i].path == []
    ensures Under(calls, s) == []
  {
    if calls != [] {
      UnderOwn(calls[1..], s);
    }
  }

  /** Calls made for the entity itself all come after every call made for its sub-entities. */
  predicate OwnCallsLast(calls: seq<Call>) {
    forall i, j :: 0 <= i < j < |calls| && calls[i].path == [] ==> calls[j].path == []
  }

  /** Some call in the trace returned `err`: the error came from a collaborator. */
  ghost predicate Reported(err: Error, calls: seq<Call>) {
    exists i :: 0 <= i < |calls| && Returned(calls[i].op) == Some(err)
  }

  lemma ReportedAppend(err: Error, a: seq<Call>, b: seq<Call>)
    ensures Reported(err, a) || Reported(err, b) ==> Reported(err, a + b)
  {
    if Reported(err, a) {
      var i :| 0 <= i < |a| && Returned(a[i].op) == Some(err);
      assert (a + b)[i] == a[i];
    } else if Reported(err, b) {
      var i :| 0 <= i < |b| && Returned(b[i].op) == Some(err);
      assert (a + b)[|a| + i] == b[i];
    }
  }

  lemma ReportedNest(err: Error, s: Slot, calls: seq<Call>)
    ensures Reported(err, calls) ==> Reported(err, Nest(s, calls))
  {
    if Reported(err, calls) {
      var i :| 0 <= i < |calls| && Returned(calls[i].op) == Some(err);
      assert Nest(s, calls)[i].op == calls[i].op;
    }
  }

  lemma AllNestedAppend(a: seq<Call>, b: seq<Call>)
    requires AllNested(a) && AllNested(b)
    ensures AllNested(a + b)
  {
    assert forall i :: |a| <= i < |a + b| ==> (a + b)[i] == b[i - |a|];
  }

  /** A trace of the sub-entities' calls followed by the entity's own calls keeps own calls last. */
  lemma OwnCallsLastAfterNested(nested: seq<Call>, own: seq<Call>)
    requires AllNested(nested)
    requires forall i :: 0 <= i < |own| ==> own[i].path == []
    ensures OwnCallsLast(nested + own)
  {
    var all := nested + own;
    assert forall k :: 0 <= k < |nested| ==> all[k] == nested[k];
    assert forall k :: |nested| <= k < |all| ==> all[k] == own[k - |nested|];
  }
}
