/** The engine's error values (errors.go). */
module Errors {

  /** The four sentinel errors of the package, plus any other error a collaborator returns.
      Distinct constructors are distinct values, so callers can tell the kinds apart. */
  datatype Error =
    | UnprocessableEntity     // no state machine accepted the entity
    | InvalidState            // for collaborators to report an illegal state or transition
    | InvalidEntityType       // the adapter could not narrow an entity to its concrete type
    | ProcessorNotFound       // the resolver had no processor for a sub-entity
    | Other(message: string)  // any other error a collaborator chooses to return

  /** The sentinels the engine raises on its own account; InvalidState is not one of them. */
  predicate RaisedByEngine(e: Error) {
    e == UnprocessableEntity || e == InvalidEntityType || e == ProcessorNotFound
  }

  /** The four sentinels are pairwise distinct, and InvalidState is not one the engine raises. */
  lemma SentinelsDistinct()
    ensures UnprocessableEntity != InvalidState && UnprocessableEntity != InvalidEntityType
    ensures UnprocessableEntity != ProcessorNotFound && InvalidState != InvalidEntityType
    ensures InvalidState != ProcessorNotFound && InvalidEntityType != ProcessorNotFound
    ensures !RaisedByEngine(InvalidState)
  {
  }
}
