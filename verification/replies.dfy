/**
 * The reply shapes of the URL service. Every public operation returns a value with an
 * optional error field instead of throwing; these datatypes give those shapes, and
 * Message gives the exact error text each failure carries.
 */
module Replies {
  import opened Options

  /** Every error a create or lookup call can report. */
  datatype ServiceError =
    | NotConfigured       // the remote store has no endpoint or key
    | CodesExhausted      // ten retries all collided
    | DatabaseSaveFailed  // the remote insert returned an error
    | Unexpected          // a remote call threw during creation
    | LocalSaveFailed     // local storage threw during creation
    | NotFound            // no usable mapping for the code
    | RetrieveFailed      // a lookup threw

  function Message(e: ServiceError): string
  {
    match e
    case NotConfigured => "Supabase not configured"
    case CodesExhausted => "Failed to generate unique short code"
    case DatabaseSaveFailed => "Failed to save URL to database"
    case Unexpected => "An unexpected error occurred"
    case LocalSaveFailed => "Failed to save URL locally"
    case NotFound => "Short URL not found"
    case RetrieveFailed => "Failed to retrieve URL"
  }

  /**
   * The error texts are pairwise different, so a caller (the pages display the text) can tell
   * every failure apart, and modelling errors by ServiceError loses nothing.
   */
  lemma MessagesDistinct(e1: ServiceError, e2: ServiceError)
    ensures Message(e1) == Message(e2) <==> e1 == e2
  {
  }

  /** `{ shortCode, error? }`, the reply of a create call. */
  datatype Created = Created(shortCode: string, error: Option<ServiceError>)

  /** Every failing create call answers with an empty short code. */
  function Rejected(e: ServiceError): Created
  {
    Created("", Some(e))
  }

  /** `{ url }` or `{ error }`, the reply of a lookup call. */
  datatype Lookup = Found(url: string) | Missing(error: ServiceError)

  /** What one call to the remote store does: answers, answers with an error object, or throws. */
  datatype DbOutcome = DbOk | DbError | DbThrows

  /** A reply of the unified layer: the backend's reply plus the `isLocal` tag. */
  datatype Tagged<T> = Tagged(result: T, isLocal: bool)
}
