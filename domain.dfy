/** Entities shared by the comment controller and the two chat screens. */
module Domain {

  datatype Option<+T> = None | Some(value: T)

  /** Document ids (Mongo ObjectIds) are opaque; only equality matters. */
  type Id = nat

  /** Milliseconds since the epoch, as `Date.getTime()` returns them. */
  type Timestamp = int

  /** The sentinel subdomain of the landing site, which no tenant may use. */
  const MainSubdomain: string := "main"

  /** `!subdomain || subdomain == 'main'` rejects; a missing subdomain is "". */
  predicate ValidSubdomain(subdomain: string) {
    subdomain != "" && subdomain != MainSubdomain
  }

  /** A reply embedded in a comment. */
  datatype Reply = Reply(
    text: string,
    isAdminReply: bool,
    isNew: bool,
    subdomain: string,
    createdAt: Timestamp)

  /** A comment document as stored: `worker` is the raw reference (None when null). */
  datatype Comment = Comment(
    id: Id,
    worker: Option<Id>,
    subdomain: string,
    text: string,
    isNew: bool,
    hasUnreadAdminReply: bool,
    lastReplyTimestamp: Option<Timestamp>,
    replies: seq<Reply>,
    createdAt: Timestamp)

  /** The worker fields the controller selects when it populates a comment. */
  datatype Profile = Profile(name: string, department: Option<string>)

  /** A populated worker: its id and the selected fields. */
  datatype Worker = Worker(id: Id, name: string, department: Option<string>)

  /** What a populated comment carries under `worker`. `Placeholder` is the
      fallback object `getAllComments` substitutes; it has no `_id`. */
  datatype Author = Known(worker: Worker) | Placeholder {
    function Name(): string {
      match this
      case Known(w) => w.name
      case Placeholder => UnknownWorkerName
    }

    /** `author._id`, undefined for the placeholder. */
    function IdOf(): Option<Id> {
      match this
      case Known(w) => Some(w.id)
      case Placeholder => None
    }
  }

  const UnknownWorkerName: string := "Unknown Worker"
  const UnassignedDepartment: string := "Unassigned"

  /** A comment as returned to a client: the stored fields and the populated
      worker (None where the response holds `null`). */
  datatype PopulatedComment = PopulatedComment(comment: Comment, worker: Option<Author>) {
    /** `c.worker?._id`, undefined when the worker is null or the placeholder. */
    function WorkerId(): Option<Id> {
      if worker.Some? then worker.value.IdOf() else None
    }
  }

  /** The number of replies across a list of comments. */
  function TotalReplies(cs: seq<PopulatedComment>): nat {
    if cs == [] then 0 else TotalReplies(cs[..|cs| - 1]) + |cs[|cs| - 1].comment.replies|
  }

  /** The HTTP errors the controller raises, with their status codes. */
  datatype ApiError = BadRequest(message: string) | NotFound(message: string) | Internal(message: string) {
    function Status(): nat {
      match this
      case BadRequest(_) => 400
      case NotFound(_) => 404
      case Internal(_) => 500
    }
  }

  datatype Result<T> = Ok(value: T) | Err(error: ApiError)
}
