/** Vocabulary shared by every module of the model. */
module Common {
  datatype Option<+T> = None | Some(value: T)

  /**
   A database timestamp. The clock readings of different transactions come in any order; only the
   outbox asks that a completion does not read a time before the claim it completes.
   */
  type Time = int

  /** The states of a row in the transactional email outbox. */
  datatype MailStatus = Pending | Processing | Sent | Failed | NeedsReview | Cancelled

  /** COALESCE(a, b) where b is never NULL. */
  function OrElse<T>(a: Option<T>, b: T): T {
    match a
    case Some(x) => x
    case None => b
  }
}
