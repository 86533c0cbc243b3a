/** Optional values, the error taxonomy of the sign-up engine, and the
    success-or-error result every operation returns. */
module Results {

  /** A value that may be missing; stands for Java's `null` ids. */
  datatype Option<+T> = None | Some(value: T) {

    /** The value, or `default` when it is missing. */
    function GetOr(default: T): T {
      match this
      case Some(v) => v
      case None => default
    }
  }

  /** Which kind of record a lookup failed to find. */
  datatype Kind =
    | TravelPackageKind
    | PassengerKind
    | ActivityKind
    | DestinationKind
    | DestinationInPackageKind

  /** One variant per place where the service or the model classes throw.
      Message texts are not modelled, only which check failed. */
  datatype Error =
    | NotFound(kind: Kind, key: string)
    | DuplicatePackageName(packageName: string)
    | DuplicatePassengerNumber(number: string)
    | DuplicateActivityName(activityName: string)
    | PackageFull
    | InsufficientBalance
    | EmptyDestinationName
      /** The document mapper refuses to store a reference to a record
          that has no id yet. */
    | UnsavedReference

  datatype Result<+T> = Ok(value: T) | Err(error: Error)
}
