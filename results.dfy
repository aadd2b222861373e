/** Outcomes shared by the three services: the optional value a repository lookup
    returns, the error kinds a service call can fail with, and the result of a call. */
module Results {

  /** What a repository `findById` returns: the entity or nothing. */
  datatype Option<+T> = None | Some(value: T)

  /** HTTP status carried by a BlogAPIException; the services only ever raise 400. */
  const BadRequest: int := 400

  /** The error kinds a service call can raise. */
  datatype Error =
      /** ResourceNotFoundException(resourceName, fieldName, fieldValue), rendered by the
          web layer as "<resourceName> not found with <fieldName> : '<fieldValue>'". */
    | ResourceNotFound(resourceName: string, fieldName: string, fieldValue: int)
      /** BlogAPIException(status, message): a rule was broken that is not a missing resource. */
    | BlogApi(status: int, message: string)
      /** IllegalArgumentException from building a page request out of bad paging input. */
    | IllegalArgument(message: string)
      /** PropertyReferenceException: a listing was asked to sort by a property the
          entity does not have. */
    | NoSuchProperty(propertyName: string)

  /** A service call either returns a value or fails with one error; a failed call
      persists nothing. */
  datatype Result<+T> = Success(value: T) | Failure(error: Error)

  /** The error every lookup by id raises when the id is absent. */
  function NotFound(resourceName: string, id: int): Error
  {
    ResourceNotFound(resourceName, "id", id)
  }
}
