/** Option, the error kinds the API reports, and a Result that carries one of them. */
module Results {

  datatype Option<+T> = None | Some(value: T)

  /** The failures a request can end in. */
  datatype Error =
    | NotAuthenticated            // the view's permission class refuses an anonymous caller
    | NotFound                    // get_object_or_404 found no row
    | PermissionDenied            // the object-level permission check failed
    | Invalid(fields: set<string>) // serializer or filter-form errors, keyed by field name
    | Conflict(message: string)   // a UniqueTogetherValidator fired
    | ServerError                 // an unhandled exception inside the view

  datatype Result<+T> = Success(value: T) | Failure(error: Error)
}
