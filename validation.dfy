/** The validation helpers and message constants the services use. Their
    implementations are not part of this model: a schema check is a function
    from the payload to the error it throws (or nothing), and the error
    constructors and message texts are values the services are given. */
module Validation {
  import opened Common

  /** A schema check (`ValidateEntry.validate`, `ValidateData.entry`): `None`
      when the payload conforms, otherwise the error it throws. */
  type Check<-P> = P -> Option<Failure>

  /** The guards of `ValidateData`. */
  datatype ValidateData = ValidateData(
    generateError: (int, string) -> Failure,      // `_generateError(code, message)`
    existanceError: string -> Failure,            // what `existance` throws
    systemActiveError: (int, string) -> Failure,  // what `systemActive` throws
    systemResponseError: string -> Failure,       // what `systemResponse` throws
    systemEntityQuery: (string, string) -> Option<Failure>)
  {
    /** `existance(value, message)` throws exactly when `value` is truthy. */
    function Existance(value: bool, message: string): (r: Option<Failure>)
      ensures r.Some? <==> value
    {
      if value then Some(existanceError(message)) else None
    }

    /** `systemActive(value, code, message)` throws exactly when `value` is truthy. */
    function SystemActive(value: bool, code: int, message: string): (r: Option<Failure>)
      ensures r.Some? <==> value
    {
      if value then Some(systemActiveError(code, message)) else None
    }
  }

  /** The texts of `ErrorMessage` / `errorMessage` the services use. */
  datatype ErrorMessages = ErrorMessages(
    notFoundById: string,                 // ErrorMessage.NOT_FOUND_BY_ID
    badRequest: string,                   // ErrorMessage.BAD_REQUEST
    systemNotFound: string,               // errorMessage.notFound.system
    forbidden: string,                    // errorMessage.forbidden
    unprocessableEntity: string,          // errorMessage.unprocessableEntity
    responseActive: bool -> string)       // errorMessage.badRequest.system.responseActive
}
