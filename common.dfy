/**
 Shared vocabulary of the GeoRecycle backend model: optional request fields,
 record identifiers, the caller identity that the authentication middleware
 attaches to every request, and the HTTP responses the handlers send.
 */
module Common {

  datatype Option<T> = None | Some(value: T)

  /** A record identifier. MongoDB ObjectIds are abstracted to naturals. */
  type Id = nat

  /** An image URL returned by the image store; opaque to the model. */
  type Url = string

  /** The `coordenadas` of an ecoponto, as sent by the client; opaque to the model. */
  type Coords = string

  /** A `Date.now()` value; opaque to the model. */
  type Timestamp = int

  /** `req.loggedUserId` and `req.loggedUserType`, resolved by the authentication middleware. */
  datatype Caller = Caller(id: Id, userType: string)

  /** The role check every admin-only handler starts with (`req.loggedUserType !== "admin"`). */
  predicate IsAdmin(c: Caller)
  {
    c.userType == "admin"
  }

  /** Truthiness of an optional boolean request field: absent and `false` are both falsy. */
  predicate Truthy(b: Option<bool>)
  {
    b == Some(true)
  }

  const OK: int := 200
  const BAD_REQUEST: int := 400
  const UNAUTHORIZED: int := 401
  const FORBIDDEN: int := 403
  const NOT_FOUND: int := 404
  const INTERNAL_ERROR: int := 500

  /** What a handler sends back: a 200 with a body, or an error status (messages are not modelled). */
  datatype Response<T> = Success(body: T) | Failure(code: int)
  {
    function Status(): int
    {
      match this
      case Success(_) => OK
      case Failure(c) => c
    }
  }
}
