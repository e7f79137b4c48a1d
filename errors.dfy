/** Optional values, results and the exceptions the application raises.
    Every Python exception that reaches a caller of the core is a value
    of `Error`; an operation that may raise returns a `Result`. */
module Errors {

  datatype Option<+T> = None | Some(value: T)

  /** Why `jose.jwt.decode` raised a `JWTError`. */
  datatype JwtError =
    | Malformed             // not a compact JWS at all
    | AlgorithmNotAllowed   // header algorithm outside the `algorithms` list
    | SignatureMismatch     // signature does not verify under the secret
    | ClaimsInvalid         // a registered claim of the wrong type
    | Expired               // `exp` lies before the decoding instant

  datatype Error =
    | AuthFailed                          // src.exceptions.AuthFailedException
    | NotFound                            // src.exceptions.NotFoundException
    | BadRequest(detail: string)          // src.exceptions.BadRequestException
    | Http(status: int, detail: string)   // fastapi.HTTPException
    | Validation(message: string)         // a pydantic validator rejected the input
    | Jwt(reason: JwtError)               // jose.JWTError
    | Integrity(constraint: string)       // the database refused a write
    | MultipleResults                     // sqlalchemy one_or_none() saw several rows
    | NameError(name: string)             // Python NameError
    | AttributeError(name: string)        // Python AttributeError
    | TypeError(message: string)          // Python TypeError
    | KeyError(key: string)               // Python KeyError
    | ValueError(message: string)         // Python ValueError
    | UnboundLocal(name: string)          // Python UnboundLocalError

  datatype Result<+T> = Ok(value: T) | Err(error: Error)
}
