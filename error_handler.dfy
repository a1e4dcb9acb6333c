/** The Express error middleware and the not-found handler. The handler starts
    from defaults and runs a sequence of `if` blocks, each of which overwrites
    the status and message; a later match therefore wins over an earlier one. */
module ErrorHandling {
  import opened Common

  const DuplicateKeyCode := 11000

  /** The fields of a thrown error the handler reads. `keyValue` is the list
      of keys of the duplicate-key object when one is attached. */
  datatype CustomError = CustomError(
    name: string,
    message: string,
    statusCode: Option<int>,
    code: Option<int>,
    keyValue: Option<seq<string>>)

  /** The JSON body sent back; the development-only `stack` is left out. */
  datatype ErrorBody = ErrorBody(success: bool, message: string)

  /** The `x || default` idiom on an optional number: `0` is falsy. */
  function OrDefault(x: Option<int>, default: int): int {
    if x.Some? && x.value != 0 then x.value else default
  }

  /** `field.charAt(0).toUpperCase() + field.slice(1)`. */
  function Capitalize(field: string): (r: string)
    ensures |r| == |field|
    ensures field != [] ==> r[0] == UpperChar(field[0]) && r[1..] == field[1..]
  {
    if field == [] then [] else [UpperChar(field[0])] + field[1..]
  }

  /** The message of the duplicate-key rule: the first key when it is a
      non-empty string. */
  function DuplicateMessage(keys: seq<string>): string {
    if keys != [] && keys[0] != "" then Capitalize(keys[0]) + " already exists"
    else "Duplicate entry detected"
  }

  predicate IsDuplicateKey(err: CustomError) {
    err.code == Some(DuplicateKeyCode) && err.keyValue.Some?
  }

  /** The response the handler is meant to produce, read as a priority list:
      the token errors first, then the cast and validation errors, then a
      duplicate key, then the error's own status and message. */
  function ExpectedResponse(err: CustomError): (int, ErrorBody) {
    if err.name == "TokenExpiredError" then (401, ErrorBody(false, "Token expired"))
    else if err.name == "JsonWebTokenError" then (401, ErrorBody(false, "Invalid token"))
    else if err.name == "CastError" then (400, ErrorBody(false, "Invalid ID format"))
    else if err.name == "ValidationError" then (400, ErrorBody(false, "Validation failed"))
    else if IsDuplicateKey(err) then (400, ErrorBody(false, DuplicateMessage(err.keyValue.value)))
    else (OrDefault(err.statusCode, 500),
          ErrorBody(false, if err.message != "" then err.message else "Internal server error"))
  }

  /** `errorHandler`: the defaults, then each rule in source order
      overwriting the two locals. */
  method HandleError(err: CustomError) returns (status: int, body: ErrorBody)
    ensures (status, body) == ExpectedResponse(err)
    ensures !body.success
  {
    var statusCode := OrDefault(err.statusCode, 500);
    var message := if err.message != "" then err.message else "Internal server error";

    if err.code == Some(DuplicateKeyCode) && err.keyValue.Some? {
      statusCode := 400;
      var keys := err.keyValue.value;
      if keys != [] && keys[0] != "" {
        message := Capitalize(keys[0]) + " already exists";
      } else {
        message := "Duplicate entry detected";
      }
    }
    if err.name == "ValidationError" {
      statusCode := 400;
      message := "Validation failed";
    }
    if err.name == "CastError" {
      statusCode := 400;
      message := "Invalid ID format";
    }
    if err.name == "JsonWebTokenError" {
      statusCode := 401;
      message := "Invalid token";
    }
    if err.name == "TokenExpiredError" {
      statusCode := 401;
      message := "Token expired";
    }

    status := statusCode;
    body := ErrorBody(false, message);
  }

  /** `notFound`: a plain error carrying 404 and the requested URL. */
  function NotFound(originalUrl: string): (err: CustomError)
    ensures err.statusCode == Some(404)
    ensures err.message == "Not found - " + originalUrl
  {
    CustomError("Error", "Not found - " + originalUrl, Some(404), None, None)
  }

  /** A not-found error reaches the client as 404 with its message. */
  lemma NotFoundResponse(originalUrl: string)
    ensures ExpectedResponse(NotFound(originalUrl))
              == (404, ErrorBody(false, "Not found - " + originalUrl))
  {
  }

  /** A duplicate key on a named field answers 400 with the capitalised
      field name; a name-based rule still overrides it. */
  lemma DuplicateKeyResponse(err: CustomError)
    requires IsDuplicateKey(err)
    requires err.name !in {"TokenExpiredError", "JsonWebTokenError", "CastError", "ValidationError"}
    ensures ExpectedResponse(err).0 == 400
    ensures err.keyValue.value != [] && err.keyValue.value[0] != "" ==>
              ExpectedResponse(err).1.message == Capitalize(err.keyValue.value[0]) + " already exists"
    ensures err.keyValue.value == [] ==>
              ExpectedResponse(err).1.message == "Duplicate entry detected"
  {
  }

  /** An error with neither a usable status nor a message falls back to 500
      and "Internal server error". */
  lemma DefaultResponse(err: CustomError)
    requires !IsDuplicateKey(err)
    requires err.name !in {"TokenExpiredError", "JsonWebTokenError", "CastError", "ValidationError"}
    requires err.statusCode.None? || err.statusCode == Some(0)
    requires err.message == ""
    ensures ExpectedResponse(err) == (500, ErrorBody(false, "Internal server error"))
  {
  }
}
