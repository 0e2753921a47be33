/**
 * Decoded JSON values. Python's `json.loads` itself is not modelled: the
 * model takes it as a parameter of type `Decoder`, a function from the text
 * it is given to either a value or the message of the `JSONDecodeError` it
 * raises.
 */
module JsonValue {
  import opened Wrappers

  /** A number keeps its source lexeme; nothing in the service looks at it. */
  datatype Json =
    | JNull
    | JBool(b: bool)
    | JNumber(lexeme: string)
    | JString(str: string)
    | JArray(items: seq<Json>)
    | JObject(members: map<string, Json>)

  type Decoder = string -> Result<Json, string>
}

/** The exceptions a stage of either service can raise, as the handlers see them. */
module Errors {

  datatype Exception =
    /** Raised by an outside collaborator that lets the exception escape: an httpx call or the LLM endpoint. */
    | Raised(msg: string)
    /** `httpx.Response.raise_for_status()` on a status outside 200..299. */
    | HttpStatusError(status: int)
    /** `json.JSONDecodeError`, with the decoder's message. */
    | DecodeError(msg: string)
    /** `ArticleSummary(**x)` where `x` is not a mapping: Python's `TypeError`. */
    | NotAMapping
    /** pydantic's `ValidationError`, naming the required fields that are missing or not strings. */
    | ValidationError(fields: seq<string>)
    /** `AttributeError`: `.get` on a reply body that is not an object, or `.strip` on a non-string. */
    | AttributeError

  /** Stands for `str(e)`. The messages of a raising httpx call or LLM
      endpoint and of the decoder are reproduced; the texts of httpx's status
      error and of Python's and pydantic's own exceptions are abbreviated. */
  function Text(e: Exception): string {
    match e
    case Raised(m) => m
    case HttpStatusError(_) => "HTTP status error"
    case DecodeError(m) => m
    case NotAMapping => "argument after ** must be a mapping"
    case ValidationError(_) => "validation error for ArticleSummary"
    case AttributeError => "attribute error"
  }
}
