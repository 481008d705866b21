/** The exceptions the Twitch client raises or lets propagate, one constructor per kind. */
module Errors {

  datatype Error =
    /** RuntimeError from `_assert_client`: no shared HTTP client, the session was never entered. */
    | NotInitialized
    /** RuntimeError from `_get_headers`: the token is missing or empty. */
    | AuthTokenNotSet
    /** httpx.HTTPStatusError from `raise_for_status`: the response status is not 2xx. */
    | HttpStatus(code: int)
    /** ValueError: a lookup by login name or by video id returned no record. */
    | NotFound(message: string)
    /** KeyError: the first record lacks the field that is read from it. */
    | MissingKey(key: string)
    /** TypeError: a call passes a keyword argument the callee does not declare. */
    | UnexpectedKeyword(name: string)
    /** TypeError: a call leaves a required parameter without an argument. */
    | MissingArgument(name: string)
}
