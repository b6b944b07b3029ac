/** The failures the bot's steps end in. The first five are the Python
    exception classes raised, with their message; the last two stand for the
    failed request and the undecodable body, whatever the source's
    re-raise lines make of them. Every one is caught by the poll loop. */
module Errors {

  datatype PyError =
    | TypeError(msg: string)
    | KeyError(msg: string)
    | AttributeError(msg: string)
    | ValueError(msg: string)
    /** `requests.HTTPError` raised for a reply other than 200 OK. */
    | HttpError(msg: string)
    /** The reply body is not valid JSON. */
    | DecodeError
    /** The request itself could not be completed (timeout, connection). */
    | TransportError
}
