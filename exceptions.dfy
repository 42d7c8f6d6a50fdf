/** The .NET exceptions the core throws, catches or hands to a failure callback. */
module Exceptions {

  datatype Exception =
    /** ArgumentNullException naming the parameter that was null */
    | ArgumentNull(paramName: string)
    /** ArgumentOutOfRangeException of an unknown field-naming value */
    | ArgumentOutOfRange
    /** ArgumentException from Dictionary.Add on a key already present */
    | DuplicateKey
    /** FormatException from string.Format on a placeholder without an argument */
    | FormatError
    /** LoggingFailedException for a non-success HTTP status posted to a URL */
    | LoggingFailed(status: int, url: string)
    /** NullReferenceException, e.g. posting through a disposed client */
    | NullReference
    /** whatever the JSON serializer throws */
    | SerializationError
    /** any other exception, e.g. one raised by the application or the HTTP transport */
    | Raised(typeName: string, message: string)
}
