/** The Python exceptions that cross the boundaries of the modelled components. */
module Errors {

  datatype Error =
    | FileNotFound     // FileNotFoundError, a subclass of IOError
    | IoError          // any other IOError, including the reader's "Bad configuration content."
    | JsonDecodeError  // json.JSONDecodeError, a subclass of ValueError and not of IOError
    | KeyError         // a required key is missing from a dict
    | TypeError        // a call with arguments that do not fit, or a subscript of a non-dict
    | AttributeError   // `.items()` on something that is not a dict
    | Instantiation    // merci's InstantiationException: a class name that resolves to no class
    | Malformed        // a JSON shape that does not build an evaluator (see README)
    | UnicodeDecode    // UnicodeDecodeError: a file that is not UTF-8, a ValueError and not an IOError

  /** What `except IOError` catches: IOError and its subclass FileNotFoundError. */
  predicate IsIoError(e: Error) {
    e.FileNotFound? || e.IoError?
  }
}
