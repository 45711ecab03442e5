/** How a Python call ends: it returns, or it raises an exception carrying the
    message `text` (its `str()`, or for a ValidationError the message it wraps). */
module Exceptions {

  datatype Completion = Returned | Raised(text: string)

  /** The text `str(exc)` of the AttributeError Python raises for `obj.attr`
      when the object's type `typeName` has no attribute `attr`. */
  function AttributeErrorText(typeName: string, attr: string): string
  {
    "'" + typeName + "' object has no attribute '" + attr + "'"
  }
}
