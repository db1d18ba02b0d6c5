/**
  The default error messages of the class-based forms: the static table that src/form.ts
  calls `Form.errorMessages` and the compiled dist/index.js calls `Form.errors`. Both hold
  the same eight keys and strings.
 */
module Messages {

  /** The keys of the message table. */
  datatype ErrorKey =
    | NumberError | EmailError | UrlError | CheckboxError
    | RequiredError | MaxLengthError | MinError | MaxError

  /** The message stored under each key. */
  function DefaultMessage(key: ErrorKey): string {
    match key
    case NumberError => "Value is not a valid number"
    case EmailError => "Value is not a valid email address"
    case UrlError => "Value is not valid url"
    case CheckboxError => "Value is not true or false"
    case RequiredError => "Field is required"
    case MaxLengthError => "Value exceeds max length"
    case MinError => "Value is smaller than minimum value"
    case MaxError => "Value is bigger than maximum value"
  }

  /** The property name of each key in the table object. */
  function KeyName(key: ErrorKey): string {
    match key
    case NumberError => "number"
    case EmailError => "email"
    case UrlError => "url"
    case CheckboxError => "checkbox"
    case RequiredError => "required"
    case MaxLengthError => "maxLength"
    case MinError => "min"
    case MaxError => "max"
  }

  /** No two keys share a message, so a default message tells which check failed. */
  lemma DefaultMessagesDistinct(a: ErrorKey, b: ErrorKey)
    ensures DefaultMessage(a) == DefaultMessage(b) ==> a == b
  {
  }
}
