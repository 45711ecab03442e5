/** The enumerations of `src/constants.py`. Both derive from `AutoName`, whose
    `_generate_next_value_` makes every member's value equal to its name. */
module Constants {

  /** Severity passed with a notification and used as the logger method name. */
  datatype MessageLevel = Debug | Info | Warning | Error {

    function Value(): string
    {
      match this
      case Debug => "DEBUG"
      case Info => "INFO"
      case Warning => "WARNING"
      case Error => "ERROR"
    }
  }

  /** The outcome an event manager reports for one pass. */
  datatype EventManagerStatus = InProgress | Skip | Success | Error {

    function Value(): string
    {
      match this
      case InProgress => "IN_PROGRESS"
      case Skip => "SKIP"
      case Success => "SUCCESS"
      case Error => "ERROR"
    }
  }

  /** `@enum.unique`: no two members of either enumeration share a value. */
  lemma ValuesUnique(a: MessageLevel, b: MessageLevel, c: EventManagerStatus, d: EventManagerStatus)
    ensures a.Value() == b.Value() ==> a == b
    ensures c.Value() == d.Value() ==> c == d
  {
  }
}
