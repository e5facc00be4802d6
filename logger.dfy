// The log level and format parsers of internal/logger/logger.go.
// Logger initialisation and the slog wrappers are I/O and are not modelled.
module Logger {

  datatype Level = Debug | Info | Warn | Error {
    /** The string constant the source gives each level. */
    function Name(): string {
      match this
      case Debug => "DEBUG"
      case Info => "INFO"
      case Warn => "WARN"
      case Error => "ERROR"
    }
  }

  datatype Format = Json | Text {
    function Name(): string {
      match this
      case Json => "json"
      case Text => "text"
    }
  }

  /** True of the four exact level spellings the source recognises. */
  predicate IsLevelName(s: string) {
    s == "DEBUG" || s == "INFO" || s == "WARN" || s == "ERROR"
  }

  /** Closed switch with INFO as the default case. */
  function ParseLevel(s: string): (l: Level)
    ensures IsLevelName(s) ==> l.Name() == s
    ensures !IsLevelName(s) ==> l == Info
  {
    match s
    case "DEBUG" => Debug
    case "INFO" => Info
    case "WARN" => Warn
    case "ERROR" => Error
    case _ => Info
  }

  /** Closed switch with JSON as the default case. */
  function ParseFormat(s: string): (f: Format)
    ensures s == "text" <==> f == Text
    ensures f == Json <==> s != "text"
  {
    match s
    case "json" => Json
    case "text" => Text
    case _ => Json
  }

  /** Every level's name parses back to that level. */
  lemma ParseLevelName(l: Level)
    ensures ParseLevel(l.Name()) == l
  {
    match l
    case Debug =>
    case Info =>
    case Warn =>
    case Error =>
  }

  /** Every format's name parses back to that format. */
  lemma ParseFormatName(f: Format)
    ensures ParseFormat(f.Name()) == f
  {
  }
}
