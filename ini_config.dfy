/**
 * What both bots share about their configuration file: the file is read
 * into a map from (section, key) to the raw value, and nine options are
 * checked one after another in a fixed order; the first one that is
 * rejected stops the program with a message naming it.
 */
module IniConfig {

  /** An option name inside an INI section, e.g. `[smtp] smtp_port`. */
  datatype Key = Key(section: string, name: string)

  /** The parsed configuration file. */
  type Ini = map<Key, string>

  /** The nine options the bots read. */
  datatype Setting =
    | Subreddit | Interval | Keyword
    | SmtpServer | SmtpPort | SmtpUsername | SmtpPassword | SmtpTo | SmtpFrom

  /** The option's name in the file and in messages. */
  function Name(s: Setting): string {
    match s
    case Subreddit => "subreddit"
    case Interval => "interval"
    case Keyword => "keyword"
    case SmtpServer => "smtp_server"
    case SmtpPort => "smtp_port"
    case SmtpUsername => "smtp_username"
    case SmtpPassword => "smtp_password"
    case SmtpTo => "smtp_to"
    case SmtpFrom => "smtp_from"
  }

  /** The section the option is read from. */
  function Section(s: Setting): string {
    if s == Subreddit || s == Interval || s == Keyword then "app" else "smtp"
  }

  function KeyOf(s: Setting): Key {
    Key(Section(s), Name(s))
  }

  /** Why startup stopped (with exit status 1): the option failed its check. */
  datatype ConfigError = Missing(setting: Setting)

  /** The nine options, in the order both programs check them. */
  const RequiredSettings: seq<Setting> := [
    Subreddit, Interval, Keyword,
    SmtpServer, SmtpPort, SmtpUsername, SmtpPassword, SmtpTo, SmtpFrom
  ]

  /** An option's position in the checking order. */
  function Rank(s: Setting): (r: nat)
    ensures r < |RequiredSettings| && RequiredSettings[r] == s
  {
    match s
    case Subreddit => 0
    case Interval => 1
    case Keyword => 2
    case SmtpServer => 3
    case SmtpPort => 4
    case SmtpUsername => 5
    case SmtpPassword => 6
    case SmtpTo => 7
    case SmtpFrom => 8
  }

  /** Every option is checked, and none twice. */
  lemma RequiredSettingsComplete(s: Setting)
    ensures s in RequiredSettings
    ensures forall i, j :: 0 <= i < j < |RequiredSettings| ==> RequiredSettings[i] != RequiredSettings[j]
  {
  }

  /** The text of the exit message after its prefix, e.g. `Missing 'subreddit'`. */
  function MissingText(e: ConfigError): (m: string)
    ensures |m| == |Name(e.setting)| + 10
    ensures m[..9] == "Missing '" && m[9..|m| - 1] == Name(e.setting) && m[|m| - 1] == '\''
  {
    "Missing '" + Name(e.setting) + "'"
  }
}
