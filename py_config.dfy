/**
 * `get_config` of the Python bot: the nine options are checked in order;
 * an option counts as missing when it is absent or blank once stripped,
 * and the first missing one ends the program with exit status 1.
 */
module PyConfig {
  import opened Wrappers
  import opened Text
  import opened IniConfig

  /** The `config` dict `get_config` returns, keyed by option. */
  type Config = map<Setting, string>

  /** `has_option(section, name)` and a value that is not all whitespace. */
  predicate Accepted(ini: Ini, s: Setting) {
    KeyOf(s) in ini && !AllSpace(ini[KeyOf(s)])
  }

  /** `Accepted` is the source's test: the option exists and `strip()` leaves something. */
  lemma AcceptedIff(ini: Ini, s: Setting)
    ensures Accepted(ini, s) <==> KeyOf(s) in ini && |Strip(ini[KeyOf(s)])| > 0
  {
    if KeyOf(s) in ini {
      var v := Strip(ini[KeyOf(s)]);
    }
  }

  /**
   * The value `get_config` stores for the option: the stripped text, except
   * for `interval` and `smtp_port`, whose raw text is handed to `int()`.
   */
  function Stored(ini: Ini, s: Setting): string
    requires KeyOf(s) in ini
  {
    if s == Interval || s == SmtpPort then ini[KeyOf(s)] else Strip(ini[KeyOf(s)])
  }

  /** The remaining checks of `get_config`, filling the `config` dict as they pass. */
  function Fill(ini: Ini, settings: seq<Setting>, config: Config): Result<Config, ConfigError>
    decreases |settings|
  {
    if settings == [] then Ok(config)
    else if !Accepted(ini, settings[0]) then Err(Missing(settings[0]))
    else Fill(ini, settings[1..], config[settings[0] := Stored(ini, settings[0])])
  }

  function GetConfig(ini: Ini): Result<Config, ConfigError> {
    Fill(ini, RequiredSettings, map[])
  }

  /** The line printed before exiting. */
  function ErrorLine(e: ConfigError): (line: string)
    ensures |line| == 27 + |MissingText(e)|
    ensures line[..27] == "Error parsing config file: " && line[27..] == MissingText(e)
  {
    "Error parsing config file: " + MissingText(e)
  }

  /** After a successful fill, the dict's options are the old ones and those checked. */
  lemma {:induction false} FillKeys(ini: Ini, settings: seq<Setting>, config: Config)
    requires Fill(ini, settings, config).Ok?
    ensures forall t :: t in Fill(ini, settings, config).value <==> t in config || t in settings
    decreases |settings|
  {
    if settings != [] {
      var s, rest := settings[0], settings[1..];
      FillKeys(ini, rest, config[s := Stored(ini, s)]);
      assert forall t :: t in settings <==> t == s || t in rest;
    }
  }

  /** Filling keeps the entries of options it does not check. */
  lemma {:induction false} FillKeepsOthers(ini: Ini, settings: seq<Setting>, config: Config, s: Setting)
    requires Fill(ini, settings, config).Ok?
    requires s in config && s !in settings
    ensures s in Fill(ini, settings, config).value && Fill(ini, settings, config).value[s] == config[s]
    decreases |settings|
  {
    if settings != [] {
      var t, rest := settings[0], settings[1..];
      assert s != t && s !in rest;
      FillKeepsOthers(ini, rest, config[t := Stored(ini, t)], s);
    }
  }

  /** After a successful fill, each option checked maps to its stored value. */
  lemma {:induction false} FillStoresValue(ini: Ini, settings: seq<Setting>, config: Config, s: Setting)
    requires Fill(ini, settings, config).Ok?
    requires s in settings
    ensures KeyOf(s) in ini && s in Fill(ini, settings, config).value
    ensures Fill(ini, settings, config).value[s] == Stored(ini, s)
    decreases |settings|
  {
    var t, rest := settings[0], settings[1..];
    var config' := config[t := Stored(ini, t)];
    if s !in rest {
      FillKeepsOthers(ini, rest, config', s);
    } else {
      FillStoresValue(ini, rest, config', s);
    }
  }

  /** Filling succeeds exactly when every option is accepted. */
  lemma {:induction false} FillOkIff(ini: Ini, settings: seq<Setting>, config: Config)
    ensures Fill(ini, settings, config).Ok? <==> forall s :: s in settings ==> Accepted(ini, s)
    decreases |settings|
  {
    if settings != [] && Accepted(ini, settings[0]) {
      FillOkIff(ini, settings[1..], config[settings[0] := Stored(ini, settings[0])]);
      assert forall s :: s in settings ==> s == settings[0] || s in settings[1..];
    }
  }

  /** `s` is at index `i`, is rejected, and every option before it is accepted. */
  predicate FirstRejectedAt(ini: Ini, settings: seq<Setting>, s: Setting, i: int) {
    && 0 <= i < |settings| && settings[i] == s && !Accepted(ini, s)
    && forall j :: 0 <= j < i ==> Accepted(ini, settings[j])
  }

  /** A failed fill names an option that is the first rejected one, at index `i`. */
  lemma {:induction false} FillErrSound(ini: Ini, settings: seq<Setting>, config: Config, s: Setting) returns (i: nat)
    requires Fill(ini, settings, config) == Err(Missing(s))
    ensures FirstRejectedAt(ini, settings, s, i)
    decreases |settings|
  {
    var t, rest := settings[0], settings[1..];
    if !Accepted(ini, t) {
      i := 0;
    } else {
      var k := FillErrSound(ini, rest, config[t := Stored(ini, t)], s);
      i := k + 1;
      assert forall j :: 1 <= j < i ==> settings[j] == rest[j - 1];
    }
  }

  /** The first rejected option is the one a fill fails naming. */
  lemma {:induction false} FillErrComplete(ini: Ini, settings: seq<Setting>, config: Config, s: Setting, i: nat)
    requires FirstRejectedAt(ini, settings, s, i)
    ensures Fill(ini, settings, config) == Err(Missing(s))
    decreases i
  {
    if i == 0 {
      assert settings[0] == s && !Accepted(ini, settings[0]);
    } else {
      var t, rest := settings[0], settings[1..];
      assert Accepted(ini, t);
      assert forall j :: 0 <= j < i - 1 ==> rest[j] == settings[j + 1];
      assert FirstRejectedAt(ini, rest, s, i - 1);
      FillErrComplete(ini, rest, config[t := Stored(ini, t)], s, i - 1);
    }
  }

  /** Filling fails naming `s` exactly when `s` is the first rejected option. */
  lemma FillErrIff(ini: Ini, settings: seq<Setting>, config: Config, s: Setting)
    ensures Fill(ini, settings, config) == Err(Missing(s)) <==> exists i :: FirstRejectedAt(ini, settings, s, i)
  {
    if Fill(ini, settings, config) == Err(Missing(s)) {
      var i := FillErrSound(ini, settings, config, s);
    }
    if exists i :: FirstRejectedAt(ini, settings, s, i) {
      var i :| FirstRejectedAt(ini, settings, s, i);
      FillErrComplete(ini, settings, config, s, i);
    }
  }

  /** `get_config` returns exactly when all nine options are present and not blank. */
  lemma GetConfigOk(ini: Ini)
    ensures GetConfig(ini).Ok? <==> forall s :: Accepted(ini, s)
  {
    FillOkIff(ini, RequiredSettings, map[]);
    forall s: Setting ensures s in RequiredSettings {
      RequiredSettingsComplete(s);
    }
  }

  /** The dict `get_config` returns holds all nine options, each with its stored value. */
  lemma GetConfigValues(ini: Ini, s: Setting)
    requires forall t :: Accepted(ini, t)
    ensures GetConfig(ini).Ok? && s in GetConfig(ini).value
    ensures GetConfig(ini).value[s] == Stored(ini, s)
  {
    GetConfigOk(ini);
    RequiredSettingsComplete(s);
    FillStoresValue(ini, RequiredSettings, map[], s);
  }

  /**
   * `get_config` fails naming `s` exactly when `s` is the first of the nine
   * options, in checking order, that is absent or blank.
   */
  lemma GetConfigFirstMissing(ini: Ini, s: Setting)
    ensures GetConfig(ini) == Err(Missing(s)) <==>
            !Accepted(ini, s) && forall t :: Rank(t) < Rank(s) ==> Accepted(ini, t)
  {
    FillErrIff(ini, RequiredSettings, map[], s);
    FirstRejectedByRank(ini, s);
  }

  /** Being the first rejected option in checking order, said by rank. */
  lemma FirstRejectedByRank(ini: Ini, s: Setting)
    ensures (exists i :: FirstRejectedAt(ini, RequiredSettings, s, i)) <==>
            !Accepted(ini, s) && forall t :: Rank(t) < Rank(s) ==> Accepted(ini, t)
  {
    RequiredSettingsComplete(s);
    if exists i :: FirstRejectedAt(ini, RequiredSettings, s, i) {
      var i :| FirstRejectedAt(ini, RequiredSettings, s, i);
      assert i == Rank(s);
      forall t | Rank(t) < Rank(s) ensures Accepted(ini, t) {
        assert RequiredSettings[Rank(t)] == t;
      }
    }
    if !Accepted(ini, s) && forall t :: Rank(t) < Rank(s) ==> Accepted(ini, t) {
      forall j | 0 <= j < Rank(s) ensures Accepted(ini, RequiredSettings[j]) {
        assert Rank(RequiredSettings[j]) == j;
      }
      assert FirstRejectedAt(ini, RequiredSettings, s, Rank(s));
    }
  }

  /** A subreddit option that is only whitespace stops startup, naming `subreddit`. */
  lemma BlankSubredditIsMissing(ini: Ini)
    requires KeyOf(Subreddit) in ini && AllSpace(ini[KeyOf(Subreddit)])
    ensures GetConfig(ini) == Err(Missing(Subreddit))
  {
    GetConfigFirstMissing(ini, Subreddit);
  }
}
