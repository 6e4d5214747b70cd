/**
 * Where the Python and the Go bot agree and where they part: both stop at
 * the same option when no value is blank, but only Python rejects blank
 * values; both match a lower-case keyword the same way, but only Python
 * lower-cases the configured keywords.
 */
module Agreement {
  import opened Wrappers
  import opened Text
  import opened IniConfig
  import PyConfig
  import GoConfig
  import PyNotify
  import GoNotify

  /** With no blank value in the file, both bots start, or stop naming the same option. */
  lemma SameVerdictWithoutBlanks(ini: Ini, s: Setting)
    requires forall t :: KeyOf(t) in ini ==> |Strip(ini[KeyOf(t)])| > 0
    ensures PyConfig.GetConfig(ini).Ok? <==> GoConfig.Load(ini).Ok?
    ensures PyConfig.GetConfig(ini) == Err(Missing(s)) <==> GoConfig.Load(ini) == Err(Missing(s))
  {
    assert forall t :: PyConfig.Accepted(ini, t) <==> GoConfig.Present(ini, t);
    PyConfig.GetConfigOk(ini);
    GoConfig.LoadOk(ini);
    PyConfig.GetConfigFirstMissing(ini, s);
    GoConfig.LoadFirstMissing(ini, s);
  }

  /**
   * A whitespace-only value of any option stops the Python bot, naming that
   * option or one checked before it, while the Go bot starts; a blank
   * `subreddit` is named, and Go polls that value.
   */
  lemma BlankValueSplitsThem(ini: Ini, s: Setting)
    requires forall t :: KeyOf(t) in ini
    requires AllSpace(ini[KeyOf(s)])
    ensures PyConfig.GetConfig(ini).Err? && Rank(PyConfig.GetConfig(ini).error.setting) <= Rank(s)
    ensures s == Subreddit ==> PyConfig.GetConfig(ini) == Err(Missing(Subreddit))
    ensures GoConfig.Load(ini).Ok? && GoConfig.Load(ini).value.subreddit == ini[KeyOf(Subreddit)]
  {
    GoConfig.LoadOk(ini);
    PyConfig.AcceptedIff(ini, s);
    PyConfig.GetConfigOk(ini);
    var e := PyConfig.GetConfig(ini).error;
    PyConfig.GetConfigFirstMissing(ini, e.setting);
    if s == Subreddit {
      PyConfig.BlankSubredditIsMissing(ini);
    }
  }

  /**
   * A keyword already stripped and lower-case, without a comma, is the
   * whole Python keyword set, and then a post matches some Python keyword
   * exactly when it matches the Go keyword.
   */
  lemma NormalisedKeywordAgrees(k: string, title: string, text: string, permalink: string, createdUtc: int, url: string)
    requires IsStripped(k) && !HasUpper(k) && ',' !in k
    ensures PyNotify.Keywords(k) == {k}
    ensures (exists kw :: kw in PyNotify.Keywords(k) && PyNotify.Matches(kw, PyNotify.Item(title, text, permalink, createdUtc)))
            <==> GoNotify.Matches(k, GoNotify.Item(title, text, url))
  {
    PyNotify.KeywordsOfOne(k);
    var pi, gi := PyNotify.Item(title, text, permalink, createdUtc), GoNotify.Item(title, text, url);
    SomeKeywordOfOne(PyNotify.Keywords(k), k, pi);
    assert PyNotify.Matches(k, pi) == KeywordFound(k, title, text) == GoNotify.Matches(k, gi);
  }

  /** Some keyword of the set `{k}` matches exactly when `k` does; helper for `NormalisedKeywordAgrees`. */
  lemma SomeKeywordOfOne(keywords: set<string>, k: string, item: PyNotify.Item)
    requires keywords == {k}
    ensures (exists kw :: kw in keywords && PyNotify.Matches(kw, item)) <==> PyNotify.Matches(k, item)
  {
    if exists kw :: kw in keywords && PyNotify.Matches(kw, item) {
      var kw :| kw in keywords && PyNotify.Matches(kw, item);
      assert kw == k;
    }
    if PyNotify.Matches(k, item) {
      assert k in keywords;
    }
  }

  /**
   * A keyword with an upper-case letter, such as `GPU`, is lower-cased by
   * Python and finds a post titled with the keyword itself; Go keeps it as
   * written and never sends a mail.
   */
  lemma UpperCaseKeywordSplitsThem(k: string, s: GoConfig.Settings, items: seq<GoNotify.Item>, text: string, permalink: string, createdUtc: int)
    requires IsStripped(k) && HasUpper(k) && ',' !in k
    requires s.keyword == k
    ensures PyNotify.Keywords(k) == {Lower(k)}
    ensures PyNotify.Matches(Lower(k), PyNotify.Item(k, text, permalink, createdUtc))
    ensures GoNotify.Alerts(s, items) == []
  {
    PyNotify.KeywordsOfPiece(k);
    PyNotify.MatchesOwnTitle(PyNotify.Item(k, text, permalink, createdUtc));
    GoNotify.UpperKeywordAlertsNone(s, items);
  }
}
