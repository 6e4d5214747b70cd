# reddit_notify in Dafny

reddit_notify is two small bots, one in Python (`main.py`) and one in Go
(`main.go`). Each bot reads an INI configuration file, polls Reddit listings
and mails an alert for every post whose title or text contains a keyword.
This project models the logic that turns configuration and decoded posts into
alert decisions, and proves properties of that model.

- **Configuration checks** cover both bots. The nine options are checked in a
  fixed order: `subreddit`, `interval`, `keyword`, `smtp_server`, `smtp_port`,
  `smtp_username`, `smtp_password`, `smtp_to`, `smtp_from`. The first option
  that fails its check ends start-up, and the exit message names it.
  - Python rejects an option that is absent, or blank once stripped
    (`PyConfig`).
  - Go only asks that the key exists. It reads `interval` and `smtp_port`
    with go-ini's `MustInt`, which falls back to 5 and 25. `MustInt` is
    modelled as `strconv.ParseInt(s, 0, 64)` (`GoConfig`).
  - Both use the shared order and message text in `IniConfig`.
- **Keyword preparation and matching.**
  - Python splits the `keyword` option on commas, strips and lower-cases each
    piece, and collects the pieces into a set. A keyword matches when it is a
    substring of the lower-cased title or text.
  - Go matches the keyword exactly as configured against the lower-cased
    title or text (`GoNotify.Matches`).
  - The string operations are in `Text`: `strip`, `split(',')`, ASCII
    lower-casing, the substring test, and the match test `KeywordFound` that
    both bots apply to a post's title and text.
  - Both bots hand the same four fields to their mail library
    (`Mailing.Mail`).
- **Dedup (Python only).** `sent_previously` keeps a list of at most 100 URL
  hashes. When the list is full, the hash just appended is the one
  `pop()` removes again. So a full list never changes, and a new URL is
  mailed again on every pass.
  - The Python bot is the class `PyNotify.Notifier`. Its field `sent` is
    updated in place and its field `outbox` collects the alerts sent; each is
    mailed as `Render` builds it.
  - Its methods `SentPreviously`, `SendAlert`, `CheckItem`, `CheckListing`
    and `Tick` follow the source's loops. Each is proved against the
    functions `Remember`, `Step` and `Feed`.
  - The lemmas about those functions give the capacity bound, soundness,
    one mail per URL per pass while there is room, and the full-list
    repetition.
- **The Go scan.** `GoNotify.Scan` is the `for i := 0; i < limit; i++` loop
  with its `alert` flag, proved equal to the function `Alerts`. Nothing is
  remembered between passes.
- **Python against Go** (`Agreement`):
  - Given the same option values, no blank value, and `interval` and
    `smtp_port` values that Python's `int()` accepts, both bots reach the
    same verdict.
  - A blank value of any option stops only the Python bot, unless an
    earlier `interval` or `smtp_port` that Python's `int()` rejects
    crashes it first (main.py:83, main.py:102).
  - A mixed-case keyword finds posts in Python and never in Go.

Inputs that come from the outside world stay undetermined:

- Python's `hash` of a URL, the `strftime` rendering of a timestamp, and the
  order in which Python iterates the keyword set are constructor parameters
  of `Notifier`.
- A listing reply is its status code plus the posts already decoded from
  its JSON.
- One pass of the endless polling loop takes one reply per subreddit.

## Model

| member | source | states |
|---|---|---|
| Text.IsSpace | main.py:76 | the characters Python's `str.isspace()` accepts, which `strip()` removes; its use is stated by `Text.Strip` and `Text.StripIsSlice` |
| Text.LowerChar | main.py:162 | an upper-case ASCII letter becomes the letter 32 code points above it, in `a`..`z`; every other character stays as it is, and whitespace stays whitespace |
| Text.Lower | main.py:162 | `str.lower()` keeps the length, maps every character through `LowerChar`, and leaves no upper-case letter |
| Text.LowerOfLower | main.py:135 | a string without upper-case letters is its own lower-case form |
| Text.LowerKeepsComma | main.py:135 | lower-casing adds no comma to a piece without one |
| Text.LowerIgnoresCase | main.py:162 | two strings that differ only in the case of ASCII letters lower-case to the same string |
| Text.LowerOfUpperWord | main.py:162 | `GPU` lower-cases to `gpu` |
| Text.StripLeft | main.py:76 | `lstrip()` drops a whitespace prefix and leaves a suffix that does not start with whitespace |
| Text.StripRight | main.py:76 | `rstrip()` drops a whitespace suffix and leaves a prefix that does not end with whitespace |
| Text.Strip | main.py:76 | `strip()` has no whitespace at either end, is no longer than its input, and is empty exactly when the input is all whitespace |
| Text.StripIsSlice | main.py:76 | `strip()` is the slice of the input between two runs of whitespace |
| Text.StripLeftStep | main.py:76 | dropping one more leading space keeps the `lstrip()` result a suffix after a run of whitespace |
| Text.StripRightStep | main.py:76 | dropping one more trailing space keeps the `rstrip()` result a prefix before a run of whitespace |
| Text.TrimIsSlice | main.py:76 | `rstrip(lstrip(s))` is the slice of `s` between its leading and trailing whitespace |
| Text.StripKeepsAbsent | main.py:134 | stripping adds no character, so a piece without a comma stays without one |
| Text.StripOfStripped | main.py:77 | stripping a stripped string changes nothing |
| Text.StripIdempotent | main.py:77 | stripping twice is stripping once |
| Text.LowerKeepsStripped | main.py:135 | lower-casing a stripped string leaves it stripped |
| Text.LowerIdempotent | main.py:162 | lower-casing twice is lower-casing once |
| Text.Contains | main.py:162 | Python's `in` and Go's `strings.Contains` on strings; stated by `Text.ContainsIff` as "some window equals the keyword" |
| Text.KeywordFound | main.py:162 | the match test both bots apply: the keyword is in the lower-cased title or in the lower-cased text; stated through `Text.ContainsIff` and `PyNotify.MatchesIff` |
| Text.ContainsIff | main.py:162 | the substring test holds exactly when some window of the text equals the keyword |
| Text.EmptyIsContained | main.go:130 | the empty string is contained in every string |
| Text.ContainsChars | main.go:130 | every character of a contained string occurs in the containing string |
| Text.UpperNotInLower | main.go:130-132 | a string with an upper-case ASCII letter is never contained in lower-cased text |
| Text.Split | main.py:134 | `split(',')` gives at least one piece, and no piece holds the separator |
| Text.JoinSplit | main.py:135 | joining the pieces with the separator gives back the original string |
| Text.SplitAround | main.py:135 | a separator after a piece without separators splits off exactly that piece |
| Text.SplitConcat | main.py:135 | splitting `a + "," + b` gives the pieces of `a` followed by the pieces of `b` |
| Text.SplitNoSep | main.py:135 | a string without the separator is one piece |
| IniConfig.Rank | main.py:75-128 | an option's rank is its index in the checking order |
| IniConfig.RequiredSettingsComplete | main.py:75-128 | the checking order lists every option, and none twice |
| IniConfig.MissingText | main.go:34 | the message is `Missing '` + the option name + `'` |
| PyConfig.ErrorLine | main.py:33-35 | the printed line is `Error parsing config file: ` followed by the message |
| PyConfig.Accepted | main.py:75-76 | the `has_option` and `len(...strip()) > 0` test each option must pass; stated by `PyConfig.AcceptedIff` |
| PyConfig.AcceptedIff | main.py:76-79 | an option is accepted exactly when it is present and its stripped value is not empty |
| PyConfig.Stored | main.py:77-126 | the value the dict keeps for an option; stated by `PyConfig.FillStoresValue` |
| PyConfig.Fill | main.py:75-128 | the nine checks in order, stopping at the first rejected option; stated by the `Fill...` lemmas below |
| PyConfig.GetConfig | main.py:60-130 | `get_config` after the file is read; stated by `GetConfigOk`, `GetConfigValues` and `GetConfigFirstMissing` |
| PyConfig.FillKeys | main.py:75-130 | after the checks the dict holds exactly the options checked, plus any it held before |
| PyConfig.FillKeepsOthers | main.py:75-130 | the checks keep entries for options they do not check |
| PyConfig.FillStoresValue | main.py:77-126 | each checked option maps to its stripped value, or its raw text for `interval` and `smtp_port` |
| PyConfig.FillOkIff | main.py:75-128 | the checks succeed exactly when every option checked is accepted |
| PyConfig.FillErrSound | main.py:75-128 | when the checks fail naming `s`, there is an index where `s` stands, is rejected, and every option before it is accepted |
| PyConfig.FillErrComplete | main.py:75-128 | when `s` is rejected at an index and every option before it is accepted, the checks fail naming `s` |
| PyConfig.FillErrIff | main.py:75-128 | the checks fail naming `s` exactly when `s` is rejected and every option before it is accepted |
| PyConfig.GetConfigOk | main.py:60-130 | `get_config` returns exactly when all nine options are present and not blank after stripping |
| PyConfig.GetConfigValues | main.py:75-130 | when every option is accepted, `get_config` returns a dict holding all nine options with their stored values |
| PyConfig.GetConfigFirstMissing | main.py:75-128 | `get_config` exits naming `s` exactly when `s` is absent or blank and every option ranked before it is accepted |
| PyConfig.FirstRejectedByRank | main.py:75-128 | "first rejected option in the checking order" means: `s` is rejected and every option of lower rank is accepted |
| PyConfig.BlankSubredditIsMissing | main.py:75-79 | a whitespace-only `subreddit` stops start-up naming `subreddit`, whatever the other options hold |
| GoConfig.DigitValue | main.go:39 | `0`–`9` are worth 0–9 and `a`–`f` or `A`–`F` are worth 10–15; every other character is worth exactly 16, "not a digit" |
| GoConfig.DigitsSnoc | main.go:39 | appending a decimal digit to a parsed decimal string multiplies its value by ten and adds the digit |
| GoConfig.Digits | main.go:39 | the digits of a string parse in a base exactly when every character is a digit of that base |
| GoConfig.ParseInt | main.go:39 | a parsed value lies in the signed 64-bit range |
| GoConfig.ParseUnsigned | main.go:39 | the base `strconv` picks from a `0b`, `0o`, `0x` or `0` prefix; what it reads is stated by `GoConfig.Digits`, `GoConfig.ParseIntOfDecimal` and `GoConfig.MustIntDefaults` |
| GoConfig.MustInt | main.go:39 | the value is the default or a signed 64-bit integer |
| GoConfig.Decimal | main.go:39 | decimal text has at least one digit and no leading zero |
| GoConfig.DigitsOfDecimal | main.go:39 | the decimal digits of `n` read back as `n` |
| GoConfig.ParseIntOfDecimal | main.go:39 | every 64-bit integer written in decimal, with `-` when negative, parses back to itself |
| GoConfig.MustIntReadsDecimal | main.go:39 | `MustInt` reads back every 64-bit integer written in decimal, whatever the default |
| GoConfig.MustIntHex | main.go:39 | `0x1f` and `0X1F` read as 31 and `-0x10` as -16, whatever the default |
| GoConfig.MustIntBinaryOctal | main.go:39 | `0b101` reads as 5 and `0o17` as 15, whatever the default |
| GoConfig.MustIntLeadingZero | main.go:39 | `010` reads as octal 8, and `08`, not an octal number, gives the default |
| GoConfig.MustIntDefaults | main.go:37-42 | an empty `interval` gives 5, and any text ending in a character that is not a hex digit gives the default 25 for `smtp_port` |
| GoConfig.Load | main.go:31-85 | `main`'s nine presence checks in order; stated by `LoadOk`, `LoadFirstMissing` and `LoadValues` |
| GoConfig.Assign | main.go:31-85 | the nine assignments, with `MustInt(…, 5)` and `MustInt(…, 25)`; stated by `GoConfig.LoadValues` |
| GoConfig.ErrorLine | main.go:148-151 | the printed line is `Error parsing config.ini:`, two spaces, and the message |
| GoConfig.AllPresent | main.go:31-85 | the nine presence facts cover every option |
| GoConfig.LoadOk | main.go:31-85 | `main` gets past its checks exactly when every option is present |
| GoConfig.LoadFirstMissing | main.go:31-85 | `main` exits naming `s` exactly when `s` is absent and every option ranked before it is present |
| GoConfig.LoadNamesFirstAbsent | main.go:31-85 | an exit naming `s` means `s` is absent and every option ranked before it is present |
| GoConfig.FirstAbsentStopsLoad | main.go:31-85 | when `s` is absent and every option ranked before it is present, `main` exits naming `s` |
| GoConfig.LoadValues | main.go:31-85 | present values are kept as written, even when empty; `interval` and `smtp_port` go through `MustInt` with 5 and 25 |
| PyNotify.Subreddits | main.py:134 | entry `i` is the `i`-th comma piece of the setting, stripped; there is one per piece and none holds a comma |
| PyNotify.Each | main.py:134 | the list comprehension: entry `i` is the function applied to piece `i` |
| PyNotify.EachConcat | main.py:134 | mapping over two joined lists is joining the two mapped lists |
| PyNotify.SubredditsConcat | main.py:134 | the subreddits of `a,b` are those of `a` followed by those of `b` |
| PyNotify.SubredditsOfOne | main.py:134 | a setting without a comma names the one subreddit it holds, stripped |
| PyNotify.Normalise | main.py:135 | `keyword.strip().lower()`; stated by `PyNotify.NormaliseOfNormalised` and `PyNotify.KeywordsNormalised` |
| PyNotify.Keywords | main.py:135 | the keyword set built from the comma pieces; stated by the `Keywords...` lemmas below |
| PyNotify.KeywordsNormalised | main.py:135 | every keyword is stripped, has no upper-case letter and no comma |
| PyNotify.KeywordsConcat | main.py:135 | the keyword set of `a + "," + b` is the union of the sets of `a` and `b` |
| PyNotify.NormaliseOfNormalised | main.py:135 | a stripped piece without upper-case letters is already normalised |
| PyNotify.ImageOfPieces | main.py:135 | one piece gives a one-element set, two pieces the set of their two images |
| PyNotify.KeywordsOfOnePiece | main.py:135 | an option that splits into one piece gives exactly that piece, normalised |
| PyNotify.KeywordsOfTwoPieces | main.py:135 | an option that splits into two pieces gives exactly those two pieces, normalised |
| PyNotify.KeywordsOfPiece | main.py:135 | a stripped option without a comma gives the one keyword it holds, lower-cased |
| PyNotify.KeywordsOfOne | main.py:135 | a stripped, lower-case keyword without a comma is the whole set |
| PyNotify.DuplicatesCollapse | main.py:135 | two comma-free pieces give a one-element set exactly when they normalise to the same keyword |
| PyNotify.TrailingCommaAddsEmpty | main.py:135 | a trailing comma puts the empty keyword in the set |
| PyNotify.Matches | main.py:162 | the `if` of the keyword loop; stated by `PyNotify.MatchesIff` |
| PyNotify.MatchesIff | main.py:162 | a keyword matches exactly when it is a window of the lower-cased title or text |
| PyNotify.MatchesOwnTitle | main.py:162 | the lower-cased title is a keyword that matches its own post |
| PyNotify.EmptyKeywordMatches | main.py:162 | the empty keyword matches every post |
| PyNotify.MatchesIgnoresCase | main.py:162 | lower-casing the post first does not change whether a keyword matches |
| PyNotify.ItemAlerts | main.py:160-168 | the keyword loop for one post; stated by `ItemAlertsIff` and `ItemAlertsOncePerKeyword` |
| PyNotify.ListingAlerts | main.py:154-168 | the post loop of one listing; stated by `ListingAlertsIff` and `ListingAlertsAppend` |
| PyNotify.ResponseAlerts | main.py:145-168 | a reply is read only when its status is 200; stated by `PyNotify.TickAlertsIff` |
| PyNotify.TickAlerts | main.py:138-168 | one pass over the subreddits; stated by `PyNotify.TickAlertsIff` |
| PyNotify.ItemAlertsIff | main.py:160-168 | a post yields an alert for exactly the keywords that match it, and no more alerts than keywords |
| PyNotify.ItemAlertsOncePerKeyword | main.py:160-168 | with each keyword listed once, as a set iterates, no two alerts of a post share a keyword |
| PyNotify.ListingAlertsIff | main.py:154-168 | a listing yields exactly the matching (post, keyword) pairs |
| PyNotify.ListingAlertsAppend | main.py:154-168 | the alerts of two runs of posts are the first run's, then the second's: posts are checked once each, in index order |
| PyNotify.ListingAlertsOfOne | main.py:154-168 | a listing of one post yields exactly that post's alerts |
| PyNotify.TickAlertsIff | main.py:138-168 | a pass yields exactly the matching pairs from replies with status 200 |
| Mailing.Subject | main.py:190 | the subject is the bot's opening (`Reddit Notify: Found Match (` in Python, `Reddit Notify: Found match (` in Go at main.go:158) + title + `)`, and the title can be read back from it |
| Mailing.SubjectInjective | main.go:158 | under one opening, different titles give different subjects |
| PyNotify.Body | main.py:191-195 | the f-string body, with the eight-space indents of its continuation lines; its head is stated by `PyNotify.Render` |
| PyNotify.Render | main.py:179-195 | the mail goes from `smtp_from` to `smtp_to`, carries the subject with the opening `Reddit Notify: Found Match (`, and its body opens with the keyword line and the indented title |
| PyNotify.Prune | main.py:52-53 | popping while longer than 100 keeps the first 100 entries |
| PyNotify.Remember | main.py:43-57 | the sent list after `sent_previously`; stated by `PyNotify.RememberCases` |
| PyNotify.RememberCases | main.py:48-57 | a listed hash leaves the list alone; a new hash is appended when there is room; on a full list it is popped again and stays unlisted |
| PyNotify.Step | main.py:173-176 | one `send_alert`; stated by the `Feed...` lemmas and `Notifier.SendAlert` |
| PyNotify.Feed | main.py:160-176 | `send_alert` for each alert in turn; stated by the `Feed...` lemmas below |
| PyNotify.FeedAppend | main.py:160-168 | feeding two runs of alerts is feeding one after the other |
| PyNotify.FeedKeeps | main.py:43-57 | the sent list stays within 100 entries and loses no hash; earlier alerts stay in the outbox |
| PyNotify.FeedComplete | main.py:173-195 | every fed alert whose hash was not listed before gets a mail for that hash, and every hash the feed lists belongs to a mail it sent |
| PyNotify.MailedGrows | main.py:173-195 | a mail for a hash stays in the outbox as later mails are appended |
| PyNotify.FeedSound | main.py:173-176 | every new outbox entry is one of the fed alerts, and its hash was not listed before |
| PyNotify.FeedRemembers | main.py:48-49 | while there is room, every fed hash ends up in the list |
| PyNotify.FeedOncePerUrl | main.py:43-57 | while the list has room for the whole pass, the new mails have pairwise different permalinks and hashes, and each hash is listed afterwards |
| PyNotify.FeedSilent | main.py:175-176 | alerts whose hashes are all listed change nothing |
| PyNotify.NoRepeatWithRoom | main.py:43-57 | while there is room, feeding the same alerts again sends nothing more |
| PyNotify.FeedWhenFull | main.py:48-55 | a full list never changes, and every alert whose hash it lacks is mailed |
| PyNotify.RepeatWhenFull | main.py:48-55 | on a full list the same alerts are mailed again on every pass |
| PyNotify.Notifier.constructor | main.py:133-135 | start-up derives the subreddit list and the keyword order, and starts with an empty sent list (the module-level `sent = []` at main.py:27) |
| PyNotify.Notifier.SentPreviously | main.py:43-57 | returns true exactly when the URL's hash was listed, and leaves the list as `Remember` says |
| PyNotify.Notifier.SendAlert | main.py:173-207 | returns early for a listed URL, and otherwise mails the alert, as `Step` says |
| PyNotify.Notifier.CheckItem | main.py:160-168 | the keyword loop for one post feeds exactly that post's alerts, in keyword order |
| PyNotify.Notifier.CheckListing | main.py:145-168 | a reply other than 200 changes nothing; otherwise every post is checked in index order |
| PyNotify.Notifier.Tick | main.py:138-168 | one pass over the subreddits feeds the alerts of every reply in turn |
| GoNotify.Matches | main.go:130-134 | the `alert` test; stated by `GoNotify.AlertsIff` and `Agreement.NormalisedKeywordAgrees` |
| GoNotify.Render | main.go:153-159 | the mail goes from `smtp_from` to `smtp_to` with the subject opening `Reddit Notify: Found match (`; the body opens with the keyword and the title and ends with the text |
| GoNotify.Alerts | main.go:122-141 | the mails of one listing; stated by `AlertsIff` and `AlertsAppend` |
| GoNotify.Scan | main.go:122-141 | the loop with the `alert` flag sends exactly the mails of `Alerts`, one per matching post, in index order |
| GoNotify.AlertsAppend | main.go:122-141 | alerts of two runs of posts are the concatenation of their alerts |
| GoNotify.RepeatEveryPass | main.go:105-145 | nothing is remembered, so a post seen twice is mailed twice |
| GoNotify.AlertsIff | main.go:122-140 | a mail is sent exactly for each matching post, and there are no more mails than posts |
| GoNotify.EmptyKeywordAlertsAll | main.go:130 | an empty keyword mails every post |
| GoNotify.UpperKeywordAlertsNone | main.go:130-132 | a keyword with an upper-case letter never sends a mail |
| Agreement.SameVerdictWithoutBlanks | main.py:75-128 | given the same map of option values and no blank value (and numeric values Python's `int()` accepts), both bots start, or both stop naming the same option |
| Agreement.BlankValueSplitsThem | main.go:31-85 | a whitespace-only value of any option stops the Python bot, naming that option or an earlier one (`subreddit` itself when blank), while the Go bot starts; Python's `int()` crash on an earlier `interval` or `smtp_port` is not modelled |
| Agreement.NormalisedKeywordAgrees | main.py:162 | a stripped, lower-case, comma-free keyword is the whole Python set, and a post matches some Python keyword exactly when it matches the Go keyword |
| Agreement.SomeKeywordOfOne | main.py:162 | over a one-keyword set, some keyword matches a post exactly when that keyword does |
| Agreement.UpperCaseKeywordSplitsThem | main.go:130 | a keyword with an upper-case letter, such as `GPU`, is lower-cased by Python and matches a post titled with it; in Go it never sends a mail |

## Left out

- HTTP requests, the User-Agent header and JSON decoding are not modelled. A reply is its status code and the posts already decoded from it. For Go, an absent field is `""`, as `jsonparser.GetString` returns it, with its error discarded.
- Only Python posts whose `title`, `selftext` and `permalink` are strings are modelled. In the source a field that is absent or JSON `null` reads as `None`:
  - a `None` `permalink` has its hash checked and stored like any other;
  - a `None` `title` always raises on `.lower()` at main.py:162, because the keyword set is never empty;
  - a `None` `selftext` raises only when some keyword is not in the lower-cased title, after the alerts for the keywords before it; this is because the `or` at main.py:162 evaluates `text.lower()` only then. When every keyword is in the title, the post is alerted and its mail body shows `None` in place of the text (main.py:193). The model has no value for that body.
- A Python post's `created_utc` is a JSON float in the source; the model keeps it as an `int` and hands it to the `formatTime` parameter, which stands for `datetime.fromtimestamp(...).strftime(...)`.
- Go's dereference of a nil reply after a failed request (main.go:108-114) is not modelled. It is a crash.
- SMTP delivery and MIME assembly are not modelled. A mail is the four fields handed to the library. A failed delivery only prints, so the outbox holds every alert whose mail was attempted.
- INI file reading, the `DEFAULT` section, the Python check for a file with no sections (main.py:63-72) and `argparse` are not modelled. The file is a map from (section, name) to the value a bot's INI reader delivers: configparser for Python, go-ini for Go. The two readers can deliver different maps for one file (see Agreement.SameVerdictWithoutBlanks below).
- The endless polling loops and `sleep` are not modelled. One pass over the subreddits is `Notifier.Tick` for Python and one `GoNotify.Scan` per listing for Go.
- Console output is not modelled, except the two configuration error lines. The process exit becomes the `Err` result.
- Python's `hash`, `datetime.fromtimestamp(...).strftime(...)` and the set iteration order are parameters, because they depend on the process, the clock and the locale.
- PyConfig.Stored: `interval` and `smtp_port` are kept as raw text. The `int(...)` conversion and its `ValueError` (main.py:83, main.py:102) are not modelled.
- A `dist` larger than the list of children is not modelled. The source raises `IndexError` at main.py:156.
- Text.Lower: only ASCII letters are lower-cased. Python's and Go's Unicode case mapping is not modelled.
- GoConfig.ParseInt: the underscores that base-0 `strconv.ParseInt` allows between digits are not accepted.
- Agreement.SameVerdictWithoutBlanks: assumes both INI readers deliver the same map, which they do not for every file. Python's configparser lower-cases option names, so `Subreddit = x` is accepted; go-ini is case-sensitive and reports `Missing 'subreddit'`. go-ini also strips inline comments and surrounding quotes, which configparser keeps. The lemma also leaves out Python's `int()`: an `interval` or `smtp_port` value that `int()` rejects (such as `0x10`, `10m` or `5.5`) crashes the Python bot with a `ValueError` at main.py:83 or main.py:102, while Go reads it in base 0 or falls back to 5 or 25 and starts; the lemma's verdicts hold only for values `int()` accepts. The same holds for the other `Agreement` lemmas about configuration.
- Agreement.BlankValueSplitsThem: Python's `int()` is not modelled, so when an earlier `interval` or `smtp_port` that `int()` rejects (main.py:83, main.py:102) comes before the blank option, the source crashes with a `ValueError` rather than naming an option as the lemma states. A rejected `smtp_port` pre-empts a blank `smtp_username`, `smtp_password`, `smtp_to` or `smtp_from`, which are checked after it.
- Keyword rules combined with AND, and a recency window for posts, are not modelled. Neither `main.py` nor `main.go` has them.
