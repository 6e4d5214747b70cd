/**
 * The configuration checks in `main` of the Go bot: each of the nine
 * options need only be present (an empty value is accepted), and the two
 * numeric ones are read with `MustInt`, which falls back to a default when
 * the text is not an integer.
 */
module GoConfig {
  import opened Wrappers
  import opened Text
  import opened IniConfig

  /** The package-level variables `main` assigns. */
  datatype Settings = Settings(
    subreddit: string,
    interval: int,
    keyword: string,
    smtpServer: string,
    smtpPort: int,
    smtpUsername: string,
    smtpPassword: string,
    smtpTo: string,
    smtpFrom: string)

  const MinInt64: int := -0x8000_0000_0000_0000
  const MaxInt64: int := 0x7fff_ffff_ffff_ffff

  /** The value of a digit character in bases up to 16, or 16 for anything else. */
  function DigitValue(c: char): (v: nat)
    ensures v <= 16
    ensures v < 16 <==> '0' <= c <= '9' || 'a' <= c <= 'f' || 'A' <= c <= 'F'
    ensures '0' <= c <= '9' ==> v == c as int - '0' as int
    ensures 'a' <= c <= 'f' ==> v == c as int - 'a' as int + 10
    ensures 'A' <= c <= 'F' ==> v == c as int - 'A' as int + 10
  {
    if '0' <= c <= '9' then c as int - '0' as int
    else if 'a' <= c <= 'f' then c as int - 'a' as int + 10
    else if 'A' <= c <= 'F' then c as int - 'A' as int + 10
    else 16
  }

  /** The digits of `s` in `base`, most significant first; `None` if one is not a digit. */
  function Digits(s: string, base: nat): (r: Option<nat>)
    requires 2 <= base <= 16
    ensures r.Some? <==> forall i :: 0 <= i < |s| ==> DigitValue(s[i]) < base
  {
    if s == [] then Some(0)
    else
      var d := DigitValue(s[|s| - 1]);
      match Digits(s[..|s| - 1], base)
      case None => None
      case Some(high) => if d < base then Some(high * base + d) else None
  }

  /**
   * `strconv.ParseUint(s, 0, 64)`'s choice of base: a `0b`, `0o` or `0x`
   * prefix (either case) on at least three characters, else a leading `0`
   * for octal, else decimal.
   */
  function ParseUnsigned(s: string): Option<nat> {
    if s == [] then None
    else if s[0] == '0' && |s| >= 3 && LowerChar(s[1]) == 'b' then Digits(s[2..], 2)
    else if s[0] == '0' && |s| >= 3 && LowerChar(s[1]) == 'o' then Digits(s[2..], 8)
    else if s[0] == '0' && |s| >= 3 && LowerChar(s[1]) == 'x' then Digits(s[2..], 16)
    else if s[0] == '0' then Digits(s[1..], 8)
    else Digits(s, 10)
  }

  /** `strconv.ParseInt(s, 0, 64)`: an optional sign, then an unsigned number that fits in 64 bits. */
  function ParseInt(s: string): (r: Option<int>)
    ensures r.Some? ==> MinInt64 <= r.value <= MaxInt64
  {
    if s == [] then None
    else
      var neg := s[0] == '-';
      var body := if s[0] == '+' || s[0] == '-' then s[1..] else s;
      match ParseUnsigned(body)
      case None => None
      case Some(u) =>
        if !neg && u > MaxInt64 then None
        else if neg && u > -MinInt64 then None
        else
          var v: int := if neg then -(u as int) else u;
          Some(v)
  }

  /** go-ini's `Key.MustInt(default)`: the parsed value, or `default` when parsing fails. */
  function MustInt(s: string, default: int): (n: int)
    ensures n == default || MinInt64 <= n <= MaxInt64
  {
    match ParseInt(s)
    case Some(v) => v
    case None => default
  }

  /** The decimal digit for `d`. */
  function DigitChar(d: nat): char
    requires d < 10
  {
    ('0' as int + d) as char
  }

  /** `n` in decimal without leading zeros, as `strconv.Itoa` writes it. */
  function Decimal(n: nat): (s: string)
    ensures |s| >= 1 && (n >= 10 ==> s[0] != '0') && (n < 10 ==> |s| == 1)
  {
    if n < 10 then [DigitChar(n)] else Decimal(n / 10) + [DigitChar(n % 10)]
  }

  /** Appending a decimal digit multiplies the value read so far by ten and adds the digit. */
  lemma DigitsSnoc(h: string, c: char)
    requires Digits(h, 10).Some? && DigitValue(c) < 10
    ensures Digits(h + [c], 10) == Some(Digits(h, 10).value * 10 + DigitValue(c))
  {
    var hc := h + [c];
    assert hc[..|hc| - 1] == h && hc[|hc| - 1] == c;
  }

  lemma {:induction false} DigitsOfDecimal(n: nat)
    ensures Digits(Decimal(n), 10) == Some(n)
  {
    if n >= 10 {
      var high, d := n / 10, n % 10;
      DigitsOfDecimal(high);
      assert Decimal(n) == Decimal(high) + [DigitChar(d)];
      assert DigitValue(DigitChar(d)) == d;
      DigitsSnoc(Decimal(high), DigitChar(d));
      assert high * 10 + d == n;
    }
  }

  /** Reading back a number written in decimal gives the number, within 64 bits. */
  lemma ParseIntOfDecimal(n: int)
    requires MinInt64 <= n <= MaxInt64
    ensures n >= 0 ==> ParseInt(Decimal(n)) == Some(n)
    ensures n < 0 ==> ParseInt("-" + Decimal(-n)) == Some(n)
  {
    if n >= 0 {
      DigitsOfDecimal(n);
    } else {
      DigitsOfDecimal(-n);
      assert ("-" + Decimal(-n))[1..] == Decimal(-n);
    }
  }

  /** Every 64-bit integer written in decimal is read back by `MustInt`, whatever the default. */
  lemma MustIntReadsDecimal(n: int, default: int)
    requires MinInt64 <= n <= MaxInt64
    ensures n >= 0 ==> MustInt(Decimal(n), default) == n
    ensures n < 0 ==> MustInt("-" + Decimal(-n), default) == n
  {
    ParseIntOfDecimal(n);
  }

  /** Base 0 reads a `0x` prefix, in either case, as hexadecimal, also after a sign. */
  lemma MustIntHex(default: int)
    ensures MustInt("0x1f", default) == 31 && MustInt("0X1F", default) == 31
    ensures MustInt("-0x10", default) == -16
  {
    assert "0x1f"[2..] == "1f" && "1f"[..1] == "1";
    assert "0X1F"[2..] == "1F" && "1F"[..1] == "1";
    assert "-0x10"[1..] == "0x10" && "0x10"[2..] == "10" && "10"[..1] == "1";
    assert "1"[..0] == "";
    assert Digits("1", 16) == Some(1);
    assert Digits("1f", 16) == Some(31);
    assert Digits("1F", 16) == Some(31);
    assert Digits("10", 16) == Some(16);
  }

  /** Base 0 reads `0b` as binary and `0o` as octal. */
  lemma MustIntBinaryOctal(default: int)
    ensures MustInt("0b101", default) == 5 && MustInt("0o17", default) == 15
  {
    assert "0b101"[2..] == "101" && "101"[..2] == "10" && "10"[..1] == "1";
    assert "1"[..0] == "";
    assert Digits("1", 2) == Some(1);
    assert Digits("10", 2) == Some(2);
    assert Digits("101", 2) == Some(5);
    assert "0o17"[2..] == "17" && "17"[..1] == "1";
    assert Digits("1", 8) == Some(1);
    assert Digits("17", 8) == Some(15);
  }

  /**
   * A leading `0` without a letter means octal, so `010` is 8 and `08` is
   * not a number and leaves the default.
   */
  lemma MustIntLeadingZero(default: int)
    ensures MustInt("010", default) == 8
    ensures MustInt("08", default) == default
  {
    assert "010"[1..] == "10" && "10"[..1] == "1" && "1"[..0] == "";
    assert Digits("1", 8) == Some(1);
    assert Digits("10", 8) == Some(8);
    assert "08"[1..] == "8" && "8"[..0] == [];
    assert Digits("8", 8) == None;
  }

  /** Text that is not a number leaves the default, e.g. an empty `interval` gives 5. */
  lemma MustIntDefaults()
    ensures MustInt("", 5) == 5
    ensures forall s :: s != [] && DigitValue(s[|s| - 1]) == 16 ==> MustInt(s, 25) == 25
  {
    forall s | s != [] && DigitValue(s[|s| - 1]) == 16 ensures MustInt(s, 25) == 25 {
      var body := if s[0] == '+' || s[0] == '-' then s[1..] else s;
      if body != [] {
        assert body[|body| - 1] == s[|s| - 1];
        if body[0] == '0' && |body| >= 3 {
          assert body[2..][|body| - 3] == s[|s| - 1];
        } else if body[0] == '0' {
          assert body[1..][|body| - 2] == s[|s| - 1];
        }
      }
    }
  }

  /** `main`'s checks, in order: each option need only be present. */
  function Load(ini: Ini): Result<Settings, ConfigError> {
    if KeyOf(Subreddit) !in ini then Err(Missing(Subreddit))
    else if KeyOf(Interval) !in ini then Err(Missing(Interval))
    else if KeyOf(Keyword) !in ini then Err(Missing(Keyword))
    else if KeyOf(SmtpServer) !in ini then Err(Missing(SmtpServer))
    else if KeyOf(SmtpPort) !in ini then Err(Missing(SmtpPort))
    else if KeyOf(SmtpUsername) !in ini then Err(Missing(SmtpUsername))
    else if KeyOf(SmtpPassword) !in ini then Err(Missing(SmtpPassword))
    else if KeyOf(SmtpTo) !in ini then Err(Missing(SmtpTo))
    else if KeyOf(SmtpFrom) !in ini then Err(Missing(SmtpFrom))
    else
      AllPresent(ini);
      Ok(Assign(ini))
  }

  /** The assignments `main` makes once every option is present. */
  function Assign(ini: Ini): Settings
    requires forall s :: KeyOf(s) in ini
  {
    Settings(
      subreddit := ini[KeyOf(Subreddit)],
      interval := MustInt(ini[KeyOf(Interval)], 5),
      keyword := ini[KeyOf(Keyword)],
      smtpServer := ini[KeyOf(SmtpServer)],
      smtpPort := MustInt(ini[KeyOf(SmtpPort)], 25),
      smtpUsername := ini[KeyOf(SmtpUsername)],
      smtpPassword := ini[KeyOf(SmtpPassword)],
      smtpTo := ini[KeyOf(SmtpTo)],
      smtpFrom := ini[KeyOf(SmtpFrom)])
  }

  /** The line printed before exiting (`fmt.Println` puts a space between its two arguments). */
  function ErrorLine(e: ConfigError): (line: string)
    ensures |line| == 27 + |MissingText(e)|
    ensures line[..27] == "Error parsing config.ini:  " && line[27..] == MissingText(e)
  {
    "Error parsing config.ini: " + " " + MissingText(e)
  }

  predicate Present(ini: Ini, s: Setting) {
    KeyOf(s) in ini
  }

  /** All nine presence facts, one per option, cover every option. */
  lemma AllPresent(ini: Ini)
    requires KeyOf(Subreddit) in ini && KeyOf(Interval) in ini && KeyOf(Keyword) in ini
    requires KeyOf(SmtpServer) in ini && KeyOf(SmtpPort) in ini && KeyOf(SmtpUsername) in ini
    requires KeyOf(SmtpPassword) in ini && KeyOf(SmtpTo) in ini && KeyOf(SmtpFrom) in ini
    ensures forall s :: Present(ini, s)
  {
    forall s ensures Present(ini, s) {
      match s
      case Subreddit =>
      case Interval =>
      case Keyword =>
      case SmtpServer =>
      case SmtpPort =>
      case SmtpUsername =>
      case SmtpPassword =>
      case SmtpTo =>
      case SmtpFrom =>
    }
  }

  /** `main` gets past its checks exactly when no option is absent. */
  lemma LoadOk(ini: Ini)
    ensures Load(ini).Ok? <==> forall s :: Present(ini, s)
  {
    if forall s :: Present(ini, s) {
      assert Present(ini, Subreddit) && Present(ini, Interval) && Present(ini, Keyword);
      assert Present(ini, SmtpServer) && Present(ini, SmtpPort) && Present(ini, SmtpUsername);
      assert Present(ini, SmtpPassword) && Present(ini, SmtpTo) && Present(ini, SmtpFrom);
    }
    if Load(ini).Ok? {
      AllPresent(ini);
    }
  }

  /** `main` stops naming `s` exactly when `s` is absent and every option checked before it is present. */
  lemma LoadFirstMissing(ini: Ini, s: Setting)
    ensures Load(ini) == Err(Missing(s)) <==> !Present(ini, s) && forall t :: Rank(t) < Rank(s) ==> Present(ini, t)
  {
    if Load(ini) == Err(Missing(s)) {
      LoadNamesFirstAbsent(ini, s);
    }
    if !Present(ini, s) && forall t :: Rank(t) < Rank(s) ==> Present(ini, t) {
      FirstAbsentStopsLoad(ini, s);
    }
  }

  /** The option `main` names is absent, and every option checked before it is present. */
  lemma LoadNamesFirstAbsent(ini: Ini, s: Setting)
    requires Load(ini) == Err(Missing(s))
    ensures !Present(ini, s) && forall t :: Rank(t) < Rank(s) ==> Present(ini, t)
  {
    forall t | Rank(t) < Rank(s) ensures Present(ini, t) {
      match t
      case Subreddit =>
      case Interval =>
      case Keyword =>
      case SmtpServer =>
      case SmtpPort =>
      case SmtpUsername =>
      case SmtpPassword =>
      case SmtpTo =>
      case SmtpFrom =>
    }
  }

  /** An absent option with every earlier one present is the one `main` names. */
  lemma FirstAbsentStopsLoad(ini: Ini, s: Setting)
    requires !Present(ini, s) && forall t :: Rank(t) < Rank(s) ==> Present(ini, t)
    ensures Load(ini) == Err(Missing(s))
  {
    match s
    case Subreddit =>
    case Interval => assert Present(ini, Subreddit);
    case Keyword => assert Present(ini, Subreddit) && Present(ini, Interval);
    case SmtpServer => assert Present(ini, Subreddit) && Present(ini, Interval) && Present(ini, Keyword);
    case SmtpPort => assert Present(ini, Subreddit) && Present(ini, Interval) && Present(ini, Keyword) && Present(ini, SmtpServer);
    case SmtpUsername => assert Present(ini, Subreddit) && Present(ini, Interval) && Present(ini, Keyword) && Present(ini, SmtpServer) && Present(ini, SmtpPort);
    case SmtpPassword => assert Present(ini, Subreddit) && Present(ini, Interval) && Present(ini, Keyword) && Present(ini, SmtpServer) && Present(ini, SmtpPort) && Present(ini, SmtpUsername);
    case SmtpTo => assert Present(ini, Subreddit) && Present(ini, Interval) && Present(ini, Keyword) && Present(ini, SmtpServer) && Present(ini, SmtpPort) && Present(ini, SmtpUsername) && Present(ini, SmtpPassword);
    case SmtpFrom => assert Present(ini, Subreddit) && Present(ini, Interval) && Present(ini, Keyword) && Present(ini, SmtpServer) && Present(ini, SmtpPort) && Present(ini, SmtpUsername) && Present(ini, SmtpPassword) && Present(ini, SmtpTo);
  }

  /** Present values are taken as written, even empty ones; the numbers go through `MustInt`. */
  lemma LoadValues(ini: Ini)
    requires Load(ini).Ok?
    ensures var c := Load(ini).value;
            && c.subreddit == ini[KeyOf(Subreddit)] && c.keyword == ini[KeyOf(Keyword)]
            && c.interval == MustInt(ini[KeyOf(Interval)], 5)
            && c.smtpPort == MustInt(ini[KeyOf(SmtpPort)], 25)
            && c.smtpServer == ini[KeyOf(SmtpServer)] && c.smtpUsername == ini[KeyOf(SmtpUsername)]
            && c.smtpPassword == ini[KeyOf(SmtpPassword)]
            && c.smtpTo == ini[KeyOf(SmtpTo)] && c.smtpFrom == ini[KeyOf(SmtpFrom)]
  {
  }
}
