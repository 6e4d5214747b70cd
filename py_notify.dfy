/**
 * The polling side of the Python bot: `check_reddit` turns the options
 * into a list of subreddits and a set of keywords, and each pass over the
 * subreddits hands every (post, keyword) match to `send_alert`, which
 * drops it when `sent_previously` has seen the post's permalink and
 * mails it otherwise. The list of sent hashes holds at most 100 entries.
 */
module PyNotify {
  import opened Text
  import opened IniConfig
  import opened Mailing
  import PyConfig

  /** A post of a listing: the fields of `data.children[i].data` the bot reads. */
  datatype Item = Item(title: string, selftext: string, permalink: string, createdUtc: int)

  /**
   * The reply to one listing request: its status code and, the body once
   * decoded, the first `data.dist` posts of `data.children`.
   */
  datatype Response = Response(status: int, items: seq<Item>)

  /** One call of `send_alert`: a post and the keyword it matched. */
  datatype Alert = Alert(item: Item, keyword: string)

  /**
   * What alerting depends on besides the sent list: Python's `hash` of a
   * permalink, the local-time rendering of a timestamp as `%Y-%m-%d %H:%M:%S`,
   * and the two addresses of the `smtp` section.
   */
  datatype Env = Env(hash: string -> int, formatTime: int -> string, smtpFrom: string, smtpTo: string)

  /** How many hashes `sent_previously` keeps. */
  const Capacity: nat := 100

  // ---------------------------------------------------------------- options

  /** `[f(p) for p in pieces]`. */
  function Each(pieces: seq<string>, f: string -> string): (r: seq<string>)
    ensures |r| == |pieces| && forall i :: 0 <= i < |r| ==> r[i] == f(pieces[i])
  {
    seq(|pieces|, i requires 0 <= i < |pieces| => f(pieces[i]))
  }

  /** Mapping over two runs of pieces is mapping over each (for `SubredditsConcat`). */
  lemma EachConcat(p: seq<string>, q: seq<string>, f: string -> string)
    ensures Each(p + q, f) == Each(p, f) + Each(q, f)
  {
    var r, rp, rq := Each(p + q, f), Each(p, f), Each(q, f);
    forall i | 0 <= i < |r| ensures r[i] == (rp + rq)[i] {
      if i < |p| {
        assert (p + q)[i] == p[i];
      } else {
        assert (p + q)[i] == q[i - |p|];
      }
    }
  }

  /** The `subreddit` option as the list of subreddits to poll: each comma piece, stripped. */
  function Subreddits(setting: string): (r: seq<string>)
    ensures |r| == |Split(setting, ',')|
    ensures forall i :: 0 <= i < |r| ==> r[i] == Strip(Split(setting, ',')[i])
    ensures forall i :: 0 <= i < |r| ==> IsStripped(r[i]) && ',' !in r[i]
  {
    var pieces := Split(setting, ',');
    var r := Each(pieces, Strip);
    assert forall i :: 0 <= i < |r| ==> ',' !in r[i] by {
      forall i | 0 <= i < |r| {
        StripKeepsAbsent(pieces[i], ',');
      }
    }
    r
  }

  /** Two options joined by a comma poll the subreddits of the first, then those of the second. */
  lemma SubredditsConcat(a: string, b: string)
    ensures Subreddits(a + [','] + b) == Subreddits(a) + Subreddits(b)
  {
    SplitConcat(a, b, ',');
    EachConcat(Split(a, ','), Split(b, ','), Strip);
  }

  /** A subreddit option without a comma polls that one subreddit, stripped. */
  lemma SubredditsOfOne(setting: string)
    requires ',' !in setting
    ensures Subreddits(setting) == [Strip(setting)]
  {
    SplitNoSep(setting, ',');
  }

  /** One comma piece as a keyword: stripped and lower-cased. */
  function Normalise(piece: string): string {
    Lower(Strip(piece))
  }

  /** The set of `f(p)` for the pieces `p`. */
  function Image(pieces: seq<string>, f: string -> string): set<string> {
    set p | p in pieces :: f(p)
  }

  /** The `keyword` option as the set of keywords. */
  function Keywords(setting: string): set<string> {
    Image(Split(setting, ','), Normalise)
  }

  /** Every keyword is stripped, has no upper-case letter and no comma. */
  lemma KeywordsNormalised(setting: string)
    ensures forall k :: k in Keywords(setting) ==> IsStripped(k) && !HasUpper(k) && ',' !in k
  {
    forall k | k in Keywords(setting) ensures IsStripped(k) && !HasUpper(k) && ',' !in k {
      var p :| p in Split(setting, ',') && k == Normalise(p);
      StripKeepsAbsent(p, ',');
      LowerKeepsStripped(Strip(p));
      LowerKeepsComma(Strip(p));
    }
  }

  /** Two options joined by a comma give the union of their keyword sets. */
  lemma KeywordsConcat(a: string, b: string)
    ensures Keywords(a + [','] + b) == Keywords(a) + Keywords(b)
  {
    SplitConcat(a, b, ',');
  }

  /** A stripped piece without upper-case letters is its own keyword. */
  lemma NormaliseOfNormalised(k: string)
    requires IsStripped(k) && !HasUpper(k)
    ensures Normalise(k) == k
  {
    StripOfStripped(k);
    LowerOfLower(k);
  }

  /** The image of one piece, and of two. */
  lemma ImageOfPieces(pieces: seq<string>, f: string -> string)
    ensures |pieces| == 1 ==> Image(pieces, f) == {f(pieces[0])}
    ensures |pieces| == 2 ==> Image(pieces, f) == {f(pieces[0]), f(pieces[1])}
  {
    if |pieces| == 1 {
      forall x | x in Image(pieces, f) ensures x == f(pieces[0]) {
        var p :| p in pieces && x == f(p);
      }
      assert pieces[0] in pieces;
    }
    if |pieces| == 2 {
      forall x | x in Image(pieces, f) ensures x == f(pieces[0]) || x == f(pieces[1]) {
        var p :| p in pieces && x == f(p);
      }
      assert pieces[0] in pieces && pieces[1] in pieces;
    }
  }

  /** The keyword set of an option that splits into one piece. */
  lemma KeywordsOfOnePiece(setting: string, a: string)
    requires Split(setting, ',') == [a]
    ensures Keywords(setting) == {Normalise(a)}
  {
    ImageOfPieces(Split(setting, ','), Normalise);
  }

  /** The keyword set of an option that splits into two pieces. */
  lemma KeywordsOfTwoPieces(setting: string, a: string, b: string)
    requires Split(setting, ',') == [a, b]
    ensures Keywords(setting) == {Normalise(a), Normalise(b)}
  {
    ImageOfPieces(Split(setting, ','), Normalise);
  }

  /** A stripped piece without a comma is the whole set, lower-cased. */
  lemma KeywordsOfPiece(k: string)
    requires IsStripped(k) && ',' !in k
    ensures Keywords(k) == {Lower(k)}
  {
    SplitNoSep(k, ',');
    StripOfStripped(k);
    KeywordsOfOnePiece(k, k);
  }

  /** A normalised keyword on its own is a one-element set. */
  lemma KeywordsOfOne(k: string)
    requires IsStripped(k) && !HasUpper(k) && ',' !in k
    ensures Keywords(k) == {k}
  {
    KeywordsOfPiece(k);
    LowerOfLower(k);
  }

  /**
   * Two comma-free pieces give a one-element set exactly when they normalise
   * to the same keyword: duplicates collapse, and nothing else does.
   */
  lemma DuplicatesCollapse(a: string, b: string)
    requires ',' !in a && ',' !in b
    ensures Keywords(a + [','] + b) == {Normalise(a)} <==> Normalise(a) == Normalise(b)
  {
    SplitAround(a, b, ',');
    SplitNoSep(b, ',');
    KeywordsOfTwoPieces(a + [','] + b, a, b);
    PairIsSingleton(Normalise(a), Normalise(b));
  }

  /** A two-element set display has one element exactly when both are equal (for `DuplicatesCollapse`). */
  lemma PairIsSingleton(x: string, y: string)
    ensures {x, y} == {x} <==> x == y
  {
    if {x, y} == {x} {
      assert y in {x, y};
    }
  }

  /** A trailing comma adds the empty keyword. */
  lemma TrailingCommaAddsEmpty(setting: string)
    ensures "" in Keywords(setting + [','])
  {
    SplitConcat(setting, "", ',');
    assert setting + [','] + "" == setting + [','];
    assert "" in Split(setting + [','], ',');
    assert Normalise("") == "";
  }

  // ---------------------------------------------------------------- matching

  /** `keyword in title.lower() or keyword in text.lower()`. */
  predicate Matches(keyword: string, item: Item) {
    KeywordFound(keyword, item.title, item.selftext)
  }

  /** A keyword matches exactly when it is a window of the lower-cased title or text. */
  lemma MatchesIff(keyword: string, item: Item)
    ensures Matches(keyword, item) <==>
            (exists i :: OccursAt(Lower(item.title), keyword, i)) ||
            (exists i :: OccursAt(Lower(item.selftext), keyword, i))
  {
    ContainsIff(Lower(item.title), keyword);
    ContainsIff(Lower(item.selftext), keyword);
  }

  /** A post's lower-cased title is a keyword that matches it. */
  lemma MatchesOwnTitle(item: Item)
    ensures Matches(Lower(item.title), item)
  {
    assert IsPrefix(Lower(item.title), Lower(item.title));
  }

  /** The empty keyword matches every post. */
  lemma EmptyKeywordMatches(item: Item)
    ensures Matches("", item)
  {
    EmptyIsContained(Lower(item.title));
  }

  /** Post text case does not matter: lower-casing the post first changes nothing. */
  lemma MatchesIgnoresCase(keyword: string, item: Item)
    ensures Matches(keyword, item) == Matches(keyword, item.(title := Lower(item.title), selftext := Lower(item.selftext)))
  {
    LowerIdempotent(item.title);
    LowerIdempotent(item.selftext);
  }

  /** The matches of one post, in keyword order (the inner `for keyword in keywords`). */
  function ItemAlerts(item: Item, keywords: seq<string>): seq<Alert> {
    if keywords == [] then []
    else
      var k := keywords[|keywords| - 1];
      ItemAlerts(item, keywords[..|keywords| - 1]) + (if Matches(k, item) then [Alert(item, k)] else [])
  }

  /** The matches of a listing, post by post (`for i in range(0, items)`). */
  function ListingAlerts(items: seq<Item>, keywords: seq<string>): seq<Alert> {
    if items == [] then []
    else ListingAlerts(items[..|items| - 1], keywords) + ItemAlerts(items[|items| - 1], keywords)
  }

  /** A reply is read only when its status is 200. */
  function ResponseAlerts(resp: Response, keywords: seq<string>): seq<Alert> {
    if resp.status == 200 then ListingAlerts(resp.items, keywords) else []
  }

  /** The matches of one pass over all subreddits, one reply per subreddit. */
  function TickAlerts(responses: seq<Response>, keywords: seq<string>): seq<Alert> {
    if responses == [] then []
    else TickAlerts(responses[..|responses| - 1], keywords) + ResponseAlerts(responses[|responses| - 1], keywords)
  }

  /** A post yields an alert for exactly the keywords that match it, each at most once per keyword occurrence. */
  lemma {:induction false} ItemAlertsIff(item: Item, keywords: seq<string>, a: Alert)
    ensures a in ItemAlerts(item, keywords) <==> a.item == item && a.keyword in keywords && Matches(a.keyword, item)
    ensures |ItemAlerts(item, keywords)| <= |keywords|
    decreases |keywords|
  {
    if keywords != [] {
      var pre := keywords[..|keywords| - 1];
      ItemAlertsIff(item, pre, a);
      assert forall k :: k in keywords <==> k in pre || k == keywords[|keywords| - 1];
    }
  }

  /**
   * With a keyword order that lists each keyword once, as iterating a set
   * does, a post gets at most one alert per keyword.
   */
  lemma {:induction false} ItemAlertsOncePerKeyword(item: Item, keywords: seq<string>)
    requires forall i, j :: 0 <= i < j < |keywords| ==> keywords[i] != keywords[j]
    ensures forall i, j :: 0 <= i < j < |ItemAlerts(item, keywords)| ==>
              ItemAlerts(item, keywords)[i].keyword != ItemAlerts(item, keywords)[j].keyword
    decreases |keywords|
  {
    if keywords != [] {
      var n := |keywords| - 1;
      var pre, k := keywords[..n], keywords[n];
      ItemAlertsOncePerKeyword(item, pre);
      var r, rp := ItemAlerts(item, keywords), ItemAlerts(item, pre);
      forall i, j | 0 <= i < j < |r| ensures r[i].keyword != r[j].keyword {
        if j >= |rp| {
          assert r[j].keyword == k && r[i] == rp[i];
          ItemAlertsIff(item, pre, rp[i]);
          assert rp[i] in rp;
          var m :| 0 <= m < |pre| && pre[m] == rp[i].keyword;
          assert keywords[m] == pre[m];
        } else {
          assert r[i] == rp[i] && r[j] == rp[j];
        }
      }
    }
  }

  /** The alerts of two runs of posts are the alerts of the first run, then those of the second. */
  lemma {:induction false} ListingAlertsAppend(a: seq<Item>, b: seq<Item>, keywords: seq<string>)
    ensures ListingAlerts(a + b, keywords) == ListingAlerts(a, keywords) + ListingAlerts(b, keywords)
    decreases |b|
  {
    if b == [] {
      assert a + b == a;
    } else {
      var pre, last := b[..|b| - 1], b[|b| - 1];
      var ab := a + b;
      assert ab[..|ab| - 1] == a + pre && ab[|ab| - 1] == last;
      var tail := ItemAlerts(last, keywords);
      assert ListingAlerts(ab, keywords) == ListingAlerts(a + pre, keywords) + tail;
      ListingAlertsAppend(a, pre, keywords);
      assert ListingAlerts(b, keywords) == ListingAlerts(pre, keywords) + tail;
    }
  }

  /** One post alone yields exactly its own alerts. */
  lemma ListingAlertsOfOne(item: Item, keywords: seq<string>)
    ensures ListingAlerts([item], keywords) == ItemAlerts(item, keywords)
  {
    assert [item][..0] == [];
  }

  /** A listing yields exactly the (post, keyword) pairs that match. */
  lemma {:induction false} ListingAlertsIff(items: seq<Item>, keywords: seq<string>, a: Alert)
    ensures a in ListingAlerts(items, keywords) <==> a.item in items && a.keyword in keywords && Matches(a.keyword, a.item)
    decreases |items|
  {
    if items != [] {
      var pre, last := items[..|items| - 1], items[|items| - 1];
      ListingAlertsIff(pre, keywords, a);
      ItemAlertsIff(last, keywords, a);
      assert forall it :: it in items <==> it in pre || it == last;
    }
  }

  /** A pass yields exactly the matching pairs of the replies with status 200. */
  lemma {:induction false} TickAlertsIff(responses: seq<Response>, keywords: seq<string>, a: Alert)
    ensures a in TickAlerts(responses, keywords) <==>
            a.keyword in keywords && Matches(a.keyword, a.item) &&
            exists i :: 0 <= i < |responses| && responses[i].status == 200 && a.item in responses[i].items
    decreases |responses|
  {
    if responses != [] {
      var n := |responses| - 1;
      var pre := responses[..n];
      TickAlertsIff(pre, keywords, a);
      ListingAlertsIff(responses[n].items, keywords, a);
      if exists i :: 0 <= i < |responses| && responses[i].status == 200 && a.item in responses[i].items {
        var i :| 0 <= i < |responses| && responses[i].status == 200 && a.item in responses[i].items;
        if i < n {
          assert pre[i] == responses[i];
        }
      }
      if exists i :: 0 <= i < n && pre[i].status == 200 && a.item in pre[i].items {
        var i :| 0 <= i < n && pre[i].status == 200 && a.item in pre[i].items;
        assert responses[i] == pre[i];
      }
    }
  }

  // ---------------------------------------------------------------- mails

  /** The opening of the subject line, with a capital `M`. */
  const SubjectOpening := "Reddit Notify: Found Match ("

  /** The first lines of the message body: the keyword, then the title. */
  function BodyHead(a: Alert): string {
    "Keyword: " + a.keyword + "\n\n\n        " + a.item.title
  }

  /**
   * The message body. Each backslash-continued line of the f-string keeps
   * the eight spaces that indent it in the source file.
   */
  function Body(env: Env, a: Alert): string {
    var indent := "        ";
    BodyHead(a) + "\n\n\n"
      + indent + a.item.selftext + "\n\n\n"
      + indent + "URL: https://www.reddit.com" + a.item.permalink + "\n"
      + indent + "Time: " + env.formatTime(a.item.createdUtc)
  }

  /** The mail `send_alert` builds for an alert. */
  function Render(env: Env, a: Alert): (m: Mail)
    ensures m.from == env.smtpFrom && m.to == env.smtpTo && m.subject == Subject(SubjectOpening, a.item.title)
    ensures IsPrefix(BodyHead(a), m.body)
  {
    var head := BodyHead(a);
    var body := Body(env, a);
    assert body == head + body[|head|..];
    Mail(env.smtpFrom, env.smtpTo, Subject(SubjectOpening, a.item.title), body)
  }

  // ---------------------------------------------------------------- sent list

  /** `while len(sent) > 100: sent.pop()`: drops entries from the end. */
  function Prune(s: seq<int>): (r: seq<int>)
    ensures |s| <= Capacity ==> r == s
    ensures |s| > Capacity ==> r == s[..Capacity]
    decreases |s|
  {
    if |s| <= Capacity then s else Prune(s[..|s| - 1])
  }

  /** The sent list after `sent_previously` looked up hash `h`. */
  function Remember(sent: seq<int>, h: int): seq<int> {
    if h in sent then sent else Prune(sent + [h])
  }

  /**
   * With room left a new hash is appended; on a full list the hash just
   * appended is the one popped again, so the list stays as it was.
   */
  lemma RememberCases(sent: seq<int>, h: int)
    requires |sent| <= Capacity
    ensures h in sent ==> Remember(sent, h) == sent
    ensures h !in sent && |sent| < Capacity ==> Remember(sent, h) == sent + [h]
    ensures h !in sent && |sent| == Capacity ==> Remember(sent, h) == sent && h !in Remember(sent, h)
  {
    if h !in sent && |sent| == Capacity {
      assert (sent + [h])[..Capacity] == sent;
    }
  }

  /**
   * The bot's state: the sent list, and the alerts mailed so far, in order;
   * the message for alert `a` is `Render(env, a)`.
   */
  datatype BotState = BotState(sent: seq<int>, outbox: seq<Alert>)

  /** One `send_alert`: mail the alert unless its permalink's hash was seen. */
  function Step(env: Env, st: BotState, a: Alert): BotState {
    var h := env.hash(a.item.permalink);
    if h in st.sent then st
    else BotState(Remember(st.sent, h), st.outbox + [a])
  }

  /** A sequence of `send_alert` calls, in order. */
  function Feed(env: Env, st: BotState, alerts: seq<Alert>): BotState {
    if alerts == [] then st
    else Step(env, Feed(env, st, alerts[..|alerts| - 1]), alerts[|alerts| - 1])
  }

  /**
   * The alerts a full sent list lets through: those whose hash it lacks.
   * `FeedWhenFull` and `RepeatWhenFull` state the outbox with it.
   */
  function Unsent(env: Env, sent: seq<int>, alerts: seq<Alert>): seq<Alert> {
    if alerts == [] then []
    else
      var a := alerts[|alerts| - 1];
      Unsent(env, sent, alerts[..|alerts| - 1])
        + (if env.hash(a.item.permalink) in sent then [] else [a])
  }

  lemma {:induction false} FeedAppend(env: Env, st: BotState, a: seq<Alert>, b: seq<Alert>)
    ensures Feed(env, st, a + b) == Feed(env, Feed(env, st, a), b)
    decreases |b|
  {
    if b == [] {
      assert a + b == a;
    } else {
      var pre := b[..|b| - 1];
      FeedAppend(env, st, a, pre);
      assert (a + b)[..|a + b| - 1] == a + pre;
    }
  }

  /** The sent list never grows past 100 and never loses a hash; the outbox only grows. */
  lemma {:induction false} FeedKeeps(env: Env, st: BotState, alerts: seq<Alert>)
    requires |st.sent| <= Capacity
    ensures |Feed(env, st, alerts).sent| <= Capacity
    ensures forall h :: h in st.sent ==> h in Feed(env, st, alerts).sent
    ensures |st.outbox| <= |Feed(env, st, alerts).outbox|
    ensures Feed(env, st, alerts).outbox[..|st.outbox|] == st.outbox
    decreases |alerts|
  {
    if alerts != [] {
      var pre := alerts[..|alerts| - 1];
      FeedKeeps(env, st, pre);
      var mid := Feed(env, st, pre);
      RememberCases(mid.sent, env.hash(alerts[|alerts| - 1].item.permalink));
    }
  }

  /** Every newly mailed alert was fed in, and its hash was not listed before. */
  lemma {:induction false} FeedSound(env: Env, st: BotState, alerts: seq<Alert>, i: nat)
    requires |st.sent| <= Capacity
    requires |st.outbox| <= i < |Feed(env, st, alerts).outbox|
    ensures Feed(env, st, alerts).outbox[i] in alerts
    ensures env.hash(Feed(env, st, alerts).outbox[i].item.permalink) !in st.sent
    decreases |alerts|
  {
    var pre, a := alerts[..|alerts| - 1], alerts[|alerts| - 1];
    var mid := Feed(env, st, pre);
    FeedKeeps(env, st, pre);
    if i < |mid.outbox| {
      FeedSound(env, st, pre, i);
      assert Feed(env, st, alerts).outbox[i] == mid.outbox[i];
      assert mid.outbox[i] in alerts;
    } else {
      assert Feed(env, st, alerts).outbox[i] == a;
    }
  }

  /** Some alert in `outbox` from position `from` on has a URL hashing to `h`. */
  ghost predicate Mailed(env: Env, outbox: seq<Alert>, from: nat, h: int) {
    exists i :: from <= i < |outbox| && env.hash(outbox[i].item.permalink) == h
  }

  /** Appending mails keeps `Mailed`; helper for `FeedComplete`. */
  lemma MailedGrows(env: Env, outbox: seq<Alert>, more: seq<Alert>, from: nat, h: int)
    requires Mailed(env, outbox, from, h)
    ensures Mailed(env, outbox + more, from, h)
  {
    var i :| from <= i < |outbox| && env.hash(outbox[i].item.permalink) == h;
    assert (outbox + more)[i] == outbox[i];
  }

  /**
   * Every fed alert whose hash was not listed before gets a mail for its
   * URL's hash, on a list with room or full; and every hash the feed adds
   * to the list belongs to a mail it sent.
   */
  lemma {:induction false} FeedComplete(env: Env, st: BotState, alerts: seq<Alert>)
    requires |st.sent| <= Capacity
    ensures forall a :: a in alerts && env.hash(a.item.permalink) !in st.sent ==>
              Mailed(env, Feed(env, st, alerts).outbox, |st.outbox|, env.hash(a.item.permalink))
    ensures forall h :: h in Feed(env, st, alerts).sent && h !in st.sent ==>
              Mailed(env, Feed(env, st, alerts).outbox, |st.outbox|, h)
    decreases |alerts|
  {
    if alerts != [] {
      var pre, last := alerts[..|alerts| - 1], alerts[|alerts| - 1];
      assert alerts == pre + [last];
      FeedComplete(env, st, pre);
      FeedKeeps(env, st, pre);
      var mid, fin := Feed(env, st, pre), Feed(env, st, alerts);
      var h := env.hash(last.item.permalink);
      RememberCases(mid.sent, h);
      var more: seq<Alert> := if h in mid.sent then [] else [last];
      assert fin.outbox == mid.outbox + more;
      assert h !in mid.sent ==> fin.sent == mid.sent || fin.sent == mid.sent + [h];
      assert h !in mid.sent ==> fin.outbox[|mid.outbox|] == last;
      forall g | g in fin.sent && g !in st.sent
        ensures Mailed(env, fin.outbox, |st.outbox|, g)
      {
        if g in mid.sent {
          MailedGrows(env, mid.outbox, more, |st.outbox|, g);
        }
      }
      forall a | a in alerts && env.hash(a.item.permalink) !in st.sent
        ensures Mailed(env, fin.outbox, |st.outbox|, env.hash(a.item.permalink))
      {
        var g := env.hash(a.item.permalink);
        if a in pre || h in mid.sent {
          MailedGrows(env, mid.outbox, more, |st.outbox|, g);
        }
      }
    }
  }

  /** While the list has room for every alert, each fed-in hash ends up in it. */
  lemma {:induction false} FeedRemembers(env: Env, st: BotState, alerts: seq<Alert>)
    requires |st.sent| + |alerts| <= Capacity
    ensures |Feed(env, st, alerts).sent| <= |st.sent| + |alerts|
    ensures forall a :: a in alerts ==> env.hash(a.item.permalink) in Feed(env, st, alerts).sent
    decreases |alerts|
  {
    if alerts != [] {
      var pre, last := alerts[..|alerts| - 1], alerts[|alerts| - 1];
      FeedRemembers(env, st, pre);
      var mid := Feed(env, st, pre);
      RememberCases(mid.sent, env.hash(last.item.permalink));
      assert forall a :: a in alerts ==> a in pre || a == last;
    }
  }

  /**
   * While the list has room for every alert of a pass, the pass mails each
   * URL at most once: the new mails have pairwise different permalinks (and
   * hashes), and every one of them is listed afterwards.
   */
  lemma {:induction false} FeedOncePerUrl(env: Env, st: BotState, alerts: seq<Alert>)
    requires |st.sent| + |alerts| <= Capacity
    ensures forall i :: |st.outbox| <= i < |Feed(env, st, alerts).outbox| ==>
              env.hash(Feed(env, st, alerts).outbox[i].item.permalink) in Feed(env, st, alerts).sent
    ensures forall i, j :: |st.outbox| <= i < j < |Feed(env, st, alerts).outbox| ==>
              env.hash(Feed(env, st, alerts).outbox[i].item.permalink) != env.hash(Feed(env, st, alerts).outbox[j].item.permalink)
    ensures forall i, j :: |st.outbox| <= i < j < |Feed(env, st, alerts).outbox| ==>
              Feed(env, st, alerts).outbox[i].item.permalink != Feed(env, st, alerts).outbox[j].item.permalink
    decreases |alerts|
  {
    if alerts != [] {
      var pre, a := alerts[..|alerts| - 1], alerts[|alerts| - 1];
      FeedOncePerUrl(env, st, pre);
      FeedRemembers(env, st, pre);
      FeedKeeps(env, st, pre);
      var mid, fin := Feed(env, st, pre), Feed(env, st, alerts);
      var h := env.hash(a.item.permalink);
      RememberCases(mid.sent, h);
      if h !in mid.sent {
        assert fin == BotState(mid.sent + [h], mid.outbox + [a]);
        forall i | |st.outbox| <= i < |fin.outbox| ensures env.hash(fin.outbox[i].item.permalink) in fin.sent {
          if i < |mid.outbox| {
            assert fin.outbox[i] == mid.outbox[i];
          }
        }
        forall i, j | |st.outbox| <= i < j < |fin.outbox|
          ensures env.hash(fin.outbox[i].item.permalink) != env.hash(fin.outbox[j].item.permalink)
        {
          assert fin.outbox[i] == mid.outbox[i];
          if j < |mid.outbox| {
            assert fin.outbox[j] == mid.outbox[j];
          }
        }
      }
    }
  }

  /** Alerts whose hashes are all in the list change nothing. */
  lemma {:induction false} FeedSilent(env: Env, st: BotState, alerts: seq<Alert>)
    requires forall a :: a in alerts ==> env.hash(a.item.permalink) in st.sent
    ensures Feed(env, st, alerts) == st
    decreases |alerts|
  {
    if alerts != [] {
      FeedSilent(env, st, alerts[..|alerts| - 1]);
      assert alerts[|alerts| - 1] in alerts;
    }
  }

  /** With room, feeding the same alerts a second time sends nothing more. */
  lemma NoRepeatWithRoom(env: Env, st: BotState, alerts: seq<Alert>)
    requires |st.sent| + |alerts| <= Capacity
    ensures Feed(env, Feed(env, st, alerts), alerts) == Feed(env, st, alerts)
  {
    FeedRemembers(env, st, alerts);
    FeedSilent(env, Feed(env, st, alerts), alerts);
  }

  /** Once the list holds 100 hashes it never changes, and every unseen alert is mailed. */
  lemma {:induction false} FeedWhenFull(env: Env, st: BotState, alerts: seq<Alert>)
    requires |st.sent| == Capacity
    ensures Feed(env, st, alerts) == BotState(st.sent, st.outbox + Unsent(env, st.sent, alerts))
    decreases |alerts|
  {
    if alerts != [] {
      var pre, a := alerts[..|alerts| - 1], alerts[|alerts| - 1];
      FeedWhenFull(env, st, pre);
      RememberCases(st.sent, env.hash(a.item.permalink));
    }
  }

  /** On a full list the same alerts are mailed again on every pass. */
  lemma RepeatWhenFull(env: Env, st: BotState, alerts: seq<Alert>)
    requires |st.sent| == Capacity
    ensures Feed(env, Feed(env, st, alerts), alerts).outbox
            == st.outbox + Unsent(env, st.sent, alerts) + Unsent(env, st.sent, alerts)
  {
    FeedWhenFull(env, st, alerts);
    FeedWhenFull(env, Feed(env, st, alerts), alerts);
  }

  // ---------------------------------------------------------------- the bot

  /**
   * The running Python bot: the options `check_reddit` derived, the keyword
   * set in the order Python iterates it, and the module-level `sent` list.
   */
  class Notifier {
    const env: Env
    const subreddits: seq<string>
    /** The keyword set, in iteration order. */
    const keywords: seq<string>
    var sent: seq<int>
    var outbox: seq<Alert>

    function Current(): BotState
      reads this
    {
      BotState(sent, outbox)
    }

    /**
     * Start-up after `get_config` succeeded. `keywordOrder` is the order in
     * which Python happens to iterate the keyword set.
     */
    constructor (hash: string -> int, formatTime: int -> string, config: PyConfig.Config, keywordOrder: seq<string>)
      requires Subreddit in config && Keyword in config && SmtpFrom in config && SmtpTo in config
      requires forall k :: k in keywordOrder <==> k in Keywords(config[Keyword])
      requires forall i, j :: 0 <= i < j < |keywordOrder| ==> keywordOrder[i] != keywordOrder[j]
      ensures env == Env(hash, formatTime, config[SmtpFrom], config[SmtpTo])
      ensures subreddits == Subreddits(config[Subreddit]) && keywords == keywordOrder
      ensures sent == [] && outbox == []
    {
      env := Env(hash, formatTime, config[SmtpFrom], config[SmtpTo]);
      subreddits := Subreddits(config[Subreddit]);
      keywords := keywordOrder;
      sent := [];
      outbox := [];
    }

    /** `sent_previously(url)`: whether the hash was listed, remembering it if not. */
    method SentPreviously(url: string) returns (b: bool)
      modifies this
      ensures b <==> env.hash(url) in old(sent)
      ensures sent == Remember(old(sent), env.hash(url)) && outbox == old(outbox)
    {
      var h := env.hash(url);
      if h !in sent {
        sent := sent + [h];
        while |sent| > Capacity
          invariant Prune(sent) == Prune(old(sent) + [h])
          invariant outbox == old(outbox)
          decreases |sent|
        {
          sent := sent[..|sent| - 1];
        }
        return false;
      } else {
        return true;
      }
    }

    /** `send_alert`: mail the alert unless its permalink was sent before. */
    method SendAlert(a: Alert)
      modifies this
      ensures Current() == Step(env, old(Current()), a)
    {
      var seen := SentPreviously(a.item.permalink);
      if seen {
        return;
      }
      outbox := outbox + [a];
    }

    /** The loop over the keywords for one post. */
    method CheckItem(item: Item)
      modifies this
      ensures Current() == Feed(env, old(Current()), ItemAlerts(item, keywords))
    {
      ghost var st := Current();
      for j := 0 to |keywords|
        invariant Current() == Feed(env, st, ItemAlerts(item, keywords[..j]))
      {
        var keyword := keywords[j];
        assert keywords[..j + 1][..j] == keywords[..j];
        ghost var sofar := ItemAlerts(item, keywords[..j]);
        assert ItemAlerts(item, keywords[..j + 1])
            == sofar + (if Matches(keyword, item) then [Alert(item, keyword)] else []);
        if Matches(keyword, item) {
          SendAlert(Alert(item, keyword));
          assert (sofar + [Alert(item, keyword)])[..|sofar|] == sofar;
        } else {
          assert sofar + [] == sofar;
        }
      }
      assert keywords[..|keywords|] == keywords;
    }

    /** One reply: ignored unless its status is 200, else every post is checked. */
    method CheckListing(resp: Response)
      modifies this
      ensures Current() == Feed(env, old(Current()), ResponseAlerts(resp, keywords))
    {
      if resp.status == 200 {
        ghost var st := Current();
        var items := resp.items;
        for i := 0 to |items|
          invariant Current() == Feed(env, st, ListingAlerts(items[..i], keywords))
        {
          CheckItem(items[i]);
          assert items[..i + 1][..i] == items[..i];
          FeedAppend(env, st, ListingAlerts(items[..i], keywords), ItemAlerts(items[i], keywords));
        }
        assert items[..|items|] == items;
      }
    }

    /** One pass of `while(True)`: one reply per subreddit, in order. */
    method Tick(responses: seq<Response>)
      requires |responses| == |subreddits|
      modifies this
      ensures Current() == Feed(env, old(Current()), TickAlerts(responses, keywords))
    {
      ghost var st := Current();
      for i := 0 to |subreddits|
        invariant Current() == Feed(env, st, TickAlerts(responses[..i], keywords))
      {
        CheckListing(responses[i]);
        assert responses[..i + 1][..i] == responses[..i];
        FeedAppend(env, st, TickAlerts(responses[..i], keywords), ResponseAlerts(responses[i], keywords));
      }
      assert responses[..|responses|] == responses;
    }
  }
}
