/**
 * The polling side of the Go bot (`loop` and `sendAlert`): every post of
 * a listing whose lower-cased title or text contains the keyword, taken
 * exactly as configured, is mailed; nothing is remembered between passes.
 */
module GoNotify {
  import opened Text
  import opened GoConfig
  import opened Mailing

  /** A post as `jsonparser.GetString` reads it; absent fields read as "". */
  datatype Item = Item(title: string, text: string, url: string)

  /** `strings.Contains(strings.ToLower(title), keyword)`, else the same on the text. */
  predicate Matches(keyword: string, item: Item) {
    KeywordFound(keyword, item.title, item.text)
  }

  /** The opening of the subject line, with a lower-case `m`. */
  const SubjectOpening := "Reddit Notify: Found match ("

  /** The body up to the post's text: the keyword, then the title. */
  function BodyHead(s: Settings, item: Item): string {
    "Keyword: " + s.keyword + "\n\n\n" + item.title + "\n\n\n"
  }

  /** The mail `sendAlert` builds; the post's URL is read but not used. */
  function Render(s: Settings, item: Item): (m: Mail)
    ensures m.from == s.smtpFrom && m.to == s.smtpTo && m.subject == Subject(SubjectOpening, item.title)
    ensures IsPrefix(BodyHead(s, item), m.body) && m.body[|BodyHead(s, item)|..] == item.text
  {
    var head := BodyHead(s, item);
    var body := head + item.text;
    assert body[..|head|] == head && body[|head|..] == item.text;
    Mail(s.smtpFrom, s.smtpTo, Subject(SubjectOpening, item.title), body)
  }

  /** The mails one pass over a listing sends, in post order. */
  function Alerts(s: Settings, items: seq<Item>): seq<Mail> {
    if items == [] then []
    else
      var item := items[|items| - 1];
      Alerts(s, items[..|items| - 1]) + (if Matches(s.keyword, item) then [Render(s, item)] else [])
  }

  /** The inner loop of `loop`: one pass over the posts of a listing. */
  method Scan(s: Settings, items: seq<Item>) returns (mails: seq<Mail>)
    ensures mails == Alerts(s, items)
  {
    mails := [];
    for i := 0 to |items|
      invariant mails == Alerts(s, items[..i])
    {
      var title, text := items[i].title, items[i].text;
      var alert := false;
      if Contains(Lower(title), s.keyword) {
        alert := true;
      } else if Contains(Lower(text), s.keyword) {
        alert := true;
      }
      assert items[..i + 1][..i] == items[..i];
      if alert {
        mails := mails + [Render(s, items[i])];
      }
    }
    assert items[..|items|] == items;
  }

  lemma {:induction false} AlertsAppend(s: Settings, a: seq<Item>, b: seq<Item>)
    ensures Alerts(s, a + b) == Alerts(s, a) + Alerts(s, b)
    decreases |b|
  {
    if b == [] {
      assert a + b == a;
    } else {
      var pre, last := b[..|b| - 1], b[|b| - 1];
      var ab := a + b;
      assert ab[..|ab| - 1] == a + pre && ab[|ab| - 1] == last;
      var tail := if Matches(s.keyword, last) then [Render(s, last)] else [];
      assert Alerts(s, ab) == Alerts(s, a + pre) + tail;
      AlertsAppend(s, a, pre);
      assert Alerts(s, b) == Alerts(s, pre) + tail;
    }
  }

  /** Nothing is remembered: a post seen again is mailed again. */
  lemma RepeatEveryPass(s: Settings, items: seq<Item>)
    ensures Alerts(s, items + items) == Alerts(s, items) + Alerts(s, items)
  {
    AlertsAppend(s, items, items);
  }

  /** A mail is sent exactly for each matching post, at most one per post. */
  lemma {:induction false} AlertsIff(s: Settings, items: seq<Item>, m: Mail)
    ensures m in Alerts(s, items) <==> exists item :: item in items && Matches(s.keyword, item) && m == Render(s, item)
    ensures |Alerts(s, items)| <= |items|
    decreases |items|
  {
    if items != [] {
      var pre, last := items[..|items| - 1], items[|items| - 1];
      AlertsIff(s, pre, m);
      assert forall it :: it in items <==> it in pre || it == last;
    }
  }

  /** An empty keyword mails every post. */
  lemma {:induction false} EmptyKeywordAlertsAll(s: Settings, items: seq<Item>)
    requires s.keyword == ""
    ensures |Alerts(s, items)| == |items|
    decreases |items|
  {
    if items != [] {
      EmptyKeywordAlertsAll(s, items[..|items| - 1]);
      EmptyIsContained(Lower(items[|items| - 1].title));
    }
  }

  /** The keyword is not lower-cased: one with an upper-case letter never matches. */
  lemma {:induction false} UpperKeywordAlertsNone(s: Settings, items: seq<Item>)
    requires HasUpper(s.keyword)
    ensures Alerts(s, items) == []
    decreases |items|
  {
    if items != [] {
      var last := items[|items| - 1];
      UpperKeywordAlertsNone(s, items[..|items| - 1]);
      UpperNotInLower(last.title, s.keyword);
      UpperNotInLower(last.text, s.keyword);
    }
  }
}
