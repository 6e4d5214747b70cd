/** The message both bots hand to their SMTP library. */
module Mailing {

  /** Sender, recipient, subject line and plain-text body. */
  datatype Mail = Mail(from: string, to: string, subject: string, body: string)

  /**
   * The subject line: a bot's fixed opening, the post's title and a
   * closing parenthesis; the title can be read back from it.
   */
  function Subject(opening: string, title: string): (r: string)
    ensures |r| == |opening| + |title| + 1
    ensures r[..|opening|] == opening && r[|opening|..|r| - 1] == title && r[|r| - 1] == ')'
  {
    opening + title + ")"
  }

  /** Under one opening, different titles give different subjects. */
  lemma SubjectInjective(opening: string, a: string, b: string)
    requires Subject(opening, a) == Subject(opening, b)
    ensures a == b
  {
    assert a == Subject(opening, a)[|opening|..|Subject(opening, a)| - 1];
  }
}
