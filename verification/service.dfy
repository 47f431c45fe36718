/** The per-poll digest: for one user and one batch of matched listings it
    renders a subject, a plain-text body and an HTML body, then hands at
    most one email and at most one SMS to the sender. */
module Service {
  import opened Wrappers
  import opened Text
  import opened Models

  /** What the sender is asked to deliver. */
  datatype Message =
    | Email(to: string, subject: string, html: string, text: string)
    | Sms(to: string, text: string)

  /** The sender: a log of the deliveries handed to it, in order. */
  class Outbox {
    var sent: seq<Message>

    constructor ()
      ensures sent == []
    {
      sent := [];
    }

    method SendEmail(to: string, subject: string, html: string, text: string)
      modifies this
      ensures sent == old(sent) + [Email(to, subject, html, text)]
    {
      sent := sent + [Email(to, subject, html, text)];
    }

    method SendSms(to: string, text: string)
      modifies this
      ensures sent == old(sent) + [Sms(to, text)]
    {
      sent := sent + [Sms(to, text)];
    }
  }

  const DefaultAppBase := "http://localhost:8000"

  /** The unsubscribe link used when none is configured; `appBase` is the
      APP_BASE_URL setting, if set. */
  function DefaultUnsubscribeLink(appBase: Option<string>): (link: string)
    ensures appBase.None? ==> link == "http://localhost:8000/request-edit-link"
    ensures appBase.Some? ==> link == appBase.value + "/request-edit-link"
  {
    (if appBase.Some? then appBase.value else DefaultAppBase) + "/request-edit-link"
  }

  // ------------------------------------------------------------ rendering

  /** "es" unless there is exactly one match. */
  function Plural(n: nat): string {
    if n != 1 then "es" else ""
  }

  /** "<n> new match" or "<n> new matches". */
  function CountPhrase(n: nat): string {
    NatToString(n) + " new match" + Plural(n)
  }

  function Subject(n: nat, repoLabel: string): string {
    "[" + repoLabel + "] " + CountPhrase(n) + " for you"
  }

  /** The location suffix of a text bullet: a bullet and the locations. */
  function TextLocation(j: JobListing): string {
    if j.locations != [] then " \U{2022} " + Join(j.locations, ", ") else ""
  }

  /** One bullet line of the text body. */
  function JobLine(j: JobListing): string {
    "- " + j.title + " @ " + j.company_name + TextLocation(j) + " \U{2192} " + j.url
  }

  function JobLines(jobs: seq<JobListing>): (ls: seq<string>)
    ensures |ls| == |jobs|
  {
    seq(|jobs|, k requires 0 <= k < |jobs| => JobLine(jobs[k]))
  }

  function TextHeader(n: nat, repoLabel: string): string {
    repoLabel + ": " + CountPhrase(n)
  }

  function TextFooter(editLink: string, unsubscribeLink: string): seq<string> {
    ["", "Edit your preferences: " + editLink, "Unsubscribe: " + unsubscribeLink, "SMS: reply STOP to opt out."]
  }

  /** The lines of the text body, before they are joined with "\n". */
  function TextLines(jobs: seq<JobListing>, editLink: string, repoLabel: string, unsubscribeLink: string): seq<string> {
    [TextHeader(|jobs|, repoLabel)] + JobLines(jobs) + TextFooter(editLink, unsubscribeLink)
  }

  function TextBody(jobs: seq<JobListing>, editLink: string, repoLabel: string, unsubscribeLink: string): string {
    Join(TextLines(jobs, editLink, repoLabel, unsubscribeLink), "\n")
  }

  /** The location suffix of an HTML list item. */
  function HtmlLocation(j: JobListing): string {
    if j.locations != [] then " &middot; " + Join(j.locations, ", ") else ""
  }

  function HtmlItem(j: JobListing): string {
    "<li><a href='" + j.url + "'>" + j.title + "</a> @ " + j.company_name + HtmlLocation(j) + "</li>"
  }

  function HtmlItems(jobs: seq<JobListing>): (items: seq<string>)
    ensures |items| == |jobs|
  {
    seq(|jobs|, k requires 0 <= k < |jobs| => HtmlItem(jobs[k]))
  }

  /** The template's text inside its outer <div> element. */
  function HtmlInner(jobs: seq<JobListing>, editLink: string, repoLabel: string, unsubscribeLink: string): string {
    "\n          <p><strong>" + repoLabel + ":</strong> " + CountPhrase(|jobs|) + "</p>\n"
    + "          <ul>\n            " + Join(HtmlItems(jobs), "") + "\n          </ul>\n"
    + "          <p><a href=\"" + editLink + "\">Edit your preferences</a> \U{00B7} <a href=\""
    + unsubscribeLink + "\">Unsubscribe</a></p>\n        "
  }

  /** The template between its leading and trailing margins. */
  function HtmlCore(jobs: seq<JobListing>, editLink: string, repoLabel: string, unsubscribeLink: string): string {
    "<div>" + HtmlInner(jobs, editLink, repoLabel, unsubscribeLink) + "</div>"
  }

  /** Text made of whitespace only, such as the template's margins. */
  type Blank = w: string | AllSpace(w)

  /** The newline and indentation around the template's fragment. */
  const HtmlMargin: Blank := "\n        "

  /** The triple-quoted template with strip() applied. */
  function HtmlBody(jobs: seq<JobListing>, editLink: string, repoLabel: string, unsubscribeLink: string): string {
    Strip(HtmlMargin + HtmlCore(jobs, editLink, repoLabel, unsubscribeLink) + HtmlMargin)
  }

  // ------------------------------------------------------------ messages

  /** The guards before anything is built: a verified user, a non-empty
      batch, and at least one channel switched on. */
  predicate Eligible(user: UserContact, jobs: seq<JobListing>) {
    user.is_verified && jobs != [] && (user.notify_email || user.notify_sms)
  }

  predicate EmailWanted(user: UserContact) {
    user.notify_email && Present(user.email)
  }

  predicate SmsWanted(user: UserContact) {
    user.notify_sms && Present(user.phone)
  }

  /** The deliveries for an eligible user, once the content is built. */
  function Deliveries(user: UserContact, subject: string, html: string, text: string): seq<Message> {
    (if EmailWanted(user) then [Email(user.email.value, subject, html, text)] else [])
    + (if SmsWanted(user) then [Sms(user.phone.value, text)] else [])
  }

  /** What one summary hands to the sender, in order. */
  function SummaryMessages(user: UserContact, jobs: seq<JobListing>, repoLabel: string,
                           editLink: string, unsubscribeLink: string): seq<Message>
  {
    if !Eligible(user, jobs) then []
    else Deliveries(user, Subject(|jobs|, repoLabel), HtmlBody(jobs, editLink, repoLabel, unsubscribeLink),
                    TextBody(jobs, editLink, repoLabel, unsubscribeLink))
  }

  // ------------------------------------------------------------ the service

  class NotificationService {
    const sender: Outbox
    const editLinkBuilder: UserContact -> string
    const unsubscribeLinkBuilder: UserContact -> string

    /** Without an unsubscribe builder every user gets the default link. */
    constructor (sender: Outbox, editLinkBuilder: UserContact -> string,
                 unsubscribeLinkBuilder: Option<UserContact -> string>, appBase: Option<string>)
      ensures this.sender == sender && this.editLinkBuilder == editLinkBuilder
      ensures unsubscribeLinkBuilder.Some? ==> this.unsubscribeLinkBuilder == unsubscribeLinkBuilder.value
      ensures unsubscribeLinkBuilder.None? ==>
                forall u :: this.unsubscribeLinkBuilder(u) == DefaultUnsubscribeLink(appBase)
    {
      this.sender := sender;
      this.editLinkBuilder := editLinkBuilder;
      if unsubscribeLinkBuilder.Some? {
        this.unsubscribeLinkBuilder := unsubscribeLinkBuilder.value;
      } else {
        this.unsubscribeLinkBuilder := (u: UserContact) => DefaultUnsubscribeLink(appBase);
      }
    }

    method SendSummary(user: UserContact, jobs: seq<JobListing>, repoLabel: string)
      modifies sender
      ensures sender.sent == old(sender.sent)
        + SummaryMessages(user, jobs, repoLabel, editLinkBuilder(user), unsubscribeLinkBuilder(user))
    {
      if !user.is_verified {
        return;
      }
      if jobs == [] {
        return;
      }
      if !(user.notify_email || user.notify_sms) {
        return;
      }
      var editLink := editLinkBuilder(user);
      var subject := Subject(|jobs|, repoLabel);
      var unsubscribeLink := unsubscribeLinkBuilder(user);
      var text := RenderText(jobs, editLink, repoLabel, unsubscribeLink);
      var html := RenderHtml(jobs, editLink, repoLabel, unsubscribeLink);
      Deliver(user, subject, html, text);
    }

    /** The channel step: an email when wanted, then an SMS when wanted. */
    method Deliver(user: UserContact, subject: string, html: string, text: string)
      modifies sender
      ensures sender.sent == old(sender.sent) + Deliveries(user, subject, html, text)
    {
      if user.notify_email && user.email.Some? && user.email.value != "" {
        sender.SendEmail(user.email.value, subject, html, text);
      }
      if user.notify_sms && user.phone.Some? && user.phone.value != "" {
        sender.SendSms(user.phone.value, text);
      }
    }
  }

  /** Builds the text body line by line. */
  method RenderText(jobs: seq<JobListing>, editLink: string, repoLabel: string, unsubscribeLink: string)
    returns (body: string)
    ensures body == TextBody(jobs, editLink, repoLabel, unsubscribeLink)
  {
    var lines := [TextHeader(|jobs|, repoLabel)];
    for i := 0 to |jobs|
      invariant lines == [TextHeader(|jobs|, repoLabel)] + JobLines(jobs[..i])
    {
      var j := jobs[i];
      var loc := if j.locations != [] then " \U{2022} " + Join(j.locations, ", ") else "";
      lines := lines + ["- " + j.title + " @ " + j.company_name + loc + " \U{2192} " + j.url];
      assert JobLines(jobs[..i + 1]) == JobLines(jobs[..i]) + [JobLine(j)];
    }
    assert jobs[..|jobs|] == jobs;
    lines := lines + ["", "Edit your preferences: " + editLink, "Unsubscribe: " + unsubscribeLink,
                      "SMS: reply STOP to opt out."];
    body := Join(lines, "\n");
  }

  /** Builds the list items, then fills and strips the template. */
  method RenderHtml(jobs: seq<JobListing>, editLink: string, repoLabel: string, unsubscribeLink: string)
    returns (body: string)
    ensures body == HtmlBody(jobs, editLink, repoLabel, unsubscribeLink)
  {
    var items := [];
    for i := 0 to |jobs|
      invariant items == HtmlItems(jobs[..i])
    {
      var j := jobs[i];
      var loc := if j.locations != [] then " &middot; " + Join(j.locations, ", ") else "";
      items := items + ["<li><a href='" + j.url + "'>" + j.title + "</a> @ " + j.company_name + loc + "</li>"];
      assert HtmlItems(jobs[..i + 1]) == HtmlItems(jobs[..i]) + [HtmlItem(j)];
    }
    assert jobs[..|jobs|] == jobs;
    var inner := "\n          <p><strong>" + repoLabel + ":</strong> " + CountPhrase(|jobs|) + "</p>\n"
      + "          <ul>\n            " + Join(items, "") + "\n          </ul>\n"
      + "          <p><a href=\"" + editLink + "\">Edit your preferences</a> \U{00B7} <a href=\""
      + unsubscribeLink + "\">Unsubscribe</a></p>\n        ";
    var filled := HtmlMargin + ("<div>" + inner + "</div>") + HtmlMargin;
    body := Strip(filled);
  }

  // ------------------------------------------------------------ properties

  /** For a single listing the subject says "1 new match". */
  lemma SubjectSingular(repoLabel: string)
    ensures Subject(1, repoLabel) == "[" + repoLabel + "] 1 new match for you"
  {
    assert CountPhrase(1) == "1 new match" by {
      assert NatToString(1) == "1";
    }
    assert "1 new match" + " for you" == "1 new match for you";
    var x := "[" + repoLabel + "] ";
    assert x + "1 new match" + " for you" == x + ("1 new match" + " for you");
  }

  /** For any other count it says "matches", never "match". */
  lemma SubjectPlural(n: nat, repoLabel: string)
    requires n != 1
    ensures EndsWith(Subject(n, repoLabel), " new matches for you")
    ensures !EndsWith(Subject(n, repoLabel), " new match for you")
  {
    var s := Subject(n, repoLabel);
    var head := "[" + repoLabel + "] " + NatToString(n);
    assert s == head + " new matches for you";
    assert s[|s| - 20..] == " new matches for you";
    assert s[|s| - 9] == 's';
  }

  /** The text body has a header, one bullet per listing in order, and
      the four footer lines; each bullet names the title, the company and
      the link of its listing. */
  lemma TextLinesShape(jobs: seq<JobListing>, editLink: string, repoLabel: string, unsubscribeLink: string)
    ensures var ls := TextLines(jobs, editLink, repoLabel, unsubscribeLink);
      && |ls| == |jobs| + 5
      && ls[0] == repoLabel + ": " + CountPhrase(|jobs|)
      && (forall k :: 0 <= k < |jobs| ==> ls[k + 1] == JobLine(jobs[k]))
      && ls[|jobs| + 1] == ""
      && ls[|jobs| + 2] == "Edit your preferences: " + editLink
      && ls[|jobs| + 3] == "Unsubscribe: " + unsubscribeLink
      && ls[|jobs| + 4] == "SMS: reply STOP to opt out."
  {
  }

  /** A bullet names its listing's title, company and link, and lists the
      locations exactly when there are some. */
  lemma JobLineNamesListing(j: JobListing)
    ensures Contains(JobLine(j), j.title)
    ensures Contains(JobLine(j), j.company_name)
    ensures Contains(JobLine(j), j.url)
    ensures j.locations != [] ==> Contains(JobLine(j), Join(j.locations, ", "))
    ensures EndsWith(JobLine(j), " \U{2192} " + j.url)
  {
    ContainsItself(j.title);
    JobLineKeepsPieces(j, j.title);
    ContainsItself(j.company_name);
    JobLineKeepsPieces(j, j.company_name);
    ContainsItself(j.url);
    JobLineKeepsPieces(j, j.url);
    if j.locations != [] {
      var where := Join(j.locations, ", ");
      ContainsItself(where);
      ContainsInConcat(" \U{2022} ", where, where);
      JobLineKeepsPieces(j, where);
    }
    JobLineEndsWithUrl(j);
  }

  /** Whatever one piece of a bullet contains, the bullet contains. */
  lemma JobLineKeepsPieces(j: JobListing, needle: string)
    requires || Contains(j.title, needle) || Contains(j.company_name, needle)
             || Contains(TextLocation(j), needle) || Contains(j.url, needle)
    ensures Contains(JobLine(j), needle)
  {
    var s1 := "- " + j.title;
    var s2 := s1 + " @ ";
    var s3 := s2 + j.company_name;
    var s4 := s3 + TextLocation(j);
    var s5 := s4 + " \U{2192} ";
    ContainsInConcat("- ", j.title, needle);
    ContainsInConcat(s1, " @ ", needle);
    ContainsInConcat(s2, j.company_name, needle);
    ContainsInConcat(s3, TextLocation(j), needle);
    ContainsInConcat(s4, " \U{2192} ", needle);
    ContainsInConcat(s5, j.url, needle);
  }

  lemma JobLineEndsWithUrl(j: JobListing)
    ensures EndsWith(JobLine(j), " \U{2192} " + j.url)
  {
    var s4 := "- " + j.title + " @ " + j.company_name + TextLocation(j);
    assert JobLine(j) == s4 + (" \U{2192} " + j.url);
    ConcatEnds(s4, " \U{2192} " + j.url);
  }

  /** When no field holds a line boundary, the text body splits back into
      exactly its lines: every listing stays on one line of its own. */
  lemma TextBodySplitsIntoLines(jobs: seq<JobListing>, editLink: string, repoLabel: string, unsubscribeLink: string)
    requires NoLineBreak(editLink) && NoLineBreak(repoLabel) && NoLineBreak(unsubscribeLink)
    requires forall k :: 0 <= k < |jobs| ==> SingleLine(jobs[k])
    ensures SplitLines(TextBody(jobs, editLink, repoLabel, unsubscribeLink))
         == TextLines(jobs, editLink, repoLabel, unsubscribeLink)
  {
    var ls := TextLines(jobs, editLink, repoLabel, unsubscribeLink);
    HeaderSingle(|jobs|, repoLabel);
    FooterSingle(editLink, unsubscribeLink);
    var footer := TextFooter(editLink, unsubscribeLink);
    forall k | 0 <= k < |ls| ensures NoLineBreak(ls[k]) {
      if k == 0 {
        assert ls[k] == TextHeader(|jobs|, repoLabel);
      } else if k <= |jobs| {
        assert ls[k] == JobLine(jobs[k - 1]);
        JobLineSingle(jobs[k - 1]);
      } else {
        assert ls[k] == footer[k - |jobs| - 1];
      }
    }
    assert ls[|ls| - 1] == "SMS: reply STOP to opt out.";
    SplitLinesOfJoin(ls);
  }

  lemma HeaderSingle(n: nat, repoLabel: string)
    requires NoLineBreak(repoLabel)
    ensures NoLineBreak(TextHeader(n, repoLabel))
  {
    NoLineBreakConcat(repoLabel, ": ");
    NoLineBreakConcat(NatToString(n), " new match");
    NoLineBreakConcat(NatToString(n) + " new match", Plural(n));
    NoLineBreakConcat(repoLabel + ": ", CountPhrase(n));
  }

  lemma FooterSingle(editLink: string, unsubscribeLink: string)
    requires NoLineBreak(editLink) && NoLineBreak(unsubscribeLink)
    ensures forall k :: 0 <= k < 4 ==> NoLineBreak(TextFooter(editLink, unsubscribeLink)[k])
  {
    NoLineBreakConcat("Edit your preferences: ", editLink);
    NoLineBreakConcat("Unsubscribe: ", unsubscribeLink);
  }

  /** No field of the listing that a bullet shows holds a line boundary. */
  predicate SingleLine(j: JobListing) {
    && NoLineBreak(j.title) && NoLineBreak(j.company_name) && NoLineBreak(j.url)
    && forall i :: 0 <= i < |j.locations| ==> NoLineBreak(j.locations[i])
  }

  lemma JobLineSingle(j: JobListing)
    requires SingleLine(j)
    ensures NoLineBreak(JobLine(j))
  {
    JoinNoLineBreak(j.locations, ", ");
    if j.locations != [] {
      NoLineBreakConcat(" \U{2022} ", Join(j.locations, ", "));
    }
    var loc := TextLocation(j);
    NoLineBreakConcat("- ", j.title);
    NoLineBreakConcat("- " + j.title, " @ ");
    NoLineBreakConcat("- " + j.title + " @ ", j.company_name);
    NoLineBreakConcat("- " + j.title + " @ " + j.company_name, loc);
    NoLineBreakConcat("- " + j.title + " @ " + j.company_name + loc, " \U{2192} ");
    NoLineBreakConcat("- " + j.title + " @ " + j.company_name + loc + " \U{2192} ", j.url);
  }

  lemma CoreDelimited(jobs: seq<JobListing>, editLink: string, repoLabel: string, unsubscribeLink: string)
    ensures var core := HtmlCore(jobs, editLink, repoLabel, unsubscribeLink);
      && StartsWith(core, "<div>") && EndsWith(core, "</div>")
      && core != [] && core[0] == '<' && core[|core| - 1] == '>'
  {
    var inner := HtmlInner(jobs, editLink, repoLabel, unsubscribeLink);
    var core := HtmlCore(jobs, editLink, repoLabel, unsubscribeLink);
    ConcatEnds("<div>" + inner, "</div>");
    ConcatEnds("<div>", inner);
    assert core[..5] == "<div>";
    assert core[0] == '<';
    assert core[|core| - 6..] == "</div>";
    assert core[|core| - 1] == '>';
  }

  /** strip() removes only the template's own margins: the HTML body is
      the filled fragment, whatever the label, links or listings hold. */
  lemma HtmlBodyIsCore(jobs: seq<JobListing>, editLink: string, repoLabel: string, unsubscribeLink: string)
    ensures HtmlBody(jobs, editLink, repoLabel, unsubscribeLink) == HtmlCore(jobs, editLink, repoLabel, unsubscribeLink)
    ensures StartsWith(HtmlBody(jobs, editLink, repoLabel, unsubscribeLink), "<div>")
    ensures EndsWith(HtmlBody(jobs, editLink, repoLabel, unsubscribeLink), "</div>")
  {
    var core := HtmlCore(jobs, editLink, repoLabel, unsubscribeLink);
    CoreDelimited(jobs, editLink, repoLabel, unsubscribeLink);
    StripMargin(HtmlMargin, core, HtmlMargin);
  }

  /** At most one email and at most one SMS: an email exactly when email
      is wanted and an address is present, an SMS exactly when SMS is wanted
      and a number is present, and the SMS carries the email's text. */
  lemma DeliveriesChannels(user: UserContact, subject: string, html: string, text: string)
    ensures var ms := Deliveries(user, subject, html, text);
      && |ms| <= 2
      && ((exists k :: 0 <= k < |ms| && ms[k].Email?) <==> EmailWanted(user))
      && ((exists k :: 0 <= k < |ms| && ms[k].Sms?) <==> SmsWanted(user))
      && (forall k, l :: 0 <= k < |ms| && 0 <= l < |ms| && ms[k].Email? && ms[l].Email? ==> k == l)
      && (forall k, l :: 0 <= k < |ms| && 0 <= l < |ms| && ms[k].Sms? && ms[l].Sms? ==> k == l)
      && (forall k :: 0 <= k < |ms| && ms[k].Email? ==> ms[k] == Email(user.email.value, subject, html, text))
      && (forall k :: 0 <= k < |ms| && ms[k].Sms? ==> ms[k] == Sms(user.phone.value, text))
  {
    var ms := Deliveries(user, subject, html, text);
    if EmailWanted(user) {
      assert ms[0].Email?;
    }
    if SmsWanted(user) {
      assert ms[|ms| - 1].Sms?;
    }
  }

  /** A summary is the deliveries of the rendered digest when the guards
      pass, and nothing otherwise. */
  lemma SummaryChannels(user: UserContact, jobs: seq<JobListing>, repoLabel: string,
                        editLink: string, unsubscribeLink: string)
    ensures var ms := SummaryMessages(user, jobs, repoLabel, editLink, unsubscribeLink);
      && (!Eligible(user, jobs) ==> ms == [])
      && (Eligible(user, jobs) ==> ms == Deliveries(user, Subject(|jobs|, repoLabel),
            HtmlBody(jobs, editLink, repoLabel, unsubscribeLink), TextBody(jobs, editLink, repoLabel, unsubscribeLink)))
  {
  }
}
