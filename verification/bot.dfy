/** The chat bot: how a message is routed to a command, how the arguments of a command are
    taken apart, and the reply it composes from a check result. What the bot does is
    described as a `BotAction`; sending activities and calling the check and CTI services
    are the environment's part. */
module Bot {
  import opened Wrappers
  import opened Text

  // ---------------------------------------------------------------- replies

  /** The fixed replies the bot sends. */
  datatype Canned = Greeting | AnalyzeUsage | CtiUsage | UnknownCommand | CommandsHello | NoDomain | NoTokenDomain

  function CannedText(c: Canned): string {
    match c
    case Greeting => "Hello! I'm Ceker Bot. Available commands:\n\n\U{2022} `/analyze <domain>` - Check if a website is legitimate\n\U{2022} `/cti-report <token> <domain>` - Get CTI report for a domain"
    case AnalyzeUsage => "Usage: `/analyze <domain>`\nExample: `/analyze example.com`"
    case CtiUsage => "Usage: `/cti-report <token> <domain>`\nExample: `/cti-report mysecret123 example.com`"
    case UnknownCommand => "Unknown command. Available commands:\n\n\U{2022} `/analyze <domain>` - Check if a website is legitimate\n\U{2022} `/cti-report <token> <domain>` - Get CTI report for a domain"
    case CommandsHello => "Hello! I'm Ceker Bot. Use commands to interact:\n\n\U{2022} `/analyze <domain>` - Check if a website is legitimate\n\U{2022} `/cti-report <token> <domain>` - Get CTI report"
    case NoDomain => "Please provide a domain.\nUsage: `/analyze <domain>`"
    case NoTokenDomain => "Please provide both token and domain.\nUsage: `/cti-report <token> <domain>`"
  }

  /** What the bot does with one message: send a fixed reply, or send the typing indicator
      and then ask the check service about a domain, or the CTI service for a report. */
  datatype BotAction =
    | Reply(msg: Canned)
    | CheckDomain(domain: string)
    | FetchCtiReport(token: string, domain: string)

  // ---------------------------------------------------------------- routing

  /** The message handler: the text (absent counts as empty) is trimmed; an empty message
      gets the greeting, anything else goes to the command handler. */
  function OnMessage(activityText: Option<string>): (a: BotAction)
    ensures a == Reply(Greeting) <==> Trim(activityText.GetOr("")) == ""
    ensures Trim(activityText.GetOr("")) != "" ==> a == HandleCommand(Trim(activityText.GetOr("")))
  {
    var text := Trim(activityText.GetOr(""));
    if text == "" then Reply(Greeting) else HandleCommand(text)
  }

  /** The command handler. The command word is matched without regard to case; the
      argument is passed on as typed. Text not starting with `/` gets the command overview,
      and only such text does. */
  function HandleCommand(text: string): (a: BotAction)
    ensures a != Reply(Greeting)
    ensures a == Reply(CommandsHello) <==> !StartsWith(Lower(text), "/")
  {
    var lower := Lower(text);
    CommandsStartWithSlash(lower);
    if StartsWith(lower, "/analyze ") then HandleAnalyze(text[9..])
    else if StartsWith(lower, "/cti-report ") then HandleCtiReport(text[12..])
    else if lower == "/analyze" then Reply(AnalyzeUsage)
    else if lower == "/cti-report" then Reply(CtiUsage)
    else if StartsWith(lower, "/") then Reply(UnknownCommand)
    else Reply(CommandsHello)
  }

  /** The routing order: the bare command words get their usage hints, and any other text
      starting with `/` that is not one of the four command forms gets the unknown-command
      reply. */
  lemma CommandRouting(text: string)
    ensures Lower(text) == "/analyze" ==> HandleCommand(text) == Reply(AnalyzeUsage)
    ensures Lower(text) == "/cti-report" ==> HandleCommand(text) == Reply(CtiUsage)
    ensures var lower := Lower(text);
            (StartsWith(lower, "/") && !StartsWith(lower, "/analyze ") && !StartsWith(lower, "/cti-report ") &&
             lower != "/analyze" && lower != "/cti-report") ==> HandleCommand(text) == Reply(UnknownCommand)
  {
    var lower := Lower(text);
    if lower == "/analyze" || lower == "/cti-report" {
      BareCommandWord(lower);
    }
  }

  /** A bare command word is not a command followed by a space. */
  lemma BareCommandWord(lower: string)
    requires lower == "/analyze" || lower == "/cti-report"
    ensures !StartsWith(lower, "/analyze ") && !StartsWith(lower, "/cti-report ")
  {
    if lower == "/cti-report" {
      assert lower[..9][1] != "/analyze "[1];
    }
  }

  /** Every command form starts with `/`. */
  lemma CommandsStartWithSlash(lower: string)
    ensures (StartsWith(lower, "/analyze ") || StartsWith(lower, "/cti-report ") ||
             lower == "/analyze" || lower == "/cti-report") ==> StartsWith(lower, "/")
  {
    if StartsWith(lower, "/analyze ") || StartsWith(lower, "/cti-report ") ||
       lower == "/analyze" || lower == "/cti-report" {
      assert lower[0] == '/';
      assert lower[..1] == "/";
    }
  }

  /** `/analyze`: the trimmed argument is the domain; an empty one gets a usage hint. */
  function HandleAnalyze(domainInput: string): (a: BotAction)
    ensures a == Reply(NoDomain) <==> Trim(domainInput) == ""
    ensures a != Reply(NoDomain) ==> a == CheckDomain(Trim(domainInput))
  {
    var domain := Trim(domainInput);
    if domain == "" then Reply(NoDomain) else CheckDomain(domain)
  }

  /** `/cti-report`: the trimmed argument split at runs of white space; the first two
      fields are the token and the domain, and anything after them is ignored. */
  function HandleCtiReport(params: string): (a: BotAction)
    ensures a == Reply(NoTokenDomain) || a.FetchCtiReport?
    ensures a.FetchCtiReport? ==> a.token != "" && NoWs(a.token) && NoWs(a.domain)
  {
    var parts := SplitWs(Trim(params));
    if |parts| < 2 then Reply(NoTokenDomain)
    else FetchCtiReport(parts[0], parts[1])
  }

  // ---------------------------------------------------------------- split(/\s+/)

  predicate NoWs(w: string) {
    forall i :: 0 <= i < |w| ==> !IsJsWhitespace(w[i])
  }

  /** `s.split(/\s+/)`: the fields between runs of white space; a run at either end gives
      an empty first or last field. */
  function SplitWs(s: string): (parts: seq<string>)
    ensures |parts| >= 1
    ensures forall k :: 0 <= k < |parts| ==> NoWs(parts[k])
    decreases |s|
  {
    if s == [] then [""]
    else if IsJsWhitespace(s[0]) then
      var t := TrimStart(s);
      assert |t| < |s|;
      [""] + SplitWs(t)
    else
      var rest := SplitWs(s[1..]);
      [[s[0]] + rest[0]] + rest[1..]
  }

  /** A word without white space is one field. */
  lemma {:induction false} SplitWsWord(w: string)
    requires NoWs(w)
    ensures SplitWs(w) == [w]
    decreases |w|
  {
    if w != [] {
      SplitWsWord(w[1..]);
      assert [w[0]] + w[1..] == w;
    }
  }

  /** A word followed by white space (or nothing) is the first field, and the fields after
      it are those of the text after the white-space run. */
  lemma {:induction false} SplitWsHead(w: string, rest: string)
    requires w != [] && NoWs(w)
    requires rest == [] || IsJsWhitespace(rest[0])
    ensures SplitWs(w + rest)[0] == w
    ensures rest != [] ==> SplitWs(w + rest)[1..] == SplitWs(TrimStart(rest))
    decreases |w|
  {
    var s := w + rest;
    assert s[0] == w[0] && s[1..] == w[1..] + rest;
    if |w| == 1 {
      assert s[1..] == rest;
      if rest != [] {
        assert SplitWs(rest) == [""] + SplitWs(TrimStart(rest));
      }
    } else {
      SplitWsHead(w[1..], rest);
      assert [w[0]] + w[1..] == w;
    }
  }

  // ---------------------------------------------------------------- properties of the routing

  /** Only a space lowers to a space. */
  lemma LowerSpace(c: char)
    requires LowerChar(c) == ' '
    ensures c == ' '
  {
  }

  /** The usage hint for a missing domain is never sent: the message was trimmed before
      routing, so text after `/analyze ` can never be blank. */
  lemma NoDomainUnreachable(activityText: Option<string>)
    ensures OnMessage(activityText) != Reply(NoDomain)
  {
    var text := Trim(activityText.GetOr(""));
    if text != "" {
      assert OnMessage(activityText) == HandleCommand(text);
      TrimmedCommandNotBlank(text);
    }
  }

  lemma TrimmedCommandNotBlank(text: string)
    requires text != [] && !IsJsWhitespace(text[|text| - 1])
    ensures HandleCommand(text) != Reply(NoDomain)
  {
    if StartsWith(Lower(text), "/analyze ") {
      AnalyzeArgNotBlank(text);
      assert HandleCommand(text) == HandleAnalyze(text[9..]);
    }
  }

  /** In trimmed text that starts with `/analyze `, the text after the command word is not blank. */
  lemma AnalyzeArgNotBlank(text: string)
    requires text != [] && !IsJsWhitespace(text[|text| - 1])
    requires StartsWith(Lower(text), "/analyze ")
    ensures |text| > 9 && Trim(text[9..]) != ""
  {
    var lower := Lower(text);
    assert lower[8] == "/analyze "[8] == ' ';
    LowerSpace(text[8]);
    assert |text| > 9;
    var arg := text[9..];
    assert arg[|arg| - 1] == text[|text| - 1];
    TrimEmptyIff(arg);
  }

  /** `/analyze` followed by a domain asks about that domain, whatever the case of the
      command word, and keeps the domain as typed. */
  lemma AnalyzeRoute(command: string, domain: string)
    requires |command| == 9 && Lower(command) == "/analyze "
    requires domain != [] && !IsJsWhitespace(domain[0]) && !IsJsWhitespace(domain[|domain| - 1])
    ensures HandleCommand(command + domain) == CheckDomain(domain)
  {
    var text := command + domain;
    assert Lower(text)[..9] == Lower(command);
    assert text[9..] == domain;
    TrimOfTrimmed(domain);
  }

  /** `/cti-report` followed by a token and a domain asks for that report; further words
      are ignored. */
  lemma CtiRoute(token: string, domain: string, extra: string)
    requires token != [] && NoWs(token) && domain != [] && NoWs(domain)
    requires extra == [] || (IsJsWhitespace(extra[0]) && !IsJsWhitespace(extra[|extra| - 1]))
    ensures HandleCtiReport(token + " " + domain + extra) == FetchCtiReport(token, domain)
  {
    var s := token + " " + domain + extra;
    assert s[0] == token[0];
    assert s[|s| - 1] == if extra == [] then domain[|domain| - 1] else extra[|extra| - 1];
    TrimOfTrimmed(s);
    CtiFields(token, domain, extra);
  }

  /** The fields of a token, a space, a domain and further words. */
  lemma CtiFields(token: string, domain: string, extra: string)
    requires token != [] && NoWs(token) && domain != [] && NoWs(domain)
    requires extra == [] || IsJsWhitespace(extra[0])
    ensures var parts := SplitWs(token + " " + domain + extra);
            |parts| >= 2 && parts[0] == token && parts[1] == domain
  {
    var rest := domain + extra;
    var tail := [' '] + rest;
    assert token + " " + domain + extra == token + tail;
    SpaceThenWord(domain, extra);
    SplitWsHead(token, tail);
    DomainField(domain, extra);
  }

  lemma SpaceThenWord(domain: string, extra: string)
    requires domain != [] && NoWs(domain)
    ensures TrimStart([' '] + (domain + extra)) == domain + extra
  {
    var rest := domain + extra;
    assert ([' '] + rest)[1..] == rest;
    assert rest[0] == domain[0];
  }

  lemma DomainField(domain: string, extra: string)
    requires domain != [] && NoWs(domain)
    requires extra == [] || IsJsWhitespace(extra[0])
    ensures SplitWs(domain + extra)[0] == domain
  {
    SplitWsHead(domain, extra);
  }

  /** A single word after `/cti-report` gets the usage hint. */
  lemma CtiNeedsTwoFields(params: string)
    requires NoWs(Trim(params))
    ensures HandleCtiReport(params) == Reply(NoTokenDomain)
  {
    SplitWsWord(Trim(params));
  }

  // ---------------------------------------------------------------- members added

  /** How many of the added members are not the bot itself. */
  function Others(ids: seq<string>, recipient: Option<string>): (n: nat)
    ensures n <= |ids|
  {
    if ids == [] then 0
    else Others(ids[..|ids| - 1], recipient)
         + (if recipient.Some? && ids[|ids| - 1] == recipient.value then 0 else 1)
  }

  /** Every member added to the conversation except the bot gets the greeting. */
  method MembersAdded(members: Option<seq<string>>, recipient: Option<string>) returns (replies: seq<Canned>)
    ensures |replies| == Others(members.GetOr([]), recipient)
    ensures forall k :: 0 <= k < |replies| ==> replies[k] == Greeting
  {
    replies := [];
    if members.None? {
      return;
    }
    var ids := members.value;
    for i := 0 to |ids|
      invariant |replies| == Others(ids[..i], recipient)
      invariant forall k :: 0 <= k < |replies| ==> replies[k] == Greeting
    {
      assert ids[..i + 1][..i] == ids[..i];
      if recipient.None? || ids[i] != recipient.value {
        replies := replies + [Greeting];
      }
    }
    assert ids[..|ids|] == ids;
  }

  /** The bot greets each added member once per appearance, and never itself. */
  lemma {:induction false} OthersCount(ids: seq<string>, recipient: Option<string>)
    ensures recipient.None? ==> Others(ids, recipient) == |ids|
    ensures recipient.Some? ==> Others(ids, recipient) == |ids| - multiset(ids)[recipient.value]
  {
    if ids != [] {
      var init := ids[..|ids| - 1];
      OthersCount(init, recipient);
      assert ids == init + [ids[|ids| - 1]];
      assert multiset(ids) == multiset(init) + multiset{ids[|ids| - 1]};
    }
  }

  // ---------------------------------------------------------------- failures

  /** How a request to a service ended when it did not deliver: an HTTP client error
      (with the `error` field of the response body, if any, and the client's message), or
      anything else. */
  datatype Failure = HttpFailure(errorField: Option<string>, message: string) | OtherFailure

  /** The reason shown for an HTTP client error: the response's `error` field unless it is
      absent or empty, else the client's message. It is one of the two, and it is empty
      only when both are. */
  function FailureReason(errorField: Option<string>, message: string): (r: string)
    ensures r == message || (errorField == Some(r) && r != "")
    ensures errorField.Some? && errorField.value != "" ==> r == errorField.value
    ensures r == "" ==> message == "" && (errorField.None? || errorField.value == "")
  {
    var e := errorField.GetOr("");
    if e != "" then e else message
  }

  /** The reply to a failed request made to do `action`: "Failed to" and the action, then
      either ": " and the reason of an HTTP client error or ". Please try again later."
      The character right after the action tells the two kinds apart, and the reason can be
      read back from the reply. */
  function FailureReply(action: string, f: Failure): (r: string)
    ensures var n := |"Failed to " + action|;
            |r| > n + 1 && r[..n] == "Failed to " + action &&
            (f.HttpFailure? <==> r[n] == ':') &&
            (f.HttpFailure? ==> r[n..n + 2] == ": " && r[n + 2..] == FailureReason(f.errorField, f.message)) &&
            (f.OtherFailure? ==> r[n..] == TryAgain)
  {
    var head := "Failed to " + action;
    match f
    case HttpFailure(e, m) =>
      var tail := ": " + FailureReason(e, m);
      SplitAfter(head, tail);
      head + tail
    case OtherFailure =>
      var tail := TryAgain;
      SplitAfter(head, tail);
      head + tail
  }

  const TryAgain: string := ". Please try again later."

  lemma SplitAfter(head: string, tail: string)
    ensures (head + tail)[..|head|] == head && (head + tail)[|head|..] == tail
  {
  }

  const AnalyzeAction: string := "analyze domain"
  const CtiAction: string := "get CTI report"

  /** The reply when the analyze request fails (the try-again text for any failure other
      than an HTTP client error). */
  function AnalyzeFailureReply(f: Failure): (r: string)
    ensures var n := |"Failed to " + AnalyzeAction|;
            |r| > n + 1 && r[..n] == "Failed to " + AnalyzeAction &&
            (f.HttpFailure? <==> r[n] == ':') &&
            (f.HttpFailure? ==> r[n..n + 2] == ": " && r[n + 2..] == FailureReason(f.errorField, f.message)) &&
            (f.OtherFailure? ==> r[n..] == TryAgain)
  {
    FailureReply(AnalyzeAction, f)
  }

  /** The reply when the CTI report request fails. */
  function CtiFailureReply(f: Failure): (r: string)
    ensures var n := |"Failed to " + CtiAction|;
            |r| > n + 1 && r[..n] == "Failed to " + CtiAction &&
            (f.HttpFailure? <==> r[n] == ':') &&
            (f.HttpFailure? ==> r[n..n + 2] == ": " && r[n + 2..] == FailureReason(f.errorField, f.message)) &&
            (f.OtherFailure? ==> r[n..] == TryAgain)
  {
    FailureReply(CtiAction, f)
  }

  // ---------------------------------------------------------------- the check result reply

  /** The check service's answer. */
  datatype CheckResult = CheckResult(riskLevel: string, message: string, details: seq<string>,
                                     screenshotPath: Option<string>)

  const DefaultAppUrl: string := "http://localhost:3000"

  /** The mark in front of the reply: a check mark for LEGITIMATE, a red circle for
      WARNING, a warning sign for anything else. */
  function RiskEmoji(riskLevel: string): string {
    if riskLevel == "LEGITIMATE" then "\U{2705}"
    else if riskLevel == "WARNING" then "\U{1F534}"
    else "\U{26A0}\U{FE0F}"
  }

  /** The card colour the handler computes for the level; the reply does not use it. */
  function RiskColor(riskLevel: string): string {
    if riskLevel == "LEGITIMATE" then "Good"
    else if riskLevel == "WARNING" then "Attention"
    else "Warning"
  }

  function Bullet(detail: string): string {
    "\U{2022} " + detail + "\n"
  }

  /** One bullet line per detail, in order. */
  function Bullets(details: seq<string>): string {
    if details == [] then ""
    else Bullets(details[..|details| - 1]) + Bullet(details[|details| - 1])
  }

  function ResultHeader(result: CheckResult, domain: string): string {
    RiskEmoji(result.riskLevel) + " **" + domain + "**\n\n"
    + "**Risk Level:** " + result.riskLevel + "\n"
    + "**Verdict:** " + result.message + "\n\n"
    + "**Details:**\n"
  }

  /** The screenshot link, present only when the path is present and non-empty; the base
      address is the configured one unless that is absent or empty. */
  function ScreenshotLink(path: Option<string>, appUrl: Option<string>): string {
    var p := path.GetOr("");
    if p == "" then ""
    else LinkLine(if appUrl.GetOr("") != "" then appUrl.value else DefaultAppUrl, p)
  }

  function LinkLine(base: string, path: string): string {
    "\n\U{1F4F8} [View Screenshot](" + base + path + ")"
  }

  function ResultMessage(result: CheckResult, domain: string, appUrl: Option<string>): string {
    ResultHeader(result, domain) + Bullets(result.details) + ScreenshotLink(result.screenshotPath, appUrl)
  }

  /** `sendCheckResult`: the header, then one bullet line per detail, then the screenshot
      link when there is a screenshot. */
  method SendCheckResult(result: CheckResult, domain: string, appUrl: Option<string>) returns (message: string)
    ensures message == ResultMessage(result, domain, appUrl)
  {
    message := ResultHeader(result, domain);
    ghost var header := message;
    var details := result.details;
    for i := 0 to |details|
      invariant message == header + Bullets(details[..i])
    {
      assert details[..i + 1][..i] == details[..i];
      message := message + Bullet(details[i]);
    }
    assert details[..|details|] == details;
    var p := result.screenshotPath.GetOr("");
    if p != "" {
      var base := appUrl.GetOr("");
      if base == "" {
        base := DefaultAppUrl;
      }
      message := message + LinkLine(base, p);
    }
  }

  lemma {:induction false} BulletsAppend(a: seq<string>, b: seq<string>)
    ensures Bullets(a + b) == Bullets(a) + Bullets(b)
    decreases |b|
  {
    if b == [] {
      assert a + b == a;
    } else {
      var init := b[..|b| - 1];
      BulletsAppend(a, init);
      assert (a + b)[..|a + b| - 1] == a + init;
      assert (a + b)[|a + b| - 1] == b[|b| - 1];
    }
  }

  /** The reply's first character tells the risk level apart: the check mark exactly for
      LEGITIMATE, the red circle exactly for WARNING, the warning sign otherwise. */
  lemma ReplyMark(result: CheckResult, domain: string, appUrl: Option<string>)
    ensures var m := ResultMessage(result, domain, appUrl);
            |m| > 0 &&
            (m[0] == '\U{2705}' <==> result.riskLevel == "LEGITIMATE") &&
            (m[0] == '\U{1F534}' <==> result.riskLevel == "WARNING") &&
            (m[0] == '\U{26A0}' <==> result.riskLevel != "LEGITIMATE" && result.riskLevel != "WARNING")
  {
    var m := ResultMessage(result, domain, appUrl);
    var e := RiskEmoji(result.riskLevel);
    assert m[0] == e[0];
  }

  /** The bullet lines keep the order of the details: the reply is the header, the
      bullets of the details before, this detail's bullet, the bullets of the details after,
      and the screenshot link. */
  lemma DetailLine(result: CheckResult, domain: string, appUrl: Option<string>, i: nat)
    requires i < |result.details|
    ensures ResultMessage(result, domain, appUrl)
            == ResultHeader(result, domain) + Bullets(result.details[..i]) + Bullet(result.details[i])
               + Bullets(result.details[i + 1..]) + ScreenshotLink(result.screenshotPath, appUrl)
  {
    BulletsAround(result.details, i);
  }

  /** Every detail has its own bullet line in the reply. */
  lemma DetailShown(result: CheckResult, domain: string, appUrl: Option<string>, i: nat)
    requires i < |result.details|
    ensures Contains(ResultMessage(result, domain, appUrl), Bullet(result.details[i]))
  {
    BulletInside(ResultHeader(result, domain), result.details, ScreenshotLink(result.screenshotPath, appUrl), i);
  }

  /** Between any header and trailer, each bullet line occurs. */
  lemma BulletInside(header: string, d: seq<string>, link: string, i: nat)
    requires i < |d|
    ensures Contains(header + Bullets(d) + link, Bullet(d[i]))
  {
    var before, x, after := Bullets(d[..i]), Bullet(d[i]), Bullets(d[i + 1..]);
    assert header + Bullets(d) + link == (header + before) + x + (after + link) by {
      BulletsAround(d, i);
      Regroup(header, before, x, after, link);
    }
    InMiddle(header + before, x, after + link);
  }

  lemma Regroup(h: string, b: string, x: string, a: string, l: string)
    ensures h + (b + x + a) + l == (h + b) + x + (a + l)
  {
  }

  lemma InMiddle(pre: string, x: string, post: string)
    ensures Contains(pre + x + post, x)
  {
    var s := pre + x + post;
    assert s[|pre|..|pre| + |x|] == x;
    assert OccursAt(s, x, |pre|);
  }

  lemma BulletsAround(d: seq<string>, i: nat)
    requires i < |d|
    ensures Bullets(d) == Bullets(d[..i]) + Bullet(d[i]) + Bullets(d[i + 1..])
  {
    var a, b := d[..i + 1], d[i + 1..];
    assert Bullets(d) == Bullets(a) + Bullets(b) by {
      assert d == a + b;
      BulletsAppend(a, b);
    }
    assert Bullets(a) == Bullets(d[..i]) + Bullet(d[i]) by {
      assert a[..|a| - 1] == d[..i] && a[|a| - 1] == d[i];
    }
  }

  /** The reply ends with the screenshot link when a screenshot exists, pointing at the
      configured address or the local default; without one it ends with the last detail. */
  lemma ScreenshotEnding(result: CheckResult, domain: string, appUrl: Option<string>)
    ensures var m := ResultMessage(result, domain, appUrl);
            var p := result.screenshotPath.GetOr("");
            (p == "" ==> EndsWith(m, Bullets(result.details))) &&
            (p != "" && appUrl.GetOr("") != "" ==> EndsWith(m, "(" + appUrl.value + p + ")")) &&
            (p != "" && appUrl.GetOr("") == "" ==> EndsWith(m, "(" + DefaultAppUrl + p + ")"))
  {
    var front := ResultHeader(result, domain) + Bullets(result.details);
    var p := result.screenshotPath.GetOr("");
    if p != "" {
      var base := if appUrl.GetOr("") != "" then appUrl.value else DefaultAppUrl;
      assert ResultMessage(result, domain, appUrl) == front + LinkLine(base, p);
      LinkAtEnd(front, base, p);
    } else {
      assert ResultMessage(result, domain, appUrl) == ResultHeader(result, domain) + Bullets(result.details) + "";
      SuffixAtEnd(ResultHeader(result, domain), Bullets(result.details));
    }
  }

  lemma LinkAtEnd(front: string, base: string, p: string)
    ensures EndsWith(front + LinkLine(base, p), "(" + base + p + ")")
  {
    var m, tail := front + LinkLine(base, p), "(" + base + p + ")";
    assert LinkLine(base, p) == "\n\U{1F4F8} [View Screenshot]" + tail;
    assert m[|m| - |tail|..] == tail;
  }

  lemma SuffixAtEnd(front: string, tail: string)
    ensures EndsWith(front + tail + "", tail)
  {
    var m := front + tail + "";
    assert m[|m| - |tail|..] == tail;
  }
}
