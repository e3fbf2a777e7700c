/** Sending notifications to Telegram users: the length cut, the plain-text
    retry after a markup rejection, the choice of recipients and the
    statistics a broadcast accumulates on its notification. The Telegram
    API itself is not modelled: each post's reply is an input. */
module Notifications {
  import opened Common
  import opened TelegramText

  /** Messages longer than this are cut (Telegram's own limit is 4096). */
  const MaxLength: nat := 4000
  const CutSuffix: string := "... (xabar qisqartirildi)"
  const TelegramLimit: nat := 4096

  /** The description assumed when a rejection carries none. */
  const UnknownError: string := "Unknown error"
  const SendFailed: string := "Send Failed"
  const SendFailedMessage: string := "Xabar yuborish muvaffaqiyatsiz tugadi (Telegram API False qaytardi)"

  function Max(a: nat, b: nat): nat { if a >= b then a else b }

  /** The text actually posted: long messages keep their first 4000
      characters and get a notice appended. */
  function Truncated(text: string): (r: string)
    ensures |text| <= MaxLength ==> r == text
    ensures |text| > MaxLength ==> |r| == MaxLength + |CutSuffix| && r[MaxLength..] == CutSuffix
    ensures |r| <= MaxLength + |CutSuffix|
    ensures r[..Min(|text|, MaxLength)] == text[..Min(|text|, MaxLength)]
  {
    if |text| > MaxLength then text[..MaxLength] + CutSuffix else text
  }

  /** The plain-text fallback: every `<...>` tag removed, then at most the
      first 4000 characters, with no notice. */
  function PlainRetry(text: string): (r: string)
    ensures |r| <= MaxLength
  {
    var s := Rewrite(text, AnyTag);
    if |s| > MaxLength then s[..MaxLength] else s
  }

  /** Text with no `<` falls back to itself, cut to 4000 characters. */
  lemma PlainRetryOfUntagged(text: string)
    requires NoChar(text, '<')
    ensures PlainRetry(text) == text[..Min(|text|, MaxLength)]
  {
    TagRulesStartWithAngle();
    RewritePassesOver(AnyTag, '<', text, "");
    assert text + "" == text;
  }

  /** A tag with at least one character between its brackets is removed
      whole. */
  lemma TagsRemoved(x: string, inner: string, y: string)
    requires NoChar(x, '<') && inner != [] && NoChar(inner, '>')
    ensures Rewrite(x + ("<" + inner + ">") + y, AnyTag) == x + Rewrite(y, AnyTag)
  {
    TagClosingBracket("<", inner, y);
    assert MatchAnyTag("<" + inner + ">" + y) == Some(Match(|"<" + inner + ">"|, ""));
    TagRulesStartWithAngle();
    RewriteReplacesAfter(AnyTag, '<', x, "<" + inner + ">", y, "");
    assert x + "" == x;
  }

  /** `<>` has nothing between its brackets and is kept. */
  lemma EmptyBracketsKept(y: string)
    ensures Rewrite("<>" + y, AnyTag) == "<>" + Rewrite(y, AnyTag)
  {
    var s := "<>" + y;
    EmptyBracketsNoTag(y);
    RewriteCopies(s, AnyTag);
    assert s[1..] == ">" + y;
    RewriteCopies(">" + y, AnyTag);
    assert (">" + y)[1..] == y;
  }

  lemma EmptyBracketsNoTag(y: string)
    ensures MatchAt(AnyTag, "<>" + y).None?
  {
    assert FirstFrom("<>" + y, Exactly('>'), 1) == Some(1);
  }

  // ---------------------------------------------------------------------
  // One message

  /** What the Telegram API answered to one post: an HTTP status with the
      `ok` flag and optional description of its JSON body, a timeout, or
      any other failure (connection error, unreadable body). */
  datatype Reply = Answer(status: int, ok: bool, description: Option<string>) | TimedOut | Broken

  /** One call of sendMessage: the chat, the text, and whether it was sent
      with HTML parsing. */
  datatype Post = Post(chatId: int, text: string, html: bool)

  datatype Delivery = Delivery(sent: bool, posts: seq<Post>)

  predicate Accepted(r: Reply) {
    r.Answer? && r.status == 200 && r.ok
  }

  function Description(r: Reply): string
    requires r.Answer?
  {
    match r.description
    case None => UnknownError
    case Some(d) => d
  }

  /** A 200 reply that refused the message because of its markup. */
  predicate MarkupRejected(r: Reply) {
    r.Answer? && r.status == 200 && !r.ok &&
    (Contains(Lower(Description(r)), "parse") || Contains(Lower(Description(r)), "html"))
  }

  predicate CanSend(token: string, telegramId: Option<int>) {
    token != [] && telegramId.Some? && telegramId.value != 0
  }

  /** Sending one message: nothing without a token or a chat, otherwise
      the truncated HTML text, and after a markup rejection one retry with
      the plain text. `first` and `retry` are the replies the two posts
      get. */
  function SendMessage(token: string, telegramId: Option<int>, text: string, first: Reply, retry: Reply): (d: Delivery)
    ensures !CanSend(token, telegramId) ==> d == Delivery(false, [])
    ensures CanSend(token, telegramId) ==>
      1 <= |d.posts| <= 2 && d.posts[0] == Post(telegramId.value, Truncated(text), true)
    ensures |d.posts| == 2 <==> CanSend(token, telegramId) && MarkupRejected(first)
    ensures |d.posts| == 2 ==> d.posts[1] == Post(telegramId.value, PlainRetry(Truncated(text)), false)
    ensures d.sent <==> CanSend(token, telegramId) && (Accepted(first) || (MarkupRejected(first) && Accepted(retry)))
  {
    if !CanSend(token, telegramId) then Delivery(false, [])
    else
      var html := Post(telegramId.value, Truncated(text), true);
      if Accepted(first) then Delivery(true, [html])
      else if MarkupRejected(first) then
        Delivery(Accepted(retry), [html, Post(telegramId.value, PlainRetry(Truncated(text)), false)])
      else Delivery(false, [html])
  }

  /** Every post fits Telegram's 4096-character limit. */
  lemma PostsFitTelegram(token: string, telegramId: Option<int>, text: string, first: Reply, retry: Reply)
    ensures forall p :: p in SendMessage(token, telegramId, text, first, retry).posts ==> |p.text| <= TelegramLimit
  {
  }

  /** The title goes first, in bold, then a blank line and the converted
      body. */
  function MessageFor(title: string, message: string): (r: string)
    ensures title == [] ==> r == HtmlToTelegram(message)
    ensures title != [] ==> StartsWith(r, "<b>" + title + "</b>\n\n")
    ensures title != [] ==> r[|"<b>" + title + "</b>\n\n"|..] == HtmlToTelegram(message)
  {
    if title != [] then "<b>" + title + "</b>\n\n" + HtmlToTelegram(message)
    else HtmlToTelegram(message)
  }

  // ---------------------------------------------------------------------
  // Recipients

  datatype Member = Member(id: nat, telegramId: Option<int>, notificationsEnabled: bool, active: bool)

  /** The chat id stored on an error record; users without one are never
      recipients. */
  function ChatOf(u: Member): int {
    if u.telegramId.Some? then u.telegramId.value else 0
  }

  /** A user a notification can reach: a non-zero Telegram id,
      notifications on, account active. */
  predicate Reachable(u: Member) {
    u.telegramId.Some? && u.telegramId.value != 0 && u.notificationsEnabled && u.active
  }

  /** The reachable users, in the order given. */
  function Reachables(users: seq<Member>): (r: seq<Member>)
    ensures |r| <= |users|
  {
    if users == [] then []
    else
      var rest := Reachables(users[..|users| - 1]);
      assert users == users[..|users| - 1] + [users[|users| - 1]];
      if Reachable(users[|users| - 1]) then rest + [users[|users| - 1]] else rest
  }

  /** The recipients of one broadcast: every reachable user, or the
      reachable ones among those chosen. */
  function Recipients(sendToAll: bool, everyone: seq<Member>, chosen: seq<Member>): seq<Member>
  {
    Reachables(if sendToAll then everyone else chosen)
  }

  /** Exactly the reachable users are kept. */
  lemma {:induction false} ReachablesMembers(users: seq<Member>)
    ensures forall u :: u in Reachables(users) <==> u in users && Reachable(u)
    decreases |users|
  {
    if users != [] {
      var init := users[..|users| - 1];
      ReachablesMembers(init);
      assert users == init + [users[|users| - 1]];
    }
  }

  /** The recipients of a broadcast are the reachable users among everyone
      or among those chosen. */
  lemma RecipientsMembers(sendToAll: bool, everyone: seq<Member>, chosen: seq<Member>)
    ensures forall u :: u in Recipients(sendToAll, everyone, chosen) <==>
      Reachable(u) && u in (if sendToAll then everyone else chosen)
  {
    ReachablesMembers(if sendToAll then everyone else chosen);
  }

  /** Filtering twice changes nothing. */
  lemma {:induction false} ReachablesIdempotent(users: seq<Member>)
    ensures Reachables(Reachables(users)) == Reachables(users)
    decreases |users|
  {
    if users != [] {
      var init := users[..|users| - 1];
      var last := users[|users| - 1];
      ReachablesIdempotent(init);
      if Reachable(last) {
        ReachablesSnoc(Reachables(init), last);
      }
    }
  }

  lemma ReachablesSnoc(users: seq<Member>, u: Member)
    requires Reachable(u)
    ensures Reachables(users + [u]) == Reachables(users) + [u]
  {
    assert (users + [u])[..|users + [u]| - 1] == users;
  }

  // ---------------------------------------------------------------------
  // A broadcast

  datatype NotificationError = NotificationError(userId: nat, telegramId: int, kind: string, message: string)

  datatype Summary = Summary(total: nat, successful: nat, failed: nat, errors: nat)

  /** The replies one recipient's posts get: to the HTML post and to the
      plain-text retry. */
  datatype Exchange = Exchange(first: Reply, retry: Reply)

  /** Whether each recipient got the message, in order. */
  function Outcomes(token: string, text: string, rs: seq<Member>, replies: seq<Exchange>): (o: seq<bool>)
    requires |replies| == |rs|
    ensures |o| == |rs|
  {
    seq(|rs|, i requires 0 <= i < |rs| => SendMessage(token, rs[i].telegramId, text, replies[i].first, replies[i].retry).sent)
  }

  /** How many of the first `n` outcomes are deliveries. */
  function Successes(o: seq<bool>, n: nat): (k: nat)
    requires n <= |o|
    ensures k <= n
  {
    if n == 0 then 0 else Successes(o, n - 1) + (if o[n - 1] then 1 else 0)
  }

  /** One error record per failure among the first `n` recipients, in
      order. */
  function FailureRecords(rs: seq<Member>, o: seq<bool>, n: nat): (e: seq<NotificationError>)
    requires |o| == |rs| && n <= |rs|
    ensures |e| == n - Successes(o, n)
  {
    if n == 0 then []
    else
      FailureRecords(rs, o, n - 1) +
        (if o[n - 1] then [] else [NotificationError(rs[n - 1].id, ChatOf(rs[n - 1]), SendFailed, SendFailedMessage)])
  }

  /** Every failure record names a failed recipient and carries the fixed
      kind and message. */
  lemma {:induction false} FailureRecordsDescribeFailures(rs: seq<Member>, o: seq<bool>, n: nat)
    requires |o| == |rs| && n <= |rs|
    ensures forall e :: e in FailureRecords(rs, o, n) ==>
      e.kind == SendFailed && e.message == SendFailedMessage &&
      exists i :: 0 <= i < n && !o[i] && rs[i].id == e.userId
  {
    if n > 0 {
      FailureRecordsDescribeFailures(rs, o, n - 1);
    }
  }

  /** A broadcast in which every recipient got the message records no
      error. */
  lemma {:induction false} AllSentNoRecords(rs: seq<Member>, o: seq<bool>, n: nat)
    requires |o| == |rs| && n <= |rs| && forall i :: 0 <= i < n ==> o[i]
    ensures Successes(o, n) == n && FailureRecords(rs, o, n) == []
  {
    if n > 0 {
      AllSentNoRecords(rs, o, n - 1);
    }
  }

  class Notification {
    var title: string
    var message: string
    var sendToAll: bool
    var chosen: seq<Member>
    var totalRecipients: nat
    var successfulSends: nat
    var failedSends: nat
    /** The error records of this notification, oldest first. */
    var errors: seq<NotificationError>

    constructor (title: string, message: string, sendToAll: bool, chosen: seq<Member>)
      ensures this.title == title && this.message == message
      ensures this.sendToAll == sendToAll && this.chosen == chosen
      ensures totalRecipients == 0 && successfulSends == 0 && failedSends == 0 && errors == []
    {
      this.title := title;
      this.message := message;
      this.sendToAll := sendToAll;
      this.chosen := chosen;
      totalRecipients := 0;
      successfulSends := 0;
      failedSends := 0;
      errors := [];
    }

    function Audience(everyone: seq<Member>): seq<Member>
      reads this
    {
      Recipients(sendToAll, everyone, chosen)
    }

    /** Sends the notification to each recipient once. Every failure adds
        one error record; the stored totals accumulate over broadcasts, the
        recipient total keeping the larger of the old and new counts. The
        summary reports this broadcast, and all the records so far. */
    method Broadcast(token: string, everyone: seq<Member>, replies: seq<Exchange>) returns (summary: Summary)
      requires |replies| == |Audience(everyone)|
      modifies this
      ensures var rs := old(Audience(everyone));
        var o := Outcomes(token, old(MessageFor(title, message)), rs, replies);
        summary == Summary(|rs|, Successes(o, |rs|), |rs| - Successes(o, |rs|), |errors|) &&
        errors == old(errors) + FailureRecords(rs, o, |rs|) &&
        totalRecipients == Max(old(totalRecipients), |rs|) &&
        successfulSends == old(successfulSends) + Successes(o, |rs|) &&
        failedSends == old(failedSends) + (|rs| - Successes(o, |rs|))
      ensures title == old(title) && message == old(message)
      ensures sendToAll == old(sendToAll) && chosen == old(chosen)
    {
      var rs := Audience(everyone);
      var text := MessageFor(title, message);
      summary := Deliver(token, text, rs, replies);
    }

    /** Sends a text to the recipients and records the outcome. */
    method Deliver(token: string, text: string, rs: seq<Member>, replies: seq<Exchange>) returns (summary: Summary)
      requires |replies| == |rs|
      modifies this
      ensures var o := Outcomes(token, text, rs, replies);
        summary == Summary(|rs|, Successes(o, |rs|), |rs| - Successes(o, |rs|), |errors|) &&
        errors == old(errors) + FailureRecords(rs, o, |rs|) &&
        totalRecipients == Max(old(totalRecipients), |rs|) &&
        successfulSends == old(successfulSends) + Successes(o, |rs|) &&
        failedSends == old(failedSends) + (|rs| - Successes(o, |rs|))
      ensures title == old(title) && message == old(message)
      ensures sendToAll == old(sendToAll) && chosen == old(chosen)
    {
      var successful, failed, records := SendAll(token, text, rs, replies);
      errors := errors + records;
      totalRecipients := Max(totalRecipients, |rs|);
      successfulSends := successfulSends + successful;
      failedSends := failedSends + failed;
      summary := Summary(|rs|, successful, failed, |errors|);
    }
  }

  /** The sending loop of a broadcast: each recipient gets the text once;
      the successes are counted and each failure is recorded. */
  method SendAll(token: string, text: string, rs: seq<Member>, replies: seq<Exchange>)
    returns (successful: nat, failed: nat, records: seq<NotificationError>)
    requires |replies| == |rs|
    ensures var o := Outcomes(token, text, rs, replies);
      successful == Successes(o, |rs|) && failed == |rs| - successful && records == FailureRecords(rs, o, |rs|)
  {
    ghost var o := Outcomes(token, text, rs, replies);
    successful, failed, records := 0, 0, [];
    var i := 0;
    while i < |rs|
      invariant 0 <= i <= |rs|
      invariant successful == Successes(o, i) && failed == i - successful
      invariant records == FailureRecords(rs, o, i)
    {
      var d := SendMessage(token, rs[i].telegramId, text, replies[i].first, replies[i].retry);
      if d.sent {
        successful := successful + 1;
      } else {
        failed := failed + 1;
        records := records + [NotificationError(rs[i].id, ChatOf(rs[i]), SendFailed, SendFailedMessage)];
      }
      i := i + 1;
    }
  }

  /** The counts of one broadcast add up to its recipients, and it adds
      exactly one error record per failure. */
  lemma BroadcastCountsAddUp(token: string, text: string, rs: seq<Member>, replies: seq<Exchange>)
    requires |replies| == |rs|
    ensures var o := Outcomes(token, text, rs, replies);
      Successes(o, |rs|) + |FailureRecords(rs, o, |rs|)| == |rs|
  {
  }
}
