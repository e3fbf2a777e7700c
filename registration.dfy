/** The Telegram bot's registration conversation: /start routing, the
    first name, last name, phone and email steps, the choice of an open
    position, and how the bot reads the list responses of the backend.
    Responses are JSON values handed in as inputs. */
module Registration {
  import opened Common

  /** A decoded JSON value. */
  datatype Json =
    | JNull
    | JBool(b: bool)
    | JInt(i: int)
    | JStr(s: string)
    | JList(items: seq<Json>)
    | JDict(entries: map<string, Json>)

  /** Python truthiness of a decoded value. */
  predicate Truthy(j: Json) {
    match j
    case JNull => false
    case JBool(b) => b
    case JInt(i) => i != 0
    case JStr(s) => s != []
    case JList(items) => items != []
    case JDict(entries) => entries != map[]
  }

  /** `d.get(key, default)`. */
  function Get(d: map<string, Json>, key: string, default: Json): (r: Json)
    ensures key in d ==> r == d[key]
    ensures key !in d ==> r == default
  {
    if key in d then d[key] else default
  }

  const TestsShown: nat := 5
  const ResultsShown: nat := 10

  // ---------------------------------------------------------------------
  // Reading list responses

  /** The entries of a list response: the `results` of a paginated dict,
      the list itself for a bare list, and nothing for anything else. */
  function Entries(data: Json): (r: seq<Json>)
    ensures data.JList? ==> r == data.items
    ensures data.JDict? && "results" in data.entries && data.entries["results"].JList? ==>
      r == data.entries["results"].items
    ensures data.JDict? && !("results" in data.entries && data.entries["results"].JList?) ==> r == []
    ensures !data.JList? && !data.JDict? ==> r == []
  {
    var found :=
      match data
      case JDict(d) =>
        if "results" in d then d["results"]
        else if "count" in d then Get(d, "results", JList([]))
        else JList([])
      case JList(_) => data
      case _ => JList([]);
    if found.JList? then found.items else []
  }

  /** A position the list offers: a dict whose `is_open` is truthy, or
      absent. */
  predicate ListedOpen(p: Json) {
    p.JDict? && Truthy(Get(p.entries, "is_open", JBool(true)))
  }

  /** The positions offered, in the order the backend sent them. */
  function OpenPositions(positions: seq<Json>): (r: seq<Json>)
    ensures |r| <= |positions|
    ensures forall k :: 0 <= k < |r| ==> ListedOpen(r[k])
  {
    if positions == [] then []
    else (if ListedOpen(positions[0]) then [positions[0]] else []) + OpenPositions(positions[1..])
  }

  lemma {:induction false} OpenPositionsMembers(positions: seq<Json>, p: Json)
    ensures p in OpenPositions(positions) <==> p in positions && ListedOpen(p)
  {
    if positions != [] {
      OpenPositionsMembers(positions[1..], p);
      assert positions == [positions[0]] + positions[1..];
    }
  }

  /** A position dict without `is_open` is offered; one whose flag is
      false is not. */
  lemma OpenByDefault(entries: map<string, Json>)
    ensures "is_open" !in entries ==> ListedOpen(JDict(entries))
    ensures "is_open" in entries && entries["is_open"] == JBool(false) ==> !ListedOpen(JDict(entries))
  {
  }

  /** A dict entry whose `id` is truthy gets a button. */
  predicate HasButton(j: Json) {
    j.JDict? && Truthy(Get(j.entries, "id", JNull))
  }

  /** The ids of the buttons for a list of entries, in order. */
  function ButtonIds(entries: seq<Json>): (r: seq<Json>)
    ensures |r| <= |entries|
    ensures forall k :: 0 <= k < |r| ==> Truthy(r[k])
  {
    if entries == [] then []
    else (if HasButton(entries[0]) then [entries[0].entries["id"]] else []) + ButtonIds(entries[1..])
  }

  /** The buttons of the test list: at most five, from the first five
      entries. */
  function TestButtons(tests: seq<Json>): (r: seq<Json>)
    ensures |r| <= TestsShown
    ensures r == ButtonIds(tests[..Min(|tests|, TestsShown)])
  {
    ButtonIds(tests[..Min(|tests|, TestsShown)])
  }

  /** The results listed: the dict entries among the first ten. */
  function ShownResults(results: seq<Json>): (r: seq<Json>)
    ensures |r| <= ResultsShown
    ensures forall k :: 0 <= k < |r| ==> r[k].JDict? && r[k] in results[..Min(|results|, ResultsShown)]
  {
    DictsIn(results[..Min(|results|, ResultsShown)])
  }

  function DictsIn(entries: seq<Json>): (r: seq<Json>)
    ensures |r| <= |entries|
    ensures forall k :: 0 <= k < |r| ==> r[k].JDict? && r[k] in entries
  {
    if entries == [] then []
    else (if entries[0].JDict? then [entries[0]] else []) + DictsIn(entries[1..])
  }

  /** The buttons of two lists in a row are the buttons of the first
      followed by those of the second. */
  lemma {:induction false} ButtonIdsAppend(a: seq<Json>, b: seq<Json>)
    ensures ButtonIds(a + b) == ButtonIds(a) + ButtonIds(b)
  {
    if a == [] {
      assert a + b == b;
    } else {
      assert (a + b)[1..] == a[1..] + b;
      ButtonIdsAppend(a[1..], b);
    }
  }

  /** Tests after the fifth never get a button. */
  lemma LaterTestsIgnored(tests: seq<Json>, more: seq<Json>)
    requires |tests| >= TestsShown
    ensures TestButtons(tests + more) == TestButtons(tests)
  {
    assert (tests + more)[..TestsShown] == tests[..TestsShown];
  }

  // ---------------------------------------------------------------------
  // /start

  datatype Route = WelcomeBack | Welcome | MainMenu

  /** A profile can skip registration when it has a phone, an email and a
      position. */
  predicate ProfileComplete(profile: map<string, Json>) {
    Truthy(Get(profile, "phone", JNull)) && Truthy(Get(profile, "email", JNull))
    && Truthy(Get(profile, "position", JNull))
  }

  /** Where /start sends a user, given the profile the backend returned. */
  function StartRoute(profile: Option<Json>): (r: Route)
    ensures r == MainMenu <==> profile.Some? && profile.value.JDict? && profile.value.entries != map[] && ProfileComplete(profile.value.entries)
  {
    if profile.Some? && Truthy(profile.value) && profile.value.JDict? then
      if ProfileComplete(profile.value.entries) then MainMenu else WelcomeBack
    else Welcome
  }

  // ---------------------------------------------------------------------
  // The conversation

  datatype Step = Idle | WaitingFirstName | WaitingLastName | WaitingPhone | WaitingEmail | SelectingPosition

  /** What the backend receives when registration completes. */
  datatype Applicant = Applicant(
    telegramId: int, firstName: Option<string>, lastName: Option<string>,
    phone: Option<string>, email: Option<string>, positionId: int)

  /** How a position choice ended. */
  datatype Choice = NotFound | Closed | Registered | Failed

  /** The phone a message gives: the shared contact's number when a
      contact is attached, otherwise the text; empty counts as none. */
  function PhoneOf(contactPhone: Option<string>, text: Option<string>): (r: Option<string>)
    ensures r.Some? ==> r.value != []
    ensures contactPhone.Some? && contactPhone.value != [] ==> r == contactPhone
    ensures contactPhone.Some? && contactPhone.value == [] ==> r.None?
    ensures contactPhone.None? && text.Some? && text.value != [] ==> r == text
    ensures contactPhone.None? && (text.None? || text.value == []) ==> r.None?
  {
    if contactPhone.Some? then (if contactPhone.value != [] then contactPhone else None)
    else if text.Some? && text.value != [] then text
    else None
  }

  predicate IsEmail(s: string) {
    '@' in s
  }

  class RegistrationChat {
    const telegramId: int
    var step: Step
    var firstName: Option<string>
    var lastName: Option<string>
    var phone: Option<string>
    var email: Option<string>
    /** The ids offered as position buttons. */
    var offered: seq<Json>
    /** Every registration sent to the backend, in order. */
    var sent: seq<Applicant>

    constructor (telegramId: int)
      ensures this.telegramId == telegramId && step == Idle && sent == []
      ensures firstName.None? && lastName.None? && phone.None? && email.None? && offered == []
    {
      this.telegramId := telegramId;
      step := Idle;
      firstName, lastName, phone, email := None, None, None, None;
      offered := [];
      sent := [];
    }

    /** The conversation state is dropped. */
    method Clear()
      modifies this
      ensures step == Idle && firstName.None? && lastName.None? && phone.None? && email.None?
      ensures offered == old(offered) && sent == old(sent)
    {
      step := Idle;
      firstName, lastName, phone, email := None, None, None, None;
    }

    /** /start: a complete profile goes to the main menu, anything else
        starts registration at the first name. */
    method Start(profile: Option<Json>) returns (route: Route)
      modifies this
      ensures route == StartRoute(profile)
      ensures route == MainMenu ==> step == old(step)
      ensures route != MainMenu ==> step == WaitingFirstName
      ensures firstName == old(firstName) && lastName == old(lastName) && phone == old(phone) && email == old(email)
      ensures sent == old(sent)
    {
      route := StartRoute(profile);
      if route != MainMenu {
        step := WaitingFirstName;
      }
    }

    method FirstNameGiven(text: Option<string>)
      requires step == WaitingFirstName
      modifies this
      ensures firstName == text && step == WaitingLastName
      ensures lastName == old(lastName) && phone == old(phone) && email == old(email) && sent == old(sent)
    {
      firstName := text;
      step := WaitingLastName;
    }

    method LastNameGiven(text: Option<string>)
      requires step == WaitingLastName
      modifies this
      ensures lastName == text && step == WaitingPhone
      ensures firstName == old(firstName) && phone == old(phone) && email == old(email) && sent == old(sent)
    {
      lastName := text;
      step := WaitingPhone;
    }

    /** A phone step message advances only when it yields a phone. */
    method PhoneGiven(contactPhone: Option<string>, text: Option<string>) returns (accepted: bool)
      requires step == WaitingPhone
      modifies this
      ensures accepted <==> PhoneOf(contactPhone, text).Some?
      ensures accepted ==> phone == PhoneOf(contactPhone, text) && step == WaitingEmail
      ensures !accepted ==> phone == old(phone) && step == WaitingPhone
      ensures firstName == old(firstName) && lastName == old(lastName) && email == old(email) && sent == old(sent)
    {
      var given := PhoneOf(contactPhone, text);
      accepted := given.Some?;
      if accepted {
        phone := given;
        step := WaitingEmail;
      }
    }

    /** An email step message: one without "@" is refused and the step
        stays; one with it is stored and the open positions are offered.
        A failed position request, or no position to offer, ends the
        conversation. */
    method EmailGiven(text: string, positions: Option<Json>) returns (accepted: bool)
      requires step == WaitingEmail
      modifies this
      ensures accepted <==> IsEmail(text)
      ensures !accepted ==> step == WaitingEmail && email == old(email) && offered == old(offered)
      ensures accepted && positions.Some? && OpenPositions(Entries(positions.value)) != [] ==>
        step == SelectingPosition && email == Some(text) &&
        offered == ButtonIds(OpenPositions(Entries(positions.value))) &&
        firstName == old(firstName) && lastName == old(lastName) && phone == old(phone)
      ensures accepted && (positions.None? || OpenPositions(Entries(positions.value)) == []) ==>
        step == Idle && email.None? && firstName.None?
      ensures sent == old(sent)
    {
      accepted := IsEmail(text);
      if !accepted {
        return;
      }
      email := Some(text);
      if positions.None? {
        Clear();
        return;
      }
      var open := OpenPositions(Entries(positions.value));
      if open == [] {
        Clear();
        return;
      }
      offered := ButtonIds(open);
      step := SelectingPosition;
    }

    /** A position button. The position is looked up again: a missing one
        or one not marked open (the flag defaults to closed here) is
        refused; otherwise the collected answers are sent with it. The
        conversation state is dropped in every case. */
    method PositionChosen(positionId: int, details: Option<Json>, saved: bool) returns (choice: Choice)
      modifies this
      ensures details.None? || !details.value.JDict? ==> choice == NotFound && sent == old(sent)
      ensures details.Some? && details.value.JDict? && !Truthy(Get(details.value.entries, "is_open", JBool(false))) ==>
        choice == Closed && sent == old(sent)
      ensures details.Some? && details.value.JDict? && Truthy(Get(details.value.entries, "is_open", JBool(false))) ==>
        sent == old(sent) + [Applicant(telegramId, old(firstName), old(lastName), old(phone), old(email), positionId)] &&
        choice == (if saved then Registered else Failed)
      ensures step == Idle && firstName.None? && lastName.None? && phone.None? && email.None?
    {
      if details.None? || !details.value.JDict? {
        choice := NotFound;
      } else if !Truthy(Get(details.value.entries, "is_open", JBool(false))) {
        choice := Closed;
      } else {
        sent := sent + [Applicant(telegramId, firstName, lastName, phone, email, positionId)];
        choice := if saved then Registered else Failed;
      }
      Clear();
    }
  }

  /** Registration as a whole: a user who gives a first name, a last name,
      a phone and a valid email and then picks an open position is sent
      to the backend with exactly those answers. */
  method Register(chat: RegistrationChat, first: string, last: string, contactPhone: string,
                  address: string, positions: Json, positionId: int, details: map<string, Json>)
    returns (choice: Choice)
    requires chat.step == WaitingFirstName && contactPhone != [] && IsEmail(address)
    requires OpenPositions(Entries(positions)) != [] && Truthy(Get(details, "is_open", JBool(false)))
    modifies chat
    ensures chat.sent == old(chat.sent) + [Applicant(chat.telegramId, Some(first), Some(last), Some(contactPhone), Some(address), positionId)]
    ensures choice == Registered
    ensures chat.step == Idle
  {
    chat.FirstNameGiven(Some(first));
    chat.LastNameGiven(Some(last));
    var phoneAccepted := chat.PhoneGiven(Some(contactPhone), None);
    var emailAccepted := chat.EmailGiven(address, Some(positions));
    choice := chat.PositionChosen(positionId, Some(JDict(details)), true);
  }
}
