/** The command loop of main.py: classifying a line of input, the four command
    handlers, the free-form fallback to the language model, and the read loop
    that runs until 'exit' or an interrupt. Printing is modelled as the list of
    printed lines; the memory file is the one Memory.MemoryStore. */
module PersonalAgent {
  import opened Text
  import opened Outcomes
  import opened Memory
  import Cal = CalendarIntegration
  import Gmail = GmailIntegration

  // ---------------------------------------------------------------------
  // Classification (process_user_input)

  datatype Command = EmailList | EmailSend | CalendarAdd | CalendarList | Freeform

  /** Whether the lower-cased input asks for the email list: one of the three
      phrases occurs anywhere in it. */
  predicate AsksForEmails(low: string)
  {
    Contains(low, "list email") || Contains(low, "show email") || Contains(low, "get email")
  }

  /** process_user_input's decision, on the lower-cased input. */
  function Classify(input: string): Command
  {
    var low := Lower(input);
    if AsksForEmails(low) then EmailList
    else if StartsWith(low, "send email") then EmailSend
    else if StartsWith(low, "add event") then CalendarAdd
    else if StartsWith(low, "list events") then CalendarList
    else Freeform
  }

  /** The same decision read as an ordered rule list: the first rule whose
      test passes picks the command, Freeform when none does. */
  datatype Test = Anywhere(phrase: string) | AtStart(phrase: string)

  datatype Rule = Rule(test: Test, command: Command)

  const CommandRules: seq<Rule> := [
    Rule(Anywhere("list email"), EmailList),
    Rule(Anywhere("show email"), EmailList),
    Rule(Anywhere("get email"), EmailList),
    Rule(AtStart("send email"), EmailSend),
    Rule(AtStart("add event"), CalendarAdd),
    Rule(AtStart("list events"), CalendarList)
  ]

  predicate Passes(t: Test, low: string)
  {
    match t
    case Anywhere(p) => Contains(low, p)
    case AtStart(p) => StartsWith(low, p)
  }

  predicate FirstRuleAt(low: string, i: int)
  {
    0 <= i < |CommandRules| && Passes(CommandRules[i].test, low)
    && forall j :: 0 <= j < i ==> !Passes(CommandRules[j].test, low)
  }

  /** Classify is exactly the rule list applied in order. */
  lemma ClassifyByRules(input: string)
    ensures var low := Lower(input);
      (exists i :: FirstRuleAt(low, i) && Classify(input) == CommandRules[i].command)
      || ((forall j :: 0 <= j < |CommandRules| ==> !Passes(CommandRules[j].test, low))
          && Classify(input) == Freeform)
  {
    var low := Lower(input);
    var rs := CommandRules;
    if Passes(rs[0].test, low) {
      assert FirstRuleAt(low, 0);
    } else if Passes(rs[1].test, low) {
      assert FirstRuleAt(low, 1);
    } else if Passes(rs[2].test, low) {
      assert FirstRuleAt(low, 2);
    } else if Passes(rs[3].test, low) {
      assert FirstRuleAt(low, 3);
    } else if Passes(rs[4].test, low) {
      assert FirstRuleAt(low, 4);
    } else if Passes(rs[5].test, low) {
      assert FirstRuleAt(low, 5);
    } else {
      assert forall j :: 0 <= j < |rs| ==> !Passes(rs[j].test, low) by {
        forall j | 0 <= j < |rs| ensures !Passes(rs[j].test, low) {
          assert j in {0, 1, 2, 3, 4, 5};
        }
      }
    }
  }

  /** Commands are recognised in any letter case. */
  lemma ClassifyIgnoresCase(input: string)
    ensures Classify(Lower(input)) == Classify(input)
  {
    LowerIdempotent(input);
  }

  /** The listing phrases win over every prefix: any input that mentions
      "list email", "show email" or "get email", in any letter case and
      anywhere, lists the inbox, even one that starts with "send email",
      "add event" or "list events". */
  lemma ListingPhraseWins(input: string)
    requires Contains(Lower(input), "list email") || Contains(Lower(input), "show email")
             || Contains(Lower(input), "get email")
    ensures Classify(input) == EmailList
  {
  }

  /** For instance, a send command whose subject mentions "list emails". */
  lemma SendCommandMentioningListing()
    ensures Classify("Send Email|a@b.c|list emails|hi") == EmailList
  {
    var low := Lower("Send Email|a@b.c|list emails|hi");
    assert low[17..27] == "list email";
    assert OccursAt(low, "list email", 17);
    ContainsAt(low, "list email");
    ListingPhraseWins("Send Email|a@b.c|list emails|hi");
  }

  /** A plain "list events" is the calendar listing, not the email listing. */
  lemma ListEventsIsCalendar()
    ensures Classify("List Events") == CalendarList
  {
    LowerListEvents();
    ClassifyListEvents("List Events");
  }

  lemma LowerListEvents()
    ensures Lower("List Events") == "list events"
  {
  }

  lemma ClassifyListEvents(input: string)
    requires Lower(input) == "list events"
    ensures Classify(input) == CalendarList
  {
    ListEventsTests(Lower(input));
  }

  /** "list events" passes only the test of the calendar-list rule. */
  lemma ListEventsTests(s: string)
    requires s == "list events"
    ensures !AsksForEmails(s) && !StartsWith(s, "send email") && !StartsWith(s, "add event")
    ensures StartsWith(s, "list events")
  {
    assert !StartsWith(s, "send email") by { assert s[0] != "send email"[0]; }
    assert !StartsWith(s, "add event") by { assert s[0] != "add event"[0]; }
    assert s[..11] == s;
    NotListEmail(s, "list email");
    NotListEmail(s, "show email");
    NotGetEmail(s);
  }

  lemma NotListEmail(s: string, p: string)
    requires s == "list events"
    requires p == "list email" || p == "show email"
    ensures !Contains(s, p)
  {
    assert s[..10] != p by { assert s[9] != p[9]; }
    assert s[1..][..10] != p by { assert s[1] != p[0]; }
    ShortNotContains(s[1..][1..], p);
  }

  lemma NotGetEmail(s: string)
    requires s == "list events"
    ensures !Contains(s, "get email")
  {
    var p := "get email";
    assert s[..9] != p by { assert s[0] != p[0]; }
    assert s[1..][..9] != p by { assert s[1] != p[0]; }
    assert s[1..][1..][..9] != p by { assert s[2] != p[0]; }
    assert !Contains(s[1..][1..][1..], p) by { ShortNotContains(s[1..][1..][1..], p); }
    assert !Contains(s[1..][1..], p);
    assert !Contains(s[1..], p);
  }

  // ---------------------------------------------------------------------
  // Collaborators

  datatype Services = Services(
    agent: (string, string) -> string,          // run_agent(user_input, context); never raises
    send: (string, string, string) -> Result<()>, // send_email(to, subject, body)
    mail: Gmail.Mailbox,
    calendar: Cal.CalendarApi)

  /** What a handler prints and the exchange, if any, it writes to memory. */
  datatype Reply = Reply(lines: seq<string>, record: Option<(string, string)>)

  /** The memory file after a reply: one update_memory call, or none. */
  function Recorded(f: MemoryFile, record: Option<(string, string)>): MemoryFile
  {
    if record.Some? then Updated(f, record.value.0, record.value.1) else f
  }

  // ---------------------------------------------------------------------
  // handle_email_send

  const SendUsage := "Please use format: send email|to@example.com|Subject|Message"
  const SentText := "Email sent successfully!"

  function EmailSendReply(input: string, svc: Services): Reply
  {
    var msg := SendMessage(input, svc);
    Reply(["Agent: " + msg], if |Split(input, '|')| != 4 then None else Some((input, msg)))
  }

  /** The text after "Agent: " in handle_email_send's one printed line: the
      usage for a malformed command, else the outcome of the send. */
  function SendMessage(input: string, svc: Services): string
  {
    var parts := Split(input, '|');
    if |parts| != 4 then SendUsage
    else match svc.send(Strip(parts[1]), Strip(parts[2]), Strip(parts[3]))
      case Ok(_) => SentText
      case Err(f) => "Failed to send email: " + f.detail
  }

  /** A send command without exactly four '|'-fields prints the usage, sends
      nothing (the reply is the same whatever the mail service does) and
      records nothing. */
  lemma EmailSendMalformed(input: string, svc: Services, other: Services)
    requires Count(input, '|') != 3
    ensures EmailSendReply(input, svc) == EmailSendReply(input, other) == Reply(["Agent: " + SendUsage], None)
  {
    SplitCount(input, '|');
  }

  /** A well-formed send ("send email|to|subject|body", or any other command
      word without '|') passes the stripped fields and records the input
      together with the outcome. */
  lemma EmailSendWellFormed(cmd: string, to: string, subject: string, body: string, svc: Services)
    requires '|' !in cmd && '|' !in to && '|' !in subject && '|' !in body
    ensures var input := cmd + "|" + to + "|" + subject + "|" + body;
      var r := EmailSendReply(input, svc);
      var sent := svc.send(Strip(to), Strip(subject), Strip(body));
      (sent.Ok? ==> r == Reply(["Agent: Email sent successfully!"], Some((input, SentText))))
      && (sent.Err? ==> r.record == Some((input, "Failed to send email: " + sent.fault.detail)))
  {
    SplitFour(cmd, to, subject, body, '|');
    assert "Agent: " + SentText == "Agent: Email sent successfully!";
  }

  method HandleEmailSend(store: MemoryStore, input: string, svc: Services) returns (lines: seq<string>)
    modifies store
    ensures lines == EmailSendReply(input, svc).lines
    ensures store.file == Recorded(old(store.file), EmailSendReply(input, svc).record)
  {
    var parts := Split(input, '|');
    if |parts| != 4 {
      lines := ["Agent: " + SendUsage];
      return;
    }
    var sent := svc.send(Strip(parts[1]), Strip(parts[2]), Strip(parts[3]));
    if sent.Ok? {
      lines := ["Agent: " + SentText];
      store.UpdateMemory(input, SentText);
    } else {
      var errorMsg := "Failed to send email: " + sent.fault.detail;
      lines := ["Agent: " + errorMsg];
      store.UpdateMemory(input, errorMsg);
    }
  }

  // ---------------------------------------------------------------------
  // handle_email_list

  /** The handlers ask for five messages or events. */
  const HandlerMaxResults: nat := 5

  const EmailListKey := "list emails"
  const EmailListDone := "Listed recent emails successfully"

  /** The four lines printed for the idx-th email (numbered from 1). */
  function EmailBlock(idx: nat, e: Gmail.EmailDetails): seq<string>
  {
    ["\n" + NatToString(idx) + ". From: " + e.sender,
     "   Subject: " + e.subject,
     "   Date: " + e.date,
     "   Preview: " + e.snippet]
  }

  /** The blocks of all the listed emails, in order. */
  function EmailBlocks(es: seq<Gmail.EmailDetails>): seq<string>
  {
    if |es| == 0 then [] else EmailBlocks(es[..|es| - 1]) + EmailBlock(|es|, es[|es| - 1])
  }

  /** Every email gets four lines, numbered from 1 in list order. */
  lemma {:induction false} EmailBlocksLayout(es: seq<Gmail.EmailDetails>)
    ensures |EmailBlocks(es)| == 4 * |es|
    ensures forall k :: 0 <= k < |es| ==> EmailBlocks(es)[4 * k..4 * k + 4] == EmailBlock(k + 1, es[k])
    decreases |es|
  {
    if |es| > 0 {
      var init := es[..|es| - 1];
      EmailBlocksLayout(init);
      var bs := EmailBlocks(es);
      forall k | 0 <= k < |es| ensures bs[4 * k..4 * k + 4] == EmailBlock(k + 1, es[k]) {
        if k < |init| {
          assert bs[4 * k..4 * k + 4] == EmailBlocks(init)[4 * k..4 * k + 4];
          assert init[k] == es[k];
        }
      }
    }
  }

  function EmailListReply(svc: Services): Reply
  {
    match Gmail.RecentEmails(HandlerMaxResults, svc.mail)
    case Err(f) =>
      var msg := "Failed to list emails: " + f.detail;
      Reply(["Agent: " + msg], Some((EmailListKey, msg)))
    case Ok(es) =>
      if |es| == 0 then Reply(["Agent: No emails found."], None)
      else Reply(["Agent: Here are your recent emails:"] + EmailBlocks(es), Some((EmailListKey, EmailListDone)))
  }

  method HandleEmailList(store: MemoryStore, svc: Services) returns (lines: seq<string>)
    modifies store
    ensures lines == EmailListReply(svc).lines
    ensures store.file == Recorded(old(store.file), EmailListReply(svc).record)
  {
    var emails := Gmail.ListRecentEmails(HandlerMaxResults, svc.mail);
    if emails.Err? {
      var errorMsg := "Failed to list emails: " + emails.fault.detail;
      lines := ["Agent: " + errorMsg];
      store.UpdateMemory(EmailListKey, errorMsg);
      return;
    }
    var es := emails.value;
    if |es| == 0 {
      lines := ["Agent: No emails found."];
      return;
    }
    lines := ["Agent: Here are your recent emails:"];
    var idx := 0;
    while idx < |es|
      invariant 0 <= idx <= |es|
      invariant lines == ["Agent: Here are your recent emails:"] + EmailBlocks(es[..idx])
    {
      assert es[..idx + 1][..idx] == es[..idx];
      lines := lines + EmailBlock(idx + 1, es[idx]);
      idx := idx + 1;
    }
    assert es[..idx] == es;
    store.UpdateMemory(EmailListKey, EmailListDone);
  }

  // ---------------------------------------------------------------------
  // handle_calendar_add

  const AddUsage := "Please use format: add event|Summary|YYYY-MM-DD|HH:MM|[location]|[description]"

  /** The optional fifth and sixth fields, unstripped. */
  function Extra(parts: seq<string>, k: nat): Option<string>
  {
    if |parts| > 4 + k then Some(parts[4 + k]) else None
  }

  /** Parse the stripped date and time, then add the event with the stripped
      summary and the optional location and description. */
  function AddOutcome(parts: seq<string>, cal: Cal.CalendarApi): Result<string>
    requires |parts| >= 4
  {
    match Cal.ParseDateTime(Strip(parts[2]), Some(Strip(parts[3])))
    case Err(f) => Err(f)
    case Ok(start) => Cal.AddEvent(Strip(parts[1]), start, None, Extra(parts, 1), Extra(parts, 0), cal)
  }

  function CalendarAddReply(input: string, svc: Services): Reply
  {
    var parts := Split(input, '|');
    if |parts| < 4 then Reply(["Agent: " + AddUsage], None)
    else match AddOutcome(parts, svc.calendar)
      case Ok(result) => Reply(["Agent: " + result], Some((input, result)))
      case Err(f) =>
        var msg := "Failed to add event: " + f.detail;
        Reply(["Agent: " + msg], Some((input, msg)))
  }

  /** Fewer than four fields: the usage line, no calendar call, no record. */
  lemma CalendarAddMalformed(input: string, svc: Services, other: Services)
    requires Count(input, '|') < 3
    ensures CalendarAddReply(input, svc) == CalendarAddReply(input, other) == Reply(["Agent: " + AddUsage], None)
  {
    SplitCount(input, '|');
  }

  /** A date or time that does not parse ("2025-02-30", "9am") is printed and
      recorded as "Failed to add event: " + the error; the calendar is never
      called, so the reply is the same whatever the services do. */
  lemma CalendarAddBadDate(input: string, svc: Services, other: Services)
    requires |Split(input, '|')| >= 4
    requires var parts := Split(input, '|');
      Cal.ParseDateTime(Strip(parts[2]), Some(Strip(parts[3]))).Err?
    ensures var parts := Split(input, '|');
      var msg := "Failed to add event: " + Cal.ParseDateTime(Strip(parts[2]), Some(Strip(parts[3]))).fault.detail;
      CalendarAddReply(input, svc) == CalendarAddReply(input, other) == Reply(["Agent: " + msg], Some((input, msg)))
  {
    var parts := Split(input, '|');
    var r := Cal.ParseDateTime(Strip(parts[2]), Some(Strip(parts[3])));
    assert AddOutcome(parts, svc.calendar) == Err(r.fault);
    assert AddOutcome(parts, other.calendar) == Err(r.fault);
  }

  /** The fifth and sixth fields become the location and the description as
      typed, blanks included (only summary, date and time are stripped); any
      further fields are ignored. With the calendar reachable, the reply is
      the link of the inserted body or the NameError. */
  lemma AddKeepsExtrasVerbatim(parts: seq<string>, cal: Cal.CalendarApi)
    requires |parts| >= 4 && cal.connect.None?
    requires Cal.ParseDateTime(Strip(parts[2]), Some(Strip(parts[3]))).Ok?
    ensures var start := Cal.ParseDateTime(Strip(parts[2]), Some(Strip(parts[3]))).value;
      var location := if |parts| > 4 then Some(parts[4]) else None;
      var description := if |parts| > 5 then Some(parts[5]) else None;
      var b := Cal.NewEventBody(Strip(parts[1]), start, None, description, location);
      b.Ok?
      && b.value.summary == Strip(parts[1]) && b.value.location == location && b.value.description == description
        && AddOutcome(parts, cal) == (if cal.insert(b.value).Ok? then Ok("Event created: " + cal.insert(b.value).value)
                                      else Err(Cal.UnimportedHttpError))
  {
    var start := Cal.ParseDateTime(Strip(parts[2]), Some(Strip(parts[3]))).value;
    var location := if |parts| > 4 then Some(parts[4]) else None;
    var description := if |parts| > 5 then Some(parts[5]) else None;
    assert Extra(parts, 0) == location && Extra(parts, 1) == description;
    Cal.NewEventBodyDefaults(Strip(parts[1]), start, description, location);
    Cal.ParsedStartHasEnd(Strip(parts[2]), Some(Strip(parts[3])));
  }

  /** The fields of an add command parse to r as the start and give no
      location and no description. */
  predicate StartsAt(parts: seq<string>, r: Result<Cal.DateTime>)
  {
    |parts| == 4
    && Cal.ParseDateTime(Strip(parts[2]), Some(Strip(parts[3]))) == r
    && Extra(parts, 0) == None && Extra(parts, 1) == None
  }

  /** "add event|S|YYYY-MM-DD|" (an empty time field; any command word
      without '|') schedules the event at 09:00 of that day, with no location
      or description; on the first and the last day a datetime can hold the
      start fails with localize's overflow. */
  lemma {:induction false} CalendarAddDefaultsToNine(cmd: string, summary: string, y: int, m: int, d: int)
    requires '|' !in cmd && '|' !in summary
    requires Cal.ValidDate(y, m, d)
    ensures StartsAt(Split(cmd + "|" + summary + "|" + Cal.DateText(y, m, d) + "|", '|'),
                     if Cal.EdgeDay(y, m, d) then Err(Cal.OutOfRange) else Ok(Cal.DateTime(y, m, d, 9, 0)))
  {
    var date := Cal.DateText(y, m, d);
    var r: Result<Cal.DateTime> := if Cal.EdgeDay(y, m, d) then Err(Cal.OutOfRange) else Ok(Cal.DateTime(y, m, d, 9, 0));
    Cal.DateAtNine(y, m, d);
    assert '|' !in date;
    assert Strip(date) == date;
    assert Cal.ParseDateTime(date, Some("")) == r;
    AddAtTime(cmd, summary, date, r);
  }

  /** An add command whose time field is empty and whose date field parses
      (with an empty time) to r has r as its start, with no location or
      description. */
  lemma AddAtTime(cmd: string, summary: string, date: string, r: Result<Cal.DateTime>)
    requires '|' !in cmd && '|' !in summary && '|' !in date && Strip(date) == date
    requires Cal.ParseDateTime(date, Some("")) == r
    ensures StartsAt(Split(cmd + "|" + summary + "|" + date + "|", '|'), r)
  {
    SplitTrailing(cmd, summary, date, '|');
    assert Strip("") == "";
  }

  method HandleCalendarAdd(store: MemoryStore, input: string, svc: Services) returns (lines: seq<string>)
    modifies store
    ensures lines == CalendarAddReply(input, svc).lines
    ensures store.file == Recorded(old(store.file), CalendarAddReply(input, svc).record)
  {
    var parts := Split(input, '|');
    if |parts| < 4 {
      lines := ["Agent: " + AddUsage];
      return;
    }
    var result := AddOutcome(parts, svc.calendar);
    if result.Ok? {
      lines := ["Agent: " + result.value];
      store.UpdateMemory(input, result.value);
    } else {
      var errorMsg := "Failed to add event: " + result.fault.detail;
      lines := ["Agent: " + errorMsg];
      store.UpdateMemory(input, errorMsg);
    }
  }

  // ---------------------------------------------------------------------
  // handle_calendar_list

  const EventListKey := "list events"
  const EventListDone := "Listed upcoming events successfully"

  /** What the loop prints up to the first failure, and the failure. */
  datatype Printed = Printed(lines: seq<string>, failure: Option<Fault>)

  /** The lines for the idx-th event: format_event_time first, then
      event['summary'] (a KeyError when absent), then the location when it is
      present and not empty. */
  function EventEntry(idx: nat, ev: Cal.CalendarEvent, cal: Cal.CalendarApi): Result<seq<string>>
  {
    match Cal.FormatEventTime(ev, cal)
    case Err(f) => Err(f)
    case Ok(time) =>
      if ev.summary.None? then Err(OtherError("'summary'"))
      else
        Ok([NatToString(idx) + ". " + ev.summary.value + " - " + time]
           + (if ev.location.Some? && ev.location.value != "" then ["   Location: " + ev.location.value] else []))
  }

  /** The enumerate loop over the events, numbered from 1, stopping at the
      first failure. */
  function EventEntries(evs: seq<Cal.CalendarEvent>, cal: Cal.CalendarApi): Printed
  {
    if |evs| == 0 then Printed([], None)
    else
      var before := EventEntries(evs[..|evs| - 1], cal);
      if before.failure.Some? then before
      else match EventEntry(|evs|, evs[|evs| - 1], cal)
        case Err(f) => Printed(before.lines, Some(f))
        case Ok(ls) => Printed(before.lines + ls, None)
  }

  /** The loop fails exactly when some event's entry fails, and then it fails
      with the first such event's failure. */
  lemma EventEntriesFailure(evs: seq<Cal.CalendarEvent>, cal: Cal.CalendarApi)
    ensures EventEntries(evs, cal).failure.None? <==> forall k :: 0 <= k < |evs| ==> EventEntry(k + 1, evs[k], cal).Ok?
    ensures EventEntries(evs, cal).failure.Some? ==>
      exists k :: 0 <= k < |evs| && EventEntry(k + 1, evs[k], cal) == Err(EventEntries(evs, cal).failure.value)
               && forall j :: 0 <= j < k ==> EventEntry(j + 1, evs[j], cal).Ok?
  {
    EventEntriesSucceed(evs, cal);
    if EventEntries(evs, cal).failure.Some? {
      var k := FirstFailure(evs, cal);
    }
  }

  lemma {:induction false} EventEntriesSucceed(evs: seq<Cal.CalendarEvent>, cal: Cal.CalendarApi)
    ensures EventEntries(evs, cal).failure.None? <==> forall k :: 0 <= k < |evs| ==> EventEntry(k + 1, evs[k], cal).Ok?
    decreases |evs|
  {
    if |evs| > 0 {
      var n := |evs| - 1;
      var init := evs[..n];
      EventEntriesSucceed(init, cal);
      assert forall k :: 0 <= k < n ==> init[k] == evs[k];
      var before := EventEntries(init, cal);
      var last := EventEntry(n + 1, evs[n], cal);
      if before.failure.Some? {
        assert EventEntries(evs, cal) == before;
        var k :| 0 <= k < n && !EventEntry(k + 1, init[k], cal).Ok?;
        assert !EventEntry(k + 1, evs[k], cal).Ok?;
      } else if last.Err? {
        assert EventEntries(evs, cal).failure == Some(last.fault);
      } else {
        assert EventEntries(evs, cal).failure == None;
        assert forall k :: 0 <= k < n ==> EventEntry(k + 1, evs[k], cal).Ok?;
      }
    }
  }

  /** The index of the event whose entry ended a failed loop: its entry is
      the failure and every earlier entry succeeded. */
  lemma {:induction false} FirstFailure(evs: seq<Cal.CalendarEvent>, cal: Cal.CalendarApi) returns (k: nat)
    requires EventEntries(evs, cal).failure.Some?
    ensures k < |evs| && EventEntry(k + 1, evs[k], cal) == Err(EventEntries(evs, cal).failure.value)
    ensures forall j :: 0 <= j < k ==> EventEntry(j + 1, evs[j], cal).Ok?
    decreases |evs|
  {
    var n := |evs| - 1;
    var init := evs[..n];
    var before := EventEntries(init, cal);
    if before.failure.Some? {
      assert EventEntries(evs, cal) == before;
      k := FirstFailure(init, cal);
      assert init[k] == evs[k];
      assert forall j :: 0 <= j < k ==> init[j] == evs[j];
    } else {
      EventEntriesSucceed(init, cal);
      assert forall j :: 0 <= j < n ==> init[j] == evs[j];
      k := n;
    }
  }

  /** Once the loop has failed on a prefix, the events after it are never
      looked at. */
  lemma {:induction false} EventEntriesStop(evs: seq<Cal.CalendarEvent>, n: nat, cal: Cal.CalendarApi)
    requires n <= |evs|
    requires EventEntries(evs[..n], cal).failure.Some?
    ensures EventEntries(evs, cal) == EventEntries(evs[..n], cal)
    decreases |evs| - n
  {
    if n < |evs| {
      assert evs[..|evs| - 1][..n] == evs[..n];
      EventEntriesStop(evs[..|evs| - 1], n, cal);
    } else {
      assert evs[..n] == evs;
    }
  }

  /** A failed loop has printed exactly the entries before the failing event:
      for the k of the first failure, the entries of events 1..k all succeed,
      their lines are all that was printed, and event k + 1 failed. */
  lemma EventEntriesPrintBeforeFailure(evs: seq<Cal.CalendarEvent>, cal: Cal.CalendarApi) returns (k: nat)
    requires EventEntries(evs, cal).failure.Some?
    ensures k < |evs| && EventEntry(k + 1, evs[k], cal) == Err(EventEntries(evs, cal).failure.value)
    ensures EventEntries(evs[..k], cal).failure.None?
    ensures EventEntries(evs, cal).lines == EventEntries(evs[..k], cal).lines
  {
    k := FirstFailure(evs, cal);
    var init := evs[..k];
    assert forall j :: 0 <= j < k ==> init[j] == evs[j];
    EventEntriesSucceed(init, cal);
    var upto := evs[..k + 1];
    assert upto[..k] == init && upto[k] == evs[k];
    assert EventEntries(upto, cal) == Printed(EventEntries(init, cal).lines, Some(EventEntries(evs, cal).failure.value));
    EventEntriesStop(evs, k + 1, cal);
  }

  function CalendarListReply(svc: Services): Reply
  {
    match Cal.ListUpcomingEvents(HandlerMaxResults, Cal.DefaultDaysAhead, svc.calendar)
    case Err(f) =>
      var msg := "Failed to list events: " + f.detail;
      Reply(["Agent: " + msg], Some((EventListKey, msg)))
    case Ok(evs) =>
      if |evs| == 0 then Reply(["Agent: No upcoming events found."], None)
      else
        var p := EventEntries(evs, svc.calendar);
        var header := ["Agent: Here are your upcoming events:"];
        if p.failure.Some? then
          var msg := "Failed to list events: " + p.failure.value.detail;
          Reply(header + p.lines + ["Agent: " + msg], Some((EventListKey, msg)))
        else Reply(header + p.lines, Some((EventListKey, EventListDone)))
  }

  method HandleCalendarList(store: MemoryStore, svc: Services) returns (lines: seq<string>)
    modifies store
    ensures lines == CalendarListReply(svc).lines
    ensures store.file == Recorded(old(store.file), CalendarListReply(svc).record)
  {
    var events := Cal.ListUpcomingEvents(HandlerMaxResults, Cal.DefaultDaysAhead, svc.calendar);
    if events.Err? {
      var errorMsg := "Failed to list events: " + events.fault.detail;
      lines := ["Agent: " + errorMsg];
      store.UpdateMemory(EventListKey, errorMsg);
      return;
    }
    var evs := events.value;
    if |evs| == 0 {
      lines := ["Agent: No upcoming events found."];
      return;
    }
    var header := ["Agent: Here are your upcoming events:"];
    var printed: seq<string> := [];
    var idx := 0;
    while idx < |evs|
      invariant 0 <= idx <= |evs|
      invariant EventEntries(evs[..idx], svc.calendar).failure.None?
      invariant printed == EventEntries(evs[..idx], svc.calendar).lines
    {
      assert evs[..idx + 1][..idx] == evs[..idx];
      var entry := EventEntry(idx + 1, evs[idx], svc.calendar);
      if entry.Err? {
        EventEntriesStop(evs, idx + 1, svc.calendar);
        var errorMsg := "Failed to list events: " + entry.fault.detail;
        lines := header + printed + ["Agent: " + errorMsg];
        store.UpdateMemory(EventListKey, errorMsg);
        return;
      }
      printed := printed + entry.value;
      idx := idx + 1;
    }
    assert evs[..idx] == evs;
    lines := header + printed;
    store.UpdateMemory(EventListKey, EventListDone);
  }

  // ---------------------------------------------------------------------
  // process_user_input

  function FreeformReply(input: string, context: string, svc: Services): Reply
  {
    var response := svc.agent(input, context);
    Reply(["Agent: " + response], Some((input, response)))
  }

  function Dispatch(input: string, context: string, svc: Services): Reply
  {
    match Classify(input)
    case EmailList => EmailListReply(svc)
    case EmailSend => EmailSendReply(input, svc)
    case CalendarAdd => CalendarAddReply(input, svc)
    case CalendarList => CalendarListReply(svc)
    case Freeform => FreeformReply(input, context, svc)
  }

  /** When each command writes to memory and with which user text: the list
      commands record a fixed text whatever the input was, and only when they
      found something or failed; malformed commands record nothing; free-form
      input is recorded as typed, with the model's answer verbatim. Every reply
      starts with a line addressed from the agent. */
  lemma DispatchRecord(input: string, context: string, svc: Services)
    ensures var r := Dispatch(input, context, svc);
      var parts := Split(input, '|');
      |r.lines| >= 1 && StartsWith(r.lines[0], "Agent: ")
      && match Classify(input)
        case EmailList =>
          (r.record.None? <==> Gmail.RecentEmails(HandlerMaxResults, svc.mail) == Ok([]))
          && (r.record.Some? ==> r.record.value.0 == EmailListKey)
        case EmailSend =>
          (r.record.None? <==> |parts| != 4) && (r.record.Some? ==> r.record.value.0 == input)
        case CalendarAdd =>
          (r.record.None? <==> |parts| < 4) && (r.record.Some? ==> r.record.value.0 == input)
        case CalendarList =>
          (r.record.None? <==> Cal.ListUpcomingEvents(HandlerMaxResults, Cal.DefaultDaysAhead, svc.calendar) == Ok([]))
          && (r.record.Some? ==> r.record.value.0 == EventListKey)
        case Freeform =>
          r == Reply(["Agent: " + svc.agent(input, context)], Some((input, svc.agent(input, context))))
  {
    match Classify(input)
    case EmailList => EmailListRecord(svc);
    case EmailSend => EmailSendRecord(input, svc);
    case CalendarAdd => CalendarAddRecord(input, svc);
    case CalendarList => CalendarListRecord(svc);
    case Freeform => AgentLine(svc.agent(input, context));
  }

  /** handle_email_list records its fixed pair unless the listing found no
      emails; its first line comes from the agent. */
  lemma EmailListRecord(svc: Services)
    ensures var r := EmailListReply(svc);
      |r.lines| >= 1 && StartsWith(r.lines[0], "Agent: ")
      && (r.record.None? <==> Gmail.RecentEmails(HandlerMaxResults, svc.mail) == Ok([]))
      && (r.record.Some? ==> r.record.value.0 == EmailListKey)
  {
    match Gmail.RecentEmails(HandlerMaxResults, svc.mail) {
      case Err(f) => AgentLine("Failed to list emails: " + f.detail);
      case Ok(es) =>
        if |es| == 0 {
          AgentLine("No emails found.");
        } else {
          AgentLine("Here are your recent emails:");
        }
    }
  }

  /** handle_email_send records the command exactly when it has four fields. */
  lemma EmailSendRecord(input: string, svc: Services)
    ensures var r := EmailSendReply(input, svc);
      |r.lines| >= 1 && StartsWith(r.lines[0], "Agent: ")
      && (r.record.None? <==> |Split(input, '|')| != 4)
      && (r.record.Some? ==> r.record.value.0 == input)
  {
    AgentLine(SendMessage(input, svc));
  }

  /** handle_calendar_add records the command exactly when it has at least
      four fields. */
  lemma CalendarAddRecord(input: string, svc: Services)
    ensures var r := CalendarAddReply(input, svc);
      |r.lines| >= 1 && StartsWith(r.lines[0], "Agent: ")
      && (r.record.None? <==> |Split(input, '|')| < 4)
      && (r.record.Some? ==> r.record.value.0 == input)
    ensures |Split(input, '|')| >= 4 ==>
      var o := AddOutcome(Split(input, '|'), svc.calendar);
      var msg := if o.Ok? then o.value else "Failed to add event: " + o.fault.detail;
      CalendarAddReply(input, svc) == Reply(["Agent: " + msg], Some((input, msg)))
  {
    var parts := Split(input, '|');
    if |parts| < 4 {
      AgentLine(AddUsage);
    } else {
      match AddOutcome(parts, svc.calendar) {
        case Ok(result) => AgentLine(result);
        case Err(f) => AgentLine("Failed to add event: " + f.detail);
      }
    }
  }

  /** handle_calendar_list records its fixed pair unless the listing found no
      events. */
  lemma CalendarListRecord(svc: Services)
    ensures var r := CalendarListReply(svc);
      |r.lines| >= 1 && StartsWith(r.lines[0], "Agent: ")
      && (r.record.None? <==> Cal.ListUpcomingEvents(HandlerMaxResults, Cal.DefaultDaysAhead, svc.calendar) == Ok([]))
      && (r.record.Some? ==> r.record.value.0 == EventListKey)
    ensures var r := CalendarListReply(svc);
      match Cal.ListUpcomingEvents(HandlerMaxResults, Cal.DefaultDaysAhead, svc.calendar)
      case Err(f) => r.record == Some((EventListKey, "Failed to list events: " + f.detail))
      case Ok(evs) =>
        var p := EventEntries(evs, svc.calendar);
        var header := ["Agent: Here are your upcoming events:"];
        (|evs| > 0 && p.failure.None? ==>
          r == Reply(header + p.lines, Some((EventListKey, "Listed upcoming events successfully"))))
        && (|evs| > 0 && p.failure.Some? ==>
          var msg := "Failed to list events: " + p.failure.value.detail;
          r == Reply(header + p.lines + ["Agent: " + msg], Some((EventListKey, msg))))
  {
    match Cal.ListUpcomingEvents(HandlerMaxResults, Cal.DefaultDaysAhead, svc.calendar) {
      case Err(f) => AgentLine("Failed to list events: " + f.detail);
      case Ok(evs) =>
        if |evs| == 0 {
          AgentLine("No upcoming events found.");
        } else {
          AgentLine("Here are your upcoming events:");
        }
    }
  }

  lemma AgentLine(x: string)
    ensures StartsWith("Agent: " + x, "Agent: ")
    ensures ("Agent: " + x)[7..] == x
  {
    assert ("Agent: " + x)[..7] == "Agent: ";
  }

  /** A successful listing records the fixed pair, whatever was typed. */
  lemma ListingRecordsFixedPair(input: string, context: string, svc: Services)
    requires Classify(input) == EmailList
    requires Gmail.RecentEmails(HandlerMaxResults, svc.mail).Ok?
    requires Gmail.RecentEmails(HandlerMaxResults, svc.mail).value != []
    ensures Dispatch(input, context, svc).record == Some(("list emails", "Listed recent emails successfully"))
  {
  }

  method ProcessUserInput(store: MemoryStore, input: string, context: string, svc: Services) returns (lines: seq<string>)
    modifies store
    ensures lines == Dispatch(input, context, svc).lines
    ensures store.file == Recorded(old(store.file), Dispatch(input, context, svc).record)
  {
    var command := Classify(input);
    match command
    case EmailList =>
      lines := HandleEmailList(store, svc);
    case EmailSend =>
      lines := HandleEmailSend(store, input, svc);
    case CalendarAdd =>
      lines := HandleCalendarAdd(store, input, svc);
    case CalendarList =>
      lines := HandleCalendarList(store, svc);
    case Freeform =>
      var response := svc.agent(input, context);
      lines := ["Agent: " + response];
      store.UpdateMemory(input, response);
  }

  // ---------------------------------------------------------------------
  // main

  /** What one call of input("You: ") produced: a line, a Ctrl-C, or another
      exception (EOFError at the end of input, for one). */
  datatype Event = Input(text: string) | Interrupt | ReadError(detail: string)

  datatype LoopState = Running | Terminated

  const Banner := [
    "Personal Agent initialized. Type 'exit' to quit.",
    "Available commands:",
    "- list emails",
    "- send email|to@example.com|Subject|Message",
    "- list events",
    "- add event|Summary|YYYY-MM-DD|HH:MM"
  ]

  /** The stripped input is 'exit' in some letter case. */
  predicate IsExit(text: string)
  {
    Lower(Strip(text)) == "exit"
  }

  /** The events that end the loop. */
  predicate Stops(e: Event)
  {
    e.Interrupt? || (e.Input? && IsExit(e.text))
  }

  /** What the loop printed after the banner, the memory file it leaves and
      whether it stopped. */
  datatype Transcript = Transcript(lines: seq<string>, file: MemoryFile, state: LoopState)

  /** The line printed when the loop stops on e. */
  function Farewell(e: Event): string
  {
    if e.Interrupt? then "\nGoodbye!" else "Goodbye!"
  }

  /** What handles a line that does not stop the loop, given the memory file
      at that moment. */
  type Handler = (string, MemoryFile) -> Reply

  /** The loop body of main: strip the line, read the context from the
      memory file, and call process_user_input. */
  function ProcessWith(svc: Services): Handler
  {
    (line, f) => Dispatch(Strip(line), RetrieveContext(f), svc)
  }

  /** What handling a read event that does not stop the loop prints: the
      error, or the handler's reply to the line. */
  function StepLines(e: Event, f: MemoryFile, handle: Handler): seq<string>
  {
    match e
    case ReadError(d) => ["An error occurred: " + d]
    case Input(t) => handle(t, f).lines
    case Interrupt => []
  }

  /** The memory file after handling such an event. */
  function StepFile(e: Event, f: MemoryFile, handle: Handler): MemoryFile
  {
    if e.Input? then Recorded(f, handle(e.text, f).record) else f
  }

  /** The while-True loop over a sequence of read events, from the memory
      file f. */
  function Session(events: seq<Event>, f: MemoryFile, handle: Handler): Transcript
    decreases |events|
  {
    if |events| == 0 then Transcript([], f, Running)
    else if Stops(events[0]) then Transcript([Farewell(events[0])], f, Terminated)
    else
      var rest := Session(events[1..], StepFile(events[0], f, handle), handle);
      Transcript(StepLines(events[0], f, handle) + rest.lines, rest.file, rest.state)
  }

  /** The loop stops exactly when some event is 'exit' or an interrupt. */
  lemma {:induction false} SessionStopsIff(events: seq<Event>, f: MemoryFile, handle: Handler)
    ensures Session(events, f, handle).state == Terminated <==> exists k :: 0 <= k < |events| && Stops(events[k])
    decreases |events|
  {
    if |events| > 0 && !Stops(events[0]) {
      var tail := events[1..];
      SessionStopsIff(tail, StepFile(events[0], f, handle), handle);
      if exists k :: 0 <= k < |events| && Stops(events[k]) {
        var k :| 0 <= k < |events| && Stops(events[k]);
        assert Stops(tail[k - 1]);
      }
      if exists k :: 0 <= k < |tail| && Stops(tail[k]) {
        var k :| 0 <= k < |tail| && Stops(tail[k]);
        assert Stops(events[k + 1]);
      }
    } else if |events| > 0 {
      assert Stops(events[0]);
    }
  }

  /** Nothing after the stopping event is read: more events change neither
      the output nor the memory. */
  lemma {:induction false} SessionIgnoresAfterStop(events: seq<Event>, more: seq<Event>, f: MemoryFile, handle: Handler)
    requires Session(events, f, handle).state == Terminated
    ensures Session(events + more, f, handle) == Session(events, f, handle)
    decreases |events|
  {
    if |events| > 0 {
      var e := events[0];
      AppendStep(events, more, f, handle);
      SessionStep(events, f, handle);
      if !Stops(e) {
        SessionIgnoresAfterStop(events[1..], more, StepFile(e, f, handle), handle);
      }
    }
  }

  /** Session on events + more takes its first step on events' first event. */
  lemma AppendStep(events: seq<Event>, more: seq<Event>, f: MemoryFile, handle: Handler)
    requires |events| > 0
    ensures Stops(events[0]) ==> Session(events + more, f, handle) == Transcript([Farewell(events[0])], f, Terminated)
    ensures !Stops(events[0]) ==> var r := Session(events[1..] + more, StepFile(events[0], f, handle), handle);
      Session(events + more, f, handle) == Transcript(StepLines(events[0], f, handle) + r.lines, r.file, r.state)
  {
    var all := events + more;
    assert all[0] == events[0];
    assert all[1..] == events[1..] + more;
    SessionStep(all, f, handle);
  }

  /** Whoever wrote the file, the log it holds has at most MaxMemory turns. */
  predicate Bounded(f: MemoryFile)
  {
    f.Valid? ==> |f.turns| <= MaxMemory
  }

  /** The memory bound holds throughout a session. */
  lemma {:induction false} SessionKeepsBound(events: seq<Event>, f: MemoryFile, handle: Handler)
    requires Bounded(f)
    ensures Bounded(Session(events, f, handle).file)
    decreases |events|
  {
    if |events| > 0 && !Stops(events[0]) {
      SessionKeepsBound(events[1..], StepFile(events[0], f, handle), handle);
    }
  }

  /** 'exit' in any letter case, with blanks around it, ends the loop. */
  lemma ExitIgnoresCaseAndBlanks()
    ensures IsExit("  EXIT ")
  {
    StripExitText();
    LowerExit();
  }

  lemma LowerExit()
    ensures Lower("EXIT") == "exit"
  {
    var l := Lower("EXIT");
    assert l[0] == 'e' && l[1] == 'x' && l[2] == 'i' && l[3] == 't';
  }

  lemma StripExitText()
    ensures Strip("  EXIT ") == "EXIT"
  {
    TrimExitStart();
    TrimExitEnd();
  }

  lemma TrimExitStart()
    ensures TrimStart("  EXIT ") == "EXIT "
  {
    var t := "  EXIT ";
    assert IsSpace(t[0]) && t[1..] == " EXIT ";
    assert IsSpace(t[1..][0]) && t[1..][1..] == "EXIT ";
    assert TrimStart("EXIT ") == "EXIT " by { assert !IsSpace('E'); }
  }

  lemma TrimExitEnd()
    ensures TrimEnd("EXIT ") == "EXIT"
  {
    var u := "EXIT ";
    assert IsSpace(u[4]) && u[..4] == "EXIT";
    assert TrimEnd("EXIT") == "EXIT" by { assert !IsSpace('T'); }
  }

  /** An exit line says goodbye, ends the loop and writes nothing to memory,
      whatever follows it. */
  lemma ExitLeavesMemory(t: string, rest: seq<Event>, f: MemoryFile, handle: Handler)
    requires IsExit(t)
    ensures Session([Input(t)] + rest, f, handle) == Transcript(["Goodbye!"], f, Terminated)
  {
    assert ([Input(t)] + rest)[0] == Input(t);
  }

  /** A run of read errors only prints them: the loop goes on and the memory
      is untouched. */
  lemma {:induction false} ReadErrorsContinue(events: seq<Event>, f: MemoryFile, handle: Handler)
    requires forall k :: 0 <= k < |events| ==> events[k].ReadError?
    ensures var s := Session(events, f, handle);
      s.state == Running && s.file == f && |s.lines| == |events|
      && forall k :: 0 <= k < |events| ==> s.lines[k] == "An error occurred: " + events[k].detail
    decreases |events|
  {
    if |events| > 0 {
      ReadErrorsContinue(events[1..], f, handle);
      var s := Session(events, f, handle);
      forall k | 0 <= k < |events| ensures s.lines[k] == "An error occurred: " + events[k].detail {
        if k > 0 {
          assert events[1..][k - 1] == events[k];
        }
      }
    }
  }

  /** One turn of the loop, as Session takes it. */
  lemma SessionStep(events: seq<Event>, f: MemoryFile, handle: Handler)
    requires |events| > 0
    ensures Stops(events[0]) ==> Session(events, f, handle) == Transcript([Farewell(events[0])], f, Terminated)
    ensures !Stops(events[0]) ==>
      var r := Session(events[1..], StepFile(events[0], f, handle), handle);
      Session(events, f, handle) == Transcript(StepLines(events[0], f, handle) + r.lines, r.file, r.state)
  {
  }

  /** The whole session is what was printed so far followed by the rest. */
  predicate Continues(whole: Transcript, printed: seq<string>, rest: Transcript)
  {
    whole == Transcript(printed + rest.lines, rest.file, rest.state)
  }

  /** After an event that does not stop the loop, the session continues
      with the next event from the file the event left. */
  lemma ContinuesStep(whole: Transcript, printed: seq<string>, events: seq<Event>, i: nat, f: MemoryFile, handle: Handler)
    requires i < |events| && !Stops(events[i])
    requires Continues(whole, printed, Session(events[i..], f, handle))
    ensures Continues(whole, printed + StepLines(events[i], f, handle),
      Session(events[i + 1..], StepFile(events[i], f, handle), handle))
  {
    SessionStep(events[i..], f, handle);
    assert events[i..][0] == events[i] && events[i..][1..] == events[i + 1..];
    var out := StepLines(events[i], f, handle);
    var rest := Session(events[i + 1..], StepFile(events[i], f, handle), handle);
    assert printed + (out + rest.lines) == printed + out + rest.lines;
  }

  /** At an event that stops the loop, the session ends with its farewell. */
  lemma ContinuesHalt(whole: Transcript, printed: seq<string>, events: seq<Event>, i: nat, f: MemoryFile, handle: Handler)
    requires i < |events| && Stops(events[i])
    requires Continues(whole, printed, Session(events[i..], f, handle))
    ensures whole == Transcript(printed + [Farewell(events[i])], f, Terminated)
  {
    SessionStep(events[i..], f, handle);
    assert events[i..][0] == events[i];
  }

  /** One pass of main's loop body on a read event: the lines it prints,
      whether it breaks out of the loop, and the memory update it makes. */
  method HandleEvent(store: MemoryStore, e: Event, svc: Services) returns (out: seq<string>, stop: bool)
    modifies store
    ensures stop == Stops(e)
    ensures stop ==> out == [Farewell(e)] && store.file == old(store.file)
    ensures !stop ==> (out == StepLines(e, old(store.file), ProcessWith(svc))
      && store.file == StepFile(e, old(store.file), ProcessWith(svc)))
  {
    match e
    case Interrupt =>
      out, stop := ["\nGoodbye!"], true;
    case ReadError(d) =>
      out, stop := ["An error occurred: " + d], false;
    case Input(t) =>
      var userInput := Strip(t);
      if Lower(userInput) == "exit" {
        out, stop := ["Goodbye!"], true;
      } else {
        var context := RetrieveContext(store.file);
        out := ProcessUserInput(store, userInput, context, svc);
        stop := false;
      }
  }

  /** main(): print the banner, then read and handle lines until the loop
      stops or the events run out. */
  method Run(store: MemoryStore, events: seq<Event>, svc: Services) returns (lines: seq<string>, state: LoopState)
    modifies store
    ensures var s := Session(events, old(store.file), ProcessWith(svc));
      lines == Banner + s.lines && state == s.state && store.file == s.file
  {
    ghost var whole := Session(events, store.file, ProcessWith(svc));
    var printed: seq<string> := [];
    var i := 0;
    assert events[i..] == events;
    while i < |events|
      invariant 0 <= i <= |events|
      invariant Continues(whole, printed, Session(events[i..], store.file, ProcessWith(svc)))
      decreases |events| - i
    {
      ghost var f := store.file;
      var out, stop := HandleEvent(store, events[i], svc);
      if stop {
        ContinuesHalt(whole, printed, events, i, f, ProcessWith(svc));
        lines, state := Banner + (printed + out), Terminated;
        return;
      }
      ContinuesStep(whole, printed, events, i, f, ProcessWith(svc));
      printed := printed + out;
      i := i + 1;
    }
    assert events[i..] == [];
    lines, state := Banner + printed, Running;
  }
}
