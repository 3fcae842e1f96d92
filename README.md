# personal_agent in Dafny

A model of the command-line personal assistant: a read–eval loop that lists
and sends Gmail messages, lists and adds Google Calendar events, and hands
any other input to a language model together with a short conversation
memory kept in `memory/chat.json`.

The model is in six modules:

| file | module | what it holds |
|---|---|---|
| `text.dfy` | `Text` | Python's `str.strip()` (with `str.isspace()`'s whitespace set), ASCII `lower()`, `startswith`, the `in` substring test, `split('|')`, `'\n'.join`, `str(n)` |
| `outcomes.dfy` | `Outcomes` | `Option`, `Result` and `Fault` (an `HttpError` or any other exception, with its text) |
| `memory.dfy` | `Memory` | the memory file and the class `MemoryStore` whose `UpdateMemory` method rewrites it; `RetrieveContext` and `SearchMemory` as functions of the file |
| `calendar.dfy` | `CalendarIntegration` | a wall-clock `DateTime`, `datetime.strptime` for `%Y-%m-%d` and `%Y-%m-%d %H:%M`, `parse_date_time`, the default end and the body built by `add_event`, `format_event_time`, the look-ahead window of `list_upcoming_events` |
| `gmail.dfy` | `GmailIntegration` | the header lookups of `get_message_details` and `parse_email_content`, and `list_recent_emails` as a loop method proved against a recursive function |
| `agent.dfy` | `PersonalAgent` | `process_user_input`'s classification, the four handlers (each a loop or branch method proved against a reply function), and `main`'s loop as the method `Run` proved against the function `Session` |

Every interaction is a value. A handler's outcome is a `Reply`: the lines it
prints and the `(user, agent)` pair it writes to memory, if it writes one. The
loop reads a sequence of `Event`s: a line, a Ctrl-C, or another exception
raised by `input()`. Its result is a `Transcript`: what was printed after the
banner, the memory file at the end, and whether the loop stopped.

Collaborators are parameters that are deterministic functions of their
arguments. They are `run_agent`, `send_email`, the Gmail service (list ids,
fetch one message) and the Calendar service (insert, list, the clock
`datetime.utcnow()`, and the library rendering of ISO timestamps in the local
zone). A service that cannot be built is a `connect` fault.

Some behaviour of the code is easy to miss; the model follows the code:

- Not every interaction is recorded. The code returns before `update_memory` in four cases: a malformed send command, a malformed add command, an empty email list and an empty event list (`main.py:26-32`, `71-73`, `48-50`, `99-101`). `PersonalAgent.DispatchRecord` states exactly when a record is written.
- `update_memory` overwrites the memory file in place; it is not replaced atomically (`memory/memory.py:59-60`).
- `list_emails` and `list_upcoming_events` default to 10 results (`gmail_integration.py:140`, `calendar_integration.py:93`), but the handlers ask for 5 (`main.py:44`, `98`).
- The docstring and comment of `parse_date_time` promise 09:00 when no time is given (`calendar_integration.py:16-31`). The add handler always passes the fourth field, so the default applies only when that field is blank (`PersonalAgent.CalendarAddDefaultsToNine`).
- `calendar_integration.py` names `HttpError` in its `except` clauses but never imports it. Any exception inside those `try` blocks therefore surfaces as a `NameError` instead of being caught. `list_upcoming_events` thus never returns `[]` for a failed query, and `add_event` never returns its "Error creating event" text (`CalendarIntegration.UnimportedHttpError`, `UpcomingEventsOutcome`, `AddEventOutcome`).
- At the end of input, `input()` raises `EOFError`. `main` catches it as a generic exception, prints "An error occurred: " and reads again, so it never ends on its own. The model covers this with `ReadError` events (`PersonalAgent.ReadErrorsContinue`).

## Model

| member | source | states |
|---|---|---|
| Memory.KeepRecent | memory/memory.py:58-60 | the kept log has min(n, MAX_MEMORY) turns and is the newest suffix of the log |
| Memory.MemoryStore.UpdateMemory | memory/memory.py:35-60 | the new file is the newest MAX_MEMORY turns of the loaded log (empty when missing or corrupt) plus the user turn then the assistant turn; the file is valid, holds at most 10 turns and ends with the new exchange |
| Memory.UpdateEvictsOldest | memory/memory.py:53-60 | what is kept is the longest suffix of old log + exchange that fits in MAX_MEMORY; only the oldest turns are dropped, and the new exchange is always kept |
| Memory.UpdateFailsClosed | memory/memory.py:43-50 | after a missing or corrupt file, the first update leaves exactly the new exchange |
| Memory.RetrieveContext | memory/memory.py:15-32 | the context is "" when the file is missing or corrupt, and "" for an empty log |
| Memory.ContextRoundTrip | memory/memory.py:15-60 | right after update_memory(u, a), the context ends with the line "user: u", a line break and the line "assistant: a"; whatever precedes them ends with a line break |
| Memory.ContextLines | memory/memory.py:28-30 | splitting the context at line breaks gives back one "role: content" line per turn, in log order, when no field holds a line break |
| Memory.KeepRecentAbsorbs | memory/memory.py:58-60 | truncating before appending gives the same newest turns as truncating only after appending |
| Memory.ReplayKeepsNewest | memory/memory.py:35-60 | after any number (>= 1) of updates, the file holds the newest MAX_MEMORY turns of the old log followed by every new turn in order (FIFO eviction) |
| Memory.SixInteractions | memory/memory.py:9-60 | six interactions from no file leave the ten turns of the last five; the first exchange is evicted |
| Memory.SearchMemory | memory/memory.py:63-81 | a missing or corrupt file gives [] |
| Memory.SearchExact | memory/memory.py:73-81 | the result is a subsequence of the log, so never longer; a turn is in it iff it is in the log and its lower-cased content contains the lower-cased query; each match keeps its multiplicity |
| Memory.FilterExact | memory/memory.py:76-79 | the list comprehension keeps exactly the matching turns, in order, with their multiplicities |
| Text.StripSpec | main.py:152 | strip() returns a slice of the input cut only at whitespace, which neither starts nor ends with whitespace |
| Text.StripIdempotent | main.py:152 | stripping twice is stripping once |
| Text.ContainsAt | main.py:124 | `p in s` holds iff p occurs in s at some position |
| Text.SplitCount | main.py:25-26 | split('\|') gives one field more than there are separators |
| Text.SplitJoin | main.py:25 | splitting a '\|'-join of separator-free fields gives the fields back |
| Text.JoinSplit | main.py:25 | joining the fields of a split with the separator gives the string back |
| CalendarIntegration.ParseDateTime | calendar_integration.py:16-33 | every successfully parsed value is a valid date and time (month 1-12, day within the month, hour 0-23, minute 0-59, year 1-9999) and is never on 0001-01-01 or 9999-12-31, where localize overflows |
| CalendarIntegration.ParsedStartHasEnd | calendar_integration.py:60-61 | the default end (start + 1 hour) of any parsed start exists: add_event's own overflow in the last hour of 9999-12-31 is never reached, because localize has already failed on that day |
| CalendarIntegration.FieldsInRange | calendar_integration.py:27-30 | both strptime formats only accept fields in their ranges and days that exist |
| CalendarIntegration.StrptimeText | calendar_integration.py:28 | "%Y-%m-%d %H:%M" reads a zero-padded date and time back into the same five numbers |
| CalendarIntegration.BuildExact | calendar_integration.py:28-30 | the parsed numbers give a datetime iff that day exists |
| CalendarIntegration.ParseDateTimeExact | calendar_integration.py:27-28 | with a non-empty time, the result is exactly the written date and time; it is accepted iff the date exists and is not 0001-01-01 or 9999-12-31, and on those two days it fails with "date value out of range" |
| CalendarIntegration.ParseDateDefaultsToNine | calendar_integration.py:29-31 | with no time or an empty one, the result is the date at 09:00; accepted iff the date exists and is not 0001-01-01 or 9999-12-31, on which it fails with "date value out of range" |
| CalendarIntegration.NextDayIsOneDayLater | calendar_integration.py:61 | the next day is one day later at the same clock time, and it fails only on 9999-12-31 |
| CalendarIntegration.AddHourIsSixtyMinutes | calendar_integration.py:60-61 | start + 1 hour is exactly sixty minutes later and after the start; it fails only in the last hour of 9999-12-31 |
| CalendarIntegration.AddDaysIsNDaysLater | calendar_integration.py:96-97 | now + n days is n days later at the same clock time |
| CalendarIntegration.NewEventBodyDefaults | calendar_integration.py:60-76 | the body carries the summary, location and description as given; both ends are in America/New_York; the default end is one hour after the start |
| CalendarIntegration.AddEventOutcome | calendar_integration.py:78-82 | a successful insert reports "Event created: " + link; a failed insert surfaces as the NameError |
| CalendarIntegration.FormatEventTimePrefersDateTime | calendar_integration.py:35-45 | an end's 'dateTime' wins over its 'date'; a start without 'T' is shown as "All day on " + start; otherwise "start to end" in the library rendering |
| CalendarIntegration.FormatAllDay | calendar_integration.py:37-45 | an event with only a 'date' is shown as "All day on " + that date |
| CalendarIntegration.UpcomingWindow | calendar_integration.py:93-107 | the query runs from now to the same time days_ahead days later, with max_results, single events, ordered by start time |
| CalendarIntegration.UpcomingEventsOutcome | calendar_integration.py:99-111 | the result is the query's items; a failed query is the NameError, not [] |
| GmailIntegration.FirstValueSpec | gmail_integration.py:88-90 | next(...) yields the value of the first header whose name matches, or the default when no header matches |
| GmailIntegration.DetailsDefaults | gmail_integration.py:87-98 | the id; subject, sender and date are the values of the first headers whose lower-cased name is "subject", "from" and "date", or 'No Subject', 'Unknown' and 'No Date' when no header has that name in any letter case; the snippet, or '' when it is missing |
| GmailIntegration.PresentKeepsOrder | gmail_integration.py:129-130 | `if email_data:` keeps the non-empty records in order, all of them and nothing else |
| GmailIntegration.PresentCounts | gmail_integration.py:129-130 | each record is kept exactly as many times as it was fetched |
| GmailIntegration.KeepDetailsSpec | gmail_integration.py:126-132 | the loop's result is exactly the non-empty fetched records, in message order, at most one per id |
| GmailIntegration.FetchedLength | gmail_integration.py:127-128 | one fetch per listed id |
| GmailIntegration.ListRecentEmails | gmail_integration.py:104-136 | the loop method returns what RecentEmails specifies: a listing HttpError gives [], a fetch HttpError skips that message, other failures propagate |
| GmailIntegration.ParseEmailContent | gmail_integration.py:171-183 | the id and date come from the message id and internalDate; the snippet defaults to '' |
| GmailIntegration.ParseEmailContentHeaders | gmail_integration.py:173-175 | subject and sender are the first headers named exactly "Subject" and "From", or "" |
| GmailIntegration.ParseEmailContentIsCaseSensitive | gmail_integration.py:174 | a lone header "subject" is the subject for get_message_details but gives "" in parse_email_content |
| PersonalAgent.ClassifyByRules | main.py:118-138 | classification is the first passing rule of the ordered list (three "anywhere" email phrases, then three prefixes), and free form when none passes |
| PersonalAgent.ClassifyIgnoresCase | main.py:121 | commands are recognised in any letter case |
| PersonalAgent.ListingPhraseWins | main.py:121-130 | any input whose lower-cased text contains "list email", "show email" or "get email" anywhere lists the inbox, whatever it starts with |
| PersonalAgent.SendCommandMentioningListing | main.py:121-130 | so "Send Email\|a@b.c\|list emails\|hi" lists the inbox instead of sending |
| PersonalAgent.ClassifyListEvents | main.py:124-134 | "list events" in any case is the calendar listing, not the email listing |
| PersonalAgent.ListEventsIsCalendar | main.py:133-134 | "List Events" is the calendar listing |
| PersonalAgent.EmailSendMalformed | main.py:25-32 | without exactly three '\|', the reply is the usage line, the same whatever the services do, with no record |
| PersonalAgent.EmailSendWellFormed | main.py:34-41 | a command word followed by three '\|'-fields (to, subject, body; none holding '\|') sends the stripped fields; on success it prints "Agent: Email sent successfully!" and records it, on failure it records "Failed to send email: " + error |
| PersonalAgent.EmailSendRecord | main.py:17-41 | the reply's first line is from the agent; the input is recorded iff the command has four fields |
| PersonalAgent.HandleEmailSend | main.py:17-41 | the method prints the reply and writes the memory as EmailSendReply specifies |
| PersonalAgent.EmailBlocksLayout | main.py:53-57 | each listed email gets four lines (from, subject, date, preview), numbered from 1 in list order |
| PersonalAgent.EmailListRecord | main.py:44-63 | the pair ("list emails", ...) is recorded iff the listing did not come back empty |
| PersonalAgent.HandleEmailList | main.py:44-63 | the method prints the header and the blocks of every email, then records, as EmailListReply specifies |
| PersonalAgent.CalendarAddMalformed | main.py:70-73 | with fewer than three '\|', the reply is the usage line, with no calendar call and no record |
| PersonalAgent.CalendarAddDefaultsToNine | main.py:75-85 | a command word, a summary, an existing day written YYYY-MM-DD and an empty time field (none holding '\|') split into four fields that start the event at 09:00 of that day, with no location and no description; on 0001-01-01 and 9999-12-31 the start fails with localize's "date value out of range" |
| PersonalAgent.CalendarAddRecord | main.py:66-92 | the input is recorded iff the command has at least four fields; then the one printed and recorded text is add_event's result, or "Failed to add event: " + the error of the parse or of the insert |
| PersonalAgent.CalendarAddBadDate | main.py:79-92 | a date or time that does not parse is printed and recorded as "Failed to add event: " + the parse error, and the calendar is not called (the reply is the same for any services) |
| PersonalAgent.AddKeepsExtrasVerbatim | main.py:75-85 | the fifth and sixth fields go to add_event as location and description unstripped, further fields are ignored; summary, date and time are stripped; the body is always built (the default end never overflows); the reply is the inserted body's link or the NameError |
| PersonalAgent.HandleCalendarAdd | main.py:66-92 | the method prints the reply and writes the memory as CalendarAddReply specifies |
| PersonalAgent.EventEntriesFailure | main.py:104-108 | the event loop fails iff some event's entry fails, and then with the first failing event's error |
| PersonalAgent.EventEntriesStop | main.py:104-115 | once the loop has failed on a prefix of the events, the rest are never looked at: output and failure are those of the prefix |
| PersonalAgent.CalendarListRecord | main.py:95-115 | the pair ("list events", ...) is recorded iff the listing did not come back empty; a failed query records "Failed to list events: " + error; a listing whose entries all succeed prints the header and every entry and records "Listed upcoming events successfully"; a failing entry prints the entries so far and then the failure, and records it |
| PersonalAgent.EventEntriesPrintBeforeFailure | main.py:104-108 | when entry k + 1 is the first that fails, exactly the lines of entries 1..k have been printed |
| PersonalAgent.HandleCalendarList | main.py:95-115 | the loop method prints as far as the first failing event, then the failure, and records one pair, as CalendarListReply specifies |
| PersonalAgent.DispatchRecord | main.py:118-138 | the first line is always from the agent; per command, the exact condition for a memory record and its user side; free-form input records (input, model answer) |
| PersonalAgent.ListingRecordsFixedPair | main.py:59 | a non-empty email listing records ("list emails", "Listed recent emails successfully"), whatever was typed |
| PersonalAgent.ProcessUserInput | main.py:118-138 | the method prints and records what Dispatch specifies |
| PersonalAgent.SessionStopsIff | main.py:150-162 | the loop stops iff some event is an exit line or a Ctrl-C |
| PersonalAgent.SessionIgnoresAfterStop | main.py:153-162 | events after the stopping one change neither the output nor the memory |
| PersonalAgent.SessionKeepsBound | main.py:150-158 | the memory holds at most MAX_MEMORY turns throughout a session |
| PersonalAgent.ExitIgnoresCaseAndBlanks | main.py:152-155 | "  EXIT " ends the loop |
| PersonalAgent.ExitLeavesMemory | main.py:152-155 | an exit line prints "Goodbye!", stops and writes nothing |
| PersonalAgent.ReadErrorsContinue | main.py:163-165 | read errors only print "An error occurred: " + text; the loop goes on and the memory is untouched |
| PersonalAgent.SessionStep | main.py:150-165 | one loop step: a stopping event ends with its farewell, any other prints its lines and continues from the file it leaves |
| PersonalAgent.HandleEvent | main.py:151-165 | one loop body: stops exactly on a stopping event, with the right farewell; otherwise strips, reads the context and dispatches |
| PersonalAgent.Run | main.py:141-165 | main prints the banner and then exactly the Session transcript, ending in its state with its memory file |

## Left out

- Letter case and whitespace: `lower()` is modelled on ASCII letters only. `strip()` uses the whitespace set of `str.isspace()`; Unicode case mapping is not modelled.
- Exception texts: error texts raised by libraries (strptime mismatch, KeyError, OverflowError) are fixed placeholder strings; only the prefixes the program adds are exact.
- Time zones: of `LOCAL_TIMEZONE.localize` only its overflow is modelled: pytz looks one day before and after the value, which raises `OverflowError("date value out of range")` on 0001-01-01 and 9999-12-31 (`CalendarIntegration.Localize`). Offsets, daylight saving time, `isoformat()` and `strftime` rendering are not modelled. A datetime is a wall-clock record in one fixed zone, tagged with "America/New_York". The timed range in `format_event_time` is built from the service's own rendering functions (`showStart`, `showEnd`).
- CalendarIntegration.ParseDateTime: parses only the fields the two formats use, at minute precision; strptime's other directives and locale behaviour are not modelled.
- CalendarIntegration.ParseDateTime: fields accept ASCII digits only. strptime builds its patterns from `\d` and `int()` converts any Unicode decimal digit, so a date written in, say, fullwidth digits is accepted by the program and rejected by the model; `ParseDateTimeExact` and `CalendarAddDefaultsToNine` speak of ASCII-digit text.
- Collaborators: `run_agent`, `send_email`, the Gmail and Calendar services and the clock are deterministic functions of their arguments. Their internals (agent.py, the prompt, MIME and base64 encoding, OAuth in google_auth.py and get_gmail_service, config.py) are not part of this model.
- Response shapes: responses missing a field (`message['payload']`, `results.get('messages')`, `msg['id']`) are not modelled; a record is always well formed.
- The memory file: it is seen as missing, corrupt, or a valid list of turns. A valid JSON value of another shape is not modelled. The directory creation at import, the file write failing, and other processes writing the same file are not modelled.
- Logging: `logging.error` calls are left out; they change nothing observable here.
- The prompt: printing "You: " is left out; the transcript holds the lines the program prints with `print`.
- PersonalAgent.Run: a Ctrl-C is modelled only while waiting for input. A KeyboardInterrupt raised during a handler is not modelled.
- PersonalAgent.Run: a finite event sequence stands for the input stream. Reading past its end is not shown; a real end of input keeps producing `ReadError` events, so the loop never terminates.
- delete_event, search_events and search_emails: they are not used by the assistant's commands and are not modelled. parse_email_content, which search_emails calls, is modelled.
- CalendarIntegration.ListUpcomingEvents: `days_ahead` and `max_results` are natural numbers; negative arguments are not modelled.
