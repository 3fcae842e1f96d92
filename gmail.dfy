/** The header extraction and filtering of gmail_integration.py. The Gmail
    service is a collaborator: listing message ids and fetching a message. */
module GmailIntegration {
  import opened Text
  import opened Outcomes

  datatype Header = Header(name: string, value: string)

  /** The parts of a messages().get(...).execute() result that are read. */
  datatype RawMessage = RawMessage(
    id: string,
    headers: seq<Header>,        // message['payload']['headers']
    snippet: Option<string>,     // message.get('snippet')
    internalDate: string)        // message['internalDate']

  /** The dictionary get_message_details returns when the fetch succeeds. */
  datatype EmailDetails = EmailDetails(id: string, subject: string, sender: string, date: string, snippet: string)

  /** The dictionary parse_email_content returns. */
  datatype EmailContent = EmailContent(id: string, subject: string, sender: string, snippet: string, date: string)

  /** The Gmail service as list_recent_emails uses it. */
  datatype Mailbox = Mailbox(
    connect: Option<Fault>,                // get_gmail_service() raised
    listIds: nat -> Result<seq<string>>,   // messages().list(labelIds=['INBOX'], maxResults=n), the ids
    fetch: string -> Result<RawMessage>)   // messages().get(id=..., format='full')

  /** Whether a header carries the name: compared after lower-casing, or as is. */
  predicate NameIs(h: Header, name: string, foldCase: bool)
  {
    if foldCase then Lower(h.name) == name else h.name == name
  }

  /** next((h['value'] for h in headers if <name test>), default) */
  function FirstValue(hs: seq<Header>, name: string, foldCase: bool, default: string): string
  {
    if |hs| == 0 then default
    else if NameIs(hs[0], name, foldCase) then hs[0].value
    else FirstValue(hs[1..], name, foldCase, default)
  }

  predicate FirstMatchAt(hs: seq<Header>, name: string, foldCase: bool, i: int)
  {
    0 <= i < |hs| && NameIs(hs[i], name, foldCase)
    && forall j :: 0 <= j < i ==> !NameIs(hs[j], name, foldCase)
  }

  /** The lookup yields the value of the first header with the name, or the
      default when no header has it. */
  lemma {:induction false} FirstValueSpec(hs: seq<Header>, name: string, foldCase: bool, default: string)
    ensures var r := FirstValue(hs, name, foldCase, default);
      (exists i :: FirstMatchAt(hs, name, foldCase, i) && r == hs[i].value)
      || ((forall j :: 0 <= j < |hs| ==> !NameIs(hs[j], name, foldCase)) && r == default)
    decreases |hs|
  {
    if |hs| > 0 {
      if NameIs(hs[0], name, foldCase) {
        assert FirstMatchAt(hs, name, foldCase, 0);
      } else {
        FirstValueSpec(hs[1..], name, foldCase, default);
        var r := FirstValue(hs, name, foldCase, default);
        if exists i :: FirstMatchAt(hs[1..], name, foldCase, i) && r == hs[1..][i].value {
          var i :| FirstMatchAt(hs[1..], name, foldCase, i) && r == hs[1..][i].value;
          assert forall j :: 0 <= j < i + 1 ==> !NameIs(hs[j], name, foldCase) by {
            forall j | 0 <= j < i + 1 ensures !NameIs(hs[j], name, foldCase) {
              if j > 0 {
                assert hs[j] == hs[1..][j - 1];
              }
            }
          }
          assert FirstMatchAt(hs, name, foldCase, i + 1);
        } else {
          forall j | 0 <= j < |hs| ensures !NameIs(hs[j], name, foldCase) {
            if j > 0 {
              assert hs[j] == hs[1..][j - 1];
            }
          }
        }
      }
    }
  }

  /** The fields get_message_details reads from a fetched message. */
  function DetailsOf(msg: RawMessage): EmailDetails
  {
    EmailDetails(
      msg.id,
      FirstValue(msg.headers, "subject", true, "No Subject"),
      FirstValue(msg.headers, "from", true, "Unknown"),
      FirstValue(msg.headers, "date", true, "No Date"),
      if msg.snippet.Some? then msg.snippet.value else "")
  }

  /** get_message_details: an HttpError while fetching gives the empty record
      (None); any other failure propagates. */
  function GetMessageDetails(mail: Mailbox, id: string): Result<Option<EmailDetails>>
  {
    match mail.fetch(id)
    case Ok(msg) => Ok(Some(DetailsOf(msg)))
    case Err(HttpError(_)) => Ok(None)
    case Err(OtherError(d)) => Err(OtherError(d))
  }

  /** The details of a fetched message: its id; the subject, sender and date
      are the values of the first headers whose lower-cased name is "subject",
      "from" and "date", or 'No Subject', 'Unknown' and 'No Date' when no
      header has that name in any letter case; the snippet, or ''. */
  lemma DetailsDefaults(msg: RawMessage)
    ensures DetailsOf(msg).id == msg.id
    ensures forall i :: FirstMatchAt(msg.headers, "subject", true, i) ==> DetailsOf(msg).subject == msg.headers[i].value
    ensures forall i :: FirstMatchAt(msg.headers, "from", true, i) ==> DetailsOf(msg).sender == msg.headers[i].value
    ensures forall i :: FirstMatchAt(msg.headers, "date", true, i) ==> DetailsOf(msg).date == msg.headers[i].value
    ensures (forall j :: 0 <= j < |msg.headers| ==> Lower(msg.headers[j].name) != "subject")
            ==> DetailsOf(msg).subject == "No Subject"
    ensures (forall j :: 0 <= j < |msg.headers| ==> Lower(msg.headers[j].name) != "from")
            ==> DetailsOf(msg).sender == "Unknown"
    ensures (forall j :: 0 <= j < |msg.headers| ==> Lower(msg.headers[j].name) != "date")
            ==> DetailsOf(msg).date == "No Date"
    ensures DetailsOf(msg).snippet == if msg.snippet.Some? then msg.snippet.value else ""
  {
    FirstValueSpec(msg.headers, "subject", true, "No Subject");
    FirstValueSpec(msg.headers, "from", true, "Unknown");
    FirstValueSpec(msg.headers, "date", true, "No Date");
    forall i | FirstMatchAt(msg.headers, "subject", true, i)
      ensures DetailsOf(msg).subject == msg.headers[i].value
    {
      FirstMatchValue(msg.headers, "subject", true, "No Subject", i);
    }
    forall i | FirstMatchAt(msg.headers, "from", true, i)
      ensures DetailsOf(msg).sender == msg.headers[i].value
    {
      FirstMatchValue(msg.headers, "from", true, "Unknown", i);
    }
    forall i | FirstMatchAt(msg.headers, "date", true, i)
      ensures DetailsOf(msg).date == msg.headers[i].value
    {
      FirstMatchValue(msg.headers, "date", true, "No Date", i);
    }
  }

  /** The lookup yields the value at the first match, whatever the default. */
  lemma {:induction false} FirstMatchValue(hs: seq<Header>, name: string, foldCase: bool, default: string, i: int)
    requires FirstMatchAt(hs, name, foldCase, i)
    ensures FirstValue(hs, name, foldCase, default) == hs[i].value
    decreases i
  {
    if i > 0 {
      assert !NameIs(hs[0], name, foldCase);
      assert FirstMatchAt(hs[1..], name, foldCase, i - 1) by {
        forall j | 0 <= j < i - 1 ensures !NameIs(hs[1..][j], name, foldCase) {
          assert hs[1..][j] == hs[j + 1];
        }
      }
      FirstMatchValue(hs[1..], name, foldCase, default, i - 1);
    }
  }

  /** The non-empty records among options, in order (`if email_data:`). */
  function Present(xs: seq<Option<EmailDetails>>): seq<EmailDetails>
  {
    if |xs| == 0 then []
    else (if xs[0].Some? then [xs[0].value] else []) + Present(xs[1..])
  }

  function Wrapped(es: seq<EmailDetails>): (ws: seq<Option<EmailDetails>>)
    ensures |ws| == |es| && forall k :: 0 <= k < |es| ==> ws[k] == Some(es[k])
  {
    seq(|es|, k requires 0 <= k < |es| => Some(es[k]))
  }

  /** Dropping empty records keeps the others in their order, all of them
      and nothing else. */
  lemma {:induction false} PresentKeepsOrder(xs: seq<Option<EmailDetails>>)
    ensures IsSubsequence(Wrapped(Present(xs)), xs)
    ensures |Present(xs)| <= |xs|
    ensures forall e :: e in Present(xs) <==> Some(e) in xs
    decreases |xs|
  {
    if |xs| > 0 {
      PresentKeepsOrder(xs[1..]);
      var rest := Present(xs[1..]);
      assert xs == [xs[0]] + xs[1..];
      if xs[0].Some? {
        assert Wrapped(Present(xs)) == [xs[0]] + Wrapped(rest);
        assert Wrapped(Present(xs))[1..] == Wrapped(rest);
      } else {
        assert Present(xs) == rest;
        var ws := Wrapped(rest);
        if |ws| > 0 {
          assert ws[0] != xs[0];
        }
      }
    }
  }

  /** Each record is kept as many times as it occurs in the fetched list. */
  lemma {:induction false} PresentCounts(xs: seq<Option<EmailDetails>>)
    ensures forall e :: multiset(Present(xs))[e] == multiset(xs)[Some(e)]
    decreases |xs|
  {
    if |xs| > 0 {
      PresentCounts(xs[1..]);
      assert xs == [xs[0]] + xs[1..];
      assert multiset(xs) == multiset([xs[0]]) + multiset(xs[1..]);
      var head := if xs[0].Some? then [xs[0].value] else [];
      assert Present(xs) == head + Present(xs[1..]);
      assert multiset(Present(xs)) == multiset(head) + multiset(Present(xs[1..]));
    }
  }

  /** The for loop of list_recent_emails, as a value: the first failure that is
      not an HttpError ends it, otherwise the non-empty records in order. */
  function KeepDetails(ids: seq<string>, mail: Mailbox): Result<seq<EmailDetails>>
  {
    if |ids| == 0 then Ok([])
    else match GetMessageDetails(mail, ids[0])
      case Err(f) => Err(f)
      case Ok(d) =>
        match KeepDetails(ids[1..], mail)
        case Err(f) => Err(f)
        case Ok(rest) => Ok((if d.Some? then [d.value] else []) + rest)
  }

  /** The details of every id, when none of the fetches failed other than with
      an HttpError. */
  function Fetched(ids: seq<string>, mail: Mailbox): seq<Option<EmailDetails>>
  {
    if |ids| == 0 then []
    else [match GetMessageDetails(mail, ids[0]) case Ok(d) => d case Err(_) => None] + Fetched(ids[1..], mail)
  }

  /** list_recent_emails keeps exactly the non-empty records, in message
      order, so there are at most as many as there are ids. */
  lemma {:induction false} KeepDetailsSpec(ids: seq<string>, mail: Mailbox)
    ensures match KeepDetails(ids, mail)
      case Ok(es) => es == Present(Fetched(ids, mail)) && |es| <= |ids|
                     && IsSubsequence(Wrapped(es), Fetched(ids, mail))
      case Err(_) => true
    decreases |ids|
  {
    if |ids| > 0 {
      KeepDetailsSpec(ids[1..], mail);
      assert Fetched(ids, mail)[1..] == Fetched(ids[1..], mail);
    }
    PresentKeepsOrder(Fetched(ids, mail));
    FetchedLength(ids, mail);
  }

  lemma {:induction false} FetchedLength(ids: seq<string>, mail: Mailbox)
    ensures |Fetched(ids, mail)| == |ids|
    decreases |ids|
  {
    if |ids| > 0 {
      FetchedLength(ids[1..], mail);
    }
  }

  /** list_recent_emails(max_results) (list_emails only forwards to it). */
  function RecentEmails(maxResults: nat, mail: Mailbox): Result<seq<EmailDetails>>
  {
    if mail.connect.Some? then Err(mail.connect.value)
    else match mail.listIds(maxResults)
      case Err(HttpError(_)) => Ok([])
      case Err(OtherError(d)) => Err(OtherError(d))
      case Ok(ids) => KeepDetails(ids, mail)
  }

  function Prefixed(es: seq<EmailDetails>, r: Result<seq<EmailDetails>>): Result<seq<EmailDetails>>
  {
    match r
    case Ok(rest) => Ok(es + rest)
    case Err(f) => Err(f)
  }

  lemma PrefixedEmpty(r: Result<seq<EmailDetails>>)
    ensures Prefixed([], r) == r
  {
    if r.Ok? {
      assert [] + r.value == r.value;
    }
  }

  lemma PrefixedAppend(es: seq<EmailDetails>, more: seq<EmailDetails>, r: Result<seq<EmailDetails>>)
    ensures Prefixed(es, match r case Ok(rest) => Ok(more + rest) case Err(f) => Err(f))
            == Prefixed(es + more, r)
  {
    if r.Ok? {
      assert es + (more + r.value) == es + more + r.value;
    }
  }

  /** list_recent_emails with its loop: fetch each listed message in turn and
      append the non-empty records. */
  method ListRecentEmails(maxResults: nat, mail: Mailbox) returns (r: Result<seq<EmailDetails>>)
    ensures r == RecentEmails(maxResults, mail)
  {
    if mail.connect.Some? {
      return Err(mail.connect.value);
    }
    var listed := mail.listIds(maxResults);
    if listed.Err? {
      if listed.fault.HttpError? {
        return Ok([]);
      }
      return Err(listed.fault);
    }
    var ids := listed.value;
    var emails: seq<EmailDetails> := [];
    var i := 0;
    assert ids[i..] == ids;
    PrefixedEmpty(KeepDetails(ids, mail));
    while i < |ids|
      invariant 0 <= i <= |ids|
      invariant KeepDetails(ids, mail) == Prefixed(emails, KeepDetails(ids[i..], mail))
    {
      assert ids[i..][1..] == ids[i + 1..];
      var emailData := GetMessageDetails(mail, ids[i]);
      if emailData.Err? {
        return Err(emailData.fault);
      }
      var kept := if emailData.value.Some? then [emailData.value.value] else [];
      PrefixedAppend(emails, kept, KeepDetails(ids[i + 1..], mail));
      emails := emails + kept;
      i := i + 1;
    }
    assert ids[i..] == [];
    assert emails + [] == emails;
    r := Ok(emails);
  }

  /** parse_email_content: header names compared exactly ('Subject', 'From'),
      default '', and the date taken from internalDate. */
  function ParseEmailContent(msg: RawMessage): (c: EmailContent)
    ensures c.id == msg.id && c.date == msg.internalDate
    ensures c.snippet == if msg.snippet.Some? then msg.snippet.value else ""
  {
    EmailContent(
      msg.id,
      FirstValue(msg.headers, "Subject", false, ""),
      FirstValue(msg.headers, "From", false, ""),
      if msg.snippet.Some? then msg.snippet.value else "",
      msg.internalDate)
  }

  /** The subject and sender are the values of the first headers named exactly
      "Subject" and "From", or "" when there is none. */
  lemma ParseEmailContentHeaders(msg: RawMessage)
    ensures var c := ParseEmailContent(msg);
      ((exists i :: FirstMatchAt(msg.headers, "Subject", false, i) && c.subject == msg.headers[i].value)
       || ((forall j :: 0 <= j < |msg.headers| ==> msg.headers[j].name != "Subject") && c.subject == ""))
      && ((exists i :: FirstMatchAt(msg.headers, "From", false, i) && c.sender == msg.headers[i].value)
       || ((forall j :: 0 <= j < |msg.headers| ==> msg.headers[j].name != "From") && c.sender == ""))
  {
    FirstValueSpec(msg.headers, "Subject", false, "");
    FirstValueSpec(msg.headers, "From", false, "");
  }

  /** The two lookups differ on letter case: a lone header named "subject" is
      the subject for get_message_details but not for parse_email_content. */
  lemma ParseEmailContentIsCaseSensitive(id: string, v: string, snippet: Option<string>, date: string)
    ensures var msg := RawMessage(id, [Header("subject", v)], snippet, date);
      ParseEmailContent(msg).subject == "" && DetailsOf(msg).subject == v
  {
    var msg := RawMessage(id, [Header("subject", v)], snippet, date);
    assert Lower("subject") == "subject";
    assert msg.headers[0].name == "subject";
    assert NameIs(msg.headers[0], "subject", true);
    assert !NameIs(msg.headers[0], "Subject", false);
    assert msg.headers[1..] == [];
    assert FirstValue(msg.headers[1..], "Subject", false, "") == "";
    assert FirstValue(msg.headers, "Subject", false, "") == "";
    assert FirstValue(msg.headers, "subject", true, "No Subject") == v;
  }
}
