/** The bounded conversation memory of memory/memory.py: a log of
    {role, content} turns persisted as the JSON file memory/chat.json.
    The file is seen abstractly: absent, not valid JSON, or a valid log. */
module Memory {
  import opened Text

  /** At most this many turns are kept (MAX_MEMORY). */
  const MaxMemory: nat := 10

  const UserRole := "user"
  const AssistantRole := "assistant"

  datatype Turn = Turn(role: string, content: string)

  /** The state of memory/chat.json. */
  datatype MemoryFile = Missing | Corrupt | Valid(turns: seq<Turn>)

  /** The log update_memory starts from: the stored turns, or an empty list
      when the file is absent or does not hold valid JSON. */
  function Loaded(f: MemoryFile): seq<Turn>
  {
    if f.Valid? then f.turns else []
  }

  /** chat[-MAX_MEMORY:]: the newest MaxMemory turns, or all of them. */
  function KeepRecent(chat: seq<Turn>): (kept: seq<Turn>)
    ensures |kept| == if |chat| <= MaxMemory then |chat| else MaxMemory
    ensures kept == chat[|chat| - |kept|..]
  {
    if |chat| <= MaxMemory then chat else chat[|chat| - MaxMemory..]
  }

  /** The two turns one interaction adds, user first. */
  function Exchange(user: string, agent: string): seq<Turn>
  {
    [Turn(UserRole, user), Turn(AssistantRole, agent)]
  }

  /** The file update_memory(user, agent) leaves behind. */
  function Updated(f: MemoryFile, user: string, agent: string): MemoryFile
  {
    Valid(KeepRecent(Loaded(f) + Exchange(user, agent)))
  }

  /** The one persisted file; only UpdateMemory writes it. */
  class MemoryStore {
    var file: MemoryFile

    constructor (initial: MemoryFile)
      ensures file == initial
    {
      file := initial;
    }

    /** update_memory: load (or start empty), append the user turn and then the
        assistant turn, and overwrite the file with the newest MaxMemory turns. */
    method UpdateMemory(user: string, agent: string)
      modifies this
      ensures file == Updated(old(file), user, agent)
      ensures file.Valid? && |file.turns| <= MaxMemory
      ensures file.turns[|file.turns| - 2..] == Exchange(user, agent)
    {
      var chat: seq<Turn> := [];
      if file.Valid? {
        chat := file.turns;
      }
      chat := chat + [Turn(UserRole, user), Turn(AssistantRole, agent)];
      if |chat| > MaxMemory {
        file := Valid(chat[|chat| - MaxMemory..]);
      } else {
        file := Valid(chat);
      }
    }
  }

  /** Eviction removes the oldest turns: what is kept is the longest suffix of
      old log + new exchange that fits, and it ends with the new exchange. */
  lemma UpdateEvictsOldest(f: MemoryFile, user: string, agent: string)
    ensures var all := Loaded(f) + Exchange(user, agent);
      var kept := Updated(f, user, agent).turns;
      |kept| == (if |all| <= MaxMemory then |all| else MaxMemory)
      && kept == all[|all| - |kept|..]
      && kept[|kept| - 2..] == Exchange(user, agent)
  {
    var all := Loaded(f) + Exchange(user, agent);
    var kept := Updated(f, user, agent).turns;
    assert kept[|kept| - 2..] == all[|all| - 2..];
  }

  /** A missing or corrupt file is treated as an empty log, so the first write
      after it leaves exactly the new exchange. */
  lemma UpdateFailsClosed(f: MemoryFile, user: string, agent: string)
    requires f == Missing || f == Corrupt
    ensures Updated(f, user, agent) == Valid(Exchange(user, agent))
  {
  }

  /** One rendered line: "role: content". */
  function Line(t: Turn): string
  {
    t.role + ": " + t.content
  }

  function Lines(ts: seq<Turn>): (ls: seq<string>)
    ensures |ls| == |ts|
    ensures forall k :: 0 <= k < |ts| ==> ls[k] == Line(ts[k])
  {
    seq(|ts|, k requires 0 <= k < |ts| => Line(ts[k]))
  }

  /** retrieve_context: the log as newline-joined lines, oldest first; ""
      when the file is absent or not valid JSON. */
  function RetrieveContext(f: MemoryFile): (ctx: string)
    ensures !f.Valid? ==> ctx == ""
    ensures f == Valid([]) ==> ctx == ""
  {
    if f.Valid? then Join(Lines(f.turns), "\n") else ""
  }

  /** Round trip: right after update_memory(u, a) the context ends with the
      line "user: u" followed by the line "assistant: a", and whatever comes
      before them is empty or ends with a line break. */
  lemma ContextRoundTrip(f: MemoryFile, user: string, agent: string)
    ensures var ctx := RetrieveContext(Updated(f, user, agent));
      var tail := Line(Turn(UserRole, user)) + "\n" + Line(Turn(AssistantRole, agent));
      |tail| <= |ctx| && ctx[|ctx| - |tail|..] == tail
      && (|ctx| == |tail| || ctx[|ctx| - |tail| - 1] == '\n')
  {
    var kept := Updated(f, user, agent).turns;
    LastTwoTurns(f, user, agent);
    ContextEndsWith(kept);
  }

  lemma LastTwoTurns(f: MemoryFile, user: string, agent: string)
    ensures var kept := Updated(f, user, agent).turns;
      |kept| >= 2 && kept[|kept| - 2] == Turn(UserRole, user) && kept[|kept| - 1] == Turn(AssistantRole, agent)
  {
    UpdateEvictsOldest(f, user, agent);
    var kept := Updated(f, user, agent).turns;
    assert kept[|kept| - 2] == kept[|kept| - 2..][0];
    assert kept[|kept| - 1] == kept[|kept| - 2..][1];
  }

  /** The context of a log of two or more turns ends with the lines of its
      last two turns. */
  lemma ContextEndsWith(ts: seq<Turn>)
    requires |ts| >= 2
    ensures var ctx := RetrieveContext(Valid(ts));
      var tail := Line(ts[|ts| - 2]) + "\n" + Line(ts[|ts| - 1]);
      |tail| <= |ctx| && ctx[|ctx| - |tail|..] == tail
      && (|ctx| == |tail| || ctx[|ctx| - |tail| - 1] == '\n')
  {
    var before := ts[..|ts| - 2];
    var a, b := Line(ts[|ts| - 2]), Line(ts[|ts| - 1]);
    assert Lines(ts) == Lines(before) + [a, b];
    JoinEndsWithLines(Lines(before), a, b);
  }

  /** One line per turn: when no role or content holds a line break, splitting
      the context at line breaks gives back the turns' lines in log order. */
  lemma ContextLines(ts: seq<Turn>)
    requires |ts| > 0
    requires forall k :: 0 <= k < |ts| ==> '\n' !in ts[k].role && '\n' !in ts[k].content
    ensures Split(RetrieveContext(Valid(ts)), '\n') == Lines(ts)
  {
    forall k | 0 <= k < |ts| ensures '\n' !in Lines(ts)[k] {
      assert Lines(ts)[k] == ts[k].role + ": " + ts[k].content;
    }
    SplitJoin(Lines(ts), '\n');
  }

  /** Keeping the newest turns before appending changes nothing about which
      turns are newest after appending. */
  lemma KeepRecentAbsorbs(s: seq<Turn>, t: seq<Turn>)
    ensures KeepRecent(KeepRecent(s) + t) == KeepRecent(s + t)
  {
    var k := KeepRecent(s);
    assert k + t == (s + t)[|s| - |k|..];
  }

  /** The turns of a run of interactions, in order. */
  function TurnsOf(xs: seq<(string, string)>): (ts: seq<Turn>)
    ensures |ts| == 2 * |xs|
  {
    if |xs| == 0 then [] else Exchange(xs[0].0, xs[0].1) + TurnsOf(xs[1..])
  }

  /** The file after update_memory has run once per interaction of xs. */
  function Replay(f: MemoryFile, xs: seq<(string, string)>): MemoryFile
    decreases |xs|
  {
    if |xs| == 0 then f else Replay(Updated(f, xs[0].0, xs[0].1), xs[1..])
  }

  /** FIFO over a whole session: after one or more updates the log is the
      newest MaxMemory turns of the old log followed by every new turn. */
  lemma {:induction false} ReplayKeepsNewest(f: MemoryFile, xs: seq<(string, string)>)
    requires |xs| > 0
    ensures Replay(f, xs) == Valid(KeepRecent(Loaded(f) + TurnsOf(xs)))
    decreases |xs|
  {
    var e := Exchange(xs[0].0, xs[0].1);
    var rest := TurnsOf(xs[1..]);
    assert TurnsOf(xs) == e + rest;
    var f' := Updated(f, xs[0].0, xs[0].1);
    assert Replay(f, xs) == Replay(f', xs[1..]);
    if |xs| > 1 {
      ReplayKeepsNewest(f', xs[1..]);
      AbsorbAppend(Loaded(f), e, rest);
    } else {
      assert rest == [];
      assert e + rest == e;
    }
  }

  /** Appending one exchange and then more turns keeps the same newest turns
      as appending them all at once. */
  lemma AbsorbAppend(log: seq<Turn>, e: seq<Turn>, more: seq<Turn>)
    ensures KeepRecent(KeepRecent(log + e) + more) == KeepRecent(log + (e + more))
  {
    KeepRecentAbsorbs(log + e, more);
    assert log + e + more == log + (e + more);
  }

  /** Six interactions starting without a file leave ten turns: those of the
      last five interactions; the first interaction's two turns are gone. */
  lemma SixInteractions(xs: seq<(string, string)>)
    requires |xs| == 6
    ensures Replay(Missing, xs) == Valid(TurnsOf(xs[1..]))
  {
    ReplayKeepsNewest(Missing, xs);
    assert TurnsOf(xs) == Exchange(xs[0].0, xs[0].1) + TurnsOf(xs[1..]);
    assert TurnsOf(xs)[2..] == TurnsOf(xs[1..]);
  }

  /** search_memory's test: the lower-cased query occurs in the lower-cased content. */
  predicate Matches(t: Turn, query: string)
  {
    Contains(Lower(t.content), Lower(query))
  }

  function Filter(ts: seq<Turn>, query: string): seq<Turn>
  {
    if |ts| == 0 then []
    else (if Matches(ts[0], query) then [ts[0]] else []) + Filter(ts[1..], query)
  }

  /** search_memory: the matching turns of the log; [] when the file is absent
      or not valid JSON. */
  function SearchMemory(f: MemoryFile, query: string): (found: seq<Turn>)
    ensures !f.Valid? ==> found == []
  {
    if f.Valid? then Filter(f.turns, query) else []
  }

  /** The search returns exactly the matching turns of the log, each as often
      as it is stored, as a subsequence of the log (oldest first), so never
      more turns than the log holds. */
  lemma {:induction false} SearchExact(f: MemoryFile, query: string)
    requires f.Valid?
    ensures var found := SearchMemory(f, query);
      IsSubsequence(found, f.turns)
      && (forall t :: t in found <==> t in f.turns && Matches(t, query))
      && (forall t :: multiset(found)[t] == if Matches(t, query) then multiset(f.turns)[t] else 0)
      && |found| <= |f.turns|
  {
    FilterExact(f.turns, query);
    SubsequenceShorter(SearchMemory(f, query), f.turns);
  }

  lemma {:induction false} FilterExact(ts: seq<Turn>, query: string)
    ensures IsSubsequence(Filter(ts, query), ts)
    ensures forall t :: t in Filter(ts, query) <==> t in ts && Matches(t, query)
    ensures forall t :: multiset(Filter(ts, query))[t] == if Matches(t, query) then multiset(ts)[t] else 0
    decreases |ts|
  {
    if |ts| > 0 {
      FilterExact(ts[1..], query);
      var rest := Filter(ts[1..], query);
      assert ts == [ts[0]] + ts[1..];
      if Matches(ts[0], query) {
        assert Filter(ts, query) == [ts[0]] + rest;
        assert Filter(ts, query)[1..] == rest;
      } else {
        assert Filter(ts, query) == rest;
      }
    }
  }
}
