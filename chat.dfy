/**
 * The chat handler's history conversion (chat in app.py): the web UI's
 * history, a list of role/content entries, becomes the message list the agent
 * is invoked with. Invoking the agent is not modelled.
 */
module Chat {

  /** One entry of the UI history: {'role': ..., 'content': ...}. */
  datatype HistoryEntry = HistoryEntry(role: string, content: string)

  /** A message the agent receives: a HumanMessage or an AIMessage. */
  datatype Message = Human(content: string) | Ai(content: string)

  const UserRole: string := "user"
  const AssistantRole: string := "assistant"

  /** The entry is passed on to the agent: its role is user or assistant. */
  predicate Kept(e: HistoryEntry)
  {
    e.role == UserRole || e.role == AssistantRole
  }

  /** The message an entry that is passed on becomes. */
  function ToMessage(e: HistoryEntry): Message
  {
    if e.role == UserRole then Human(e.content) else Ai(e.content)
  }

  /** The messages the history becomes, in history order; entries with any other role are dropped. */
  function Converted(history: seq<HistoryEntry>): seq<Message>
  {
    if history == [] then []
    else Converted(history[..|history| - 1])
         + (if Kept(history[|history| - 1]) then [ToMessage(history[|history| - 1])] else [])
  }

  /** The entries that are passed on, in history order. */
  function KeptEntries(history: seq<HistoryEntry>): seq<HistoryEntry>
  {
    if history == [] then []
    else KeptEntries(history[..|history| - 1])
         + (if Kept(history[|history| - 1]) then [history[|history| - 1]] else [])
  }

  /** The history entry a message stands for. */
  function ToEntry(m: Message): HistoryEntry
  {
    match m
    case Human(c) => HistoryEntry(UserRole, c)
    case Ai(c) => HistoryEntry(AssistantRole, c)
  }

  /** The history entries a list of messages stands for. */
  function ToEntries(messages: seq<Message>): seq<HistoryEntry>
  {
    seq(|messages|, k requires 0 <= k < |messages| => ToEntry(messages[k]))
  }

  /**
   * The conversion loop: the history's messages in order, with the new user
   * message last.
   */
  method BuildMessages(message: string, history: seq<HistoryEntry>) returns (messages: seq<Message>)
    ensures messages == Converted(history) + [Human(message)]
  {
    messages := [];
    for i := 0 to |history|
      invariant messages == Converted(history[..i])
    {
      assert history[..i + 1][..i] == history[..i];
      var msg := history[i];
      if msg.role == "user" {
        messages := messages + [Human(msg.content)];
      } else if msg.role == "assistant" {
        messages := messages + [Ai(msg.content)];
      }
    }
    assert history[..|history|] == history;
    messages := messages + [Human(message)];
  }

  /**
   * Converting keeps exactly the user and assistant entries: turning the
   * messages back into entries gives the history with every other entry
   * dropped, in the same order.
   */
  lemma {:induction false} ConvertedRoundTrip(history: seq<HistoryEntry>)
    ensures ToEntries(Converted(history)) == KeptEntries(history)
  {
    if history != [] {
      var init := history[..|history| - 1];
      var last := history[|history| - 1];
      ConvertedRoundTrip(init);
      var tail := if Kept(last) then [ToMessage(last)] else [];
      assert Converted(history) == Converted(init) + tail;
      assert ToEntries(Converted(init) + tail) == ToEntries(Converted(init)) + ToEntries(tail);
    }
  }

  /** Converting a concatenation converts each part: the order of the history is kept. */
  lemma {:induction false} ConvertedAppend(h1: seq<HistoryEntry>, h2: seq<HistoryEntry>)
    ensures Converted(h1 + h2) == Converted(h1) + Converted(h2)
    decreases |h2|
  {
    if h2 != [] {
      var init := h2[..|h2| - 1];
      assert (h1 + h2)[..|h1 + h2| - 1] == h1 + init;
      ConvertedAppend(h1, init);
    } else {
      assert h1 + h2 == h1;
    }
  }

  /** A history of user and assistant entries only loses nothing. */
  lemma {:induction false} AllKeptAllConverted(history: seq<HistoryEntry>)
    requires forall k :: 0 <= k < |history| ==> Kept(history[k])
    ensures |Converted(history)| == |history|
    ensures forall k :: 0 <= k < |history| ==> Converted(history)[k] == ToMessage(history[k])
  {
    if history != [] {
      AllKeptAllConverted(history[..|history| - 1]);
    }
  }

  /**
   * A message reaches the agent exactly when the history holds the matching
   * entry: a human message for a user entry, an AI message for an assistant entry.
   */
  lemma {:induction false} ConvertedMembers(history: seq<HistoryEntry>, c: string)
    ensures Human(c) in Converted(history) <==> HistoryEntry(UserRole, c) in history
    ensures Ai(c) in Converted(history) <==> HistoryEntry(AssistantRole, c) in history
  {
    if history != [] {
      var init := history[..|history| - 1];
      ConvertedMembers(init, c);
      assert history == init + [history[|history| - 1]];
    }
  }
}
