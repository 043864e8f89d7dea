/** The logic both copies of the memory hook share: turning stored turns into the
    "Recent conversation" block appended to the system prompt, choosing the message
    that `on_message_added` writes, and the text shown by the memory viewer. */
module Conversation {
  import opened Memory
  import opened Strings

  /** How many turns `on_agent_initialized` asks the store for. */
  const TurnsToLoad: nat := 5
  /** What is put between the old system prompt and the context lines. */
  const Header := "\n\nRecent conversation:\n"
  /** The separator of the context lines. */
  const NewLine := '\n'
  /** How many characters of a message the viewer shows before cutting it. */
  const PreviewLength: nat := 100
  const Ellipsis := "..."

  /** Python truthiness of an optional string: present and not empty. */
  predicate Truthy(s: Option<string>)
  {
    s.Some? && s.value != ""
  }

  // ---------------------------------------------------------------------------
  // Flattening turns

  /** The number of messages over all turns. */
  function TotalMessages(turns: seq<Turn>): nat
    decreases |turns|
  {
    if turns == [] then 0 else TotalMessages(turns[..|turns| - 1]) + |turns[|turns| - 1]|
  }

  /** Where the messages of turn `t` start among all messages. */
  function Offset(turns: seq<Turn>, t: nat): nat
    requires t <= |turns|
  {
    TotalMessages(turns[..t])
  }

  /** The messages of all turns, turn after turn, each turn in its own order: the
      order in which the nested loops of `on_agent_initialized` visit them. */
  function Flatten(turns: seq<Turn>): (ms: seq<StoredMessage>)
    ensures |ms| == TotalMessages(turns)
    decreases |turns|
  {
    if turns == [] then [] else Flatten(turns[..|turns| - 1]) + turns[|turns| - 1]
  }

  /** Message `m` of turn `t` sits at position `Offset(turns, t) + m` of the flattening. */
  lemma {:induction false} FlattenAt(turns: seq<Turn>, t: nat, m: nat)
    requires t < |turns| && m < |turns[t]|
    ensures Offset(turns, t) + m < |Flatten(turns)|
    ensures Flatten(turns)[Offset(turns, t) + m] == turns[t][m]
    decreases |turns|
  {
    var init := turns[..|turns| - 1];
    assert Flatten(turns) == Flatten(init) + turns[|turns| - 1];
    if t == |turns| - 1 {
      assert turns[..t] == init;
    } else {
      assert turns[..t] == init[..t];
      FlattenAt(init, t, m);
    }
  }

  /** Every position of the flattening holds some message of some turn: position
      `k` is message `m` of turn `t`. */
  lemma {:induction false} FlattenCovers(turns: seq<Turn>, k: nat) returns (t: nat, m: nat)
    requires k < |Flatten(turns)|
    ensures t < |turns| && m < |turns[t]| && k == Offset(turns, t) + m
    decreases |turns|
  {
    var init := turns[..|turns| - 1];
    assert Flatten(turns) == Flatten(init) + turns[|turns| - 1];
    if k < |Flatten(init)| {
      t, m := FlattenCovers(init, k);
      assert turns[..t] == init[..t];
    } else {
      t, m := |turns| - 1, k - |Flatten(init)|;
      assert turns[..t] == init;
    }
  }

  // ---------------------------------------------------------------------------
  // The context block

  /** Both keys the loop reads are present. */
  predicate Readable(m: StoredMessage)
  {
    m.role.Some? && m.text.Some?
  }

  predicate AllReadable(ms: seq<StoredMessage>)
  {
    forall i | 0 <= i < |ms| :: Readable(ms[i])
  }

  /** No message of any turn lacks a key, so the loop never raises `KeyError`. */
  predicate Intact(turns: seq<Turn>)
  {
    forall t, m | 0 <= t < |turns| && 0 <= m < |turns[t]| :: Readable(turns[t][m])
  }

  /** `f"{role}: {content}"` */
  function Line(m: StoredMessage): string
    requires Readable(m)
  {
    m.role.value + ": " + m.text.value
  }

  /** The `context_messages` list the nested loops build, or `None` when the loop
      raises `KeyError` on a message without a role or a text. */
  function ContextLines(turns: seq<Turn>): Option<seq<string>>
  {
    var ms := Flatten(turns);
    if AllReadable(ms) then Some(seq(|ms|, i requires 0 <= i < |ms| => Line(ms[i]))) else None
  }

  /** The prompt `on_agent_initialized` leaves once the store returned `turns`: the
      old prompt when there are no turns or the loop raised, otherwise the old prompt
      followed by the header and the context lines joined by newlines. */
  function Loaded(prompt: string, turns: seq<Turn>): string
  {
    if |turns| == 0 then prompt
    else match ContextLines(turns)
      case None => prompt
      case Some(lines) => prompt + Header + Join(lines, [NewLine])
  }

  /** Checking every flattened message is checking every message of every turn. */
  lemma IntactIffAllReadable(turns: seq<Turn>)
    ensures Intact(turns) <==> AllReadable(Flatten(turns))
  {
    var ms := Flatten(turns);
    if Intact(turns) {
      forall k | 0 <= k < |ms| ensures Readable(ms[k]) {
        var t, m := FlattenCovers(turns, k);
        FlattenAt(turns, t, m);
      }
    }
    if AllReadable(ms) {
      forall t, m | 0 <= t < |turns| && 0 <= m < |turns[t]| ensures Readable(turns[t][m]) {
        FlattenAt(turns, t, m);
      }
    }
  }

  /** `lines` has one line per message, and message `m` of turn `t` gives line
      `Offset(turns, t) + m`. */
  predicate FollowsTurns(lines: seq<string>, turns: seq<Turn>)
  {
    && |lines| == TotalMessages(turns)
    && forall t, m | 0 <= t < |turns| && 0 <= m < |turns[t]| :: LineAt(lines, turns, t, m)
  }

  /** Message `m` of turn `t` has both keys and gives line `Offset(turns, t) + m`. */
  predicate LineAt(lines: seq<string>, turns: seq<Turn>, t: nat, m: nat)
    requires t < |turns| && m < |turns[t]|
  {
    && Readable(turns[t][m])
    && Offset(turns, t) + m < |lines|
    && lines[Offset(turns, t) + m] == Line(turns[t][m])
  }

  /** The loop succeeds exactly when every message has both keys, and then the
      context keeps turn order and message order, one line per message. */
  lemma ContextLinesInOrder(turns: seq<Turn>)
    ensures ContextLines(turns).Some? <==> Intact(turns)
    ensures ContextLines(turns).Some? ==> FollowsTurns(ContextLines(turns).value, turns)
  {
    IntactIffAllReadable(turns);
    if ContextLines(turns).Some? {
      var lines := ContextLines(turns).value;
      assert |lines| == |Flatten(turns)| == TotalMessages(turns);
      forall t, m | 0 <= t < |turns| && 0 <= m < |turns[t]|
        ensures LineAt(lines, turns, t, m)
      {
        FlattenAt(turns, t, m);
        ContextLineAt(turns, Offset(turns, t) + m);
      }
      assert FollowsTurns(lines, turns);
    }
  }

  /** The prompt changes exactly when the store returned at least one turn and every
      message has a role and a text; it then gains the header and one line per
      message, in order, and is otherwise left as it was. */
  lemma LoadedPrompt(prompt: string, turns: seq<Turn>)
    ensures !(|turns| > 0 && Intact(turns)) ==> Loaded(prompt, turns) == prompt
    ensures |turns| > 0 && Intact(turns) ==>
      && ContextLines(turns).Some?
      && FollowsTurns(ContextLines(turns).value, turns)
      && Loaded(prompt, turns) == prompt + Header + Join(ContextLines(turns).value, [NewLine])
  {
    ContextLinesInOrder(turns);
  }

  /** Turns that hold no message at all still add the bare header: the source tests
      the list of turns, not the messages. */
  lemma EmptyTurnsAddHeader(prompt: string, turns: seq<Turn>)
    requires |turns| > 0 && TotalMessages(turns) == 0
    ensures Loaded(prompt, turns) == prompt + Header
  {
    assert Flatten(turns) == [];
  }

  /** Neither the role nor the text of a message holds a newline. */
  predicate SingleLine(m: StoredMessage)
  {
    Readable(m) && NewLine !in m.role.value && NewLine !in m.text.value
  }

  /** Line `k` of the context is the line of flattened message `k`. */
  lemma ContextLineAt(turns: seq<Turn>, k: nat)
    requires ContextLines(turns).Some? && k < |ContextLines(turns).value|
    ensures k < |Flatten(turns)| && Readable(Flatten(turns)[k])
    ensures ContextLines(turns).value[k] == Line(Flatten(turns)[k])
  {
  }

  /** When no role or text holds a newline, the block after the header splits back
      into exactly the context lines, so it has one line per message. */
  lemma ContextBlockSplits(turns: seq<Turn>)
    requires TotalMessages(turns) > 0
    requires forall t, m | 0 <= t < |turns| && 0 <= m < |turns[t]| :: SingleLine(turns[t][m])
    ensures ContextLines(turns).Some?
    ensures Split(Join(ContextLines(turns).value, [NewLine]), NewLine) == ContextLines(turns).value
    ensures |Split(Join(ContextLines(turns).value, [NewLine]), NewLine)| == TotalMessages(turns)
  {
    IntactIffAllReadable(turns);
    var lines := ContextLines(turns).value;
    forall i | 0 <= i < |lines| ensures NewLine !in lines[i] {
      ContextLineSingle(turns, i);
    }
    SplitJoin(lines, NewLine);
  }

  /** A context line holds no newline when its message's role and text hold none. */
  lemma ContextLineSingle(turns: seq<Turn>, k: nat)
    requires forall t, m | 0 <= t < |turns| && 0 <= m < |turns[t]| :: SingleLine(turns[t][m])
    requires ContextLines(turns).Some? && k < |ContextLines(turns).value|
    ensures NewLine !in ContextLines(turns).value[k]
  {
    ContextLineAt(turns, k);
    var t, m := FlattenCovers(turns, k);
    FlattenAt(turns, t, m);
    var msg := Flatten(turns)[k];
    assert SingleLine(msg);
    assert NewLine !in ": ";
    assert Line(msg) == msg.role.value + ": " + msg.text.value;
  }

  /** The nested loops of `on_agent_initialized`: walk the turns and their messages
      in order, appending one line per message; a missing key ends the walk. */
  method CollectContextLines(turns: seq<Turn>) returns (lines: Option<seq<string>>)
    ensures lines == ContextLines(turns)
  {
    var acc: seq<string> := [];
    var i := 0;
    while i < |turns|
      invariant 0 <= i <= |turns|
      invariant AllReadable(Flatten(turns[..i]))
      invariant |acc| == |Flatten(turns[..i])|
      invariant forall k | 0 <= k < |acc| :: acc[k] == Line(Flatten(turns[..i])[k])
    {
      var turn := turns[i];
      assert turns[..i + 1][..i] == turns[..i];
      assert Flatten(turns[..i + 1]) == Flatten(turns[..i]) + turn;
      var j := 0;
      while j < |turn|
        invariant 0 <= j <= |turn|
        invariant AllReadable(Flatten(turns[..i]) + turn[..j])
        invariant |acc| == |Flatten(turns[..i]) + turn[..j]|
        invariant forall k | 0 <= k < |acc| :: acc[k] == Line((Flatten(turns[..i]) + turn[..j])[k])
      {
        var message := turn[j];
        if message.role.None? || message.text.None? {
          // `message['role']` or `message['content']['text']` raises KeyError
          FlattenAt(turns, i, j);
          return None;
        }
        assert Flatten(turns[..i]) + turn[..j + 1] == (Flatten(turns[..i]) + turn[..j]) + [message];
        acc := acc + [message.role.value + ": " + message.text.value];
        j := j + 1;
      }
      assert turn[..j] == turn;
      i := i + 1;
    }
    assert turns[..i] == turns;
    ghost var ms := Flatten(turns);
    assert acc == seq(|ms|, k requires 0 <= k < |ms| => Line(ms[k]));
    lines := Some(acc);
  }

  /** The ids `on_agent_initialized` needs: both `actor_id` and `session_id` present
      and not empty. */
  function SessionOf(state: map<string, string>): (r: Option<(string, string)>)
    ensures r.Some? <==> Truthy(Get(state, ActorKey)) && Truthy(Get(state, SessionKey))
    ensures r.Some? ==> r.value.0 == state[ActorKey] && r.value.1 == state[SessionKey]
  {
    var actor := Get(state, ActorKey);
    var session := Get(state, SessionKey);
    if Truthy(actor) && Truthy(session) then Some((actor.value, session.value)) else None
  }

  /** What both copies of `on_agent_initialized` do once the ids are known: ask for
      the last five turns and, when some came back and each message has both keys,
      append the context block to the system prompt. A raising store call or a
      missing key ends the handler with the prompt as it was. */
  method LoadRecentTurns(agent: Agent, store: MemoryStore, actor: string, session: string, turns: Reply<seq<Turn>>)
    modifies agent`systemPrompt, store`requests
    ensures store.requests == old(store.requests) + [GetLastKTurns(actor, session, TurnsToLoad)]
    ensures agent.systemPrompt ==
      if turns.Returned? then Loaded(old(agent.systemPrompt), turns.value) else old(agent.systemPrompt)
  {
    store.Log(GetLastKTurns(actor, session, TurnsToLoad));
    if turns.Raised? {
      return;
    }
    if |turns.value| == 0 {
      // `if recent_turns:` is false for an empty list
      return;
    }
    var lines := CollectContextLines(turns.value);
    if lines.None? {
      return;
    }
    agent.systemPrompt := agent.systemPrompt + Header + Join(lines.value, [NewLine]);
  }

  // ---------------------------------------------------------------------------
  // The message `on_message_added` writes

  /** The `(text, role)` pair the hook sends for the last message of the history, or
      `None` when nothing is sent: the history is empty or the last message has no
      content item (both `IndexError`), its first item has no text or an empty one,
      or it has no role (`KeyError`). */
  function Outgoing(messages: seq<AgentMessage>): (r: Option<(string, string)>)
    ensures r.Some? <==>
      |messages| > 0 &&
      |messages[|messages| - 1].content| > 0 &&
      Truthy(messages[|messages| - 1].content[0].text) &&
      messages[|messages| - 1].role.Some?
    ensures r.Some? ==>
      r.value.0 == messages[|messages| - 1].content[0].text.value &&
      r.value.1 == messages[|messages| - 1].role.value
    ensures r.Some? ==> r.value.0 != ""
  {
    if |messages| == 0 then None
    else
      var last := messages[|messages| - 1];
      if |last.content| == 0 then None
      else if !Truthy(last.content[0].text) then None
      else if last.role.None? then None
      else Some((last.content[0].text.value, last.role.value))
  }

  /** The event `on_message_added` writes for this state and history, if any. The
      ids are not checked: whatever `state.get` gave, `None` included, goes with it. */
  function EventFor(state: map<string, string>, messages: seq<AgentMessage>): (r: Option<Event>)
    ensures r.Some? <==> Outgoing(messages).Some?
    ensures r.Some? ==>
      && r.value.actor == Get(state, ActorKey)
      && r.value.session == Get(state, SessionKey)
      && (r.value.text, r.value.role) == Outgoing(messages).value
  {
    match Outgoing(messages)
    case None => None
    case Some((text, role)) => Some(Event(Get(state, ActorKey), Get(state, SessionKey), text, role))
  }

  /** What both copies of `on_message_added` do: look at the last message only and,
      when its first content item has text, send one `(text, role)` event under the
      current actor and session. Nothing raises out of it; a refused write leaves
      the held events as they were. */
  method SaveLastMessage(agent: Agent, store: MemoryStore, accepted: bool)
    modifies store
    ensures store.requests == old(store.requests) +
      (if EventFor(agent.state, agent.messages).Some? then [CreateEvent(EventFor(agent.state, agent.messages).value)] else [])
    ensures store.events == old(store.events) +
      (if accepted && EventFor(agent.state, agent.messages).Some? then [EventFor(agent.state, agent.messages).value] else [])
  {
    var messages := agent.messages;
    var actor := Get(agent.state, ActorKey);
    var session := Get(agent.state, SessionKey);
    if |messages| == 0 {
      // `messages[-1]` raises IndexError
      return;
    }
    var last := messages[|messages| - 1];
    if |last.content| == 0 {
      // `["content"][0]` raises IndexError
      return;
    }
    var text := last.content[0].text;
    if !Truthy(text) {
      return;
    }
    if last.role.None? {
      // `messages[-1]["role"]` raises KeyError before the store is called
      return;
    }
    store.CreateEvent(Event(actor, session, text.value, last.role.value), accepted);
  }

  // ---------------------------------------------------------------------------
  // The memory viewer

  /** The text shown for a message: itself when it has at most 100 characters,
      otherwise its first 100 characters followed by "...". */
  function Preview(text: string): (r: string)
    ensures |r| <= PreviewLength + |Ellipsis|
    ensures |text| <= PreviewLength ==> r == text
    ensures |text| > PreviewLength ==>
      |r| == PreviewLength + |Ellipsis| && r[..PreviewLength] == text[..PreviewLength] && r[PreviewLength..] == Ellipsis
  {
    if |text| > PreviewLength then text[..PreviewLength] + Ellipsis else text
  }

  /** A cut preview can still equal its text: a 103-character text ending in "..."
      is shown as itself, so "shown unchanged" is not the same as "short". */
  lemma PreviewCanLookUncut()
    ensures var text := seq(PreviewLength, _ => 'a') + Ellipsis;
      |text| > PreviewLength && Preview(text) == text
  {
    var text := seq(PreviewLength, _ => 'a') + Ellipsis;
    assert text[..PreviewLength] + Ellipsis == text;
  }

  /** What the viewer prints, up to the point where it raised if it did. */
  datatype Printed = Printed(lines: seq<string>, raised: bool)

  /** The first line of the viewer's output (the source writes `session_id` with no
      separator before the value). */
  function ViewHeader(actor: string, session: string): string
  {
    "=== Memory Contents for actor_id: " + actor + ", session_id" + session + " ==="
  }

  /** `f"  {role}: {content}"` with the content cut by `Preview`. */
  function MessageView(m: StoredMessage): string
    requires Readable(m)
  {
    "  " + m.role.value + ": " + Preview(m.text.value)
  }

  function MessagesView(ms: seq<StoredMessage>): Printed
    decreases |ms|
  {
    if ms == [] then Printed([], false)
    else
      var p := MessagesView(ms[..|ms| - 1]);
      var m := ms[|ms| - 1];
      if p.raised then p
      else if !Readable(m) then Printed(p.lines, true)
      else Printed(p.lines + [MessageView(m)], false)
  }

  /** `f"Turn {i}:"` */
  function TurnTitle(number: nat): string
  {
    "Turn " + NatToString(number) + ":"
  }

  /** "Turn n:", the messages, and the empty line of the bare `print()`. */
  function TurnView(number: nat, turn: Turn): Printed
  {
    var body := MessagesView(turn);
    Printed([TurnTitle(number)] + body.lines + (if body.raised then [] else [""]), body.raised)
  }

  /** The turns numbered from 1, as `enumerate(recent_turns, 1)` does. */
  function TurnsView(turns: seq<Turn>): Printed
    decreases |turns|
  {
    if turns == [] then Printed([], false)
    else
      var p := TurnsView(turns[..|turns| - 1]);
      if p.raised then p
      else
        var q := TurnView(|turns|, turns[|turns| - 1]);
        Printed(p.lines + q.lines, q.raised)
  }

  /** The whole output of the memory viewer for the turns the store returned. */
  function MemoryView(actor: string, session: string, turns: seq<Turn>): Printed
  {
    var body := TurnsView(turns);
    Printed([ViewHeader(actor, session)] + body.lines, body.raised)
  }

  /** Printing a turn's messages raises exactly when one of them lacks a key; when
      none does, line `i` is message `i` shown by `MessageView`. */
  lemma {:induction false} MessagesViewShape(ms: seq<StoredMessage>)
    ensures MessagesView(ms).raised <==> !AllReadable(ms)
    ensures !MessagesView(ms).raised ==> |MessagesView(ms).lines| == |ms|
    ensures AllReadable(ms) ==> forall i | 0 <= i < |ms| :: MessagesView(ms).lines[i] == MessageView(ms[i])
    decreases |ms|
  {
    if ms != [] {
      var init := ms[..|ms| - 1];
      MessagesViewShape(init);
      assert forall i | 0 <= i < |init| :: init[i] == ms[i];
    }
  }

  /** The turns print two lines each ("Turn n:" and the empty line) and one line per
      message, or raise at the first message that lacks a key. */
  lemma {:induction false} TurnsViewShape(turns: seq<Turn>)
    ensures TurnsView(turns).raised <==> !AllReadable(Flatten(turns))
    ensures !TurnsView(turns).raised ==> |TurnsView(turns).lines| == 2 * |turns| + TotalMessages(turns)
    decreases |turns|
  {
    if turns != [] {
      var init := turns[..|turns| - 1];
      var last := turns[|turns| - 1];
      TurnsViewShape(init);
      MessagesViewShape(last);
      var a := Flatten(init);
      assert Flatten(turns) == a + last;
      assert AllReadable(a + last) <==> AllReadable(a) && AllReadable(last) by {
        assert forall i | 0 <= i < |a| :: (a + last)[i] == a[i];
        assert forall i | 0 <= i < |last| :: (a + last)[|a| + i] == last[i];
      }
    }
  }

  /** The block printed for one turn starts at line `at` of `lines`: "Turn n:", then
      one line per message, then the empty line. */
  predicate ShowsTurnAt(lines: seq<string>, at: nat, number: nat, turn: Turn)
    requires AllReadable(turn)
  {
    && at + |turn| + 1 < |lines|
    && lines[at] == TurnTitle(number)
    && (forall m | 0 <= m < |turn| :: ShowsMessageAt(lines, at, turn, m))
    && lines[at + 1 + |turn|] == ""
  }

  /** Message `m` of a turn whose block starts at line `at` is shown on line `at + 1 + m`. */
  predicate ShowsMessageAt(lines: seq<string>, at: nat, turn: Turn, m: nat)
    requires m < |turn| && Readable(turn[m])
  {
    at + 1 + m < |lines| && lines[at + 1 + m] == MessageView(turn[m])
  }

  /** A printed block stays where it was when lines are printed after it. */
  lemma ShowsTurnAtExtend(lines: seq<string>, after: seq<string>, at: nat, number: nat, turn: Turn)
    requires AllReadable(turn) && ShowsTurnAt(lines, at, number, turn)
    ensures ShowsTurnAt(lines + after, at, number, turn)
  {
    forall m | 0 <= m < |turn| ensures ShowsMessageAt(lines + after, at, turn, m) {
      assert ShowsMessageAt(lines, at, turn, m);
    }
  }

  /** A printed block moves down by the number of lines printed before it. */
  lemma ShowsTurnAtShift(before: seq<string>, lines: seq<string>, at: nat, shifted: nat, number: nat, turn: Turn)
    requires AllReadable(turn) && ShowsTurnAt(lines, at, number, turn) && shifted == |before| + at
    ensures ShowsTurnAt(before + lines, shifted, number, turn)
  {
    var all := before + lines;
    assert all[shifted] == lines[at];
    assert all[shifted + 1 + |turn|] == lines[at + 1 + |turn|];
    forall m | 0 <= m < |turn| ensures ShowsMessageAt(all, shifted, turn, m) {
      assert ShowsMessageAt(lines, at, turn, m);
      assert all[shifted + 1 + m] == lines[at + 1 + m];
    }
  }

  /** Every turn of an intact list has both keys in every message. */
  lemma IntactTurn(turns: seq<Turn>, t: nat)
    requires Intact(turns) && t < |turns|
    ensures AllReadable(turns[t])
  {
  }

  /** What the viewer prints for one turn when every message has both keys. */
  function TurnBlock(number: nat, turn: Turn): seq<string>
    requires AllReadable(turn)
  {
    [TurnTitle(number)] + seq(|turn|, m requires 0 <= m < |turn| => MessageView(turn[m])) + [""]
  }

  /** What the viewer prints for the turns when every message has both keys: the
      blocks of the turns, numbered from 1, one after the other. */
  function TurnsBlock(turns: seq<Turn>): seq<string>
    requires Intact(turns)
    decreases |turns|
  {
    if turns == [] then []
    else
      assert forall t | 0 <= t < |turns| - 1 :: turns[..|turns| - 1][t] == turns[t];
      TurnsBlock(turns[..|turns| - 1]) + TurnBlock(|turns|, turns[|turns| - 1])
  }

  /** The block of a turn shows the turn, as `ShowsTurnAt` says, at its start. */
  lemma TurnBlockShows(number: nat, turn: Turn)
    requires AllReadable(turn)
    ensures |TurnBlock(number, turn)| == |turn| + 2
    ensures ShowsTurnAt(TurnBlock(number, turn), 0, number, turn)
  {
    var lines := TurnBlock(number, turn);
    forall m | 0 <= m < |turn| ensures ShowsMessageAt(lines, 0, turn, m) {
      assert lines[1 + m] == MessageView(turn[m]);
    }
  }

  /** With every message readable, the viewer prints a turn as its block. */
  lemma TurnViewIsBlock(number: nat, turn: Turn)
    requires AllReadable(turn)
    ensures TurnView(number, turn) == Printed(TurnBlock(number, turn), false)
  {
    MessagesViewShape(turn);
    assert MessagesView(turn).lines == seq(|turn|, m requires 0 <= m < |turn| => MessageView(turn[m]));
  }

  /** With every message readable, the viewer never raises and prints the blocks of
      the turns in order. */
  lemma {:induction false} TurnsViewIsBlock(turns: seq<Turn>)
    requires Intact(turns)
    ensures TurnsView(turns) == Printed(TurnsBlock(turns), false)
    decreases |turns|
  {
    if turns != [] {
      var n := |turns| - 1;
      assert forall t | 0 <= t < n :: turns[..n][t] == turns[t];
      TurnsViewIsBlock(turns[..n]);
      IntactTurn(turns, n);
      TurnViewIsBlock(n + 1, turns[n]);
    }
  }

  /** Turn `t` of `turns` is shown as its block, starting `first` lines into `lines`
      plus the `2 * t` title and empty lines of the earlier turns and the
      `Offset(turns, t)` lines of their messages. */
  predicate ShowsTurnOf(lines: seq<string>, first: nat, turns: seq<Turn>, t: nat)
    requires t < |turns| && AllReadable(turns[t])
  {
    ShowsTurnAt(lines, first + 2 * t + Offset(turns, t), t + 1, turns[t])
  }

  /** Turn `t` exists, has both keys in every message, and is shown as `ShowsTurnOf` says. */
  predicate TurnShown(lines: seq<string>, first: nat, turns: seq<Turn>, t: nat)
  {
    t < |turns| && AllReadable(turns[t]) && ShowsTurnOf(lines, first, turns, t)
  }

  /** The blocks of the turns: turn `t` is shown as "Turn t+1:" followed by its
      messages and the empty line, at the place `ShowsTurnOf` gives. */
  lemma {:induction false} TurnsBlockShows(turns: seq<Turn>)
    requires Intact(turns)
    ensures |TurnsBlock(turns)| == 2 * |turns| + TotalMessages(turns)
    ensures forall t | 0 <= t < |turns| :: TurnShown(TurnsBlock(turns), 0, turns, t)
    decreases |turns|
  {
    if turns != [] {
      var n := |turns| - 1;
      var init := turns[..n];
      assert forall t | 0 <= t < n :: init[t] == turns[t];
      TurnsBlockShows(init);
      IntactTurn(turns, n);
      TurnBlockShows(n + 1, turns[n]);
      TurnsBlockLength(turns, init, TurnsBlock(init), TurnBlock(n + 1, turns[n]));
      TurnsBlockStep(turns, init, TurnsBlock(init), TurnBlock(n + 1, turns[n]));
    }
  }

  /** One step of the induction: the blocks of the earlier turns followed by the last
      turn's block show every turn. */
  lemma TurnsBlockStep(turns: seq<Turn>, init: seq<Turn>, p: seq<string>, q: seq<string>)
    requires |turns| > 0 && init == turns[..|turns| - 1]
    requires |p| == 2 * |init| + TotalMessages(init)
    requires forall t | 0 <= t < |init| :: TurnShown(p, 0, init, t)
    requires AllReadable(turns[|turns| - 1]) && ShowsTurnAt(q, 0, |turns|, turns[|turns| - 1])
    ensures forall t | 0 <= t < |turns| :: TurnShown(p + q, 0, turns, t)
  {
    forall t | 0 <= t < |init| ensures TurnShown(p + q, 0, turns, t) {
      BlockOfEarlierTurn(turns, init, t, p, q);
    }
    BlockOfLastTurn(turns, init, p, q);
    ShownOneMore(p + q, 0, turns, |init|);
  }

  /** Turns shown up to `n` and turn `n` shown: turns shown up to `n + 1`. */
  lemma ShownOneMore(lines: seq<string>, first: nat, turns: seq<Turn>, n: nat)
    requires forall t | 0 <= t < n :: TurnShown(lines, first, turns, t)
    requires TurnShown(lines, first, turns, n)
    ensures forall t | 0 <= t <= n :: TurnShown(lines, first, turns, t)
  {
  }

  /** The lines of the earlier turns' blocks and of the last turn's block add up. */
  lemma TurnsBlockLength(turns: seq<Turn>, init: seq<Turn>, p: seq<string>, q: seq<string>)
    requires |turns| > 0 && init == turns[..|turns| - 1]
    requires |p| == 2 * |init| + TotalMessages(init) && |q| == |turns[|turns| - 1]| + 2
    ensures |p + q| == 2 * |turns| + TotalMessages(turns)
  {
  }

  /** The block of an earlier turn stays where it was when the last turn's lines follow. */
  lemma BlockOfEarlierTurn(turns: seq<Turn>, init: seq<Turn>, t: nat, p: seq<string>, q: seq<string>)
    requires |turns| > 0 && init == turns[..|turns| - 1] && t < |init|
    requires TurnShown(p, 0, init, t)
    ensures TurnShown(p + q, 0, turns, t)
  {
    OffsetOfPrefix(turns, t);
    assert init[t] == turns[t];
    ShowsTurnAtExtend(p, q, 2 * t + Offset(init, t), t + 1, turns[t]);
  }

  /** The last turn's block comes right after the lines of the earlier turns. */
  lemma BlockOfLastTurn(turns: seq<Turn>, init: seq<Turn>, p: seq<string>, q: seq<string>)
    requires |turns| > 0 && init == turns[..|turns| - 1] && AllReadable(turns[|init|])
    requires |p| == 2 * |init| + TotalMessages(init)
    requires ShowsTurnAt(q, 0, |turns|, turns[|init|])
    ensures TurnShown(p + q, 0, turns, |init|)
  {
    var n := |init|;
    assert turns[..n] == init;
    assert |turns| == n + 1;
    ShowsTurnAtShift(p, q, 0, 0 + 2 * n + Offset(turns, n), n + 1, turns[n]);
  }

  /** Turn `t` starts at the same message in a list and in that list without its
      last turn. */
  lemma OffsetOfPrefix(turns: seq<Turn>, t: nat)
    requires t < |turns|
    ensures Offset(turns, t) == Offset(turns[..|turns| - 1], t)
  {
    assert turns[..t] == turns[..|turns| - 1][..t];
  }

  /** The viewer raises exactly when some message lacks a role or a text (printing
      what came before); otherwise it prints the header, two lines per turn and one
      line per message, and no message line shows more than 103 characters of text. */
  lemma ViewShape(actor: string, session: string, turns: seq<Turn>)
    ensures MemoryView(actor, session, turns).raised <==> !Intact(turns)
    ensures !MemoryView(actor, session, turns).raised ==>
      |MemoryView(actor, session, turns).lines| == 1 + 2 * |turns| + TotalMessages(turns)
    ensures forall m: StoredMessage | Readable(m) :: |MessageView(m)| <= |m.role.value| + 4 + PreviewLength + |Ellipsis|
  {
    TurnsViewShape(turns);
    IntactIffAllReadable(turns);
  }

  /** With every message readable, the viewer prints the header line first, and turn
      `t` as "Turn t+1:" at line `1 + 2 * t + Offset(turns, t)`, its messages in order
      on the lines after it, each as `MessageView`, then an empty line. */
  lemma ViewLines(actor: string, session: string, turns: seq<Turn>)
    requires Intact(turns)
    ensures !MemoryView(actor, session, turns).raised
    ensures MemoryView(actor, session, turns).lines[0] == ViewHeader(actor, session)
    ensures forall t | 0 <= t < |turns| :: TurnShown(MemoryView(actor, session, turns).lines, 1, turns, t)
  {
    TurnsViewIsBlock(turns);
    TurnsBlockShows(turns);
    var header := [ViewHeader(actor, session)];
    var body := TurnsBlock(turns);
    assert MemoryView(actor, session, turns).lines == header + body;
    forall t | 0 <= t < |turns|
      ensures TurnShown(header + body, 1, turns, t)
    {
      assert TurnShown(body, 0, turns, t);
      ShowsTurnAtShift(header, body, 0 + 2 * t + Offset(turns, t), 1 + 2 * t + Offset(turns, t), t + 1, turns[t]);
    }
  }

  /** Line by line: with every message readable, turn `t` is titled "Turn t+1:" on
      line `1 + 2 * t + Offset(turns, t)` of the viewer's output, its message `m` is
      shown on the line `m + 1` below that, and the empty line follows its last message. */
  lemma ViewLineOf(actor: string, session: string, turns: seq<Turn>, t: nat, m: nat)
    requires Intact(turns) && t < |turns| && m < |turns[t]|
    ensures 2 + 2 * t + Offset(turns, t) + |turns[t]| < |MemoryView(actor, session, turns).lines|
    ensures MemoryView(actor, session, turns).lines[1 + 2 * t + Offset(turns, t)] == "Turn " + NatToString(t + 1) + ":"
    ensures MemoryView(actor, session, turns).lines[2 + 2 * t + Offset(turns, t) + m] == MessageView(turns[t][m])
    ensures MemoryView(actor, session, turns).lines[2 + 2 * t + Offset(turns, t) + |turns[t]|] == ""
  {
    TurnsViewIsBlock(turns);
    TurnsBlockShows(turns);
    LineOfTurnBlock(MemoryView(actor, session, turns).lines, [ViewHeader(actor, session)], TurnsBlock(turns), turns, t, m);
  }

  /** The lines of turn `t` in `lines`, which is a one-line header followed by the
      blocks of the turns. */
  lemma LineOfTurnBlock(lines: seq<string>, header: seq<string>, body: seq<string>, turns: seq<Turn>, t: nat, m: nat)
    requires lines == header + body && |header| == 1
    requires t < |turns| && m < |turns[t]| && TurnShown(body, 0, turns, t)
    ensures 2 + 2 * t + Offset(turns, t) + |turns[t]| < |lines|
    ensures lines[1 + 2 * t + Offset(turns, t)] == "Turn " + NatToString(t + 1) + ":"
    ensures lines[2 + 2 * t + Offset(turns, t) + m] == MessageView(turns[t][m])
    ensures lines[2 + 2 * t + Offset(turns, t) + |turns[t]|] == ""
  {
    var at := 2 * t + Offset(turns, t);
    assert ShowsTurnOf(body, 0, turns, t);
    BlockLines(body, at, t + 1, turns[t], m);
    assert lines[1 + at] == body[at];
    assert lines[2 + at + m] == body[at + 1 + m];
    assert lines[2 + at + |turns[t]|] == body[at + 1 + |turns[t]|];
  }

  /** The lines of a block shown at line `at`, one by one. */
  lemma BlockLines(lines: seq<string>, at: nat, number: nat, turn: Turn, m: nat)
    requires AllReadable(turn) && ShowsTurnAt(lines, at, number, turn) && m < |turn|
    ensures at + 1 + |turn| < |lines|
    ensures lines[at] == "Turn " + NatToString(number) + ":"
    ensures lines[at + 1 + m] == MessageView(turn[m])
    ensures lines[at + 1 + |turn|] == ""
  {
    assert ShowsMessageAt(lines, at, turn, m);
  }
}
