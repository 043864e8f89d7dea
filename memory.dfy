/** The vocabulary both memory hooks work in: the agent whose lifecycle events they
    receive, the messages it holds, and the external memory store they talk to.
    The store is abstract: it holds the events written to it and remembers every
    request it was sent. What it answers to a read is not decided here; the hooks
    receive those answers as inputs. */
module Memory {

  datatype Option<T> = None | Some(value: T)

  /** The outcome of a call into code outside the model: it returned, or it raised. */
  datatype Reply<T> = Returned(value: T) | Raised

  /** A message of a stored turn as `get_last_k_turns` gives it: `message['role']` and
      `message['content']['text']`. A key the store left out is `None`; reading it
      raises `KeyError`. */
  datatype StoredMessage = StoredMessage(role: Option<string>, text: Option<string>)

  /** A turn groups one or more messages; the store decides the grouping. */
  type Turn = seq<StoredMessage>

  /** One entry of `get_memory_strategies`: its `type` and its `namespaces` list. */
  datatype Strategy = Strategy(kind: string, namespaces: seq<string>)

  /** A content item of an agent message; `text` is `item.get("text")`. */
  datatype ContentItem = ContentItem(text: Option<string>)

  /** A message in the agent's history; `role` is `None` when the key is absent. */
  datatype AgentMessage = AgentMessage(role: Option<string>, content: seq<ContentItem>)

  /** A conversational event held by the store. Actor and session are whatever the
      agent state held when the event was written, possibly nothing. */
  datatype Event = Event(actor: Option<string>, session: Option<string>, text: string, role: string)

  /** What the hooks ask of the store. */
  datatype Request =
    | GetMemoryStrategies
    | GetLastKTurns(actor: string, session: string, k: nat)
    | CreateEvent(event: Event)

  /** `state.get(key)` */
  function Get(state: map<string, string>, key: string): (r: Option<string>)
    ensures r.Some? <==> key in state
    ensures r.Some? ==> r.value == state[key]
  {
    if key in state then Some(state[key]) else None
  }

  /** The keys of the agent state the hooks read. */
  const ActorKey := "actor_id"
  const SessionKey := "session_id"

  /** The part of the agent the hooks see: its system prompt, its state dictionary and
      its message history. */
  class Agent {
    var systemPrompt: string
    var state: map<string, string>
    var messages: seq<AgentMessage>

    constructor (systemPrompt: string, state: map<string, string>, messages: seq<AgentMessage>)
      ensures this.systemPrompt == systemPrompt && this.state == state && this.messages == messages
    {
      this.systemPrompt := systemPrompt;
      this.state := state;
      this.messages := messages;
    }
  }

  /** The external memory store, seen as the events it holds and the requests it got. */
  class MemoryStore {
    var events: seq<Event>
    var requests: seq<Request>

    constructor ()
      ensures events == [] && requests == []
    {
      events := [];
      requests := [];
    }

    /** A read request: it is recorded; its answer is an input of the caller. */
    method Log(r: Request)
      modifies this`requests
      ensures requests == old(requests) + [r]
    {
      requests := requests + [r];
    }

    /** `create_event` with one message: the request is recorded, and the event is
        held when the store accepts it; a refused write (the call raised) holds nothing. */
    method CreateEvent(e: Event, accepted: bool)
      modifies this
      ensures requests == old(requests) + [Request.CreateEvent(e)]
      ensures events == old(events) + (if accepted then [e] else [])
    {
      requests := requests + [Request.CreateEvent(e)];
      if accepted {
        events := events + [e];
      }
    }
  }
}
