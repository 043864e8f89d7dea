/** The other copy of the memory hook (src/agentcore/memory_hook.py). It differs from
    the helper's only in `on_agent_initialized`, which checks the ids before any
    store call and never asks for the strategies. */
module MemoryHook {
  import opened Memory
  import opened Conversation

  /** `MemoryHookProvider`, bound to one store (the client and memory id together). */
  class MemoryHookProvider {
    const store: MemoryStore

    constructor (store: MemoryStore)
      ensures this.store == store
    {
      this.store := store;
    }

    /** `on_agent_initialized`: with an id missing or empty nothing is asked of the
        store and the prompt stays; otherwise the last five turns are asked for and,
        if they hold messages with both keys, appended to the prompt once. A raising
        step leaves the prompt as it was and nothing escapes. */
    method OnAgentInitialized(agent: Agent, turns: Reply<seq<Turn>>)
      modifies agent`systemPrompt, store`requests
      ensures store.events == old(store.events)
      ensures store.requests == old(store.requests) +
        (if SessionOf(agent.state).Some?
         then [GetLastKTurns(SessionOf(agent.state).value.0, SessionOf(agent.state).value.1, TurnsToLoad)]
         else [])
      ensures agent.systemPrompt ==
        if SessionOf(agent.state).Some? && turns.Returned?
        then Loaded(old(agent.systemPrompt), turns.value)
        else old(agent.systemPrompt)
    {
      var ids := SessionOf(agent.state);
      if ids.None? {
        // "Missing actor_id or session_id in agent state"
        return;
      }
      LoadRecentTurns(agent, store, ids.value.0, ids.value.1, turns);
    }

    /** `on_message_added`: at most one event is written, for the last message. */
    method OnMessageAdded(agent: Agent, accepted: bool)
      modifies store
      ensures agent.systemPrompt == old(agent.systemPrompt)
      ensures store.requests == old(store.requests) +
        (if EventFor(agent.state, agent.messages).Some? then [CreateEvent(EventFor(agent.state, agent.messages).value)] else [])
      ensures store.events == old(store.events) +
        (if accepted && EventFor(agent.state, agent.messages).Some? then [EventFor(agent.state, agent.messages).value] else [])
    {
      SaveLastMessage(agent, store, accepted);
    }
  }
}
