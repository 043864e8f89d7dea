/** The memory helper (src/agentcore/memory_helper.py): finding the short-term memory
    resource again when its name is taken, the map from strategy type to namespace,
    the namespaces the retrieval helpers query, and the hook that, unlike the other
    copy, reads the store's strategies before anything else. */
module MemoryHelper {
  import opened Memory
  import opened Strings
  import opened Conversation

  // ---------------------------------------------------------------------------
  // create_short_term_memory

  /** How `create_memory_and_wait` ended. */
  datatype CreateReply =
    | Created(id: string)
      /** a `ClientError`: its `response['Error']['Code']` and `str(e)` */
    | ClientError(code: string, message: string)
      /** any other exception */
    | OtherError

  const ValidationCode := "ValidationException"
  const AlreadyExistsText := "already exists"

  /** The error the helper recovers from: a validation error saying the name is taken. */
  predicate NameTaken(reply: CreateReply)
  {
    reply.ClientError? && reply.code == ValidationCode && Contains(reply.message, AlreadyExistsText)
  }

  /** `next((m['id'] for m in memories if m['id'].startswith(name)), None)`: the first
      id that starts with `name`, or `None` when no id does. */
  function FirstWithPrefix(ids: seq<string>, name: string): (r: Option<string>)
    ensures r.None? <==> forall i | 0 <= i < |ids| :: !StartsWith(ids[i], name)
    ensures r.Some? ==>
      exists i | 0 <= i < |ids| ::
        && ids[i] == r.value
        && StartsWith(ids[i], name)
        && forall j | 0 <= j < i :: !StartsWith(ids[j], name)
    decreases |ids|
  {
    if ids == [] then None
    else if StartsWith(ids[0], name) then Some(ids[0])
    else
      var r := FirstWithPrefix(ids[1..], name);
      assert forall i | 0 <= i < |ids| - 1 :: ids[1..][i] == ids[i + 1];
      r
  }

  /** `create_short_term_memory` with the generic-error path as intended: the new
      resource's id; on a taken name, the first listed id with the name as prefix
      (a raising listing escapes, as it is called inside the handler); `None` on
      every other error. */
  function CreateShortTermMemory(name: string, created: CreateReply, listed: Reply<seq<string>>): (r: Reply<Option<string>>)
    ensures r.Raised? <==> NameTaken(created) && listed.Raised?
    ensures created.Created? ==> r == Returned(Some(created.id))
    ensures NameTaken(created) && listed.Returned? ==> r == Returned(FirstWithPrefix(listed.value, name))
    ensures r.Returned? && r.value.Some? ==>
      || (created.Created? && r.value.value == created.id)
      || (NameTaken(created) && listed.Returned? && r.value.value in listed.value && StartsWith(r.value.value, name))
    ensures !created.Created? && !NameTaken(created) ==> r == Returned(None)
  {
    match created
    case Created(id) => Returned(Some(id))
    case ClientError(_, _) =>
      if !NameTaken(created) then Returned(None)
      else if listed.Raised? then Raised
      else Returned(FirstWithPrefix(listed.value, name))
    case OtherError => Returned(None)
  }

  /** `create_short_term_memory` as written: on a generic error the cleanup reads
      `memory_id` before anything assigned it, so `UnboundLocalError` escapes the
      handler instead of `None` being returned. */
  function CreateShortTermMemoryAsWritten(name: string, created: CreateReply, listed: Reply<seq<string>>): (r: Reply<Option<string>>)
    ensures created.OtherError? ==> r.Raised?
  {
    match created
    case Created(id) => Returned(Some(id))
    case ClientError(_, _) =>
      if !NameTaken(created) then Returned(None)
      else if listed.Raised? then Raised
      else Returned(FirstWithPrefix(listed.value, name))
    case OtherError => Raised
  }

  /** The two differ only on a generic error, where the code as written raises and
      the intended helper returns `None`. */
  lemma GenericErrorEscapes(name: string, created: CreateReply, listed: Reply<seq<string>>)
    ensures created.OtherError? ==>
      CreateShortTermMemoryAsWritten(name, created, listed) == Raised &&
      CreateShortTermMemory(name, created, listed) == Returned(None)
    ensures !created.OtherError? ==>
      CreateShortTermMemoryAsWritten(name, created, listed) == CreateShortTermMemory(name, created, listed)
  {
  }

  // ---------------------------------------------------------------------------
  // get_namespaces

  /** `{i["type"]: i["namespaces"][0] for i in strategies}`, or `None` when some
      strategy has an empty namespace list (`IndexError`). */
  function NamespaceMap(strategies: seq<Strategy>): Option<map<string, string>>
    decreases |strategies|
  {
    if strategies == [] then Some(map[])
    else match NamespaceMap(strategies[..|strategies| - 1])
      case None => None
      case Some(m) =>
        var last := strategies[|strategies| - 1];
        if last.namespaces == [] then None else Some(m[last.kind := last.namespaces[0]])
  }

  /** No later strategy has the type of strategy `i`. */
  predicate LastOfKind(strategies: seq<Strategy>, i: nat)
    requires i < |strategies|
  {
    forall j | i < j < |strategies| :: strategies[j].kind != strategies[i].kind
  }

  /** The map is built exactly when every strategy has a namespace. */
  lemma {:induction false} NamespaceMapDefined(strategies: seq<Strategy>)
    ensures NamespaceMap(strategies).Some? <==> forall i | 0 <= i < |strategies| :: strategies[i].namespaces != []
    decreases |strategies|
  {
    if strategies != [] {
      var init := strategies[..|strategies| - 1];
      NamespaceMapDefined(init);
      assert forall i | 0 <= i < |init| :: init[i] == strategies[i];
    }
  }

  /** The keys of the map are the strategy types. */
  lemma {:induction false} NamespaceMapKeys(strategies: seq<Strategy>)
    requires NamespaceMap(strategies).Some?
    ensures NamespaceMap(strategies).value.Keys == set i | 0 <= i < |strategies| :: strategies[i].kind
    decreases |strategies|
  {
    if strategies != [] {
      var n := |strategies|;
      var init := strategies[..n - 1];
      NamespaceMapKeys(init);
      var kinds := set i | 0 <= i < n :: strategies[i].kind;
      var initKinds := set i | 0 <= i < n - 1 :: init[i].kind;
      assert kinds == initKinds + {strategies[n - 1].kind} by {
        forall k | k in kinds ensures k in initKinds + {strategies[n - 1].kind} {
          var i :| 0 <= i < n && strategies[i].kind == k;
          if i < n - 1 {
            assert init[i].kind == k;
          }
        }
        forall k | k in initKinds ensures k in kinds {
          var i :| 0 <= i < n - 1 && init[i].kind == k;
          assert strategies[i].kind == k;
        }
      }
    }
  }

  /** Each type maps to the first namespace of the last strategy of that type: a
      later entry overwrites an earlier one. */
  lemma {:induction false} NamespaceMapLastWins(strategies: seq<Strategy>)
    requires forall i | 0 <= i < |strategies| :: strategies[i].namespaces != []
    ensures NamespaceMap(strategies).Some?
    ensures forall i | 0 <= i < |strategies| && LastOfKind(strategies, i) ::
      && strategies[i].kind in NamespaceMap(strategies).value
      && NamespaceMap(strategies).value[strategies[i].kind] == strategies[i].namespaces[0]
    decreases |strategies|
  {
    NamespaceMapDefined(strategies);
    if strategies != [] {
      var n := |strategies|;
      var init := strategies[..n - 1];
      var last := strategies[n - 1];
      assert forall i | 0 <= i < n - 1 :: init[i] == strategies[i];
      NamespaceMapLastWins(init);
      var r := NamespaceMap(strategies).value;
      assert r == NamespaceMap(init).value[last.kind := last.namespaces[0]];
      forall i | 0 <= i < n && LastOfKind(strategies, i)
        ensures strategies[i].kind in r && r[strategies[i].kind] == strategies[i].namespaces[0]
      {
        if i < n - 1 {
          assert LastOfKind(init, i);
          assert strategies[i].kind != last.kind;
        }
      }
    }
  }

  // ---------------------------------------------------------------------------
  // The retrieval helpers

  /** A `retrieve_memories` request: the namespace searched and the query text. */
  datatype Retrieval = Retrieval(namespace: string, query: string)

  const ActorSlot := "{actorId}"
  const SessionSlot := "{sessionId}"

  /** The namespace templates of the three long-term strategies. */
  const PreferenceTemplate := "users/{actorId}/preference"
  const SemanticTemplate := "users/{actorId}/semantic"
  const SummaryTemplate := "user/{actorId}/summary/{sessionId}"

  /** The namespace a template stands for once the actor and session are known. */
  function Instantiate(template: string, actor: string, session: string): string
    decreases |template|
  {
    if template == [] then []
    else if StartsWith(template, ActorSlot) then actor + Instantiate(template[|ActorSlot|..], actor, session)
    else if StartsWith(template, SessionSlot) then session + Instantiate(template[|SessionSlot|..], actor, session)
    else [template[0]] + Instantiate(template[1..], actor, session)
  }

  /** `retrieve_user_preference(actor_id)` */
  function RetrieveUserPreference(actor: string): Retrieval
  {
    Retrieval("users/" + actor + "/preference", "Summaries all the preferences")
  }

  /** `retrieve_semantic(actor_id)` */
  function RetrieveSemantic(actor: string): Retrieval
  {
    Retrieval("users/" + actor + "/semantic", "Summaries all the semantics")
  }

  /** `retrieve_summaries(actor_id, session_id)` */
  function RetrieveSummaries(actor: string, session: string): Retrieval
  {
    Retrieval("user/" + actor + "/summary/" + session, "Summaries all the questions")
  }

  lemma {:induction false} InstantiatePlain(text: string, rest: string, actor: string, session: string)
    requires '{' !in text
    ensures Instantiate(text + rest, actor, session) == text + Instantiate(rest, actor, session)
    decreases |text|
  {
    if text == [] {
      assert text + rest == rest;
    } else {
      var tail := text[1..];
      assert text + rest == [text[0]] + (tail + rest);
      InstantiateCons(text[0], tail + rest, actor, session);
      assert '{' !in tail;
      InstantiatePlain(tail, rest, actor, session);
      assert text + Instantiate(rest, actor, session) == [text[0]] + (tail + Instantiate(rest, actor, session));
    }
  }

  /** A character other than a brace is copied as it is. */
  lemma InstantiateCons(c: char, rest: string, actor: string, session: string)
    requires c != '{'
    ensures Instantiate([c] + rest, actor, session) == [c] + Instantiate(rest, actor, session)
  {
    var s := [c] + rest;
    assert s[0] == c;
    assert s[1..] == rest;
  }

  lemma InstantiateActor(rest: string, actor: string, session: string)
    ensures Instantiate(ActorSlot + rest, actor, session) == actor + Instantiate(rest, actor, session)
  {
    var s := ActorSlot + rest;
    assert s[..|ActorSlot|] == ActorSlot;
    assert s[|ActorSlot|..] == rest;
  }

  lemma InstantiateSession(rest: string, actor: string, session: string)
    ensures Instantiate(SessionSlot + rest, actor, session) == session + Instantiate(rest, actor, session)
  {
    var s := SessionSlot + rest;
    assert s[..|SessionSlot|] == SessionSlot;
    assert s[1] == 's';
    assert !StartsWith(s, ActorSlot);
    assert s[|SessionSlot|..] == rest;
  }

  /** A template without slots stands for itself. */
  lemma InstantiateNoSlot(text: string, actor: string, session: string)
    requires '{' !in text
    ensures Instantiate(text, actor, session) == text
  {
    InstantiatePlain(text, "", actor, session);
    assert text + "" == text;
  }

  /** A template with the actor slot between two plain parts. */
  lemma InstantiateActorBetween(before: string, after: string, actor: string, session: string)
    requires '{' !in before && '{' !in after
    ensures Instantiate(before + (ActorSlot + after), actor, session) == before + (actor + after)
  {
    InstantiateNoSlot(after, actor, session);
    InstantiateActor(after, actor, session);
    InstantiatePlain(before, ActorSlot + after, actor, session);
  }

  /** The three templates, cut at their slots. */
  lemma PreferenceParts()
    ensures PreferenceTemplate == "users/" + (ActorSlot + "/preference")
  {
  }

  lemma SemanticParts()
    ensures SemanticTemplate == "users/" + (ActorSlot + "/semantic")
  {
  }

  lemma SummaryParts()
    ensures SummaryTemplate == "user/" + (ActorSlot + ("/summary/" + SessionSlot))
  {
  }

  /** `retrieve_user_preference` searches the preference strategy's namespace. */
  lemma PreferenceFollowsTemplate(actor: string, session: string)
    ensures RetrieveUserPreference(actor).namespace == Instantiate(PreferenceTemplate, actor, session)
  {
    PreferenceParts();
    InstantiateActorBetween("users/", "/preference", actor, session);
  }

  /** `retrieve_semantic` searches the semantic strategy's namespace. */
  lemma SemanticFollowsTemplate(actor: string, session: string)
    ensures RetrieveSemantic(actor).namespace == Instantiate(SemanticTemplate, actor, session)
  {
    SemanticParts();
    InstantiateActorBetween("users/", "/semantic", actor, session);
  }

  /** The session slot alone stands for the session. */
  lemma InstantiateSessionAlone(actor: string, session: string)
    ensures Instantiate(SessionSlot, actor, session) == session
  {
    InstantiateSession("", actor, session);
    assert SessionSlot + "" == SessionSlot;
  }

  lemma InstantiateSummaryTail(actor: string, session: string)
    ensures Instantiate("/summary/" + SessionSlot, actor, session) == "/summary/" + session
  {
    InstantiateSessionAlone(actor, session);
    InstantiatePlain("/summary/", SessionSlot, actor, session);
  }

  lemma InstantiateSummary(actor: string, session: string)
    ensures Instantiate("user/" + (ActorSlot + ("/summary/" + SessionSlot)), actor, session) ==
            "user/" + (actor + ("/summary/" + session))
  {
    InstantiateSummaryTail(actor, session);
    InstantiateActor("/summary/" + SessionSlot, actor, session);
    InstantiatePlain("user/", ActorSlot + ("/summary/" + SessionSlot), actor, session);
  }

  /** `retrieve_summaries` searches the summary strategy's namespace for the session. */
  lemma SummaryFollowsTemplate(actor: string, session: string)
    ensures RetrieveSummaries(actor, session).namespace == Instantiate(SummaryTemplate, actor, session)
  {
    SummaryParts();
    InstantiateSummary(actor, session);
  }

  // ---------------------------------------------------------------------------
  // The hook

  /** Strategies the store returned and the namespace map could be built from. */
  predicate Fetched(strategies: Reply<seq<Strategy>>)
  {
    strategies.Returned? && NamespaceMap(strategies.value).Some?
  }

  /** `MemoryHookProvider` of the helper: bound to one store (the client and memory id
      together), with the namespace map the last successful initialization built. */
  class MemoryHookProvider {
    const store: MemoryStore
    /** `self.namespaces`: `None` until an initialization got through the lookup. */
    var namespaces: Option<map<string, string>>

    constructor (store: MemoryStore)
      ensures this.store == store && namespaces == None
    {
      this.store := store;
      namespaces := None;
    }

    /** `on_agent_initialized`: the strategies are asked for first, before the ids are
        checked; with both ids present the last five turns are asked for and, if
        they hold messages with both keys, appended to the prompt once. Any raising
        step leaves the rest undone and nothing escapes. */
    method OnAgentInitialized(agent: Agent, strategies: Reply<seq<Strategy>>, turns: Reply<seq<Turn>>)
      modifies this`namespaces, agent`systemPrompt, store`requests
      ensures store.events == old(store.events)
      ensures namespaces == if Fetched(strategies) then NamespaceMap(strategies.value) else old(namespaces)
      ensures store.requests == old(store.requests) + [GetMemoryStrategies] +
        (if Fetched(strategies) && SessionOf(agent.state).Some?
         then [GetLastKTurns(SessionOf(agent.state).value.0, SessionOf(agent.state).value.1, TurnsToLoad)]
         else [])
      ensures agent.systemPrompt ==
        if Fetched(strategies) && SessionOf(agent.state).Some? && turns.Returned?
        then Loaded(old(agent.systemPrompt), turns.value)
        else old(agent.systemPrompt)
    {
      var ids := SessionOf(agent.state);
      store.Log(GetMemoryStrategies);
      if strategies.Raised? {
        // `get_memory_strategies` raised
        return;
      }
      var found := NamespaceMap(strategies.value);
      if found.None? {
        // a strategy without namespaces: IndexError
        return;
      }
      namespaces := found;
      if ids.None? {
        // "Missing actor_id or session_id in agent state"
        return;
      }
      LoadRecentTurns(agent, store, ids.value.0, ids.value.1, turns);
    }

    /** `on_message_added`: at most one event is written, for the last message. */
    method OnMessageAdded(agent: Agent, accepted: bool)
      modifies store
      ensures namespaces == old(namespaces) && agent.systemPrompt == old(agent.systemPrompt)
      ensures store.requests == old(store.requests) +
        (if EventFor(agent.state, agent.messages).Some? then [CreateEvent(EventFor(agent.state, agent.messages).value)] else [])
      ensures store.events == old(store.events) +
        (if accepted && EventFor(agent.state, agent.messages).Some? then [EventFor(agent.state, agent.messages).value] else [])
    {
      SaveLastMessage(agent, store, accepted);
    }
  }

  /** The ids `master_agent.py` puts in the agent state. */
  const DemoActor := "user_123"
  const DemoSession := "personal_session_001"

  /** The event a text message becomes in the demo session. */
  function DemoEvent(m: AgentMessage): Event
    requires |m.content| > 0 && m.content[0].text.Some? && m.role.Some?
  {
    Event(Some(DemoActor), Some(DemoSession), m.content[0].text.value, m.role.value)
  }

  /** A session as `master_agent.py` drives it, with the agent state it sets up. The
      hook reads the strategies and loads the stored turns once at start-up, then
      writes one event per text message. With well-formed strategies and turns, the
      hook keeps the namespace map and the prompt gains the context block. The store
      ends up holding exactly the events of the two messages, in order. */
  method StartAndChat(prompt: string, strategies: seq<Strategy>, turns: seq<Turn>, first: AgentMessage, second: AgentMessage)
    returns (agent: Agent, hook: MemoryHookProvider)
    requires forall i :: 0 <= i < |strategies| ==> |strategies[i].namespaces| > 0
    requires |turns| > 0 && Intact(turns)
    requires |first.content| > 0 && Truthy(first.content[0].text) && first.role.Some?
    requires |second.content| > 0 && Truthy(second.content[0].text) && second.role.Some?
    ensures NamespaceMap(strategies).Some? && hook.namespaces == NamespaceMap(strategies)
    ensures ContextLines(turns).Some? && agent.systemPrompt == prompt + Header + Join(ContextLines(turns).value, [NewLine])
    ensures hook.store.events == [DemoEvent(first), DemoEvent(second)]
  {
    var state := map[ActorKey := DemoActor, SessionKey := DemoSession];
    assert Get(state, ActorKey) == Some(DemoActor) && Get(state, SessionKey) == Some(DemoSession);
    NamespaceMapDefined(strategies);
    var store := new MemoryStore();
    agent := new Agent(prompt, state, []);
    hook := new MemoryHookProvider(store);
    hook.OnAgentInitialized(agent, Returned(strategies), Returned(turns));
    assert agent.systemPrompt == Loaded(prompt, turns);
    LoadedPrompt(prompt, turns);
    assert agent.state == state && agent.messages == [] && store.events == [];
    agent.messages := agent.messages + [first];
    assert EventFor(agent.state, agent.messages) == Some(DemoEvent(first));
    hook.OnMessageAdded(agent, true);
    assert agent.state == state && store.events == [DemoEvent(first)];
    agent.messages := agent.messages + [second];
    assert EventFor(agent.state, agent.messages) == Some(DemoEvent(second));
    hook.OnMessageAdded(agent, true);
  }
}
