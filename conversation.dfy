/** The chatbot's `ConversationEngine`: a lifecycle state machine, an append-only history of
    user/assistant turns, and a fixed-priority keyword router that builds each reply.
    The CIS controller it talks to is not part of this model: what the engine reads from it
    is given as a `CisView` value. */
module Conversation {
  import opened Text
  import opened PyValues

  /** A subsystem handle as `cis.get_memory()` / `cis.get_codegen()` return it: absent (`None`),
      or an object whose Python truthiness is `truthy`. */
  datatype Handle = Missing | Present(truthy: bool)

  /** `if not handle:` fails for a missing handle and for a falsy one. */
  predicate Usable(h: Handle)
  {
    h.Present? && h.truthy
  }

  /** What the engine reads from the CIS, each as the text the engine's f-strings render. */
  datatype CisView = CisView(
    booted: bool,            // truthiness of `cis.system_state.get('booted')`
    systemStatus: string,    // `cis.system_state['status']`
    memory: Handle,          // `cis.get_memory()`
    codegen: Handle,         // `cis.get_codegen()`
    statusName: string,      // `cis.status()['status']`
    version: string,         // `cis.status()['version']`
    subsystems: string,      // `cis.status()['subsystems']`
    memoryCount: int,        // `memory.count()`
    classCode: string,       // `codegen.generate_class("GeneratedClass", methods=["process", "validate"])`
    functionCode: string     // `codegen.generate_function("generated_function", parameters=["arg1", "arg2"])`
  )

  datatype EngineState = Created | Initialized | Validated | Terminated

  /** The `_state` string of each lifecycle state. */
  function StateName(s: EngineState): string
  {
    match s
    case Created => "created"
    case Initialized => "initialized"
    case Validated => "validated"
    case Terminated => "terminated"
  }

  /** The inverse of `StateName`: the state a `_state` string names, if any. `Checkpoint` states
      its `state` field through it. */
  function ParseState(name: string): (r: Option<EngineState>)
    ensures r.Some? ==> StateName(r.value) == name
  {
    if name == "created" then Some(Created)
    else if name == "initialized" then Some(Initialized)
    else if name == "validated" then Some(Validated)
    else if name == "terminated" then Some(Terminated)
    else None
  }

  /** Every state name reads back as the state it names, so a checkpoint's `state` identifies the state. */
  lemma StateNameRoundTrip(s: EngineState)
    ensures ParseState(StateName(s)) == Some(s)
  {
  }

  datatype Role = User | Assistant

  /** One `conversation_history` entry; the timestamp is not modelled. */
  datatype Turn = Turn(role: Role, content: string)

  /** The snapshot `checkpoint()` returns. */
  datatype Snapshot = Snapshot(version: string, state: string, initialized: bool, history: seq<Turn>)

  const EmptyInputError := "ERROR: Empty input received"

  const GreetingText :=
    "Greetings. I am Thalos Prime, " + "a Synthetic Biological Intelligence system. "
    + "I operate under the Prime Directive: " + "ACCURACY - EXPANSION - PRESERVATION. "
    + "How may I assist you?"

  const HelpText :=
    "Available commands:\n"
    + "\U{2022} 'status' - View system status\n"
    + "\U{2022} 'memory' - Check memory subsystem\n"
    + "\U{2022} 'generate class/function' - Code generation\n"
    + "\U{2022} 'help' - Show this message\n"
    + "\U{2022} Or just ask me anything - I'll process through biological analogs"

  const CodeGenUnavailable := "CodeGen subsystem unavailable"
  const CodeGenGuidance := "Code generation requires " + "specifying 'class' or 'function'"
  const MemoryUnavailable := "Memory subsystem unavailable"

  // ----------------------------------------------------------------------------------------
  // Routing
  // ----------------------------------------------------------------------------------------

  /** The handler `_process_message` dispatches to. */
  datatype Intent = StatusQuery | MemoryQuery | CodeGenRequest | Greeting | HelpRequest | GeneralQuery

  /** Position of each handler in the dispatch order. */
  function Rank(i: Intent): nat
  {
    match i
    case StatusQuery => 0
    case MemoryQuery => 1
    case CodeGenRequest => 2
    case Greeting => 3
    case HelpRequest => 4
    case GeneralQuery => 5
  }

  /** The keywords that select each handler. */
  function Keywords(i: Intent): seq<string>
  {
    match i
    case StatusQuery => ["status", "health"]
    case MemoryQuery => ["memory"]
    case CodeGenRequest => ["generate", "create code"]
    case Greeting => ["hello", "hi", "hey", "greetings"]
    case HelpRequest => ["help"]
    case GeneralQuery => []
  }

  /** `any(word in text for word in words)` */
  predicate AnyIn(text: string, words: seq<string>)
  {
    words != [] && (Contains(text, words[0]) || AnyIn(text, words[1..]))
  }

  /** A handler applies to a message when one of its keywords occurs in the lower-cased
      message; the general handler applies to every message. */
  predicate Selects(i: Intent, message: string)
  {
    i == GeneralQuery || AnyIn(Lower(message), Keywords(i))
  }

  /** `_process_message`'s if/elif chain, as the handler it picks. */
  function Route(message: string): Intent
  {
    var m := Lower(message);
    if Contains(m, "status") || Contains(m, "health") then StatusQuery
    else if Contains(m, "memory") then MemoryQuery
    else if Contains(m, "generate") || Contains(m, "create code") then CodeGenRequest
    else if Contains(m, "hello") || Contains(m, "hi") || Contains(m, "hey") || Contains(m, "greetings") then Greeting
    else if Contains(m, "help") then HelpRequest
    else GeneralQuery
  }

  /** The handler chosen is the first one, in dispatch order, whose keywords occur in the
      lower-cased message. */
  lemma RouteIsFirstMatch(message: string)
    ensures Selects(Route(message), message)
    ensures forall j :: Rank(j) < Rank(Route(message)) ==> !Selects(j, message)
  {
    SelectsUnfold(message);
    forall j | Rank(j) < Rank(Route(message)) ensures !Selects(j, message) {
      match j
      case StatusQuery =>
      case MemoryQuery =>
      case CodeGenRequest =>
      case Greeting =>
      case HelpRequest =>
      case GeneralQuery =>
    }
  }

  /** Each handler's keyword test, written out word by word. */
  lemma SelectsUnfold(message: string)
    ensures Selects(StatusQuery, message) <==> Contains(Lower(message), "status") || Contains(Lower(message), "health")
    ensures Selects(MemoryQuery, message) <==> Contains(Lower(message), "memory")
    ensures Selects(CodeGenRequest, message) <==>
              Contains(Lower(message), "generate") || Contains(Lower(message), "create code")
    ensures Selects(Greeting, message) <==>
              || Contains(Lower(message), "hello") || Contains(Lower(message), "hi")
              || Contains(Lower(message), "hey") || Contains(Lower(message), "greetings")
    ensures Selects(HelpRequest, message) <==> Contains(Lower(message), "help")
  {
    var m := Lower(message);
    assert AnyIn(m, ["health"]) <==> Contains(m, "health");
    assert ["status", "health"][1..] == ["health"];
    assert AnyIn(m, ["memory"]) <==> Contains(m, "memory");
    assert AnyIn(m, ["create code"]) <==> Contains(m, "create code");
    assert ["generate", "create code"][1..] == ["create code"];
    assert AnyIn(m, ["greetings"]) <==> Contains(m, "greetings");
    assert ["hey", "greetings"][1..] == ["greetings"];
    assert ["hi", "hey", "greetings"][1..] == ["hey", "greetings"];
    assert ["hello", "hi", "hey", "greetings"][1..] == ["hi", "hey", "greetings"];
    assert AnyIn(m, ["hey", "greetings"]) <==> Contains(m, "hey") || Contains(m, "greetings");
    assert AnyIn(m, ["hi", "hey", "greetings"]) <==> Contains(m, "hi") || AnyIn(m, ["hey", "greetings"]);
    assert AnyIn(m, ["help"]) <==> Contains(m, "help");
  }

  /** Routing reads the message only through its lower-cased form, so it ignores letter case. */
  lemma RouteIgnoresCase(a: string, b: string)
    requires Lower(a) == Lower(b)
    ensures Route(a) == Route(b)
  {
  }

  /** A greeting: none of the higher-priority keywords occurs. */
  lemma RouteHelloExample()
    ensures Route("Hello") == Greeting
  {
    var m := "hello";
    assert Lower("Hello") == m;
    MissingCharNotContained(m, "status", 0);
    MissingCharNotContained(m, "health", 2);
    MissingCharNotContained(m, "memory", 0);
    MissingCharNotContained(m, "generate", 0);
    MissingCharNotContained(m, "create code", 0);
    assert OccursAt(m, "hello", 0);
  }

  /** "status" wins over "memory", whatever the letter case. */
  lemma RouteStatusExample()
    ensures Route("show me the status") == StatusQuery
    ensures Route("Status of MEMORY") == StatusQuery
  {
    assert "show me the status"[12..18] == "status";
    assert Lower("status") == "status";
    StatusWordRoutes("show me the status", 12);
    assert "Status of MEMORY"[0..6] == "Status";
    assert Lower("Status") == "status";
    StatusWordRoutes("Status of MEMORY", 0);
  }

  /** A message whose lower-cased form contains "status" goes to the status handler. */
  lemma StatusWordRoutes(message: string, i: int)
    requires 0 <= i && i + 6 <= |message| && Lower(message[i..i + 6]) == "status"
    ensures Route(message) == StatusQuery
  {
    LowerSlice(message, i, i + 6);
    assert OccursAt(Lower(message), "status", i);
  }

  lemma RouteMemoryExample()
    ensures Route("Memory usage?") == MemoryQuery
  {
    var m := "memory usage?";
    assert Lower("Memory usage?") == m;
    MissingCharNotContained(m, "status", 1);
    MissingCharNotContained(m, "health", 0);
    assert OccursAt(m, "memory", 0);
  }

  lemma RouteGenerateExample()
    ensures Route("Generate a function") == CodeGenRequest
  {
    var m := "generate a function";
    assert Lower("Generate a function") == m;
    MissingCharNotContained(m, "status", 0);
    MissingCharNotContained(m, "health", 0);
    MissingCharNotContained(m, "memory", 0);
    assert OccursAt(m, "generate", 0);
  }

  /** A keyword counts even inside another word: "this" contains "hi". */
  lemma RouteThisExample()
    ensures Route("what is this") == Greeting
  {
    var m := "what is this";
    assert Lower(m) == m;
    MissingCharNotContained(m, "status", 4);
    MissingCharNotContained(m, "health", 1);
    MissingCharNotContained(m, "memory", 0);
    MissingCharNotContained(m, "generate", 0);
    MissingCharNotContained(m, "create code", 0);
    MissingCharNotContained(m, "hello", 1);
    assert OccursAt(m, "hi", 9);
  }

  lemma RouteHelpExample()
    ensures Route("HELP") == HelpRequest
  {
    var m := "help";
    assert Lower("HELP") == m;
    MissingCharNotContained(m, "status", 0);
    MissingCharNotContained(m, "health", 2);
    MissingCharNotContained(m, "memory", 0);
    MissingCharNotContained(m, "generate", 0);
    MissingCharNotContained(m, "create code", 0);
    MissingCharNotContained(m, "hello", 4);
    MissingCharNotContained(m, "hi", 1);
    MissingCharNotContained(m, "hey", 2);
    MissingCharNotContained(m, "greetings", 0);
    assert OccursAt(m, "help", 0);
  }

  lemma RouteGeneralExample()
    ensures Route("why?") == GeneralQuery
  {
    var m := "why?";
    assert Lower(m) == m;
    MissingCharNotContained(m, "status", 0);
    MissingCharNotContained(m, "health", 1);
    MissingCharNotContained(m, "memory", 0);
    MissingCharNotContained(m, "generate", 0);
    MissingCharNotContained(m, "create code", 0);
    MissingCharNotContained(m, "hello", 1);
    MissingCharNotContained(m, "hi", 1);
    MissingCharNotContained(m, "hey", 1);
    MissingCharNotContained(m, "greetings", 0);
    MissingCharNotContained(m, "help", 1);
  }

  // ----------------------------------------------------------------------------------------
  // Handlers
  // ----------------------------------------------------------------------------------------

  /** `_handle_status` */
  function StatusReply(cis: CisView): string
  {
    "SYSTEM STATUS: " + (Upper(cis.statusName) + "\nVersion: " + cis.version + "\nSubsystems: " + cis.subsystems)
  }

  /** `_handle_memory_query` */
  function MemoryReply(cis: CisView): string
  {
    if !Usable(cis.memory) then MemoryUnavailable
    else "Memory subsystem operational. " + ("Current entries: " + IntToString(cis.memoryCount))
  }

  /** `_handle_codegen`: without a usable code generator it declines; otherwise "class" is
      looked for before "function", case-insensitively. */
  function CodeGenReply(cis: CisView, message: string): string
  {
    if !Usable(cis.codegen) then CodeGenUnavailable
    else if Contains(Lower(message), "class") then "Generated class:\n```python\n" + (cis.classCode + "\n```")
    else if Contains(Lower(message), "function") then "Generated function:\n```python\n" + (cis.functionCode + "\n```")
    else CodeGenGuidance
  }

  /** `_handle_general_query`, where `entries` is the history length at the time of the call. */
  function GeneralReply(cis: CisView, message: string, entries: nat): string
  {
    "Query received: '" + (message + GeneralTail(cis, entries))
  }

  /** What follows the echoed message in a general reply. */
  function GeneralTail(cis: CisView, entries: nat): string
  {
    "'\n\n"
    + "Processing through synthetic biological intelligence architecture. "
    + "CIS operational at " + cis.systemStatus + " status. "
    + "Conversation history: " + IntToString(entries) + " exchanges."
  }

  /** `_process_message(message)` with a history of `entries` entries. */
  function Reply(cis: CisView, message: string, entries: nat): string
  {
    match Route(message)
    case StatusQuery => StatusReply(cis)
    case MemoryQuery => MemoryReply(cis)
    case CodeGenRequest => CodeGenReply(cis, message)
    case Greeting => GreetingText
    case HelpRequest => HelpText
    case GeneralQuery => GeneralReply(cis, message, entries)
  }

  /** Whatever the message, the reply is never the empty-input error text, so a caller can
      tell the two apart: every reply starts with a letter other than 'E'. */
  lemma ReplyIsNotEmptyInputError(cis: CisView, message: string, entries: nat)
    ensures Reply(cis, message, entries) != EmptyInputError
  {
    assert EmptyInputError[0] == 'E';
    match Route(message)
    case StatusQuery => assert StatusReply(cis)[0] == 'S';
    case MemoryQuery => assert MemoryReply(cis)[0] == 'M';
    case CodeGenRequest => assert CodeGenReply(cis, message)[0] == 'C' || CodeGenReply(cis, message)[0] == 'G';
    case Greeting => assert GreetingText[0] == 'G';
    case HelpRequest => assert HelpText[0] == 'A';
    case GeneralQuery => assert GeneralReply(cis, message, entries)[0] == 'Q';
  }

  /** Code generation answers with the class template whenever "class" is mentioned, even when
      "function" is mentioned too, and with the function template only when "class" is not. */
  lemma CodeGenPrefersClass(cis: CisView, message: string)
    requires Usable(cis.codegen)
    ensures Contains(Lower(message), "class") ==> CodeGenReply(cis, message)[..17] == "Generated class:\n"
    ensures !Contains(Lower(message), "class") && Contains(Lower(message), "function") ==>
              CodeGenReply(cis, message)[..20] == "Generated function:\n"
    ensures !Contains(Lower(message), "class") && !Contains(Lower(message), "function") ==>
              CodeGenReply(cis, message) == CodeGenGuidance
  {
  }

  /** Only the general handler looks at the history length. */
  lemma ReplyUsesHistoryOnlyForGeneral(cis: CisView, message: string, e1: nat, e2: nat)
    requires Route(message) != GeneralQuery
    ensures Reply(cis, message, e1) == Reply(cis, message, e2)
  {
  }

  /** The general handler echoes the message right after the lead `Query received: '`. */
  lemma GeneralReplyEchoes(cis: CisView, message: string, entries: nat)
    ensures OccursAt(GeneralReply(cis, message, entries), message, 17)
  {
    EchoedAfter("Query received: '", message, GeneralTail(cis, entries));
  }

  /** A message placed between a prefix and a tail occurs right after the prefix. */
  lemma EchoedAfter(prefix: string, message: string, tail: string)
    ensures OccursAt(prefix + (message + tail), message, |prefix|)
  {
    assert (prefix + (message + tail))[|prefix|..|prefix| + |message|] == message;
  }

  // ----------------------------------------------------------------------------------------
  // The engine
  // ----------------------------------------------------------------------------------------

  /** A non-empty text that neither starts nor ends with whitespace, as `strip()` leaves it. */
  predicate Stripped(s: string)
  {
    s != [] && !IsSpace(s[0]) && !IsSpace(s[|s| - 1])
  }

  /** The history is a run of complete exchanges: a user turn holding a stripped, non-empty
      message, then the assistant's reply. */
  predicate Exchanges(h: seq<Turn>)
    decreases |h|
  {
    || h == []
    || (&& |h| >= 2
        && h[0].role == User && Stripped(h[0].content)
        && h[1].role == Assistant
        && Exchanges(h[2..]))
  }

  /** Appending one exchange keeps the history a run of exchanges. */
  lemma {:induction false} ExchangesAppend(h: seq<Turn>, question: string, answer: string)
    requires Exchanges(h)
    requires Stripped(question)
    ensures Exchanges(h + [Turn(User, question), Turn(Assistant, answer)])
    decreases |h|
  {
    var pair := [Turn(User, question), Turn(Assistant, answer)];
    if h == [] {
      assert h + pair == pair;
      assert pair[2..] == [];
    } else {
      ExchangesAppend(h[2..], question, answer);
      assert (h + pair)[2..] == h[2..] + pair;
    }
  }

  /** In a run of exchanges the turns alternate, starting with the user, and every user turn
      holds a stripped, non-empty message. */
  lemma {:induction false} ExchangesAlternate(h: seq<Turn>)
    requires Exchanges(h)
    ensures |h| % 2 == 0
    ensures forall i :: 0 <= i < |h| ==> h[i].role == if i % 2 == 0 then User else Assistant
    ensures forall i :: 0 <= i < |h| && i % 2 == 0 ==> Stripped(h[i].content)
    decreases |h|
  {
    if h != [] {
      ExchangesAlternate(h[2..]);
      forall i | 2 <= i < |h|
        ensures h[i].role == if i % 2 == 0 then User else Assistant
        ensures i % 2 == 0 ==> Stripped(h[i].content)
      {
        assert h[i] == h[2..][i - 2];
      }
    }
  }

  class ConversationEngine {
    var cis: CisView
    var history: seq<Turn>
    var initialized: bool
    var state: EngineState

    /** The lifecycle flags agree with each other and the history holds whole exchanges. */
    ghost predicate Valid()
      reads this
    {
      && (state == Created ==> !initialized)
      && (state == Initialized || state == Validated ==> initialized)
      && Exchanges(history)
    }

    /** `ConversationEngine(cis)` */
    constructor (cis: CisView)
      ensures this.cis == cis
      ensures history == [] && !initialized && state == Created
      ensures Valid()
    {
      this.cis := cis;
      history := [];
      initialized := false;
      state := Created;
    }

    /** `initialize()`: idempotent once initialized; refuses while the CIS is not booted. */
    method Initialize() returns (ok: bool)
      requires Valid()
      modifies this
      ensures Valid()
      ensures cis == old(cis) && history == old(history)
      ensures old(initialized) ==> ok && initialized && state == old(state)
      ensures !old(initialized) && !cis.booted ==> !ok && !initialized && state == old(state)
      ensures !old(initialized) && cis.booted ==> ok && initialized && state == Initialized
    {
      if initialized {
        return true;
      }
      if !cis.booted {
        return false;
      }
      initialized := true;
      state := Initialized;
      ok := true;
    }

    /** `validate()`: needs an initialized engine and both subsystems present. */
    method Validate() returns (ok: bool)
      requires Valid()
      modifies this
      ensures Valid()
      ensures cis == old(cis) && history == old(history) && initialized == old(initialized)
      ensures ok <==> initialized && cis.memory.Present? && cis.codegen.Present?
      ensures state == if ok then Validated else old(state)
    {
      if !initialized {
        return false;
      }
      if cis.memory.Missing? || cis.codegen.Missing? {
        return false;
      }
      state := Validated;
      ok := true;
    }

    /** `process_input(message)`: a blank message is answered with the error text and not
        recorded; any other message is stripped and recorded with its answer. The answer is
        built with the history length that counts the message's own user turn. */
    method ProcessInput(message: string) returns (response: string)
      requires Valid()
      modifies this
      ensures Valid()
      ensures cis == old(cis) && initialized == old(initialized) && state == old(state)
      ensures IsBlank(message) ==> response == EmptyInputError && history == old(history)
      ensures !IsBlank(message) ==>
        && response == Reply(cis, Strip(message), |old(history)| + 1)
        && history == old(history) + [Turn(User, Strip(message)), Turn(Assistant, response)]
    {
      if IsBlank(message) {
        return EmptyInputError;
      }
      var stripped := Strip(message);
      response := Reply(cis, stripped, |history| + 1);
      Record(stripped, response);
    }

    /** The two `conversation_history.append` calls of `process_input`: the user turn, then
        the assistant turn. */
    method Record(question: string, answer: string)
      requires Valid() && Stripped(question)
      modifies this
      ensures Valid()
      ensures cis == old(cis) && initialized == old(initialized) && state == old(state)
      ensures history == old(history) + [Turn(User, question), Turn(Assistant, answer)]
    {
      ExchangesAppend(history, question, answer);
      history := history + [Turn(User, question)];
      history := history + [Turn(Assistant, answer)];
      assert history == old(history) + [Turn(User, question), Turn(Assistant, answer)];
    }

    /** `reconcile()`: the history is always a list here, so there is nothing to correct. */
    method Reconcile() returns (ok: bool)
      requires Valid()
      ensures ok
      ensures Valid()
    {
      ok := true;
    }

    /** `checkpoint()`: a snapshot of the lifecycle flags and a copy of the history. */
    function Checkpoint(): (s: Snapshot)
      reads this
      ensures s.version == "1.0"
      ensures ParseState(s.state) == Some(state)
      ensures s.initialized == initialized && s.history == history
    {
      StateNameRoundTrip(state);
      Snapshot("1.0", StateName(state), initialized, history)
    }

    /** `terminate()`: clears the history and ends the lifecycle; the initialized flag stays. */
    method Terminate() returns (ok: bool)
      requires Valid()
      modifies this
      ensures Valid()
      ensures ok
      ensures cis == old(cis) && initialized == old(initialized)
      ensures history == [] && state == Terminated
    {
      history := [];
      state := Terminated;
      ok := true;
    }
  }

  /** "Hello" is kept as typed and answered with the greeting. */
  lemma HelloIsGreeted(cis: CisView, entries: nat)
    ensures Strip("Hello") == "Hello" && !IsBlank("Hello")
    ensures Reply(cis, "Hello", entries) == GreetingText
  {
    StripUnpadded("Hello");
    RouteHelloExample();
    GreetingReply(cis, "Hello", entries);
  }

  /** A message routed as a greeting is answered with the greeting text. */
  lemma GreetingReply(cis: CisView, message: string, entries: nat)
    requires Route(message) == Greeting
    ensures Reply(cis, message, entries) == GreetingText
  {
  }

  /** The documented lifecycle with a booted CIS that offers both subsystems: the engine
      initializes and validates; after `terminate()` the history is empty, the state is
      `terminated` and the initialized flag is still set, so a later `initialize()` reports
      success without leaving the `terminated` state. */
  method Lifecycle(cis: CisView) returns (validated: Snapshot, terminated: Snapshot, restarted: bool, again: Snapshot)
    requires cis.booted && cis.memory.Present? && cis.codegen.Present?
    ensures validated == Snapshot("1.0", "validated", true, [])
    ensures terminated == Snapshot("1.0", "terminated", true, [])
    ensures restarted && again == terminated
  {
    var engine := new ConversationEngine(cis);
    var ok := engine.Initialize();
    ok := engine.Validate();
    validated := engine.Checkpoint();
    ok := engine.Terminate();
    terminated := engine.Checkpoint();
    restarted := engine.Initialize();
    again := engine.Checkpoint();
  }
}
