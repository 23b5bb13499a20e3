/** An agent's settings: defaults, validation and the budget ceilings (pkg/model/agent.go). */
module AgentModel {
  import opened Common

  /** The tools an agent may be granted. */
  predicate KnownTool(name: string) {
    || name == "web_search" || name == "http_fetch"
    || name == "memory_read" || name == "memory_write"
    || name == "send_telegram" || name == "send_webhook"
  }

  datatype ContextMode = Fresh | LastN

  function ModeName(mode: ContextMode): string {
    match mode
    case Fresh => "fresh"
    case LastN => "last_n"
  }

  const DEFAULT_MAX_STEPS := 20
  const DEFAULT_MAX_TOKENS := 100000
  const DEFAULT_MAX_DURATION_SECONDS := 600

  const CEILING_MAX_STEPS := 100
  const CEILING_MAX_TOKENS := 2000000
  const CEILING_MAX_DURATION_SECONDS := 3600

  datatype Problem =
    | NameRequired
    | ModelRequired
    | UnknownTool(name: string)
    | ContextRunsTooFew
    | UnknownContextMode
    | MaxStepsOutOfRange
    | MaxTokensOutOfRange
    | MaxDurationOutOfRange

  predicate KnownTools(tools: seq<string>) {
    forall t :: t in tools ==> KnownTool(t)
  }

  /** Nothing but the six first-party tools. */
  ghost predicate InCatalog(tools: seq<string>) {
    forall i :: 0 <= i < |tools| ==>
      || tools[i] == "web_search" || tools[i] == "http_fetch" || tools[i] == "memory_read"
      || tools[i] == "memory_write" || tools[i] == "send_telegram" || tools[i] == "send_webhook"
  }

  lemma CatalogIff(tools: seq<string>)
    ensures KnownTools(tools) <==> InCatalog(tools)
  {
    if KnownTools(tools) {
      forall i | 0 <= i < |tools|
        ensures KnownTool(tools[i])
      {
        assert tools[i] in tools;
      }
    }
  }

  function OrDefault(value: int, otherwise: int): int {
    if value == 0 then otherwise else value
  }

  class Agent {
    var name: string
    var model: string
    /** `None` is the list a caller left out, which has no tools either. */
    var tools: Option<seq<string>>
    var maxSteps: int
    var maxTokens: int
    var maxDurationSeconds: int
    var secretName: string
    var contextMode: string
    var contextRuns: int

    function Granted(): seq<string>
      reads this
    {
      if tools.Some? then tools.value else []
    }

    /** The budgets every stored agent is under. */
    predicate Bounded()
      reads this
    {
      && 1 <= maxSteps <= CEILING_MAX_STEPS
      && 1 <= maxTokens <= CEILING_MAX_TOKENS
      && 1 <= maxDurationSeconds <= CEILING_MAX_DURATION_SECONDS
    }

    predicate Storable()
      reads this
    {
      name != "" && model != "" && KnownTools(Granted()) && ContextOk() && Bounded()
    }

    predicate ContextOk()
      reads this
    {
      contextMode == ModeName(Fresh) || (contextMode == ModeName(LastN) && contextRuns >= 1)
    }

    /** What is looked at before the context and the budgets is in order. */
    predicate Named()
      reads this
    {
      name != "" && model != "" && KnownTools(Granted())
    }

    constructor (name: string, model: string, tools: Option<seq<string>>)
      ensures this.name == name && this.model == model && this.tools == tools
      ensures maxSteps == 0 && maxTokens == 0 && maxDurationSeconds == 0 && contextRuns == 0
      ensures secretName == "" && contextMode == ""
    {
      this.name, this.model, this.tools := name, model, tools;
      maxSteps, maxTokens, maxDurationSeconds, contextRuns := 0, 0, 0, 0;
      secretName, contextMode := "", "";
    }

    method HasTool(wanted: string) returns (found: bool)
      ensures found <==> wanted in Granted()
      ensures found <==> tools.Some? && wanted in tools.value
    {
      var granted := Granted();
      for i := 0 to |granted|
        invariant wanted !in granted[..i]
      {
        if granted[i] == wanted {
          return true;
        }
      }
      assert granted[..|granted|] == granted;
      return false;
    }

    /** Unset values are filled in and set values are left alone. */
    method ApplyDefaults()
      modifies this
      ensures name == old(name) && model == old(model) && contextRuns == old(contextRuns)
      ensures tools == Some(old(Granted()))
      ensures maxSteps == OrDefault(old(maxSteps), DEFAULT_MAX_STEPS)
      ensures maxTokens == OrDefault(old(maxTokens), DEFAULT_MAX_TOKENS)
      ensures maxDurationSeconds == OrDefault(old(maxDurationSeconds), DEFAULT_MAX_DURATION_SECONDS)
      ensures contextMode == if old(contextMode) == "" then ModeName(Fresh) else old(contextMode)
      ensures secretName == if old(secretName) == "" then "default" else old(secretName)
      ensures tools == if old(tools) == None then Some([]) else old(tools)
    {
      if tools.None? {
        tools := Some([]);
      }
      if maxSteps == 0 {
        maxSteps := DEFAULT_MAX_STEPS;
      }
      if maxTokens == 0 {
        maxTokens := DEFAULT_MAX_TOKENS;
      }
      if maxDurationSeconds == 0 {
        maxDurationSeconds := DEFAULT_MAX_DURATION_SECONDS;
      }
      if contextMode == "" {
        contextMode := ModeName(Fresh);
      }
      if secretName == "" {
        secretName := "default";
      }
    }

    /** Nothing to report exactly when the agent may be stored; an unknown tool is the first of its kind. */
    method Validate() returns (problem: Option<Problem>)
      ensures problem.None? <==> Storable()
      ensures problem.None? <==>
        && name != "" && model != "" && (tools.Some? ==> InCatalog(tools.value))
        && (contextMode == "fresh" || (contextMode == "last_n" && contextRuns >= 1))
        && 1 <= maxSteps <= 100 && 1 <= maxTokens <= 2_000_000 && 1 <= maxDurationSeconds <= 3600
      ensures name == "" <==> problem == Some(NameRequired)
      ensures name != "" && model == "" <==> problem == Some(ModelRequired)
      ensures name != "" && model != "" && !KnownTools(Granted()) <==> problem.Some? && problem.value.UnknownTool?
      ensures problem.Some? && problem.value.UnknownTool? ==>
                exists i :: 0 <= i < |Granted()| && Granted()[i] == problem.value.name
                         && !KnownTool(problem.value.name) && KnownTools(Granted()[..i])
      ensures Named() && !ContextOk() <==> problem == Some(ContextRunsTooFew) || problem == Some(UnknownContextMode)
      ensures problem == Some(ContextRunsTooFew) ==> contextMode == ModeName(LastN)
      ensures problem == Some(UnknownContextMode) ==> contextMode != ModeName(LastN)
      ensures Named() && ContextOk() && !(1 <= maxSteps <= CEILING_MAX_STEPS) <==> problem == Some(MaxStepsOutOfRange)
      ensures problem == Some(MaxTokensOutOfRange) ==> !(1 <= maxTokens <= CEILING_MAX_TOKENS)
      ensures problem == Some(MaxDurationOutOfRange) ==>
                1 <= maxTokens <= CEILING_MAX_TOKENS && !(1 <= maxDurationSeconds <= CEILING_MAX_DURATION_SECONDS)
    {
      CatalogIff(Granted());
      if name == "" {
        return Some(NameRequired);
      }
      if model == "" {
        return Some(ModelRequired);
      }
      var granted := Granted();
      for i := 0 to |granted|
        invariant KnownTools(granted[..i])
      {
        if !KnownTool(granted[i]) {
          return Some(UnknownTool(granted[i]));
        }
        assert granted[..i + 1] == granted[..i] + [granted[i]];
      }
      assert granted[..|granted|] == granted;
      if contextMode == ModeName(LastN) {
        if contextRuns < 1 {
          return Some(ContextRunsTooFew);
        }
      } else if contextMode != ModeName(Fresh) {
        return Some(UnknownContextMode);
      }
      if maxSteps < 1 || maxSteps > CEILING_MAX_STEPS {
        return Some(MaxStepsOutOfRange);
      }
      if maxTokens < 1 || maxTokens > CEILING_MAX_TOKENS {
        return Some(MaxTokensOutOfRange);
      }
      if maxDurationSeconds < 1 || maxDurationSeconds > CEILING_MAX_DURATION_SECONDS {
        return Some(MaxDurationOutOfRange);
      }
      return None;
    }
  }

  /** A new agent with a name, a model and known tools needs nothing else set to be valid. */
  method NewAgent(
      name: string, model: string, tools: Option<seq<string>>)
    returns (agent: Agent, problem: Option<Problem>)
    requires name != "" && model != "" && (tools.Some? ==> KnownTools(tools.value))
    ensures problem == None && agent.Storable() && agent.Bounded()
    ensures agent.maxSteps == 20 && agent.maxTokens == 100_000 && agent.maxDurationSeconds == 600
    ensures agent.contextMode == "fresh" && agent.secretName == "default"
  {
    agent := new Agent(name, model, tools);
    agent.ApplyDefaults();
    problem := agent.Validate();
  }
}
