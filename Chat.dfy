/**
 * `PiranhaGPTChat`: a conversation with a chat-completion provider, seeded
 * with the rule-improvement prompt, with retry on transient provider errors.
 *
 * The provider, the clock and the directory walk are not called: the outside
 * world is an `Environment` object holding the outcomes the provider will
 * give, the requests sent to it and the time slept; the walk is a value.
 */
module Chat {
  import opened Wrappers
  import opened Conversation
  import opened Examples
  import opened Prompt

  const SupportedModels: seq<string> := ["gpt-4", "gpt-4-32k", "gpt-3.5-turbo-16k"]
  const DefaultTemperature: real := 0.3
  const DefaultModel: string := "gpt-4"

  /** The `ge(0)` and `le(1)` validators on `temperature`: both ends are allowed. */
  predicate ValidTemperature(t: real) {
    0.0 <= t <= 1.0
  }

  /** The `in_` validator on `model`. */
  predicate ValidModel(m: string) {
    m in SupportedModels
  }

  lemma ValidatorExamples()
    ensures ValidTemperature(0.0) && ValidTemperature(1.0)
    ensures !ValidTemperature(-0.1) && !ValidTemperature(1.1)
    ensures ValidTemperature(DefaultTemperature) && ValidModel(DefaultModel)
    ensures forall m :: ValidModel(m) <==> m == "gpt-4" || m == "gpt-4-32k" || m == "gpt-3.5-turbo-16k"
  {
  }

  /** Why construction fails, in the order the checks happen. */
  datatype ConstructionError =
    | TemperatureOutOfRange(temperature: real)
    | UnsupportedModel(model: string)
    | UnreadableExample(path: string)
    | MissingHole(name: string)

  /**
   * The history a successful construction leaves: the caller's messages and
   * then the seeded user prompt. The attribute validators run first, then the
   * examples are gathered, then the template is filled.
   */
  function Setup(explanation: string, walk: seq<WalkStep>, holes: map<string, string>,
                 messages: seq<Message>, temperature: real, model: string): (r: Result<seq<Message>, ConstructionError>)
    ensures r.Ok? ==> |r.value| == |messages| + 1 && r.value[..|messages|] == messages
    ensures r.Ok? ==> r.value[|messages|].role == User
  {
    if !ValidTemperature(temperature) then Err(TemperatureOutOfRange(temperature))
    else if !ValidModel(model) then Err(UnsupportedModel(model))
    else
      var examples := ExamplesText(walk);
      if examples.Err? then Err(UnreadableExample(examples.error))
      else
        var prompt := InitialPrompt(explanation, examples.value, holes);
        if prompt.Err? then Err(MissingHole(prompt.error))
        else Ok(messages + [Message(User, prompt.value)])
  }

  /**
   * Construction succeeds exactly when the configuration is valid, every kept
   * example file is readable and every hole is supplied.
   */
  lemma SetupSucceeds(explanation: string, walk: seq<WalkStep>, holes: map<string, string>,
                      messages: seq<Message>, temperature: real, model: string)
    ensures Setup(explanation, walk, holes, messages, temperature, model).Ok? <==>
              ValidTemperature(temperature) && ValidModel(model) &&
              AllReadable(RuleFiles(Flatten(walk))) && RequiredHoles <= holes.Keys
  {
    CorpusIsRuleBlocks(Flatten(walk));
    if ExamplesText(walk).Ok? {
      InitialPromptLayout(explanation, ExamplesText(walk).value, holes);
    }
  }

  /**
   * A successful construction appends exactly one user message after the
   * caller's messages: the explanation, the blocks of the kept files in
   * traversal order and the filled template.
   */
  lemma SetupSeedsOneMessage(explanation: string, walk: seq<WalkStep>, holes: map<string, string>,
                             messages: seq<Message>, temperature: real, model: string)
    requires Setup(explanation, walk, holes, messages, temperature, model).Ok?
    ensures AllReadable(RuleFiles(Flatten(walk))) && RequiredHoles <= holes.Keys
    ensures Setup(explanation, walk, holes, messages, temperature, model).value ==
              messages + [Message(User, explanation + "\n" + Blocks(RuleFiles(Flatten(walk))) + "\n" + TaskText(holes))]
  {
    SetupSucceeds(explanation, walk, holes, messages, temperature, model);
    CorpusIsRuleBlocks(Flatten(walk));
    InitialPromptLayout(explanation, ExamplesText(walk).value, holes);
  }

  /**
   * A bad temperature is reported first, then a bad model, then the first
   * unreadable kept example file; a missing hole only once the rest is fine.
   */
  lemma SetupRejects(explanation: string, walk: seq<WalkStep>, holes: map<string, string>,
                     messages: seq<Message>, temperature: real, model: string)
    ensures !ValidTemperature(temperature) ==>
              Setup(explanation, walk, holes, messages, temperature, model) == Err(TemperatureOutOfRange(temperature))
    ensures ValidTemperature(temperature) && !ValidModel(model) ==>
              Setup(explanation, walk, holes, messages, temperature, model) == Err(UnsupportedModel(model))
    ensures ValidTemperature(temperature) && ValidModel(model) && AllReadable(RuleFiles(Flatten(walk))) &&
            !(RequiredHoles <= holes.Keys) ==>
              var r := Setup(explanation, walk, holes, messages, temperature, model);
              r.Err? && r.error.MissingHole? && r.error.name in RequiredHoles - holes.Keys
    ensures ValidTemperature(temperature) && ValidModel(model) ==>
              forall i :: FirstUnreadable(Flatten(walk), i) ==>
                Setup(explanation, walk, holes, messages, temperature, model) ==
                  Err(UnreadableExample(PathOf(Flatten(walk)[i])))
    ensures var r := Setup(explanation, walk, holes, messages, temperature, model);
            r.Err? && r.error.MissingHole? ==>
              ValidTemperature(temperature) && ValidModel(model) && AllReadable(RuleFiles(Flatten(walk)))
  {
    CorpusIsRuleBlocks(Flatten(walk));
    CorpusFails(Flatten(walk));
    if !(RequiredHoles <= holes.Keys) {
      MissingHoleFails(holes);
    }
  }

  /** `n` copies of `x`. */
  function Repeat<T>(x: T, n: nat): seq<T> {
    seq(n, _ => x)
  }

  /** One provider call: the model, the whole history, the temperature and the number of samples. */
  datatype Request = Request(model: string, messages: seq<Message>, temperature: real, n: nat)

  /** The world outside the chat: the provider's upcoming outcomes, the requests it received, time slept. */
  class Environment {
    var pending: seq<Outcome>
    var requests: seq<Request>
    var slept: nat

    constructor (script: seq<Outcome>)
      ensures pending == script && requests == [] && slept == 0
    {
      pending, requests, slept := script, [], 0;
    }

    /** `openai.ChatCompletion.create`: take the next outcome and record the request. */
    method Create(request: Request) returns (outcome: Outcome)
      requires pending != []
      modifies this
      ensures outcome == old(pending)[0] && pending == old(pending)[1..]
      ensures requests == old(requests) + [request] && slept == old(slept)
    {
      outcome := pending[0];
      pending := pending[1..];
      requests := requests + [request];
    }

    /** `time.sleep` */
    method Sleep(seconds: nat)
      modifies this
      ensures slept == old(slept) + seconds
      ensures pending == old(pending) && requests == old(requests)
    {
      slept := slept + seconds;
    }
  }

  /** The outcome of construction: the new chat, or the error construction raised. */
  datatype Construction = Constructed(chat: PiranhaGptChat) | Rejected(error: ConstructionError)

  class PiranhaGptChat {
    const holes: map<string, string>
    const temperature: real
    const model: string
    var messages: seq<Message>

    /** The configuration passed its validators and the history holds at least the seeded prompt. */
    ghost predicate Valid()
      reads this
    {
      messages != [] && ValidTemperature(temperature) && ValidModel(model)
    }

    /** Stores an already validated configuration and history. */
    constructor Init(holes: map<string, string>, messages: seq<Message>, temperature: real, model: string)
      requires messages != [] && ValidTemperature(temperature) && ValidModel(model)
      ensures Valid()
      ensures this.holes == holes && this.messages == messages
      ensures this.temperature == temperature && this.model == model
    {
      this.holes := holes;
      this.messages := messages;
      this.temperature := temperature;
      this.model := model;
    }

    /**
     * Construction: the attribute validators, then `__attrs_post_init__`, which
     * gathers the examples, fills the template and appends the first user message.
     */
    static method Create(explanation: string, walk: seq<WalkStep>, holes: map<string, string>,
                         messages: seq<Message>, temperature: real, model: string)
      returns (r: Construction)
      ensures r.Rejected? <==> Setup(explanation, walk, holes, messages, temperature, model).Err?
      ensures r.Rejected? ==> Setup(explanation, walk, holes, messages, temperature, model) == Err(r.error)
      ensures r.Constructed? ==>
                fresh(r.chat) && r.chat.Valid() &&
                r.chat.messages == Setup(explanation, walk, holes, messages, temperature, model).value &&
                r.chat.holes == holes && r.chat.temperature == temperature && r.chat.model == model
    {
      if !ValidTemperature(temperature) {
        return Rejected(TemperatureOutOfRange(temperature));
      }
      if !ValidModel(model) {
        return Rejected(UnsupportedModel(model));
      }
      var examples := GetExamples(walk);
      if examples.Err? {
        return Rejected(UnreadableExample(examples.error));
      }
      var formatted := InitialPrompt(explanation, examples.value, holes);
      if formatted.Err? {
        return Rejected(MissingHole(formatted.error));
      }
      var chat := new PiranhaGptChat.Init(holes, messages + [Message(User, formatted.value)], temperature, model);
      return Constructed(chat);
    }

    /** `append_system_message`: record a reply of the model. */
    method AppendSystemMessage(content: string)
      requires Valid()
      modifies this
      ensures Valid()
      ensures messages == old(messages) + [Message(Assistant, content)]
    {
      messages := messages + [Message(Assistant, content)];
    }

    /** `append_user_followup`: record a further message of the user. */
    method AppendUserFollowup(content: string)
      requires Valid()
      modifies this
      ensures Valid()
      ensures messages == old(messages) + [Message(User, content)]
    {
      messages := messages + [Message(User, content)];
    }

    /**
     * `get_completion`: call the provider until it gives something other than
     * a transient error, sleeping `SleepSeconds` after each transient error.
     */
    method GetCompletion(env: Environment, nSamples: nat) returns (r: Completion)
      requires Valid()
      modifies env
      ensures r == CompletionOf(old(env.pending))
      ensures env.pending == old(env.pending)[Attempts(old(env.pending))..]
      ensures env.requests == old(env.requests) +
                Repeat(Request(model, messages, temperature, nSamples), Attempts(old(env.pending)))
      ensures env.slept == old(env.slept) + SleepSeconds * Settle(old(env.pending))
    {
      ghost var script := env.pending;
      ghost var failures: nat := 0;
      var request := Request(model, messages, temperature, nSamples);
      while true
        invariant failures <= |script| && env.pending == script[failures..]
        invariant forall i :: 0 <= i < failures ==> script[i].Transient?
        invariant env.requests == old(env.requests) + Repeat(request, failures)
        invariant env.slept == old(env.slept) + SleepSeconds * failures
        decreases |env.pending|
      {
        if env.pending == [] {
          // The provider has no outcome left to give: the Python loop would go on retrying.
          RetryThroughOutage(script);
          assert failures == |script|;
          return Outage;
        }
        var response := env.Create(request);
        assert Repeat(request, failures) + [request] == Repeat(request, failures + 1);
        match response
        case Success(choices) =>
          RetryUntilSuccess(script, failures);
          return Completed(choices);
        case Failure(error) =>
          RetryUntilFailure(script, failures);
          return Raised(error);
        case Transient(_) =>
          env.Sleep(SleepSeconds);
          failures := failures + 1;
      }
    }

    /**
     * `get_model_response`: a pending assistant message is returned as it is;
     * otherwise one sample is requested and its content appended and returned.
     */
    method GetModelResponse(env: Environment) returns (r: Response)
      requires Valid()
      modifies this, env
      ensures Valid()
      ensures r == ResponseOf(old(messages), old(env.pending))
      ensures messages == HistoryAfter(old(messages), old(env.pending))
      ensures env.pending == old(env.pending)[RequestsSent(old(messages), old(env.pending))..]
      ensures env.requests == old(env.requests) +
                Repeat(Request(model, old(messages), temperature, 1), RequestsSent(old(messages), old(env.pending)))
      ensures env.slept == old(env.slept) + SleepSeconds * SleepsTaken(old(messages), old(env.pending))
    {
      var latestMessage := messages[|messages| - 1];
      if latestMessage.role == Assistant {
        assert old(env.pending)[0..] == old(env.pending);
        return Reply(latestMessage.content);
      }
      var completions := GetCompletion(env, 1);
      match completions
      case Completed(choices) =>
        if choices == [] {
          return NoChoices;
        }
        var content := choices[0];
        AppendSystemMessage(content);
        return Reply(content);
      case Raised(error) =>
        return ProviderFailed(error);
      case Outage =>
        return Stalled;
    }
  }

  /**
   * A session as a caller drives it: after construction the first request is
   * sent with the seeded prompt last; a second request for a response returns
   * the same reply without calling the provider again.
   */
  method AskTwice(chat: PiranhaGptChat, env: Environment) returns (first: Response, second: Response)
    requires chat.Valid()
    modifies chat, env
    ensures first.Reply? ==> second == first
    ensures first.Reply? ==> |env.requests| == |old(env.requests)| + RequestsSent(old(chat.messages), old(env.pending))
  {
    first := chat.GetModelResponse(env);
    ghost var afterFirst := env.pending;
    if first.Reply? {
      ReplyIsCached(old(chat.messages), old(env.pending), afterFirst);
    }
    second := chat.GetModelResponse(env);
  }
}
