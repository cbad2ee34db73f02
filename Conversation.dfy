/**
 * The conversation as values: role-tagged messages, the outcomes a completion
 * provider can produce, and what one request for a model response does to the
 * history, as functions of the history and of the provider's upcoming outcomes.
 * The methods of `Chat.PiranhaGptChat` are proved against these functions.
 */
module Conversation {

  /** `System` is never appended by the chat; it can only come with a caller-supplied history. */
  datatype Role = User | Assistant | System

  datatype Message = Message(role: Role, content: string)

  /** The provider errors the retry loop catches: `RateLimitError`, `Timeout`, `APIError`. */
  datatype TransientError = RateLimitError | Timeout | APIError

  /** What one provider call produces: the choices' contents in order, a caught error, or any other error. */
  datatype Outcome = Success(choices: seq<string>) | Transient(kind: TransientError) | Failure(error: string)

  /**
   * How `get_completion` ends: with the contents of a successful response, with
   * an uncaught error, or, when every outcome the provider will give is a
   * transient error, still retrying (`Outage`).
   */
  datatype Completion = Completed(choices: seq<string>) | Raised(error: string) | Outage

  /** The fixed pause, in seconds, after each transient error. */
  const SleepSeconds: nat := 10

  /** The number of transient errors before the first other outcome: the number of sleeps. */
  function Settle(script: seq<Outcome>): (k: nat)
    ensures k <= |script|
    ensures forall i :: 0 <= i < k ==> script[i].Transient?
    ensures k < |script| ==> !script[k].Transient?
  {
    if script == [] || !script[0].Transient? then 0 else 1 + Settle(script[1..])
  }

  /** The number of provider calls made: every transient error, plus the outcome that ends the loop. */
  function Attempts(script: seq<Outcome>): (n: nat)
    ensures Settle(script) <= n <= Settle(script) + 1 && n <= |script|
  {
    if Settle(script) < |script| then Settle(script) + 1 else |script|
  }

  /** The result of the retry loop over the provider's outcomes. */
  function CompletionOf(script: seq<Outcome>): (c: Completion)
    ensures c.Outage? <==> forall i :: 0 <= i < |script| ==> script[i].Transient?
    ensures c.Completed? ==> Success(c.choices) in script
    ensures c.Raised? ==> Failure(c.error) in script
  {
    var k := Settle(script);
    if k == |script| then Outage
    else if script[k].Success? then Completed(script[k].choices)
    else Raised(script[k].error)
  }

  /** After k transient errors, a success is returned as it is, after exactly k sleeps and k + 1 calls. */
  lemma RetryUntilSuccess(script: seq<Outcome>, k: nat)
    requires k < |script| && script[k].Success?
    requires forall i :: 0 <= i < k ==> script[i].Transient?
    ensures Settle(script) == k && Attempts(script) == k + 1
    ensures CompletionOf(script) == Completed(script[k].choices)
    ensures |CompletionOf(script).choices| == |script[k].choices|
  {
  }

  /** After k transient errors, any other error ends the loop, after exactly k sleeps and with no retry. */
  lemma RetryUntilFailure(script: seq<Outcome>, k: nat)
    requires k < |script| && script[k].Failure?
    requires forall i :: 0 <= i < k ==> script[i].Transient?
    ensures Settle(script) == k && Attempts(script) == k + 1
    ensures CompletionOf(script) == Raised(script[k].error)
  {
  }

  /** While every outcome is a transient error the loop never ends; each one costs a sleep. */
  lemma RetryThroughOutage(script: seq<Outcome>)
    requires forall i :: 0 <= i < |script| ==> script[i].Transient?
    ensures CompletionOf(script) == Outage
    ensures Settle(script) == |script| && Attempts(script) == |script|
  {
  }

  /** Retrying is unconditional: transient errors in front change nothing but add one sleep and one call each. */
  lemma {:induction false} TransientPrefix(errors: seq<Outcome>, script: seq<Outcome>)
    requires forall i :: 0 <= i < |errors| ==> errors[i].Transient?
    ensures Settle(errors + script) == |errors| + Settle(script)
    ensures Attempts(errors + script) == |errors| + Attempts(script)
    ensures CompletionOf(errors + script) == CompletionOf(script)
  {
    if errors != [] {
      assert (errors + script)[1..] == errors[1..] + script;
      TransientPrefix(errors[1..], script);
    } else {
      assert errors + script == script;
    }
  }

  // ---------------------------------------------------------------------
  // get_model_response

  /** What `get_model_response` gives back. `NoChoices` is the `IndexError` of `completions[0]` on an empty list. */
  datatype Response = Reply(content: string) | ProviderFailed(error: string) | NoChoices | Stalled

  predicate LastIsAssistant(messages: seq<Message>)
    requires messages != []
  {
    messages[|messages| - 1].role == Assistant
  }

  /** The answer to one request for a model response. */
  function ResponseOf(messages: seq<Message>, script: seq<Outcome>): (r: Response)
    requires messages != []
    ensures r.Reply? ==> HistoryAfter(messages, script)[|HistoryAfter(messages, script)| - 1] == Message(Assistant, r.content)
    ensures !r.Reply? ==> HistoryAfter(messages, script) == messages
  {
    if LastIsAssistant(messages) then Reply(messages[|messages| - 1].content)
    else match CompletionOf(script)
      case Completed(choices) => if choices == [] then NoChoices else Reply(choices[0])
      case Raised(error) => ProviderFailed(error)
      case Outage => Stalled
  }

  /** The history after one request for a model response. */
  function HistoryAfter(messages: seq<Message>, script: seq<Outcome>): (h: seq<Message>)
    requires messages != []
    ensures |messages| <= |h| <= |messages| + 1 && h[..|messages|] == messages
    ensures |h| > |messages| ==> h[|messages|].role == Assistant && !LastIsAssistant(messages)
  {
    if !LastIsAssistant(messages) && CompletionOf(script).Completed? && CompletionOf(script).choices != []
    then messages + [Message(Assistant, CompletionOf(script).choices[0])]
    else messages
  }

  /** Provider calls made by one request for a model response (each with one sample asked for). */
  function RequestsSent(messages: seq<Message>, script: seq<Outcome>): nat
    requires messages != []
  {
    if LastIsAssistant(messages) then 0 else Attempts(script)
  }

  /** Sleeps taken by one request for a model response. */
  function SleepsTaken(messages: seq<Message>, script: seq<Outcome>): nat
    requires messages != []
  {
    if LastIsAssistant(messages) then 0 else Settle(script)
  }

  /** A pending assistant message is returned as it is, with no provider call and no change. */
  lemma CachedReply(messages: seq<Message>, script: seq<Outcome>)
    requires messages != [] && LastIsAssistant(messages)
    ensures ResponseOf(messages, script) == Reply(messages[|messages| - 1].content)
    ensures HistoryAfter(messages, script) == messages
    ensures RequestsSent(messages, script) == 0 && SleepsTaken(messages, script) == 0
  {
  }

  /**
   * The history only grows, by at most one message; it grows exactly when a
   * fresh reply was obtained, and then by that reply as an assistant message.
   * A failed request leaves the history as it was.
   */
  lemma HistoryAppendOnly(messages: seq<Message>, script: seq<Outcome>)
    requires messages != []
    ensures var h := HistoryAfter(messages, script);
      |h| <= |messages| + 1 && h[..|messages|] == messages &&
      (|h| == |messages| + 1 <==> !LastIsAssistant(messages) && ResponseOf(messages, script).Reply?) &&
      (|h| == |messages| + 1 ==> h[|messages|] == Message(Assistant, ResponseOf(messages, script).content))
    ensures !ResponseOf(messages, script).Reply? ==> HistoryAfter(messages, script) == messages
  {
  }

  /** Once a reply is in the history, asking again returns the same reply without calling the provider. */
  lemma ReplyIsCached(messages: seq<Message>, script: seq<Outcome>, later: seq<Outcome>)
    requires messages != [] && ResponseOf(messages, script).Reply?
    ensures HistoryAfter(messages, script) != []
    ensures ResponseOf(HistoryAfter(messages, script), later) == ResponseOf(messages, script)
    ensures HistoryAfter(HistoryAfter(messages, script), later) == HistoryAfter(messages, script)
    ensures RequestsSent(HistoryAfter(messages, script), later) == 0
  {
    var h := HistoryAfter(messages, script);
    assert h[|h| - 1] == Message(Assistant, ResponseOf(messages, script).content);
  }

  /** An assistant turn appended by the caller is what the next request returns, with no provider call. */
  lemma AppendedAssistantIsReturned(messages: seq<Message>, content: string, script: seq<Outcome>)
    ensures ResponseOf(messages + [Message(Assistant, content)], script) == Reply(content)
    ensures HistoryAfter(messages + [Message(Assistant, content)], script) == messages + [Message(Assistant, content)]
    ensures RequestsSent(messages + [Message(Assistant, content)], script) == 0
  {
  }

  /**
   * After a user follow-up, a provider that succeeds at once is called exactly
   * once, without sleeping, and its first choice is appended and returned.
   */
  lemma FollowupRequestsOnce(messages: seq<Message>, followup: string, script: seq<Outcome>)
    requires script != [] && script[0].Success? && script[0].choices != []
    ensures var m := messages + [Message(User, followup)];
      RequestsSent(m, script) == 1 && SleepsTaken(m, script) == 0 &&
      ResponseOf(m, script) == Reply(script[0].choices[0]) &&
      HistoryAfter(m, script) == m + [Message(Assistant, script[0].choices[0])]
  {
    RetryUntilSuccess(script, 0);
  }

  /**
   * With a user message last, k transient errors and then a success mean k
   * sleeps, k + 1 calls, and the first choice appended once and returned.
   */
  lemma RetriedResponse(messages: seq<Message>, script: seq<Outcome>, k: nat)
    requires messages != [] && !LastIsAssistant(messages)
    requires k < |script| && script[k].Success? && script[k].choices != []
    requires forall i :: 0 <= i < k ==> script[i].Transient?
    ensures SleepsTaken(messages, script) == k && RequestsSent(messages, script) == k + 1
    ensures ResponseOf(messages, script) == Reply(script[k].choices[0])
    ensures HistoryAfter(messages, script) == messages + [Message(Assistant, script[k].choices[0])]
  {
    RetryUntilSuccess(script, k);
  }

  /** A non-transient error propagates: nothing is appended, and it is raised after the sleeps before it only. */
  lemma FailurePropagates(messages: seq<Message>, script: seq<Outcome>, k: nat)
    requires messages != [] && !LastIsAssistant(messages)
    requires k < |script| && script[k].Failure?
    requires forall i :: 0 <= i < k ==> script[i].Transient?
    ensures ResponseOf(messages, script) == ProviderFailed(script[k].error)
    ensures HistoryAfter(messages, script) == messages
    ensures SleepsTaken(messages, script) == k && RequestsSent(messages, script) == k + 1
  {
    RetryUntilFailure(script, k);
  }
}
