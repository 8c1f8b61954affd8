/**
  The durable events a session carries, and the rows of the transcript they are
  folded into.

  A run, approval or question id is a string; the empty string is an id the wire
  did not carry, which the client treats as absent.  Transcript rows are named by
  structured identities (their constructor and key fields) rather than by
  concatenated strings, so "same run" and "same card" are equalities.
 */
module Events {

  datatype Option<+T> = None | Some(value: T)

  type RunId = string
  type SessionId = string

  /** White space, as the client's language has it. */
  predicate White(c: char) {
    var n := c as int;
    9 <= n <= 13 || n == 0x20 || n == 0xa0 || n == 0x1680 || 0x2000 <= n <= 0x200a
    || n == 0x2028 || n == 0x2029 || n == 0x202f || n == 0x205f || n == 0x3000 || n == 0xfeff
  }

  /** The daemon's lifecycle tag of a run; `OtherState` is a tag this client does not know. */
  datatype Lifecycle =
    | Queued | Preparing | Running | WaitingForApproval | WaitingForUserInput
    | Recovering | Paused | Completed | Failed | Cancelled
    | OtherState(tag: string)

  predicate Terminal(state: Option<Lifecycle>) {
    state.Some? && (state.value.Completed? || state.value.Failed? || state.value.Cancelled?)
  }

  /** How a run ended. */
  datatype Disposition =
    | EndedCompleted
    | EndedFailed(reason: string)
    | EndedOther(kind: string, reason: string)

  /** The agent actor of a stream event: its run, and its model name when it names one. */
  datatype Actor = NoAgent | Agent(run: RunId, model: Option<string>)

  datatype Tokens = Tokens(prompt: Option<nat>, completion: Option<nat>, costMicros: Option<nat>)

  /**
    What an event says.  `Upkeep` is bookkeeping beside a run (context usage, checkpoints,
    learnings, client presence); `Unrendered` is every other kind this client shows
    nothing of, including kinds of a newer daemon.
   */
  datatype Body =
    | RunStarted(run: RunId, objective: string)
    | ModelStreamDelta(run: RunId, text: string, thought: bool)
    | ToolStarted(run: RunId, tool: string, title: string)
    | ToolCompleted(run: RunId, tool: string, succeeded: bool, message: string, artifact: string)
    | ToolUpdated(run: RunId, tool: string, title: string)
    | ModelRetrying(run: RunId, attempt: nat, maxAttempts: nat, message: string, delayMs: nat)
    | ToolDenied(run: RunId, summary: string)
    | BudgetWarning(run: RunId, dimension: string, used: nat, limit: nat)
    | RunUsage(run: RunId, tokens: Tokens)
    | ApprovalRequested(approvalId: string, action: string)
    | ApprovalResolved(approvalId: string)
    | QuestionAsked(questionId: string, run: RunId, prompts: seq<string>)
    | QuestionResolved(questionId: string, outcome: string)
    | PatchProposed(run: RunId, artifact: string, summary: string)
    | NoteAppended(run: RunId, text: string)
    | RunCompleted(run: RunId, disposition: Disposition)
    | RunStateChanged(run: RunId, state: Option<Lifecycle>)
    | PendingPromptsChanged(prompts: seq<string>)
    | Upkeep(upkeepRun: Option<RunId>)
    | Unrendered(otherRun: Option<RunId>)

  datatype Event = Event(sequence: nat, occurredAt: string, actor: Actor, body: Body)

  datatype StreamKind = Thought | Assistant

  datatype ToolStatus = ToolRunning | ToolSuccess | ToolError | ToolFinished

  /** Where an approval card came from: a live event, or a catch-up snapshot. */
  datatype CardSource = FromEvent(sequence: nat) | FromSnapshot

  /** A question card is keyed by the daemon's id, or by its sequence when that id is empty. */
  datatype QuestionKey = ById(id: string) | BySequence(sequence: nat)

  datatype Item =
    | UserItem(sequence: nat, text: string, at: string)
    | StreamItem(kind: StreamKind, run: RunId, sequence: nat, streamed: string, model: Option<string>, at: string)
    | ToolItem(sequence: nat, tool: string, run: RunId, toolKind: string, title: string,
               status: ToolStatus, artifact: string, result: string, at: string)
    | RetryItem(sequence: nat, attempt: nat, maxAttempts: nat, message: string, delayMs: nat, at: string)
    | DeniedItem(sequence: nat, run: RunId, text: string, at: string)
    | BudgetItem(run: RunId, dimension: string, used: nat, limit: nat, at: string)
    | ApprovalItem(source: CardSource, approvalId: string, text: string, at: string)
    | QuestionItem(key: QuestionKey, questionId: string, run: RunId, revision: nat, prompts: seq<string>, at: string)
    | QuestionResolvedItem(sequence: nat, outcome: string, at: string)
    | PatchItem(sequence: nat, run: RunId, artifact: string, text: string, at: string)
    | BackstageItem(owner: string, contextLines: Option<nat>, memoryUpdates: nat, raw: seq<string>, at: string)
    | NoteItem(sequence: nat, text: string, at: string)
    | FailureItem(sequence: nat, run: RunId, text: string, objective: Option<string>, at: string)
    | RunEndItem(sequence: nat, ending: string, reason: string, at: string)

  datatype Activity =
    | Idle
    | Thinking
    | Streaming
    | UsingTool(tool: string)
    | Retrying(attempt: nat, maxAttempts: nat, message: string, delayMs: nat)
    | WaitingOnApproval
    | WaitingOnQuestion
  {
    predicate Waiting() {
      WaitingOnApproval? || WaitingOnQuestion?
    }
  }

  datatype Usage = Usage(run: RunId, tokens: Tokens)
}

/** Left folds over a run of steps. */
module Folds {
  function FoldLeft<S, A>(step: (S, A) -> S, start: S, run: seq<A>): S {
    if run == [] then start
    else step(FoldLeft(step, start, run[..|run| - 1]), run[|run| - 1])
  }

  lemma {:induction false} FoldLeftConcat<S, A>(step: (S, A) -> S, start: S, a: seq<A>, b: seq<A>)
    ensures FoldLeft(step, start, a + b) == FoldLeft(step, FoldLeft(step, start, a), b)
  {
    if b == [] {
      assert a + b == a;
    } else {
      var n := |b| - 1;
      assert (a + b)[..|a| + n] == a + b[..n];
      FoldLeftConcat(step, start, a, b[..n]);
    }
  }

  lemma OneStep<S, A>(step: (S, A) -> S, start: S, a: A)
    ensures FoldLeft(step, start, [a]) == step(start, a)
  {
    assert [a][..0] == [];
  }

  lemma TwoSteps<S, A>(step: (S, A) -> S, start: S, a: A, b: A)
    ensures FoldLeft(step, start, [a, b]) == step(step(start, a), b)
  {
    assert [a, b][..1] == [a];
    OneStep(step, start, a);
  }
}
