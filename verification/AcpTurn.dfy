/**
  One ACP prompt turn: the loop that turns a session's events into ACP updates.  A turn
  is bound to one run; events of other runs are dropped, tool calls get ids of the
  turn's own, and only the bound run is ever cancelled.

  A minted tool id is the number in its wire form `tool-<n>`.
 */
module AcpTurn {
  import opened Events
  import opened Folds

  datatype Message =
    | StartedRun(run: RunId)
    | Delta(run: RunId, text: string)
    | ToolBegan(run: RunId, tool: string, name: Option<string>)
    | ToolRefined(run: RunId, tool: string, name: Option<string>)
    | ToolEnded(run: RunId, tool: string, outcome: string)
    | ToolPlanned(run: RunId, action: string)
    | Noted(noteRun: Option<RunId>, note: string)
    | ApprovalAsked(approval: string, asked: string)
    | EndedRun(run: RunId, cancelled: bool)
    | OtherOfRun(run: RunId)
    | OfSession

  /** How the client answers a permission request, and whether the daemon takes the answer. */
  datatype Answer = Answer(choice: Option<string>, taken: bool)

  /** What one pass of the loop meets. */
  datatype Input = CancelTurn | ReadError | Closed | OtherPayload | Frame(message: Message, answer: Answer)

  datatype Act =
    | Say(said: string)
    | Think(thought: string)
    | Start(id: nat, title: string)
    | Plan(planned: nat, planTitle: string)
    | Refine(refined: nat, newTitle: string)
    | Complete(completed: nat, result: string)
    | AskPermission(request: string, requestTitle: string)
    | Resolve(resolved: string, approve: bool)
    | CancelRun(cancelled: RunId)

  datatype End = EndTurn | CancelledTurn | BackendError

  datatype Turn = Turn(run: Option<RunId>, calls: nat, open: map<string, seq<nat>>, acts: seq<Act>, ended: Option<End>)

  function Begin(created: Option<RunId>): Turn { Turn(created, 0, map[], [], None) }

  function EventRun(m: Message): Option<RunId> {
    if m.Noted? || m.ApprovalAsked? || m.OfSession? then None else Some(m.run)
  }

  predicate BelongsToTurn(m: Message, run: Option<RunId>) {
    if m.Noted? then m.noteRun.None? || m.noteRun == run
    else EventRun(m).None? || EventRun(m) == run
  }

  predicate FromAgent(tool: string) { "acp:" <= tool }

  function TitleOf(tool: string, name: Option<string>): string {
    if !FromAgent(tool) then tool else if name.Some? then name.value else "Tool"
  }

  function IdsOf(t: Turn, tool: string): seq<nat> { if tool in t.open then t.open[tool] else [] }

  predicate Approves(answer: Answer) { answer.choice == Some("allow") }

  /** Handling an event of the turn. */
  function Handle(t: Turn, m: Message, answer: Answer): Turn {
    match m
    case Delta(_, text) => t.(acts := t.acts + [Say(text)])
    case ToolBegan(_, tool, name) =>
      var id := t.calls + 1;
      t.(calls := id, open := t.open[tool := IdsOf(t, tool) + [id]], acts := t.acts + [Start(id, TitleOf(tool, name))])
    case ToolRefined(_, tool, name) =>
      var ids := IdsOf(t, tool);
      if ids != [] && name.Some? then t.(acts := t.acts + [Refine(ids[|ids| - 1], name.value)]) else t
    case ToolEnded(_, tool, outcome) =>
      var ids := IdsOf(t, tool);
      if ids == [] then t
      else t.(open := t.open[tool := ids[..|ids| - 1]], acts := t.acts + [Complete(ids[|ids| - 1], outcome)])
    case Noted(_, note) => t.(acts := t.acts + [Think(note)])
    case ToolPlanned(_, action) => t.(calls := t.calls + 1, acts := t.acts + [Plan(t.calls + 1, action)])
    case ApprovalAsked(approval, asked) =>
      t.(acts := t.acts + [AskPermission(approval, asked), Resolve(approval, Approves(answer))],
         ended := if answer.taken then None else Some(BackendError))
    case EndedRun(_, cancelled) => t.(ended := Some(if cancelled then CancelledTurn else EndTurn))
    case _ => t
  }

  /** A `RunStarted` binds a turn that does not know its run; it never rebinds one that does. */
  function Bind(t: Turn, m: Message): Turn {
    if m.StartedRun? && t.run.None? then t.(run := Some(m.run)) else t
  }

  function TurnStep(t: Turn, input: Input): Turn {
    if t.ended.Some? then t
    else match input
      case CancelTurn =>
        t.(acts := if t.run.Some? then t.acts + [CancelRun(t.run.value)] else t.acts, ended := Some(CancelledTurn))
      case ReadError => t.(ended := Some(BackendError))
      case Closed => t.(ended := Some(EndTurn))
      case OtherPayload => t
      case Frame(m, answer) =>
        var bound := Bind(t, m);
        if BelongsToTurn(m, bound.run) then Handle(bound, m, answer) else bound
  }

  function RunTurn(t: Turn, inputs: seq<Input>): Turn { FoldLeft(TurnStep, t, inputs) }

  // ----- isolation from other runs

  /** An event that names a run other than `r`. */
  predicate Foreign(input: Input, r: RunId) {
    input.Frame? &&
    (if input.message.Noted? then input.message.noteRun.Some? && input.message.noteRun != Some(r)
     else EventRun(input.message).Some? && EventRun(input.message) != Some(r))
  }

  function Own(inputs: seq<Input>, r: RunId): seq<Input> {
    if inputs == [] then []
    else Own(inputs[..|inputs| - 1], r) + (if Foreign(inputs[|inputs| - 1], r) then [] else [inputs[|inputs| - 1]])
  }

  lemma BoundStays(t: Turn, input: Input)
    requires t.run.Some?
    ensures TurnStep(t, input).run == t.run
  {
  }

  lemma ForeignIsDropped(t: Turn, input: Input, r: RunId)
    requires t.run == Some(r) && Foreign(input, r)
    ensures TurnStep(t, input) == t
  {
  }

  /** A turn that knows its run never changes it. */
  lemma {:induction false} NeverRebinds(t: Turn, inputs: seq<Input>)
    requires t.run.Some?
    ensures RunTurn(t, inputs).run == t.run
  {
    hide TurnStep;
    if inputs != [] {
      NeverRebinds(t, inputs[..|inputs| - 1]);
      BoundStays(RunTurn(t, inputs[..|inputs| - 1]), inputs[|inputs| - 1]);
    }
  }

  /** Deleting every event of other runs changes nothing of a turn that knows its run. */
  lemma {:induction false} TurnIsIsolated(t: Turn, inputs: seq<Input>, r: RunId)
    requires t.run == Some(r)
    ensures RunTurn(t, inputs) == RunTurn(t, Own(inputs, r))
  {
    hide TurnStep, Foreign;
    if inputs != [] {
      var front, last := inputs[..|inputs| - 1], inputs[|inputs| - 1];
      TurnIsIsolated(t, front, r);
      NeverRebinds(t, front);
      if Foreign(last, r) {
        ForeignIsDropped(RunTurn(t, front), last, r);
        assert Own(inputs, r) == Own(front, r);
      } else {
        assert (Own(front, r) + [last])[..|Own(front, r)|] == Own(front, r);
      }
    }
  }

  /** The inputs that name no run. */
  predicate Sessionwide(input: Input) {
    input.Frame? ==> (if input.message.Noted? then input.message.noteRun.None? else EventRun(input.message).None?)
  }

  function SessionOnly(inputs: seq<Input>): seq<Input> {
    if inputs == [] then []
    else SessionOnly(inputs[..|inputs| - 1]) + (if Sessionwide(inputs[|inputs| - 1]) then [inputs[|inputs| - 1]] else [])
  }

  predicate NoneStarts(inputs: seq<Input>) {
    forall k :: 0 <= k < |inputs| ==> !(inputs[k].Frame? && inputs[k].message.StartedRun?)
  }

  lemma UnboundStep(t: Turn, input: Input, r: RunId)
    requires t.run.None? && !(input.Frame? && input.message.StartedRun?)
    ensures TurnStep(t, input).run.None?
    ensures !Sessionwide(input) ==> TurnStep(t, input) == t
    ensures TurnStep(t, input).ended.None? && Sessionwide(input) ==>
              TurnStep(t.(run := Some(r)), input) == TurnStep(t, input).(run := Some(r))
  {
  }

  lemma {:induction false} UnboundPrefix(before: seq<Input>, r: RunId)
    requires NoneStarts(before)
    ensures RunTurn(Begin(None), before).run.None?
    ensures RunTurn(Begin(None), before).ended.None? ==>
              RunTurn(Begin(Some(r)), SessionOnly(before)) == RunTurn(Begin(None), before).(run := Some(r))
  {
    hide TurnStep, Sessionwide;
    if before != [] {
      var front, last := before[..|before| - 1], before[|before| - 1];
      UnboundPrefix(front, r);
      UnboundStep(RunTurn(Begin(None), front), last, r);
      EndedStays(RunTurn(Begin(None), front), last);
      if Sessionwide(last) {
        assert (SessionOnly(front) + [last])[..|SessionOnly(front)|] == SessionOnly(front);
      } else {
        assert SessionOnly(before) == SessionOnly(front);
      }
    }
  }

  lemma EndedStays(t: Turn, input: Input)
    ensures t.ended.Some? ==> TurnStep(t, input) == t
  {
  }

  /**
    When the daemon reported no run, the first run to start in the session is the turn's:
    from there on the turn is the one that knew that run, had it heard only session-wide
    events before.
   */
  lemma FirstStartedRunBinds(before: seq<Input>, r: RunId, answer: Answer, after: seq<Input>)
    requires NoneStarts(before) && RunTurn(Begin(None), before).ended.None?
    ensures RunTurn(Begin(None), before + [Frame(StartedRun(r), answer)] + after)
         == RunTurn(Begin(Some(r)), SessionOnly(before) + after)
  {
    hide FoldLeft;
    var binding := [Frame(StartedRun(r), answer)];
    UnboundPrefix(before, r);
    var unbound := RunTurn(Begin(None), before);
    OneStep(TurnStep, unbound, binding[0]);
    FoldLeftConcat(TurnStep, Begin(None), before, binding);
    FoldLeftConcat(TurnStep, Begin(None), before + binding, after);
    FoldLeftConcat(TurnStep, Begin(Some(r)), SessionOnly(before), after);
  }

  // ----- tool ids

  /** The ids minted by the acts, in order. */
  function Minted(acts: seq<Act>): seq<nat> {
    if acts == [] then []
    else
      var last := acts[|acts| - 1];
      Minted(acts[..|acts| - 1]) + (if last.Start? then [last.id] else if last.Plan? then [last.planned] else [])
  }

  /** The ids started and not completed. */
  function Unfinished(acts: seq<Act>): set<nat> {
    if acts == [] then {}
    else
      var last, rest := acts[|acts| - 1], Unfinished(acts[..|acts| - 1]);
      if last.Start? then rest + {last.id} else if last.Complete? then rest - {last.completed} else rest
  }

  /** An act that may follow `acts`: a fresh id, or one that is started and not completed. */
  predicate Proper(acts: seq<Act>, act: Act) {
    && (act.Start? ==> act.id !in Minted(acts))
    && (act.Plan? ==> act.planned !in Minted(acts))
    && (act.Refine? ==> act.refined in Unfinished(acts))
    && (act.Complete? ==> act.completed in Unfinished(acts))
  }

  predicate AllProper(acts: seq<Act>) {
    forall k :: 0 <= k < |acts| ==> Proper(acts[..k], acts[k])
  }

  function Numbers(n: nat): seq<nat> { seq(n, k requires 0 <= k < n => k + 1) }

  /** Each open stack is increasing, so its last id is its latest, and stacks share no id. */
  predicate Stacked(t: Turn) {
    && (forall tool <- t.open, i, j | 0 <= i < j < |t.open[tool]| :: t.open[tool][i] < t.open[tool][j])
    && (forall tool <- t.open, i | 0 <= i < |t.open[tool]| :: 1 <= t.open[tool][i] <= t.calls && t.open[tool][i] in Unfinished(t.acts))
    && (forall a <- t.open, b <- t.open, i, j | a != b && 0 <= i < |t.open[a]| && 0 <= j < |t.open[b]| :: t.open[a][i] != t.open[b][j])
  }

  /** Ids are minted 1, 2, 3, …; acts name fresh or unfinished ids; stacks hold unfinished ids. */
  predicate Tidy(t: Turn) {
    Minted(t.acts) == Numbers(t.calls) && AllProper(t.acts) && Stacked(t)
  }

  lemma ActAppended(acts: seq<Act>, act: Act)
    ensures Minted(acts + [act]) == Minted(acts) + (if act.Start? then [act.id] else if act.Plan? then [act.planned] else [])
    ensures Unfinished(acts + [act])
         == if act.Start? then Unfinished(acts) + {act.id} else if act.Complete? then Unfinished(acts) - {act.completed} else Unfinished(acts)
    ensures AllProper(acts) && Proper(acts, act) ==> AllProper(acts + [act])
  {
    hide Proper;
    var all := acts + [act];
    assert all[..|acts|] == acts;
    if AllProper(acts) && Proper(acts, act) {
      forall k | 0 <= k < |all| ensures Proper(all[..k], all[k]) {
        if k < |acts| { assert all[..k] == acts[..k]; }
      }
    }
  }

  predicate MintsNothing(act: Act) { !act.Start? && !act.Plan? && !act.Complete? }

  lemma QuietActKeepsTidy(t: Turn, act: Act)
    requires Tidy(t) && MintsNothing(act) && Proper(t.acts, act)
    ensures Tidy(t.(acts := t.acts + [act]))
  {
    hide Minted, Unfinished, AllProper, Proper, Numbers;
    ActAppended(t.acts, act);
  }

  lemma NextNumber(n: nat)
    ensures Numbers(n) + [n + 1] == Numbers(n + 1) && n + 1 !in Numbers(n)
  {
  }

  lemma PlanKeepsTidy(t: Turn, action: string)
    requires Tidy(t)
    ensures Tidy(t.(calls := t.calls + 1, acts := t.acts + [Plan(t.calls + 1, action)]))
  {
    hide Minted, Unfinished, AllProper, Numbers;
    NextNumber(t.calls);
    ActAppended(t.acts, Plan(t.calls + 1, action));
  }

  lemma StartKeepsTidy(t: Turn, tool: string, title: string)
    requires Tidy(t)
    ensures var id := t.calls + 1;
            Tidy(t.(calls := id, open := t.open[tool := IdsOf(t, tool) + [id]], acts := t.acts + [Start(id, title)]))
  {
    hide Minted, Unfinished, AllProper, Numbers;
    NextNumber(t.calls);
    ActAppended(t.acts, Start(t.calls + 1, title));
  }

  lemma LastIsUnfinished(t: Turn, tool: string)
    requires Stacked(t) && IdsOf(t, tool) != []
    ensures IdsOf(t, tool)[|IdsOf(t, tool)| - 1] in Unfinished(t.acts)
  {
  }

  lemma CompleteKeepsTidy(t: Turn, tool: string, outcome: string)
    requires Tidy(t) && IdsOf(t, tool) != []
    ensures var ids := IdsOf(t, tool);
            Tidy(t.(open := t.open[tool := ids[..|ids| - 1]], acts := t.acts + [Complete(ids[|ids| - 1], outcome)]))
  {
    hide Minted, Unfinished, AllProper, Numbers;
    var ids := IdsOf(t, tool);
    LastIsUnfinished(t, tool);
    ActAppended(t.acts, Complete(ids[|ids| - 1], outcome));
  }

  lemma HandleKeepsTidy(t: Turn, m: Message, answer: Answer)
    requires Tidy(t)
    ensures Tidy(Handle(t, m, answer))
  {
    hide Minted, Unfinished, AllProper, Stacked, Numbers, IdsOf, TitleOf, Approves;
    match m
    case Delta(_, text) => QuietActKeepsTidy(t, Say(text));
    case ToolBegan(_, tool, name) => StartKeepsTidy(t, tool, TitleOf(tool, name));
    case ToolRefined(_, tool, name) =>
      var ids := IdsOf(t, tool);
      if ids != [] && name.Some? {
        LastIsUnfinished(t, tool);
        QuietActKeepsTidy(t, Refine(ids[|ids| - 1], name.value));
      }
    case ToolEnded(_, tool, outcome) => if IdsOf(t, tool) != [] { CompleteKeepsTidy(t, tool, outcome); }
    case Noted(_, note) => QuietActKeepsTidy(t, Think(note));
    case ToolPlanned(_, action) => PlanKeepsTidy(t, action);
    case ApprovalAsked(approval, asked) => PermissionKeepsTidy(t, approval, asked, answer);
    case EndedRun(_, cancelled) => EndKeepsTidy(t, t.run, Some(if cancelled then CancelledTurn else EndTurn));
    case _ =>
  }

  lemma PermissionKeepsTidy(t: Turn, approval: string, asked: string, answer: Answer)
    requires Tidy(t)
    ensures Tidy(Handle(t, ApprovalAsked(approval, asked), answer))
  {
    hide Tidy, Approves;
    var ask, resolve := AskPermission(approval, asked), Resolve(approval, Approves(answer));
    QuietActKeepsTidy(t, ask);
    var once := t.(acts := t.acts + [ask]);
    QuietActKeepsTidy(once, resolve);
    assert once.acts + [resolve] == t.acts + [ask, resolve];
    var twice := once.(acts := once.acts + [resolve]);
    EndKeepsTidy(twice, t.run, if answer.taken then None else Some(BackendError));
    assert answer.taken ==> Handle(t, ApprovalAsked(approval, asked), answer) == twice.(ended := None);
  }

  lemma EndKeepsTidy(t: Turn, run: Option<RunId>, ended: Option<End>)
    requires Tidy(t)
    ensures Tidy(t.(run := run, ended := ended))
  {
    hide Minted, Unfinished, AllProper, Numbers;
  }

  lemma StepKeepsTidy(t: Turn, input: Input)
    requires Tidy(t)
    ensures Tidy(TurnStep(t, input))
  {
    hide Tidy, Handle, BelongsToTurn;
    if t.ended.None? {
      match input
      case CancelTurn =>
        var acts := if t.run.Some? then t.acts + [CancelRun(t.run.value)] else t.acts;
        if t.run.Some? { QuietActKeepsTidy(t, CancelRun(t.run.value)); }
        EndKeepsTidy(t.(acts := acts), t.run, Some(CancelledTurn));
      case ReadError => EndKeepsTidy(t, t.run, Some(BackendError));
      case Closed => EndKeepsTidy(t, t.run, Some(EndTurn));
      case OtherPayload =>
      case Frame(m, answer) =>
        EndKeepsTidy(t, Bind(t, m).run, t.ended);
        HandleKeepsTidy(Bind(t, m), m, answer);
    }
  }

  /**
    Over any run of inputs the minted ids are 1, 2, 3, … with none twice, and every
    refinement and completion names an id that was started and is not yet completed.
   */
  lemma {:induction false} ToolIdsAreProper(created: Option<RunId>, inputs: seq<Input>)
    ensures Tidy(RunTurn(Begin(created), inputs))
  {
    hide Tidy, TurnStep;
    if inputs == [] {
      BeginIsTidy(created);
    } else {
      ToolIdsAreProper(created, inputs[..|inputs| - 1]);
      StepKeepsTidy(RunTurn(Begin(created), inputs[..|inputs| - 1]), inputs[|inputs| - 1]);
    }
  }

  lemma BeginIsTidy(created: Option<RunId>)
    ensures Tidy(Begin(created))
  {
    assert Minted([]) == Numbers(0);
  }

  // ----- cancellation and permissions

  function CancelledRuns(acts: seq<Act>): set<RunId> { set act <- acts | act.CancelRun? :: act.cancelled }

  /** Requests and answers, in order. */
  function Requests(acts: seq<Act>): seq<string> {
    if acts == [] then []
    else Requests(acts[..|acts| - 1]) + (if acts[|acts| - 1].AskPermission? then [acts[|acts| - 1].request] else [])
  }

  function Answers(acts: seq<Act>): seq<string> {
    if acts == [] then []
    else Answers(acts[..|acts| - 1]) + (if acts[|acts| - 1].Resolve? then [acts[|acts| - 1].resolved] else [])
  }

  predicate Faithful(t: Turn) {
    && (CancelledRuns(t.acts) == {} || (t.run.Some? && CancelledRuns(t.acts) == {t.run.value} && t.ended == Some(CancelledTurn)))
    && Requests(t.acts) == Answers(t.acts)
  }

  lemma ActCounted(acts: seq<Act>, act: Act)
    ensures CancelledRuns(acts + [act]) == CancelledRuns(acts) + (if act.CancelRun? then {act.cancelled} else {})
    ensures Requests(acts + [act]) == Requests(acts) + (if act.AskPermission? then [act.request] else [])
    ensures Answers(acts + [act]) == Answers(acts) + (if act.Resolve? then [act.resolved] else [])
  {
    assert (acts + [act])[..|acts|] == acts;
    if act.CancelRun? {
      assert (acts + [act])[|acts|] == act;
      assert act in acts + [act];
    }
  }

  lemma HandleKeepsFaith(t: Turn, m: Message, answer: Answer)
    requires Faithful(t) && t.ended.None?
    ensures Faithful(Handle(t, m, answer))
  {
    hide CancelledRuns, Requests, Answers, TitleOf, Approves, IdsOf;
    var u := Handle(t, m, answer);
    assert CancelledRuns(t.acts) == {};
    if m.ApprovalAsked? {
      var ask, resolve := u.acts[|t.acts|], u.acts[|t.acts| + 1];
      ActCounted(t.acts, ask);
      ActCounted(t.acts + [ask], resolve);
      assert t.acts + [ask] + [resolve] == u.acts;
    } else if u.acts != t.acts {
      ActCounted(t.acts, u.acts[|t.acts|]);
    }
  }

  lemma StepKeepsFaith(t: Turn, input: Input)
    requires Faithful(t)
    ensures Faithful(TurnStep(t, input))
  {
    hide CancelledRuns, Requests, Answers, Handle, BelongsToTurn;
    if t.ended.None? {
      if input.Frame? { HandleKeepsFaith(Bind(t, input.message), input.message, input.answer); }
      if input.CancelTurn? && t.run.Some? { ActCounted(t.acts, CancelRun(t.run.value)); }
    }
  }

  /** Only the bound run is ever cancelled, and every permission asked for is answered, in order. */
  lemma {:induction false} TurnIsFaithful(created: Option<RunId>, inputs: seq<Input>)
    ensures var t := RunTurn(Begin(created), inputs);
            Faithful(t) && (created.Some? ==> t.run == created && CancelledRuns(t.acts) <= {created.value})
  {
    hide TurnStep, Faithful, CancelledRuns;
    if created.Some? { NeverRebinds(Begin(created), inputs); }
    if inputs == [] {
      BeginIsFaithful(created);
    } else {
      TurnIsFaithful(created, inputs[..|inputs| - 1]);
      StepKeepsFaith(RunTurn(Begin(created), inputs[..|inputs| - 1]), inputs[|inputs| - 1]);
    }
    OnlyBound(RunTurn(Begin(created), inputs));
  }

  lemma OnlyBound(t: Turn)
    requires Faithful(t)
    ensures t.run.Some? ==> CancelledRuns(t.acts) <= {t.run.value}
  {
  }

  lemma BeginIsFaithful(created: Option<RunId>)
    ensures Faithful(Begin(created))
  {
    assert CancelledRuns([]) == {};
  }

  // ----- the loop

  /** The loop, reading inputs until the turn ends or none is left. */
  method Prompt(created: Option<RunId>, inputs: seq<Input>) returns (acts: seq<Act>, ended: Option<End>, run: Option<RunId>)
    ensures var t := RunTurn(Begin(created), inputs); acts == t.acts && ended == t.ended && run == t.run
  {
    hide BelongsToTurn, TitleOf;
    run := created;
    var toolCalls := 0;
    var toolIds: map<string, seq<nat>> := map[];
    acts, ended := [], None;
    var next := 0;
    while next < |inputs|
      invariant next <= |inputs| && ended.None?
      invariant RunTurn(Begin(created), inputs[..next]) == Turn(run, toolCalls, toolIds, acts, ended)
    {
      ghost var before := Turn(run, toolCalls, toolIds, acts, ended);
      var input := inputs[next];
      assert inputs[..next + 1][..next] == inputs[..next];
      next := next + 1;
      match input {
      case CancelTurn =>
        if run.Some? { acts := acts + [CancelRun(run.value)]; }
        ended := Some(CancelledTurn);
      case ReadError => ended := Some(BackendError);
      case Closed => ended := Some(EndTurn);
      case OtherPayload =>
      case Frame(m, answer) =>
        if m.StartedRun? && run.None? { run := Some(m.run); }
        if BelongsToTurn(m, run) {
          match m {
          case Delta(_, text) => acts := acts + [Say(text)];
          case ToolBegan(_, tool, name) =>
            toolCalls := toolCalls + 1;
            toolIds := toolIds[tool := (if tool in toolIds then toolIds[tool] else []) + [toolCalls]];
            acts := acts + [Start(toolCalls, TitleOf(tool, name))];
          case ToolRefined(_, tool, name) =>
            if tool in toolIds && toolIds[tool] != [] && name.Some? {
              acts := acts + [Refine(toolIds[tool][|toolIds[tool]| - 1], name.value)];
            }
          case ToolEnded(_, tool, outcome) =>
            if tool in toolIds && toolIds[tool] != [] {
              var ids := toolIds[tool];
              toolIds := toolIds[tool := ids[..|ids| - 1]];
              acts := acts + [Complete(ids[|ids| - 1], outcome)];
            }
          case Noted(_, note) => acts := acts + [Think(note)];
          case ToolPlanned(_, action) =>
            toolCalls := toolCalls + 1;
            acts := acts + [Plan(toolCalls, action)];
          case ApprovalAsked(approval, asked) =>
            acts := acts + [AskPermission(approval, asked), Resolve(approval, Approves(answer))];
            if !answer.taken { ended := Some(BackendError); }
          case EndedRun(_, cancelled) => ended := Some(if cancelled then CancelledTurn else EndTurn);
          case _ =>
          }
        }
      }
      assert TurnStep(before, input) == Turn(run, toolCalls, toolIds, acts, ended);
      if ended.Some? {
        Ends(created, inputs, next);
        return;
      }
    }
    assert inputs[..next] == inputs;
  }

  /** What comes after the end of a turn is not part of it. */
  lemma {:induction false} Ends(created: Option<RunId>, inputs: seq<Input>, k: nat)
    requires k <= |inputs| && RunTurn(Begin(created), inputs[..k]).ended.Some?
    ensures RunTurn(Begin(created), inputs) == RunTurn(Begin(created), inputs[..k])
    decreases |inputs|
  {
    hide TurnStep;
    if k == |inputs| {
      assert inputs[..k] == inputs;
    } else {
      var front := inputs[..|inputs| - 1];
      assert front[..k] == inputs[..k];
      Ends(created, front, k);
      EndedStays(RunTurn(Begin(created), front), inputs[|inputs| - 1]);
    }
  }
}
