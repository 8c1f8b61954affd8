/**
  What one ACP turn tells the editor, said of its inputs alone.  The run of the turn is
  the reported one or the first to start; inputs count until the first one that ends the
  turn; a refinement or completion belongs to the start it matches, as closing brackets
  match opening ones; every approval asked for is answered by the client's own choice.
 */
module AcpStory {
  import opened Events
  import opened AcpTurn

  function Front(inputs: seq<Input>): seq<Input>
    requires inputs != []
  {
    inputs[..|inputs| - 1]
  }

  function Last(inputs: seq<Input>): Input
    requires inputs != []
  {
    inputs[|inputs| - 1]
  }

  /** The run the turn belongs to after these inputs: the one reported, else the first that started. */
  function TurnRun(created: Option<RunId>, inputs: seq<Input>): Option<RunId> {
    if created.Some? || inputs == [] then created
    else
      var earlier := TurnRun(created, Front(inputs));
      if earlier.Some? then earlier
      else if Last(inputs).Frame? && Last(inputs).message.StartedRun? then Some(Last(inputs).message.run)
      else None
  }

  /** A message of the run, or one that names no run. */
  predicate Concerns(m: Message, run: Option<RunId>) {
    match m
    case ApprovalAsked(_, _) => true
    case OfSession => true
    case Noted(noteRun, _) => noteRun.None? || noteRun == run
    case _ => run == Some(m.run)
  }

  /** How the last input ends the turn, if it does. */
  function Ending(created: Option<RunId>, inputs: seq<Input>): Option<End>
    requires inputs != []
  {
    match Last(inputs)
    case CancelTurn => Some(CancelledTurn)
    case ReadError => Some(BackendError)
    case Closed => Some(EndTurn)
    case OtherPayload => None
    case Frame(m, answer) =>
      if m.ApprovalAsked? then (if answer.taken then None else Some(BackendError))
      else if m.EndedRun? && TurnRun(created, inputs) == Some(m.run) then Some(if m.cancelled then CancelledTurn else EndTurn)
      else None
  }

  /** How the turn ended within these inputs: by the first of them that ends it. */
  function EndOf(created: Option<RunId>, inputs: seq<Input>): Option<End> {
    if inputs == [] then None
    else if EndOf(created, Front(inputs)).Some? then EndOf(created, Front(inputs))
    else Ending(created, inputs)
  }

  /** The last input is a message of the turn, met before its end. */
  predicate Heard(created: Option<RunId>, inputs: seq<Input>) {
    && inputs != [] && EndOf(created, Front(inputs)).None?
    && Last(inputs).Frame? && Concerns(Last(inputs).message, TurnRun(created, inputs))
  }

  /** How many tool calls the turn has shown. */
  function Shown(created: Option<RunId>, inputs: seq<Input>): nat {
    if inputs == [] then 0
    else Shown(created, Front(inputs))
         + (if Heard(created, inputs) && (Last(inputs).message.ToolBegan? || Last(inputs).message.ToolPlanned?) then 1 else 0)
  }

  predicate Begins(created: Option<RunId>, inputs: seq<Input>, tool: string) {
    Heard(created, inputs) && Last(inputs).message.ToolBegan? && Last(inputs).message.tool == tool
  }

  predicate Ends(created: Option<RunId>, inputs: seq<Input>, tool: string) {
    Heard(created, inputs) && Last(inputs).message.ToolEnded? && Last(inputs).message.tool == tool
  }

  /** The start of a tool that is still open, reading backwards past `closed` ends to their starts. */
  function Match(created: Option<RunId>, inputs: seq<Input>, tool: string, closed: nat): Option<nat>
    decreases |inputs|
  {
    if inputs == [] then None
    else if Begins(created, inputs, tool) then
      (if closed == 0 then Some(Shown(created, inputs)) else Match(created, Front(inputs), tool, closed - 1))
    else if Ends(created, inputs, tool) then Match(created, Front(inputs), tool, closed + 1)
    else Match(created, Front(inputs), tool, closed)
  }

  function Title(tool: string, name: Option<string>): string {
    if |tool| >= 4 && tool[..4] == "acp:" then (if name.Some? then name.value else "Tool") else tool
  }

  /** What the last input makes the turn tell. */
  function Told(created: Option<RunId>, inputs: seq<Input>): seq<Act>
    requires inputs != []
  {
    var run := TurnRun(created, Front(inputs));
    if EndOf(created, Front(inputs)).Some? then []
    else if Last(inputs).CancelTurn? then (if run.Some? then [CancelRun(run.value)] else [])
    else if !Heard(created, inputs) then []
    else match Last(inputs).message
      case Delta(_, text) => [Say(text)]
      case Noted(_, note) => [Think(note)]
      case ToolBegan(_, tool, name) => [Start(Shown(created, inputs), Title(tool, name))]
      case ToolPlanned(_, action) => [Plan(Shown(created, inputs), action)]
      case ToolRefined(_, tool, name) =>
        var id := Match(created, Front(inputs), tool, 0);
        if id.Some? && name.Some? then [Refine(id.value, name.value)] else []
      case ToolEnded(_, tool, outcome) =>
        var id := Match(created, Front(inputs), tool, 0);
        if id.Some? then [Complete(id.value, outcome)] else []
      case ApprovalAsked(approval, asked) =>
        [AskPermission(approval, asked), Resolve(approval, Last(inputs).answer.choice == Some("allow"))]
      case _ => []
  }

  function Story(created: Option<RunId>, inputs: seq<Input>): seq<Act> {
    if inputs == [] then [] else Story(created, Front(inputs)) + Told(created, inputs)
  }

  // ----- the turn tells its story

  ghost predicate Stacks(t: Turn, created: Option<RunId>, inputs: seq<Input>) {
    forall tool: string, closed: nat ::
      Match(created, inputs, tool, closed)
      == var ids := IdsOf(t, tool); if closed < |ids| then Some(ids[|ids| - 1 - closed]) else None
  }

  ghost predicate Follows(t: Turn, created: Option<RunId>, inputs: seq<Input>) {
    && t.acts == Story(created, inputs) && t.ended == EndOf(created, inputs)
    && (t.ended.None? ==> t.run == TurnRun(created, inputs) && t.calls == Shown(created, inputs) && Stacks(t, created, inputs))
  }

  /** Binding and belonging, as the turn computes them, are those of the inputs. */
  lemma SameBelonging(t: Turn, created: Option<RunId>, inputs: seq<Input>)
    requires inputs != [] && Last(inputs).Frame? && t.run == TurnRun(created, Front(inputs))
    ensures var m := Last(inputs).message;
            Bind(t, m).run == TurnRun(created, inputs) && (BelongsToTurn(m, Bind(t, m).run) <==> Concerns(m, TurnRun(created, inputs)))
  {
  }

  lemma OtherTools(t: Turn, u: Turn, created: Option<RunId>, inputs: seq<Input>)
    requires inputs != [] && Stacks(t, created, Front(inputs))
    requires forall tool :: IdsOf(u, tool) == IdsOf(t, tool)
    requires forall tool :: !Begins(created, inputs, tool) && !Ends(created, inputs, tool)
    ensures Stacks(u, created, inputs)
  {
    hide Begins, Ends, IdsOf;
    forall x: string, closed: nat
      ensures Match(created, inputs, x, closed)
           == var ids := IdsOf(u, x); if closed < |ids| then Some(ids[|ids| - 1 - closed]) else None
    {
      assert !Begins(created, inputs, x) && !Ends(created, inputs, x);
      assert IdsOf(u, x) == IdsOf(t, x);
      assert Match(created, inputs, x, closed) == Match(created, Front(inputs), x, closed);
    }
  }

  lemma BeganStacks(t: Turn, created: Option<RunId>, inputs: seq<Input>, tool: string, name: Option<string>)
    requires inputs != [] && Stacks(t, created, Front(inputs)) && t.calls + 1 == Shown(created, inputs)
    requires Begins(created, inputs, tool)
    ensures Stacks(t.(calls := t.calls + 1, open := t.open[tool := IdsOf(t, tool) + [t.calls + 1]],
                      acts := t.acts + [Start(t.calls + 1, TitleOf(tool, name))]), created, inputs)
  {
    hide Shown, Heard;
    var ids := IdsOf(t, tool);
    var u := t.(calls := t.calls + 1, open := t.open[tool := ids + [t.calls + 1]], acts := t.acts + [Start(t.calls + 1, TitleOf(tool, name))]);
    forall x: string, closed: nat
      ensures Match(created, inputs, x, closed)
           == var all := IdsOf(u, x); if closed < |all| then Some(all[|all| - 1 - closed]) else None
    {
      if x != tool { assert IdsOf(u, x) == IdsOf(t, x); }
      else { assert IdsOf(u, x) == ids + [t.calls + 1]; }
    }
  }

  lemma EndedStacks(t: Turn, created: Option<RunId>, inputs: seq<Input>, tool: string, acts: seq<Act>)
    requires inputs != [] && Stacks(t, created, Front(inputs)) && Ends(created, inputs, tool)
    ensures var ids := IdsOf(t, tool);
            Stacks(if ids == [] then t else t.(open := t.open[tool := ids[..|ids| - 1]], acts := acts), created, inputs)
  {
    hide Shown, Heard;
    var ids := IdsOf(t, tool);
    var u := if ids == [] then t else t.(open := t.open[tool := ids[..|ids| - 1]], acts := acts);
    forall x: string, closed: nat
      ensures Match(created, inputs, x, closed)
           == var all := IdsOf(u, x); if closed < |all| then Some(all[|all| - 1 - closed]) else None
    {
      if x != tool { assert IdsOf(u, x) == IdsOf(t, x); }
      else if ids != [] { assert IdsOf(u, x) == ids[..|ids| - 1]; }
    }
  }

  lemma TopOfStack(t: Turn, created: Option<RunId>, inputs: seq<Input>, tool: string)
    requires Stacks(t, created, inputs)
    ensures var ids := IdsOf(t, tool); Match(created, inputs, tool, 0) == if ids != [] then Some(ids[|ids| - 1]) else None
  {
  }

  lemma SameTitle(tool: string, name: Option<string>)
    ensures TitleOf(tool, name) == Title(tool, name)
  {
    if |tool| >= 4 { assert ("acp:" <= tool) == (tool[..4] == "acp:"); }
  }

  /** A message of the turn: what is told of it. */
  lemma HandledTells(t: Turn, created: Option<RunId>, inputs: seq<Input>)
    requires inputs != [] && Heard(created, inputs) && Follows(t, created, Front(inputs)) && t.ended.None?
    ensures var input := Last(inputs);
            var u := Handle(Bind(t, input.message), input.message, input.answer);
            && u.acts == Story(created, inputs) && u.ended == EndOf(created, inputs)
            && u.run == TurnRun(created, inputs) && u.calls == Shown(created, inputs)
  {
    hide Stacks, Match, TitleOf, Title, IdsOf, BelongsToTurn, EndOf, Story, Shown, TurnRun;
    var m := Last(inputs).message;
    SameBelonging(t, created, inputs);
    LastInput(created, inputs);
    SameIds(t, Bind(t, m));
    if m.ToolBegan? { SameTitle(m.tool, m.name); }
    if m.ToolEnded? || m.ToolRefined? { TopOfStack(t, created, Front(inputs), m.tool); }
    assert Story(created, Front(inputs)) + [] == Story(created, Front(inputs));
  }

  /** What the last input adds, for a turn that lives and hears it. */
  lemma LastInput(created: Option<RunId>, inputs: seq<Input>)
    requires Heard(created, inputs)
    ensures EndOf(created, inputs) == Ending(created, inputs)
    ensures Story(created, inputs) == Story(created, Front(inputs)) + Told(created, inputs)
    ensures Shown(created, inputs) == Shown(created, Front(inputs))
              + (if Last(inputs).message.ToolBegan? || Last(inputs).message.ToolPlanned? then 1 else 0)
  {
    hide Told, Ending, TurnRun;
  }

  /** A message of the turn: which starts it leaves open. */
  lemma HandledStacks(t: Turn, created: Option<RunId>, inputs: seq<Input>)
    requires inputs != [] && Heard(created, inputs) && Follows(t, created, Front(inputs)) && t.ended.None?
    ensures var input := Last(inputs);
            Stacks(Handle(Bind(t, input.message), input.message, input.answer), created, inputs)
  {
    hide Stacks, Match, TitleOf, IdsOf, Concerns, BelongsToTurn, TurnRun, EndOf, Story;
    var m, answer := Last(inputs).message, Last(inputs).answer;
    var b := Bind(t, m);
    var u := Handle(b, m, answer);
    RebindStacks(t, b, created, Front(inputs));
    SameIds(t, b);
    match m {
      case ToolBegan(_, tool, name) => BeganStacks(b, created, inputs, tool, name);
      case ToolEnded(_, tool, outcome) => EndedStacks(b, created, inputs, tool, u.acts);
      case _ =>
        SameIds(b, u);
        OtherTools(b, u, created, inputs);
    }
  }

  lemma HandledFollows(t: Turn, created: Option<RunId>, inputs: seq<Input>)
    requires inputs != [] && Heard(created, inputs) && Follows(t, created, Front(inputs)) && t.ended.None?
    ensures var input := Last(inputs);
            Follows(Handle(Bind(t, input.message), input.message, input.answer), created, inputs)
  {
    hide Stacks, Handle, Story, EndOf, TurnRun, Shown, Heard;
    HandledTells(t, created, inputs);
    HandledStacks(t, created, inputs);
  }

  lemma SameIds(t: Turn, u: Turn)
    requires t.open == u.open
    ensures forall tool :: IdsOf(u, tool) == IdsOf(t, tool)
  {
  }

  lemma RebindStacks(t: Turn, u: Turn, created: Option<RunId>, inputs: seq<Input>)
    requires Stacks(t, created, inputs) && t.open == u.open
    ensures Stacks(u, created, inputs)
  {
    SameIds(t, u);
  }

  lemma StepFollows(t: Turn, created: Option<RunId>, inputs: seq<Input>)
    requires inputs != [] && Follows(t, created, Front(inputs))
    ensures Follows(TurnStep(t, Last(inputs)), created, inputs)
  {
    hide Stacks, Match, Handle, Concerns, BelongsToTurn;
    var u := TurnStep(t, Last(inputs));
    assert Story(created, Front(inputs)) + [] == Story(created, Front(inputs));
    if t.ended.None? && Last(inputs).Frame? {
      SameBelonging(t, created, inputs);
      if Heard(created, inputs) {
        HandledFollows(t, created, inputs);
      } else {
        SameIds(t, u);
        UnheardEndsNothing(created, inputs);
        OtherTools(t, u, created, inputs);
      }
    } else if t.ended.None? {
      SameIds(t, u);
      OtherTools(t, u, created, inputs);
    }
  }

  lemma UnheardEndsNothing(created: Option<RunId>, inputs: seq<Input>)
    requires inputs != [] && !Heard(created, inputs) && EndOf(created, Front(inputs)).None? && Last(inputs).Frame?
    ensures Ending(created, inputs).None?
  {
  }

  lemma {:induction false} TurnFollows(created: Option<RunId>, inputs: seq<Input>)
    ensures Follows(RunTurn(Begin(created), inputs), created, inputs)
  {
    hide TurnStep, Follows;
    if inputs == [] {
      NothingTold(created);
    } else {
      TurnFollows(created, Front(inputs));
      StepFollows(RunTurn(Begin(created), Front(inputs)), created, inputs);
    }
  }

  lemma NothingTold(created: Option<RunId>)
    ensures Follows(Begin(created), created, [])
  {
  }

  /** Over every run of inputs the turn's acts are its story, and it ends as the first ending input says. */
  lemma TurnTellsStory(created: Option<RunId>, inputs: seq<Input>)
    ensures RunTurn(Begin(created), inputs).acts == Story(created, inputs)
    ensures RunTurn(Begin(created), inputs).ended == EndOf(created, inputs)
    ensures EndOf(created, inputs).None? ==> RunTurn(Begin(created), inputs).run == TurnRun(created, inputs)
  {
    hide Stacks;
    TurnFollows(created, inputs);
  }

  // ----- answers, answers' text, thoughts, and the end

  function Answered(acts: seq<Act>): seq<Act> {
    if acts == [] then []
    else Answered(acts[..|acts| - 1]) + (if acts[|acts| - 1].Resolve? then [acts[|acts| - 1]] else [])
  }

  function Said(acts: seq<Act>): seq<string> {
    if acts == [] then []
    else Said(acts[..|acts| - 1]) + (if acts[|acts| - 1].Say? then [acts[|acts| - 1].said] else [])
  }

  function Thought(acts: seq<Act>): seq<string> {
    if acts == [] then []
    else Thought(acts[..|acts| - 1]) + (if acts[|acts| - 1].Think? then [acts[|acts| - 1].thought] else [])
  }

  /** Each approval asked for while the turn lives, with whether the client chose to allow it. */
  function Choices(created: Option<RunId>, inputs: seq<Input>): seq<Act> {
    if inputs == [] then []
    else Choices(created, Front(inputs))
         + (if EndOf(created, Front(inputs)).None? && Last(inputs).Frame? && Last(inputs).message.ApprovalAsked?
            then [Resolve(Last(inputs).message.approval, Last(inputs).answer.choice == Some("allow"))] else [])
  }

  /** The deltas of the turn's run while it lives. */
  function Deltas(created: Option<RunId>, inputs: seq<Input>): seq<string> {
    if inputs == [] then []
    else Deltas(created, Front(inputs))
         + (if EndOf(created, Front(inputs)).None? && Last(inputs).Frame? && Last(inputs).message.Delta?
               && TurnRun(created, inputs) == Some(Last(inputs).message.run)
            then [Last(inputs).message.text] else [])
  }

  /** The notes of the turn's run, and those of the session, while it lives. */
  function Notes(created: Option<RunId>, inputs: seq<Input>): seq<string> {
    if inputs == [] then []
    else Notes(created, Front(inputs))
         + (if EndOf(created, Front(inputs)).None? && Last(inputs).Frame? && Last(inputs).message.Noted?
               && (Last(inputs).message.noteRun.None? || Last(inputs).message.noteRun == TurnRun(created, inputs))
            then [Last(inputs).message.note] else [])
  }

  lemma ActProjected(acts: seq<Act>, act: Act)
    ensures Answered(acts + [act]) == Answered(acts) + (if act.Resolve? then [act] else [])
    ensures Said(acts + [act]) == Said(acts) + (if act.Say? then [act.said] else [])
    ensures Thought(acts + [act]) == Thought(acts) + (if act.Think? then [act.thought] else [])
  {
    assert (acts + [act])[..|acts|] == acts;
  }

  lemma ToldProjected(created: Option<RunId>, inputs: seq<Input>, acts: seq<Act>)
    requires inputs != []
    ensures var live, last := EndOf(created, Front(inputs)).None?, Last(inputs);
            var all := acts + Told(created, inputs);
            && Answered(all) == Answered(acts) + (if live && last.Frame? && last.message.ApprovalAsked?
                 then [Resolve(last.message.approval, last.answer.choice == Some("allow"))] else [])
            && Said(all) == Said(acts) + (if live && last.Frame? && last.message.Delta?
                 && TurnRun(created, inputs) == Some(last.message.run) then [last.message.text] else [])
            && Thought(all) == Thought(acts) + (if live && last.Frame? && last.message.Noted?
                 && (last.message.noteRun.None? || last.message.noteRun == TurnRun(created, inputs)) then [last.message.note] else [])
  {
    hide Answered, Said, Thought, Match, Shown, Title, EndOf, TurnRun;
    var told := Told(created, inputs);
    if |told| == 0 { assert acts + told == acts; }
    else if |told| == 1 { ActProjected(acts, told[0]); assert told == [told[0]]; }
    else {
      ActProjected(acts, told[0]);
      ActProjected(acts + [told[0]], told[1]);
      assert acts + [told[0]] + [told[1]] == acts + told;
    }
  }

  lemma {:induction false} StoryProjected(created: Option<RunId>, inputs: seq<Input>)
    ensures Answered(Story(created, inputs)) == Choices(created, inputs)
    ensures Said(Story(created, inputs)) == Deltas(created, inputs)
    ensures Thought(Story(created, inputs)) == Notes(created, inputs)
  {
    hide Told, EndOf, TurnRun;
    if inputs != [] {
      StoryProjected(created, Front(inputs));
      ToldProjected(created, inputs, Story(created, Front(inputs)));
    }
  }

  /** Over every run: an approval is granted exactly when the client chose to allow it, each once and in order. */
  lemma ApprovalsFollowChoices(created: Option<RunId>, inputs: seq<Input>)
    ensures Answered(RunTurn(Begin(created), inputs).acts) == Choices(created, inputs)
  {
    TurnTellsStory(created, inputs);
    StoryProjected(created, inputs);
  }

  /** Over every run: the messages are the deltas of the turn's run, the thoughts its notes and the session's, in order. */
  lemma TextsAreTheRunsOwn(created: Option<RunId>, inputs: seq<Input>)
    ensures Said(RunTurn(Begin(created), inputs).acts) == Deltas(created, inputs)
    ensures Thought(RunTurn(Begin(created), inputs).acts) == Notes(created, inputs)
  {
    TurnTellsStory(created, inputs);
    StoryProjected(created, inputs);
  }

  /** Input `k` ends the turn, by itself. */
  predicate EndsAt(created: Option<RunId>, inputs: seq<Input>, k: nat)
    requires k < |inputs|
  {
    var input, run := inputs[k], TurnRun(created, inputs[..k + 1]);
    || input.CancelTurn? || input.ReadError? || input.Closed?
    || (input.Frame? && input.message.ApprovalAsked? && !input.answer.taken)
    || (input.Frame? && input.message.EndedRun? && run == Some(input.message.run))
  }

  predicate FirstEnds(created: Option<RunId>, inputs: seq<Input>, k: nat)
    requires k < |inputs|
  {
    EndsAt(created, inputs, k) && forall j :: 0 <= j < k ==> !EndsAt(created, inputs, j)
  }

  lemma {:induction false} EndOfExactly(created: Option<RunId>, inputs: seq<Input>)
    ensures EndOf(created, inputs).None? <==> forall k :: 0 <= k < |inputs| ==> !EndsAt(created, inputs, k)
  {
    if inputs != [] {
      var n := |inputs| - 1;
      EndOfExactly(created, Front(inputs));
      assert inputs[..n + 1] == inputs;
      forall k | 0 <= k < n ensures EndsAt(created, inputs, k) == EndsAt(created, Front(inputs), k) {
        assert Front(inputs)[..k + 1] == inputs[..k + 1];
      }
      assert Ending(created, inputs).Some? == EndsAt(created, inputs, n);
    }
  }

  lemma {:induction false} EndOfStays(created: Option<RunId>, inputs: seq<Input>, k: nat)
    requires k <= |inputs| && EndOf(created, inputs[..k]).Some?
    ensures EndOf(created, inputs) == EndOf(created, inputs[..k])
    decreases |inputs|
  {
    if k == |inputs| { assert inputs[..k] == inputs; }
    else {
      assert Front(inputs)[..k] == inputs[..k];
      EndOfStays(created, Front(inputs), k);
    }
  }

  /**
    Over every run: the turn is cancelled exactly when its first ending input is a cancel
    or its run's cancellation, fails exactly on a read error or an answer the daemon did
    not take, ends normally on any other, and goes on when no input ends it.
   */
  lemma TurnEndsExactly(created: Option<RunId>, inputs: seq<Input>, k: nat)
    ensures var ended := RunTurn(Begin(created), inputs).ended;
            && (ended.None? <==> forall j :: 0 <= j < |inputs| ==> !EndsAt(created, inputs, j))
            && (k < |inputs| && FirstEnds(created, inputs, k) ==>
                  var input := inputs[k];
                  && (ended == Some(CancelledTurn) <==> input.CancelTurn? || (input.Frame? && input.message.EndedRun? && input.message.cancelled))
                  && (ended == Some(BackendError) <==> input.ReadError? || (input.Frame? && input.message.ApprovalAsked?))
                  && (ended == Some(EndTurn) <==> input.Closed? || (input.Frame? && input.message.EndedRun? && !input.message.cancelled)))
  {
    hide EndOf, TurnRun;
    TurnTellsStory(created, inputs);
    EndOfExactly(created, inputs);
    if k < |inputs| && FirstEnds(created, inputs, k) {
      EndOfAt(created, inputs, k);
    }
  }

  lemma EndOfAt(created: Option<RunId>, inputs: seq<Input>, k: nat)
    requires k < |inputs| && FirstEnds(created, inputs, k)
    ensures EndOf(created, inputs) == Ending(created, inputs[..k + 1])
  {
    hide TurnRun;
    var upTo := inputs[..k + 1];
    assert Front(upTo) == inputs[..k] && Last(upTo) == inputs[k];
    EndOfExactly(created, inputs[..k]);
    forall j | 0 <= j < k ensures !EndsAt(created, inputs[..k], j) {
      assert inputs[..k][..j + 1] == inputs[..j + 1];
      assert !EndsAt(created, inputs, j);
    }
    assert EndOf(created, upTo) == Ending(created, upTo);
    EndOfStays(created, inputs, k + 1);
  }
}
