/**
  What each kind of event does to the session on screen: the rows it adds, changes or
  removes, and the fields it moves, said of the projection before and after it.
 */
module EventEffects {
  import opened Events
  import opened Projection

  /** The run is a sibling of the one displayed. */
  predicate Sibling(s: Surface, run: RunId) {
    run != "" && s.activeRun.Some? && s.activeRun.value !in {"", run}
  }

  /** The same rows in the same places, except at `k`. */
  predicate OnlyRow(before: seq<Item>, after: seq<Item>, k: nat) {
    |after| == |before| && k < |before| && forall j :: 0 <= j < |before| && j != k ==> after[j] == before[j]
  }

  /** A row is added at the end. */
  predicate Added(before: seq<Item>, after: seq<Item>, row: Item) { after == before + [row] }

  predicate FirstAt(items: seq<Item>, k: nat, p: Item -> bool) {
    k < |items| && p(items[k]) && forall j :: 0 <= j < k ==> !p(items[j])
  }

  predicate LastAt(items: seq<Item>, k: nat, p: Item -> bool) {
    k < |items| && p(items[k]) && forall j :: k < j < |items| ==> !p(items[j])
  }

  predicate NoneHas(items: seq<Item>, p: Item -> bool) { forall j :: 0 <= j < |items| ==> !p(items[j]) }

  ghost predicate Alike(p: Item -> bool, q: Item -> bool) { forall item: Item :: p(item) == q(item) }

  lemma {:induction false} FindsLast(items: seq<Item>, k: nat, p: Item -> bool, q: Item -> bool)
    requires Alike(p, q)
    ensures LastAt(items, k, p) ==> FindLast(items, q) == k
    ensures NoneHas(items, p) ==> FindLast(items, q) == |items|
  {
    var found := FindLast(items, q);
    assert found < |items| ==> p(items[found]);
    assert k < |items| ==> p(items[k]) == q(items[k]);
  }

  lemma {:induction false} FindsFirst(items: seq<Item>, k: nat, p: Item -> bool, q: Item -> bool)
    requires Alike(p, q)
    ensures FirstAt(items, k, p) ==> FindFirst(items, q) == k
    ensures NoneHas(items, p) ==> FindFirst(items, q) == |items|
  {
    var found := FindFirst(items, q);
    assert found < |items| ==> p(items[found]);
    assert k < |items| ==> p(items[k]) == q(items[k]);
  }

  // ----- tools

  function RunningCard(tool: string, run: RunId): Item -> bool {
    (item: Item) => item.ToolItem? && item.tool == tool && item.run == run && item.status == ToolRunning
  }

  function AnyCard(tool: string, run: RunId): Item -> bool {
    (item: Item) => item.ToolItem? && item.tool == tool && item.run == run
  }

  /** A completion writes its outcome into the latest running card of its tool and run, and nowhere else. */
  lemma CompletionWritesOutcome(p: Projection, e: Event, k: nat)
    requires e.body.ToolCompleted? && LastAt(p.transcript, k, RunningCard(e.body.tool, e.body.run))
    ensures var before, after := p.transcript[k], Apply(p, e).transcript;
            && OnlyRow(p.transcript, after, k) && after[k].ToolItem?
            && (after[k].status == ToolSuccess <==> e.body.succeeded)
            && (after[k].status == ToolError <==> !e.body.succeeded)
            && after[k].artifact == (if e.body.artifact != "" then e.body.artifact else before.artifact)
            && after[k].result == (if !e.body.succeeded && e.body.message != "" then e.body.message else before.result)
            && after[k] == before.(status := after[k].status, artifact := after[k].artifact, result := after[k].result)
  {
    hide SurfaceStep;
    var tool, run := e.body.tool, e.body.run;
    FindsLast(p.transcript, k, RunningCard(tool, run), (item: Item) => IsRunningTool(item, tool, run));
  }

  /** Without a running card a completion changes no row. */
  lemma CompletionWithoutCard(p: Projection, e: Event)
    requires e.body.ToolCompleted? && NoneHas(p.transcript, RunningCard(e.body.tool, e.body.run))
    ensures Apply(p, e).transcript == p.transcript
  {
    hide SurfaceStep;
    var tool, run := e.body.tool, e.body.run;
    FindsLast(p.transcript, 0, RunningCard(tool, run), (item: Item) => IsRunningTool(item, tool, run));
  }

  /** The displayed run's running tools, after which the working row is named. */
  function RunsNow(s: Surface): Item -> bool {
    (item: Item) => item.ToolItem? && Some(item.run) == s.activeRun && item.status == ToolRunning
  }

  /** After a completion the working row names the latest tool still running, unless a human is awaited. */
  lemma CompletionMovesActivity(p: Projection, e: Event, k: nat)
    requires e.body.ToolCompleted?
    ensures var q, s := Apply(p, e), p.surface;
            && (Sibling(s, e.body.run) || s.activity.Waiting() ==> q.surface == s)
            && (!Sibling(s, e.body.run) && !s.activity.Waiting() ==>
                  && q.surface == s.(activity := q.surface.activity)
                  && (NoneHas(q.transcript, RunsNow(s)) ==> q.surface.activity == Thinking)
                  && (LastAt(q.transcript, k, RunsNow(s)) ==>
                        q.surface.activity == UsingTool(if q.transcript[k].title != "" then q.transcript[k].title
                                                        else if q.transcript[k].tool != "" then q.transcript[k].tool else "Tool")))
  {
    hide EditOf, Perform;
    var q, s := Apply(p, e), p.surface;
    FindsLast(q.transcript, k, RunsNow(s), (item: Item) => s.activeRun.Some? && RunsTool(item, s.activeRun.value));
  }

  predicate AppearsIn(part: string, text: string) { exists j :: 0 <= j <= |text| && part <= text[j..] }

  /** The words of a tool call: its kind and its action. */
  lemma ToolWords(tool: string, title: string, fallback: string)
    ensures var (kind, action) := ToolParts(tool, title, fallback);
            && (!("acp:" <= tool) ==> kind == tool && action == (if title != "" then title else tool))
            && ("acp:" <= tool && AppearsIn(SEPARATOR, title) ==>
                  title == kind + SEPARATOR + action && forall j :: 0 <= j < |kind| ==> !(SEPARATOR <= title[j..]))
            && ("acp:" <= tool && !AppearsIn(SEPARATOR, title) ==>
                  kind == action == (if title != "" then title else fallback))
  {
    hide IndexOf, AppearsIn;
    FirstFound(title, SEPARATOR);
  }

  /** A text split where a part first appears, when it does. */
  lemma FirstFound(text: string, part: string)
    requires part != ""
    ensures var at := IndexOf(text, part);
            && (at >= 0 <==> AppearsIn(part, text))
            && (at >= 0 ==> at + |part| <= |text| && text == text[..at] + part + text[at + |part|..]
                            && forall j :: 0 <= j < at ==> !(part <= text[j..]))
  {
    var at := IndexOf(text, part);
    if at >= 0 { SplitsAround(text, part, at); }
  }

  lemma SplitsAround(text: string, part: string, at: nat)
    requires at <= |text| && part <= text[at..]
    ensures at + |part| <= |text| && text == text[..at] + part + text[at + |part|..]
  {
    assert text[at..] == part + text[at + |part|..];
  }

  /** A tool start adds a running card; a repeated ACP start retitles the first card of its call instead. */
  lemma StartAddsOrRetitles(p: Projection, e: Event, k: nat)
    requires e.body.ToolStarted?
    ensures var (kind, action) := ToolParts(e.body.tool, e.body.title, "Tool");
            var before, after, card := p.transcript, Apply(p, e).transcript, AnyCard(e.body.tool, e.body.run);
            && ("acp:" <= e.body.tool && FirstAt(before, k, card) ==>
                  OnlyRow(before, after, k) && after[k] == before[k].(title := action, toolKind := kind))
            && (!("acp:" <= e.body.tool) || NoneHas(before, card) ==>
                  Added(before, after, ToolItem(e.sequence, e.body.tool, e.body.run, kind, action, ToolRunning, "", "", e.occurredAt)))
  {
    hide SurfaceStep, ToolParts;
    var tool, run := e.body.tool, e.body.run;
    FindsFirst(p.transcript, k, AnyCard(tool, run), (item: Item) => IsTool(item, tool, run));
  }

  /** The working row names a started tool, unless it is a sibling's or a card that had already ended. */
  lemma StartMovesActivity(p: Projection, e: Event, k: nat)
    requires e.body.ToolStarted?
    ensures var (_, action) := ToolParts(e.body.tool, e.body.title, "Tool");
            var s, q := p.surface, Apply(p, e).surface;
            var card, acp := AnyCard(e.body.tool, e.body.run), "acp:" <= e.body.tool;
            && q == s.(activity := q.activity)
            && (Sibling(s, e.body.run) ==> q == s)
            && (acp && FirstAt(p.transcript, k, card) && p.transcript[k].status != ToolRunning ==> q == s)
            && (!Sibling(s, e.body.run)
                && (!acp || NoneHas(p.transcript, card) || (FirstAt(p.transcript, k, card) && p.transcript[k].status == ToolRunning)) ==>
                  q.activity == UsingTool(if acp then action else e.body.tool))
  {
    hide EditOf, Perform, ToolParts;
    var tool, run := e.body.tool, e.body.run;
    FindsFirst(p.transcript, k, AnyCard(tool, run), (item: Item) => IsTool(item, tool, run));
  }

  /** An update retitles the first card of its tool and run; the working row follows if it named that running card. */
  lemma UpdateRetitles(p: Projection, e: Event, k: nat)
    requires e.body.ToolUpdated? && e.body.title != "" && FirstAt(p.transcript, k, AnyCard(e.body.tool, e.body.run))
    ensures var (kind, action) := ToolParts(e.body.tool, e.body.title, e.body.title);
            var s, q, card := p.surface, Apply(p, e), p.transcript[k];
            && OnlyRow(p.transcript, q.transcript, k)
            && q.transcript[k] == card.(title := action, toolKind := kind)
            && q.surface == (if !Sibling(s, e.body.run) && card.status == ToolRunning
                                && (s.activity == UsingTool(card.title) || s.activity == UsingTool(card.tool))
                             then s.(activity := UsingTool(action)) else s)
  {
    hide ToolParts;
    var tool, run := e.body.tool, e.body.run;
    FindsFirst(p.transcript, k, AnyCard(tool, run), (item: Item) => IsTool(item, tool, run));
  }

  lemma UpdateWithoutCard(p: Projection, e: Event)
    requires e.body.ToolUpdated? && (e.body.title == "" || NoneHas(p.transcript, AnyCard(e.body.tool, e.body.run)))
    ensures Apply(p, e) == p
  {
    hide ToolParts;
    var tool, run := e.body.tool, e.body.run;
    FindsFirst(p.transcript, 0, AnyCard(tool, run), (item: Item) => IsTool(item, tool, run));
  }

  // ----- streamed text

  /** A delta lengthens the last row exactly when that is its own run, kind and model, and adds a row otherwise. */
  lemma DeltaExtendsOrAdds(p: Projection, e: Event)
    requires e.body.ModelStreamDelta?
    ensures var s, q, before := p.surface, Apply(p, e), p.transcript;
            var n, kind := |before|, if e.body.thought then Thought else Assistant;
            var model := if e.actor.Agent? && e.actor.run == e.body.run then e.actor.model else None;
            && (e.body.text == "" ==> q == p)
            && (e.body.text != "" ==> q.surface == if Sibling(s, e.body.run) then s else s.(activity := Streaming))
            && (e.body.text != "" && n > 0 && before[n - 1].StreamItem? && before[n - 1].kind == kind
                && before[n - 1].run == e.body.run && before[n - 1].model == model ==>
                  && OnlyRow(before, q.transcript, n - 1)
                  && q.transcript[n - 1] == before[n - 1].(streamed := before[n - 1].streamed + e.body.text))
            && (e.body.text != ""
                && !(n > 0 && before[n - 1].StreamItem? && before[n - 1].kind == kind
                     && before[n - 1].run == e.body.run && before[n - 1].model == model) ==>
                  Added(before, q.transcript, StreamItem(kind, e.body.run, e.sequence, e.body.text, model, e.occurredAt)))
  {
  }

  // ----- the run's life

  /** A start adds the objective's row, remembers the objective of every run, and shows the run unless another is shown. */
  lemma StartShowsRun(p: Projection, e: Event)
    requires e.body.RunStarted?
    ensures var s, q, run, objective := p.surface, Apply(p, e), e.body.run, e.body.objective;
            && Added(p.transcript, q.transcript, UserItem(e.sequence, objective, e.occurredAt))
            && q.surface.objectivesByRun == (if run != "" && objective != "" then s.objectivesByRun[run := objective] else s.objectivesByRun)
            && (Sibling(s, run) ==> q.surface == s.(objectivesByRun := q.surface.objectivesByRun))
            && (!Sibling(s, run) ==>
                  && q.surface.activeRun == (if run != "" then Some(run) else s.activeRun)
                  && q.surface.isRunning && q.surface.runState == Some(Queued) && q.surface.activity == Thinking
                  && q.surface.activeObjective == (if objective != "" then Some(objective) else s.activeObjective)
                  && q.surface.usage == None && q.surface.pendingPrompts == s.pendingPrompts)
  {
  }

  /** Each row with the run's running tools finished. */
  predicate Settled(before: seq<Item>, after: seq<Item>, run: RunId) {
    |after| >= |before| && forall k :: 0 <= k < |before| ==>
      after[k] == if before[k].ToolItem? && before[k].run == run && before[k].status == ToolRunning
                  then before[k].(status := ToolFinished) else before[k]
  }

  /** What an end adds: nothing for success, a failure with the run's own objective, or the way it ended. */
  lemma EndSettlesAndReports(p: Projection, e: Event)
    requires e.body.RunCompleted?
    ensures var s, q, run := p.surface, Apply(p, e), e.body.run;
            var n := |p.transcript|;
            && Settled(p.transcript, q.transcript, run)
            && (e.body.disposition.EndedCompleted? ==> |q.transcript| == n)
            && (!e.body.disposition.EndedCompleted? ==> |q.transcript| == n + 1)
            && (e.body.disposition.EndedFailed? ==>
                  q.transcript[n] == FailureItem(e.sequence, run, e.body.disposition.reason,
                                                 if run != "" && run in s.objectivesByRun then Some(s.objectivesByRun[run])
                                                 else if Sibling(s, run) then None else s.activeObjective, e.occurredAt))
            && (e.body.disposition.EndedOther? ==>
                  q.transcript[n] == RunEndItem(e.sequence, e.body.disposition.kind, e.body.disposition.reason, e.occurredAt))
            && q.surface.objectivesByRun == (if run == "" then s.objectivesByRun else s.objectivesByRun - {run})
            && (Sibling(s, run) ==> q.surface == s.(objectivesByRun := q.surface.objectivesByRun))
            && (!Sibling(s, run) ==>
                  q.surface == s.(isRunning := false, activeRun := None, runState := None, activity := Idle,
                                  objectivesByRun := q.surface.objectivesByRun))
  {
  }

  /** A terminal transition settles and clears the displayed run; any other is recorded, and adopts a run when none is shown. */
  lemma TransitionMovesRun(p: Projection, e: Event)
    requires e.body.RunStateChanged?
    ensures var s, q, run, state := p.surface, Apply(p, e), e.body.run, e.body.state;
            var over := state in {Some(Completed), Some(Failed), Some(Cancelled)};
            && (over ==> Settled(p.transcript, q.transcript, run) && |q.transcript| == |p.transcript|)
            && (!over ==> q.transcript == p.transcript)
            && (Sibling(s, run) ==> q.surface == s)
            && (!Sibling(s, run) && over ==> q.surface == s.(isRunning := false, activeRun := None, runState := None, activity := Idle))
            && (!Sibling(s, run) && !over ==>
                  q.surface == s.(activeRun := if s.activeRun.None? && run != "" then Some(run) else s.activeRun,
                                  isRunning := state == Some(Running) || s.isRunning,
                                  runState := state,
                                  activity := q.surface.activity))
            && (!Sibling(s, run) && !over ==>
                  && (state == Some(WaitingForApproval) ==> q.surface.activity == WaitingOnApproval)
                  && (state == Some(WaitingForUserInput) ==> q.surface.activity == WaitingOnQuestion)
                  && (state == Some(Paused) ==> q.surface.activity == Idle)
                  && (state == Some(Running) ==> q.surface.activity == if s.activity == Idle then Thinking else s.activity)
                  && (state !in {Some(WaitingForApproval), Some(WaitingForUserInput), Some(Paused), Some(Running)} ==>
                        q.surface.activity == s.activity))
  {
  }

  // ----- approvals and questions

  /** Keeping the rows that satisfy `keep` keeps their order and their number. */
  lemma KeptRows(a: seq<Item>, b: seq<Item>, row: Item, keep: Item -> bool)
    ensures Filter(a + b, keep) == Filter(a, keep) + Filter(b, keep)
    ensures Filter([row], keep) == if keep(row) then [row] else []
  {
    KeptConcat(a, b, keep);
    assert [row][..0] == [];
  }

  lemma {:induction false} KeptConcat(a: seq<Item>, b: seq<Item>, keep: Item -> bool)
    ensures Filter(a + b, keep) == Filter(a, keep) + Filter(b, keep)
  {
    if b == [] { assert a + b == a; }
    else {
      var n := |b| - 1;
      assert (a + b)[..|a| + n] == a + b[..n];
      KeptConcat(a, b[..n], keep);
    }
  }

  lemma ApprovalShowsCard(p: Projection, e: Event)
    requires e.body.ApprovalRequested?
    ensures var s, q := p.surface, Apply(p, e);
            && Added(p.transcript, q.transcript, ApprovalItem(FromEvent(e.sequence), e.body.approvalId, e.body.action, e.occurredAt))
            && q.surface == if s.isRunning then s.(activity := WaitingOnApproval) else s
  {
  }

  /** A resolved approval takes away its cards, and nothing else, and ends the waiting. */
  lemma ApprovalRetiresCard(p: Projection, e: Event)
    requires e.body.ApprovalResolved?
    ensures var s, q, id := p.surface, Apply(p, e), e.body.approvalId;
            && q.transcript == Filter(p.transcript, (item: Item) => !(item.ApprovalItem? && item.approvalId == id))
            && q.surface == if s.activity.Waiting() then s.(activity := Thinking) else s
  {
    hide Filter, Settled;
    var id := e.body.approvalId;
    SameFilter(p.transcript, (item: Item) => !IsApproval(item, id), (item: Item) => !(item.ApprovalItem? && item.approvalId == id));
  }

  lemma {:induction false} SameFilter(items: seq<Item>, p: Item -> bool, q: Item -> bool)
    requires Alike(p, q)
    ensures Filter(items, p) == Filter(items, q)
  {
    if items != [] {
      assert p(items[|items| - 1]) == q(items[|items| - 1]);
      SameFilter(items[..|items| - 1], p, q);
    }
  }

  function Card(key: QuestionKey): Item -> bool { (item: Item) => item.QuestionItem? && item.key == key }

  /** A question shows its card, in place of the earlier one of the same id, and waits unless it is a sibling's. */
  lemma QuestionShowsCard(p: Projection, e: Event, k: nat)
    requires e.body.QuestionAsked?
    ensures var s, q, id := p.surface, Apply(p, e), e.body.questionId;
            var key := if id != "" then ById(id) else BySequence(e.sequence);
            var card := QuestionItem(key, id, e.body.run, e.sequence, e.body.prompts, e.occurredAt);
            && (FirstAt(p.transcript, k, Card(key)) ==> OnlyRow(p.transcript, q.transcript, k) && q.transcript[k] == card)
            && (NoneHas(p.transcript, Card(key)) ==> Added(p.transcript, q.transcript, card))
            && q.surface == if s.isRunning && !Sibling(s, e.body.run) then s.(activity := WaitingOnQuestion) else s
  {
    var key := QuestionKeyOf(e.body.questionId, e.sequence);
    FindsFirst(p.transcript, k, Card(key), (item: Item) => IsQuestion(item, key));
  }

  /** A resolved question leaves a note for its card; the waiting ends unless a sibling had asked. */
  lemma QuestionRetiresCard(p: Projection, e: Event, k: nat)
    requires e.body.QuestionResolved?
    ensures var s, q, id := p.surface, Apply(p, e), e.body.questionId;
            && q.transcript == Filter(p.transcript, (item: Item) => !(item.QuestionItem? && item.key == ById(id)))
                               + [QuestionResolvedItem(e.sequence, e.body.outcome, e.occurredAt)]
            && q.surface == s.(activity := q.surface.activity)
            && (!s.activity.Waiting() ==> q.surface == s)
            && (s.activity.Waiting() && NoneHas(p.transcript, Card(ById(id))) ==> q.surface.activity == Thinking)
            && (s.activity.Waiting() && FirstAt(p.transcript, k, Card(ById(id))) ==>
                  q.surface.activity == if Sibling(s, p.transcript[k].run) then s.activity else Thinking)
  {
    hide Filter;
    var id := e.body.questionId;
    FindsFirst(p.transcript, k, Card(ById(id)), (item: Item) => IsQuestion(item, ById(id)));
    SameFilter(p.transcript, (item: Item) => !IsQuestion(item, ById(id)), (item: Item) => !(item.QuestionItem? && item.key == ById(id)));
  }

  // ----- notes, budgets and the rest

  function BudgetRow(run: RunId, dimension: string): Item -> bool {
    (item: Item) => item.BudgetItem? && item.run == run && item.dimension == dimension
  }

  /** A budget warning keeps one row per run and dimension; token use below eight tenths is not news. */
  lemma BudgetKeepsOneRow(p: Projection, e: Event, k: nat)
    requires e.body.BudgetWarning?
    ensures var q, body := Apply(p, e), e.body;
            var row := BudgetItem(body.run, body.dimension, body.used, body.limit, e.occurredAt);
            var quiet := body.dimension == "Tokens" && body.limit > 0 && 10 * body.used < 8 * body.limit;
            && q.surface == p.surface
            && (quiet ==> q.transcript == p.transcript)
            && (!quiet && FirstAt(p.transcript, k, BudgetRow(body.run, body.dimension)) ==>
                  OnlyRow(p.transcript, q.transcript, k) && q.transcript[k] == row)
            && (!quiet && NoneHas(p.transcript, BudgetRow(body.run, body.dimension)) ==> Added(p.transcript, q.transcript, row))
  {
    var run, dimension := e.body.run, e.body.dimension;
    FindsFirst(p.transcript, k, BudgetRow(run, dimension), (i: Item) => i.BudgetItem? && i.run == run && i.dimension == dimension);
  }

  function Backstage(owner: string): Item -> bool { (item: Item) => item.BackstageItem? && item.owner == owner }

  /** Context and memory notes go to one backstage row per run, all others are rows of their own. */
  lemma NoteGoesBackstage(p: Projection, e: Event, k: nat)
    requires e.body.NoteAppended?
    ensures var q, text := Apply(p, e), e.body.text;
            var owner := if e.body.run != "" then e.body.run else "session";
            var context, memory := "=== CONTEXT" <= text, "remembered:" <= TrimStart(text);
            && q.surface == p.surface
            && (text == "" ==> q.transcript == p.transcript)
            && (text != "" && !context && !memory ==> Added(p.transcript, q.transcript, NoteItem(e.sequence, text, e.occurredAt)))
            && (text != "" && (context || memory) && NoneHas(p.transcript, Backstage(owner)) ==>
                  Added(p.transcript, q.transcript,
                        BackstageItem(owner, if context then Some(LineCount(text)) else None, if memory then 1 else 0, [text], e.occurredAt)))
            && (text != "" && (context || memory) && FirstAt(p.transcript, k, Backstage(owner)) ==>
                  && OnlyRow(p.transcript, q.transcript, k) && q.transcript[k].BackstageItem?
                  && q.transcript[k] == p.transcript[k].(
                       contextLines := if context then Some(LineCount(text)) else p.transcript[k].contextLines,
                       memoryUpdates := p.transcript[k].memoryUpdates + (if memory then 1 else 0),
                       raw := p.transcript[k].raw + [text]))
  {
    hide LineCount, TrimStart;
    var owner := OwnerOf(e.body.run);
    FindsFirst(p.transcript, k, Backstage(owner), (item: Item) => item.BackstageItem? && item.owner == owner);
  }

  /** Leading white space is no part of a note: only what it starts with then counts. */
  lemma TrimsExactly(text: string) returns (k: nat)
    ensures k <= |text| && TrimStart(text) == text[k..]
    ensures forall j :: 0 <= j < k ==> WhiteSpace(text[j] as int)
    ensures k < |text| ==> !WhiteSpace(text[k] as int)
  {
    k := |text| - |TrimStart(text)|;
    assert k < |text| ==> text[k..][0] == text[k];
  }

  predicate WhiteSpace(n: int) {
    9 <= n <= 13 || 0x2000 <= n <= 0x200a || n in {0x20, 0xa0, 0x1680, 0x2028, 0x2029, 0x202f, 0x205f, 0x3000, 0xfeff}
  }

  /** A text has one line, and one more for each line break. */
  lemma {:induction false} LinesCounted(a: string, b: string)
    ensures LineCount(a + "\n" + b) == LineCount(a) + LineCount(b)
    ensures '\n' !in a ==> LineCount(a) == 1
  {
    if a == "" {
      assert ("" + "\n" + b)[1..] == b;
    } else {
      assert (a + "\n" + b)[1..] == a[1..] + "\n" + b;
      LinesCounted(a[1..], b);
    }
  }

  /** The other kinds: what each adds, and what it moves. */
  lemma OtherEffects(p: Projection, e: Event)
    ensures var s, q, body := p.surface, Apply(p, e), e.body;
            && (body.ModelRetrying? ==>
                  && Added(p.transcript, q.transcript,
                           RetryItem(e.sequence, body.attempt, body.maxAttempts, body.message, body.delayMs, e.occurredAt))
                  && q.surface == if Sibling(s, body.run) then s
                                  else s.(activity := Retrying(body.attempt, body.maxAttempts, body.message, body.delayMs)))
            && (body.ToolDenied? ==>
                  Added(p.transcript, q.transcript, DeniedItem(e.sequence, body.run, body.summary, e.occurredAt)) && q.surface == s)
            && (body.PatchProposed? ==>
                  && Added(p.transcript, q.transcript, PatchItem(e.sequence, body.run, body.artifact, body.summary, e.occurredAt))
                  && q.surface == s)
            && (body.RunUsage? ==>
                  q == p.(surface := if Sibling(s, body.run) then s else s.(usage := Some(Usage(body.run, body.tokens)))))
            && (body.PendingPromptsChanged? ==> q == p.(surface := s.(pendingPrompts := body.prompts)))
            && (body.Upkeep? || body.Unrendered? ==> q == p)
  {
  }
}
