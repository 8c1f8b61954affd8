/**
  Streamed model text is conserved: for every run and kind, the transcript's stream
  rows spell out exactly that run's deltas of that kind, in sequence order, however
  the runs interleave.
 */
module StreamedText {
  import opened Events
  import opened Projection
  import opened Store
  import opened Convergence

  /** What a row contributes to the text of `run` and `kind`. */
  function Contribution(item: Item, run: RunId, kind: StreamKind): string {
    if item.StreamItem? && item.run == run && item.kind == kind then item.streamed else ""
  }

  function ShownText(items: seq<Item>, run: RunId, kind: StreamKind): string {
    if items == [] then ""
    else ShownText(items[..|items| - 1], run, kind) + Contribution(items[|items| - 1], run, kind)
  }

  /** The text an event streams for `run` and `kind`. */
  function Delta(e: Event, run: RunId, kind: StreamKind): string {
    if e.body.ModelStreamDelta? && e.body.run == run && StreamKindOf(e.body.thought) == kind then e.body.text else ""
  }

  function StreamedBy(events: seq<Event>, run: RunId, kind: StreamKind): string {
    if events == [] then ""
    else StreamedBy(events[..|events| - 1], run, kind) + Delta(events[|events| - 1], run, kind)
  }

  lemma TextAppend(items: seq<Item>, item: Item, run: RunId, kind: StreamKind)
    ensures ShownText(items + [item], run, kind) == ShownText(items, run, kind) + Contribution(item, run, kind)
  {
    assert (items + [item])[..|items|] == items;
  }

  lemma {:induction false} TextReplace(items: seq<Item>, k: nat, item: Item, run: RunId, kind: StreamKind)
    requires k < |items| && Contribution(items[k], run, kind) == Contribution(item, run, kind)
    ensures ShownText(items[k := item], run, kind) == ShownText(items, run, kind)
  {
    var n := |items| - 1;
    if k < n {
      assert items[k := item][..n] == items[..n][k := item];
      TextReplace(items[..n], k, item, run, kind);
    } else {
      assert items[k := item][..n] == items[..n];
    }
  }

  lemma {:induction false} TextFilter(items: seq<Item>, keep: Item -> bool, run: RunId, kind: StreamKind)
    requires forall item: Item :: !keep(item) ==> !item.StreamItem?
    ensures ShownText(Filter(items, keep), run, kind) == ShownText(items, run, kind)
  {
    if items != [] {
      var n := |items| - 1;
      TextFilter(items[..n], keep, run, kind);
      if keep(items[n]) {
        TextAppend(Filter(items[..n], keep), items[n], run, kind);
      }
    }
  }

  lemma {:induction false} TextSettle(items: seq<Item>, owner: RunId, run: RunId, kind: StreamKind)
    ensures ShownText(SettleTools(items, owner), run, kind) == ShownText(items, run, kind)
  {
    if items != [] {
      var n := |items| - 1;
      TextSettle(items[..n], owner, run, kind);
      assert SettleTools(items, owner)[..n] == SettleTools(items[..n], owner);
    }
  }

  lemma TextExtend(items: seq<Item>, more: string, run: RunId, kind: StreamKind)
    requires items != [] && items[|items| - 1].StreamItem?
    ensures var n := |items| - 1;
            var longer := items[n].(streamed := items[n].streamed + more);
            ShownText(items[n := longer], run, kind)
            == ShownText(items, run, kind) + (if items[n].run == run && items[n].kind == kind then more else "")
  {
    var n := |items| - 1;
    var longer := items[n].(streamed := items[n].streamed + more);
    assert items[n := longer][..n] == items[..n];
    var before := ShownText(items[..n], run, kind);
    assert (before + items[n].streamed) + more == before + (items[n].streamed + more);
  }

  /** A delta extends the last row only when that row is its own run, kind and model. */
  lemma DeltaConserved(items: seq<Item>, e: Event, run: RunId, kind: StreamKind)
    requires e.body.ModelStreamDelta?
    ensures ShownText(Perform(items, StreamEdit(items, e, e.body.run, e.body.text, e.body.thought)), run, kind)
         == ShownText(items, run, kind) + Delta(e, run, kind)
  {
    hide Filter, SettleTools, ShownText;
    match StreamEdit(items, e, e.body.run, e.body.text, e.body.thought) {
      case Keep =>
      case Append(item) => TextAppend(items, item, run, kind);
      case Replace(k, item) => TextExtend(items, e.body.text, run, kind);
    }
  }

  predicate SparesStreams(items: seq<Item>, edit: Edit) {
    match edit
    case Append(item) => !item.StreamItem?
    case Replace(k, item) => k < |items| && !items[k].StreamItem? && !item.StreamItem?
    case Settle(_, tail) => tail.Some? ==> !tail.value.StreamItem?
    case DropQuestion(_, note) => !note.StreamItem?
    case _ => true
  }

  /** No other event touches a stream row. */
  lemma OtherEditsSpareStreams(s: Surface, items: seq<Item>, e: Event)
    requires !e.body.ModelStreamDelta?
    ensures SparesStreams(items, EditOf(s, items, e))
  {
  }

  lemma EditConserved(items: seq<Item>, edit: Edit, run: RunId, kind: StreamKind)
    requires Fits(edit, items) && SparesStreams(items, edit)
    ensures ShownText(Perform(items, edit), run, kind) == ShownText(items, run, kind)
  {
    match edit {
      case Keep =>
      case Append(item) => TextAppend(items, item, run, kind);
      case Replace(k, item) => TextReplace(items, k, item, run, kind);
      case Settle(owner, tail) =>
        TextSettle(items, owner, run, kind);
        if tail.Some? { TextAppend(SettleTools(items, owner), tail.value, run, kind); }
      case DropApproval(id) => TextFilter(items, (item: Item) => !IsApproval(item, id), run, kind);
      case DropQuestion(key, note) =>
        TextFilter(items, (item: Item) => !IsQuestion(item, key), run, kind);
        TextAppend(Filter(items, (item: Item) => !IsQuestion(item, key)), note, run, kind);
    }
  }

  lemma StepConserved(p: Projection, e: Event, run: RunId, kind: StreamKind)
    ensures ShownText(Apply(p, e).transcript, run, kind)
         == ShownText(p.transcript, run, kind) + Delta(e, run, kind)
  {
    hide SurfaceStep, Perform, ShownText;
    if e.body.ModelStreamDelta? {
      DeltaConserved(p.transcript, e, run, kind);
    } else {
      OtherEditsSpareStreams(p.surface, p.transcript, e);
      EditConserved(p.transcript, EditOf(p.surface, p.transcript, e), run, kind);
    }
  }

  /** The transcript of a replay shows exactly the streamed text of every run and kind. */
  lemma {:induction false} ReplayConservesText(events: seq<Event>, run: RunId, kind: StreamKind)
    ensures ShownText(Replayed(events).transcript, run, kind) == StreamedBy(events, run, kind)
  {
    hide Apply;
    if events != [] {
      var n := |events| - 1;
      ReplayConservesText(events[..n], run, kind);
      StepConserved(Replayed(events[..n]), events[n], run, kind);
    }
  }

  /** The same of a live session: out-of-order and duplicate delivery loses and repeats nothing. */
  lemma SessionConservesText(st: State, session: SessionId, actions: seq<Action>, run: RunId, kind: StreamKind)
    requires AllSteady(actions, session) && Consistent(Delivered(actions, session))
    ensures ShownText(Run(Reset(st, Some(session)), actions).projection.transcript, run, kind)
         == StreamedBy(Distinct(Delivered(actions, session)), run, kind)
  {
    SessionConverges(st, session, actions);
    ReplayConservesText(Distinct(Delivered(actions, session)), run, kind);
  }
}
