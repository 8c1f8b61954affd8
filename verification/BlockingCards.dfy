/**
  Two folds over the same events: the approval and question cards a rebuild leaves
  in the transcript, and the work the notifier reports as pending.  They agree for
  every event list except when a question with an empty id was asked and the last
  word on that id is a resolution: the card is then keyed by its sequence, which no
  resolution names.
 */
module BlockingCards {
  import opened Events
  import opened Projection
  import opened Notifier

  function CardOf(item: Item): Option<Key> {
    match item
    case ApprovalItem(_, id, _, _) => Some(ApprovalKey(id))
    case QuestionItem(_, id, _, _, _, _) => Some(QuestionKey(id))
    case _ => None
  }

  predicate ShowsCard(items: seq<Item>, key: Key) {
    exists k :: 0 <= k < |items| && CardOf(items[k]) == Some(key)
  }

  /** A question card is keyed by its id exactly when that id is not empty. */
  predicate KeyedById(item: Item) {
    item.QuestionItem? ==>
      (item.key == ById(item.questionId) && item.questionId != "") || (item.key.BySequence? && item.questionId == "")
  }

  predicate WellKeyed(items: seq<Item>) {
    forall k :: 0 <= k < |items| ==> KeyedById(items[k])
  }

  predicate NoCard(item: Item) { CardOf(item).None? }

  /** An edit that adds, changes and removes no card. */
  predicate SparesCards(items: seq<Item>, edit: Edit) {
    match edit
    case Keep => true
    case Append(item) => NoCard(item)
    case Replace(k, item) => k < |items| && NoCard(items[k]) && NoCard(item)
    case Settle(_, tail) => tail.Some? ==> NoCard(tail.value)
    case _ => false
  }

  lemma AppendShows(items: seq<Item>, item: Item, key: Key)
    ensures ShowsCard(items + [item], key) <==> ShowsCard(items, key) || CardOf(item) == Some(key)
  {
    var all := items + [item];
    if ShowsCard(items, key) {
      var k :| 0 <= k < |items| && CardOf(items[k]) == Some(key);
      assert all[k] == items[k];
    }
    if CardOf(item) == Some(key) {
      assert all[|items|] == item;
    }
  }

  /** Rows related one to one, with the same cards, show the same cards. */
  lemma SameCards(a: seq<Item>, b: seq<Item>, key: Key)
    requires |a| == |b| && forall k :: 0 <= k < |a| ==> CardOf(a[k]) == CardOf(b[k])
    ensures ShowsCard(a, key) <==> ShowsCard(b, key)
  {
    if ShowsCard(a, key) {
      var k :| 0 <= k < |a| && CardOf(a[k]) == Some(key);
      assert CardOf(b[k]) == Some(key);
    }
    if ShowsCard(b, key) {
      var k :| 0 <= k < |b| && CardOf(b[k]) == Some(key);
      assert CardOf(a[k]) == Some(key);
    }
  }

  lemma SparedCards(items: seq<Item>, edit: Edit, key: Key)
    requires Fits(edit, items) && SparesCards(items, edit) && WellKeyed(items)
    ensures ShowsCard(Perform(items, edit), key) <==> ShowsCard(items, key)
    ensures WellKeyed(Perform(items, edit))
  {
    match edit {
      case Keep =>
      case Append(item) => AppendShows(items, item, key);
      case Replace(k, item) => SameCards(items, items[k := item], key);
      case Settle(run, tail) =>
        SameCards(items, SettleTools(items, run), key);
        if tail.Some? { AppendShows(SettleTools(items, run), tail.value, key); }
    }
  }

  /** Every event but the four about approvals and questions spares the cards. */
  lemma OtherEventsSpareCards(s: Surface, items: seq<Item>, e: Event)
    requires WorkOf(e).None? && ResolvedBy(e).None?
    ensures SparesCards(items, EditOf(s, items, e))
  {
  }

  lemma FilterShows(items: seq<Item>, keep: Item -> bool, key: Key)
    requires WellKeyed(items)
    ensures ShowsCard(Filter(items, keep), key)
            <==> exists k :: 0 <= k < |items| && CardOf(items[k]) == Some(key) && keep(items[k])
    ensures WellKeyed(Filter(items, keep))
  {
    var kept := Filter(items, keep);
    forall k | 0 <= k < |kept| ensures kept[k] in items && keep(kept[k]) && KeyedById(kept[k]) {
      assert kept[k] in kept;
    }
    if ShowsCard(kept, key) {
      var k :| 0 <= k < |kept| && CardOf(kept[k]) == Some(key);
      var j :| 0 <= j < |items| && items[j] == kept[k];
    }
    if k :| 0 <= k < |items| && CardOf(items[k]) == Some(key) && keep(items[k]) {
      assert items[k] in items && items[k] in kept;
      var j :| 0 <= j < |kept| && kept[j] == items[k];
    }
  }

  lemma ApprovalDropped(items: seq<Item>, id: string, key: Key)
    requires WellKeyed(items)
    ensures ShowsCard(Perform(items, DropApproval(id)), key) <==> ShowsCard(items, key) && key != ApprovalKey(id)
    ensures WellKeyed(Perform(items, DropApproval(id)))
  {
    FilterShows(items, (item: Item) => !IsApproval(item, id), key);
  }

  /** A resolution retires exactly the card of a named question; an empty id retires nothing. */
  lemma QuestionDropped(items: seq<Item>, id: string, note: Item, key: Key)
    requires WellKeyed(items) && NoCard(note)
    ensures ShowsCard(Perform(items, DropQuestion(ById(id), note)), key)
            <==> ShowsCard(items, key) && (key != QuestionKey(id) || id == "")
    ensures WellKeyed(Perform(items, DropQuestion(ById(id), note)))
  {
    var keep := (item: Item) => !IsQuestion(item, ById(id));
    FilterShows(items, keep, key);
    AppendShows(Filter(items, keep), note, key);
  }

  lemma QuestionPosted(items: seq<Item>, e: Event, id: string, run: RunId, prompts: seq<string>, key: Key)
    requires WellKeyed(items)
    ensures ShowsCard(Perform(items, QuestionEdit(items, e, id, run, prompts)), key)
            <==> ShowsCard(items, key) || key == QuestionKey(id)
    ensures WellKeyed(Perform(items, QuestionEdit(items, e, id, run, prompts)))
  {
    var edit := QuestionEdit(items, e, id, run, prompts);
    if edit.Append? {
      AppendShows(items, edit.item, key);
    } else {
      assert CardOf(items[edit.index]) == Some(QuestionKey(id)) == CardOf(edit.item);
      SameCards(items, items[edit.index := edit.item], key);
      assert items[edit.index := edit.item][edit.index] == edit.item;
    }
  }

  /** How one event moves the cards. */
  lemma CardStep(p: Projection, e: Event, key: Key)
    requires WellKeyed(p.transcript)
    ensures WellKeyed(Apply(p, e).transcript)
    ensures ShowsCard(Apply(p, e).transcript, key) <==>
              (WorkOf(e).Some? && WorkOf(e).value.key == key)
              || (ShowsCard(p.transcript, key) && (ResolvedBy(e) != Some(key) || key == QuestionKey("")))
  {
    hide SurfaceStep, Perform, ShowsCard, WellKeyed;
    var items := p.transcript;
    match e.body {
      case ApprovalRequested(id, action) => ApprovalPosted(items, e, id, action, key);
      case ApprovalResolved(id) => ApprovalDropped(items, id, key);
      case QuestionAsked(id, run, prompts) => QuestionPosted(items, e, id, run, prompts, key);
      case QuestionResolved(id, outcome) =>
        QuestionDropped(items, id, QuestionResolvedItem(e.sequence, outcome, e.occurredAt), key);
      case _ =>
        OtherEventsSpareCards(p.surface, items, e);
        SparedCards(items, EditOf(p.surface, items, e), key);
    }
  }

  lemma ApprovalPosted(items: seq<Item>, e: Event, id: string, action: string, key: Key)
    requires WellKeyed(items)
    ensures var edit := Append(ApprovalItem(FromEvent(e.sequence), id, action, e.occurredAt));
            && WellKeyed(Perform(items, edit))
            && (ShowsCard(Perform(items, edit), key) <==> ShowsCard(items, key) || key == ApprovalKey(id))
  {
    AppendShows(items, ApprovalItem(FromEvent(e.sequence), id, action, e.occurredAt), key);
  }

  /** A question with an empty id was asked. */
  predicate AskedUnnamed(events: seq<Event>) {
    exists k :: 0 <= k < |events| && events[k].body.QuestionAsked? && events[k].body.questionId == ""
  }

  /** The last event about the empty question id resolves it. */
  predicate UnnamedLastResolved(events: seq<Event>) {
    events != []
    && (var e := events[|events| - 1].body;
        if e.QuestionAsked? && e.questionId == "" then false
        else if e.QuestionResolved? && e.questionId == "" then true
        else UnnamedLastResolved(events[..|events| - 1]))
  }

  /** A card is shown exactly when it is pending, or it is an unnamed question that was ever asked. */
  lemma {:induction false} CardsArePending(events: seq<Event>, key: Key)
    ensures WellKeyed(Replayed(events).transcript)
    ensures ShowsCard(Replayed(events).transcript, key) <==>
              Holds(Pending(events), key) || (key == QuestionKey("") && AskedUnnamed(events))
  {
    hide Apply, ShowsCard, WellKeyed, Holds, Pending;
    if events == [] {
      NothingYet(key);
    } else {
      var n := |events| - 1;
      var before, e := events[..n], events[n];
      CardsArePending(before, key);
      CardStep(Replayed(before), e, key);
      PendingStep(before, e, key);
      UnnamedPending(before);
      assert before + [e] == events;
      AskedSplit(before, e);
    }
  }

  lemma NothingYet(key: Key)
    ensures WellKeyed(EMPTY_PROJECTION.transcript) && !ShowsCard(EMPTY_PROJECTION.transcript, key)
    ensures !Holds(Pending([]), key)
  {
  }

  lemma AskedSplit(before: seq<Event>, e: Event)
    ensures AskedUnnamed(before + [e]) <==> AskedUnnamed(before) || (e.body.QuestionAsked? && e.body.questionId == "")
  {
    var all := before + [e];
    if AskedUnnamed(before) {
      var k :| 0 <= k < |before| && before[k].body.QuestionAsked? && before[k].body.questionId == "";
      assert all[k] == before[k];
    }
    assert all[|before|] == e;
  }

  lemma {:induction false} UnnamedPending(events: seq<Event>)
    ensures Holds(Pending(events), QuestionKey("")) <==> AskedUnnamed(events) && !UnnamedLastResolved(events)
  {
    hide Holds, Pending;
    if events == [] {
      NothingYet(QuestionKey(""));
    } else {
      var n := |events| - 1;
      var before, e := events[..n], events[n];
      UnnamedPending(before);
      PendingStep(before, e, QuestionKey(""));
      assert before + [e] == events;
      AskedSplit(before, e);
    }
  }

  ghost predicate FoldsAgree(events: seq<Event>) {
    forall key :: ShowsCard(Replayed(events).transcript, key) <==> Holds(Pending(events), key)
  }

  /**
    The cards after a rebuild are exactly the pending work, unless a question with an
    empty id was asked and the last word on that id is a resolution.
   */
  lemma TwoFoldsAgree(events: seq<Event>)
    ensures FoldsAgree(events) <==> !(AskedUnnamed(events) && UnnamedLastResolved(events))
  {
    hide Replayed, ShowsCard, Holds, Pending, AskedUnnamed, UnnamedLastResolved;
    UnnamedPending(events);
    forall key ensures ShowsCard(Replayed(events).transcript, key) <==>
                         Holds(Pending(events), key) || (key == QuestionKey("") && AskedUnnamed(events))
    {
      CardsArePending(events, key);
    }
    assert ShowsCard(Replayed(events).transcript, QuestionKey("")) <==> AskedUnnamed(events);
  }

  /** The exception happens: an unnamed question, resolved, keeps its card. */
  lemma UnnamedQuestionKeepsItsCard()
    ensures var asked := Event(1, "", NoAgent, QuestionAsked("", "run", ["Proceed?"]));
            var resolved := Event(2, "", NoAgent, QuestionResolved("", "Answered"));
            !FoldsAgree([asked, resolved])
  {
    var asked := Event(1, "", NoAgent, QuestionAsked("", "run", ["Proceed?"]));
    var resolved := Event(2, "", NoAgent, QuestionResolved("", "Answered"));
    assert [asked, resolved][0] == asked;
    TwoFoldsAgree([asked, resolved]);
  }
}
