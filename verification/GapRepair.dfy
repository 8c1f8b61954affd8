/**
  No hole is lost.  Within one attachment, live events of the durable log arrive in
  any order and with any omissions, history pages continue the covered range,
  compacted snapshots raise the watermark over events that come only with a later
  page, and repairs of recorded gaps are read back late, repeatedly and out of order.
  Every log event between the first one seen and the watermark is then retained,
  inside the recorded gap, or one a snapshot skipped and no page has read back yet.
 */
module GapRepair {
  import opened Events
  import opened Projection
  import opened Retention
  import opened Convergence
  import opened Store
  import opened Folds

  /** The daemon's log of the session: ordered, numbered from one. */
  predicate IsLog(log: seq<Event>) {
    Increasing(log) && forall k :: 0 <= k < |log| ==> log[k].sequence > 0
  }

  /** The log events of the range `(after, through]`. */
  function Slice(log: seq<Event>, after: nat, through: nat): (r: seq<Event>)
    ensures forall e :: e in r <==> e in log && after < e.sequence <= through
  {
    if log == [] then []
    else
      var rest, e := Slice(log[..|log| - 1], after, through), log[|log| - 1];
      assert log == log[..|log| - 1] + [e];
      if after < e.sequence <= through then rest + [e] else rest
  }

  /**
    The store, the first sequence seen, the repairs being read, and the sequences a
    snapshot's watermark jumped over that no page has covered since.  A repair in
    flight is the gap it was asked for; it is never withdrawn, so it can land after
    the store has moved on, and more than once.
   */
  datatype World = World(store: State, first: Option<nat>, inFlight: set<Gap>, skipped: set<nat>)

  datatype Step =
    | Live(event: Event)
    | Page(after: nat, through: nat)
    | Compact(snapshot: Snapshot)
    | AskRepair
    | RepairLands(gap: Gap)
    | Other(action: Action)

  /** An action that neither delivers events nor moves the gap or the attachment. */
  predicate Quiet(a: Action) {
    a.AttachStarted? || a.AttachFailed? || a.CommandFailed? || a.QueueFailed? || a.QueueAccepted?
    || a == FrameArrived(UnscopedFrame)
  }

  predicate Enabled(w: World, log: seq<Event>, step: Step) {
    match step
    case Live(e) => e in log
    case Page(after, through) => after <= w.store.lastSequence && (through > 0 || w.first.None?)
    case Compact(snapshot) => snapshot.Compacted?
    case AskRepair => w.store.gap.Some?
    case RepairLands(gap) => gap in w.inFlight
    case Other(a) => Quiet(a)
  }

  function SeenFirst(first: Option<nat>, sequence: nat): Option<nat> {
    if first.Some? then first else Some(sequence)
  }

  /** The sequences of the range `(after, through]`. */
  function Span(after: nat, through: nat): (r: set<nat>)
    ensures forall s :: s in r <==> after < s <= through
  {
    if through <= after then {} else Span(after, through - 1) + {through}
  }

  /** A repair read back: its page is merged, then the gap it was asked for is reported repaired. */
  function Repair(st: State, log: seq<Event>, gap: Gap): State {
    ClearGap(MergeHistory(st, gap.through, Slice(log, gap.after, gap.through)), gap.session, gap.through)
  }

  function Next(w: World, log: seq<Event>, step: Step): World {
    match step
    case Live(e) => w.(store := MergeDurable(w.store.(confirmed := true), e), first := SeenFirst(w.first, e.sequence))
    case Page(after, through) =>
      w.(store := MergeHistory(w.store, through, Slice(log, after, through)),
         first := if through == 0 then w.first else SeenFirst(w.first, 1),
         skipped := w.skipped - Span(after, through))
    case Compact(snapshot) =>
      if !snapshot.Compacted? || w.store.session.None? then w
      else
        w.(store := ApplySnapshot(w.store, w.store.session.value, snapshot),
           first := if snapshot.through == 0 then w.first else SeenFirst(w.first, 1),
           skipped := w.skipped + Span(w.store.lastSequence, snapshot.through))
    case AskRepair => if w.store.gap.Some? then w.(inFlight := w.inFlight + {w.store.gap.value}) else w
    case RepairLands(gap) => w.(store := Repair(w.store, log, gap), skipped := w.skipped - Span(gap.after, gap.through))
    case Other(a) => w.(store := Reduce(w.store, a))
  }

  /** The actions a step dispatches to the store. */
  function Dispatched(session: SessionId, log: seq<Event>, step: Step): seq<Action> {
    match step
    case Live(e) => [FrameArrived(EventFrame(Some(session), e))]
    case Page(after, through) => [FrameArrived(HistoryFrame(session, through, Slice(log, after, through)))]
    case Compact(snapshot) => [FrameArrived(CatchupFrame(session, snapshot))]
    case AskRepair => []
    case RepairLands(gap) =>
      [FrameArrived(HistoryFrame(gap.session, gap.through, Slice(log, gap.after, gap.through))),
       GapRepaired(gap.session, gap.through)]
    case Other(a) => [a]
  }

  function Attached(st: State, session: SessionId): World { World(Reset(st, Some(session)), None, {}, {}) }

  /** `steps` is a run of the attachment: each step is possible when it is taken. */
  predicate IsRun(w: World, log: seq<Event>, steps: seq<Step>) {
    steps == []
    || (IsRun(w, log, steps[..|steps| - 1])
        && Enabled(After(w, log, steps[..|steps| - 1]), log, steps[|steps| - 1]))
  }

  function After(w: World, log: seq<Event>, steps: seq<Step>): World {
    if steps == [] then w
    else Next(After(w, log, steps[..|steps| - 1]), log, steps[|steps| - 1])
  }

  predicate InGap(gap: Option<Gap>, sequence: nat) {
    gap.Some? && gap.value.after < sequence <= gap.value.through
  }

  /** Retained, or recorded as missing. */
  predicate Accounted(st: State, sequence: nat) {
    Retains(st.events, sequence) || InGap(st.gap, sequence)
  }

  /** Accounted for, or skipped by a snapshot whose history has not been read back. */
  predicate Known(w: World, sequence: nat) { Accounted(w.store, sequence) || sequence in w.skipped }

  ghost predicate Covered(w: World, log: seq<Event>) {
    forall k :: 0 <= k < |log| && w.first.Some? && w.first.value <= log[k].sequence <= w.store.lastSequence
      ==> Known(w, log[k].sequence)
  }

  /** A repair in flight lies below a retained event, and starts no later than any gap it could clear. */
  predicate Fresh(st: State, gap: Gap) {
    && gap.through < LastOf(st.events)
    && (st.gap.Some? && st.gap.value.through <= gap.through ==> gap.after <= st.gap.value.after)
  }

  ghost predicate Accounting(w: World, session: SessionId, log: seq<Event>) {
    && w.store.session == Some(session)
    && Ordered(w.store)
    && (forall k :: 0 <= k < |w.store.events| ==> w.store.events[k] in log)
    && (w.store.gap.Some? ==> w.store.gap.value.session == session && w.store.gap.value.through < LastOf(w.store.events))
    && (forall gap :: gap in w.inFlight ==> gap.session == session && Fresh(w.store, gap))
    && Covered(w, log)
  }

  ghost predicate Safe(w: World, session: SessionId, log: seq<Event>) {
    && Accounting(w, session, log)
    && (w.first.None? ==> w.store.events == [] && w.store.lastSequence == 0)
    && (w.first.Some? ==> w.store.lastSequence > 0)
  }

  // ----- what a merge retains

  lemma MergedRetains(current: seq<Event>, incoming: seq<Event>, s: nat)
    ensures Retains(Merged(current, incoming), s) <==> Retains(current, s) || Retains(incoming, s)
  {
    MergedOrders(current, incoming);
    AsMapConcat(current, incoming);
    RetainsIsDomain(Merged(current, incoming), s);
    RetainsIsDomain(current, s);
    RetainsIsDomain(incoming, s);
  }

  lemma MergedMember(current: seq<Event>, incoming: seq<Event>, k: nat)
    requires k < |Merged(current, incoming)|
    ensures Merged(current, incoming)[k] in current || Merged(current, incoming)[k] in incoming
  {
    var all := Merged(current, incoming);
    MergedOrders(current, incoming);
    AsMapOfIncreasing(all, k);
    AsMapSound(current + incoming, all[k].sequence);
  }

  lemma LastOfBounds(events: seq<Event>, s: nat)
    requires Increasing(events) && Retains(events, s)
    ensures s <= LastOf(events)
  {
  }

  lemma MergedLater(current: seq<Event>, incoming: seq<Event>)
    requires Increasing(current)
    ensures LastOf(current) <= LastOf(Merged(current, incoming))
  {
    if current != [] {
      assert Retains(current, LastOf(current));
      MergedOrders(current, incoming);
      MergedRetains(current, incoming, LastOf(current));
      LastOfBounds(Merged(current, incoming), LastOf(current));
    }
  }

  lemma MergedWithin(current: seq<Event>, incoming: seq<Event>, bound: nat)
    requires forall k :: 0 <= k < |current| ==> current[k].sequence <= bound
    requires forall k :: 0 <= k < |incoming| ==> incoming[k].sequence <= bound
    ensures LastOf(Merged(current, incoming)) <= bound
  {
    if Merged(current, incoming) != [] {
      MergedMember(current, incoming, |Merged(current, incoming)| - 1);
    }
  }

  lemma SliceRetains(log: seq<Event>, k: nat, after: nat, through: nat)
    requires k < |log| && after < log[k].sequence <= through
    ensures Retains(Slice(log, after, through), log[k].sequence)
  {
    assert log[k] in Slice(log, after, through);
  }

  // ----- each step keeps the accounting

  function NewLast(st: State, through: nat, page: seq<Event>): nat {
    Max(LastOf(Merged(st.events, page)), through)
  }

  /** Merging a page that holds every log event above the old watermark keeps the accounting. */
  lemma MergeSafe(w: World, session: SessionId, log: seq<Event>, through: nat, page: seq<Event>)
    requires Accounting(w, session, log) && w.first.Some?
    requires forall e :: e in page ==> e in log
    requires forall k :: 0 <= k < |log| && w.store.lastSequence < log[k].sequence <= NewLast(w.store, through, page)
               ==> Retains(page, log[k].sequence)
    ensures Accounting(w.(store := MergeHistory(w.store, through, page)), session, log)
  {
    var was, now := w.store, MergeHistory(w.store, through, page);
    MergedOrders(was.events, page);
    MergedLater(was.events, page);
    forall k | 0 <= k < |now.events| ensures now.events[k] in log && now.events[k].sequence <= now.lastSequence {
      MergedMember(was.events, page, k);
      LastOfBounds(now.events, now.events[k].sequence);
    }
    forall k | 0 <= k < |log| && w.first.value <= log[k].sequence <= now.lastSequence
      ensures Known(w.(store := now), log[k].sequence)
    {
      MergedRetains(was.events, page, log[k].sequence);
      assert log[k].sequence <= was.lastSequence ==> Known(w, log[k].sequence);
    }
    assert forall gap :: gap in w.inFlight ==> Fresh(was, gap) ==> Fresh(now, gap);
  }

  lemma LiveSafe(w: World, session: SessionId, log: seq<Event>, e: Event)
    requires IsLog(log) && Safe(w, session, log) && e in log
    ensures Safe(Next(w, log, Live(e)), session, log)
  {
    hide Apply;
    var was := w.store.(confirmed := true);
    var at := w.(store := was);
    if e.sequence > was.lastSequence {
      AppendSafe(at, session, log, e);
    } else if !Retains(was.events, e.sequence) {
      assert MergeDurable(was, e) == MergeHistory(was, 0, [e]);
      LateSafe(at, session, log, e);
    }
  }

  lemma LateSafe(w: World, session: SessionId, log: seq<Event>, e: Event)
    requires IsLog(log) && Safe(w, session, log) && e in log && e.sequence <= w.store.lastSequence
    ensures w.first.Some? && Safe(w.(store := MergeHistory(w.store, 0, [e])), session, log)
  {
    assert e.sequence > 0;
    assert [e][0] == e && Retains([e], e.sequence);
    MergedRetains(w.store.events, [e], e.sequence);
    MergedOrders(w.store.events, [e]);
    LastOfBounds(Merged(w.store.events, [e]), e.sequence);
    MergedWithin(w.store.events, [e], w.store.lastSequence);
    MergeSafe(w, session, log, 0, [e]);
  }

  lemma AppendSafe(w: World, session: SessionId, log: seq<Event>, e: Event)
    requires IsLog(log) && Safe(w, session, log) && e in log && e.sequence > w.store.lastSequence
    ensures Safe(World(MergeDurable(w.store, e), SeenFirst(w.first, e.sequence), w.inFlight, w.skipped), session, log)
  {
    var was, now := w.store, MergeDurable(w.store, e);
    MergeDurableOrdered(was, e);
    forall k | 0 <= k < |log| && SeenFirst(w.first, e.sequence).value <= log[k].sequence <= e.sequence
      ensures Accounted(now, log[k].sequence) || log[k].sequence in w.skipped
    {
      AppendAccounts(w, log, e, k);
    }
    assert forall gap :: gap in w.inFlight ==> Fresh(was, gap) ==> Fresh(now, gap);
  }

  lemma AppendAccounts(w: World, log: seq<Event>, e: Event, k: nat)
    requires IsLog(log) && Covered(w, log) && k < |log|
    requires w.first.Some? <==> w.store.lastSequence > 0
    requires e.sequence > w.store.lastSequence && w.store.session.Some?
    requires SeenFirst(w.first, e.sequence).value <= log[k].sequence <= e.sequence
    ensures Accounted(MergeDurable(w.store, e), log[k].sequence) || log[k].sequence in w.skipped
  {
    var was, now, s := w.store, MergeDurable(w.store, e), log[k].sequence;
    if s == e.sequence {
      assert now.events[|was.events|].sequence == s;
    } else if s <= was.lastSequence {
      assert Known(w, s);
      if Retains(was.events, s) {
        var j :| 0 <= j < |was.events| && was.events[j].sequence == s;
        assert now.events[j].sequence == s;
      }
    }
  }

  lemma PageHoldsAbove(st: State, log: seq<Event>, after: nat, through: nat, k: nat)
    requires Ordered(st) && after <= st.lastSequence && k < |log|
    requires st.lastSequence < log[k].sequence <= NewLast(st, through, Slice(log, after, through))
    ensures Retains(Slice(log, after, through), log[k].sequence)
  {
    MergedWithin(st.events, Slice(log, after, through), Max(st.lastSequence, through));
    SliceRetains(log, k, after, through);
  }

  /** Sequences whose log events are all retained need not count as skipped any more. */
  lemma ReadBack(w: World, session: SessionId, log: seq<Event>, after: nat, through: nat)
    requires Accounting(w, session, log)
    requires forall k :: 0 <= k < |log| && after < log[k].sequence <= through ==> Retains(w.store.events, log[k].sequence)
    ensures Accounting(w.(skipped := w.skipped - Span(after, through)), session, log)
  {
    var now := w.(skipped := w.skipped - Span(after, through));
    forall k | 0 <= k < |log| && w.first.Some? && w.first.value <= log[k].sequence <= w.store.lastSequence
      ensures Known(now, log[k].sequence)
    {
      assert Known(w, log[k].sequence);
    }
  }

  lemma PageSafe(w: World, session: SessionId, log: seq<Event>, after: nat, through: nat)
    requires IsLog(log) && Safe(w, session, log) && after <= w.store.lastSequence && through > 0
    ensures Safe(World(MergeHistory(w.store, through, Slice(log, after, through)), SeenFirst(w.first, 1), w.inFlight,
                       w.skipped - Span(after, through)),
                 session, log)
  {
    var page := Slice(log, after, through);
    var started := w.(first := SeenFirst(w.first, 1));
    assert Covered(started, log);
    forall k | 0 <= k < |log| && w.store.lastSequence < log[k].sequence <= NewLast(w.store, through, page)
      ensures Retains(page, log[k].sequence)
    {
      PageHoldsAbove(w.store, log, after, through, k);
    }
    MergeSafe(started, session, log, through, page);
    PageRetained(w.store, log, after, through);
    ReadBack(started.(store := MergeHistory(w.store, through, page)), session, log, after, through);
  }

  lemma PageRetained(st: State, log: seq<Event>, after: nat, through: nat)
    ensures forall k :: 0 <= k < |log| && after < log[k].sequence <= through
              ==> Retains(MergeHistory(st, through, Slice(log, after, through)).events, log[k].sequence)
  {
    forall k | 0 <= k < |log| && after < log[k].sequence <= through
      ensures Retains(Merged(st.events, Slice(log, after, through)), log[k].sequence)
    {
      SliceRetains(log, k, after, through);
      MergedRetains(st.events, Slice(log, after, through), log[k].sequence);
    }
  }

  /** A compacted snapshot raises the watermark; what it jumps over is skipped until a page brings it. */
  lemma CompactSafe(w: World, session: SessionId, log: seq<Event>, snapshot: Snapshot)
    requires IsLog(log) && Safe(w, session, log) && snapshot.Compacted?
    ensures Safe(Next(w, log, Compact(snapshot)), session, log)
  {
    hide Filter, SnapshotCards;
    var next := Next(w, log, Compact(snapshot));
    forall k | 0 <= k < |log| && next.first.Some? && next.first.value <= log[k].sequence <= next.store.lastSequence
      ensures Known(next, log[k].sequence)
    {
      if log[k].sequence <= w.store.lastSequence {
        assert Known(w, log[k].sequence);
        assert Accounted(w.store, log[k].sequence) ==> Accounted(next.store, log[k].sequence);
      }
    }
    assert forall g :: g in w.inFlight ==> Fresh(w.store, g) ==> Fresh(next.store, g);
  }

  lemma {:induction false} SliceEmpty(log: seq<Event>, after: nat)
    ensures Slice(log, after, 0) == []
  {
    if log != [] {
      SliceEmpty(log[..|log| - 1], after);
    }
  }

  /** A page with a zero watermark, before anything was seen, changes nothing. */
  lemma EmptyPage(st: State, log: seq<Event>, after: nat)
    requires st.events == [] && st.lastSequence == 0
    ensures var now := MergeHistory(st, 0, Slice(log, after, 0));
            now.events == [] && now.lastSequence == 0 && now.gap == st.gap && now.session == st.session
  {
    SliceEmpty(log, after);
    assert [] + Slice(log, after, 0) == [];
  }

  /** Reading a repair back retains its whole range. */
  lemma RepairRead(w: World, session: SessionId, log: seq<Event>, gap: Gap)
    requires IsLog(log) && Safe(w, session, log) && gap in w.inFlight
    ensures var merged := MergeHistory(w.store, gap.through, Slice(log, gap.after, gap.through));
            && w.first.Some? && merged.lastSequence > 0
            && Accounting(w.(store := merged), session, log)
            && forall k :: 0 <= k < |log| && gap.after < log[k].sequence <= gap.through
                 ==> Retains(merged.events, log[k].sequence)
  {
    var page := Slice(log, gap.after, gap.through);
    assert Fresh(w.store, gap);
    MergedLater(w.store.events, page);
    MergedWithin(w.store.events, page, w.store.lastSequence);
    MergeSafe(w, session, log, gap.through, page);
    PageRetained(w.store, log, gap.after, gap.through);
  }

  /** A repair landing, however late, retains its whole range and clears no hole it did not fill. */
  lemma RepairSafe(w: World, session: SessionId, log: seq<Event>, gap: Gap)
    requires IsLog(log) && Safe(w, session, log) && gap in w.inFlight
    ensures Safe(w.(store := Repair(w.store, log, gap), skipped := w.skipped - Span(gap.after, gap.through)), session, log)
    ensures forall k :: 0 <= k < |log| && gap.after < log[k].sequence <= gap.through
              ==> Retains(Repair(w.store, log, gap).events, log[k].sequence)
  {
    RepairRead(w, session, log, gap);
    var read := w.(store := MergeHistory(w.store, gap.through, Slice(log, gap.after, gap.through)));
    ReadBack(read, session, log, gap.after, gap.through);
    ClearSafe(read.(skipped := w.skipped - Span(gap.after, gap.through)), session, log, gap);
  }

  lemma ClearSafe(w: World, session: SessionId, log: seq<Event>, gap: Gap)
    requires Accounting(w, session, log) && gap in w.inFlight
    requires forall k :: 0 <= k < |log| && gap.after < log[k].sequence <= gap.through
               ==> Retains(w.store.events, log[k].sequence)
    ensures Accounting(w.(store := ClearGap(w.store, gap.session, gap.through)), session, log)
  {
    var now := ClearGap(w.store, gap.session, gap.through);
    assert Fresh(w.store, gap);
    forall k | 0 <= k < |log| && w.first.Some? && w.first.value <= log[k].sequence <= w.store.lastSequence
      ensures Known(w.(store := now), log[k].sequence)
    {
      assert Known(w, log[k].sequence);
    }
    assert forall g :: g in w.inFlight ==> Fresh(w.store, g) ==> Fresh(now, g);
  }

  lemma PageStepSafe(w: World, session: SessionId, log: seq<Event>, after: nat, through: nat)
    requires IsLog(log) && Safe(w, session, log) && Enabled(w, log, Page(after, through))
    ensures Safe(Next(w, log, Page(after, through)), session, log)
  {
    if through > 0 {
      PageSafe(w, session, log, after, through);
    } else {
      EmptyPage(w.store, log, after);
      assert forall g :: g in w.inFlight ==> Fresh(w.store, g);
    }
  }

  lemma QuietSafe(w: World, session: SessionId, log: seq<Event>, a: Action)
    requires Safe(w, session, log) && Quiet(a)
    ensures Safe(w.(store := Reduce(w.store, a)), session, log)
  {
    hide MergeDurable, MergeHistory, ApplySnapshot;
    var now := Reduce(w.store, a);
    assert now.events == w.store.events && now.gap == w.store.gap && now.lastSequence == w.store.lastSequence;
    forall k | 0 <= k < |log| && w.first.Some? && w.first.value <= log[k].sequence <= now.lastSequence
      ensures Known(w.(store := now), log[k].sequence)
    {
      assert Known(w, log[k].sequence);
    }
    assert forall g :: Fresh(w.store, g) ==> Fresh(now, g);
  }

  lemma StepSafe(w: World, session: SessionId, log: seq<Event>, step: Step)
    requires IsLog(log) && Safe(w, session, log) && Enabled(w, log, step)
    ensures Safe(Next(w, log, step), session, log)
  {
    match step {
      case Live(e) => LiveSafe(w, session, log, e);
      case Page(after, through) => PageStepSafe(w, session, log, after, through);
      case Compact(snapshot) => CompactSafe(w, session, log, snapshot);
      case RepairLands(gap) => RepairSafe(w, session, log, gap);
      case AskRepair =>
      case Other(a) => QuietSafe(w, session, log, a);
    }
  }

  lemma EventDispatch(st: State, session: SessionId, e: Event)
    requires st.session == Some(session)
    ensures Reduce(st, FrameArrived(EventFrame(Some(session), e))) == MergeDurable(st.(confirmed := true), e)
  {
  }

  lemma HistoryDispatch(st: State, session: SessionId, through: nat, page: seq<Event>)
    requires st.session == Some(session)
    ensures Reduce(st, FrameArrived(HistoryFrame(session, through, page))) == MergeHistory(st, through, page)
  {
  }

  lemma CatchupDispatch(st: State, session: SessionId, snapshot: Snapshot)
    requires st.session == Some(session)
    ensures Reduce(st, FrameArrived(CatchupFrame(session, snapshot))) == ApplySnapshot(st, session, snapshot)
  {
    hide ApplySnapshot;
  }

  lemma RepairDispatch(st: State, session: SessionId, log: seq<Event>, gap: Gap)
    requires st.session == Some(session) && gap.session == session
    ensures Repair(st, log, gap) == Run(st, Dispatched(session, log, RepairLands(gap)))
  {
    var page := Slice(log, gap.after, gap.through);
    HistoryDispatch(st, session, gap.through, page);
    TwoSteps(Reduce, st, FrameArrived(HistoryFrame(gap.session, gap.through, page)),
             GapRepaired(gap.session, gap.through));
  }

  /** In an attachment, each step is exactly what the store does with its dispatched actions. */
  lemma StepsAreDispatches(w: World, session: SessionId, log: seq<Event>, step: Step)
    requires w.store.session == Some(session)
    requires step.RepairLands? ==> step.gap.session == session
    requires step.Compact? ==> step.snapshot.Compacted?
    ensures Next(w, log, step).store == Run(w.store, Dispatched(session, log, step))
  {
    match step {
      case Live(e) =>
        EventDispatch(w.store, session, e);
        OneStep(Reduce, w.store, FrameArrived(EventFrame(Some(session), e)));
      case Page(after, through) =>
        var page := Slice(log, after, through);
        HistoryDispatch(w.store, session, through, page);
        OneStep(Reduce, w.store, FrameArrived(HistoryFrame(session, through, page)));
      case Compact(snapshot) =>
        CatchupDispatch(w.store, session, snapshot);
        OneStep(Reduce, w.store, FrameArrived(CatchupFrame(session, snapshot)));
      case RepairLands(gap) =>
        RepairDispatch(w.store, session, log, gap);
      case AskRepair =>
      case Other(a) =>
        OneStep(Reduce, w.store, a);
    }
  }

  lemma {:induction false} RunSafe(st: State, session: SessionId, log: seq<Event>, steps: seq<Step>)
    requires IsLog(log) && IsRun(Attached(st, session), log, steps)
    ensures Safe(After(Attached(st, session), log, steps), session, log)
  {
    if steps != [] {
      var n := |steps| - 1;
      RunSafe(st, session, log, steps[..n]);
      StepSafe(After(Attached(st, session), log, steps[..n]), session, log, steps[n]);
    }
  }

  lemma AccountedEvent(w: World, session: SessionId, log: seq<Event>, e: Event)
    requires IsLog(log) && Safe(w, session, log) && e in log
    requires w.first.Some? && w.first.value <= e.sequence <= w.store.lastSequence
    ensures e in w.store.events || InGap(w.store.gap, e.sequence) || e.sequence in w.skipped
  {
    var k :| 0 <= k < |log| && log[k] == e;
    assert Known(w, log[k].sequence);
    if Retains(w.store.events, e.sequence) {
      var j :| 0 <= j < |w.store.events| && w.store.events[j].sequence == e.sequence;
      assert w.store.events[j] in log;
    }
  }

  /**
    Over every run: a log event in the seen range is retained, or inside the recorded
    gap, or skipped by a snapshot and not read back since.
   */
  lemma NoHoleLost(st: State, session: SessionId, log: seq<Event>, steps: seq<Step>, e: Event)
    requires IsLog(log) && IsRun(Attached(st, session), log, steps) && e in log
    ensures var w := After(Attached(st, session), log, steps);
            w.first.Some? && w.first.value <= e.sequence <= w.store.lastSequence
            ==> e in w.store.events || InGap(w.store.gap, e.sequence) || e.sequence in w.skipped
  {
    RunSafe(st, session, log, steps);
    var w := After(Attached(st, session), log, steps);
    if w.first.Some? && w.first.value <= e.sequence <= w.store.lastSequence {
      AccountedEvent(w, session, log, e);
    }
  }

  lemma RepairClears(w: World, session: SessionId, log: seq<Event>, gap: Gap)
    requires IsLog(log) && Safe(w, session, log) && gap in w.inFlight
    ensures var after := Repair(w.store, log, gap);
            w.store.gap.Some? && after.gap.None? ==>
              gap.after <= w.store.gap.value.after && w.store.gap.value.through <= gap.through
              && forall e :: e in log && InGap(w.store.gap, e.sequence) ==> e in after.events
  {
    hide Merged;
    RepairSafe(w, session, log, gap);
    assert Fresh(w.store, gap);
    var after := Repair(w.store, log, gap);
    forall e | e in log && gap.after < e.sequence <= gap.through ensures e in after.events {
      var k :| 0 <= k < |log| && log[k] == e;
      assert Retains(after.events, log[k].sequence);
      var j :| 0 <= j < |after.events| && after.events[j].sequence == e.sequence;
      assert after.events[j] in log;
    }
  }

  /** A repair that clears the gap leaves nothing of it missing, however stale it is. */
  lemma StaleRepairClearsNothingNewer(st: State, session: SessionId, log: seq<Event>, steps: seq<Step>, gap: Gap)
    requires IsLog(log) && IsRun(Attached(st, session), log, steps)
    requires gap in After(Attached(st, session), log, steps).inFlight
    ensures var before := After(Attached(st, session), log, steps).store;
            var after := Repair(before, log, gap);
            before.gap.Some? && after.gap.None? ==>
              gap.after <= before.gap.value.after && before.gap.value.through <= gap.through
              && forall e :: e in log && InGap(before.gap, e.sequence) ==> e in after.events
  {
    RunSafe(st, session, log, steps);
    RepairClears(After(Attached(st, session), log, steps), session, log, gap);
  }
}
