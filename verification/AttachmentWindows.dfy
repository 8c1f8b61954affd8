/**
  What one attach does to the session on screen, for every interleaving of frames and
  further requests between its start and its answer: a refusal leaves exactly what the
  old session's own frames made, an acceptance exactly what the held-back frames make.
 */
module AttachmentWindows {
  import opened Events
  import opened Folds
  import opened Projection
  import opened Store
  import opened Convergence
  import opened Attachment

  /** The part of the store that is the session itself. */
  datatype Core = Core(
    session: Option<SessionId>, projection: Projection, events: seq<Event>, lastSequence: nat, gap: Option<Gap>)

  function CoreOf(st: State): Core { Core(st.session, st.projection, st.events, st.lastSequence, st.gap) }

  /** Frames folded into the store, in order. */
  function Feed(st: State, frames: seq<Frame>): State { FoldLeft(ApplyFrame, st, frames) }

  lemma DurableCore(a: State, b: State, e: Event)
    requires CoreOf(a) == CoreOf(b)
    ensures CoreOf(MergeDurable(a, e)) == CoreOf(MergeDurable(b, e))
  {
    hide Apply, Replayed;
  }

  /** A frame moves the session by itself: nothing else of the store feeds into it. */
  lemma FrameCore(a: State, b: State, frame: Frame)
    requires CoreOf(a) == CoreOf(b)
    ensures CoreOf(ApplyFrame(a, frame)) == CoreOf(ApplyFrame(b, frame))
  {
    hide Apply, Replayed, Filter, SnapshotCards, MergeDurable;
    if frame.EventFrame? {
      DurableCore(a, b, frame.event);
      DurableCore(a.(confirmed := true), b.(confirmed := true), frame.event);
      DurableCore(Reset(a, frame.session), Reset(b, frame.session), frame.event);
    }
  }

  lemma {:induction false} FeedCore(a: State, b: State, frames: seq<Frame>)
    requires CoreOf(a) == CoreOf(b)
    ensures CoreOf(Feed(a, frames)) == CoreOf(Feed(b, frames))
  {
    hide ApplyFrame;
    if frames != [] {
      var n := |frames| - 1;
      FeedCore(a, b, frames[..n]);
      FrameCore(Feed(a, frames[..n]), Feed(b, frames[..n]), frames[n]);
    }
  }

  // ----- the window between a start and its answer

  predicate IsWindow(steps: seq<Step>) {
    forall k :: 0 <= k < |steps| ==> !steps[k].Answer?
  }

  /** The frames of `session`, in arrival order. */
  function HeldBack(steps: seq<Step>, session: SessionId): seq<Frame> {
    if steps == [] then []
    else
      var rest, last := HeldBack(steps[..|steps| - 1], session), steps[|steps| - 1];
      if last.Arrive? && SessionOf(last.frame) == Some(session) then rest + [last.frame] else rest
  }

  /** The frames let through: not the attaching session's, not an event naming no session. */
  function PassedOn(steps: seq<Step>, session: SessionId, blank: bool): seq<Frame> {
    if steps == [] then []
    else
      var rest, last := PassedOn(steps[..|steps| - 1], session, blank), steps[|steps| - 1];
      if last.Arrive? && Passes(last.frame, session, blank) then rest + [last.frame] else rest
  }

  predicate Passes(frame: Frame, session: SessionId, blank: bool) {
    SessionOf(frame) != Some(session) && !(frame.EventFrame? && frame.session.None?) && !(blank && SessionKind(frame))
  }

  lemma PlainDelivery(l: Link, frame: Frame)
    requires !(l.blank && SessionKind(frame))
    ensures Deliver(l, frame).store == ApplyFrame(l.store, frame)
  {
    hide ApplyFrame;
  }

  lemma WindowStep(l: Link, step: Step, passed: State)
    requires l.pending.Some? && !step.Answer? && CoreOf(l.store) == CoreOf(passed)
    ensures var p, r := l.pending.value, LinkStep(l, step);
            && r.blank == l.blank && r.settled == l.settled
            && r.pending == Some(p.(frames :=
                 if step.Arrive? && SessionOf(step.frame) == Some(p.request.session) then p.frames + [step.frame] else p.frames))
            && CoreOf(r.store) == CoreOf(if step.Arrive? && Passes(step.frame, p.request.session, l.blank)
                                         then ApplyFrame(passed, step.frame) else passed)
  {
    hide ApplyFrame;
    if step.Arrive? && Passes(step.frame, l.pending.value.request.session, l.blank) {
      PlainDelivery(l, step.frame);
      FrameCore(l.store, passed, step.frame);
    }
  }

  lemma HeldBackStep(steps: seq<Step>, session: SessionId, blank: bool)
    requires steps != []
    ensures var n := |steps| - 1;
            && HeldBack(steps, session) == HeldBack(steps[..n], session)
                 + (if steps[n].Arrive? && SessionOf(steps[n].frame) == Some(session) then [steps[n].frame] else [])
            && PassedOn(steps, session, blank) == PassedOn(steps[..n], session, blank)
                 + (if steps[n].Arrive? && Passes(steps[n].frame, session, blank) then [steps[n].frame] else [])
  {
    hide SessionOf, Passes;
  }

  lemma FeedOne(st: State, frames: seq<Frame>, frame: Frame)
    ensures Feed(st, frames + [frame]) == ApplyFrame(Feed(st, frames), frame)
  {
    hide ApplyFrame;
    assert (frames + [frame])[..|frames|] == frames;
  }

  /** During the window the session's frames are held, in order, and all others fold as they come. */
  lemma {:induction false} WindowHolds(l: Link, steps: seq<Step>)
    requires l.pending.Some? && IsWindow(steps)
    ensures var p, r := l.pending.value, RunLink(l, steps);
            && r.pending == Some(p.(frames := p.frames + HeldBack(steps, p.request.session)))
            && r.blank == l.blank && r.settled == l.settled
            && CoreOf(r.store) == CoreOf(Feed(l.store, PassedOn(steps, p.request.session, l.blank)))
  {
    hide LinkStep, ApplyFrame, Passes, SessionOf, HeldBack, PassedOn, CoreOf, Feed;
    var p := l.pending.value;
    if steps == [] {
      NothingYet(l, p.request.session, l.blank);
      assert p.frames + [] == p.frames;
    } else {
      var n := |steps| - 1;
      WindowHolds(l, steps[..n]);
      var passed := PassedOn(steps[..n], p.request.session, l.blank);
      WindowStep(RunLink(l, steps[..n]), steps[n], Feed(l.store, passed));
      HeldBackStep(steps, p.request.session, l.blank);
      if steps[n].Arrive? {
        FeedOne(l.store, passed, steps[n].frame);
        assert (p.frames + HeldBack(steps[..n], p.request.session)) + [steps[n].frame]
            == p.frames + (HeldBack(steps[..n], p.request.session) + [steps[n].frame]);
      }
      assert passed + [] == passed && HeldBack(steps[..n], p.request.session) + [] == HeldBack(steps[..n], p.request.session);
    }
  }

  lemma NothingYet(l: Link, session: SessionId, blank: bool)
    ensures HeldBack([], session) == [] && Feed(l.store, PassedOn([], session, blank)) == l.store
  {
  }

  /** The whole exchange: ask, window, answer. */
  function Exchange(l: Link, request: Request, steps: seq<Step>, accepted: bool): Link {
    LinkStep(RunLink(Start(l, request), steps), Answer(accepted))
  }

  lemma StartCore(l: Link, request: Request)
    ensures Start(l, request).pending == Some(Pending(request, [])) && Start(l, request).blank == l.blank
    ensures CoreOf(Start(l, request).store) == CoreOf(l.store)
    ensures Start(l, request).settled == l.settled
  {
    hide ApplyFrame;
  }

  lemma StartNextCore(l: Link)
    ensures CoreOf(StartNext(l).store) == CoreOf(l.store) && StartNext(l).settled == l.settled
  {
    hide ApplyFrame;
  }

  // ----- refusal

  /** The frames of the session on screen, and the loss of its connection. */
  function OwnFrames(steps: seq<Step>, session: SessionId): seq<Frame> {
    if steps == [] then []
    else
      var rest, last := OwnFrames(steps[..|steps| - 1], session), steps[|steps| - 1];
      if last.Arrive? && IsOwn(last.frame, session) then rest + [last.frame] else rest
  }

  predicate IsOwn(frame: Frame, session: SessionId) {
    SessionOf(frame) == Some(session) || frame.DisconnectedFrame?
  }

  lemma ForeignFrameIgnored(st: State, session: SessionId, frame: Frame)
    requires st.session == Some(session) && !IsOwn(frame, session) && !(frame.EventFrame? && frame.session.None?)
    ensures ApplyFrame(st, frame) == st
  {
  }

  lemma MergeKeepsSession(st: State, e: Event)
    ensures MergeDurable(st, e).session == st.session
  {
    hide Apply, Replayed;
  }

  lemma SessionStays(st: State, session: SessionId, frame: Frame)
    requires st.session == Some(session)
    ensures ApplyFrame(st, frame).session == Some(session)
  {
    hide MergeDurable, Replayed, Filter, SnapshotCards;
    if frame.EventFrame? {
      MergeKeepsSession(st, frame.event);
      MergeKeepsSession(st.(confirmed := true), frame.event);
    }
  }

  lemma {:induction false} FeedKeepsSession(st: State, session: SessionId, frames: seq<Frame>)
    requires st.session == Some(session)
    ensures Feed(st, frames).session == Some(session)
  {
    hide ApplyFrame;
    if frames != [] {
      var n := |frames| - 1;
      FeedKeepsSession(st, session, frames[..n]);
      SessionStays(Feed(st, frames[..n]), session, frames[n]);
    }
  }

  /** Of the frames let through, only the session's own ones matter. */
  lemma {:induction false} OnlyOwnMatter(st: State, steps: seq<Step>, session: SessionId, attaching: SessionId)
    requires st.session == Some(session) && attaching != session
    ensures Feed(st, PassedOn(steps, attaching, false)) == Feed(st, OwnFrames(steps, session))
  {
    hide ApplyFrame;
    if steps != [] {
      var n := |steps| - 1;
      OnlyOwnMatter(st, steps[..n], session, attaching);
      var passed, own := PassedOn(steps[..n], attaching, false), OwnFrames(steps[..n], session);
      FeedKeepsSession(st, session, own);
      if steps[n].Arrive? {
        var frame := steps[n].frame;
        assert (passed + [frame])[..|passed|] == passed;
        assert (own + [frame])[..|own|] == own;
        if !IsOwn(frame, session) && Passes(frame, attaching, false) {
          ForeignFrameIgnored(Feed(st, own), session, frame);
        }
      }
    }
  }

  lemma DiscardCore(l: Link, p: Pending)
    ensures CoreOf(Discard(l, p).store) == CoreOf(l.store)
  {
    hide ApplyFrame;
  }

  /** A refused attach leaves the session exactly as its own frames made it. */
  lemma RefusedAttachLeavesSession(l: Link, request: Request, steps: seq<Step>, session: SessionId)
    requires l.pending.None? && !l.blank && IsWindow(steps)
    requires l.store.session == Some(session) && request.session != session
    requires AcceptedThrough(HeldBack(steps, request.session)).None?
    ensures var r := Exchange(l, request, steps, false);
            && CoreOf(r.store) == CoreOf(Feed(l.store, OwnFrames(steps, session)))
            && r.settled == l.settled + [Outcome(request, false)]
  {
    hide Start, Feed, CoreOf, StartNext, Discard, Commit, HeldBack, PassedOn, OwnFrames;
    var started := Start(l, request);
    StartCore(l, request);
    WindowHolds(started, steps);
    var w := RunLink(started, steps);
    assert [] + HeldBack(steps, request.session) == HeldBack(steps, request.session);
    FeedCore(started.store, l.store, PassedOn(steps, request.session, false));
    OnlyOwnMatter(l.store, steps, session, request.session);
    DiscardCore(w, w.pending.value);
    StartNextCore(SettlePending(w, w.pending.value, false));
  }

  // ----- acceptance

  lemma {:induction false} DeliverAllFeeds(l: Link, frames: seq<Frame>)
    requires !l.blank
    ensures DeliverAll(l, frames).store == Feed(l.store, frames)
  {
    hide ApplyFrame, Deliver;
    if frames != [] {
      var n := |frames| - 1;
      DeliverAllFeeds(l, frames[..n]);
      DeliverAllKeeps(l, frames[..n]);
      PlainDelivery(DeliverAll(l, frames[..n]), frames[n]);
    }
  }

  lemma CommitFeeds(l: Link, p: Pending)
    ensures Commit(l, p).store == Feed(Reduce(l.store, Selection(p.request)), p.frames)
  {
    hide Reduce;
    DeliverAllFeeds(l.(pending := None, blank := false, confirmed := Some(p.request.session),
                       store := Reduce(l.store, Selection(p.request))), p.frames);
  }

  lemma ResetCore(a: State, b: State, session: SessionId)
    ensures CoreOf(Reduce(a, SessionSelected(session))) == CoreOf(Reset(b, Some(session)))
  {
    hide ApplyFrame;
  }

  /** An accepted attach shows the fold of its held-back frames from a reset, whatever was shown before. */
  lemma AcceptedAttachIsItsFrames(l: Link, request: Request, steps: seq<Step>)
    requires l.pending.None? && IsWindow(steps) && !request.preserve
    ensures var r := Exchange(l, request, steps, true);
            && CoreOf(r.store) == CoreOf(Feed(Reset(INITIAL_STATE, Some(request.session)), HeldBack(steps, request.session)))
            && r.settled == l.settled + [Outcome(request, true)]
  {
    hide Start, Feed, CoreOf, StartNext, Reduce, Reset, Commit, HeldBack, PassedOn;
    StartCore(l, request);
    var started := Start(l, request);
    WindowHolds(started, steps);
    var w := RunLink(started, steps);
    var held := HeldBack(steps, request.session);
    assert [] + held == held;
    CommitFeeds(w, w.pending.value);
    ResetCore(w.store, INITIAL_STATE, request.session);
    FeedCore(Reduce(w.store, SessionSelected(request.session)), Reset(INITIAL_STATE, Some(request.session)), held);
    StartNextCore(SettlePending(w, w.pending.value, true));
  }

  /** The watermark a catch-up or history frame proves, if any. */
  function Watermark(frame: Frame): Option<nat> {
    if frame.HistoryFrame? then Some(frame.through)
    else if frame.CatchupFrame? && !frame.snapshot.UnknownSnapshot? then Some(frame.snapshot.through)
    else None
  }

  /** The watermark of an unfinished history is the greatest one held back, and there is one exactly when a frame has one. */
  lemma {:induction false} AcceptedThroughIsGreatest(frames: seq<Frame>)
    ensures var r := AcceptedThrough(frames);
            && (forall k :: 0 <= k < |frames| && Watermark(frames[k]).Some? ==> r.Some? && Watermark(frames[k]).value <= r.value)
            && (r.Some? ==> exists k :: 0 <= k < |frames| && Watermark(frames[k]) == r)
  {
    if frames != [] {
      var n := |frames| - 1;
      AcceptedThroughIsGreatest(frames[..n]);
      var rest, r := AcceptedThrough(frames[..n]), AcceptedThrough(frames);
      forall k | 0 <= k < n && Watermark(frames[k]).Some? ensures r.Some? && Watermark(frames[k]).value <= r.value {
        assert frames[..n][k] == frames[k];
      }
      if r.Some? {
        if Watermark(frames[n]) != r {
          var k :| 0 <= k < n && Watermark(frames[..n][k]) == rest;
          assert Watermark(frames[k]) == r;
        }
      }
    }
  }

  lemma IncompleteCore(st: State, session: SessionId, through: nat)
    requires st.session == Some(session) && through > 0
    ensures var r := Reduce(Reduce(st, HistoryIncomplete(session, through)), CommandFailed(INCOMPLETE));
            && CoreOf(r) == CoreOf(st).(gap := r.gap)
            && r.gap.Some? && r.gap.value.session == session && r.gap.value.after == 0 && through <= r.gap.value.through
  {
    hide ApplyFrame;
  }

  /**
    A refusal after a catch-up or history frame was held back is an acceptance whose
    history is unfinished: the frames are shown, and the whole range up to their
    greatest watermark is recorded as a gap to repair.
   */
  lemma UnfinishedHistoryIsRecorded(l: Link, request: Request, steps: seq<Step>)
    requires l.pending.None? && IsWindow(steps) && !request.preserve
    requires AcceptedThrough(HeldBack(steps, request.session)).Some?
    requires AcceptedThrough(HeldBack(steps, request.session)).value > 0
    ensures var r := Exchange(l, request, steps, false);
            var shown := Feed(Reset(INITIAL_STATE, Some(request.session)), HeldBack(steps, request.session));
            && CoreOf(r.store) == CoreOf(shown).(gap := r.store.gap)
            && r.store.gap.Some? && r.store.gap.value.session == request.session && r.store.gap.value.after == 0
            && AcceptedThrough(HeldBack(steps, request.session)).value <= r.store.gap.value.through
            && r.settled == l.settled + [Outcome(request, true)]
  {
    hide Start, Feed, StartNext, Reduce, Reset, Commit, HeldBack, PassedOn, AcceptedThrough;
    StartCore(l, request);
    var started := Start(l, request);
    WindowHolds(started, steps);
    var w := RunLink(started, steps);
    var held := HeldBack(steps, request.session);
    assert [] + held == held;
    CommitFeeds(w, w.pending.value);
    ResetCore(w.store, INITIAL_STATE, request.session);
    var selected := Reduce(w.store, SessionSelected(request.session));
    FeedCore(selected, Reset(INITIAL_STATE, Some(request.session)), held);
    assert CoreOf(selected).session == Some(request.session) by { SelectedSession(w.store, request.session); }
    FeedKeepsSession(selected, request.session, held);
    IncompleteCore(Feed(selected, held), request.session, AcceptedThrough(held).value);
    StartNextCore(SettlePending(w, w.pending.value, false));
  }

  lemma SelectedSession(st: State, session: SessionId)
    ensures Reduce(st, SessionSelected(session)).session == Some(session)
  {
  }

  function Arrivals(frames: seq<Frame>): (r: seq<Action>)
    ensures |r| == |frames| && forall k :: 0 <= k < |r| ==> r[k] == FrameArrived(frames[k])
  {
    seq(|frames|, k requires 0 <= k < |frames| => FrameArrived(frames[k]))
  }

  lemma {:induction false} FeedIsRun(st: State, frames: seq<Frame>)
    ensures Feed(st, frames) == Store.Run(st, Arrivals(frames))
  {
    hide ApplyFrame;
    if frames != [] {
      var n := |frames| - 1;
      FeedIsRun(st, frames[..n]);
      assert Arrivals(frames)[..n] == Arrivals(frames[..n]);
    }
  }

  // ----- composed with convergence

  /** The index of the last history page, or the length when there is none. */
  function LastPage(frames: seq<Frame>): (k: nat)
    ensures k <= |frames|
    ensures k < |frames| ==> frames[k].HistoryFrame?
    ensures forall j :: 0 <= j < |frames| && (k == |frames| || k < j) ==> !frames[j].HistoryFrame?
  {
    if frames == [] then 0
    else if frames[|frames| - 1].HistoryFrame? then |frames| - 1
    else
      var k := LastPage(frames[..|frames| - 1]);
      if k == |frames| - 1 then |frames| else k
  }

  predicate IsCompacted(frame: Frame) { frame.CatchupFrame? && frame.snapshot.Compacted? }

  predicate NoneCompacted(frames: seq<Frame>) { forall k :: 0 <= k < |frames| ==> !IsCompacted(frames[k]) }

  /** A compacted snapshot is followed by the history behind it. */
  predicate HistoryFollows(frames: seq<Frame>) {
    forall j :: 0 <= j < |frames| && IsCompacted(frames[j]) ==> exists k :: j < k < |frames| && frames[k].HistoryFrame?
  }

  predicate AllOf(frames: seq<Frame>, session: SessionId) {
    forall k :: 0 <= k < |frames| ==> SessionOf(frames[k]) == Some(session)
  }

  lemma {:induction false} HeldBackIsOwn(steps: seq<Step>, session: SessionId)
    ensures AllOf(HeldBack(steps, session), session)
  {
    hide SessionOf;
    if steps != [] { HeldBackIsOwn(steps[..|steps| - 1], session); }
  }

  lemma OwnStays(frames: seq<Frame>, session: SessionId)
    requires AllOf(frames, session)
    ensures AllStay(Arrivals(frames), session)
    ensures NoneCompacted(frames) ==> AllSteady(Arrivals(frames), session)
  {
  }

  lemma AfterLastPage(frames: seq<Frame>)
    requires HistoryFollows(frames)
    ensures var k := LastPage(frames); NoneCompacted(if k < |frames| then frames[k + 1..] else frames)
  {
    var k := LastPage(frames);
    if k < |frames| {
      var rest := frames[k + 1..];
      forall j | 0 <= j < |rest| ensures !IsCompacted(rest[j]) { assert rest[j] == frames[k + 1 + j]; }
    }
  }

  lemma ArrivalsSplit(frames: seq<Frame>, k: nat, session: SessionId)
    requires k < |frames| && frames[k].HistoryFrame? && frames[k].owner == session
    ensures Arrivals(frames) == Arrivals(frames[..k]) + [FrameArrived(frames[k])] + Arrivals(frames[k + 1..])
    ensures Delivered(Arrivals(frames), session)
         == Delivered(Arrivals(frames[..k]), session) + frames[k].events + Delivered(Arrivals(frames[k + 1..]), session)
  {
    hide Delivers;
    var before, at, after := Arrivals(frames[..k]), [FrameArrived(frames[k])], Arrivals(frames[k + 1..]);
    assert Arrivals(frames) == before + at + after;
    DeliveredConcat(before + at, after, session);
    DeliveredConcat(before, at, session);
    OnePage(frames[k], session);
  }

  lemma OnePage(frame: Frame, session: SessionId)
    requires frame.HistoryFrame? && frame.owner == session
    ensures Delivered([FrameArrived(frame)], session) == frame.events
  {
    assert [FrameArrived(frame)][..0] == [];
  }

  /** Feeding the frames of one session from a reset shows the replay of their distinct events. */
  lemma FramesConverge(session: SessionId, frames: seq<Frame>)
    requires AllOf(frames, session) && HistoryFollows(frames)
    requires Consistent(Delivered(Arrivals(frames), session))
    ensures Feed(Reset(INITIAL_STATE, Some(session)), frames).projection
         == Replayed(Distinct(Delivered(Arrivals(frames), session)))
  {
    hide Feed, Reset, Replayed, Delivered, Distinct, Consistent, Arrivals, Stays, Steady, NoneCompacted, HistoryFollows;
    FeedIsRun(Reset(INITIAL_STATE, Some(session)), frames);
    var k := LastPage(frames);
    if k == |frames| {
      OwnStays(frames, session);
      AfterLastPage(frames);
      SessionConverges(INITIAL_STATE, session, Arrivals(frames));
    } else {
      assert SessionOf(frames[k]) == Some(session);
      ArrivalsSplit(frames, k, session);
      OwnStays(frames[..k], session);
      OwnStays(frames[k + 1..], session);
      assert NoneCompacted(frames[k + 1..]) by { AfterLastPage(frames); }
      DisturbedSessionConverges(INITIAL_STATE, session, Arrivals(frames[..k]), frames[k].through, frames[k].events,
                                Arrivals(frames[k + 1..]));
    }
  }

  /**
    An accepted attach shows the replay of the distinct events among its held-back
    frames, in sequence order, through a compacted snapshot too when its history follows.
   */
  lemma AcceptedAttachConverges(l: Link, request: Request, steps: seq<Step>)
    requires l.pending.None? && IsWindow(steps) && !request.preserve
    requires HistoryFollows(HeldBack(steps, request.session))
    requires Consistent(Delivered(Arrivals(HeldBack(steps, request.session)), request.session))
    ensures Exchange(l, request, steps, true).store.projection
         == Replayed(Distinct(Delivered(Arrivals(HeldBack(steps, request.session)), request.session)))
  {
    hide Feed, Reset, HeldBack, Replayed, Delivered, Exchange, HistoryFollows, AllOf, Consistent, Arrivals;
    AcceptedAttachIsItsFrames(l, request, steps);
    HeldBackIsOwn(steps, request.session);
    FramesConverge(request.session, HeldBack(steps, request.session));
  }

  lemma ReattachCore(st: State, session: SessionId)
    requires st.session == Some(session)
    ensures CoreOf(Reduce(st, SessionReattached(session))) == CoreOf(st)
  {
    hide ApplyFrame;
  }

  /** Re-attaching the session on screen continues its projection with the held-back frames. */
  lemma ReattachContinues(l: Link, request: Request, steps: seq<Step>)
    requires l.pending.None? && !l.blank && IsWindow(steps) && request.preserve
    requires l.store.session == Some(request.session)
    requires forall k :: 0 <= k < |steps| && steps[k].Arrive? ==> !steps[k].frame.DisconnectedFrame?
    ensures CoreOf(Exchange(l, request, steps, true).store) == CoreOf(Feed(l.store, HeldBack(steps, request.session)))
  {
    hide Start, Feed, StartNext, Commit, HeldBack, PassedOn, Reduce, LinkStep;
    StartCore(l, request);
    var started := Start(l, request);
    WindowHolds(started, steps);
    var w := RunLink(started, steps);
    var held := HeldBack(steps, request.session);
    assert [] + held == held;
    OthersIgnored(l.store, steps, request.session);
    FeedCore(started.store, l.store, PassedOn(steps, request.session, false));
    assert CoreOf(w.store) == CoreOf(l.store);
    ReattachCore(w.store, request.session);
    CommitFeeds(w, w.pending.value);
    FeedCore(Reduce(w.store, SessionReattached(request.session)), l.store, held);
    StartNextCore(SettlePending(w, w.pending.value, true));
    AnswerSettles(w);
  }

  lemma AnswerSettles(w: Link)
    requires w.pending.Some?
    ensures LinkStep(w, Answer(true)) == StartNext(SettlePending(w, w.pending.value, true))
  {
    hide SettlePending, StartNext;
  }

  lemma {:induction false} OthersIgnored(st: State, steps: seq<Step>, session: SessionId)
    requires st.session == Some(session)
    requires forall k :: 0 <= k < |steps| && steps[k].Arrive? ==> !steps[k].frame.DisconnectedFrame?
    ensures Feed(st, PassedOn(steps, session, false)) == st
  {
    hide ApplyFrame;
    if steps != [] {
      var n := |steps| - 1;
      OthersIgnored(st, steps[..n], session);
      if steps[n].Arrive? && Passes(steps[n].frame, session, false) {
        var passed := PassedOn(steps[..n], session, false);
        assert (passed + [steps[n].frame])[..|passed|] == passed;
        ForeignFrameIgnored(st, session, steps[n].frame);
      }
    }
  }
}
