/**
  New chats, the queue, and the confirmed session: what each request and answer does to
  the protocol's own references.
 */
module AttachmentEffects {
  import opened Events
  import opened Projection
  import opened Store
  import opened Attachment

  /** A new chat is refused while a run is launched or active or an attach is pending; then only an error is shown. */
  lemma NewChatExactly(l: Link, launching: bool)
    ensures var r := LinkStep(l, NewChat(launching));
            && (launching || l.pending.Some? || l.store.projection.surface.isRunning ==>
                  r.store.error.Some? && r == l.(store := l.store.(error := r.store.error)))
            && (!launching && l.pending.None? && !l.store.projection.surface.isRunning ==>
                  && r.blank && r.confirmed == None && r.pending == None && r.queue == l.queue && r.settled == l.settled
                  && r.store.session == None && r.store.projection.transcript == [] && r.store.events == []
                  && r.store.gap == None && r.store.error == None)
  {
  }

  /** A blank chat shows nothing of any session until an attach commits. */
  lemma BlankChatStaysBlank(l: Link, frame: Frame)
    requires l.blank && (frame.EventFrame? || frame.HistoryFrame? || frame.CatchupFrame?)
    ensures var r := LinkStep(l, Arrive(frame)); r.blank && r.store == l.store && r.confirmed == l.confirmed
    ensures l.pending.None? ==> LinkStep(l, Arrive(frame)) == l
  {
    hide Reduce;
  }

  /** A request starts at once when none is pending, and otherwise waits behind the earlier ones. */
  lemma AskStartsOrWaits(l: Link, request: Request)
    ensures var r := LinkStep(l, Ask(request));
            && (l.pending.Some? ==> r == l.(queue := l.queue + [request]))
            && (l.pending.None? ==> r.pending == Some(Pending(request, [])) && r.queue == l.queue
                                    && r.store == l.store.(attaching := Some(request.session)))
  {
  }

  /** An answer settles the pending request and starts the next one; without a pending request it does nothing. */
  lemma AnswerStartsNext(l: Link, accepted: bool)
    ensures var r := LinkStep(l, Answer(accepted));
            && (l.pending.None? ==> r == l)
            && (l.pending.Some? ==>
                  && |r.settled| == |l.settled| + 1 && r.settled[..|l.settled|] == l.settled
                  && r.settled[|l.settled|].request == l.pending.value.request
                  && (accepted ==> r.settled[|l.settled|].committed)
                  && r.pending == (if l.queue == [] then None else Some(Pending(l.queue[0], [])))
                  && r.queue == (if l.queue == [] then [] else l.queue[1..]))
  {
    hide Reduce, Commit, AcceptedThrough;
    if l.pending.Some? { CommitKeeps(l, l.pending.value); }
  }

  // ----- the confirmed session is the one shown

  predicate Confirmed(l: Link) { l.confirmed.Some? ==> l.store.session == l.confirmed }

  lemma FrameSession(st: State, frame: Frame)
    ensures var named, r := SessionOf(frame), Reduce(st, FrameArrived(frame));
            && (st.session.Some? ==> r.session == st.session)
            && (st.session.None? && named.Some? ==> r.session == named)
            && (st.session.None? && named.None? ==> r.session == None)
  {
    hide Apply, Replayed, Filter;
  }

  lemma DeliverConfirms(l: Link, frame: Frame)
    requires Confirmed(l)
    ensures Confirmed(Deliver(l, frame))
  {
    hide Reduce;
    FrameSession(l.store, frame);
  }

  lemma {:induction false} DeliverAllConfirms(l: Link, frames: seq<Frame>)
    requires Confirmed(l)
    ensures Confirmed(DeliverAll(l, frames))
  {
    hide Deliver, Confirmed;
    if frames != [] {
      DeliverAllConfirms(l, frames[..|frames| - 1]);
      DeliverConfirms(DeliverAll(l, frames[..|frames| - 1]), frames[|frames| - 1]);
    }
  }

  lemma CommitConfirms(l: Link, p: Pending)
    ensures Confirmed(Commit(l, p))
  {
    hide DeliverAll;
    var selected := l.(pending := None, blank := false, confirmed := Some(p.request.session),
                       store := Reduce(l.store, Selection(p.request)));
    assert Confirmed(selected);
    DeliverAllConfirms(selected, p.frames);
  }

  lemma NoticesKeepSession(st: State, session: SessionId, through: nat, message: Option<string>)
    ensures Reduce(st, HistoryIncomplete(session, through)).session == st.session
    ensures Reduce(st, CommandFailed(message)).session == st.session
    ensures Reduce(st, AttachFailed(session)).session == st.session
    ensures Reduce(st, AttachStarted(session)).session == st.session
  {
    hide ApplyFrame;
  }

  lemma SettleConfirms(l: Link, p: Pending, accepted: bool)
    requires Confirmed(l)
    ensures Confirmed(SettlePending(l, p, accepted))
  {
    hide Commit, Reduce, AcceptedThrough;
    CommitConfirms(l, p);
    var through := AcceptedThrough(p.frames);
    if through.Some? {
      NoticesKeepSession(Commit(l, p).store, p.request.session, through.value, INCOMPLETE);
      NoticesKeepSession(Reduce(Commit(l, p).store, HistoryIncomplete(p.request.session, through.value)), p.request.session, 0, INCOMPLETE);
    } else {
      NoticesKeepSession(l.store, p.request.session, 0, REFUSED);
      NoticesKeepSession(Reduce(l.store, AttachFailed(p.request.session)), p.request.session, 0, REFUSED);
    }
  }

  lemma StartConfirms(l: Link, request: Request)
    requires Confirmed(l)
    ensures Confirmed(Start(l, request))
  {
    hide Reduce;
    NoticesKeepSession(l.store, request.session, 0, None);
  }

  lemma StepConfirms(l: Link, step: Step)
    requires Confirmed(l)
    ensures Confirmed(LinkStep(l, step))
  {
    hide Confirmed, SettlePending, Deliver, Start;
    match step {
      case Ask(request) => StartConfirms(l, request); QueueKeeps(l, request);
      case Answer(accepted) =>
        if l.pending.Some? {
          SettleConfirms(l, l.pending.value, accepted);
          var r := SettlePending(l, l.pending.value, accepted);
          if r.pending.None? && r.queue != [] { ShorterQueue(r); StartConfirms(r.(queue := r.queue[1..]), r.queue[0]); }
        }
      case Arrive(frame) => DeliverConfirms(l, frame); HeldKeeps(l, frame);
      case NewChat(launching) => ChatConfirms(l, launching);
    }
  }

  lemma QueueKeeps(l: Link, request: Request)
    requires Confirmed(l)
    ensures Confirmed(l.(queue := l.queue + [request]))
  {
  }

  lemma ShorterQueue(l: Link)
    requires Confirmed(l) && l.queue != []
    ensures Confirmed(l.(queue := l.queue[1..]))
  {
  }

  lemma HeldKeeps(l: Link, frame: Frame)
    requires Confirmed(l)
    ensures l.pending.Some? ==> Confirmed(l.(pending := Some(l.pending.value.(frames := l.pending.value.frames + [frame]))))
  {
  }

  lemma ChatConfirms(l: Link, launching: bool)
    requires Confirmed(l)
    ensures Confirmed(StartNewChat(l, launching))
  {
    hide ApplyFrame;
  }

  /** Over every run, the session the protocol holds for confirmed is the one the store shows. */
  lemma {:induction false} ConfirmedIsShown(store: State, steps: seq<Step>)
    ensures var l := RunLink(Opened(store), steps); l.confirmed.Some? ==> l.store.session == l.confirmed
  {
    hide LinkStep;
    if steps != [] {
      var n := |steps| - 1;
      ConfirmedIsShown(store, steps[..n]);
      StepConfirms(RunLink(Opened(store), steps[..n]), steps[n]);
    }
  }
}
