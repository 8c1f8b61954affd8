/**
  The attachment protocol as the client keeps it: mutable references changed by user
  requests, replies and frame arrivals.  Every method is the step of `Attachment` it
  implements.
 */
module AttachmentController {
  import opened Events
  import opened Store
  import opened Attachment

  class SessionAttachments {
    var store: State
    var pending: Option<Pending>
    var queue: seq<Request>
    var blank: bool
    var confirmed: Option<SessionId>
    var settled: seq<Outcome>

    function Abstract(): Link
      reads this
    {
      Link(store, pending, queue, blank, confirmed, settled)
    }

    constructor (store: State)
      ensures Abstract() == Opened(store)
    {
      this.store := store;
      pending, queue, blank, confirmed, settled := None, [], false, None, [];
    }

    method Dispatch(action: Action)
      modifies this`store
      ensures store == Reduce(old(store), action)
    {
      store := Reduce(store, action);
    }

    method DeliverFrame(frame: Frame)
      modifies this
      ensures Abstract() == Deliver(old(Abstract()), frame)
    {
      hide Reduce;
      if blank && SessionKind(frame) {
        return;
      }
      if frame.DisconnectedFrame? {
        confirmed := None;
      } else {
        var named := SessionOf(frame);
        if named.Some? && (store.session.None? || store.session == named) {
          confirmed := named;
        }
      }
      Dispatch(FrameArrived(frame));
    }

    method StartAttachment(request: Request)
      modifies this
      ensures Abstract() == Start(old(Abstract()), request)
    {
      hide Reduce;
      pending := Some(Pending(request, []));
      Dispatch(AttachStarted(request.session));
    }

    method EnqueueAttachment(request: Request)
      modifies this
      ensures Abstract() == LinkStep(old(Abstract()), Ask(request))
    {
      hide Reduce;
      if pending.None? {
        StartAttachment(request);
      } else {
        queue := queue + [request];
      }
    }

    /** Commit: select the session, then deliver what was held back, once and in order. */
    method CommitAttachment(p: Pending)
      modifies this
      ensures Abstract() == Commit(old(Abstract()), p)
    {
      hide Reduce, Deliver;
      pending, blank, confirmed := None, false, Some(p.request.session);
      Dispatch(Selection(p.request));
      ghost var selected := Abstract();
      for i := 0 to |p.frames|
        invariant Abstract() == DeliverAll(selected, p.frames[..i])
      {
        assert p.frames[..i + 1][..i] == p.frames[..i];
        DeliverFrame(p.frames[i]);
      }
      assert p.frames[..|p.frames|] == p.frames;
    }

    /** The greatest watermark among the held-back catch-up and history frames. */
    method AcceptedAttachmentThrough(frames: seq<Frame>) returns (through: Option<nat>)
      ensures through == AcceptedThrough(frames)
    {
      through := None;
      for i := 0 to |frames|
        invariant through == AcceptedThrough(frames[..i])
      {
        assert frames[..i + 1][..i] == frames[..i];
        var candidate: Option<nat> := None;
        if frames[i].CatchupFrame? && !frames[i].snapshot.UnknownSnapshot? {
          candidate := Some(frames[i].snapshot.through);
        } else if frames[i].HistoryFrame? {
          candidate := Some(frames[i].through);
        }
        if candidate.Some? {
          through := if through.None? then candidate else Some(Max(through.value, candidate.value));
        }
      }
      assert frames[..|frames|] == frames;
    }

    /** The daemon answered the pending attach; the next queued one then starts. */
    method AttachAnswered(accepted: bool)
      modifies this
      ensures Abstract() == LinkStep(old(Abstract()), Answer(accepted))
    {
      hide Reduce, Commit, AcceptedThrough;
      if pending.None? {
        return;
      }
      SettleAttachment(pending.value, accepted);
      if pending.None? && queue != [] {
        var request := queue[0];
        queue := queue[1..];
        StartAttachment(request);
      }
    }

    method SettleAttachment(p: Pending, accepted: bool)
      modifies this
      ensures Abstract() == SettlePending(old(Abstract()), p, accepted)
    {
      hide Reduce, AcceptedThrough;
      CommitKeeps(Abstract(), p);
      hide Commit;
      if accepted {
        CommitAttachment(p);
        settled := settled + [Outcome(p.request, true)];
        return;
      }
      var through := AcceptedAttachmentThrough(p.frames);
      if through.Some? {
        CommitAttachment(p);
        Dispatch(HistoryIncomplete(p.request.session, through.value));
        Dispatch(CommandFailed(INCOMPLETE));
        settled := settled + [Outcome(p.request, true)];
      } else {
        pending := None;
        Dispatch(AttachFailed(p.request.session));
        Dispatch(CommandFailed(REFUSED));
        settled := settled + [Outcome(p.request, false)];
      }
    }

    /** The frame router of the connection. */
    method RouteFrame(frame: Frame)
      modifies this
      ensures Abstract() == LinkStep(old(Abstract()), Arrive(frame))
    {
      hide Reduce;
      if pending.Some? && SessionOf(frame) == Some(pending.value.request.session) {
        pending := Some(pending.value.(frames := pending.value.frames + [frame]));
        return;
      }
      if pending.Some? && frame.EventFrame? && frame.session.None? {
        return;
      }
      DeliverFrame(frame);
    }

    method NewSessionRequested(launching: bool)
      modifies this
      ensures Abstract() == LinkStep(old(Abstract()), NewChat(launching))
    {
      hide Reduce;
      if launching || pending.Some? || store.projection.surface.isRunning {
        Dispatch(CommandFailed(BUSY));
        return;
      }
      blank, confirmed := true, None;
      Dispatch(NewSession);
    }
  }
}
