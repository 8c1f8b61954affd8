/**
  What the notifier announces, frame by frame: exactly the requests a frame leaves
  pending that the memory does not hold, each with its latest text.
 */
module NotifierEffects {
  import opened Events
  import opened Store
  import opened Notifier

  /** The key a request raises. */
  function Raises(body: Body): Option<Key> {
    if body.ApprovalRequested? then Some(ApprovalKey(body.approvalId))
    else if body.QuestionAsked? then Some(QuestionKey(body.questionId)) else None
  }

  function Resolves(body: Body): Option<Key> {
    if body.ApprovalResolved? then Some(ApprovalKey(body.approvalId))
    else if body.QuestionResolved? then Some(QuestionKey(body.questionId)) else None
  }

  predicate Known(m: Memory, key: Key) { key in m.notified || key in m.resolved }

  lemma OneNotice(m: Memory, n: Notice)
    ensures Unheard(m, [n]) == if Known(m, n.key) then [] else [n]
    ensures Announce(m, [n]) == if Known(m, n.key) then m
                                else m.(notified := Remember(m.notified, n.key), announced := m.announced + [n.key])
  {
    assert [n][..0] == [];
    assert KeysOf([n]) == [n.key] && KeysOf([]) == [];
    assert [n.key][..0] == [] && RememberAll(m.notified, []) == m.notified;
    assert m.announced + [] == m.announced;
  }

  lemma RememberedLast(memory: seq<Key>, key: Key)
    requires key !in memory
    ensures Remember(memory, key) != [] && Remember(memory, key)[|Remember(memory, key)| - 1] == key
  {
  }

  /** A live request is announced and remembered, unless it is known already; then nothing changes. */
  lemma LiveRequestIsAnnounced(m: Memory, session: Option<SessionId>, e: Event, key: Key)
    requires Raises(e.body) == Some(key)
    ensures var r := Observe(m, EventFrame(session, e));
            && (Known(m, key) ==> r == m)
            && (!Known(m, key) ==> r.announced == m.announced + [key] && key in r.notified && r.resolved == m.resolved)
  {
    OneNotice(m, WorkOf(e).value);
    if !Known(m, key) { RememberedLast(m.notified, key); }
  }

  /** A live resolution announces nothing and, when it is new, is remembered. */
  lemma LiveResolutionIsRemembered(m: Memory, session: Option<SessionId>, e: Event, key: Key)
    requires Resolves(e.body) == Some(key) && |m.resolved| <= CAPACITY
    ensures var r := Observe(m, EventFrame(session, e));
            r == m.(resolved := r.resolved) && key in r.resolved
  {
    if key !in m.resolved { RememberedLast(m.resolved, key); }
  }

  /** Every other live event, and every frame that carries no events or approvals, leaves the notifier alone. */
  lemma OtherFramesAreSilent(m: Memory, frame: Frame)
    requires frame.DisconnectedFrame? || frame.UnscopedFrame?
             || (frame.CatchupFrame? && frame.snapshot.UnknownSnapshot?)
             || (frame.EventFrame? && Raises(frame.event.body).None? && Resolves(frame.event.body).None?)
    ensures Observe(m, frame) == m
  {
  }

  /** Announced by the step from `m` to `r`. */
  predicate Anew(m: Memory, r: Memory, key: Key) {
    |m.announced| <= |r.announced| && key in r.announced[|m.announced|..]
  }

  lemma {:induction false} UnheardExactly(m: Memory, notices: seq<Notice>, n: Notice)
    ensures n in Unheard(m, notices) <==> n in notices && !Known(m, n.key)
  {
    if notices != [] {
      var k := |notices| - 1;
      UnheardExactly(m, notices[..k], n);
      assert notices == notices[..k] + [notices[k]];
    }
  }

  lemma AnnouncedExactly(m: Memory, notices: seq<Notice>, key: Key)
    ensures Anew(m, Announce(m, notices), key) <==> Holds(notices, key) && !Known(m, key)
  {
    var news, r := Unheard(m, notices), Announce(m, notices);
    assert r.announced[|m.announced|..] == KeysOf(news);
    if Holds(notices, key) && !Known(m, key) {
      var k :| 0 <= k < |notices| && notices[k].key == key;
      UnheardExactly(m, notices, notices[k]);
      var j :| 0 <= j < |news| && news[j] == notices[k];
      assert KeysOf(news)[j] == key;
    }
    if key in KeysOf(news) {
      var j :| 0 <= j < |news| && KeysOf(news)[j] == key;
      UnheardExactly(m, notices, news[j]);
    }
  }

  /** A replayed range announces exactly what it leaves pending and the memory, with the range's resolutions, does not hold. */
  lemma ReplayAnnouncesPending(m: Memory, owner: SessionId, through: nat, events: seq<Event>, key: Key)
    ensures var r := Observe(m, HistoryFrame(owner, through, events));
            Anew(m, r, key) <==> Holds(Pending(events), key) && key !in m.notified && key !in r.resolved
    ensures Observe(m, CatchupFrame(owner, EventRange(events, through))) == Observe(m, HistoryFrame(owner, through, events))
  {
    hide Announce, Pending;
    AnnouncedExactly(m.(resolved := RememberAll(m.resolved, Resolutions(events))), Pending(events), key);
    AnnounceKeeps(m.(resolved := RememberAll(m.resolved, Resolutions(events))), Pending(events));
  }

  lemma AnnounceKeeps(m: Memory, notices: seq<Notice>)
    ensures Announce(m, notices).resolved == m.resolved
  {
  }

  /** A snapshot announces exactly its pending approvals the memory does not hold. */
  lemma SnapshotAnnouncesApprovals(m: Memory, owner: SessionId, snapshot: Snapshot, key: Key)
    requires snapshot.Compacted?
    ensures Anew(m, Observe(m, CatchupFrame(owner, snapshot)), key) <==>
              (exists k :: 0 <= k < |snapshot.approvals| && ApprovalKey(snapshot.approvals[k].approvalId) == key) && !Known(m, key)
  {
    var notices := SnapshotNotices(snapshot.approvals);
    AnnouncedExactly(m, notices, key);
    if Holds(notices, key) {
      var k :| 0 <= k < |notices| && notices[k].key == key;
      assert ApprovalKey(snapshot.approvals[k].approvalId) == key;
    }
    if k :| 0 <= k < |snapshot.approvals| && ApprovalKey(snapshot.approvals[k].approvalId) == key {
      assert notices[k].key == key;
    }
  }

  // ----- the latest text

  function TextOf(body: Body): string {
    if body.ApprovalRequested? then body.action
    else if body.QuestionAsked? && body.prompts != [] then body.prompts[0] else ""
  }

  /** The last event that raises or resolves the key. */
  predicate LastWord(events: seq<Event>, k: nat, key: Key) {
    && k < |events| && (Raises(events[k].body) == Some(key) || Resolves(events[k].body) == Some(key))
    && forall j :: k < j < |events| ==> Raises(events[j].body) != Some(key) && Resolves(events[j].body) != Some(key)
  }

  lemma PutExactly(notices: seq<Notice>, n: Notice, x: Notice)
    requires DistinctKeys(notices)
    ensures x in Put(notices, n) <==> x == n || (x in notices && x.key != n.key)
  {
    var r := Put(notices, n);
    if Holds(notices, n.key) {
      var at :| 0 <= at < |notices| && notices[at].key == n.key;
      assert r[at] == n;
      if x in notices && x.key != n.key {
        var k :| 0 <= k < |notices| && notices[k] == x;
        assert r[k] == x;
      }
      if x in r {
        var k :| 0 <= k < |r| && r[k] == x;
      }
    }
  }

  lemma {:induction false} DropExactly(notices: seq<Notice>, key: Key, x: Notice)
    ensures x in Drop(notices, key) <==> x in notices && x.key != key
  {
    if notices != [] {
      var n := |notices| - 1;
      DropExactly(notices[..n], key, x);
      assert notices == notices[..n] + [notices[n]];
    }
  }

  lemma PendingMoves(events: seq<Event>, e: Event, n: Notice)
    ensures n in Pending(events + [e]) <==>
              (Raises(e.body) == Some(n.key) && n.body == TextOf(e.body))
              || (n in Pending(events) && Raises(e.body) != Some(n.key) && Resolves(e.body) != Some(n.key))
  {
    hide Put, Drop, DistinctKeys;
    assert (events + [e])[..|events|] == events;
    PendingDistinct(events);
    if WorkOf(e).Some? { PutExactly(Pending(events), WorkOf(e).value, n); }
    else if ResolvedBy(e).Some? { DropExactly(Pending(events), ResolvedBy(e).value, n); }
  }

  /** A pending notice carries the text of the last event about its key, and that event raised it. */
  lemma {:induction false} PendingHasLatestText(events: seq<Event>, n: Notice, k: nat)
    requires LastWord(events, k, n.key)
    ensures n in Pending(events) <==> Raises(events[k].body) == Some(n.key) && n.body == TextOf(events[k].body)
  {
    hide Pending, Raises, Resolves, TextOf;
    var last := |events| - 1;
    assert events == events[..last] + [events[last]];
    PendingMoves(events[..last], events[last], n);
    if k < last {
      assert events[..last][k] == events[k];
      assert LastWord(events[..last], k, n.key);
      PendingHasLatestText(events[..last], n, k);
    } else {
      NeverBoth(events[k].body, n.key);
    }
  }

  lemma NeverBoth(body: Body, key: Key)
    ensures Raises(body) == Some(key) ==> Resolves(body) != Some(key)
  {
  }
}
