/**
  Notifications for work that blocks a human: approvals and questions.  A replayed
  range is folded to what is still pending; each key is announced once, as far as a
  bounded first-in-first-out memory of 512 keys can tell.
 */
module Notifier {
  import opened Events
  import opened Folds
  import opened Store

  datatype Key = ApprovalKey(id: string) | QuestionKey(id: string)

  datatype Notice = Notice(key: Key, body: string)

  const CAPACITY: nat := 512

  function WorkOf(e: Event): Option<Notice> {
    match e.body
    case ApprovalRequested(id, action) => Some(Notice(ApprovalKey(id), action))
    case QuestionAsked(id, _, prompts) => Some(Notice(QuestionKey(id), if prompts == [] then "" else prompts[0]))
    case _ => None
  }

  function ResolvedBy(e: Event): Option<Key> {
    match e.body
    case ApprovalResolved(id) => Some(ApprovalKey(id))
    case QuestionResolved(id, _) => Some(QuestionKey(id))
    case _ => None
  }

  // ----- folding a replayed range

  predicate Holds(notices: seq<Notice>, key: Key) {
    exists k :: 0 <= k < |notices| && notices[k].key == key
  }

  predicate DistinctKeys(notices: seq<Notice>) {
    forall i, j :: 0 <= i < j < |notices| ==> notices[i].key != notices[j].key
  }

  /** A map entry keeps its place when it is set again. */
  function Put(notices: seq<Notice>, n: Notice): seq<Notice> {
    if Holds(notices, n.key) then
      seq(|notices|, k requires 0 <= k < |notices| => if notices[k].key == n.key then n else notices[k])
    else notices + [n]
  }

  function Drop(notices: seq<Notice>, key: Key): seq<Notice> {
    if notices == [] then []
    else
      var rest, last := Drop(notices[..|notices| - 1], key), notices[|notices| - 1];
      if last.key == key then rest else rest + [last]
  }

  function Absorb(pending: seq<Notice>, e: Event): seq<Notice> {
    if WorkOf(e).Some? then Put(pending, WorkOf(e).value)
    else if ResolvedBy(e).Some? then Drop(pending, ResolvedBy(e).value)
    else pending
  }

  /** What a range of events leaves blocking a human. */
  function Pending(events: seq<Event>): seq<Notice> {
    if events == [] then []
    else Absorb(Pending(events[..|events| - 1]), events[|events| - 1])
  }

  lemma PutHolds(notices: seq<Notice>, n: Notice, key: Key)
    ensures Holds(Put(notices, n), key) <==> Holds(notices, key) || key == n.key
    ensures DistinctKeys(notices) ==> DistinctKeys(Put(notices, n))
  {
    var r := Put(notices, n);
    if Holds(notices, n.key) {
      assert forall k :: 0 <= k < |notices| ==> r[k].key == notices[k].key;
      if Holds(notices, key) {
        var k :| 0 <= k < |notices| && notices[k].key == key;
        assert r[k].key == key;
      }
      if key == n.key {
        var k :| 0 <= k < |notices| && notices[k].key == n.key;
        assert r[k].key == key;
      }
    } else {
      assert r[|notices|].key == n.key;
      if Holds(notices, key) {
        var k :| 0 <= k < |notices| && notices[k].key == key;
        assert r[k].key == key;
      }
    }
  }

  lemma {:induction false} DropHolds(notices: seq<Notice>, dropped: Key, key: Key)
    ensures Holds(Drop(notices, dropped), key) <==> Holds(notices, key) && key != dropped
  {
    if notices != [] {
      var n := |notices| - 1;
      var rest, last := Drop(notices[..n], dropped), notices[n];
      DropHolds(notices[..n], dropped, key);
      HoldsSplit(notices[..n], last, key);
      assert notices[..n] + [last] == notices;
      HoldsSplit(rest, last, key);
    }
  }

  lemma HoldsSplit(notices: seq<Notice>, last: Notice, key: Key)
    ensures Holds(notices + [last], key) <==> Holds(notices, key) || last.key == key
  {
    var all := notices + [last];
    if Holds(notices, key) {
      var k :| 0 <= k < |notices| && notices[k].key == key;
      assert all[k].key == key;
    }
    if last.key == key {
      assert all[|notices|].key == key;
    }
  }

  lemma {:induction false} DropDistinct(notices: seq<Notice>, dropped: Key)
    requires DistinctKeys(notices)
    ensures DistinctKeys(Drop(notices, dropped))
  {
    if notices != [] {
      var n := |notices| - 1;
      DropDistinct(notices[..n], dropped);
      DropHolds(notices[..n], dropped, notices[n].key);
      assert !Holds(notices[..n], notices[n].key);
      var rest := Drop(notices[..n], dropped);
      assert forall k :: 0 <= k < |rest| ==> rest[k].key != notices[n].key;
    }
  }

  /** The fold never holds a key twice. */
  lemma {:induction false} PendingDistinct(events: seq<Event>)
    ensures DistinctKeys(Pending(events))
  {
    if events != [] {
      var n := |events| - 1;
      PendingDistinct(events[..n]);
      var e, before := events[n], Pending(events[..n]);
      if WorkOf(e).Some? {
        PutHolds(before, WorkOf(e).value, WorkOf(e).value.key);
      } else if ResolvedBy(e).Some? {
        DropDistinct(before, ResolvedBy(e).value);
      }
    }
  }

  /** A key is pending after one more event exactly when it is raised, or was pending and is not resolved. */
  lemma PendingStep(events: seq<Event>, e: Event, key: Key)
    ensures Holds(Pending(events + [e]), key) <==>
              (WorkOf(e).Some? && WorkOf(e).value.key == key)
              || (Holds(Pending(events), key) && ResolvedBy(e) != Some(key))
  {
    assert (events + [e])[..|events|] == events;
    if WorkOf(e).Some? {
      PutHolds(Pending(events), WorkOf(e).value, key);
    } else if ResolvedBy(e).Some? {
      DropHolds(Pending(events), ResolvedBy(e).value, key);
    }
  }

  // ----- the bounded memory

  /** Add a key to an insertion-ordered set, then evict the oldest beyond capacity. */
  function Remember(memory: seq<Key>, key: Key): (r: seq<Key>)
    ensures |memory| <= CAPACITY ==> |r| <= CAPACITY
  {
    var added := if key in memory then memory else memory + [key];
    if |added| > CAPACITY then added[|added| - CAPACITY..] else added
  }

  function RememberAll(memory: seq<Key>, keys: seq<Key>): seq<Key> {
    if keys == [] then memory
    else Remember(RememberAll(memory, keys[..|keys| - 1]), keys[|keys| - 1])
  }

  function KeysOf(notices: seq<Notice>): (r: seq<Key>)
    ensures |r| == |notices| && forall k :: 0 <= k < |r| ==> r[k] == notices[k].key
  {
    seq(|notices|, k requires 0 <= k < |notices| => notices[k].key)
  }

  /** What the notifier remembers, and every key it ever announced, in order. */
  datatype Memory = Memory(notified: seq<Key>, resolved: seq<Key>, announced: seq<Key>)

  const FORGETFUL := Memory([], [], [])

  function Unheard(m: Memory, notices: seq<Notice>): (r: seq<Notice>)
    ensures forall n :: n in r ==> n in notices && n.key !in m.notified && n.key !in m.resolved
  {
    if notices == [] then []
    else
      var rest, last := Unheard(m, notices[..|notices| - 1]), notices[|notices| - 1];
      if last.key !in m.notified && last.key !in m.resolved then rest + [last] else rest
  }

  /** Announce a batch: everything fresh, in one notification. */
  function Announce(m: Memory, notices: seq<Notice>): Memory {
    var keys := KeysOf(Unheard(m, notices));
    m.(notified := RememberAll(m.notified, keys), announced := m.announced + keys)
  }

  function Resolutions(events: seq<Event>): seq<Key> {
    if events == [] then []
    else
      var rest, key := Resolutions(events[..|events| - 1]), ResolvedBy(events[|events| - 1]);
      if key.Some? then rest + [key.value] else rest
  }

  function ObserveReplay(m: Memory, events: seq<Event>): Memory {
    Announce(m.(resolved := RememberAll(m.resolved, Resolutions(events))), Pending(events))
  }

  function SnapshotNotices(approvals: seq<PendingApproval>): seq<Notice> {
    seq(|approvals|, k requires 0 <= k < |approvals| => Notice(ApprovalKey(approvals[k].approvalId), approvals[k].text))
  }

  function Observe(m: Memory, frame: Frame): Memory {
    match frame
    case EventFrame(_, e) =>
      if ResolvedBy(e).Some? then m.(resolved := Remember(m.resolved, ResolvedBy(e).value))
      else if WorkOf(e).Some? then Announce(m, [WorkOf(e).value])
      else m
    case HistoryFrame(_, _, events) => ObserveReplay(m, events)
    case CatchupFrame(_, EventRange(events, _)) => ObserveReplay(m, events)
    case CatchupFrame(_, Compacted(_, approvals, _, _)) => Announce(m, SnapshotNotices(approvals))
    case CatchupFrame(_, UnknownSnapshot) => m
    case DisconnectedFrame => m
    case UnscopedFrame => m
  }

  /** A snapshot lists an approval once. */
  predicate WellFormed(frame: Frame) {
    frame.CatchupFrame? && frame.snapshot.Compacted? ==> DistinctKeys(SnapshotNotices(frame.snapshot.approvals))
  }

  function ObserveAll(m: Memory, frames: seq<Frame>): Memory {
    FoldLeft(Observe, m, frames)
  }

  // ----- announce once, within the memory

  predicate Unique(keys: seq<Key>) {
    forall i, j :: 0 <= i < j < |keys| ==> keys[i] != keys[j]
  }

  /** The memory's window: the most recent entries of a log. */
  function Recent(log: seq<Key>): (r: seq<Key>)
    ensures |r| <= CAPACITY && |r| <= |log|
  {
    if |log| > CAPACITY then log[|log| - CAPACITY..] else log
  }

  /** Equal announcements lie more than a whole memory apart. */
  predicate Spaced(log: seq<Key>) {
    forall i, j :: 0 <= i < j < |log| && log[i] == log[j] ==> j - i > CAPACITY
  }

  ghost predicate Sound(m: Memory) {
    && m.notified == Recent(m.announced)
    && |m.resolved| <= CAPACITY
    && Spaced(m.announced)
  }

  /** Remembering keys outside the window slides it along the log. */
  lemma {:induction false} WindowSlides(log: seq<Key>, keys: seq<Key>)
    requires Unique(keys)
    requires forall k :: 0 <= k < |keys| ==> keys[k] !in Recent(log)
    ensures RememberAll(Recent(log), keys) == Recent(log + keys)
  {
    if keys == [] {
      assert log + keys == log;
    } else {
      var n := |keys| - 1;
      var before, key := log + keys[..n], keys[n];
      WindowSlides(log, keys[..n]);
      assert log + keys == before + [key];
      assert key !in Recent(before) by { OutsideWindow(log, keys); }
      RememberSlides(before, key);
    }
  }

  lemma RememberSlides(log: seq<Key>, key: Key)
    requires key !in Recent(log)
    ensures Remember(Recent(log), key) == Recent(log + [key])
  {
    var r := Recent(log);
    var start := |log| - |r|;
    assert log[start..] == r;
    assert r + [key] == (log + [key])[start..];
  }

  lemma OutsideWindow(log: seq<Key>, keys: seq<Key>)
    requires keys != [] && Unique(keys)
    requires forall k :: 0 <= k < |keys| ==> keys[k] !in Recent(log)
    ensures keys[|keys| - 1] !in Recent(log + keys[..|keys| - 1])
  {
    var n := |keys| - 1;
    var before := log + keys[..n];
    var r := Recent(before);
    var start := |before| - |r|;
    forall i | 0 <= i < |r| ensures r[i] != keys[n] {
      assert r[i] == before[start + i];
      if start + i < |log| {
        var w := Recent(log);
        assert w[start + i - (|log| - |w|)] == log[start + i];
      }
    }
  }

  lemma InWindow(log: seq<Key>, i: nat)
    requires |log| - |Recent(log)| <= i < |log|
    ensures log[i] in Recent(log)
  {
    assert Recent(log)[i - (|log| - |Recent(log)|)] == log[i];
  }

  lemma SpacedExtends(log: seq<Key>, keys: seq<Key>)
    requires Spaced(log) && Unique(keys)
    requires forall k :: 0 <= k < |keys| ==> keys[k] !in Recent(log)
    ensures Spaced(log + keys)
  {
    var all := log + keys;
    forall i, j | 0 <= i < j < |all| && all[i] == all[j] ensures j - i > CAPACITY {
      if j >= |log| && i < |log| {
        assert all[j] == keys[j - |log|];
        if i >= |log| - |Recent(log)| { InWindow(log, i); }
      }
    }
  }

  lemma {:induction false} UnheardUnique(m: Memory, notices: seq<Notice>)
    requires DistinctKeys(notices)
    ensures Unique(KeysOf(Unheard(m, notices)))
  {
    if notices != [] {
      var n := |notices| - 1;
      UnheardUnique(m, notices[..n]);
      var rest := Unheard(m, notices[..n]);
      forall k | 0 <= k < |rest| ensures rest[k].key != notices[n].key {
        assert rest[k] in notices[..n];
      }
    }
  }

  lemma AnnounceSound(m: Memory, notices: seq<Notice>)
    requires Sound(m) && DistinctKeys(notices)
    ensures Sound(Announce(m, notices))
  {
    var fresh_ := Unheard(m, notices);
    var keys := KeysOf(fresh_);
    UnheardUnique(m, notices);
    forall k | 0 <= k < |keys| ensures keys[k] !in Recent(m.announced) {
      assert fresh_[k] in fresh_;
    }
    WindowSlides(m.announced, keys);
    SpacedExtends(m.announced, keys);
  }

  lemma {:induction false} RememberAllBounded(memory: seq<Key>, keys: seq<Key>)
    requires |memory| <= CAPACITY
    ensures |RememberAll(memory, keys)| <= CAPACITY
  {
    if keys != [] {
      RememberAllBounded(memory, keys[..|keys| - 1]);
    }
  }

  lemma ObserveSound(m: Memory, frame: Frame)
    requires Sound(m) && WellFormed(frame)
    ensures Sound(Observe(m, frame))
  {
    hide Announce, Sound;
    match frame {
      case EventFrame(_, e) =>
        if ResolvedBy(e).Some? { ResolveOneSound(m, ResolvedBy(e).value); }
        else if WorkOf(e).Some? { AnnounceSound(m, [WorkOf(e).value]); }
      case HistoryFrame(_, _, events) => ReplaySound(m, events);
      case CatchupFrame(_, EventRange(events, _)) => ReplaySound(m, events);
      case CatchupFrame(_, Compacted(_, approvals, _, _)) => AnnounceSound(m, SnapshotNotices(approvals));
      case _ =>
    }
  }

  lemma ResolveOneSound(m: Memory, key: Key)
    requires Sound(m)
    ensures Sound(m.(resolved := Remember(m.resolved, key)))
  {
  }

  lemma ResolveSound(m: Memory, keys: seq<Key>)
    requires Sound(m)
    ensures Sound(m.(resolved := RememberAll(m.resolved, keys)))
  {
    RememberAllBounded(m.resolved, keys);
  }

  lemma ReplaySound(m: Memory, events: seq<Event>)
    requires Sound(m)
    ensures Sound(ObserveReplay(m, events))
  {
    ResolveSound(m, Resolutions(events));
    PendingDistinct(events);
    AnnounceSound(m.(resolved := RememberAll(m.resolved, Resolutions(events))), Pending(events));
  }

  lemma {:induction false} RunSound(frames: seq<Frame>)
    requires forall k :: 0 <= k < |frames| ==> WellFormed(frames[k])
    ensures Sound(ObserveAll(FORGETFUL, frames))
  {
    hide Observe;
    if frames != [] {
      var n := |frames| - 1;
      RunSound(frames[..n]);
      ObserveSound(ObserveAll(FORGETFUL, frames[..n]), frames[n]);
    }
  }

  function Elements(keys: seq<Key>): set<Key> { set k | k in keys }

  lemma {:induction false} UniqueCount(keys: seq<Key>)
    requires Unique(keys)
    ensures |Elements(keys)| == |keys|
  {
    if keys != [] {
      var n := |keys| - 1;
      UniqueCount(keys[..n]);
      assert keys == keys[..n] + [keys[n]];
      assert Elements(keys) == Elements(keys[..n]) + {keys[n]};
    }
  }

  /** Memory stays bounded over every run of frames. */
  lemma MemoryBounded(frames: seq<Frame>)
    requires forall k :: 0 <= k < |frames| ==> WellFormed(frames[k])
    ensures |ObserveAll(FORGETFUL, frames).notified| <= 512
    ensures |ObserveAll(FORGETFUL, frames).resolved| <= 512
  {
    RunSound(frames);
  }

  /** A key is announced again only after 512 other distinct keys were announced in between. */
  lemma AnnouncedOnce(frames: seq<Frame>, i: nat, j: nat)
    requires forall k :: 0 <= k < |frames| ==> WellFormed(frames[k])
    requires i < j < |ObserveAll(FORGETFUL, frames).announced|
    requires ObserveAll(FORGETFUL, frames).announced[i] == ObserveAll(FORGETFUL, frames).announced[j]
    ensures var log := ObserveAll(FORGETFUL, frames).announced;
            |Elements(log[i + 1..j]) - {log[i]}| >= 512
  {
    RunSound(frames);
    var log := ObserveAll(FORGETFUL, frames).announced;
    OthersBetween(log, i, j);
  }

  lemma OthersBetween(log: seq<Key>, i: nat, j: nat)
    requires Spaced(log) && i < j < |log| && log[i] == log[j]
    ensures |Elements(log[i + 1..j]) - {log[i]}| >= CAPACITY
  {
    var window := log[i + 1..i + 1 + CAPACITY];
    assert Unique(window) by {
      forall a, b | 0 <= a < b < |window| ensures window[a] != window[b] {
        assert window[a] == log[i + 1 + a] && window[b] == log[i + 1 + b];
      }
    }
    UniqueCount(window);
    var others := Elements(log[i + 1..j]) - {log[i]};
    forall k | k in window ensures k in others {
      var a :| 0 <= a < |window| && window[a] == k;
      assert log[i + 1..j][a] == k;
      assert log[i + 1 + a] == k;
    }
    SubsetCount(Elements(window), others);
  }

  lemma SubsetCount(a: set<Key>, b: set<Key>)
    requires a <= b
    ensures |a| <= |b|
  {
    assert b == a + (b - a);
  }

  /** Nothing remembered as resolved, and nothing still remembered as announced, is announced. */
  lemma AnnouncesOnlyNews(m: Memory, notices: seq<Notice>)
    ensures var m' := Announce(m, notices);
            && m.announced <= m'.announced
            && (forall k :: |m.announced| <= k < |m'.announced| ==>
                  m'.announced[k] !in m.resolved && m'.announced[k] !in m.notified && Holds(notices, m'.announced[k]))
  {
    var news := Unheard(m, notices);
    var m' := Announce(m, notices);
    forall k | |m.announced| <= k < |m'.announced|
      ensures m'.announced[k] !in m.resolved && m'.announced[k] !in m.notified && Holds(notices, m'.announced[k])
    {
      assert news[k - |m.announced|] in news;
    }
  }

  /** Whatever the frame, a key that is remembered as resolved after it was not announced by it. */
  lemma ResolvedStaysSilent(m: Memory, frame: Frame)
    ensures var m' := Observe(m, frame);
            && m.announced <= m'.announced
            && (forall k :: |m.announced| <= k < |m'.announced| ==>
                  m'.announced[k] !in m'.resolved && m'.announced[k] !in m.notified)
  {
    hide Announce;
    match frame {
      case EventFrame(_, e) => if WorkOf(e).Some? { AnnounceSilent(m, [WorkOf(e).value]); }
      case HistoryFrame(_, _, events) =>
        AnnounceSilent(m.(resolved := RememberAll(m.resolved, Resolutions(events))), Pending(events));
      case CatchupFrame(_, EventRange(events, _)) =>
        AnnounceSilent(m.(resolved := RememberAll(m.resolved, Resolutions(events))), Pending(events));
      case CatchupFrame(_, Compacted(_, approvals, _, _)) => AnnounceSilent(m, SnapshotNotices(approvals));
      case _ =>
    }
  }

  lemma AnnounceSilent(m: Memory, notices: seq<Notice>)
    ensures var m' := Announce(m, notices);
            && m.announced <= m'.announced && m'.resolved == m.resolved
            && (forall k :: |m.announced| <= k < |m'.announced| ==>
                  m'.announced[k] !in m.resolved && m'.announced[k] !in m.notified)
  {
    AnnouncesOnlyNews(m, notices);
  }

  /** Conversely a pending key the memory does not hold is announced. */
  lemma {:induction false} NewsIsAnnounced(m: Memory, notices: seq<Notice>, k: nat)
    requires k < |notices| && notices[k].key !in m.notified && notices[k].key !in m.resolved
    ensures notices[k] in Unheard(m, notices)
  {
    var n := |notices| - 1;
    if k < n {
      assert notices[..n][k] == notices[k];
      NewsIsAnnounced(m, notices[..n], k);
    }
  }

  // ----- the notifier object

  /** The eviction loop of the remembered set. */
  method RememberKey(memory: seq<Key>, key: Key) returns (r: seq<Key>)
    ensures r == Remember(memory, key)
  {
    r := if key in memory then memory else memory + [key];
    ghost var added := r;
    while |r| > CAPACITY
      invariant |r| <= |added|
      invariant r == added[|added| - |r|..]
      invariant |added| > CAPACITY ==> |r| >= CAPACITY
      invariant |added| <= CAPACITY ==> r == added
    {
      r := r[1..];
    }
  }

  method PendingBlockingWork(events: seq<Event>) returns (pending: seq<Notice>)
    ensures pending == Pending(events) && DistinctKeys(pending)
  {
    pending := [];
    for i := 0 to |events|
      invariant pending == Pending(events[..i])
    {
      assert events[..i + 1][..i] == events[..i];
      var work := WorkOf(events[i]);
      if work.Some? {
        pending := Put(pending, work.value);
      } else {
        var resolved := ResolvedBy(events[i]);
        if resolved.Some? { pending := Drop(pending, resolved.value); }
      }
    }
    assert events[..|events|] == events;
    PendingDistinct(events);
  }

  class BlockingWorkNotifier {
    var notified: seq<Key>
    var resolved: seq<Key>
    /** The batches handed to the notification sink, one notification each. */
    var sent: seq<seq<Notice>>

    ghost function Announced(batches: seq<seq<Notice>>): seq<Key> {
      if batches == [] then [] else Announced(batches[..|batches| - 1]) + KeysOf(batches[|batches| - 1])
    }

    ghost function Remembers(): Memory
      reads this
    {
      Memory(notified, resolved, Announced(sent))
    }

    constructor ()
      ensures Remembers() == FORGETFUL
    {
      notified, resolved, sent := [], [], [];
    }

    method ObserveFrame(frame: Frame)
      modifies this
      ensures Remembers() == Observe(old(Remembers()), frame)
    {
      match frame {
        case EventFrame(_, e) =>
          var key := ResolvedBy(e);
          if key.Some? {
            resolved := RememberKey(resolved, key.value);
          } else {
            var work := WorkOf(e);
            if work.Some? { AnnounceBatch([work.value]); }
          }
        case HistoryFrame(_, _, events) => ReplayRange(events);
        case CatchupFrame(_, EventRange(events, _)) => ReplayRange(events);
        case CatchupFrame(_, Compacted(_, approvals, _, _)) => AnnounceBatch(SnapshotNotices(approvals));
        case _ =>
      }
    }

    method ReplayRange(events: seq<Event>)
      modifies this
      ensures Remembers() == ObserveReplay(old(Remembers()), events)
    {
      for i := 0 to |events|
        invariant resolved == RememberAll(old(resolved), Resolutions(events[..i]))
        invariant notified == old(notified) && sent == old(sent)
      {
        assert events[..i + 1][..i] == events[..i];
        var key := ResolvedBy(events[i]);
        if key.Some? {
          ghost var before := Resolutions(events[..i]);
          assert (before + [key.value])[..|before|] == before;
          resolved := RememberKey(resolved, key.value);
        }
      }
      assert events[..|events|] == events;
      var pending := PendingBlockingWork(events);
      AnnounceBatch(pending);
    }

    /** Send what is fresh: a backlog is one notification, and nothing fresh is none. */
    method AnnounceBatch(notices: seq<Notice>)
      modifies this
      ensures Remembers() == Announce(old(Remembers()), notices)
      ensures resolved == old(resolved)
      ensures sent == old(sent) || (exists batch :: batch != [] && sent == old(sent) + [batch])
    {
      var news := Unheard(Memory(notified, resolved, []), notices);
      UnheardIgnoresLog(Memory(notified, resolved, []), Remembers(), notices);
      if news == [] {
        assert Announced(sent) + KeysOf(news) == Announced(sent);
        return;
      }
      var keys := KeysOf(news);
      for i := 0 to |keys|
        invariant notified == RememberAll(old(notified), keys[..i])
        invariant resolved == old(resolved) && sent == old(sent)
      {
        assert keys[..i + 1][..i] == keys[..i];
        notified := RememberKey(notified, keys[i]);
      }
      assert keys[..|keys|] == keys;
      sent := sent + [news];
      assert sent[..|sent| - 1] == old(sent);
    }
  }

  lemma {:induction false} UnheardIgnoresLog(a: Memory, b: Memory, notices: seq<Notice>)
    requires a.notified == b.notified && a.resolved == b.resolved
    ensures Unheard(a, notices) == Unheard(b, notices)
  {
    if notices != [] {
      UnheardIgnoresLog(a, b, notices[..|notices| - 1]);
    }
  }
}
