/**
  The retained durable events: strictly increasing by sequence, searched by
  bisection, merged through a map and an ordering.
 */
module Retention {
  import opened Events

  predicate Increasing(events: seq<Event>) {
    forall i, j :: 0 <= i < j < |events| ==> events[i].sequence < events[j].sequence
  }

  predicate Retains(events: seq<Event>, sequence: nat) {
    exists k :: 0 <= k < |events| && events[k].sequence == sequence
  }

  /** The last event delivered for each sequence. */
  function AsMap(events: seq<Event>): map<nat, Event> {
    if events == [] then map[]
    else AsMap(events[..|events| - 1])[events[|events| - 1].sequence := events[|events| - 1]]
  }

  /** Place one event in sequence order, replacing an event of the same sequence. */
  function Insert(events: seq<Event>, e: Event): seq<Event> {
    if events == [] then [e]
    else
      var n := |events| - 1;
      if events[n].sequence < e.sequence then events + [e]
      else if events[n].sequence == e.sequence then events[..n] + [e]
      else Insert(events[..n], e) + [events[n]]
  }

  function InsertAll(events: seq<Event>, incoming: seq<Event>): seq<Event> {
    if incoming == [] then events
    else Insert(InsertAll(events, incoming[..|incoming| - 1]), incoming[|incoming| - 1])
  }

  /** What a history merge retains: everything delivered, ordered, later deliveries winning. */
  function Merged(current: seq<Event>, incoming: seq<Event>): seq<Event> {
    InsertAll([], current + incoming)
  }

  lemma AsMapAppend(events: seq<Event>, e: Event)
    ensures AsMap(events + [e]) == AsMap(events)[e.sequence := e]
  {
    assert (events + [e])[..|events|] == events;
  }

  /** Every entry of the map is a delivered event under its own sequence. */
  lemma {:induction false} AsMapSound(events: seq<Event>, s: nat)
    requires s in AsMap(events)
    ensures AsMap(events)[s].sequence == s && AsMap(events)[s] in events
  {
    var n := |events| - 1;
    if s != events[n].sequence {
      AsMapSound(events[..n], s);
    }
  }

  lemma {:induction false} AsMapComplete(events: seq<Event>, k: nat)
    requires k < |events|
    ensures events[k].sequence in AsMap(events)
  {
    if k < |events| - 1 {
      assert events[..|events| - 1][k] == events[k];
      AsMapComplete(events[..|events| - 1], k);
    }
  }

  lemma {:induction false} AsMapOfIncreasing(events: seq<Event>, k: nat)
    requires Increasing(events) && k < |events|
    ensures events[k].sequence in AsMap(events) && AsMap(events)[events[k].sequence] == events[k]
  {
    if k < |events| - 1 {
      assert events[..|events| - 1][k] == events[k];
      AsMapOfIncreasing(events[..|events| - 1], k);
    }
  }

  lemma RetainsIsDomain(events: seq<Event>, sequence: nat)
    ensures Retains(events, sequence) <==> sequence in AsMap(events)
  {
    if Retains(events, sequence) {
      var k :| 0 <= k < |events| && events[k].sequence == sequence;
      AsMapComplete(events, k);
    } else if sequence in AsMap(events) {
      AsMapSound(events, sequence);
    }
  }

  ghost predicate AllBelow(events: seq<Event>, bound: nat) {
    forall k :: 0 <= k < |events| ==> events[k].sequence < bound
  }

  lemma IncreasingAppend(events: seq<Event>, e: Event)
    requires Increasing(events) && AllBelow(events, e.sequence)
    ensures Increasing(events + [e])
  {
  }

  lemma {:induction false} InsertBelow(events: seq<Event>, e: Event, bound: nat)
    requires AllBelow(events, bound) && e.sequence < bound
    ensures AllBelow(Insert(events, e), bound)
  {
    if events != [] {
      var n := |events| - 1;
      if e.sequence < events[n].sequence {
        InsertBelow(events[..n], e, bound);
      }
    }
  }

  lemma {:induction false} InsertIncreasing(events: seq<Event>, e: Event)
    requires Increasing(events)
    ensures Increasing(Insert(events, e))
  {
    if events != [] {
      var n := |events| - 1;
      var rest := events[..n];
      if events[n].sequence == e.sequence {
        IncreasingAppend(rest, e);
      } else if e.sequence < events[n].sequence {
        InsertIncreasing(rest, e);
        InsertBelow(rest, e, events[n].sequence);
        IncreasingAppend(Insert(rest, e), events[n]);
      }
    }
  }

  lemma MapSwap<K, V>(m: map<K, V>, a: K, x: V, b: K, y: V)
    requires a != b
    ensures m[a := x][b := y] == m[b := y][a := x]
  {
  }

  lemma MapOverwrite<K, V>(m: map<K, V>, a: K, x: V, y: V)
    ensures m[a := x][a := y] == m[a := y]
  {
  }

  lemma {:induction false} InsertAsMap(events: seq<Event>, e: Event)
    ensures AsMap(Insert(events, e)) == AsMap(events)[e.sequence := e]
  {
    hide AsMap;
    if events == [] {
      assert [] + [e] == [e];
      AsMapAppend([], e);
    } else {
      var n := |events| - 1;
      var rest, last := events[..n], events[n];
      assert rest + [last] == events;
      AsMapAppend(rest, last);
      if last.sequence < e.sequence {
        AsMapAppend(events, e);
      } else if last.sequence == e.sequence {
        AsMapAppend(rest, e);
        MapOverwrite(AsMap(rest), e.sequence, last, e);
      } else {
        InsertAsMap(rest, e);
        AsMapAppend(Insert(rest, e), last);
        MapSwap(AsMap(rest), e.sequence, e, last.sequence, last);
      }
    }
  }

  lemma {:induction false} InsertAllOrders(incoming: seq<Event>)
    ensures Increasing(InsertAll([], incoming))
    ensures AsMap(InsertAll([], incoming)) == AsMap(incoming)
  {
    hide Insert;
    if incoming != [] {
      var n := |incoming| - 1;
      InsertAllOrders(incoming[..n]);
      InsertIncreasing(InsertAll([], incoming[..n]), incoming[n]);
      InsertAsMap(InsertAll([], incoming[..n]), incoming[n]);
    }
  }

  lemma MergedOrders(current: seq<Event>, incoming: seq<Event>)
    ensures Increasing(Merged(current, incoming))
    ensures AsMap(Merged(current, incoming)) == AsMap(current + incoming)
  {
    InsertAllOrders(current + incoming);
  }

  lemma EmptyMap()
    ensures AsMap([]) == map[]
  {
  }

  lemma IncreasingPrefix(a: seq<Event>, n: nat)
    requires Increasing(a) && n <= |a|
    ensures Increasing(a[..n])
  {
  }

  /** An ordered list is determined by what it holds. */
  lemma {:induction false} IncreasingUnique(a: seq<Event>, b: seq<Event>)
    requires Increasing(a) && Increasing(b) && AsMap(a) == AsMap(b)
    ensures a == b
    decreases |a|
  {
    hide AsMap, Increasing;
    EmptyMap();
    if a == [] {
      if b != [] { AsMapComplete(b, 0); }
    } else if b == [] {
      AsMapComplete(a, 0);
    } else {
      var m, n := |a| - 1, |b| - 1;
      SameLast(a, b);
      AsMapWithoutLast(a);
      AsMapWithoutLast(b);
      IncreasingPrefix(a, m);
      IncreasingPrefix(b, n);
      IncreasingUnique(a[..m], b[..n]);
      assert a == a[..m] + [a[m]] && b == b[..n] + [b[n]];
    }
  }

  lemma SameLast(a: seq<Event>, b: seq<Event>)
    requires Increasing(a) && Increasing(b) && a != [] && b != [] && AsMap(a) == AsMap(b)
    ensures a[|a| - 1] == b[|b| - 1]
  {
    LastIsGreatest(a, b);
    LastIsGreatest(b, a);
    AsMapOfIncreasing(a, |a| - 1);
    AsMapOfIncreasing(b, |b| - 1);
  }

  lemma LastIsGreatest(a: seq<Event>, b: seq<Event>)
    requires Increasing(a) && a != [] && b != [] && AsMap(a) == AsMap(b)
    ensures b[|b| - 1].sequence <= a[|a| - 1].sequence
  {
    AsMapComplete(b, |b| - 1);
    RetainsIsDomain(a, b[|b| - 1].sequence);
  }

  lemma AsMapWithoutLast(a: seq<Event>)
    requires Increasing(a) && a != []
    ensures AsMap(a[..|a| - 1]) == AsMap(a) - {a[|a| - 1].sequence}
  {
    var n := |a| - 1;
    if a[n].sequence in AsMap(a[..n]) {
      AsMapSound(a[..n], a[n].sequence);
    }
  }

  /** Merging deliveries that are already retained, event for event, changes nothing. */
  lemma MergedIdempotent(current: seq<Event>, incoming: seq<Event>)
    requires Increasing(current)
    requires forall e :: e in incoming ==> e in current
    ensures Merged(current, incoming) == current
  {
    MergedOrders(current, incoming);
    AsMapAbsorbs(current, incoming);
    IncreasingUnique(Merged(current, incoming), current);
  }

  lemma {:induction false} AsMapAbsorbs(current: seq<Event>, incoming: seq<Event>)
    requires Increasing(current)
    requires forall e :: e in incoming ==> e in current
    ensures AsMap(current + incoming) == AsMap(current)
  {
    if incoming == [] {
      assert current + incoming == current;
    } else {
      var n := |incoming| - 1;
      var e := incoming[n];
      AsMapAbsorbs(current, incoming[..n]);
      assert (current + incoming[..n]) + [e] == current + incoming;
      AsMapAppend(current + incoming[..n], e);
      assert e in incoming;
      var k :| 0 <= k < |current| && current[k] == e;
      AsMapOfIncreasing(current, k);
    }
  }

  /** Bisection answers membership exactly, on the order every reachable state keeps. */
  method RetainsSequence(events: seq<Event>, sequence: nat) returns (found: bool)
    requires Increasing(events)
    ensures found <==> Retains(events, sequence)
  {
    var low, high := 0, |events| - 1;
    while low <= high
      invariant 0 <= low <= high + 1 <= |events|
      invariant forall k :: 0 <= k < |events| && !(low <= k <= high) ==> events[k].sequence != sequence
      decreases high - low + 1
    {
      var mid := (low + high) / 2;
      var at := events[mid].sequence;
      if at == sequence {
        return true;
      }
      if at < sequence {
        low := mid + 1;
      } else {
        high := mid - 1;
      }
    }
    return false;
  }

  /** The map-and-sort merge yields the ordered merge. */
  method MergeEvents(current: seq<Event>, incoming: seq<Event>) returns (r: seq<Event>)
    ensures r == Merged(current, incoming)
  {
    var bySequence: map<nat, Event> := map[];
    var all := current + incoming;
    for i := 0 to |all|
      invariant bySequence == AsMap(all[..i])
    {
      assert all[..i + 1][..i] == all[..i];
      bySequence := bySequence[all[i].sequence := all[i]];
    }
    assert all[..|all|] == all;
    forall s | s in bySequence ensures bySequence[s].sequence == s { AsMapSound(all, s); }
    r := SortValues(bySequence);
    MergedOrders(current, incoming);
    IncreasingUnique(r, Merged(current, incoming));
  }

  lemma ReleaseKey(m: map<nat, Event>, keys: set<nat>, k: nat)
    requires k in keys && k in m
    ensures (m - keys)[k := m[k]] == m - (keys - {k})
  {
  }

  method SortValues(m: map<nat, Event>) returns (r: seq<Event>)
    requires forall s :: s in m ==> m[s].sequence == s
    ensures Increasing(r) && AsMap(r) == m
  {
    hide AsMap;
    EmptyMap();
    r := [];
    var keys := m.Keys;
    while keys != {}
      invariant keys <= m.Keys
      invariant Increasing(r) && AsMap(r) == m - keys
      invariant forall s :: s in keys ==> AllBelow(r, s)
      decreases |keys|
    {
      var least := Least(keys);
      var next := m[least];
      assert AllBelow(r, next.sequence);
      IncreasingAppend(r, next);
      AsMapAppend(r, next);
      ReleaseKey(m, keys, least);
      forall s | s in keys - {least} ensures AllBelow(r + [next], s) {
        assert AllBelow(r, s);
      }
      r, keys := r + [next], keys - {least};
    }
  }

  method Least(keys: set<nat>) returns (least: nat)
    requires keys != {}
    ensures least in keys && forall s :: s in keys ==> least <= s
  {
    least :| least in keys;
    var rest := keys - {least};
    while rest != {}
      invariant least in keys && rest <= keys
      invariant forall s :: s in keys && s !in rest ==> least <= s
      decreases |rest|
    {
      var s :| s in rest;
      if s < least { least := s; }
      rest := rest - {s};
    }
  }
}
