/** What the event clean-up of the handler removes and keeps. */
module CleanupProofs {
  import opened Common
  import opened DerModels
  import opened HandlerSpec

  // ----- removing keys -----

  lemma {:induction false} WithoutOne<T(!new)>(s: seq<T>, x: T)
    requires NoDuplicates(s) && x in s
    ensures |Without(s, x)| == |s| - 1
  {
    if s[0] == x {
      WithoutNone(s[1..], x);
    } else {
      assert x in s[1..];
      WithoutOne(s[1..], x);
    }
  }

  lemma {:induction false} WithoutNone<T(!new)>(s: seq<T>, x: T)
    requires x !in s
    ensures Without(s, x) == s
  {
    if s != [] {
      WithoutNone(s[1..], x);
    }
  }

  lemma {:induction false} RemoveAllExactly(d: Dict<MRID, nat>, keys: seq<MRID>, k: MRID)
    ensures k in RemoveAll(d, keys).vals <==> k in d.vals && k !in keys
    decreases |keys|
  {
    if keys != [] {
      RemoveAllExactly(d.Remove(keys[0]), keys[1..], k);
    }
  }

  lemma {:induction false} RemoveAllKeepsExact(d: Dict<MRID, nat>, keys: seq<MRID>)
    requires d.Exact()
    ensures RemoveAll(d, keys).Exact()
    decreases |keys|
  {
    if keys != [] {
      RemoveKeepsExact(d, keys[0]);
      RemoveAllKeepsExact(d.Remove(keys[0]), keys[1..]);
    }
  }

  lemma {:induction false} RemoveAllCount(d: Dict<MRID, nat>, keys: seq<MRID>)
    requires d.Exact() && NoDuplicates(keys) && forall k :: k in keys ==> k in d.keys
    ensures |RemoveAll(d, keys).keys| == |d.keys| - |keys|
    decreases |keys|
  {
    if keys != [] {
      RemoveKeepsExact(d, keys[0]);
      WithoutOne(d.keys, keys[0]);
      assert keys[0] !in keys[1..];
      RemoveAllCount(d.Remove(keys[0]), keys[1..]);
    }
  }

  lemma {:induction false} StaleKeysExactly(h: Handler, cutoff: int, keys: seq<MRID>, k: MRID)
    requires Wf(h) && forall x :: x in keys ==> x in h.store.vals
    ensures k in StaleKeys(h, cutoff, keys) <==> k in keys && Stale(h.objs[h.store.vals[k]], cutoff)
  {
    if keys != [] {
      StaleKeysExactly(h, cutoff, keys[1..], k);
    }
  }

  // ----- the stable sort -----

  ghost predicate Timed(received: map<MRID, int>, keys: seq<MRID>) {
    forall k :: k in keys ==> k in received
  }

  lemma {:induction false} InsertPermutes(received: map<MRID, int>, sorted: seq<MRID>, k: MRID)
    requires k in received && Timed(received, sorted)
    ensures multiset(InsertByReceived(received, sorted, k)) == multiset(sorted) + multiset{k}
  {
    var last := |sorted| - 1;
    if sorted != [] && received[k] < received[sorted[last]] {
      InsertPermutes(received, sorted[..last], k);
      assert sorted == sorted[..last] + [sorted[last]];
    }
  }

  lemma {:induction false} SortPermutes(received: map<MRID, int>, keys: seq<MRID>)
    requires Timed(received, keys)
    ensures multiset(SortByReceived(received, keys)) == multiset(keys)
  {
    if keys != [] {
      var last := |keys| - 1;
      SortPermutes(received, keys[..last]);
      InsertPermutes(received, SortByReceived(received, keys[..last]), keys[last]);
      assert keys == keys[..last] + [keys[last]];
    }
  }

  lemma SamePermutation(s: seq<MRID>, t: seq<MRID>)
    requires multiset(s) == multiset(t) && NoDuplicates(s)
    ensures NoDuplicates(t)
    ensures forall k :: k in s <==> k in t
  {
    forall k ensures k in s <==> k in t {
      assert k in s <==> k in multiset(s);
      assert k in t <==> k in multiset(t);
    }
    if i, j :| 0 <= i < j < |t| && t[i] == t[j] {
      assert t == t[..i] + [t[i]] + t[i + 1..j] + [t[j]] + t[j + 1..];
      assert multiset(t)[t[i]] >= 2;
      AtMostOnce(s, t[i]);
    }
  }

  lemma {:induction false} AtMostOnce(s: seq<MRID>, x: MRID)
    requires NoDuplicates(s)
    ensures multiset(s)[x] <= 1
  {
    if s != [] {
      AtMostOnce(s[1..], x);
      assert s == [s[0]] + s[1..];
      assert s[0] !in s[1..];
      assert s[0] !in multiset(s[1..]);
    }
  }

  // ----- the place of a key in the order of removal -----

  /** a was stored before b. */
  ghost predicate Earlier(keys: seq<MRID>, a: MRID, b: MRID) {
    exists i, j :: 0 <= i < j < |keys| && keys[i] == a && keys[j] == b
  }

  /** a goes before b: it was received earlier, or at the same time and stored earlier. */
  ghost predicate GoesBefore(received: map<MRID, int>, keys: seq<MRID>, a: MRID, b: MRID)
    requires a in received && b in received
  {
    received[a] < received[b] || (received[a] == received[b] && Earlier(keys, a, b))
  }

  /** How many of the keys go before k. */
  ghost function Place(received: map<MRID, int>, keys: seq<MRID>, k: MRID): nat
    requires Timed(received, keys) && k in received
  {
    |set x | x in keys && GoesBefore(received, keys, x, k)|
  }

  ghost predicate InOrder(received: map<MRID, int>, keys: seq<MRID>, s: seq<MRID>)
    requires Timed(received, s)
  {
    forall i, j :: 0 <= i < j < |s| ==> GoesBefore(received, keys, s[i], s[j])
  }

  lemma {:induction false} InsertKeepsOrder(received: map<MRID, int>, keys: seq<MRID>, s: seq<MRID>, k: MRID)
    requires k in received && Timed(received, s) && InOrder(received, keys, s)
    requires forall x :: x in s ==> Earlier(keys, x, k)
    ensures var r := InsertByReceived(received, s, k); Timed(received, r) && InOrder(received, keys, r)
  {
    hide Earlier;
    var last := |s| - 1;
    var r := InsertByReceived(received, s, k);
    if s != [] && received[k] < received[s[last]] {
      InsertKeepsOrder(received, keys, s[..last], k);
      var front := InsertByReceived(received, s[..last], k);
      forall i | 0 <= i < |front| ensures GoesBefore(received, keys, front[i], s[last]) {
        if front[i] != k {
          assert front[i] in s[..last];
          var j :| 0 <= j < last && s[j] == front[i];
        }
      }
    } else {
      forall i | 0 <= i < |s| ensures GoesBefore(received, keys, s[i], k) {
        assert i < last ==> GoesBefore(received, keys, s[i], s[last]);
        assert s[i] in s;
      }
    }
  }

  lemma EarlierGrows(keys: seq<MRID>, k: MRID, a: MRID, b: MRID)
    requires Earlier(keys, a, b)
    ensures Earlier(keys + [k], a, b)
  {
    var i, j :| 0 <= i < j < |keys| && keys[i] == a && keys[j] == b;
    assert (keys + [k])[i] == a && (keys + [k])[j] == b;
  }

  lemma EarlierThanLast(keys: seq<MRID>, k: MRID, x: MRID)
    requires x in keys
    ensures Earlier(keys + [k], x, k)
  {
    var i :| 0 <= i < |keys| && keys[i] == x;
    assert (keys + [k])[i] == x && (keys + [k])[|keys|] == k;
  }

  lemma {:induction false} SortKeepsOrder(received: map<MRID, int>, keys: seq<MRID>)
    requires Timed(received, keys)
    ensures var r := SortByReceived(received, keys); Timed(received, r) && InOrder(received, keys, r)
  {
    if keys != [] {
      hide Earlier;
      var front, k := keys[..|keys| - 1], keys[|keys| - 1];
      assert keys == front + [k];
      SortKeepsOrder(received, front);
      var s := SortByReceived(received, front);
      forall i, j | 0 <= i < j < |s| ensures GoesBefore(received, keys, s[i], s[j]) {
        assert GoesBefore(received, front, s[i], s[j]);
        if received[s[i]] == received[s[j]] {
          EarlierGrows(front, k, s[i], s[j]);
        }
      }
      forall x | x in s ensures Earlier(keys, x, k) {
        EarlierThanLast(front, k, x);
      }
      InsertKeepsOrder(received, keys, s, k);
    }
  }

  lemma NeverBothWays(received: map<MRID, int>, keys: seq<MRID>, a: MRID, b: MRID)
    requires NoDuplicates(keys) && a in received && b in received && GoesBefore(received, keys, a, b)
    ensures !GoesBefore(received, keys, b, a) && a != b
  {
    if received[a] == received[b] {
      EarlierOneWay(keys, a, b);
    }
  }

  lemma EarlierOneWay(keys: seq<MRID>, a: MRID, b: MRID)
    requires NoDuplicates(keys) && Earlier(keys, a, b)
    ensures !Earlier(keys, b, a) && a != b
  {
    var i, j :| 0 <= i < j < |keys| && keys[i] == a && keys[j] == b;
    forall k, l | 0 <= k < l < |keys| ensures keys[k] != b || keys[l] != a {
    }
  }

  function Elements(s: seq<MRID>): set<MRID> {
    set x | x in s
  }

  lemma {:induction false} CountDistinct(s: seq<MRID>)
    requires NoDuplicates(s)
    ensures |Elements(s)| == |s|
  {
    if s != [] {
      var front, last := s[..|s| - 1], s[|s| - 1];
      CountDistinct(front);
      assert last !in front;
      assert s == front + [last];
      assert Elements(s) == Elements(front) + {last};
    } else {
      assert Elements(s) == {};
    }
  }

  /** The sorted keys stand at their places. */
  lemma PlaceIsIndex(received: map<MRID, int>, keys: seq<MRID>, i: nat)
    requires NoDuplicates(keys) && Timed(received, keys) && i < |keys|
    ensures var s := SortByReceived(received, keys); s[i] in received && Place(received, keys, s[i]) == i
  {
    var s := SortByReceived(received, keys);
    SortKeepsOrder(received, keys);
    SortPermutes(received, keys);
    SamePermutation(keys, s);
    forall x ensures x in keys && GoesBefore(received, keys, x, s[i]) <==> x in s[..i] {
      if x in keys {
        var j :| 0 <= j < |s| && s[j] == x;
        if j < i {
          assert s[..i][j] == x;
        } else if j == i {
          assert x !in s[..i];
          NeverItself(received, keys, x);
        } else {
          NeverBothWays(received, keys, s[i], s[j]);
          assert x !in s[..i];
        }
      }
    }
    assert (set x | x in keys && GoesBefore(received, keys, x, s[i])) == Elements(s[..i]);
    CountDistinct(s[..i]);
  }

  lemma NeverItself(received: map<MRID, int>, keys: seq<MRID>, a: MRID)
    requires NoDuplicates(keys) && a in received
    ensures !GoesBefore(received, keys, a, a)
  {
  }

  /** Exactly which events the limit evicts, whatever their status: those whose place in the order of receipt is below
      the number of events in excess. */
  lemma EvictedExactly(st: Settings, h: Handler, k: MRID)
    requires Wf(h) && h.store.Exact() && k in h.store.vals
    ensures k !in DropExcess(st, h).store.vals <==>
      Place(ReceivedTimes(h), h.store.keys, k) < |h.store.keys| - st.maxTracked
  {
    hide RemoveAll, Without, SortByReceived, Place;
    var received, keys := ReceivedTimes(h), h.store.keys;
    var n := |keys| - st.maxTracked;
    var sorted := SortByReceived(received, keys);
    SortPermutes(received, keys);
    SamePermutation(keys, sorted);
    var i :| 0 <= i < |sorted| && sorted[i] == k;
    PlaceIsIndex(received, keys, i);
    if n > 0 {
      RemoveAllExactly(h.store, sorted[..n], k);
      if i < n {
        assert sorted[..n][i] == k;
      }
    }
  }

  // ----- the clean-up -----

  /** The first n of the sorted keys are no younger than the others. */
  lemma CutIsOldest(received: map<MRID, int>, keys: seq<MRID>, sorted: seq<MRID>, n: nat, k: MRID, kept: MRID)
    requires Timed(received, sorted) && InOrder(received, keys, sorted) && n <= |sorted|
    requires k in sorted[..n] && kept in sorted && kept !in sorted[..n]
    ensures received[k] <= received[kept]
  {
    hide Earlier;
    var i :| 0 <= i < n && sorted[i] == k;
    var j :| 0 <= j < |sorted| && sorted[j] == kept;
    forall a | 0 <= a < n ensures sorted[a] in sorted[..n] {
      assert sorted[..n][a] == sorted[a];
    }
    assert GoesBefore(received, keys, sorted[i], sorted[j]);
  }

  lemma DropOldest(d: Dict<MRID, nat>, received: map<MRID, int>, n: nat)
    requires d.Exact() && Timed(received, d.keys) && n <= |d.keys|
    ensures var left := RemoveAll(d, SortByReceived(received, d.keys)[..n]);
      left.Exact() && |left.keys| == |d.keys| - n
  {
    var sorted := SortByReceived(received, d.keys);
    SortPermutes(received, d.keys);
    SamePermutation(d.keys, sorted);
    RemoveAllKeepsExact(d, sorted[..n]);
    RemoveAllCount(d, sorted[..n]);
  }

  lemma DroppedIsOldest(d: Dict<MRID, nat>, received: map<MRID, int>, n: nat, k: MRID, kept: MRID)
    requires d.Exact() && Timed(received, d.keys) && n <= |d.keys|
    requires k in d.keys && k !in RemoveAll(d, SortByReceived(received, d.keys)[..n]).vals
    requires kept in RemoveAll(d, SortByReceived(received, d.keys)[..n]).vals
    ensures received[k] <= received[kept]
  {
    var sorted := SortByReceived(received, d.keys);
    SortKeepsOrder(received, d.keys);
    SortPermutes(received, d.keys);
    SamePermutation(d.keys, sorted);
    RemoveAllExactly(d, sorted[..n], k);
    RemoveAllExactly(d, sorted[..n], kept);
    CutIsOldest(received, d.keys, sorted, n, k, kept);
  }

  /** The events over the limit go, oldest first, whatever their status: against its comment the code does not
      spare events that are still waiting. */
  lemma ExcessGoesOldestFirst(st: Settings, h: Handler, k: MRID, kept: MRID)
    requires Wf(h) && h.store.Exact()
    ensures var left := DropExcess(st, h).store;
      && left.Exact()
      && |left.keys| == (if |h.store.keys| > st.maxTracked then st.maxTracked else |h.store.keys|)
      && (kept in left.vals ==> kept in h.store.vals)
      && (k in h.store.vals && k !in left.vals && kept in left.vals ==> ReceivedTimes(h)[k] <= ReceivedTimes(h)[kept])
  {
    hide RemoveAll, Without, SortByReceived;
    var n := |h.store.keys|;
    if n > st.maxTracked {
      DropOldest(h.store, ReceivedTimes(h), n - st.maxTracked);
      var left := DropExcess(st, h).store;
      if k in h.store.vals && k !in left.vals && kept in left.vals {
        DroppedIsOldest(h.store, ReceivedTimes(h), n - st.maxTracked, k, kept);
      }
    }
  }

  lemma StaleKeysGo(st: Settings, h: Handler, now: int, k: MRID)
    requires Wf(h) && h.store.Exact()
    ensures DropStale(st, h, now).store.Exact()
    ensures k in DropStale(st, h, now).store.vals <==>
      k in h.store.vals && !Stale(h.objs[h.store.vals[k]], now - st.retention)
  {
    hide RemoveAll, Without, StaleKeys;
    var stale := StaleKeys(h, now - st.retention, h.store.keys);
    StaleKeysExactly(h, now - st.retention, h.store.keys, k);
    RemoveAllKeepsExact(h.store, stale);
    RemoveAllExactly(h.store, stale, k);
  }

  lemma StaleByAge(e: Event, now: int, retention: int)
    ensures !Stale(e, now - retention) <==>
      || e.status in {Pending, Scheduled, Active}
      || e.executed.None? || e.executed.value == 0
      || now <= e.executed.value + retention
  {
    assert e.status.Pending? || e.status.Scheduled? || e.status.Active? || e.status.Completed? || e.status.Cancelled?
      || e.status.Superseded? || e.status.Failed?;
  }

  /** An event is dropped exactly if it has ended and was executed longer ago than the retention time. */
  lemma StaleIsDropped(st: Settings, h: Handler, now: int, k: MRID)
    requires Wf(h) && h.store.Exact()
    ensures DropStale(st, h, now).store.Exact()
    ensures k in DropStale(st, h, now).store.vals <==>
      && k in h.store.vals
      && var e := h.objs[h.store.vals[k]];
         || e.status in {Pending, Scheduled, Active}
         || e.executed.None? || e.executed.value == 0
         || now <= e.executed.value + st.retention
  {
    hide DropStale, Stale;
    StaleKeysGo(st, h, now, k);
    if k in h.store.vals {
      StaleByAge(h.objs[h.store.vals[k]], now, st.retention);
    }
  }

  /** After a clean-up at most maxTracked events are left, none of them stale, and an event k that was removed
      without being stale was received no later than any event that stayed. */
  lemma CleanupResult(st: Settings, h: Handler, now: int, k: MRID, kept: MRID)
    requires Wf(h) && h.store.Exact()
    ensures var left := Cleanup(st, h, now).store;
      && left.Exact() && |left.keys| <= st.maxTracked
      && (kept in left.vals ==> kept in h.store.vals && !Stale(h.objs[h.store.vals[kept]], now - st.retention))
      && (kept in left.vals && k in h.store.vals && k !in left.vals ==>
            Stale(h.objs[h.store.vals[k]], now - st.retention) || ReceivedTimes(h)[k] <= ReceivedTimes(h)[kept])
  {
    StaleKeysGo(st, h, now, k);
    StaleKeysGo(st, h, now, kept);
    ExcessGoesOldestFirst(st, DropStale(st, h, now), k, kept);
  }
}
