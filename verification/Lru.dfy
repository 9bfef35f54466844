/**
 Recency: what a bounded least-recently-used structure should hold, said without one.
 Sequences of keys are ordered oldest first, as in an insertion-ordered dictionary.
 */
module Recency {
  import opened Common

  /** `s` with every occurrence of `k` removed. */
  function Without<K(==)>(s: seq<K>, k: K): seq<K> {
    if s == [] then [] else Without(s[..|s| - 1], k) + (if s[|s| - 1] == k then [] else [s[|s| - 1]])
  }

  /** Move `k` to the newest position, adding it when absent. */
  function Touch<K(==)>(s: seq<K>, k: K): seq<K> {
    Without(s, k) + [k]
  }

  ghost function Newest<K>(s: seq<K>, n: nat): seq<K> {
    if |s| <= n then s else s[|s| - n..]
  }

  /** The distinct keys of a history of touches, ordered by their last touch. */
  ghost function ByLastTouch<K>(history: seq<K>): seq<K> {
    if history == [] then [] else Touch(ByLastTouch(history[..|history| - 1]), history[|history| - 1])
  }

  lemma {:induction false} WithoutConcat<K>(s: seq<K>, t: seq<K>, k: K)
    ensures Without(s + t, k) == Without(s, k) + Without(t, k)
  {
    if t == [] {
      assert s + t == s;
    } else {
      WithoutConcat(s, t[..|t| - 1], k);
      assert (s + t)[..|s + t| - 1] == s + t[..|t| - 1];
    }
  }

  lemma {:induction false} WithoutAbsent<K>(s: seq<K>, k: K)
    requires k !in s
    ensures Without(s, k) == s
  {
    if s != [] {
      WithoutAbsent(s[..|s| - 1], k);
      assert s == s[..|s| - 1] + [s[|s| - 1]];
    }
  }

  lemma {:induction false} WithoutElems<K>(s: seq<K>, k: K)
    ensures Elems(Without(s, k)) == Elems(s) - {k}
  {
    if s != [] {
      var init, last := s[..|s| - 1], s[|s| - 1];
      WithoutElems(init, k);
      assert s == init + [last];
      ElemsConcat(init, [last]);
      ElemsConcat(Without(init, k), if last == k then [] else [last]);
    }
  }

  lemma WithoutMiddle<K>(front: seq<K>, k: K, back: seq<K>)
    requires k !in front && k !in back
    ensures Without(front + [k] + back, k) == front + back
  {
    assert Without(front + [k], k) == front by {
      assert (front + [k])[..|front|] == front;
      WithoutAbsent(front, k);
    }
    WithoutAbsent(back, k);
    WithoutConcat(front + [k], back, k);
  }

  /** In a sequence without repetition, removing a member takes out its one position. */
  lemma WithoutSplit<K>(s: seq<K>, k: K) returns (front: seq<K>, back: seq<K>)
    requires Distinct(s) && k in s
    ensures s == front + [k] + back && Without(s, k) == front + back
  {
    var i :| 0 <= i < |s| && s[i] == k;
    front, back := s[..i], s[i + 1..];
    assert s == front + [k] + back;
    WithoutMiddle(front, k, back);
  }

  lemma TouchDistinct<K>(s: seq<K>, k: K)
    requires Distinct(s)
    ensures Distinct(Touch(s, k)) && Elems(Touch(s, k)) == Elems(s) + {k}
    ensures |Touch(s, k)| == if k in s then |s| else |s| + 1
  {
    if k in s {
      var front, back := WithoutSplit(s, k);
      assert Distinct(front + back) by {
        assert forall i :: 0 <= i < |front| ==> front[i] == s[i];
        assert forall i :: 0 <= i < |back| ==> back[i] == s[|front| + 1 + i];
      }
    } else {
      WithoutAbsent(s, k);
    }
    WithoutElems(s, k);
    assert k !in Elems(Without(s, k));
    ElemsConcat(Without(s, k), [k]);
  }

  lemma {:induction false} ByLastTouchDistinct<K>(history: seq<K>)
    ensures Distinct(ByLastTouch(history)) && Elems(ByLastTouch(history)) == Elems(history)
  {
    if history != [] {
      var init := history[..|history| - 1];
      ByLastTouchDistinct(init);
      TouchDistinct(ByLastTouch(init), history[|history| - 1]);
      assert history == init + [history[|history| - 1]];
    }
  }

  /** Dropping all but the newest n keys before a touch loses nothing that is kept after it. */
  lemma TruncateThenTouch<K>(s: seq<K>, k: K, n: nat)
    requires Distinct(s)
    ensures Newest(Touch(Newest(s, n), k), n) == Newest(Touch(s, k), n)
  {
    if n < |s| {
      var stale, recent := s[..|s| - n], s[|s| - n..];
      assert s == stale + recent;
      WithoutConcat(stale, recent, k);
      assert Touch(s, k) == Without(stale, k) + Touch(recent, k);
      TouchDistinct(recent, k);
      if k in recent {
        assert k !in stale by { assert forall i :: 0 <= i < |stale| ==> stale[i] == s[i]; }
        WithoutAbsent(stale, k);
      }
      NewestOfConcat(Without(stale, k), Touch(recent, k), n);
    }
  }

  lemma NewestOfConcat<K>(s: seq<K>, t: seq<K>, n: nat)
    requires |t| >= n
    ensures Newest(s + t, n) == Newest(t, n)
  {
    assert (s + t)[|s + t| - n..] == t[|t| - n..];
  }

  lemma NewestDistinct<K>(s: seq<K>, n: nat)
    requires Distinct(s)
    ensures Distinct(Newest(s, n))
  {
  }

  /** One more touch, seen through a window of the newest c keys. */
  lemma AppendTouch<K>(history: seq<K>, k: K, c: nat)
    ensures Distinct(Newest(ByLastTouch(history), c))
    ensures Newest(ByLastTouch(history + [k]), c) == Newest(Touch(Newest(ByLastTouch(history), c), k), c)
  {
    assert (history + [k])[..|history|] == history;
    ByLastTouchDistinct(history);
    NewestDistinct(ByLastTouch(history), c);
    TruncateThenTouch(ByLastTouch(history), k, c);
  }

  ghost function DistinctCount<K>(s: seq<K>): nat {
    |Elems(s)|
  }

  /** Position i holds the last touch of `k`. */
  ghost predicate LastTouchAt<K>(history: seq<K>, k: K, i: nat) {
    i < |history| && history[i] == k && k !in history[i + 1..]
  }

  ghost function LastIndex<K>(history: seq<K>, k: K): (i: nat)
    requires k in history
    ensures LastTouchAt(history, k, i)
  {
    var n := |history| - 1;
    if history[n] == k then n
    else
      var i := LastIndex(history[..n], k);
      assert history[i + 1..] == history[..n][i + 1..] + [history[n]];
      i
  }

  /** `k` was touched, and fewer than c distinct keys have been touched since. */
  ghost predicate WithinDistance<K>(history: seq<K>, k: K, c: nat) {
    k in history && DistinctCount(history[LastIndex(history, k) + 1..]) < c
  }

  lemma LastTouchUnique<K>(history: seq<K>, k: K, i: nat)
    requires LastTouchAt(history, k, i)
    ensures k in history && LastIndex(history, k) == i
  {
    assert forall p :: i < p < |history| ==> history[i + 1..][p - i - 1] == history[p];
  }

  lemma LastIndexStep<K>(history: seq<K>, last: K, k: K)
    requires k in history || k == last
    ensures k in history + [last] && LastIndex(history + [last], k) == if k == last then |history|
            else LastIndex(history, k)
  {
    assert (history + [last])[..|history|] == history;
    assert (history + [last])[|history|] == last;
  }

  /** Touching a key other than the one at p leaves that one in front of the touched tail. */
  lemma TouchKeepsTail<K>(s: seq<K>, p: nat, k: K)
    requires Distinct(s) && p < |s| && s[p] != k
    ensures var tail, r := Touch(s[p + 1..], k), Touch(s, k);
            |tail| < |r| && r[|r| - 1 - |tail|] == s[p] && r[|r| - |tail|..] == tail
            && Distinct(tail) && Elems(tail) == Elems(s[p + 1..]) + {k} && |tail| == |Elems(tail)|
  {
    var back := s[p + 1..];
    TouchSplits(s, p, k);
    SplitPositions(Without(s[..p], k), s[p], Touch(back, k));
    TouchDistinct(back, k);
    DistinctCardinality(Touch(back, k));
  }

  lemma TouchSplits<K>(s: seq<K>, p: nat, k: K)
    requires p < |s| && s[p] != k
    ensures Touch(s, k) == Without(s[..p], k) + [s[p]] + Touch(s[p + 1..], k)
  {
    var front, back := s[..p + 1], s[p + 1..];
    assert s == front + back;
    WithoutConcat(front, back, k);
    assert front[..p] == s[..p] && front[p] == s[p];
  }

  lemma SplitPositions<K>(head: seq<K>, x: K, tail: seq<K>)
    ensures var r := head + [x] + tail; r[|r| - 1 - |tail|] == x && r[|r| - |tail|..] == tail
  {
  }

  /** `k` sits behind exactly the keys of `later` in a last-touch order. */
  ghost predicate SitsBehind<K>(order: seq<K>, k: K, later: set<K>) {
    |later| < |order| && order[|order| - 1 - |later|] == k && Elems(order[|order| - |later|..]) == later
  }

  lemma TouchMovesBack<K>(order: seq<K>, k: K, later: set<K>, last: K)
    requires Distinct(order) && SitsBehind(order, k, later) && last != k
    ensures SitsBehind(Touch(order, last), k, later + {last})
  {
    var p := |order| - 1 - |later|;
    assert order[p + 1..] == order[|order| - |later|..];
    TouchKeepsTail(order, p, last);
  }

  /** In last-touch order a key sits as far from the end as there are distinct keys touched after it. */
  lemma {:induction false} PositionByDistance<K>(history: seq<K>, i: nat)
    requires i < |history| && history[i] !in history[i + 1..]
    ensures SitsBehind(ByLastTouch(history), history[i], Elems(history[i + 1..]))
  {
    var n := |history| - 1;
    if i == n {
      assert Elems(history[i + 1..]) == {};
    } else {
      var init, last := history[..n], history[n];
      assert history[i + 1..] == init[i + 1..] + [last];
      PositionByDistance(init, i);
      ByLastTouchDistinct(init);
      TouchMovesBack(ByLastTouch(init), history[i], Elems(init[i + 1..]), last);
      assert Elems(history[i + 1..]) == Elems(init[i + 1..]) + {last};
    }
  }

  /**
   The stack-distance law: a key is among the c most recent distinct keys exactly when it was
   touched and fewer than c other keys have been touched since.
   */
  lemma StackDistance<K>(history: seq<K>, k: K, c: nat)
    ensures k in Newest(ByLastTouch(history), c) <==> WithinDistance(history, k, c)
  {
    ByLastTouchDistinct(history);
    var order := ByLastTouch(history);
    if k in history {
      var i := LastIndex(history, k);
      PositionByDistance(history, i);
      var p := |order| - 1 - DistinctCount(history[i + 1..]);
      NewestPosition(order, p, c);
    } else {
      assert k !in Elems(order);
    }
  }

  lemma NewestPosition<K>(s: seq<K>, p: nat, c: nat)
    requires Distinct(s) && p < |s|
    ensures s[p] in Newest(s, c) <==> |s| - p <= c
  {
    if c < |s| && |s| - p <= c {
      assert s[|s| - c..][p - (|s| - c)] == s[p];
    }
  }

  /** The elements of `s` that lie in `a`, in their order: `s` with the others struck out. */
  ghost function Keep<K>(s: seq<K>, a: set<K>): seq<K> {
    if s == [] then [] else Keep(s[..|s| - 1], a) + (if s[|s| - 1] in a then [s[|s| - 1]] else [])
  }

  lemma {:induction false} KeepConcat<K>(s: seq<K>, t: seq<K>, a: set<K>)
    ensures Keep(s + t, a) == Keep(s, a) + Keep(t, a)
  {
    if t == [] {
      assert s + t == s;
    } else {
      KeepConcat(s, t[..|t| - 1], a);
      assert (s + t)[..|s + t| - 1] == s + t[..|t| - 1];
    }
  }

  lemma {:induction false} KeepWithout<K>(s: seq<K>, a: set<K>, k: K)
    ensures Keep(Without(s, k), a - {k}) == Without(Keep(s, a), k) == Keep(s, a - {k})
    ensures Keep(Without(s, k), a) == Keep(s, a - {k})
  {
    if s != [] {
      var init, last := s[..|s| - 1], s[|s| - 1];
      KeepWithout(init, a, k);
      var rest := if last == k then [] else [last];
      KeepConcat(Without(init, k), rest, a);
      KeepConcat(Without(init, k), rest, a - {k});
      WithoutConcat(Keep(init, a), if last in a then [last] else [], k);
    }
  }

  lemma {:induction false} KeepElems<K>(s: seq<K>, a: set<K>)
    ensures Elems(Keep(s, a)) == Elems(s) * a
  {
    if s != [] {
      var init, last := s[..|s| - 1], s[|s| - 1];
      KeepElems(init, a);
      assert s == init + [last];
      ElemsConcat(init, [last]);
      ElemsConcat(Keep(init, a), if last in a then [last] else []);
    }
  }

  lemma {:induction false} KeepAll<K>(s: seq<K>, a: set<K>)
    requires Elems(s) <= a
    ensures Keep(s, a) == s
  {
    if s != [] {
      KeepAll(s[..|s| - 1], a);
      assert s == s[..|s| - 1] + [s[|s| - 1]];
      assert s[|s| - 1] in Elems(s);
    }
  }

  /** Dropping the oldest key of either side keeps `u` embedded in `t`. */
  lemma DropOldest<K>(t: seq<K>, u: seq<K>)
    requires Distinct(t) && u == Keep(t, Elems(u)) && Distinct(u) && u != []
    ensures u[1..] == Keep(t, Elems(u[1..]))
    ensures t[1..] != t && (t[0] in u ==> u[0] == t[0] && u[1..] == Keep(t[1..], Elems(u[1..])))
    ensures t[0] !in u ==> u == Keep(t[1..], Elems(u))
  {
    KeepWithout(t, Elems(u), u[0]);
    WithoutMiddle([], u[0], u[1..]);
    assert [] + [u[0]] + u[1..] == u;
    assert Elems(u[1..]) == Elems(u) - {u[0]};
    SplitFirst(t, Elems(u));
    SplitFirst(t, Elems(u[1..]));
  }

  lemma SplitFirst<K>(t: seq<K>, a: set<K>)
    ensures t != [] ==> Keep(t, a) == (if t[0] in a then [t[0]] else []) + Keep(t[1..], a)
  {
    if t != [] {
      assert t == [t[0]] + t[1..];
      KeepConcat([t[0]], t[1..], a);
    }
  }

  /** `small` is `large` with keys struck out, and differs from it only once it is full. */
  ghost predicate Included<K>(small: seq<K>, s: nat, large: seq<K>, l: nat) {
    && Distinct(small) && Distinct(large) && |small| <= s <= l && |large| <= l
    && small == Keep(large, Elems(small))
    && (|small| == s || small == large)
  }

  lemma TouchBoth<K>(small: seq<K>, s: nat, large: seq<K>, l: nat, k: K)
    requires Included(small, s, large, l)
    ensures Included(Newest(Touch(small, k), s), s, Newest(Touch(large, k), l), l)
  {
    var u, t := Touch(small, k), Touch(large, k);
    TouchDistinct(small, k);
    TouchDistinct(large, k);
    assert k in small ==> k in large by {
      KeepElems(large, Elems(small));
      assert k in Elems(small) ==> k in Elems(large);
    }
    NewestDistinct(u, s);
    NewestDistinct(t, l);
    assert u == Keep(t, Elems(u)) by { TouchEmbeds(small, large, k); }
    EvictBoth(u, s, t, l);
  }

  lemma EvictBoth<K>(u: seq<K>, s: nat, t: seq<K>, l: nat)
    requires Distinct(u) && Distinct(t) && |u| <= s + 1 && |t| <= l + 1
    requires u != [] && t != [] && u == Keep(t, Elems(u))
    requires |t| > l ==> |u| > s
    ensures Newest(u, s) == Keep(Newest(t, l), Elems(Newest(u, s)))
  {
    if |t| > l {
      DropFromBoth(t, u);
    } else if |u| > s {
      DropOldest(t, u);
    }
  }

  lemma DropFromBoth<K>(t: seq<K>, u: seq<K>)
    requires Distinct(t) && Distinct(u) && t != [] && u != [] && u == Keep(t, Elems(u))
    ensures u[1..] == Keep(t[1..], Elems(u[1..]))
  {
    DropOldest(t, u);
    if t[0] !in u {
      SplitFirst(t, Elems(u[1..]));
    }
  }

  lemma TouchEmbeds<K>(small: seq<K>, large: seq<K>, k: K)
    requires small == Keep(large, Elems(small))
    ensures Touch(small, k) == Keep(Touch(large, k), Elems(Touch(small, k)))
  {
    var a := Elems(small);
    WithoutElems(small, k);
    ElemsConcat(Without(small, k), [k]);
    assert Elems(Touch(small, k)) == a + {k};
    TouchEmbedsIn(large, a, k);
  }

  lemma TouchEmbedsIn<K>(large: seq<K>, a: set<K>, k: K)
    ensures Keep(Touch(large, k), a + {k}) == Touch(Keep(large, a), k)
  {
    KeepConcat(Without(large, k), [k], a + {k});
    KeepAll([k], a + {k});
    KeepWithout(large, a + {k}, k);
    KeepWithout(large, a, k);
    assert a + {k} - {k} == a - {k};
  }

  lemma TouchLargeOnly<K>(small: seq<K>, s: nat, large: seq<K>, l: nat, k: K)
    requires Included(small, s, large, l) && k in large && k !in small
    ensures Included(small, s, Newest(Touch(large, k), l), l)
  {
    var a := Elems(small);
    TouchDistinct(large, k);
    KeepConcat(Without(large, k), [k], a);
    KeepWithout(large, a, k);
    assert a - {k} == a;
  }
}

/** Python's insertion-ordered dictionary: the mapping and the order of its keys, oldest first. */
module OrderedDicts {
  import opened Common
  import opened Recency

  datatype OrderedDict<K(==), V> = OrderedDict(order: seq<K>, entries: map<K, V>) {

    ghost predicate WellFormed() {
      Distinct(order) && Elems(order) == entries.Keys
    }

    function Get(key: K): Option<V> {
      if key in entries then Some(entries[key]) else None
    }

    /** `d[key] = value`: an existing key keeps its place, a new one goes last. */
    function Set(key: K, value: V): (d: OrderedDict<K, V>)
      requires WellFormed()
      ensures d.WellFormed()
    {
      if key in entries then OrderedDict(order, entries[key := value])
      else
        ElemsConcat(order, [key]);
        OrderedDict(order + [key], entries[key := value])
    }

    function MoveToEnd(key: K): (d: OrderedDict<K, V>)
      requires WellFormed() && key in entries
      ensures d.WellFormed()
    {
      TouchDistinct(order, key);
      OrderedDict(Touch(order, key), entries)
    }

    /** `popitem(last=False)` without the removed pair. */
    function PopOldest(): (d: OrderedDict<K, V>)
      requires WellFormed() && order != []
      ensures d.WellFormed()
    {
      ElemsConcat([order[0]], order[1..]);
      assert order == [order[0]] + order[1..];
      OrderedDict(order[1..], entries - {order[0]})
    }
  }

  /** `while len(d) > capacity: d.popitem(last=False)`. */
  method EvictOldest<K(==), V>(d: OrderedDict<K, V>, capacity: nat) returns (r: OrderedDict<K, V>)
    requires d.WellFormed()
    ensures r.WellFormed() && r.order == Newest(d.order, capacity)
    ensures forall k :: k in r.entries ==> k in d.entries && r.entries[k] == d.entries[k]
  {
    r := d;
    while |r.order| > capacity
      invariant r.WellFormed() && Newest(r.order, capacity) == Newest(d.order, capacity)
      invariant forall k :: k in r.entries ==> k in d.entries && r.entries[k] == d.entries[k]
      decreases |r.order|
    {
      r := r.PopOldest();
    }
  }
}
