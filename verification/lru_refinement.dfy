/** Under LRU the timestamp cache is a per-set recency list: a hit moves a line to the front, a miss puts the
    new line in front and, when the set is full, drops the last one (src/mcache.cpp:38-70, 149-268). */
module LruRefinement {
  import opened Commands
  import opened LastLevelCache
  import opened CacheRuns
  import opened Sequences

  // ----- The reference: recency lists, most recent first -----

  datatype Line = Line(tag: nat, dirty: bool)

  /** What a read answers: hit or miss, and the line it drops. */
  datatype Answer = Answer(hit: bool, evicted: Option<Line>)

  function Pos(l: seq<Line>, addr: nat): (k: nat)
    ensures k <= |l| && (k < |l| ==> l[k].tag == addr) && forall j :: 0 <= j < k ==> l[j].tag != addr
  {
    if l == [] || l[0].tag == addr then 0 else 1 + Pos(l[1..], addr)
  }

  function RefRead(l: seq<Line>, addr: nat, assocs: nat): (seq<Line>, Answer)
    requires assocs >= 1
  {
    var k := Pos(l, addr);
    if k < |l| then ([l[k]] + Cut(l, k), Answer(true, None))
    else if |l| < assocs then ([Line(addr, false)] + l, Answer(false, None))
    else ([Line(addr, false)] + l[..|l| - 1], Answer(false, Some(l[|l| - 1])))
  }

  function RefMark(l: seq<Line>, addr: nat): seq<Line> {
    var k := Pos(l, addr);
    if k < |l| then l[k := l[k].(dirty := true)] else l
  }

  function RefInvalidate(l: seq<Line>, addr: nat): seq<Line> {
    var k := Pos(l, addr);
    if k < |l| then Cut(l, k) else l
  }

  /** The reference cache: one list per set. */
  function RefApply(sets: seq<seq<Line>>, assocs: nat, op: Op): seq<seq<Line>>
    requires |sets| >= 1 && assocs >= 1
  {
    var s := op.addr % |sets|;
    match op
    case Read(a, _) => sets[s := RefRead(sets[s], a, assocs).0]
    case MarkDirty(a) => sets[s := RefMark(sets[s], a)]
    case Invalidate(a) => sets[s := RefInvalidate(sets[s], a)]
  }

  function RefRun(sets: nat, assocs: nat, ops: seq<Op>): (r: seq<seq<Line>>)
    requires sets >= 1 && assocs >= 1
    ensures |r| == sets
  {
    if ops == [] then seq(sets, _ => []) else RefApply(RefRun(sets, assocs, ops[..|ops| - 1]), assocs, ops[|ops| - 1])
  }

  // ----- The simulation relation -----

  function LineOf(e: Entry): Line { Line(e.tag, e.dirty) }

  /** `order` lists the valid ways of lo..hi from the latest timestamp to the earliest, and `l` their lines. */
  ghost predicate Sim(es: seq<Entry>, lo: nat, hi: nat, l: seq<Line>, order: seq<nat>) {
    && hi <= |es|
    && Lists(es, lo, hi, l, order)
    && (forall i :: lo <= i < hi && es[i].valid ==> i in order)
    && forall j, k :: 0 <= j < k < |order| ==> es[order[j]].lastAccess > es[order[k]].lastAccess
  }

  ghost predicate Lists(es: seq<Entry>, lo: nat, hi: nat, l: seq<Line>, order: seq<nat>)
    requires hi <= |es|
  {
    && |order| == |l|
    && forall k :: 0 <= k < |order| ==> lo <= order[k] < hi && es[order[k]].valid && l[k] == LineOf(es[order[k]])
  }

  ghost predicate Simulates(c: Cache, sets: seq<seq<Line>>, orders: seq<seq<nat>>) {
    && c.Sized() && |sets| == |orders| == c.sets
    && forall s :: 0 <= s < c.sets ==> Sim(c.entries, Lo(c, s), SetEnd(c, s), sets[s], orders[s])
  }

  /** Only the entries of lo..hi matter, and of those not the SRRIP counters. */
  lemma SimFrame(es: seq<Entry>, es': seq<Entry>, lo: nat, hi: nat, l: seq<Line>, order: seq<nat>)
    requires Sim(es, lo, hi, l, order) && |es'| == |es|
    requires forall i :: lo <= i < hi ==> es'[i] == es[i].(ripctr := es'[i].ripctr)
    ensures Sim(es', lo, hi, l, order)
  {}

  // ----- Room in a set -----

  lemma {:induction false} DistinctBelow(order: seq<nat>, hole: set<nat>, lo: nat, n: nat)
    requires forall k :: 0 <= k < |order| ==> lo <= order[k] < lo + n && order[k] !in hole
    requires forall j, k :: 0 <= j < k < |order| ==> order[j] != order[k]
    requires forall i <- hole :: lo <= i < lo + n
    ensures |order| + |hole| <= n
    decreases |order|
  {
    if order == [] {
      SubsetOfRange(hole, lo, n);
    } else {
      DistinctBelow(order[1..], hole + {order[0]}, lo, n);
    }
  }

  lemma {:induction false} SubsetOfRange(s: set<nat>, lo: nat, n: nat)
    requires forall i <- s :: lo <= i < lo + n
    ensures |s| <= n
    decreases n
  {
    if n == 0 {
      assert s == {};
    } else {
      SubsetOfRange(s - {lo + n - 1}, lo, n - 1);
    }
  }

  /** Every way of lo..hi is listed, so the list is as long as the set is wide. */
  lemma {:induction false} AllListed(order: seq<nat>, lo: nat, n: nat)
    requires forall i :: lo <= i < lo + n ==> i in order
    ensures |order| >= n
    decreases n
  {
    if n > 0 {
      assert lo + n - 1 in order;
      var k :| 0 <= k < |order| && order[k] == lo + n - 1;
      var rest := Cut(order, k);
      forall i | lo <= i < lo + n - 1 ensures i in rest {
        assert i in order;
        var j :| 0 <= j < |order| && order[j] == i;
        assert rest[if j < k then j else j - 1] == i;
      }
      AllListed(rest, lo, n - 1);
    }
  }

  /** The list is full exactly when no way is invalid. */
  lemma FullIffAllValid(es: seq<Entry>, lo: nat, hi: nat, l: seq<Line>, order: seq<nat>)
    requires Sim(es, lo, hi, l, order) && lo < hi
    ensures |l| <= hi - lo && (|l| == hi - lo <==> FirstInvalid(es, lo, hi) == hi)
  {
    var k := FirstInvalid(es, lo, hi);
    DistinctBelow(order, if k < hi then {k} else {}, lo, hi - lo);
    if k == hi { AllListed(order, lo, hi - lo); }
  }

  /** In a full set the least recently accessed way is the last in the list. */
  lemma OldestIsLast(es: seq<Entry>, lo: nat, hi: nat, l: seq<Line>, order: seq<nat>)
    requires Sim(es, lo, hi, l, order) && lo < hi && FirstInvalid(es, lo, hi) == hi
    ensures |l| == hi - lo && order[|l| - 1] == Oldest(es, lo, hi)
  {
    FullIffAllValid(es, lo, hi, l, order);
    var v := Oldest(es, lo, hi);
    var k :| 0 <= k < |order| && order[k] == v;
    assert es[order[|l| - 1]].lastAccess >= es[v].lastAccess;
  }

  // ----- Where a line is -----

  ghost predicate UniqueTags(es: seq<Entry>, lo: nat, hi: nat) {
    hi <= |es| && forall i, j :: lo <= i < j < hi && es[i].valid && es[j].valid ==> es[i].tag != es[j].tag
  }

  /** Looking a line up among the ways finds the way listed at its position. */
  lemma LookupIsPos(es: seq<Entry>, lo: nat, hi: nat, l: seq<Line>, order: seq<nat>, addr: nat)
    requires Sim(es, lo, hi, l, order) && lo <= hi && UniqueTags(es, lo, hi)
    ensures var i, k := Lookup(es, lo, hi, addr), Pos(l, addr); if k < |l| then i == order[k] else i == hi
  {
    var i, k := Lookup(es, lo, hi, addr), Pos(l, addr);
    if k < |l| {
      assert es[order[k]].Holds(addr);
    } else {
      forall w | lo <= w < hi && es[w].valid ensures es[w].tag != addr {
        var j :| 0 <= j < |order| && order[j] == w;
        assert l[j].tag != addr;
      }
    }
  }

  // ----- The steps on one set -----

  /** A new line in a way that was invalid. */
  lemma SimFill(es: seq<Entry>, lo: nat, hi: nat, l: seq<Line>, order: seq<nat>, v: nat, e: Entry)
    requires Sim(es, lo, hi, l, order) && lo <= v < hi && !es[v].valid && e.valid
    requires forall i :: lo <= i < hi ==> es[i].lastAccess < e.lastAccess
    ensures Sim(es[v := e], lo, hi, [LineOf(e)] + l, [v] + order)
  {
    var order', es' := [v] + order, es[v := e];
    forall i | lo <= i < hi && es'[i].valid ensures i in order' {
      if i != v {
        var j :| 0 <= j < |order| && order[j] == i;
        assert order'[j + 1] == i;
      }
    }
  }

  /** Taking a way out of the list when it becomes invalid. */
  lemma SimDrop(es: seq<Entry>, lo: nat, hi: nat, l: seq<Line>, order: seq<nat>, k: nat)
    requires Sim(es, lo, hi, l, order) && k < |l|
    ensures Sim(es[order[k] := es[order[k]].(valid := false)], lo, hi, Cut(l, k), Cut(order, k))
  {
    var v, order' := order[k], Cut(order, k);
    var es' := es[v := es[v].(valid := false)];
    DropLists(es, es', lo, hi, l, order, k);
    SortedWithout(es, es', order, k);
    forall i | lo <= i < hi && es'[i].valid ensures i in order' { StillListed(es, lo, hi, l, order, k, i); }
  }

  lemma StillListed(es: seq<Entry>, lo: nat, hi: nat, l: seq<Line>, order: seq<nat>, k: nat, i: nat)
    requires Sim(es, lo, hi, l, order) && k < |l| && lo <= i < hi && es[i].valid && i != order[k]
    ensures i in Cut(order, k)
  {
    var j :| 0 <= j < |order| && order[j] == i;
    assert Cut(order, k)[if j < k then j else j - 1] == i;
  }

  lemma DropLists(es: seq<Entry>, es': seq<Entry>, lo: nat, hi: nat, l: seq<Line>, order: seq<nat>, k: nat)
    requires Sim(es, lo, hi, l, order) && k < |l| && |es'| == |es|
    requires forall i :: 0 <= i < |es| && i != order[k] ==> es'[i] == es[i]
    ensures Lists(es', lo, hi, Cut(l, k), Cut(order, k))
  {
    var order', l' := Cut(order, k), Cut(l, k);
    forall i | 0 <= i < |order'|
      ensures order'[i] == order[Skip(i, k)] && l'[i] == l[Skip(i, k)] && order'[i] != order[k]
    {
      assert es[order[Skip(i, k)]].lastAccess != es[order[k]].lastAccess;
    }
  }

  function Skip(i: nat, k: nat): nat { if i < k then i else i + 1 }

  /** Leaving out one way, whose own entry may change, keeps the timestamps decreasing. */
  lemma SortedWithout(es: seq<Entry>, es': seq<Entry>, order: seq<nat>, k: nat)
    requires k < |order| && |es'| == |es| && forall j :: 0 <= j < |order| ==> order[j] < |es|
    requires forall i, j :: 0 <= i < j < |order| ==> es[order[i]].lastAccess > es[order[j]].lastAccess
    requires forall i :: 0 <= i < |es| && i != order[k] ==> es'[i] == es[i]
    ensures forall i :: 0 <= i < |order| - 1 ==> Cut(order, k)[i] < |es'|
    ensures forall i, j :: 0 <= i < j < |order| - 1 ==>
      es'[Cut(order, k)[i]].lastAccess > es'[Cut(order, k)[j]].lastAccess
  {
    var order' := Cut(order, k);
    forall i | 0 <= i < |order'| ensures order'[i] == order[Skip(i, k)] && es'[order'[i]] == es[order[Skip(i, k)]] {
      assert es[order[Skip(i, k)]].lastAccess != es[order[k]].lastAccess;
    }
    forall i, j | 0 <= i < j < |order'| ensures es'[order'[i]].lastAccess > es'[order'[j]].lastAccess {
      assert Skip(i, k) < Skip(j, k);
    }
  }

  /** The listed way k is stamped again and moves to the front. */
  lemma SimHit(es: seq<Entry>, lo: nat, hi: nat, l: seq<Line>, order: seq<nat>, k: nat, n: nat)
    requires Sim(es, lo, hi, l, order) && k < |l| && forall i :: lo <= i < hi ==> es[i].lastAccess < n
    ensures var e := es[order[k]].(lastAccess := n, ripctr := SRRIP_MAX);
      Sim(es[order[k] := e], lo, hi, [l[k]] + Cut(l, k), [order[k]] + Cut(order, k))
  {
    var v := order[k];
    var e, es1 := es[v].(lastAccess := n, ripctr := SRRIP_MAX), es[v := es[v].(valid := false)];
    SimDrop(es, lo, hi, l, order, k);
    SimFill(es1, lo, hi, Cut(l, k), Cut(order, k), v, e);
    assert es1[v := e] == es[v := e];
  }

  /** A new line in the place of the last of a full list. */
  lemma SimEvict(es: seq<Entry>, lo: nat, hi: nat, l: seq<Line>, order: seq<nat>, e: Entry)
    requires Sim(es, lo, hi, l, order) && |l| >= 1 && e.valid
    requires forall i :: lo <= i < hi ==> es[i].lastAccess < e.lastAccess
    ensures var v := order[|l| - 1];
      Sim(es[v := e], lo, hi, [LineOf(e)] + l[..|l| - 1], [v] + order[..|l| - 1])
  {
    var k := |l| - 1;
    var v := order[k];
    SimDrop(es, lo, hi, l, order, k);
    assert Cut(l, k) == l[..k] && Cut(order, k) == order[..k];
    var es1 := es[v := es[v].(valid := false)];
    SimFill(es1, lo, hi, l[..k], order[..k], v, e);
    assert es1[v := e] == es[v := e];
  }

  lemma SimMark(es: seq<Entry>, lo: nat, hi: nat, l: seq<Line>, order: seq<nat>, k: nat)
    requires Sim(es, lo, hi, l, order) && k < |l|
    ensures Sim(es[order[k] := es[order[k]].(dirty := true)], lo, hi, l[k := l[k].(dirty := true)], order)
  {
    var es' := es[order[k] := es[order[k]].(dirty := true)];
    forall j | 0 <= j < |order| && j != k ensures order[j] != order[k] {
      assert j < k ==> es[order[j]].lastAccess > es[order[k]].lastAccess;
    }
    forall j, m | 0 <= j < m < |order| ensures es'[order[j]].lastAccess > es'[order[m]].lastAccess {
      assert es[order[j]].lastAccess > es[order[m]].lastAccess;
    }
  }

  // ----- The whole cache -----

  lemma SetsApart(c: Cache, s: nat, t: nat)
    requires c.Sized() && s < t < c.sets
    ensures SetEnd(c, s) <= Lo(c, t)
  {
    SetBounds(t, c.assocs, s);
  }

  /** Changing one way changes the list of its own set only. */
  lemma Rebuild(c: Cache, sets: seq<seq<Line>>, orders: seq<seq<nat>>, c': Cache, s: nat, v: nat, l: seq<Line>,
                order: seq<nat>)
    requires Simulates(c, sets, orders) && s < c.sets && Lo(c, s) <= v < SetEnd(c, s)
    requires c'.sets == c.sets && c'.assocs == c.assocs && |c'.entries| == |c.entries|
    requires forall i :: 0 <= i < |c.entries| && i != v ==> c'.entries[i] == c.entries[i]
    requires Sim(c'.entries, Lo(c, s), SetEnd(c, s), l, order)
    ensures Simulates(c', sets[s := l], orders[s := order])
  {
    forall t | 0 <= t < c.sets ensures Sim(c'.entries, Lo(c, t), SetEnd(c, t), sets[s := l][t], orders[s := order][t]) {
      if t != s { RebuildOther(c, c'.entries, s, v, t, sets[t], orders[t]); }
    }
    forall t | 0 <= t < c.sets ensures Lo(c', t) == Lo(c, t) && SetEnd(c', t) == SetEnd(c, t) {}
  }

  lemma RebuildOther(c: Cache, es': seq<Entry>, s: nat, v: nat, t: nat, l: seq<Line>, order: seq<nat>)
    requires c.Sized() && s < c.sets && t < c.sets && t != s && Lo(c, s) <= v < SetEnd(c, s)
    requires |es'| == |c.entries| && forall i :: 0 <= i < |c.entries| && i != v ==> es'[i] == c.entries[i]
    requires Sim(c.entries, Lo(c, t), SetEnd(c, t), l, order)
    ensures Sim(es', Lo(c, t), SetEnd(c, t), l, order)
  {
    if t < s { SetsApart(c, t, s); } else { SetsApart(c, s, t); }
    SimFrame(c.entries, es', Lo(c, t), SetEnd(c, t), l, order);
  }

  /** A reading of the report: the dirty line that a read evicted, if any. */
  function Reported(c: Cache): Option<nat> { if c.evictedDirty then Some(c.evictedLine) else None }

  function DirtyTag(a: Answer): Option<nat> {
    match a.evicted
    case Some(l) => if l.dirty then Some(l.tag) else None
    case None => None
  }

  lemma TagsUnique(c: Cache, lo: nat, hi: nat)
    requires CacheOk(c) && hi <= |c.entries|
    ensures UniqueTags(c.entries, lo, hi)
  {}

  lemma PastStamps(c: Cache, lo: nat, hi: nat)
    requires CacheOk(c) && hi <= |c.entries|
    ensures forall i :: lo <= i < hi ==> c.entries[i].lastAccess < c.count + 1
  {
    forall i | lo <= i < hi ensures c.entries[i].lastAccess <= c.count { assert WayOk(c, i); }
  }

  lemma HitSimulates(c: Cache, sets: seq<seq<Line>>, orders: seq<seq<nat>>, addr: nat, rnd: nat)
    returns (orders': seq<seq<nat>>)
    requires CacheOk(c) && Simulates(c, sets, orders) && AccessOn(c, addr).1
    ensures RefRead(sets[c.Set(addr)], addr, c.assocs).1 == Answer(true, None)
    ensures Simulates(AccessOn(c, addr).0, sets[c.Set(addr) := RefRead(sets[c.Set(addr)], addr, c.assocs).0], orders')
  {
    var s := c.Set(addr);
    var lo, hi := Lo(c, s), SetEnd(c, s);
    var l, order := sets[s], orders[s];
    TagsUnique(c, lo, hi);
    LookupIsPos(c.entries, lo, hi, l, order, addr);
    var k := Pos(l, addr);
    PastStamps(c, lo, hi);
    SimHit(c.entries, lo, hi, l, order, k, c.count + 1);
    orders' := orders[s := [order[k]] + Cut(order, k)];
    Rebuild(c, sets, orders, AccessOn(c, addr).0, s, order[k], [l[k]] + Cut(l, k), [order[k]] + Cut(order, k));
  }

  /** The victim under LRU, and the state after the replacement. */
  lemma LruReplaces(c: Cache, addr: nat, rnd: nat) returns (v: nat, c': Cache)
    requires Missed(c, addr) && c.policy == Lru
    ensures InstallOn(c, addr, rnd) == Done(c') && Lo(c, c.Set(addr)) <= v < SetEnd(c, c.Set(addr))
    ensures var inv := FirstInvalid(c.entries, Lo(c, c.Set(addr)), SetEnd(c, c.Set(addr)));
      v == if inv < SetEnd(c, c.Set(addr)) then inv else Oldest(c.entries, Lo(c, c.Set(addr)), SetEnd(c, c.Set(addr)))
    ensures Replaced(c, c', v, addr)
  {
    var c0, c1;
    c0, c1, v := InstallSplits(c, addr, rnd);
    c' := Replace(c1, v, addr);
  }

  ghost predicate Replaced(c: Cache, c': Cache, v: nat, addr: nat) {
    && v < |c.entries| && c'.entries == c.entries[v := Entry(true, false, addr, SRRIP_INIT, c.count)]
    && c'.sets == c.sets && c'.assocs == c.assocs
    && c'.evictions == c.evictions + (if c.entries[v].valid then 1 else 0)
    && c'.evictedDirty == (c.entries[v].valid && c.entries[v].dirty)
    && (c'.evictedDirty ==> c'.evictedLine == c.entries[v].tag)
  }

  lemma FillSimulates(c: Cache, sets: seq<seq<Line>>, orders: seq<seq<nat>>, c': Cache, v: nat, addr: nat)
    requires Missed(c, addr) && Simulates(c, sets, orders) && Replaced(c, c', v, addr) && !c.entries[v].valid
    requires Lo(c, c.Set(addr)) <= v < SetEnd(c, c.Set(addr))
    ensures var s := c.Set(addr);
      Simulates(c', sets[s := [Line(addr, false)] + sets[s]], orders[s := [v] + orders[s]])
  {
    var s := c.Set(addr);
    SimFill(c.entries, Lo(c, s), SetEnd(c, s), sets[s], orders[s], v, c'.entries[v]);
    Rebuild(c, sets, orders, c', s, v, [Line(addr, false)] + sets[s], [v] + orders[s]);
  }

  lemma EvictSimulates(c: Cache, sets: seq<seq<Line>>, orders: seq<seq<nat>>, c': Cache, v: nat, addr: nat)
    requires Missed(c, addr) && Simulates(c, sets, orders) && Replaced(c, c', v, addr)
    requires var s := c.Set(addr); |sets[s]| >= 1 && v == orders[s][|sets[s]| - 1]
    ensures var s := c.Set(addr);
      Simulates(c', sets[s := [Line(addr, false)] + sets[s][..|sets[s]| - 1]],
                orders[s := [v] + orders[s][..|sets[s]| - 1]])
  {
    var s := c.Set(addr);
    var l, order := sets[s], orders[s];
    SimEvict(c.entries, Lo(c, s), SetEnd(c, s), l, order, c'.entries[v]);
    Rebuild(c, sets, orders, c', s, v, [Line(addr, false)] + l[..|l| - 1], [v] + order[..|l| - 1]);
  }

  /** A line that is in no way of its set is not in the list; the list is full iff no way is invalid, and then
      the least recently accessed way is its last. */
  lemma MissedList(c: Cache, sets: seq<seq<Line>>, orders: seq<seq<nat>>, addr: nat)
    requires Missed(c, addr) && Simulates(c, sets, orders)
    ensures var s := c.Set(addr);
      var lo, hi, l := Lo(c, s), SetEnd(c, s), sets[s];
      && Pos(l, addr) == |l| && |l| <= c.assocs
      && (|l| < c.assocs <==> FirstInvalid(c.entries, lo, hi) < hi)
      && (|l| == c.assocs ==> orders[s][|l| - 1] == Oldest(c.entries, lo, hi))
  {
    var s := c.Set(addr);
    var lo, hi := Lo(c, s), SetEnd(c, s);
    TagsUnique(c, lo, hi);
    LookupIsPos(c.entries, lo, hi, sets[s], orders[s], addr);
    FullIffAllValid(c.entries, lo, hi, sets[s], orders[s]);
    if FirstInvalid(c.entries, lo, hi) == hi { OldestIsLast(c.entries, lo, hi, sets[s], orders[s]); }
  }

  /** The installation after a miss, under LRU. */
  lemma MissSimulates(c: Cache, sets: seq<seq<Line>>, orders: seq<seq<nat>>, addr: nat, rnd: nat)
    returns (orders': seq<seq<nat>>, c': Cache)
    requires Missed(c, addr) && c.policy == Lru && Simulates(c, sets, orders)
    ensures InstallOn(c, addr, rnd) == Done(c')
    ensures var (l, answer) := RefRead(sets[c.Set(addr)], addr, c.assocs);
      && !answer.hit && DirtyTag(answer) == Reported(c')
      && (c'.evictions == c.evictions + if answer.evicted.Some? then 1 else 0)
      && Simulates(c', sets[c.Set(addr) := l], orders')
  {
    var s := c.Set(addr);
    var l := sets[s];
    MissedList(c, sets, orders, addr);
    var v;
    v, c' := LruReplaces(c, addr, rnd);
    if |l| < c.assocs {
      FillSimulates(c, sets, orders, c', v, addr);
      orders' := orders[s := [v] + orders[s]];
    } else {
      EvictSimulates(c, sets, orders, c', v, addr);
      orders' := orders[s := [v] + orders[s][..|l| - 1]];
    }
  }

  lemma ReadSimulates(c: Cache, sets: seq<seq<Line>>, orders: seq<seq<nat>>, addr: nat, rnd: nat)
    returns (orders': seq<seq<nat>>, c': Cache)
    requires CacheOk(c) && c.policy == Lru && Simulates(c, sets, orders)
    ensures var (l, answer) := RefRead(sets[c.Set(addr)], addr, c.assocs);
      && ReadOn(c, addr, rnd) == (Done(c'), answer.hit)
      && (!answer.hit ==> DirtyTag(answer) == Reported(c'))
      && Simulates(c', sets[c.Set(addr) := l], orders')
  {
    var c1 := AccessOn(c, addr).0;
    if AccessOn(c, addr).1 {
      orders' := HitSimulates(c, sets, orders, addr, rnd);
      c' := c1;
    } else {
      AccessMisses(c, addr);
      orders', c' := MissSimulates(c1, sets, orders, addr, rnd);
    }
  }

  lemma MarkSimulates(c: Cache, sets: seq<seq<Line>>, orders: seq<seq<nat>>, addr: nat)
    requires CacheOk(c) && Simulates(c, sets, orders)
    ensures var s := c.Set(addr); Simulates(MarkDirtyOn(c, addr), sets[s := RefMark(sets[s], addr)], orders)
  {
    var s := c.Set(addr);
    var lo, hi := Lo(c, s), SetEnd(c, s);
    var l, order := sets[s], orders[s];
    TagsUnique(c, lo, hi);
    LookupIsPos(c.entries, lo, hi, l, order, addr);
    var k := Pos(l, addr);
    if k < |l| {
      SimMark(c.entries, lo, hi, l, order, k);
      Rebuild(c, sets, orders, MarkDirtyOn(c, addr), s, order[k], l[k := l[k].(dirty := true)], order);
      assert orders[s := order] == orders;
    } else {
      assert sets[s := l] == sets;
    }
  }

  lemma InvalidateSimulates(c: Cache, sets: seq<seq<Line>>, orders: seq<seq<nat>>, addr: nat)
    returns (orders': seq<seq<nat>>)
    requires CacheOk(c) && Simulates(c, sets, orders)
    ensures var s := c.Set(addr); Simulates(InvalidateOn(c, addr), sets[s := RefInvalidate(sets[s], addr)], orders')
  {
    var s := c.Set(addr);
    var lo, hi := Lo(c, s), SetEnd(c, s);
    var l, order := sets[s], orders[s];
    TagsUnique(c, lo, hi);
    LookupIsPos(c.entries, lo, hi, l, order, addr);
    var k := Pos(l, addr);
    if k < |l| {
      SimDrop(c.entries, lo, hi, l, order, k);
      orders' := orders[s := Cut(order, k)];
      Rebuild(c, sets, orders, InvalidateOn(c, addr), s, order[k], Cut(l, k), Cut(order, k));
    } else {
      orders' := orders;
      assert sets[s := l] == sets;
    }
  }

  lemma ApplySimulates(c: Cache, sets: seq<seq<Line>>, orders: seq<seq<nat>>, op: Op)
    returns (orders': seq<seq<nat>>, c': Cache)
    requires CacheOk(c) && c.policy == Lru && Simulates(c, sets, orders)
    ensures Apply(c, op) == Done(c') && c'.policy == Lru && c'.sets == c.sets && c'.assocs == c.assocs
    ensures Simulates(c', RefApply(sets, c.assocs, op), orders')
  {
    match op
    case Read(a, rnd) => orders', c' := ReadSimulates(c, sets, orders, a, rnd);
    case MarkDirty(a) => MarkSimulates(c, sets, orders, a); orders', c' := orders, MarkDirtyOn(c, a);
    case Invalidate(a) => orders' := InvalidateSimulates(c, sets, orders, a); c' := InvalidateOn(c, a);
  }

  /** Refinement over every run: the cache always simulates the recency lists. */
  lemma {:induction false} RunSimulates(sets: nat, assocs: nat, limit: nat, ops: seq<Op>)
    returns (c: Cache, orders: seq<seq<nat>>)
    requires sets >= 1 && assocs >= 1
    ensures RunOps(EmptyCache(sets, assocs, Lru, limit), ops) == Done(c) && CacheOk(c)
    ensures c.policy == Lru && c.sets == sets && c.assocs == assocs
    ensures Simulates(c, RefRun(sets, assocs, ops), orders)
  {
    var empty := EmptyCache(sets, assocs, Lru, limit);
    EmptyOk(sets, assocs, Lru, limit);
    if ops == [] {
      c, orders := empty, seq(sets, _ => []);
    } else {
      var front, op := ops[..|ops| - 1], ops[|ops| - 1];
      var c0, orders0 := RunSimulates(sets, assocs, limit, front);
      ApplyKeepsOk(c0, op);
      orders, c := ApplySimulates(c0, RefRun(sets, assocs, front), orders0, op);
    }
  }

  /** After any run, a read hits exactly when the recency list of its set holds the line; otherwise the reported
      dirty eviction is exactly the dirty last line of a full list. */
  lemma ReadAnswers(sets: nat, assocs: nat, limit: nat, ops: seq<Op>, addr: nat, rnd: nat)
    returns (c: Cache, c': Cache)
    requires sets >= 1 && assocs >= 1
    ensures RunOps(EmptyCache(sets, assocs, Lru, limit), ops) == Done(c) && c.Sized()
    ensures var answer := RefRead(RefRun(sets, assocs, ops)[addr % sets], addr, assocs).1;
      ReadOn(c, addr, rnd) == (Done(c'), answer.hit) && (!answer.hit ==> DirtyTag(answer) == Reported(c'))
  {
    var orders;
    c, orders := RunSimulates(sets, assocs, limit, ops);
    orders, c' := ReadSimulates(c, RefRun(sets, assocs, ops), orders, addr, rnd);
  }
}
