/** The last-level cache over whole runs: tags stay unique and in their set, counters stay in range, and
    the write-back budget is kept (src/mcache.cpp). */
module CacheRuns {
  import opened LastLevelCache
  import MR = MixedRadix

  datatype Op = Read(addr: nat, rnd: nat) | MarkDirty(addr: nat) | Invalidate(addr: nat)

  function Apply(c: Cache, op: Op): (r: Installed)
    requires c.Sized()
    ensures r.Done? ==> r.cache.Sized()
  {
    match op
    case Read(a, rnd) => ReadOn(c, a, rnd).0
    case MarkDirty(a) => Done(MarkDirtyOn(c, a))
    case Invalidate(a) => Done(InvalidateOn(c, a))
  }

  /** All operations in order, the last one last; AlreadyPresent once the source has exited. */
  function RunOps(c: Cache, ops: seq<Op>): (r: Installed)
    requires c.Sized()
    ensures r.Done? ==> r.cache.Sized()
  {
    if ops == [] then Done(c)
    else
      match RunOps(c, ops[..|ops| - 1])
      case AlreadyPresent => AlreadyPresent
      case Done(c1) => Apply(c1, ops[|ops| - 1])
  }

  function EmptyCache(sets: nat, assocs: nat, policy: Policy, limit: nat): (c: Cache)
    requires sets >= 1 && assocs >= 1
    ensures c.Sized()
  {
    MR.MulMono(1, sets, assocs);
    var entries := seq(sets * assocs, _ => Entry(false, false, 0, 0, 0));
    Cache(sets, assocs, policy, limit, entries, 0, 0, 0, false, 0, 0, 0, 0)
  }

  /** Every valid line is in the set its address indexes, no two share a tag or a timestamp, timestamps lie in the
      past, SRRIP counters in 0..7, and write-backs beyond the budget were all forced. */
  ghost predicate CacheOk(c: Cache) {
    && c.Sized()
    && (forall i :: 0 <= i < |c.entries| ==> WayOk(c, i))
    && (forall i, j :: 0 <= i < j < |c.entries| && c.entries[i].valid && c.entries[j].valid ==>
          c.entries[i].tag != c.entries[j].tag && c.entries[i].lastAccess != c.entries[j].lastAccess)
    && c.epochWb <= c.limit + c.forced
  }

  predicate WayOk(c: Cache, i: nat)
    requires c.sets >= 1 && i < |c.entries|
  {
    var e := c.entries[i];
    && e.lastAccess <= c.count && e.ripctr <= SRRIP_MAX
    && (e.valid ==> var lo := Lo(c, c.Set(e.tag)); lo <= i < lo + c.assocs)
  }

  // ----- One operation keeps CacheOk -----

  lemma EmptyOk(sets: nat, assocs: nat, policy: Policy, limit: nat)
    requires sets >= 1 && assocs >= 1
    ensures CacheOk(EmptyCache(sets, assocs, policy, limit))
  {}

  /** Changing one way to an entry that keeps its tag and is stamped now, or not stamped at all. */
  lemma UpdateOk(c: Cache, k: nat, e: Entry, n: nat)
    requires CacheOk(c) && k < |c.entries| && n >= c.count
    requires e.tag == c.entries[k].tag && e.ripctr <= SRRIP_MAX && (e.valid ==> c.entries[k].valid)
    requires e.lastAccess == c.entries[k].lastAccess || (e.lastAccess == n && n > c.count)
    ensures CacheOk(c.(entries := c.entries[k := e], count := n))
  {
    var c' := c.(entries := c.entries[k := e], count := n);
    forall i | 0 <= i < |c.entries| ensures WayOk(c', i) && c.entries[i].lastAccess <= c.count {
      assert WayOk(c, i);
    }
  }

  lemma CountOk(c: Cache, n: nat, m: nat)
    requires CacheOk(c) && n >= c.count
    ensures CacheOk(c.(count := n, misses := m))
  {
    forall i | 0 <= i < |c.entries| ensures WayOk(c.(count := n, misses := m), i) { assert WayOk(c, i); }
  }

  lemma AccessKeepsOk(c: Cache, addr: nat)
    requires CacheOk(c)
    ensures CacheOk(AccessOn(c, addr).0)
  {
    var s := c.Set(addr);
    SetBounds(c.sets, c.assocs, s);
    var k := Lookup(c.entries, Lo(c, s), Lo(c, s) + c.assocs, addr);
    if k < Lo(c, s) + c.assocs {
      UpdateOk(c, k, c.entries[k].(lastAccess := c.count + 1, ripctr := SRRIP_MAX), c.count + 1);
    } else {
      CountOk(c, c.count + 1, c.misses + 1);
    }
  }

  lemma MarkKeepsOk(c: Cache, addr: nat)
    requires CacheOk(c)
    ensures CacheOk(MarkDirtyOn(c, addr)) && CacheOk(InvalidateOn(c, addr))
  {
    var s := c.Set(addr);
    SetBounds(c.sets, c.assocs, s);
    var k := Lookup(c.entries, Lo(c, s), Lo(c, s) + c.assocs, addr);
    if k < Lo(c, s) + c.assocs {
      assert WayOk(c, k);
      UpdateOk(c, k, c.entries[k].(dirty := true), c.count);
      UpdateOk(c, k, c.entries[k].(valid := false), c.count);
    }
  }

  /** Victim selection changes no more than SRRIP counters, downwards, and the throttle's counters. */
  ghost predicate SameLines(c: Cache, c': Cache) {
    && |c'.entries| == |c.entries|
    && (forall i :: 0 <= i < |c.entries| ==>
          c'.entries[i] == c.entries[i].(ripctr := c'.entries[i].ripctr) && c'.entries[i].ripctr <= c.entries[i].ripctr)
    && c' == c.(entries := c'.entries, forced := c'.forced, avoided := c'.avoided, epochWb := c'.epochWb)
  }

  /** The throttle: plain LRU only when every way is dirty and the budget is spent; a write-back within the
      budget or a forced one is all that raises the count. */
  lemma WbtBudget(c: Cache, lo: nat, hi: nat)
    requires lo < hi <= |c.entries| && c.epochWb <= c.limit + c.forced
    requires forall i :: lo <= i < hi ==> c.entries[i].valid
    ensures var (c', v) := WbtVictim(c, lo, hi);
      && c'.epochWb <= c'.limit + c'.forced
      && if c.epochWb >= c.limit && forall i :: lo <= i < hi ==> c.entries[i].dirty
         then c'.forced == c.forced + 1 && IsOldest(c.entries, lo, hi, v)
         else c'.forced == c.forced && IsOldestEligible(c.entries, lo, hi, c.epochWb < c.limit, v)
  {}

  lemma VictimKeeps(c: Cache, lo: nat, hi: nat, rnd: nat)
    requires lo < hi <= |c.entries| && c.epochWb <= c.limit + c.forced
    ensures SameLines(c, Victim(c, lo, hi, rnd).0)
    ensures Victim(c, lo, hi, rnd).0.epochWb <= c.limit + Victim(c, lo, hi, rnd).0.forced
  {
    if FirstInvalid(c.entries, lo, hi) == hi && c.policy == LruWbt { WbtBudget(c, lo, hi); }
  }

  /** Putting an absent line into a way of its set, stamped later than anything in the cache. */
  lemma ReplaceOk(c: Cache, c1: Cache, v: nat, addr: nat)
    requires CacheOk(c) && SameLines(c, c1) && c1.epochWb <= c1.limit + c1.forced
    requires Lo(c, c.Set(addr)) <= v < Lo(c, c.Set(addr)) + c.assocs && v < |c.entries|
    requires forall i :: 0 <= i < |c.entries| ==> c.entries[i].lastAccess < c.count
    requires forall i :: Lo(c, c.Set(addr)) <= i < Lo(c, c.Set(addr)) + c.assocs && i < |c.entries| ==>
      !c.entries[i].Holds(addr)
    ensures CacheOk(Replace(c1, v, addr))
  {
    var c' := Replace(c1, v, addr);
    forall i | 0 <= i < |c'.entries|
      ensures WayOk(c', i)
      ensures i != v && c'.entries[i].valid ==> c'.entries[i].tag != addr && c'.entries[i].lastAccess < c.count
    {
      assert WayOk(c, i);
    }
  }

  /** The state in which a missing access leaves the cache for the installation that follows it. */
  ghost predicate Missed(c: Cache, addr: nat) {
    && CacheOk(c)
    && (forall i :: 0 <= i < |c.entries| ==> c.entries[i].lastAccess < c.count)
    && Lookup(c.entries, Lo(c, c.Set(addr)), SetEnd(c, c.Set(addr)), addr) == SetEnd(c, c.Set(addr))
  }

  lemma AccessMisses(c: Cache, addr: nat)
    requires CacheOk(c) && !AccessOn(c, addr).1
    ensures Missed(AccessOn(c, addr).0, addr)
  {
    AccessKeepsOk(c, addr);
    forall i | 0 <= i < |c.entries| ensures c.entries[i].lastAccess <= c.count { assert WayOk(c, i); }
  }

  /** An installation after a miss is a victim choice and a replacement. */
  lemma InstallSplits(c: Cache, addr: nat, rnd: nat) returns (c0: Cache, c1: Cache, v: nat)
    requires Missed(c, addr)
    ensures c0 == c.(evictedDirty := false) && Lo(c, c.Set(addr)) <= v < SetEnd(c, c.Set(addr))
    ensures (c1, v) == Victim(c0, Lo(c, c.Set(addr)), SetEnd(c, c.Set(addr)), rnd)
    ensures InstallOn(c, addr, rnd) == Done(Replace(c1, v, addr))
  {
    c0 := c.(evictedDirty := false);
    var r := Victim(c0, Lo(c, c.Set(addr)), SetEnd(c, c.Set(addr)), rnd);
    c1, v := r.0, r.1;
  }

  lemma InstallKeepsOk(c: Cache, addr: nat, rnd: nat)
    requires Missed(c, addr)
    ensures InstallOn(c, addr, rnd).Done? && CacheOk(InstallOn(c, addr, rnd).cache)
  {
    var c0, c1, v := InstallSplits(c, addr, rnd);
    VictimKeeps(c0, Lo(c, c.Set(addr)), SetEnd(c, c.Set(addr)), rnd);
    FlagOk(c);
    MissedOk(c0, c1, v, addr);
  }

  lemma MissedOk(c: Cache, c1: Cache, v: nat, addr: nat)
    requires Missed(c, addr) && SameLines(c, c1) && c1.epochWb <= c1.limit + c1.forced
    requires Lo(c, c.Set(addr)) <= v < SetEnd(c, c.Set(addr))
    ensures CacheOk(Replace(c1, v, addr))
  {
    ReplaceOk(c, c1, v, addr);
  }

  lemma FlagOk(c: Cache)
    requires CacheOk(c)
    ensures CacheOk(c.(evictedDirty := false))
  {
    forall i | 0 <= i < |c.entries| ensures WayOk(c.(evictedDirty := false), i) { assert WayOk(c, i); }
  }

  /** No operation ever finds its line already installed, and each keeps the invariant. */
  lemma ApplyKeepsOk(c: Cache, op: Op)
    requires CacheOk(c)
    ensures Apply(c, op).Done? && CacheOk(Apply(c, op).cache)
  {
    match op
    case Read(a, rnd) =>
      AccessKeepsOk(c, a);
      if !AccessOn(c, a).1 {
        AccessMisses(c, a);
        InstallKeepsOk(AccessOn(c, a).0, a, rnd);
      }
    case MarkDirty(a) => MarkKeepsOk(c, a);
    case Invalidate(a) => MarkKeepsOk(c, a);
  }

  /** Over every run: unique tags in their sets, counters in 0..7, and `epochWb <= limit + forced`. */
  lemma {:induction false} RunKeepsOk(c: Cache, ops: seq<Op>)
    requires CacheOk(c)
    ensures RunOps(c, ops).Done? && CacheOk(RunOps(c, ops).cache)
  {
    if ops != [] {
      RunKeepsOk(c, ops[..|ops| - 1]);
      ApplyKeepsOk(RunOps(c, ops[..|ops| - 1]).cache, ops[|ops| - 1]);
    }
  }
}
