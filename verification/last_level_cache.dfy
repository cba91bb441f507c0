/** The last-level cache: lookup, victim selection under four policies, and installation (src/mcache.cpp).

    The class works in place on the flat array of entries, as the source does; each method is proved
    against a function on the value `Cache`, about which the run-level results are stated. */
module LastLevelCache {
  import MR = MixedRadix

  const SRRIP_MAX: nat := 7
  const SRRIP_INIT: nat := 1

  datatype Policy = Lru | Rnd | Srrip | LruWbt

  datatype Entry = Entry(valid: bool, dirty: bool, tag: nat, ripctr: nat, lastAccess: nat)
  {
    predicate Holds(addr: nat) { valid && tag == addr }
  }

  /** `limit` is LRU_WB_TTH; `epochWb` is wb_in_2k_epoch, which nothing resets (src/sim.cpp:136). */
  datatype Cache = Cache(
    sets: nat, assocs: nat, policy: Policy, limit: nat,
    entries: seq<Entry>,
    count: nat, misses: nat, evictions: nat,
    evictedDirty: bool, evictedLine: nat,
    forced: nat, avoided: nat, epochWb: nat)
  {
    predicate Sized() { sets >= 1 && assocs >= 1 && |entries| == sets * assocs }

    function Set(addr: nat): (s: nat)
      requires sets >= 1
      ensures s < sets
    {
      addr % sets
    }

    /** The ways of a set. */
    function Ways(s: nat): (ws: seq<Entry>)
      requires Sized() && s < sets
      ensures |ws| == assocs
    {
      var lo, hi := Lo(this, s), SetEnd(this, s);
      assert 0 <= lo <= hi <= |entries| && hi - lo == assocs;
      entries[lo..hi]
    }
  }

  lemma SetBounds(sets: nat, assocs: nat, s: nat)
    requires s < sets
    ensures 0 <= s * assocs && s * assocs + assocs <= sets * assocs
  {
    MR.MulMono(s + 1, sets, assocs);
    MR.MulDistrib(s, 1, assocs);
    MR.MulMono(0, s, assocs);
  }

  /** First way of a set, and the way after its last. */
  function Lo(c: Cache, s: nat): nat { s * c.assocs }

  function SetEnd(c: Cache, s: nat): (hi: nat)
    requires c.Sized() && s < c.sets
    ensures Lo(c, s) < hi <= |c.entries| && hi == Lo(c, s) + c.assocs
  {
    SetBounds(c.sets, c.assocs, s);
    Lo(c, s) + c.assocs
  }

  // ----- Searches over the ways lo..hi -----

  /** The first way that holds the line, or hi. */
  function Lookup(es: seq<Entry>, lo: nat, hi: nat, addr: nat): (k: nat)
    requires lo <= hi <= |es|
    ensures lo <= k <= hi && (k < hi ==> es[k].Holds(addr)) && forall j :: lo <= j < k ==> !es[j].Holds(addr)
    decreases hi - lo
  {
    if lo == hi || es[lo].Holds(addr) then lo else Lookup(es, lo + 1, hi, addr)
  }

  function FirstInvalid(es: seq<Entry>, lo: nat, hi: nat): (k: nat)
    requires lo <= hi <= |es|
    ensures lo <= k <= hi && (k < hi ==> !es[k].valid) && forall j :: lo <= j < k ==> es[j].valid
    decreases hi - lo
  {
    if lo == hi || !es[lo].valid then lo else FirstInvalid(es, lo + 1, hi)
  }

  /** The first of the least recently accessed ways. */
  ghost predicate IsOldest(es: seq<Entry>, lo: nat, hi: nat, k: nat) {
    && lo <= k < hi <= |es|
    && (forall j :: lo <= j < hi ==> es[k].lastAccess <= es[j].lastAccess)
    && forall j :: lo <= j < k ==> es[k].lastAccess < es[j].lastAccess
  }

  function Oldest(es: seq<Entry>, lo: nat, hi: nat): (k: nat)
    requires lo < hi <= |es|
    ensures IsOldest(es, lo, hi, k)
  {
    if hi == lo + 1 then lo
    else
      var k := Oldest(es, lo, hi - 1);
      if es[hi - 1].lastAccess < es[k].lastAccess then hi - 1 else k
  }

  /** A line that may be evicted without exceeding the write-back budget. */
  predicate Eligible(e: Entry, open: bool) { !e.dirty || open }

  /** The first of the least recently accessed eligible ways; hi if every way is dirty and the budget is spent. */
  ghost predicate IsOldestEligible(es: seq<Entry>, lo: nat, hi: nat, open: bool, k: nat) {
    && lo <= k <= hi <= |es|
    && (k == hi ==> forall j :: lo <= j < hi ==> !Eligible(es[j], open))
    && (k < hi ==>
          && Eligible(es[k], open)
          && (forall j :: lo <= j < hi && Eligible(es[j], open) ==> es[k].lastAccess <= es[j].lastAccess)
          && forall j :: lo <= j < k && Eligible(es[j], open) ==> es[k].lastAccess < es[j].lastAccess)
  }

  function OldestEligible(es: seq<Entry>, lo: nat, hi: nat, open: bool): (k: nat)
    requires lo <= hi <= |es|
    ensures IsOldestEligible(es, lo, hi, open, k)
    decreases hi
  {
    if hi == lo then hi
    else
      var k := OldestEligible(es, lo, hi - 1, open);
      var e := es[hi - 1];
      if k == hi - 1 then (if Eligible(e, open) then hi - 1 else hi)
      else if e.lastAccess < es[k].lastAccess && Eligible(e, open) then hi - 1
      else k
  }

  function MinRip(es: seq<Entry>, lo: nat, hi: nat): (m: nat)
    requires lo < hi <= |es|
    ensures (forall j :: lo <= j < hi ==> m <= es[j].ripctr) && exists j :: lo <= j < hi && es[j].ripctr == m
  {
    if hi == lo + 1 then es[lo].ripctr
    else
      var m := MinRip(es, lo, hi - 1);
      if es[hi - 1].ripctr < m then es[hi - 1].ripctr else m
  }

  /** The first way with the smallest counter. */
  ghost predicate IsFirstMinRip(es: seq<Entry>, lo: nat, hi: nat, k: nat) {
    && lo <= k < hi <= |es|
    && (forall j :: lo <= j < hi ==> es[k].ripctr <= es[j].ripctr)
    && forall j :: lo <= j < k ==> es[k].ripctr < es[j].ripctr
  }

  function FirstRip(es: seq<Entry>, lo: nat, hi: nat, m: nat): (k: nat)
    requires lo <= hi <= |es|
    ensures lo <= k <= hi && (k < hi ==> es[k].ripctr == m) && forall j :: lo <= j < k ==> es[j].ripctr != m
    decreases hi - lo
  {
    if lo == hi || es[lo].ripctr == m then lo else FirstRip(es, lo + 1, hi, m)
  }

  function Less(x: nat, y: nat): nat { if x < y then 0 else x - y }

  /** Every counter of the ways lo..hi lowered by m. */
  function Aged(es: seq<Entry>, lo: nat, hi: nat, m: nat): (r: seq<Entry>)
    requires lo <= hi <= |es|
    ensures |r| == |es|
    ensures forall i :: 0 <= i < |es| ==>
      r[i] == if lo <= i < hi then es[i].(ripctr := Less(es[i].ripctr, m)) else es[i]
  {
    seq(|es|, i requires 0 <= i < |es| => if lo <= i < hi then es[i].(ripctr := Less(es[i].ripctr, m)) else es[i])
  }

  // ----- The operations on values -----

  function AccessOn(c: Cache, addr: nat): (r: (Cache, bool))
    requires c.Sized()
    ensures r.0.Sized()
  {
    var s := c.Set(addr);
    var lo, hi := Lo(c, s), SetEnd(c, s);
    var k := Lookup(c.entries, lo, hi, addr);
    var n := c.count + 1;
    if k < hi then
      (c.(count := n, entries := c.entries[k := c.entries[k].(lastAccess := n, ripctr := SRRIP_MAX)]), true)
    else (c.(count := n, misses := c.misses + 1), false)
  }

  function InvalidateOn(c: Cache, addr: nat): (r: Cache)
    requires c.Sized()
    ensures r.Sized()
  {
    var s := c.Set(addr);
    var lo, hi := Lo(c, s), SetEnd(c, s);
    var k := Lookup(c.entries, lo, hi, addr);
    if k < hi then c.(entries := c.entries[k := c.entries[k].(valid := false)]) else c
  }

  function MarkDirtyOn(c: Cache, addr: nat): (r: Cache)
    requires c.Sized()
    ensures r.Sized()
  {
    var s := c.Set(addr);
    var lo, hi := Lo(c, s), SetEnd(c, s);
    var k := Lookup(c.entries, lo, hi, addr);
    if k < hi then c.(entries := c.entries[k := c.entries[k].(dirty := true)]) else c
  }

  /** The write-back-throttled choice and its counters. */
  function WbtVictim(c: Cache, lo: nat, hi: nat): (r: (Cache, nat))
    requires lo < hi <= |c.entries|
    ensures lo <= r.1 < hi && r.0 == c.(forced := r.0.forced, avoided := r.0.avoided, epochWb := r.0.epochWb)
  {
    var lru, k := Oldest(c.entries, lo, hi), WbtChoice(c, lo, hi);
    var v := if k == hi then lru else k;
    (Charge(c, k < hi, lru, v), v)
  }

  /** The throttled scan: an invalid way at once, else the oldest eligible one, else hi. */
  function WbtChoice(c: Cache, lo: nat, hi: nat): (k: nat)
    requires lo < hi <= |c.entries|
    ensures lo <= k <= hi
  {
    var inv := FirstInvalid(c.entries, lo, hi);
    if inv < hi then inv else OldestEligible(c.entries, lo, hi, c.epochWb < c.limit)
  }

  /** The throttle's counters for evicting v where plain LRU would have taken lru. */
  function Charge(c: Cache, found: bool, lru: nat, v: nat): (r: Cache)
    requires lru < |c.entries| && v < |c.entries|
    ensures r == c.(forced := r.forced, avoided := r.avoided, epochWb := r.epochWb)
  {
    var c1 :=
      if !found then c.(forced := c.forced + 1)
      else if lru != v && c.entries[lru].dirty && !c.entries[v].dirty then c.(avoided := c.avoided + 1)
      else c;
    if c.entries[v].dirty then c1.(epochWb := c.epochWb + 1) else c1
  }

  /** mcache_find_victim: an invalid way, else the policy's choice. */
  function Victim(c: Cache, lo: nat, hi: nat, rnd: nat): (r: (Cache, nat))
    requires lo < hi <= |c.entries|
    ensures lo <= r.1 < hi && |r.0.entries| == |c.entries| && (c.Sized() ==> r.0.Sized())
  {
    var inv := FirstInvalid(c.entries, lo, hi);
    if inv < hi then (c, inv) else PolicyVictim(c, lo, hi, rnd)
  }

  function PolicyVictim(c: Cache, lo: nat, hi: nat, rnd: nat): (r: (Cache, nat))
    requires lo < hi <= |c.entries|
    ensures lo <= r.1 < hi && |r.0.entries| == |c.entries| && (c.Sized() ==> r.0.Sized())
  {
    match c.policy
    case Lru => (c, Oldest(c.entries, lo, hi))
    case Rnd => (c, lo + rnd % (hi - lo))
    case Srrip =>
      var m := MinRip(c.entries, lo, hi);
      (c.(entries := Aged(c.entries, lo, hi, m)), FirstRip(c.entries, lo, hi, m))
    case LruWbt => WbtVictim(c, lo, hi)
  }

  datatype Installed = Done(cache: Cache) | AlreadyPresent

  /** mcache_install; AlreadyPresent where the source exits. */
  function InstallOn(c: Cache, addr: nat, rnd: nat): (r: Installed)
    requires c.Sized()
    ensures r.Done? ==> r.cache.Sized()
  {
    var s := c.Set(addr);
    var lo, hi := Lo(c, s), SetEnd(c, s);
    if Lookup(c.entries, lo, hi, addr) < hi then AlreadyPresent
    else
      var (c1, v) := Victim(c.(evictedDirty := false), lo, hi, rnd);
      Done(Replace(c1, v, addr))
  }

  /** The new line takes the victim's way; a dirty line that goes is reported. */
  function Replace(c: Cache, v: nat, addr: nat): (r: Cache)
    requires v < |c.entries|
    ensures |r.entries| == |c.entries| && (c.Sized() ==> r.Sized())
  {
    var e := c.entries[v];
    var writesBack := e.valid && e.dirty;
    c.(evictions := c.evictions + (if e.valid then 1 else 0),
       evictedDirty := writesBack,
       evictedLine := if writesBack then e.tag else c.evictedLine,
       entries := c.entries[v := Entry(true, false, addr, SRRIP_INIT, c.count)])
  }

  /** A read as the core performs it: an access, and on a miss an installation (src/mcore.cpp:117-123). */
  function ReadOn(c: Cache, addr: nat, rnd: nat): (r: (Installed, bool))
    requires c.Sized()
    ensures r.0.Done? ==> r.0.cache.Sized()
  {
    var (c1, hit) := AccessOn(c, addr);
    if hit then (Done(c1), true) else (InstallOn(c1, addr, rnd), false)
  }

  // ----- The cache in place -----

  class MCache {
    const sets: nat
    const assocs: nat
    const policy: Policy
    const limit: nat
    var entries: array<Entry>
    var count: nat
    var misses: nat
    var evictions: nat
    var evictedDirty: bool
    var evictedLine: nat
    var forced: nat
    var avoided: nat
    var epochWb: nat

    ghost predicate Valid()
      reads this
    {
      sets >= 1 && assocs >= 1 && entries.Length == sets * assocs
    }

    ghost function View(): (c: Cache)
      reads this, entries
    {
      Cache(sets, assocs, policy, limit, entries[..], count, misses, evictions, evictedDirty, evictedLine,
            forced, avoided, epochWb)
    }

    constructor (sets: nat, assocs: nat, policy: Policy, limit: nat)
      requires sets >= 1 && assocs >= 1
      ensures Valid() && fresh(entries) && View().Sized()
      ensures View() == Cache(sets, assocs, policy, limit, seq(sets * assocs, _ => Entry(false, false, 0, 0, 0)),
                              0, 0, 0, false, 0, 0, 0, 0)
    {
      this.sets, this.assocs, this.policy, this.limit := sets, assocs, policy, limit;
      entries := new Entry[sets * assocs](_ => Entry(false, false, 0, 0, 0));
      count, misses, evictions, evictedDirty, evictedLine := 0, 0, 0, false, 0;
      forced, avoided, epochWb := 0, 0, 0;
    }

    method Range(addr: nat) returns (lo: nat, hi: nat)
      requires Valid()
      ensures View().Sized() && lo == Lo(View(), View().Set(addr)) && hi == SetEnd(View(), View().Set(addr))
    {
      SetBounds(sets, assocs, addr % sets);
      lo := addr % sets * assocs;
      hi := lo + assocs;
    }

    method Access(addr: nat) returns (hit: bool)
      requires Valid()
      modifies this, entries
      ensures Valid() && entries == old(entries)
      ensures (View(), hit) == AccessOn(old(View()), addr)
    {
      var lo, hi := Range(addr);
      count := count + 1;
      var i := lo;
      while i < hi
        invariant lo <= i <= hi
        invariant Lookup(entries[..], lo, hi, addr) == Lookup(entries[..], i, hi, addr)
      {
        if entries[i].Holds(addr) {
          entries[i] := entries[i].(lastAccess := count, ripctr := SRRIP_MAX);
          return true;
        }
        i := i + 1;
      }
      misses := misses + 1;
      return false;
    }

    method Probe(addr: nat) returns (found: bool)
      requires Valid()
      ensures View().Sized() && (found <==> exists e <- View().Ways(View().Set(addr)) :: e.Holds(addr))
    {
      var lo, hi := Range(addr);
      ghost var ws := View().Ways(View().Set(addr));
      var i := lo;
      while i < hi
        invariant lo <= i <= hi
        invariant forall j :: lo <= j < i ==> !entries[j].Holds(addr)
      {
        if entries[i].Holds(addr) {
          assert ws[i - lo] == entries[i];
          return true;
        }
        i := i + 1;
      }
      return false;
    }

    method Invalidate(addr: nat) returns (found: bool)
      requires Valid()
      modifies entries
      ensures View() == InvalidateOn(old(View()), addr)
      ensures found <==> old(View()) != View()
    {
      var lo, hi := Range(addr);
      var i := lo;
      while i < hi
        invariant lo <= i <= hi
        invariant Lookup(entries[..], lo, hi, addr) == Lookup(entries[..], i, hi, addr)
      {
        if entries[i].Holds(addr) {
          entries[i] := entries[i].(valid := false);
          assert View().entries[i] != old(View()).entries[i];
          return true;
        }
        i := i + 1;
      }
      return false;
    }

    method MarkDirty(addr: nat) returns (found: bool)
      requires Valid()
      modifies entries
      ensures View() == MarkDirtyOn(old(View()), addr)
      ensures found <==> exists e <- old(View().Ways(View().Set(addr))) :: e.Holds(addr)
    {
      var lo, hi := Range(addr);
      ghost var ws := View().Ways(View().Set(addr));
      var i := lo;
      while i < hi
        invariant lo <= i <= hi
        invariant Lookup(entries[..], lo, hi, addr) == Lookup(entries[..], i, hi, addr)
        invariant forall j :: lo <= j < i ==> !entries[j].Holds(addr)
      {
        if entries[i].Holds(addr) {
          assert ws[i - lo] == entries[i];
          entries[i] := entries[i].(dirty := true);
          return true;
        }
        i := i + 1;
      }
      return false;
    }

    method FindVictimLru(lo: nat, hi: nat) returns (v: nat)
      requires lo < hi <= entries.Length
      ensures v == Oldest(entries[..], lo, hi)
    {
      v := lo;
      var i := lo;
      while i < hi
        invariant lo <= i <= hi
        invariant i == lo ==> v == lo
        invariant i > lo ==> v == Oldest(entries[..], lo, i)
      {
        if entries[i].lastAccess < entries[v].lastAccess { v := i; }
        i := i + 1;
      }
    }

    /** The first way whose counter is zero, or hi. */
    method FindZero(lo: nat, hi: nat) returns (v: nat)
      requires lo < hi <= entries.Length
      ensures v == FirstRip(entries[..], lo, hi, 0)
    {
      v := lo;
      while v < hi
        invariant lo <= v <= hi
        invariant FirstRip(entries[..], lo, hi, 0) == FirstRip(entries[..], v, hi, 0)
      {
        if entries[v].ripctr == 0 { return; }
        v := v + 1;
      }
    }

    method AgeOnce(lo: nat, hi: nat)
      requires lo < hi <= entries.Length && forall j :: lo <= j < hi ==> entries[j].ripctr > 0
      modifies entries
      ensures entries[..] == Aged(old(entries[..]), lo, hi, 1)
    {
      var i := lo;
      while i < hi
        invariant lo <= i <= hi
        invariant entries[..] == Aged(old(entries[..]), lo, i, 1)
      {
        entries[i] := entries[i].(ripctr := entries[i].ripctr - 1);
        i := i + 1;
      }
    }

    /** The aging loop ends with the closed form: the first minimal way, everything lowered by the minimum. */
    method FindVictimSrrip(lo: nat, hi: nat) returns (v: nat)
      requires lo < hi <= entries.Length
      modifies entries
      ensures var m := MinRip(old(entries[..]), lo, hi);
        v == FirstRip(old(entries[..]), lo, hi, m) && entries[..] == Aged(old(entries[..]), lo, hi, m)
      ensures IsFirstMinRip(old(entries[..]), lo, hi, v)
    {
      ghost var es, m := entries[..], MinRip(entries[..], lo, hi);
      ghost var t := 0;
      v := hi;
      while v == hi
        invariant t <= m && lo <= v <= hi
        invariant entries[..] == Aged(es, lo, hi, t)
        invariant v < hi ==> t == m && v == FirstRip(entries[..], lo, hi, 0)
        decreases m - t, v == hi
      {
        v := FindZero(lo, hi);
        FirstZero(es, lo, hi, t, m);
        if v == hi {
          AgeOnce(lo, hi);
          t := t + 1;
          AgedTwice(es, lo, hi, t - 1);
        }
      }
      FirstRipAged(es, lo, hi, m, lo);
    }

    /** The scan of the throttled policy: an invalid way at once, else the oldest eligible one. */
    method FindEligible(lo: nat, hi: nat) returns (found: bool, v: nat)
      requires lo < hi <= entries.Length
      ensures lo <= v < hi && (found <==> WbtChoice(View(), lo, hi) < hi) && (found ==> v == WbtChoice(View(), lo, hi))
    {
      found, v := false, lo;
      var i := lo;
      while i < hi
        invariant lo <= i <= hi && lo <= v < hi
        invariant FirstInvalid(entries[..], lo, hi) == FirstInvalid(entries[..], i, hi)
        invariant OldestEligible(entries[..], lo, i, epochWb < limit) == if found then v else i
        invariant found ==> v < i
      {
        if !entries[i].valid { return true, i; }
        if !found || entries[i].lastAccess < entries[v].lastAccess {
          if !entries[i].dirty || epochWb < limit { v, found := i, true; }
        }
        i := i + 1;
      }
    }

    method FindVictimLruWbt(lo: nat, hi: nat) returns (v: nat)
      requires lo < hi <= entries.Length
      modifies this`forced, this`avoided, this`epochWb
      ensures (View(), v) == WbtVictim(old(View()), lo, hi)
    {
      var found;
      found, v := FindEligible(lo, hi);
      var lru := FindVictimLru(lo, hi);
      if !found { v := lru; }
      CountChoice(found, lru, v);
    }

    method CountChoice(found: bool, lru: nat, v: nat)
      requires lru < entries.Length && v < entries.Length
      modifies this`forced, this`avoided, this`epochWb
      ensures View() == Charge(old(View()), found, lru, v)
    {
      if !found {
        forced := forced + 1;
      } else if lru != v && entries[lru].dirty && !entries[v].dirty {
        avoided := avoided + 1;
      }
      if entries[v].dirty { epochWb := epochWb + 1; }
    }

    method FindInvalid(lo: nat, hi: nat) returns (k: nat)
      requires lo < hi <= entries.Length
      ensures k == FirstInvalid(entries[..], lo, hi)
    {
      k := lo;
      while k < hi
        invariant lo <= k <= hi
        invariant FirstInvalid(entries[..], lo, hi) == FirstInvalid(entries[..], k, hi)
      {
        if !entries[k].valid { return; }
        k := k + 1;
      }
    }

    method FindVictim(lo: nat, hi: nat, rnd: nat) returns (v: nat)
      requires lo < hi <= entries.Length
      modifies this`forced, this`avoided, this`epochWb, entries
      ensures (View(), v) == Victim(old(View()), lo, hi, rnd)
    {
      v := FindInvalid(lo, hi);
      if v == hi { v := FindByPolicy(lo, hi, rnd); }
    }

    method FindByPolicy(lo: nat, hi: nat, rnd: nat) returns (v: nat)
      requires lo < hi <= entries.Length
      modifies this`forced, this`avoided, this`epochWb, entries
      ensures (View(), v) == PolicyVictim(old(View()), lo, hi, rnd)
    {
      match policy
      case Lru => v := FindVictimLru(lo, hi);
      case Rnd => v := lo + rnd % (hi - lo);
      case Srrip =>
        ghost var c, m := View(), MinRip(entries[..], lo, hi);
        v := FindVictimSrrip(lo, hi);
        assert View() == c.(entries := Aged(c.entries, lo, hi, m));
      case LruWbt => v := FindVictimLruWbt(lo, hi);
    }

    /** The source exits when the line is already there; the caller then gets false. */
    method Install(addr: nat, rnd: nat) returns (ok: bool)
      requires Valid()
      modifies this, entries
      ensures Valid() && entries == old(entries)
      ensures ok <==> InstallOn(old(View()), addr, rnd).Done?
      ensures ok ==> View() == InstallOn(old(View()), addr, rnd).cache
    {
      var lo, hi := Range(addr);
      var k := Find(addr, lo, hi);
      if k < hi { return false; }
      ghost var c := View();
      evictedDirty := false;
      assert View() == c.(evictedDirty := false);
      var v := FindVictim(lo, hi, rnd);
      Place(v, addr);
      return true;
    }

    method Find(addr: nat, lo: nat, hi: nat) returns (k: nat)
      requires lo <= hi <= entries.Length
      ensures k == Lookup(entries[..], lo, hi, addr)
    {
      k := lo;
      while k < hi
        invariant lo <= k <= hi
        invariant Lookup(entries[..], lo, hi, addr) == Lookup(entries[..], k, hi, addr)
      {
        if entries[k].Holds(addr) { return; }
        k := k + 1;
      }
    }

    method Place(v: nat, addr: nat)
      requires v < entries.Length && !evictedDirty
      modifies this`evictions, this`evictedDirty, this`evictedLine, entries
      ensures View() == Replace(old(View()), v, addr)
    {
      if entries[v].valid {
        evictions := evictions + 1;
        if entries[v].dirty { evictedDirty, evictedLine := true, entries[v].tag; }
      }
      entries[v] := Entry(true, false, addr, SRRIP_INIT, count);
    }
  }

  // ----- The aging loop -----

  lemma AgedTwice(es: seq<Entry>, lo: nat, hi: nat, t: nat)
    requires lo <= hi <= |es|
    ensures Aged(Aged(es, lo, hi, t), lo, hi, 1) == Aged(es, lo, hi, t + 1)
  {}

  /** Before the minimum is reached no counter is zero; when it is, the first zero is the victim. */
  lemma FirstZero(es: seq<Entry>, lo: nat, hi: nat, t: nat, m: nat)
    requires lo < hi <= |es| && m == MinRip(es, lo, hi) && t <= m
    ensures FirstRip(Aged(es, lo, hi, t), lo, hi, 0) < hi <==> t == m
  {
    var j :| lo <= j < hi && es[j].ripctr == m;
    assert Aged(es, lo, hi, t)[j].ripctr == m - t;
  }

  lemma {:induction false} FirstRipAged(es: seq<Entry>, lo: nat, hi: nat, m: nat, i: nat)
    requires lo < hi <= |es| && m == MinRip(es, lo, hi) && lo <= i <= hi
    ensures FirstRip(Aged(es, lo, hi, m), i, hi, 0) == FirstRip(es, i, hi, m)
    decreases hi - i
  {
    if i < hi { FirstRipAged(es, lo, hi, m, i + 1); }
  }
}
