/** The controller as a memory: every read returns the latest write accepted before it, and every
    accepted transaction is called back exactly once. */
module DataRefinement {
  import opened Commands
  import opened Configuration
  import opened CommandQueues
  import opened Controllers
  import opened Bookkeeping

  /** The reference memory: the last write to an address in a history of requests. */
  function LatestWrite(h: seq<Request>, a: nat): Option<nat> {
    if h == [] then None
    else if h[|h| - 1] == Request(a, true) then Some(|h| - 1)
    else LatestWrite(h[..|h| - 1], a)
  }

  predicate Named(h: seq<Request>, t: Transaction) { t.name < |h| && h[t.name] == Request(t.addr, t.isWrite) }

  /** What a transaction must see: the writes accepted before it. */
  function Expected(h: seq<Request>, t: Transaction): Option<nat>
    requires t.name <= |h|
  {
    LatestWrite(h[..t.name], t.addr)
  }

  predicate Answered(h: seq<Request>, t: Transaction) {
    Named(h, t) && (!t.isWrite ==> t.data == Expected(h, t))
  }

  /** Pending writes over the array are the reference memory. */
  ghost predicate ContentOk(s: Controller) {
    && s.wrData.Keys == s.pendingWr.Keys
    && forall a: nat :: LatestWrite(s.accepted, a) == if a in s.wrData then Some(s.wrData[a]) else Lookup(s.dram, a)
  }

  /** The array still holds what each pending read must return. */
  ghost predicate ReadsOk(s: Controller) {
    forall t <- s.pendingRd ::
      Named(s.accepted, t) && !t.isWrite && Expected(s.accepted, t) == Lookup(s.dram, t.addr)
  }

  /** Completed reads carry the right datum, and nothing is called back before its completion cycle. */
  ghost predicate AnswersOk(s: Controller) {
    && (forall t <- s.returnQ :: Answered(s.accepted, t))
    && (forall t <- s.done :: Answered(s.accepted, t) && t.complete <= s.clk)
  }

  ghost predicate DataInv(s: Controller) { ContentOk(s) && ReadsOk(s) && AnswersOk(s) }

  /** How often a transaction is listed. */
  function NameCount(q: seq<Transaction>, n: nat): nat {
    if q == [] then 0 else Bit(q[0].name == n) + NameCount(q[1..], n)
  }

  function Places(s: Controller, n: nat): nat {
    NameCount(s.pendingRd, n) + NameCount(s.returnQ, n) + NameCount(s.done, n)
  }

  /** Every accepted transaction is in exactly one place: waiting for data, waiting to return, or called back. */
  ghost predicate OnceInv(s: Controller) {
    forall n: nat :: Places(s, n) == Bit(n < |s.accepted|)
  }

  lemma {:induction false} CountConcat(p: seq<Transaction>, q: seq<Transaction>, n: nat)
    ensures NameCount(p + q, n) == NameCount(p, n) + NameCount(q, n)
  {
    if p == [] {
      assert p + q == q;
    } else {
      assert (p + q)[1..] == p[1..] + q;
      CountConcat(p[1..], q, n);
    }
  }

  lemma {:induction false} CountAppend(q: seq<Transaction>, t: Transaction, n: nat)
    ensures NameCount(q + [t], n) == NameCount(q, n) + Bit(t.name == n)
  {
    CountConcat(q, [t], n);
    assert [t][1..] == [];
  }

  lemma {:induction false} CountSplit(q: seq<Transaction>, a: nat, n: nat)
    ensures NameCount(q, n) == NameCount(At(q, a), n) + NameCount(NotAt(q, a), n)
  {
    if q != [] {
      CountSplit(q[1..], a, n);
      CountConcat(if q[0].addr == a then [q[0]] else [], At(q[1..], a), n);
      CountConcat(if q[0].addr != a then [q[0]] else [], NotAt(q[1..], a), n);
      assert [q[0]][1..] == [];
    }
  }

  lemma {:induction false} CountCompleted(q: seq<Transaction>, at: nat, data: Option<nat>, n: nat)
    ensures NameCount(Completed(q, at, data), n) == NameCount(q, n)
  {
    if q != [] {
      assert Completed(q, at, data)[1..] == Completed(q[1..], at, data);
      CountCompleted(q[1..], at, data, n);
    }
  }

  lemma CountRemove(q: seq<Transaction>, i: nat, n: nat)
    requires i < |q|
    ensures NameCount(q, n) == NameCount(q[..i] + q[i + 1..], n) + Bit(q[i].name == n)
  {
    CountConcat(q[..i], q[i + 1..], n);
    CountConcat(q[..i], q[i..], n);
    assert q == q[..i] + q[i..] && q[i..][1..] == q[i + 1..];
  }

  // ----- AddTransaction -----

  /** A new request changes the reference memory only at a written address. */
  lemma HistoryGrows(h: seq<Request>, r: Request, a: nat)
    ensures LatestWrite(h + [r], a) == if r == Request(a, true) then Some(|h|) else LatestWrite(h, a)
  {
    assert (h + [r])[..|h|] == h;
  }

  /** What is owed to older transactions does not change. */
  lemma HistoryKeeps(h: seq<Request>, r: Request)
    ensures forall t :: Named(h, t) ==> Named(h + [r], t) && Expected(h + [r], t) == Expected(h, t)
  {
    forall t | Named(h, t) ensures Named(h + [r], t) && Expected(h + [r], t) == Expected(h, t) {
      assert (h + [r])[..t.name] == h[..t.name];
    }
  }

  lemma AddEffect(cfg: Config, s: Controller, addr: nat, isWrite: bool) returns (t: Transaction)
    ensures var s' := AddTransaction(cfg, s, addr, isWrite);
      && s'.accepted == s.accepted + [Request(addr, isWrite)] && s'.done == s.done && s'.dram == s.dram
      && s'.wrData == (if isWrite then s.wrData[addr := |s.accepted|] else s.wrData)
      && s'.pendingWr.Keys == s.pendingWr.Keys + (if isWrite then {addr} else {})
      && t.name == |s.accepted|
      && (if isWrite || addr in s.pendingWr
          then s'.pendingRd == s.pendingRd && s'.returnQ == s.returnQ + [t]
          else s'.pendingRd == s.pendingRd + [t] && s'.returnQ == s.returnQ)
  {
    t := Transaction(addr, isWrite, s.clk, 0, |s.accepted|, None);
    if isWrite { t := t.(complete := s.clk + 1); }
    else if addr in s.pendingWr { t := t.(complete := s.clk + 1, data := Lookup(s.wrData, addr)); }
  }

  lemma ContentGrows(s: Controller, s': Controller, addr: nat, isWrite: bool)
    requires ContentOk(s) && s'.accepted == s.accepted + [Request(addr, isWrite)] && s'.dram == s.dram
    requires s'.wrData == if isWrite then s.wrData[addr := |s.accepted|] else s.wrData
    requires s'.pendingWr.Keys == s.pendingWr.Keys + (if isWrite then {addr} else {})
    ensures ContentOk(s')
  {
    forall a: nat
      ensures LatestWrite(s'.accepted, a) == if a in s'.wrData then Some(s'.wrData[a]) else Lookup(s'.dram, a)
    {
      HistoryGrows(s.accepted, Request(addr, isWrite), a);
    }
  }

  lemma AddKeepsContent(cfg: Config, s: Controller, addr: nat, isWrite: bool)
    requires ContentOk(s)
    ensures ContentOk(AddTransaction(cfg, s, addr, isWrite))
  {
    var t := AddEffect(cfg, s, addr, isWrite);
    ContentGrows(s, AddTransaction(cfg, s, addr, isWrite), addr, isWrite);
  }

  lemma AddKeepsReads(cfg: Config, s: Controller, addr: nat, isWrite: bool)
    requires ContentOk(s) && ReadsOk(s)
    ensures ReadsOk(AddTransaction(cfg, s, addr, isWrite))
  {
    var r, h, s' := Request(addr, isWrite), s.accepted, AddTransaction(cfg, s, addr, isWrite);
    HistoryKeeps(h, r);
    assert (h + [r])[..|h|] == h;
    assert LatestWrite(h, addr) == if addr in s.wrData then Some(s.wrData[addr]) else Lookup(s.dram, addr);
  }

  lemma AddKeepsAnswers(cfg: Config, s: Controller, addr: nat, isWrite: bool)
    requires ContentOk(s) && AnswersOk(s)
    ensures AnswersOk(AddTransaction(cfg, s, addr, isWrite))
  {
    var r, h, s' := Request(addr, isWrite), s.accepted, AddTransaction(cfg, s, addr, isWrite);
    HistoryKeeps(h, r);
    assert (h + [r])[..|h|] == h;
    assert LatestWrite(h, addr) == if addr in s.wrData then Some(s.wrData[addr]) else Lookup(s.dram, addr);
  }

  lemma AddKeepsData(cfg: Config, s: Controller, addr: nat, isWrite: bool)
    requires DataInv(s)
    ensures DataInv(AddTransaction(cfg, s, addr, isWrite))
  {
    AddKeepsContent(cfg, s, addr, isWrite);
    AddKeepsReads(cfg, s, addr, isWrite);
    AddKeepsAnswers(cfg, s, addr, isWrite);
  }

  lemma AddKeepsOnce(cfg: Config, s: Controller, addr: nat, isWrite: bool)
    requires OnceInv(s)
    ensures OnceInv(AddTransaction(cfg, s, addr, isWrite))
  {
    var t := AddEffect(cfg, s, addr, isWrite);
    var s' := AddTransaction(cfg, s, addr, isWrite);
    forall n: nat ensures Places(s', n) == Bit(n < |s'.accepted|) {
      assert Places(s, n) == Bit(n < |s.accepted|);
      CountAppend(s.pendingRd, t, n);
      CountAppend(s.returnQ, t, n);
    }
  }

  // ----- IssueCommand -----

  lemma RetireKeepsData(cfg: Config, s: Controller, c: Command)
    requires DataInv(s) && Retire(cfg, s, c).Some?
    requires c.ty.IsWrite() ==> c.hex !in Keys(s.pendingRd)
    ensures DataInv(Retire(cfg, s, c).value)
  {
    if c.ty.IsRead() {
      AtEmpty(s.pendingRd, c.hex);
    } else if c.ty.IsWrite() {
      assert forall t <- s.pendingRd :: t.addr in Keys(s.pendingRd);
    }
  }

  lemma RetireKeepsOnce(cfg: Config, s: Controller, c: Command)
    requires OnceInv(s) && Retire(cfg, s, c).Some?
    ensures OnceInv(Retire(cfg, s, c).value)
  {
    var s' := Retire(cfg, s, c).value;
    forall n: nat ensures Places(s', n) == Bit(n < |s'.accepted|) {
      assert Places(s, n) == Bit(n < |s.accepted|);
      if c.ty.IsRead() {
        var taken, at, data := At(s.pendingRd, c.hex), s.clk + cfg.readDelay, Lookup(s.dram, c.hex);
        CountSplit(s.pendingRd, c.hex, n);
        CountCompleted(taken, at, data, n);
        CountConcat(s.returnQ, Completed(taken, at, data), n);
      }
    }
  }

  // ----- ReturnDoneTrans -----

  lemma ReturnOne(s: Controller, k: nat) returns (s': Controller)
    requires k < |s.returnQ| && s.clk >= s.returnQ[k].complete && DataInv(s) && OnceInv(s)
    ensures s' == s.(returnQ := s.returnQ[..k] + s.returnQ[k + 1..], done := s.done + [s.returnQ[k]])
    ensures DataInv(s') && OnceInv(s')
  {
    var t := s.returnQ[k];
    s' := s.(returnQ := s.returnQ[..k] + s.returnQ[k + 1..], done := s.done + [t]);
    assert AnswersOk(s') by {
      assert t in s.returnQ;
      assert forall u <- s'.returnQ :: u in s.returnQ;
    }
    forall n: nat ensures Places(s', n) == Bit(n < |s'.accepted|) {
      assert Places(s, n) == Bit(n < |s.accepted|);
      CountRemove(s.returnQ, k, n);
      CountAppend(s.done, t, n);
    }
  }

  lemma {:induction false} ReturnKeeps(s: Controller)
    requires DataInv(s) && OnceInv(s)
    ensures DataInv(ReturnAll(s)) && OnceInv(ReturnAll(s))
    decreases |s.returnQ|
  {
    var k := FirstDone(s.returnQ, 0, s.clk);
    if k < |s.returnQ| {
      var s1 := ReturnOne(s, k);
      ReturnKeeps(s1);
    }
  }
}
