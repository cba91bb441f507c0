/** The HMC crossbar: requests go from links to quads to vaults, responses back from quads to links
    (DRAMsim3/src/hmc.cc).

    The vaults are controllers; here they hold the addresses they have accepted and not yet called back, and
    whether a vault accepts is an input. `accepted` and `delivered` observe what enters and leaves. */
module HmcCrossbar {
  import MR = MixedRadix
  import opened Sequences

  const QUADS: nat := 4

  /** A request, or the response to one: same address, direction, quad and link, its own number of flits. */
  datatype Packet = Packet(id: nat, isWrite: bool, vault: int, quad: int, link: int, flits: nat, respFlits: nat,
                           exitTime: nat)

  datatype Xbar = Xbar(
    depth: nat, logicClk: nat, nextLink: nat,
    linkReq: seq<seq<Packet>>, linkResp: seq<seq<Packet>>,
    quadReq: seq<seq<Packet>>, quadResp: seq<seq<Packet>>,
    linkBusy: seq<int>, quadBusy: seq<int>, linkAge: seq<int>, quadAge: seq<int>,
    table: seq<Packet>,
    vaults: seq<nat>, accepted: seq<nat>, delivered: seq<nat>)
  {
    function Links(): nat { |linkReq| }

    /** Sizes, and packets that name existing links and quads. */
    ghost predicate Shaped() {
      && |linkReq| == |linkResp| == |linkBusy| == |linkAge| && nextLink < |linkReq|
      && |quadReq| == |quadResp| == |quadBusy| == |quadAge| == QUADS
      && (forall i, k :: 0 <= i < |linkReq| && 0 <= k < |linkReq[i]| ==> Placed(linkReq[i][k]))
      && (forall i, k :: 0 <= i < |quadResp| && 0 <= k < |quadResp[i]| ==> Placed(quadResp[i][k]))
      && (forall k :: 0 <= k < |table| ==> Placed(table[k]))
    }

    predicate Placed(p: Packet) { 0 <= p.link < |linkReq| && 0 <= p.quad < QUADS }
  }

  // ----- Inserting requests -----

  function Answer(r: Packet, link: nat): Packet { r.(link := link, flits := r.respFlits, exitTime := 0) }

  predicate HasRoom(x: Xbar, link: nat)
    requires link < |x.linkReq|
  {
    |x.linkReq[link]| < x.depth
  }

  /** InsertReqToLink when the link has room. */
  function PutOnLink(x: Xbar, r: Packet, link: nat): Xbar
    requires x.Shaped() && link < x.Links()
  {
    x.(linkReq := x.linkReq[link := x.linkReq[link] + [r.(link := link)]],
       linkAge := x.linkAge[link := 1],
       table := x.table + [Answer(r, link)],
       accepted := x.accepted + [r.id])
  }

  function Next(x: Xbar, link: nat): nat { if link + 1 >= x.Links() then 0 else link + 1 }

  // ----- Age queue -----

  /** The position goes before the first listed index that is smaller than its age. */
  function AgeInsert(q: seq<nat>, pos: nat, age: int): seq<nat> {
    if q == [] then [pos]
    else if age > q[0] then [pos] + q
    else [q[0]] + AgeInsert(q[1..], pos, age)
  }

  function Rotate(i: nat, start: nat, n: nat): (pos: nat)
    requires n >= 1
    ensures pos < n
  {
    MR.Rem(i + start, n)
  }

  /** The queue after the first i positions from `start` on. */
  function AgeQueue(ages: seq<int>, start: nat, i: nat): seq<nat>
    requires ages != [] && i <= |ages|
  {
    if i == 0 then []
    else
      var q, pos := AgeQueue(ages, start, i - 1), Rotate(i - 1, start, |ages|);
      if ages[pos] > 0 then AgeInsert(q, pos, ages[pos]) else q
  }

  lemma {:induction false} AgeInsertAdds(q: seq<nat>, pos: nat, age: int)
    ensures forall k :: k in AgeInsert(q, pos, age) <==> k == pos || k in q
    ensures pos !in q && Distinct(q) ==> Distinct(AgeInsert(q, pos, age))
    ensures |AgeInsert(q, pos, age)| == |q| + 1
  {
    if q != [] && !(age > q[0]) {
      AgeInsertAdds(q[1..], pos, age);
      var rest := AgeInsert(q[1..], pos, age);
      assert forall k :: k in q <==> k == q[0] || k in q[1..];
      assert Distinct(q) ==> Distinct(q[1..]) && q[0] !in q[1..];
      if pos !in q && Distinct(q) { DistinctCons(q[0], rest); }
    } else if pos !in q && Distinct(q) {
      DistinctCons(pos, q);
      assert [pos] + [] == [pos];
    }
  }

  ghost predicate Distinct(q: seq<nat>) { forall i, j :: 0 <= i < j < |q| ==> q[i] != q[j] }

  lemma DistinctCons(x: nat, q: seq<nat>)
    requires Distinct(q) && x !in q
    ensures Distinct([x] + q)
  {}

  /** After i positions, exactly those of the first i positions with a positive age are listed, each once. */
  lemma {:induction false} AgeQueueLists(ages: seq<int>, start: nat, i: nat)
    requires ages != [] && i <= |ages|
    ensures var q := AgeQueue(ages, start, i);
      && Distinct(q)
      && forall k :: k in q <==> exists j :: 0 <= j < i && Rotate(j, start, |ages|) == k && ages[k] > 0
  {
    if i > 0 {
      AgeQueueLists(ages, start, i - 1);
      var q, pos := AgeQueue(ages, start, i - 1), Rotate(i - 1, start, |ages|);
      AgeInsertAdds(q, pos, ages[pos]);
      forall j | 0 <= j < i - 1 ensures Rotate(j, start, |ages|) != pos { RotateInjective(j, i - 1, start, |ages|); }
      var r := AgeQueue(ages, start, i);
      forall k ensures k in r <==> exists j :: 0 <= j < i && Rotate(j, start, |ages|) == k && ages[k] > 0 {
        if k in r && k in q {
          var j :| 0 <= j < i - 1 && Rotate(j, start, |ages|) == k && ages[k] > 0;
          assert 0 <= j < i;
        }
        if k in r && k !in q { assert k == pos && Rotate(i - 1, start, |ages|) == k; }
        if exists j :: 0 <= j < i && Rotate(j, start, |ages|) == k && ages[k] > 0 {
          var j :| 0 <= j < i && Rotate(j, start, |ages|) == k && ages[k] > 0;
          assert j < i - 1 ==> k in q;
        }
      }
    }
  }

  lemma RotateInjective(i: nat, j: nat, start: nat, n: nat)
    requires i < j < n
    ensures Rotate(i, start, n) != Rotate(j, start, n)
  {
    MR.Division(i + start, n);
    MR.Division(j + start, n);
    var d := MR.Quot(j + start, n) - MR.Quot(i + start, n);
    MR.MulDistrib(d, MR.Quot(i + start, n), n);
    if d >= 1 { MR.MulMono(1, d, n); }
    if d <= -1 { MR.MulMono(d, -1, n); }
  }

  lemma RotateOnto(k: nat, start: nat, n: nat) returns (j: nat)
    requires k < n
    ensures j < n && Rotate(j, start, n) == k
  {
    var q, s := MR.Quot(start, n), MR.Rem(start, n);
    MR.Division(start, n);
    MR.MulDistrib(q, 1, n);
    if k >= s {
      j := k - s;
      MR.DivisionUnique(q, n, k);
    } else {
      j := k + n - s;
      MR.DivisionUnique(q + 1, n, k);
    }
  }

  /** BuildAgeQueue: all positions, from a start that moves with the clock. */
  function AgeOrder(ages: seq<int>, clk: nat): seq<nat>
    requires ages != []
  {
    AgeQueue(ages, MR.Rem(clk, |ages|), |ages|)
  }

  /** BuildAgeQueue lists each index with a positive age exactly once, and nothing else. */
  lemma AgeQueueExact(ages: seq<int>, clk: nat, k: nat)
    requires ages != []
    ensures var q := AgeOrder(ages, clk);
      Distinct(q) && (k in q <==> k < |ages| && ages[k] > 0)
  {
    var start := MR.Rem(clk, |ages|);
    AgeQueueLists(ages, start, |ages|);
    if k < |ages| && ages[k] > 0 { var j := RotateOnto(k, start, |ages|); }
  }

  // ----- Draining requests -----

  /** The head of a quad's request queue enters its vault, if the quad may answer, it has crossed, and the vault
      accepts. */
  predicate Enters(x: Xbar, i: nat, accepts: bool)
    requires i < |x.quadReq| && |x.quadResp| == |x.quadReq|
  {
    x.quadReq[i] != [] && |x.quadResp[i]| < x.depth && x.quadReq[i][0].exitTime <= x.logicClk && accepts
  }

  function ToVault(x: Xbar, i: nat, accepts: bool): Xbar
    requires i < |x.quadReq| && |x.quadResp| == |x.quadReq|
  {
    if !Enters(x, i, accepts) then x
    else x.(quadReq := x.quadReq[i := x.quadReq[i][1..]], vaults := x.vaults + [x.quadReq[i][0].id])
  }

  /** The first n quads in turn. */
  function ToVaults(x: Xbar, n: nat, accepts: nat -> bool): (x': Xbar)
    requires n <= |x.quadReq| && |x.quadResp| == |x.quadReq|
    ensures x' == x.(quadReq := x'.quadReq, vaults := x'.vaults) && |x'.quadReq| == |x.quadReq|
  {
    if n == 0 then x else ToVault(ToVaults(x, n - 1, accepts), n - 1, accepts(n - 1))
  }

  /** A busy counter loses the two flits of a cycle. */
  function Cool(busy: seq<int>): (r: seq<int>)
    ensures |r| == |busy| && forall i :: 0 <= i < |busy| ==> r[i] == if busy[i] > 0 then busy[i] - 2 else busy[i]
  {
    seq(|busy|, i requires 0 <= i < |busy| => if busy[i] > 0 then busy[i] - 2 else busy[i])
  }

  /** The head of a link's request queue crosses to its quad, or the link grows older. */
  function LinkToQuad(x: Xbar, src: nat): (x': Xbar)
    requires x.Shaped() && src < x.Links() && x.linkReq[src] != []
    ensures x'.Shaped() && x'.Links() == x.Links()
    ensures forall k :: 0 <= k < x.Links() && k != src ==> x'.linkReq[k] == x.linkReq[k]
  {
    var r, rest := x.linkReq[src][0], x.linkReq[src][1..];
    assert x.Placed(r);
    if |x.quadReq[r.quad]| < x.depth && x.quadBusy[r.quad] <= 0 then
      x.(linkReq := x.linkReq[src := rest],
         quadReq := x.quadReq[r.quad := x.quadReq[r.quad] + [r.(exitTime := x.logicClk + r.flits)]],
         quadBusy := x.quadBusy[r.quad := r.flits],
         linkAge := x.linkAge[src := if rest == [] then 0 else 1])
    else x.(linkAge := x.linkAge[src := x.linkAge[src] + 1])
  }

  ghost predicate LinksWait(x: Xbar, q: seq<nat>) {
    x.Shaped() && Distinct(q) && forall k <- q :: k < x.Links() && x.linkReq[k] != []
  }

  function LinksToQuads(x: Xbar, q: seq<nat>): Xbar
    requires LinksWait(x, q)
    decreases |q|
  {
    if q == [] then x
    else
      assert q[0] in q && forall k <- q[1..] :: k in q && k != q[0];
      LinksToQuads(LinkToQuad(x, q[0]), q[1..])
  }

  ghost predicate AgesOk(ages: seq<int>, qs: seq<seq<Packet>>) {
    |ages| == |qs| && forall i :: 0 <= i < |qs| ==> ages[i] >= 0 && (ages[i] > 0 <==> qs[i] != [])
  }

  lemma OldestWait(x: Xbar)
    requires x.Shaped() && AgesOk(x.linkAge, x.linkReq)
    ensures LinksWait(x, AgeOrder(x.linkAge, x.logicClk))
  {
    AgeQueueExact(x.linkAge, x.logicClk, 0);
    forall k | k in AgeOrder(x.linkAge, x.logicClk) ensures k < x.Links() && x.linkReq[k] != [] {
      AgeQueueExact(x.linkAge, x.logicClk, k);
    }
  }

  function DrainRequestsOn(x: Xbar, accepts: nat -> bool): Xbar
    requires x.Shaped() && AgesOk(x.linkAge, x.linkReq)
  {
    var x1 := ToVaults(x, QUADS, accepts);
    var x2 := x1.(quadBusy := Cool(x1.quadBusy));
    OldestWait(x2);
    LinksToQuads(x2, AgeOrder(x2.linkAge, x2.logicClk))
  }

  // ----- Draining responses -----

  /** The head of a link's response queue is called back once it has crossed. */
  function ToCpu(x: Xbar, i: nat): Xbar
    requires i < |x.linkResp|
  {
    if x.linkResp[i] != [] && x.linkResp[i][0].exitTime <= x.logicClk then
      x.(linkResp := x.linkResp[i := x.linkResp[i][1..]], delivered := x.delivered + [x.linkResp[i][0].id])
    else x
  }

  function ToCpus(x: Xbar, n: nat): (x': Xbar)
    requires n <= |x.linkResp|
    ensures x' == x.(linkResp := x'.linkResp, delivered := x'.delivered) && |x'.linkResp| == |x.linkResp|
  {
    if n == 0 then x else ToCpu(ToCpus(x, n - 1), n - 1)
  }

  function QuadToLink(x: Xbar, src: nat): (x': Xbar)
    requires x.Shaped() && src < QUADS && x.quadResp[src] != []
    ensures x'.Shaped()
    ensures forall k :: 0 <= k < QUADS && k != src ==> x'.quadResp[k] == x.quadResp[k]
  {
    var r, rest := x.quadResp[src][0], x.quadResp[src][1..];
    assert x.Placed(r);
    if |x.linkResp[r.link]| < x.depth && x.linkBusy[r.link] <= 0 then
      x.(quadResp := x.quadResp[src := rest],
         linkResp := x.linkResp[r.link := x.linkResp[r.link] + [r.(exitTime := x.logicClk + r.flits)]],
         linkBusy := x.linkBusy[r.link := r.flits],
         quadAge := x.quadAge[src := if rest == [] then 0 else 1])
    else x.(quadAge := x.quadAge[src := x.quadAge[src] + 1])
  }

  ghost predicate QuadsWait(x: Xbar, q: seq<nat>) {
    x.Shaped() && Distinct(q) && forall k <- q :: k < QUADS && x.quadResp[k] != []
  }

  function QuadsToLinks(x: Xbar, q: seq<nat>): Xbar
    requires QuadsWait(x, q)
    decreases |q|
  {
    if q == [] then x
    else
      assert q[0] in q && forall k <- q[1..] :: k in q && k != q[0];
      QuadsToLinks(QuadToLink(x, q[0]), q[1..])
  }

  lemma OldestQuadsWait(x: Xbar)
    requires x.Shaped() && AgesOk(x.quadAge, x.quadResp)
    ensures QuadsWait(x, AgeOrder(x.quadAge, x.logicClk))
  {
    AgeQueueExact(x.quadAge, x.logicClk, 0);
    forall k | k in AgeOrder(x.quadAge, x.logicClk) ensures k < QUADS && x.quadResp[k] != [] {
      AgeQueueExact(x.quadAge, x.logicClk, k);
    }
  }

  function DrainResponsesOn(x: Xbar): Xbar
    requires x.Shaped() && AgesOk(x.quadAge, x.quadResp)
  {
    var x1 := ToCpus(x, |x.linkResp|);
    var x2 := x1.(linkBusy := Cool(x1.linkBusy));
    OldestQuadsWait(x2);
    QuadsToLinks(x2, AgeOrder(x2.quadAge, x2.logicClk))
  }

  // ----- Callbacks from the vaults -----

  /** Where the lookup table holds the address: the first entry, or its length. */
  function Find(table: seq<Packet>, id: nat): (k: nat)
    ensures k <= |table| && (k < |table| ==> table[k].id == id) && forall j :: 0 <= j < k ==> table[j].id != id
  {
    if table == [] || table[0].id == id then 0 else 1 + Find(table[1..], id)
  }

  /** VaultCallback when vault entry j completes; the caller knows that the table holds its address. */
  function CallbackOn(x: Xbar, j: nat): Xbar
    requires x.Shaped() && j < |x.vaults| && Find(x.table, x.vaults[j]) < |x.table|
  {
    var k := Find(x.table, x.vaults[j]);
    var r := x.table[k];
    assert x.Placed(r);
    x.(table := Cut(x.table, k), vaults := Cut(x.vaults, j),
       quadResp := x.quadResp[r.quad := x.quadResp[r.quad] + [r]], quadAge := x.quadAge[r.quad := 1])
  }

  // ----- Bookkeeping -----

  function Bit(b: bool): nat { if b then 1 else 0 }

  /** Packets of an address in a queue, in all queues, and occurrences in a list of addresses. */
  function Count(q: seq<Packet>, a: nat): nat { if q == [] then 0 else Bit(q[0].id == a) + Count(q[1..], a) }

  function CountAll(qs: seq<seq<Packet>>, a: nat): nat {
    if qs == [] then 0 else Count(qs[0], a) + CountAll(qs[1..], a)
  }

  function CountIds(s: seq<nat>, a: nat): nat { if s == [] then 0 else Bit(s[0] == a) + CountIds(s[1..], a) }

  /** Every table entry of an address stands for a request in the links, quads or vaults, and every accepted request
      is in the table, on its way back or delivered. */
  ghost predicate Balanced(x: Xbar, a: nat) {
    && Count(x.table, a) == CountAll(x.linkReq, a) + CountAll(x.quadReq, a) + CountIds(x.vaults, a)
    && CountIds(x.accepted, a)
       == Count(x.table, a) + CountAll(x.quadResp, a) + CountAll(x.linkResp, a) + CountIds(x.delivered, a)
  }

  ghost predicate XbarOk(x: Xbar) {
    x.Shaped() && AgesOk(x.linkAge, x.linkReq) && AgesOk(x.quadAge, x.quadResp) && forall a :: Balanced(x, a)
  }

  lemma {:induction false} CountAppend(q: seq<Packet>, p: seq<Packet>, a: nat)
    ensures Count(q + p, a) == Count(q, a) + Count(p, a)
  {
    if q == [] {
      assert q + p == p;
    } else {
      assert (q + p)[1..] == q[1..] + p;
      CountAppend(q[1..], p, a);
    }
  }

  lemma CountOne(q: seq<Packet>, r: Packet, a: nat)
    ensures Count(q + [r], a) == Count(q, a) + Bit(r.id == a)
  {
    CountAppend(q, [r], a);
    assert [r][1..] == [];
  }

  lemma CountCut(q: seq<Packet>, k: nat, a: nat)
    requires k < |q|
    ensures Count(q, a) == Count(Cut(q, k), a) + Bit(q[k].id == a)
  {
    assert q == q[..k] + q[k..] && q[k..][1..] == q[k + 1..];
    CountAppend(q[..k], q[k..], a);
    CountAppend(q[..k], q[k + 1..], a);
  }

  lemma {:induction false} CountUpdate(qs: seq<seq<Packet>>, i: nat, q: seq<Packet>, a: nat)
    requires i < |qs|
    ensures CountAll(qs[i := q], a) + Count(qs[i], a) == CountAll(qs, a) + Count(q, a)
  {
    if i > 0 {
      assert qs[i := q][1..] == qs[1..][i - 1 := q];
      CountUpdate(qs[1..], i - 1, q, a);
    } else {
      assert qs[i := q][1..] == qs[1..];
    }
  }

  lemma {:induction false} IdsAppend(s: seq<nat>, t: seq<nat>, a: nat)
    ensures CountIds(s + t, a) == CountIds(s, a) + CountIds(t, a)
  {
    if s == [] {
      assert s + t == t;
    } else {
      assert (s + t)[1..] == s[1..] + t;
      IdsAppend(s[1..], t, a);
    }
  }

  lemma IdsOne(s: seq<nat>, b: nat, a: nat)
    ensures CountIds(s + [b], a) == CountIds(s, a) + Bit(b == a)
  {
    IdsAppend(s, [b], a);
    assert [b][1..] == [];
  }

  lemma IdsCut(s: seq<nat>, k: nat, a: nat)
    requires k < |s|
    ensures CountIds(s, a) == CountIds(Cut(s, k), a) + Bit(s[k] == a)
  {
    assert s == s[..k] + s[k..] && s[k..][1..] == s[k + 1..];
    IdsAppend(s[..k], s[k..], a);
    IdsAppend(s[..k], s[k + 1..], a);
  }

  /** A packet leaves the front of a queue, joins the end of another. */
  lemma PopCount(qs: seq<seq<Packet>>, i: nat, a: nat)
    requires i < |qs| && qs[i] != []
    ensures CountAll(qs[i := qs[i][1..]], a) + Bit(qs[i][0].id == a) == CountAll(qs, a)
  {
    CountUpdate(qs, i, qs[i][1..], a);
  }

  lemma PushCount(qs: seq<seq<Packet>>, i: nat, r: Packet, a: nat)
    requires i < |qs|
    ensures CountAll(qs[i := qs[i] + [r]], a) == CountAll(qs, a) + Bit(r.id == a)
  {
    CountUpdate(qs, i, qs[i] + [r], a);
    CountOne(qs[i], r, a);
  }

  /** A packet that moves is counted once before and once after. */
  lemma MoveCount(src: seq<seq<Packet>>, i: nat, dst: seq<seq<Packet>>, j: nat, r: Packet, a: nat)
    requires i < |src| && src[i] != [] && j < |dst| && r.id == src[i][0].id
    ensures CountAll(src[i := src[i][1..]], a) + CountAll(dst[j := dst[j] + [r]], a)
         == CountAll(src, a) + CountAll(dst, a)
  {
    PopCount(src, i, a);
    PushCount(dst, j, r, a);
  }

  lemma {:induction false} CountPositive(q: seq<Packet>, a: nat)
    requires Find(q, a) == |q|
    ensures Count(q, a) == 0
  {
    if q != [] {
      assert Find(q[1..], a) == |q[1..]| by { assert forall j :: 0 <= j < |q[1..]| ==> q[1..][j] == q[j + 1]; }
      CountPositive(q[1..], a);
    }
  }

  // ----- Every operation keeps the books -----

  lemma PutKeeps(x: Xbar, r: Packet, link: nat)
    requires XbarOk(x) && link < x.Links() && 0 <= r.quad < QUADS
    ensures XbarOk(PutOnLink(x, r, link))
  {
    var x' := PutOnLink(x, r, link);
    forall a ensures Balanced(x', a) {
      assert Balanced(x, a);
      PushCount(x.linkReq, link, r.(link := link), a);
      CountOne(x.table, Answer(r, link), a);
      IdsOne(x.accepted, r.id, a);
    }
  }

  lemma ToVaultKeeps(x: Xbar, i: nat, accepts: bool)
    requires XbarOk(x) && i < QUADS
    ensures XbarOk(ToVault(x, i, accepts))
  {
    if Enters(x, i, accepts) {
      forall a ensures Balanced(ToVault(x, i, accepts), a) {
        assert Balanced(x, a);
        PopCount(x.quadReq, i, a);
        IdsOne(x.vaults, x.quadReq[i][0].id, a);
      }
    }
  }

  lemma {:induction false} ToVaultsKeeps(x: Xbar, n: nat, accepts: nat -> bool)
    requires XbarOk(x) && n <= QUADS
    ensures XbarOk(ToVaults(x, n, accepts))
  {
    if n > 0 {
      ToVaultsKeeps(x, n - 1, accepts);
      ToVaultKeeps(ToVaults(x, n - 1, accepts), n - 1, accepts(n - 1));
    }
  }

  /** A request that crosses from a link to a quad. */
  lemma RequestCrosses(x: Xbar, x': Xbar, i: nat, j: nat, r: Packet, a: nat)
    requires i < |x.linkReq| && x.linkReq[i] != [] && j < |x.quadReq| && r.id == x.linkReq[i][0].id
    requires x'.linkReq == x.linkReq[i := x.linkReq[i][1..]] && x'.quadReq == x.quadReq[j := x.quadReq[j] + [r]]
    requires x' == x.(linkReq := x'.linkReq, quadReq := x'.quadReq, quadBusy := x'.quadBusy, linkAge := x'.linkAge)
    requires Balanced(x, a)
    ensures Balanced(x', a)
  {
    MoveCount(x.linkReq, i, x.quadReq, j, r, a);
  }

  lemma LinkToQuadBalanced(x: Xbar, src: nat, a: nat)
    requires x.Shaped() && src < x.Links() && x.linkReq[src] != [] && Balanced(x, a)
    ensures Balanced(LinkToQuad(x, src), a)
  {
    var r := x.linkReq[src][0];
    assert x.Placed(r);
    if |x.quadReq[r.quad]| < x.depth && x.quadBusy[r.quad] <= 0 {
      RequestCrosses(x, LinkToQuad(x, src), src, r.quad, r.(exitTime := x.logicClk + r.flits), a);
    }
  }

  lemma LinkToQuadKeeps(x: Xbar, src: nat)
    requires XbarOk(x) && src < x.Links() && x.linkReq[src] != []
    ensures XbarOk(LinkToQuad(x, src))
  {
    assert x.Placed(x.linkReq[src][0]);
    forall a ensures Balanced(LinkToQuad(x, src), a) {
      assert Balanced(x, a);
      LinkToQuadBalanced(x, src, a);
    }
  }

  lemma {:induction false} LinksToQuadsKeeps(x: Xbar, q: seq<nat>)
    requires XbarOk(x) && LinksWait(x, q)
    ensures XbarOk(LinksToQuads(x, q))
    decreases |q|
  {
    if q != [] {
      assert q[0] in q;
      LinkToQuadKeeps(x, q[0]);
      assert forall k <- q[1..] :: k in q && k != q[0];
      LinksToQuadsKeeps(LinkToQuad(x, q[0]), q[1..]);
    }
  }

  lemma BusyKeeps(x: Xbar, quadBusy: seq<int>, linkBusy: seq<int>)
    requires XbarOk(x) && |quadBusy| == |x.quadBusy| && |linkBusy| == |x.linkBusy|
    ensures XbarOk(x.(quadBusy := quadBusy, linkBusy := linkBusy))
  {
    forall a ensures Balanced(x.(quadBusy := quadBusy, linkBusy := linkBusy), a) { assert Balanced(x, a); }
  }

  /** DrainRequests keeps the books. */
  lemma DrainRequestsKeeps(x: Xbar, accepts: nat -> bool)
    requires XbarOk(x)
    ensures XbarOk(DrainRequestsOn(x, accepts))
  {
    var x1 := ToVaults(x, QUADS, accepts);
    var x2 := x1.(quadBusy := Cool(x1.quadBusy));
    ToVaultsKeeps(x, QUADS, accepts);
    BusyKeeps(x1, Cool(x1.quadBusy), x1.linkBusy);
    OldestWait(x2);
    LinksToQuadsKeeps(x2, AgeOrder(x2.linkAge, x2.logicClk));
  }

  lemma ToCpuKeeps(x: Xbar, i: nat)
    requires XbarOk(x) && i < x.Links()
    ensures XbarOk(ToCpu(x, i))
  {
    if x.linkResp[i] != [] && x.linkResp[i][0].exitTime <= x.logicClk {
      forall a ensures Balanced(ToCpu(x, i), a) {
        assert Balanced(x, a);
        PopCount(x.linkResp, i, a);
        IdsOne(x.delivered, x.linkResp[i][0].id, a);
      }
    }
  }

  lemma {:induction false} ToCpusKeeps(x: Xbar, n: nat)
    requires XbarOk(x) && n <= x.Links()
    ensures XbarOk(ToCpus(x, n))
  {
    if n > 0 {
      ToCpusKeeps(x, n - 1);
      ToCpuKeeps(ToCpus(x, n - 1), n - 1);
    }
  }

  /** A response that crosses from a quad to a link. */
  lemma ResponseCrosses(x: Xbar, x': Xbar, i: nat, j: nat, r: Packet, a: nat)
    requires i < |x.quadResp| && x.quadResp[i] != [] && j < |x.linkResp| && r.id == x.quadResp[i][0].id
    requires x'.quadResp == x.quadResp[i := x.quadResp[i][1..]] && x'.linkResp == x.linkResp[j := x.linkResp[j] + [r]]
    requires x' == x.(quadResp := x'.quadResp, linkResp := x'.linkResp, linkBusy := x'.linkBusy, quadAge := x'.quadAge)
    requires Balanced(x, a)
    ensures Balanced(x', a)
  {
    MoveCount(x.quadResp, i, x.linkResp, j, r, a);
  }

  lemma QuadToLinkBalanced(x: Xbar, src: nat, a: nat)
    requires x.Shaped() && src < QUADS && x.quadResp[src] != [] && Balanced(x, a)
    ensures Balanced(QuadToLink(x, src), a)
  {
    var r := x.quadResp[src][0];
    assert x.Placed(r);
    if |x.linkResp[r.link]| < x.depth && x.linkBusy[r.link] <= 0 {
      ResponseCrosses(x, QuadToLink(x, src), src, r.link, r.(exitTime := x.logicClk + r.flits), a);
    }
  }

  lemma QuadToLinkKeeps(x: Xbar, src: nat)
    requires XbarOk(x) && src < QUADS && x.quadResp[src] != []
    ensures XbarOk(QuadToLink(x, src))
  {
    assert x.Placed(x.quadResp[src][0]);
    forall a ensures Balanced(QuadToLink(x, src), a) {
      assert Balanced(x, a);
      QuadToLinkBalanced(x, src, a);
    }
  }

  lemma {:induction false} QuadsToLinksKeeps(x: Xbar, q: seq<nat>)
    requires XbarOk(x) && QuadsWait(x, q)
    ensures XbarOk(QuadsToLinks(x, q))
    decreases |q|
  {
    if q != [] {
      assert q[0] in q;
      QuadToLinkKeeps(x, q[0]);
      assert forall k <- q[1..] :: k in q && k != q[0];
      QuadsToLinksKeeps(QuadToLink(x, q[0]), q[1..]);
    }
  }

  /** DrainResponses keeps the books. */
  lemma DrainResponsesKeeps(x: Xbar)
    requires XbarOk(x)
    ensures XbarOk(DrainResponsesOn(x))
  {
    var x1 := ToCpus(x, |x.linkResp|);
    var x2 := x1.(linkBusy := Cool(x1.linkBusy));
    ToCpusKeeps(x, |x.linkResp|);
    BusyKeeps(x1, x1.quadBusy, Cool(x1.linkBusy));
    OldestQuadsWait(x2);
    QuadsToLinksKeeps(x2, AgeOrder(x2.quadAge, x2.logicClk));
  }

  /** A vault that completes always finds its entry in the table, and the callback keeps the books. */
  lemma CallbackKeeps(x: Xbar, j: nat)
    requires XbarOk(x) && j < |x.vaults|
    ensures Find(x.table, x.vaults[j]) < |x.table| && XbarOk(CallbackOn(x, j))
  {
    var id := x.vaults[j];
    assert Balanced(x, id);
    IdsCut(x.vaults, j, id);
    if Find(x.table, id) == |x.table| { CountPositive(x.table, id); }
    var k := Find(x.table, id);
    var r := x.table[k];
    assert x.Placed(r);
    forall a ensures Balanced(CallbackOn(x, j), a) {
      assert Balanced(x, a);
      CountCut(x.table, k, a);
      IdsCut(x.vaults, j, a);
      PushCount(x.quadResp, r.quad, r, a);
    }
  }
}
