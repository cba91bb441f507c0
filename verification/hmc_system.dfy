/** The HMC memory system in place: insertion, arbitration and the two drain loops (DRAMsim3/src/hmc.cc). */
module HmcSystems {
  import opened HmcCrossbar
  import opened Sequences
  import MR = MixedRadix

  // ----- Insertion as a scan over the links -----

  /** The i-th link after `start`, going round. */
  function LinkAround(x: Xbar, start: nat, i: nat): (l: nat)
    requires start < x.Links() && i <= x.Links()
    ensures l < x.Links()
  {
    if start + i >= x.Links() then start + i - x.Links() else start + i
  }

  /** The first i with room on the i-th link around, or the number of links. */
  function FirstRoom(x: Xbar, start: nat, i: nat): (k: nat)
    requires start < x.Links() && i <= x.Links()
    ensures i <= k <= x.Links() && (k < x.Links() ==> HasRoom(x, LinkAround(x, start, k)))
    ensures forall j :: i <= j < k ==> !HasRoom(x, LinkAround(x, start, j))
    decreases x.Links() - i
  {
    if i == x.Links() || HasRoom(x, LinkAround(x, start, i)) then i else FirstRoom(x, start, i + 1)
  }

  /** InsertHMCReq: the first link with room from nextLink on takes the request. */
  function InsertOn(x: Xbar, r: Packet): (Xbar, bool)
    requires x.Shaped()
  {
    var k := FirstRoom(x, x.nextLink, 0);
    if k == x.Links() then (x, false)
    else
      var l := LinkAround(x, x.nextLink, k);
      (PutOnLink(x, r, l).(nextLink := Next(x, l)), true)
  }

  /** An insertion succeeds exactly when WillAcceptTransaction says so. */
  lemma InsertIffRoom(x: Xbar, r: Packet)
    requires x.Shaped()
    ensures InsertOn(x, r).1 <==> exists l :: 0 <= l < x.Links() && HasRoom(x, l)
  {
    forall l | 0 <= l < x.Links() && HasRoom(x, l) ensures InsertOn(x, r).1 {
      var i := if l >= x.nextLink then l - x.nextLink else l + x.Links() - x.nextLink;
      assert LinkAround(x, x.nextLink, i) == l;
    }
  }

  /** The insertion keeps the books; a failed one changes nothing. */
  lemma InsertKeeps(x: Xbar, r: Packet)
    requires XbarOk(x) && 0 <= r.quad < QUADS
    ensures XbarOk(InsertOn(x, r).0) && (!InsertOn(x, r).1 ==> InsertOn(x, r).0 == x)
  {
    var k := FirstRoom(x, x.nextLink, 0);
    if k < x.Links() {
      var l := LinkAround(x, x.nextLink, k);
      PutKeeps(x, r, l);
      var x1 := PutOnLink(x, r, l);
      forall a ensures Balanced(x1.(nextLink := Next(x, l)), a) { assert Balanced(x1, a); }
    }
  }

  lemma ShapedAt(x: Xbar, link: nat)
    requires x.Shaped() && link < x.Links()
    ensures x.(nextLink := link).Shaped()
  {}

  lemma {:induction false} AgeInsertAt(q: seq<nat>, pos: nat, age: int, k: nat)
    requires k <= |q| && (forall j :: 0 <= j < k ==> !(age > q[j])) && (k < |q| ==> age > q[k])
    ensures AgeInsert(q, pos, age) == q[..k] + [pos] + q[k..]
  {
    if k > 0 {
      AgeInsertAt(q[1..], pos, age, k - 1);
      assert q == [q[0]] + q[1..];
    }
  }

  // ----- The system -----

  class HmcSystem {
    const depth: nat
    var logicClk: nat
    var nextLink: nat
    var linkReq: seq<seq<Packet>>
    var linkResp: seq<seq<Packet>>
    var quadReq: seq<seq<Packet>>
    var quadResp: seq<seq<Packet>>
    var linkBusy: seq<int>
    var quadBusy: seq<int>
    var linkAge: seq<int>
    var quadAge: seq<int>
    var table: seq<Packet>
    var vaults: seq<nat>
    var accepted: seq<nat>
    var delivered: seq<nat>

    ghost function View(): (x: Xbar)
      reads this
    {
      Xbar(depth, logicClk, nextLink, linkReq, linkResp, quadReq, quadResp, linkBusy, quadBusy, linkAge, quadAge,
           table, vaults, accepted, delivered)
    }

    constructor (links: nat, depth: nat)
      requires links >= 1
      ensures View() == InitXbar(links, depth) && XbarOk(View())
    {
      this.depth, logicClk, nextLink := depth, 0, 0;
      linkReq, linkResp := seq(links, _ => []), seq(links, _ => []);
      quadReq, quadResp := seq(QUADS, _ => []), seq(QUADS, _ => []);
      linkBusy, quadBusy := seq(links, _ => 0), seq(QUADS, _ => 0);
      linkAge, quadAge := seq(links, _ => 0), seq(QUADS, _ => 0);
      table, vaults, accepted, delivered := [], [], [], [];
      new;
      InitOk(links, depth);
    }

    method WillAccept() returns (b: bool)
      requires View().Shaped()
      ensures b <==> exists l :: 0 <= l < View().Links() && HasRoom(View(), l)
    {
      var i := 0;
      while i < |linkReq|
        invariant i <= |linkReq| && forall l :: 0 <= l < i ==> !HasRoom(View(), l)
      {
        if |linkReq[i]| < depth {
          assert HasRoom(View(), i);
          return true;
        }
        i := i + 1;
      }
      return false;
    }

    method InsertReqToLink(r: Packet, link: nat) returns (ok: bool)
      requires View().Shaped() && link < View().Links()
      modifies this`linkReq, this`table, this`linkAge, this`accepted
      ensures ok <==> HasRoom(old(View()), link)
      ensures View() == if ok then PutOnLink(old(View()), r, link) else old(View())
    {
      if |linkReq[link]| < depth {
        linkReq := linkReq[link := linkReq[link] + [r.(link := link)]];
        table := table + [Answer(r, link)];
        linkAge := linkAge[link := 1];
        accepted := accepted + [r.id];
        return true;
      }
      return false;
    }

    method InsertHmcReq(r: Packet) returns (ok: bool)
      requires View().Shaped()
      modifies this`linkReq, this`table, this`linkAge, this`accepted, this`nextLink
      ensures (View(), ok) == InsertOn(old(View()), r)
    {
      ok := InsertReqToLink(r, nextLink);
      if ok {
        IterateNextLink();
      } else {
        ok := TryOthers(r);
      }
    }

    method IterateNextLink()
      requires nextLink < |linkReq|
      modifies this`nextLink
      ensures nextLink == Next(View(), old(nextLink))
    {
      nextLink := (nextLink + 1) % |linkReq|;
    }

    /** The loop over the other links, ending at the link it started from. */
    method TryOthers(r: Packet) returns (ok: bool)
      requires View().Shaped() && !HasRoom(View(), nextLink)
      modifies this`linkReq, this`table, this`linkAge, this`accepted, this`nextLink
      ensures (View(), ok) == InsertOn(old(View()), r)
    {
      ghost var x := View();
      var start := nextLink;
      IterateNextLink();
      ghost var k := 1;
      while start != nextLink
        invariant 1 <= k <= x.Links() && nextLink == LinkAround(x, start, k) && View() == x.(nextLink := nextLink)
        invariant FirstRoom(x, start, 0) == FirstRoom(x, start, k)
        decreases x.Links() - k
      {
        ShapedAt(x, nextLink);
        ok := InsertReqToLink(r, nextLink);
        IterateNextLink();
        if ok { return; }
        k := k + 1;
      }
      ok := false;
    }

    method BuildAgeQueue(ages: seq<int>) returns (q: seq<nat>)
      requires ages != []
      ensures q == AgeOrder(ages, logicClk)
    {
      MR.IsDivMod(logicClk, |ages|);
      var start := logicClk % |ages|;
      q := [];
      var i := 0;
      while i < |ages|
        invariant i <= |ages| && q == AgeQueue(ages, start, i)
      {
        MR.IsDivMod(i + start, |ages|);
        var pos := (i + start) % |ages|;
        if ages[pos] > 0 { q := InsertByAge(q, pos, ages[pos]); }
        i := i + 1;
      }
    }

    method InsertByAge(q: seq<nat>, pos: nat, age: int) returns (r: seq<nat>)
      ensures r == AgeInsert(q, pos, age)
    {
      var k := 0;
      while k < |q| && !(age > q[k])
        invariant k <= |q| && forall j :: 0 <= j < k ==> !(age > q[j])
      {
        k := k + 1;
      }
      AgeInsertAt(q, pos, age, k);
      r := q[..k] + [pos] + q[k..];
    }

    method CoolDown(busy: seq<int>) returns (r: seq<int>)
      ensures r == Cool(busy)
    {
      r := busy;
      var i := 0;
      while i < |busy|
        invariant i <= |busy| == |r| && r[..i] == Cool(busy)[..i] && r[i..] == busy[i..]
      {
        if r[i] > 0 { r := r[i := r[i] - 2]; }
        i := i + 1;
      }
    }

    method DrainRequests(accepts: nat -> bool)
      requires View().Shaped() && AgesOk(linkAge, linkReq)
      modifies this`linkReq, this`quadReq, this`quadBusy, this`linkAge, this`vaults
      ensures View() == DrainRequestsOn(old(View()), accepts)
    {
      FeedVaults(accepts);
      quadBusy := CoolDown(quadBusy);
      var q := BuildAgeQueue(linkAge);
      OldestWait(View());
      ServeLinks(q);
    }

    method FeedVaults(accepts: nat -> bool)
      requires |quadReq| == |quadResp| == QUADS
      modifies this`quadReq, this`vaults
      ensures View() == ToVaults(old(View()), QUADS, accepts)
    {
      var i := 0;
      while i < QUADS
        invariant i <= QUADS && View() == ToVaults(old(View()), i, accepts)
      {
        if quadReq[i] != [] && |quadResp[i]| < depth && quadReq[i][0].exitTime <= logicClk && accepts(i) {
          vaults := vaults + [quadReq[i][0].id];
          quadReq := quadReq[i := quadReq[i][1..]];
        }
        i := i + 1;
      }
    }

    method ServeLinks(order: seq<nat>)
      requires LinksWait(View(), order)
      modifies this`linkReq, this`quadReq, this`quadBusy, this`linkAge
      ensures View() == LinksToQuads(old(View()), order)
    {
      var q := order;
      while q != []
        invariant LinksWait(View(), q) && LinksToQuads(View(), q) == LinksToQuads(old(View()), order)
        decreases |q|
      {
        assert q[0] in q && forall k <- q[1..] :: k in q && k != q[0];
        CrossToQuad(q[0]);
        q := q[1..];
      }
    }

    method CrossToQuad(src: nat)
      requires View().Shaped() && src < View().Links() && linkReq[src] != []
      modifies this`linkReq, this`quadReq, this`quadBusy, this`linkAge
      ensures View() == LinkToQuad(old(View()), src)
    {
      var r := linkReq[src][0];
      assert View().Placed(r);
      if |quadReq[r.quad]| < depth && quadBusy[r.quad] <= 0 {
        linkReq := linkReq[src := linkReq[src][1..]];
        quadReq := quadReq[r.quad := quadReq[r.quad] + [r.(exitTime := logicClk + r.flits)]];
        quadBusy := quadBusy[r.quad := r.flits];
        linkAge := linkAge[src := if linkReq[src] == [] then 0 else 1];
      } else {
        linkAge := linkAge[src := linkAge[src] + 1];
      }
    }

    method DrainResponses()
      requires View().Shaped() && AgesOk(quadAge, quadResp)
      modifies this`linkResp, this`quadResp, this`linkBusy, this`quadAge, this`delivered
      ensures View() == DrainResponsesOn(old(View()))
    {
      CallBack();
      linkBusy := CoolDown(linkBusy);
      var q := BuildAgeQueue(quadAge);
      OldestQuadsWait(View());
      ServeQuads(q);
    }

    method CallBack()
      modifies this`linkResp, this`delivered
      ensures View() == ToCpus(old(View()), |old(linkResp)|)
    {
      var i := 0;
      while i < |linkResp|
        invariant i <= |linkResp| == |old(linkResp)| && View() == ToCpus(old(View()), i)
      {
        if linkResp[i] != [] && linkResp[i][0].exitTime <= logicClk {
          delivered := delivered + [linkResp[i][0].id];
          linkResp := linkResp[i := linkResp[i][1..]];
        }
        i := i + 1;
      }
    }

    method ServeQuads(order: seq<nat>)
      requires QuadsWait(View(), order)
      modifies this`linkResp, this`quadResp, this`linkBusy, this`quadAge
      ensures View() == QuadsToLinks(old(View()), order)
    {
      var q := order;
      while q != []
        invariant QuadsWait(View(), q) && QuadsToLinks(View(), q) == QuadsToLinks(old(View()), order)
        decreases |q|
      {
        assert q[0] in q && forall k <- q[1..] :: k in q && k != q[0];
        CrossToLink(q[0]);
        q := q[1..];
      }
    }

    method CrossToLink(src: nat)
      requires View().Shaped() && src < QUADS && quadResp[src] != []
      modifies this`linkResp, this`quadResp, this`linkBusy, this`quadAge
      ensures View() == QuadToLink(old(View()), src)
    {
      var r := quadResp[src][0];
      assert View().Placed(r);
      if |linkResp[r.link]| < depth && linkBusy[r.link] <= 0 {
        quadResp := quadResp[src := quadResp[src][1..]];
        linkResp := linkResp[r.link := linkResp[r.link] + [r.(exitTime := logicClk + r.flits)]];
        linkBusy := linkBusy[r.link := r.flits];
        quadAge := quadAge[src := if quadResp[src] == [] then 0 else 1];
      } else {
        quadAge := quadAge[src := quadAge[src] + 1];
      }
    }

    /** A vault returns its entry j; the lookup cannot fail. */
    method VaultCallback(j: nat)
      requires XbarOk(View()) && j < |vaults|
      modifies this`table, this`vaults, this`quadResp, this`quadAge
      ensures Find(old(table), old(vaults)[j]) < |old(table)| && View() == CallbackOn(old(View()), j)
      ensures XbarOk(View())
    {
      CallbackKeeps(View(), j);
      var k := Lookup(vaults[j]);
      var r := table[k];
      assert View().Placed(r);
      table := Cut(table, k);
      vaults := Cut(vaults, j);
      quadResp := quadResp[r.quad := quadResp[r.quad] + [r]];
      quadAge := quadAge[r.quad := 1];
    }

    method Lookup(id: nat) returns (k: nat)
      ensures k == Find(table, id)
    {
      k := 0;
      while k < |table| && table[k].id != id
        invariant k <= |table| && Find(table, id) == k + Find(table[k..], id)
      {
        assert table[k..][1..] == table[k + 1..];
        k := k + 1;
      }
    }
  }

  lemma {:induction false} EmptyCount(qs: seq<seq<Packet>>, a: nat)
    requires forall i :: 0 <= i < |qs| ==> qs[i] == []
    ensures CountAll(qs, a) == 0
  {
    if qs != [] { EmptyCount(qs[1..], a); }
  }

  // ----- Runs -----

  function InitXbar(links: nat, depth: nat): Xbar {
    Xbar(depth, 0, 0, seq(links, _ => []), seq(links, _ => []), seq(QUADS, _ => []), seq(QUADS, _ => []),
         seq(links, _ => 0), seq(QUADS, _ => 0), seq(links, _ => 0), seq(QUADS, _ => 0), [], [], [], [])
  }

  /** What happens to the crossbar: the processor inserts, the two drains, a vault completes, the logic clock moves. */
  datatype Step = Insert(r: Packet) | Requests(accepts: nat -> bool) | Responses | Complete(j: nat) | LogicTick

  ghost predicate StepsTo(x: Xbar, step: Step, x': Xbar) {
    match step
    case Insert(r) => x.Shaped() && 0 <= r.quad < QUADS && x' == InsertOn(x, r).0
    case Requests(accepts) => x.Shaped() && AgesOk(x.linkAge, x.linkReq) && x' == DrainRequestsOn(x, accepts)
    case Responses => x.Shaped() && AgesOk(x.quadAge, x.quadResp) && x' == DrainResponsesOn(x)
    case Complete(j) =>
      x.Shaped() && j < |x.vaults| && Find(x.table, x.vaults[j]) < |x.table| && x' == CallbackOn(x, j)
    case LogicTick => x' == x.(logicClk := x.logicClk + 1)
  }

  ghost predicate Run(states: seq<Xbar>, steps: seq<Step>, links: nat, depth: nat) {
    && |states| == |steps| + 1 && states[0] == InitXbar(links, depth)
    && forall i :: 0 <= i < |steps| ==> StepsTo(states[i], steps[i], states[i + 1])
  }

  lemma InitOk(links: nat, depth: nat)
    requires links >= 1
    ensures XbarOk(InitXbar(links, depth))
  {
    var x := InitXbar(links, depth);
    forall a ensures Balanced(x, a) {
      EmptyCount(x.linkReq, a);
      EmptyCount(x.linkResp, a);
      EmptyCount(x.quadReq, a);
      EmptyCount(x.quadResp, a);
    }
  }

  lemma StepKeeps(x: Xbar, step: Step, x': Xbar)
    requires XbarOk(x) && StepsTo(x, step, x')
    ensures XbarOk(x')
  {
    match step
    case Insert(r) => InsertKeeps(x, r);
    case Requests(accepts) => DrainRequestsKeeps(x, accepts);
    case Responses => DrainResponsesKeeps(x);
    case Complete(j) => CallbackKeeps(x, j);
    case LogicTick => forall a ensures Balanced(x', a) { assert Balanced(x, a); }
  }

  /** Over every interleaving: a link or quad has a positive age exactly when its queue is not empty, and per address
      the lookup table counts the requests outstanding in links, quads and vaults. */
  lemma {:induction false} RunOk(states: seq<Xbar>, steps: seq<Step>, links: nat, depth: nat, i: nat)
    requires links >= 1 && Run(states, steps, links, depth) && i < |states|
    ensures XbarOk(states[i])
  {
    if i == 0 {
      InitOk(links, depth);
    } else {
      RunOk(states, steps, links, depth, i - 1);
      StepKeeps(states[i - 1], steps[i - 1], states[i]);
    }
  }

  /** Responses match requests in number: never more callbacks than accepted requests of an address, and as many
      once nothing of it is in the crossbar or the vaults. */
  lemma ResponsesMatch(states: seq<Xbar>, steps: seq<Step>, links: nat, depth: nat, i: nat, a: nat)
    requires links >= 1 && Run(states, steps, links, depth) && i < |states|
    ensures var x := states[i];
      var pending := CountAll(x.linkReq, a) + CountAll(x.quadReq, a) + CountIds(x.vaults, a)
                     + CountAll(x.quadResp, a) + CountAll(x.linkResp, a);
      CountIds(x.accepted, a) == CountIds(x.delivered, a) + pending
  {
    RunOk(states, steps, links, depth, i);
    assert Balanced(states[i], a);
  }
}
