/** The page allocator behind virtual-to-physical translation (src/os.cpp).

    The random numbers are a parameter: `draws(i)` is what the i-th call of rand() in a request returns. */
module OsFrames {
  import opened Commands
  import MR = MixedRadix

  const MAX_TRIES: nat := 1000
  const VPN_LIMIT: nat := 0x10_0000_0000          // 2^36
  const TID_LIMIT: nat := 0x1000_0000             // 2^28: beyond it the shifted thread id leaves the 64-bit key

  datatype Os = Os(pages: nat, lines: nat, pt: map<nat, nat>, ipt: seq<bool>, misses: nat)

  datatype Req = Req(line: nat, tid: nat, draws: nat -> nat)

  /** The key of a page: the thread id in the bits above the page number, in 64-bit arithmetic. */
  function Key(vpn: nat, tid: nat): nat { tid % TID_LIMIT * VPN_LIMIT + vpn }

  /** The page of a line and its place there: quotient and remainder (MixedRadix.IsDivMod). */
  function Page(line: nat, lines: nat): nat
    requires lines >= 1
  {
    MR.Quot(line, lines)
  }

  function Offset(line: nat, lines: nat): (x: nat)
    requires lines >= 1
    ensures x < lines
  {
    MR.Rem(line, lines)
  }

  /** The first of the remaining draws that hits a free frame. */
  function PickFrame(ipt: seq<bool>, draws: nat -> nat, tries: nat): (r: Option<nat>)
    requires ipt != [] && tries <= MAX_TRIES
    ensures r.Some? ==> r.value < |ipt| && !ipt[r.value]
    decreases MAX_TRIES - tries
  {
    if tries == MAX_TRIES then None
    else if !ipt[draws(tries) % |ipt|] then Some(draws(tries) % |ipt|)
    else PickFrame(ipt, draws, tries + 1)
  }

  /** The allocator's guard: fewer than 95% of the pages handed out. */
  predicate HasHeadroom(o: Os) { 100 * o.misses < 95 * o.pages }

  /** os_vpn_to_pfn; None where an assertion of the source stops the program. */
  function FrameOf(o: Os, vpn: nat, tid: nat, draws: nat -> nat): Option<(Os, nat)>
    requires o.ipt != []
  {
    var key := Key(vpn, tid);
    if vpn >= VPN_LIMIT then None
    else if key in o.pt then Some((o, o.pt[key]))
    else if !HasHeadroom(o) then None
    else
      match PickFrame(o.ipt, draws, 0)
      case None => None
      case Some(f) => Some((o.(pt := o.pt[key := f], ipt := o.ipt[f := true], misses := o.misses + 1), f))
  }

  /** os_v2p_lineaddr. */
  function Translate(o: Os, r: Req): Option<(Os, nat)>
    requires o.ipt != [] && o.lines >= 1
  {
    match FrameOf(o, Page(r.line, o.lines), r.tid, r.draws)
    case None => None
    case Some((o1, f)) => Some((o1, f * o.lines + Offset(r.line, o.lines)))
  }

  method SplitLine(line: nat, lines: nat) returns (page: nat, offset: nat)
    requires lines >= 1
    ensures page == Page(line, lines) && offset == Offset(line, lines)
  {
    MR.IsDivMod(line, lines);
    page, offset := line / lines, line % lines;
  }

  // ----- The allocator in place -----

  class FrameAllocator {
    const pages: nat
    const lines: nat
    var pt: map<nat, nat>
    var ipt: array<bool>
    var misses: nat

    ghost predicate Valid()
      reads this
    {
      pages >= 1 && lines >= 1 && ipt.Length == pages
    }

    ghost function View(): (o: Os)
      reads this, ipt
    {
      Os(pages, lines, pt, ipt[..], misses)
    }

    constructor (pages: nat, lines: nat)
      requires pages >= 1 && lines >= 1
      ensures Valid() && fresh(ipt) && View() == Boot(pages, lines)
    {
      this.pages, this.lines, pt, misses := pages, lines, map[], 0;
      ipt := new bool[pages](_ => false);
      new;
      ipt[0] := true;
    }

    /** os_get_victim_from_ipt: the retry loop. */
    method GetVictim(draws: nat -> nat) returns (r: Option<nat>)
      requires Valid()
      modifies ipt
      ensures r == if HasHeadroom(old(View())) then PickFrame(old(ipt[..]), draws, 0) else None
      ensures ipt[..] == if r.Some? then old(ipt[..])[r.value := true] else old(ipt[..])
    {
      if !(100 * misses < 95 * pages) { return None; }
      var tries := 0;
      while tries < MAX_TRIES
        invariant tries <= MAX_TRIES && ipt[..] == old(ipt[..])
        invariant PickFrame(old(ipt[..]), draws, 0) == PickFrame(old(ipt[..]), draws, tries)
      {
        var victim := draws(tries) % pages;
        if !ipt[victim] {
          ipt[victim] := true;
          return Some(victim);
        }
        tries := tries + 1;
      }
      return None;
    }

    method VpnToPfn(vpn: nat, tid: nat, draws: nat -> nat) returns (r: Option<nat>)
      requires Valid()
      modifies this, ipt
      ensures Valid() && ipt == old(ipt)
      ensures match FrameOf(old(View()), vpn, tid, draws)
              case None => r == None
              case Some((o, f)) => r == Some(f) && View() == o
    {
      if vpn >= VPN_LIMIT { return None; }
      var key := Key(vpn, tid);
      if key !in pt {
        var victim := GetVictim(draws);
        if victim == None { return None; }
        pt := pt[key := victim.value];
        misses := misses + 1;
      }
      return Some(pt[key]);
    }

    method LineAddr(line: nat, tid: nat, draws: nat -> nat) returns (r: Option<nat>)
      requires Valid()
      modifies this, ipt
      ensures Valid() && ipt == old(ipt)
      ensures match Translate(old(View()), Req(line, tid, draws))
              case None => r == None
              case Some((o, a)) => r == Some(a) && View() == o
    {
      var page, offset := SplitLine(line, lines);
      var f := VpnToPfn(page, tid, draws);
      if f == None { return None; }
      return Some(f.value * lines + offset);
    }
  }

  // ----- What every request keeps -----

  /** Frame 0 and the frames of the page table are exactly the marked ones, no two pages share a frame, and the
      miss count is the size of the table. */
  ghost predicate OsOk(o: Os) {
    && o.pages >= 1 && o.lines >= 1 && |o.ipt| == o.pages && o.misses == |o.pt|
    && (forall f :: 0 <= f < o.pages ==> (o.ipt[f] <==> f == 0 || InTable(o.pt, f)))
    && (forall k <- o.pt :: 1 <= o.pt[k] < o.pages)
    && forall k, m :: k in o.pt && m in o.pt && k != m ==> o.pt[k] != o.pt[m]
  }

  ghost predicate InTable(pt: map<nat, nat>, f: nat) { exists k :: k in pt && pt[k] == f }

  function Boot(pages: nat, lines: nat): Os
    requires pages >= 1
  {
    Os(pages, lines, map[], seq(pages, f => f == 0), 0)
  }

  lemma FrameOfKeeps(o: Os, vpn: nat, tid: nat, draws: nat -> nat)
    requires OsOk(o) && FrameOf(o, vpn, tid, draws).Some?
    ensures var (o', f) := FrameOf(o, vpn, tid, draws).value;
      && OsOk(o') && o'.pages == o.pages && o'.lines == o.lines
      && Key(vpn, tid) in o'.pt && o'.pt[Key(vpn, tid)] == f && vpn < VPN_LIMIT
      && (forall k <- o.pt :: k in o'.pt && o'.pt[k] == o.pt[k])
  {
    var key := Key(vpn, tid);
    if key !in o.pt {
      var f := PickFrame(o.ipt, draws, 0).value;
      NewFrame(o, key, f);
    }
  }

  lemma TableGrows(pt: map<nat, nat>, key: nat, f: nat)
    requires key !in pt
    ensures |pt[key := f]| == |pt| + 1
    ensures forall g :: InTable(pt[key := f], g) <==> g == f || InTable(pt, g)
  {
    var pt' := pt[key := f];
    assert pt'.Keys == pt.Keys + {key};
    forall g ensures InTable(pt', g) <==> g == f || InTable(pt, g) {
      if InTable(pt, g) {
        var k :| k in pt && pt[k] == g;
        assert k in pt' && pt'[k] == g;
      }
      assert key in pt' && pt'[key] == f;
    }
  }

  lemma NewFrame(o: Os, key: nat, f: nat)
    requires OsOk(o) && key !in o.pt && f < o.pages && !o.ipt[f]
    ensures OsOk(o.(pt := o.pt[key := f], ipt := o.ipt[f := true], misses := o.misses + 1))
  {
    TableGrows(o.pt, key, f);
    forall k <- o.pt ensures o.pt[k] != f { assert InTable(o.pt, o.pt[k]); }
  }

  // ----- Runs -----

  ghost predicate OsRun(states: seq<Os>, reqs: seq<Req>, answers: seq<nat>, pages: nat, lines: nat)
    requires pages >= 1 && lines >= 1
  {
    && |states| == |reqs| + 1 && |answers| == |reqs| && states[0] == Boot(pages, lines)
    && forall i :: 0 <= i < |reqs| ==> Answered(states[i], reqs[i], states[i + 1], answers[i])
  }

  ghost predicate Answered(o: Os, r: Req, o': Os, a: nat) {
    o.ipt != [] && o.lines >= 1 && Translate(o, r) == Some((o', a))
  }

  lemma AnswerKeeps(o: Os, r: Req, o': Os, a: nat)
    requires OsOk(o) && Answered(o, r, o', a)
    ensures OsOk(o') && o'.pages == o.pages && o'.lines == o.lines && Page(r.line, o.lines) < VPN_LIMIT
    ensures PageKey(r, o.lines) in o'.pt && a == o'.pt[PageKey(r, o.lines)] * o.lines + Offset(r.line, o.lines)
    ensures forall k <- o.pt :: k in o'.pt && o'.pt[k] == o.pt[k]
  {
    FrameOfKeeps(o, Page(r.line, o.lines), r.tid, r.draws);
  }

  /** In every reachable state the marked frames are exactly frame 0 and those of the page table. */
  lemma {:induction false} RunOk(states: seq<Os>, reqs: seq<Req>, answers: seq<nat>, pages: nat, lines: nat, i: nat)
    requires pages >= 1 && lines >= 1 && OsRun(states, reqs, answers, pages, lines) && i < |states|
    ensures OsOk(states[i]) && states[i].lines == lines && states[i].pages == pages
  {
    if i > 0 {
      RunOk(states, reqs, answers, pages, lines, i - 1);
      AnswerKeeps(states[i - 1], reqs[i - 1], states[i], answers[i - 1]);
    }
  }

  function PageKey(r: Req, lines: nat): nat
    requires lines >= 1
  {
    Key(Page(r.line, lines), r.tid)
  }

  /** The answer to request i is still what the page table says at any later state. */
  lemma {:induction false} AnswerStays(states: seq<Os>, reqs: seq<Req>, answers: seq<nat>, pages: nat, lines: nat,
                                       i: nat, j: nat)
    requires pages >= 1 && lines >= 1 && OsRun(states, reqs, answers, pages, lines) && i < j < |states|
    ensures Page(reqs[i].line, lines) < VPN_LIMIT
    ensures PageKey(reqs[i], lines) in states[j].pt
    ensures answers[i] == states[j].pt[PageKey(reqs[i], lines)] * lines + Offset(reqs[i].line, lines)
    decreases j
  {
    var k := j - 1;
    RunOk(states, reqs, answers, pages, lines, k);
    AnswerKeeps(states[k], reqs[k], states[j], answers[k]);
    if i < k { AnswerStays(states, reqs, answers, pages, lines, i, k); }
  }

  /** Two requests for the same line of the same thread; thread ids count modulo 2^28. */
  predicate SameLine(r: Req, q: Req) { r.line == q.line && r.tid % TID_LIMIT == q.tid % TID_LIMIT }

  lemma KeyUnique(v: nat, t: nat, w: nat, u: nat)
    requires v < VPN_LIMIT && w < VPN_LIMIT && Key(v, t) == Key(w, u)
    ensures v == w && t % TID_LIMIT == u % TID_LIMIT
  {}

  lemma SplitUnique(f: nat, x: nat, g: nat, y: nat, n: nat)
    requires x < n && y < n && f * n + x == g * n + y
    ensures f == g && x == y
  {
    MR.DivisionUnique(f, n, x);
    MR.DivisionUnique(g, n, y);
  }

  /** Stability and injectivity over the whole run: two requests get the same physical line if and only if they
      are for the same line of the same thread; and no request is given a line of frame 0. */
  lemma TranslationInjective(states: seq<Os>, reqs: seq<Req>, answers: seq<nat>, pages: nat, lines: nat, i: nat,
                             j: nat)
    requires pages >= 1 && lines >= 1 && OsRun(states, reqs, answers, pages, lines) && i < |reqs| && j < |reqs|
    ensures answers[i] == answers[j] <==> SameLine(reqs[i], reqs[j])
    ensures lines <= answers[i] < pages * lines
  {
    var n := |reqs|;
    RunOk(states, reqs, answers, pages, lines, n);
    AnswerStays(states, reqs, answers, pages, lines, i, n);
    AnswerStays(states, reqs, answers, pages, lines, j, n);
    FrameBounds(states[n], PageKey(reqs[i], lines), Offset(reqs[i].line, lines));
    var a, b := PageKey(reqs[i], lines), PageKey(reqs[j], lines);
    SameAnswer(states[n], reqs[i], reqs[j], lines, answers[i], answers[j]);
  }

  lemma FrameBounds(o: Os, key: nat, x: nat)
    requires OsOk(o) && key in o.pt && x < o.lines
    ensures o.lines <= o.pt[key] * o.lines + x < o.pages * o.lines
  {
    MR.MulMono(1, o.pt[key], o.lines);
    MR.MulMono(o.pt[key] + 1, o.pages, o.lines);
    MR.MulDistrib(o.pt[key], 1, o.lines);
  }

  lemma SameAnswer(o: Os, r: Req, q: Req, lines: nat, x: nat, y: nat)
    requires OsOk(o) && lines >= 1 && Page(r.line, lines) < VPN_LIMIT && Page(q.line, lines) < VPN_LIMIT
    requires PageKey(r, lines) in o.pt && PageKey(q, lines) in o.pt
    requires x == o.pt[PageKey(r, lines)] * lines + Offset(r.line, lines)
    requires y == o.pt[PageKey(q, lines)] * lines + Offset(q.line, lines)
    ensures x == y <==> SameLine(r, q)
  {
    if x == y {
      SplitUnique(o.pt[PageKey(r, lines)], Offset(r.line, lines),
                  o.pt[PageKey(q, lines)], Offset(q.line, lines), lines);
      KeyUnique(Page(r.line, lines), r.tid, Page(q.line, lines), q.tid);
      MR.Division(r.line, lines);
      MR.Division(q.line, lines);
    }
  }
}
