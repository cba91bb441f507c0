/** First-ready, first-come: what the scheduler's two scans choose, without reference to how they go about it
    (DRAMsim3/src/command_queue.cc:37-62, 240-258). */
module FrFcfs {
  import opened Commands
  import opened Configuration
  import opened BankStates
  import opened ChannelStates
  import opened CommandQueues

  /** The scan stops at entry i with the answer r. */
  predicate Stops(q: seq<Command>, i: nat, r: Ready, b: Bank)
    requires i < |q|
  {
    match r
    case Exit => true
    case NotReady => false
    case Issue(c) => !(c.ty.IsPrecharge() && !PrechargeAllowed(q, i, b)) && !(c.ty.IsWrite() && HasRwDependency(q, i))
  }

  /** One step of the scan. */
  lemma FirstReadyStep(cfg: Config, ch: Channel, q: seq<Command>, i: nat, clk: nat, coin: bool)
    requires Populated(cfg, ch.banks) && |ch.fourAw| == |ch.thirtyTwoAw| == cfg.sizes.ranks
    requires i < |q| && Requests(cfg, q)
    ensures var r, rfmQ := GetReady(cfg, ch, q[i], clk, coin), RfmAfter(cfg, ch, q[i], clk, coin);
      FirstReady(cfg, ch, q, i, clk, coin)
      == if Stops(q, i, r, ch.banks[q[i].Id()]) then Scan(r, rfmQ, i)
         else FirstReady(cfg, ch.(rfmQ := rfmQ), q, i + 1, clk, coin)
  {}

  // ----- One queue -----

  ghost predicate Asked(cfg: Config, ch: Channel) {
    Populated(cfg, ch.banks) && |ch.fourAw| == |ch.thirtyTwoAw| == cfg.sizes.ranks
  }

  /** What GetReadyCommand answers for each entry of a queue. */
  ghost function Answers(cfg: Config, ch: Channel, q: seq<Command>, clk: nat, coin: bool): (rs: seq<Ready>)
    requires Asked(cfg, ch) && Requests(cfg, q)
    ensures |rs| == |q| && forall j :: 0 <= j < |q| ==> rs[j] == GetReady(cfg, ch, q[j], clk, coin)
  {
    seq(|q|, j requires 0 <= j < |q| && Asked(cfg, ch) && Requests(cfg, q) => GetReady(cfg, ch, q[j], clk, coin))
  }

  /** The RFM queue does not matter to what is ready. */
  lemma AnswersIgnoreRfm(cfg: Config, ch: Channel, rfmQ: seq<Command>, q: seq<Command>, clk: nat, coin: bool)
    requires Asked(cfg, ch) && Requests(cfg, q)
    ensures Answers(cfg, ch.(rfmQ := rfmQ), q, clk, coin) == Answers(cfg, ch, q, clk, coin)
  {
    var rs, rs' := Answers(cfg, ch, q, clk, coin), Answers(cfg, ch.(rfmQ := rfmQ), q, clk, coin);
    forall j | 0 <= j < |q| ensures rs'[j] == rs[j] { ReadyIgnoresRfm(cfg, ch, rfmQ, q[j], clk, coin); }
  }

  lemma ReadyIgnoresRfm(cfg: Config, ch: Channel, rfmQ: seq<Command>, c: Command, clk: nat, coin: bool)
    requires Asked(cfg, ch) && Addressable(cfg, c)
    ensures GetReady(cfg, ch.(rfmQ := rfmQ), c, clk, coin) == GetReady(cfg, ch, c, clk, coin)
  {}

  /** Entry j gives something: a command that is ready, is not a precharge that must wait, and is not a write behind a
      read of its location. */
  predicate Gives(banks: map<BankId, Bank>, q: seq<Command>, rs: seq<Ready>, j: nat)
    requires j < |q| == |rs|
  {
    q[j].Id() in banks && Stops(q, j, rs[j], banks[q[j].Id()])
  }

  /** The first entry from i on that gives something, or the length of the queue. */
  ghost predicate IsFirst(banks: map<BankId, Bank>, q: seq<Command>, rs: seq<Ready>, i: nat, at: nat)
    requires |rs| == |q|
  {
    && i <= at <= |q| && (forall j :: i <= j < at ==> !Gives(banks, q, rs, j))
    && (at < |q| ==> Gives(banks, q, rs, at))
  }

  /** The scan's answer is that of the first entry that gives something, or nothing if no entry does. */
  ghost predicate Chosen(banks: map<BankId, Bank>, q: seq<Command>, rs: seq<Ready>, i: nat, s: Scan)
    requires |rs| == |q|
  {
    IsFirst(banks, q, rs, i, s.at) && s.ready == if s.at < |q| then rs[s.at] else NotReady
  }

  /** First-ready, first-come: the scan answers for the first entry that gives something, and with nothing only if no
      entry does. */
  lemma {:induction false} FirstReadyIsFirst(cfg: Config, ch: Channel, q: seq<Command>, i: nat, clk: nat, coin: bool,
                                             rs: seq<Ready>)
    returns (s: Scan)
    requires Asked(cfg, ch) && i <= |q| && Requests(cfg, q) && rs == Answers(cfg, ch, q, clk, coin)
    ensures s == FirstReady(cfg, ch, q, i, clk, coin) && Chosen(ch.banks, q, rs, i, s)
    decreases |q| - i
  {
    if i == |q| {
      s := Scan(NotReady, ch.rfmQ, i);
    } else {
      var rfmQ := RfmAfter(cfg, ch, q[i], clk, coin);
      AnswersIgnoreRfm(cfg, ch, rfmQ, q, clk, coin);
      var s1 := FirstReadyIsFirst(cfg, ch.(rfmQ := rfmQ), q, i + 1, clk, coin, rs);
      s := OneMore(cfg, ch, q, i, clk, coin, rs, rfmQ, s1);
    }
  }

  lemma OneMore(cfg: Config, ch: Channel, q: seq<Command>, i: nat, clk: nat, coin: bool, rs: seq<Ready>,
                rfmQ: seq<Command>, s1: Scan) returns (s: Scan)
    requires Asked(cfg, ch) && i < |q| == |rs| && Requests(cfg, q)
    requires rs[i] == GetReady(cfg, ch, q[i], clk, coin) && rfmQ == RfmAfter(cfg, ch, q[i], clk, coin)
    requires s1 == FirstReady(cfg, ch.(rfmQ := rfmQ), q, i + 1, clk, coin) && Chosen(ch.banks, q, rs, i + 1, s1)
    ensures s == FirstReady(cfg, ch, q, i, clk, coin) && Chosen(ch.banks, q, rs, i, s)
  {
    s := if Gives(ch.banks, q, rs, i) then Scan(rs[i], rfmQ, i) else s1;
    FirstReadyStep(cfg, ch, q, i, clk, coin);
    FirstHere(ch.banks, q, rs, i, rfmQ, s, s1);
  }

  lemma FirstHere(banks: map<BankId, Bank>, q: seq<Command>, rs: seq<Ready>, i: nat, rfmQ: seq<Command>, s: Scan,
                  s1: Scan)
    requires |rs| == |q| && i < |q|
    requires Chosen(banks, q, rs, i + 1, s1) && s == if Gives(banks, q, rs, i) then Scan(rs[i], rfmQ, i) else s1
    ensures Chosen(banks, q, rs, i, s)
  {}

  // ----- All queues -----

  /** The queue d places after idx, going round. */
  function Around(cfg: Config, idx: int, d: nat): int
    decreases d
  {
    if d == 0 then idx else Around(cfg, NextIdx(cfg, idx), d - 1)
  }

  /** The queues that give nothing now: held back, or no entry of theirs gives anything. */
  ghost function Barren(cfg: Config, ch: Channel, cq: CmdQueue, clk: nat, coin: bool): set<int>
    requires Asked(cfg, ch) && cq.Usable(cfg)
  {
    set k | 0 <= k < |cq.queues| && (cq.Skips(k) || NothingIn(cfg, ch, cq.queues[k], clk, coin))
  }

  ghost predicate NothingIn(cfg: Config, ch: Channel, q: seq<Command>, clk: nat, coin: bool)
    requires Asked(cfg, ch) && Requests(cfg, q)
  {
    IsFirst(ch.banks, q, Answers(cfg, ch, q, clk, coin), 0, |q|)
  }

  lemma BarrenIgnores(cfg: Config, ch: Channel, rfmQ: seq<Command>, cq: CmdQueue, idx: int, clk: nat, coin: bool)
    requires Asked(cfg, ch) && cq.Usable(cfg) && 0 <= idx < |cq.queues|
    ensures Barren(cfg, ch.(rfmQ := rfmQ), cq.(idx := idx), clk, coin) == Barren(cfg, ch, cq, clk, coin)
  {
    forall k | 0 <= k < |cq.queues|
      ensures NothingIn(cfg, ch.(rfmQ := rfmQ), cq.queues[k], clk, coin) == NothingIn(cfg, ch, cq.queues[k], clk, coin)
    {
      AnswersIgnoreRfm(cfg, ch, rfmQ, cq.queues[k], clk, coin);
    }
  }

  /** A round finds nothing exactly if the next queue is barren. */
  lemma VisitFinds(cfg: Config, ch: Channel, cq: CmdQueue, clk: nat, coin: bool)
    requires Asked(cfg, ch) && cq.Usable(cfg)
    ensures 0 <= NextIdx(cfg, cq.idx) < |cq.queues|
    ensures Visit(cfg, ch, cq, clk, coin).ready.NotReady? <==> NextIdx(cfg, cq.idx) in Barren(cfg, ch, cq, clk, coin)
    ensures Visit(cfg, ch, cq, clk, coin).cq.idx == NextIdx(cfg, cq.idx)
  {
    var k := NextIdx(cfg, cq.idx);
    if !cq.Skips(k) {
      var q := cq.queues[k];
      var s := FirstReadyIsFirst(cfg, ch, q, 0, clk, coin, Answers(cfg, ch, q, clk, coin));
      GivesIsAnswer(ch.banks, q, Answers(cfg, ch, q, clk, coin), s);
    }
  }

  lemma GivesIsAnswer(banks: map<BankId, Bank>, q: seq<Command>, rs: seq<Ready>, s: Scan)
    requires |rs| == |q| && Chosen(banks, q, rs, 0, s)
    ensures s.ready.NotReady? <==> IsFirst(banks, q, rs, 0, |q|)
  {}

  /** Distance to the first queue after idx that is not in the set; n + 1 if the next n all are. */
  function FirstNotIn(cfg: Config, s: set<int>, idx: int, n: nat): nat
    decreases n
  {
    if n == 0 || NextIdx(cfg, idx) !in s then 1 else 1 + FirstNotIn(cfg, s, NextIdx(cfg, idx), n - 1)
  }

  /** The pick is from the first queue after idx outside s, and there is none only if the next n are all in s. */
  ghost predicate FromFirst(cfg: Config, s: set<int>, idx: int, n: nat, p: Pick) {
    var d := FirstNotIn(cfg, s, idx, n);
    (p.ready.NotReady? <==> d == n + 1) && (d <= n ==> p.cq.idx == Around(cfg, idx, d))
  }

  /** Round robin over the queues that are not barren. */
  lemma {:induction false} FirstQueue(cfg: Config, ch: Channel, cq: CmdQueue, n: nat, clk: nat, coin: bool, s: set<int>)
    returns (p: Pick)
    requires Asked(cfg, ch) && cq.Usable(cfg) && s == Barren(cfg, ch, cq, clk, coin)
    ensures p == CommandToIssue(cfg, ch, cq, n, clk, coin) && FromFirst(cfg, s, cq.idx, n, p)
    decreases n
  {
    if n == 0 {
      p := Pick(NotReady, cq, ch.rfmQ);
    } else {
      var v, ch1, next := AfterVisit(cfg, ch, cq, clk, coin, s);
      var p1 := FirstQueue(cfg, ch1, next, n - 1, clk, coin, s);
      p := NextRound(cfg, ch, cq, n, clk, coin, s, v, ch1, next, p1);
    }
  }

  lemma AfterVisit(cfg: Config, ch: Channel, cq: CmdQueue, clk: nat, coin: bool, s: set<int>)
    returns (v: Pick, ch1: Channel, next: CmdQueue)
    requires Asked(cfg, ch) && cq.Usable(cfg) && s == Barren(cfg, ch, cq, clk, coin)
    ensures v == Visit(cfg, ch, cq, clk, coin) && ch1 == ch.(rfmQ := v.rfmQ) && next == cq.(idx := NextIdx(cfg, cq.idx))
    ensures (v.ready.NotReady? <==> next.idx in s) && v.cq.idx == next.idx
    ensures Asked(cfg, ch1) && next.Usable(cfg) && s == Barren(cfg, ch1, next, clk, coin)
  {
    VisitFinds(cfg, ch, cq, clk, coin);
    v := Visit(cfg, ch, cq, clk, coin);
    ch1, next := ch.(rfmQ := v.rfmQ), cq.(idx := NextIdx(cfg, cq.idx));
    BarrenIgnores(cfg, ch, v.rfmQ, cq, next.idx, clk, coin);
  }

  lemma NextRound(cfg: Config, ch: Channel, cq: CmdQueue, n: nat, clk: nat, coin: bool, s: set<int>, v: Pick,
                  ch1: Channel, next: CmdQueue, p1: Pick) returns (p: Pick)
    requires Asked(cfg, ch) && cq.Usable(cfg) && n > 0 && Asked(cfg, ch1) && next.Usable(cfg)
    requires v == Visit(cfg, ch, cq, clk, coin) && ch1 == ch.(rfmQ := v.rfmQ)
    requires next == cq.(idx := NextIdx(cfg, cq.idx))
    requires (v.ready.NotReady? <==> next.idx in s) && v.cq.idx == next.idx
    requires p1 == CommandToIssue(cfg, ch1, next, n - 1, clk, coin) && FromFirst(cfg, s, next.idx, n - 1, p1)
    ensures p == CommandToIssue(cfg, ch, cq, n, clk, coin) && FromFirst(cfg, s, cq.idx, n, p)
  {
    p := if v.ready.NotReady? then p1 else v;
    FirstHereOrLater(cfg, s, cq.idx, n, v, p, p1);
  }

  lemma FirstHereOrLater(cfg: Config, s: set<int>, idx: int, n: nat, v: Pick, p: Pick, p1: Pick)
    requires n > 0 && FromFirst(cfg, s, NextIdx(cfg, idx), n - 1, p1) && p == if v.ready.NotReady? then p1 else v
    requires v.cq.idx == NextIdx(cfg, idx) && (v.ready.NotReady? <==> NextIdx(cfg, idx) in s)
    ensures FromFirst(cfg, s, idx, n, p)
  {
    var k := NextIdx(cfg, idx);
    FirstNotInBound(cfg, s, k, n - 1);
    var d := FirstNotIn(cfg, s, k, n - 1);
    assert Around(cfg, idx, d + 1) == Around(cfg, k, d) && Around(cfg, idx, 1) == Around(cfg, k, 0);
  }

  lemma {:induction false} FirstNotInBound(cfg: Config, s: set<int>, idx: int, n: nat)
    ensures var d := FirstNotIn(cfg, s, idx, n);
      && 1 <= d <= n + 1 && (d <= n ==> Around(cfg, idx, d) !in s)
      && forall e :: 1 <= e < d ==> Around(cfg, idx, e) in s
    decreases n
  {
    if n > 0 && NextIdx(cfg, idx) in s {
      FirstNotInBound(cfg, s, NextIdx(cfg, idx), n - 1);
      var d := FirstNotIn(cfg, s, idx, n);
      forall e | 1 <= e < d ensures Around(cfg, idx, e) in s {
        assert Around(cfg, idx, e) == Around(cfg, NextIdx(cfg, idx), e - 1);
      }
    } else if n > 0 {
      assert Around(cfg, idx, 1) == Around(cfg, NextIdx(cfg, idx), 0);
    }
  }

  lemma {:induction false} AroundIs(cfg: Config, idx: int, d: nat)
    requires 0 <= idx < NumQueues(cfg) && d <= NumQueues(cfg)
    ensures Around(cfg, idx, d) == if idx + d < NumQueues(cfg) then idx + d else idx + d - NumQueues(cfg)
    decreases d
  {
    if d > 0 { AroundIs(cfg, NextIdx(cfg, idx), d - 1); }
  }

  lemma AroundCovers(cfg: Config, idx: int, s: set<int>)
    requires 0 <= idx < NumQueues(cfg) && forall e :: 1 <= e <= NumQueues(cfg) ==> Around(cfg, idx, e) in s
    ensures forall k :: 0 <= k < NumQueues(cfg) ==> k in s
  {
    forall k | 0 <= k < NumQueues(cfg) ensures k in s {
      var e := if k > idx then k - idx else k + NumQueues(cfg) - idx;
      AroundIs(cfg, idx, e);
    }
  }

  /** Work conserving: GetCommandToIssue comes back with nothing exactly if every queue is barren; otherwise it serves
      the first queue round from the last one served that is not. */
  lemma NothingLeftBehind(cfg: Config, ch: Channel, cq: CmdQueue, clk: nat, coin: bool)
    requires Asked(cfg, ch) && cq.Usable(cfg)
    ensures var n := |cq.queues|;
      var p, s := CommandToIssue(cfg, ch, cq, n, clk, coin), Barren(cfg, ch, cq, clk, coin);
      && (p.ready.NotReady? <==> forall k :: 0 <= k < n ==> k in s)
      && (!p.ready.NotReady? ==> p.cq.idx == Around(cfg, cq.idx, FirstNotIn(cfg, s, cq.idx, n)) && p.cq.idx !in s)
  {
    var s, n := Barren(cfg, ch, cq, clk, coin), |cq.queues|;
    var p := FirstQueue(cfg, ch, cq, n, clk, coin, s);
    FirstNotInBound(cfg, s, cq.idx, n);
    var d := FirstNotIn(cfg, s, cq.idx, n);
    if d == n + 1 { AroundCovers(cfg, cq.idx, s); } else { AroundIs(cfg, cq.idx, d); }
  }
}
