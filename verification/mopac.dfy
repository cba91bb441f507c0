/** MOPAC: sampled counting. One activation in every window of pacProb is sampled, and what is buffered
    plus what is in the row counters is conserved (DRAMsim3/src/bankstate.cc:465-573). */
module MopacCounting {
  import opened Commands
  import opened Configuration
  import opened BankStates
  import opened ChannelStates
  import opened ChannelRuns
  import MR = MixedRadix

  // ----- The sampling window -----

  /** The window counter and the position chosen for the next sample. */
  datatype Window = Window(acts: nat, sel: nat)

  function WindowOf(b: Bank): Window { Window(b.mopacActs, b.mopacSel) }

  predicate Samples(w: Window) { w.acts == w.sel }

  function NextWindow(prob: nat, w: Window, rnd: nat): Window
    requires prob >= 1
  {
    if w.acts + 1 == prob then Window(0, rnd % prob) else Window(w.acts + 1, w.sel)
  }

  /** Only an activation moves the window, and it moves it as NextWindow does. */
  lemma WindowMoves(cfg: Config, b: Bank, cmd: Command, rnd: nat)
    requires cfg.Valid() && cfg.impl == Mopac && b.Valid(cfg) && b.Legal(cmd.ty) && cmd.ty != SrefEnter
    requires cmd.ty == Activate ==> cfg.HasRow(cmd.addr.row)
    ensures WindowOf(UpdateState(cfg, b, cmd, rnd).value)
         == if cmd.ty == Activate then NextWindow(cfg.pacProb, WindowOf(b), rnd) else WindowOf(b)
  {}

  /** Number of sampled activations among the next ones, given the random draws. */
  function SampleCount(prob: nat, w: Window, rnds: seq<nat>): nat
    requires prob >= 1
    decreases |rnds|
  {
    if rnds == [] then 0
    else (if Samples(w) then 1 else 0) + SampleCount(prob, NextWindow(prob, w, rnds[0]), rnds[1..])
  }

  function WindowAfter(prob: nat, w: Window, rnds: seq<nat>): Window
    requires prob >= 1
    decreases |rnds|
  {
    if rnds == [] then w else WindowAfter(prob, NextWindow(prob, w, rnds[0]), rnds[1..])
  }

  /** Within a window the chosen position does not change, so the rest of the window holds one sample or none. */
  lemma {:induction false} RestOfWindow(prob: nat, w: Window, rnds: seq<nat>)
    requires w.acts < prob && w.sel < prob && |rnds| == prob - w.acts
    ensures SampleCount(prob, w, rnds) == if w.acts <= w.sel then 1 else 0
    ensures WindowAfter(prob, w, rnds).acts == 0 && WindowAfter(prob, w, rnds).sel < prob
    decreases |rnds|
  {
    var next := NextWindow(prob, w, rnds[0]);
    if w.acts + 1 < prob {
      RestOfWindow(prob, next, rnds[1..]);
    } else {
      assert rnds[1..] == [];
    }
  }

  lemma {:induction false} SampleConcat(prob: nat, w: Window, p: seq<nat>, q: seq<nat>)
    requires prob >= 1
    ensures SampleCount(prob, w, p + q) == SampleCount(prob, w, p) + SampleCount(prob, WindowAfter(prob, w, p), q)
    decreases |p|
  {
    if p == [] {
      assert p + q == q;
    } else {
      assert (p + q)[0] == p[0] && (p + q)[1..] == p[1..] + q;
      SampleConcat(prob, NextWindow(prob, w, p[0]), p[1..], q);
    }
  }

  /** Every block of pacProb activations samples exactly one, whatever the draws. */
  lemma {:induction false} OneSamplePerBlock(prob: nat, w: Window, blocks: seq<seq<nat>>)
    requires prob >= 1 && w.acts == 0 && w.sel < prob
    requires forall i :: 0 <= i < |blocks| ==> |blocks[i]| == prob
    ensures SampleCount(prob, w, Flatten(blocks)) == |blocks|
    decreases |blocks|
  {
    if blocks != [] {
      RestOfWindow(prob, w, blocks[0]);
      SampleConcat(prob, w, blocks[0], Flatten(blocks[1..]));
      OneSamplePerBlock(prob, WindowAfter(prob, w, blocks[0]), blocks[1..]);
    }
  }

  function Flatten(blocks: seq<seq<nat>>): seq<nat> {
    if blocks == [] then [] else blocks[0] + Flatten(blocks[1..])
  }

  /** After n activations of which k were sampled: the window's position counts them modulo prob, and every full window
      and the current one, once its position is past the chosen one, has had its sample. */
  ghost predicate Tally(prob: nat, n: nat, k: nat, w: Window)
    requires prob >= 1
  {
    w.acts == MR.Rem(n, prob) && w.sel < prob && k == MR.Quot(n, prob) + if w.sel < w.acts then 1 else 0
  }

  lemma NextTally(prob: nat, n: nat, k: nat, w: Window, rnd: nat)
    requires prob >= 1 && Tally(prob, n, k, w)
    ensures Tally(prob, n + 1, k + if Samples(w) then 1 else 0, NextWindow(prob, w, rnd))
  {
    var q := MR.Quot(n, prob);
    MR.Division(n, prob);
    if w.acts + 1 == prob {
      MR.MulDistrib(q, 1, prob);
      MR.DivisionUnique(q + 1, prob, 0);
    } else {
      MR.DivisionUnique(q, prob, w.acts + 1);
    }
  }

  // ----- Conservation -----

  /** Counts buffered for a row. */
  function Buffered(buf: seq<MopacEntry>, r: int): nat {
    if buf == [] then 0 else (if buf[0].row == r then buf[0].sctr else 0) + Buffered(buf[1..], r)
  }

  /** Every activation sampled for the row and not yet wiped: in its counter or in the buffer. */
  function Total(b: Bank, r: int): nat { b.Count(r) + Buffered(b.mopacBuf, r) }

  predicate DistinctRows(buf: seq<MopacEntry>) {
    forall i, j :: 0 <= i < j < |buf| ==> buf[i].row != buf[j].row
  }

  /** Buffered rows exist and are distinct. */
  ghost predicate BufferOk(b: Bank) {
    (forall i :: 0 <= i < |b.mopacBuf| ==> b.mopacBuf[i].row < |b.prac|) && DistinctRows(b.mopacBuf)
  }

  lemma {:induction false} BufferedConcat(p: seq<MopacEntry>, q: seq<MopacEntry>, r: int)
    ensures Buffered(p + q, r) == Buffered(p, r) + Buffered(q, r)
  {
    if p == [] {
      assert p + q == q;
    } else {
      assert (p + q)[1..] == p[1..] + q;
      BufferedConcat(p[1..], q, r);
    }
  }

  lemma BufferedAt(buf: seq<MopacEntry>, k: nat, r: int)
    requires k < |buf|
    ensures Buffered(buf, r) == Buffered(buf[..k] + buf[k + 1..], r) + if buf[k].row == r then buf[k].sctr else 0
  {
    BufferedConcat(buf[..k], buf[k + 1..], r);
    BufferedConcat(buf[..k], buf[k..], r);
    assert buf == buf[..k] + buf[k..] && buf[k..][1..] == buf[k + 1..];
  }

  /** Sampling adds one for the open row and nothing for any other. */
  lemma SampleAddsOne(cfg: Config, b: Bank, r: int)
    requires 0 <= b.openRow < |b.prac| && BufferOk(b)
    ensures Total(MopacSample(cfg, b), r) == Total(b, r) + if r == b.openRow then 1 else 0
    ensures BufferOk(MopacSample(cfg, b))
  {
    var k := FirstEntry(b.mopacBuf, 0, (e: MopacEntry) => e.row == b.openRow);
    var e := MopacEntry(b.openRow, 1);
    if k == |b.mopacBuf| {
      BufferedConcat(b.mopacBuf, [e], r);
      assert [e][1..] == [];
    } else {
      var buf := MopacSample(cfg, b).mopacBuf;
      BufferedAt(b.mopacBuf, k, r);
      BufferedAt(buf, k, r);
      assert buf[..k] == b.mopacBuf[..k] && buf[k + 1..] == b.mopacBuf[k + 1..];
    }
  }

  /** An activation: the total of a row grows by one exactly when the activation is sampled for it. */
  lemma ActivateConserves(cfg: Config, b: Bank, row: int, rnd: nat, r: int)
    requires cfg.Valid() && cfg.impl == Mopac && b.Valid(cfg) && b.state == Closed && cfg.HasRow(row) && BufferOk(b)
    ensures Total(Activated(cfg, b, row, rnd), r)
         == Total(b, r) + if r == row && Samples(WindowOf(b)) then 1 else 0
    ensures BufferOk(Activated(cfg, b, row, rnd))
  {
    var b1 := b.(state := Open, openRow := row, raa := b.raa + 1);
    SampleAddsOne(cfg, b1, r);
  }

  /** Moving counts from the buffer into the 16-bit counter keeps the total modulo 2^16. */
  lemma UpdateMoves(cfg: Config, b: Bank, row: nat, n: nat, r: int)
    requires row < |b.prac|
    ensures var b' := MopacUpdatePrac(cfg, b, row, n);
      && b'.mopacBuf == b.mopacBuf
      && b'.Count(r) == if r == row then Wrap16(b.Count(r) + n) else b.Count(r)
  {}

  lemma {:induction false} WrapIsMod(x: nat)
    ensures Wrap16(x) == x % 65536
  {
    if x >= 65536 { WrapIsMod(x - 65536); }
  }

  lemma {:induction false} WrapAdd(a: nat, b: nat)
    ensures Wrap16(Wrap16(a) + b) == Wrap16(a + b)
  {
    if a >= 65536 {
      WrapAdd(a - 65536, b);
      assert Wrap16(a + b) == Wrap16(a - 65536 + b);
    }
  }

  lemma WrapSum(x: nat, n: nat, y: nat)
    ensures Wrap16(Wrap16(x + n) + y) == Wrap16(x + (n + y))
  {
    WrapAdd(x + n, y);
    assert x + n + y == x + (n + y);
  }

  lemma {:induction false} FlushConserves(cfg: Config, b: Bank, n: nat, r: int)
    requires BufferOk(b)
    ensures Wrap16(Total(MopacFlush(cfg, b, n), r)) == Wrap16(Total(b, r))
    ensures BufferOk(MopacFlush(cfg, b, n))
    decreases n
  {
    if n > 0 && b.mopacBuf != [] {
      var e, rest := b.mopacBuf[0], b.mopacBuf[1..];
      var b1 := b.(mopacBuf := rest);
      var b2 := MopacUpdatePrac(cfg, b1, e.row, e.sctr);
      UpdateMoves(cfg, b1, e.row, e.sctr, r);
      WrapSum(b.Count(r), e.sctr, Buffered(rest, r));
      FlushConserves(cfg, b2, n - 1, r);
    }
  }

  /** Cutting an entry out of the buffer and adding it to its counter. */
  lemma EntryMoves(cfg: Config, b: Bank, k: nat, r: int)
    requires BufferOk(b) && k < |b.mopacBuf|
    ensures var e := b.mopacBuf[k];
      var b' := MopacUpdatePrac(cfg, b, e.row, e.sctr).(mopacBuf := b.mopacBuf[..k] + b.mopacBuf[k + 1..]);
      Wrap16(Total(b', r)) == Wrap16(Total(b, r)) && BufferOk(b')
  {
    var e := b.mopacBuf[k];
    UpdateMoves(cfg, b, e.row, e.sctr, r);
    BufferedAt(b.mopacBuf, k, r);
    WrapSum(b.Count(r), e.sctr, Buffered(b.mopacBuf[..k] + b.mopacBuf[k + 1..], r));
  }

  lemma CriticalConserves(cfg: Config, b: Bank, r: int)
    requires BufferOk(b)
    ensures Wrap16(Total(MopacHandleCriticalRow(cfg, b), r)) == Wrap16(Total(b, r))
    ensures BufferOk(MopacHandleCriticalRow(cfg, b))
  {
    var k := FirstEntry(b.mopacBuf, 0, (e: MopacEntry) => e.sctr >= cfg.mopacQueueTh);
    if k < |b.mopacBuf| { EntryMoves(cfg, b, k, r); }
  }

  /** The tracked row reaches the threshold and is mitigated instead of anything being flushed. */
  predicate Mitigates(cfg: Config, b: Bank) {
    && b.mopacCritical == 0 && |b.mopacBuf| < cfg.mopacBufSize
    && b.moatValid && b.Count(b.moatRow) >= cfg.moatAth
  }

  lemma MitigationConserves(cfg: Config, b: Bank, r: int)
    requires BufferOk(b)
    ensures var b' := MopacMitigate(cfg, b);
      && BufferOk(b')
      && if Mitigates(cfg, b) && r == b.moatRow
         then b'.Count(r) == 0 && Buffered(b'.mopacBuf, r) == Buffered(b.mopacBuf, r)
         else Wrap16(Total(b', r)) == Wrap16(Total(b, r))
  {
    if b.mopacCritical > 0 {
      CriticalConserves(cfg, b, r);
    } else if !Mitigates(cfg, b) {
      FlushConserves(cfg, b, cfg.mopacAboUpdates, r);
    }
  }

  /** An RFM conserves every total, except that a mitigation wipes the tracked row's counter. */
  lemma {:induction false} RfmConserves(cfg: Config, b: Bank, r: int)
    requires cfg.impl == Mopac && b.Valid(cfg) && b.state == Closed && BufferOk(b)
    ensures var b' := Managed(cfg, b);
      && BufferOk(b')
      && if Mitigates(cfg, b) && r == b.moatRow
         then b'.Count(r) == 0 && Buffered(b'.mopacBuf, r) == Buffered(b.mopacBuf, r)
         else Wrap16(Total(b', r)) == Wrap16(Total(b, r))
  {
    var b1 := b.(raa := b.raa - Min(b.raa, cfg.rfmRaaDecrement));
    SameCounters(cfg, b, b1, r);
    MitigationConserves(cfg, b1, r);
  }

  lemma SameCounters(cfg: Config, b: Bank, b1: Bank, r: int)
    requires b1 == b.(raa := b1.raa) && BufferOk(b)
    ensures BufferOk(b1) && Total(b1, r) == Total(b, r) && Mitigates(cfg, b1) == Mitigates(cfg, b)
  {
    assert b1.Count(b.moatRow) == b.Count(b.moatRow) && b1.Count(r) == b.Count(r);
  }

  lemma {:induction false} KeptCounts(buf: seq<MopacEntry>, lwr: nat, upp: nat, r: int)
    ensures Buffered(MopacKept(buf, lwr, upp), r) == if lwr <= r < upp then 0 else Buffered(buf, r)
  {
    if buf != [] {
      KeptCounts(buf[1..], lwr, upp, r);
      var kept := MopacKept(buf[1..], lwr, upp);
      BufferedConcat(if lwr <= buf[0].row < upp then [] else [buf[0]], kept, r);
      assert [buf[0]][1..] == [];
    }
  }

  lemma {:induction false} KeptDistinct(buf: seq<MopacEntry>, lwr: nat, upp: nat)
    requires DistinctRows(buf)
    ensures DistinctRows(MopacKept(buf, lwr, upp))
  {
    if buf != [] {
      var rest := MopacKept(buf[1..], lwr, upp);
      KeptDistinct(buf[1..], lwr, upp);
      forall e | e in rest ensures e.row != buf[0].row { assert e in buf[1..]; }
      DistinctRowsCons(buf[0], rest);
      assert [] + rest == rest;
    }
  }

  lemma DistinctRowsCons(e: MopacEntry, rest: seq<MopacEntry>)
    requires DistinctRows(rest) && forall d <- rest :: d.row != e.row
    ensures DistinctRows([e] + rest)
  {}

  /** Dropping the entries of the refreshed range. */
  lemma KeptOk(b: Bank, lwr: nat, upp: nat)
    requires BufferOk(b)
    ensures BufferOk(b.(mopacBuf := MopacKept(b.mopacBuf, lwr, upp)))
  {
    var kept := MopacKept(b.mopacBuf, lwr, upp);
    KeptDistinct(b.mopacBuf, lwr, upp);
    forall i | 0 <= i < |kept| ensures kept[i].row < |b.prac| { assert kept[i] in b.mopacBuf; }
  }

  /** The MOPAC part of a refresh: totals outside the dropped range are conserved. */
  lemma HandleRefConserves(cfg: Config, b: Bank, r: int)
    requires BufferOk(b)
    ensures BufferOk(MopacHandleRef(cfg, b))
    ensures !(b.refIdx <= r < b.refIdx + cfg.rowsRefreshed) ==>
      Wrap16(Total(MopacHandleRef(cfg, b), r)) == Wrap16(Total(b, r))
  {
    var kept := MopacKept(b.mopacBuf, b.refIdx, b.refIdx + cfg.rowsRefreshed);
    var b1 := b.(mopacBuf := kept);
    var flushed, b' := MopacFlush(cfg, b1, cfg.mopacRefUpdates), MopacHandleRef(cfg, b);
    KeptCounts(b.mopacBuf, b.refIdx, b.refIdx + cfg.rowsRefreshed, r);
    KeptOk(b, b.refIdx, b.refIdx + cfg.rowsRefreshed);
    SameTotal(b, kept, b1, r);
    FlushConserves(cfg, b1, cfg.mopacRefUpdates, r);
    HandleRefShape(cfg, b, b1, flushed, b');
    if b.mopacDrain == 0 { TotalsFrom(flushed, b', r); } else { TotalsFrom(b1, b', r); }
  }

  lemma SameTotal(b: Bank, kept: seq<MopacEntry>, b1: Bank, r: int)
    requires b1 == b.(mopacBuf := kept)
    ensures Buffered(kept, r) == Buffered(b.mopacBuf, r) ==> Total(b1, r) == Total(b, r)
  {}

  lemma TotalsFrom(b2: Bank, b': Bank, r: int)
    requires b'.prac == b2.prac && b'.mopacBuf == b2.mopacBuf
    ensures Total(b', r) == Total(b2, r) && (BufferOk(b2) ==> BufferOk(b'))
  {}

  /** Counters and buffer after the MOPAC part of a refresh: those after the flush when the drain count is at zero. */
  lemma {:induction false} HandleRefShape(cfg: Config, b: Bank, b1: Bank, flushed: Bank, b': Bank)
    requires b1 == b.(mopacBuf := MopacKept(b.mopacBuf, b.refIdx, b.refIdx + cfg.rowsRefreshed))
    requires flushed == MopacFlush(cfg, b1, cfg.mopacRefUpdates) && b' == MopacHandleRef(cfg, b)
    ensures b.mopacDrain == 0 ==> b'.prac == flushed.prac && b'.mopacBuf == flushed.mopacBuf
    ensures b.mopacDrain != 0 ==> b'.prac == b1.prac && b'.mopacBuf == b1.mopacBuf
  {}

  /** In a buffer of distinct rows an entry is all there is for its row. */
  lemma OnlyEntry(buf: seq<MopacEntry>, r: int)
    requires DistinctRows(buf) && buf != [] && buf[0].row == r
    ensures Buffered(buf[1..], r) == 0
  {
    forall k | 0 <= k < |buf| - 1 ensures buf[1..][k].row != r {}
    NotBuffered(buf[1..], r);
  }

  lemma {:induction false} NotBuffered(buf: seq<MopacEntry>, r: int)
    requires forall k :: 0 <= k < |buf| ==> buf[k].row != r
    ensures Buffered(buf, r) == 0
  {
    if buf != [] { NotBuffered(buf[1..], r); }
  }

  /** Flushing takes all that is buffered for a row, or leaves it alone. */
  lemma {:induction false} FlushTakesAll(cfg: Config, b: Bank, n: nat, r: int)
    requires BufferOk(b)
    ensures var left := Buffered(MopacFlush(cfg, b, n).mopacBuf, r); left == 0 || left == Buffered(b.mopacBuf, r)
    decreases n
  {
    if n > 0 && b.mopacBuf != [] {
      var e, rest := b.mopacBuf[0], b.mopacBuf[1..];
      if e.row == r { OnlyEntry(b.mopacBuf, r); }
      FlushTakesAll(cfg, MopacUpdatePrac(cfg, b.(mopacBuf := rest), e.row, e.sctr), n - 1, r);
    }
  }

  /** What a refresh leaves of a row it refreshes: its counter is cleared, and its buffered count is dropped, flushed
      into the cleared counter, or, if the row lies past the end of the unwrapped range, kept as it was. */
  ghost predicate Wiped(cfg: Config, b: Bank, b': Bank, r: nat) {
    && b'.Count(r) == 0
    && (Buffered(b'.mopacBuf, r) == 0 ||
        (!(b.refIdx <= r < b.refIdx + cfg.rowsRefreshed) && Buffered(b'.mopacBuf, r) == Buffered(b.mopacBuf, r)))
  }

  lemma HandleRefTakesAll(cfg: Config, b: Bank, r: int)
    requires BufferOk(b)
    ensures var left := Buffered(MopacHandleRef(cfg, b).mopacBuf, r);
      left == 0 || (!(b.refIdx <= r < b.refIdx + cfg.rowsRefreshed) && left == Buffered(b.mopacBuf, r))
  {
    var b1 := b.(mopacBuf := MopacKept(b.mopacBuf, b.refIdx, b.refIdx + cfg.rowsRefreshed));
    KeptCounts(b.mopacBuf, b.refIdx, b.refIdx + cfg.rowsRefreshed, r);
    KeptOk(b, b.refIdx, b.refIdx + cfg.rowsRefreshed);
    FlushTakesAll(cfg, b1, cfg.mopacRefUpdates, r);
    HandleRefShape(cfg, b, b1, MopacFlush(cfg, b1, cfg.mopacRefUpdates), MopacHandleRef(cfg, b));
  }

  /** A refresh conserves the total of every row it does not refresh, and wipes those it does. */
  lemma RefreshConserves(cfg: Config, b: Bank, r: nat)
    requires cfg.impl == Mopac && b.Valid(cfg) && b.state == Closed && BufferOk(b) && cfg.HasRow(r)
    ensures BufferOk(Refreshed(cfg, b))
    ensures if InRefreshWindow(cfg, b, r) then Wiped(cfg, b, Refreshed(cfg, b), r)
            else Wrap16(Total(Refreshed(cfg, b), r)) == Wrap16(Total(b, r))
  {
    HandleRefConserves(cfg, b, r);
    HandleRefTakesAll(cfg, b, r);
    RefreshClears(cfg, b, MopacHandleRef(cfg, b), Refreshed(cfg, b), r);
  }

  /** After the MOPAC part, a refresh clears the counters of its window and touches no other count. */
  lemma RefreshClears(cfg: Config, b: Bank, b1: Bank, b': Bank, r: nat)
    requires cfg.impl == Mopac && b.Valid(cfg) && b.state == Closed && cfg.HasRow(r)
    requires b1 == MopacHandleRef(cfg, b) && b' == Refreshed(cfg, b)
    ensures b'.Count(r) == if InRefreshWindow(cfg, b, r) then 0 else b1.Count(r)
    ensures b'.mopacBuf == b1.mopacBuf && |b'.prac| == |b1.prac|
  {}

  // ----- Every command, every run -----

  predicate CountsOnClose(ty: CommandType) { ty == ReadPrecharge2 || ty == WritePrecharge2 || ty == Precharge2 }

  /** What a command may do to a row's total: a sampled activation of the row and a counting precharge of the row
      add one, a refresh of the row wipes it, a mitigation clears its counter, and everything else conserves it. */
  ghost predicate Accounted(cfg: Config, b: Bank, c: Command, b': Bank, r: nat)
    requires b.Valid(cfg) && cfg.HasRow(r)
  {
    if c.ty == Activate then
      Total(b', r) == Total(b, r) + if r == c.addr.row && Samples(WindowOf(b)) then 1 else 0
    else if c.ty.IsRefresh() && InRefreshWindow(cfg, b, r) then Wiped(cfg, b, b', r)
    else if c.ty.IsRfm() && Mitigates(cfg, b) && r == b.moatRow then
      b'.Count(r) == 0 && Buffered(b'.mopacBuf, r) == Buffered(b.mopacBuf, r)
    else
      Wrap16(Total(b', r)) == Wrap16(Total(b, r) + if CountsOnClose(c.ty) && r == b.openRow then 1 else 0)
  }

  lemma ClosedCounts(cfg: Config, b: Bank, ty: CommandType, b': Bank, r: nat)
    requires cfg.impl == Mopac && b.Valid(cfg) && b.state == Open && cfg.HasRow(r) && b' == ClosedBy(cfg, b, ty)
    ensures b'.Count(r) == if CountsOnClose(ty) && r == b.openRow then Wrap16(b.Count(r) + 1) else b.Count(r)
    ensures b'.mopacBuf == b.mopacBuf && |b'.prac| == |b.prac|
  {}

  lemma CloseAccounted(cfg: Config, b: Bank, c: Command, r: nat)
    requires cfg.impl == Mopac && b.Valid(cfg) && b.state == Open && BufferOk(b) && cfg.HasRow(r)
    requires c.ty.IsPrecharge() || c.ty.IsReadWrite()
    ensures Accounted(cfg, b, c, ClosedBy(cfg, b, c.ty), r) && BufferOk(ClosedBy(cfg, b, c.ty))
  {
    var b' := ClosedBy(cfg, b, c.ty);
    ClosedCounts(cfg, b, c.ty, b', r);
    AddsOne(b, b', r, CountsOnClose(c.ty) && r == b.openRow);
  }

  lemma AddsOne(b: Bank, b': Bank, r: nat, counts: bool)
    requires BufferOk(b) && b'.mopacBuf == b.mopacBuf && |b'.prac| == |b.prac|
    requires b'.Count(r) == if counts then Wrap16(b.Count(r) + 1) else b.Count(r)
    ensures BufferOk(b') && Wrap16(Total(b', r)) == Wrap16(Total(b, r) + if counts then 1 else 0)
  {
    WrapSum(b.Count(r), 1, Buffered(b.mopacBuf, r));
  }

  lemma OpenAccounted(cfg: Config, b: Bank, c: Command, rnd: nat, r: nat)
    requires cfg.Valid() && cfg.impl == Mopac && b.Valid(cfg) && BufferOk(b) && cfg.HasRow(r)
    requires b.state == Open && b.Legal(c.ty)
    ensures var b' := UpdateState(cfg, b, c, rnd); b'.Some? && BufferOk(b'.value) && Accounted(cfg, b, c, b'.value, r)
  {
    if c.ty == Read || c.ty == Write {
      TotalsFrom(b, b.(rowHits := b.rowHits + 1), r);
    } else {
      CloseAccounted(cfg, b, c, r);
    }
  }

  lemma BankAccounted(cfg: Config, b: Bank, c: Command, rnd: nat, r: nat)
    requires cfg.Valid() && cfg.impl == Mopac && b.Valid(cfg) && BufferOk(b) && cfg.HasRow(r)
    requires b.Legal(c.ty) && c.ty != SrefEnter && (c.ty == Activate ==> cfg.HasRow(c.addr.row))
    ensures var b' := UpdateState(cfg, b, c, rnd); b'.Some? && BufferOk(b'.value) && Accounted(cfg, b, c, b'.value, r)
  {
    if b.state == Open {
      OpenAccounted(cfg, b, c, rnd, r);
    } else if c.ty == Activate {
      ActivateConserves(cfg, b, c.addr.row, rnd, r);
    } else if c.ty.IsRfm() {
      RfmConserves(cfg, b, r);
    } else {
      RefreshConserves(cfg, b, r);
    }
  }

  /** One issued command, for one bank of the channel. */
  lemma IssueAccounted(cfg: Config, ch: Channel, c: Command, clk: nat, rnd: nat, id: BankId, r: nat)
    requires cfg.Valid() && cfg.impl == Mopac && ch.Valid(cfg) && Issuable(cfg, ch, c, clk)
    requires cfg.HasBank(id) && cfg.HasRow(r) && BufferOk(ch.banks[id])
    ensures Issued(cfg, ch, c, clk, rnd).Some? && id in Issued(cfg, ch, c, clk, rnd).value.banks
    ensures var b, b' := ch.banks[id], Issued(cfg, ch, c, clk, rnd).value.banks[id];
      && BufferOk(b')
      && if c.Touches(id) then Accounted(cfg, b, c, b', r) else Total(b', r) == Total(b, r)
  {
    IssuedBank(cfg, ch, c, clk, rnd, id);
    var b, b' := ch.banks[id], Issued(cfg, ch, c, clk, rnd).value.banks[id];
    if c.Touches(id) {
      BankAccounted(cfg, b, c, rnd, r);
      TotalsFrom(UpdateState(cfg, b, c, rnd).value, b', r);
    } else {
      TotalsFrom(b, b', r);
    }
  }

  /** What every bank keeps: distinct buffered rows and a window that is never outrun. */
  ghost predicate MopacOk(cfg: Config, b: Bank) {
    BufferOk(b) && b.mopacActs < cfg.pacProb && b.mopacSel < cfg.pacProb
  }

  lemma WindowInRange(prob: nat, b: Bank, b': Bank, rnd: nat)
    requires b.mopacActs < prob && b.mopacSel < prob
    requires WindowOf(b') == WindowOf(b) || WindowOf(b') == NextWindow(prob, WindowOf(b), rnd)
    ensures b'.mopacActs < prob && b'.mopacSel < prob
  {}

  /** An issued command moves a bank's window only if it activates a row of the bank. */
  lemma IssueMovesWindow(cfg: Config, ch: Channel, c: Command, clk: nat, rnd: nat, id: BankId)
    requires cfg.Valid() && cfg.impl == Mopac && ch.Valid(cfg) && Issuable(cfg, ch, c, clk) && cfg.HasBank(id)
    ensures Issued(cfg, ch, c, clk, rnd).Some? && id in Issued(cfg, ch, c, clk, rnd).value.banks
    ensures WindowOf(Issued(cfg, ch, c, clk, rnd).value.banks[id])
         == if c.ty == Activate && c.Id() == id then NextWindow(cfg.pacProb, WindowOf(ch.banks[id]), rnd)
            else WindowOf(ch.banks[id])
  {
    IssuedBank(cfg, ch, c, clk, rnd, id);
    if c.Touches(id) { WindowMoves(cfg, ch.banks[id], c, rnd); }
  }

  lemma IssueKeepsWindow(cfg: Config, ch: Channel, c: Command, clk: nat, rnd: nat, id: BankId)
    requires cfg.Valid() && cfg.impl == Mopac && ch.Valid(cfg) && Issuable(cfg, ch, c, clk)
    requires cfg.HasBank(id) && MopacOk(cfg, ch.banks[id])
    ensures Issued(cfg, ch, c, clk, rnd).Some? && id in Issued(cfg, ch, c, clk, rnd).value.banks
    ensures MopacOk(cfg, Issued(cfg, ch, c, clk, rnd).value.banks[id])
  {
    IssueAccounted(cfg, ch, c, clk, rnd, id, 0);
    IssueMovesWindow(cfg, ch, c, clk, rnd, id);
    WindowInRange(cfg.pacProb, ch.banks[id], Issued(cfg, ch, c, clk, rnd).value.banks[id], rnd);
  }
}
