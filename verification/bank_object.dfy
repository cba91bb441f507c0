/** The bank as an object: BankState's methods work on its fields and on the array of row counters in place, and
    each is proved against the function of the same step on values (DRAMsim3/src/bankstate.cc). */
module BankObjects {
  import opened Commands
  import opened Configuration
  import opened BankStates
  import MR = MixedRadix
  import CS = ChannelStates

  /** Distance of a row from the refresh pointer, going round the end of the bank. */
  function Distance(refIdx: nat, rows: nat, r: nat): nat
    requires refIdx < rows && r < rows
  {
    if r >= refIdx then r - refIdx else r + rows - refIdx
  }

  lemma WrapIndex(refIdx: nat, rows: nat, i: nat)
    requires refIdx < rows
    ensures 0 <= (refIdx + i) % rows < rows && (i < rows ==> Distance(refIdx, rows, (refIdx + i) % rows) == i)
  {
    if i < rows {
      var q, r := if refIdx + i < rows then 0 else 1, if refIdx + i < rows then refIdx + i else refIdx + i - rows;
      assert q * rows + r == refIdx + i;
      MR.DivisionUnique(q, rows, r);
      MR.IsDivMod(refIdx + i, rows);
    }
  }

  /** The filter, seen from the end. */
  lemma {:induction false} KeptSnoc(buf: seq<MopacEntry>, e: MopacEntry, lwr: nat, upp: nat)
    ensures MopacKept(buf + [e], lwr, upp) == MopacKept(buf, lwr, upp) + if lwr <= e.row < upp then [] else [e]
  {
    if buf == [] {
      assert [] + [e] == [e] && [e][1..] == [];
    } else {
      var head := if lwr <= buf[0].row < upp then [] else [buf[0]];
      var last := if lwr <= e.row < upp then [] else [e];
      var rest := MopacKept(buf[1..], lwr, upp);
      assert (buf + [e])[0] == buf[0] && (buf + [e])[1..] == buf[1..] + [e];
      KeptSnoc(buf[1..], e, lwr, upp);
      assert head + (rest + last) == head + rest + last;
    }
  }

  /** The erase loop: entries of a range of rows go, the others stay in order. */
  method EraseRange(buf: seq<MopacEntry>, lwr: nat, upp: nat) returns (r: seq<MopacEntry>)
    ensures r == MopacKept(buf, lwr, upp)
  {
    r := buf;
    var k := 0;
    ghost var i, kept := 0, [];
    assert buf[..0] == [] && [] + buf[0..] == buf;
    while k < |r|
      invariant i <= |buf| && k == |kept| && r == kept + buf[i..] && kept == MopacKept(buf[..i], lwr, upp)
      decreases |r| - k
    {
      KeptNext(buf, i, kept, lwr, upp);
      if lwr <= r[k].row < upp {
        r := r[..k] + r[k + 1..];
      } else {
        k, kept := k + 1, kept + [buf[i]];
      }
      i := i + 1;
    }
    assert buf[..i] == buf;
  }

  lemma KeptNext(buf: seq<MopacEntry>, i: nat, kept: seq<MopacEntry>, lwr: nat, upp: nat)
    requires i < |buf| && kept == MopacKept(buf[..i], lwr, upp)
    ensures var r := kept + buf[i..];
      && r[|kept|] == buf[i] && r[..|kept|] + r[|kept| + 1..] == kept + buf[i + 1..]
      && r == (kept + [buf[i]]) + buf[i + 1..]
    ensures MopacKept(buf[..i + 1], lwr, upp) == if lwr <= buf[i].row < upp then kept else kept + [buf[i]]
  {
    assert buf[..i + 1] == buf[..i] + [buf[i]] && buf[i..] == [buf[i]] + buf[i + 1..];
    KeptSnoc(buf[..i], buf[i], lwr, upp);
  }

  class BankState {
    const cfg: Config
    var state: Phase
    var openRow: int
    var rowHits: nat
    var timing: map<CommandType, nat>
    var raa: int
    const prac: array<nat>
    var moatValid: bool
    var moatRow: nat
    var moatRefs: nat
    var mopacActs: nat
    var mopacSel: nat
    var mopacDrain: nat
    var mopacBuf: seq<MopacEntry>
    var mopacCritical: nat
    var refIdx: nat

    ghost function View(): (b: Bank)
      reads this, prac
    {
      Bank(state, openRow, rowHits, timing, raa, prac[..], moatValid, moatRow, moatRefs,
           mopacActs, mopacSel, mopacDrain, mopacBuf, mopacCritical, refIdx)
    }

    /** Rows that are indexed exist. */
    ghost predicate Rows()
      reads this
    {
      moatRow < prac.Length && forall e <- mopacBuf :: e.row < prac.Length
    }

    ghost predicate Valid()
      reads this, prac
    {
      cfg.Valid() && View().Valid(cfg) && Rows()
    }

    constructor (cfg: Config, draw: nat)
      requires cfg.Valid()
      ensures this.cfg == cfg && Valid() && fresh(prac) && View() == InitBank(cfg, draw)
    {
      this.cfg := cfg;
      state, openRow, rowHits, timing, raa := Closed, -1, 0, map[], 0;
      prac := new nat[cfg.sizes.rows](_ => 0);
      moatValid, moatRow, moatRefs := false, 0, 0;
      mopacActs, mopacSel, mopacDrain, mopacBuf, mopacCritical := 0, draw % cfg.pacProb, 0, [], 0;
      refIdx := 0;
    }

    method UpdateTiming(ty: CommandType, time: nat)
      modifies this`timing
      ensures View() == old(View()).(timing := old(timing)[ty := Max(old(View()).EarliestStart(ty), time)])
    {
      timing := timing[ty := Max(if ty in timing then timing[ty] else 0, time)];
    }

    /** A list of constraints, applied one by one. */
    method ApplyConstraints(cs: seq<Constraint>, clk: nat)
      modifies this`timing
      ensures View() == CS.Constrain(old(View()), cs, clk)
    {
      var i := 0;
      assert cs[0..] == cs;
      while i < |cs|
        invariant i <= |cs| && CS.Constrain(View(), cs[i..], clk) == CS.Constrain(old(View()), cs, clk)
      {
        UpdateTiming(cs[i].ty, clk + cs[i].delay);
        assert cs[i..][1..] == cs[i + 1..];
        i := i + 1;
      }
    }

    method CheckAlert() returns (b: bool)
      requires Rows()
      ensures b == BankStates.CheckAlert(cfg, View())
    {
      if mopacCritical > 0 { return true; }
      if |mopacBuf| >= cfg.mopacBufSize { return true; }
      return moatValid && prac[moatRow] >= cfg.moatAth;
    }

    // ----- MOAT -----

    method MoatUpdate()
      requires Rows() && 0 <= openRow < prac.Length
      modifies this`moatRow, this`moatValid
      ensures Rows() && View() == BankStates.MoatUpdate(cfg, old(View()))
    {
      var c := prac[openRow];
      if c >= cfg.moatAth / 2 && (!moatValid || c > prac[moatRow]) {
        moatRow := openRow;
        moatValid := true;
      }
    }

    method MoatMitigate()
      requires Rows()
      modifies this`moatValid, prac
      ensures Rows() && View() == BankStates.MoatMitigate(old(View()))
    {
      if moatValid {
        prac[moatRow] := 0;
        moatValid := false;
      }
    }

    method MoatCheckTracked()
      modifies this`moatValid
      ensures View() == BankStates.MoatCheckTracked(cfg, old(View()))
    {
      if moatValid && moatRow >= refIdx && moatRow < refIdx + cfg.rowsRefreshed { moatValid := false; }
    }

    method MoatHandleRef()
      requires Rows()
      modifies this`moatRefs, this`moatValid, prac
      ensures Rows() && View() == BankStates.MoatHandleRef(cfg, old(View()))
    {
      moatRefs := moatRefs + 1;
      if moatRefs == 5 {
        MoatMitigate();
        moatRefs := 0;
      }
      MoatCheckTracked();
    }

    // ----- MOPAC -----

    method MopacUpdatePrac(r: nat, n: nat)
      requires Rows() && r < prac.Length
      modifies this`moatRow, this`moatValid, prac
      ensures Rows() && View() == BankStates.MopacUpdatePrac(cfg, old(View()), r, n)
    {
      prac[r] := Wrap16(prac[r] + n);
      if prac[r] >= cfg.moatAth / 2 && (!moatValid || prac[r] > prac[moatRow]) {
        moatRow := r;
        moatValid := true;
      }
    }

    method MopacFlushNext()
      requires Rows()
      modifies this`moatRow, this`moatValid, this`mopacBuf, prac
      ensures Rows() && View() == MopacFlush(cfg, old(View()), 1)
    {
      if mopacBuf == [] { return; }
      var e := mopacBuf[0];
      mopacBuf := mopacBuf[1..];
      MopacUpdatePrac(e.row, e.sctr);
    }

    method Flush(n: nat)
      requires Rows()
      modifies this`moatRow, this`moatValid, this`mopacBuf, prac
      ensures Rows() && View() == MopacFlush(cfg, old(View()), n)
    {
      var i := 0;
      while i < n
        invariant i <= n && Rows()
        invariant MopacFlush(cfg, View(), n - i) == MopacFlush(cfg, old(View()), n)
      {
        FlushStep(cfg, View(), n - i);
        MopacFlushNext();
        i := i + 1;
      }
    }

    method MopacHandleCriticalRow()
      requires Rows()
      modifies this`moatRow, this`moatValid, this`mopacBuf, prac
      ensures Rows() && View() == BankStates.MopacHandleCriticalRow(cfg, old(View()))
    {
      ghost var b := View();
      var k := FindCritical();
      if k < |mopacBuf| {
        var e := mopacBuf[k];
        MopacUpdatePrac(e.row, e.sctr);
        ghost var b1 := BankStates.MopacUpdatePrac(cfg, b, e.row, e.sctr);
        mopacBuf := mopacBuf[..k] + mopacBuf[k + 1..];
        assert View() == b1.(mopacBuf := b.mopacBuf[..k] + b.mopacBuf[k + 1..]);
      }
    }

    method FindCritical() returns (k: nat)
      ensures k <= |mopacBuf| && (k < |mopacBuf| ==> mopacBuf[k].sctr >= cfg.mopacQueueTh)
      ensures forall j :: 0 <= j < k ==> mopacBuf[j].sctr < cfg.mopacQueueTh
    {
      k := 0;
      while k < |mopacBuf| && mopacBuf[k].sctr < cfg.mopacQueueTh
        invariant k <= |mopacBuf| && forall j :: 0 <= j < k ==> mopacBuf[j].sctr < cfg.mopacQueueTh
      {
        k := k + 1;
      }
    }

    /** Entries of the rows about to be refreshed leave the buffer. */
    method DropRefreshed()
      requires Rows()
      modifies this`mopacBuf
      ensures Rows() && View() == old(View()).(mopacBuf := MopacKept(old(mopacBuf), refIdx, refIdx + cfg.rowsRefreshed))
    {
      mopacBuf := EraseRange(mopacBuf, refIdx, refIdx + cfg.rowsRefreshed);
    }

    method MopacDrainStep()
      requires Rows()
      modifies this`moatRow, this`moatValid, this`mopacBuf, this`mopacDrain, prac
      ensures Rows() && View() == MopacDrained(cfg, old(View()))
    {
      if mopacDrain == 0 {
        Flush(cfg.mopacRefUpdates);
        mopacDrain := cfg.mopacDrainFreq;
      }
      mopacDrain := if mopacDrain == 0 then SIZE_MAX else mopacDrain - 1;
    }

    method MopacHandleRef()
      requires Rows()
      modifies this`moatRow, this`moatValid, this`mopacBuf, this`mopacDrain, prac
      ensures Rows() && View() == BankStates.MopacHandleRef(cfg, old(View()))
    {
      ghost var b := View();
      ghost var b1 := b.(mopacBuf := MopacKept(b.mopacBuf, b.refIdx, b.refIdx + cfg.rowsRefreshed));
      ghost var b2 := MopacDrained(cfg, b1);
      assert BankStates.MopacHandleRef(cfg, b) == BankStates.MoatCheckTracked(cfg, b2);
      DropRefreshed();
      assert View() == b1;
      MopacDrainStep();
      assert View() == b2;
      MoatCheckTracked();
    }

    method MopacMitigate()
      requires Rows()
      modifies this`moatRow, this`moatValid, this`mopacBuf, prac
      ensures Rows() && View() == BankStates.MopacMitigate(cfg, old(View()))
    {
      if mopacCritical > 0 {
        MopacHandleCriticalRow();
      } else if |mopacBuf| >= cfg.mopacBufSize {
        Flush(cfg.mopacAboUpdates);
      } else if moatValid && prac[moatRow] >= cfg.moatAth {
        MoatMitigate();
      } else {
        Flush(cfg.mopacAboUpdates);
      }
    }

    method MopacCtrUpdate(rnd: nat)
      requires Rows() && cfg.pacProb >= 1 && 0 <= openRow < prac.Length
      modifies this`mopacBuf, this`mopacCritical, this`mopacActs, this`mopacSel
      ensures Rows() && View() == BankStates.MopacCtrUpdate(cfg, old(View()), rnd)
    {
      var k := 0;
      while k < |mopacBuf| && mopacBuf[k].row != openRow
        invariant k <= |mopacBuf| && forall j :: 0 <= j < k ==> mopacBuf[j].row != openRow
      {
        k := k + 1;
      }
      if mopacActs == mopacSel { Sample(k); }
      mopacActs := mopacActs + 1;
      if mopacActs == cfg.pacProb {
        mopacActs := 0;
        mopacSel := rnd % cfg.pacProb;
      }
    }

    /** The open row goes into the buffer, or its entry at k counts one more. */
    method Sample(k: nat)
      requires Rows() && 0 <= openRow < prac.Length
      requires k <= |mopacBuf| && (forall j :: 0 <= j < k ==> mopacBuf[j].row != openRow)
      requires k < |mopacBuf| ==> mopacBuf[k].row == openRow
      modifies this`mopacBuf, this`mopacCritical
      ensures Rows() && View() == MopacSample(cfg, old(View()))
    {
      if k == |mopacBuf| {
        mopacBuf := mopacBuf + [MopacEntry(openRow, 1)];
      } else {
        mopacBuf := mopacBuf[k := MopacEntry(mopacBuf[k].row, mopacBuf[k].sctr + 1)];
        if mopacBuf[k].sctr == cfg.mopacQueueTh { mopacCritical := mopacCritical + 1; }
      }
    }

    // ----- UpdateState -----

    /** The counters of the refreshed rows are cleared one by one, round the end of the bank. */
    method ClearRows()
      requires refIdx < prac.Length
      modifies prac
      ensures View() == ClearRefreshed(cfg, old(View()))
    {
      var i := 0;
      while i < cfg.rowsRefreshed
        invariant i <= cfg.rowsRefreshed
        invariant forall r :: 0 <= r < prac.Length ==>
          prac[r] == if Distance(refIdx, prac.Length, r) < i then 0 else old(prac[r])
      {
        WrapIndex(refIdx, prac.Length, i);
        prac[(refIdx + i) % prac.Length] := 0;
        i := i + 1;
      }
      assert prac[..] == ClearRefreshed(cfg, old(View())).prac;
    }

    method Refresh()
      requires Valid() && state == Closed
      modifies this`moatRow, this`moatValid, this`moatRefs, this`mopacBuf, this`mopacDrain, this`raa, this`refIdx, prac
      ensures Valid() && View() == Refreshed(cfg, old(View()))
    {
      ghost var b := View();
      ghost var b1 := RefreshedCounters(cfg, b);
      ghost var b2 := b1.(raa := b1.raa - Min(b1.raa, cfg.refRaaDecrement));
      RefreshCounters();
      Discharge(cfg.refRaaDecrement);
      assert View() == b2;
      if cfg.impl == Moat || cfg.impl == Pac { MoatHandleRef(); }
      AdvancePointer();
    }

    method Discharge(n: nat)
      modifies this`raa
      ensures View() == old(View()).(raa := old(raa) - Min(old(raa), n))
    {
      raa := raa - Min(raa, n);
    }

    method AdvancePointer()
      requires prac.Length == cfg.sizes.rows >= 1
      modifies this`refIdx
      ensures View() == old(View()).(refIdx := Advance(old(refIdx), cfg.rowsRefreshed, prac.Length))
    {
      refIdx := (refIdx + cfg.rowsRefreshed) % cfg.sizes.rows;
    }

    method RefreshCounters()
      requires Rows() && refIdx < prac.Length
      modifies this`moatRow, this`moatValid, this`mopacBuf, this`mopacDrain, prac
      ensures Rows() && View() == RefreshedCounters(cfg, old(View()))
    {
      if cfg.impl == Mopac { MopacHandleRef(); }
      ClearRows();
    }

    method CountRow(ty: CommandType)
      requires Valid() && state == Open
      modifies this`moatRow, this`moatValid, prac
      ensures Valid() && View() == Counted(cfg, old(View()), ty)
    {
      ghost var b := View();
      if ty == ReadPrecharge2 || ty == WritePrecharge2 || ty == Precharge2 {
        prac[openRow] := Wrap16(prac[openRow] + 1);
        assert View() == b.WithCount(b.openRow, Wrap16(b.Count(b.openRow) + 1));
        if cfg.impl == Moat || cfg.impl == Pac { MoatUpdate(); }
      }
    }

    method Close(ty: CommandType)
      requires Valid() && state == Open
      modifies this`moatRow, this`moatValid, this`state, this`openRow, this`rowHits, prac
      ensures Valid() && View() == ClosedBy(cfg, old(View()), ty)
    {
      CountRow(ty);
      state, openRow, rowHits := Closed, -1, 0;
    }

    method Manage()
      requires Valid() && state == Closed
      modifies this`moatRow, this`moatValid, this`mopacBuf, this`raa, prac
      ensures Valid() && View() == Managed(cfg, old(View()))
    {
      Discharge(cfg.rfmRaaDecrement);
      if cfg.impl == Mopac {
        MopacMitigate();
      } else if cfg.impl == Moat || cfg.impl == Pac {
        MoatMitigate();
      }
    }

    method OpenRow(row: int, rnd: nat)
      requires Valid() && state == Closed && cfg.HasRow(row)
      modifies this
      ensures Valid() && View() == Activated(cfg, old(View()), row, rnd)
    {
      state, openRow, raa := Phase.Open, row, raa + 1;
      if cfg.impl == Mopac { MopacCtrUpdate(rnd); }
    }

    /** BankState::UpdateState; false where the source exits. */
    method Update(cmd: Command, rnd: nat) returns (ok: bool)
      requires Valid() && (cmd.ty == Activate ==> cfg.HasRow(cmd.addr.row)) && cmd.ty != SrefEnter
      modifies this, prac
      ensures ok <==> UpdateState(cfg, old(View()), cmd, rnd).Some?
      ensures ok ==> Valid() && UpdateState(cfg, old(View()), cmd, rnd) == Some(View())
    {
      if state == Phase.Open {
        if cmd.ty == Read || cmd.ty == Write {
          rowHits := rowHits + 1;
        } else if cmd.ty.IsReadWrite() || cmd.ty.IsPrecharge() {
          Close(cmd.ty);
        } else {
          return false;
        }
      } else if cmd.ty.IsRefresh() {
        Refresh();
      } else if cmd.ty.IsRfm() {
        Manage();
      } else if cmd.ty == Activate {
        OpenRow(cmd.addr.row, rnd);
      } else {
        return false;
      }
      return true;
    }
  }

  /** Flushing n counters is flushing one and then the rest. */
  lemma FlushStep(cfg: Config, b: Bank, n: nat)
    requires n >= 1
    ensures MopacFlush(cfg, b, n) == MopacFlush(cfg, MopacFlush(cfg, b, 1), n - 1)
  {
    if b.mopacBuf != [] {
      var e := b.mopacBuf[0];
      var b1 := BankStates.MopacUpdatePrac(cfg, b.(mopacBuf := b.mopacBuf[1..]), e.row, e.sctr);
      assert MopacFlush(cfg, b1, 0) == b1;
    }
  }
}
