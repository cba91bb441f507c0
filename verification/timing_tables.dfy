/** How the timing tables get their PRAC rows and entries: every constraint on a plain precharge is copied to its PRAC
    form, then single entries are overwritten (DRAMsim3/src/timing.cc:15-54). */
module TimingTables {
  import opened Commands
  import opened Configuration

  type Row = seq<Constraint>

  /** One list of constraints per issued command. */
  type Table = map<CommandType, Row>

  /** The PRAC form of a command that closes a row. */
  function Twin(ty: CommandType): Option<CommandType> {
    match ty
    case ReadPrecharge => Some(ReadPrecharge2)
    case WritePrecharge => Some(WritePrecharge2)
    case Precharge => Some(Precharge2)
    case _ => None
  }

  predicate IsPrac(ty: CommandType) { ty == ReadPrecharge2 || ty == WritePrecharge2 || ty == Precharge2 }

  /** The copies that a row gets, in order. */
  function Twins(row: Row): Row {
    if row == [] then []
    else (match Twin(row[0].ty) case Some(ty) => [Constraint(ty, row[0].delay)] case None => []) + Twins(row[1..])
  }

  function CopiedInternal(t: Table): Table { map ty | ty in t :: t[ty] + Twins(t[ty]) }

  ghost predicate Full(t: Table) { forall ty: CommandType :: ty in t }

  function CopiedAll(t: Table): Table
    requires Full(t)
  {
    var t1 := CopiedInternal(t);
    t1[ReadPrecharge2 := t1[ReadPrecharge]][WritePrecharge2 := t1[WritePrecharge]][Precharge2 := t1[Precharge]]
  }

  // ----- In place -----

  const ALL_TYPES: seq<CommandType> :=
    [Read, ReadPrecharge, Write, WritePrecharge, Activate, Precharge, ReadPrecharge2, WritePrecharge2, Precharge2,
     RefreshBank, RefSb, RefAb, SrefEnter, SrefExit, RfmSb, RfmAb]

  lemma AllTypesOnce(ty: CommandType)
    ensures ty in ALL_TYPES
    ensures forall i, j :: 0 <= i < j < |ALL_TYPES| ==> ALL_TYPES[i] != ALL_TYPES[j]
  {
    match ty
    case Read => assert ALL_TYPES[0] == ty;
    case ReadPrecharge => assert ALL_TYPES[1] == ty;
    case Write => assert ALL_TYPES[2] == ty;
    case WritePrecharge => assert ALL_TYPES[3] == ty;
    case Activate => assert ALL_TYPES[4] == ty;
    case Precharge => assert ALL_TYPES[5] == ty;
    case ReadPrecharge2 => assert ALL_TYPES[6] == ty;
    case WritePrecharge2 => assert ALL_TYPES[7] == ty;
    case Precharge2 => assert ALL_TYPES[8] == ty;
    case RefreshBank => assert ALL_TYPES[9] == ty;
    case RefSb => assert ALL_TYPES[10] == ty;
    case RefAb => assert ALL_TYPES[11] == ty;
    case SrefEnter => assert ALL_TYPES[12] == ty;
    case SrefExit => assert ALL_TYPES[13] == ty;
    case RfmSb => assert ALL_TYPES[14] == ty;
    case RfmAb => assert ALL_TYPES[15] == ty;
  }

  method NewTimings(row: Row) returns (r: Row)
    ensures r == Twins(row)
  {
    r := [];
    var i := 0;
    while i < |row|
      invariant i <= |row| && r + Twins(row[i..]) == Twins(row)
    {
      assert row[i..][1..] == row[i + 1..];
      match Twin(row[i].ty) {
        case None =>
        case Some(ty) => r := r + [Constraint(ty, row[i].delay)];
      }
      i := i + 1;
    }
  }

  class TimingTable {
    var rows: Table

    constructor (rows: Table)
      ensures this.rows == rows
    {
      this.rows := rows;
    }

    method CopyInternal()
      requires Full(rows)
      modifies this
      ensures rows == CopiedInternal(old(rows))
    {
      forall ty: CommandType ensures ty in ALL_TYPES { AllTypesOnce(ty); }
      CopyRows(ALL_TYPES);
    }

    /** The loop over the rows, given as any list of all commands without repetition. */
    method CopyRows(types: seq<CommandType>)
      requires Full(rows) && (forall ty: CommandType :: ty in types)
      requires forall i, j :: 0 <= i < j < |types| ==> types[i] != types[j]
      modifies this
      ensures rows == CopiedInternal(old(rows))
    {
      ghost var was := rows;
      var i := 0;
      while i < |types|
        invariant i <= |types| && rows.Keys == was.Keys
        invariant forall ty <- was :: rows[ty] == if ty in types[..i] then was[ty] + Twins(was[ty]) else was[ty]
      {
        var ty := types[i];
        assert ty !in types[..i] && types[..i + 1] == types[..i] + [ty];
        var copies := NewTimings(rows[ty]);
        rows := rows[ty := rows[ty] + copies];
        i := i + 1;
      }
      assert types[..i] == types;
    }

    method CopyAll()
      requires Full(rows)
      modifies this
      ensures rows == CopiedAll(old(rows))
    {
      CopyInternal();
      rows := rows[ReadPrecharge2 := rows[ReadPrecharge]];
      rows := rows[WritePrecharge2 := rows[WritePrecharge]];
      rows := rows[Precharge2 := rows[Precharge]];
    }

    /** The first entry for the command gets the delay; without one nothing changes. */
    method FindAndSet(key: CommandType, ty: CommandType, delay: nat)
      requires Full(rows)
      modifies this
      ensures rows == old(rows)[key := Overwritten(old(rows)[key], ty, delay)]
    {
      var row, i := rows[key], 0;
      while i < |row| && row[i].ty != ty
        invariant i <= |row| && forall j :: 0 <= j < i ==> row[j].ty != ty
      {
        i := i + 1;
      }
      OverwrittenAt(row, ty, delay, i);
      if i < |row| { rows := rows[key := row[i := Constraint(ty, delay)]]; }
    }
  }

  function Overwritten(row: Row, ty: CommandType, delay: nat): Row {
    if row == [] then []
    else if row[0].ty == ty then [Constraint(ty, delay)] + row[1..]
    else [row[0]] + Overwritten(row[1..], ty, delay)
  }

  lemma {:induction false} OverwrittenAt(row: Row, ty: CommandType, delay: nat, i: nat)
    requires i <= |row| && (forall j :: 0 <= j < i ==> row[j].ty != ty) && (i < |row| ==> row[i].ty == ty)
    ensures Overwritten(row, ty, delay) == if i < |row| then row[i := Constraint(ty, delay)] else row
  {
    if i > 0 {
      OverwrittenAt(row[1..], ty, delay, i - 1);
      assert row == [row[0]] + row[1..];
    } else if row != [] {
      assert [Constraint(ty, delay)] + row[1..] == row[0 := Constraint(ty, delay)];
    }
  }

  // ----- What the copies mean -----

  /** The delays that a row puts on a command. */
  function Delays(row: Row, ty: CommandType): seq<nat> {
    if row == [] then [] else (if row[0].ty == ty then [row[0].delay] else []) + Delays(row[1..], ty)
  }

  lemma {:induction false} DelaysConcat(a: Row, b: Row, ty: CommandType)
    ensures Delays(a + b, ty) == Delays(a, ty) + Delays(b, ty)
  {
    if a == [] {
      assert a + b == b;
    } else {
      assert a + b == [a[0]] + (a[1..] + b) && a == [a[0]] + a[1..];
      DelaysCons(a[0], a[1..] + b, ty);
      DelaysCons(a[0], a[1..], ty);
      DelaysConcat(a[1..], b, ty);
      assert [a[0].delay] + (Delays(a[1..], ty) + Delays(b, ty)) == ([a[0].delay] + Delays(a[1..], ty)) + Delays(b, ty);
    }
  }

  /** The copies are on PRAC forms only, and carry the delays of the plain form. */
  lemma {:induction false} TwinDelays(row: Row, ty: CommandType)
    ensures !IsPrac(ty) ==> Delays(Twins(row), ty) == []
    ensures Twin(ty).Some? ==> Delays(Twins(row), Twin(ty).value) == Delays(row, ty)
  {
    if row != [] {
      TwinDelays(row[1..], ty);
      match Twin(row[0].ty)
      case None => assert Twins(row) == [] + Twins(row[1..]) == Twins(row[1..]);
      case Some(c) =>
        var first := [Constraint(c, row[0].delay)];
        assert first[1..] == [];
        DelaysConcat(first, Twins(row[1..]), ty);
        if Twin(ty).Some? { DelaysConcat(first, Twins(row[1..]), Twin(ty).value); }
    }
  }

  lemma {:induction false} NoDelays(row: Row, ty: CommandType)
    requires forall i :: 0 <= i < |row| ==> row[i].ty != ty
    ensures Delays(row, ty) == []
  {
    if row != [] { NoDelays(row[1..], ty); }
  }

  /** After copy_all, a PRAC precharge waits for everything exactly as long as its plain form, constrains everything
      exactly as its plain form does, and nothing else has changed. */
  lemma PracFormsAlike(t: Table, issued: CommandType, ty: CommandType)
    requires Full(t) && forall c, i :: c in t && 0 <= i < |t[c]| ==> !IsPrac(t[c][i].ty)
    requires !IsPrac(issued) && !IsPrac(ty)
    ensures Delays(CopiedAll(t)[issued], ty) == Delays(t[issued], ty)
    ensures Twin(ty).Some? ==> Delays(CopiedAll(t)[issued], Twin(ty).value) == Delays(t[issued], ty)
    ensures Twin(issued).Some? ==> CopiedAll(t)[Twin(issued).value] == CopiedAll(t)[issued]
  {
    CopiedRow(t, issued);
    RowAlike(t[issued], ty);
  }

  lemma CopiedRow(t: Table, issued: CommandType)
    requires Full(t) && !IsPrac(issued)
    ensures CopiedAll(t)[issued] == t[issued] + Twins(t[issued])
    ensures Twin(issued).Some? ==> CopiedAll(t)[Twin(issued).value] == CopiedAll(t)[issued]
  {}

  lemma RowAlike(row: Row, ty: CommandType)
    requires !IsPrac(ty) && forall i :: 0 <= i < |row| ==> !IsPrac(row[i].ty)
    ensures Delays(row + Twins(row), ty) == Delays(row, ty)
    ensures Twin(ty).Some? ==> Delays(row + Twins(row), Twin(ty).value) == Delays(row, ty)
  {
    DelaysConcat(row, Twins(row), ty);
    TwinDelays(row, ty);
    assert Delays(row, ty) + [] == Delays(row, ty);
    if Twin(ty).Some? {
      var c := Twin(ty).value;
      NoDelays(row, c);
      DelaysConcat(row, Twins(row), c);
      assert [] + Delays(row, ty) == Delays(row, ty);
    }
  }

  /** find_and_set changes at most the first delay of one command in one row. */
  lemma {:induction false} OverwriteChangesOne(row: Row, ty: CommandType, delay: nat, c: CommandType)
    ensures var ds, ds' := Delays(row, c), Delays(Overwritten(row, ty, delay), c);
      ds' == if c == ty && ds != [] then ds[0 := delay] else ds
  {
    if row != [] {
      assert row == [row[0]] + row[1..];
      DelaysCons(row[0], row[1..], c);
      if row[0].ty == ty {
        DelaysCons(Constraint(ty, delay), row[1..], c);
        assert c == ty ==> ([row[0].delay] + Delays(row[1..], c))[0 := delay] == [delay] + Delays(row[1..], c);
      } else {
        OverwriteChangesOne(row[1..], ty, delay, c);
        DelaysCons(row[0], Overwritten(row[1..], ty, delay), c);
      }
    }
  }

  lemma DelaysCons(e: Constraint, row: Row, c: CommandType)
    ensures e.ty == c ==> Delays([e] + row, c) == [e.delay] + Delays(row, c)
    ensures e.ty != c ==> Delays([e] + row, c) == Delays(row, c)
  {
    assert ([e] + row)[1..] == row && [] + Delays(row, c) == Delays(row, c);
  }
}
