/** Address decoding (DRAMsim3/src/configuration.cc, SetAddressMapping and AddressMapping).
    Shifts and masks by 2^w - 1 are written as division and remainder by 2^w. */
module AddressMapping {
  import opened Commands
  import opened MixedRadix

  function Pow2(n: nat): (p: nat)
    ensures p >= 1
  {
    if n == 0 then 1 else 2 * Pow2(n - 1)
  }

  function Log2(n: nat): nat {
    if n <= 1 then 0 else 1 + Log2(n / 2)
  }

  /** Log2 is the rounded-down base-2 logarithm. */
  lemma {:induction false} Log2Bound(n: nat)
    requires n >= 1
    ensures Pow2(Log2(n)) <= n < Pow2(Log2(n) + 1)
  {
    if n > 1 { Log2Bound(n / 2); }
  }

  method LogBase2(n: nat) returns (i: nat)
    ensures i == Log2(n)
    ensures n >= 1 ==> Pow2(i) <= n < Pow2(i + 1)
  {
    i := 0;
    var m := n;
    while m > 1
      invariant i + Log2(m) == Log2(n)
    {
      m := m / 2;
      i := i + 1;
    }
    if n >= 1 { Log2Bound(n); }
  }

  /** Device geometry as configured. */
  datatype Sizes = Sizes(channels: nat, ranks: nat, bankgroups: nat, banksPerGroup: nat, rows: nat,
                         columns: nat, busWidth: nat, burst: nat, mopSize: nat)
  {
    /** Every size is positive and a burst fits in a row. */
    predicate Valid() {
      channels >= 1 && ranks >= 1 && bankgroups >= 1 && banksPerGroup >= 1 && rows >= 1 && columns >= 1 &&
      Log2(burst) <= Log2(columns)
    }

    /** The column can be split: the source shifts by the width of its upper part, which must not be negative. */
    predicate Splits() { Log2(burst) + Log2(mopSize) <= Log2(columns) }

    function RequestBytes(): nat {
      MulMono(0, burst, busWidth / 8);
      busWidth / 8 * burst
    }
  }

  datatype Field = Ch | Ra | Bg | Ba | Ro | Co | Hi | Lo

  /** The two-character field names of a mapping string. */
  function FieldNamed(a: char, b: char): Option<Field> {
    if a == 'c' && b == 'h' then Some(Ch)
    else if a == 'r' && b == 'a' then Some(Ra)
    else if a == 'b' && b == 'g' then Some(Bg)
    else if a == 'b' && b == 'a' then Some(Ba)
    else if a == 'r' && b == 'o' then Some(Ro)
    else if a == 'c' && b == 'o' then Some(Co)
    else if a == 'h' && b == 'i' then Some(Hi)
    else if a == 'l' && b == 'o' then Some(Lo)
    else None
  }

  /** Number of address bits of every field. */
  datatype FieldWidths = FieldWidths(ch: nat, ra: nat, bg: nat, ba: nat, ro: nat, co: nat, hi: nat, lo: nat)
  {
    function Of(f: Field): nat {
      match f
      case Ch => ch
      case Ra => ra
      case Bg => bg
      case Ba => ba
      case Ro => ro
      case Co => co
      case Hi => hi
      case Lo => lo
    }
  }

  /** The width of the upper column part does not matter unless the column splits. */
  function WidthsOf(z: Sizes): FieldWidths
    requires z.Valid()
  {
    var col, mop := Log2(z.columns) - Log2(z.burst), Log2(z.mopSize);
    FieldWidths(Log2(z.channels), Log2(z.ranks), Log2(z.bankgroups), Log2(z.banksPerGroup), Log2(z.rows),
                col, if z.Splits() then col - mop else 0, mop)
  }

  /** The fields whose position is looked up, with and without a split column. */
  function Required(mop: bool): set<Field> {
    if mop then {Ch, Ra, Bg, Ba, Ro, Hi, Lo} else {Ch, Ra, Bg, Ba, Ro, Co}
  }

  /** The result of SetAddressMapping: bit position and width of every field. */
  datatype Layout = Layout(shift: nat, mop: bool, mopBits: nat, pos: map<Field, nat>, width: FieldWidths)
  {
    predicate Complete() { Required(mop) <= pos.Keys }

    function Extract(line: nat, f: Field): nat
      requires f in pos
    {
      Rem(Quot(line, Pow2(pos[f])), Pow2(width.Of(f)))
    }

    function Column(line: nat): nat
      requires Complete()
    {
      if mop then Extract(line, Hi) * Pow2(mopBits) + Extract(line, Lo) else Extract(line, Co)
    }

    /** Config::AddressMapping. */
    function Decode(hex: nat): Address
      requires Complete()
    {
      var line := Quot(hex, Pow2(shift));
      Address(Extract(line, Ch), Extract(line, Ra), Extract(line, Bg), Extract(line, Ba), Extract(line, Ro),
              Column(line))
    }
  }

  /** The two-character tokens of a mapping string. */
  function Tokens(s: string): (ts: seq<(char, char)>)
    requires |s| % 2 == 0
    ensures |ts| == |s| / 2 && forall j :: 0 <= j < |ts| ==> ts[j] == (s[2 * j], s[2 * j + 1])
  {
    seq(|s| / 2, j requires 0 <= j < |s| / 2 => (s[2 * j], s[2 * j + 1]))
  }

  /** The fields named from token i on, most significant first; None if a name is unknown. */
  function Fields(ts: seq<(char, char)>, i: nat): (r: Option<seq<Field>>)
    requires i <= |ts|
    ensures r.Some? ==> |r.value| == |ts| - i
    decreases |ts| - i
  {
    if i == |ts| then Some([])
    else
      var first, rest := FieldNamed(ts[i].0, ts[i].1), Fields(ts, i + 1);
      if first.None? || rest.None? then None else Some([first.value] + rest.value)
  }

  function ToSet<T>(s: seq<T>): set<T> { set x | x in s }

  /** The list names the fields to be looked up, each once. */
  predicate Permutation(fs: seq<Field>, mop: bool) {
    |fs| == (if mop then 7 else 6) && ToSet(fs) == Required(mop)
  }

  /** A mapping is accepted exactly when it lists the required fields, in any order. */
  predicate Accepted(ts: seq<(char, char)>, mop: bool) {
    Fields(ts, 0).Some? && Permutation(Fields(ts, 0).value, mop)
  }

  /** Total width of the fields listed. */
  function Sum(width: FieldWidths, fs: seq<Field>): nat {
    if fs == [] then 0 else width.Of(fs[0]) + Sum(width, fs[1..])
  }

  /** A field starts above all the fields listed after it; for a repeated name the first place counts. */
  predicate Placed(width: FieldWidths, fs: seq<Field>, pos: map<Field, nat>) {
    && pos.Keys == ToSet(fs)
    && forall i {:trigger fs[..i]} :: 0 <= i < |fs| && fs[i] !in fs[..i] ==> pos[fs[i]] == Sum(width, fs[i + 1..])
  }

  /** The layout that a field list and the field widths determine. */
  predicate LayoutOf(fs: seq<Field>, l: Layout) {
    Permutation(fs, l.mop) && Placed(l.width, fs, l.pos) && l.width.Of(Lo) == l.mopBits
  }

  /** Config::SetAddressMapping; None where the source exits or a position lookup throws. */
  method SetAddressMapping(z: Sizes, s: string) returns (r: Option<Layout>)
    requires z.Valid() && (|s| == 14 && Accepted(Tokens(s), true) ==> z.Splits())
    ensures r.Some? <==> (|s| == 12 || |s| == 14) && Accepted(Tokens(s), |s| == 14)
    ensures r.Some? ==> LayoutOf(Fields(Tokens(s), 0).value, r.value)
    ensures r.Some? ==> r.value.mop == (|s| == 14) && r.value.shift == Log2(z.RequestBytes())
    ensures r.Some? ==> r.value.width == WidthsOf(z)
  {
    if |s| != 12 && |s| != 14 { return None; }
    var mop := |s| == 14;
    var tokens: seq<(char, char)> := [];
    var i := 0;
    while i < |s|
      invariant 0 <= i <= |s| && i % 2 == 0 && |tokens| == i / 2
      invariant forall j :: 0 <= j < |tokens| ==> tokens[j] == (s[2 * j], s[2 * j + 1])
    {
      tokens := tokens + [(s[i], s[i + 1])];
      i := i + 2;
    }
    assert tokens == Tokens(s);
    var widths := WidthsOf(z);
    var pos := PlaceFields(widths, tokens);
    if pos.None? { return None; }
    LookupsSucceed(widths, Fields(tokens, 0).value, pos.value, mop);
    if !(Required(mop) <= pos.value.Keys) { return None; }
    var shift := LogBase2(z.RequestBytes());
    var layout := Layout(shift, mop, widths.lo, pos.value, widths);
    assert LayoutOf(Fields(tokens, 0).value, layout);
    return Some(layout);
  }

  /** The loop that takes fields off the back of the list and stacks their widths. */
  method PlaceFields(width: FieldWidths, tokens: seq<(char, char)>) returns (r: Option<map<Field, nat>>)
    ensures r.Some? <==> Fields(tokens, 0).Some?
    ensures r.Some? ==> Placed(width, Fields(tokens, 0).value, r.value)
  {
    var n: nat := |tokens|;
    var pos: map<Field, nat> := map[];
    var at := 0;
    ghost var fs: seq<Field> := [];
    while n > 0
      invariant 0 <= n <= |tokens| && Fields(tokens, n) == Some(fs)
      invariant Placed(width, fs, pos) && at == Sum(width, fs)
    {
      n := n - 1;
      var field := FieldNamed(tokens[n].0, tokens[n].1);
      if field.None? {
        UnknownField(tokens, n);
        return None;
      }
      assert Fields(tokens, n) == Some([field.value] + fs);
      PlaceField(width, fs, pos, field.value);
      pos := pos[field.value := at];
      at := at + width.Of(field.value);
      fs := [field.value] + fs;
    }
    return Some(pos);
  }

  lemma {:induction false} UnknownField(ts: seq<(char, char)>, n: nat)
    requires n <= |ts| && Fields(ts, n).None?
    ensures Fields(ts, 0).None?
  {
    if n > 0 { UnknownField(ts, n - 1); }
  }

  lemma LookupsSucceed(width: FieldWidths, fs: seq<Field>, pos: map<Field, nat>, mop: bool)
    requires Placed(width, fs, pos) && |fs| == (if mop then 7 else 6)
    ensures Required(mop) <= pos.Keys <==> Permutation(fs, mop)
  {
    if Required(mop) <= pos.Keys { RequiredFill(fs, mop); }
  }

  lemma PlaceField(width: FieldWidths, fs: seq<Field>, pos: map<Field, nat>, f: Field)
    requires Placed(width, fs, pos)
    ensures Placed(width, [f] + fs, pos[f := Sum(width, fs)])
    ensures Sum(width, [f] + fs) == width.Of(f) + Sum(width, fs)
  {
    var gs := [f] + fs;
    assert gs[1..] == fs;
    forall i | 0 <= i < |gs| && gs[i] !in gs[..i]
      ensures pos[f := Sum(width, fs)][gs[i]] == Sum(width, gs[i + 1..])
    {
      if i > 0 {
        assert gs[i + 1..] == fs[i..];
        assert gs[..i] == [f] + fs[..i - 1] && gs[i] == fs[i - 1];
      }
    }
  }

  lemma {:induction false} SizeOfSeq<T>(s: seq<T>)
    ensures |ToSet(s)| <= |s|
    ensures |ToSet(s)| == |s| ==> forall i, j :: 0 <= i < j < |s| ==> s[i] != s[j]
  {
    if s != [] {
      var n := |s| - 1;
      SizeOfSeq(s[..n]);
      assert ToSet(s) == ToSet(s[..n]) + {s[n]};
      if s[n] in s[..n] {
        assert ToSet(s) == ToSet(s[..n]);
      }
    }
  }

  /** Pigeonhole: there is exactly one place for every required field, so each is listed once. */
  lemma RequiredFill(fs: seq<Field>, mop: bool)
    requires |fs| == (if mop then 7 else 6) && Required(mop) <= ToSet(fs)
    ensures Permutation(fs, mop)
    ensures forall i, j :: 0 <= i < j < |fs| ==> fs[i] != fs[j]
  {
    SizeOfSeq(fs);
    RequiredSize(mop);
    SubsetOfSameSize(Required(mop), ToSet(fs));
  }

  lemma RequiredSize(mop: bool)
    ensures |Required(mop)| == if mop then 7 else 6
  {
    var common := {Ch, Ra, Bg, Ba, Ro};
    assert Required(true) == common + {Hi, Lo} && Required(false) == common + {Co};
  }

  lemma SubsetOfSameSize<T>(a: set<T>, b: set<T>)
    requires a <= b && |b| <= |a|
    ensures a == b
  {
    assert b == a + (b - a);
  }

  // ----- The field list as mixed-radix notation -----

  lemma {:induction false} Pow2Add(a: nat, b: nat)
    ensures Pow2(a + b) == Pow2(a) * Pow2(b)
  {
    if a > 0 {
      Pow2Add(a - 1, b);
      MulAssoc(2, Pow2(a - 1), Pow2(b));
    }
  }

  function Moduli(width: FieldWidths, fs: seq<Field>): (ms: seq<nat>)
    ensures |ms| == |fs| && forall i :: 0 <= i < |fs| ==> ms[i] == Pow2(width.Of(fs[i]))
    ensures Positive(ms)
  {
    seq(|fs|, i requires 0 <= i < |fs| => Pow2(width.Of(fs[i])))
  }

  lemma {:induction false} ProdOfPowers(width: FieldWidths, fs: seq<Field>)
    ensures Pow2(Sum(width, fs)) == Prod(Moduli(width, fs))
  {
    if fs != [] {
      assert Moduli(width, fs)[1..] == Moduli(width, fs[1..]);
      ProdOfPowers(width, fs[1..]);
      Pow2Add(width.Of(fs[0]), Sum(width, fs[1..]));
    }
  }

  // ----- Decoding is a bijection -----

  /** The coordinate of an address that a field carries. */
  function Coordinate(mopBits: nat, a: Address, f: Field): int
    requires a.column >= 0
  {
    match f
    case Ch => a.channel
    case Ra => a.rank
    case Bg => a.bankgroup
    case Ba => a.bank
    case Ro => a.row
    case Co => a.column
    case Hi => Quot(a.column, Pow2(mopBits))
    case Lo => Rem(a.column, Pow2(mopBits))
  }

  /** Every coordinate of the address can be written in its field. */
  predicate Fits(l: Layout, fs: seq<Field>, a: Address) {
    a.column >= 0 && forall f <- fs :: 0 <= Coordinate(l.mopBits, a, f) < Pow2(l.width.Of(f))
  }

  function Coordinates(l: Layout, fs: seq<Field>, a: Address): (ds: seq<nat>)
    requires Fits(l, fs, a)
    ensures Digits(ds, Moduli(l.width, fs))
    ensures forall i :: 0 <= i < |fs| ==> ds[i] == Coordinate(l.mopBits, a, fs[i])
  {
    seq(|fs|, i requires 0 <= i < |fs| => Coordinate(l.mopBits, a, fs[i]))
  }

  /** The inverse of decoding: every coordinate written at its field, then the offset bits. */
  function Encode(l: Layout, fs: seq<Field>, a: Address): nat
    requires Fits(l, fs, a)
  {
    Value(Coordinates(l, fs, a), Moduli(l.width, fs)) * Pow2(l.shift)
  }

  lemma PositionSum(l: Layout, fs: seq<Field>, i: nat)
    requires LayoutOf(fs, l) && i < |fs|
    ensures fs[i] in l.pos && l.pos[fs[i]] == Sum(l.width, fs[i + 1..])
  {
    RequiredFill(fs, l.mop);
    assert fs[i] !in fs[..i];
  }

  /** A field decodes to the digit at its place in the list. */
  lemma ExtractIsDigit(l: Layout, fs: seq<Field>, line: nat, i: nat)
    requires LayoutOf(fs, l) && i < |fs|
    ensures fs[i] in l.pos && l.Extract(line, fs[i]) == Digit(line, Moduli(l.width, fs), i)
  {
    PositionSum(l, fs, i);
    assert Moduli(l.width, fs)[i + 1..] == Moduli(l.width, fs[i + 1..]);
    ProdOfPowers(l.width, fs[i + 1..]);
  }

  lemma ColumnParts(l: Layout, line: nat)
    requires l.Complete() && l.mop && l.width.Of(Lo) == l.mopBits
    ensures Quot(l.Column(line), Pow2(l.mopBits)) == l.Extract(line, Hi)
    ensures Rem(l.Column(line), Pow2(l.mopBits)) == l.Extract(line, Lo)
  {
    DivisionUnique(l.Extract(line, Hi), Pow2(l.mopBits), l.Extract(line, Lo));
  }

  /** Every coordinate of a decoded address is the field it came from. */
  lemma DecodedCoordinate(l: Layout, hex: nat, f: Field)
    requires l.Complete() && f in Required(l.mop) && l.width.Of(Lo) == l.mopBits
    ensures Coordinate(l.mopBits, l.Decode(hex), f) == l.Extract(Quot(hex, Pow2(l.shift)), f)
  {
    if l.mop { ColumnParts(l, Quot(hex, Pow2(l.shift))); }
  }

  /** Encoding undoes decoding on every request-aligned address of the mapped space. */
  lemma EncodeDecode(l: Layout, fs: seq<Field>, hex: nat)
    requires LayoutOf(fs, l)
    requires Rem(hex, Pow2(l.shift)) == 0 && Quot(hex, Pow2(l.shift)) < Pow2(Sum(l.width, fs))
    ensures Fits(l, fs, l.Decode(hex)) && Encode(l, fs, l.Decode(hex)) == hex
  {
    var line := Quot(hex, Pow2(l.shift));
    DecodeFits(l, fs, hex);
    var ds := Coordinates(l, fs, l.Decode(hex));
    forall i | 0 <= i < |ds| ensures ds[i] == Digit(line, Moduli(l.width, fs), i) {
      ExtractIsDigit(l, fs, line, i);
      DecodedCoordinate(l, hex, fs[i]);
    }
    ProdOfPowers(l.width, fs);
    ValueOfDigits(line, ds, Moduli(l.width, fs));
    Division(hex, Pow2(l.shift));
  }

  lemma DecodeFits(l: Layout, fs: seq<Field>, hex: nat)
    requires LayoutOf(fs, l)
    ensures Fits(l, fs, l.Decode(hex))
  {
    forall f <- fs ensures 0 <= Coordinate(l.mopBits, l.Decode(hex), f) < Pow2(l.width.Of(f)) {
      DecodedCoordinate(l, hex, f);
    }
  }

  /** Decoding undoes encoding: no two fitting coordinate tuples share an address. */
  lemma DecodeEncode(l: Layout, fs: seq<Field>, a: Address)
    requires LayoutOf(fs, l) && Fits(l, fs, a)
    ensures l.Decode(Encode(l, fs, a)) == a
  {
    var hex := Encode(l, fs, a);
    var b, ds, ms := l.Decode(hex), Coordinates(l, fs, a), Moduli(l.width, fs);
    DivisionUnique(Value(ds, ms), Pow2(l.shift), 0);
    forall f | f in Required(l.mop)
      ensures Coordinate(l.mopBits, b, f) == Coordinate(l.mopBits, a, f)
    {
      var i :| 0 <= i < |fs| && fs[i] == f;
      ExtractIsDigit(l, fs, Value(ds, ms), i);
      DecodedCoordinate(l, hex, f);
      DigitOfValue(ds, ms, i);
    }
    SameCoordinates(l.mop, l.mopBits, a, b);
  }

  lemma SameCoordinates(mop: bool, mopBits: nat, a: Address, b: Address)
    requires a.column >= 0 && b.column >= 0
    requires forall f | f in Required(mop) :: Coordinate(mopBits, a, f) == Coordinate(mopBits, b, f)
    ensures a == b
  {
    assert forall f | f in {Ch, Ra, Bg, Ba, Ro} :: Coordinate(mopBits, a, f) == Coordinate(mopBits, b, f);
    assert Coordinate(mopBits, a, Ch) == Coordinate(mopBits, b, Ch);
    assert Coordinate(mopBits, a, Ra) == Coordinate(mopBits, b, Ra);
    assert Coordinate(mopBits, a, Bg) == Coordinate(mopBits, b, Bg);
    assert Coordinate(mopBits, a, Ba) == Coordinate(mopBits, b, Ba);
    assert Coordinate(mopBits, a, Ro) == Coordinate(mopBits, b, Ro);
    if mop {
      assert Coordinate(mopBits, a, Hi) == Coordinate(mopBits, b, Hi);
      assert Coordinate(mopBits, a, Lo) == Coordinate(mopBits, b, Lo);
      Division(a.column, Pow2(mopBits));
      Division(b.column, Pow2(mopBits));
    } else {
      assert Coordinate(mopBits, a, Co) == Coordinate(mopBits, b, Co);
    }
  }

  lemma Pow2Mono(a: nat, b: nat)
    requires a <= b
    ensures Pow2(a) <= Pow2(b)
  {
    Pow2Add(a, b - a);
    MulMono(1, Pow2(b - a), Pow2(a));
  }

  /** How many values a coordinate may take. */
  function SizeOf(z: Sizes, f: Field): nat {
    match f
    case Ch => z.channels
    case Ra => z.ranks
    case Bg => z.bankgroups
    case Ba => z.banksPerGroup
    case Ro => z.rows
    case _ => z.columns
  }

  lemma FieldBound(z: Sizes, l: Layout, line: nat, f: Field)
    requires z.Valid() && l.Complete() && l.width == WidthsOf(z) && f in {Ch, Ra, Bg, Ba, Ro}
    ensures f in l.pos && l.Extract(line, f) < SizeOf(z, f)
  {
    Log2Bound(SizeOf(z, f));
    assert l.width.Of(f) == Log2(SizeOf(z, f));
  }

  lemma ColumnWidth(z: Sizes, l: Layout) returns (w: nat)
    requires z.Valid() && l.width == WidthsOf(z) && (l.mop ==> z.Splits())
    requires l.mopBits == l.width.Of(Lo)
    ensures w == (if l.mop then l.width.Of(Hi) + l.mopBits else l.width.Of(Co)) && w <= Log2(z.columns)
  {
    w := if l.mop then l.width.Of(Hi) + l.mopBits else l.width.Of(Co);
  }

  /** A decoded coordinate indexes an existing channel, rank, bankgroup, bank, row or column, whatever the sizes. */
  lemma DecodeInRange(z: Sizes, fs: seq<Field>, l: Layout, hex: nat)
    requires z.Valid() && LayoutOf(fs, l) && l.width == WidthsOf(z) && (l.mop ==> z.Splits())
    ensures var a := l.Decode(hex);
      && 0 <= a.channel < z.channels && 0 <= a.rank < z.ranks && 0 <= a.bankgroup < z.bankgroups
      && 0 <= a.bank < z.banksPerGroup && 0 <= a.row < z.rows && 0 <= a.column < z.columns
  {
    var line := Quot(hex, Pow2(l.shift));
    assert l.Complete();
    FieldBound(z, l, line, Ch);
    FieldBound(z, l, line, Ra);
    FieldBound(z, l, line, Bg);
    FieldBound(z, l, line, Ba);
    FieldBound(z, l, line, Ro);
    assert l.Column(line) < z.columns by {
      ColumnBound(l, line);
      var w := ColumnWidth(z, l);
      Pow2Mono(w, Log2(z.columns));
      Log2Bound(z.columns);
    }
  }

  lemma ColumnBound(l: Layout, line: nat)
    requires l.Complete() && l.width.Of(Lo) == l.mopBits
    ensures l.Column(line) < Pow2(if l.mop then l.width.Of(Hi) + l.mopBits else l.width.Of(Co))
  {
    if l.mop {
      var hi := l.Extract(line, Hi);
      Pow2Add(l.width.Of(Hi), l.mopBits);
      MulMono(hi + 1, Pow2(l.width.Of(Hi)), Pow2(l.mopBits));
      MulDistrib(hi, 1, Pow2(l.mopBits));
    }
  }
}
