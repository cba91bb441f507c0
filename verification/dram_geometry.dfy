/** The native DRAM model's geometry and its four address mappings (src/dram.cpp). */
module DramGeometry {
  import MR = MixedRadix

  datatype MapPolicy = CoffeeLake | Skylake | Mop | Zen

  /** The parameters, and the counts that dram_new, dram_channel_new and dram_bank_new derive from them. */
  datatype Dram = Dram(lineSize: nat, memSize: nat, rowbufSize: nat, channels: nat, banks: nat, gang: nat)
  {
    predicate Sized() { lineSize >= 1 && rowbufSize >= 1 && channels >= 1 && banks >= 1 && gang >= 1 }

    function LinesInRowbuf(): nat
      requires Sized()
    {
      MR.Quot(rowbufSize, lineSize)
    }

    function LinesInMem(): nat
      requires Sized()
    {
      MR.Quot(memSize, lineSize)
    }

    function BanksInChannel(): nat
      requires Sized()
    {
      MR.Quot(banks, channels)
    }

    function RowbufsInMem(): nat
      requires Sized()
    {
      MR.Quot(memSize, rowbufSize)
    }

    /** num_rows of a bank: the channel's share of the row buffers, shared out among its banks. */
    function RowsInBank(): nat
      requires Sized() && BanksInChannel() >= 1
    {
      MR.Quot(MR.Quot(RowbufsInMem(), channels), BanksInChannel())
    }
  }

  datatype Coord = Coord(row: nat, bank: nat, channel: nat)

  /** How many consecutive lines stay together below the channel bits: the low part of the column. */
  function LowLines(d: Dram, p: MapPolicy): nat
    requires d.Sized()
  {
    match p
    case CoffeeLake => d.LinesInRowbuf()
    case Mop => d.gang
    case _ => 2
  }

  /** The sizes divide each other as the mapping assumes: every cut of the address is exact. */
  ghost predicate Divides(d: Dram, p: MapPolicy) {
    && d.Sized()
    && d.LinesInRowbuf() >= 1 && d.BanksInChannel() >= 1 && d.RowbufsInMem() >= 1
    && d.rowbufSize == d.LinesInRowbuf() * d.lineSize
    && d.memSize == d.RowbufsInMem() * d.rowbufSize
    && d.RowbufsInMem() == d.RowsInBank() * (d.BanksInChannel() * d.channels)
    && MR.Rem(d.LinesInRowbuf(), LowLines(d, p)) == 0
  }

  /** dram_parseaddr, step by step as each policy cuts the address. */
  function Parse(d: Dram, p: MapPolicy, line: nat): Coord
    requires d.Sized() && d.BanksInChannel() >= 1 && d.LinesInRowbuf() >= LowLines(d, p) >= 1
  {
    var lines, banks := d.LinesInRowbuf(), d.BanksInChannel();
    match p
    case CoffeeLake =>
      var row := MR.Quot(line, lines);
      var s1 := MR.Quot(row, d.channels);
      Coord(MR.Quot(s1, banks), MR.Rem(s1, banks), MR.Rem(row, d.channels))
    case Skylake =>
      HalfPositive(lines, 2);
      var pair := MR.Quot(line, 2);
      var s1 := MR.Quot(pair, d.channels);
      var s2 := MR.Quot(s1, MR.Quot(lines, 2));
      Coord(MR.Quot(s2, banks), MR.Rem(s2, banks), MR.Rem(pair, d.channels))
    case Mop =>
      HalfPositive(lines, d.gang);
      var gang := MR.Quot(line, d.gang);
      var s1 := MR.Quot(gang, d.channels);
      var s2 := MR.Quot(s1, banks);
      Coord(MR.Quot(s2, MR.Quot(lines, d.gang)), MR.Rem(s1, banks), MR.Rem(gang, d.channels))
    case Zen =>
      HalfPositive(lines, 2);
      var s1 := MR.Quot(line, d.channels);
      var s2 := MR.Quot(s1, 2);
      var s3 := MR.Quot(s2, banks);
      Coord(MR.Quot(s3, MR.Quot(lines, 2)), MR.Rem(s2, banks), MR.Rem(line, d.channels))
  }

  lemma HalfPositive(n: nat, g: nat)
    requires n >= g >= 1
    ensures MR.Quot(n, g) >= 1
  {}

  // ----- The mapping as a mixed-radix number -----

  function HighLines(d: Dram, p: MapPolicy): nat
    requires d.Sized() && LowLines(d, p) >= 1
  {
    MR.Quot(d.LinesInRowbuf(), LowLines(d, p))
  }

  /** Five digits, most significant first, in the order of the policy. */
  function Arrange(p: MapPolicy, row: nat, bank: nat, channel: nat, high: nat, low: nat): (ds: seq<nat>)
    ensures |ds| == 5
  {
    match p
    case CoffeeLake => [row, bank, high, channel, low]
    case Skylake => [row, bank, high, channel, low]
    case Mop => [row, high, bank, channel, low]
    case Zen => [row, high, bank, low, channel]
  }

  function Moduli(d: Dram, p: MapPolicy): (ms: seq<nat>)
    requires d.Sized() && d.BanksInChannel() >= 1 && LowLines(d, p) >= 1
    ensures |ms| == 5
  {
    Arrange(p, d.RowsInBank(), d.BanksInChannel(), d.channels, HighLines(d, p), LowLines(d, p))
  }

  /** The line of a place: the explicit inverse of the parser, with the column within the row buffer. */
  function LineAt(d: Dram, p: MapPolicy, c: Coord, column: nat): nat
    requires d.Sized() && d.BanksInChannel() >= 1 && LowLines(d, p) >= 1
  {
    var low := LowLines(d, p);
    MR.Value(Arrange(p, c.row, c.bank, c.channel, MR.Quot(column, low), MR.Rem(column, low)), Moduli(d, p))
  }

  /** Where each part stands in the arrangement. */
  function HighAt(p: MapPolicy): nat { if p.CoffeeLake? || p.Skylake? then 2 else 1 }

  function BankAt(p: MapPolicy): nat { if p.CoffeeLake? || p.Skylake? then 1 else 2 }

  function ChannelAt(p: MapPolicy): nat { if p.Zen? then 4 else 3 }

  function LowAt(p: MapPolicy): nat { if p.Zen? then 3 else 4 }

  /** The column of a line: its high and low parts put together. */
  function ColumnOf(d: Dram, p: MapPolicy, line: nat): nat
    requires d.Sized() && d.BanksInChannel() >= 1 && LowLines(d, p) >= 1 && MR.Positive(Moduli(d, p))
  {
    var ms := Moduli(d, p);
    MR.Digit(line, ms, HighAt(p)) * LowLines(d, p) + MR.Digit(line, ms, LowAt(p))
  }

  // ----- The geometry's products -----

  lemma FiveProducts(ms: seq<nat>)
    requires |ms| == 5
    ensures MR.Prod(ms[5..]) == 1 && MR.Prod(ms[4..]) == ms[4] && MR.Prod(ms[3..]) == ms[3] * MR.Prod(ms[4..])
    ensures MR.Prod(ms[2..]) == ms[2] * MR.Prod(ms[3..]) && MR.Prod(ms[1..]) == ms[1] * MR.Prod(ms[2..])
    ensures MR.Prod(ms) == ms[0] * MR.Prod(ms[1..])
  {
    assert ms[4..][1..] == ms[5..] && ms[3..][1..] == ms[4..] && ms[2..][1..] == ms[3..] && ms[1..][1..] == ms[2..];
  }

  /** Cutting an address digit by digit reads the digits of the mixed-radix notation. */
  lemma {:induction false} NestedDigits(x: nat, ms: seq<nat>)
    requires |ms| == 5 && MR.Positive(ms)
    ensures var q1 := MR.Quot(x, ms[4]);
      var q2 := MR.Quot(q1, ms[3]);
      var q3 := MR.Quot(q2, ms[2]);
      var q4 := MR.Quot(q3, ms[1]);
      && MR.Digit(x, ms, 4) == MR.Rem(x, ms[4]) && MR.Digit(x, ms, 3) == MR.Rem(q1, ms[3])
      && MR.Digit(x, ms, 2) == MR.Rem(q2, ms[2]) && MR.Digit(x, ms, 1) == MR.Rem(q3, ms[1])
      && MR.Digit(x, ms, 0) == MR.Rem(q4, ms[0]) && MR.Prod(ms[1..]) >= 1 && q4 == MR.Quot(x, MR.Prod(ms[1..]))
  {
    FiveProducts(ms);
    MR.ProdPositive(ms[1..]);
    MR.ProdPositive(ms[2..]);
    MR.ProdPositive(ms[3..]);
    QuotOne(x);
    MR.QuotQuot(x, ms[4], ms[3]);
    MR.QuotQuot(x, MR.Prod(ms[3..]), ms[2]);
    MR.QuotQuot(x, MR.Prod(ms[2..]), ms[1]);
  }

  lemma QuotOne(x: nat)
    ensures MR.Quot(x, 1) == x && MR.Rem(x, 1) == 0
  {
    MR.DivisionUnique(x, 1, 0);
  }

  /** Below the product of the moduli the top quotient is itself a digit. */
  lemma TopDigit(x: nat, m: nat, n: nat)
    requires m >= 1 && n >= 1 && x < m * n
    ensures MR.Quot(x, n) < m && MR.Rem(MR.Quot(x, n), m) == MR.Quot(x, n)
  {
    MR.Division(x, n);
    if MR.Quot(x, n) >= m { MR.MulMono(m, MR.Quot(x, n), n); }
  }

  lemma Parts(d: Dram, p: MapPolicy)
    requires Divides(d, p)
    ensures LowLines(d, p) >= 1 && d.LinesInRowbuf() == HighLines(d, p) * LowLines(d, p) && HighLines(d, p) >= 1
    ensures d.LinesInRowbuf() >= LowLines(d, p) && d.RowsInBank() >= 1 && MR.Positive(Moduli(d, p))
  {
    MR.Division(d.LinesInRowbuf(), LowLines(d, p));
    MR.MulMono(1, HighLines(d, p), LowLines(d, p));
  }

  lemma Regroup(b: nat, c: nat, h: nat, l: nat)
    ensures b * (h * (c * l)) == (h * l) * (c * b)
    ensures h * (b * (c * l)) == (h * l) * (c * b)
    ensures h * (b * (l * c)) == (h * l) * (c * b)
  {
    MR.MulAssoc(b, h, c * l);
    MR.MulAssoc(b * h, c, l);
    MR.MulAssoc(h, l, c * b);
    MR.MulAssoc(h * l, c, b);
    Swap(h, b, c, l);
  }

  lemma Swap(h: nat, b: nat, c: nat, l: nat)
    ensures b * h * (c * l) == h * l * (c * b)
    ensures h * (b * (c * l)) == b * h * (c * l)
    ensures h * (b * (l * c)) == b * h * (c * l)
  {
    MR.MulAssoc(b, h, c * l);
    MR.MulAssoc(h, b, c * l);
    assert b * h == h * b && l * c == c * l;
    MR.MulAssoc(b, c, l);
    MR.MulAssoc(l, b, c);
    assert b * (c * l) == l * (b * c) && b * c == c * b;
    MR.MulAssoc(h, l, c * b);
  }

  /** Below the row digit every policy spans a whole stripe of row buffers, and all of it the memory. */
  lemma StripeSize(d: Dram, p: MapPolicy)
    requires Divides(d, p)
    ensures LowLines(d, p) >= 1
    ensures MR.Prod(Moduli(d, p)[1..]) == d.LinesInRowbuf() * (d.channels * d.BanksInChannel())
    ensures MR.Prod(Moduli(d, p)) == d.LinesInMem()
  {
    Parts(d, p);
    FiveProducts(Moduli(d, p));
    Regroup(d.BanksInChannel(), d.channels, HighLines(d, p), LowLines(d, p));
    MemLines(d, p);
  }

  lemma MemLines(d: Dram, p: MapPolicy)
    requires Divides(d, p)
    ensures d.LinesInMem() == d.RowsInBank() * (d.LinesInRowbuf() * (d.channels * d.BanksInChannel()))
  {
    var rows, s, l := d.RowsInBank(), d.BanksInChannel() * d.channels, d.LinesInRowbuf();
    MR.MulAssoc(d.RowbufsInMem(), l, d.lineSize);
    MR.DivisionUnique(d.RowbufsInMem() * l, d.lineSize, 0);
    MR.MulAssoc(rows, s, l);
    assert s * l == l * s && s == d.channels * d.BanksInChannel();
  }

  // ----- Results -----

  /** All four policies give the row line / (lines in a row buffer * channels * banks in a channel). */
  lemma SameRow(d: Dram, p: MapPolicy, line: nat)
    requires Divides(d, p)
    ensures d.LinesInRowbuf() >= LowLines(d, p) >= 1
    ensures var stripe := d.LinesInRowbuf() * (d.channels * d.BanksInChannel());
      stripe >= 1 && Parse(d, p, line).row == MR.Quot(line, stripe)
  {
    Parts(d, p);
    StripeSize(d, p);
    ParseIsDigits(d, p, line);
  }

  /** The parser reads digits of the address, whatever the line; the row is the quotient above them. */
  lemma ParseIsDigits(d: Dram, p: MapPolicy, line: nat)
    requires Divides(d, p)
    ensures d.LinesInRowbuf() >= LowLines(d, p) >= 1 && MR.Positive(Moduli(d, p))
    ensures var ms, c := Moduli(d, p), Parse(d, p, line);
      && c.bank == MR.Digit(line, ms, BankAt(p)) && c.channel == MR.Digit(line, ms, ChannelAt(p))
      && MR.Prod(ms[1..]) >= 1 && c.row == MR.Quot(line, MR.Prod(ms[1..]))
  {
    Parts(d, p);
    NestedDigits(line, Moduli(d, p));
    if p == CoffeeLake {
      MR.DivisionUnique(1, d.LinesInRowbuf(), 0);
      QuotOne(MR.Quot(MR.Quot(line, d.LinesInRowbuf()), d.channels));
    }
  }

  /** Every line of the memory has a bank, a channel and a row that exist: the insert assertion cannot fire. */
  lemma ParseInRange(d: Dram, p: MapPolicy, line: nat)
    requires Divides(d, p) && line < d.LinesInMem()
    ensures d.LinesInRowbuf() >= LowLines(d, p) >= 1
    ensures var c := Parse(d, p, line);
      c.channel < d.channels && c.bank < d.BanksInChannel() && c.row < d.RowsInBank()
  {
    Parts(d, p);
    StripeSize(d, p);
    ParseIsDigits(d, p, line);
    MemLines(d, p);
    TopDigit(line, d.RowsInBank(), d.LinesInRowbuf() * (d.channels * d.BanksInChannel()));
  }

  predicate InRange(d: Dram, c: Coord)
    requires d.Sized() && d.BanksInChannel() >= 1
  {
    c.channel < d.channels && c.bank < d.BanksInChannel() && c.row < d.RowsInBank()
  }

  lemma ColumnDigits(d: Dram, p: MapPolicy, column: nat)
    requires Divides(d, p) && column < d.LinesInRowbuf()
    ensures LowLines(d, p) >= 1 && MR.Quot(column, LowLines(d, p)) < HighLines(d, p)
  {
    Parts(d, p);
    TopDigit(column, HighLines(d, p), LowLines(d, p));
  }

  /** Each (channel, bank, row) receives the lines LineAt(column): the parser undoes LineAt and the column comes
      back, so they are distinct, one for each column of the row buffer. */
  lemma ParseLineAt(d: Dram, p: MapPolicy, c: Coord, column: nat)
    requires Divides(d, p) && InRange(d, c) && column < d.LinesInRowbuf()
    ensures d.LinesInRowbuf() >= LowLines(d, p) >= 1 && MR.Positive(Moduli(d, p))
    ensures var line := LineAt(d, p, c, column);
      line < d.LinesInMem() && Parse(d, p, line) == c && ColumnOf(d, p, line) == column
  {
    Parts(d, p);
    ColumnDigits(d, p, column);
    var low := LowLines(d, p);
    var ms := Moduli(d, p);
    var ds := Arrange(p, c.row, c.bank, c.channel, MR.Quot(column, low), MR.Rem(column, low));
    var line := LineAt(d, p, c, column);
    MR.ValueBound(ds, ms);
    StripeSize(d, p);
    ParseIsDigits(d, p, line);
    forall i | 0 <= i < 5 ensures MR.Digit(line, ms, i) == ds[i] { MR.DigitOfValue(ds, ms, i); }
    MR.Division(column, low);
    RowDigit(line, ms);
  }

  lemma RowDigit(x: nat, ms: seq<nat>)
    requires |ms| == 5 && MR.Positive(ms) && x < MR.Prod(ms)
    ensures MR.Prod(ms[1..]) >= 1 && MR.Digit(x, ms, 0) == MR.Quot(x, MR.Prod(ms[1..]))
  {
    MR.ProdPositive(ms[1..]);
    TopDigit(x, ms[0], MR.Prod(ms[1..]));
  }

  /** Conversely every line is the line of its own place: with ParseLineAt, lines and places with columns
      correspond one to one, so each (channel, bank, row) holds exactly LinesInRowbuf lines. */
  lemma LineAtParse(d: Dram, p: MapPolicy, line: nat)
    requires Divides(d, p) && line < d.LinesInMem()
    ensures d.LinesInRowbuf() >= LowLines(d, p) >= 1 && MR.Positive(Moduli(d, p))
    ensures ColumnOf(d, p, line) < d.LinesInRowbuf()
    ensures LineAt(d, p, Parse(d, p, line), ColumnOf(d, p, line)) == line
  {
    Parts(d, p);
    var ms := Moduli(d, p);
    var high, low := MR.Digit(line, ms, HighAt(p)), MR.Digit(line, ms, LowAt(p));
    ColumnParts(high, HighLines(d, p), low, LowLines(d, p));
    DigitsOfLine(d, p, line, high, low);
  }

  lemma ColumnParts(high: nat, highs: nat, low: nat, lows: nat)
    requires high < highs && low < lows
    ensures 0 <= high * lows + low < highs * lows
    ensures MR.Quot(high * lows + low, lows) == high && MR.Rem(high * lows + low, lows) == low
  {
    MR.DivisionUnique(high, lows, low);
    MR.MulMono(high + 1, highs, lows);
    MR.MulDistrib(high, 1, lows);
  }

  lemma DigitsOfLine(d: Dram, p: MapPolicy, line: nat, high: nat, low: nat)
    requires Divides(d, p) && line < d.LinesInMem() && LowLines(d, p) >= 1 && MR.Positive(Moduli(d, p))
    requires high == MR.Digit(line, Moduli(d, p), HighAt(p)) && low == MR.Digit(line, Moduli(d, p), LowAt(p))
    ensures d.LinesInRowbuf() >= LowLines(d, p)
    ensures var c := Parse(d, p, line);
      MR.Value(Arrange(p, c.row, c.bank, c.channel, high, low), Moduli(d, p)) == line
  {
    var ms := Moduli(d, p);
    StripeSize(d, p);
    ParseIsDigits(d, p, line);
    RowDigit(line, ms);
    var c := Parse(d, p, line);
    MR.ValueOfDigits(line, Arrange(p, c.row, c.bank, c.channel, high, low), ms);
  }
}
