/** Refractive indices of the compounds whose tables ship with the plugin:
    a scan of a whitespace-separated table of wavelength, n and k, linear
    interpolation between the two rows that bracket the requested wavelength,
    and a cache of one map per compound so that each lookup is done once. */
module RI {
  import opened Wrappers

  datatype Compound = Silicon | SiliconOxide | Acrylic | Water

  /** The table file of each compound. */
  function FileName(c: Compound): string
  {
    match c
    case Silicon => "siliconRI.txt"
    case SiliconOxide => "siliconOxideRI.txt"
    case Acrylic => "acrylicRI.txt"
    case Water => "waterRI.txt"
  }

  const PathInJar := "/org/micromanager/saim/data/"

  /** Where the table of a compound is found among the plugin's resources. */
  function ResourcePath(c: Compound): string
  {
    PathInJar + FileName(c)
  }

  /** A double as far as this model follows it: a finite value, or the infinity
      or NaN that a division by zero produces. */
  datatype Double = Finite(value: real) | NonFinite

  /** The y value at xVal on the line through (x1, y1) and (x2, y2). With x1 == x2
      Java divides by zero and the result is not a finite number. */
  function Interpolate(x1: real, x2: real, y1: real, y2: real, xVal: real): (r: Double)
    ensures r.Finite? <==> x1 != x2
    ensures r.Finite? ==> (r.value - y1) * (x2 - x1) == (y2 - y1) * (xVal - x1)
  {
    if x1 == x2 then NonFinite else Finite(y1 + (y2 - y1) * (xVal - x1) / (x2 - x1))
  }

  /** The line passes through both given points. */
  lemma InterpolateAtEnds(x1: real, x2: real, y1: real, y2: real)
    requires x1 != x2
    ensures Interpolate(x1, x2, y1, y2, x1) == Finite(y1)
    ensures Interpolate(x1, x2, y1, y2, x2) == Finite(y2)
  {
    assert (y2 - y1) * (x2 - x1) / (x2 - x1) == y2 - y1;
  }

  lemma DivideWithin(a: real, b: real)
    requires 0.0 <= a <= b && b > 0.0
    ensures 0.0 <= a / b <= 1.0
  {
    assert a / b * b == a;
  }

  lemma ScaleWithin(c: real, t: real)
    requires 0.0 <= t <= 1.0
    ensures c >= 0.0 ==> 0.0 <= c * t <= c
    ensures c <= 0.0 ==> c <= c * t <= 0.0
  {
    assert c - c * t == c * (1.0 - t);
  }

  lemma MulDiv(a: real, b: real, c: real)
    requires c != 0.0
    ensures a * b / c == a * (b / c)
  {
    assert (b / c) * c == b;
    assert a * (b / c) * c == a * b;
  }

  /** Between the two x values the result lies between the two y values. */
  lemma InterpolateBetween(x1: real, x2: real, y1: real, y2: real, xVal: real)
    requires x1 < x2 && x1 <= xVal <= x2
    ensures Interpolate(x1, x2, y1, y2, xVal).Finite?
    ensures var v := Interpolate(x1, x2, y1, y2, xVal).value;
            (y1 <= y2 ==> y1 <= v <= y2) && (y2 <= y1 ==> y2 <= v <= y1)
  {
    var t := (xVal - x1) / (x2 - x1);
    var c := y2 - y1;
    DivideWithin(xVal - x1, x2 - x1);
    ScaleWithin(c, t);
    MulDiv(c, xVal - x1, x2 - x1);
    var ct := c * t;
    var v := Interpolate(x1, x2, y1, y2, xVal).value;
    assert v == y1 + ct;
  }

  /** A token of a table file as the scanner sees it. */
  datatype Token = Num(n: real) | Word(w: string)

  /** A row as the scan reads it: a wavelength and, when the next token is a
      number, the refractive index n. A further number (the k column) is dropped. */
  datatype Row = Row(waveLength: real, n: Option<real>)

  /** The n of a row starting at ts[0]: the next token, when it is a number. */
  function RowN(ts: seq<Token>): Option<real>
    requires |ts| > 0
  {
    if |ts| > 1 && ts[1].Num? then Some(ts[1].n) else None
  }

  /** The number of tokens a row starting at ts[0] takes: the wavelength, then n
      and k for as long as the next token is a number. */
  function RowSpan(ts: seq<Token>): (span: nat)
    requires |ts| > 0
    ensures 1 <= span <= |ts| && span <= 3
    ensures ts[0].Num? ==> forall j :: 1 <= j < span ==> ts[j].Num?
  {
    var afterN := if RowN(ts).Some? then 2 else 1;
    if afterN < |ts| && ts[afterN].Num? then afterN + 1 else afterN
  }

  /** The rows in a token stream. A word where a row would start is skipped. */
  function Rows(ts: seq<Token>): (rows: seq<Row>)
    ensures |rows| <= |ts|
    decreases |ts|
  {
    if ts == [] then []
    else if ts[0].Word? then Rows(ts[1..])
    else [Row(ts[0].n, RowN(ts))] + Rows(ts[RowSpan(ts)..])
  }

  lemma RowsFrom(ts: seq<Token>, i: nat)
    requires i < |ts|
    ensures ts[i].Word? ==> Rows(ts[i..]) == Rows(ts[i + 1..])
    ensures ts[i].Num? ==>
              Rows(ts[i..]) == [Row(ts[i].n, RowN(ts[i..]))] + Rows(ts[i + RowSpan(ts[i..])..])
  {
    var rest := ts[i..];
    assert rest[1..] == ts[i + 1..];
    if ts[i].Num? {
      assert rest[RowSpan(rest)..] == ts[i + RowSpan(rest)..];
    }
  }

  function WaveLengths(rows: seq<Row>): seq<real>
  {
    seq(|rows|, (i: nat) requires i < |rows| => rows[i].waveLength)
  }

  /** The list of refractive indices the scan builds: the n of every row that has one. */
  function RisOf(rows: seq<Row>): (ris: seq<real>)
    ensures |ris| <= |rows|
    ensures |ris| == |rows| <==> forall j :: 0 <= j < |rows| ==> rows[j].n.Some?
  {
    if rows == [] then []
    else RisOf(rows[..|rows| - 1]) + (match rows[|rows| - 1].n case Some(v) => [v] case None => [])
  }

  /** The first row at or after from whose wavelength is at or above target. */
  function FirstBracket(rows: seq<Row>, target: real, from: nat): (k: Option<nat>)
    ensures k.Some? ==> from <= k.value < |rows| && target <= rows[k.value].waveLength
    ensures forall j :: from <= j < |rows| && (k.None? || j < k.value) ==>
              target > rows[j].waveLength
    decreases |rows| - from
  {
    if from >= |rows| then None
    else if target <= rows[from].waveLength then Some(from)
    else FirstBracket(rows, target, from + 1)
  }

  const IndexOutOfBounds := "IndexOutOfBoundsException"
  const NullPointer := "NullPointerException"

  /** The outcome of a lookup: a value, or the exception Java would throw. */
  datatype Lookup = Returned(ri: Double) | Thrown(exception: string)

  /** The lookup on a list of rows: the first row k >= 1 at or above the target
      brackets it together with row k - 1; no such row gives 0.0. When a row
      without n came first, the list of indices is too short and Java throws. */
  function LookupRows(rows: seq<Row>, target: real): (r: Lookup)
    ensures FirstBracket(rows, target, 1).None? ==> r == Returned(Finite(0.0))
    ensures r.Thrown? ==> r.exception == IndexOutOfBounds
    ensures r.Thrown? ==> FirstBracket(rows, target, 1).Some? &&
                          exists j :: 0 <= j <= FirstBracket(rows, target, 1).value && rows[j].n.None?
  {
    match FirstBracket(rows, target, 1)
    case None => Returned(Finite(0.0))
    case Some(k) =>
      var ris := RisOf(rows[..k + 1]);
      if k < |ris| then
        Returned(Interpolate(rows[k - 1].waveLength, rows[k].waveLength, ris[k - 1], ris[k], target))
      else Thrown(IndexOutOfBounds)
  }

  /** getRIFromFile on the compound's resource; a missing resource makes the
      Scanner constructor throw. */
  function RIFromJar(jar: map<string, seq<Token>>, c: Compound, target: real): (r: Lookup)
    ensures ResourcePath(c) !in jar <==> r == Thrown(NullPointer)
  {
    if ResourcePath(c) in jar then LookupRows(Rows(jar[ResourcePath(c)]), target)
    else Thrown(NullPointer)
  }

  lemma RisOfAppend(rows: seq<Row>, row: Row)
    ensures RisOf(rows + [row]) ==
              RisOf(rows) + (match row.n case Some(v) => [v] case None => [])
  {
    assert (rows + [row])[..|rows|] == rows;
  }

  /** A row that does not bracket the target keeps the scan going. */
  lemma BracketNotYet(done: seq<Row>, row: Row, target: real)
    requires FirstBracket(done, target, 1).None?
    requires |done| > 0 ==> target > row.waveLength
    ensures FirstBracket(done + [row], target, 1).None?
  {
  }

  /** The first row k >= 1 at or above the target is the bracket of every longer list. */
  lemma BracketFound(rows: seq<Row>, done: seq<Row>, target: real)
    requires 2 <= |done| <= |rows| && rows[..|done|] == done
    requires FirstBracket(done[..|done| - 1], target, 1).None?
    requires target <= done[|done| - 1].waveLength
    ensures FirstBracket(rows, target, 1) == Some(|done| - 1)
  {
    var prefix := done[..|done| - 1];
    assert forall j :: 1 <= j < |prefix| ==> rows[j] == prefix[j];
    assert rows[|done| - 1] == done[|done| - 1];
  }

  /** The lookup once the scan has read the rows in done, the last of which is
      the first at or above the target: interpolation between the last two rows,
      or the exception when the index list is too short. */
  lemma LookupAtBracket(rows: seq<Row>, done: seq<Row>, target: real)
    requires 2 <= |done| <= |rows| && rows[..|done|] == done
    requires FirstBracket(done[..|done| - 1], target, 1).None?
    requires target <= done[|done| - 1].waveLength
    ensures var k := |done| - 1;
            var ris := RisOf(done);
            LookupRows(rows, target) ==
              if k < |ris| then
                Returned(Interpolate(done[k - 1].waveLength, done[k].waveLength, ris[k - 1], ris[k], target))
              else Thrown(IndexOutOfBounds)
  {
    BracketFound(rows, done, target);
    var k := |done| - 1;
    assert rows[..k + 1] == done;
    assert rows[k - 1] == done[k - 1] && rows[k] == done[k];
  }

  /** A word where a row would start is skipped by the scan. */
  lemma RowsWordStep(ts: seq<Token>, rows: seq<Row>, i: nat, done: seq<Row>)
    requires i < |ts| && ts[i].Word? && rows == done + Rows(ts[i..])
    ensures rows == done + Rows(ts[i + 1..])
  {
    RowsFrom(ts, i);
  }

  /** A number where a row starts: the scan reads that row and goes on after it. */
  lemma RowsNumStep(ts: seq<Token>, rows: seq<Row>, i: nat, done: seq<Row>, row: Row, next: nat)
    requires i < |ts| && ts[i].Num? && rows == done + Rows(ts[i..])
    requires row == Row(ts[i].n, RowN(ts[i..])) && next == i + RowSpan(ts[i..])
    ensures rows == (done + [row]) + Rows(ts[next..])
  {
    RowsFrom(ts, i);
    var rest := Rows(ts[next..]);
    assert done + ([row] + rest) == (done + [row]) + rest;
  }

  /** Reads one row starting at the number ts[i]: its wavelength, its n when
      the next token is a number, and a following k column, which is dropped. */
  method ReadRow(ts: seq<Token>, i: nat) returns (waveLength: real, n: Option<real>, next: nat)
    requires i < |ts| && ts[i].Num?
    ensures waveLength == ts[i].n
    ensures n == RowN(ts[i..])
    ensures next == i + RowSpan(ts[i..])
  {
    waveLength := ts[i].n;
    next := i + 1;
    n := None;
    if next < |ts| && ts[next].Num? {
      n := Some(ts[next].n);
      next := next + 1;
    }
    // the third column is read and dropped
    if next < |ts| && ts[next].Num? {
      next := next + 1;
    }
  }

  lemma WaveLengthsAppend(rows: seq<Row>, row: Row)
    ensures WaveLengths(rows + [row]) == WaveLengths(rows) + [row.waveLength]
  {
  }

  /** The scan loop of getRIFromFile: numbers are read row by row into the
      lists of wavelengths and indices until a row brackets the target. */
  method ScanTable(ts: seq<Token>, waveLength: real) returns (r: Lookup)
    ensures r == LookupRows(Rows(ts), waveLength)
  {
    var i := 0;
    var counter := 0;
    var waveLengths: seq<real> := [];
    var ris: seq<real> := [];
    ghost var rows := Rows(ts);
    ghost var done: seq<Row> := [];
    while i < |ts|
      invariant 0 <= i <= |ts|
      invariant rows == done + Rows(ts[i..])
      invariant counter == |done|
      invariant waveLengths == WaveLengths(done)
      invariant ris == RisOf(done)
      invariant FirstBracket(done, waveLength, 1).None?
      decreases |ts| - i
    {
      if ts[i].Num? {
        var wl, n, next := ReadRow(ts, i);
        ghost var row := Row(wl, n);
        RowsNumStep(ts, rows, i, done, row, next);
        waveLengths := waveLengths + [wl];
        if n.Some? {
          ris := ris + [n.value];
        }
        RisOfAppend(done, row);
        WaveLengthsAppend(done, row);
        ghost var before := done;
        done := done + [row];
        i := next;
        if waveLength <= waveLengths[counter] && counter > 0 {
          assert rows[..|done|] == done;
          LookupAtBracket(rows, done, waveLength);
          if counter < |ris| {
            return Returned(Interpolate(waveLengths[counter - 1], waveLengths[counter],
                                        ris[counter - 1], ris[counter], waveLength));
          }
          return Thrown(IndexOutOfBounds);
        }
        BracketNotYet(before, row, waveLength);
        counter := counter + 1;
      } else {
        // a token that is not a number is read away
        RowsWordStep(ts, rows, i, done);
        i := i + 1;
      }
    }
    assert ts[i..] == [];
    return Returned(Finite(0.0));
  }

  /** getRIFromFile: the compound's table resource is opened and scanned. */
  method GetRIFromFile(jar: map<string, seq<Token>>, compound: Compound, waveLength: real)
    returns (r: Lookup)
    ensures r == RIFromJar(jar, compound, waveLength)
  {
    if ResourcePath(compound) !in jar {
      return Thrown(NullPointer);
    }
    r := ScanTable(jar[ResourcePath(compound)], waveLength);
  }

  /** The tokens of header words. */
  function Words(header: seq<string>): seq<Token>
  {
    if header == [] then [] else [Word(header[0])] + Words(header[1..])
  }

  /** Words before the table, such as its header line, do not change the rows. */
  lemma {:induction false} HeaderSkipped(header: seq<string>, ts: seq<Token>)
    ensures Rows(Words(header) + ts) == Rows(ts)
  {
    if header != [] {
      var rest := Words(header[1..]) + ts;
      assert Words(header) + ts == [Word(header[0])] + rest;
      assert ([Word(header[0])] + rest)[1..] == rest;
      assert Rows([Word(header[0])] + rest) == Rows(rest);
      HeaderSkipped(header[1..], ts);
    } else {
      assert Words(header) + ts == ts;
    }
  }

  /** One line of a well-formed table file: wavelength, n and k. */
  datatype Entry = Entry(waveLength: real, n: real, k: real)

  function TableTokens(table: seq<Entry>): seq<Token>
  {
    if table == [] then []
    else [Num(table[0].waveLength), Num(table[0].n), Num(table[0].k)] + TableTokens(table[1..])
  }

  function TableRows(table: seq<Entry>): seq<Row>
  {
    seq(|table|, (i: nat) requires i < |table| => Row(table[i].waveLength, Some(table[i].n)))
  }

  /** In a three-column table every line is one row: its wavelength and n are kept
      and its k is dropped, so k never becomes a wavelength. */
  lemma {:induction false} ThreeColumnRows(table: seq<Entry>)
    ensures Rows(TableTokens(table)) == TableRows(table)
  {
    if table != [] {
      var ts := TableTokens(table);
      assert ts[3..] == TableTokens(table[1..]);
      ThreeColumnRows(table[1..]);
      assert TableRows(table) == [Row(table[0].waveLength, Some(table[0].n))] + TableRows(table[1..]);
    }
  }

  lemma {:induction false} TableRis(table: seq<Entry>)
    ensures RisOf(TableRows(table)) == seq(|table|, (i: nat) requires i < |table| => table[i].n)
  {
    if table != [] {
      var last := |table| - 1;
      TableRis(table[..last]);
      assert TableRows(table)[..last] == TableRows(table[..last]);
    }
  }

  /** The tokens of a table file: header words, then the table's numbers. */
  function TableFile(header: seq<string>, table: seq<Entry>): seq<Token>
  {
    Words(header) + TableTokens(table)
  }

  lemma TableFileRows(header: seq<string>, table: seq<Entry>)
    ensures Rows(TableFile(header, table)) == TableRows(table)
  {
    HeaderSkipped(header, TableTokens(table));
    ThreeColumnRows(table);
  }

  /** In a table file, the first line k >= 1 whose wavelength is at or above the
      target brackets it, and the index is interpolated from lines k - 1 and k. */
  lemma TableLookupBracketed(header: seq<string>, table: seq<Entry>, target: real, k: nat)
    requires 1 <= k < |table| && target <= table[k].waveLength
    requires forall j :: 1 <= j < k ==> target > table[j].waveLength
    ensures LookupRows(Rows(TableFile(header, table)), target) ==
              Returned(Interpolate(table[k - 1].waveLength, table[k].waveLength,
                                   table[k - 1].n, table[k].n, target))
  {
    TableFileRows(header, table);
    var rows := TableRows(table);
    assert rows[k].waveLength == table[k].waveLength;
    assert forall j :: 1 <= j < k ==> rows[j].waveLength == table[j].waveLength;
    assert FirstBracket(rows, target, 1) == Some(k);
    TableRis(table[..k + 1]);
    assert rows[..k + 1] == TableRows(table[..k + 1]);
  }

  /** A target at or below the second wavelength is extrapolated (or interpolated)
      from the first two lines: the first line is never the upper bracket. */
  lemma TableLookupLow(header: seq<string>, table: seq<Entry>, target: real)
    requires |table| >= 2 && target <= table[1].waveLength
    ensures LookupRows(Rows(TableFile(header, table)), target) ==
              Returned(Interpolate(table[0].waveLength, table[1].waveLength,
                                   table[0].n, table[1].n, target))
  {
    TableLookupBracketed(header, table, target, 1);
  }

  /** When no line after the first reaches the target, the lookup gives 0.0. */
  lemma TableLookupAbove(header: seq<string>, table: seq<Entry>, target: real)
    requires forall j :: 1 <= j < |table| ==> target > table[j].waveLength
    ensures LookupRows(Rows(TableFile(header, table)), target) == Returned(Finite(0.0))
  {
    TableFileRows(header, table);
    assert FirstBracket(TableRows(table), target, 1).None?;
  }

  /** For a table sorted by wavelength and a target inside its range, the lookup
      returns a finite index between the indices of the two bracketing lines. */
  lemma TableLookupInRange(header: seq<string>, table: seq<Entry>, target: real, k: nat)
    requires forall i, j :: 0 <= i < j < |table| ==> table[i].waveLength < table[j].waveLength
    requires 1 <= k < |table| && target <= table[k].waveLength
    requires k == 1 ==> table[0].waveLength <= target
    requires k > 1 ==> table[k - 1].waveLength < target
    ensures LookupRows(Rows(TableFile(header, table)), target).Returned?
    ensures var r := LookupRows(Rows(TableFile(header, table)), target).ri;
            r.Finite? &&
            (table[k - 1].n <= table[k].n ==> table[k - 1].n <= r.value <= table[k].n) &&
            (table[k].n <= table[k - 1].n ==> table[k].n <= r.value <= table[k - 1].n)
  {
    forall j | 1 <= j < k
      ensures target > table[j].waveLength
    {
      if j < k - 1 {
        assert table[j].waveLength < table[k - 1].waveLength;
      }
    }
    TableLookupBracketed(header, table, target, k);
    InterpolateBetween(table[k - 1].waveLength, table[k].waveLength,
                       table[k - 1].n, table[k].n, target);
  }

  /** The cache of getRI: one map from wavelength to refractive index per compound. */
  class RICache {
    var siliconMap: map<real, Double>
    var siliconOxideMap: map<real, Double>
    var acrylicMap: map<real, Double>
    var waterMap: map<real, Double>

    constructor ()
      ensures forall c :: GetMap(c) == map[]
    {
      siliconMap, siliconOxideMap, acrylicMap, waterMap := map[], map[], map[], map[];
    }

    /** Compound.getMap: the cache map of a compound. */
    function GetMap(c: Compound): (m: map<real, Double>)
      reads this
      ensures c == Silicon ==> m == siliconMap
      ensures c == SiliconOxide ==> m == siliconOxideMap
      ensures c == Acrylic ==> m == acrylicMap
      ensures c == Water ==> m == waterMap
    {
      match c
      case Silicon => siliconMap
      case SiliconOxide => siliconOxideMap
      case Acrylic => acrylicMap
      case Water => waterMap
    }

    /** Every cached value is what the table lookup gives. */
    ghost predicate Consistent(jar: map<string, seq<Token>>)
      reads this
    {
      forall c: Compound, w: real :: w in GetMap(c) ==> RIFromJar(jar, c, w) == Returned(GetMap(c)[w])
    }

    /** getRI: answer from the compound's cache if the wavelength is there, otherwise
        look it up in the table and store the result under the wavelength. */
    method GetRI(jar: map<string, seq<Token>>, compound: Compound, waveLength: real)
      returns (r: Lookup)
      modifies this
      ensures waveLength in old(GetMap(compound)) ==>
                r == Returned(old(GetMap(compound))[waveLength])
      ensures waveLength !in old(GetMap(compound)) ==> r == RIFromJar(jar, compound, waveLength)
      ensures GetMap(compound) ==
                if r.Returned? then old(GetMap(compound))[waveLength := r.ri] else old(GetMap(compound))
      ensures forall c :: c != compound ==> GetMap(c) == old(GetMap(c))
      ensures old(Consistent(jar)) ==> Consistent(jar) && r == RIFromJar(jar, compound, waveLength)
    {
      var compoundMap := GetMap(compound);
      if waveLength in compoundMap {
        return Returned(compoundMap[waveLength]);
      }
      r := GetRIFromFile(jar, compound, waveLength);
      if r.Returned? {
        compoundMap := compoundMap[waveLength := r.ri];
        match compound
        case Silicon => siliconMap := compoundMap;
        case SiliconOxide => siliconOxideMap := compoundMap;
        case Acrylic => acrylicMap := compoundMap;
        case Water => waterMap := compoundMap;
      }
    }
  }

  /** A second lookup of the same compound and wavelength returns the first result
      from the cache, whatever the table holds by then. */
  method LookupTwice(cache: RICache, jar1: map<string, seq<Token>>, jar2: map<string, seq<Token>>,
                     c: Compound, w: real) returns (r1: Lookup, r2: Lookup)
    modifies cache
    ensures r1.Returned? ==> r2 == r1
    ensures r1.Returned? ==> cache.GetMap(c) == old(cache.GetMap(c))[w := r1.ri]
  {
    r1 := cache.GetRI(jar1, c, w);
    r2 := cache.GetRI(jar2, c, w);
  }
}
