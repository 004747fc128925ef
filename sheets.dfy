/**
 * The sheet as the store holds it, `carica_dati` (read, trim the column
 * names, read the dates, fill the delivered flags, sort) and what a write
 * of the whole table puts back into the store.
 */
module Sheets {
  import opened Wrappers
  import opened Dates
  import opened Text
  import opened Rows

  /** One cell as the sheet reader hands it over. */
  datatype Cell = Missing | Text(s: string) | Flag(b: bool) | Number(n: int)

  /** One line of the sheet before normalisation. */
  datatype RawRow = RawRow(id: int, prodotto: string, data: Cell, consegnato: Cell)

  /** The whole sheet: its header as typed in the sheet, and its lines. */
  datatype Sheet = Sheet(header: seq<string>, rows: seq<RawRow>)

  datatype LoadError =
    | MissingColumn(name: string)  // `KeyError` from `sort_values`
    | MalformedDate(row: nat)      // `pd.to_datetime` refuses the `Data` cell of this line

  /** The columns a whole-table write puts in the sheet. */
  const Header: seq<string> := ["ID", "Prodotto", "Data", "Consegnato"]

  /**
   * `pd.to_datetime(...).dt.date` on one `Data` cell: a blank cell is `NaT`,
   * `YYYY-MM-DD` text naming a date a `Timestamp` can hold is that date,
   * anything else is refused.
   */
  function ReadDay(c: Cell): (r: Option<Day>)
    ensures c.Missing? || c == Text("") ==> r == Some(NaT)
    ensures r.None? <==> || c.Flag? || c.Number?
                         || (c.Text? && c.s != ""
                             && !(ParseIso(c.s).Some? && InTimestampRange(ParseIso(c.s).value)))
    ensures r.Some? && r.value.On? ==> c.Text? && ParseIso(c.s) == Some(r.value.date)
                                       && InTimestampRange(r.value.date)
  {
    match c
    case Missing => Some(NaT)
    case Text(s) =>
      if s == "" then Some(NaT)
      else if ParseIso(s).Some? && InTimestampRange(ParseIso(s).value) then Some(On(ParseIso(s).value))
      else None
    case Flag(_) => None
    case Number(_) => None
  }

  /** `fillna(False).astype(bool)` on one `Consegnato` cell: blank is false, otherwise Python truthiness. */
  function Delivered(c: Cell): (b: bool)
    ensures c.Missing? ==> !b
    ensures c.Flag? ==> b == c.b
  {
    match c
    case Missing => false
    case Flag(b) => b
    case Text(s) => s != ""
    case Number(n) => n != 0
  }

  /** The first line whose `Data` cell `pd.to_datetime` refuses, or `|raw|` if there is none. */
  function FirstMalformed(raw: seq<RawRow>): (k: nat)
    ensures k <= |raw|
    ensures forall j :: 0 <= j < k ==> ReadDay(raw[j].data).Some?
    ensures k < |raw| ==> ReadDay(raw[k].data).None?
  {
    if raw == [] then 0
    else if ReadDay(raw[0].data).None? then 0
    else 1 + FirstMalformed(raw[1..])
  }

  /** One line after its `Data` and `Consegnato` cells have been converted. */
  function Normalise(x: RawRow, hasFlags: bool): Row
    requires ReadDay(x.data).Some?
  {
    Row(x.id, x.prodotto, ReadDay(x.data).value, hasFlags && Delivered(x.consegnato))
  }

  function NormaliseAll(raw: seq<RawRow>, hasFlags: bool): (t: seq<Row>)
    requires forall j :: 0 <= j < |raw| ==> ReadDay(raw[j].data).Some?
    ensures |t| == |raw|
    ensures forall j :: 0 <= j < |raw| ==>
              && t[j].id == raw[j].id && t[j].prodotto == raw[j].prodotto
              && Some(t[j].data) == ReadDay(raw[j].data)
              && (raw[j].consegnato.Missing? ==> !t[j].consegnato)
              && (hasFlags && raw[j].consegnato.Flag? ==> t[j].consegnato == raw[j].consegnato.b)
  {
    seq(|raw|, j requires 0 <= j < |raw| => Normalise(raw[j], hasFlags))
  }

  /** `carica_dati()` on the sheet the store returned. */
  function Load(sheet: Sheet): (r: Result<seq<Row>, LoadError>)
    ensures r.Ok? ==> |r.value| == |sheet.rows|
  {
    var columns := StripAll(sheet.header);
    if "Data" !in columns then Err(MissingColumn("Data"))
    else
      var k := FirstMalformed(sheet.rows);
      if k < |sheet.rows| then Err(MalformedDate(k))
      else if "Prodotto" !in columns then Err(MissingColumn("Prodotto"))
      else Ok(SortRows(NormaliseAll(sheet.rows, "Consegnato" in columns)))
  }

  /** How a loaded line is written back: the date as `YYYY-MM-DD`, `NaT` as a blank cell. */
  function Encode(r: Row): (w: RawRow)
    ensures w.id == r.id && w.prodotto == r.prodotto && w.consegnato == Flag(r.consegnato)
    ensures w.data == Missing <==> r.data.NaT?
  {
    RawRow(r.id, r.prodotto, match r.data case On(d) => Text(FormatIso(d)) case NaT => Missing, Flag(r.consegnato))
  }

  /** `conn.update(data=...)`: the whole table replaces the sheet. */
  function Serialize(t: seq<Row>): (s: Sheet)
    ensures s.header == Header && |s.rows| == |t|
  {
    Sheet(Header, seq(|t|, i requires 0 <= i < |t| => Encode(t[i])))
  }

  /** Every date in the table is one the next load can read back. */
  predicate Readable(t: seq<Row>) {
    forall i :: 0 <= i < |t| ==> t[i].data.On? ==> InTimestampRange(t[i].data.date)
  }

  // ---------------------------------------------------------------
  // Properties of a load

  /**
   * A load fails exactly when `Data` or `Prodotto` is missing after the
   * names are trimmed, or some `Data` cell cannot be read; which error it
   * reports follows the order in which pandas meets them.
   */
  lemma LoadFails(sheet: Sheet)
    ensures var columns := StripAll(sheet.header);
            Load(sheet).Ok? <==> "Data" in columns && "Prodotto" in columns
                                 && forall j :: 0 <= j < |sheet.rows| ==> ReadDay(sheet.rows[j].data).Some?
    ensures "Data" !in StripAll(sheet.header) ==> Load(sheet) == Err(MissingColumn("Data"))
    ensures "Data" in StripAll(sheet.header) && FirstMalformed(sheet.rows) < |sheet.rows| ==>
              Load(sheet) == Err(MalformedDate(FirstMalformed(sheet.rows)))
    ensures && "Data" in StripAll(sheet.header) && FirstMalformed(sheet.rows) == |sheet.rows|
            && "Prodotto" !in StripAll(sheet.header) ==>
              Load(sheet) == Err(MissingColumn("Prodotto"))
    ensures Load(sheet) == Err(MissingColumn("Prodotto")) ==>
              && "Data" in StripAll(sheet.header) && "Prodotto" !in StripAll(sheet.header)
              && forall j :: 0 <= j < |sheet.rows| ==> ReadDay(sheet.rows[j].data).Some?
    ensures Load(sheet).Err? && Load(sheet).error.MalformedDate? ==>
              var k := Load(sheet).error.row;
              && "Data" in StripAll(sheet.header)
              && k == FirstMalformed(sheet.rows) && k < |sheet.rows| && ReadDay(sheet.rows[k].data).None?
  {
  }

  /**
   * A `Data` cell that is neither blank nor a readable date fails the load,
   * with the first such line reported: a bad date never becomes a blank.
   */
  lemma BadDateFailsLoad(sheet: Sheet, j: nat)
    requires "Data" in StripAll(sheet.header)
    requires j < |sheet.rows|
    requires sheet.rows[j].data.Flag? || sheet.rows[j].data.Number?
             || (sheet.rows[j].data.Text? && sheet.rows[j].data.s != ""
                 && ParseIso(sheet.rows[j].data.s).None?)
    ensures Load(sheet).Err? && Load(sheet).error.MalformedDate?
    ensures Load(sheet).error.row <= j
  {
  }

  /** A successful load returns the sheet's lines, normalised, reordered and nothing else, sorted. */
  lemma LoadSorts(sheet: Sheet)
    requires Load(sheet).Ok?
    ensures var t := Load(sheet).value;
            && |t| == |sheet.rows|
            && multiset(t) == multiset(NormaliseAll(sheet.rows, "Consegnato" in StripAll(sheet.header)))
            && Sorted(t)
  {
    var t0 := NormaliseAll(sheet.rows, "Consegnato" in StripAll(sheet.header));
    SortRowsCorrect(t0);
    assert |multiset(SortRows(t0))| == |multiset(t0)|;
  }

  /** Every date a load returns is one a later write can have read back again. */
  lemma LoadReadable(sheet: Sheet)
    requires Load(sheet).Ok?
    ensures Readable(Load(sheet).value)
  {
    var t0 := NormaliseAll(sheet.rows, "Consegnato" in StripAll(sheet.header));
    var t := Load(sheet).value;
    SortRowsCorrect(t0);
    forall i | 0 <= i < |t| && t[i].data.On?
      ensures InTimestampRange(t[i].data.date)
    {
      assert t[i] in multiset(t0);
      var j :| 0 <= j < |t0| && t0[j] == t[i];
    }
  }

  /** Every blank `Consegnato` cell of the sheet is a line with `consegnato == false` after the load. */
  lemma LoadFillsMissing(sheet: Sheet, i: nat)
    requires Load(sheet).Ok? && i < |sheet.rows| && sheet.rows[i].consegnato.Missing?
    ensures var x := sheet.rows[i];
            Row(x.id, x.prodotto, ReadDay(x.data).value, false) in Load(sheet).value
  {
    var t0 := NormaliseAll(sheet.rows, "Consegnato" in StripAll(sheet.header));
    SortRowsCorrect(t0);
    assert t0[i] in multiset(t0);
  }

  /** The columns a write puts in the sheet are found again by the next load. */
  lemma HeaderFound()
    ensures var columns := StripAll(Header);
            "Prodotto" in columns && "Data" in columns && "Consegnato" in columns
  {
    StrippedNameFound(Header, 1);
    StrippedNameFound(Header, 2);
    StrippedNameFound(Header, 3);
  }

  /** A date written as `YYYY-MM-DD` is read back as the same calendar date. */
  lemma ReadEncodedDay(r: Row)
    requires r.data.On? ==> InTimestampRange(r.data.date)
    ensures ReadDay(Encode(r).data) == Some(r.data)
  {
    if r.data.On? {
      ParseFormatted(r.data.date);
    }
  }

  /** Writing a table and loading it again gives the same lines in sorted order. */
  lemma ReadBack(t: seq<Row>)
    requires Readable(t)
    ensures Load(Serialize(t)) == Ok(SortRows(t))
  {
    HeaderFound();
    NormaliseEncoded(t);
  }

  /** Every written line is read and normalised back into the line it came from. */
  lemma NormaliseEncoded(t: seq<Row>)
    requires Readable(t)
    ensures var raw := Serialize(t).rows;
            && FirstMalformed(raw) == |t|
            && NormaliseAll(raw, true) == t
  {
    var raw := Serialize(t).rows;
    forall j | 0 <= j < |t|
      ensures ReadDay(raw[j].data) == Some(t[j].data)
    {
      ReadEncodedDay(t[j]);
    }
    assert FirstMalformed(raw) == |t|;
    assert NormaliseAll(raw, true) == t;
  }

  /** A table already in load order is read back exactly as it was written. */
  lemma ReadBackSorted(t: seq<Row>)
    requires Readable(t) && Sorted(t)
    ensures Load(Serialize(t)) == Ok(t)
  {
    ReadBack(t);
    SortRowsSorted(t);
  }
}
