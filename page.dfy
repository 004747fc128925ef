/**
 * One run of the page: the table loaded at the top (`df_raw`), the add
 * form in the sidebar and the check box drawn for every line. The store is
 * the sheet behind the connection; every change writes the whole table to
 * it and then asks for a rerun, which ends the run.
 */
module App {
  import opened Wrappers
  import opened Dates
  import opened Rows
  import opened Sheets

  /**
   * The add form's submit branch: an empty name is ignored; otherwise the
   * new order goes after every line, numbered one past the table's length.
   */
  function AddOrder(t: seq<Row>, name: string, day: Date): (r: Option<seq<Row>>)
    ensures r.None? <==> name == ""
    ensures r.Some? ==> && |r.value| == |t| + 1
                        && r.value[..|t|] == t
                        && r.value[|t|] == Row(|t| + 1, name, On(day), false)
  {
    if name == "" then None else Some(t + [Row(|t| + 1, name, On(day), false)])
  }

  /**
   * `render_row`'s update for line `idx`: nothing when the box shows the
   * line's flag; otherwise the table with that one flag set to the box.
   */
  function ToggleOrder(t: seq<Row>, idx: nat, check: bool): (r: Option<seq<Row>>)
    requires idx < |t|
    ensures r.None? <==> check == t[idx].consegnato
    ensures r.Some? ==> && |r.value| == |t|
                        && r.value[idx] == Row(t[idx].id, t[idx].prodotto, t[idx].data, check)
                        && forall j :: 0 <= j < |t| && j != idx ==> r.value[j] == t[j]
  {
    if check == t[idx].consegnato then None else Some(t[idx := t[idx].(consegnato := check)])
  }

  /** The first line, in table order, whose check box differs from its flag; `|t|` if none does. */
  function FirstChange(t: seq<Row>, checks: seq<bool>): (k: nat)
    requires |checks| == |t|
    ensures k <= |t|
    ensures forall j :: 0 <= j < k ==> checks[j] == t[j].consegnato
    ensures k < |t| ==> checks[k] != t[k].consegnato
  {
    if t == [] then 0
    else if checks[0] != t[0].consegnato then 0
    else 1 + FirstChange(t[1..], checks[1..])
  }

  // ---------------------------------------------------------------
  // What the next load sees

  /** A toggle changes no sort key, so a sorted table stays sorted. */
  lemma ToggleKeepsOrder(t: seq<Row>, idx: nat, check: bool)
    requires idx < |t| && Sorted(t) && ToggleOrder(t, idx, check).Some?
    ensures Sorted(ToggleOrder(t, idx, check).value)
    ensures Readable(t) ==> Readable(ToggleOrder(t, idx, check).value)
  {
    var u := ToggleOrder(t, idx, check).value;
    forall i | 0 < i < |u|
      ensures KeyLe(u[i - 1], u[i])
    {
      assert KeyLe(t[i - 1], t[i]);
    }
  }

  /**
   * After a toggle the next load shows exactly the table that was written:
   * the same lines, in the same order, with the one flag changed.
   */
  lemma ReloadAfterToggle(t: seq<Row>, idx: nat, check: bool)
    requires idx < |t| && Sorted(t) && Readable(t) && check != t[idx].consegnato
    ensures Load(Serialize(ToggleOrder(t, idx, check).value)) == Ok(ToggleOrder(t, idx, check).value)
  {
    ToggleKeepsOrder(t, idx, check);
    ReadBackSorted(ToggleOrder(t, idx, check).value);
  }

  /**
   * After an add the next load shows the old lines and the new order, each
   * once, in load order; the new order's date is read back as the date
   * chosen in the form.
   */
  lemma ReloadAfterAdd(t: seq<Row>, name: string, day: Date)
    requires Readable(t) && name != "" && InTimestampRange(day)
    ensures var u := AddOrder(t, name, day).value;
            && Load(Serialize(u)).Ok?
            && multiset(Load(Serialize(u)).value) == multiset(t) + multiset{Row(|t| + 1, name, On(day), false)}
            && Sorted(Load(Serialize(u)).value)
  {
    var u := AddOrder(t, name, day).value;
    ReadBack(u);
    SortRowsCorrect(u);
    assert u == t + [Row(|t| + 1, name, On(day), false)];
  }

  // ---------------------------------------------------------------
  // Identifiers

  /** The ids are 1 to the table's length, each used once. */
  predicate IdsOneToN(t: seq<Row>) {
    && (forall i :: 0 <= i < |t| ==> 1 <= t[i].id <= |t|)
    && (forall i, j :: 0 <= i < j < |t| ==> t[i].id != t[j].id)
  }

  /** Numbering a new order `len + 1` keeps ids 1 to n, each once, when they were so before. */
  lemma AddKeepsIdsOneToN(t: seq<Row>, name: string, day: Date)
    requires IdsOneToN(t) && name != ""
    ensures IdsOneToN(AddOrder(t, name, day).value)
  {
  }

  /**
   * When a line has been removed from the sheet by hand, `len + 1` can be
   * an id already in use: one line numbered 2 gets a second line numbered 2.
   */
  lemma AddCanRepeatId()
    ensures var t := [Row(2, "Latte", NaT, false)];
            var u := AddOrder(t, "Pane", Ymd(2024, 1, 10)).value;
            u[0].id == u[1].id == 2
  {
  }

  // ---------------------------------------------------------------
  // The page

  class Page {
    /** The sheet behind the connection, replaced as a whole by every write. */
    var store: Sheet
    /** `df_raw`: the table loaded at the start of this run. */
    var rows: seq<Row>
    /** How many times this run has written the table to the store. */
    var writes: nat

    /** The table is as a load leaves it: sorted, every date readable again. */
    ghost predicate Valid()
      reads this
    {
      Sorted(rows) && Readable(rows)
    }

    /** The top of the script: `df_raw = carica_dati()`, which the rest of the run needs to succeed. */
    constructor (sheet: Sheet)
      requires Load(sheet).Ok?
      ensures Valid()
      ensures store == sheet && rows == Load(sheet).value && writes == 0
    {
      LoadSorts(sheet);
      LoadReadable(sheet);
      store := sheet;
      rows := Load(sheet).value;
      writes := 0;
    }

    /**
     * The add form was submitted with `name` and `day`. The date goes into
     * the sheet as `YYYY-MM-DD`; `rows` itself is not changed, the rerun
     * reloads it.
     */
    method Add(name: string, day: Date) returns (rerun: bool)
      requires Valid()
      modifies this`store, this`writes
      ensures Valid()
      ensures rerun <==> name != ""
      ensures !rerun ==> store == old(store) && writes == old(writes)
      ensures rerun ==> && store == Serialize(AddOrder(rows, name, day).value)
                        && writes == old(writes) + 1
    {
      rerun := false;
      if name != "" {
        var line := RawRow(|rows| + 1, name, Text(FormatIso(day)), Flag(false));
        var written := Serialize(rows);
        store := Sheet(written.header, written.rows + [line]);
        writes := writes + 1;
        rerun := true;
        assert store == Serialize(rows + [Row(|rows| + 1, name, On(day), false)]);
      }
    }

    /**
     * `render_row` for line `idx` with the value `check` its box now shows:
     * if that differs from the line's flag, the flag is set in `df_raw`,
     * the whole table is written and a rerun is asked for.
     */
    method Toggle(idx: nat, check: bool) returns (rerun: bool)
      requires Valid() && idx < |rows|
      modifies this`rows, this`store, this`writes
      ensures Valid()
      ensures rerun <==> check != old(rows)[idx].consegnato
      ensures !rerun ==> rows == old(rows) && store == old(store) && writes == old(writes)
      ensures rerun ==> && rows == ToggleOrder(old(rows), idx, check).value
                        && store == Serialize(rows)
                        && writes == old(writes) + 1
                        && Load(store) == Ok(rows)
    {
      rerun := false;
      if check != rows[idx].consegnato {
        ReloadAfterToggle(rows, idx, check);
        ToggleKeepsOrder(rows, idx, check);
        rows := rows[idx := rows[idx].(consegnato := check)];
        store := Serialize(rows);
        writes := writes + 1;
        rerun := true;
      }
    }

    /**
     * One run of the script after the load: the add form is handled first,
     * and a successful add ends the run before any check box is drawn;
     * otherwise the lines are drawn. A run writes the store at most once.
     */
    method Run(submitted: bool, name: string, day: Date, checks: seq<bool>) returns (rerun: bool)
      requires Valid() && |checks| == |rows|
      modifies this`rows, this`store, this`writes
      ensures Valid()
      ensures rerun <==> writes == old(writes) + 1
      ensures !rerun ==> writes == old(writes) && store == old(store) && rows == old(rows)
      ensures submitted && name != "" ==> && rerun && rows == old(rows)
                                          && store == Serialize(AddOrder(old(rows), name, day).value)
      ensures !(submitted && name != "") ==>
                var k := FirstChange(old(rows), checks);
                && (rerun <==> k < |old(rows)|)
                && (rerun ==> rows == ToggleOrder(old(rows), k, checks[k]).value && store == Serialize(rows))
    {
      rerun := false;
      if submitted {
        rerun := Add(name, day);
      }
      if !rerun {
        rerun := RenderRows(checks);
      }
    }

    /**
     * The loop over `df_raw.iterrows()`: line after line gets its check box,
     * and the first line whose box differs from its flag is written; the
     * rerun that follows ends the loop.
     */
    method RenderRows(checks: seq<bool>) returns (rerun: bool)
      requires Valid() && |checks| == |rows|
      modifies this`rows, this`store, this`writes
      ensures Valid()
      ensures var k := FirstChange(old(rows), checks);
              && (rerun <==> k < |old(rows)|)
              && (!rerun ==> rows == old(rows) && store == old(store) && writes == old(writes))
              && (rerun ==> && rows == ToggleOrder(old(rows), k, checks[k]).value
                            && store == Serialize(rows)
                            && writes == old(writes) + 1)
    {
      rerun := false;
      var i := 0;
      while i < |rows| && !rerun
        invariant Valid()
        invariant 0 <= i <= |rows| == |old(rows)|
        invariant !rerun ==> && rows == old(rows) && store == old(store) && writes == old(writes)
                             && forall j :: 0 <= j < i ==> checks[j] == rows[j].consegnato
        invariant rerun ==> && 0 < i
                            && FirstChange(old(rows), checks) == i - 1
                            && rows == ToggleOrder(old(rows), i - 1, checks[i - 1]).value
                            && store == Serialize(rows)
                            && writes == old(writes) + 1
      {
        rerun := Toggle(i, checks[i]);
        i := i + 1;
      }
    }
  }
}
