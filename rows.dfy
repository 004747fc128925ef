/**
 * One line of the shopping list after a load, and the order
 * `sort_values(by=['Data', 'Prodotto'], ascending=[True, True])` puts the
 * lines in.
 */
module Rows {
  import opened Dates
  import opened Text

  /** A `Data` cell after `pd.to_datetime(...).dt.date`: a date, or `NaT` for a blank cell. */
  datatype Day = On(date: Date) | NaT

  /** One order: the sheet's columns `ID`, `Prodotto`, `Data`, `Consegnato`. */
  datatype Row = Row(id: int, prodotto: string, data: Day, consegnato: bool)

  /** Ascending by date; pandas puts `NaT` after every date (`na_position='last'`). */
  predicate DayBefore(a: Day, b: Day) {
    a.On? && (b.NaT? || Before(a.date, b.date))
  }

  /** `x` may come before `y`: earlier `Data`, or the same `Data` and `Prodotto` not after. */
  predicate KeyLe(x: Row, y: Row) {
    DayBefore(x.data, y.data) || (x.data == y.data && TextLe(x.prodotto, y.prodotto))
  }

  lemma KeyLeTotal(x: Row, y: Row)
    ensures KeyLe(x, y) || KeyLe(y, x)
  {
    if x.data.On? && y.data.On? {
      BeforeTrichotomy(x.data.date, y.data.date);
    }
    TextLeTotal(x.prodotto, y.prodotto);
  }

  lemma KeyLeTransitive(x: Row, y: Row, z: Row)
    requires KeyLe(x, y) && KeyLe(y, z)
    ensures KeyLe(x, z)
  {
    if x.data == y.data == z.data {
      TextLeTransitive(x.prodotto, y.prodotto, z.prodotto);
    } else if x.data.On? && y.data.On? && z.data.On? {
      if Before(x.data.date, y.data.date) && Before(y.data.date, z.data.date) {
        BeforeTransitive(x.data.date, y.data.date, z.data.date);
      }
    }
  }

  /** Each line is in order with the next one. */
  predicate Sorted(t: seq<Row>) {
    forall i :: 0 < i < |t| ==> KeyLe(t[i - 1], t[i])
  }

  /** Puts `x` before the first line it may precede. */
  function Insert(x: Row, s: seq<Row>): (r: seq<Row>)
    ensures |r| == |s| + 1
  {
    if s == [] then [x]
    else if KeyLe(x, s[0]) then [x] + s
    else [s[0]] + Insert(x, s[1..])
  }

  /**
   * The stable sort pandas applies for a sort on two columns: insertion of
   * each line in front of the already sorted lines that follow it, so that
   * lines with equal keys keep the order they had in the sheet.
   */
  function SortRows(t: seq<Row>): (r: seq<Row>)
    ensures |r| == |t|
  {
    if t == [] then [] else Insert(t[0], SortRows(t[1..]))
  }

  lemma {:induction false} InsertPermutes(x: Row, s: seq<Row>)
    ensures multiset(Insert(x, s)) == multiset(s) + multiset{x}
    ensures Insert(x, s)[0] == x || (s != [] && Insert(x, s)[0] == s[0])
  {
    if s != [] && !KeyLe(x, s[0]) {
      InsertPermutes(x, s[1..]);
      assert s == [s[0]] + s[1..];
    }
  }

  lemma {:induction false} InsertSorted(x: Row, s: seq<Row>)
    requires Sorted(s)
    ensures Sorted(Insert(x, s))
  {
    if s != [] && !KeyLe(x, s[0]) {
      InsertSorted(x, s[1..]);
      InsertPermutes(x, s[1..]);
      KeyLeTotal(x, s[0]);
      var r := Insert(x, s[1..]);
      assert KeyLe(s[0], r[0]);
      assert Insert(x, s) == [s[0]] + r;
    }
  }

  lemma {:induction false} SortRowsPermutes(t: seq<Row>)
    ensures multiset(SortRows(t)) == multiset(t)
  {
    if t != [] {
      SortRowsPermutes(t[1..]);
      InsertPermutes(t[0], SortRows(t[1..]));
      assert t == [t[0]] + t[1..];
    }
  }

  lemma {:induction false} SortRowsOrders(t: seq<Row>)
    ensures Sorted(SortRows(t))
  {
    if t != [] {
      SortRowsOrders(t[1..]);
      InsertSorted(t[0], SortRows(t[1..]));
    }
  }

  /** The load result is a permutation of the sheet's lines, in (Data, Prodotto) order. */
  lemma SortRowsCorrect(t: seq<Row>)
    ensures multiset(SortRows(t)) == multiset(t)
    ensures Sorted(SortRows(t))
  {
    SortRowsPermutes(t);
    SortRowsOrders(t);
  }

  /** Sorting lines that are already in order leaves them exactly as they are. */
  lemma {:induction false} SortRowsSorted(t: seq<Row>)
    requires Sorted(t)
    ensures SortRows(t) == t
  {
    if t != [] {
      SortRowsSorted(t[1..]);
      assert t == [t[0]] + t[1..];
    }
  }

  /** Same `Data` and same `Prodotto`: neither line may be put before the other by the sort key alone. */
  predicate SameKey(x: Row, y: Row) {
    x.data == y.data && x.prodotto == y.prodotto
  }

  /** The lines of `t` that share `x`'s sort key, in the order `t` has them. */
  function Ties(t: seq<Row>, x: Row): seq<Row> {
    if t == [] then [] else (if SameKey(t[0], x) then [t[0]] else []) + Ties(t[1..], x)
  }

  lemma {:induction false} TextLeReflexive(a: string)
    ensures TextLe(a, a)
  {
    if a != [] {
      TextLeReflexive(a[1..]);
    }
  }

  /** Inserting a line puts it in front of every line that shares its key. */
  lemma {:induction false} InsertKeepsTies(y: Row, s: seq<Row>, x: Row)
    ensures Ties(Insert(y, s), x) == Ties([y] + s, x)
  {
    assert ([y] + s)[1..] == s;
    if s != [] && !KeyLe(y, s[0]) {
      InsertKeepsTies(y, s[1..], x);
      TextLeReflexive(y.prodotto);
      assert !(SameKey(y, x) && SameKey(s[0], x));
      var r := Insert(y, s[1..]);
      assert ([s[0]] + r)[1..] == r;
      assert ([y] + s[1..])[1..] == s[1..];
    }
  }

  /**
   * The sort is stable: lines with the same `Data` and `Prodotto` come out
   * in the order they had in the sheet.
   */
  lemma {:induction false} SortRowsStable(t: seq<Row>, x: Row)
    ensures Ties(SortRows(t), x) == Ties(t, x)
  {
    if t != [] {
      SortRowsStable(t[1..], x);
      InsertKeepsTies(t[0], SortRows(t[1..]), x);
      assert ([t[0]] + SortRows(t[1..]))[1..] == SortRows(t[1..]);
    }
  }

  /** In a sorted table every line may precede every later one, not only the next. */
  lemma {:induction false} SortedPairwise(t: seq<Row>, i: int, j: int)
    requires Sorted(t) && 0 <= i < j < |t|
    ensures KeyLe(t[i], t[j])
    decreases j - i
  {
    if i + 1 < j {
      SortedPairwise(t, i + 1, j);
      KeyLeTransitive(t[i], t[i + 1], t[j]);
    }
  }
}
