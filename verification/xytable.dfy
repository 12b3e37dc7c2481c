/**
  `_subcolumn_to_numpy` and `_parse_xy_table`: turning the X and Y columns of one XY or
  TwoWay table into a dictionary from `<column title>_<discriminator>` to a column of
  values, all columns padded to the same length.
 */
module XyTable {
  import opened Wrappers
  import opened Xml
  import opened Naming
  import opened Dicts
  import opened Errors

  /** A cell: the number `float` reads from a text, or the NaN used for padding.
      Numbers are kept abstract, identified by the text they were read from. */
  datatype Value = Num(text: string) | Missing

  function ParseNum(s: string): Value {
    Num(s)
  }

  /** A parsed table: column name to column values. */
  type Table = map<string, seq<Value>>

  /** `_subcolumn_to_numpy`: one value per `d` child, in document order. */
  function SubcolumnValues(sub: Element): seq<Value> {
    var ds := FindAll(sub, "d");
    seq(|ds|, i requires 0 <= i < |ds| => ParseNum(AllText(ds[i])))
  }

  /** One value per `d` child of the subcolumn, in document order: the j-th child, when
      it is a `d`, gives the value at its rank among the `d` children. */
  lemma SubcolumnValuesSpec(sub: Element)
    ensures |SubcolumnValues(sub)| == Count(sub.children, "d")
    ensures forall j :: 0 <= j < |sub.children| && sub.children[j].tag == "d" ==>
              && Count(sub.children[..j], "d") < |SubcolumnValues(sub)|
              && SubcolumnValues(sub)[Count(sub.children[..j], "d")] == ParseNum(AllText(sub.children[j]))
  {
    FindAllSpec(sub, "d");
  }

  predicate HasTitle(col: Element) {
    FindFirst(col, "Title").Some?
  }

  predicate AllTitled(cols: seq<Element>) {
    forall i :: 0 <= i < |cols| ==> HasTitle(cols[i])
  }

  /** The flattened text of a column's `Title` child. */
  function TitleOf(col: Element): string
    requires HasTitle(col)
  {
    AllText(FindFirst(col, "Title").value)
  }

  /** The X columns, plain ones first, then advanced ones. */
  function XGroup(table: Element): seq<Element> {
    FindAll(table, "XColumn") + FindAll(table, "XAdvancedColumn")
  }

  /** The Y columns, plain ones first, then advanced ones. */
  function YGroup(table: Element): seq<Element> {
    FindAll(table, "YColumn") + FindAll(table, "YAdvancedColumn")
  }

  /** Each subcolumn paired with the title of its column. */
  function Paired(title: string, subs: seq<Element>): seq<(string, Element)> {
    seq(|subs|, i requires 0 <= i < |subs| => (title, subs[i]))
  }

  /** The subcolumns of one column, each paired with the column's title. */
  function SubcolumnsOf(col: Element): seq<(string, Element)>
    requires HasTitle(col)
  {
    Paired(TitleOf(col), FindAll(col, "Subcolumn"))
  }

  /** The subcolumns of a group of columns in processing order: column by column,
      and within a column in document order. */
  function Subcolumns(cols: seq<Element>): seq<(string, Element)>
    requires AllTitled(cols)
  {
    if cols == [] then []
    else Subcolumns(cols[..|cols| - 1]) + SubcolumnsOf(cols[|cols| - 1])
  }

  /** The dictionary entries for a run of subcolumns whose discriminators are the
      scheme's names number `start`, `start + 1`, ...: key `title_discriminator`,
      value the subcolumn's values. */
  function Entries(ps: seq<(string, Element)>, scheme: Scheme, start: nat): seq<(string, seq<Value>)>
    requires WellFormed(scheme)
  {
    seq(|ps|, i requires 0 <= i < |ps| => Entry(ps[i], scheme, start + i))
  }

  /** The entry for one subcolumn paired with its column's title, named by the scheme's
      k-th discriminator. */
  function Entry(p: (string, Element), scheme: Scheme, k: nat): (string, seq<Value>)
    requires WellFormed(scheme)
  {
    (p.0 + "_" + NameAt(scheme, k), SubcolumnValues(p.1))
  }

  lemma EntriesAppend(a: seq<(string, Element)>, b: seq<(string, Element)>, scheme: Scheme, start: nat)
    requires WellFormed(scheme)
    ensures Entries(a + b, scheme, start) == Entries(a, scheme, start) + Entries(b, scheme, start + |a|)
  {
    var l := Entries(a + b, scheme, start);
    var r := Entries(a, scheme, start) + Entries(b, scheme, start + |a|);
    forall i | 0 <= i < |l|
      ensures l[i] == r[i]
    {
      if i < |a| {
        assert (a + b)[i] == a[i];
      } else {
        assert (a + b)[i] == b[i - |a|];
      }
    }
  }

  /** Storing the subcolumns already done and then one more column's subcolumns is
      storing their concatenation. */
  lemma StoreStep(columns: Table, done: seq<(string, Element)>, own: seq<(string, Element)>,
                  scheme: Scheme, start: nat, next: nat)
    requires WellFormed(scheme) && next == start + |done|
    ensures AssignAll(AssignAll(columns, Entries(done, scheme, start)), Entries(own, scheme, next))
            == AssignAll(columns, Entries(done + own, scheme, start))
  {
    var a, b := Entries(done, scheme, start), Entries(own, scheme, next);
    EntriesAppend(done, own, scheme, start);
    assert Entries(done + own, scheme, start) == a + b;
    AssignAllAppend(columns, a, b);
  }

  /** A column without a `Title` makes its group fail. */
  lemma UntitledColumnFails(m: Table, cols: seq<Element>, i: nat, scheme: Scheme, start: nat)
    requires i < |cols| && !HasTitle(cols[i]) && WellFormed(scheme)
    ensures StoreGroup(m, cols, scheme, start) == Err(MissingTitle)
  {
  }

  /** One more column stored: the loop's bookkeeping moves on by that column. */
  lemma GroupStep(columns: Table, cols: seq<Element>, i: nat, before: Table, after: Table,
                  scheme: Scheme, start: nat, at: nat)
    requires i < |cols| && WellFormed(scheme) && AllTitled(cols[..i]) && HasTitle(cols[i])
    requires StoreGroup(columns, cols[..i], scheme, start) == Ok(before)
    requires at == start + |Subcolumns(cols[..i])|
    requires after == AssignAll(before, Entries(SubcolumnsOf(cols[i]), scheme, at))
    ensures AllTitled(cols[..i + 1])
    ensures |Subcolumns(cols[..i + 1])| == |Subcolumns(cols[..i])| + |SubcolumnsOf(cols[i])|
    ensures StoreGroup(columns, cols[..i + 1], scheme, start) == Ok(after)
  {
    var done := Subcolumns(cols[..i]);
    StoreStep(columns, done, SubcolumnsOf(cols[i]), scheme, start, at);
    SubcolumnsSnoc(cols, i);
  }

  lemma SubcolumnsSnoc(cols: seq<Element>, i: nat)
    requires i < |cols| && AllTitled(cols[..i]) && HasTitle(cols[i])
    ensures AllTitled(cols[..i + 1])
    ensures Subcolumns(cols[..i + 1]) == Subcolumns(cols[..i]) + SubcolumnsOf(cols[i])
  {
    assert cols[..i + 1][..i] == cols[..i];
  }

  lemma EntriesSnoc(ps: seq<(string, Element)>, p: (string, Element), scheme: Scheme, start: nat)
    requires WellFormed(scheme)
    ensures Entries(ps + [p], scheme, start)
            == Entries(ps, scheme, start) + [(p.0 + "_" + NameAt(scheme, start + |ps|), SubcolumnValues(p.1))]
  {
  }

  /** What one of the two column loops does to the dictionary `m`. A column without a
      `Title` child makes the loop fail. */
  function StoreGroup(m: Table, cols: seq<Element>, scheme: Scheme, start: nat): Result<Table, LoadError>
    requires WellFormed(scheme)
  {
    if !AllTitled(cols) then Err(MissingTitle)
    else Ok(AssignAll(m, Entries(Subcolumns(cols), scheme, start)))
  }

  /** The dictionary after both loops: X subcolumns numbered by a counter, then Y
      subcolumns named by the scheme `YFormat` selects, each run starting afresh. */
  function Columns(table: Element): Result<Table, LoadError>
    requires "YFormat" in table.attrib
  {
    match StoreGroup(map[], XGroup(table), Counter, 0)
    case Err(e) => Err(e)
    case Ok(xs) => StoreGroup(xs, YGroup(table), YScheme(table.attrib["YFormat"]), 0)
  }

  /** The entries the X loop assigns: numbered 0, 1, 2, ... across all X columns. */
  function XEntries(table: Element): seq<(string, seq<Value>)>
    requires AllTitled(XGroup(table))
  {
    Entries(Subcolumns(XGroup(table)), Counter, 0)
  }

  /** The entries the Y loop assigns, named by the scheme `YFormat` selects. */
  function YEntries(table: Element): seq<(string, seq<Value>)>
    requires "YFormat" in table.attrib && AllTitled(YGroup(table))
  {
    Entries(Subcolumns(YGroup(table)), YScheme(table.attrib["YFormat"]), 0)
  }

  /** All entries in the order the two loops assign them. */
  function AllEntries(table: Element): seq<(string, seq<Value>)>
    requires "YFormat" in table.attrib && AllTitled(XGroup(table)) && AllTitled(YGroup(table))
  {
    XEntries(table) + YEntries(table)
  }

  /** Both loops together are one run of dictionary assignments, X entries before Y
      entries; they fail exactly when some column has no `Title`. */
  lemma ColumnsAreAssignments(table: Element)
    requires "YFormat" in table.attrib
    ensures Columns(table).Ok? <==> AllTitled(XGroup(table)) && AllTitled(YGroup(table))
    ensures Columns(table).Ok? ==>
              Columns(table).value == AssignAll(map[], AllEntries(table))
  {
    if AllTitled(XGroup(table)) && AllTitled(YGroup(table)) {
      AssignAllAppend(map[], XEntries(table), YEntries(table));
    }
  }

  /** The k-th subcolumn of a run is keyed by its column's title and the scheme's k-th name. */
  lemma EntryKey(ps: seq<(string, Element)>, scheme: Scheme, k: nat)
    requires WellFormed(scheme) && k < |ps|
    ensures Entries(ps, scheme, 0)[k] == (ps[k].0 + "_" + NameAt(scheme, k), SubcolumnValues(ps[k].1))
  {
  }

  /** Counter-numbered keys are pairwise distinct, whatever the column titles. */
  lemma {:induction false} CounterEntriesDistinct(ps: seq<(string, Element)>, start: nat, i: nat, j: nat)
    requires i < j < |ps|
    ensures Entries(ps, Counter, start)[i].0 != Entries(ps, Counter, start)[j].0
  {
    CounterKeysDistinct(ps[i].0, start + i, ps[j].0, start + j);
  }

  /** The column names of the table are exactly the keys of the X and Y entries. */
  lemma ColumnsKeys(table: Element)
    requires "YFormat" in table.attrib && Columns(table).Ok?
    ensures AllTitled(XGroup(table)) && AllTitled(YGroup(table))
    ensures Columns(table).value.Keys == KeysOf(AllEntries(table))
  {
    ColumnsAreAssignments(table);
    AssignAllKeys(map[], AllEntries(table));
  }

  /** When several subcolumns produce the same key, the last one processed (Y after X,
      later in document order) holds that key. */
  lemma ColumnsLastWins(table: Element, j: nat)
    requires "YFormat" in table.attrib && AllTitled(XGroup(table)) && AllTitled(YGroup(table))
    requires j < |AllEntries(table)|
    requires forall i :: j < i < |AllEntries(table)| ==> AllEntries(table)[i].0 != AllEntries(table)[j].0
    ensures Columns(table).Ok? && AllEntries(table)[j].0 in Columns(table).value
    ensures Columns(table).value[AllEntries(table)[j].0] == AllEntries(table)[j].1
  {
    ColumnsAreAssignments(table);
    AssignAllLastWins(map[], AllEntries(table), j);
  }

  /** After the k-th counter-numbered entry, no entry of the run or of a following run
      that avoids its key repeats that key. */
  lemma LaterKeysDiffer(ps: seq<(string, Element)>, ys: seq<(string, seq<Value>)>, k: nat)
    requires k < |ps|
    requires forall i :: 0 <= i < |ys| ==> ys[i].0 != Entries(ps, Counter, 0)[k].0
    ensures (Entries(ps, Counter, 0) + ys)[k] == Entries(ps, Counter, 0)[k]
    ensures forall i :: k < i < |Entries(ps, Counter, 0) + ys| ==>
              (Entries(ps, Counter, 0) + ys)[i].0 != (Entries(ps, Counter, 0) + ys)[k].0
  {
    var xs := Entries(ps, Counter, 0);
    var es := xs + ys;
    forall i | k < i < |es|
      ensures es[i].0 != es[k].0
    {
      if i < |xs| {
        CounterEntriesDistinct(ps, 0, k, i);
      } else {
        assert es[i] == ys[i - |xs|];
      }
    }
  }

  /** X subcolumns never overwrite one another: the k-th X subcolumn is stored under
      `title_k` unless a Y subcolumn reuses exactly that key. */
  lemma XSubcolumnKept(table: Element, k: nat)
    requires "YFormat" in table.attrib && AllTitled(XGroup(table)) && AllTitled(YGroup(table))
    requires k < |XEntries(table)|
    requires forall i :: 0 <= i < |YEntries(table)| ==> YEntries(table)[i].0 != XEntries(table)[k].0
    ensures XEntries(table)[k].0 == Subcolumns(XGroup(table))[k].0 + "_" + NatToString(k)
    ensures Columns(table).Ok? && XEntries(table)[k].0 in Columns(table).value
    ensures Columns(table).value[XEntries(table)[k].0] == XEntries(table)[k].1
  {
    LaterKeysDiffer(Subcolumns(XGroup(table)), YEntries(table), k);
    ColumnsLastWins(table, k);
  }

  /** `n` is the length of the longest column of `m`. */
  predicate IsMaxLen(m: Table, n: nat) {
    && (exists k :: k in m && |m[k]| == n)
    && (forall k :: k in m ==> |m[k]| <= n)
  }

  lemma MaxLenExists(m: Table)
    requires |m| > 0
    ensures exists n :: IsMaxLen(m, n)
    decreases m.Keys
  {
    var k :| k in m;
    var rest := m - {k};
    if |rest| == 0 {
      assert m.Keys == {k};
      assert IsMaxLen(m, |m[k]|);
    } else {
      MaxLenExists(rest);
      var n' :| IsMaxLen(rest, n');
      assert forall k' :: k' in m && k' != k ==> k' in rest && rest[k'] == m[k'];
      if |m[k]| <= n' {
        assert IsMaxLen(m, n');
      } else {
        assert IsMaxLen(m, |m[k]|);
      }
    }
  }

  /** `max(len(v) for v in columns.values())`. */
  function MaxLen(m: Table): (n: nat)
    requires |m| > 0
    ensures IsMaxLen(m, n)
  {
    MaxLenExists(m);
    var n :| IsMaxLen(m, n);
    n
  }

  /** A column right-padded with the missing marker up to length `n` (`np.pad`). */
  function Pad(v: seq<Value>, n: nat): seq<Value> {
    if |v| < n then v + seq(n - |v|, _ => Missing) else v
  }

  /** Every column of `m` padded to length `n`: the keys stay, each column keeps its
      values as a prefix, and only missing markers follow. */
  function PadAll(m: Table, n: nat): (r: Table)
    ensures r.Keys == m.Keys
    ensures forall k :: k in r ==>
              && |r[k]| == (if |m[k]| < n then n else |m[k]|)
              && r[k][..|m[k]|] == m[k]
              && forall i :: |m[k]| <= i < |r[k]| ==> r[k][i] == Missing
  {
    map k | k in m :: Pad(m[k], n)
  }

  /** `r` is `cols` with every column padded to the longest column's length. */
  ghost predicate PaddedFrom(r: Table, cols: Table) {
    && r.Keys == cols.Keys
    && (exists n :: IsMaxLen(cols, n) && forall k :: k in r ==> |r[k]| == n)
    && (forall k :: k in r ==>
          && |cols[k]| <= |r[k]|
          && r[k][..|cols[k]|] == cols[k]
          && forall i :: |cols[k]| <= i < |r[k]| ==> r[k][i] == Missing)
  }

  /** `_parse_xy_table`: the three format attributes must be present; the table is the
      padded dictionary, and a table without any subcolumn fails in `max`. */
  function XYTable(table: Element): (r: Result<Table, LoadError>)
    ensures "XFormat" !in table.attrib ==> r == Err(MissingAttribute("XFormat"))
    ensures "XFormat" in table.attrib && "YFormat" !in table.attrib ==> r == Err(MissingAttribute("YFormat"))
    ensures "XFormat" in table.attrib && "YFormat" in table.attrib && "EVFormat" !in table.attrib
            ==> r == Err(MissingAttribute("EVFormat"))
    ensures r.Ok? <==>
              && "XFormat" in table.attrib && "YFormat" in table.attrib && "EVFormat" in table.attrib
              && Columns(table).Ok? && |Columns(table).value| > 0
    ensures ("XFormat" in table.attrib && "YFormat" in table.attrib && "EVFormat" in table.attrib
             && Columns(table).Err?) ==> r == Columns(table)
    ensures r.Ok? ==> "YFormat" in table.attrib && Columns(table).Ok?
    ensures r.Ok? ==> |r.value| > 0 && PaddedFrom(r.value, Columns(table).value)
    ensures r == Err(NoColumns) <==>
              && "XFormat" in table.attrib && "YFormat" in table.attrib && "EVFormat" in table.attrib
              && Columns(table) == Ok(map[])
  {
    if "XFormat" !in table.attrib then Err(MissingAttribute("XFormat"))
    else if "YFormat" !in table.attrib then Err(MissingAttribute("YFormat"))
    else if "EVFormat" !in table.attrib then Err(MissingAttribute("EVFormat"))
    else match Columns(table)
      case Err(e) => Err(e)
      case Ok(cols) =>
        if |cols| == 0 then Err(NoColumns)
        else
          var n := MaxLen(cols);
          Ok(PadAll(cols, n))
  }

  /** In the finished table, the column under a key is the last subcolumn that produced
      that key, followed by missing markers up to the common length. */
  lemma XYTableColumn(table: Element, j: nat)
    requires XYTable(table).Ok?
    requires "YFormat" in table.attrib && AllTitled(XGroup(table)) && AllTitled(YGroup(table))
    requires j < |AllEntries(table)|
    requires forall i :: j < i < |AllEntries(table)| ==> AllEntries(table)[i].0 != AllEntries(table)[j].0
    ensures AllEntries(table)[j].0 in XYTable(table).value
    ensures |AllEntries(table)[j].1| <= |XYTable(table).value[AllEntries(table)[j].0]|
    ensures XYTable(table).value[AllEntries(table)[j].0][..|AllEntries(table)[j].1|] == AllEntries(table)[j].1
    ensures forall i :: |AllEntries(table)[j].1| <= i < |XYTable(table).value[AllEntries(table)[j].0]| ==>
              XYTable(table).value[AllEntries(table)[j].0][i] == Missing
  {
    ColumnsLastWins(table, j);
  }

  /** The two nested loops of `_parse_xy_table` over one group of columns: each
      subcolumn is stored under `title_<next discriminator>`. */
  method StoreSubcolumns(columns: Table, cols: seq<Element>, namer: SubcolumnNamer)
    returns (r: Result<Table, LoadError>)
    requires namer.Valid()
    modifies namer
    ensures namer.Valid()
    ensures r == StoreGroup(columns, cols, namer.scheme, old(namer.issued))
    ensures r.Ok? ==> namer.issued == old(namer.issued) + |Subcolumns(cols)|
  {
    ghost var start := namer.issued;
    ghost var scheme := namer.scheme;
    var stored := columns;
    var i := 0;
    while i < |cols|
      invariant 0 <= i <= |cols|
      invariant namer.Valid()
      invariant AllTitled(cols[..i]) && namer.issued == start + |Subcolumns(cols[..i])|
      invariant StoreGroup(columns, cols[..i], scheme, start) == Ok(stored)
    {
      ghost var before, at := stored, namer.issued;
      var next := StoreTitledColumn(stored, cols[i], namer);
      if next.Err? {
        UntitledColumnFails(columns, cols, i, scheme, start);
        return Err(MissingTitle);
      }
      stored := next.value;
      GroupStep(columns, cols, i, before, stored, scheme, start, at);
      i := i + 1;
    }
    assert cols[..i] == cols;
    return Ok(stored);
  }

  /** One pass of the outer loop: the column's `Title` text, then its subcolumns stored
      under that title; a column without a `Title` fails and stores nothing. */
  method StoreTitledColumn(columns: Table, col: Element, namer: SubcolumnNamer)
    returns (r: Result<Table, LoadError>)
    requires namer.Valid()
    modifies namer
    ensures namer.Valid()
    ensures r.Err? <==> !HasTitle(col)
    ensures r.Err? ==> r.error == MissingTitle
    ensures r.Ok? ==> && r.value == AssignAll(columns, Entries(SubcolumnsOf(col), namer.scheme, old(namer.issued)))
                      && namer.issued == old(namer.issued) + |SubcolumnsOf(col)|
  {
    var title := FindFirst(col, "Title");
    if title.None? {
      return Err(MissingTitle);
    }
    var name := GetAllText(title.value);
    var subs := FindAll(col, "Subcolumn");
    assert SubcolumnsOf(col) == Paired(name, subs);
    var stored := StoreColumn(columns, name, subs, namer);
    return Ok(stored);
  }

  /** One more subcolumn stored under `title_<discriminator number start + j>`. */
  lemma ColumnStep(columns: Table, title: string, subs: seq<Element>, j: nat, scheme: Scheme, start: nat)
    requires j < |subs| && WellFormed(scheme)
    ensures AssignAll(columns, Entries(Paired(title, subs[..j + 1]), scheme, start))
            == AssignAll(columns, Entries(Paired(title, subs[..j]), scheme, start))
                 [title + "_" + NameAt(scheme, start + j) := SubcolumnValues(subs[j])]
  {
    var ps := Paired(title, subs[..j]);
    assert Paired(title, subs[..j + 1]) == ps + [(title, subs[j])];
    EntriesSnoc(ps, (title, subs[j]), scheme, start);
    AssignAllSnoc(columns, Entries(ps, scheme, start),
                  (title + "_" + NameAt(scheme, start + j), SubcolumnValues(subs[j])));
  }

  /** The inner loop of `_parse_xy_table`: the subcolumns of one column, each stored
      under `title_<next discriminator>`, a repeated key overwriting the earlier value. */
  method StoreColumn(columns: Table, title: string, subs: seq<Element>, namer: SubcolumnNamer)
    returns (stored: Table)
    requires namer.Valid()
    modifies namer
    ensures namer.Valid() && namer.issued == old(namer.issued) + |subs|
    ensures stored == AssignAll(columns, Entries(Paired(title, subs), namer.scheme, old(namer.issued)))
  {
    ghost var start := namer.issued;
    stored := columns;
    var j := 0;
    while j < |subs|
      invariant 0 <= j <= |subs|
      invariant namer.Valid() && namer.issued == start + j
      invariant stored == AssignAll(columns, Entries(Paired(title, subs[..j]), namer.scheme, start))
    {
      var d := namer.Next();
      ColumnStep(columns, title, subs, j, namer.scheme, start);
      stored := stored[title + "_" + d := SubcolumnValues(subs[j])];
      j := j + 1;
    }
    assert subs[..j] == subs;
  }

  /** The padding loop of `_parse_xy_table`: every column shorter than `n` is replaced
      by its padded copy. */
  method PadColumns(columns: Table, n: nat) returns (padded: Table)
    ensures padded == PadAll(columns, n)
  {
    padded := columns;
    var remaining := columns.Keys;
    while remaining != {}
      invariant remaining <= columns.Keys
      invariant padded.Keys == columns.Keys
      invariant forall k :: k in padded ==>
                  padded[k] == if k in remaining then columns[k] else Pad(columns[k], n)
      decreases remaining
    {
      var k :| k in remaining;
      if |padded[k]| < n {
        padded := padded[k := padded[k] + seq(n - |padded[k]|, _ => Missing)];
      }
      remaining := remaining - {k};
    }
  }

  /** `_parse_xy_table`. */
  method ParseXYTable(table: Element) returns (r: Result<Table, LoadError>)
    ensures r == XYTable(table)
  {
    if "XFormat" !in table.attrib {
      return Err(MissingAttribute("XFormat"));
    }
    if "YFormat" !in table.attrib {
      return Err(MissingAttribute("YFormat"));
    }
    if "EVFormat" !in table.attrib {
      return Err(MissingAttribute("EVFormat"));
    }
    var yformat := table.attrib["YFormat"];
    var xnames := new SubcolumnNamer(Counter);
    var ynames := new SubcolumnNamer(YScheme(yformat));
    var columns: Table := map[];
    var stored := StoreSubcolumns(columns, XGroup(table), xnames);
    if stored.Err? {
      return Err(stored.error);
    }
    stored := StoreSubcolumns(stored.value, YGroup(table), ynames);
    if stored.Err? {
      return Err(stored.error);
    }
    columns := stored.value;
    if |columns| == 0 {
      return Err(NoColumns);
    }
    var maxlength := MaxLen(columns);
    columns := PadColumns(columns, maxlength);
    return Ok(columns);
  }
}
