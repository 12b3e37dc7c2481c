/** A worked XY table: one X column and one Y column in SEN format. */
module Examples {
  import opened Wrappers
  import opened Xml
  import opened Naming
  import opened Dicts
  import opened Errors
  import opened XyTable

  function Point(v: string): Element {
    Element("d", map[], Some(v), [])
  }

  function Title(t: string): Element {
    Element("Title", map[], Some(t), [])
  }

  function Sub(points: seq<Element>): Element {
    Element("Subcolumn", map[], None, points)
  }

  /** X values 1, 2; Y means 10, 20; SEMs 0.1, 0.2; an empty N subcolumn. */
  function SenTable(): Element {
    Element("Table",
      map["ID" := "Table0", "TableType" := "XY", "XFormat" := "none", "YFormat" := "SEN", "EVFormat" := "AsteriskAfterNumber"],
      None,
      [Title("Data 1"), XCol(), YCol()])
  }

  function XCol(): Element {
    Element("XColumn", map[], None, [Title("X"), XSub()])
  }

  function YCol(): Element {
    Element("YColumn", map[], None, [Title("Y"), MeanSub(), SemSub(), Sub([])])
  }

  /** A run of subcolumns keyed under one title. */
  lemma SubcolumnsOfOne(col: Element)
    requires HasTitle(col)
    ensures Subcolumns([col]) == SubcolumnsOf(col)
  {
    assert [col][..0] == [];
  }

  /** `findall` over one more child. */
  lemma FilterSnoc(cs: seq<Element>, c: Element, tag: string)
    ensures Filter(cs + [c], tag) == Filter(cs, tag) + (if c.tag == tag then [c] else [])
  {
    assert (cs + [c])[..|cs|] == cs;
  }

  lemma TwoValues(a: string, b: string)
    ensures SubcolumnValues(Sub([Point(a), Point(b)])) == [Num(a), Num(b)]
  {
    FilterTwo(Point(a), Point(b), "d");
    PointText(a);
    PointText(b);
  }

  lemma PointText(v: string)
    ensures AllText(Point(v)) == v
  {
    assert AllText(Point(v)) == v + AllTextOf([]);
  }

  lemma TitleText(col: Element, t: string, rest: seq<Element>)
    requires col.children == [Title(t)] + rest
    ensures HasTitle(col) && TitleOf(col) == t
  {
    assert FindFirst(col, "Title") == Some(Title(t));
    assert AllText(Title(t)) == t + AllTextOf([]);
  }

  function Keep(c: Element, tag: string): seq<Element> {
    if c.tag == tag then [c] else []
  }

  lemma FilterOne(a: Element, tag: string)
    ensures Filter([a], tag) == Keep(a, tag)
  {
    FilterSnoc([], a, tag);
    assert [] + [a] == [a];
  }

  lemma FilterTwo(a: Element, b: Element, tag: string)
    ensures Filter([a, b], tag) == Keep(a, tag) + Keep(b, tag)
  {
    FilterSnoc([a], b, tag);
    assert [a] + [b] == [a, b];
    FilterOne(a, tag);
  }

  /** `findall` over three children, one tag at a time. */
  lemma FilterThree(a: Element, b: Element, c: Element, tag: string)
    ensures Filter([a, b, c], tag) == Keep(a, tag) + Keep(b, tag) + Keep(c, tag)
  {
    FilterSnoc([a, b], c, tag);
    assert [a, b] + [c] == [a, b, c];
    FilterTwo(a, b, tag);
  }

  lemma SenGroups()
    ensures XGroup(SenTable()) == [XCol()] && YGroup(SenTable()) == [YCol()]
  {
    var cs := SenTable().children;
    assert cs == [Title("Data 1"), XCol(), YCol()];
    FilterThree(cs[0], cs[1], cs[2], "XColumn");
    FilterThree(cs[0], cs[1], cs[2], "XAdvancedColumn");
    FilterThree(cs[0], cs[1], cs[2], "YColumn");
    FilterThree(cs[0], cs[1], cs[2], "YAdvancedColumn");
  }

  function XSub(): Element { Sub([Point("1"), Point("2")]) }

  lemma XColTitle()
    ensures HasTitle(XCol()) && TitleOf(XCol()) == "X"
  {
    TitleText(XCol(), "X", [XSub()]);
  }

  lemma XColSubs()
    ensures FindAll(XCol(), "Subcolumn") == [XSub()]
  {
    var xs := XCol().children;
    FilterTwo(xs[0], xs[1], "Subcolumn");
  }

  lemma XSubsPaired()
    ensures HasTitle(XCol()) && SubcolumnsOf(XCol()) == [("X", XSub())]
  {
    XColTitle();
    XColSubs();
  }

  lemma XSubValues()
    ensures SubcolumnValues(XSub()) == [Num("1"), Num("2")]
  {
    TwoValues("1", "2");
  }

  lemma ZeroName()
    ensures NameAt(Counter, 0) == "0"
  {
  }

  /** The entry list for a single subcolumn. */
  lemma EntriesOne(t: string, sub: Element, scheme: Scheme, start: nat)
    requires WellFormed(scheme)
    ensures Entries([(t, sub)], scheme, start) == [(t + "_" + NameAt(scheme, start), SubcolumnValues(sub))]
  {
  }

  lemma XEntriesOfSen()
    ensures AllTitled([XCol()])
    ensures Entries(Subcolumns([XCol()]), Counter, 0) == [("X_0", [Num("1"), Num("2")])]
  {
    XSubsPaired();
    SubcolumnsOfOne(XCol());
    assert Subcolumns([XCol()]) == [("X", XSub())];
    EntriesOne("X", XSub(), Counter, 0);
    XSubValues();
    ZeroName();
    assert "X" + "_" + NameAt(Counter, 0) == "X_0";
  }

  function MeanSub(): Element { Sub([Point("10"), Point("20")]) }
  function SemSub(): Element { Sub([Point("0.1"), Point("0.2")]) }

  lemma YColTitle()
    ensures HasTitle(YCol()) && TitleOf(YCol()) == "Y"
  {
    TitleText(YCol(), "Y", [MeanSub(), SemSub(), Sub([])]);
  }

  lemma YColSubs()
    ensures FindAll(YCol(), "Subcolumn") == [MeanSub(), SemSub(), Sub([])]
  {
    var ys := YCol().children;
    FilterThree(ys[0], ys[1], ys[2], "Subcolumn");
    FilterSnoc([ys[0], ys[1], ys[2]], ys[3], "Subcolumn");
    assert [ys[0], ys[1], ys[2]] + [ys[3]] == ys;
  }

  lemma YSubsPaired()
    ensures HasTitle(YCol())
    ensures SubcolumnsOf(YCol()) == [("Y", MeanSub()), ("Y", SemSub()), ("Y", Sub([]))]
  {
    YColTitle();
    YColSubs();
  }

  /** The entry list for three subcolumns of one column. */
  lemma EntriesThree(t: string, a: Element, b: Element, c: Element, scheme: Scheme)
    requires WellFormed(scheme)
    ensures Entries([(t, a), (t, b), (t, c)], scheme, 0)
            == [(t + "_" + NameAt(scheme, 0), SubcolumnValues(a)),
                (t + "_" + NameAt(scheme, 1), SubcolumnValues(b)),
                (t + "_" + NameAt(scheme, 2), SubcolumnValues(c))]
  {
  }

  lemma YEntriesOfSen()
    ensures AllTitled([YCol()])
    ensures Entries(Subcolumns([YCol()]), YScheme("SEN"), 0)
            == [("Y_Mean", [Num("10"), Num("20")]), ("Y_SEM", [Num("0.1"), Num("0.2")]), ("Y_N", [])]
  {
    YSubcolumns();
    EntriesThree("Y", MeanSub(), SemSub(), Sub([]), YScheme("SEN"));
    YKeys();
    YValues();
  }

  lemma YSubcolumns()
    ensures AllTitled([YCol()])
    ensures Subcolumns([YCol()]) == [("Y", MeanSub()), ("Y", SemSub()), ("Y", Sub([]))]
  {
    YSubsPaired();
    SubcolumnsOfOne(YCol());
  }

  lemma YKeys()
    ensures "Y" + "_" + NameAt(YScheme("SEN"), 0) == "Y_Mean"
    ensures "Y" + "_" + NameAt(YScheme("SEN"), 1) == "Y_SEM"
    ensures "Y" + "_" + NameAt(YScheme("SEN"), 2) == "Y_N"
  {
    SenNames();
  }

  lemma YValues()
    ensures SubcolumnValues(MeanSub()) == [Num("10"), Num("20")]
    ensures SubcolumnValues(SemSub()) == [Num("0.1"), Num("0.2")]
    ensures SubcolumnValues(Sub([])) == []
  {
    TwoValues("10", "20");
    TwoValues("0.1", "0.2");
  }

  lemma SenNames()
    ensures NameAt(YScheme("SEN"), 0) == "Mean" && NameAt(YScheme("SEN"), 1) == "SEM"
    ensures NameAt(YScheme("SEN"), 2) == "N"
  {
  }

  /** The entries of the X loop, then those of the Y loop. */
  function SenEntries(): seq<(string, seq<Value>)> {
    XSen() + YSen()
  }

  function XSen(): seq<(string, seq<Value>)> {
    [("X_0", [Num("1"), Num("2")])]
  }

  function YSen(): seq<(string, seq<Value>)> {
    [("Y_Mean", [Num("10"), Num("20")]), ("Y_SEM", [Num("0.1"), Num("0.2")]), ("Y_N", [])]
  }

  /** The dictionary the two loops build for the SEN table, before padding. */
  function SenColumns(): Table {
    map["X_0" := [Num("1"), Num("2")], "Y_Mean" := [Num("10"), Num("20")],
        "Y_SEM" := [Num("0.1"), Num("0.2")], "Y_N" := []]
  }

  lemma SenAllEntries()
    ensures "YFormat" in SenTable().attrib
    ensures AllTitled(XGroup(SenTable())) && AllTitled(YGroup(SenTable()))
    ensures AllEntries(SenTable()) == SenEntries()
  {
    SenX();
    SenY();
    AllEntriesOf(SenTable());
  }

  lemma AllEntriesOf(t: Element)
    requires "YFormat" in t.attrib && AllTitled(XGroup(t)) && AllTitled(YGroup(t))
    requires XEntries(t) == XSen() && YEntries(t) == YSen()
    ensures AllEntries(t) == SenEntries()
  {
  }

  lemma SenX()
    ensures AllTitled(XGroup(SenTable()))
    ensures XEntries(SenTable()) == [("X_0", [Num("1"), Num("2")])]
  {
    SenGroups();
    XEntriesOfSen();
  }

  lemma SenY()
    ensures "YFormat" in SenTable().attrib && SenTable().attrib["YFormat"] == "SEN"
    ensures AllTitled(YGroup(SenTable()))
    ensures YEntries(SenTable())
            == [("Y_Mean", [Num("10"), Num("20")]), ("Y_SEM", [Num("0.1"), Num("0.2")]), ("Y_N", [])]
  {
    SenAttr();
    SenGroups();
    SenYOf(SenTable());
  }

  lemma SenYOf(t: Element)
    requires "YFormat" in t.attrib && t.attrib["YFormat"] == "SEN" && YGroup(t) == [YCol()]
    ensures AllTitled(YGroup(t))
    ensures YEntries(t)
            == [("Y_Mean", [Num("10"), Num("20")]), ("Y_SEM", [Num("0.1"), Num("0.2")]), ("Y_N", [])]
  {
    YEntriesOfSen();
  }

  lemma SenAttr()
    ensures "YFormat" in SenTable().attrib && SenTable().attrib["YFormat"] == "SEN"
  {
  }

  lemma SenAssignments()
    ensures AssignAll(map[], SenEntries()) == SenColumns()
  {
    var es := SenEntries();
    assert es == [] + [es[0]] + [es[1]] + [es[2]] + [es[3]];
    AssignAllSnoc(map[], [], es[0]);
    AssignAllSnoc(map[], [es[0]], es[1]);
    AssignAllSnoc(map[], [es[0], es[1]], es[2]);
    AssignAllSnoc(map[], [es[0], es[1], es[2]], es[3]);
  }

  /** The SEN table's subcolumns land under `X_0`, `Y_Mean`, `Y_SEM` and `Y_N`. */
  lemma SenTableColumns()
    ensures Columns(SenTable()) == Ok(SenColumns())
  {
    SenAllEntries();
    ColumnsAreAssignments(SenTable());
    SenAssignments();
  }

  /** The SEN table as `read_pzfx` returns it: the empty N subcolumn padded to the
      common length of two with missing markers. */
  function SenPadded(): Table {
    map["X_0" := [Num("1"), Num("2")], "Y_Mean" := [Num("10"), Num("20")],
        "Y_SEM" := [Num("0.1"), Num("0.2")], "Y_N" := [Missing, Missing]]
  }

  lemma SenMaxLen(n: nat)
    requires IsMaxLen(SenColumns(), n)
    ensures n == 2
  {
    var m := SenColumns();
    assert "X_0" in m && |m["X_0"]| == 2;
  }

  lemma PaddedSen(r: Table)
    requires PaddedFrom(r, SenColumns())
    ensures r == SenPadded()
  {
    var m := SenColumns();
    var n :| IsMaxLen(m, n) && forall k :: k in r ==> |r[k]| == n;
    SenMaxLen(n);
    assert r.Keys == SenPadded().Keys;
    forall k | k in r
      ensures r[k] == SenPadded()[k]
    {
      assert r[k][..|m[k]|] == m[k];
      if k == "Y_N" {
        assert r[k][0] == Missing && r[k][1] == Missing;
      } else {
        assert r[k] == r[k][..|m[k]|];
      }
    }
  }

  /** End to end: the SEN table parses to four columns of length two. */
  lemma SenTableParsed()
    ensures XYTable(SenTable()) == Ok(SenPadded())
  {
    SenTableColumns();
    SenFormats();
    ParsedOf(SenTable());
  }

  lemma SenFormats()
    ensures "XFormat" in SenTable().attrib && "YFormat" in SenTable().attrib && "EVFormat" in SenTable().attrib
  {
  }

  lemma ParsedOf(t: Element)
    requires "XFormat" in t.attrib && "YFormat" in t.attrib && "EVFormat" in t.attrib
    requires Columns(t) == Ok(SenColumns())
    ensures XYTable(t) == Ok(SenPadded())
  {
    assert |SenColumns()| > 0 by {
      assert "X_0" in SenColumns();
    }
    var r := XYTable(t);
    assert r.Ok?;
    PaddedSen(r.value);
  }
}
