/**
  `_parse_table_to_dataframe` and `read_pzfx`: checking the document root, dispatching
  each `Table` on its `TableType`, and collecting the tables under their titles.
 */
module Pzfx {
  import opened Wrappers
  import opened Xml
  import opened Dicts
  import opened Errors
  import opened XyTable

  /** All columns of a table have the same length. */
  predicate Rectangular(t: Table) {
    forall k, k' :: k in t && k' in t ==> |t[k]| == |t[k']|
  }

  /** `_parse_table_to_dataframe`: `ID` and `TableType` must be present; XY and TwoWay
      tables are parsed, every other type is refused. */
  function ParseTable(table: Element): (r: Result<Table, LoadError>)
    ensures "ID" !in table.attrib ==> r == Err(MissingAttribute("ID"))
    ensures "ID" in table.attrib && "TableType" !in table.attrib ==> r == Err(MissingAttribute("TableType"))
    ensures ("ID" in table.attrib && "TableType" in table.attrib &&
             table.attrib["TableType"] != "XY" && table.attrib["TableType"] != "TwoWay")
            ==> r == Err(UnsupportedTableType(table.attrib["TableType"]))
    ensures r.Err? && r.error.UnsupportedTableType? ==>
              "TableType" in table.attrib && table.attrib["TableType"] !in {"XY", "TwoWay"}
    ensures "ID" in table.attrib && "TableType" in table.attrib && table.attrib["TableType"] in {"XY", "TwoWay"}
            ==> r == XYTable(table)
    ensures r.Ok? ==> "TableType" in table.attrib && table.attrib["TableType"] in {"XY", "TwoWay"}
    ensures r.Ok? ==> |r.value| > 0 && Rectangular(r.value)
  {
    if "ID" !in table.attrib then Err(MissingAttribute("ID"))
    else if "TableType" !in table.attrib then Err(MissingAttribute("TableType"))
    else
      var tableType := table.attrib["TableType"];
      if tableType == "XY" || tableType == "TwoWay" then XYTable(table)
      else Err(UnsupportedTableType(tableType))
  }

  /** One item of the comprehension in `read_pzfx`: the table's title (evaluated first)
      and its parsed table. */
  function TableEntry(table: Element): (r: Result<(string, Table), LoadError>)
    ensures r.Ok? <==> HasTitle(table) && ParseTable(table).Ok?
    ensures !HasTitle(table) ==> r == Err(MissingTitle)
    ensures r.Ok? ==> r.value == (TitleOf(table), ParseTable(table).value)
  {
    if !HasTitle(table) then Err(MissingTitle)
    else match ParseTable(table)
      case Err(e) => Err(e)
      case Ok(df) => Ok((TitleOf(table), df))
  }

  /** Evaluating the items of a comprehension in order: the first failing item aborts
      the whole evaluation with its error. */
  function Collect<T>(rs: seq<Result<T, LoadError>>): (r: Result<seq<T>, LoadError>)
    ensures r.Ok? <==> forall i :: 0 <= i < |rs| ==> rs[i].Ok?
    ensures r.Ok? ==> |r.value| == |rs| && forall i :: 0 <= i < |rs| ==> r.value[i] == rs[i].value
    ensures r.Err? ==> exists i :: 0 <= i < |rs| && rs[i] == Err(r.error) && forall j :: 0 <= j < i ==> rs[j].Ok?
  {
    if rs == [] then Ok([])
    else match rs[0]
      case Err(e) => Err(e)
      case Ok(x) =>
        match Collect(rs[1..])
        case Err(e) =>
          assert forall i :: 0 <= i < |rs[1..]| && rs[1..][i] == Err(e) ==> rs[i + 1] == Err(e);
          Err(e)
        case Ok(xs) => Ok([x] + xs)
  }

  /** The items of the comprehension, one per `Table` child of the root. */
  function TableEntries(tables: seq<Element>): (rs: seq<Result<(string, Table), LoadError>>)
    ensures |rs| == |tables| && forall i :: 0 <= i < |tables| ==> rs[i] == TableEntry(tables[i])
  {
    seq(|tables|, i requires 0 <= i < |tables| => TableEntry(tables[i]))
  }

  /** `read_pzfx` on an already parsed document root: the root must be a
      GraphPadPrismFile of XML version 5.00; the result maps each `Table` child's
      title to its parsed table. */
  function ReadPzfx(root: Element): (r: Result<map<string, Table>, LoadError>)
    ensures root.tag != "GraphPadPrismFile" ==> r == Err(NotPrismFile)
    ensures root.tag == "GraphPadPrismFile" && "PrismXMLVersion" !in root.attrib ==>
              r == Err(MissingAttribute("PrismXMLVersion"))
    ensures (root.tag == "GraphPadPrismFile" && "PrismXMLVersion" in root.attrib &&
             root.attrib["PrismXMLVersion"] != "5.00") ==> r == Err(UnsupportedVersion)
    ensures r.Ok? ==> (root.tag == "GraphPadPrismFile" && "PrismXMLVersion" in root.attrib &&
                       root.attrib["PrismXMLVersion"] == "5.00")
    ensures r.Ok? ==> forall title :: title in r.value ==> |r.value[title]| > 0 && Rectangular(r.value[title])
  {
    if root.tag != "GraphPadPrismFile" then Err(NotPrismFile)
    else if "PrismXMLVersion" !in root.attrib then Err(MissingAttribute("PrismXMLVersion"))
    else if root.attrib["PrismXMLVersion"] != "5.00" then Err(UnsupportedVersion)
    else match Collect(TableEntries(FindAll(root, "Table")))
      case Err(e) => Err(e)
      case Ok(es) =>
        AssignAllValues(es, (t: Table) => |t| > 0 && Rectangular(t));
        Ok(AssignAll(map[], es))
  }

  /** Every value assigned from entries that all satisfy `p` satisfies `p`. */
  lemma {:induction false} AssignAllValues<V>(es: seq<(string, V)>, p: V -> bool)
    requires forall i :: 0 <= i < |es| ==> p(es[i].1)
    ensures forall k :: k in AssignAll(map[], es) ==> p(AssignAll(map[], es)[k])
    decreases |es|
  {
    if es != [] {
      AssignAllValues(es[..|es| - 1], p);
    }
  }

  /** The keys of a successful in-order evaluation are the given names of its items. */
  lemma CollectKeys<T>(rs: seq<Result<(string, T), LoadError>>, names: seq<string>)
    requires Collect(rs).Ok? && |names| == |rs|
    requires forall i :: 0 <= i < |rs| ==> rs[i].Ok? && rs[i].value.0 == names[i]
    ensures AssignAll(map[], Collect(rs).value).Keys == set n | n in names
  {
    var es := Collect(rs).value;
    AssignAllKeys(map[], es);
    forall k | k in KeysOf(es)
      ensures k in names
    {
      var i :| 0 <= i < |es| && es[i].0 == k;
      assert names[i] == k;
    }
    forall k | k in names
      ensures k in KeysOf(es)
    {
      var i :| 0 <= i < |names| && names[i] == k;
      assert es[i].0 == k;
    }
  }

  /** The titles of the tables, in document order. */
  function Titles(tables: seq<Element>): (ts: seq<string>)
    requires forall i :: 0 <= i < |tables| ==> HasTitle(tables[i])
    ensures |ts| == |tables| && forall i :: 0 <= i < |tables| ==> ts[i] == TitleOf(tables[i])
  {
    seq(|tables|, i requires 0 <= i < |tables| => TitleOf(tables[i]))
  }

  /** A loaded document has one entry per distinct `Table` title, and every table in it
      has a title. */
  lemma ReadPzfxTitles(root: Element)
    requires ReadPzfx(root).Ok?
    ensures forall i :: 0 <= i < |FindAll(root, "Table")| ==> HasTitle(FindAll(root, "Table")[i])
    ensures ReadPzfx(root).value.Keys == set t | t in Titles(FindAll(root, "Table"))
  {
    var tables := FindAll(root, "Table");
    var rs := TableEntries(tables);
    assert Collect(rs).Ok?;
    var names := Titles(tables);
    forall i | 0 <= i < |tables|
      ensures HasTitle(tables[i]) && rs[i].Ok? && rs[i].value.0 == names[i]
    {
      assert rs[i] == TableEntry(tables[i]);
    }
    CollectKeys(rs, names);
  }

  /** Of several tables sharing a title, the last one in the document is kept. */
  lemma ReadPzfxLastTableWins(root: Element, i: nat)
    requires ReadPzfx(root).Ok?
    requires i < |FindAll(root, "Table")|
    requires HasTitle(FindAll(root, "Table")[i])
    requires forall j :: i < j < |FindAll(root, "Table")| ==>
               !HasTitle(FindAll(root, "Table")[j]) ||
               TitleOf(FindAll(root, "Table")[j]) != TitleOf(FindAll(root, "Table")[i])
    ensures TitleOf(FindAll(root, "Table")[i]) in ReadPzfx(root).value
    ensures ParseTable(FindAll(root, "Table")[i]).Ok?
    ensures ReadPzfx(root).value[TitleOf(FindAll(root, "Table")[i])] == ParseTable(FindAll(root, "Table")[i]).value
  {
    var tables := FindAll(root, "Table");
    var es := Collect(TableEntries(tables)).value;
    AssignAllLastWins(map[], es, i);
  }

  /** Loading a well-formed document fails exactly when some table fails, and then with
      the error of the first table (in document order) that fails: a missing title or a
      refused table type aborts the whole load. */
  lemma ReadPzfxFirstBadTable(root: Element)
    requires root.tag == "GraphPadPrismFile" && "PrismXMLVersion" in root.attrib
    requires root.attrib["PrismXMLVersion"] == "5.00"
    ensures ReadPzfx(root).Ok? <==>
              forall i :: 0 <= i < |FindAll(root, "Table")| ==> TableEntry(FindAll(root, "Table")[i]).Ok?
    ensures ReadPzfx(root).Err? ==>
              exists i :: && 0 <= i < |FindAll(root, "Table")|
                          && TableEntry(FindAll(root, "Table")[i]) == Err(ReadPzfx(root).error)
                          && forall j :: 0 <= j < i ==> TableEntry(FindAll(root, "Table")[j]).Ok?
  {
    var tables := FindAll(root, "Table");
    var rs := TableEntries(tables);
    var c := Collect(rs);
    if c.Err? {
      var i :| 0 <= i < |rs| && rs[i] == Err(c.error) && forall j :: 0 <= j < i ==> rs[j].Ok?;
      assert TableEntry(tables[i]) == Err(ReadPzfx(root).error);
    }
  }
}
