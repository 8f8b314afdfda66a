/** The sales-projection table and chart: records filtered by three
    selectors, per-year totals over the filtered records, summary counts, the
    distinct values offered by each selector and the bar heights of the
    chart. Numbers are exact reals. */
module SalesData {
  import opened Options
  import opened Sequences
  import opened StringOrder

  /** One row of the sales data: customer, product, supply centre and a
      projected value per year (years are the object's string keys). */
  datatype SalesRecord = SalesRecord(kunde: string, produkt: string, supplyCenter: string, data: map<string, real>)

  /** The selector value that matches every record. */
  const All: string := "All"

  const Years: seq<string> := ["2025", "2026", "2027", "2028", "2029", "2030"]

  /** The three selectors of the filter bar. */
  datatype Selection = Selection(kunde: string, produkt: string, supplyCenter: string)

  const NoFilter: Selection := Selection(All, All, All)

  /** The three filter axes, one per selector. */
  datatype Axis = Customer | Product | Center

  function Field(item: SalesRecord, axis: Axis): string
  {
    match axis
    case Customer => item.kunde
    case Product => item.produkt
    case Center => item.supplyCenter
  }

  function Selected(sel: Selection, axis: Axis): string
  {
    match axis
    case Customer => sel.kunde
    case Product => sel.produkt
    case Center => sel.supplyCenter
  }

  /** `selected === 'All' || value === selected`. */
  predicate SelectorMatches(selected: string, value: string)
  {
    selected == All || value == selected
  }

  /** The filter callback: all three selectors match. */
  predicate Matches(sel: Selection, item: SalesRecord)
  {
    SelectorMatches(sel.kunde, item.kunde) &&
    SelectorMatches(sel.produkt, item.produkt) &&
    SelectorMatches(sel.supplyCenter, item.supplyCenter)
  }

  function MatchesSelection(sel: Selection): SalesRecord -> bool
  {
    (item: SalesRecord) => Matches(sel, item)
  }

  /** `filteredData`. */
  function FilteredData(records: seq<SalesRecord>, sel: Selection): seq<SalesRecord>
  {
    Filter(records, MatchesSelection(sel))
  }

  /** A record is shown iff it is in the data and every selector is `All` or
      equal to its field; the shown records keep their order and their
      multiplicity. */
  lemma FilteredDataSpec(records: seq<SalesRecord>, sel: Selection)
    ensures IsSubsequence(FilteredData(records, sel), records)
    ensures forall item :: item in FilteredData(records, sel) <==>
      item in records &&
      (forall axis :: Selected(sel, axis) == All || Field(item, axis) == Selected(sel, axis))
    ensures forall item :: Matches(sel, item) ==>
      multiset(FilteredData(records, sel))[item] == multiset(records)[item]
  {
    var keep := MatchesSelection(sel);
    FilterIsSubsequence(records, keep);
    forall item ensures item in FilteredData(records, sel) <==>
      item in records && (forall axis :: Selected(sel, axis) == All || Field(item, axis) == Selected(sel, axis))
    {
      FilterMembership(records, keep, item);
      MatchesByAxis(sel, item);
    }
    forall item | Matches(sel, item)
      ensures multiset(FilteredData(records, sel))[item] == multiset(records)[item]
    {
      FilterMultiplicity(records, keep, item);
    }
  }

  /** The filter callback read axis by axis. */
  lemma MatchesByAxis(sel: Selection, item: SalesRecord)
    ensures Matches(sel, item) <==> forall axis :: Selected(sel, axis) == All || Field(item, axis) == Selected(sel, axis)
  {
    if !Matches(sel, item) {
      if !SelectorMatches(sel.kunde, item.kunde) {
        assert !(Selected(sel, Customer) == All || Field(item, Customer) == Selected(sel, Customer));
      } else if !SelectorMatches(sel.produkt, item.produkt) {
        assert !(Selected(sel, Product) == All || Field(item, Product) == Selected(sel, Product));
      } else {
        assert !(Selected(sel, Center) == All || Field(item, Center) == Selected(sel, Center));
      }
    }
  }

  /** With every selector at `All` the whole data is shown. */
  lemma NoFilterShowsAll(records: seq<SalesRecord>)
    ensures FilteredData(records, NoFilter) == records
  {
    FilterKeepsAll(records, MatchesSelection(NoFilter));
  }

  /** The no-data message appears iff no record matches the selectors. */
  lemma NoDataMessage(records: seq<SalesRecord>, sel: Selection)
    ensures |FilteredData(records, sel)| == 0 <==> forall i :: 0 <= i < |records| ==> !Matches(sel, records[i])
  {
    FilterEmpty(records, MatchesSelection(sel));
  }

  /** The totals row appears (`filteredData.length > 1`) iff two different
      records match the selectors. */
  lemma TotalsRowShown(records: seq<SalesRecord>, sel: Selection)
    ensures |FilteredData(records, sel)| > 1 <==>
      exists i, j :: 0 <= i < j < |records| && Matches(sel, records[i]) && Matches(sel, records[j])
  {
    FilterAtLeastTwo(records, MatchesSelection(sel));
  }

  /** `records.map(item => item.<field>)`. */
  function FieldValues(records: seq<SalesRecord>, axis: Axis): (r: seq<string>)
    ensures |r| == |records|
    ensures forall i :: 0 <= i < |records| ==> r[i] == Field(records[i], axis)
  {
    if records == [] then [] else [Field(records[0], axis)] + FieldValues(records[1..], axis)
  }

  /** `uniqueKunden`, `uniqueProdukte`, `uniqueSupplyCenters`:
      `Array.from(new Set(records.map(...))).sort()`. */
  function UniqueValues(records: seq<SalesRecord>, axis: Axis): seq<string>
  {
    SortDistinct(FieldValues(records, axis))
  }

  /** Each selector offers the values of its field, each once, strictly
      sorted, and no other value. */
  lemma UniqueValuesSpec(records: seq<SalesRecord>, axis: Axis)
    ensures StrictlySorted(UniqueValues(records, axis))
    ensures forall i, j :: 0 <= i < j < |UniqueValues(records, axis)| ==>
      UniqueValues(records, axis)[i] != UniqueValues(records, axis)[j]
    ensures forall v :: v in UniqueValues(records, axis) <==>
      exists i :: 0 <= i < |records| && Field(records[i], axis) == v
  {
    var values := FieldValues(records, axis);
    SortDistinctSpec(values);
    forall v ensures v in UniqueValues(records, axis) <==> exists i :: 0 <= i < |records| && Field(records[i], axis) == v {
      if v in values {
        var i :| 0 <= i < |values| && values[i] == v;
        assert Field(records[i], axis) == v;
      }
    }
  }

  /** `item.data[year] || 0`: a missing year counts as 0. */
  function Cell(item: SalesRecord, year: string): real
  {
    if year in item.data then item.data[year] else 0.0
  }

  /** `records.reduce((sum, item) => sum + (item.data[year] || 0), 0)`. */
  function SumYear(records: seq<SalesRecord>, year: string): real
  {
    if records == [] then 0.0 else SumYear(records[..|records| - 1], year) + Cell(records[|records| - 1], year)
  }

  lemma {:induction false} SumYearAppend(a: seq<SalesRecord>, b: seq<SalesRecord>, year: string)
    ensures SumYear(a + b, year) == SumYear(a, year) + SumYear(b, year)
  {
    if b == [] {
      assert a + b == a;
    } else {
      var b' := b[..|b| - 1];
      assert (a + b)[..|a + b| - 1] == a + b';
      SumYearAppend(a, b', year);
    }
  }

  /** The value a record adds to a year's total under a selection. */
  function MaskedCell(sel: Selection, item: SalesRecord, year: string): real
  {
    if Matches(sel, item) then Cell(item, year) else 0.0
  }

  /** The total over all records of the values the selection keeps. */
  function MaskedSum(records: seq<SalesRecord>, sel: Selection, year: string): real
  {
    if records == [] then 0.0
    else MaskedSum(records[..|records| - 1], sel, year) + MaskedCell(sel, records[|records| - 1], year)
  }

  /** A year's total over the shown records is the total over all records
      with every non-matching record counted as 0. */
  lemma {:induction false} SumOfFiltered(records: seq<SalesRecord>, sel: Selection, year: string)
    ensures SumYear(FilteredData(records, sel), year) == MaskedSum(records, sel, year)
  {
    if records != [] {
      var init := records[..|records| - 1];
      var last := records[|records| - 1];
      assert records == init + [last];
      FilterAppend(init, [last], MatchesSelection(sel));
      SumOfFiltered(init, sel, year);
      SumYearAppend(FilteredData(init, sel), Filter([last], MatchesSelection(sel)), year);
      if Matches(sel, last) {
        assert Filter([last], MatchesSelection(sel)) == [last];
        assert SumYear([last], year) == Cell(last, year) by {
          assert [last][..0] == [];
        }
      } else {
        assert Filter([last], MatchesSelection(sel)) == [];
      }
    }
  }

  /** With no filter, the totals are the totals of the whole data. */
  lemma {:induction false} MaskedSumNoFilter(records: seq<SalesRecord>, year: string)
    ensures MaskedSum(records, NoFilter, year) == SumYear(records, year)
  {
    if records != [] {
      MaskedSumNoFilter(records[..|records| - 1], year);
    }
  }

  /** With non-negative values, the total of a year under any selection is at
      most the total of the whole data, and never negative. */
  lemma {:induction false} MaskedSumBounds(records: seq<SalesRecord>, sel: Selection, year: string)
    requires forall i :: 0 <= i < |records| ==> Cell(records[i], year) >= 0.0
    ensures 0.0 <= MaskedSum(records, sel, year) <= SumYear(records, year)
  {
    if records != [] {
      MaskedSumBounds(records[..|records| - 1], sel, year);
    }
  }

  /** `yearlyTotals`: for every year, the total of the shown records. */
  method YearlyTotals(filteredData: seq<SalesRecord>, years: seq<string>) returns (totals: map<string, real>)
    ensures totals.Keys == set y | y in years
    ensures forall y :: y in years ==> totals[y] == SumYear(filteredData, y)
    ensures filteredData == [] ==> forall y :: y in years ==> totals[y] == 0.0
  {
    totals := map[];
    var k := 0;
    while k < |years|
      invariant 0 <= k <= |years|
      invariant totals.Keys == set y | y in years[..k]
      invariant forall y :: y in totals ==> totals[y] == SumYear(filteredData, y)
    {
      totals := totals[years[k] := SumYear(filteredData, years[k])];
      assert years[..k + 1] == years[..k] + [years[k]];
      k := k + 1;
    }
    assert years[..k] == years;
  }

  /** The distinct values of one field among the records. */
  function FieldSet(records: seq<SalesRecord>, axis: Axis): set<string>
  {
    if records == [] then {} else {Field(records[0], axis)} + FieldSet(records[1..], axis)
  }

  lemma {:induction false} FieldSetMembers(records: seq<SalesRecord>, axis: Axis)
    ensures forall v :: v in FieldSet(records, axis) <==> exists i :: 0 <= i < |records| && Field(records[i], axis) == v
  {
    if records != [] {
      FieldSetMembers(records[1..], axis);
      forall v | v in FieldSet(records[1..], axis) ensures exists i :: 0 <= i < |records| && Field(records[i], axis) == v {
        var i :| 0 <= i < |records[1..]| && Field(records[1..][i], axis) == v;
        assert Field(records[i + 1], axis) == v;
      }
      forall v | exists i :: 0 <= i < |records| && Field(records[i], axis) == v
        ensures v in FieldSet(records, axis)
      {
        var i :| 0 <= i < |records| && Field(records[i], axis) == v;
        if i > 0 {
          assert Field(records[1..][i - 1], axis) == v;
        }
      }
    }
  }

  /** The "Customers", "Products" and "Supply Centers" figures:
      `new Set(filteredData.map(...)).size`. */
  function DistinctCount(records: seq<SalesRecord>, axis: Axis): nat
  {
    |FieldSet(records, axis)|
  }

  /** A summary count is at most the number of records and is 0 exactly when
      there are none. */
  lemma {:induction false} DistinctCountBounds(records: seq<SalesRecord>, axis: Axis)
    ensures DistinctCount(records, axis) <= |records|
    ensures DistinctCount(records, axis) == 0 <==> records == []
  {
    if records != [] {
      DistinctCountBounds(records[1..], axis);
      assert Field(records[0], axis) in FieldSet(records, axis);
    }
  }

  /** A summary count is the number of options the selector would offer for
      the shown records. */
  lemma DistinctCountIsOptions(records: seq<SalesRecord>, axis: Axis)
    ensures DistinctCount(records, axis) == |UniqueValues(records, axis)|
  {
    UniqueValuesSpec(records, axis);
    FieldSetMembers(records, axis);
    var u := UniqueValues(records, axis);
    DistinctElementsCount(u);
    forall v ensures v in FieldSet(records, axis) <==> v in set i | 0 <= i < |u| :: u[i] {
      if v in u {
        var i :| 0 <= i < |u| && u[i] == v;
      }
    }
    assert FieldSet(records, axis) == set i | 0 <= i < |u| :: u[i];
  }

  /** A sequence without repetitions has as many elements as its set of
      elements. */
  lemma {:induction false} DistinctElementsCount(u: seq<string>)
    requires forall i, j :: 0 <= i < j < |u| ==> u[i] != u[j]
    ensures |set i | 0 <= i < |u| :: u[i]| == |u|
  {
    if u != [] {
      var init := u[..|u| - 1];
      DistinctElementsCount(init);
      var before := set i | 0 <= i < |init| :: init[i];
      var after := set i | 0 <= i < |u| :: u[i];
      assert u[|u| - 1] !in before;
      assert after == before + {u[|u| - 1]};
    }
  }

  /** Every value of one record: `Object.values(item.data)`. */
  function RecordCells(item: SalesRecord): set<real>
  {
    item.data.Values
  }

  /** `filteredData.flatMap(item => Object.values(item.data))`, as a set. */
  function AllCells(records: seq<SalesRecord>): set<real>
  {
    if records == [] then {} else RecordCells(records[0]) + AllCells(records[1..])
  }

  lemma {:induction false} CellInAllCells(records: seq<SalesRecord>, i: nat, year: string)
    requires i < |records| && year in records[i].data
    ensures records[i].data[year] in AllCells(records)
  {
    if i > 0 {
      CellInAllCells(records[1..], i - 1, year);
    }
  }

  lemma {:induction false} AllCellsFromRecords(records: seq<SalesRecord>, x: real)
    requires x in AllCells(records)
    ensures exists i, year :: 0 <= i < |records| && year in records[i].data && records[i].data[year] == x
  {
    if x in RecordCells(records[0]) {
      var year :| year in records[0].data && records[0].data[year] == x;
      assert 0 < |records| && year in records[0].data && records[0].data[year] == x;
    } else {
      AllCellsFromRecords(records[1..], x);
      var i, year :| 0 <= i < |records[1..]| && year in records[1..][i].data && records[1..][i].data[year] == x;
      assert records[1..][i] == records[i + 1];
    }
  }

  lemma NonEmptyHasElement(s: set<real>)
    requires s != {}
    ensures exists y :: y in s
  {
    if forall y :: y !in s {
      assert false;
    }
  }

  lemma {:induction false} SetHasMax(s: set<real>)
    requires s != {}
    ensures exists m :: m in s && forall x :: x in s ==> x <= m
    decreases |s|
  {
    NonEmptyHasElement(s);
    var y :| y in s;
    var rest := s - {y};
    if rest == {} {
      assert s == {y};
    } else {
      SetHasMax(rest);
      var m :| m in rest && forall x :: x in rest ==> x <= m;
      MaxOfCombination(s, y, rest, m);
    }
  }

  lemma MaxOfCombination(s: set<real>, y: real, rest: set<real>, m: real)
    requires rest == s - {y} && y in s
    requires m in rest && forall x :: x in rest ==> x <= m
    ensures exists top :: top in s && forall x :: x in s ==> x <= top
  {
    var top := if y <= m then m else y;
    forall x | x in s ensures x <= top {
      if x != y {
        assert x in rest;
      }
    }
  }

  /** The largest element of a non-empty finite set of reals. */
  function SetMax(s: set<real>): (m: real)
    requires s != {}
    ensures m in s && forall x :: x in s ==> x <= m
  {
    SetHasMax(s);
    var m :| m in s && forall x :: x in s ==> x <= m;
    m
  }

  /** `getMaxValue`: `Math.max` over every value of every shown record;
      `None` is the `-Infinity` of an empty argument list. */
  function MaxValue(records: seq<SalesRecord>): (r: Option<real>)
    ensures r == None <==> AllCells(records) == {}
    ensures r.Some? ==> r.value in AllCells(records) && forall x :: x in AllCells(records) ==> x <= r.value
  {
    var cells := AllCells(records);
    if cells == {} then None else Some(SetMax(cells))
  }

  /** `(value / maxValue) * 200` for the bar of one record in one year;
      `None` stands for the non-finite results: a missing year (`undefined`)
      or a maximum of 0. */
  function BarHeight(item: SalesRecord, year: string, maxValue: Option<real>): Option<real>
  {
    if year !in item.data || maxValue.None? || maxValue.value == 0.0 then None
    else Some(item.data[year] / maxValue.value * 200.0)
  }

  /** The bars of one year column: one per shown record, in order. */
  function Bars(filteredData: seq<SalesRecord>, year: string): (bars: seq<Option<real>>)
    ensures |bars| == |filteredData|
  {
    var maxValue := MaxValue(filteredData);
    seq(|filteredData|, i requires 0 <= i < |filteredData| => BarHeight(filteredData[i], year, maxValue))
  }

  /** All values of the shown records are non-negative. */
  predicate NonNegative(records: seq<SalesRecord>)
  {
    forall i, year :: 0 <= i < |records| && year in records[i].data ==> records[i].data[year] >= 0.0
  }

  /** With non-negative values every drawn bar is between 0 and 200 pixels
      high. */
  lemma BarHeightsBounded(filteredData: seq<SalesRecord>, year: string)
    requires NonNegative(filteredData)
    ensures forall i :: 0 <= i < |filteredData| && Bars(filteredData, year)[i].Some? ==>
      0.0 <= Bars(filteredData, year)[i].value <= 200.0
  {
    var maxValue := MaxValue(filteredData);
    var bars := Bars(filteredData, year);
    forall i | 0 <= i < |filteredData| && bars[i].Some? ensures 0.0 <= bars[i].value <= 200.0 {
      var v := filteredData[i].data[year];
      CellInAllCells(filteredData, i, year);
      var m := maxValue.value;
      assert 0.0 <= v <= m && m != 0.0;
      assert v / m <= 1.0;
    }
  }

  /** A value equal to the maximum is drawn at the full 200 pixels. */
  lemma MaximumBarIsFull(filteredData: seq<SalesRecord>, year: string, i: nat)
    requires i < |filteredData| && year in filteredData[i].data
    requires MaxValue(filteredData) == Some(filteredData[i].data[year]) && filteredData[i].data[year] != 0.0
    ensures Bars(filteredData, year)[i] == Some(200.0)
  {
    var v := filteredData[i].data[year];
    assert Bars(filteredData, year)[i] == BarHeight(filteredData[i], year, Some(v));
    assert v / v == 1.0;
  }

  /** With non-negative values of which one is positive, every record that
      has the year gets a finite bar. */
  lemma PositiveValueGivesFiniteBars(filteredData: seq<SalesRecord>, year: string, k: nat, y: string)
    requires NonNegative(filteredData)
    requires k < |filteredData| && y in filteredData[k].data && filteredData[k].data[y] > 0.0
    ensures forall i :: 0 <= i < |filteredData| && year in filteredData[i].data ==> Bars(filteredData, year)[i].Some?
  {
    var maxValue := MaxValue(filteredData);
    CellInAllCells(filteredData, k, y);
    assert maxValue.Some? && maxValue.value > 0.0;
    forall i | 0 <= i < |filteredData| && year in filteredData[i].data ensures Bars(filteredData, year)[i].Some? {
      assert Bars(filteredData, year)[i] == BarHeight(filteredData[i], year, maxValue);
    }
  }

  /** No shown record, no bar. */
  lemma NoRecordsNoBars(year: string)
    ensures Bars([], year) == []
  {
  }

  /** `(index * 137.5) % 360`: the hue of the `index`-th shown record, in
      [0, 360) and congruent to `index * 137.5` modulo 360. */
  function Hue(index: nat): (h: real)
    ensures 0.0 <= h < 360.0
    ensures h + 360.0 * ((index * 275) / 720) as real == index as real * 137.5
  {
    ((index * 275) % 720) as real / 2.0
  }

  /** The colours repeat every 144 records. */
  lemma HuePeriod(index: nat)
    ensures Hue(index + 144) == Hue(index)
  {
    assert (index + 144) * 275 == index * 275 + 720 * 55;
    ModuloPeriod(index * 275, 55);
  }

  lemma {:induction false} ModuloPeriod(a: nat, k: nat)
    ensures (a + 720 * k) % 720 == a % 720
  {
    if k > 0 {
      ModuloPeriod(a, k - 1);
      assert a + 720 * k == (a + 720 * (k - 1)) + 720;
    }
  }

  /** The sample data of the component. */
  const SampleData: seq<SalesRecord> := [
    SalesRecord("ABC Pharma", "Testprodukt A", "Berlin",
      map["2025" := 1.2, "2026" := 1.4, "2027" := 1.6, "2028" := 1.8, "2029" := 1.6, "2030" := 1.4]),
    SalesRecord("ABC Pharma", "Testprodukt B", "Berlin",
      map["2025" := 2.0, "2026" := 3.0, "2027" := 2.0, "2028" := 2.0, "2029" := 1.0, "2030" := 2.0]),
    SalesRecord("ABC Pharma", "Testprodukt C", "Leverkusen",
      map["2025" := 3.0, "2026" := 4.0, "2027" := 3.0, "2028" := 3.0, "2029" := 3.0, "2030" := 3.0]),
    SalesRecord("ABC Pharma", "Testprodukt C", "Garbagnate",
      map["2025" := 1.0, "2026" := 2.0, "2027" := 3.0, "2028" := 4.0, "2029" := 5.0, "2030" := 6.0]),
    SalesRecord("XYZ Pharma", "Fakeprodukt A", "Garbagnate",
      map["2025" := 1.0, "2026" := 1.0, "2027" := 1.0, "2028" := 0.5, "2029" := 0.6, "2030" := 0.3]),
    SalesRecord("XYZ Pharma", "Fakeprodukt B", "Orizaba",
      map["2025" := 2.0, "2026" := 2.0, "2027" := 2.3, "2028" := 2.4, "2029" := 2.5, "2030" := 2.8]),
    SalesRecord("XYZ Pharma", "Fakeprodukt C", "Shiga",
      map["2025" := 1.0, "2026" := 2.0, "2027" := 1.0, "2028" := 2.0, "2029" := 1.0, "2030" := 2.0])
  ]

  const AbcPharma: Selection := Selection("ABC Pharma", All, All)

  /** Selecting the customer "ABC Pharma" shows exactly the first four sample
      records. */
  lemma SampleCustomerFilter()
    ensures FilteredData(SampleData, AbcPharma) == SampleData[..4]
  {
    var keep := MatchesSelection(AbcPharma);
    var head, tail := SampleData[..4], SampleData[4..];
    SampleHeadMatches();
    SampleTailRejected();
    assert SampleData == head + tail;
    FilterAppend(head, tail, keep);
    FilterKeepsAll(head, keep);
    FilterEmpty(tail, keep);
  }

  lemma SampleHeadMatches()
    ensures forall i :: 0 <= i < 4 ==> Matches(AbcPharma, SampleData[i])
  {
    assert forall i :: 0 <= i < 4 ==> SampleData[i].kunde == "ABC Pharma";
  }

  lemma SampleTailRejected()
    ensures forall i :: 0 <= i < 3 ==> !Matches(AbcPharma, SampleData[4..][i])
  {
    assert forall i :: 4 <= i < 7 ==> SampleData[i].kunde == "XYZ Pharma";
    assert "XYZ Pharma" != "ABC Pharma" by {
      assert "XYZ Pharma"[0] != "ABC Pharma"[0];
    }
  }

  /** The 2025 total of those four records is 1.2 + 2 + 3 + 1. */
  lemma SampleCustomerTotal()
    ensures SumYear(FilteredData(SampleData, AbcPharma), "2025") == 7.2
  {
    SampleCustomerFilter();
    var shown := SampleData[..4];
    assert Cell(shown[0], "2025") == 1.2;
    assert Cell(shown[1], "2025") == 2.0;
    assert Cell(shown[2], "2025") == 3.0;
    assert Cell(shown[3], "2025") == 1.0;
    assert SumYear(shown[..1], "2025") == 1.2 by {
      assert shown[..1][..0] == [];
    }
    assert SumYear(shown[..2], "2025") == 3.2 by {
      assert shown[..2][..1] == shown[..1];
    }
    assert SumYear(shown[..3], "2025") == 6.2 by {
      assert shown[..3][..2] == shown[..2];
    }
    assert shown[..3] == shown[..|shown| - 1];
  }

  /** The state of the component: the data it shows and its three
      selectors. */
  class DataVisualization {
    const rawData: seq<SalesRecord>
    var selectedKunde: string
    var selectedProdukt: string
    var selectedSupplyCenter: string

    constructor (rawData: seq<SalesRecord>)
      ensures this.rawData == rawData
      ensures selectedKunde == All && selectedProdukt == All && selectedSupplyCenter == All
    {
      this.rawData := rawData;
      selectedKunde := All;
      selectedProdukt := All;
      selectedSupplyCenter := All;
    }

    function CurrentSelection(): Selection
      reads this
    {
      Selection(selectedKunde, selectedProdukt, selectedSupplyCenter)
    }

    function Shown(): seq<SalesRecord>
      reads this
    {
      FilteredData(rawData, CurrentSelection())
    }

    /** `clearFilters`: every selector back to `All`, so every record is
        shown again. */
    method ClearFilters()
      modifies this
      ensures selectedKunde == All && selectedProdukt == All && selectedSupplyCenter == All
      ensures Shown() == rawData
    {
      selectedKunde := All;
      selectedProdukt := All;
      selectedSupplyCenter := All;
      NoFilterShowsAll(rawData);
    }
  }
}
