/** The per-row rules of src/data_processing.py, over rows already read from
    the spreadsheet: the derived headquarters flag and candidate headquarters,
    the headquarters-first ordering of bank rows and the de-duplicated, sorted
    country pairs. */
module Ingestion {
  import opened Seqs
  import opened Codes

  /** A spreadsheet cell: empty (pandas NaN) or holding text. */
  datatype Cell = Blank | Text(text: string)

  /** One spreadsheet row, restricted to the columns the bank extraction reads. */
  datatype SheetRow = SheetRow(swiftCode: Cell, name: Cell, address: Cell, countryIso2: Cell)

  /** One record handed to the bulk bank creation. */
  datatype BankRow = BankRow(
    countryIso2: string,
    swiftCode: string,
    name: string,
    address: string,
    isHeadquarter: bool,
    potentialHq: string)

  /** One record handed to the bulk country creation. */
  datatype CountryRow = CountryRow(iso2: string, name: string)

  /** `.replace({np.nan: ""})`: an empty cell reads as the empty string and any
      text, blanks included, is kept as it is. */
  function CellText(c: Cell): (r: string)
    ensures c.Blank? ==> r == ""
    ensures c.Text? ==> r == c.text
  {
    match c
    case Blank => ""
    case Text(t) => t
  }

  /** The two derived columns agree with the code. */
  predicate WellFormedRow(r: BankRow)
  {
    r.isHeadquarter == EndsWithXXX(r.swiftCode) && r.potentialHq == PotentialHq(r.swiftCode)
  }

  /** One row with `is_headquarter` and `potential_hq` added. */
  function DeriveRow(row: SheetRow): (r: BankRow)
    ensures WellFormedRow(r)
    ensures r.swiftCode == CellText(row.swiftCode) && r.address == CellText(row.address)
    ensures r.name == CellText(row.name) && r.countryIso2 == CellText(row.countryIso2)
  {
    var code := CellText(row.swiftCode);
    BankRow(CellText(row.countryIso2), code, CellText(row.name), CellText(row.address),
            EndsWithXXX(code), PotentialHq(code))
  }

  /** The sort key of `sort_values(by=["is_headquarter", "swift_code"],
      ascending=[False, True])`: headquarters ("0") before branches ("1"),
      then the code. */
  function RowKey(r: BankRow): string
  {
    [if r.isHeadquarter then '0' else '1'] + r.swiftCode
  }

  function DeriveRows(sheet: seq<SheetRow>): (rows: seq<BankRow>)
    ensures |rows| == |sheet|
    ensures forall i :: 0 <= i < |sheet| ==> rows[i] == DeriveRow(sheet[i])
  {
    seq(|sheet|, i requires 0 <= i < |sheet| => DeriveRow(sheet[i]))
  }

  /** The SWIFT codes of bank records, in order. */
  function RowCodes(rows: seq<BankRow>): (r: seq<string>)
    ensures |r| == |rows| && forall i :: 0 <= i < |rows| ==> r[i] == rows[i].swiftCode
  {
    seq(|rows|, i requires 0 <= i < |rows| => rows[i].swiftCode)
  }

  lemma RowCodesCons(rows: seq<BankRow>)
    requires rows != []
    ensures RowCodes(rows) == [rows[0].swiftCode] + RowCodes(rows[1..])
  {
    var r, t := RowCodes(rows), [rows[0].swiftCode] + RowCodes(rows[1..]);
    assert |r| == |t|;
    forall i | 0 <= i < |r| ensures r[i] == t[i] {
      if i > 0 { assert rows[1..][i - 1] == rows[i]; }
    }
  }

  lemma PermutationKeepsWellFormed(rows: seq<BankRow>, sorted: seq<BankRow>)
    requires forall r :: r in rows ==> WellFormedRow(r)
    requires multiset(sorted) == multiset(rows)
    ensures forall r :: r in sorted ==> WellFormedRow(r)
  {
    forall r | r in sorted ensures WellFormedRow(r) {
      assert r in multiset(rows);
    }
  }

  /** extract_banks_data after the file is read: a headquarters-first,
      code-ascending permutation of the derived rows. */
  function ExtractBanks(sheet: seq<SheetRow>): (rows: seq<BankRow>)
    ensures multiset(rows) == multiset(DeriveRows(sheet))
    ensures SortedBy(rows, RowKey)
    ensures forall r :: r in rows ==> WellFormedRow(r)
  {
    var derived := DeriveRows(sheet);
    var sorted := SortBy(derived, RowKey);
    PermutationKeepsWellFormed(derived, sorted);
    sorted
  }

  /** What the sort key means: every headquarters row comes before every branch
      row, and rows of the same kind are in ascending code order. */
  lemma SortedRowsHeadquartersFirst(rows: seq<BankRow>)
    requires SortedBy(rows, RowKey)
    ensures forall i, j :: 0 <= i < j < |rows| && rows[j].isHeadquarter ==> rows[i].isHeadquarter
    ensures forall i, j :: 0 <= i < j < |rows| && rows[i].isHeadquarter == rows[j].isHeadquarter ==>
      LexLe(rows[i].swiftCode, rows[j].swiftCode)
  {
    forall i, j | 0 <= i < j < |rows|
      ensures rows[j].isHeadquarter ==> rows[i].isHeadquarter
      ensures rows[i].isHeadquarter == rows[j].isHeadquarter ==> LexLe(rows[i].swiftCode, rows[j].swiftCode)
    {
      var ki, kj := RowKey(rows[i]), RowKey(rows[j]);
      assert LexLe(ki, kj);
      assert ki[1..] == rows[i].swiftCode && kj[1..] == rows[j].swiftCode;
    }
  }

  /** For a headquarters row with an 11-character code, the candidate
      headquarters is the row's own code. */
  lemma HeadquarterRowIsItsOwnCandidate(r: BankRow)
    requires WellFormedRow(r) && r.isHeadquarter && |r.swiftCode| == 11
    ensures r.potentialHq == r.swiftCode
  {
    PotentialHqFixedPoint(r.swiftCode);
  }

  function IsoKey(c: CountryRow): string
  {
    c.iso2
  }

  /** extract_countries_data after the file is read: `drop_duplicates` then
      `sort_values(by="iso2")`. Every (iso2, name) pair of the input occurs
      exactly once and the pairs are in ascending ISO2 order. */
  function ExtractCountries(rows: seq<CountryRow>): (r: seq<CountryRow>)
    ensures SortedBy(r, IsoKey)
    ensures forall c :: multiset(r)[c] == if c in rows then 1 else 0
  {
    SortBy(Dedup(rows), IsoKey)
  }
}
