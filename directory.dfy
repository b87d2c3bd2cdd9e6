/** The directory service of src/app.py and the bulk loaders of src/utils.py,
    as functions from a store snapshot to a response and the next snapshot.
    The class in module Service performs the same steps in place. */
module Directory {
  import opened Wrappers
  import opened Seqs
  import opened Codes
  import opened Validators
  import opened Models
  import opened Ingestion

  /** A response together with the store it leaves behind. */
  datatype Applied<R> = Applied(response: R, after: Store)

  const DuplicateCodeError: Error := Error(ConflictError, "UNIQUE constraint failed: bank.swift_code")
  const DuplicateCountryError: Error := Error(ConflictError, "UNIQUE constraint failed: country.iso2")
  const MissingCountryError: Error := Error(InternalError, "NOT NULL constraint failed: bank.country_id")

  function CountryNameConflict(iso2: string, storedName: string): Error
  {
    Error(ConflictError, "In the database the correct countryName for countryISO2 = " + iso2 + " is " + storedName + ".")
  }

  function CreatedMessage(code: string): string
  {
    "SWIFT CODE = " + code + " successfully created."
  }

  function DeletedMessage(code: string): string
  {
    "SWIFT CODE = " + code + " successfully deleted."
  }

  function Lookup(banks: map<string, Bank>, code: string): Option<Bank>
  {
    if code in banks then Some(banks[code]) else None
  }

  // ----- read_bank, read_country -----

  /** read_bank: validate the code, look it up, shape the row. */
  function ReadBank(s: Store, code: string): (r: Result<BankView>)
    requires Valid(s)
    ensures r.Err? <==> ValidateCode(code, Swift).Reject? || code !in s.banks
    ensures ValidateCode(code, Swift).Reject? ==> r == Err(ValidateCode(code, Swift).error)
    ensures ValidateCode(code, Swift).Pass? && code !in s.banks ==> r == Err(NotFoundError)
    ensures r.Ok? ==> (r.value.WithBranches? <==> s.banks[code].isHeadquarter)
  {
    match Then(ValidateCode(code, Swift), CheckIfExists(Lookup(s.banks, code)))
    case Reject(e) => Err(e)
    case Pass =>
      assert BankOk(s, code);
      var b := s.banks[code];
      if b.isHeadquarter then Ok(WithBranches(WithBranchesFromBank(s, code)))
      else Ok(Single(CreateFromBank(b, s.countries)))
  }

  /** read_country: validate the ISO2 code, look it up, shape the country. */
  function ReadCountry(s: Store, iso2: string): (r: Result<CountryWithBanks>)
    ensures r.Err? <==> ValidateCode(iso2, Iso2).Reject? || iso2 !in s.countries
    ensures ValidateCode(iso2, Iso2).Reject? ==> r == Err(ValidateCode(iso2, Iso2).error)
    ensures ValidateCode(iso2, Iso2).Pass? && iso2 !in s.countries ==> r == Err(NotFoundError)
    ensures r.Ok? ==> r.value.countryISO2 == iso2 && r.value.countryName == s.countries[iso2]
  {
    var found := if iso2 in s.countries then Some(s.countries[iso2]) else None;
    match Then(ValidateCode(iso2, Iso2), CheckIfExists(found))
    case Reject(e) => Err(e)
    case Pass => Ok(FromCountry(s, iso2))
  }

  // ----- create_bank -----

  /** The checks of a create request, in order: the ISO2 code, the country
      name, the SWIFT code, then headquarters consistency. The first failing
      one is reported. */
  function ValidateCreateRequest(req: BankCreate): Outcome
  {
    Then(ValidateCode(req.base.countryISO2, Iso2),
    Then(CheckIfUpper(req.countryName, CountryName),
    Then(ValidateCode(req.base.swiftCode, Swift),
         CheckIfProperHeadquarterOrBranch(req.base.swiftCode, req.base.isHeadquarter))))
  }

  /** A stored code the headquarters `hq` adopts: 11 characters with the same
      first 8 as `hq` (the pattern of 8 fixed and 3 free characters), other than `hq`. */
  predicate SharesHeadquarterPrefix(c: string, hq: string)
  {
    |c| == SWIFT_CODE_LEN && |hq| >= 8 && c[..8] == hq[..8] && c != hq
  }

  /** Points every stored bank matching the headquarters prefix of `hq` at `hq`. */
  function Adopt(banks: map<string, Bank>, hq: string): map<string, Bank>
  {
    map c | c in banks :: if SharesHeadquarterPrefix(c, hq) then banks[c].(headquarter := Some(hq)) else banks[c]
  }

  /** The link a new branch gets: its candidate headquarters, if stored. */
  function BranchLink(banks: map<string, Bank>, code: string): Option<string>
  {
    var p := PotentialHq(code);
    if p in banks then Some(p) else None
  }

  function NewBank(req: BankCreate, link: Option<string>): Bank
  {
    Bank(req.base.swiftCode, req.base.bankName, req.base.address, req.base.isHeadquarter, req.base.countryISO2, link)
  }

  /** Inserts the requested bank: a headquarters adopts its orphan branches,
      a branch links to its headquarters if that is stored. */
  function InsertBank(s: Store, req: BankCreate): Store
  {
    var code := req.base.swiftCode;
    if req.base.isHeadquarter then
      Store(Adopt(s.banks, code)[code := NewBank(req, None)], s.order + [code], s.countries)
    else
      Store(s.banks[code := NewBank(req, BranchLink(s.banks, code))], s.order + [code], s.countries)
  }

  /** The country step of create_bank: an unseen ISO2 code is stored with the
      requested name. */
  function WithCountry(s: Store, iso2: string, name: string): Store
  {
    if iso2 in s.countries then s else s.(countries := s.countries[iso2 := name])
  }

  /** create_bank. Validation and the country-name conflict leave the store as
      it was; an unseen country is committed before the bank insert and stays
      even when the insert then fails on a duplicate code. */
  function CreateBank(s: Store, req: BankCreate): Applied<Result<string>>
  {
    var iso2, name, code := req.base.countryISO2, req.countryName, req.base.swiftCode;
    match ValidateCreateRequest(req)
    case Reject(e) => Applied(Err(e), s)
    case Pass =>
      if iso2 in s.countries && s.countries[iso2] != name then
        Applied(Err(CountryNameConflict(iso2, s.countries[iso2])), s)
      else
        var s1 := WithCountry(s, iso2, name);
        if code in s1.banks then Applied(Err(DuplicateCodeError), s1)
        else Applied(Ok(CreatedMessage(code)), InsertBank(s1, req))
  }

  // ----- delete_bank -----

  /** The ON DELETE SET NULL rule applied to one row. */
  function Unlink(b: Bank, deleted: string): Bank
  {
    if b.headquarter == Some(deleted) then b.(headquarter := None) else b
  }

  function RemoveBank(s: Store, code: string): Store
  {
    Store(map c | c in s.banks && c != code :: Unlink(s.banks[c], code), Without(s.order, code), s.countries)
  }

  /** delete_bank: validate, look up, delete the row and clear the links to it. */
  function DeleteBank(s: Store, code: string): Applied<Result<string>>
  {
    match Then(ValidateCode(code, Swift), CheckIfExists(Lookup(s.banks, code)))
    case Reject(e) => Applied(Err(e), s)
    case Pass => Applied(Ok(DeletedMessage(code)), RemoveBank(s, code))
  }

  // ----- create_banks, create_countries (bulk loading) -----

  /** The bank row a bulk record becomes, with the given headquarters link. */
  function RowBank(row: BankRow, link: Option<string>): Bank
  {
    Bank(row.swiftCode, row.name, row.address, row.isHeadquarter, row.countryIso2, link)
  }

  /** One iteration of create_banks: look up the country and the candidate
      headquarters, then add and commit the row. A missing country or a taken
      code makes the commit fail. */
  function InsertRow(s: Store, row: BankRow): Applied<Outcome>
  {
    var code := row.swiftCode;
    if row.countryIso2 !in s.countries then Applied(Reject(MissingCountryError), s)
    else if code in s.banks then Applied(Reject(DuplicateCodeError), s)
    else
      var link := if row.potentialHq in s.banks then Some(row.potentialHq) else None;
      Applied(Pass, Store(s.banks[code := RowBank(row, link)], s.order + [code], s.countries))
  }

  /** create_banks: the rows one after another, each committed on its own; the
      first failure stops the loop and the rows before it stay. */
  function CreateBanks(s: Store, rows: seq<BankRow>): Applied<Outcome>
    decreases |rows|
  {
    if rows == [] then Applied(Pass, s)
    else
      var step := InsertRow(s, rows[0]);
      if step.response.Reject? then step else CreateBanks(step.after, rows[1..])
  }

  /** The countries after adding `rows` to `m`, or None when an ISO2 code is
      already taken (the unique index refuses the one commit). */
  function AddCountries(m: map<string, string>, rows: seq<CountryRow>): Option<map<string, string>>
    decreases |rows|
  {
    if rows == [] then Some(m)
    else if rows[0].iso2 in m then None
    else AddCountries(m[rows[0].iso2 := rows[0].name], rows[1..])
  }

  /** create_countries: all rows are added and committed together. */
  function CreateCountries(s: Store, rows: seq<CountryRow>): Applied<Outcome>
  {
    match AddCountries(s.countries, rows)
    case None => Applied(Reject(DuplicateCountryError), s)
    case Some(m) => Applied(Pass, s.(countries := m))
  }
}
