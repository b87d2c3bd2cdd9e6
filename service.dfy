/** The directory as the running service holds it: one mutable store whose
    operations change it step by step, as create_bank and delete_bank in
    src/app.py and the bulk loaders in src/utils.py do. Each method is proved
    to leave the store, and to answer, exactly as the matching function of
    module Directory says, and to keep the store invariant. */
module Service {
  import opened Wrappers
  import opened Seqs
  import opened Validators
  import opened Models
  import opened Ingestion
  import opened Directory
  import DirectoryProperties

  class SwiftDirectory {
    /** The bank table, keyed by the unique SWIFT code. */
    var banks: map<string, Bank>
    /** The stored codes in insertion order. */
    var order: seq<string>
    /** The country table, keyed by the unique ISO2 code. */
    var countries: map<string, string>

    function Snapshot(): Store
      reads this
    {
      Store(banks, order, countries)
    }

    ghost predicate Valid()
      reads this
    {
      Models.Valid(Snapshot())
    }

    /** An empty database. */
    constructor ()
      ensures Valid() && Snapshot() == Store(map[], [], map[])
    {
      banks, order, countries := map[], [], map[];
    }

    /** create_countries: every record is added, then one commit stores them
        all, or none when an ISO2 code is taken. */
    method CreateCountries(rows: seq<CountryRow>) returns (outcome: Outcome)
      requires Valid()
      modifies this
      ensures Applied(outcome, Snapshot()) == Directory.CreateCountries(old(Snapshot()), rows)
      ensures Valid()
    {
      DirectoryProperties.CreateCountriesAddsEach(Snapshot(), rows);
      var staged, clash := countries, false;
      var i := 0;
      while i < |rows|
        invariant 0 <= i <= |rows|
        invariant !clash ==> AddCountries(countries, rows) == AddCountries(staged, rows[i..])
        invariant clash ==> AddCountries(countries, rows).None?
      {
        var row := rows[i];
        if row.iso2 in staged {
          clash := true;
        }
        staged := staged[row.iso2 := row.name];
        i := i + 1;
      }
      if clash {
        outcome := Reject(DuplicateCountryError);
      } else {
        countries := staged;
        outcome := Pass;
      }
    }

    /** create_banks: for each record, look up its country and its candidate
        headquarters, then add and commit the row; the first failing commit
        ends the load and the rows committed before it stay. */
    method CreateBanks(rows: seq<BankRow>) returns (outcome: Outcome)
      requires Valid()
      modifies this
      ensures Applied(outcome, Snapshot()) == Directory.CreateBanks(old(Snapshot()), rows)
      ensures (forall r :: r in rows ==> WellFormedRow(r)) ==> Valid()
    {
      if forall r :: r in rows ==> WellFormedRow(r) {
        DirectoryProperties.CreateBanksPreservesValid(Snapshot(), rows);
      }
      var i := 0;
      while i < |rows|
        invariant 0 <= i <= |rows|
        invariant Directory.CreateBanks(old(Snapshot()), rows) == Directory.CreateBanks(Snapshot(), rows[i..])
      {
        var row := rows[i];
        assert rows[i..][0] == row && rows[i..][1..] == rows[i + 1..];
        if row.countryIso2 !in countries {
          return Reject(MissingCountryError);
        }
        var headquarter := if row.potentialHq in banks then Some(row.potentialHq) else None;
        if row.swiftCode in banks {
          return Reject(DuplicateCodeError);
        }
        banks := banks[row.swiftCode := RowBank(row, headquarter)];
        order := order + [row.swiftCode];
        i := i + 1;
      }
      outcome := Pass;
    }

    /** create_bank: validate the request, resolve or add and commit the
        country, refuse a taken code, then insert the bank with its link (a
        branch) or adopting its orphans (a headquarters) and commit. */
    method CreateBank(req: BankCreate) returns (r: Result<string>)
      requires Valid()
      modifies this
      ensures Applied(r, Snapshot()) == Directory.CreateBank(old(Snapshot()), req)
      ensures Valid()
    {
      DirectoryProperties.CreateBankPreservesValid(Snapshot(), req);
      var iso2, name, code := req.base.countryISO2, req.countryName, req.base.swiftCode;
      var checked := ValidateCreateRequest(req);
      if checked.Reject? {
        return Err(checked.error);
      }
      if iso2 in countries {
        if countries[iso2] != name {
          return Err(CountryNameConflict(iso2, countries[iso2]));
        }
      } else {
        countries := countries[iso2 := name];
      }
      if code in banks {
        return Err(DuplicateCodeError);
      }
      if req.base.isHeadquarter {
        banks := Adopt(banks, code)[code := NewBank(req, None)];
      } else {
        var headquarter := BranchLink(banks, code);
        banks := banks[code := NewBank(req, headquarter)];
      }
      order := order + [code];
      r := Ok(CreatedMessage(code));
    }

    /** delete_bank: validate, look up, then delete the row; the rows linked to
        it lose their link (ON DELETE SET NULL). */
    method DeleteBank(code: string) returns (r: Result<string>)
      requires Valid()
      modifies this
      ensures Applied(r, Snapshot()) == Directory.DeleteBank(old(Snapshot()), code)
      ensures Valid()
    {
      DirectoryProperties.DeleteBankPreservesValid(Snapshot(), code);
      var checked := Then(ValidateCode(code, Swift), CheckIfExists(Lookup(banks, code)));
      if checked.Reject? {
        return Err(checked.error);
      }
      banks := map c | c in banks && c != code :: Unlink(banks[c], code);
      order := Without(order, code);
      r := Ok(DeletedMessage(code));
    }
  }
}
