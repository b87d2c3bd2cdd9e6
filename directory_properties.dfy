/** What the directory operations promise: the store invariant is kept, a
    create links and adopts, a delete removes one key and clears the links to
    it, the bulk loaders insert one row per record, and the read views show
    exactly the linked or owned rows. */
module DirectoryProperties {
  import opened Wrappers
  import opened Seqs
  import opened Codes
  import opened Validators
  import opened Models
  import opened Ingestion
  import opened Directory

  // ----- create_bank -----

  /** An accepted request names a headquarters exactly when its code is an
      11-character code ending in "XXX", and is its own candidate headquarters then. */
  lemma AcceptedRequestShape(req: BankCreate)
    requires ValidateCreateRequest(req).Pass?
    ensures |req.base.swiftCode| == SWIFT_CODE_LEN
    ensures req.base.isHeadquarter == EndsWithXXX(req.base.swiftCode)
    ensures req.base.isHeadquarter ==> PotentialHq(req.base.swiftCode) == req.base.swiftCode
    ensures !req.base.isHeadquarter ==> PotentialHq(req.base.swiftCode) != req.base.swiftCode
  {
    ValidateCodeAccepts(req.base.swiftCode, Swift);
    PotentialHqFixedPoint(req.base.swiftCode);
  }

  /** The store after the country step of create_bank: the same banks, and the
      requested country stored under the requested name. */
  lemma CountryStepKeepsValid(s: Store, req: BankCreate)
    requires Valid(s)
    requires req.base.countryISO2 in s.countries ==> s.countries[req.base.countryISO2] == req.countryName
    ensures var s1 := WithCountry(s, req.base.countryISO2, req.countryName);
            Valid(s1) && s1.banks == s.banks && s1.order == s.order &&
            s1.countries.Keys == s.countries.Keys + {req.base.countryISO2} &&
            s1.countries[req.base.countryISO2] == req.countryName
  {
    var s1 := WithCountry(s, req.base.countryISO2, req.countryName);
    forall c | c in s1.banks ensures BankOk(s1, c) {
      assert BankOk(s, c);
    }
  }

  /** Inserting an accepted request whose code is not stored keeps the store invariant. */
  lemma InsertBankKeepsValid(s: Store, req: BankCreate)
    requires Valid(s)
    requires ValidateCreateRequest(req).Pass?
    requires req.base.countryISO2 in s.countries
    requires req.base.swiftCode !in s.banks
    ensures Valid(InsertBank(s, req))
  {
    var code := req.base.swiftCode;
    var t := InsertBank(s, req);
    AcceptedRequestShape(req);
    NoDupSnoc(s.order, code);
    forall c | c in t.banks ensures BankOk(t, c) {
      if c != code {
        assert BankOk(s, c);
        if req.base.isHeadquarter && SharesHeadquarterPrefix(c, code) {
          SamePrefixSameHq(c, code);
        }
      }
    }
  }

  lemma CreateBankPreservesValid(s: Store, req: BankCreate)
    requires Valid(s)
    ensures Valid(CreateBank(s, req).after)
  {
    var iso2 := req.base.countryISO2;
    if ValidateCreateRequest(req).Pass? && !(iso2 in s.countries && s.countries[iso2] != req.countryName) {
      CountryStepKeepsValid(s, req);
      var s1 := WithCountry(s, iso2, req.countryName);
      if req.base.swiftCode !in s1.banks {
        InsertBankKeepsValid(s1, req);
      }
    }
  }

  /** Any malformed field is reported with that field's own error, in the
      order ISO2 code, country name, SWIFT code, headquarters consistency; a
      request is accepted exactly when every field is well formed. */
  lemma CreateRequestReportsFirstFailure(req: BankCreate)
    ensures ValidateCode(req.base.countryISO2, Iso2).Reject? ==>
      ValidateCreateRequest(req) == ValidateCode(req.base.countryISO2, Iso2)
    ensures ValidateCode(req.base.countryISO2, Iso2).Pass? && !IsUpper(req.countryName) ==>
      ValidateCreateRequest(req) == Reject(NotUpperError(CountryName))
    ensures ValidateCode(req.base.countryISO2, Iso2).Pass? && IsUpper(req.countryName) &&
            ValidateCode(req.base.swiftCode, Swift).Reject? ==>
      ValidateCreateRequest(req) == ValidateCode(req.base.swiftCode, Swift)
    ensures ValidateCode(req.base.countryISO2, Iso2).Pass? && IsUpper(req.countryName) &&
            ValidateCode(req.base.swiftCode, Swift).Pass? && EndsWithXXX(req.base.swiftCode) != req.base.isHeadquarter ==>
      ValidateCreateRequest(req) == Reject(HeadquarterMismatchError)
    ensures ValidateCreateRequest(req).Pass? <==>
      && ValidateCode(req.base.countryISO2, Iso2).Pass? && IsUpper(req.countryName)
      && ValidateCode(req.base.swiftCode, Swift).Pass? && EndsWithXXX(req.base.swiftCode) == req.base.isHeadquarter
  {
  }

  /** create_bank succeeds exactly when the request is well formed, the
      country is unknown or stored under the same name, and the code is new.
      A refused request or a country-name conflict writes nothing; otherwise an
      unseen country is stored, even when the code then turns out to be taken. */
  lemma CreateBankOutcome(s: Store, req: BankCreate)
    ensures var r := CreateBank(s, req);
      var iso2, name, code := req.base.countryISO2, req.countryName, req.base.swiftCode;
      var accepted := ValidateCreateRequest(req).Pass? && (iso2 in s.countries ==> s.countries[iso2] == name);
      && (r.response.Ok? <==> accepted && code !in s.banks)
      && (r.response.Ok? ==> r.response.value == CreatedMessage(code))
      && (ValidateCreateRequest(req).Reject? ==> r == Applied(Err(ValidateCreateRequest(req).error), s))
      && (ValidateCreateRequest(req).Pass? && !accepted ==>
            r == Applied(Err(CountryNameConflict(iso2, s.countries[iso2])), s))
      && (accepted && code in s.banks ==>
            r.response == Err(DuplicateCodeError) && r.after.banks == s.banks && r.after.order == s.order)
      && (accepted ==> r.after.countries == s.countries[iso2 := name])
  {
  }

  /** A successful create adds exactly the requested row, whose BankBase view
      is the request's, and changes nothing in the other rows but their links. */
  lemma CreateBankInserts(s: Store, req: BankCreate)
    requires Valid(s) && CreateBank(s, req).response.Ok?
    ensures var t, code := CreateBank(s, req).after, req.base.swiftCode;
      && t.banks.Keys == s.banks.Keys + {code}
      && code !in s.banks
      && t.order == s.order + [code]
      && BaseFromBank(t.banks[code]) == req.base
      && t.countries[req.base.countryISO2] == req.countryName
      && (forall k :: k in s.countries ==> k in t.countries && t.countries[k] == s.countries[k])
      && (forall c :: c in s.banks ==> BaseFromBank(t.banks[c]) == BaseFromBank(s.banks[c]))
  {
    var s1 := WithCountry(s, req.base.countryISO2, req.countryName);
    assert CreateBank(s, req).after == InsertBank(s1, req);
    assert s1.banks == s.banks && s1.order == s.order;
  }

  /** A new branch is linked to its candidate headquarters when that is stored
      and left without a link otherwise; it joins exactly that headquarters'
      branch list, at the end, and no other row changes. */
  lemma CreateBranchLinks(s: Store, req: BankCreate)
    requires Valid(s) && CreateBank(s, req).response.Ok? && !req.base.isHeadquarter
    ensures var t, code := CreateBank(s, req).after, req.base.swiftCode;
      var p := PotentialHq(code);
      && t.banks[code].headquarter == (if p in s.banks then Some(p) else None)
      && (forall c :: c in s.banks ==> t.banks[c] == s.banks[c])
      && (forall h :: Branches(t, h) == Branches(s, h) + (if h == p && p in s.banks then [code] else []))
  {
    var t, code := CreateBank(s, req).after, req.base.swiftCode;
    var s1 := WithCountry(s, req.base.countryISO2, req.countryName);
    assert t == InsertBank(s1, req);
    forall h ensures Branches(t, h) == Branches(s, h) + (if h == PotentialHq(code) && PotentialHq(code) in s.banks then [code] else []) {
      SelectAppend(s.order, t.banks, LinkedTo(h), code);
      SelectFrame(s.order, t.banks, LinkedTo(h), s.banks, LinkedTo(h));
    }
  }

  /** The adoption step on a store where the code is still free. */
  lemma InsertHeadquartersAdopts(s: Store, req: BankCreate)
    requires Valid(s) && ValidateCreateRequest(req).Pass? && req.base.isHeadquarter
    requires req.base.swiftCode !in s.banks
    ensures var t, code := InsertBank(s, req), req.base.swiftCode;
      && (forall c :: c in s.banks && SharesHeadquarterPrefix(c, code) ==> s.banks[c].headquarter.None?)
      && (forall c :: c in t.banks && c != code ==>
            c in s.banks && t.banks[c] == if SharesHeadquarterPrefix(c, code) then s.banks[c].(headquarter := Some(code)) else s.banks[c])
  {
    var code := req.base.swiftCode;
    AcceptedRequestShape(req);
    forall c | c in s.banks && SharesHeadquarterPrefix(c, code) ensures s.banks[c].headquarter.None? {
      assert BankOk(s, c);
      SamePrefixSameHq(c, code);
    }
  }

  /** After inserting a headquarters its own branch list holds exactly the
      adopted codes. */
  lemma InsertHeadquartersOwnBranches(s: Store, req: BankCreate)
    requires Valid(s) && ValidateCreateRequest(req).Pass? && req.base.isHeadquarter
    requires req.base.swiftCode !in s.banks
    ensures var t, code := InsertBank(s, req), req.base.swiftCode;
      forall c :: c in Branches(t, code) <==> c in s.banks && SharesHeadquarterPrefix(c, code)
  {
    var code := req.base.swiftCode;
    var t := InsertBank(s, req);
    InsertHeadquartersAdopts(s, req);
    forall c ensures c in Branches(t, code) <==> c in s.banks && SharesHeadquarterPrefix(c, code) {
      if c in s.banks && !SharesHeadquarterPrefix(c, code) {
        assert BankOk(s, c);
      }
    }
  }

  /** Inserting a headquarters leaves every other branch list unchanged. */
  lemma InsertHeadquartersOtherBranches(s: Store, req: BankCreate)
    requires Valid(s) && ValidateCreateRequest(req).Pass? && req.base.isHeadquarter
    requires req.base.swiftCode !in s.banks
    ensures var t, code := InsertBank(s, req), req.base.swiftCode;
      forall h :: h != code ==> Branches(t, h) == Branches(s, h)
  {
    var code := req.base.swiftCode;
    var t := InsertBank(s, req);
    InsertHeadquartersAdopts(s, req);
    assert t.order == s.order + [code];
    forall h | h != code ensures Branches(t, h) == Branches(s, h) {
      SelectAppend(s.order, t.banks, LinkedTo(h), code);
      SelectFrame(s.order, t.banks, LinkedTo(h), s.banks, LinkedTo(h));
    }
  }

  /** A new headquarters has no link; it adopts exactly the stored 11-character
      codes sharing its first 8 characters, which were all orphans before, so
      no other headquarters loses a branch. */
  lemma CreateHeadquartersAdopts(s: Store, req: BankCreate)
    requires Valid(s) && CreateBank(s, req).response.Ok? && req.base.isHeadquarter
    ensures var t, code := CreateBank(s, req).after, req.base.swiftCode;
      && t.banks[code].headquarter.None?
      && (forall c :: c in Branches(t, code) <==> c in s.banks && SharesHeadquarterPrefix(c, code))
      && (forall c :: c in s.banks && SharesHeadquarterPrefix(c, code) ==> s.banks[c].headquarter.None?)
      && (forall c :: c in s.banks && !SharesHeadquarterPrefix(c, code) ==> t.banks[c] == s.banks[c])
      && (forall h :: h != code ==> Branches(t, h) == Branches(s, h))
  {
    var s1 := WithCountry(s, req.base.countryISO2, req.countryName);
    assert CreateBank(s, req).after == InsertBank(s1, req);
    assert s1.banks == s.banks && s1.order == s.order && Valid(s1) by {
      CountryStepKeepsValid(s, req);
    }
    InsertHeadquartersAdopts(s1, req);
    InsertHeadquartersOwnBranches(s1, req);
    InsertHeadquartersOtherBranches(s1, req);
    assert forall h :: Branches(s1, h) == Branches(s, h);
  }

  /** What create_bank stores reads back: a branch as the request itself, a
      headquarters as the request with its current branch list. */
  lemma CreateThenRead(s: Store, req: BankCreate)
    requires Valid(s) && CreateBank(s, req).response.Ok?
    ensures Valid(CreateBank(s, req).after)
    ensures var t, code := CreateBank(s, req).after, req.base.swiftCode;
      ReadBank(t, code) ==
        Ok(if req.base.isHeadquarter then WithBranches(BankWithBranches(req, BasesFromCodes(Branches(t, code), t.banks)))
           else Single(req))
  {
    CreateBankPreservesValid(s, req);
    CreateBankInserts(s, req);
  }

  /** Creating the same request twice: the second call is a duplicate-code
      conflict that writes nothing, and one row with the code remains. */
  lemma CreateTwiceConflicts(s: Store, req: BankCreate)
    requires Valid(s) && CreateBank(s, req).response.Ok?
    ensures var t := CreateBank(s, req).after;
      && CreateBank(t, req) == Applied(Err(DuplicateCodeError), t)
      && req.base.swiftCode in t.banks && Valid(t)
  {
    CreateBankPreservesValid(s, req);
    CreateBankInserts(s, req);
    var t := CreateBank(s, req).after;
    assert WithCountry(t, req.base.countryISO2, req.countryName) == t;
  }

  /** Headquarters first, then a branch with the same first 8 characters: the
      headquarters' view lists the branch as it was requested, and the branch
      reads back on its own without a branch list. */
  lemma HeadquartersThenBranch(s: Store, hq: BankCreate, br: BankCreate)
    requires Valid(s) && hq.base.isHeadquarter && !br.base.isHeadquarter
    requires CreateBank(s, hq).response.Ok?
    requires CreateBank(CreateBank(s, hq).after, br).response.Ok?
    requires br.base.swiftCode[..8] == hq.base.swiftCode[..8]
    ensures var t := CreateBank(CreateBank(s, hq).after, br).after;
      && Valid(t)
      && t.banks[br.base.swiftCode].headquarter == Some(hq.base.swiftCode)
      && ReadBank(t, hq.base.swiftCode).Ok? && ReadBank(t, hq.base.swiftCode).value.WithBranches?
      && ReadBank(t, hq.base.swiftCode).value.headquarters.bank == hq
      && br.base in ReadBank(t, hq.base.swiftCode).value.headquarters.branches
      && ReadBank(t, br.base.swiftCode) == Ok(Single(br))
  {
    var s2 := CreateBank(s, hq).after;
    var t := CreateBank(s2, br).after;
    var h, b := hq.base.swiftCode, br.base.swiftCode;
    CreateBankPreservesValid(s, hq);
    CreateBankInserts(s, hq);
    CreateBankPreservesValid(s2, br);
    CreateBankInserts(s2, br);
    CreateThenRead(s2, br);
    AcceptedRequestShape(hq);
    AcceptedRequestShape(br);
    SamePrefixSameHq(b, h);
    CreateBranchLinks(s2, br);
    assert b in Branches(t, h);
    assert t.banks[h] == s2.banks[h];
    CreateThenRead(s, hq);
    var bases := BasesFromCodes(Branches(t, h), t.banks);
    var k :| 0 <= k < |Branches(t, h)| && Branches(t, h)[k] == b;
    assert bases[k] == br.base;
  }

  /** A branch first, then its headquarters: the headquarters adopts the
      branch, so the headquarters' view lists it whichever is created first. */
  lemma BranchThenHeadquarters(s: Store, br: BankCreate, hq: BankCreate)
    requires Valid(s) && hq.base.isHeadquarter && !br.base.isHeadquarter
    requires CreateBank(s, br).response.Ok?
    requires CreateBank(CreateBank(s, br).after, hq).response.Ok?
    requires br.base.swiftCode[..8] == hq.base.swiftCode[..8]
    ensures var t := CreateBank(CreateBank(s, br).after, hq).after;
      && Valid(t)
      && t.banks[br.base.swiftCode].headquarter == Some(hq.base.swiftCode)
      && ReadBank(t, hq.base.swiftCode).Ok? && ReadBank(t, hq.base.swiftCode).value.WithBranches?
      && ReadBank(t, hq.base.swiftCode).value.headquarters.bank == hq
      && br.base in ReadBank(t, hq.base.swiftCode).value.headquarters.branches
      && ReadBank(t, br.base.swiftCode) == Ok(Single(br))
  {
    var s2 := CreateBank(s, br).after;
    var t := CreateBank(s2, hq).after;
    var h, b := hq.base.swiftCode, br.base.swiftCode;
    CreateBankPreservesValid(s, br);
    CreateBankInserts(s, br);
    CreateBankPreservesValid(s2, hq);
    CreateBankInserts(s2, hq);
    AcceptedRequestShape(hq);
    AcceptedRequestShape(br);
    assert SharesHeadquarterPrefix(b, h);
    CreateHeadquartersAdopts(s2, hq);
    assert b in Branches(t, h);
    CreateThenRead(s, br);
    CreateThenRead(s2, hq);
    var bases := BasesFromCodes(Branches(t, h), t.banks);
    var k :| 0 <= k < |Branches(t, h)| && Branches(t, h)[k] == b;
    assert bases[k] == br.base;
  }

  // ----- read_bank, read_country -----

  /** A branch list has one entry per row linked to the headquarters. */
  lemma BranchCount(s: Store, code: string)
    requires Valid(s)
    ensures |Branches(s, code)| == |set c | c in s.banks && s.banks[c].headquarter == Some(code)|
  {
    var br := Branches(s, code);
    SelectNoDup(s.order, s.banks, LinkedTo(code));
    NoDupCardinality(br);
    assert (set c | c in br) == (set c | c in s.banks && s.banks[c].headquarter == Some(code));
  }

  /** Reading a stored headquarters gives its own fields with its country's
      name and one BankBase entry per linked row, in insertion order: the
      entries are exactly the rows whose link is this code. */
  lemma ReadHeadquartersView(s: Store, code: string)
    requires Valid(s) && ValidateCode(code, Swift).Pass? && code in s.banks && s.banks[code].isHeadquarter
    ensures ReadBank(s, code).Ok? && ReadBank(s, code).value.WithBranches?
    ensures var v, b := ReadBank(s, code).value.headquarters, s.banks[code];
      && b.countryIso2 in s.countries
      && v.bank == BankCreate(BaseFromBank(b), s.countries[b.countryIso2])
      && |v.branches| == |Branches(s, code)|
      && (forall i :: 0 <= i < |v.branches| ==> v.branches[i] == BaseFromBank(s.banks[Branches(s, code)[i]]))
      && (forall c :: (exists e :: e in v.branches && e.swiftCode == c) <==>
                      c in s.banks && s.banks[c].headquarter == Some(code))
      && |v.branches| == |set c | c in s.banks && s.banks[c].headquarter == Some(code)|
  {
    assert BankOk(s, code);
    var v := ReadBank(s, code).value.headquarters;
    var br := Branches(s, code);
    assert v.branches == BasesFromCodes(br, s.banks);
    assert forall k :: k in br ==> k in s.banks && s.banks[k].swiftCode == k by {
      forall k | k in br ensures k in s.banks && s.banks[k].swiftCode == k {
        assert BankOk(s, k);
      }
    }
    forall c ensures (exists e :: e in v.branches && e.swiftCode == c) <==> c in s.banks && s.banks[c].headquarter == Some(code) {
      BasesCarryCodes(br, s.banks, c);
    }
    BranchCount(s, code);
  }

  /** Reading a stored branch gives its own fields with its country's name and
      no branch list. */
  lemma ReadBranchView(s: Store, code: string)
    requires Valid(s) && ValidateCode(code, Swift).Pass? && code in s.banks && !s.banks[code].isHeadquarter
    ensures var b := s.banks[code];
      && b.countryIso2 in s.countries
      && ReadBank(s, code) == Ok(Single(BankCreate(BaseFromBank(b), s.countries[b.countryIso2])))
  {
    assert BankOk(s, code);
  }

  /** A country's bank list has as many entries as there are rows it owns. */
  lemma CountryCount(s: Store, iso2: string)
    requires Valid(s)
    ensures |CountryBanks(s, iso2)| == |set c | c in s.banks && s.banks[c].countryIso2 == iso2|
  {
    var owned := CountryBanks(s, iso2);
    SelectNoDup(s.order, s.banks, OwnedBy(iso2));
    NoDupCardinality(owned);
    assert (set c | c in owned) == (set c | c in s.banks && s.banks[c].countryIso2 == iso2);
  }

  /** Reading a stored country gives its name and one BankBase entry per row it
      owns, in insertion order, and no other. */
  lemma ReadCountryView(s: Store, iso2: string)
    requires Valid(s) && ValidateCode(iso2, Iso2).Pass? && iso2 in s.countries
    ensures ReadCountry(s, iso2).Ok?
    ensures var v := ReadCountry(s, iso2).value;
      && v.countryName == s.countries[iso2]
      && |v.swiftCodes| == |CountryBanks(s, iso2)|
      && (forall i :: 0 <= i < |v.swiftCodes| ==> v.swiftCodes[i] == BaseFromBank(s.banks[CountryBanks(s, iso2)[i]]))
      && |v.swiftCodes| == |set c | c in s.banks && s.banks[c].countryIso2 == iso2|
      && (forall e :: e in v.swiftCodes ==> e.countryISO2 == iso2)
      && (forall c :: (exists e :: e in v.swiftCodes && e.swiftCode == c) <==>
                      c in s.banks && s.banks[c].countryIso2 == iso2)
  {
    var v := ReadCountry(s, iso2).value;
    var owned := CountryBanks(s, iso2);
    assert v.swiftCodes == BasesFromCodes(owned, s.banks);
    assert forall k :: k in owned ==> k in s.banks && s.banks[k].swiftCode == k by {
      forall k | k in owned ensures k in s.banks && s.banks[k].swiftCode == k {
        assert BankOk(s, k);
      }
    }
    forall c ensures (exists e :: e in v.swiftCodes && e.swiftCode == c) <==> c in s.banks && s.banks[c].countryIso2 == iso2 {
      BasesCarryCodes(owned, s.banks, c);
    }
    forall e | e in v.swiftCodes ensures e.countryISO2 == iso2 {
      var k :| 0 <= k < |v.swiftCodes| && v.swiftCodes[k] == e;
      assert owned[k] in owned;
    }
    CountryCount(s, iso2);
  }

  // ----- delete_bank -----

  lemma RemoveBankKeepsValid(s: Store, code: string)
    requires Valid(s)
    ensures Valid(RemoveBank(s, code))
  {
    var t := RemoveBank(s, code);
    WithoutNoDup(s.order, code);
    forall c | c in t.banks ensures BankOk(t, c) {
      assert BankOk(s, c);
    }
  }

  lemma DeleteBankPreservesValid(s: Store, code: string)
    requires Valid(s)
    ensures Valid(DeleteBank(s, code).after)
  {
    RemoveBankKeepsValid(s, code);
  }

  /** delete_bank succeeds exactly for a well-formed stored code; a malformed
      code gets its validation error and an unknown one "Item does not
      exist.", and neither writes anything. */
  lemma DeleteBankOutcome(s: Store, code: string)
    ensures var r := DeleteBank(s, code);
      && (r.response.Ok? <==> ValidateCode(code, Swift).Pass? && code in s.banks)
      && (r.response.Ok? ==> r.response.value == DeletedMessage(code))
      && (ValidateCode(code, Swift).Reject? ==> r == Applied(Err(ValidateCode(code, Swift).error), s))
      && (ValidateCode(code, Swift).Pass? && code !in s.banks ==> r == Applied(Err(NotFoundError), s))
  {
  }

  /** A successful delete removes exactly the one key. Every other row keeps
      its fields, only a link to the deleted code is cleared; the code then
      reads as not found, and every remaining branch reads as before. */
  lemma DeleteRemovesOnlyTheKey(s: Store, code: string)
    requires Valid(s) && DeleteBank(s, code).response.Ok?
    ensures var t := DeleteBank(s, code).after;
      && Valid(t)
      && t.banks.Keys == s.banks.Keys - {code}
      && t.countries == s.countries
      && (forall c :: c in t.banks ==>
            && BaseFromBank(t.banks[c]) == BaseFromBank(s.banks[c])
            && t.banks[c].headquarter == (if s.banks[c].headquarter == Some(code) then None else s.banks[c].headquarter))
      && ReadBank(t, code) == Err(NotFoundError)
      && DeleteBank(t, code) == Applied(Err(NotFoundError), t)
      && (forall c :: c in t.banks && !t.banks[c].isHeadquarter ==> ReadBank(t, c) == ReadBank(s, c))
  {
    RemoveBankKeepsValid(s, code);
  }

  /** Removing a row takes its code out of the branch list of every other row. */
  lemma RemoveBankBranchLists(s: Store, code: string)
    ensures forall h :: h != code ==> Branches(RemoveBank(s, code), h) == Without(Branches(s, h), code)
  {
    var t := RemoveBank(s, code);
    forall h | h != code ensures Branches(t, h) == Without(Branches(s, h), code) {
      SelectWithout(s.order, s.banks, LinkedTo(h), t.banks, LinkedTo(h), code);
    }
  }

  /** Deleting a branch takes it out of its headquarters' list, which gets one
      entry shorter, and out of no other list. */
  lemma DeleteShrinksBranchLists(s: Store, code: string)
    requires Valid(s) && DeleteBank(s, code).response.Ok?
    ensures var t := DeleteBank(s, code).after;
      && (forall h :: h != code ==> Branches(t, h) == Without(Branches(s, h), code))
      && (s.banks[code].headquarter.Some? ==>
            var h := s.banks[code].headquarter.value;
            code !in Branches(t, h) && |Branches(t, h)| == |Branches(s, h)| - 1)
  {
    var t := RemoveBank(s, code);
    assert DeleteBank(s, code).after == t;
    RemoveBankBranchLists(s, code);
    if s.banks[code].headquarter.Some? {
      var h := s.banks[code].headquarter.value;
      assert BankOk(s, code);
      SelectNoDup(s.order, s.banks, LinkedTo(h));
      WithoutLength(Branches(s, h), code);
    }
  }

  /** Deleting a headquarters never deletes its branches: each stays stored
      with its link cleared and, being a branch, reads as before; the deleted
      code has no branches left. */
  lemma DeleteHeadquartersOrphansBranches(s: Store, code: string)
    requires Valid(s) && DeleteBank(s, code).response.Ok?
    ensures var t := DeleteBank(s, code).after;
      && Valid(t)
      && Branches(t, code) == []
      && (forall c :: c in Branches(s, code) ==> c in t.banks && t.banks[c].headquarter.None?)
      && (forall c :: c in Branches(s, code) && !s.banks[c].isHeadquarter ==> ReadBank(t, c) == ReadBank(s, c))
  {
    var t := DeleteBank(s, code).after;
    DeleteRemovesOnlyTheKey(s, code);
    SelectNone(t.order, t.banks, LinkedTo(code));
    forall c | c in Branches(s, code) ensures c in t.banks && t.banks[c].headquarter.None? {
      BranchesMirrorLinks(s, c, code);
    }
  }

  /** Removing a row takes its code out of every country's bank list. */
  lemma RemoveBankCountryLists(s: Store, code: string)
    ensures forall iso2 :: CountryBanks(RemoveBank(s, code), iso2) == Without(CountryBanks(s, iso2), code)
  {
    var t := RemoveBank(s, code);
    forall iso2 ensures CountryBanks(t, iso2) == Without(CountryBanks(s, iso2), code) {
      SelectWithout(s.order, s.banks, OwnedBy(iso2), t.banks, OwnedBy(iso2), code);
    }
  }

  /** Deleting a bank takes exactly one entry out of its country's bank list
      and leaves every other country's list as it was. */
  lemma DeleteShrinksCountryList(s: Store, code: string)
    requires Valid(s) && DeleteBank(s, code).response.Ok?
    ensures var t, owner := DeleteBank(s, code).after, s.banks[code].countryIso2;
      && (forall iso2 :: CountryBanks(t, iso2) == Without(CountryBanks(s, iso2), code))
      && code !in CountryBanks(t, owner)
      && |CountryBanks(t, owner)| == |CountryBanks(s, owner)| - 1
      && (forall iso2 :: iso2 != owner ==> CountryBanks(t, iso2) == CountryBanks(s, iso2))
  {
    var t, owner := RemoveBank(s, code), s.banks[code].countryIso2;
    assert DeleteBank(s, code).after == t;
    RemoveBankCountryLists(s, code);
    SelectNoDup(s.order, s.banks, OwnedBy(owner));
    WithoutLength(CountryBanks(s, owner), code);
    forall iso2 | iso2 != owner ensures CountryBanks(t, iso2) == CountryBanks(s, iso2) {
      WithoutAbsent(CountryBanks(s, iso2), code);
    }
  }

  // ----- create_banks -----

  lemma InsertRowKeepsValid(s: Store, row: BankRow)
    requires Valid(s) && WellFormedRow(row)
    ensures Valid(InsertRow(s, row).after)
  {
    var t := InsertRow(s, row).after;
    if InsertRow(s, row).response.Pass? {
      NoDupSnoc(s.order, row.swiftCode);
      forall c | c in t.banks ensures BankOk(t, c) {
        if c != row.swiftCode {
          assert BankOk(s, c);
        }
      }
    }
  }

  lemma {:induction false} CreateBanksPreservesValid(s: Store, rows: seq<BankRow>)
    requires Valid(s)
    requires forall r :: r in rows ==> WellFormedRow(r)
    ensures Valid(CreateBanks(s, rows).after)
    decreases |rows|
  {
    if rows != [] {
      InsertRowKeepsValid(s, rows[0]);
      var step := InsertRow(s, rows[0]);
      if step.response.Pass? {
        assert forall r :: r in rows[1..] ==> r in rows;
        CreateBanksPreservesValid(step.after, rows[1..]);
      }
    }
  }

  /** The link the bulk loader gives record i: its candidate headquarters when
      that code was stored before the load or belongs to an earlier record. */
  function LinkAt(s: Store, rows: seq<BankRow>, i: nat): Option<string>
    requires i < |rows|
  {
    var p := rows[i].potentialHq;
    if p in s.banks || p in RowCodes(rows[..i]) then Some(p) else None
  }

  /** The records can all be stored: their codes are pairwise distinct and
      new, and every country is stored. */
  predicate Loadable(s: Store, rows: seq<BankRow>)
  {
    && NoDup(RowCodes(rows))
    && (forall i :: 0 <= i < |rows| ==> rows[i].countryIso2 in s.countries && rows[i].swiftCode !in s.banks)
  }

  /** The bulk load goes through exactly when the records are loadable. */
  lemma {:induction false} CreateBanksSucceedsIff(s: Store, rows: seq<BankRow>)
    ensures CreateBanks(s, rows).response.Pass? <==> Loadable(s, rows)
    decreases |rows|
  {
    if rows != [] {
      var r0, rest := rows[0], rows[1..];
      var step := InsertRow(s, r0);
      if step.response.Pass? {
        var s1 := step.after;
        CreateBanksSucceedsIff(s1, rest);
        RowCodesCons(rows);
        NoDupConsIff(r0.swiftCode, RowCodes(rest));
        if Loadable(s, rows) {
          forall i | 0 <= i < |rest| ensures rest[i].countryIso2 in s1.countries && rest[i].swiftCode !in s1.banks {
            assert rest[i] == rows[i + 1];
            assert RowCodes(rest)[i] == rest[i].swiftCode;
          }
        }
        if Loadable(s1, rest) {
          assert r0.swiftCode !in RowCodes(rest) by {
            forall i | 0 <= i < |rest| ensures RowCodes(rest)[i] != r0.swiftCode {
              assert rest[i].swiftCode !in s1.banks;
            }
          }
          forall i | 0 <= i < |rows| ensures rows[i].countryIso2 in s.countries && rows[i].swiftCode !in s.banks {
            if i > 0 { assert rows[i] == rest[i - 1]; }
          }
        }
      } else {
        assert !(r0.countryIso2 in s.countries && r0.swiftCode !in s.banks);
      }
    }
  }

  /** Shifting the load by its first record: record j + 1 of the whole load
      gets the link record j of the rest gets after the first is stored. */
  lemma LinkAtShift(s: Store, rows: seq<BankRow>, j: nat)
    requires j + 1 < |rows|
    ensures var s1 := s.(banks := s.banks[rows[0].swiftCode := RowBank(rows[0], LinkAt(s, rows, 0))]);
      LinkAt(s1, rows[1..], j) == LinkAt(s, rows, j + 1)
  {
    assert rows[..j + 1] == [rows[0]] + rows[1..][..j];
    assert RowCodes(rows[..j + 1]) == [rows[0].swiftCode] + RowCodes(rows[1..][..j]);
  }

  /** A load that goes through went through its first record, and continues
      from the store that record left. */
  lemma CreateBanksUnfold(s: Store, rows: seq<BankRow>)
    requires rows != [] && CreateBanks(s, rows).response.Pass?
    ensures InsertRow(s, rows[0]).response.Pass?
    ensures CreateBanks(s, rows) == CreateBanks(InsertRow(s, rows[0]).after, rows[1..])
  {
  }

  /** A bulk step that goes through appends the record's code and keeps the countries. */
  lemma InsertRowAppends(s: Store, row: BankRow)
    requires InsertRow(s, row).response.Pass?
    ensures InsertRow(s, row).after.order == s.order + [row.swiftCode]
    ensures InsertRow(s, row).after.countries == s.countries
  {
  }

  /** A load that goes through appends the records' codes to the insertion
      order and leaves the countries alone. */
  lemma {:induction false} CreateBanksAppendsCodes(s: Store, rows: seq<BankRow>)
    requires CreateBanks(s, rows).response.Pass?
    ensures CreateBanks(s, rows).after.countries == s.countries
    ensures CreateBanks(s, rows).after.order == s.order + RowCodes(rows)
    decreases |rows|
  {
    if rows == [] {
      assert RowCodes(rows) == [];
      assert s.order + [] == s.order;
    } else {
      CreateBanksUnfold(s, rows);
      var s1 := InsertRow(s, rows[0]).after;
      InsertRowAppends(s, rows[0]);
      CreateBanksAppendsCodes(s1, rows[1..]);
      RowCodesCons(rows);
      ConcatAssoc(s.order, [rows[0].swiftCode], RowCodes(rows[1..]));
    }
  }

  /** A load that goes through adds exactly the records' codes and changes no
      row stored before. */
  lemma {:induction false} CreateBanksKeepsStored(s: Store, rows: seq<BankRow>)
    requires CreateBanks(s, rows).response.Pass?
    ensures var t := CreateBanks(s, rows).after;
      && t.banks.Keys == s.banks.Keys + (set c | c in RowCodes(rows))
      && (forall c :: c in s.banks ==> t.banks[c] == s.banks[c])
    decreases |rows|
  {
    if rows == [] {
      assert RowCodes(rows) == [];
    } else {
      CreateBanksUnfold(s, rows);
      var s1 := InsertRow(s, rows[0]).after;
      assert s1.banks == s.banks[rows[0].swiftCode := s1.banks[rows[0].swiftCode]] && rows[0].swiftCode !in s.banks;
      CreateBanksKeepsStored(s1, rows[1..]);
      RowCodesCons(rows);
    }
  }

  /** A load that goes through stores one row per record, linked as LinkAt says. */
  lemma {:induction false} CreateBanksInsertsEach(s: Store, rows: seq<BankRow>)
    requires CreateBanks(s, rows).response.Pass?
    ensures var t := CreateBanks(s, rows).after;
      forall i :: 0 <= i < |rows| ==>
        rows[i].swiftCode in t.banks && t.banks[rows[i].swiftCode] == RowBank(rows[i], LinkAt(s, rows, i))
    decreases |rows|
  {
    if rows != [] {
      var r0, rest := rows[0], rows[1..];
      var step := InsertRow(s, r0);
      assert step.response.Pass?;
      var s1 := step.after;
      assert CreateBanks(s, rows) == CreateBanks(s1, rest);
      assert rows[..0] == [];
      assert s1.banks == s.banks[r0.swiftCode := RowBank(r0, LinkAt(s, rows, 0))];
      var t := CreateBanks(s, rows).after;
      CreateBanksInsertsEach(s1, rest);
      CreateBanksKeepsStored(s1, rest);
      forall i | 0 <= i < |rows|
        ensures rows[i].swiftCode in t.banks && t.banks[rows[i].swiftCode] == RowBank(rows[i], LinkAt(s, rows, i))
      {
        if i > 0 {
          assert rows[i] == rest[i - 1];
          LinkAtShift(s, rows, i - 1);
        }
      }
    }
  }

  /** When the load fails, it failed on record k: the records before k are all
      stored, as a load of just those would store them, and nothing after. */
  lemma {:induction false} CreateBanksStopsAtFirstFailure(s: Store, rows: seq<BankRow>) returns (k: nat)
    requires CreateBanks(s, rows).response.Reject?
    ensures k < |rows|
    ensures CreateBanks(s, rows[..k]).response.Pass?
    ensures CreateBanks(s, rows).after == CreateBanks(s, rows[..k]).after
    ensures InsertRow(CreateBanks(s, rows[..k]).after, rows[k]).response == CreateBanks(s, rows).response
    ensures CreateBanks(s, rows).response.error in {MissingCountryError, DuplicateCodeError}
    decreases |rows|
  {
    var r0, rest := rows[0], rows[1..];
    var step := InsertRow(s, r0);
    if step.response.Reject? {
      k := 0;
      assert rows[..0] == [];
    } else {
      var k' := CreateBanksStopsAtFirstFailure(step.after, rest);
      k := k' + 1;
      assert rows[..k] == [r0] + rest[..k'];
      assert ([r0] + rest[..k'])[1..] == rest[..k'];
      assert rows[k] == rest[k'];
    }
  }

  /** A well-formed headquarters record with an 11-character code is its own
      candidate, which is not stored yet when it is looked up, so it is never
      linked to itself. */
  lemma BulkHeadquartersUnlinked(s: Store, rows: seq<BankRow>)
    requires CreateBanks(s, rows).response.Pass?
    requires forall r :: r in rows ==> WellFormedRow(r)
    ensures forall i :: 0 <= i < |rows| && rows[i].isHeadquarter && |rows[i].swiftCode| == SWIFT_CODE_LEN ==>
      rows[i].swiftCode in CreateBanks(s, rows).after.banks &&
      CreateBanks(s, rows).after.banks[rows[i].swiftCode].headquarter.None?
  {
    CreateBanksSucceedsIff(s, rows);
    CreateBanksInsertsEach(s, rows);
    forall i | 0 <= i < |rows| && rows[i].isHeadquarter && |rows[i].swiftCode| == SWIFT_CODE_LEN
      ensures LinkAt(s, rows, i).None?
    {
      assert rows[i] in rows;
      PotentialHqFixedPoint(rows[i].swiftCode);
      assert RowCodes(rows[..i]) == RowCodes(rows)[..i];
    }
  }

  /** With the records in extraction order (headquarters first), every branch
      record whose candidate headquarters is also a record is linked to it and
      listed among its branches. */
  lemma SortedLoadLinksBranches(s: Store, rows: seq<BankRow>)
    requires CreateBanks(s, rows).response.Pass?
    requires forall r :: r in rows ==> WellFormedRow(r)
    requires SortedBy(rows, RowKey)
    ensures var t := CreateBanks(s, rows).after;
      forall i, j :: 0 <= i < |rows| && 0 <= j < |rows| && !rows[i].isHeadquarter && rows[j].isHeadquarter &&
                     rows[i].potentialHq == rows[j].swiftCode ==>
        && rows[i].swiftCode in t.banks
        && t.banks[rows[i].swiftCode].headquarter == Some(rows[j].swiftCode)
        && rows[i].swiftCode in Branches(t, rows[j].swiftCode)
  {
    var t := CreateBanks(s, rows).after;
    CreateBanksInsertsEach(s, rows);
    CreateBanksAppendsCodes(s, rows);
    SortedRowsHeadquartersFirst(rows);
    forall i, j | 0 <= i < |rows| && 0 <= j < |rows| && !rows[i].isHeadquarter && rows[j].isHeadquarter &&
                  rows[i].potentialHq == rows[j].swiftCode
      ensures rows[i].swiftCode in t.banks
      ensures t.banks[rows[i].swiftCode].headquarter == Some(rows[j].swiftCode)
      ensures rows[i].swiftCode in Branches(t, rows[j].swiftCode)
    {
      assert j < i;
      assert RowCodes(rows[..i])[j] == rows[j].swiftCode;
      assert rows[i].swiftCode in RowCodes(rows);
    }
  }

  /** Extraction followed by the bulk load: branches reach their headquarters. */
  lemma ExtractThenLoadLinksBranches(s: Store, sheet: seq<SheetRow>)
    requires CreateBanks(s, ExtractBanks(sheet)).response.Pass?
    ensures var rows, t := ExtractBanks(sheet), CreateBanks(s, ExtractBanks(sheet)).after;
      forall i, j :: 0 <= i < |rows| && 0 <= j < |rows| && !rows[i].isHeadquarter && rows[j].isHeadquarter &&
                     rows[i].potentialHq == rows[j].swiftCode ==>
        rows[i].swiftCode in Branches(t, rows[j].swiftCode)
  {
    SortedLoadLinksBranches(s, ExtractBanks(sheet));
  }

  /** Out of order, a branch loaded before its headquarters stays an orphan:
      the bulk path links only to codes already stored, so a branch whose
      headquarters comes later in the same load is stored without a link and
      is not among that headquarters' branches. */
  lemma BranchBeforeHeadquartersStaysOrphan(s: Store, branch: BankRow, hq: BankRow)
    requires CreateBanks(s, [branch, hq]).response.Pass?
    requires branch.potentialHq == hq.swiftCode && hq.swiftCode !in s.banks
    ensures var t := CreateBanks(s, [branch, hq]).after;
      && branch.swiftCode in t.banks && hq.swiftCode in t.banks
      && t.banks[branch.swiftCode] == RowBank(branch, None)
      && branch.swiftCode !in Branches(t, hq.swiftCode)
  {
    var rows := [branch, hq];
    CreateBanksInsertsEach(s, rows);
    assert rows[0] == branch && rows[1] == hq;
    assert rows[..0] == [];
    assert RowCodes(rows[..0]) == [];
    assert LinkAt(s, rows, 0) == None;
  }

  // ----- create_countries -----

  /** The ISO2 codes of country records, in order. */
  function Isos(rows: seq<CountryRow>): (r: seq<string>)
    ensures |r| == |rows| && forall i :: 0 <= i < |rows| ==> r[i] == rows[i].iso2
  {
    seq(|rows|, i requires 0 <= i < |rows| => rows[i].iso2)
  }

  /** Adding country records succeeds exactly when their ISO2 codes are
      pairwise distinct and none is stored yet. */
  lemma {:induction false} AddCountriesSucceedsIff(m: map<string, string>, rows: seq<CountryRow>)
    ensures AddCountries(m, rows).Some? <==> NoDup(Isos(rows)) && forall k :: k in Isos(rows) ==> k !in m
    decreases |rows|
  {
    if rows != [] {
      var r0, rest := rows[0], rows[1..];
      AddCountriesSucceedsIff(m[r0.iso2 := r0.name], rest);
      assert Isos(rows) == [r0.iso2] + Isos(rest);
      NoDupConsIff(r0.iso2, Isos(rest));
    }
  }

  /** When adding succeeds, the stored codes grow by the records' codes. */
  lemma {:induction false} AddCountriesKeys(m: map<string, string>, rows: seq<CountryRow>)
    requires AddCountries(m, rows).Some?
    ensures AddCountries(m, rows).value.Keys == m.Keys + (set k | k in Isos(rows))
    decreases |rows|
  {
    if rows != [] {
      var r0, rest := rows[0], rows[1..];
      var m1 := m[r0.iso2 := r0.name];
      assert AddCountries(m, rows) == AddCountries(m1, rest);
      AddCountriesKeys(m1, rest);
      assert Isos(rows) == [r0.iso2] + Isos(rest);
      assert (set k | k in Isos(rows)) == {r0.iso2} + (set k | k in Isos(rest));
    }
  }

  /** When adding succeeds, the count grows by the number of records. */
  lemma {:induction false} AddCountriesSize(m: map<string, string>, rows: seq<CountryRow>)
    requires AddCountries(m, rows).Some?
    ensures |AddCountries(m, rows).value| == |m| + |rows|
    decreases |rows|
  {
    if rows != [] {
      var r0, rest := rows[0], rows[1..];
      var m1 := m[r0.iso2 := r0.name];
      assert AddCountries(m, rows) == AddCountries(m1, rest);
      AddCountriesSize(m1, rest);
      assert |m1| == |m| + 1;
    }
  }

  /** When adding succeeds, every record is stored under its code and nothing
      stored before changes. */
  lemma {:induction false} AddCountriesValues(m: map<string, string>, rows: seq<CountryRow>)
    requires AddCountries(m, rows).Some?
    ensures var m' := AddCountries(m, rows).value;
      && (forall k :: k in m ==> k in m' && m'[k] == m[k])
      && (forall i :: 0 <= i < |rows| ==> rows[i].iso2 in m' && m'[rows[i].iso2] == rows[i].name)
    decreases |rows|
  {
    if rows != [] {
      var r0, rest := rows[0], rows[1..];
      var m1 := m[r0.iso2 := r0.name];
      AddCountriesValues(m1, rest);
      var m' := AddCountries(m, rows).value;
      assert m' == AddCountries(m1, rest).value;
      forall i | 0 <= i < |rows| ensures rows[i].iso2 in m' && m'[rows[i].iso2] == rows[i].name {
        if i > 0 { assert rows[i] == rest[i - 1]; }
      }
    }
  }

  /** create_countries adds the records all together or none of them. */
  lemma CreateCountriesAddsEach(s: Store, rows: seq<CountryRow>)
    requires Valid(s)
    ensures var r := CreateCountries(s, rows);
      && Valid(r.after)
      && r.after.banks == s.banks && r.after.order == s.order
      && (r.response.Pass? <==> NoDup(Isos(rows)) && forall k :: k in Isos(rows) ==> k !in s.countries)
      && (r.response.Reject? ==> r.response.error == DuplicateCountryError && r.after == s)
      && (r.response.Pass? ==>
            && |r.after.countries| == |s.countries| + |rows|
            && r.after.countries.Keys == s.countries.Keys + (set k | k in Isos(rows))
            && (forall k :: k in s.countries ==> r.after.countries[k] == s.countries[k])
            && (forall i :: 0 <= i < |rows| ==> r.after.countries[rows[i].iso2] == rows[i].name))
  {
    AddCountriesSucceedsIff(s.countries, rows);
    if AddCountries(s.countries, rows).Some? {
      AddCountriesKeys(s.countries, rows);
      AddCountriesSize(s.countries, rows);
      AddCountriesValues(s.countries, rows);
    }
    var t := CreateCountries(s, rows).after;
    forall c | c in t.banks ensures BankOk(t, c) {
      assert BankOk(s, c);
    }
  }
}
