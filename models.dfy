/** The entities of src/models.py and the read views built from them.
    The database is a Store: banks keyed by SWIFT code (the unique column),
    the codes in insertion order (the order relationship lists come back in),
    and countries keyed by ISO2 code. The headquarters link is a key; the
    branches of a bank are derived from the links, never stored. */
module Models {
  import opened Wrappers
  import opened Seqs
  import opened Codes

  /** A row of the bank table. `countryIso2` is the owning country's key, and
      `headquarter` is the key of the headquarters row, if any. */
  datatype Bank = Bank(
    swiftCode: string,
    name: string,
    address: string,
    isHeadquarter: bool,
    countryIso2: string,
    headquarter: Option<string>)

  datatype Store = Store(banks: map<string, Bank>, order: seq<string>, countries: map<string, string>)

  /** A bank's headquarters link, if set, names another stored bank: the code
      made of the bank's first 8 characters and "XXX". */
  ghost predicate HeadquarterLinkOk(s: Store, c: string)
    requires c in s.banks
  {
    s.banks[c].headquarter.Some? ==>
      var h := s.banks[c].headquarter.value;
      h in s.banks && h != c && h == PotentialHq(c)
  }

  /** The constraints every stored bank row satisfies. */
  ghost predicate BankOk(s: Store, c: string)
    requires c in s.banks
  {
    && s.banks[c].swiftCode == c
    && s.banks[c].countryIso2 in s.countries
    && s.banks[c].isHeadquarter == EndsWithXXX(c)
    && HeadquarterLinkOk(s, c)
  }

  /** The store invariant: one row per code, listed once in insertion order,
      every row consistent and every link pointing to a stored row. */
  ghost predicate Valid(s: Store)
  {
    && NoDup(s.order)
    && (forall c :: c in s.order <==> c in s.banks)
    && (forall c :: c in s.banks ==> BankOk(s, c))
  }

  /** The stored codes, in insertion order, whose row satisfies `keep`. */
  function Select(order: seq<string>, banks: map<string, Bank>, keep: Bank -> bool): (r: seq<string>)
    ensures forall c :: c in r <==> c in order && c in banks && keep(banks[c])
    ensures |r| <= |order|
  {
    if order == [] then []
    else (if order[0] in banks && keep(banks[order[0]]) then [order[0]] else []) + Select(order[1..], banks, keep)
  }

  /** No listed row meets the condition: the derived list is empty. */
  lemma SelectNone(order: seq<string>, banks: map<string, Bank>, keep: Bank -> bool)
    requires forall c :: c in order && c in banks ==> !keep(banks[c])
    ensures Select(order, banks, keep) == []
  {
  }

  /** A derived list of a duplicate-free order lists each code once. */
  lemma {:induction false} SelectNoDup(order: seq<string>, banks: map<string, Bank>, keep: Bank -> bool)
    requires NoDup(order)
    ensures NoDup(Select(order, banks, keep))
  {
    if order != [] {
      assert order == [order[0]] + order[1..];
      SelectNoDup(order[1..], banks, keep);
      var rest := Select(order[1..], banks, keep);
      if order[0] in banks && keep(banks[order[0]]) {
        NoDupCons(order[0], rest);
      }
    }
  }

  /** Appending a code to the insertion order appends it to every derived
      list whose condition its row meets, and to no other. */
  lemma {:induction false} SelectAppend(order: seq<string>, banks: map<string, Bank>, keep: Bank -> bool, c: string)
    ensures Select(order + [c], banks, keep) ==
            Select(order, banks, keep) + (if c in banks && keep(banks[c]) then [c] else [])
  {
    if order == [] {
      assert order + [c] == [c];
    } else {
      assert (order + [c])[1..] == order[1..] + [c];
      SelectAppend(order[1..], banks, keep, c);
    }
  }

  /** A derived list only depends on the rows of the listed codes. */
  lemma {:induction false} SelectFrame(order: seq<string>, banks1: map<string, Bank>, keep1: Bank -> bool,
                                       banks2: map<string, Bank>, keep2: Bank -> bool)
    requires forall c :: c in order ==> (c in banks1 && keep1(banks1[c])) == (c in banks2 && keep2(banks2[c]))
    ensures Select(order, banks1, keep1) == Select(order, banks2, keep2)
  {
    if order != [] {
      SelectFrame(order[1..], banks1, keep1, banks2, keep2);
    }
  }

  /** Taking a code out of the insertion order takes it out of a derived list,
      provided the condition is unchanged on every other listed row. */
  lemma {:induction false} SelectWithout(order: seq<string>, banks1: map<string, Bank>, keep1: Bank -> bool,
                                         banks2: map<string, Bank>, keep2: Bank -> bool, x: string)
    requires forall c :: c in order && c != x ==> (c in banks1 && keep1(banks1[c])) == (c in banks2 && keep2(banks2[c]))
    ensures Select(Without(order, x), banks2, keep2) == Without(Select(order, banks1, keep1), x)
  {
    if order != [] {
      var h, t := order[0], order[1..];
      assert order == [h] + t;
      SelectWithout(t, banks1, keep1, banks2, keep2, x);
      var s1 := Select(t, banks1, keep1);
      var in1 := h in banks1 && keep1(banks1[h]);
      assert Select(order, banks1, keep1) == (if in1 then [h] else []) + s1;
      if in1 {
        WithoutCons(h, s1, x);
      }
      WithoutCons(h, t, x);
      if h != x {
        var w := Without(t, x);
        assert ([h] + w)[0] == h && ([h] + w)[1..] == w;
        assert h in order;
        var in2 := h in banks2 && keep2(banks2[h]);
        assert in1 == in2;
        calc {
          Select(Without(order, x), banks2, keep2);
          Select([h] + w, banks2, keep2);
          (if in2 then [h] else []) + Select(w, banks2, keep2);
          (if in1 then [h] else []) + Without(s1, x);
          { if !in1 { assert [] + s1 == s1; assert [] + Without(s1, x) == Without(s1, x); } }
          Without((if in1 then [h] else []) + s1, x);
          Without(Select(order, banks1, keep1), x);
        }
      } else {
        if !in1 { assert [] + s1 == s1; }
        assert Without(Select(order, banks1, keep1), x) == Without(s1, x);
        assert Without(order, x) == Without(t, x);
      }
    }
  }

  /** The condition of a row whose headquarters link is `hq`. */
  function LinkedTo(hq: string): Bank -> bool
  {
    (b: Bank) => b.headquarter == Some(hq)
  }

  /** The condition of a row owned by the country `iso2`. */
  function OwnedBy(iso2: string): Bank -> bool
  {
    (b: Bank) => b.countryIso2 == iso2
  }

  /** `Bank.branches`: the rows whose headquarters link is `hq`, in insertion order. */
  function Branches(s: Store, hq: string): seq<string>
  {
    Select(s.order, s.banks, LinkedTo(hq))
  }

  /** `Country.banks`: the rows owned by the country `iso2`, in insertion order. */
  function CountryBanks(s: Store, iso2: string): seq<string>
  {
    Select(s.order, s.banks, OwnedBy(iso2))
  }

  /** Links and branch lists are two views of one relation: b is among the
      branches of h exactly when b's link is h. And then h is a stored
      headquarters sharing b's first 8 characters. */
  lemma BranchesMirrorLinks(s: Store, b: string, h: string)
    requires Valid(s)
    ensures b in Branches(s, h) <==> b in s.banks && s.banks[b].headquarter == Some(h)
    ensures b in Branches(s, h) ==>
      && h in s.banks && s.banks[h].isHeadquarter && h != b
      && (|b| >= 8 ==> |h| == 11 && h[..8] == b[..8])
  {
    if b in Branches(s, h) {
      assert BankOk(s, b);
    }
  }

  // ----- Read views -----

  /** BankBase: a bank without its country's name. */
  datatype BankBase = BankBase(address: string, bankName: string, countryISO2: string, isHeadquarter: bool, swiftCode: string)

  /** BankCreate: the BankBase fields plus the country's name. It is also the
      body of a create request. */
  datatype BankCreate = BankCreate(base: BankBase, countryName: string)

  /** BankWithBranches: a headquarters' BankCreate fields plus its branches. */
  datatype BankWithBranches = BankWithBranches(bank: BankCreate, branches: seq<BankBase>)

  /** CountryWithBanks: a country with all the banks it owns. */
  datatype CountryWithBanks = CountryWithBanks(countryISO2: string, countryName: string, swiftCodes: seq<BankBase>)

  /** What reading one bank returns: a branch without a branches field, a
      headquarters with one. */
  datatype BankView = Single(bank: BankCreate) | WithBranches(headquarters: BankWithBranches)

  /** BankBase.from_bank */
  function BaseFromBank(b: Bank): BankBase
  {
    BankBase(b.address, b.name, b.countryIso2, b.isHeadquarter, b.swiftCode)
  }

  /** BankCreate.from_bank: the BankBase view plus the name of the owning country. */
  function CreateFromBank(b: Bank, countries: map<string, string>): BankCreate
    requires b.countryIso2 in countries
  {
    BankCreate(BaseFromBank(b), countries[b.countryIso2])
  }

  /** `[BankBase.from_bank(b) for b in ...]` over a list of stored codes. */
  function BasesFromCodes(codes: seq<string>, banks: map<string, Bank>): (r: seq<BankBase>)
    requires forall c :: c in codes ==> c in banks
    ensures |r| == |codes|
    ensures forall i :: 0 <= i < |codes| ==> r[i] == BaseFromBank(banks[codes[i]])
  {
    if codes == [] then []
    else [BaseFromBank(banks[codes[0]])] + BasesFromCodes(codes[1..], banks)
  }

  /** When every listed row is stored under its own code, the entries built
      from a list of codes carry exactly those codes. */
  lemma BasesCarryCodes(codes: seq<string>, banks: map<string, Bank>, c: string)
    requires forall k :: k in codes ==> k in banks && banks[k].swiftCode == k
    ensures (exists e :: e in BasesFromCodes(codes, banks) && e.swiftCode == c) <==> c in codes
  {
    var r := BasesFromCodes(codes, banks);
    if c in codes {
      var k :| 0 <= k < |codes| && codes[k] == c;
      assert r[k].swiftCode == c;
    }
    if e :| e in r && e.swiftCode == c {
      var k :| 0 <= k < |r| && r[k] == e;
      assert codes[k] in codes;
    }
  }

  /** BankWithBranches.from_bank */
  function WithBranchesFromBank(s: Store, code: string): BankWithBranches
    requires Valid(s) && code in s.banks
  {
    assert BankOk(s, code);
    BankWithBranches(CreateFromBank(s.banks[code], s.countries), BasesFromCodes(Branches(s, code), s.banks))
  }

  /** CountryWithBanks.from_country */
  function FromCountry(s: Store, iso2: string): CountryWithBanks
    requires iso2 in s.countries
  {
    CountryWithBanks(iso2, s.countries[iso2], BasesFromCodes(CountryBanks(s, iso2), s.banks))
  }
}
