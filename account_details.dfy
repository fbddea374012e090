/** The decision tables of the payout settings form (`AccountDetailsSection`): which business
    types, state lists and tax-id fields a country gets, which optional sections show, and the
    date-of-birth choices. The option lists the page receives from the server are inputs. */
module AccountDetails {
  import opened Wrappers
  import Text

  /** A `{ code, name }` option (a state, a province, a business type). */
  datatype Choice = Choice(code: string, name: string)

  /** A `{ value, label, kana }` option for a Japanese prefecture. */
  datatype Prefecture = Prefecture(value: string, caption: string, kana: string)

  /** The option lists passed to the form: `states.*` and the three business-type lists. */
  datatype FormData = FormData(
    us: seq<Choice>, ca: seq<Choice>, au: seq<Choice>, mx: seq<Choice>, ae: seq<Choice>,
    ir: seq<Choice>, br: seq<Choice>, jp: seq<Prefecture>,
    uaeBusinessTypes: seq<Choice>, indiaBusinessTypes: seq<Choice>, canadaBusinessTypes: seq<Choice>)

  /** The fields of the compliance info the tables read; a country is `null` or a code. */
  datatype ComplianceInfo = ComplianceInfo(isBusiness: bool, country: Option<string>, businessCountry: Option<string>)

  datatype User = User(countryCode: Option<string>, needFullSsn: bool, individualTaxIdNeededCountries: seq<string>)

  /** JavaScript truthiness of a nullable string: present and not empty. */
  predicate Truthy(s: Option<string>) {
    s.Some? && s.value != ""
  }

  // ---------------------------------------------------------------------------------------------
  // Business types

  /** `getBusinessTypes`: the business-type list of the business country, for AE, IN and CA. */
  function BusinessTypes(data: FormData, info: ComplianceInfo): (r: Option<seq<Choice>>)
    ensures r.Some? <==> info.businessCountry in {Some("AE"), Some("IN"), Some("CA")}
    ensures info.businessCountry == Some("AE") ==> r == Some(data.uaeBusinessTypes)
    ensures info.businessCountry == Some("IN") ==> r == Some(data.indiaBusinessTypes)
    ensures info.businessCountry == Some("CA") ==> r == Some(data.canadaBusinessTypes)
  {
    if !Truthy(info.businessCountry) then None
    else if info.businessCountry.value == "AE" then Some(data.uaeBusinessTypes)
    else if info.businessCountry.value == "IN" then Some(data.indiaBusinessTypes)
    else if info.businessCountry.value == "CA" then Some(data.canadaBusinessTypes)
    else None
  }

  // ---------------------------------------------------------------------------------------------
  // State, province and prefecture selects

  datatype StateList = Plain(choices: seq<Choice>) | Prefectures(prefectures: seq<Prefecture>)

  datatype StateConfig = StateConfig(states: StateList, caption: string, idSuffix: string)

  /** The countries with a plain state select, for individuals and businesses alike. */
  const StateCountries: set<string> := {"US", "CA", "AU", "MX", "AE", "IE", "BR"}

  /** The `states.*` list of a country with a plain state select (Ireland's is `states.ir`). */
  function PlainStates(data: FormData, code: string): seq<Choice>
    requires code in StateCountries
  {
    if code == "US" then data.us
    else if code == "CA" then data.ca
    else if code == "AU" then data.au
    else if code == "MX" then data.mx
    else if code == "AE" then data.ae
    else if code == "IE" then data.ir
    else data.br
  }

  /** The caption of a country's subdivision select. */
  function StateCaption(code: string): string {
    if code in {"CA", "AE"} then "Province" else if code == "IE" then "County" else "State"
  }

  /** `getBusinessStateConfig`: a config for the seven countries and for Japan, whose list is the
      prefecture list; none otherwise. */
  function BusinessStateConfig(data: FormData, info: ComplianceInfo): (r: Option<StateConfig>)
    ensures r.Some? <==> info.businessCountry.Some? && info.businessCountry.value in StateCountries + {"JP"}
    ensures r.Some? && info.businessCountry == Some("JP") ==>
              r.value == StateConfig(Prefectures(data.jp), "Prefecture", "business-prefecture")
    ensures r.Some? && info.businessCountry != Some("JP") ==>
              && r.value.states == Plain(PlainStates(data, info.businessCountry.value))
              && r.value.caption == StateCaption(info.businessCountry.value)
  {
    match info.businessCountry
    case None => None
    case Some(c) =>
      if c == "US" then Some(StateConfig(Plain(data.us), "State", "business-state"))
      else if c == "CA" then Some(StateConfig(Plain(data.ca), "Province", "business-province"))
      else if c == "AU" then Some(StateConfig(Plain(data.au), "State", "business-state"))
      else if c == "MX" then Some(StateConfig(Plain(data.mx), "State", "business-state"))
      else if c == "AE" then Some(StateConfig(Plain(data.ae), "Province", "business-state"))
      else if c == "IE" then Some(StateConfig(Plain(data.ir), "County", "business-county"))
      else if c == "JP" then Some(StateConfig(Prefectures(data.jp), "Prefecture", "business-prefecture"))
      else if c == "BR" then Some(StateConfig(Plain(data.br), "State", "business-state"))
      else None
  }

  /** `getIndividualStateConfig`: a plain config for the seven countries; none otherwise. */
  function IndividualStateConfig(data: FormData, info: ComplianceInfo): (r: Option<StateConfig>)
    ensures r.Some? <==> info.country.Some? && info.country.value in StateCountries
    ensures r.Some? ==> && r.value.states == Plain(PlainStates(data, info.country.value))
                        && r.value.caption == StateCaption(info.country.value)
  {
    match info.country
    case None => None
    case Some(c) =>
      if c == "US" then Some(StateConfig(Plain(data.us), "State", "creator-state"))
      else if c == "CA" then Some(StateConfig(Plain(data.ca), "Province", "creator-province"))
      else if c == "AU" then Some(StateConfig(Plain(data.au), "State", "creator-state"))
      else if c == "MX" then Some(StateConfig(Plain(data.mx), "State", "creator-state"))
      else if c == "AE" then Some(StateConfig(Plain(data.ae), "Province", "creator-province"))
      else if c == "IE" then Some(StateConfig(Plain(data.ir), "County", "creator-county"))
      else if c == "BR" then Some(StateConfig(Plain(data.br), "State", "creator-state"))
      else None
  }

  /** The element ids of the two selects: `business-*` and `creator-*`. */
  lemma StateConfigIdSuffixes(data: FormData, info: ComplianceInfo)
    ensures BusinessStateConfig(data, info).Some? ==>
              BusinessStateConfig(data, info).value.idSuffix[..9] == "business-"
    ensures IndividualStateConfig(data, info).Some? ==>
              IndividualStateConfig(data, info).value.idSuffix[..8] == "creator-"
  {
    var b, c := BusinessStateConfig(data, info), IndividualStateConfig(data, info);
    assert b.Some? ==> (b.value.idSuffix in {"business-state", "business-province", "business-county", "business-prefecture"});
    assert c.Some? ==> (c.value.idSuffix in {"creator-state", "creator-province", "creator-county"});
  }

  /** For the same country, the individual and the business select offer the same list under the
      same caption; Japan has only the business one. */
  lemma StateConfigsAgree(data: FormData, c: string, b: bool)
    ensures var info := ComplianceInfo(b, Some(c), Some(c));
            && (IndividualStateConfig(data, info).Some? ==> BusinessStateConfig(data, info).Some?)
            && (IndividualStateConfig(data, info).Some? ==>
                  && IndividualStateConfig(data, info).value.states == BusinessStateConfig(data, info).value.states
                  && IndividualStateConfig(data, info).value.caption == BusinessStateConfig(data, info).value.caption)
            && (BusinessStateConfig(data, info).Some? && IndividualStateConfig(data, info).None? <==> c == "JP")
  {
  }

  /** `isPrefectureConfig`: whether the FIRST option has a `value` key. Plain options never do,
      and an empty prefecture list reads as a plain one. */
  predicate IsPrefectureConfig(config: StateConfig) {
    config.states.Prefectures? && |config.states.prefectures| > 0
  }

  /** Only the business select for Japan renders as a prefecture select, and only when the
      prefecture list is not empty. */
  lemma PrefectureSelectOnlyForJapan(data: FormData, info: ComplianceInfo)
    ensures BusinessStateConfig(data, info).Some? ==>
              (IsPrefectureConfig(BusinessStateConfig(data, info).value) <==>
                 info.businessCountry == Some("JP") && |data.jp| > 0)
    ensures IndividualStateConfig(data, info).Some? ==> !IsPrefectureConfig(IndividualStateConfig(data, info).value)
  {
  }

  // ---------------------------------------------------------------------------------------------
  // Tax-id fields

  /** A tax-id field; the lengths bound the number of characters typed. */
  datatype TaxIdConfig = TaxIdConfig(
    caption: string, placeholder: string, minLength: Option<nat>, maxLength: Option<nat>, idSuffix: string)

  const DefaultBusinessTaxIdCaption := "Company tax ID"
  const DefaultBusinessTaxIdPlaceholder := "12345678"

  /** The countries with their own business tax-id caption. */
  const BusinessTaxIdCountries: set<string> := {"US", "CA", "AU", "GB", "MX"}

  /** `getBusinessTaxIdConfig`: always a config with the `business-tax-id` suffix and no length
      bounds; the caption and placeholder are the business country's own, or the defaults. */
  function BusinessTaxIdConfig(info: ComplianceInfo): (r: TaxIdConfig)
    ensures r.idSuffix == "business-tax-id" && r.minLength.None? && r.maxLength.None?
    ensures !(info.businessCountry.Some? && info.businessCountry.value in BusinessTaxIdCountries) ==>
              r.caption == DefaultBusinessTaxIdCaption && r.placeholder == DefaultBusinessTaxIdPlaceholder
    ensures info.businessCountry.Some? && info.businessCountry.value in BusinessTaxIdCountries ==>
              r.caption != DefaultBusinessTaxIdCaption
  {
    var own: Option<(string, string)> :=
      if !Truthy(info.businessCountry) then None
      else
        var c := info.businessCountry.value;
        if c == "US" then Some(("Business Tax ID (EIN, or SSN for sole proprietors)", "12-3456789"))
        else if c == "CA" then Some(("Business Number (BN)", "123456789"))
        else if c == "AU" then Some(("Australian Business Number (ABN)", "12 123 456 789"))
        else if c == "GB" then Some(("Company Number (CRN)", "12345678"))
        else if c == "MX" then Some(("Business RFC", "12345678"))
        else None;
    TaxIdConfig(
      if own.Some? then own.value.0 else DefaultBusinessTaxIdCaption,
      if own.Some? then own.value.1 else DefaultBusinessTaxIdPlaceholder,
      None, None, "business-tax-id")
  }

  datatype TaxIdEntry = TaxIdEntry(code: string, config: TaxIdConfig)

  function Bounded(caption: string, placeholder: string, min: nat, max: nat, idSuffix: string): TaxIdConfig {
    TaxIdConfig(caption, placeholder, Some(min), Some(max), idSuffix)
  }

  /** The individual tax-id fields of the countries other than the US. */
  const IndividualTaxIdTable: seq<TaxIdEntry> := [
    TaxIdEntry("CA", Bounded("Social Insurance Number", "•••••••••", 9, 9, "social-insurance-number")),
    TaxIdEntry("CO", Bounded("Cédula de Ciudadanía (CC)", "1.123.123.123", 13, 13, "colombia-id-number")),
    TaxIdEntry("UY", Bounded("Cédula de Identidad (CI)", "1.123.123-1", 11, 11, "uruguay-id-number")),
    TaxIdEntry("HK", Bounded("Hong Kong ID Number", "123456789", 8, 9, "hong-kong-id-number")),
    TaxIdEntry("SG", Bounded("NRIC number / FIN", "123456789", 9, 9, "singapore-id-number")),
    TaxIdEntry("AE", Bounded("Emirates ID", "123456789123456", 15, 15, "uae-id-number")),
    TaxIdEntry("MX", Bounded("Personal RFC", "1234567891234", 13, 13, "mexico-id-number")),
    TaxIdEntry("KZ", Bounded("Individual identification number (IIN)", "123456789", 9, 12, "kazakhstan-id-number")),
    TaxIdEntry("AR", Bounded("CUIL", "12-12345678-1", 13, 13, "argentina-id-number")),
    TaxIdEntry("PE", Bounded("DNI number", "12345678-9", 10, 10, "peru-id-number")),
    TaxIdEntry("PK", Bounded("National Identity Card Number (SNIC or CNIC)", "•••••••••", 13, 13, "snic")),
    TaxIdEntry("CR", Bounded("Tax Identification Number", "1234567890", 9, 12, "costa-rica-id-number")),
    TaxIdEntry("CL", Bounded("Rol Único Tributario (RUT)", "123456789", 8, 9, "chile-id-number")),
    TaxIdEntry("DO", Bounded("Cédula de identidad y electoral (CIE)", "123-1234567-1", 13, 13, "dominican-republic-id-number")),
    TaxIdEntry("BO", Bounded("Cédula de Identidad (CI)", "12345678", 8, 8, "bolivia-id-number")),
    TaxIdEntry("PY", Bounded("Cédula de Identidad (CI)", "1234567", 7, 7, "paraguay-id-number")),
    TaxIdEntry("BD", Bounded("Personal ID number", "123456789", 1, 20, "bangladesh-id-number")),
    TaxIdEntry("MZ", Bounded("Mozambique Taxpayer Single ID Number (NUIT)", "123456789", 9, 9, "mozambique-id-number")),
    TaxIdEntry("GT", Bounded("Número de Identificación Tributaria (NIT)", "1234567-8", 8, 12, "guatemala-id-number")),
    TaxIdEntry("BR", Bounded("Cadastro de Pessoas Físicas (CPF)", "123.456.789-00", 11, 14, "brazil-id-number"))
  ]

  const FullSsn := Bounded("Social Security Number", "•••-••-••••", 9, 11, "social-security-number-full")
  const LastFourSsn := Bounded("Last 4 digits of SSN", "••••", 4, 4, "social-security-number")

  /** The record lookup `configs[code]`: the entry of the table for `code`, if any. */
  function TableLookup(table: seq<TaxIdEntry>, code: string): (r: Option<TaxIdConfig>)
    ensures r.None? <==> forall i :: 0 <= i < |table| ==> table[i].code != code
    ensures r.Some? ==> exists i :: 0 <= i < |table| && table[i] == TaxIdEntry(code, r.value)
    decreases |table|
  {
    if |table| == 0 then None
    else if table[0].code == code then Some(table[0].config)
    else
      var r := TableLookup(table[1..], code);
      assert forall i :: 1 <= i < |table| ==> table[i] == table[1..][i - 1];
      r
  }

  /** The countries of the table, in its order. */
  const IndividualTaxIdCountries: seq<string> :=
    ["CA", "CO", "UY", "HK", "SG", "AE", "MX", "KZ", "AR", "PE", "PK", "CR", "CL", "DO", "BO", "PY", "BD", "MZ", "GT", "BR"]

  /** The table has one entry for each country of the list, in the same order. */
  lemma IndividualTaxIdTableShape()
    ensures |IndividualTaxIdTable| == 20
    ensures forall i :: 0 <= i < |IndividualTaxIdTable| ==> IndividualTaxIdTable[i].code == IndividualTaxIdCountries[i]
  {
  }

  /** The 20 countries of the table are distinct, and none of them is the US. */
  lemma IndividualTaxIdCountriesDistinct()
    ensures Text.Distinct(IndividualTaxIdCountries)
    ensures "US" !in IndividualTaxIdCountries
  {
    assert forall i :: 0 <= i < |IndividualTaxIdCountries| ==> IndividualTaxIdCountries[i] != "US";
  }

  /** Every configured tax-id field, the two SSN variants included, has bounds 1 <= min <= max. */
  predicate WellBounded(c: TaxIdConfig) {
    c.minLength.Some? && c.maxLength.Some? && 1 <= c.minLength.value <= c.maxLength.value
  }

  /** Every field of the table has bounds 1 <= min <= max. */
  lemma IndividualTaxIdTableWellBounded()
    ensures forall i :: 0 <= i < |IndividualTaxIdTable| ==> WellBounded(IndividualTaxIdTable[i].config)
  {
  }

  /** `getIndividualTaxIdConfig`: for the US the full SSN when the user must give it, else its
      last four digits; for another country its table entry; nothing for a missing country. */
  function IndividualTaxIdConfig(info: ComplianceInfo, user: User): (r: Option<TaxIdConfig>)
    ensures info.country == Some("US") ==> r == Some(if user.needFullSsn then FullSsn else LastFourSsn)
    ensures info.country.None? ==> r.None?
    ensures r.Some? ==> WellBounded(r.value)
    ensures info.country.Some? && info.country.value != "US" ==>
              (r.Some? <==> exists i :: 0 <= i < |IndividualTaxIdTable| && IndividualTaxIdTable[i].code == info.country.value)
    ensures info.country.Some? && info.country.value != "US" && r.Some? ==>
              exists i :: 0 <= i < |IndividualTaxIdTable| && IndividualTaxIdTable[i] == TaxIdEntry(info.country.value, r.value)
  {
    IndividualTaxIdTableWellBounded();
    if info.country == Some("US") then Some(if user.needFullSsn then FullSsn else LastFourSsn)
    else if !Truthy(info.country) then None
    else TableLookup(IndividualTaxIdTable, info.country.value)
  }

  /** No two entries of the table share a code. */
  predicate CodesDistinct(table: seq<TaxIdEntry>) {
    forall j, k :: 0 <= j < k < |table| ==> table[j].code != table[k].code
  }

  /** In a table whose codes are distinct, the lookup finds the entry with that code. */
  lemma {:induction false} TableLookupFinds(table: seq<TaxIdEntry>, i: nat)
    requires i < |table| && CodesDistinct(table)
    ensures TableLookup(table, table[i].code) == Some(table[i].config)
    decreases i
  {
    if i > 0 {
      assert table[0].code != table[i].code;
      assert CodesDistinct(table[1..]) by {
        forall j, k | 0 <= j < k < |table[1..]| ensures table[1..][j].code != table[1..][k].code {
          assert table[j + 1].code != table[k + 1].code;
        }
      }
      TableLookupFinds(table[1..], i - 1);
    }
  }

  /** No two entries of the table share a code, and no entry is for the US or has an empty code. */
  lemma IndividualTaxIdCodesDistinct()
    ensures CodesDistinct(IndividualTaxIdTable)
    ensures forall i :: 0 <= i < |IndividualTaxIdTable| ==> IndividualTaxIdTable[i].code != "US" && IndividualTaxIdTable[i].code != ""
  {
    IndividualTaxIdTableShape();
    IndividualTaxIdCountriesDistinct();
    assert forall i :: 0 <= i < |IndividualTaxIdCountries| ==> IndividualTaxIdCountries[i] in IndividualTaxIdCountries;
  }

  /** For a country other than the US, the config is the table's lookup of it. */
  lemma IndividualTaxIdConfigLooksUp(info: ComplianceInfo, user: User, code: string)
    requires info.country == Some(code) && code != "US" && code != ""
    ensures IndividualTaxIdConfig(info, user) == TableLookup(IndividualTaxIdTable, code)
  {
  }

  /** The config for a country of the table is that country's entry. */
  lemma IndividualTaxIdConfigOfCountry(info: ComplianceInfo, user: User, i: nat)
    requires i < |IndividualTaxIdTable| && info.country == Some(IndividualTaxIdTable[i].code)
    ensures IndividualTaxIdConfig(info, user) == Some(IndividualTaxIdTable[i].config)
  {
    IndividualTaxIdCodesDistinct();
    IndividualTaxIdConfigLooksUp(info, user, IndividualTaxIdTable[i].code);
    TableLookupFinds(IndividualTaxIdTable, i);
  }

  // ---------------------------------------------------------------------------------------------
  // Optional sections

  /** The country the account-type choice depends on. */
  function ApplicableCountry(info: ComplianceInfo): Option<string> {
    if info.isBusiness then info.businessCountry else info.country
  }

  /** `showAccountTypeSection`: hidden exactly when the applicable country is the UAE. */
  function ShowAccountTypeSection(info: ComplianceInfo): (r: bool)
    ensures !r <==> ApplicableCountry(info) == Some("AE")
  {
    if info.isBusiness then info.businessCountry != Some("AE") else info.country != Some("AE")
  }

  const NationalityCountries: set<string> := {"AE", "SG", "PK", "BD"}

  /** `showNationalityField`: only for users in the UAE, Singapore, Pakistan and Bangladesh. */
  function ShowNationalityField(user: User): (r: bool)
    ensures r <==> user.countryCode.Some? && user.countryCode.value in NationalityCountries
  {
    user.countryCode == Some("AE") || user.countryCode == Some("SG")
    || user.countryCode == Some("PK") || user.countryCode == Some("BD")
  }

  /** `needsIndividualTaxId`: the business country (for a business) or the personal country is one
      where the processor needs an individual tax id. */
  function NeedsIndividualTaxId(info: ComplianceInfo, user: User): bool {
    (info.isBusiness && info.businessCountry.Some? && info.businessCountry.value in user.individualTaxIdNeededCountries)
    || (info.country.Some? && info.country.value in user.individualTaxIdNeededCountries)
  }

  /** For an individual the business country plays no part: only the personal country decides. */
  lemma NeedsIndividualTaxIdForIndividuals(info: ComplianceInfo, user: User, businessCountry: Option<string>)
    requires !info.isBusiness
    ensures NeedsIndividualTaxId(info.(businessCountry := businessCountry), user) == NeedsIndividualTaxId(info, user)
    ensures NeedsIndividualTaxId(info, user) <==> info.country.Some? && info.country.value in user.individualTaxIdNeededCountries
  {
  }

  /** Adding a country to the list of countries that need a tax id never withdraws the need. */
  lemma NeedsIndividualTaxIdMonotone(info: ComplianceInfo, user: User, more: seq<string>)
    requires NeedsIndividualTaxId(info, user)
    ensures NeedsIndividualTaxId(info, user.(individualTaxIdNeededCountries := user.individualTaxIdNeededCountries + more))
    ensures NeedsIndividualTaxId(info, user.(individualTaxIdNeededCountries := more + user.individualTaxIdNeededCountries))
  {
  }

  /** The individual tax-id field is rendered when it is needed and has a config. */
  function ShowIndividualTaxIdField(info: ComplianceInfo, user: User): (r: Option<TaxIdConfig>)
    ensures r.Some? ==> NeedsIndividualTaxId(info, user) && WellBounded(r.value)
    ensures r.Some? <==> NeedsIndividualTaxId(info, user) && IndividualTaxIdConfig(info, user).Some?
  {
    if NeedsIndividualTaxId(info, user) then IndividualTaxIdConfig(info, user) else None
  }

  /** A US individual always gets a tax-id field when the US needs one. */
  lemma UsTaxIdFieldShown(info: ComplianceInfo, user: User)
    requires info.country == Some("US") && "US" in user.individualTaxIdNeededCountries
    ensures ShowIndividualTaxIdField(info, user).Some?
    ensures ShowIndividualTaxIdField(info, user).value.minLength == Some(if user.needFullSsn then 9 else 4)
  {
  }

  // ---------------------------------------------------------------------------------------------
  // Date of birth

  /** `Array.from({ length: n }, (_, i) => i + start)`; a negative length gives no elements. */
  function CountFrom(start: int, length: int): (r: seq<int>)
    ensures |r| == if length < 0 then 0 else length
    ensures forall i :: 0 <= i < |r| ==> r[i] == start + i
  {
    if length <= 0 then [] else seq(length, i requires 0 <= i < length => start + i)
  }

  /** Membership in a counted range, and its order. */
  lemma CountFromRange(start: int, length: int, x: int)
    ensures x in CountFrom(start, length) <==> start <= x < start + length
    ensures forall i, j :: 0 <= i < j < |CountFrom(start, length)| ==> CountFrom(start, length)[i] < CountFrom(start, length)[j]
  {
    var r := CountFrom(start, length);
    if start <= x < start + length {
      assert r[x - start] == x;
    }
  }

  function DobMonths(): (r: seq<int>)
    ensures forall m :: m in r <==> 1 <= m <= 12
  {
    var r := CountFrom(1, 12);
    forall m ensures m in r <==> 1 <= m <= 12 { CountFromRange(1, 12, m); }
    r
  }

  function DobDays(): (r: seq<int>)
    ensures forall d :: d in r <==> 1 <= d <= 31
  {
    var r := CountFrom(1, 31);
    forall d ensures d in r <==> 1 <= d <= 31 { CountFromRange(1, 31, d); }
    r
  }

  /** The year choices: 1900 up to the year before `minDobYear`; none when that is 1900 or earlier. */
  function DobYears(minDobYear: int): (r: seq<int>)
    ensures forall y :: y in r <==> 1900 <= y < minDobYear
    ensures |r| == if minDobYear < 1900 then 0 else minDobYear - 1900
  {
    var r := CountFrom(1900, minDobYear - 1900);
    forall y ensures y in r <==> 1900 <= y < minDobYear { CountFromRange(1900, minDobYear - 1900, y); }
    r
  }
}
