/** Country reference data and the lookups built on it (`Compliance::Countries`).

    The ISO 3166 country data that the source reads from a library is an input here: a `Table`
    of countries, each with its alpha-2 code, common name, the names it can be found by, the
    historical names the platform adds, and its subdivisions. The platform's own lists (OFAC
    blocks, fraud-risk blocks, taxable states, tax regimes, prefecture readings) are constants. */
module Compliance {
  import opened Wrappers
  import Text
  import Sorting

  datatype Subdivision = Subdivision(
    code: string,
    name: string,
    kind: string,
    englishName: string,
    japaneseName: Option<string>)

  datatype Country = Country(
    alpha2: string,
    commonName: string,
    names: seq<string>,
    historicalNames: seq<string>,
    subdivisions: seq<Subdivision>)

  type Table = seq<Country>

  predicate IsUpperLetter(c: char) {
    'A' <= c <= 'Z'
  }

  /** Two upper-case ASCII letters, the shape of every ISO 3166 alpha-2 code. */
  predicate IsAlpha2(s: string) {
    |s| == 2 && IsUpperLetter(s[0]) && IsUpperLetter(s[1])
  }

  // ---------------------------------------------------------------------------------------------
  // Blocked countries

  /** Countries blocked under OFAC regulation. */
  const BlockedCountryCodes: seq<string> :=
    ["AF", "CU", "CD", "CI", "IQ", "IR", "LB", "LR", "LY", "MM", "KP", "SO", "SD", "SY", "YE", "ZW"]

  /** Countries blocked from physical sales because of fraud levels. */
  const RiskPhysicalBlockedCountryCodes: seq<string> :=
    ["AL", "BD", "DZ", "ID", "LT", "MA", "MM", "PA", "TN", "VN"]

  /** `blocked?`: an exact, case-sensitive membership test. */
  function Blocked(alpha2: string): (r: bool)
    ensures r ==> IsAlpha2(alpha2)
  {
    alpha2 in BlockedCountryCodes
  }

  /** `risk_physical_blocked?`. */
  function RiskPhysicalBlocked(alpha2: string): (r: bool)
    ensures r ==> IsAlpha2(alpha2)
  {
    alpha2 in RiskPhysicalBlockedCountryCodes
  }

  /** The OFAC list has sixteen distinct codes and the risk list ten; Myanmar is on both, and it
      is the only country on both. */
  lemma BlockedListsShape()
    ensures |BlockedCountryCodes| == 16 && |RiskPhysicalBlockedCountryCodes| == 10
    ensures Text.Distinct(BlockedCountryCodes) && Text.Distinct(RiskPhysicalBlockedCountryCodes)
    ensures forall c :: Blocked(c) && RiskPhysicalBlocked(c) <==> c == "MM"
  {
  }

  function Same(s: string): string {
    s
  }

  // ---------------------------------------------------------------------------------------------
  // Select lists

  datatype SelectOption = SelectOption(value: string, name: string)

  function Label(o: SelectOption): string {
    o.name
  }

  const NotSupportedSuffix: string := " (not supported)"

  function DisplayName(c: Country): string {
    if Blocked(c.alpha2) then c.commonName + NotSupportedSuffix else c.commonName
  }

  /** The suffix is added exactly to the blocked countries. */
  lemma DisplayNameSuffix(c: Country)
    ensures DisplayName(c) == c.commonName + NotSupportedSuffix <==> Blocked(c.alpha2)
  {
    if !Blocked(c.alpha2) {
      assert |DisplayName(c)| < |c.commonName + NotSupportedSuffix|;
    }
  }

  function CountryOption(c: Country): SelectOption {
    SelectOption(c.alpha2, DisplayName(c))
  }

  function CountryOptions(table: Table): (os: seq<SelectOption>)
    ensures |os| == |table|
    ensures forall i :: 0 <= i < |table| ==> os[i] == CountryOption(table[i])
  {
    seq(|table|, i requires 0 <= i < |table| => CountryOption(table[i]))
  }

  /** `for_select`: one option per country, labelled with its display name, sorted by label. */
  function ForSelect(table: Table): (r: seq<SelectOption>)
    ensures |r| == |table|
    ensures Sorting.SortedBy(r, Label, Text.LexLe)
    ensures multiset(r) == multiset(CountryOptions(table))
  {
    Sorting.LexLeTotalPreorder();
    Sorting.SortBy(CountryOptions(table), Label, Text.LexLe)
  }

  /** Each country has its option in the list, and every option comes from a country. */
  lemma ForSelectOptions(table: Table)
    ensures forall c :: c in table ==> CountryOption(c) in ForSelect(table)
    ensures forall o :: o in ForSelect(table) ==> exists c :: c in table && o == CountryOption(c)
  {
    var r := ForSelect(table);
    var os := CountryOptions(table);
    forall c | c in table ensures CountryOption(c) in r {
      var i :| 0 <= i < |table| && table[i] == c;
      assert os[i] in multiset(os);
    }
    forall o | o in r ensures exists c :: c in table && o == CountryOption(c) {
      assert o in multiset(r);
      var i :| 0 <= i < |os| && os[i] == o;
      assert table[i] in table;
    }
  }

  // ---------------------------------------------------------------------------------------------
  // Finding a country by name

  /** The white-space characters of Ruby's `blank?` on ASCII text. */
  predicate IsSpace(c: char) {
    c == ' ' || c == '\t' || c == '\n' || c == '\r' || c == '\U{000C}' || c == '\U{000B}'
  }

  /** Ruby `blank?`: nil, empty, or only white space. */
  predicate IsBlank(s: Option<string>) {
    s.None? || forall i :: 0 <= i < |s.value| ==> IsSpace(s.value[i])
  }

  /** The first country of the table listed under `name`. */
  function FirstNamed(table: Table, name: string): (r: Option<Country>)
    ensures r.Some? ==> r.value in table && name in r.value.names
    ensures r.None? <==> forall c :: c in table ==> name !in c.names
    decreases |table|
  {
    if |table| == 0 then None
    else if name in table[0].names then Some(table[0])
    else
      var r := FirstNamed(table[1..], name);
      assert forall c :: c in table ==> c == table[0] || c in table[1..];
      r
  }

  /** `find_by_name`. */
  function FindByName(table: Table, name: Option<string>): Option<Country> {
    if IsBlank(name) then None else FirstNamed(table, name.value)
  }

  /** `historical_names`: the common name first, then the recorded historical names, without
      repeats. */
  function HistoricalNames(table: Table, name: Option<string>): seq<string> {
    match FindByName(table, name)
    case None => []
    case Some(c) => Text.DedupBy([c.commonName] + c.historicalNames, Same)
  }

  lemma HistoricalNamesProperties(table: Table, name: Option<string>)
    ensures FindByName(table, name).None? ==> HistoricalNames(table, name) == []
    ensures FindByName(table, name).Some? ==>
              var c := FindByName(table, name).value;
              var r := HistoricalNames(table, name);
              && |r| > 0 && r[0] == c.commonName
              && Text.Distinct(r)
              && (forall n :: n in r <==> n == c.commonName || n in c.historicalNames)
  {
    if FindByName(table, name).Some? {
      var c := FindByName(table, name).value;
      var all := [c.commonName] + c.historicalNames;
      var r := HistoricalNames(table, name);
      Text.DedupByKeys(all, Same);
      Text.DedupByKeepsHead(all, Same);
      forall i, j | 0 <= i < j < |r| ensures r[i] != r[j] {
        assert Same(r[i]) != Same(r[j]);
      }
      forall n ensures n in r <==> n == c.commonName || n in c.historicalNames {
        assert Same(n) == n;
        assert n in r <==> Same(n) in Text.Keys(r, Same);
        assert n in all <==> Same(n) in Text.Keys(all, Same);
      }
    }
  }

  // ---------------------------------------------------------------------------------------------
  // Flags

  /** Distance from 'A' to REGIONAL INDICATOR SYMBOL LETTER A (U+1F1E6). */
  const RegionalIndicatorOffset: int := 127397

  const GlobeShowingAmericas: char := '\U{1F30E}'

  /** `elsewhere_with_flag`. */
  const ElsewhereWithFlag: string := [GlobeShowingAmericas] + " Elsewhere"

  /** Each code point shifted into the Regional Indicator block. A shifted value past U+10FFFF is
      not a character here, so it is an error; for an alpha-2 code the shift never gets there. */
  function Flag(code: string): (r: Result<string>)
    ensures r.Success? ==> |r.value| == |code|
    ensures r.Success? ==> forall i :: 0 <= i < |code| ==> r.value[i] as int == code[i] as int + RegionalIndicatorOffset
    ensures r.Failure? <==> exists i :: 0 <= i < |code| && code[i] as int + RegionalIndicatorOffset > 0x10FFFF
    decreases |code|
  {
    if |code| == 0 then Success([])
    else if code[0] as int + RegionalIndicatorOffset > 0x10FFFF then Failure("pack(U): value out of range")
    else
      match Flag(code[1..])
      case Failure(e) => Failure(e)
      case Success(rest) => Success([(code[0] as int + RegionalIndicatorOffset) as char] + rest)
  }

  /** Reads a flag back as the letters it shows. */
  function Unflag(flag: string): (r: string)
    requires forall i :: 0 <= i < |flag| ==> 0x1F1E6 <= flag[i] as int <= 0x1F1FF
  {
    seq(|flag|, i requires 0 <= i < |flag| => (flag[i] as int - RegionalIndicatorOffset) as char)
  }

  /** An alpha-2 code becomes two Regional Indicator Symbols (U+1F1E6 to U+1F1FF), from which
      the code is read back. */
  lemma FlagOfAlpha2(code: string)
    requires IsAlpha2(code)
    ensures Flag(code).Success?
    ensures var f := Flag(code).value;
            && |f| == 2
            && (forall i :: 0 <= i < 2 ==> 0x1F1E6 <= f[i] as int <= 0x1F1FF)
            && Unflag(f) == code
  {
    var f := Flag(code).value;
    assert Unflag(f)[0] == code[0] && Unflag(f)[1] == code[1];
  }

  /** `country_with_flag_by_name`: the flag of the country found, a space and the name as given;
      the globe and "Elsewhere" when nothing is found. */
  function CountryWithFlagByName(table: Table, name: Option<string>): (r: Result<string>)
    ensures FindByName(table, name).None? ==> r == Success(ElsewhereWithFlag)
    ensures FindByName(table, name).Some? && IsAlpha2(FindByName(table, name).value.alpha2) ==>
              && r.Success?
              && r.value == Flag(FindByName(table, name).value.alpha2).value + " " + name.value
  {
    match FindByName(table, name)
    case None => Success(ElsewhereWithFlag)
    case Some(c) =>
      if IsBlank(Some(c.alpha2)) then Success(ElsewhereWithFlag)
      else
        match Flag(c.alpha2)
        case Failure(e) => Failure(e)
        case Success(f) => Success(f + " " + name.value)
  }

  // ---------------------------------------------------------------------------------------------
  // Subdivisions

  /** `ISO3166::Country[alpha2]`: the first country with that code. */
  function CountryByCode(table: Table, alpha2: string): (r: Option<Country>)
    ensures r.Some? ==> r.value in table && r.value.alpha2 == alpha2
    ensures r.None? <==> forall c :: c in table ==> c.alpha2 != alpha2
    decreases |table|
  {
    if |table| == 0 then None
    else if table[0].alpha2 == alpha2 then Some(table[0])
    else
      var r := CountryByCode(table[1..], alpha2);
      assert forall c :: c in table ==> c == table[0] || c in table[1..];
      r
  }

  /** The subdivision's name or English name equals `s` up to case. */
  predicate NameMatches(sub: Subdivision, s: string) {
    Text.Downcase(sub.name) == Text.Downcase(s) || Text.Downcase(sub.englishName) == Text.Downcase(s)
  }

  /** The code of the first subdivision whose name matches `s` up to case. */
  function FirstNameMatch(subs: seq<Subdivision>, s: string): (r: Option<string>)
    ensures r.Some? ==> exists i :: 0 <= i < |subs| && subs[i].code == r.value && NameMatches(subs[i], s)
                          && forall j :: 0 <= j < i ==> !NameMatches(subs[j], s)
    ensures r.None? <==> forall sub :: sub in subs ==> !NameMatches(sub, s)
    decreases |subs|
  {
    if |subs| == 0 then None
    else if NameMatches(subs[0], s) then Some(subs[0].code)
    else
      var r := FirstNameMatch(subs[1..], s);
      assert forall sub :: sub in subs ==> sub == subs[0] || sub in subs[1..];
      if r.Some? then
        ghost var i :| 0 <= i < |subs[1..]| && subs[1..][i].code == r.value && NameMatches(subs[1..][i], s)
                         && forall j :: 0 <= j < i ==> !NameMatches(subs[1..][j], s);
        assert subs[i + 1] == subs[1..][i];
        assert forall j :: 1 <= j < i + 1 ==> subs[j] == subs[1..][j - 1];
        r
      else r
  }

  predicate IsSubdivisionCode(c: Country, s: string) {
    exists sub :: sub in c.subdivisions && sub.code == s
  }

  /** `find_subdivision_code`: nil for a nil string or an unknown country; the string itself when
      it is a subdivision code; otherwise the code of the first subdivision whose name or English
      name equals the string up to case, or nil. */
  function FindSubdivisionCode(table: Table, alpha2: string, s: Option<string>): (r: Option<string>)
    ensures s.None? || CountryByCode(table, alpha2).None? ==> r.None?
    ensures s.Some? && CountryByCode(table, alpha2).Some? ==>
              var c := CountryByCode(table, alpha2).value;
              && (IsSubdivisionCode(c, s.value) ==> r == s)
              && (!IsSubdivisionCode(c, s.value) ==>
                    && (r.Some? ==> exists sub :: sub in c.subdivisions && sub.code == r.value && NameMatches(sub, s.value))
                    && (r.None? <==> forall sub :: sub in c.subdivisions ==> !NameMatches(sub, s.value)))
  {
    if s.None? then None
    else
      match CountryByCode(table, alpha2)
      case None => None
      case Some(c) =>
        if IsSubdivisionCode(c, s.value) then s
        else FirstNameMatch(c.subdivisions, s.value)
  }

  /** Looking a subdivision up by name ignores letter case. */
  lemma FindSubdivisionCodeIgnoresCase(table: Table, alpha2: string, s: string, t: string)
    requires Text.Downcase(s) == Text.Downcase(t)
    requires CountryByCode(table, alpha2).Some?
    requires !IsSubdivisionCode(CountryByCode(table, alpha2).value, s)
    requires !IsSubdivisionCode(CountryByCode(table, alpha2).value, t)
    ensures FindSubdivisionCode(table, alpha2, Some(s)) == FindSubdivisionCode(table, alpha2, Some(t))
  {
    var subs := CountryByCode(table, alpha2).value.subdivisions;
    FirstNameMatchIgnoresCase(subs, s, t);
  }

  lemma {:induction false} FirstNameMatchIgnoresCase(subs: seq<Subdivision>, s: string, t: string)
    requires Text.Downcase(s) == Text.Downcase(t)
    ensures FirstNameMatch(subs, s) == FirstNameMatch(subs, t)
    decreases |subs|
  {
    if |subs| > 0 {
      FirstNameMatchIgnoresCase(subs[1..], s, t);
    }
  }

  datatype SubdivisionOption = SubdivisionOption(code: string, name: string)

  function SubdivisionLabel(o: SubdivisionOption): string {
    o.name
  }

  /** The countries `subdivisions_for_select` supports. */
  const SubdivisionSelectCountries: seq<string> := ["US", "CA", "AU", "AE", "MX", "IE", "BR"]

  /** Which subdivisions the select list keeps for a country. */
  predicate KeptForSelect(alpha2: string, sub: Subdivision) {
    if alpha2 == "US" then sub.kind == "state" || sub.kind == "district"
    else if alpha2 == "IE" then sub.kind == "county"
    else true
  }

  /** The option for a subdivision: labelled with its English name in the UAE, its name elsewhere. */
  function SubdivisionOptionFor(alpha2: string, sub: Subdivision): SubdivisionOption {
    SubdivisionOption(sub.code, if alpha2 == "AE" then sub.englishName else sub.name)
  }

  function KeptOptions(alpha2: string, subs: seq<Subdivision>): (r: seq<SubdivisionOption>)
    ensures forall o :: o in r <==> exists sub :: sub in subs && KeptForSelect(alpha2, sub) && o == SubdivisionOptionFor(alpha2, sub)
    decreases |subs|
  {
    if |subs| == 0 then []
    else
      var rest := KeptOptions(alpha2, subs[1..]);
      assert forall sub :: sub in subs <==> sub == subs[0] || sub in subs[1..];
      if KeptForSelect(alpha2, subs[0]) then [SubdivisionOptionFor(alpha2, subs[0])] + rest else rest
  }

  /** The filter keeps the subdivisions' order: the options of a concatenation are the options of
      its parts, one after the other. */
  lemma {:induction false} KeptOptionsAppend(alpha2: string, a: seq<Subdivision>, b: seq<Subdivision>)
    ensures KeptOptions(alpha2, a + b) == KeptOptions(alpha2, a) + KeptOptions(alpha2, b)
    decreases |a|
  {
    if |a| > 0 {
      assert (a + b)[1..] == a[1..] + b;
      KeptOptionsAppend(alpha2, a[1..], b);
    } else {
      assert a + b == b;
    }
  }

  /** Outside the US and Ireland every subdivision is kept: one option per subdivision, in order. */
  lemma {:induction false} KeptOptionsMapsAll(alpha2: string, subs: seq<Subdivision>)
    requires alpha2 != "US" && alpha2 != "IE"
    ensures KeptOptions(alpha2, subs) == seq(|subs|, i requires 0 <= i < |subs| => SubdivisionOptionFor(alpha2, subs[i]))
    decreases |subs|
  {
    if |subs| > 0 {
      KeptOptionsMapsAll(alpha2, subs[1..]);
    }
  }

  /** For the US and Ireland a subdivision of another type yields no option, and one of a kept
      type yields exactly one. */
  lemma KeptOptionsOfOne(alpha2: string, sub: Subdivision)
    ensures KeptOptions(alpha2, [sub]) == if KeptForSelect(alpha2, sub) then [SubdivisionOptionFor(alpha2, sub)] else []
  {
  }

  /** The subdivisions of the country with that code (none when it is missing from the table). */
  function SubdivisionsOf(table: Table, alpha2: string): seq<Subdivision> {
    match CountryByCode(table, alpha2)
    case None => []
    case Some(c) => c.subdivisions
  }

  /** `subdivisions_for_select`: raises for an unsupported country; otherwise the kept subdivisions
      as (code, label) options sorted by label. */
  function SubdivisionsForSelect(table: Table, alpha2: string): (r: Result<seq<SubdivisionOption>>)
    ensures r.Failure? <==> alpha2 !in SubdivisionSelectCountries
    ensures r.Success? ==> Sorting.SortedBy(r.value, SubdivisionLabel, Text.LexLe)
    ensures r.Success? ==> multiset(r.value) == multiset(KeptOptions(alpha2, SubdivisionsOf(table, alpha2)))
    ensures r.Success? ==> forall o :: o in r.value <==>
              exists sub :: sub in SubdivisionsOf(table, alpha2) && KeptForSelect(alpha2, sub) && o == SubdivisionOptionFor(alpha2, sub)
  {
    if alpha2 !in SubdivisionSelectCountries then Failure("Country subdivisions not supported")
    else
      Sorting.LexLeTotalPreorder();
      var kept := KeptOptions(alpha2, SubdivisionsOf(table, alpha2));
      var sorted := Sorting.SortBy(kept, SubdivisionLabel, Text.LexLe);
      assert forall o :: o in sorted <==> o in kept by {
        forall o ensures o in sorted <==> o in kept {
          Sorting.SortByMembership(kept, SubdivisionLabel, Text.LexLe, o);
        }
      }
      Success(sorted)
  }

  // ---------------------------------------------------------------------------------------------
  // Japanese prefectures

  /** The katakana reading of each prefecture's kanji name. */
  const JapanPrefectureKanaTable: map<string, string> := map[
      "北海道" := "ホッカイドウ",
      "青森県" := "アオモリケン",
      "岩手県" := "イワテケン",
      "宮城県" := "ミヤギケン",
      "秋田県" := "アキタケン",
      "山形県" := "ヤマガタケン",
      "福島県" := "フクシマケン",
      "茨城県" := "イバラキケン",
      "栃木県" := "トチギケン",
      "群馬県" := "グンマケン",
      "埼玉県" := "サイタマケン",
      "千葉県" := "チバケン",
      "東京都" := "トウキョウト",
      "神奈川県" := "カナガワケン",
      "新潟県" := "ニイガタケン",
      "富山県" := "トヤマケン",
      "石川県" := "イシカワケン",
      "福井県" := "フクイケン",
      "山梨県" := "ヤマナシケン",
      "長野県" := "ナガノケン",
      "岐阜県" := "ギフケン",
      "静岡県" := "シズオカケン",
      "愛知県" := "アイチケン",
      "三重県" := "ミエケン",
      "滋賀県" := "シガケン",
      "京都府" := "キョウトフ",
      "大阪府" := "オオサカフ",
      "兵庫県" := "ヒョウゴケン",
      "奈良県" := "ナラケン",
      "和歌山県" := "ワカヤマケン",
      "鳥取県" := "トットリケン",
      "島根県" := "シマネケン",
      "岡山県" := "オカヤマケン",
      "広島県" := "ヒロシマケン",
      "山口県" := "ヤマグチケン",
      "徳島県" := "トクシマケン",
      "香川県" := "カガワケン",
      "愛媛県" := "エヒメケン",
      "高知県" := "コウチケン",
      "福岡県" := "フクオカケン",
      "佐賀県" := "サガケン",
      "長崎県" := "ナガサキケン",
      "熊本県" := "クマモトケン",
      "大分県" := "オオイタケン",
      "宮崎県" := "ミヤザキケン",
      "鹿児島県" := "カゴシマケン",
      "沖縄県" := "オキナワケン"
    ]

  /** `japan_prefecture_kana`. */
  function JapanPrefectureKana(kanji: string): (r: Option<string>)
    ensures r.Some? <==> kanji in JapanPrefectureKanaTable
    ensures r.Some? ==> r.value == JapanPrefectureKanaTable[kanji] && r.value in JapanPrefectureKanaTable.Values
  {
    if kanji in JapanPrefectureKanaTable then Some(JapanPrefectureKanaTable[kanji]) else None
  }

  datatype PrefectureOption = PrefectureOption(value: Option<string>, caption: Option<string>, kana: Option<string>)

  function PrefectureOptionFor(sub: Subdivision): PrefectureOption {
    var kanji := sub.japaneseName;
    PrefectureOption(kanji, kanji, if kanji.Some? then JapanPrefectureKana(kanji.value) else None)
  }

  /** `japan_prefectures_for_select`: one option per Japanese subdivision, in order, valued and
      labelled by its Japanese name, with the reading when the table has one. */
  function JapanPrefecturesForSelect(table: Table): (r: seq<PrefectureOption>)
    ensures |r| == |SubdivisionsOf(table, "JP")|
    ensures forall i :: 0 <= i < |r| ==>
              && r[i].value == r[i].caption == SubdivisionsOf(table, "JP")[i].japaneseName
              && (r[i].kana.Some? <==> r[i].value.Some? && r[i].value.value in JapanPrefectureKanaTable)
              && r[i].kana == (if r[i].value.Some? then JapanPrefectureKana(r[i].value.value) else None)
  {
    var subs := SubdivisionsOf(table, "JP");
    seq(|subs|, i requires 0 <= i < |subs| => PrefectureOptionFor(subs[i]))
  }

  // ---------------------------------------------------------------------------------------------
  // Tax

  /** US states where the platform, as Merchant of Record, collects sales tax. */
  const TaxableUsStateCodes: seq<string> :=
    ["AR", "AZ", "CO", "CT", "DC", "GA", "HI", "IA", "IL", "IN", "KS", "KY", "LA", "MA", "MD", "MI", "MN", "NC",
     "ND", "NE", "NJ", "NV", "NY", "OH", "OK", "PA", "RI", "SD", "TN", "TX", "UT", "VT", "WA", "WI", "WV", "WY"]

  /** `taxable_state?`. */
  function TaxableState(code: string): (r: bool)
    ensures r ==> IsAlpha2(code)
  {
    assert forall i :: 0 <= i < |TaxableUsStateCodes| ==> IsAlpha2(TaxableUsStateCodes[i]);
    code in TaxableUsStateCodes
  }

  /** A two-letter code as a number, ordered as the codes are alphabetically. */
  function PairKey(code: string): int {
    if |code| >= 2 then code[0] as int * 0x11_0000 + code[1] as int else 0
  }

  /** The list holds 36 distinct codes, in alphabetical order. */
  lemma TaxableStatesShape()
    ensures |TaxableUsStateCodes| == 36
    ensures forall i :: 0 < i < |TaxableUsStateCodes| ==> PairKey(TaxableUsStateCodes[i - 1]) < PairKey(TaxableUsStateCodes[i])
    ensures Text.Distinct(TaxableUsStateCodes)
  {
    Text.IncreasingKeyDistinct(TaxableUsStateCodes, PairKey);
  }

  const EuVatApplicableCountryCodes: seq<string> :=
    ["AT", "BE", "BG", "HR", "CY", "CZ", "DK", "EE", "FI", "FR", "DE", "GR", "HU", "IE", "IT", "LV", "LT", "LU",
     "MT", "NL", "PL", "PT", "RO", "SK", "SI", "ES", "SE", "GB"]
  const NorwayVatApplicableCountryCodes: seq<string> := ["NO"]
  const GstApplicableCountryCodes: seq<string> := ["AU", "SG"]
  const OtherTaxableCountryCodes: seq<string> := ["CA"]
  const CountriesThatCollectTaxOnAllProducts: seq<string> := ["IS", "JP", "NZ", "ZA", "CH", "AE", "IN"]
  const CountriesThatCollectTaxOnDigitalProductsWithTaxIdProValidation: seq<string> :=
    ["BY", "CL", "CO", "CR", "EC", "EG", "GE", "KZ", "MY", "MX", "MD", "MA", "RU", "SA", "RS", "KR", "TH", "TR",
     "UA", "UZ", "VN"]
  const CountriesThatCollectTaxOnDigitalProductsWithoutTaxIdProValidation: seq<string> :=
    ["BH", "KE", "NG", "OM", "TZ"]
  const CountriesThatCollectTaxOnDigitalProducts: seq<string> :=
    CountriesThatCollectTaxOnDigitalProductsWithTaxIdProValidation
      + CountriesThatCollectTaxOnDigitalProductsWithoutTaxIdProValidation

  /** The countries that validate tax ids are 21 distinct codes, the others 5 distinct codes. */
  lemma DigitalProductsTaxListsDistinct()
    ensures |CountriesThatCollectTaxOnDigitalProductsWithTaxIdProValidation| == 21
    ensures |CountriesThatCollectTaxOnDigitalProductsWithoutTaxIdProValidation| == 5
    ensures Text.Distinct(CountriesThatCollectTaxOnDigitalProductsWithTaxIdProValidation)
    ensures Text.Distinct(CountriesThatCollectTaxOnDigitalProductsWithoutTaxIdProValidation)
  {
  }

  /** No country is on both digital-products lists. */
  lemma DigitalProductsTaxListsDisjoint()
    ensures forall i, j ::
              0 <= i < |CountriesThatCollectTaxOnDigitalProductsWithTaxIdProValidation| &&
              0 <= j < |CountriesThatCollectTaxOnDigitalProductsWithoutTaxIdProValidation| ==>
                CountriesThatCollectTaxOnDigitalProductsWithTaxIdProValidation[i]
                  != CountriesThatCollectTaxOnDigitalProductsWithoutTaxIdProValidation[j]
  {
  }

  /** The digital-products list is the validated list followed by the unvalidated one: 26 distinct
      codes, the first 21 validated. */
  lemma DigitalProductsTaxList()
    ensures |CountriesThatCollectTaxOnDigitalProducts| == 26
    ensures CountriesThatCollectTaxOnDigitalProducts[..21] == CountriesThatCollectTaxOnDigitalProductsWithTaxIdProValidation
    ensures CountriesThatCollectTaxOnDigitalProducts[21..] == CountriesThatCollectTaxOnDigitalProductsWithoutTaxIdProValidation
    ensures Text.Distinct(CountriesThatCollectTaxOnDigitalProducts)
  {
    DigitalProductsTaxListsDistinct();
    DigitalProductsTaxListsDisjoint();
    Text.DistinctConcat(CountriesThatCollectTaxOnDigitalProductsWithTaxIdProValidation,
                        CountriesThatCollectTaxOnDigitalProductsWithoutTaxIdProValidation);
  }
}
