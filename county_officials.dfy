/** The officials page: its copy of the colour table, which hashes without
    truncation; the leaders table and its four filters; the county and
    party options; the name-search validation; and the colours of the pie
    charts. */
module CountyOfficials {
  import opened Js
  import opened Sequences
  import opened Hashing
  import opened PartyColors
  import CountiesMap

  const Hard: map<string, string> := map[
    "ODM" := "orange-400", "UDA" := "amber-400", "Jubilee" := "red-500",
    "Wiper" := "blue-500", "WIPER" := "blue-500", "ANC" := "teal-400",
    "IND" := "gray-400", "Independent" := "gray-400", "UDM" := "pink-400",
    "UPA" := "maroon-400", "DP" := "green-700", "NRA" := "purple-150",
    "TSP" := "purple-100", "KANU" := "brown-400", "NARC" := "yellow-100",
    "FORD-K" := "green-200"]

  const Palette: map<string, string> := map[
    "orange-400" := "#fb923c", "amber-400" := "#d3b822", "red-500" := "#d32240",
    "blue-500" := "#377eb8", "teal-400" := "#32b6c2", "gray-400" := "#999999",
    "pink-400" := "#f781bf", "green-200" := "#86efac", "brown-400" := "#a65628",
    "purple-100" := "#e9d5ff", "green-700" := "#396115", "maroon-400" := "#4f0b2b",
    "purple-150" := "#aa87c7", "yellow-100" := "#c7be87"]

  const Colors: Table := Table(Hard, Palette)

  /** This page's `getPartyColor`: the county map's table, the hash without
      `h |= 0`; never undefined. */
  function PartyColor(abbrev: Option<string>, name: Option<string>): (c: Color)
    ensures IsTruthy(c)
    ensures c.Hsl? <==> !Hits(Colors, abbrev) && !Hits(Colors, name)
    ensures c.Hsl? ==> c == Hsl(Untruncated, FallbackKey(abbrev, name))
  {
    ColorsComplete();
    ResolveIsDefined(Colors, Untruncated, abbrev, name);
    Resolve(Colors, Untruncated, abbrev, name)
  }

  /** The table and palette are the county map's, entry for entry. */
  lemma SameTableAsCountiesMap()
    ensures Colors == CountiesMap.Colors
  {
  }

  lemma ColorsComplete()
    ensures Complete(Colors)
  {
    SameTableAsCountiesMap();
    CountiesMap.ColorsComplete();
  }

  /** So the two pages give every party the same palette colour, and on a
      miss hash the same key, each with its own variant of the hash. */
  lemma SameColorsUpToHash(abbrev: Option<string>, name: Option<string>)
    ensures var c, d := PartyColor(abbrev, name), CountiesMap.PartyColor(abbrev, name);
      && (c.Hsl? <==> d.Hsl?)
      && (c.Hsl? ==> c.key == d.key && c.variant == Untruncated && d.variant == Truncating)
      && (!c.Hsl? ==> c == d)
  {
    SameTableAsCountiesMap();
  }

  lemma NarcKenyaMissesHere()
    ensures PartyColor(None, Some("NARC-Kenya")) == Hsl(Untruncated, "NARC-Kenya")
  {
    assert !Hits(Colors, Some("NARC-Kenya"));
  }

  lemma NarcKenyaMissesOnCountiesMap()
    ensures CountiesMap.PartyColor(None, Some("NARC-Kenya")) == Hsl(Truncating, "NARC-Kenya")
  {
    assert !Hits(CountiesMap.Colors, Some("NARC-Kenya"));
  }

  /** ... which is not the same hue: the party named "NARC-Kenya" is drawn
      at hue 235 here and at hue 21 on the county map. */
  lemma NarcKenyaHuesDiffer()
    ensures HslHue(PartyColor(None, Some("NARC-Kenya"))) == 235
    ensures HslHue(CountiesMap.PartyColor(None, Some("NARC-Kenya"))) == 21
  {
    NarcKenyaMissesHere();
    NarcKenyaMissesOnCountiesMap();
    NarcKenyaUntruncatedHue();
    NarcKenyaTruncatedHue();
  }

  // ---------------------------------------------------------------------
  // Leaders and the filters

  datatype LeaderParty = LeaderParty(abbrev: Option<string>, name: Option<string>)

  datatype Leader = Leader(name: string, position: Option<string>, county: Option<string>, party: Option<LeaderParty>)

  /** The four filter states: search name, position, party and county. */
  datatype Filters = Filters(searchName: string, position: string, party: string, county: string)

  const InitialFilters: Filters := Filters("", "All Leaders", "All Parties", "")

  /** `leader.name.toLowerCase().includes(searchName.toLowerCase())`. */
  predicate MatchesName(f: Filters, l: Leader) {
    Includes(Lower(l.name), Lower(f.searchName))
  }

  predicate MatchesPosition(f: Filters, l: Leader) {
    f.position == "All Leaders" || l.position == Some(f.position)
  }

  predicate MatchesParty(f: Filters, l: Leader) {
    f.party == "All Parties" || (l.party.Some? && l.party.value.abbrev == Some(f.party))
  }

  predicate MatchesCounty(f: Filters, l: Leader) {
    f.county == "" || l.county == Some(f.county)
  }

  predicate Passes(f: Filters, l: Leader) {
    MatchesName(f, l) && MatchesPosition(f, l) && MatchesParty(f, l) && MatchesCounty(f, l)
  }

  /** `leader.party.abbrev` is evaluated, on a leader without a party: all
      four tests are computed before they are combined, so this throws
      whatever the other tests say. */
  predicate ReadsMissingParty(f: Filters, l: Leader) {
    f.party != "All Parties" && l.party.None?
  }

  /** `filteredLeaders`: the leaders passing all four tests, in list order;
      a TypeError when a party is chosen and some leader has none. */
  function FilteredLeaders(officials: seq<Leader>, f: Filters): (r: Eval<seq<Leader>>)
    ensures r.ThrowsTypeError? <==> exists i :: 0 <= i < |officials| && ReadsMissingParty(f, officials[i])
    ensures r.Returns? ==> IsSubsequence(r.value, officials)
    ensures r.Returns? ==> forall l :: l in r.value ==> Passes(f, l)
    ensures r.Returns? ==> forall i :: 0 <= i < |officials| && Passes(f, officials[i]) ==> officials[i] in r.value
    ensures r.Returns? ==> forall l :: multiset(r.value)[l] == if Passes(f, l) then multiset(officials)[l] else 0
  {
    if officials == [] then Returns([])
    else
      var init, l := officials[..|officials| - 1], officials[|officials| - 1];
      assert forall i :: 0 <= i < |init| ==> init[i] == officials[i];
      assert officials == init + [l];
      match FilteredLeaders(init, f)
      case ThrowsTypeError => ThrowsTypeError
      case Returns(kept) =>
        if ReadsMissingParty(f, l) then ThrowsTypeError
        else if Passes(f, l) then
          assert (kept + [l])[..|kept|] == kept;
          Returns(kept + [l])
        else Returns(kept)
  }

  /** On the initial filters every leader is listed, in order. */
  lemma {:induction false} InitialFiltersListEveryone(officials: seq<Leader>)
    ensures FilteredLeaders(officials, InitialFilters) == Returns(officials)
  {
    if officials != [] {
      var init, l := officials[..|officials| - 1], officials[|officials| - 1];
      InitialFiltersListEveryone(init);
      assert Lower("") == "";
      IncludesEmpty(Lower(l.name));
      assert Passes(InitialFilters, l) && !ReadsMissingParty(InitialFilters, l);
      assert FilteredLeaders(officials, InitialFilters) == Returns(init + [l]);
      assert init + [l] == officials;
    }
  }

  /** The window of `name` at `i` equals `search` letter by letter, up to
      ASCII case. */
  predicate WindowMatches(name: string, search: string, i: int) {
    && 0 <= i && i + |search| <= |name|
    && forall j :: 0 <= j < |search| ==> LowerChar(name[i + j]) == LowerChar(search[j])
  }

  lemma WindowMatchesIffOccurs(name: string, search: string, i: int)
    ensures WindowMatches(name, search, i) <==> OccursAt(Lower(name), Lower(search), i)
  {
    var n, s := Lower(name), Lower(search);
    if 0 <= i && i + |s| <= |n| {
      var w := n[i..i + |s|];
      assert forall j :: 0 <= j < |s| ==> w[j] == n[i + j];
    }
  }

  /** The name test is a case-insensitive substring test. */
  lemma NameTestIgnoresCase(f: Filters, l: Leader)
    ensures MatchesName(f, l) <==> exists i :: WindowMatches(l.name, f.searchName, i)
  {
    IncludesIffOccurs(Lower(l.name), Lower(f.searchName));
    forall i ensures WindowMatches(l.name, f.searchName, i) <==> OccursAt(Lower(l.name), Lower(f.searchName), i) {
      WindowMatchesIffOccurs(l.name, f.searchName, i);
    }
  }

  // ---------------------------------------------------------------------
  // The county and party options

  /** `officials.map(o => o.county)`, with a missing county read as "". */
  function CountyFields(officials: seq<Leader>): (fields: seq<string>)
    ensures |fields| == |officials|
    ensures forall i :: 0 <= i < |officials| ==> fields[i] == Or(officials[i].county, "")
  {
    seq(|officials|, i requires 0 <= i < |officials| => Or(officials[i].county, ""))
  }

  /** `officials.map(o => o.county).filter(Boolean)`. */
  function TruthyCounties(officials: seq<Leader>): (cs: seq<string>)
    ensures forall c :: c in cs ==> c != ""
    ensures forall i :: 0 <= i < |officials| && Truthy(officials[i].county) ==> officials[i].county.value in cs
    ensures forall c :: c in cs ==> exists i :: 0 <= i < |officials| && officials[i].county == Some(c)
  {
    if officials == [] then []
    else
      var init, l := officials[..|officials| - 1], officials[|officials| - 1];
      assert forall i :: 0 <= i < |init| ==> init[i] == officials[i];
      TruthyCounties(init) + if Truthy(l.county) then [l.county.value] else []
  }

  /** The truthy counties keep the leaders' order: they are a subsequence
      of the mapped list holding every non-empty field as often as it
      occurs there, so exactly the falsy fields are dropped. */
  lemma {:induction false} TruthyCountiesInLeaderOrder(officials: seq<Leader>)
    ensures IsSubsequence(TruthyCounties(officials), CountyFields(officials))
    ensures forall c :: c != "" ==> multiset(TruthyCounties(officials))[c] == multiset(CountyFields(officials))[c]
  {
    if officials != [] {
      var init, l := officials[..|officials| - 1], officials[|officials| - 1];
      TruthyCountiesInLeaderOrder(init);
      var fields, t := CountyFields(init), TruthyCounties(init);
      assert CountyFields(officials) == fields + [Or(l.county, "")];
      assert (fields + [Or(l.county, "")])[..|fields|] == fields;
      assert multiset(CountyFields(officials)) == multiset(fields) + multiset{Or(l.county, "")};
      if Truthy(l.county) {
        assert TruthyCounties(officials) == t + [l.county.value];
        assert (t + [l.county.value])[..|t|] == t;
        assert multiset(TruthyCounties(officials)) == multiset(t) + multiset{l.county.value};
      } else {
        assert TruthyCounties(officials) == t;
        assert Or(l.county, "") == "";
      }
    }
  }

  /** `uniqueCounties`: every county some leader names, once, non-empty. */
  function UniqueCounties(officials: seq<Leader>): (r: seq<string>)
    ensures NoDuplicates(r)
    ensures forall c :: c in r <==> c != "" && exists i :: 0 <= i < |officials| && officials[i].county == Some(c)
  {
    Distinct(TruthyCounties(officials))
  }

  /** The counties come in the order they first occur. */
  lemma UniqueCountiesKeepFirstOccurrenceOrder(officials: seq<Leader>)
    ensures var cs, r := TruthyCounties(officials), UniqueCounties(officials);
      forall i, j :: 0 <= i < j < |r| ==> FirstIndex(cs, r[i]) < FirstIndex(cs, r[j])
  {
    DistinctKeepsFirstOccurrenceOrder(TruthyCounties(officials));
  }

  /** `o.party?.abbrev || "Independent"`. */
  function PartyLabel(l: Leader): (s: string)
    ensures s != ""
    ensures s == "Independent" || (l.party.Some? && l.party.value.abbrev == Some(s))
    ensures l.party.Some? && Truthy(l.party.value.abbrev) ==> s == l.party.value.abbrev.value
  {
    if l.party.None? then "Independent" else Or(l.party.value.abbrev, "Independent")
  }

  /** The labels of all leaders, in list order. */
  function PartyLabels(officials: seq<Leader>): (labels: seq<string>)
    ensures |labels| == |officials|
    ensures forall i :: 0 <= i < |officials| ==> labels[i] == PartyLabel(officials[i])
    ensures forall i :: 0 <= i < |officials| ==> PartyLabel(officials[i]) in labels
    ensures forall p :: p in labels ==> exists i :: 0 <= i < |officials| && PartyLabel(officials[i]) == p
  {
    if officials == [] then []
    else
      var init := officials[..|officials| - 1];
      assert forall i :: 0 <= i < |init| ==> init[i] == officials[i];
      PartyLabels(init) + [PartyLabel(officials[|officials| - 1])]
  }

  /** `uniqueParties`: the distinct labels in order of first occurrence
      (`filter(Boolean)` removes nothing, as no label is empty). */
  function UniqueParties(officials: seq<Leader>): (r: seq<string>)
    ensures NoDuplicates(r)
    ensures forall p :: p in r ==> p != ""
    ensures forall p :: p in r <==> exists i :: 0 <= i < |officials| && PartyLabel(officials[i]) == p
  {
    Distinct(PartyLabels(officials))
  }

  /** The party options come in the order their labels first occur. */
  lemma UniquePartiesKeepFirstOccurrenceOrder(officials: seq<Leader>)
    ensures var labels, r := PartyLabels(officials), UniqueParties(officials);
      forall i, j :: 0 <= i < j < |r| ==> FirstIndex(labels, r[i]) < FirstIndex(labels, r[j])
  {
    DistinctKeepsFirstOccurrenceOrder(PartyLabels(officials));
  }

  /** Every party option is a leader's abbreviation or "Independent". */
  lemma PartyOptionsAreAbbreviations(officials: seq<Leader>, p: string)
    requires p in UniqueParties(officials) && p != "Independent"
    ensures exists i :: 0 <= i < |officials| && officials[i].party.Some? && officials[i].party.value.abbrev == Some(p)
  {
    var i :| 0 <= i < |officials| && PartyLabel(officials[i]) == p;
  }

  /** The "Independent" option is offered for a leader whose party has no
      abbreviation, but choosing it never lists that leader: the filter
      compares the raw abbreviation with "Independent". */
  lemma IndependentOptionMissesUnabbreviated(officials: seq<Leader>, f: Filters, i: int)
    requires f.party == "Independent" && 0 <= i < |officials|
    requires officials[i].party.Some? && !Truthy(officials[i].party.value.abbrev)
    ensures "Independent" in UniqueParties(officials)
    ensures FilteredLeaders(officials, f).Returns? ==> officials[i] !in FilteredLeaders(officials, f).value
  {
    assert PartyLabel(officials[i]) == "Independent";
    assert !Passes(f, officials[i]);
  }

  // ---------------------------------------------------------------------
  // The leaders table

  /** The party cells: `leader.party.abbrev || "Independent"`, a TypeError
      on a leader without a party. */
  function PartyCells(leaders: seq<Leader>): (r: Eval<seq<string>>)
    ensures r.ThrowsTypeError? <==> exists i :: 0 <= i < |leaders| && leaders[i].party.None?
    ensures r.Returns? ==> |r.value| == |leaders|
  {
    if leaders == [] then Returns([])
    else
      var init, l := leaders[..|leaders| - 1], leaders[|leaders| - 1];
      assert forall i :: 0 <= i < |init| ==> init[i] == leaders[i];
      match PartyCells(init)
      case ThrowsTypeError => ThrowsTypeError
      case Returns(cells) =>
        if l.party.None? then ThrowsTypeError else Returns(cells + [Or(l.party.value.abbrev, "Independent")])
  }

  /** Where the table renders, each cell shows the leader's party option. */
  lemma {:induction false} PartyCellsAreLabels(leaders: seq<Leader>)
    requires PartyCells(leaders).Returns?
    ensures forall i :: 0 <= i < |leaders| ==> PartyCells(leaders).value[i] == PartyLabel(leaders[i])
  {
    if leaders != [] {
      var init := leaders[..|leaders| - 1];
      assert forall i :: 0 <= i < |init| ==> init[i] == leaders[i];
      PartyCellsAreLabels(init);
    }
  }

  /** With a party chosen the table always renders: a leader without a
      party has already made the filter throw. With "All Parties" one such
      leader passing the other tests breaks it. */
  lemma TableRendersUnderPartyFilter(officials: seq<Leader>, f: Filters)
    requires f.party != "All Parties" && FilteredLeaders(officials, f).Returns?
    ensures PartyCells(FilteredLeaders(officials, f).value).Returns?
  {
    var kept := FilteredLeaders(officials, f).value;
    forall i | 0 <= i < |kept| ensures kept[i].party.Some? {
      assert Passes(f, kept[i]);
    }
  }

  // ---------------------------------------------------------------------
  // The name search

  /** The three toasts of `handleNameSearch`, in the order it raises them. */
  datatype NameError = Blank | NonLetter | TooLong

  function Rank(e: NameError): nat {
    match e
    case Blank => 0
    case NonLetter => 1
    case TooLong => 2
  }

  predicate IsAsciiLetter(c: char) {
    'a' <= c <= 'z' || 'A' <= c <= 'Z'
  }

  /** `/[^a-zA-Z]/.test(s)`. */
  predicate HasNonLetter(s: string) {
    exists i :: 0 <= i < |s| && !IsAsciiLetter(s[i])
  }

  /** `[e]` when the toast is raised. */
  function Toast(raised: bool, e: NameError): (t: seq<NameError>)
    ensures e in t <==> raised
    ensures |t| <= 1 && forall x :: x in t ==> x == e
  {
    if raised then [e] else []
  }

  /** The toasts for a search text: blank after trimming, any character
      that is not an ASCII letter, more than 50 UTF-16 code units. */
  function NameErrors(s: string): (errors: seq<NameError>)
    ensures Blank in errors <==> IsBlank(s)
    ensures NonLetter in errors <==> HasNonLetter(s)
    ensures TooLong in errors <==> |Utf16(s)| > 50
  {
    TrimEmptyIffBlank(s);
    Toast(Trim(s) == "", Blank) + Toast(HasNonLetter(s), NonLetter) + Toast(|Utf16(s)| > 50, TooLong)
  }

  /** Three toasts raised one after the other come in that order. */
  lemma ToastsInOrder(b1: bool, b2: bool, b3: bool)
    ensures var errors := Toast(b1, Blank) + Toast(b2, NonLetter) + Toast(b3, TooLong);
      forall i :: 0 <= i < |errors| - 1 ==> Rank(errors[i]) < Rank(errors[i + 1])
  {
  }

  /** The toasts come in the order the handler raises them, each at most
      once. */
  lemma NameErrorsInOrder(s: string)
    ensures var errors := NameErrors(s);
      forall i :: 0 <= i < |errors| - 1 ==> Rank(errors[i]) < Rank(errors[i + 1])
  {
    ToastsInOrder(Trim(s) == "", HasNonLetter(s), |Utf16(s)| > 50);
  }

  /** A search text draws no toast exactly when it is one to fifty ASCII
      letters. */
  lemma NameAcceptedIff(s: string)
    ensures NameErrors(s) == [] <==> 0 < |s| <= 50 && forall i :: 0 <= i < |s| ==> IsAsciiLetter(s[i])
  {
    if forall i :: 0 <= i < |s| ==> IsAsciiLetter(s[i]) {
      assert forall i :: 0 <= i < |s| ==> (s[i] as int) < 0x1_0000;
      assert |Utf16(s)| == |s|;
      if s != [] {
        assert !IsWhiteSpace(s[0]);
      }
    } else {
      assert NonLetter in NameErrors(s);
    }
  }

  /** A text of spaces only draws two toasts, blank and non-letter. */
  lemma SpacesDrawTwoToasts(s: string)
    requires s != "" && forall i :: 0 <= i < |s| ==> s[i] == ' '
    requires |s| <= 50
    ensures NameErrors(s) == [Blank, NonLetter]
  {
    assert !IsAsciiLetter(s[0]);
    assert forall i :: 0 <= i < |s| ==> (s[i] as int) < 0x1_0000;
    assert |Utf16(s)| == |s|;
  }

  /** The page's filter state, updated by its inputs and selects. */
  class OfficialsPage {
    var filters: Filters

    constructor()
      ensures filters == InitialFilters
    {
      filters := InitialFilters;
    }

    /** The search box's `onChange`: the text filters as it is typed. */
    method TypeName(s: string)
      modifies this
      ensures filters == old(filters).(searchName := s)
    {
      filters := filters.(searchName := s);
    }

    /** `handleNameSearch`: the toasts are raised, and the text is stored
      whatever they say. */
    method HandleNameSearch(s: string) returns (errors: seq<NameError>)
      modifies this
      ensures errors == NameErrors(s)
      ensures filters == old(filters).(searchName := s)
    {
      errors := Toast(Trim(s) == "", Blank);
      errors := errors + Toast(HasNonLetter(s), NonLetter);
      errors := errors + Toast(|Utf16(s)| > 50, TooLong);
      filters := filters.(searchName := s);
    }

    method SelectPosition(p: string)
      modifies this
      ensures filters == old(filters).(position := p)
    {
      filters := filters.(position := p);
    }

    method SelectParty(p: string)
      modifies this
      ensures filters == old(filters).(party := p)
    {
      filters := filters.(party := p);
    }

    method SelectCounty(c: string)
      modifies this
      ensures filters == old(filters).(county := c)
    {
      filters := filters.(county := c);
    }

    /** The rows the table shows for the fetched `officials`. */
    function Visible(officials: seq<Leader>): Eval<seq<Leader>>
      reads this
    {
      FilteredLeaders(officials, filters)
    }
  }

  /** A fresh page lists every leader; a search for two spaces draws the
      blank and non-letter toasts and still becomes the name filter. */
  method SearchBlank(officials: seq<Leader>) returns (errors: seq<NameError>, before: Eval<seq<Leader>>, after: Eval<seq<Leader>>)
    ensures before == Returns(officials)
    ensures errors == [Blank, NonLetter]
    ensures after == FilteredLeaders(officials, InitialFilters.(searchName := "  "))
  {
    var page := new OfficialsPage();
    InitialFiltersListEveryone(officials);
    before := page.Visible(officials);
    SpacesDrawTwoToasts("  ");
    errors := page.HandleNameSearch("  ");
    after := page.Visible(officials);
  }

  // ---------------------------------------------------------------------
  // The pie charts

  /** One entry of a `party_distribution`. */
  datatype PartyCount = PartyCount(name: Option<string>, abbrev: Option<string>, count: int)

  /** The slice colours, `getPartyColor(p.abbrev, p.name)`; the page uses
      the same call for each slice's `color` and its `Cell` fill. */
  function SliceColors(data: seq<PartyCount>): (colors: seq<Color>)
    ensures |colors| == |data|
    ensures forall i :: 0 <= i < |data| ==> colors[i] == PartyColor(data[i].abbrev, data[i].name)
  {
    seq(|data|, i requires 0 <= i < |data| => PartyColor(data[i].abbrev, data[i].name))
  }

  /** Every slice has a colour: a palette string for a known party, else
      the hue of its abbreviation or name. */
  lemma SlicesAreColored(data: seq<PartyCount>, i: int)
    requires 0 <= i < |data|
    ensures IsTruthy(SliceColors(data)[i])
    ensures SliceColors(data)[i].Hsl? ==> SliceColors(data)[i].variant == Untruncated
  {
    ColorsComplete();
    ResolveIsDefined(Colors, Untruncated, data[i].abbrev, data[i].name);
  }

  /** The gender pies: male, then female. */
  const GenderColors: seq<Color> := [Hex("#377eb8"), Hex("#d32240")]

  /** ... which are the table's Wiper blue and Jubilee red. */
  lemma GenderColorsAreTableColors()
    ensures GenderColors == [PartyColor(Some("Wiper"), None), PartyColor(Some("Jubilee"), None)]
  {
  }
}
