/** The county choropleth: its copy of the colour table, the legend built
    from the officials list, the county-to-officeholder map for the
    selected position, and the fill of each county path. */
module CountiesMap {
  import opened Js
  import opened PartyColors
  import opened Legends

  const Hard: map<string, string> := map[
    "ODM" := "orange-400", "UDA" := "amber-400", "Jubilee" := "red-500",
    "Wiper" := "blue-500", "WIPER" := "blue-500", "ANC" := "teal-400",
    "IND" := "gray-400", "Independent" := "gray-400", "UDM" := "pink-400",
    "UPA" := "maroon-400", "DP" := "green-700", "NRA" := "purple-150",
    "TSP" := "purple-100", "KANU" := "brown-400", "NARC" := "yellow-100",
    "FORD-K" := "green-200"]

  const Palette: map<string, string> := map[
    "orange-400" := "#fb923c", "amber-400" := "#d3b822", "red-500" := "#d32240",
    "blue-500" := "#377eb8", "teal-400" := "#32b6c2", "gray-400" := "#999999",
    "pink-400" := "#f781bf", "green-200" := "#86efac", "brown-400" := "#a65628",
    "purple-100" := "#e9d5ff", "green-700" := "#396115", "maroon-400" := "#4f0b2b",
    "purple-150" := "#aa87c7", "yellow-100" := "#c7be87"]

  const Colors: Table := Table(Hard, Palette)

  /** This page's `getPartyColor`: never undefined, and on a double miss
      the truncated hash of `abbrev || name || "OTHER"`. */
  function PartyColor(abbrev: Option<string>, name: Option<string>): (c: Color)
    ensures IsTruthy(c)
    ensures c.Hsl? <==> !Hits(Colors, abbrev) && !Hits(Colors, name)
    ensures c.Hsl? ==> c == Hsl(Truncating, FallbackKey(abbrev, name))
  {
    ColorsComplete();
    ResolveIsDefined(Colors, Truncating, abbrev, name);
    Resolve(Colors, Truncating, abbrev, name)
  }

  /** Every party the table names has a palette entry, so this page's
      `getPartyColor` never returns undefined. */
  lemma ColorsComplete()
    ensures Complete(Colors)
  {
  }

  /** Lookup is exact: "ODM" hits whatever the name... */
  lemma OdmIsOrange(name: Option<string>)
    ensures PartyColor(Some("ODM"), name) == Hex("#fb923c")
  {
  }

  /** ... "odm" misses and is hashed ... */
  lemma LowerCaseOdmIsHashed()
    ensures PartyColor(Some("odm"), None) == Hsl(Truncating, "odm")
  {
    assert !Hits(Colors, Some("odm"));
  }

  /** ... which is why the table lists both spellings of Wiper. */
  lemma BothWipersAreBlue()
    ensures PartyColor(Some("Wiper"), None) == Hex("#377eb8")
    ensures PartyColor(Some("WIPER"), None) == Hex("#377eb8")
  {
  }

  /** Neither "JP" nor "Jubilee/JP" is in this table, so JP gets the hue of
      "JP", although "Jubilee" is red. */
  lemma JpIsHashed()
    ensures PartyColor(Some("JP"), Some("Jubilee/JP")) == Hsl(Truncating, "JP")
  {
    assert !Hits(Colors, Some("JP"));
    assert !Hits(Colors, Some("Jubilee/JP"));
  }

  lemma JubileeIsRed()
    ensures PartyColor(Some("Jubilee"), None) == Hex("#d32240")
  {
  }

  // ---------------------------------------------------------------------
  // Officials and the legend

  datatype Party = Party(abbrev: Option<string>, name: Option<string>)

  datatype Official = Official(name: string, position: Option<string>, county: string, party: Option<Party>)

  /** `o?.party?.abbrev || o?.party?.name || "IND"`. */
  function PartyKey(party: Option<Party>): (k: string)
    ensures k != ""
  {
    if party.None? then "IND" else Or(party.value.abbrev, Or(party.value.name, "IND"))
  }

  function PartyKeys(officials: seq<Official>): (keys: seq<string>)
    ensures |keys| == |officials|
    ensures forall i :: 0 <= i < |officials| ==> keys[i] == PartyKey(officials[i].party)
  {
    seq(|officials|, i requires 0 <= i < |officials| => PartyKey(officials[i].party))
  }

  /** The party colour map the effect stores (see Legends). */
  function Legend(officials: seq<Official>): map<string, Color> {
    Legends.Legend(Colors, Truncating, PartyKeys(officials))
  }

  /** Pinning ODM with its full name changes nothing: "ODM" is a hit. */
  lemma OdmPinAgrees()
    ensures Resolve(Colors, Truncating, Some("ODM"), Some("Orange Democratic Movement")) == KeyColor(Colors, Truncating, "ODM")
  {
    PinnedHitAgrees(Colors, Truncating, "ODM", "Orange Democratic Movement");
  }

  /** Nor does pinning UDA: "UDA" is a hit. */
  lemma UdaPinAgrees()
    ensures Resolve(Colors, Truncating, Some("UDA"), Some("United Democratic Alliance")) == KeyColor(Colors, Truncating, "UDA")
  {
    PinnedHitAgrees(Colors, Truncating, "UDA", "United Democratic Alliance");
  }

  /** Nor pinning JP with "Jubilee/JP": both miss, and both calls hash "JP". */
  lemma JpPinAgrees()
    ensures Resolve(Colors, Truncating, Some("JP"), Some("Jubilee/JP")) == KeyColor(Colors, Truncating, "JP")
  {
    assert !Hits(Colors, Some("JP"));
    assert !Hits(Colors, Some("Jubilee/JP"));
  }

  /** So pinning changes no colour on this page. */
  lemma PinsAgreeHere()
    ensures PinsAgree(Colors, Truncating)
  {
    OdmPinAgrees();
    UdaPinAgrees();
    JpPinAgrees();
  }

  /** The effect over this page's officials, keyed by `PartyKey`. */
  method BuildLegend(officials: seq<Official>) returns (legend: map<string, Color>)
    ensures legend == Legend(officials)
  {
    PinsAgreeHere();
    legend := Legends.BuildLegend(Colors, Truncating, PartyKeys(officials));
  }

  // ---------------------------------------------------------------------
  // County to officeholder

  /** No position is selected: `!selectedPosition || selectedPosition === "Default"`. */
  predicate IsDefault(selected: string) {
    selected == "" || selected == "Default"
  }

  /** The test the effect applies to an official's position: the first word
      of the lowercased selection occurs in the lowercased position, or both
      speak of women. */
  predicate PositionMatches(selected: string, position: Option<string>) {
    var pos := Lower(Or(position, ""));
    var target := Lower(selected);
    || Includes(pos, FirstSegment(Lower(target)))
    || ((Includes(target, "women") || Includes(target, "woman"))
        && (|| Includes(pos, "women") || Includes(pos, "woman") || Includes(pos, "women rep")
            || Includes(pos, "women representative") || Includes(pos, "women")))
  }

  predicate Kept(selected: string, o: Official, county: string) {
    o.county == county && PositionMatches(selected, o.position)
  }

  /** The index of the last official the selection keeps for `county`, or
      -1 when there is none. */
  function LastKept(officials: seq<Official>, selected: string, county: string): (k: int)
    ensures -1 <= k < |officials|
    ensures k >= 0 ==> Kept(selected, officials[k], county)
    ensures forall j :: k < j < |officials| ==> !Kept(selected, officials[j], county)
  {
    if officials == [] then -1
    else if Kept(selected, officials[|officials| - 1], county) then |officials| - 1
    else LastKept(officials[..|officials| - 1], selected, county)
  }

  /** The official the map shows for `county`: the last one in list order
      that the selection keeps. */
  function Officeholder(officials: seq<Official>, selected: string, county: string): Option<Official> {
    var k := LastKept(officials, selected, county);
    if k < 0 then None else Some(officials[k])
  }

  function Counties(officials: seq<Official>): set<string> {
    set i | 0 <= i < |officials| :: officials[i].county
  }

  /** `countyToOfficial`: empty in Default mode; otherwise every county with
      a kept official, mapped to the last of them. */
  function Holders(officials: seq<Official>, selected: string): (m: map<string, Official>)
    ensures IsDefault(selected) ==> m == map[]
    ensures !IsDefault(selected) ==>
      forall c :: (c in m <==> Officeholder(officials, selected, c).Some?)
               && (c in m ==> m[c] == Officeholder(officials, selected, c).value)
  {
    if IsDefault(selected) then map[]
    else map c | c in Counties(officials) && Officeholder(officials, selected, c).Some? :: Officeholder(officials, selected, c).value
  }

  /** The memo as it runs: later officials overwrite earlier ones. */
  method CountyToOfficial(officials: seq<Official>, selected: string) returns (m: map<string, Official>)
    ensures m == Holders(officials, selected)
  {
    m := map[];
    if IsDefault(selected) {
      return;
    }
    var i := 0;
    while i < |officials|
      invariant 0 <= i <= |officials|
      invariant forall c :: (c in m <==> Officeholder(officials[..i], selected, c).Some?)
                          && (c in m ==> m[c] == Officeholder(officials[..i], selected, c).value)
    {
      var o := officials[i];
      assert officials[..i + 1][..i] == officials[..i];
      if PositionMatches(selected, o.position) {
        m := m[o.county := o];
      }
      i := i + 1;
    }
    assert officials[..|officials|] == officials;
  }

  lemma LowerDeputyGovernor()
    ensures Lower("Deputy Governor") == "deputy governor"
  {
  }

  lemma LowerGovernor()
    ensures Lower("Governor") == "governor"
  {
  }

  lemma LowerWomenRep()
    ensures Lower("Women Rep") == "women rep"
  {
  }

  lemma LowerWomanRepresentative()
    ensures Lower("Woman Representative") == "woman representative"
  {
  }

  /** Selecting "Women Rep" keeps a "Woman Representative" through the
      second test: the selection names "women" and the position "woman". */
  lemma WomenRepKeepsWomanRepresentative()
    ensures PositionMatches("Women Rep", Some("Woman Representative"))
  {
    LowerWomenRep();
    LowerWomanRepresentative();
    assert StartsWith("women rep", "women");
    assert StartsWith("woman representative", "woman");
  }

  lemma GovernorFirstWord()
    ensures FirstSegment(Lower(Lower("Governor"))) == "governor"
  {
    LowerIdempotent("Governor");
    LowerGovernor();
    FirstSegmentOfWord("governor");
  }

  /** Selecting "Governor" keeps Deputy Governors too: the first word of
      the selection, "governor", occurs in "deputy governor". */
  lemma GovernorKeepsDeputyGovernor()
    ensures PositionMatches("Governor", Some("Deputy Governor"))
  {
    LowerDeputyGovernor();
    GovernorFirstWord();
    var pos: string := "deputy governor";
    assert OccursAt(pos, "governor", 7);
    IncludesIffOccurs(pos, "governor");
  }

  /** So a Deputy Governor listed after the Governor of the same county
      takes the Governor's place on the map. */
  lemma DeputyGovernorReplacesGovernor(governor: Official, deputy: Official)
    requires governor.county == deputy.county
    requires deputy.position == Some("Deputy Governor")
    ensures deputy.county in Holders([governor, deputy], "Governor")
    ensures Holders([governor, deputy], "Governor")[deputy.county] == deputy
  {
    GovernorKeepsDeputyGovernor();
    assert Kept("Governor", deputy, deputy.county);
  }

  // ---------------------------------------------------------------------
  // Fill

  datatype County = County(id: int, name: string)

  /** `getCountyFill`: neutral in Default mode, a lighter neutral for a
      county without officeholder or party, else the legend's colour for
      the party key, falling back to `getPartyColor(key, name)`. */
  function CountyFill(selected: string, holders: map<string, Official>, legend: map<string, Color>, county: County, dark: bool): (c: Color)
    ensures IsDefault(selected) ==> c == Hex(if dark then "#374151" else "#ffffff")
    ensures !IsDefault(selected) && (county.name !in holders || holders[county.name].party.None?) ==>
              c == Hex(if dark then "#4b5563" else "#f3f4f6")
    ensures !IsDefault(selected) && county.name in holders && holders[county.name].party.Some? ==>
              var party := holders[county.name].party;
              var key := PartyKey(party);
              c == if key in legend && IsTruthy(legend[key]) then legend[key] else PartyColor(Some(key), party.value.name)
    ensures IsTruthy(c)
  {
    if IsDefault(selected) then Hex(if dark then "#374151" else "#ffffff")
    else if county.name !in holders || holders[county.name].party.None? then Hex(if dark then "#4b5563" else "#f3f4f6")
    else
      var party := holders[county.name].party;
      var key := PartyKey(party);
      if key in legend && IsTruthy(legend[key]) then legend[key] else PartyColor(Some(key), party.value.name)
  }

  /** The key of every listed official is one of the legend's keys. */
  lemma ListedKeyIsKey(officials: seq<Official>, o: Official)
    requires o in officials
    ensures PartyKey(o.party) in PartyKeys(officials)
  {
    var i :| 0 <= i < |officials| && officials[i] == o;
    assert PartyKeys(officials)[i] == PartyKey(o.party);
  }

  /** Once the legend is the one built from the same officials list, a
      county gets the colour of its party key on its own, never undefined:
      with that legend the `getPartyColor(key, name)` fallback of the fill
      is not reached. (On a render where the stored legend is stale, such as
      the first one with `{}`, the fallback is taken.) */
  lemma FillIsKeyColor(officials: seq<Official>, selected: string, county: County, dark: bool)
    requires !IsDefault(selected)
    requires county.name in Holders(officials, selected)
    requires Holders(officials, selected)[county.name].party.Some?
    ensures CountyFill(selected, Holders(officials, selected), Legend(officials), county, dark)
            == KeyColor(Colors, Truncating, PartyKey(Holders(officials, selected)[county.name].party))
    ensures IsTruthy(CountyFill(selected, Holders(officials, selected), Legend(officials), county, dark))
  {
    var o := Holders(officials, selected)[county.name];
    assert o == officials[LastKept(officials, selected, county.name)];
    ListedKeyIsKey(officials, o);
    ColorsComplete();
    LegendIsDefined(Colors, Truncating, PartyKeys(officials), PartyKey(o.party));
  }

  /** "XYZ" with the name "Jubilee": `getPartyColor` gives Jubilee red, the
      key alone the hue of "XYZ". */
  lemma UnknownAbbreviationWithKnownName()
    ensures PartyColor(Some("XYZ"), Some("Jubilee")) == Hex("#d32240")
    ensures KeyColor(Colors, Truncating, "XYZ") == Hsl(Truncating, "XYZ")
  {
    assert !Hits(Colors, Some("XYZ"));
  }

  /** So such an official is drawn in the hue of the abbreviation, not in
      the red the party's name would give. */
  lemma FillIgnoresNameBehindAbbreviation(officials: seq<Official>, selected: string, county: County, dark: bool)
    requires !IsDefault(selected)
    requires county.name in Holders(officials, selected)
    requires Holders(officials, selected)[county.name].party == Some(Party(Some("XYZ"), Some("Jubilee")))
    ensures CountyFill(selected, Holders(officials, selected), Legend(officials), county, dark) == Hsl(Truncating, "XYZ")
  {
    FillIsKeyColor(officials, selected, county, dark);
    UnknownAbbreviationWithKnownName();
  }

  const HoverFill: Color := Hex("#d1d5db")

  /** The path's fill: the hovered county is always "#d1d5db". */
  function PathFill(hovered: Option<County>, county: County, fill: Color): (c: Color)
    ensures hovered.Some? && hovered.value.id == county.id ==> c == HoverFill
    ensures !(hovered.Some? && hovered.value.id == county.id) ==> c == fill
  {
    if hovered.Some? && hovered.value.id == county.id then HoverFill else fill
  }
}
