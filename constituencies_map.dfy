/** The constituency choropleth: its copy of the colour table, the legend
    built from the constituencies' MPs, and the fill and stroke of each
    constituency path. Unlike the county map, the fill does not read the
    legend: it calls `getPartyColor(abbreviation || "Independent", name)`
    afresh. */
module ConstituenciesMap {
  import opened Js
  import opened PartyColors
  import opened Legends

  const Hard: map<string, string> := map[
    "ODM" := "orange-400", "UDA" := "amber-400", "Jubilee" := "red-500",
    "Wiper" := "blue-500", "WIPER" := "blue-500", "ANC" := "teal-400",
    "IND" := "gray-400", "Independent" := "gray-400", "UDM" := "pink-400",
    "UPA" := "maroon-400", "DP" := "green-700", "NRA" := "purple-150",
    "TSP" := "purple-100", "KANU" := "brown-400", "NARC" := "yellow-100",
    "FORD-K" := "green-200", "UPIA" := "tan-400", "JP" := "red-500"]

  const Palette: map<string, string> := map[
    "orange-400" := "#ff7f00", "amber-400" := "#ffd92f", "red-500" := "#e41a1c",
    "blue-500" := "#377eb8", "teal-400" := "#32b6c2", "gray-400" := "#999999",
    "pink-400" := "#f781bf", "green-200" := "#a6d854", "brown-400" := "#a65628",
    "purple-100" := "#e9d5ff", "green-700" := "#4daf4a", "maroon-400" := "#4f0b2b",
    "purple-150" := "#984ea3", "yellow-100" := "#c7be87", "tan-400" := "#e5c494"]

  const Colors: Table := Table(Hard, Palette)

  /** This page's `getPartyColor`: never undefined, and on a double miss
      the truncated hash of `abbrev || name || "OTHER"`. */
  function PartyColor(abbrev: Option<string>, name: Option<string>): (c: Color)
    ensures IsTruthy(c)
    ensures c.Hsl? <==> !Hits(Colors, abbrev) && !Hits(Colors, name)
    ensures c.Hsl? ==> c == Hsl(Truncating, FallbackKey(abbrev, name))
  {
    ColorsComplete();
    ResolveIsDefined(Colors, Truncating, abbrev, name);
    Resolve(Colors, Truncating, abbrev, name)
  }

  /** Every party the table names has a palette entry (tan-400 included),
      so this page's `getPartyColor` never returns undefined. */
  lemma ColorsComplete()
    ensures Complete(Colors)
  {
  }

  /** This table lists JP, in Jubilee red... */
  lemma JpIsRed()
    ensures PartyColor(Some("JP"), Some("Jubilee/JP")) == Hex("#e41a1c")
  {
  }

  lemma JubileeIsRed()
    ensures PartyColor(Some("Jubilee"), None) == Hex("#e41a1c")
  {
  }

  /** ... and UPIA, in tan. */
  lemma UpiaIsTan()
    ensures PartyColor(Some("UPIA"), None) == Hex("#e5c494")
  {
  }

  lemma OdmIsOrange(name: Option<string>)
    ensures PartyColor(Some("ODM"), name) == Hex("#ff7f00")
  {
  }

  // ---------------------------------------------------------------------
  // Constituencies and the legend

  datatype Party = Party(abbreviation: Option<string>, name: Option<string>)

  datatype Mp = Mp(name: string, party: Option<Party>)

  datatype Constituency = Constituency(id: int, name: string, mp: Option<Mp>)

  /** `mp && mp.party`: the constituency has an MP with a party. */
  predicate HasParty(c: Constituency) {
    c.mp.Some? && c.mp.value.party.Some?
  }

  /** `party.abbreviation || "Independent"`. */
  function PartyKey(party: Party): (k: string)
    ensures k != ""
    ensures Truthy(party.abbreviation) ==> k == party.abbreviation.value
  {
    Or(party.abbreviation, "Independent")
  }

  /** The party keys of the MPs that have a party, in list order. */
  function MpKeys(cs: seq<Constituency>): (keys: seq<string>)
    ensures |keys| <= |cs|
    ensures forall i :: 0 <= i < |cs| && HasParty(cs[i]) ==> PartyKey(cs[i].mp.value.party.value) in keys
    ensures forall k :: k in keys ==> exists i :: 0 <= i < |cs| && HasParty(cs[i]) && PartyKey(cs[i].mp.value.party.value) == k
  {
    if cs == [] then []
    else
      var init := cs[..|cs| - 1];
      var c := cs[|cs| - 1];
      assert forall i :: 0 <= i < |init| ==> init[i] == cs[i];
      MpKeys(init) + if HasParty(c) then [PartyKey(c.mp.value.party.value)] else []
  }

  /** The party colour map the effect stores (see Legends). */
  function Legend(cs: seq<Constituency>): map<string, Color> {
    Legends.Legend(Colors, Truncating, MpKeys(cs))
  }

  /** All four pinned abbreviations are hits in this table, so pinning
      changes nothing. */
  lemma OdmPinAgrees()
    ensures Resolve(Colors, Truncating, Some("ODM"), Some("Orange Democratic Movement")) == KeyColor(Colors, Truncating, "ODM")
  {
    PinnedHitAgrees(Colors, Truncating, "ODM", "Orange Democratic Movement");
  }

  lemma UdaPinAgrees()
    ensures Resolve(Colors, Truncating, Some("UDA"), Some("United Democratic Alliance")) == KeyColor(Colors, Truncating, "UDA")
  {
    PinnedHitAgrees(Colors, Truncating, "UDA", "United Democratic Alliance");
  }

  lemma JpPinAgrees()
    ensures Resolve(Colors, Truncating, Some("JP"), Some("Jubilee/JP")) == KeyColor(Colors, Truncating, "JP")
  {
    PinnedHitAgrees(Colors, Truncating, "JP", "Jubilee/JP");
  }

  lemma PinsAgreeHere()
    ensures PinsAgree(Colors, Truncating)
  {
    OdmPinAgrees();
    UdaPinAgrees();
    JpPinAgrees();
  }

  /** The effect over this page's MPs, keyed by `PartyKey`. */
  method BuildLegend(cs: seq<Constituency>) returns (legend: map<string, Color>)
    ensures legend == Legend(cs)
  {
    PinsAgreeHere();
    legend := Legends.BuildLegend(Colors, Truncating, MpKeys(cs));
  }

  // ---------------------------------------------------------------------
  // Fill and stroke

  /** No view is selected: `!selectedView || selectedView === "Default"`. */
  predicate IsDefault(view: string) {
    view == "" || view == "Default"
  }

  /** `getConstFill`: neutral in Default mode, a lighter neutral for a
      constituency without MP or party, else `getPartyColor` of the key
      and the party's name. */
  function ConstFill(view: string, c: Constituency, dark: bool): (fill: Color)
    ensures IsDefault(view) ==> fill == Hex(if dark then "#374151" else "#fff")
    ensures !IsDefault(view) && !HasParty(c) ==> fill == Hex(if dark then "#4b5563" else "#e2e5e9")
    ensures !IsDefault(view) && HasParty(c) ==>
              fill == PartyColor(Some(PartyKey(c.mp.value.party.value)), c.mp.value.party.value.name)
    ensures IsTruthy(fill)
  {
    if IsDefault(view) then Hex(if dark then "#374151" else "#fff")
    else if !HasParty(c) then Hex(if dark then "#4b5563" else "#e2e5e9")
    else
      var party := c.mp.value.party.value;
      PartyColor(Some(PartyKey(party)), party.name)
  }

  /** The fill of a constituency with a party is its legend entry exactly
      when the key is a table hit or the party's name is not: otherwise the
      map shows the name's table colour while the legend shows the key's
      hue. */
  lemma FillMatchesLegendIff(cs: seq<Constituency>, i: int, view: string, dark: bool)
    requires 0 <= i < |cs| && HasParty(cs[i]) && !IsDefault(view)
    ensures var party := cs[i].mp.value.party.value;
      && PartyKey(party) in Legend(cs)
      && (ConstFill(view, cs[i], dark) == Legend(cs)[PartyKey(party)]
          <==> Hits(Colors, Some(PartyKey(party))) || !Hits(Colors, party.name))
  {
    var party := cs[i].mp.value.party.value;
    var k := PartyKey(party);
    assert k in MpKeys(cs);
    NameMattersOnlyOnKeyMiss(Colors, Truncating, k, party.name);
  }

  /** An unknown abbreviation beside the name "Jubilee": the map paints the
      constituency Jubilee red, the legend shows the hue of "XYZ". */
  lemma FillAndLegendDisagree()
    ensures PartyColor(Some("XYZ"), Some("Jubilee")) == Hex("#e41a1c")
    ensures KeyColor(Colors, Truncating, "XYZ") == Hsl(Truncating, "XYZ")
  {
    assert !Hits(Colors, Some("XYZ"));
  }

  /** A party without an abbreviation is keyed "Independent", a table hit,
      so its MP is drawn grey whatever the party's name. */
  lemma MissingAbbreviationIsGrey(view: string, c: Constituency, dark: bool)
    requires !IsDefault(view) && HasParty(c) && !Truthy(c.mp.value.party.value.abbreviation)
    ensures ConstFill(view, c, dark) == Hex("#999999")
  {
    assert Hits(Colors, Some("Independent"));
  }

  /** The path's stroke: light only in dark Default mode. It tests the view
      against "Default" alone, so an empty view draws the Default fill with
      a black stroke. */
  function Stroke(view: string, dark: bool): (s: string)
    ensures s == "#e2e5e9" <==> dark && view == "Default"
    ensures s != "#e2e5e9" ==> s == "#000000"
  {
    if dark && view == "Default" then "#e2e5e9" else "#000000"
  }

  const HoverFill: Color := Hex("#d1d5db")

  /** The path's fill: the hovered constituency is always "#d1d5db". */
  function PathFill(hovered: Option<Constituency>, c: Constituency, view: string, dark: bool): (fill: Color)
    ensures hovered.Some? && hovered.value.id == c.id ==> fill == HoverFill
    ensures !(hovered.Some? && hovered.value.id == c.id) ==> fill == ConstFill(view, c, dark)
  {
    if hovered.Some? && hovered.value.id == c.id then HoverFill else ConstFill(view, c, dark)
  }
}
