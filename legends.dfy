/** The party colour legend both map pages build in an effect: every
    distinct party key, in the order it first occurs, coloured by
    `getPartyColor(key, key)`; then ODM, UDA, JP and Wiper pinned with
    their full names. The pages differ in their colour tables and in how
    they derive a party's key, so everything here takes the table, the hash
    variant and the sequence of keys. */
module Legends {
  import opened Js
  import opened Sequences
  import opened PartyColors

  /** The colour a key gets on its own, standing for both abbreviation and
      name. */
  function KeyColor(t: Table, v: HashVariant, k: string): Color {
    Resolve(t, v, Some(k), Some(k))
  }

  /** The parties whose colour the effect pins. */
  const Pinned: set<string> := {"ODM", "UDA", "JP", "Wiper"}

  /** Each key of `keys` in its own colour. */
  function KeyMap(t: Table, v: HashVariant, keys: set<string>): map<string, Color> {
    map k | k in keys :: KeyColor(t, v, k)
  }

  /** The legend for the party keys `keys`: every one of them and every
      pinned party, each in its own colour. */
  function Legend(t: Table, v: HashVariant, keys: seq<string>): map<string, Color> {
    KeyMap(t, v, (set k | k in keys) + Pinned)
  }

  /** Every entry of `m` holds its key's own colour. */
  predicate KeyColoured(t: Table, v: HashVariant, m: map<string, Color>) {
    forall k :: k in m ==> m[k] == KeyColor(t, v, k)
  }

  /** A key-coloured map is the key map of its keys. */
  lemma IsKeyMap(t: Table, v: HashVariant, m: map<string, Color>)
    requires KeyColoured(t, v, m)
    ensures m == KeyMap(t, v, m.Keys)
  {
  }

  /** The four pinned calls give each pinned party its own colour, so that
      pinning changes nothing. Each page proves this of its table. */
  predicate PinsAgree(t: Table, v: HashVariant) {
    && Resolve(t, v, Some("ODM"), Some("Orange Democratic Movement")) == KeyColor(t, v, "ODM")
    && Resolve(t, v, Some("UDA"), Some("United Democratic Alliance")) == KeyColor(t, v, "UDA")
    && Resolve(t, v, Some("JP"), Some("Jubilee/JP")) == KeyColor(t, v, "JP")
    && Resolve(t, v, Some("Wiper"), Some("Wiper")) == KeyColor(t, v, "Wiper")
  }

  /** A pinned party whose abbreviation is a table hit keeps its colour
      whatever name the pin passes. */
  lemma PinnedHitAgrees(t: Table, v: HashVariant, k: string, name: string)
    requires Hits(t, Some(k))
    ensures Resolve(t, v, Some(k), Some(name)) == KeyColor(t, v, k)
  {
    AbbreviationTakesPrecedence(t, v, k, Some(name), Some(k));
  }

  /** The effect's first pass: the `seen` object, whose keys are the
      distinct party keys in the order they first occur. `keys` holds the
      key of each official in list order. */
  method CollectKeys(keys: seq<string>) returns (seen: seq<string>)
    ensures seen == Distinct(keys)
  {
    seen := [];
    var i := 0;
    while i < |keys|
      invariant 0 <= i <= |keys|
      invariant seen == Distinct(keys[..i])
    {
      assert keys[..i + 1][..i] == keys[..i];
      var key := keys[i];
      if key !in seen {
        seen := seen + [key];
      }
      i := i + 1;
    }
    assert keys[..|keys|] == keys;
  }

  /** The effect's second pass: `map[abbrev] = getPartyColor(abbrev, abbrev)`
      for every seen key. */
  method ColourKeys(t: Table, v: HashVariant, seen: seq<string>) returns (legend: map<string, Color>)
    ensures legend.Keys == set k | k in seen
    ensures KeyColoured(t, v, legend)
  {
    legend := map[];
    var j := 0;
    while j < |seen|
      invariant 0 <= j <= |seen|
      invariant forall k :: k in legend <==> k in seen[..j]
      invariant KeyColoured(t, v, legend)
    {
      assert seen[..j + 1] == seen[..j] + [seen[j]];
      legend := legend[seen[j] := Resolve(t, v, Some(seen[j]), Some(seen[j]))];
      j := j + 1;
    }
    assert seen[..|seen|] == seen;
  }

  /** The four pinned entries hold the calls the effect writes, each with
      the party's full name. */
  predicate PinnedAsWritten(t: Table, v: HashVariant, m: map<string, Color>) {
    && "ODM" in m && m["ODM"] == Resolve(t, v, Some("ODM"), Some("Orange Democratic Movement"))
    && "UDA" in m && m["UDA"] == Resolve(t, v, Some("UDA"), Some("United Democratic Alliance"))
    && "JP" in m && m["JP"] == Resolve(t, v, Some("JP"), Some("Jubilee/JP"))
    && "Wiper" in m && m["Wiper"] == Resolve(t, v, Some("Wiper"), Some("Wiper"))
  }

  /** The effect's last step: the four parties pinned with their full
      names; every other entry is kept. */
  method PinParties(t: Table, v: HashVariant, m: map<string, Color>) returns (legend: map<string, Color>)
    ensures legend.Keys == m.Keys + Pinned
    ensures forall k :: k in m && k !in Pinned ==> legend[k] == m[k]
    ensures PinnedAsWritten(t, v, legend)
  {
    legend := m;
    legend := legend["ODM" := Resolve(t, v, Some("ODM"), Some("Orange Democratic Movement"))];
    legend := legend["UDA" := Resolve(t, v, Some("UDA"), Some("United Democratic Alliance"))];
    legend := legend["JP" := Resolve(t, v, Some("JP"), Some("Jubilee/JP"))];
    legend := legend["Wiper" := Resolve(t, v, Some("Wiper"), Some("Wiper"))];
  }

  /** The whole effect: every distinct key in its own colour, the pinned
      parties as written; so, where the pins agree, the legend of the
      keys. */
  method BuildLegend(t: Table, v: HashVariant, keys: seq<string>) returns (legend: map<string, Color>)
    ensures legend.Keys == (set k | k in keys) + Pinned
    ensures forall k :: k in legend && k !in Pinned ==> legend[k] == KeyColor(t, v, k)
    ensures PinnedAsWritten(t, v, legend)
    ensures PinsAgree(t, v) ==> legend == Legend(t, v, keys)
  {
    var seen := CollectKeys(keys);
    var coloured := ColourKeys(t, v, seen);
    legend := PinParties(t, v, coloured);
    DistinctSameElements(keys);
    if PinsAgree(t, v) {
      assert KeyColoured(t, v, legend);
      IsKeyMap(t, v, legend);
    }
  }

  /** Over a complete table every key of the legend has a defined colour. */
  lemma LegendIsDefined(t: Table, v: HashVariant, keys: seq<string>, k: string)
    requires Complete(t)
    requires k in keys || k in Pinned
    ensures k in Legend(t, v, keys) && IsTruthy(Legend(t, v, keys)[k])
  {
    ResolveIsDefined(t, v, Some(k), Some(k));
  }
}
