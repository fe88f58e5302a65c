/** `getPartyColor`, which every page copies: a case-sensitive lookup of the
    abbreviation, then of the name, in a table of tailwind-style keys that a
    palette turns into hex strings; on a miss, `hsl(H 72% 48%)` with H the
    hue of the abbreviation, else the name, else "OTHER". The copies differ
    only in their tables and in which hash they use. */
module PartyColors {
  import opened Js
  import opened Hashing

  /** Which `hashStringToHue` a copy uses. */
  datatype HashVariant = Truncating | Untruncated

  /** A colour as a page hands it to the renderer: a palette string, the
      string `hsl(H 72% 48%)` where H is the hue `variant` gives `key`, or
      what `palette[hard[key]]` yields when the palette lacks the key. */
  datatype Color = Hex(code: string) | Hsl(variant: HashVariant, key: string) | Undefined

  /** A colour is truthy (for `a || b`) unless it is undefined or "". */
  predicate IsTruthy(c: Color) {
    match c
    case Hex(code) => code != ""
    case Hsl(_, _) => true
    case Undefined => false
  }

  /** One copy's `hard` table (party to tailwind-style key) and `palette`
      (tailwind-style key to hex). */
  datatype Table = Table(hard: map<string, string>, palette: map<string, string>)

  /** Every key the table names has a palette entry, and no palette entry
      is the empty string. */
  predicate Complete(t: Table) {
    && (forall k :: k in t.hard ==> t.hard[k] != "" && t.hard[k] in t.palette)
    && (forall k :: k in t.palette ==> t.palette[k] != "")
  }

  /** `key && hard[key]`: the key is present, non-empty and in the table. */
  predicate Hits(t: Table, key: Option<string>) {
    Truthy(key) && key.value in t.hard && t.hard[key.value] != ""
  }

  /** `palette[hard[key]]`. */
  function TableColor(t: Table, key: string): Color
    requires key in t.hard
  {
    if t.hard[key] in t.palette then Hex(t.palette[t.hard[key]]) else Undefined
  }

  function Hue(variant: HashVariant, s: string): (hue: int)
    ensures 0 <= hue < 360
  {
    match variant
    case Truncating => TruncatedHue(s)
    case Untruncated => UntruncatedHue(s)
  }

  /** The H of an HSL colour. */
  function HslHue(c: Color): (hue: int)
    requires c.Hsl?
    ensures 0 <= hue < 360
  {
    Hue(c.variant, c.key)
  }

  /** `partyAbbrev || partyName || "OTHER"`. */
  function FallbackKey(abbrev: Option<string>, name: Option<string>): string {
    Or(abbrev, Or(name, "OTHER"))
  }

  /** `getPartyColor(partyAbbrev, partyName)` over the copy's table. */
  function Resolve(t: Table, variant: HashVariant, abbrev: Option<string>, name: Option<string>): (c: Color)
    ensures c.Hsl? <==> !Hits(t, abbrev) && !Hits(t, name)
    ensures c.Hsl? ==> c.variant == variant && c.key != ""
  {
    if Hits(t, abbrev) then TableColor(t, abbrev.value)
    else if Hits(t, name) then TableColor(t, name.value)
    else Hsl(variant, FallbackKey(abbrev, name))
  }

  /** Over a complete table the resolver is total: a hit is one of the
      palette's strings, a miss an HSL colour, never undefined. */
  lemma ResolveIsDefined(t: Table, variant: HashVariant, abbrev: Option<string>, name: Option<string>)
    requires Complete(t)
    ensures var c := Resolve(t, variant, abbrev, name);
      && c != Undefined && IsTruthy(c)
      && (c.Hex? <==> Hits(t, abbrev) || Hits(t, name))
      && (c.Hex? ==> c.code in t.palette.Values)
  {
    var c := Resolve(t, variant, abbrev, name);
    if Hits(t, abbrev) {
      assert t.hard[abbrev.value] in t.palette;
    } else if Hits(t, name) {
      assert t.hard[name.value] in t.palette;
    }
  }

  /** An abbreviation in the table decides the colour whatever the name. */
  lemma AbbreviationTakesPrecedence(t: Table, variant: HashVariant, abbrev: string, name1: Option<string>, name2: Option<string>)
    requires Hits(t, Some(abbrev))
    ensures Resolve(t, variant, Some(abbrev), name1) == Resolve(t, variant, Some(abbrev), name2)
    ensures Resolve(t, variant, Some(abbrev), name1) == TableColor(t, abbrev)
  {
  }

  /** The name is consulted only when the abbreviation misses. */
  lemma NameConsultedOnMiss(t: Table, variant: HashVariant, abbrev: Option<string>, name: string)
    requires !Hits(t, abbrev) && Hits(t, Some(name))
    ensures Resolve(t, variant, abbrev, Some(name)) == TableColor(t, name)
  {
  }

  /** An empty string counts as absent, for the abbreviation and the name. */
  lemma EmptyIsAbsent(t: Table, variant: HashVariant, abbrev: Option<string>, name: Option<string>)
    ensures Resolve(t, variant, Some(""), name) == Resolve(t, variant, None, name)
    ensures Resolve(t, variant, abbrev, Some("")) == Resolve(t, variant, abbrev, None)
  {
  }

  /** Given a present key, the name passed beside it changes the colour
      exactly when the key misses and the name hits. */
  lemma NameMattersOnlyOnKeyMiss(t: Table, variant: HashVariant, key: string, name: Option<string>)
    requires key != ""
    ensures Resolve(t, variant, Some(key), name) == Resolve(t, variant, Some(key), Some(key))
            <==> Hits(t, Some(key)) || !Hits(t, name)
  {
  }

  /** On a miss the colour depends only on the fallback key: it is the
      colour the key alone gets, as long as "OTHER" itself is no table key. */
  lemma MissDependsOnFallbackKey(t: Table, variant: HashVariant, abbrev: Option<string>, name: Option<string>)
    requires !Hits(t, abbrev) && !Hits(t, name) && !Hits(t, Some("OTHER"))
    ensures Resolve(t, variant, abbrev, name) == Resolve(t, variant, Some(FallbackKey(abbrev, name)), None)
    ensures Resolve(t, variant, abbrev, name) == Hsl(variant, FallbackKey(abbrev, name))
  {
    var k := FallbackKey(abbrev, name);
    assert k != "";
    assert !Hits(t, Some(k));
  }
}
