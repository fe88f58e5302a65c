# SerikaliMap party colours, maps and filters in Dafny

SerikaliMap is a React site about Kenya's elected officials. Almost all of
it is markup, routing and HTTP calls. This project models the logic that
sits underneath, and proves properties of it:

- **The party colour resolver** `getPartyColor`, copied onto three pages
  (modules `PartyColors`, `Hashing`).
  - It looks up the abbreviation, then the name, in a table of
    tailwind-style keys, and turns the key into a hex string through a
    palette.
  - On a miss it falls back to `hsl(H 72% 48%)`. H comes from a rolling
    hash over the UTF-16 code units of the abbreviation, else the name,
    else "OTHER".
  - The two map pages truncate the accumulator with `h |= 0` (ToInt32,
    section 7.1.6 of ECMA-262). The officials page does not, so only the
    operand of `<<` is truncated there.
  - The county map and the officials page share one table and palette.
    The constituency map has its own palette and adds JP and UPIA.
- **The party legend** both map pages build in an effect (module
  `Legends`). The distinct party keys are collected in first-occurrence
  order and each is coloured by `getPartyColor(k, k)`. Then ODM, UDA, JP
  and Wiper are pinned with their full names.
- **The county map** (module `CountiesMap`):
  - the county-to-officeholder memo;
  - the fill of each county;
  - the hover colour.
- **The constituency map** (module `ConstituenciesMap`):
  - the fill, which does not read the legend;
  - the stroke;
  - the hover colour.
- **The officials page** (module `CountyOfficials`):
  - the four-way leader filter, including the TypeError it raises;
  - the county and party option lists;
  - the name-search validation;
  - the pie-chart colours.
- **The landing page** (module `LandingPage`):
  - navigation;
  - the blank-query guard;
  - the hover and touch state of the county map, which tells a tap from a
    scroll.
- **The legal page's accordion** (module `Legal`).

`Js` holds the JavaScript semantics these rely on: `||` on optional
strings, ToInt32, `<<`, `%`, `Math.abs`, UTF-16 code units, ASCII
`toLowerCase`, `includes`, `split(" ")[0]` and `trim`. `Sequences` holds
first-occurrence deduplication (`[...new Set(xs)]`) and subsequences.

How the code is represented:

- **Colours.** A colour is `Hex(code)`, `Hsl(variant, key)` or `Undefined`.
  - An HSL colour records the string that was hashed and which hash
    variant the page uses.
  - Its hue is `HslHue(c)`: a number in [0, 360) computed by the modelled
    hash.
  - Keeping the key, rather than the evaluated number, lets table facts be
    stated without evaluating the hash.
- **Loops and state.**
  - Loops that update variables are methods proved against a function:
    `hashStringToHue`, the legend's `forEach` passes and the
    `countyToOfficial` memo.
  - State that handlers update step by step is a class: the officials
    page's filters, the landing map's touch state and the accordion.

## Model

| member | source | states |
|---|---|---|
| Js.Or | src/pages/CountiesMap.jsx:65 | `a \|\| b` yields `a` exactly when it is present and non-empty, else `b` |
| Js.ToInt32 | src/pages/CountiesMap.jsx:13 | `h \|= 0` yields the signed 32-bit integer congruent to `h` modulo 2^32 |
| Js.ShiftLeft5 | src/pages/CountiesMap.jsx:12 | `h << 5` is a signed 32-bit integer congruent to 32·h modulo 2^32 |
| Js.Remainder | src/pages/CountyOfficials.jsx:21 | `%` takes the sign of the dividend and its magnitude is \|a\| mod b |
| Js.Abs | src/pages/CountiesMap.jsx:15 | `Math.abs(x)` is x or -x and never negative |
| Js.Lower | src/pages/CountiesMap.jsx:156-157 | `toLowerCase` keeps the length and lowers each ASCII capital |
| Js.TrimStart | src/pages/CountyOfficials.jsx:142 | the removed prefix is blank and what is left does not start with white space |
| Js.TrimEnd | src/pages/CountyOfficials.jsx:142 | the removed suffix is blank and what is left does not end with white space |
| Js.Utf16 | src/pages/CountiesMap.jsx:11-12 | `length` and `charCodeAt` see between \|s\| and 2\|s\| code units, and exactly the characters when all lie in the BMP |
| Js.IncludesIffOccurs | src/pages/CountiesMap.jsx:158 | `includes` holds exactly when the needle occurs at some index |
| Js.FirstSegment | src/pages/CountiesMap.jsx:158 | `split(" ")[0]` is the longest space-free prefix |
| Js.TrimEmptyIffBlank | src/pages/CountyOfficials.jsx:142 | `!s.trim()` holds exactly when every character is white space |
| Sequences.Distinct | src/pages/CountyOfficials.jsx:135 | `[...new Set(s)]` has no duplicates and holds exactly the elements of `s` |
| Sequences.DistinctKeepsFirstOccurrenceOrder | src/pages/CountyOfficials.jsx:135 | the distinct elements come in the order of their first occurrences |
| Hashing.Hash32 | src/pages/CountiesMap.jsx:9-14 | after every code unit the map pages' accumulator is a signed 32-bit integer |
| Hashing.TruncatedHue | src/pages/CountiesMap.jsx:15 | `Math.abs(h) % 360` lies in [0, 360) |
| Hashing.Hash32IsTruncatedPoly | src/pages/CountiesMap.jsx:9-16 | after every code unit the map pages' accumulator is ToInt32 of the exact polynomial sum u[i]·31^(n-1-i) |
| Hashing.HashStringToHue | src/pages/CountiesMap.jsx:9-16 | the loop computes the truncated fold, and the hue lies in [0, 360) |
| Hashing.UntruncatedAgreesModulo32 | src/pages/CountyOfficials.jsx:16-22 | the officials page's untruncated accumulator is congruent modulo 2^32 to the map pages' one |
| Hashing.HashUntruncated | src/pages/CountyOfficials.jsx:17-20 | the officials page's accumulator, folded without `h \|= 0`; after n code units it is at most n · (2^31 + 2^16) in magnitude |
| Hashing.UntruncatedIsExact | src/pages/CountyOfficials.jsx:18-20 | for strings of up to four million code units the accumulator stays within 2^53, so Number arithmetic on it is exact |
| Hashing.UntruncatedHue | src/pages/CountyOfficials.jsx:21 | `Math.abs(hash % 360)` equals \|hash\| mod 360 and lies in [0, 360) |
| Hashing.HashStringToHueUntruncated | src/pages/CountyOfficials.jsx:16-22 | the loop computes the untruncated fold, and the hue lies in [0, 360) |
| Hashing.HuesAgreeWithoutOverflow | src/pages/CountyOfficials.jsx:16-22 | the two hue functions agree whenever the untruncated accumulator stays a 32-bit integer |
| Hashing.NarcKenyaUntruncated | src/pages/CountyOfficials.jsx:16-20 | the officials page's accumulator on "NARC-Kenya" is 2201818195, outside the 32-bit range |
| Hashing.NarcKenyaTruncated | src/pages/CountiesMap.jsx:9-14 | the map pages' accumulator on "NARC-Kenya" is -2093149101 |
| Hashing.HuesDivergeOnNarcKenya | src/pages/CountyOfficials.jsx:16-22 | they do not always agree: "NARC-Kenya" gets hue 21 on the map pages and 235 on the officials page |
| PartyColors.Resolve | src/pages/CountiesMap.jsx:57-68 | the result is HSL exactly when both the abbreviation and the name miss the table; it then hashes a non-empty key with the page's variant |
| PartyColors.HslHue | src/pages/CountiesMap.jsx:66-68 | the hue of an HSL colour lies in [0, 360) |
| PartyColors.ResolveIsDefined | src/pages/CountiesMap.jsx:20-62 | over a complete table the result is never undefined; it is a palette string exactly on a hit |
| PartyColors.AbbreviationTakesPrecedence | src/pages/CountiesMap.jsx:57-59 | a hitting abbreviation decides the colour whatever the name |
| PartyColors.NameConsultedOnMiss | src/pages/CountiesMap.jsx:60-62 | the name's colour is used when the abbreviation misses |
| PartyColors.EmptyIsAbsent | src/pages/CountiesMap.jsx:57-65 | an empty abbreviation or name behaves as a missing one |
| PartyColors.NameMattersOnlyOnKeyMiss | src/pages/ConstituenciesMap.jsx:57-62 | beside a present key, the name changes the colour exactly when the key misses and the name hits |
| PartyColors.MissDependsOnFallbackKey | src/pages/CountiesMap.jsx:64-68 | on a miss the colour is the hash of `abbrev \|\| name \|\| "OTHER"` |
| Legends.CollectKeys | src/pages/CountiesMap.jsx:127-131 | the `seen` pass yields the distinct keys in first-occurrence order |
| Legends.ColourKeys | src/pages/CountiesMap.jsx:133-136 | the second pass maps exactly the seen keys, each to `getPartyColor(k, k)` |
| Legends.PinParties | src/pages/CountiesMap.jsx:139-142 | the four pins add ODM, UDA, JP and Wiper, each holding the call with its full name, and keep every other entry |
| Legends.BuildLegend | src/pages/CountiesMap.jsx:125-145 | the effect's keys are the distinct party keys plus the four pinned parties; every unpinned key holds `getPartyColor(k, k)`; where each pin equals its key's own colour, the map is exactly the legend |
| Legends.PinnedHitAgrees | src/pages/CountiesMap.jsx:139-142 | a pinned party whose abbreviation is a table hit gets the same colour with or without its full name |
| Legends.LegendIsDefined | src/pages/CountiesMap.jsx:133-142 | over a complete table every listed or pinned key has a truthy colour in the legend |
| CountiesMap.ColorsComplete | src/pages/CountiesMap.jsx:20-55 | every table value has a non-empty palette entry |
| CountiesMap.OdmIsOrange | src/pages/CountiesMap.jsx:21-59 | "ODM" is "#fb923c" whatever the name |
| CountiesMap.LowerCaseOdmIsHashed | src/pages/CountiesMap.jsx:57-68 | lookup is exact: "odm" misses and is hashed |
| CountiesMap.BothWipersAreBlue | src/pages/CountiesMap.jsx:24-44 | "Wiper" and "WIPER" are both "#377eb8" |
| CountiesMap.JpIsHashed | src/pages/CountiesMap.jsx:139-142 | neither "JP" nor "Jubilee/JP" is in the table, so the JP pin is the hash of "JP" |
| CountiesMap.JubileeIsRed | src/pages/CountiesMap.jsx:23-43 | "Jubilee" is "#d32240" |
| CountiesMap.PartyColor | src/pages/CountiesMap.jsx:19-69 | this page's `getPartyColor` is never undefined, hashes exactly on a miss of both arguments, and then gives the truncated hue of `abbrev \|\| name \|\| "OTHER"` |
| CountiesMap.PartyKey | src/pages/CountiesMap.jsx:129 | `party.abbrev \|\| party.name \|\| "IND"` is never empty |
| CountiesMap.PartyKeys | src/pages/CountiesMap.jsx:128-129 | one key per official, in list order |
| CountiesMap.PinsAgreeHere | src/pages/CountiesMap.jsx:139-142 | in this table each pinned call equals the colour its key gets alone |
| CountiesMap.BuildLegend | src/pages/CountiesMap.jsx:125-145 | the effect's map is the legend of the officials' party keys |
| CountiesMap.PositionMatches | src/pages/CountiesMap.jsx:156-168 | an official is kept when the first word of the lowercased selection occurs in the lowercased position, or when both the selection names "women"/"woman" and the position does |
| CountiesMap.WomenRepKeepsWomanRepresentative | src/pages/CountiesMap.jsx:156-168 | selecting "Women Rep" keeps an official whose position is "Woman Representative", through the women/woman test |
| CountiesMap.LastKept | src/pages/CountiesMap.jsx:153-169 | the last official in list order kept for a county, or none |
| CountiesMap.Holders | src/pages/CountiesMap.jsx:149-172 | empty in Default mode; otherwise a county is mapped exactly when some official is kept for it, and to the last such one |
| CountiesMap.CountyToOfficial | src/pages/CountiesMap.jsx:149-172 | the memo's loop builds exactly that map |
| CountiesMap.GovernorKeepsDeputyGovernor | src/pages/CountiesMap.jsx:156-158 | selecting "Governor" keeps a "Deputy Governor" position, because "governor" occurs in "deputy governor" |
| CountiesMap.DeputyGovernorReplacesGovernor | src/pages/CountiesMap.jsx:153-160 | a Deputy Governor listed after the same county's Governor is the one shown |
| CountiesMap.CountyFill | src/pages/CountiesMap.jsx:175-186 | Default mode gives "#374151" or "#ffffff"; no officeholder or party gives "#4b5563" or "#f3f4f6"; otherwise the legend's colour for the party key when it is truthy, else `getPartyColor(key, party.name)`; never undefined |
| CountiesMap.FillIsKeyColor | src/pages/CountiesMap.jsx:175-186 | with the legend built from the same officials list, a county with a party is drawn in its key's own colour, never undefined, so with that legend the fallback call is not reached (a stale legend, such as `{}` on the first render, takes the fallback) |
| CountiesMap.UnknownAbbreviationWithKnownName | src/pages/CountiesMap.jsx:57-68 | "XYZ" with the name "Jubilee" resolves to red, while "XYZ" alone is hashed |
| CountiesMap.FillIgnoresNameBehindAbbreviation | src/pages/CountiesMap.jsx:185-186 | an officeholder of party ("XYZ", "Jubilee") is drawn in the hue of "XYZ", not Jubilee red |
| CountiesMap.PathFill | src/pages/CountiesMap.jsx:233 | the hovered county is "#d1d5db", every other one its fill |
| ConstituenciesMap.ColorsComplete | src/pages/ConstituenciesMap.jsx:17-55 | every table value, tan-400 included, has a non-empty palette entry |
| ConstituenciesMap.JpIsRed | src/pages/ConstituenciesMap.jsx:35-42 | JP is "#e41a1c" in this table |
| ConstituenciesMap.JubileeIsRed | src/pages/ConstituenciesMap.jsx:20-42 | Jubilee is "#e41a1c" |
| ConstituenciesMap.UpiaIsTan | src/pages/ConstituenciesMap.jsx:34-54 | UPIA is "#e5c494" |
| ConstituenciesMap.OdmIsOrange | src/pages/ConstituenciesMap.jsx:18-40 | ODM is "#ff7f00" here, not the county map's "#fb923c" |
| ConstituenciesMap.PartyColor | src/pages/ConstituenciesMap.jsx:16-69 | this page's `getPartyColor` is never undefined, hashes exactly on a miss of both arguments, and then gives the truncated hue of `abbrev \|\| name \|\| "OTHER"` |
| ConstituenciesMap.PartyKey | src/pages/ConstituenciesMap.jsx:110 | `abbreviation \|\| "Independent"` is never empty |
| ConstituenciesMap.MpKeys | src/pages/ConstituenciesMap.jsx:108-112 | the keys come exactly from the MPs that have a party |
| ConstituenciesMap.PinsAgreeHere | src/pages/ConstituenciesMap.jsx:120-123 | all four pinned parties are table hits, so the pins change nothing |
| ConstituenciesMap.BuildLegend | src/pages/ConstituenciesMap.jsx:105-126 | the effect's map is the legend of the MPs' party keys |
| ConstituenciesMap.ConstFill | src/pages/ConstituenciesMap.jsx:131-145 | Default mode gives "#374151" or "#fff"; no MP or no party gives "#4b5563" or "#e2e5e9"; otherwise `getPartyColor(abbreviation \|\| "Independent", name)`; never undefined |
| ConstituenciesMap.FillMatchesLegendIff | src/pages/ConstituenciesMap.jsx:131-145 | a constituency's fill equals its key's legend entry exactly when the key hits or the party name misses |
| ConstituenciesMap.FillAndLegendDisagree | src/pages/ConstituenciesMap.jsx:141-143 | "XYZ" with the name "Jubilee" is drawn red while the legend hashes "XYZ" |
| ConstituenciesMap.MissingAbbreviationIsGrey | src/pages/ConstituenciesMap.jsx:141-143 | a party without an abbreviation is drawn "#999999" whatever its name |
| ConstituenciesMap.Stroke | src/pages/ConstituenciesMap.jsx:182 | the stroke is "#e2e5e9" exactly in dark Default mode, else "#000000" |
| ConstituenciesMap.PathFill | src/pages/ConstituenciesMap.jsx:181 | the hovered constituency is "#d1d5db", every other one its fill |
| CountyOfficials.SameTableAsCountiesMap | src/pages/CountyOfficials.jsx:25-59 | the table and palette equal the county map's |
| CountyOfficials.PartyColor | src/pages/CountyOfficials.jsx:24-70 | this page's `getPartyColor` is never undefined, hashes exactly on a miss of both arguments, and then gives the untruncated hue of `abbrev \|\| name \|\| "OTHER"` |
| CountyOfficials.ColorsComplete | src/pages/CountyOfficials.jsx:25-59 | every table value has a non-empty palette entry |
| CountyOfficials.SameColorsUpToHash | src/pages/CountyOfficials.jsx:24-71 | this page and the county map agree on every hit, and on a miss hash the same key with their own variant |
| CountyOfficials.NarcKenyaHuesDiffer | src/pages/CountyOfficials.jsx:16-70 | "NARC-Kenya" is drawn at hue 235 here and at hue 21 on the county map |
| CountyOfficials.FilteredLeaders | src/pages/CountyOfficials.jsx:122-133 | throws exactly when a party is chosen and some leader has no party; otherwise an order-preserving sublist in which every passing leader occurs as often as in the list and no other leader occurs |
| CountyOfficials.InitialFiltersListEveryone | src/pages/CountyOfficials.jsx:122-133 | on the initial filters every leader is listed, in order |
| CountyOfficials.WindowMatchesIffOccurs | src/pages/CountyOfficials.jsx:123-125 | a window equal up to ASCII case is an occurrence of the lowered search in the lowered name |
| CountyOfficials.NameTestIgnoresCase | src/pages/CountyOfficials.jsx:123-125 | the name test is a case-insensitive substring test |
| CountyOfficials.TruthyCounties | src/pages/CountyOfficials.jsx:135 | exactly the truthy counties of the leaders, none empty |
| CountyOfficials.TruthyCountiesInLeaderOrder | src/pages/CountyOfficials.jsx:135 | the truthy counties are a subsequence of the mapped county fields holding every non-empty field as often as it occurs there: the fields with the falsy ones dropped, in leader order |
| CountyOfficials.UniqueCounties | src/pages/CountyOfficials.jsx:135 | no duplicates, and a county is listed exactly when it is non-empty and some leader names it |
| CountyOfficials.UniqueCountiesKeepFirstOccurrenceOrder | src/pages/CountyOfficials.jsx:135 | the counties come in first-occurrence order |
| CountyOfficials.PartyLabel | src/pages/CountyOfficials.jsx:137 | `o.party?.abbrev \|\| "Independent"` is the abbreviation when truthy, else "Independent", never empty |
| CountyOfficials.PartyLabels | src/pages/CountyOfficials.jsx:137 | one label per leader: same length, and position i holds leader i's label |
| CountyOfficials.UniqueParties | src/pages/CountyOfficials.jsx:136-138 | no duplicates and no empty entry; a label is listed exactly when some leader has it |
| CountyOfficials.UniquePartiesKeepFirstOccurrenceOrder | src/pages/CountyOfficials.jsx:136-138 | the party options come in the order their labels first occur among the leaders |
| CountyOfficials.PartyOptionsAreAbbreviations | src/pages/CountyOfficials.jsx:136-138 | every option other than "Independent" is some leader's abbreviation |
| CountyOfficials.IndependentOptionMissesUnabbreviated | src/pages/CountyOfficials.jsx:128-137 | "Independent" is offered for a party without abbreviation, but choosing it never lists that leader |
| CountyOfficials.PartyCells | src/pages/CountyOfficials.jsx:276-278 | the party column throws exactly when a listed leader has no party |
| CountyOfficials.PartyCellsAreLabels | src/pages/CountyOfficials.jsx:276-278 | where it renders, each cell is the leader's party option label |
| CountyOfficials.TableRendersUnderPartyFilter | src/pages/CountyOfficials.jsx:276-278 | with a party chosen, a filter that returns gives a table that renders |
| CountyOfficials.Toast | src/pages/CountyOfficials.jsx:142-146 | a toast is raised exactly when its test holds |
| CountyOfficials.NameErrors | src/pages/CountyOfficials.jsx:140-147 | the toasts are: blank after trim, any non-ASCII-letter character, more than 50 code units |
| CountyOfficials.NameErrorsInOrder | src/pages/CountyOfficials.jsx:142-146 | the toasts come in the handler's order, each at most once |
| CountyOfficials.NameAcceptedIff | src/pages/CountyOfficials.jsx:140-147 | a text draws no toast exactly when it is one to fifty ASCII letters |
| CountyOfficials.SpacesDrawTwoToasts | src/pages/CountyOfficials.jsx:142-145 | a text of spaces draws the blank and the non-letter toasts |
| CountyOfficials.OfficialsPage.constructor | src/pages/CountyOfficials.jsx:78-81 | the filters start at "", "All Leaders", "All Parties" and "" |
| CountyOfficials.OfficialsPage.TypeName | src/pages/CountyOfficials.jsx:182 | typing sets the search name and nothing else |
| CountyOfficials.OfficialsPage.HandleNameSearch | src/pages/CountyOfficials.jsx:140-148 | raises the toasts of the text and stores it as the search name whatever they say |
| CountyOfficials.OfficialsPage.SelectPosition | src/pages/CountyOfficials.jsx:198 | sets the position filter only |
| CountyOfficials.OfficialsPage.SelectParty | src/pages/CountyOfficials.jsx:213 | sets the party filter only |
| CountyOfficials.OfficialsPage.SelectCounty | src/pages/CountyOfficials.jsx:229 | sets the county filter only |
| CountyOfficials.SearchBlank | src/pages/CountyOfficials.jsx:140-148 | a fresh page lists everyone; a search for two spaces draws two toasts and still becomes the name filter |
| CountyOfficials.SliceColors | src/pages/CountyOfficials.jsx:343-356 | each party slice, and its cell, is coloured `getPartyColor(p.abbrev, p.name)` |
| CountyOfficials.SlicesAreColored | src/pages/CountyOfficials.jsx:343-356 | every slice colour is defined, and hashed with this page's variant on a miss |
| CountyOfficials.GenderColorsAreTableColors | src/pages/CountyOfficials.jsx:313-314 | the gender pies are "#377eb8" and "#d32240", the table's Wiper blue and Jubilee red |
| LandingPage.Navigate | src/pages/LandingPage.jsx:27-33 | "mp" and "co" go to their routes; any other input navigates nowhere |
| LandingPage.SearchRequest | src/pages/LandingPage.jsx:50-55 | no request exactly for a blank query; otherwise the query is posted untrimmed |
| LandingPage.Fill | src/pages/LandingPage.jsx:190-193 | only the hovered county is red; every other one is white or gray-700 |
| LandingPage.TouchMap.constructor | src/pages/LandingPage.jsx:19-35 | nothing hovered, touched or selected, no scroll, tooltip hidden |
| LandingPage.TouchMap.TouchStart | src/pages/LandingPage.jsx:65-82 | records the start, clears scrolling, hovers and touches the county, shows the tooltip |
| LandingPage.TouchMap.TouchMove | src/pages/LandingPage.jsx:84-98 | past 20 pixels on either axis: scrolling, no hover, tooltip hidden; otherwise nothing changes |
| LandingPage.TouchMap.TouchEnd | src/pages/LandingPage.jsx:100-113 | after a scroll nothing changes; after a tap the county is selected exactly when it is the touched one, and the hover is cleared |
| LandingPage.TouchMap.TouchCancel | src/pages/LandingPage.jsx:116-119 | clears the hover and hides the tooltip; the selection stays |
| LandingPage.TouchMap.MouseEnter | src/pages/LandingPage.jsx:196-199 | hovers the county and shows the tooltip |
| LandingPage.TouchMap.MouseLeave | src/pages/LandingPage.jsx:200-203 | clears the hover and hides the tooltip |
| LandingPage.TouchMap.ModalShown | src/pages/LandingPage.jsx:294 | the county modal is drawn while the selected id is truthy |
| LandingPage.TouchMap.TooltipShown | src/pages/LandingPage.jsx:274 | the tooltip is drawn while it is visible and a county is hovered |
| LandingPage.TouchMap.Click | src/pages/LandingPage.jsx:204-207 | selects the county, which shows the modal exactly when the id is not 0 |
| LandingPage.TouchMap.CloseModal | src/pages/LandingPage.jsx:294-295 | clears the selection, so the modal is not shown |
| LandingPage.ClickOpensModal | src/pages/LandingPage.jsx:204-207 | on a fresh map a click shows the modal exactly when the county id is truthy, and closing hides it |
| LandingPage.TouchGesture | src/pages/LandingPage.jsx:65-113 | a start-move-end touch selects the county exactly when the move stayed within 20 pixels, and leaves nothing hovered |
| LandingPage.TouchEndElsewhere | src/pages/LandingPage.jsx:104-107 | the id test: `handleTouchEnd` called for a county other than the touched one (an earlier touch ending after a later touch began on another path; a single touch always passes its own county) selects nothing |
| LandingPage.CancelledTouch | src/pages/LandingPage.jsx:116-119 | a cancelled touch selects nothing, leaves no county red and shows no tooltip |
| Legal.Accordion.constructor | src/pages/Legal.jsx:8 | no section is open initially |
| Legal.Accordion.ToggleSection | src/pages/Legal.jsx:10-12 | toggling the open section closes everything; toggling any other opens exactly it |
| Legal.AtMostOneOpen | src/pages/Legal.jsx:8-15 | two different sections are never open at once |
| Legal.ToggleTwice | src/pages/Legal.jsx:10-12 | from all-closed, one toggle opens a section and a second closes everything |
| Legal.SwitchSections | src/pages/Legal.jsx:10-15 | opening another section closes the one that was open |

## Left out

- Network calls (axios), loading and error states, and the `cancelled` flags of the effects: the fetched lists are parameters of the functions.
- `isDarkMode()` reads the document: it is the parameter `dark`.
- Tooltip coordinates, bounding boxes and SVG paths: touch positions are reals used only for the 20-pixel test.
- The 150 ms `setTimeout` in `handleTouchEnd`: the hover is cleared at once. Handlers are sequential transitions; React render and closure semantics are not modelled.
- Recharts, react-hot-toast, lucide icons, routing and page transitions: the model stops at the values handed to them (toast kinds, slice colours, routes).
- The static pages (about page, success mail, error page, loader) hold no logic.
- Prototype-inherited keys such as `hard["constructor"]`: the tables are finite maps.
- The `Object.keys` order of the legend and its `.slice(0, 8)` display are out of scope: the legend is a map.
- Js.Utf16: a Dafny `string` holds Unicode scalar values only, so a JS string with a lone surrogate cannot be represented; names with such code units are not modelled.
- `toLowerCase` is modelled on ASCII letters only. Other characters are left unchanged.
- The decimal formatting of the hue into the `hsl(...)` string: a colour keeps its variant and key, and `PartyColors.HslHue` gives the number.
- PartyColors.ResolveIsDefined: states that a table hit is one of the palette's strings, not that those strings have the `#rrggbb` form. The palette literals in each module show the form, but no lemma checks it.
- Hashing.HashUntruncated: the officials page's accumulator is a Number. The model is exact only while it stays within 2^53; Hashing.UntruncatedIsExact bounds that at four million code units.
- A `null` element of the officials or constituencies list, which `o?.party?.abbrev` (src/pages/CountiesMap.jsx:129) and `o?.party?.abbreviation` (src/pages/ConstituenciesMap.jsx:110) guard against: the lists are sequences of records.
- A `null` officials list, a leader whose name is not a string, and an official's `null` county (used as the key "null") are not modelled.
- The leader's photo, term years and the chart titles are display only.
