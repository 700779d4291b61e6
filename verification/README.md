# HAL codec model

A Dafny model of the codec at the heart of the Go library `haljson`. The codec
converts a resource tree to and from the JSON layout of the Hypertext
Application Language (draft-kelly-json-hal-11). The model has two variants, each
built from a links container, an embeds container, a resource and a curie:

- **The v3 codec:** `v3/links.go`, `v3/embeds.go`, `v3/resource.go` and
  `v3/curies.go`. Its resource is generic in the type `T` of its data.
- **The older codec:** `links.go`, `resource.go` and `v2/embeds.go`. Its link
  properties are pointers, its curie list is a pointer to a slice, and its data
  is untyped.

## How JSON is modelled

JSON is a tree (`Json.Json`). Its objects are ordered lists of members, so
encoders can state the order in which they write keys. Decoders read an object
the way `json.Unmarshal` fills a Go map: the last of several equal keys wins
(`Json.ToMap`), and `null` gives an empty map (`Hal.AsObject`). Most of the
codec then looks keys up in that map exactly. Only the top-level `curies` of a
resource is decoded into `Curie` structs. It has first been read into
`map[string]any` and written again by `json.Marshal`, so each curie object
arrives as its map with the keys in ascending order (`Curies.Remarshal`). The
struct decode then applies those members in order: a key selects a field
regardless of case, `null` leaves the field as it was, and a value of the wrong
type makes the whole decode fail (`Curies.FillCurie`). Numbers are opaque
literals.

## Module layout

The modules follow the source files:

| module | models |
|---|---|
| `Json` | the JSON tree; `ToMap`; the byte order of `sort.Strings` and the sort itself |
| `Hal` | constants; errors (`ErrNoCurie`, a malformed input, a value `T` cannot hold, a Go panic); Go's nil-versus-empty slice |
| `Curies` | `v3/curies.go`: the `Curie` class with its chainable setters, its encoding, and the curie gate of `AddLink` |
| `Links3` | `v3/links.go` |
| `Resource3` | `v3/embeds.go` and `v3/resource.go` |
| `Resource3RoundTrip` | the round trip of the v3 resource |
| `LegacyLinks` | `links.go` |
| `LegacyResource` | `v2/embeds.go` and `resource.go` |
| `LegacyRoundTrip` | the round trip of the older resource |

Each Go object whose methods update it in place is a class, for example
`Links3.Links` or `Resource3.Resource`. Each class has a `Value()` function that
returns its state as a datatype. Every method is proved against a pure function
of that value (`WithLink`, `EncodeLinks`, `DecodeLinksInto`, ...). The lemmas
state what the source promises about those functions: ordering, gating, key
partitioning, error cases and round trips.

A Go panic (an unchecked type assertion, a nil dereference) is the error
`Panic`. Map iteration order is left open wherever the source depends on it:
- `Embeds.MarshalJSON` may write its relations in any order
  (`IsEmbedsEncoding`).
- The decode loops state only what holds for every order.

## Model

| member | source | states |
|---|---|---|
| Json.SortedKeys | v3/links.go:140-145 | collecting the keys of a map and sorting them yields every key once, in the unique ascending order `SortedOf` |
| Json.SortedOf | v3/links.go:140-145 | a key set listed in sorted order has exactly its elements, each once |
| Json.SortedOfAscending | v3/links.go:145 | the sorted keys are strictly ascending in the byte order of `sort.Strings` |
| Json.SortedUnique | links.go:87-93 | any strictly ascending list of exactly the keys is the sorted list |
| Json.MembersOf | v3/resource.go:74-82 | one member per given key, in that order, with its value in the map |
| Json.MembersOfMap | v3/resource.go:67-82 | the members of a map in ascending key order read back as the map |
| Hal.AsObject | v3/links.go:163-167 | reading an object gives its members as a map (last duplicate wins); null gives an empty map; any other value is a malformed-input error |
| Curies.Curie.constructor | v3/curies.go:4-8 | a new curie has an empty name, an empty href and templated false |
| Curies.Curie.SetName | v3/curies.go:10-14 | sets the name, leaves href and templated unchanged, returns the same curie |
| Curies.Curie.SetHref | v3/curies.go:16-20 | sets the href, leaves the other fields unchanged, returns the same curie |
| Curies.Curie.SetTemplated | v3/curies.go:22-26 | sets the flag to the given value, leaves the other fields unchanged, returns the same curie |
| Curies.ChainedCurie | v3/curies.go:10-26 | chained setter calls on a new curie build exactly the curie with those three values |
| Curies.EncodeCurie | v3/curies.go:4-8 | the encoding reads back as exactly the non-empty fields (`omitempty`) |
| Curies.EncodeCuries | v3/curies.go:4-8 | a list of curies encodes element by element, preserving length and order |
| Curies.DecodeCurie | v3/resource.go:146-157 | an array element decoded into a `Curie`: null is the zero curie; an object fills the struct member by member (`FillCurie`); any other value is an error |
| Curies.SetField | v3/resource.go:146-157 | one member applied to the curie struct succeeds exactly when a member selecting `name` or `href` holds a string or null and one selecting `templated` holds a bool or null |
| Curies.FillCurie | v3/resource.go:146-157 | filling the struct from an object's members fails only with a malformed-input error |
| Curies.FillCurieSnoc | v3/resource.go:146-157 | one more member applies one more field update to the curie filled so far |
| Curies.FillCurieFits | v3/resource.go:146-157 | the struct fills exactly when every member has the type its field needs |
| Curies.LastSet | v3/resource.go:146-157 | the value of the last non-null member whose key selects the field, if there is one |
| Curies.FillCurieName | v3/resource.go:146-157 | a filled curie's name is the last non-null string for a key equal to `name` in any case, or empty |
| Curies.FillCurieHref | v3/resource.go:146-157 | a filled curie's href is the last non-null string for a key equal to `href` in any case, or empty |
| Curies.FillCurieTemplated | v3/resource.go:146-157 | a filled curie's flag is the last non-null bool for a key equal to `templated` in any case, or false |
| Curies.CapitalisedKeyRead | v3/resource.go:146-157 | `{"Name": n}` decodes to a curie named `n` |
| Curies.DecodeCurieArray | v3/resource.go:146-157 | `[]Curie` decoding: null is no curies; a value that is neither null nor an array is an error; an array decodes element by element, failing when any element does |
| Curies.CurieRoundTrip | v3/curies.go:4-8 | every curie decodes back from its encoding |
| Curies.CurieArrayRoundTrip | v3/resource.go:146-157 | every curie list decodes back from its encoding |
| Curies.Remarshal | v3/resource.go:146-148 | an item re-marshalled after `map[string]any`: an object reads as the same map, its keys listed once each in ascending order; any other value is kept |
| Curies.DecodeTopCuries | v3/resource.go:146-157 | the top-level `curies` as `[]Curie`: null is no curies; neither null nor an array is an error; an array decodes each re-marshalled item |
| Curies.TopCurieFits | v3/resource.go:146-157 | a top-level curie object decodes exactly when every entry of the map read from it has its field's type; earlier duplicates play no part |
| Curies.LastSetListed | v3/resource.go:146-157 | over a map's listed members, when only `f` itself selects field `f`, the value set is the map's non-null value for `f`, or none |
| Curies.TopCurieExactKeys | v3/resource.go:146-157 | without case variants of the field names, a top-level curie decodes to the map's string `name` and `href` and bool `templated`, zero when null or absent |
| Curies.TopCurieRoundTrip | v3/resource.go:146-157 | an encoded curie reads back through the top-level path |
| Curies.TopCuriesRoundTrip | v3/resource.go:146-157 | an encoded curie list reads back through the top-level path |
| Curies.RemarshalDropsEarlierDuplicate | v3/resource.go:146-157 | `{"name": true, "name": n}` fails as raw struct input but decodes to a curie named `n` at the top level |
| Curies.RemarshalKeepsTrailingNull | v3/resource.go:146-157 | `[{"name": a, "name": null}]` gives a curie with an empty name: the map keeps the null |
| Curies.RemarshalAppliesSortedKeys | v3/resource.go:146-157 | `[{"name": b, "Name": a}]` gives the name `b`: `Name` sorts first, so `name` is applied last |
| Curies.ColonIndex | v3/links.go:98 | the position of the first ':' (with no ':' before it), or -1 exactly when there is none |
| Curies.Prefix | v3/links.go:99 | the text before the first colon: non-empty, colon-free, and the relation type is prefix + ':' + rest |
| Curies.LookupCurie | v3/links.go:103-109 | the search loop finds a curie exactly when one is named after the prefix |
| Curies.CheckGate | v3/links.go:96-113 | the imperative gate (index, split, search) agrees with `GateOpen` |
| Curies.LeadingColonNotGated | v3/links.go:97-98 | a relation type starting with ':' is never gated |
| Curies.RegisteringOpensGate | v3/links.go:103-112 | appending a curie named after the prefix opens the gate |
| Curies.OtherCurieKeepsGate | v3/links.go:103-112 | appending a curie with another name leaves the gate's answer unchanged |
| Curies.GateUsesPrefixOnly | v3/links.go:99-105 | only the part before the first colon is looked up |
| Links3.LinkKeysSorted | v3/links.go:12-21 | the link properties, in struct field order, are in ascending key order |
| Links3.OmitEmptySorted | v3/links.go:12-21 | dropping the empty properties keeps the remaining keys ascending |
| Links3.EncodeLinkLayout | v3/links.go:12-21 | an encoded link holds exactly its non-empty properties, keys strictly ascending |
| Links3.DecodeLink | v3/links.go:232-268 | a known property of the right type sets its field; anything else is skipped |
| Links3.LinkRoundTrip | v3/links.go:232-268 | a link decodes back from its own encoding |
| Links3.UnknownPropertyIgnored | v3/links.go:233-267 | an unknown property has no effect, whatever its value |
| Links3.WrongTypeIgnored | v3/links.go:235-262 | a string property holding a non-string value is as if absent |
| Links3.WithCurie | v3/links.go:86-92 | the curie is appended at the end, with no duplicate check; self and relations are unchanged |
| Links3.WithLink | v3/links.go:95-120 | succeeds exactly when the gate is open, else fails with `ErrNoCurie`; on success the link is appended to the relation (created if absent); self, curies and other relations are unchanged |
| Links3.EmptyLinksGated | v3/links.go:277-281 | a new links container satisfies the curie invariant (every curied relation has its curie) |
| Links3.WithLinkKeepsGated | v3/links.go:95-120 | `AddLink` preserves the curie invariant |
| Links3.WithCurieKeepsGated | v3/links.go:86-92 | `AddCurie` preserves the curie invariant |
| Links3.OtherCurieDoesNotUnlock | v3/links.go:100-113 | a refused `AddLink` stays refused after registering a curie with another name |
| Links3.MatchingCurieUnlocks | v3/links.go:103-112 | registering the prefix makes the same `AddLink` succeed |
| Links3.EncodeLinkList | v3/links.go:148 | a non-empty list is an array of the link encodings in order; an empty list (only decoding makes one, as a nil slice) is null |
| Links3.RelationMembers | v3/links.go:147-153 | one member per given key, in that order, holding the relation's encoded list |
| Links3.EncodeLinksLayout | v3/links.go:123-159 | `self` first exactly when set, `curies` next exactly when non-empty, then every relation key once, strictly ascending, each with its list |
| Links3.RelationsAreArrays | v3/links.go:147-153 | when every relation has links, every relation is written as an array of the same length |
| Links3.MarshalRelations | v3/links.go:140-153 | the sort-then-append loop produces the relation members in ascending key order |
| Links3.MarshalLinks | v3/links.go:123-159 | the buffer built by the method equals `EncodeLinks` |
| Links3.DecodeCuriesLenient | v3/links.go:168-200 | succeeds exactly when `curies` is an array of objects; right-typed fields are kept; otherwise a malformed-input error |
| Links3.DecodeSelf | v3/links.go:202-218 | succeeds exactly on an object, keeping only a string `href` |
| Links3.DecodeLinkList | v3/links.go:222-270 | succeeds exactly on an array of objects, each decoded as a link |
| Links3.DecodeRelations | v3/links.go:220-272 | succeeds exactly when every remaining key decodes; the result has exactly those keys |
| Links3.DecodeLinksInto | v3/links.go:162-274 | the relations are exactly the keys other than `self` and `curies`; absent `curies` and `self` leave the old values; a decoded self keeps only href; a bad `curies` or a non-object `self` fails |
| Links3.CurieLenientRoundTrip | v3/links.go:174-197 | a curie read back by the lenient loop is the same curie |
| Links3.CuriesReadBack | v3/links.go:168-200 | an encoded curie list decodes back unchanged |
| Links3.SelfReadBack | v3/links.go:202-218 | the encoded self link reads back as its href alone |
| Links3.LinkListReadBack | v3/links.go:222-270 | a non-empty link list decodes back unchanged |
| Links3.RelationsReadBack | v3/links.go:220-272 | relations that each hold links decode back unchanged |
| Links3.EncodedLinksMap | v3/links.go:123-159 | the encoding reads back as `self`, `curies` (when written) and each relation with its list |
| Links3.LinksRoundTrip | v3/links.go:123-274 | decoding the encoding gives the links back, self reduced to its href, provided no relation is empty or named `self`/`curies` |
| Links3.EmptyRelationDoesNotReadBack | v3/links.go:147-153 | an empty relation is written as null, which does not decode |
| Links3.EmptyArrayGivesNoLinks | v3/links.go:226-271 | a relation holding `[]` decodes to a relation with no links |
| Links3.Links.constructor | v3/links.go:277-281 | `NewLinks`: no self, no curies, no relations |
| Links3.Links.AddCurie | v3/links.go:86-92 | returns nil; the new state is `WithCurie` of the old |
| Links3.Links.AddLink | v3/links.go:95-120 | returns nil and stores `WithLink`'s state, or returns `ErrNoCurie` and changes nothing |
| Links3.Links.MarshalJSON | v3/links.go:123-159 | writes `EncodeLinks` of the current value |
| Links3.Links.UnmarshalJSON | v3/links.go:162-274 | fails exactly when `DecodeLinksInto` does, with its error; on success the new value is its result; an unreadable input or bad curies change nothing; a bad self link leaves only the decoded curies stored; a failing relation leaves curies and self stored and only correctly decoded relations |
| Links3.DecodeRelationsLoop | v3/links.go:220-272 | the loop succeeds exactly when `DecodeRelations` does, with the same map, in any key order; every relation it keeps is an input key with its decoded list |
| Resource3.ResourceLayout | v3/resource.go:44-105 | the keys are `_links` (when written), `_embedded` (when written), then the data keys strictly ascending |
| Resource3.EmptyResourceEncoding | v3/resource.go:84-104 | a resource with nothing to write encodes to `{}` |
| Resource3.NewResourceEncodesEmpty | v3/resource.go:178-184 | `NewResource` encodes to `{}` |
| Resource3.EntriesOf | v3/embeds.go:10-13 | the embeds map listed by relation type, ascending, each with its resources |
| Resource3.EncodeEmbeds | v3/embeds.go:16-29 | one member per relation |
| Resource3.WithEmbed | v3/resource.go:30-36 | the resource is appended to the relation's list (created if absent); other relations are unchanged |
| Resource3.DecodeResource | v3/resource.go:108-175 | errors are malformed input, a panic (a null `_links` with a top-level `curies`), or a type error when some value cannot be converted to `T`; a top-level `curies` is read after its round through `map[string]any` |
| Resource3.EmbedsStep | v3/resource.go:115-129 | a bad `_embedded` is a malformed-input error or a panic from a nested resource |
| Resource3.DecodeEmbeds | v3/embeds.go:32-52 | errors are malformed input or a panic from a nested resource |
| Resource3.DecodeResources | v3/embeds.go:40-48 | decoding a `[]Resource[any]` fails only with a malformed-input error or a panic |
| Resource3.LinksStep | v3/resource.go:131-157 | the links and curies step as written: a null `_links` gives nil links; a top-level `curies` then panics, and otherwise replaces the curies with `DecodeTopCuries` of it; other failures are malformed input |
| Resource3.LinksMemberStep | v3/resource.go:131-141 | the `_links` member alone: absent gives `NewLinks`, null gives nil links, anything else decodes into `NewLinks`; a failure is malformed input |
| Resource3.DecodeData | v3/resource.go:160-173 | succeeds exactly when every remaining value converts to `T`; the keys are kept; a failure is a type error on some key |
| Resource3.DecodeResourceShape | v3/resource.go:108-175 | on success: data keys are the input keys minus `_embedded`, `_links` and `curies`; an absent `_embedded` gives empty embeds, a null one none; links are nil exactly when `_links` is null; absent `_links` and `curies` give `NewLinks`; a top-level `curies` replaces the curies with `DecodeTopCuries` of it, the re-marshalled reading; with good embeds and links, success exactly when all data converts; a null `_links` with readable top-level curies is a panic |
| Resource3.DataMismatchFails | v3/resource.go:167-171 | a data value `T` cannot hold makes the decode fail with a type error |
| Resource3.DecodeResourceSteps | v3/resource.go:108-175 | the decode is embeds, then links and curies, then data; the first failing step decides the error |
| Resource3.DecodeEntriesShape | v3/embeds.go:39-50 | the relations decode in the given order; success exactly when every one decodes; a failure is the error of one of them |
| Resource3.DecodeEntries | v3/embeds.go:39-50 | decoding the listed relations fails only with a malformed-input error or a panic |
| Resource3.DecodeEmbedsShape | v3/embeds.go:38-50 | a decoded embeds value lists every input key with its decoded resources |
| Resource3.DecodeEmbedsErrors | v3/embeds.go:33-48 | unreadable input, or one relation that is not a resource list, is an error |
| Resource3.DecodeResourcesShape | v3/embeds.go:40-48 | null is a nil list; a value that is neither null nor an array is an error; an array decodes item by item |
| Resource3.NullLinksWithCuriesPanics | v3/resource.go:131-157 | `{"_links": null, "curies": []}` panics as written |
| Resource3.NullLinksGivesNilLinks | v3/resource.go:132-143 | a null `_links` without top-level curies stores nil links |
| Resource3.TopCuriesDuplicateResolved | v3/resource.go:108-175 | `{"curies": [{"name": true, "name": n}]}` decodes to `NewLinks` with one curie named `n`, empty embeds and no data |
| Resource3.CorrectedLinksStep | v3/resource.go:131-157 | the links step with a null `_links` read as absent: fails only with a malformed-input error |
| Resource3.LinksStepAgrees | v3/resource.go:131-157 | apart from a null `_links`, the written step and the corrected one agree |
| Resource3.CorrectedLinksStepNullIsAbsent | v3/resource.go:131-157 | the corrected step treats a null `_links` exactly as an absent one and fails only with a malformed-input error |
| Resource3.Embeds.constructor | v3/embeds.go:55-59 | `NewEmbeds` has no relations |
| Resource3.Embeds.MarshalJSON | v3/embeds.go:16-29 | writes each relation exactly once with its resources, in an unspecified order |
| Resource3.Embeds.UnmarshalJSON | v3/embeds.go:32-52 | succeeds exactly when `DecodeEmbeds` does; then the relations are exactly the input keys, each decoded; unreadable input is an error and changes nothing; otherwise a failure is the error of some relation, and the fresh map keeps only input keys, each correctly decoded |
| Resource3.DecodedEmbedsAre | v3/embeds.go:38-50 | decoding every relation gives the embeds value listing them |
| Resource3.MarshalData | v3/resource.go:67-82 | the sort-then-append loop writes the data members in ascending key order |
| Resource3.DecodeDataLoop | v3/resource.go:160-173 | the conversion loop agrees with `DecodeData` in any key order; on failure, what was converted is kept |
| Resource3.Resource.constructor | v3/resource.go:177-184 | `NewResource`: empty data, `NewLinks`, `NewEmbeds` |
| Resource3.Resource.Self | v3/resource.go:19-22 | replaces the self link with a link holding only the href; nothing else changes |
| Resource3.Resource.AddLink | v3/resource.go:24-27 | `Links.AddLink` on the resource's links |
| Resource3.Resource.AddCurie | v3/resource.go:38-41 | `Links.AddCurie` on the resource's links |
| Resource3.Resource.AddEmbed | v3/resource.go:29-36 | returns nil; the relations become `WithEmbed` of the old ones; links and data are unchanged |
| Resource3.Resource.MarshalJSON | v3/resource.go:43-105 | writes `Assemble` of the value, with one of the encodings `Embeds.MarshalJSON` may produce |
| Resource3.Resource.UnmarshalJSON | v3/resource.go:107-175 | on success the value is `DecodeResource`'s result; otherwise it fails with its error (after a failing embeds step: a malformed input or a panic); unreadable input or bad embeds change nothing; embeds are stored first; the links, nil for a null `_links`, are stored before the curies are read; data changes only when links and curies succeed; after a failing conversion it holds only data keys, each converted by `T` |
| Resource3.UnmarshalEmbedsMember | v3/resource.go:115-129 | the embeds step as the method does it, allocating a fresh container: succeeds exactly when `EmbedsStepOf` does, with its value; a failure is malformed input or a panic, malformed when `_embedded` is not an object |
| Resource3.UnmarshalLinksMember | v3/resource.go:131-143 | the `_links` step as the method does it: agrees with `LinksMemberStep`, a fresh container or nil for a null `_links` |
| Resource3RoundTrip.ReadSelf | v3/links.go:208-216 | the links value after a round trip: self keeps only its href |
| Resource3RoundTrip.Reread | v3/resource.go:108-175 | the resource after a round trip: same data; links and embeds present, empty when not written |
| Resource3RoundTrip.EncodedResourceMap | v3/resource.go:44-105 | the encoding reads back as `_links`, `_embedded` (when written) and the data |
| Resource3RoundTrip.ResourceRoundTrip | v3/resource.go:44-175 | decoding the encoding of a wire-safe resource gives the reread resource |
| Resource3RoundTrip.LinksStepReadsBack | v3/resource.go:131-144 | encoded links read back through the links step |
| Resource3RoundTrip.DataOfEncoding | v3/resource.go:160-173 | encoded data reads back through the conversion when `T` holds every value |
| Resource3RoundTrip.EmbedsRoundTrip | v3/embeds.go:16-52 | decoding the encoding of wire-safe embeds gives them back, each resource reread |
| Resource3RoundTrip.ResourcesRoundTrip | v3/embeds.go:19-48 | a list of wire-safe resources decodes back from its encoding |
| Resource3RoundTrip.CanonicalEmbedsEncoding | v3/embeds.go:16-29 | writing the relations in ascending order is one of the permitted encodings |
| Resource3RoundTrip.EmptyEmbedsEncoding | v3/embeds.go:25-28 | empty embeds encode to `{}` |
| Resource3RoundTrip.EmbedsEncodingSize | v3/embeds.go:16-24 | every permitted encoding has exactly one member per relation |
| Resource3RoundTrip.EmbedsEncodingMap | v3/embeds.go:16-29 | every permitted encoding reads back as the same object |
| Resource3RoundTrip.DecodeEmbedsByObject | v3/embeds.go:32-37 | decoding embeds depends only on the object read from them |
| Resource3RoundTrip.EmbedsEncodingsDecodeAlike | v3/embeds.go:16-52 | any key order decodes like the ascending one |
| Resource3RoundTrip.MarshalDecodesAlike | v3/resource.go:56-65 | whatever embeds order the resource writes, the output decodes alike |
| Resource3RoundTrip.SameOutsideEmbedded | v3/resource.go:128-173 | objects that differ only in `_embedded` give the same links and data |
| Resource3RoundTrip.LinksStepIgnoresEmbedded | v3/resource.go:128-129 | the links step does not read `_embedded` |
| Resource3RoundTrip.MarshalRoundTrip | v3/resource.go:44-175 | for the container's output in any embeds order, decoding gives the reread resource |
| Resource3RoundTrip.RereadEncodesAlike | v3/resource.go:44-175 | when every self link holds only an href, the reread resource encodes exactly like the original |
| Resource3RoundTrip.PayloadRoundTrip | v3/resource.go:44-175 | for a wire-safe resource whose self links hold only an href, encode, decode and encode again gives the first encoding |
| LegacyLinks.EncodeLink | links.go:11-20 | the encoding reads back as exactly the set pointers (an empty string or false included) and a non-empty href |
| LegacyLinks.ShownLinkLookup | links.go:11-20 | each property is written exactly when its pointer is set (href: when non-empty), with its value |
| LegacyLinks.StringPointer | links.go:155-176 | an absent property is nil; a string is set; any other value panics |
| LegacyLinks.BoolPointer | links.go:177-180 | an absent `templated` is nil; a bool is set; any other value panics |
| LegacyLinks.DecodeLink | links.go:152-182 | succeeds exactly when every known property has its type; otherwise a panic |
| LegacyLinks.PresenceDecidesPointers | links.go:152-182 | an optional property is set exactly when its key is present; href is the string or empty |
| LegacyLinks.NameIgnored | links.go:153-181 | `name` is skipped, whatever its value |
| LegacyLinks.WrongTypePanics | links.go:155-176 | a string property of another type panics |
| LegacyLinks.LinkRoundTrip | links.go:11-20 | a link decodes back from its encoding, with set-but-empty properties kept |
| LegacyLinks.DecodeCurieStrict | links.go:119-129 | a curie that is not an object, or a field of the wrong type, panics |
| LegacyLinks.DecodeCuriesStrict | links.go:116-134 | `curies` must be an array, else a panic; `[]` gives a nil slice; a non-empty array decodes element by element |
| LegacyLinks.DecodeSelfStrict | links.go:136-146 | succeeds exactly on an object whose `href`, if present, is a string; keeps only href; otherwise a panic |
| LegacyLinks.DecodeLinkList | links.go:150-184 | succeeds exactly on an array of well-typed link objects; otherwise a panic |
| LegacyLinks.DecodeRelations | links.go:148-186 | succeeds exactly when every remaining key decodes; a failure is a panic |
| LegacyLinks.WithCurie | links.go:30-37 | allocates the list on first use, then appends the curie; nothing else changes |
| LegacyLinks.WithLink | links.go:39-65 | the same gate as v3 (a nil list registers nothing); `ErrNoCurie` otherwise; on success the link is appended (relation created if absent); nothing else changes |
| LegacyLinks.NoCuriesRefusesCuried | links.go:45-49 | with a nil curie pointer every curied relation type is refused |
| LegacyLinks.EncodeCurieSlice | links.go:78-84 | a nil slice is written as null, otherwise as the curie array |
| LegacyLinks.EncodeLinkList | links.go:95-101 | a non-empty list is an array of the link encodings; an empty (nil) list is null |
| LegacyLinks.EncodeLinksLayout | links.go:67-107 | `self` first exactly when set, `curies` next exactly when the pointer is set, then every relation key once, strictly ascending |
| LegacyLinks.EmptyCuriesWritten | links.go:78-84 | an allocated empty curie list is written as `"curies": []` |
| LegacyLinks.MarshalRelations | links.go:86-101 | the index-filled, sorted key loop writes the relation members in ascending order |
| LegacyLinks.DecodeLinksInto | links.go:109-188 | relations are exactly the keys other than `self`/`curies`; a present `curies` sets the pointer; absent members keep the old values; self keeps only href; a null `curies` panics |
| LegacyLinks.CurieStrictRoundTrip | links.go:116-131 | an encoded curie decodes back through the asserting loop |
| LegacyLinks.SelfReadBack | links.go:136-146 | the encoded self link reads back as its href alone |
| LegacyLinks.ReadSelf | links.go:136-146 | the links value after a round trip: self keeps only its href, the rest is unchanged |
| LegacyLinks.CuriesReadBack | links.go:116-134 | a non-empty curie list decodes back unchanged |
| LegacyLinks.LinkListReadBack | links.go:150-184 | a non-empty link list decodes back unchanged |
| LegacyLinks.RelationsReadBack | links.go:148-186 | relations that each hold links decode back unchanged |
| LegacyLinks.EncodedLinksMap | links.go:67-107 | the encoding reads back as `self`, `curies` (when the pointer is set) and each relation with its list |
| LegacyLinks.LinksRoundTrip | links.go:67-188 | decoding the encoding gives the links back (self reduced to href), when relations are non-empty, none is named `self`/`curies`, and a set curie list is non-empty |
| LegacyLinks.NilCuriesDoNotReadBack | links.go:78-84 | a pointer to a nil curie slice is written as null, and decoding that panics |
| LegacyLinks.EmptyCuriesReadBackNil | links.go:116-134 | an allocated empty curie list reads back as a pointer to a nil slice |
| LegacyLinks.Links.constructor | links.go:190-195 | `NewLinks`: no self, nil curie pointer, no relations |
| LegacyLinks.Links.AddCurie | links.go:30-37 | returns nil; the new state is `WithCurie` of the old |
| LegacyLinks.Links.AddLink | links.go:39-65 | the search loop without `break` agrees with the gate; returns nil and stores `WithLink`'s state, or returns `ErrNoCurie` and changes nothing |
| LegacyLinks.Links.MarshalJSON | links.go:67-107 | writes `EncodeLinks` of the current value |
| LegacyLinks.Links.UnmarshalJSON | links.go:109-188 | fails exactly when `DecodeLinksInto` does, with its error; on success the value is its result; an unreadable input or bad curies change nothing; a bad self link leaves the curies stored; a failing relation leaves curies, self and only correctly decoded relations |
| LegacyLinks.DecodeRelationsLoop | links.go:148-186 | the loop agrees with `DecodeRelations` in any key order; every failure is a panic; every relation it keeps is an input key with its decoded list |
| LegacyResource.ResourceLayout | resource.go:43-108 | the keys are `_links` (when written), `_embedded` (when written), then the data keys strictly ascending |
| LegacyResource.EmptyResourceEncoding | resource.go:87-107 | a resource with nothing to write encodes to `{}` |
| LegacyResource.CuriesAloneNotWritten | resource.go:48 | links holding only curies are not written |
| LegacyResource.EntriesOf | v2/embeds.go:10-13 | the embeds map listed by relation type, ascending, each with its resources |
| LegacyResource.EncodeEmbeds | v2/embeds.go:16-29 | one member per relation |
| LegacyResource.WithEmbed | resource.go:29-36 | the resource is appended to the relation's list (created, empty and not nil, if absent); other relations are unchanged |
| LegacyResource.DecodeResource | resource.go:110-168 | errors are a malformed input or a panic; a top-level `curies` is read after its round through `map[string]interface{}` |
| LegacyResource.DecodeEmbeds | v2/embeds.go:32-53 | errors are a malformed input or a panic from a nested resource |
| LegacyResource.DecodeResources | v2/embeds.go:41-50 | decoding a `[]Resource` fails only with a malformed-input error or a panic |
| LegacyResource.LinksStep | resource.go:135-161 | a given top-level `curies` replaces the curies with an allocated list, `DecodeTopCuries` of it; with neither `_links` nor `curies` given, the links are `NewLinks` |
| LegacyResource.DecodeResourceSteps | resource.go:110-168 | the decode is embeds, then links and curies, then the rest as data |
| LegacyResource.DecodeResourceShape | resource.go:110-168 | on success data is exactly the input minus `_embedded`, `_links` and `curies`, untouched; absent or null members give the empty containers; success exactly when the embeds and links steps succeed |
| LegacyResource.NullLinksMembersAreAbsent | resource.go:136-150 | a null `_links` or `curies` is the same as an absent one |
| LegacyResource.NullEmbeddedIsAbsent | resource.go:121 | a null `_embedded` gives `NewEmbeds` |
| LegacyResource.NullLinksWithCuriesDecodes | resource.go:135-161 | `{"_links": null, "curies": []}` decodes to `NewLinks` with an allocated empty curie list |
| LegacyResource.TopCuriesDuplicateResolved | resource.go:110-168 | `{"curies": [{"name": true, "name": n}]}` decodes to `NewLinks` with one curie named `n`, empty embeds and no data |
| LegacyResource.CuriesShapeErrors | resource.go:150-161 | a `curies` that is not an array is a returned error at the top level but a panic inside `_links` |
| LegacyResource.DecodeEntriesShape | v2/embeds.go:40-51 | the relations decode in the given order; success exactly when every one decodes; a failure is the error of one of them |
| LegacyResource.DecodeEntries | v2/embeds.go:40-51 | decoding the listed relations fails only with a malformed-input error or a panic |
| LegacyResource.DecodeEmbedsErrors | v2/embeds.go:33-50 | unreadable input is a malformed-input error; a relation that is not a resource list makes the decode fail |
| LegacyResource.DecodeResourcesShape | v2/embeds.go:41-50 | null is a nil list; a value that is neither null nor an array is an error; an array decodes item by item |
| LegacyResource.NullItemIsEmptyResource | resource.go:110-168 | a null item of a relation list decodes to an empty resource |
| LegacyResource.Embeds.constructor | v2/embeds.go:55-60 | `NewEmbeds` has no relations |
| LegacyResource.Embeds.MarshalJSON | v2/embeds.go:16-29 | writes each relation exactly once with its resources, in an unspecified order |
| LegacyResource.Embeds.UnmarshalJSON | v2/embeds.go:32-53 | succeeds exactly when `DecodeEmbeds` does, with the input keys each decoded; unreadable input changes nothing; a failure is the error of some relation, and the fresh map keeps only input keys, each correctly decoded |
| LegacyResource.DecodedEmbedsAre | v2/embeds.go:39-51 | decoding every relation gives the embeds value listing them |
| LegacyResource.Resource.constructor | resource.go:170-177 | `NewResource`: empty data, `NewLinks`, `NewEmbeds` |
| LegacyResource.Resource.Self | resource.go:19-22 | replaces the self link with a link holding only the href |
| LegacyResource.Resource.AddLink | resource.go:24-27 | `Links.AddLink` on the resource's links |
| LegacyResource.Resource.AddCurie | resource.go:38-41 | `Links.AddCurie` on the resource's links |
| LegacyResource.Resource.AddEmbed | resource.go:29-36 | returns nil; the relations become `WithEmbed` of the old ones; links and data are unchanged |
| LegacyResource.Resource.MarshalJSON | resource.go:43-108 | writes `Assemble` of the value, with one of the encodings `Embeds.MarshalJSON` may produce |
| LegacyResource.Resource.UnmarshalJSON | resource.go:110-168 | fails exactly when `DecodeResource` does; on success the value is its result; embeds are stored first; a failing `_links` leaves the links as they were; otherwise the decoded links are stored before the curies are read, so failing curies leave them there; data changes only on success |
| LegacyResource.UnmarshalEmbedsMember | resource.go:119-133 | the embeds step as the method does it, into a fresh container |
| LegacyResource.UnmarshalLinksMember | resource.go:135-148 | the `_links` step as the method does it, into a fresh container |
| LegacyRoundTrip.Reread | resource.go:110-168 | the resource after a round trip: same data; links and embeds present, empty when not written |
| LegacyRoundTrip.ResourceRoundTrip | resource.go:43-168 | decoding the encoding of a wire-safe resource gives the reread resource |
| LegacyRoundTrip.LinksStepReadsBack | resource.go:135-148 | encoded links read back through the links step |
| LegacyRoundTrip.DataOfEncoding | resource.go:164-165 | the encoded data reads back as the data |
| LegacyRoundTrip.EmbedsRoundTrip | v2/embeds.go:16-53 | decoding the encoding of wire-safe embeds gives them back, each resource reread |
| LegacyRoundTrip.ResourcesRoundTrip | v2/embeds.go:19-49 | a list of wire-safe resources decodes back from its encoding |
| LegacyRoundTrip.CanonicalEmbedsEncoding | v2/embeds.go:16-29 | writing the relations in ascending order is one of the permitted encodings |
| LegacyRoundTrip.EmbedsEncodingMap | v2/embeds.go:16-29 | every permitted encoding reads back as the same object |
| LegacyRoundTrip.DecodeEmbedsByObject | v2/embeds.go:32-38 | decoding embeds depends only on the object read from them |
| LegacyRoundTrip.EmbedsEncodingsDecodeAlike | v2/embeds.go:16-53 | any key order decodes like the ascending one |
| LegacyRoundTrip.MarshalDecodesAlike | resource.go:57-66 | whatever embeds order the resource writes, the output decodes alike |
| LegacyRoundTrip.SameOutsideEmbedded | resource.go:132-165 | objects that differ only in `_embedded` give the same links and data |
| LegacyRoundTrip.LinksStepIgnoresEmbedded | resource.go:132-148 | the links step does not read `_embedded` |
| LegacyRoundTrip.MarshalRoundTrip | resource.go:43-168 | for the container's output in any embeds order, decoding gives the reread resource |
| LegacyRoundTrip.RereadEncodesAlike | resource.go:43-168 | when every self link holds only an href, the reread resource encodes exactly like the original |
| LegacyRoundTrip.PayloadRoundTrip | resource.go:43-168 | for a wire-safe resource whose self links hold only an href, encode, decode and encode again gives the first encoding |

## Left out

- JSON text is not modelled: tokenizing, escaping and byte layout are left out. Keys are spliced into the output unescaped (v3/links.go:152, v3/resource.go:81), so the model does not claim that keys containing quotes give valid JSON.
- The re-marshalling conversion of a data value to `T` (v3/resource.go:162-172) is a parameter `toT`: the JSON of the converted value, or none when `T` cannot hold it. Nested `Resource[any]` use the identity. Numbers are opaque, so float normalisation is not modelled.
- Pointer aliasing is not modelled. `AddLink` and `AddEmbed` store a snapshot of the value, so a caller's later change to the `*Link` or `*Resource` does not show through.
- The chainable `Link` setters (v3/links.go:31-83) are not modelled as methods. Links are values, so each setter is the record update `l.(title := t)`.
- `json.Marshal` errors are not modelled: the model's values always encode.
- Map iteration order is left open. A decode with several failing relations reports one of their errors; which one depends on the order. The model proves the error is one of them, not which one.
- The keys of a nested resource's embeds are written in ascending order by `EncodeResource`. `IsEmbedsEncoding` covers every other order, and `MarshalDecodesAlike` shows they all decode alike.
- Resource3.Resource.UnmarshalJSON: when the embeds step fails, the error is only proved to be a malformed input or a panic, not the exact error `DecodeResource` names. Which relation fails first follows map order.
- Resource3.UnmarshalEmbedsMember: the same; its error is only proved to be a malformed input or a panic, exact only when `_embedded` is not an object.
- Data values are kept as decoded: the members of an object nested in a data value keep their order and duplicates. `json.Marshal` re-encodes such a value from a Go map, with keys sorted and duplicates dropped; the model does not normalise it, so its round trips speak of data values already in that form.
- LegacyResource.Resource.UnmarshalJSON: when the embeds step fails, the error is only proved to be a malformed input or a panic, not the exact error `DecodeResource` names. Which relation fails first follows map order.
- Resource3.Resource.Self, Resource3.Resource.AddLink, Resource3.Resource.AddCurie and Resource3.Resource.AddEmbed require non-nil `Links`/`Embeds`; the Go code panics on a nil receiver.
- LegacyResource.Resource.Self, LegacyResource.Resource.AddLink, LegacyResource.Resource.AddCurie and LegacyResource.Resource.AddEmbed require non-nil `Links`/`Embeds` for the same reason.
- Links3.Links.AddCurie, LegacyLinks.Links.AddCurie, Resource3.Resource.AddEmbed and LegacyResource.Resource.AddEmbed take the curie or resource as a value, so a nil `*Curie` or `*Resource` argument is not modelled. Go panics when it dereferences one (v3/links.go:90, v3/resource.go:30-36).
- Links3.Links.AddLink and LegacyLinks.Links.AddLink take the link as a value, so a nil `*Link` is not modelled. Go appends it and later writes it as `null`.
- The root package's `Curie` type and `embeds.go` are not part of this model. The older codec uses `v2/embeds.go` and the v3 `Curie` (name, href, templated, all `omitempty`).
- v2's `Resource` and `Links` are not part of this model.
- Embedded resources form a tree here; the cycles a Go program could build are impossible in the model.

## Findings

| source | as written | input that shows it | evidently intended | confidence | as-written member | corrected member |
|---|---|---|---|---|---|---|
| v3/resource.go:131-157 | a `_links` member that is JSON null makes `json.Unmarshal` set the `*Links` to nil; a top-level `curies` is then stored through that nil pointer | `{"_links": null, "curies": []}` panics | no input object makes the decode panic: a null `_links` is read as absent, as `resource.go:136` does with its `!= nil` check | not executed | Resource3.NullLinksWithCuriesPanics | Resource3.CorrectedLinksStepNullIsAbsent |

The decode in `Resource3.DecodeResource` and `Resource3.Resource.UnmarshalJSON` follows the code as written, panic included. `Resource3.LinksStepAgrees` shows that the corrected step differs from it only on a null `_links`.
