# address-hazard, modelled in Dafny

address-hazard turns a Japanese postal address into hazard-map links. The address is normalized to a canonical address, a precision level and a coordinate. Addresses that are not precise enough are refused. The coordinate is projected onto slippy-map tile indices ("Slippy map tilenames", OpenStreetMap's Web-Mercator tiling). The result is a fixed record: the canonical address, ten raster-tile URLs of the GSI hazard-map portal's layers (flood, storm surge, tsunami, seven sediment-disaster and avalanche categories), and one deep link into the portal. The repository also contains a browser extension. Its content script reports the element under the user's text selection as an XPath-like string.

The model has four modules:

- `AddressHazard` (`address_hazard.dfy`) models `functions/src/lib/address_hazard.ts`, which is pure code, using Dafny functions:
  - the normalizer's result is an input value (`NormalizeResult`);
  - the precision gate yields a `Result`;
  - the longitude projection uses exact reals;
  - every field of the record is the exact URL text of the source's template;
  - the URLs come with decoders (`ParseRasterUrl`, `ParsePortalUrl`). Lemmas prove that every URL reads back to the layer, zoom level, tile and coordinate it was built from, and that the only text the decoders accept is the text the templates print. The portal link reads back this way when the coordinate text holds no "," or "&".
- `ElementPath` (`element_path.dfy`) models `getElementNode` of `chrome-extensions/src/content.ts`, which is imperative:
  - `GetElementNode` keeps the source's outer loop up the ancestors and its two sibling loops (as `CountPreviousSiblings` and `FindNextSibling`);
  - it is proved equal to the specification function `ElementPathOf`;
  - the lemmas about `ElementPathOf` state what the path means, up to a decoder (`ParseElementPath`) that reads each element's prefix, local name and position back, root first.
  - The DOM is seen as an ancestor chain: `chain[0]` is the element and `chain[k + 1]` is the parent of `chain[k]`. An empty chain is a null element. Each node carries its previous and next siblings, nearest first.
- `Strings` (`strings.dfy`) holds the built-ins both files rely on: decimal interpolation of integers, `join`, `reverse`, and a `Split` that undoes `join`. Its decimal readers accept only the text interpolation prints, with no leading zero and no "-0".
- `Wrappers` (`strings.dfy`) holds the `Option` and `Result` datatypes.

## Model

| member | source | states |
|---|---|---|
| `AddressHazard.GetDisaportaldata` | functions/src/lib/address_hazard.ts:33-71 | Level 0 gives exactly the "invalid address" error. Levels 1 and 2 give exactly the "ambiguous address" error. Every other level gives a record. The record's address is pref + city + town + addr. The zoom level is 17 when the caller gives none. Each of the ten raster fields is exactly the URL of its own layer at that zoom level, with x from the longitude only and y from the latitude only, and it reads back as that tile. The portal field is exactly the portal link for the coordinate text and the zoom level, and it reads back as them when the text holds no "," or "&". |
| `AddressHazard.HazardRecord` | functions/src/lib/address_hazard.ts:57-70 | The record for one tile carries the given address. Its i-th raster field is exactly `RasterUrl` of the i-th layer at that zoom/x/y. Its portal field is exactly `PortalUrl` of the coordinate text and the zoom level. |
| `AddressHazard.HazardRecordReadsBack` | functions/src/lib/address_hazard.ts:57-70 | Every raster field of the record reads back as its own layer at the record's tile. When the coordinate text holds no "," or "&", the portal field reads back as the coordinate text and the zoom level. |
| `AddressHazard.HazardError.Message` | functions/src/lib/address_hazard.ts:41-45 | The message of each refusal, word for word. It has no contract of its own; GetDisaportaldata states when each refusal happens. |
| `AddressHazard.Pow2` | functions/src/lib/address_hazard.ts:85 | `Math.pow(2, zoomLevel)` for a natural zoom level, the number of tile columns; it is at least 1. |
| `AddressHazard.LongitudeToPixelPoint` | functions/src/lib/address_hazard.ts:81-86 | The tile column is the greatest integer not above ((lng + 180) / 360) * 2^zoom. |
| `AddressHazard.LongitudeInRange` | functions/src/lib/address_hazard.ts:81-86 | For -180 <= lng < 180, the column lies in [0, 2^zoom). |
| `AddressHazard.FractionInColumns` | functions/src/lib/address_hazard.ts:85 | A fraction in [0, 1) scaled by n >= 1 columns floors into [0, n). |
| `AddressHazard.LongitudeMonotone` | functions/src/lib/address_hazard.ts:81-86 | The column never decreases as the longitude grows. |
| `AddressHazard.LongitudeZoomIn` | functions/src/lib/address_hazard.ts:81-86 | The column at zoom + 1, halved, is the column at zoom: each column splits into two. |
| `AddressHazard.RasterUrl` | functions/src/lib/address_hazard.ts:59-68 | The raster template: base, layer, zoom level, x, y, ".png". ParseRasterUrlExact characterises it. |
| `AddressHazard.RasterUrlSegments` | functions/src/lib/address_hazard.ts:59-68 | A raster URL is its base, then layer, zoom, x and y joined by "/", then ".png". |
| `AddressHazard.ParseRasterUrlRoundTrip` | functions/src/lib/address_hazard.ts:59-68 | A raster URL for a layer without "/" reads back as exactly that layer, zoom level, x and y. |
| `AddressHazard.ParseRasterUrlAccepted` | functions/src/lib/address_hazard.ts:59-68 | Any text the raster decoder accepts is the raster URL of the tile it reads, and that tile's layer holds no "/". |
| `AddressHazard.ParseRasterUrlExact` | functions/src/lib/address_hazard.ts:59-68 | Both directions: a text reads as a tile if and only if the text is that tile's URL and its layer holds no "/". So each raster URL names one tile and each tile has one URL. |
| `AddressHazard.PortalUrl` | functions/src/lib/address_hazard.ts:69 | The portal template: the fixed base, the `ll` and `z` parameters, the fixed layer-list suffix. ParsePortalUrlExact characterises it. |
| `AddressHazard.PortalQuery` | functions/src/lib/address_hazard.ts:69 | The `<lat>,<lng>&z=<zoom>` part of the portal link. ParsePortalQueryRoundTrip and ParsePortalQueryExact characterise it. |
| `AddressHazard.ParsePortalQueryRoundTrip` | functions/src/lib/address_hazard.ts:69 | The `<lat>,<lng>&z=<zoom>` part reads back as the coordinate text and the zoom level, provided the text holds no "," or "&". |
| `AddressHazard.ParsePortalQueryExact` | functions/src/lib/address_hazard.ts:69 | Any query text the decoder accepts is the query of the view it reads, and that view's coordinate text holds no "," or "&". |
| `AddressHazard.ParsePortalUrlRoundTrip` | functions/src/lib/address_hazard.ts:69 | When the coordinate text holds no "," or "&", the portal link reads back as the coordinate text and the zoom level between the fixed base and the fixed layer-list suffix. |
| `AddressHazard.ParsePortalUrlExact` | functions/src/lib/address_hazard.ts:69 | Both directions: a text reads as a view if and only if it is that view's portal link and the coordinate text holds no "," or "&". |
| `AddressHazard.CentralTokyoColumn` | functions/src/lib/address_hazard.ts:81-86 | At zoom 17, longitude 139.753 lies in column 116418 of the 131072 columns. |
| `AddressHazard.CentralTokyoFloodTile` | functions/src/lib/address_hazard.ts:33-59 | At the default zoom, longitude 139.753 at level 3 gives a flood URL that reads back as zoom 17, column 116418. |
| `Strings.NatToString` | functions/src/lib/address_hazard.ts:59 | Interpolation of a zoom level: a non-empty run of digits with no leading zero. ParseNatToString and NatToStringParseNat characterise it. |
| `Strings.IntToString` | functions/src/lib/address_hazard.ts:59 | Interpolation of a tile index: digits, with a leading "-" exactly for a negative number. ParseIntToString and IntToStringParseInt characterise it. |
| `Strings.ParseNatToString` | functions/src/lib/address_hazard.ts:59 | The decimal text of an interpolated zoom level reads back as that number. |
| `Strings.NatToStringParseNat` | functions/src/lib/address_hazard.ts:59 | Any text the natural-number reader accepts is the decimal text of the number it reads. |
| `Strings.ParseIntToString` | functions/src/lib/address_hazard.ts:59 | The decimal text of an interpolated tile index, sign included, reads back as that integer. |
| `Strings.IntToStringParseInt` | functions/src/lib/address_hazard.ts:59 | Any text the integer reader accepts is the decimal text of the integer it reads. |
| `Strings.Join` | chrome-extensions/src/content.ts:50 | `parts.join("/")`: the parts with the separator between each two. SplitJoin and JoinSplit characterise it. |
| `Strings.SplitJoin` | chrome-extensions/src/content.ts:50 | For a non-empty list of parts: joining them with a separator none of them contains, then splitting, gives the parts back. |
| `Strings.JoinSplit` | chrome-extensions/src/content.ts:50 | Splitting a text on a separator, then joining, gives the text back. |
| `Strings.Reverse` | chrome-extensions/src/content.ts:50 | `parts.reverse()`: the same length, and the i-th element is the i-th from the end. |
| `ElementPath.GetElementNode` | chrome-extensions/src/content.ts:11-51 | The walk (null check, id shortcut, ancestor loop, two sibling loops, reverse and join) computes `ElementPathOf`. |
| `ElementPath.StepsAt` | chrome-extensions/src/content.ts:21-48 | At an element, the walk adds that element's step and goes on from its parent. |
| `ElementPath.CountPreviousSiblings` | chrome-extensions/src/content.ts:22-33 | The previous-sibling loop counts exactly the previous siblings with the element's nodeName that are not doctype nodes. |
| `ElementPath.FindNextSibling` | chrome-extensions/src/content.ts:34-41 | The next-sibling loop, with its early exit, reports whether any next sibling has the element's nodeName. |
| `ElementPath.PreviousSameName` | chrome-extensions/src/content.ts:24-33 | The count the previous-sibling loop computes; it is at most the number of previous siblings. PreviousSameNameIsCount characterises it. |
| `ElementPath.HasNextSameName` | chrome-extensions/src/content.ts:34-41 | Whether some next sibling shares the nodeName. FindNextSibling computes it. |
| `ElementPath.PositionSuffix` | chrome-extensions/src/content.ts:43-46 | The `[n]` suffix is empty exactly when the count is 0 and no same-named next sibling exists. It never holds "/" or ":". |
| `ElementPath.Step` | chrome-extensions/src/content.ts:42-47 | The step of one element: optional `prefix:`, the local name, the position suffix. StepIsPlain and DecodeStepRoundTrip characterise it. |
| `ElementPath.Steps` | chrome-extensions/src/content.ts:21-49 | The steps of the walk, leaf first; at most one per node of the chain. StepsAlongChain characterises it. |
| `ElementPath.IdPath` | chrome-extensions/src/content.ts:18 | The id shortcut `//*[@id="<id>"]`. IdPathRoundTrip characterises it. |
| `ElementPath.IdPathRoundTrip` | chrome-extensions/src/content.ts:18 | An id path starts with "//" and holds exactly the id between its fixed ends. |
| `ElementPath.ElementPathOf` | chrome-extensions/src/content.ts:12-19 | The path is "" exactly when the element is null, or when it has no id and no element steps. |
| `ElementPath.StepsAlongChain` | chrome-extensions/src/content.ts:21-49 | There is one step per node from the element upward, each the step of that node. Every stepped node is an element, and the walk stops at the first non-element node. |
| `ElementPath.WalkAt` | chrome-extensions/src/content.ts:21-48 | The i-th step of the walk, and the i-th view, belong to the i-th node of the chain, which is an element. |
| `ElementPath.WalkStops` | chrome-extensions/src/content.ts:21 | When the walk takes fewer steps than the chain has nodes, the node where it stops is not an element. |
| `ElementPath.WalkViewsAlongChain` | chrome-extensions/src/content.ts:42-48 | The i-th view of the walk is the view of the i-th node of the chain: its prefix, local name and position. |
| `ElementPath.AncestorIdsIgnored` | chrome-extensions/src/content.ts:17-49 | Ancestors' ids never change the path: the id shortcut applies to the start element only. |
| `ElementPath.PreviousSameNameIsCount` | chrome-extensions/src/content.ts:24-33 | The position count is the size of the set of previous siblings that share the nodeName and are not doctype nodes. |
| `ElementPath.PreviousSameNameZero` | chrome-extensions/src/content.ts:24-33 | The count is zero exactly when no previous sibling qualifies. |
| `ElementPath.PositionOmittedIff` | chrome-extensions/src/content.ts:34-46 | The `[n]` suffix is omitted exactly when no qualifying previous sibling and no same-named next sibling exists. |
| `ElementPath.NamesSafeSlashFree` | chrome-extensions/src/content.ts:42-47 | A chain whose element names hold no "/", ":" or "[" is, in particular, `ElementsSlashFree`. |
| `ElementPath.StepIsPlain` | chrome-extensions/src/content.ts:42-47 | For an element whose local name is not empty and whose prefix and local name hold no "/" (`SlashFree`), the step is non-empty and holds no "/". Names with ":" or "[", such as HTML's `<o:p>`, are included. |
| `ElementPath.WalkStepPlain` | chrome-extensions/src/content.ts:21-48 | For an `ElementsSlashFree` chain, the j-th step of the walk is the step of the j-th node, non-empty and free of "/". |
| `ElementPath.RootFirstSteps` | chrome-extensions/src/content.ts:47-50 | For a chain whose elements all have a non-empty local name and no "/" in prefix or local name (`ElementsSlashFree`): after reversal, the i-th step from the root is the step of the element i levels below the root, non-empty and free of "/". |
| `ElementPath.WalkPathSplits` | chrome-extensions/src/content.ts:50 | For an `ElementsSlashFree` chain without the id shortcut, the path starts with "/", and the text after it splits on "/" into exactly the steps, root first. |
| `ElementPath.WalkPathShape` | chrome-extensions/src/content.ts:50 | For a chain whose elements all have a non-empty local name and no "/" in prefix or local name (`ElementsSlashFree`), without the id shortcut: the path starts with a single "/". Split on "/", it gives exactly one non-empty step per element, root first. |
| `ElementPath.DecodeNameAndPositionRoundTrip` | chrome-extensions/src/content.ts:43-47 | For a local name without "/", ":" or "[": the name plus its position suffix reads back as the name, and as position previous + 1 exactly when the suffix is present. |
| `ElementPath.DecodeStepRoundTrip` | chrome-extensions/src/content.ts:42-47 | For an element whose prefix and local name hold no "/", ":" or "[": its step reads back as exactly its prefix, local name and position. |
| `ElementPath.DecodeWalkStep` | chrome-extensions/src/content.ts:42-48 | For a chain whose elements' prefixes and local names hold no "/", ":" or "[": the j-th step of the walk reads back as the j-th view. |
| `ElementPath.DecodeAll` | chrome-extensions/src/content.ts:47-50 | Steps that each read back as a view read back, as a list, as those views. |
| `ElementPath.DecodeEachStep` | chrome-extensions/src/content.ts:47-50 | For a chain whose elements' prefixes and local names hold no "/", ":" or "[": the steps, reversed to root first, read back as the elements' views, root first. |
| `ElementPath.WalkStepsDecode` | chrome-extensions/src/content.ts:21-50 | For a chain whose elements' prefixes and local names hold no "/", ":" or "[": the joined walk path reads back as every element's prefix, local name and position, root first. |
| `ElementPath.IdPathDecodes` | chrome-extensions/src/content.ts:17-19 | A start element with an id gives a path that reads back as that id. |
| `ElementPath.WalkPathDecodes` | chrome-extensions/src/content.ts:20-50 | For a chain whose elements' prefixes and local names hold no "/", ":" or "[", without the id shortcut: the path reads back as the elements' views, root first. |
| `ElementPath.ParseElementPathRoundTrip` | chrome-extensions/src/content.ts:11-51 | For a chain whose elements' prefixes and local names hold no "/", ":" or "[", the path reads back as what it should name: nothing for a null or non-element start, the id when the element has one, otherwise the walk's views root first. |
| `ElementPath.ColonInLocalNameMisread` | chrome-extensions/src/content.ts:42-47 | An element with local name "o:p" and no prefix (HTML `<o:p>`) gets the step "o:p", which reads back as prefix "o" and local name "p": names with ":" are outside the round trip. |
| `ElementPath.ColonNameWalkSplits` | chrome-extensions/src/content.ts:42-50 | For `<o:p>` inside `<p>` (`ElementsSlashFree`, although "o:p" holds ":"), the path is "/" followed by text that splits into "p" and "o:p". |

## Left out

- The call to the address normalizer (functions/src/lib/address_hazard.ts:39) is asynchronous library code, and its result is an input value. The refusals at functions/src/lib/address_hazard.ts:41-45 become `Result` errors. A failure of the normalizer itself, which the source lets propagate out of the lookup, is not modelled.
- The latitude projection (functions/src/lib/address_hazard.ts:96-106) uses `log`, `tan` and `cos` on doubles. It is the function parameter `latitudeToPixelPoint`, so nothing is proved about its values.
- The decimal text of `lat` and `lng` in the portal link is JavaScript number formatting, also a parameter (`numberToString`).
- GetDisaportaldata: the portal link is pinned exactly, but it reads back as its coordinate text only when that text holds no "," and no "&". JavaScript's number text never does, but the model does not prove that.
- LongitudeToPixelPoint: computes with exact reals, not IEEE-754 doubles, so a rounding step the source takes near a column boundary is not modelled.
- Zoom levels are natural numbers. A negative or fractional zoom, which `Math.pow` accepts, is not modelled.
- A normalizer result of level 3 or more that lacks `lat` or `lng` (the source asserts it is present) is not modelled.
- Integer interpolation is plain decimal. JavaScript's exponent form for numbers of 10^21 and above does not arise for tile indices and is not modelled.
- ParseElementPathRoundTrip: it, and the decoding lemmas under it, hold only for elements whose prefix and local name hold no "/", ":" or "[" and whose local name is not empty. In an HTML document an element such as `<o:p>` has the local name "o:p" and no prefix, and its step reads back as a prefixed name (ColonInLocalNameMisread shows this). The path text itself is modelled for every element. The shape lemmas (StepIsPlain, WalkStepPlain, RootFirstSteps, WalkPathSplits, WalkPathShape) need only a non-empty local name and no "/" in prefix or local name, so they cover `<o:p>` (ColonNameWalkSplits).
- The DOM is a value: an ancestor chain with sibling lists. Live node objects, aliasing and changes to the DOM during the walk are not modelled.
- The content script's message listener (chrome-extensions/src/content.ts:1-8) is Chrome runtime API and selection I/O.
- chrome-extensions/src/background.ts is context-menu registration, tab messaging and `fetch` calls.
- The `disaportaldataTask` endpoint and the `?id=` lookup that chrome-extensions/src/background.ts:27-38 calls are not implemented in the files modelled here.
- functions/src/index.ts is an HTTP handler with logging. Its decisions are to reject an empty address with status 400 and to turn a failed lookup into status 500.
- src/index.ts is command-line argument handling and console output.
