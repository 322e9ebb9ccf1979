# City population map: verified model of the click-to-highlight core

The application (`src/App.tsx`) shows US cities sized by population on a map and, on
every map click, asks the city layer for the cities within 50 km of the clicked point
and highlights them. Almost all of that is done by the mapping SDK. This project models
the three pieces of logic the application owns:

- **The size classifier** `getSymbolSize` and its breakpoint table `STOPS`
  (`symbol_size.dfy`, module `SymbolSize`). `Classify` is the specification: the size of
  the first stop whose threshold is strictly greater than the value, else the last stop's
  size. `GetSymbolSize` is the source's `for … of` scan with its early return, proved equal
  to `Classify`. The value is modelled as a JavaScript value (`JsNumbers.JsValue`), because
  it is read from an untyped attribute and `<` converts `null` to 0 and `undefined` to NaN.
- **The query record** built by `queryFeatureLayer` and the click handler that always asks
  for 50 km and `esriSpatialRelIntersects` (`city_query.dfy`, module `CityQuery`).
- **The highlight replacement** in the query's completion callback (`highlights.dfy`,
  module `Highlights`). `CityHighlights` holds the persistent `highlightCities` list
  (`seq<Handle?>`) and the city layer view. `CityLayerView.Highlight` stands for the SDK's
  `highlight(objectid)`. It hands out fresh `Handle` objects with a `released` flag. The
  view records every highlight and remove request in `calls`, so the order of the
  callback's SDK calls is part of its contract. All removes come first, in list order and
  skipping nulls, then one highlight per feature.
- **`addGraphics`** (`graphics.dfy`, module `Graphics`), which the source defines but does
  not call. It empties a `GraphicsLayer`, then adds one `Graphic` per feature. Every
  graphic references the single heap object `highlightSymbol`. `Object.assign` overwrites
  that object's size on each iteration (`MarkerSymbol.AssignSize`).

`features.dfy` (module `Features`) holds the feature records the query returns.

Three behaviours of the code are worth knowing:
- The click handler always runs the city query (src/App.tsx:183-184). The hit test is
  commented out (src/App.tsx:185-195), so no road selection, marker or popup happens.
- `highlightCities` is never emptied. Each callback calls `remove()` on every handle in
  it, then appends new ones. The list only grows, and every handle is removed again on
  every later callback (`ReleasedAgain`).
- A missing `pop2000` (`undefined`) compares false against every threshold, so it gets
  the overflow size 14. A `null` compares as 0, so it gets 4 (`SymbolSizeOfNonNumbers`).

## Model

| member | source | states |
|---|---|---|
| JsNumbers.LessThan | src/App.tsx:47 | JavaScript's `<` against a finite threshold: `null` compares as 0; `undefined`, NaN and +Infinity are below no threshold; -Infinity is below every threshold |
| SymbolSize.Classify | src/App.tsx:45-52 | total on any non-empty table; the result is always one of the table's sizes |
| SymbolSize.GetSymbolSize | src/App.tsx:45-52 | the early-return scan over `STOPS` returns exactly the classification of the value |
| SymbolSize.ClassifyPicksFirstAbove | src/App.tsx:46-49 | when stop i is the first whose threshold is strictly above the value, the result is stop i's size |
| SymbolSize.ClassifyFallsToLast | src/App.tsx:51 | when no threshold is above the value, the result is the last stop's size |
| SymbolSize.ClassifyBand | src/App.tsx:47 | on an ascending table, a number in [threshold i-1, threshold i) gets size i; a value equal to a threshold falls into the next bucket; anything below the first threshold, negatives included, gets the first size |
| SymbolSize.ClassifyOverflow | src/App.tsx:51 | on an ascending table, every number at or above the last threshold, however large, gets the last size |
| SymbolSize.ClassifyMonotone | src/App.tsx:45-52 | on an ascending table, a <= b implies size(a) <= size(b) |
| SymbolSize.ClassifyNullAsZero | src/App.tsx:47 | `null` is classified exactly as the number 0 |
| SymbolSize.ClassifyNonNumbers | src/App.tsx:47-51 | `undefined`, NaN and +Infinity get the last size; -Infinity gets the first |
| SymbolSize.StopsAscending | src/App.tsx:7-12 | the shipped table has strictly increasing thresholds and non-decreasing sizes |
| SymbolSize.SymbolSizeBands | src/App.tsx:7-12 | with the shipped table: below 10000 gives 4, [10000,20000) gives 8, [20000,30000) gives 12, [30000,40000) and everything from 40000 up give 14; the result is always in {4, 8, 12, 14} |
| SymbolSize.SymbolSizeOfNonNumbers | src/App.tsx:105-110 | a `pop2000` of `null` gets 4; a missing (`undefined`) or NaN `pop2000` gets 14 |
| CityQuery.QueryFeatureLayer | src/App.tsx:116-127 | the record carries the caller's point, distance and spatial relation; units are kilometres, the filter is `class='city'`, the envelope geometry type, the four city fields, geometry returned |
| CityQuery.ClickQuery | src/App.tsx:183-184 | every click queries 50 km around the clicked point with `esriSpatialRelIntersects` |
| CityQuery.QueryProjectsReadFields | src/App.tsx:117-127 | the projection of every query includes `objectid` and `pop2000`, the attributes the result handlers read |
| Highlights.CityLayerView.Highlight | src/App.tsx:137 | `highlight(objectid)` returns a fresh unreleased handle for that feature and records the request |
| Highlights.Handle.Remove | src/App.tsx:133 | `remove()` marks the handle released and records the request, also when it was released before |
| Highlights.CityHighlights.constructor | src/App.tsx:63 | the highlight list starts empty and no city layer view is known yet |
| Highlights.CityHighlights.SetCityLayerView | src/App.tsx:165-166 | the resolved layer view is stored; the highlight list is untouched |
| Highlights.CityHighlights.OnQueryResult | src/App.tsx:128-139 | the layer view receives one remove per non-null old entry in list order, then one highlight per feature in result order, and nothing else; every old handle is released; the list keeps its old contents as a prefix and gains exactly one fresh unreleased handle per feature, keyed by its `objectid`, no two of them the same object; with no layer view yet and a non-empty result the callback aborts before appending |
| Highlights.CityHighlights.ReleaseAll | src/App.tsx:131-135 | the layer view receives exactly one remove per non-null entry, in list order; null entries are skipped; afterwards every handle in the list is released |
| Highlights.CityHighlights.AppendHighlights | src/App.tsx:136-138 | one highlight request per feature in result order, each result pushed onto the list as a distinct fresh handle; the old contents stay as a prefix; without a layer view and with a non-empty result nothing is requested or appended |
| Highlights.RemovalsAppend | src/App.tsx:131-135 | the removes made over a concatenated list are those over each part, in order |
| Highlights.RemovalsCount | src/App.tsx:131-135 | each handle is removed once per occurrence in the list, and only handles in the list are removed |
| Highlights.ReleasedAgain | src/App.tsx:131-138 | a handle appended by one callback is removed by the next callback and again by every later one, whatever they append |
| Graphics.MarkerSymbol.HighlightSymbol | src/App.tsx:36-43 | the shared highlight symbol is a simple marker with no size yet |
| Graphics.MarkerSymbol.AssignSize | src/App.tsx:109-111 | `Object.assign` overwrites the size in place and returns the same object |
| Graphics.Graphic.constructor | src/App.tsx:106-112 | a graphic keeps the geometry, attributes and symbol reference it is given |
| Graphics.GraphicsLayer.RemoveAll | src/App.tsx:102 | the layer holds no graphics afterwards |
| Graphics.GraphicsLayer.Add | src/App.tsx:113 | the graphic is appended to the layer |
| Graphics.AddGraphics | src/App.tsx:101-115 | the layer ends with exactly one fresh graphic per feature, in order, no two the same object, with that feature's geometry and attributes; all of them reference the one shared symbol; that symbol's size is the classification of the last feature's `pop2000`, and it is unchanged when there are no features |

## Left out

- SDK construction and wiring are not modelled: the map, the map view, the feature and graphics layers, the legend, basemap and layer URLs and renderers (src/App.tsx:60-99, 143-163). They are foreign library calls.
- The spatial search itself is left out. Which cities a query returns is decided by the service, so the result handlers take the returned features as a parameter.
- The promise plumbing is not modelled: `loadModules`, `queryFeatures(...).then`, `whenLayerView(...).then`. Only the callback bodies are modelled, as synchronous methods. Overlapping in-flight queries are not modelled, and the code has no guard against them. A rejected query runs no callback, and the code installs no rejection handler.
- The layer-view click handlers only log (src/App.tsx:165-179), and the unmount cleanup (src/App.tsx:198-203) is lifecycle only. Both are left out.
- The React component and its JSX are user interface and are not modelled.
- The commented-out hit test and popup code (src/App.tsx:185-195) is dead code and is not modelled.
- src/Config.ts is not part of this model. Nothing imports it, and its `STOPS` duplicates the table in src/App.tsx.
- Colours, outlines, widths and the renderer's other fields are rendering configuration and are not modelled.
- JsNumbers.JsValue: numbers are exact reals, which is faithful for comparisons with the integer thresholds. String-valued populations are not modelled; JavaScript would convert them with ToNumber.
- Graphics.Graphic.constructor: stores the symbol reference it is given. The SDK may copy a plain symbol object when it builds the graphic, which would undo the aliasing on screen; that copy is SDK behaviour outside this model.
- Highlights.CityHighlights.SetCityLayerView: requires that no layer view is known yet. The source assigns the view once, when `whenLayerView` resolves.
