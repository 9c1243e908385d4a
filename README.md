# router-demo core, modelled in Dafny

This project models the core of cartoway/router-demo, a browser demo of the Cartoway routing
service. The user picks an origin and a destination on a map and ticks transport modes. The app
asks the router for one route per mode and draws the routes. It also lists them with their
duration, distance and a "fastest" badge.

The model covers:

- **RouterApi** (`router_api.dfy`): the API client.
  - It resolves the key and the base URL and builds the five query parameters.
  - It turns the HTTP outcome into a response or an error.
  - It converts a feature into a route: `[lat, lng]` becomes `[lng / 10, lat / 10]`, with an
    empty path when decoding fails.
  - It fans a request out over several modes and keeps only the fulfilled answers.
- **RouteCalculation** (`route_calculation.dfy`): the route-calculation hook.
  - Its state is the routes, the `isCalculating` flag and the error.
  - It pairs the `index`-th surviving response with `modes[index]`.
  - It merges the new routes into the old ones: the requested modes are replaced and the others
    kept.
  - It raises the "no routes found" and `null`-body errors, and clears.
- **App** (`app.dfy`): the application component.
  - Its state is the points, the selected modes and the visible modes.
  - It covers the toggle handlers, the point handler and the auto-calculation effect.
- **MapComponent** (`map_component.dfy`): the map view's decisions.
  - Where a click goes and the instruction text.
  - Which routes are drawn, with which in-range coordinates and under which `route-<mode>-<index>`
    ids.
  - The cleanup of every `route-` id.
  - The one-shot initial fit and the box it fits to.
  - The markers.
- **RouteResults** (`route_results.dfy`): the results panel.
  - Duration and distance texts, with JavaScript's `%`, `Math.floor` and `Math.round`.
  - One card per route, and the fastest badge.
- **TransportModes** (`transport_modes.dfy`): the mode registry and its lookups with fallbacks.
- **Translation** (`translation.dfy`): the translation provider.
  - The dotted-key lookup with fallback to the key.
  - The stored locale and `useTranslation`'s error outside a provider.
- **DotEnv** and **SyncRouterModes** (`dot_env.dfy`, `sync_router_modes.dfy`): the build-time
  script `scripts/sync-router-modes.mjs`.
  - Its `.env` reader and its known-mode list.
  - `--url` lookup and the capability address.
  - The collection of offered modes in first-seen order.
  - The enabled/disabled/unknown partition and the suggested `.env` line.
- **Strings** (`strings.dfy`): the helpers these need.
  - `split`/`join` with their round trip.
  - `trim` with JavaScript's whitespace set.
  - Integer-to-text conversion with its injectivity.

Some state is updated in place in the source: React state, the map's layers and markers, the
process environment, and the locale. These become classes whose methods are proved against pure
functions, which the lemmas are about. Library code and I/O are parameters:
- the network is `fetch`;
- the polyline decoder is `decode`, which may fail;
- JavaScript's number-to-text and `toFixed(1)` are `show` and `fixed1`;
- `encodeURIComponent` is `encode`;
- translation inside the hook is `t`.

The model states one behaviour of the source on purpose: how routes are labelled when a request
fails. `calculateMultipleRoutes` drops failed requests, and the hook still pairs each surviving
response with the mode at its position. So after a failure, a route can carry the label of a mode
other than the one it answers. `RouteCalculation.MislabelAfterFailure` and
`RouteCalculation.BicycleAnswerLabelledCar` state this.

## Model

| member | source | states |
|---|---|---|
| RouterApi.ResolveApiKey | src/services/routerApi.ts:26-28 | the key is never empty; it is the constructor argument if non-empty, else the configured key if non-empty, else "demo" |
| RouterApi.ResolveBaseUrl | src/services/routerApi.ts:21 | the configured URL when it is non-empty, otherwise https://router.cartoway.com; never empty |
| RouterApi.HttpErrorMessageNamesStatus | src/services/routerApi.ts:55-57 | the error for a non-ok response names its status: distinct codes give distinct messages |
| RouterApi.LocsOrder | src/services/routerApi.ts:36 | `locs` splits back into origin lat, origin lng, destination lat, destination lng, in that order |
| RouterApi.RouterApiService.constructor | src/services/routerApi.ts:26-28 | the service's key is the resolved key |
| RouterApi.RouterApiService.Request | src/services/routerApi.ts:36-47 | a GET on `/0.1/routes` whose five parameters are api_key (the service's key), mode, locs (the four coordinates joined by commas, origin lat and lng, then destination lat and lng), geometry ("true" exactly when geometry was asked) and precision "6" |
| RouterApi.RouterApiService.CalculateRoute | src/services/routerApi.ts:46-65 | succeeds exactly on an ok status with a parsed body, returning that body; a non-ok status fails with "HTTP error! status: <code>"; a network failure fails with its own message |
| RouterApi.RouterApiService.ConvertToRouteResult | src/services/routerApi.ts:69-115 | keeps the mode, time and distance; the path is the decoded `[lat, lng]` points as `[lng/10, lat/10]`, one per point, or empty when decoding fails; the kind is LineString |
| RouterApi.RouterApiService.Settle | src/services/routerApi.ts:122-130 | one outcome per mode, in mode order, each the outcome of that mode's request with geometry |
| RouterApi.RouterApiService.CalculateMultipleRoutes | src/services/routerApi.ts:117-140 | the fulfilled bodies in mode order, never more than the modes |
| RouterApi.RouterApiService.RequestsOfMultipleRoutes | src/services/routerApi.ts:122-127 | the request for the i-th mode names that mode and asks for geometry |
| RouterApi.ToLngLat | src/services/routerApi.ts:84-92 | one position per decoded point, coordinates swapped and divided by 10 |
| RouterApi.FulfilledCount | src/services/routerApi.ts:131-135 | the filter keeps one response per fulfilled outcome, no more than there were requests |
| RouterApi.SourceIndex | src/services/routerApi.ts:131-135 | the j-th response is the value of a fulfilled outcome at a position at or after j, with exactly j fulfilled outcomes before it |
| RouterApi.FulfilledWithoutFailure | src/services/routerApi.ts:131-135 | with no failed request, the j-th response is the answer to the j-th request |
| RouterApi.FulfilledShiftsAfterFailure | src/services/routerApi.ts:131-135 | after a failed request at k, the j-th response (j >= k) answers a request at a position after j |
| RouterApi.CountOkBelowLength | src/services/routerApi.ts:131-135 | one failed request means fewer responses than requests |
| RouteCalculation.CountWithFeatures | src/hooks/useRouteCalculation.ts:69-84 | no more responses with features than responses looked at |
| RouteCalculation.CollectedRoutes | src/hooks/useRouteCalculation.ts:69-84 | collecting throws only the null-body TypeError, and never yields more routes than responses looked at |
| RouteCalculation.RouteSource | src/hooks/useRouteCalculation.ts:69-84 | the k-th collected route comes from a response with features, with k such responses before it |
| RouteCalculation.CollectedRoutesShape | src/hooks/useRouteCalculation.ts:69-84 | collecting fails exactly when some body is null, with the TypeError's message; otherwise one route per response with features, in order, each from its response's first feature under the mode at that response's index |
| RouteCalculation.CollectedRoutesErrPersists | src/hooks/useRouteCalculation.ts:69-84 | once collecting has thrown, later responses change nothing |
| RouteCalculation.CollectedRoutesModes | src/hooks/useRouteCalculation.ts:77-82 | every collected route carries a requested mode and that mode's registry colour |
| RouteCalculation.RoutesOfOtherModes | src/hooks/useRouteCalculation.ts:89 | the kept routes are no more than the old ones and none has a requested mode |
| RouteCalculation.RoutesOfMode | src/hooks/useRouteCalculation.ts:87-92 | the routes of one mode: no more than the list, each of that mode |
| RouteCalculation.MislabelAfterFailure | src/hooks/useRouteCalculation.ts:69-70 | after a failed request, the j-th route is made from the answer to a later request yet labelled with the j-th mode, which differs when the modes are distinct |
| RouteCalculation.BicycleAnswerLabelledCar | src/hooks/useRouteCalculation.ts:69-82 | with car failing and bicycle answering, the only route is the bicycle answer labelled "car" |
| RouteCalculation.RoutesOfModeOfOthers | src/hooks/useRouteCalculation.ts:89 | the filter drops every route of a requested mode and keeps the routes of each other mode, in order |
| RouteCalculation.Merge | src/hooks/useRouteCalculation.ts:87-92 | the merged list ends with exactly the new routes, preceded only by old routes of modes not requested |
| RouteCalculation.MergeReplacesRequestedModes | src/hooks/useRouteCalculation.ts:87-92 | after the merge, a requested mode's routes are exactly the new ones and any other mode's are exactly the old ones |
| RouteCalculation.Calculate | src/hooks/useRouteCalculation.ts:43-106 | with no mode or while calculating nothing changes; a calculation that starts ends with the flag down |
| RouteCalculation.AfterCollect | src/hooks/useRouteCalculation.ts:86-105 | the flag is down; there is no error exactly when collecting succeeded with new routes; a throw empties the routes and shows its message |
| RouteCalculation.CalculateEnds | src/hooks/useRouteCalculation.ts:61-105 | a calculation that starts ends with the flag down, and its error is none, "no routes found" or the thrown message |
| RouteCalculation.CalculateMerges | src/hooks/useRouteCalculation.ts:65-96 | with no null body: the routes are the merge of old and new, per mode as above; the error is none exactly when there are new routes, and otherwise "no routes found" |
| RouteCalculation.CalculateThrows | src/hooks/useRouteCalculation.ts:97-104 | a null body empties the routes, shows its message and lowers the flag |
| RouteCalculation.RouteCalculation.constructor | src/hooks/useRouteCalculation.ts:24-34 | no routes, not calculating, no error; a fresh service with the resolved key |
| RouteCalculation.RouteCalculation.CollectRoutes | src/hooks/useRouteCalculation.ts:67-84 | the loop returns what `CollectedRoutes` describes |
| RouteCalculation.RouteCalculation.CalculateRoutes | src/hooks/useRouteCalculation.ts:43-106 | the new state is `Calculate` of the old one: unchanged with no modes or while calculating |
| RouteCalculation.RouteCalculation.ClearRoutes | src/hooks/useRouteCalculation.ts:108-111 | no routes, no error, flag unchanged |
| App.RemoveAll | src/App.tsx:72 | removes every copy of the mode and keeps every other mode with its multiplicity |
| App.RemoveAllAppend | src/App.tsx:72 | the filter works element by element: filtering a concatenation filters each part, so the kept modes stay in order |
| App.RemoveAllAbsent | src/App.tsx:72 | removing an absent mode changes nothing |
| App.RemoveAllNoDuplicates | src/App.tsx:72 | removal keeps a list free of duplicates |
| App.Toggle | src/App.tsx:69-83 | an absent mode is appended at the end; a present mode loses every copy while every other mode keeps its multiplicity; no other mode's membership changes |
| App.ToggleTwiceAbsent | src/App.tsx:69-83 | toggling an absent mode twice gives the list back |
| App.ToggleTwicePresent | src/App.tsx:69-83 | toggling a present mode twice moves it to the end |
| App.ToggleNoDuplicates | src/App.tsx:69-83 | toggling keeps a list free of duplicates |
| App.DefaultModesNoDuplicates | src/App.tsx:30 | the starting selection car, cargo_bike has no duplicates |
| App.Effect | src/App.tsx:37-49 | nothing happens unless both points are set; then the routes are cleared exactly when no mode is selected, and otherwise calculated for the selection |
| App.EffectAfterToggle | src/App.tsx:37-49 | unticking the last mode clears the routes; ticking a mode into an empty selection calculates that mode alone |
| App.AppState.constructor | src/App.tsx:28-33 | no points, selection car and cargo_bike, nothing visible, an empty hook |
| App.AppState.HandlePointSelect | src/App.tsx:51-67 | sets the point of its kind; removing a point clears the routes and hides every route |
| App.AppState.HandleModeToggle | src/App.tsx:69-75 | the selection is toggled |
| App.AppState.HandleToggleRouteVisibility | src/App.tsx:77-83 | the visible modes are toggled |
| App.AppState.AutoCalculate | src/App.tsx:37-49 | by the effect's decision: nothing, calculate with exactly the selected modes made visible, or clear with nothing visible |
| App.AppState.HandleMapClick | src/components/MapComponent.tsx:59-76 | the click sets the origin while there is none, else the destination; nothing else changes |
| App.AppState.HandleMarkerClick | src/components/MapComponent.tsx:48-56 | a marker click removes its point and clears the routes |
| MapComponent.ClickTarget | src/components/MapComponent.tsx:67-74 | a click goes to the origin exactly when there is none |
| MapComponent.InstructionKey | src/components/MapComponent.tsx:381-390 | the instruction for each of the four point states, empty exactly when only the destination is set |
| MapComponent.InstructionText | src/components/MapComponent.tsx:381-390 | the translated instruction for each point state with a next click, and no text when only the destination is set |
| MapComponent.ValidCoordinates | src/components/MapComponent.tsx:279-285 | keeps exactly the in-range positions, no more than given, all of them when all are in range |
| MapComponent.ValidCoordinatesAppend | src/components/MapComponent.tsx:279-285 | the filter works position by position: filtering a concatenation filters each part, so the kept positions stay in order |
| MapComponent.ValidCoordinatesSingle | src/components/MapComponent.tsx:279-285 | a single position is kept exactly when it is in range |
| MapComponent.LayerId | src/components/MapComponent.tsx:273 | the id of a route's source and main layer is one the cleanup removes |
| MapComponent.RouteIdsAreCleanedUp | src/components/MapComponent.tsx:273-307 | every source and layer id the view adds starts with `route-` |
| MapComponent.LayerIdInjective | src/components/MapComponent.tsx:273 | two routes share a layer id only when they have the same mode and index |
| MapComponent.DrawingSource | src/components/MapComponent.tsx:270-300 | every drawing is that of a visible route with a geometry and an in-range position: its source and main layer under `route-<mode>-<index>`, the outline beneath, its in-range positions, its colour |
| MapComponent.DrawnFromComplete | src/components/MapComponent.tsx:270-300 | every visible route with a geometry and an in-range position is drawn, as that drawing |
| MapComponent.DrawnExactly | src/components/MapComponent.tsx:270-300 | a drawing is made exactly when it is that of a qualifying route |
| MapComponent.DrawnIdsAreRouteIds | src/components/MapComponent.tsx:270-334 | every id a drawing adds is one the next cleanup removes |
| MapComponent.DrawnRoutesAreVisibleAndInRange | src/components/MapComponent.tsx:277-300 | every drawn route draws at least one position, each in range |
| MapComponent.WithoutRouteIds | src/components/MapComponent.tsx:250-263 | the cleanup leaves exactly the ids not starting with `route-` |
| MapComponent.Extend | src/components/MapComponent.tsx:345-358 | the box after `extend` contains the position |
| MapComponent.ExtendGrows | src/components/MapComponent.tsx:345-358 | extending never loses a position the box held |
| MapComponent.ExtendAllContains | src/components/MapComponent.tsx:344-363 | the box holds every position it was extended by |
| MapComponent.FitBoxContainsPoints | src/components/MapComponent.tsx:342-368 | the fitted box holds origin, destination and every in-range position of every visible route |
| MapComponent.RouteIdsAfterUpdate | src/components/MapComponent.tsx:246-339 | after an update the only `route-` ids left are those just drawn |
| MapComponent.MapView.constructor | src/components/MapComponent.tsx:40-45 | no sources, layers or markers, and no fit yet |
| MapComponent.MapView.UpdateMarker | src/components/MapComponent.tsx:191-243 | the marker of that kind is at `[lng, lat]` of the point, or gone; the other marker is unchanged |
| MapComponent.MapView.ExtendByValid | src/components/MapComponent.tsx:350-361 | the loop extends the box by exactly the in-range positions |
| MapComponent.MapView.ComputeFitBox | src/components/MapComponent.tsx:344-363 | the loop's box is the fold of `extend` over origin, destination and each visible route's in-range positions |
| MapComponent.MapView.UpdateRoutes | src/components/MapComponent.tsx:246-379 | route ids are removed and the drawn ones added; the camera fits exactly when there are routes, both points are set and no fit happened yet; the flag drops when there are no routes |
| RouteResults.JsRem | src/components/RouteResults.tsx:50 | for a dividend that is not negative, the remainder lies in [0, d), where d is the divisor (3600 at the call site) |
| RouteResults.JsRound | src/components/RouteResults.tsx:62 | the result is within half a unit, halves rounding up |
| RouteResults.FormatDuration | src/components/RouteResults.tsx:48-56 | the text is exactly `<hours>h <minutes>min` when there is a whole hour (prefix, suffix and length are ensured), and exactly `<minutes>min` otherwise |
| RouteResults.DurationSplit | src/components/RouteResults.tsx:48-56 | hours and minutes (0..59) name the minute the duration falls in |
| RouteResults.DurationShowsHours | src/components/RouteResults.tsx:48-56 | an hour part is shown exactly from 3600 seconds on |
| RouteResults.FormatDistance | src/components/RouteResults.tsx:58-63 | from 1000 m the text is exactly the `toFixed(1)` kilometres followed by " km" (prefix, suffix and length are ensured); below, for a distance that is not negative, it is exactly the decimal digits of the rounded metres (no leading zero), which read back as that number, followed by " m" |
| RouteResults.DistanceUnit | src/components/RouteResults.tsx:58-63 | kilometres exactly from 1000 metres on |
| RouteResults.MetresBelowThousand | src/components/RouteResults.tsx:58-63 | below 1000 m the rounded metres are 0..1000, and 999.5 m up to 1000 m reads "1000 m" |
| RouteResults.MinDuration | src/components/RouteResults.tsx:122 | the least duration among the routes |
| RouteResults.Render | src/components/RouteResults.tsx:44-74 | nothing exactly for no routes, otherwise one card per route |
| RouteResults.RenderCards | src/components/RouteResults.tsx:73-126 | each card has its route's mode, colour, label and texts; it is visible exactly when its mode is; it is badged exactly when no route is faster |
| RouteResults.FastestBadge | src/components/RouteResults.tsx:122 | some card is badged, and equal durations are badged alike |
| TransportModes.IndexById | src/config/transportModes.ts:41-50 | the record's keys are the ids, each mapped to an entry with that id |
| TransportModes.IndexByIdLastWins | src/config/transportModes.ts:41-50 | an id maps to its last occurrence |
| TransportModes.TransportModeListIds | src/config/transportModes.ts:33-38 | four modes car, bicycle, scooter, truck_19 with distinct ids |
| TransportModes.RegistryLookups | src/config/transportModes.ts:41-50 | both records have exactly the registered ids as keys, each mapping to its own entry and colour |
| TransportModes.RegisteredIsKey | src/config/transportModes.ts:41-45 | the record has an entry exactly for the registered ids |
| TransportModes.GetModeLabel | src/config/transportModes.ts:53-55 | the label is the id itself or the label of a registry entry with that id |
| TransportModes.GetModeColor | src/config/transportModes.ts:57-59 | the colour is the default grey or the colour of a registry entry with that id |
| TransportModes.GetModeIcon | src/config/transportModes.ts:61-63 | an icon exactly for a registered id, the icon of its entry |
| TransportModes.LookupsOfRegistered | src/config/transportModes.ts:53-63 | a registered id gets its entry's label, colour and icon |
| TransportModes.LookupsOfUnregistered | src/config/transportModes.ts:53-63 | an unregistered id is its own label, gets #6B7280 and has no icon |
| TransportModes.CargoBikeIsUnregistered | src/config/transportModes.ts:33-38 | cargo_bike is labelled by its id, in the default grey |
| TransportModes.RouteColorOrDefault | src/config/transportModes.ts:47-59 | the colour record with its fallback agrees with `getModeColor` |
| Translation.LookupConcat | src/contexts/TranslationContext.tsx:49-56 | walking a path in two parts is walking it whole |
| Translation.Translate | src/contexts/TranslationContext.tsx:45-59 | when the segments lead to a string leaf, `t` returns that leaf; otherwise it returns the key |
| Translation.TranslateNested | src/contexts/TranslationContext.tsx:45-59 | `group.name` reaches the nested leaf |
| Translation.TranslateFallsBack | src/contexts/TranslationContext.tsx:49-58 | any key whose segments do not lead to a string leaf (a missing segment, a sub-table, another value) gives the key back |
| Translation.TranslateLeaf | src/contexts/TranslationContext.tsx:45-59 | any other text returned is a leaf of the table |
| Translation.SavedLocale | src/contexts/TranslationContext.tsx:66-71 | only a stored "fr" or "en" is adopted |
| Translation.SavedLocaleRoundTrip | src/contexts/TranslationContext.tsx:61-71 | a stored locale is read back as itself |
| Translation.UseTranslation | src/contexts/TranslationContext.tsx:86-91 | the provider's value, or the error with its message outside a provider |
| Translation.TranslationProvider.constructor | src/contexts/TranslationContext.tsx:42-43 | the locale starts as French |
| Translation.TranslationProvider.T | src/contexts/TranslationContext.tsx:45-59 | the loop returns `Translate` of the current table |
| Translation.TranslationProvider.ChangeLocale | src/contexts/TranslationContext.tsx:61-64 | the locale is set and stored |
| Translation.TranslationProvider.RestoreSavedLocale | src/contexts/TranslationContext.tsx:66-71 | the locale becomes the saved one when valid |
| DotEnv.Unquote | scripts/sync-router-modes.mjs:24-26 | one matching pair of quotes is removed, a lone quote becomes empty, anything else is kept |
| DotEnv.ParseLine | scripts/sync-router-modes.mjs:18-26 | a line is ignored exactly when, trimmed, it is empty, a comment or has no `=`; a key read never holds `=` |
| DotEnv.ParseLineSplitsAtFirstEquals | scripts/sync-router-modes.mjs:20-26 | the key is the trimmed text before the first `=`, the value the unquoted trimmed rest |
| DotEnv.ParseAssignment | scripts/sync-router-modes.mjs:18-26 | `key=value` reads back as key and value |
| DotEnv.LoadedEnv | scripts/sync-router-modes.mjs:27-29 | loading never overwrites or removes a variable already set |
| DotEnv.LoadedEnvFirstWins | scripts/sync-router-modes.mjs:27-29 | existing variables are kept, the keys are the old ones and those set, and the first line setting a key wins |
| DotEnv.ProcessEnv.LoadDotEnv | scripts/sync-router-modes.mjs:13-32 | nothing changes when the file cannot be read; otherwise the loop leaves `LoadedEnv` of the lines |
| DotEnv.DropEmpty | scripts/sync-router-modes.mjs:39 | keeps exactly the non-empty parts, no more than given |
| DotEnv.DropEmptyAppend | scripts/sync-router-modes.mjs:39 | the filter works part by part, so the kept parts stay in order |
| DotEnv.KnownModes | scripts/sync-router-modes.mjs:37-44 | non-empty comma-free modes; the default list when the variable is unset or blank |
| DotEnv.KnownModesMembers | scripts/sync-router-modes.mjs:38-39 | the modes read from a non-blank list are exactly its non-blank comma-separated entries, trimmed |
| SyncRouterModes.KnownModesOfJoin | scripts/sync-router-modes.mjs:38-39 | a comma-joined list of plain modes reads back as that list, in order |
| SyncRouterModes.FirstIndex | scripts/sync-router-modes.mjs:48 | the first position of the flag, or -1 exactly when absent |
| SyncRouterModes.GetArg | scripts/sync-router-modes.mjs:47-50 | the argument after the first occurrence of the flag, present exactly when there is one |
| SyncRouterModes.WithoutTrailingSlash | scripts/sync-router-modes.mjs:55 | one trailing slash is dropped, nothing else |
| SyncRouterModes.CapabilityUrl | scripts/sync-router-modes.mjs:52-56 | a non-empty `--url` is used as is; otherwise the address starts with the router address from the environment (or the public router) without its trailing slash, then `/0.1/capability?api_key=`, and ends with the encoded key from the environment (or "demo"), with nothing in between: its length is the sum of the three parts |
| SyncRouterModes.CapabilityUrlTrailingSlash | scripts/sync-router-modes.mjs:53-55 | a trailing slash on the router address does not change the capability address |
| SyncRouterModes.CapabilityUrlDefaults | scripts/sync-router-modes.mjs:53-55 | with nothing configured, the public router is asked with key demo |
| SyncRouterModes.RouteEntries | scripts/sync-router-modes.mjs:67 | `data.route` when it is an array, otherwise nothing |
| SyncRouterModes.Available | scripts/sync-router-modes.mjs:66-74 | a mode is listed exactly when some entry offers it |
| SyncRouterModes.FirstOffer | scripts/sync-router-modes.mjs:68-72 | the first entry offering the mode |
| SyncRouterModes.AvailableFirstSeenOrder | scripts/sync-router-modes.mjs:66-74 | each offered mode is listed once, in the order first offered |
| SyncRouterModes.CollectAvailable | scripts/sync-router-modes.mjs:66-74 | the loop returns `Available` of the route entries |
| SyncRouterModes.Select | scripts/sync-router-modes.mjs:77-79 | no more than the list, each kept element's membership in the other list being the one asked for |
| SyncRouterModes.SelectMembers | scripts/sync-router-modes.mjs:77-79 | the filter keeps exactly the members in (or not in) the other list |
| SyncRouterModes.SelectAppend | scripts/sync-router-modes.mjs:77-79 | the filter keeps the order |
| SyncRouterModes.ReportPartition | scripts/sync-router-modes.mjs:77-79 | enabled and unknown split the offered modes; disabled are the known modes not offered |
| SyncRouterModes.MakeReport | scripts/sync-router-modes.mjs:75-91 | the offered modes are reported as given; enabled modes are known, unknown ones are not, and the two count the offered modes; disabled modes are not offered; the suggestion sets VITE_ENABLED_TRANSPORT_MODES |
| SyncRouterModes.EnvSuggestionRoundTrip | scripts/sync-router-modes.mjs:82 | the suggested line, read back by the script, gives the enabled modes again |
| SyncRouterModes.EmptySuggestionFallsBack | scripts/sync-router-modes.mjs:82 | with none enabled, the line reads back as the default list |
| SyncRouterModes.Sync | scripts/sync-router-modes.mjs:52-114 | succeeds exactly on an ok answer with a parsed body; a failed fetch, "HTTP <status>" or the parse error's message ends the script; the report lists every offered mode once in first-seen order |
| Strings.Split | scripts/sync-router-modes.mjs:39 | at least one part, none holding the separator |
| Strings.JoinSplit | scripts/sync-router-modes.mjs:39 | joining the parts of a split gives the text back |
| Strings.SplitJoin | scripts/sync-router-modes.mjs:39 | joining parts free of the separator and splitting again gives the parts |
| Strings.Trim | scripts/sync-router-modes.mjs:18 | the trim is no longer than the text and neither starts nor ends with whitespace |
| Strings.TrimIsSlice | scripts/sync-router-modes.mjs:18 | the trim is the slice of the text that starts after its leading whitespace |
| Strings.TrimRemovesWhitespace | scripts/sync-router-modes.mjs:18 | everything trimmed away, on either side, is whitespace |
| Strings.NatToStringInjective | src/services/routerApi.ts:56 | distinct numbers have distinct texts |

## Left out

- Rendering is not modelled: the DOM, maplibre's tiles, camera, marker elements and layer paint, Font Awesome icons, CSS classes. The map's state is reduced to source and layer ids, marker positions and the fit flag.
- The network, `response.json()` and the polyline decoder are parameters (`fetch`, `decode`). The polyline format itself is not modelled.
- JavaScript numbers are modelled as reals. Floating-point rounding, NaN and infinities are not modelled. The text of a number (`${n}`, `toFixed(1)`) is a parameter.
- `URLSearchParams` percent-encoding is not modelled: the query is the list of name/value pairs in insertion order. `encodeURIComponent` is the parameter `encode`.
- Promise scheduling is left out: the requests of one calculation are settled in mode order, as `Promise.allSettled` reports them.
- React's scheduling is left out: effect timing, batching, re-renders and stale closures. In the source, the `useCallback` with an empty dependency list keeps the first render's `isCalculating` and `t`. The model reads the current field, so its guard is the intended one.
- `setTranslator` and `setRequestLogger`, which the hook calls, are not defined in `routerApi.ts`. They are not modelled, nor is the `onRequestLog` callback.
- Logging (`console.*`) is not modelled.
- MapComponent.WithoutRouteIds: the source walks the style's layers and removes a `route-` source only when a layer with the same id exists; the model removes every `route-` source. The two agree in every state `UpdateRoutes` produces, since it adds each source together with a layer of the same id.
- Object lookups that JavaScript resolves through the prototype chain are not modelled: `ROUTE_COLORS[mode]`, `TRANSPORT_MODES_MAP[modeId]` and `key in process.env` for keys such as `constructor` or `__proto__` are treated as absent keys of a map.
- RouterApi.RouterApiService.Settle: `fetch` is a function of the request, so two requests for the same mode in one calculation get the same outcome. Independent outcomes for duplicate modes are not modelled.
- RouteCalculation.CollectedRoutes: a body other than `null` that makes `result.features` throw (for example `undefined`) is not modelled. A JSON body is an object or `null` here.
- RouteCalculation.NullBodyMessage: the thrown message is V8's wording. The `t('errors.calculationError')` branch for a thrown value that is not an `Error` is not modelled, since every error raised here is an `Error`.
- Translation.Translate: JavaScript's `in` also finds inherited keys such as `constructor`. Arrays in message tables are not modelled. Locale tables are values of `TValue`.
- Translation.TranslationProvider: `localStorage` is the field `stored`. Storage failures are not modelled.
- `TranslationContext.tsx` re-renders and the context plumbing are left out. `useTranslation` is modelled on an optional context value.
- DotEnv.Lines: splitting at `\r?\n` is modelled as splitting at `\n`. Every line is trimmed before use and `\r` is whitespace, so the parsed lines are the same.
- DotEnv.ProcessEnv.LoadDotEnv: reading `.env` from the working directory is the parameter `content`, None when the read fails.
- SyncRouterModes.Sync: the output is modelled as the report. `err?.message || String(err)`, when the message is empty, is not modelled. Writing the JSON files, the console lines and `process.exit(1)` are not modelled.
- SyncRouterModes.Sync: the request's `User-Agent` header, the `timestamp` field and `new Set` membership (modelled as sequence membership) are left out.
- Strings.IsWhitespace: JavaScript's `trim` whitespace set is written out as code points. Characters outside the Basic Multilingual Plane are not modelled.
- TransportModes.GetModeIcon: icons are the enumeration `Icon`, not Font Awesome definitions.
- The context files (`RouteControls.tsx`, `LanguageSelector.tsx`, `Header.tsx`, `fontawesome.ts`, `main.tsx`) are not part of this model.
