# async-race garage: a verified model of the race and animation logic

This project models the stateful core of the async-race "garage" single-page app.
Two bundled builds of the app exist:

- `dist/index-CkJHHUoa.js` is the complete build, with race and reset controls.
- `dist/index-BCF2I0ra.js` is an earlier build, whose engine code catches every error.

The model covers the following parts.

- **Animation map** (`carAnimations`): a map from car id to animation handle. It is set or replaced by `carAnimation`, paused by `stopCarAnimation`, and cancelled and deleted by `resetCarAnimation`. Module `Animations` holds the map as a value (`Registry`) with the three operations as functions. Each build has a `Garage` class whose methods update the map field in place. Those methods are proved equal to the functions.
- **Engine sessions** (`startEngine` and `drive`): a session's network replies are data (`Engine.Replies`). The start reply is ok, not ok, or thrown. The drive reply is ok, not ok with a status, or thrown. A session's result and its effect on the map are pure functions of those replies, and each build has its own functions (`CompleteBuild.SessionResultOf`, `CompleteBuild.SessionAnimations`, `EarlierBuild.SessionAnimations`).
- **Race coordinator** (`startRace` and `resetRace`, complete build only). `Promise.any` is a pure function over the session results in the order they settle (`Race.Any`). That order is an input: a permutation of the sessions. The global buttons follow the cycle Idle -> Racing -> AwaitingReset -> Idle (`Race.Panel`, `Race.InPhase`).
- **Per-car buttons** (complete build only): `startEngine` disables go and enables back. `resetCarAnimation` does the reverse. In the earlier build neither function touches a button.
- **Pagination**: `currentPage`, `totalCount`, a limit of 7 cars per page, and `Math.ceil(totalCount / limit)` pages.
- **Hash router**: `parseUrl`, `fullPath`, route lookup, and the redirect to `/404`.
- **Query strings and forms**: `generateQueryString`, the name fallback of `updateCarOnPage`, and the empty-name check of `addCreatedCar`.

Code that is the same in both builds is modelled once. This covers the router, the query string, pagination and the forms.

In a few places the code does not do what one would expect of such an app. The model follows the code:

- **A replaced handle is not cancelled.** One would expect a new handle for a car to cancel the old one first. The code only calls `carAnimations.set`, so the old animation keeps running where nothing can reach it. The model keeps such handles in a ghost sequence `orphaned`. `Animations.ReplacedHandleKeepsRunning` shows the effect. One way to trigger it: press GO on a car, then RACE.
- **A zero or bad velocity is not guarded.** One would expect a zero, negative or missing velocity to count as a failed start. The code has no such guard. The model therefore treats the duration as an opaque value.
- **A thrown drive request can win the race.** One would expect a network failure during drive to make the session fail. In the complete build, `drive` catches a thrown error and resolves with `undefined`. That counts as a fulfilment, so a race can declare "undefined" the winner (`CompleteBuild.ThrownDriveCountsAsFinish`).
- **The race has no entry guard.** One would expect a race to start only from Idle. The code does not check this; only the disabled buttons stop it. `StartRace` therefore has no such precondition.
- **The page range can break.** The range `1 <= currentPage <= max(1, pages)` holds under previous and next while the total stays the same. A total fetched again after deletions can leave the counter past the last page (`Pagination.ShrunkTotalLeavesRange`).

## Model

| member | source | states |
|---|---|---|
| Text.Split | dist/index-CkJHHUoa.js:46 | `url.split("/")` yields at least one piece, no piece holds the separator, and the first piece is everything before the first separator |
| Text.JoinSplit | dist/index-CkJHHUoa.js:46 | joining the pieces of a split with the separator gives back the original string |
| Text.Join | dist/index-CkJHHUoa.js:89 | `parts.join(c)`: the empty list gives `""`, and a non-empty list's text starts with its first piece |
| Text.JoinSeparatorCount | dist/index-CkJHHUoa.js:89 | joining pieces that hold no separator puts exactly one separator fewer than there are pieces into the text |
| Router.ParseUrl | dist/index-CkJHHUoa.js:45-52 | `path` is the prefix before the first `/` and `resource` is the segment between the first and second `/`; both are `""` when missing |
| Router.FullPath | dist/index-CkJHHUoa.js:61 | the full path starts with `path`, and equals `path` exactly when `resource` is empty |
| Router.ParseFullPath | dist/index-CkJHHUoa.js:45-61 | parsing the full path built from a slash-free `path` and `resource` gives back that `path` and `resource` |
| Router.FullPathIsPrefix | dist/index-CkJHHUoa.js:61 | the full path built from `path` and `resource` is a prefix of the location, so segments after the second one are dropped |
| Router.FullPathOfSlashSegment | dist/index-BCF2I0ra.js:44-60 | `/x`, with `x` a non-empty segment, is its own full path (for example `/garage` gives route `/garage`) |
| Router.FullPathOfRoot | dist/index-BCF2I0ra.js:44-60 | `""` and `"/"` both map to route `""` |
| Router.Find | dist/index-CkJHHUoa.js:62 | `routes.find` returns the first route with the given path, and nothing exactly when no route has it |
| Router.NotFoundPathResolves | dist/index-CkJHHUoa.js:54-57 | the path the not-found redirect navigates to is its own full path, so the redirected call finds its route |
| Router.Navigate | dist/index-CkJHHUoa.js:58-70 | a matching route is rendered with one history push; with no match, the `/404` route is rendered after a push of `#/404` and then `#url`; with no `/404` route, nothing is rendered; the recursion is at most one level deep |
| Router.AppNavigation | dist/index-CkJHHUoa.js:461-466 | with the app's route table every location renders a page: the garage for `""` and `/garage`, the winners page for `/winners`, and the not-found page otherwise, with at most two pushes |
| Router.GarageLocations | dist/index-BCF2I0ra.js:392-397 | the locations `""`, `/` and `/garage` all render the garage |
| QueryString.GenerateQueryString | dist/index-BCF2I0ra.js:167 | the result is `""` exactly for an empty list, and otherwise starts with `?` |
| QueryString.Pair | dist/index-CkJHHUoa.js:89 | `${x.key}=${x.value}`: the key, then one `=`, then the value, and nothing else |
| QueryString.Pairs | dist/index-CkJHHUoa.js:89 | `queryParameters.map(..)` gives one pair text per parameter, in list order |
| QueryString.QueryStringRoundTrip | dist/index-CkJHHUoa.js:89 | reading the built string back gives the parameter list in order, when keys hold no `&` or `=` and values no `&` |
| QueryString.TwoParameters | dist/index-CkJHHUoa.js:380-383 | the page request with two parameters (`_page`, `_limit`) carries `?key=value&key=value`, each pair in list order |
| Animations.Store | dist/index-CkJHHUoa.js:113-125 | after `carAnimation` the car has exactly one handle, running with the given duration; other cars' handles are unchanged |
| Animations.Pause | dist/index-CkJHHUoa.js:144-149 | `stopCarAnimation` pauses the car's handle if present; the key set and other entries never change |
| Animations.Cancel | dist/index-CkJHHUoa.js:150-168 | `resetCarAnimation` removes the car's entry and keeps every other entry |
| Animations.PauseIdempotent | dist/index-BCF2I0ra.js:124-129 | pausing with no handle is a no-op, and pausing twice equals pausing once |
| Animations.CancelIdempotent | dist/index-BCF2I0ra.js:130-141 | cancelling with no handle is a no-op, and cancelling twice equals cancelling once |
| Animations.ReplacedHandleKeepsRunning | dist/index-CkJHHUoa.js:124 | setting a new handle over a running one leaves the old handle running and unreachable, so it is never cancelled |
| Animations.ResetThenStart | dist/index-CkJHHUoa.js:113-168 | after a reset the car has no handle, and a following start leaves exactly one running handle without orphaning any |
| Race.FirstFulfilledIndex | dist/index-CkJHHUoa.js:351 | the position of the first fulfilled result in settle order: every result before it rejected |
| Race.Show | dist/index-CkJHHUoa.js:352 | a name prints as itself, and the printed text is `undefined` exactly for `undefined` or a car named `undefined` |
| Race.WinnerText | dist/index-CkJHHUoa.js:351-354 | when every session rejected the text is "No car reached the finish line!"; otherwise it is `!!! <value> won the race !!!` for the first fulfilled result in settle order |
| Race.Any | dist/index-CkJHHUoa.js:351 | `Promise.any` gives the value of the first fulfilled result, after only rejections, and rejects exactly when every result rejected (including no results) |
| Race.NoFinisherIff | dist/index-CkJHHUoa.js:350-355 | the winner text is "No car reached the finish line!" exactly when every session rejected |
| Race.EarlyRejectionDoesNotWin | dist/index-CkJHHUoa.js:350-355 | a rejection that settles first does not decide the race; the next fulfilment's name wins |
| Race.SettleOrderCovers | dist/index-CkJHHUoa.js:344-351 | every spawned session settles at some position of a settle order |
| Race.Settle | dist/index-CkJHHUoa.js:344-351 | the settled list holds each session's result at the position where that session settles |
| Race.RaceOutcome | dist/index-CkJHHUoa.js:344-355 | in any settle order, there is no finisher exactly when every session rejected; otherwise the winner is the value of some fulfilled session |
| Race.BeginRace | dist/index-CkJHHUoa.js:330-343 | the start of `startRace` disables generate, reset and race (Racing) and clears the winner text |
| Race.FinishRace | dist/index-CkJHHUoa.js:350-356 | the end of `startRace` shows the outcome and re-enables reset only, moving Racing to AwaitingReset |
| Race.ResetPanel | dist/index-CkJHHUoa.js:358-371 | `resetRace` clears the winner and enables generate and race while disabling reset (Idle) |
| Race.RaceCycle | dist/index-CkJHHUoa.js:319-375 | the panel starts Idle, a race from any panel ends in AwaitingReset with generate and race disabled, a reset returns to the initial panel, and a reset is idempotent |
| CompleteBuild.SessionOutcome | dist/index-CkJHHUoa.js:93-143 | a session fulfils exactly when the start is ok and the drive reply is not a failure; a started car keeps a handle that runs on only after an ok drive; a failed start stores nothing; other cars are untouched |
| CompleteBuild.Started | dist/index-CkJHHUoa.js:98-101 | a started road keeps its name, with go disabled and back enabled |
| CompleteBuild.Stopped | dist/index-CkJHHUoa.js:156-159 | a reset road keeps its name, with go enabled and back disabled |
| CompleteBuild.DriveResult | dist/index-CkJHHUoa.js:126-143 | `drive` rejects exactly on a reply that is not ok, and fulfils with the car's name exactly on an ok reply; a request that throws fulfils with another value |
| CompleteBuild.SessionResultOf | dist/index-CkJHHUoa.js:93-112 | a session fulfils exactly when the start is ok and the drive reply is not a failure; its value is the name after an ok drive and `undefined` after a thrown one |
| CompleteBuild.DriveAnimations | dist/index-CkJHHUoa.js:126-143 | after `drive` the key set and orphaned handles are unchanged; the car's handle keeps its duration and is paused unless the reply was ok; other cars' handles are unchanged |
| CompleteBuild.SessionAnimations | dist/index-CkJHHUoa.js:93-143 | after an ok start the car has a handle with the start's duration (lines 110 and 124), running after an ok drive and paused otherwise (lines 135 and 141); after a failed or thrown start the map is unchanged |
| CompleteBuild.BreakdownStatusOnlyLogs | dist/index-CkJHHUoa.js:131-137 | status 500 and any other failing drive status give the same result and the same map; only the log message differs |
| CompleteBuild.ThrownDriveCountsAsFinish | dist/index-CkJHHUoa.js:139-142 | a thrown drive error resolves with `undefined`, and when that settles first the race declares "undefined" the winner |
| CompleteBuild.RaceAnimationsOther | dist/index-CkJHHUoa.js:344-349 | sessions for other cars leave a car's map entry alone |
| CompleteBuild.RaceAnimationsAt | dist/index-CkJHHUoa.js:344-349 | after a race over distinct cars, each car's entry is what its own session left, whatever the other sessions did |
| CompleteBuild.RaceAnimationsKeys | dist/index-CkJHHUoa.js:344-349 | after a race the map holds the cars it held before plus every car whose engine started |
| CompleteBuild.Garage.constructor | dist/index-CkJHHUoa.js:213-215 | a rendered road starts with go enabled and back disabled; the panel starts with only reset disabled; no animations |
| CompleteBuild.Garage.CarAnimation | dist/index-CkJHHUoa.js:113-125 | the map field becomes `Store` of the old map; the road must exist |
| CompleteBuild.Garage.StopCarAnimation | dist/index-CkJHHUoa.js:144-149 | the map field becomes `Pause` of the old map |
| CompleteBuild.Garage.ResetCarAnimation | dist/index-CkJHHUoa.js:150-168 | go is enabled, back is disabled, and the map becomes `Cancel` of the old map |
| CompleteBuild.Garage.Drive | dist/index-CkJHHUoa.js:126-143 | an ok reply resolves with the name; a failed reply pauses the car and rejects; a thrown error pauses the car and resolves with `undefined` |
| CompleteBuild.Garage.StartEngine | dist/index-CkJHHUoa.js:93-112 | go is disabled and back enabled before any request; the result and the new map are the session functions of the replies |
| CompleteBuild.Garage.RunSessions | dist/index-CkJHHUoa.js:344-349 | one session per road in document order: each result is its road's session result, every road is started, and the map is the sessions' combined effect |
| CompleteBuild.Garage.StartRace | dist/index-CkJHHUoa.js:330-357 | the panel ends as `FinishRace(BeginRace(..))` with the winner text of the results in settle order; roads and map are as after `RunSessions` |
| CompleteBuild.Garage.ResetRoads | dist/index-CkJHHUoa.js:372-374 | every rendered road is reset, the map loses exactly the entries of rendered cars, and other entries are kept |
| CompleteBuild.Garage.ResetRace | dist/index-CkJHHUoa.js:358-375 | the panel becomes `ResetPanel` (Idle, no winner); every road is reset; the map keeps only the entries of cars not on the page |
| EarlierBuild.OnlyBreakdownPauses | dist/index-BCF2I0ra.js:109-123 | after an ok start with the car present, the car ends paused exactly when the drive reply has status 500; other failures and thrown errors leave it running |
| EarlierBuild.DriveAnimations | dist/index-BCF2I0ra.js:109-123 | after `drive` the key set and orphaned handles are unchanged; the car's handle keeps its duration and is paused only after a status 500 reply; other cars' handles are unchanged |
| EarlierBuild.SessionAnimations | dist/index-BCF2I0ra.js:79-123 | an ok start adds the car to the map only when its element exists, with the start's duration; a failed or thrown start stores nothing and pauses any handle the car already had; other cars' entries are unchanged |
| EarlierBuild.FailedStartPausesEarlierHandle | dist/index-BCF2I0ra.js:91-108 | a failed or thrown start is caught, stores nothing, and pauses any handle the car already had |
| EarlierBuild.MissingCarStoresNothing | dist/index-BCF2I0ra.js:79-90 | with no car element, the session leaves the map's key set unchanged |
| EarlierBuild.SessionIsLocal | dist/index-BCF2I0ra.js:91-123 | a session never changes another car's entry |
| EarlierBuild.BuildsCompared | dist/index-BCF2I0ra.js:114-119 | both builds agree on an ok drive; on a failing status other than 500 the complete build pauses and this build keeps running |
| EarlierBuild.Garage.constructor | dist/index-BCF2I0ra.js:75 | the page starts with an empty animation map |
| EarlierBuild.Garage.CarAnimation | dist/index-BCF2I0ra.js:79-90 | a handle is stored only when the car element exists; otherwise the map is unchanged |
| EarlierBuild.Garage.StopCarAnimation | dist/index-BCF2I0ra.js:124-129 | the map becomes `Pause` of the old map |
| EarlierBuild.Garage.ResetCarAnimation | dist/index-BCF2I0ra.js:130-141 | the map becomes `Cancel` of the old map; no button state is touched |
| EarlierBuild.Garage.Drive | dist/index-BCF2I0ra.js:109-123 | only a status 500 reply pauses the car |
| EarlierBuild.Garage.StartEngine | dist/index-BCF2I0ra.js:91-108 | the session always resolves with `undefined` (it never rejects) and the map becomes this build's session function of the replies |
| Pagination.PageCount | dist/index-CkJHHUoa.js:384 | `Math.ceil(total / 7)`: the fewest pages of 7 that hold every car |
| Pagination.NextMovesIffPagesLeft | dist/index-CkJHHUoa.js:410-415 | the guard `currentPage * limit < totalCount` holds exactly when a later page exists |
| Pagination.PreviousPage | dist/index-CkJHHUoa.js:404-409 | the counter moves back by one exactly when it is above 1, and never drops below 1 from a valid page |
| Pagination.NextPage | dist/index-CkJHHUoa.js:410-415 | the counter moves forward by at most one, never while the total is unset, and from a valid page exactly when a later page exists |
| Pagination.PagingKeepsRange | dist/index-BCF2I0ra.js:326-337 | previous and next keep `1 <= currentPage <= max(1, pages)` for a fixed total |
| Pagination.FifteenCars | dist/index-CkJHHUoa.js:376-415 | 15 cars make 3 pages, and next does not move past page 3 |
| Pagination.ShrunkTotalLeavesRange | dist/index-CkJHHUoa.js:379-386 | page 3 is in range for 15 cars but not for 14, so a smaller total fetched again can break the range |
| Pagination.Pager.constructor | dist/index-CkJHHUoa.js:376-378 | the counter starts at page 1 with no total fetched |
| Pagination.Pager.RenderGarage | dist/index-CkJHHUoa.js:379-387 | the fetched total is recorded and the page count shown is `PageCount` of it |
| Pagination.Pager.ShowPreviousPage | dist/index-CkJHHUoa.js:404-409 | the counter steps back only when above 1, and a re-render happens exactly when it moved |
| Pagination.Pager.ShowNextPage | dist/index-CkJHHUoa.js:410-415 | the counter steps forward only when `currentPage * 7 < totalCount` (never while the total is unset), and a re-render happens exactly when it moved |
| Forms.AddCreatedCar | dist/index-BCF2I0ra.js:265-280 | an empty name sends nothing and sets "Please, enter the car name!"; any other name is sent with the color, and the field and message are cleared |
| Forms.NamesStayNonEmpty | dist/index-BCF2I0ra.js:252-274 | no created car gets an empty name, and renaming a car that has a non-empty name never sends an empty name, falling back to the previous one |
| Forms.UpdateForm.constructor | dist/index-BCF2I0ra.js:290-296 | nothing is selected and the update button is disabled |
| Forms.UpdateForm.FocusOnInput | dist/index-BCF2I0ra.js:236-251 | the car's id and name are remembered and the update button is enabled |
| Forms.UpdateForm.UpdateCarOnPage | dist/index-BCF2I0ra.js:252-264 | the change carries the selected id, the typed name or else the previous name, and the color; the button is disabled again |
| Forms.ChosenName | dist/index-BCF2I0ra.js:257 | a typed name is sent as typed; an empty field falls back to the previous name; the sent name is empty only when the previous one was |

## Left out

- The module-preload polyfill at the top of both bundles: browser loader plumbing.
- All `fetch` traffic and JSON parsing: `getAmountOfCars`, `getAllCars`, `getCar`, `createCar`, `changeCar` and `deleteCar`. Replies enter the model as data: an ok flag, a status, or a thrown error. A body that cannot be parsed counts as a thrown start.
- DOM construction and event wiring: `createElement`, `createSvgElement`, `createControlPanel`, `renderGarageLayout`, `updateGarageContent`, `renderWinners`, `renderNotFound`, `getCurrentPath`, and the router's `window`/`history` listeners. The DOM enters the model as the set of rendered road ids (with their buttons) or the set of car elements present. `rootElement.replaceChildren()` is not modelled.
- Re-rendering the page (`renderGarageLayout` after a page change, create or delete): it builds a fresh control panel in the Idle state and fresh roads, while the module-level `carAnimations` map survives. The model's `Garage` starts from one rendered page and does not re-render.
- Concurrency: sessions run one after another in document order, and `Promise.any` sees an explicit settle order. Interleavings are not modelled. In particular, a session that settles after `resetRace` and then pauses or stores a handle is not modelled. Each session touches only its own car's buttons and map entry.
- Durations that make `element.animate` throw: a missing velocity gives a NaN duration and a negative one a negative duration. For either, `animate` throws a `TypeError` before the handle is stored (`dist/index-CkJHHUoa.js:119`, `dist/index-BCF2I0ra.js:83`). `Duration` is an unconstrained `real`, so the model does not detect this itself. Such a start reply is to be read as `StartThrew`. The complete build then rejects with the buttons already toggled and nothing stored. The earlier build catches the error and pauses any handle the car already had (`dist/index-BCF2I0ra.js:104-106`).
- Floating point: `distance / velocity`, `roadWidth / velocity`, `offsetWidth - correction` and the visual effect of the Web Animations API. The duration is an opaque `real` carried by the start reply. A finished animation counts as `Running`. Resetting the inline `transform` or `left` style is not modelled.
- `createHundredCars`: it depends on `Math.random` and bulk requests.
- `console` logging. `valueIsDefined` checks become preconditions that the road exists (`id in roads`).
- QueryString.GenerateQueryString: values are taken as the text a template literal prints for them. Number-to-text conversion is not modelled.
