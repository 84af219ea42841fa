# Nearby places: repository cell and activity handlers

A Dafny model of the two pieces of control logic in the "nearby places" Android client:

- **`PlacesRepositories`** (module `Repositories`, `places_repositories.dfy`): the process-wide
  cell that lazily builds one `InMemoryPlacesRepository` from the first non-null
  `PlacesServiceApi` passed to `getInMemoryRepoInstance`, rejects a null API with the
  `NullPointerException` of `checkNotNull` before touching the cell, and returns the stored
  instance on every later call. The static field is the field `repository` of a
  `PlacesRepositories` object; the ghost `calls` records every argument, and `Valid()` ties the
  cell to `Replay`, the same cell as a pure function of the call sequence. The lemmas about
  `Replay` are the properties of any run: the cell holds the repository built from the first
  non-null API (`FirstApi`, an independent definition), every successful call returns that
  repository, exactly one construction happens once a non-null API was seen, and the cell is
  never emptied.
- **`PlacesActivity`** (module `Places`, `places_activity.dfy`): the permission request and its
  rationale prompt, the permission-result handler, the filter-dialog close handler and the
  hand-off of the presenter's extent to the map activity. What the activity does to the
  platform and to its presenter is recorded as a sequence of `Effect`s
  (`RequestPermissions`, `ShowSnackbar`, `PresenterStart`, `GetExtent`, `StartActivity`). Each
  handler is a method of the class `PlacesActivity`, specified by a function giving its
  effects; `Replay` folds a whole session of callbacks into its effects, and `Valid()` ties the
  class's state to it. Session lemmas say that the presenter is started once per applied filter
  dialog and never by a permission result or the map hand-off, that each denial notice matches
  one result with request code 0 and a grant array whose length is not 1, that every request is
  the fine-location request with code 0, and that each `requestLocationPermission` call yields at
  most one request (at once without a rationale, or later from the prompt's OK action).
  `createMapIntent` builds the intent's extras one `putExtra` at a time and is proved equal to
  `MapIntent`, whose contract lists the five keys and the copied envelope values.

`Wrappers` (`wrappers.dfy`) holds `Option` and `Result`.

`checkNotNull` throws `NullPointerException`; the permission-result handler starts no search;
the activity stores no permission state; searches carry no sequence numbers.

## Model

| member | source | states |
|---|---|---|
| `Repositories.AccessCell` | app/src/main/java/com/esri/android/nearbyplaces/data/PlacesRepositories.java:37-44 | A call is rejected iff its API is null; it constructs iff the cell is empty; it returns the stored repository when the cell is filled and one built from its own API otherwise |
| `Repositories.PlacesRepositories.constructor` | app/src/main/java/com/esri/android/nearbyplaces/data/PlacesRepositories.java:35 | The cell starts out empty |
| `Repositories.PlacesRepositories.GetInMemoryRepoInstance` | app/src/main/java/com/esri/android/nearbyplaces/data/PlacesRepositories.java:37-44 | A null API fails with NullPointerException and leaves the cell as it was; on an empty cell a fresh repository built from the API is stored and returned; on a filled cell the identical stored instance is returned and the cell is unchanged; the outcome agrees with `AccessCell` |
| `Repositories.InMemoryPlacesRepository.constructor` | app/src/main/java/com/esri/android/nearbyplaces/data/PlacesRepositories.java:40 | The repository is built from the API it is given |
| `Repositories.CacheHoldsFirstApi` | app/src/main/java/com/esri/android/nearbyplaces/data/PlacesRepositories.java:35-43 | After any sequence of calls the cell holds the repository built from the first non-null API, and is empty iff no non-null API was passed |
| `Repositories.AccessAt` | app/src/main/java/com/esri/android/nearbyplaces/data/PlacesRepositories.java:37-44 | Call i of any sequence behaves as a call against the cell left by the calls before it |
| `Repositories.NullRejected` | app/src/main/java/com/esri/android/nearbyplaces/data/PlacesRepositories.java:37-38 | In any sequence, a call fails iff its API is null |
| `Repositories.ServedIsFirstApi` | app/src/main/java/com/esri/android/nearbyplaces/data/PlacesRepositories.java:39-43 | Every successful call of a sequence returns the repository built from the first non-null API, whatever API it was passed |
| `Repositories.ConstructedOnlyFirst` | app/src/main/java/com/esri/android/nearbyplaces/data/PlacesRepositories.java:39-41 | A repository is constructed by call i iff call i is the first one with a non-null API |
| `Repositories.AtMostOneConstruction` | app/src/main/java/com/esri/android/nearbyplaces/data/PlacesRepositories.java:39-41 | Across any sequence of calls exactly one repository is constructed if some API was non-null, none otherwise |
| `Repositories.NeverEmptied` | app/src/main/java/com/esri/android/nearbyplaces/data/PlacesRepositories.java:35-41 | Once the cell is filled, no later call empties or replaces it |
| `Places.MapIntent` | app/src/main/java/com/esri/android/nearbyplaces/places/PlacesActivity.java:112-125 | The intent addresses the map activity; without an envelope it has no extras; with one it has exactly the keys MIN_X, MIN_Y, MAX_X, MAX_Y, SR carrying xmin, ymin, xmax, ymax and the spatial reference's WKT unchanged |
| `Places.MapIntentRoundTrip` | app/src/main/java/com/esri/android/nearbyplaces/places/PlacesActivity.java:117-123 | Reading the five extras back gives exactly the envelope's bounds and WKT, and no extent when none was given |
| `Places.PlacesActivity.CreateMapIntent` | app/src/main/java/com/esri/android/nearbyplaces/places/PlacesActivity.java:112-125 | Filling the extras one putExtra at a time yields `MapIntent` of the envelope |
| `Places.PermissionRequestEffects` | app/src/main/java/com/esri/android/nearbyplaces/places/PlacesActivity.java:155-182 | One effect: the rationale prompt iff a rationale is due, otherwise exactly one fine-location request with code 0; never a presenter start |
| `Places.PlacesActivity.RequestLocationPermission` | app/src/main/java/com/esri/android/nearbyplaces/places/PlacesActivity.java:155-182 | Appends the prompt or the request as `PermissionRequestEffects` says; the prompt's OK action is live afterwards iff a rationale was due or one was already showing |
| `Places.PlacesActivity.OnRationaleOk` | app/src/main/java/com/esri/android/nearbyplaces/places/PlacesActivity.java:166-173 | Pressing OK on the showing prompt issues exactly the fine-location request with code 0 |
| `Places.PermissionsResultEffects` | app/src/main/java/com/esri/android/nearbyplaces/places/PlacesActivity.java:197-205 | The denial notice is shown iff the request code is 0 and the grant array's length is not 1; nothing else ever happens |
| `Places.PlacesActivity.OnRequestPermissionsResult` | app/src/main/java/com/esri/android/nearbyplaces/places/PlacesActivity.java:197-205 | Appends exactly `PermissionsResultEffects` and leaves the prompt state alone |
| `Places.GrantValuesIgnored` | app/src/main/java/com/esri/android/nearbyplaces/places/PlacesActivity.java:199-204 | The result handler's effects depend on the grant array only through its length, and not on the permission names |
| `Places.IntendedPermissionsResultEffects` | app/src/main/java/com/esri/android/nearbyplaces/places/PlacesActivity.java:199-204 | Corrected handler: the notice is shown iff the request code is 0 and the result is anything but a single grant |
| `Places.ExplicitDenialUnreported` | app/src/main/java/com/esri/android/nearbyplaces/places/PlacesActivity.java:200-203 | An explicit denial of the location request shows no notice as written, and does in the corrected handler |
| `Places.ResultStartsNoSearch` | app/src/main/java/com/esri/android/nearbyplaces/places/PlacesActivity.java:197-205 | In any session, a permission result, whether granted or denied, leaves the prompt state and all earlier effects unchanged and adds at most the denial notice: never a presenter start and never a permission request |
| `Places.FilterDialogCloseEffects` | app/src/main/java/com/esri/android/nearbyplaces/places/PlacesActivity.java:107-111 | Closing with apply starts the presenter exactly once; closing without apply has no effect |
| `Places.PlacesActivity.OnFilterDialogClose` | app/src/main/java/com/esri/android/nearbyplaces/places/PlacesActivity.java:107-111 | Appends exactly `FilterDialogCloseEffects` |
| `Places.ShowMapEffects` | app/src/main/java/com/esri/android/nearbyplaces/places/PlacesActivity.java:126-130 | One read of the presenter's extent, then one start of the map activity with `MapIntent` of that extent; no presenter start, request or Snackbar |
| `Places.PlacesActivity.ShowMap` | app/src/main/java/com/esri/android/nearbyplaces/places/PlacesActivity.java:126-130 | Appends exactly `ShowMapEffects`, building the intent with `CreateMapIntent` |
| `Places.StartsOnlyOnAppliedFilter` | app/src/main/java/com/esri/android/nearbyplaces/places/PlacesActivity.java:107-111 | In any session the presenter is started exactly as many times as the filter dialog was closed with apply |
| `Places.DeniedNoticeCount` | app/src/main/java/com/esri/android/nearbyplaces/places/PlacesActivity.java:199-204 | In any session the denial notice appears exactly once per result with request code 0 and a grant array whose length is not 1 |
| `Places.OnlyLocationRequests` | app/src/main/java/com/esri/android/nearbyplaces/places/PlacesActivity.java:155-182 | In any session every permission request is for fine location with request code 0 |
| `Places.PromptsFollowRationale` | app/src/main/java/com/esri/android/nearbyplaces/places/PlacesActivity.java:157-174 | In any session the rationale prompt appears exactly once per permission request call for which a rationale was due |
| `Places.RequestsPerCall` | app/src/main/java/com/esri/android/nearbyplaces/places/PlacesActivity.java:155-182 | In any session every call without a rationale issues its request, and requests plus a still-live prompt never outnumber the calls |

## Findings

| source | as written | input that shows it | evidently intended | confidence | as-written member | corrected member |
|---|---|---|---|---|---|---|
| app/src/main/java/com/esri/android/nearbyplaces/places/PlacesActivity.java:200-203 | The denial notice is shown only when `grantResults.length != 1` | request code 0, grant results `[PERMISSION_DENIED]`: the user denied, yet no notice is shown | Show the notice whenever the single location permission was not granted, an explicit denial included | medium, not executed | `Places.ExplicitDenialUnreported` | `Places.IntendedPermissionsResultEffects` |

The activity class and the session lemmas keep the handler as written (`PermissionsResultEffects`),
since they describe the shipped activity; the corrected handler is stated and proved beside it.

## Left out

- Layout, toolbar, options menu and fragment setup (`onCreate`, `setUpToolbar`,
  `onCreateOptionsMenu`, `setUpFragments`): widget wiring with no decision logic. The fields
  `mMainLayout` and `mPresenter` are not modelled; the presenter appears only through the
  `PresenterStart` and `GetExtent` effects.
- Snackbar rendering, `startActivity` and `ActivityCompat.requestPermissions` as platform calls:
  modelled only as recorded effects. Snackbar queueing (a new Snackbar replacing a showing one)
  and swipe-dismissal of the rationale prompt are not modelled: the prompt's OK action stays live
  until it is pressed.
- The value of `shouldShowRequestPermissionRationale` and of `getExtentForNearbyPlaces` come from
  collaborators and are parameters of the handlers.
- `synchronized`: calls to the repository cell are sequential and atomic; concurrent first access
  is not modelled.
- `InMemoryPlacesRepository`, `PlacesServiceApi`, `PlacesPresenter`, `FilterPresenter`,
  `FilterDialogFragment` and `MapActivity` are not part of this model beyond their identity or the
  effects above.
- Envelope coordinates are Java doubles kept as 64-bit patterns and only copied; a null
  spatial reference (which would throw in `createMapIntent`) is not modelled, and the `Activity`
  argument of `createMapIntent` only sets the intent's context, which is not modelled.
- A stored permission state, starting a search when the permission is granted, tagging searches
  with sequence numbers so that the last request wins, and distinct repository error kinds are not
  in the code and so are not modelled.
- `requestCode` is a Java `int`; it is only compared with 0, so its 32-bit width plays no part.
