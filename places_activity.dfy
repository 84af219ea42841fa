/**
 * The event handlers of PlacesActivity.java with the Android widgets taken away. What the
 * activity does to the platform (asks for a permission, shows a Snackbar, starts the
 * presenter, reads the presenter's extent, starts the map activity) is recorded as a sequence
 * of effects. Each handler's effects are given by a function; Replay folds a whole session of
 * handler events into the effects it produces, and the lemmas about Replay are the
 * properties of any session.
 */
module Places {
  import opened Wrappers

  /** Request code passed with the location permission request. */
  const PERMISSION_REQUEST_LOCATION: int := 0
  const ACCESS_FINE_LOCATION: string := "android.permission.ACCESS_FINE_LOCATION"

  const RATIONALE_MESSAGE: string := "Location access is required to search for places nearby."
  const DENIED_MESSAGE: string := "Location permission request was denied."

  /** The activity the map intent is addressed to. */
  const MAP_ACTIVITY: string := "MapActivity"
  /** The extras a map intent with a viewport hint carries. */
  const MAP_EXTRA_KEYS: set<string> := {"MIN_X", "MIN_Y", "MAX_X", "MAX_Y", "SR"}

  /** A Java double, kept as its 64-bit pattern: coordinates are copied, never computed on. */
  datatype Double = Double(bits: bv64)

  datatype SpatialReference = SpatialReference(wkText: string)

  datatype Envelope = Envelope(xMin: Double, yMin: Double, xMax: Double, yMax: Double,
                               spatialReference: SpatialReference)

  /** The value of one intent extra: putExtra was given a double or a string. */
  datatype Extra = DoubleExtra(d: Double) | StringExtra(s: string)

  datatype Intent = Intent(component: string, extras: map<string, Extra>)

  datatype SnackbarLength = LengthShort | LengthIndefinite

  /** What a handler does to the platform and to its collaborators. */
  datatype Effect =
    | RequestPermissions(permissions: seq<string>, requestCode: int)
    | ShowSnackbar(message: string, length: SnackbarLength, action: Option<string>)
    | PresenterStart
    | GetExtent
    | StartActivity(intent: Intent)

  /** ActivityCompat.requestPermissions for fine location with the location request code. */
  const LocationRequest: Effect := RequestPermissions([ACCESS_FINE_LOCATION], PERMISSION_REQUEST_LOCATION)
  /** The indefinite Snackbar explaining the request, whose OK action issues it. */
  const RationalePrompt: Effect := ShowSnackbar(RATIONALE_MESSAGE, LengthIndefinite, Some("OK"))
  /** The short Snackbar reporting a denial. */
  const DeniedNotice: Effect := ShowSnackbar(DENIED_MESSAGE, LengthShort, None)

  /** The intent createMapIntent builds for an optional extent. */
  function MapIntent(envelope: Option<Envelope>): (intent: Intent)
    ensures intent.component == MAP_ACTIVITY
    ensures envelope == None ==> intent.extras == map[]
    ensures envelope.Some? ==>
              var e := envelope.value;
              intent.extras.Keys == MAP_EXTRA_KEYS &&
              intent.extras["MIN_X"] == DoubleExtra(e.xMin) &&
              intent.extras["MIN_Y"] == DoubleExtra(e.yMin) &&
              intent.extras["MAX_X"] == DoubleExtra(e.xMax) &&
              intent.extras["MAX_Y"] == DoubleExtra(e.yMax) &&
              intent.extras["SR"] == StringExtra(e.spatialReference.wkText)
  {
    match envelope
    case None => Intent(MAP_ACTIVITY, map[])
    case Some(e) =>
      Intent(MAP_ACTIVITY, map["MIN_X" := DoubleExtra(e.xMin), "MIN_Y" := DoubleExtra(e.yMin),
                               "MAX_X" := DoubleExtra(e.xMax), "MAX_Y" := DoubleExtra(e.yMax),
                               "SR" := StringExtra(e.spatialReference.wkText)])
  }

  /** The extent a map intent carries, read back from its extras. */
  function ExtentOf(extras: map<string, Extra>): Option<(Double, Double, Double, Double, string)>
  {
    if extras.Keys == MAP_EXTRA_KEYS && extras["MIN_X"].DoubleExtra? && extras["MIN_Y"].DoubleExtra?
       && extras["MAX_X"].DoubleExtra? && extras["MAX_Y"].DoubleExtra? && extras["SR"].StringExtra?
    then Some((extras["MIN_X"].d, extras["MIN_Y"].d, extras["MAX_X"].d, extras["MAX_Y"].d, extras["SR"].s))
    else None
  }

  /** The map activity reads back exactly the extent it was handed, and no extent when there was none. */
  lemma MapIntentRoundTrip(envelope: Option<Envelope>)
    ensures ExtentOf(MapIntent(envelope).extras) ==
              match envelope
              case None => None
              case Some(e) => Some((e.xMin, e.yMin, e.xMax, e.yMax, e.spatialReference.wkText))
  {
  }

  /** requestLocationPermission: a prompt when a rationale is due, the request itself otherwise. */
  function PermissionRequestEffects(shouldShowRationale: bool): (r: seq<Effect>)
    ensures |r| == 1
    ensures r[0] == RationalePrompt <==> shouldShowRationale
    ensures multiset(r)[LocationRequest] == if shouldShowRationale then 0 else 1
    ensures PresenterStart !in r
  {
    if shouldShowRationale then [RationalePrompt] else [LocationRequest]
  }

  /** onRequestPermissionsResult: only the length of the grant results is looked at. */
  function PermissionsResultEffects(requestCode: int, permissions: seq<string>, grantResults: seq<int>)
    : (r: seq<Effect>)
    ensures DeniedNotice in r <==> requestCode == PERMISSION_REQUEST_LOCATION && |grantResults| != 1
    ensures forall e :: e in r ==> e == DeniedNotice
    ensures |r| <= 1
  {
    if requestCode == PERMISSION_REQUEST_LOCATION && |grantResults| != 1 then [DeniedNotice] else []
  }

  /** The grant values and the permission names never influence the result handler. */
  lemma GrantValuesIgnored(requestCode: int, p1: seq<string>, g1: seq<int>, p2: seq<string>, g2: seq<int>)
    requires |g1| == |g2|
    ensures PermissionsResultEffects(requestCode, p1, g1) == PermissionsResultEffects(requestCode, p2, g2)
  {
  }

  /** The platform's grant values (PackageManager.PERMISSION_GRANTED and PERMISSION_DENIED). */
  const PERMISSION_GRANTED: int := 0
  const PERMISSION_DENIED: int := -1

  /**
   * What the result handler evidently means to do: report every outcome other than a grant of
   * the one permission asked for, an explicit denial included.
   */
  function IntendedPermissionsResultEffects(requestCode: int, permissions: seq<string>, grantResults: seq<int>)
    : (r: seq<Effect>)
    ensures DeniedNotice in r <==>
              requestCode == PERMISSION_REQUEST_LOCATION && grantResults != [PERMISSION_GRANTED]
    ensures forall e :: e in r ==> e == DeniedNotice
  {
    if requestCode == PERMISSION_REQUEST_LOCATION && (|grantResults| != 1 || grantResults[0] != PERMISSION_GRANTED)
    then [DeniedNotice] else []
  }

  /**
   * As written, an explicit denial of the location request (one entry, PERMISSION_DENIED)
   * shows no notice; only an interrupted request (no entries) does.
   */
  lemma ExplicitDenialUnreported()
    ensures PermissionsResultEffects(PERMISSION_REQUEST_LOCATION, [ACCESS_FINE_LOCATION], [PERMISSION_DENIED]) == []
    ensures IntendedPermissionsResultEffects(PERMISSION_REQUEST_LOCATION, [ACCESS_FINE_LOCATION], [PERMISSION_DENIED])
            == [DeniedNotice]
  {
  }

  /** onFilterDialogClose: the presenter starts once when the filter is applied, nothing otherwise. */
  function FilterDialogCloseEffects(applyFilter: bool): (r: seq<Effect>)
    ensures multiset(r)[PresenterStart] == if applyFilter then 1 else 0
    ensures forall e :: e in r ==> e == PresenterStart
  {
    if applyFilter then [PresenterStart] else []
  }

  /** showMap: one read of the presenter's extent, then the map activity is started with it. */
  function ShowMapEffects(presenterExtent: Option<Envelope>): (r: seq<Effect>)
    ensures |r| == 2 && r[0] == GetExtent && r[1].StartActivity?
    ensures r[1].intent == MapIntent(presenterExtent)
    ensures PresenterStart !in r && forall e :: e in r ==> !e.RequestPermissions? && !e.ShowSnackbar?
  {
    [GetExtent, StartActivity(MapIntent(presenterExtent))]
  }

  /** A platform callback delivered to the activity. */
  datatype Event =
    | PermissionRequested(shouldShowRationale: bool)
    | RationaleOkClicked
    | PermissionsResult(requestCode: int, permissions: seq<string>, grantResults: seq<int>)
    | FilterDialogClose(applyFilter: bool)
    | MapItemClicked(presenterExtent: Option<Envelope>)

  /** The activity's state: whether a rationale prompt with a live OK action is on screen, and all effects so far. */
  datatype Session = Session(promptShowing: bool, effects: seq<Effect>)

  /**
   * One event. The OK action exists only on a showing prompt: a click when none is showing is
   * a click on nothing. Pressing OK dismisses the prompt.
   */
  function Step(s: Session, ev: Event): Session
  {
    Session(PromptAfter(s.promptShowing, ev), s.effects + EventEffects(s.promptShowing, ev))
  }

  /** What the handler of `ev` does, given whether a rationale prompt is showing. */
  function EventEffects(promptShowing: bool, ev: Event): seq<Effect>
  {
    match ev
    case PermissionRequested(rationale) => PermissionRequestEffects(rationale)
    case RationaleOkClicked => if promptShowing then [LocationRequest] else []
    case PermissionsResult(code, permissions, grants) => PermissionsResultEffects(code, permissions, grants)
    case FilterDialogClose(apply) => FilterDialogCloseEffects(apply)
    case MapItemClicked(extent) => ShowMapEffects(extent)
  }

  /** Whether a rationale prompt is showing after `ev`. */
  function PromptAfter(promptShowing: bool, ev: Event): bool
  {
    match ev
    case PermissionRequested(rationale) => promptShowing || rationale
    case RationaleOkClicked => false
    case _ => promptShowing
  }

  /** The state after the events `evs`, from a freshly created activity. */
  function Replay(evs: seq<Event>): Session
    decreases |evs|
  {
    if evs == [] then Session(false, [])
    else Step(Replay(evs[..|evs| - 1]), evs[|evs| - 1])
  }

  lemma ReplaySnoc(evs: seq<Event>, ev: Event)
    ensures Replay(evs + [ev]) == Step(Replay(evs), ev)
  {
  }

  /** Number of permission results that report a denial: location request code, not exactly one grant entry. */
  function DenialResults(evs: seq<Event>): nat
  {
    if evs == [] then 0
    else
      var ev := evs[|evs| - 1];
      DenialResults(evs[..|evs| - 1])
      + (if ev.PermissionsResult? && ev.requestCode == PERMISSION_REQUEST_LOCATION && |ev.grantResults| != 1
         then 1 else 0)
  }

  /**
   * The presenter is started once per applied filter dialog and never otherwise: neither a
   * permission result (granted or not) nor the map hand-off starts a search.
   */
  lemma {:induction false} StartsOnlyOnAppliedFilter(evs: seq<Event>)
    ensures multiset(Replay(evs).effects)[PresenterStart] == multiset(evs)[FilterDialogClose(true)]
    decreases |evs|
  {
    if evs != [] {
      var init, ev := evs[..|evs| - 1], evs[|evs| - 1];
      StartsOnlyOnAppliedFilter(init);
      assert evs == init + [ev];
      StartsOfEvent(Replay(init).promptShowing, ev);
    }
  }

  lemma StartsOfEvent(promptShowing: bool, ev: Event)
    ensures multiset(EventEffects(promptShowing, ev))[PresenterStart] ==
              if ev == FilterDialogClose(true) then 1 else 0
  {
  }

  /** The denial notice is shown exactly once per result with the location code and a grant array not of length one. */
  lemma {:induction false} DeniedNoticeCount(evs: seq<Event>)
    ensures multiset(Replay(evs).effects)[DeniedNotice] == DenialResults(evs)
    decreases |evs|
  {
    if evs != [] {
      var init, ev := evs[..|evs| - 1], evs[|evs| - 1];
      DeniedNoticeCount(init);
      match ev
      case PermissionRequested(rationale) =>
        assert DeniedNotice !in PermissionRequestEffects(rationale);
      case MapItemClicked(extent) =>
        assert DeniedNotice !in ShowMapEffects(extent);
      case _ =>
    }
  }

  /**
   * A permission result, granted or not, in any session: it leaves the prompt as it was and adds
   * at most the denial notice, so it never starts a search and never issues a request.
   */
  lemma ResultStartsNoSearch(evs: seq<Event>, requestCode: int, permissions: seq<string>, grantResults: seq<int>)
    ensures var before := Replay(evs);
            var after := Replay(evs + [PermissionsResult(requestCode, permissions, grantResults)]);
            after.promptShowing == before.promptShowing &&
            |before.effects| <= |after.effects| && after.effects[..|before.effects|] == before.effects &&
            (forall e :: e in after.effects[|before.effects|..] ==> e == DeniedNotice) &&
            multiset(after.effects)[PresenterStart] == multiset(before.effects)[PresenterStart]
  {
    ReplaySnoc(evs, PermissionsResult(requestCode, permissions, grantResults));
  }

  /** Every permission request the activity issues is the fine-location request with code 0. */
  lemma {:induction false} OnlyLocationRequests(evs: seq<Event>)
    ensures forall e :: e in Replay(evs).effects && e.RequestPermissions? ==> e == LocationRequest
    decreases |evs|
  {
    if evs != [] {
      OnlyLocationRequests(evs[..|evs| - 1]);
    }
  }

  /** One rationale prompt per requestLocationPermission call that was told a rationale is due. */
  lemma {:induction false} PromptsFollowRationale(evs: seq<Event>)
    ensures multiset(Replay(evs).effects)[RationalePrompt] == multiset(evs)[PermissionRequested(true)]
    decreases |evs|
  {
    if evs != [] {
      var init, ev := evs[..|evs| - 1], evs[|evs| - 1];
      PromptsFollowRationale(init);
      assert evs == init + [ev];
      PromptsOfEvent(Replay(init).promptShowing, ev);
    }
  }

  lemma PromptsOfEvent(promptShowing: bool, ev: Event)
    ensures multiset(EventEffects(promptShowing, ev))[RationalePrompt] ==
              if ev == PermissionRequested(true) then 1 else 0
  {
  }

  /**
   * Each requestLocationPermission call leads to at most one request: one at once without a
   * rationale, or one later from its prompt's OK action (a prompt still showing has not yet
   * spent its request). Every call without a rationale issues its request.
   */
  lemma {:induction false} RequestsPerCall(evs: seq<Event>)
    ensures var s := Replay(evs);
            multiset(evs)[PermissionRequested(false)] <= multiset(s.effects)[LocationRequest] &&
            multiset(s.effects)[LocationRequest] + (if s.promptShowing then 1 else 0)
              <= multiset(evs)[PermissionRequested(false)] + multiset(evs)[PermissionRequested(true)]
    decreases |evs|
  {
    if evs != [] {
      var init, ev := evs[..|evs| - 1], evs[|evs| - 1];
      RequestsPerCall(init);
      assert evs == init + [ev];
      RequestsOfEvent(Replay(init).promptShowing, ev);
    }
  }

  lemma RequestsOfEvent(promptShowing: bool, ev: Event)
    ensures multiset(EventEffects(promptShowing, ev))[LocationRequest] ==
              if ev == PermissionRequested(false) || (ev == RationaleOkClicked && promptShowing) then 1 else 0
  {
  }

  /**
   * PlacesActivity. `promptShowing` and `effects` are what the platform has observed; the ghost
   * `events` is every callback delivered so far, and Valid() says the two agree with Replay.
   */
  class PlacesActivity {
    var promptShowing: bool
    var effects: seq<Effect>
    ghost var events: seq<Event>

    ghost predicate Valid()
      reads this
    {
      Replay(events) == Session(promptShowing, effects)
    }

    /** A freshly created activity, before requestLocationPermission runs. */
    constructor ()
      ensures Valid() && events == [] && effects == [] && !promptShowing
    {
      promptShowing := false;
      effects := [];
      events := [];
    }

    method RequestLocationPermission(shouldShowRationale: bool)
      requires Valid()
      modifies this
      ensures Valid() && events == old(events) + [PermissionRequested(shouldShowRationale)]
      ensures effects == old(effects) + PermissionRequestEffects(shouldShowRationale)
      ensures promptShowing == (old(promptShowing) || shouldShowRationale)
    {
      ReplaySnoc(events, PermissionRequested(shouldShowRationale));
      if shouldShowRationale {
        effects := effects + [RationalePrompt];
        promptShowing := true;
      } else {
        effects := effects + [LocationRequest];
      }
      events := events + [PermissionRequested(shouldShowRationale)];
    }

    /** The OK action of the rationale prompt. */
    method OnRationaleOk()
      requires Valid() && promptShowing
      modifies this
      ensures Valid() && events == old(events) + [RationaleOkClicked]
      ensures effects == old(effects) + [LocationRequest] && !promptShowing
    {
      ReplaySnoc(events, RationaleOkClicked);
      effects := effects + [LocationRequest];
      promptShowing := false;
      events := events + [RationaleOkClicked];
    }

    method OnRequestPermissionsResult(requestCode: int, permissions: seq<string>, grantResults: seq<int>)
      requires Valid()
      modifies this
      ensures Valid() && events == old(events) + [PermissionsResult(requestCode, permissions, grantResults)]
      ensures effects == old(effects) + PermissionsResultEffects(requestCode, permissions, grantResults)
      ensures promptShowing == old(promptShowing)
    {
      ReplaySnoc(events, PermissionsResult(requestCode, permissions, grantResults));
      if requestCode == PERMISSION_REQUEST_LOCATION {
        if |grantResults| != 1 {
          effects := effects + [DeniedNotice];
        }
      }
      events := events + [PermissionsResult(requestCode, permissions, grantResults)];
    }

    method OnFilterDialogClose(applyFilter: bool)
      requires Valid()
      modifies this
      ensures Valid() && events == old(events) + [FilterDialogClose(applyFilter)]
      ensures effects == old(effects) + FilterDialogCloseEffects(applyFilter)
      ensures promptShowing == old(promptShowing)
    {
      ReplaySnoc(events, FilterDialogClose(applyFilter));
      if applyFilter {
        effects := effects + [PresenterStart];
      }
      events := events + [FilterDialogClose(applyFilter)];
    }

    /** createMapIntent: the extras are filled in one putExtra at a time. */
    static method CreateMapIntent(envelope: Option<Envelope>) returns (intent: Intent)
      ensures intent == MapIntent(envelope)
    {
      intent := Intent(MAP_ACTIVITY, map[]);
      if envelope.Some? {
        var e := envelope.value;
        intent := intent.(extras := intent.extras["MIN_X" := DoubleExtra(e.xMin)]);
        intent := intent.(extras := intent.extras["MIN_Y" := DoubleExtra(e.yMin)]);
        intent := intent.(extras := intent.extras["MAX_X" := DoubleExtra(e.xMax)]);
        intent := intent.(extras := intent.extras["MAX_Y" := DoubleExtra(e.yMax)]);
        intent := intent.(extras := intent.extras["SR" := StringExtra(e.spatialReference.wkText)]);
      }
    }

    /** showMap, given what the presenter's getExtentForNearbyPlaces returns. */
    method ShowMap(presenterExtent: Option<Envelope>)
      requires Valid()
      modifies this
      ensures Valid() && events == old(events) + [MapItemClicked(presenterExtent)]
      ensures effects == old(effects) + ShowMapEffects(presenterExtent)
      ensures promptShowing == old(promptShowing)
    {
      ReplaySnoc(events, MapItemClicked(presenterExtent));
      effects := effects + [GetExtent];
      var intent := CreateMapIntent(presenterExtent);
      effects := effects + [StartActivity(intent)];
      events := events + [MapItemClicked(presenterExtent)];
    }
  }
}
