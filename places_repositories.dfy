/**
 * The process-wide repository cell of PlacesRepositories.java: a static field that starts
 * out null, is filled by the first getInMemoryRepoInstance call that passes a non-null
 * service API, and is returned unchanged by every later call.
 *
 * The static field becomes the field of one PlacesRepositories object (its constructor is
 * the class initialiser). `synchronized` is modelled by treating every call as atomic and
 * the calls as one sequence. Beside the class, Replay gives the same cell as a pure function
 * of the sequence of arguments; the lemmas about Replay are the properties of any run.
 */
module Repositories {
  import opened Wrappers

  /** The data-source client handed to the cell; opaque, only its identity matters. */
  class PlacesServiceApi {
  }

  /** The repository the cell builds; only the API it was built from is observable here. */
  class InMemoryPlacesRepository {
    const serviceApi: PlacesServiceApi

    constructor (serviceApi: PlacesServiceApi)
      ensures this.serviceApi == serviceApi
    {
      this.serviceApi := serviceApi;
    }
  }

  /** What checkNotNull throws for a null argument. */
  datatype Exception = NullPointerException

  /**
   * One call of getInMemoryRepoInstance, seen from outside: either it threw, or it returned the
   * repository built from `builtFrom`, which it constructed itself iff `constructed`.
   */
  datatype Access = Rejected | Served(builtFrom: PlacesServiceApi, constructed: bool)

  /** The API the cached repository was built from, or None while the cell is still null. */
  type Cache = Option<PlacesServiceApi>

  /** One call against the cell `cached`. */
  function AccessCell(cached: Cache, api: PlacesServiceApi?): (a: Access)
    ensures a == Rejected <==> api == null
    ensures a.Served? ==> (a.constructed <==> cached == None)
    ensures a.Served? && cached.Some? ==> a.builtFrom == cached.value
    ensures a.Served? && cached == None ==> a.builtFrom == api
  {
    if api == null then Rejected
    else if cached == None then Served(api, true)
    else Served(cached.value, false)
  }

  /** The cell after an access: a served call leaves it holding what it returned. */
  function CacheAfter(cached: Cache, a: Access): Cache
  {
    if a.Served? then Some(a.builtFrom) else cached
  }

  datatype CellHistory = CellHistory(cached: Cache, accesses: seq<Access>)

  /** The cell and the outcome of every call after the calls `apis`, starting from the null field. */
  function Replay(apis: seq<PlacesServiceApi?>): CellHistory
    decreases |apis|
  {
    if apis == [] then CellHistory(None, [])
    else
      var h := Replay(apis[..|apis| - 1]);
      var a := AccessCell(h.cached, apis[|apis| - 1]);
      CellHistory(CacheAfter(h.cached, a), h.accesses + [a])
  }

  /** Reference definition: the first non-null API of the sequence, if any. */
  function FirstApi(apis: seq<PlacesServiceApi?>): Cache
  {
    if apis == [] then None
    else if apis[0] != null then Some(apis[0])
    else FirstApi(apis[1..])
  }

  /** Number of accesses that constructed a repository. */
  function Constructions(accesses: seq<Access>): nat
  {
    if accesses == [] then 0
    else Constructions(accesses[..|accesses| - 1])
         + (if accesses[|accesses| - 1].Served? && accesses[|accesses| - 1].constructed then 1 else 0)
  }

  lemma {:induction false} FirstApiSnoc(apis: seq<PlacesServiceApi?>, api: PlacesServiceApi?)
    ensures FirstApi(apis + [api]) ==
              if FirstApi(apis).Some? then FirstApi(apis)
              else if api != null then Some(api) else None
  {
    if apis != [] {
      assert (apis + [api])[1..] == apis[1..] + [api];
      if apis[0] == null {
        FirstApiSnoc(apis[1..], api);
      }
    }
  }

  lemma {:induction false} FirstApiOfPrefix(apis: seq<PlacesServiceApi?>, k: nat)
    requires k <= |apis|
    requires FirstApi(apis[..k]).Some?
    ensures FirstApi(apis) == FirstApi(apis[..k])
  {
    if apis[0] == null {
      assert apis[..k][1..] == apis[1..][..k - 1];
      FirstApiOfPrefix(apis[1..], k - 1);
    }
  }

  /** The cell holds the repository built from the first non-null API ever passed, and is null until then. */
  lemma {:induction false} CacheHoldsFirstApi(apis: seq<PlacesServiceApi?>)
    ensures Replay(apis).cached == FirstApi(apis)
    ensures |Replay(apis).accesses| == |apis|
    decreases |apis|
  {
    if apis != [] {
      var init := apis[..|apis| - 1];
      CacheHoldsFirstApi(init);
      FirstApiSnoc(init, apis[|apis| - 1]);
      assert init + [apis[|apis| - 1]] == apis;
    }
  }

  /** Call i behaves as a call against the cell left by the calls before it. */
  lemma {:induction false} AccessAt(apis: seq<PlacesServiceApi?>, i: nat)
    requires i < |apis|
    ensures |Replay(apis).accesses| == |apis|
    ensures Replay(apis).accesses[i] == AccessCell(FirstApi(apis[..i]), apis[i])
    decreases |apis|
  {
    var init := apis[..|apis| - 1];
    CacheHoldsFirstApi(init);
    CacheHoldsFirstApi(apis);
    if i < |apis| - 1 {
      AccessAt(init, i);
      assert init[..i] == apis[..i];
    } else {
      assert init == apis[..i];
    }
  }

  /** A null argument is rejected, and only a null argument is. */
  lemma NullRejected(apis: seq<PlacesServiceApi?>, i: nat)
    requires i < |apis|
    ensures |Replay(apis).accesses| == |apis|
    ensures Replay(apis).accesses[i] == Rejected <==> apis[i] == null
  {
    AccessAt(apis, i);
  }

  /**
   * Identity stability: every call that returns, returns the repository built from the first
   * non-null API, whatever API it was itself passed.
   */
  lemma ServedIsFirstApi(apis: seq<PlacesServiceApi?>, i: nat)
    requires i < |apis|
    ensures |Replay(apis).accesses| == |apis|
    ensures Replay(apis).accesses[i].Served? ==>
              FirstApi(apis).Some? && Replay(apis).accesses[i].builtFrom == FirstApi(apis).value
  {
    AccessAt(apis, i);
    if apis[i] != null {
      FirstApiSnoc(apis[..i], apis[i]);
      assert apis[..i] + [apis[i]] == apis[..i + 1];
      FirstApiOfPrefix(apis, i + 1);
    }
  }

  /** A repository is constructed on call i iff call i is the first with a non-null API. */
  lemma ConstructedOnlyFirst(apis: seq<PlacesServiceApi?>, i: nat)
    requires i < |apis|
    ensures |Replay(apis).accesses| == |apis|
    ensures Replay(apis).accesses[i].Served? && Replay(apis).accesses[i].constructed <==>
              apis[i] != null && FirstApi(apis[..i]) == None
  {
    AccessAt(apis, i);
  }

  /** At most one repository is ever constructed: exactly one once any non-null API was passed. */
  lemma {:induction false} AtMostOneConstruction(apis: seq<PlacesServiceApi?>)
    ensures Constructions(Replay(apis).accesses) == if FirstApi(apis).Some? then 1 else 0
    decreases |apis|
  {
    if apis != [] {
      var init := apis[..|apis| - 1];
      AtMostOneConstruction(init);
      CacheHoldsFirstApi(init);
      FirstApiSnoc(init, apis[|apis| - 1]);
      assert init + [apis[|apis| - 1]] == apis;
      var accesses := Replay(apis).accesses;
      assert accesses[..|accesses| - 1] == Replay(init).accesses;
    }
  }

  /** Once filled, the cell never changes again: no call writes null or a second repository. */
  lemma NeverEmptied(apis: seq<PlacesServiceApi?>, k: nat)
    requires k <= |apis|
    requires Replay(apis[..k]).cached.Some?
    ensures Replay(apis).cached == Replay(apis[..k]).cached
  {
    CacheHoldsFirstApi(apis[..k]);
    CacheHoldsFirstApi(apis);
    FirstApiOfPrefix(apis, k);
  }

  /**
   * The static state of PlacesRepositories: `repository` is the private static field. The
   * ghost `calls` records the argument of every call made so far.
   */
  class PlacesRepositories {
    var repository: Option<InMemoryPlacesRepository>
    ghost var calls: seq<PlacesServiceApi?>

    /** The API the stored repository was built from. */
    function Cached(): Cache
      reads this
    {
      if repository == None then None else Some(repository.value.serviceApi)
    }

    ghost predicate Valid()
      reads this
    {
      Replay(calls).cached == Cached()
    }

    /** Class initialisation: the field starts out null. */
    constructor ()
      ensures Valid() && repository == None && calls == []
    {
      repository := None;
      calls := [];
    }

    /**
     * getInMemoryRepoInstance: checkNotNull first, then build and store on the first call,
     * then return the stored repository.
     */
    method GetInMemoryRepoInstance(placesServiceApi: PlacesServiceApi?)
      returns (r: Result<InMemoryPlacesRepository, Exception>)
      requires Valid()
      modifies this
      ensures Valid() && calls == old(calls) + [placesServiceApi]
      // a null argument throws before the cell is read or written
      ensures placesServiceApi == null ==>
                r == Failure(NullPointerException) && repository == old(repository)
      // first successful call: a new repository, built from this API, stored and returned
      ensures placesServiceApi != null && old(repository) == None ==>
                r.Success? && fresh(r.value) && r.value.serviceApi == placesServiceApi &&
                repository == Some(r.value)
      // every later call: the identical stored instance, whatever API is passed
      ensures placesServiceApi != null && old(repository).Some? ==>
                r == Success(old(repository).value) && repository == old(repository)
      // the result is the outcome the pure cell gives for this call
      ensures var a := AccessCell(old(Cached()), placesServiceApi);
              (r.Failure? <==> a == Rejected) &&
              (r.Success? ==> r.value.serviceApi == a.builtFrom && (fresh(r.value) <==> a.constructed))
    {
      calls := calls + [placesServiceApi];
      assert calls[..|calls| - 1] == old(calls);
      if placesServiceApi == null {
        return Failure(NullPointerException);
      }
      if repository == None {
        var created := new InMemoryPlacesRepository(placesServiceApi);
        repository := Some(created);
      }
      r := Success(repository.value);
    }
  }
}
