/** The get-employee use case: a cache-aside query handler in front of the employee table,
    and the HTTP endpoint that validates the request and maps the handler's answer. */
module GetEmployee {
  import opened Wrappers
  import opened Strings
  import opened ValueTypes
  import opened Sequences
  import opened EmployeeStore

  datatype GetEmployeeQuery = GetEmployeeQuery(nationalIdNumber: string)

  /** The response: the same fifteen fields as the employee row. */
  datatype GetEmployeeResponse = GetEmployeeResponse(
    businessEntityId: Int32,
    nationalIdNumber: string,
    loginId: string,
    organizationLevel: Option<Int16>,
    jobTitle: string,
    birthDate: DateOnly,
    maritalStatus: string,
    gender: string,
    hireDate: DateOnly,
    salariedFlag: bool,
    vacationHours: Int16,
    sickLeaveHours: Int16,
    currentFlag: bool,
    rowguid: Guid,
    modifiedDate: DateTime)

  // ---------------------------------------------------------------------------------------
  // Cache keys and the response mapping
  // ---------------------------------------------------------------------------------------

  const EmployeeIdCachePrefix: string := "NationalIDNumber"

  /** The cache key of a national ID number: the prefix, then the number. */
  function CacheKey(nationalIdNumber: string): (key: string)
    ensures |key| == |EmployeeIdCachePrefix| + |nationalIdNumber|
    ensures key[..|EmployeeIdCachePrefix|] == EmployeeIdCachePrefix
    ensures key[|EmployeeIdCachePrefix|..] == nationalIdNumber
  {
    EmployeeIdCachePrefix + nationalIdNumber
  }

  /** The response for an employee row, field by field. */
  function ToGetEmployeeResponse(e: Employee): (r: GetEmployeeResponse)
    ensures r.nationalIdNumber == e.nationalIdNumber && r.businessEntityId == e.businessEntityId
  {
    GetEmployeeResponse(
      businessEntityId := e.businessEntityId,
      nationalIdNumber := e.nationalIdNumber,
      loginId := e.loginId,
      organizationLevel := e.organizationLevel,
      jobTitle := e.jobTitle,
      birthDate := e.birthDate,
      maritalStatus := e.maritalStatus,
      gender := e.gender,
      hireDate := e.hireDate,
      salariedFlag := e.salariedFlag,
      vacationHours := e.vacationHours,
      sickLeaveHours := e.sickLeaveHours,
      currentFlag := e.currentFlag,
      rowguid := e.rowguid,
      modifiedDate := e.modifiedDate)
  }

  // ---------------------------------------------------------------------------------------
  // JSON, kept abstract
  // ---------------------------------------------------------------------------------------

  /** The two kinds of JSON failure that matter here: a `JsonSerializationException`, which
      the handler catches, and any other JSON exception (a reader error on malformed text),
      which it lets through. */
  datatype JsonFailure = SerializationFailure | ReaderFailure

  /** Serialization of a response and deserialization of cached text; deserializing may
      yield null (`None`) or fail. */
  datatype JsonCodec = JsonCodec(
    serialize: GetEmployeeResponse -> string,
    deserialize: string -> Result<Option<GetEmployeeResponse>, JsonFailure>)

  /** Serializing writes a JSON object, which is never blank, and reading it back gives the
      same response. */
  ghost predicate RoundTrips(json: JsonCodec) {
    forall r :: !IsBlank(json.serialize(r)) && json.deserialize(json.serialize(r)) == Success(Some(r))
  }

  // ---------------------------------------------------------------------------------------
  // The handler, as functions of the state it reads
  // ---------------------------------------------------------------------------------------

  /** What a cache read yields: a usable response, a miss, or an exception the handler does
      not catch. */
  datatype CacheRead = Hit(response: GetEmployeeResponse) | Miss | Threw(failure: JsonFailure)

  /** The cache read: a missing entry, a blank entry, text that deserializes to null and text
      whose deserialization raises a serialization exception are all misses. */
  function ReadCache(entries: map<string, string>, key: string, json: JsonCodec): (r: CacheRead)
    ensures r.Hit? <==> key in entries && !IsBlank(entries[key]) && json.deserialize(entries[key]).Success?
                        && json.deserialize(entries[key]).value.Some?
    ensures r.Hit? ==> json.deserialize(entries[key]) == Success(Some(r.response))
    ensures r.Threw? <==> key in entries && !IsBlank(entries[key]) && json.deserialize(entries[key]) == Failure(ReaderFailure)
    ensures r.Threw? ==> r.failure == ReaderFailure
  {
    if key !in entries || IsBlank(entries[key]) then Miss
    else
      match json.deserialize(entries[key])
      case Success(Some(response)) => Hit(response)
      case Success(None) => Miss
      case Failure(SerializationFailure) => Miss
      case Failure(ReaderFailure) => Threw(ReaderFailure)
  }

  /** The repository predicate the handler queries with: the row has the queried number. */
  function HasId(nationalIdNumber: string): Employee -> bool {
    (e: Employee) => e.nationalIdNumber == nationalIdNumber
  }

  /** The employee rows whose national ID number is `nationalIdNumber`, in table order. */
  function Matching(rows: seq<Employee>, nationalIdNumber: string): seq<Employee> {
    Filter(rows, HasId(nationalIdNumber))
  }

  /** What one call of the handler does: its result, the cache afterwards, and whether it
      queried the repository. */
  datatype Outcome = Outcome(
    result: Result<Option<GetEmployeeResponse>, JsonFailure>,
    cache: map<string, string>,
    queriedRepository: bool)

  function HandleOutcome(entries: map<string, string>, rows: seq<Employee>, json: JsonCodec, nationalIdNumber: string): (o: Outcome)
    ensures o.cache == entries
         || (CacheKey(nationalIdNumber) in o.cache && o.cache == entries[CacheKey(nationalIdNumber) := o.cache[CacheKey(nationalIdNumber)]])
  {
    var key := CacheKey(nationalIdNumber);
    match ReadCache(entries, key, json)
    case Hit(response) => Outcome(Success(Some(response)), entries, false)
    case Threw(failure) => Outcome(Failure(failure), entries, false)
    case Miss =>
      match FirstOrDefault(Matching(rows, nationalIdNumber))
      case None => Outcome(Success(None), entries, true)
      case Some(employee) =>
        var response := ToGetEmployeeResponse(employee);
        Outcome(Success(Some(response)), entries[key := json.serialize(response)], true)
  }

  // ---------------------------------------------------------------------------------------
  // The handler, as the object the application holds
  // ---------------------------------------------------------------------------------------

  /** The in-memory cache shared by all requests; entries never expire. */
  class MemoryCache {
    var entries: map<string, string>

    constructor ()
      ensures entries == map[]
    {
      entries := map[];
    }

    /** `TryGetValue`: whether the key is present and, if so, its text. */
    method TryGetValue(key: string) returns (found: bool, value: string)
      ensures found <==> key in entries
      ensures found ==> value == entries[key]
    {
      found := key in entries;
      value := if found then entries[key] else "";
    }

    /** `Set`: store `value` under `key`, replacing any earlier value. */
    method Set(key: string, value: string)
      modifies this
      ensures entries == old(entries)[key := value]
    {
      entries := entries[key := value];
    }
  }

  class GetEmployeeQueryHandler {
    const cache: MemoryCache
    const employeeRepo: EmployeeRepository
    const json: JsonCodec

    constructor (cache: MemoryCache, employeeRepo: EmployeeRepository, json: JsonCodec)
      ensures this.cache == cache && this.employeeRepo == employeeRepo && this.json == json
    {
      this.cache := cache;
      this.employeeRepo := employeeRepo;
      this.json := json;
    }

    /** The cached response under `key`, a miss, or the exception deserialization raised. */
    method GetEmployeeResponseFromCache(key: string) returns (r: CacheRead)
      ensures r == ReadCache(cache.entries, key, json)
    {
      var found, cachedResponseJson := cache.TryGetValue(key);
      if !found || IsBlank(cachedResponseJson) {
        return Miss;
      }
      var parsed := json.deserialize(cachedResponseJson);
      match parsed
      case Success(Some(response)) => r := Hit(response);
      case Success(None) => r := Miss;
      case Failure(SerializationFailure) => r := Miss;
      case Failure(ReaderFailure) => r := Threw(ReaderFailure);
    }

    method SetCache(key: string, response: GetEmployeeResponse)
      modifies cache
      ensures cache.entries == old(cache.entries)[key := json.serialize(response)]
    {
      var responseJson := json.serialize(response);
      cache.Set(key, responseJson);
    }

    method Handle(query: GetEmployeeQuery) returns (r: Result<Option<GetEmployeeResponse>, JsonFailure>)
      modifies cache, employeeRepo`queries
      ensures var o := HandleOutcome(old(cache.entries), employeeRepo.rows, json, query.nationalIdNumber);
        && r == o.result
        && cache.entries == o.cache
        && employeeRepo.queries == old(employeeRepo.queries) + (if o.queriedRepository then 1 else 0)
    {
      var cacheKey := CacheKey(query.nationalIdNumber);
      var cached := GetEmployeeResponseFromCache(cacheKey);
      match cached {
        case Hit(response) => return Success(Some(response));
        case Threw(failure) => return Failure(failure);
        case Miss =>
      }
      var employees := employeeRepo.FindAsync(HasId(query.nationalIdNumber));
      var employee := FirstOrDefault(employees);
      if employee.None? {
        return Success(None);
      }
      var response := ToGetEmployeeResponse(employee.value);
      SetCache(cacheKey, response);
      r := Success(Some(response));
    }
  }

  // ---------------------------------------------------------------------------------------
  // The endpoint
  // ---------------------------------------------------------------------------------------

  datatype ValidationFailure = ValidationFailure(propertyName: string, errorMessage: string)

  /** The request validator: the national ID number must not be empty or blank. */
  function Validate(query: GetEmployeeQuery): (errors: seq<ValidationFailure>)
    ensures errors == [] <==> !IsBlank(query.nationalIdNumber)
  {
    if IsBlank(query.nationalIdNumber) then
      [ValidationFailure("NationalIDNumber", "EmployeeId Cannot be null/empty")]
    else []
  }

  datatype EndpointResult =
    | BadRequest(errors: seq<ValidationFailure>)
    | NotFound
    | Ok(response: GetEmployeeResponse)
    | ServerError(failure: JsonFailure)

  /** The HTTP result for what the handler answered: null is "not found", a response is
      "ok", and an exception becomes a server error. */
  function ResultFor(handled: Result<Option<GetEmployeeResponse>, JsonFailure>): (r: EndpointResult)
    ensures r.NotFound? <==> handled == Success(None)
    ensures r.Ok? <==> handled.Success? && handled.value.Some?
    ensures r.Ok? ==> handled.value == Some(r.response)
    ensures !r.BadRequest?
  {
    match handled
    case Success(None) => NotFound
    case Success(Some(response)) => Ok(response)
    case Failure(failure) => ServerError(failure)
  }

  /** `GET /api/employees/{employeeNo}`, dispatched straight to the handler. */
  method GetEmployeeEndpoint(employeeNo: string, handler: GetEmployeeQueryHandler) returns (result: EndpointResult)
    modifies handler.cache, handler.employeeRepo`queries
    ensures var query := GetEmployeeQuery(employeeNo);
      if Validate(query) != [] then
        && result == BadRequest(Validate(query))
        && handler.cache.entries == old(handler.cache.entries)
        && handler.employeeRepo.queries == old(handler.employeeRepo.queries)
      else
        var o := HandleOutcome(old(handler.cache.entries), handler.employeeRepo.rows, handler.json, employeeNo);
        && result == ResultFor(o.result)
        && handler.cache.entries == o.cache
        && handler.employeeRepo.queries == old(handler.employeeRepo.queries) + (if o.queriedRepository then 1 else 0)
  {
    var query := GetEmployeeQuery(employeeNo);
    var errors := Validate(query);
    if errors != [] {
      return BadRequest(errors);
    }
    var response := handler.Handle(query);
    result := ResultFor(response);
  }
}
