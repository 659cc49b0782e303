/** What the cache-aside employee lookup guarantees, proved about `HandleOutcome`, the
    function the handler's `Handle` method is verified against. */
module GetEmployeeProperties {
  import opened Wrappers
  import opened Strings
  import opened Sequences
  import opened EmployeeStore
  import opened GetEmployee

  /** Distinct national ID numbers never share a cache entry. */
  lemma CacheKeyInjective(a: string, b: string)
    ensures CacheKey(a) == CacheKey(b) <==> a == b
  {
    if CacheKey(a) == CacheKey(b) {
      assert a == CacheKey(a)[|EmployeeIdCachePrefix|..];
    }
  }

  /** The mapping copies every field, so distinct rows give distinct responses and a
      response carries its row's national ID number. */
  lemma ToGetEmployeeResponseFaithful(a: Employee, b: Employee)
    ensures ToGetEmployeeResponse(a) == ToGetEmployeeResponse(b) <==> a == b
    ensures ToGetEmployeeResponse(a).nationalIdNumber == a.nationalIdNumber
    ensures ToGetEmployeeResponse(a).businessEntityId == a.businessEntityId
  {
  }

  /** A usable cached response is returned as it is, without consulting the repository and
      without touching the cache. */
  lemma HitShortCircuits(entries: map<string, string>, rows: seq<Employee>, json: JsonCodec, nationalIdNumber: string)
    requires ReadCache(entries, CacheKey(nationalIdNumber), json).Hit?
    ensures var o := HandleOutcome(entries, rows, json, nationalIdNumber);
      && o.result == Success(Some(ReadCache(entries, CacheKey(nationalIdNumber), json).response))
      && o.cache == entries
      && !o.queriedRepository
  {
  }

  /** An entry that is blank, that deserializes to null, or whose deserialization raises a
      serialization exception is a miss: the handler queries the repository and answers as
      if the entry were not there. */
  lemma {:induction false} UnusableEntryIsMiss(entries: map<string, string>, rows: seq<Employee>, json: JsonCodec, nationalIdNumber: string)
    requires CacheKey(nationalIdNumber) in entries
    requires var text := entries[CacheKey(nationalIdNumber)];
      IsBlank(text) || json.deserialize(text) == Success(None) || json.deserialize(text) == Failure(SerializationFailure)
    ensures var o := HandleOutcome(entries, rows, json, nationalIdNumber);
      var absent := HandleOutcome(entries - {CacheKey(nationalIdNumber)}, rows, json, nationalIdNumber);
      && o.queriedRepository
      && o.result == absent.result
      && o.cache == (if o.result == Success(None) then entries else absent.cache)
  {
    var key := CacheKey(nationalIdNumber);
    assert ReadCache(entries, key, json) == Miss;
    assert ReadCache(entries - {key}, key, json) == Miss;
    var o := HandleOutcome(entries, rows, json, nationalIdNumber);
    var absent := HandleOutcome(entries - {key}, rows, json, nationalIdNumber);
    if o.result != Success(None) {
      assert (entries - {key})[key := o.cache[key]] == entries[key := o.cache[key]];
    }
  }

  /** The handler answers null exactly when the cache misses and no row has the number; a
      null answer queried the repository and left the cache as it was. */
  lemma {:induction false} NegativeResultNotCached(entries: map<string, string>, rows: seq<Employee>, json: JsonCodec, nationalIdNumber: string)
    ensures var o := HandleOutcome(entries, rows, json, nationalIdNumber);
      && (o.result == Success(None) <==>
            ReadCache(entries, CacheKey(nationalIdNumber), json) == Miss
            && forall i :: 0 <= i < |rows| ==> !HasId(nationalIdNumber)(rows[i]))
      && (o.result == Success(None) ==> o.cache == entries && o.queriedRepository)
  {
    FirstOfFilter(rows, HasId(nationalIdNumber));
  }

  /** On a miss with a matching row, the first matching row is mapped, stored under the key
      (replacing whatever was there) and returned; no other key changes. */
  lemma {:induction false} FoundResponseIsCached(entries: map<string, string>, rows: seq<Employee>, json: JsonCodec, nationalIdNumber: string, i: int)
    requires ReadCache(entries, CacheKey(nationalIdNumber), json) == Miss
    requires IsFirstMatch(rows, HasId(nationalIdNumber), i)
    ensures var o := HandleOutcome(entries, rows, json, nationalIdNumber);
      var response := ToGetEmployeeResponse(rows[i]);
      && o.result == Success(Some(response))
      && o.cache == entries[CacheKey(nationalIdNumber) := json.serialize(response)]
      && o.queriedRepository
      && response.nationalIdNumber == nationalIdNumber
  {
    FirstOfFilter(rows, HasId(nationalIdNumber));
  }

  /** The only failure the handler lets through is a non-serialization JSON exception from
      the cached text; it leaves the cache alone and does not query the repository. */
  lemma OnlyReaderFailuresEscape(entries: map<string, string>, rows: seq<Employee>, json: JsonCodec, nationalIdNumber: string)
    ensures var o := HandleOutcome(entries, rows, json, nationalIdNumber);
      o.result.Failure? ==>
        && o.result.error == ReaderFailure
        && ReadCache(entries, CacheKey(nationalIdNumber), json) == Threw(ReaderFailure)
        && o.cache == entries
        && !o.queriedRepository
  {
  }

  /** Every usable entry under a number's key holds the response for that number. */
  ghost predicate KeysConsistent(entries: map<string, string>, json: JsonCodec) {
    forall n :: ReadCache(entries, CacheKey(n), json).Hit? ==> ReadCache(entries, CacheKey(n), json).response.nationalIdNumber == n
  }

  lemma EmptyCacheKeysConsistent(json: JsonCodec)
    ensures KeysConsistent(map[], json)
  {
  }

  /** Handling a query keeps every cached response under its own number's key. */
  lemma {:induction false} HandlePreservesKeysConsistent(entries: map<string, string>, rows: seq<Employee>, json: JsonCodec, nationalIdNumber: string)
    requires RoundTrips(json)
    requires KeysConsistent(entries, json)
    ensures KeysConsistent(HandleOutcome(entries, rows, json, nationalIdNumber).cache, json)
  {
    var o := HandleOutcome(entries, rows, json, nationalIdNumber);
    if o.cache != entries {
      var key := CacheKey(nationalIdNumber);
      var response := o.result.value.value;
      assert o.cache == entries[key := json.serialize(response)];
      assert response.nationalIdNumber == nationalIdNumber by {
        var first := FirstOrDefault(Matching(rows, nationalIdNumber)).value;
        assert first in Matching(rows, nationalIdNumber);
      }
      forall n | ReadCache(o.cache, CacheKey(n), json).Hit?
        ensures ReadCache(o.cache, CacheKey(n), json).response.nationalIdNumber == n
      {
        CacheKeyInjective(n, nationalIdNumber);
        if CacheKey(n) != key {
          assert ReadCache(o.cache, CacheKey(n), json) == ReadCache(entries, CacheKey(n), json);
        }
      }
    }
  }

  /** While the cache keeps every response under its own key, whatever the handler answers
      is the employee with the queried number. */
  lemma {:induction false} AnswerHasQueriedId(entries: map<string, string>, rows: seq<Employee>, json: JsonCodec, nationalIdNumber: string)
    requires KeysConsistent(entries, json)
    ensures var o := HandleOutcome(entries, rows, json, nationalIdNumber);
      o.result.Success? && o.result.value.Some? ==> o.result.value.value.nationalIdNumber == nationalIdNumber
  {
    var o := HandleOutcome(entries, rows, json, nationalIdNumber);
    if o.queriedRepository && o.result.Success? && o.result.value.Some? {
      var first := FirstOrDefault(Matching(rows, nationalIdNumber)).value;
      assert first in Matching(rows, nationalIdNumber);
    }
  }

  /** After a successful read, a second read of the same number (whatever the table holds by
      then) answers the same response from the cache, leaves the cache as it is and does
      not query the repository. */
  lemma {:induction false} SecondReadServedFromCache(entries: map<string, string>, rows: seq<Employee>, laterRows: seq<Employee>, json: JsonCodec, nationalIdNumber: string)
    requires RoundTrips(json)
    requires var o := HandleOutcome(entries, rows, json, nationalIdNumber); o.result.Success? && o.result.value.Some?
    ensures var first := HandleOutcome(entries, rows, json, nationalIdNumber);
      var second := HandleOutcome(first.cache, laterRows, json, nationalIdNumber);
      && second.result == first.result
      && second.cache == first.cache
      && !second.queriedRepository
  {
    var first := HandleOutcome(entries, rows, json, nationalIdNumber);
    var key := CacheKey(nationalIdNumber);
    if first.queriedRepository {
      var response := first.result.value.value;
      assert first.cache[key] == json.serialize(response);
      assert ReadCache(first.cache, key, json) == Hit(response);
    }
  }

  /** A null answer changes nothing, so reading the same missing number again queries the
      repository again and answers null again. */
  lemma {:induction false} NegativeReadRepeats(entries: map<string, string>, rows: seq<Employee>, json: JsonCodec, nationalIdNumber: string)
    requires HandleOutcome(entries, rows, json, nationalIdNumber).result == Success(None)
    ensures var first := HandleOutcome(entries, rows, json, nationalIdNumber);
      var second := HandleOutcome(first.cache, rows, json, nationalIdNumber);
      second == first && second.queriedRepository
  {
    NegativeResultNotCached(entries, rows, json, nationalIdNumber);
  }

  /** Reading an existing number into an empty cache creates exactly its entry; reading it
      again is answered from that entry. */
  lemma {:induction false} ExistingEmployeeScenario(e: Employee, json: JsonCodec)
    requires RoundTrips(json)
    requires e.nationalIdNumber == "14417807"
    ensures var first := HandleOutcome(map[], [e], json, "14417807");
      && first.result == Success(Some(ToGetEmployeeResponse(e)))
      && first.cache.Keys == {"NationalIDNumber14417807"}
      && var second := HandleOutcome(first.cache, [e], json, "14417807");
         second.result == first.result && !second.queriedRepository
  {
    assert IsFirstMatch([e], HasId("14417807"), 0);
    assert CacheKey("14417807") == "NationalIDNumber14417807";
    FoundResponseIsCached(map[], [e], json, "14417807", 0);
    SecondReadServedFromCache(map[], [e], [e], json, "14417807");
  }

  /** Reading a number no row has into an empty cache answers null and creates no entry. */
  lemma MissingEmployeeScenario(json: JsonCodec)
    ensures HandleOutcome(map[], [], json, "nonexistent") == Outcome(Success(None), map[], true)
  {
  }

  /** Blank numbers are refused before dispatch; a present number is accepted, and the
      endpoint maps null to 404 and a response to 200. */
  lemma EndpointExamples(response: GetEmployeeResponse)
    ensures Validate(GetEmployeeQuery("")) != []
    ensures Validate(GetEmployeeQuery(" \t")) != []
    ensures Validate(GetEmployeeQuery("14417807")) == []
    ensures ResultFor(Success(None)) == NotFound
    ensures ResultFor(Success(Some(response))) == Ok(response)
  {
    assert !IsBlank("14417807") by { assert !IsWhiteSpace("14417807"[0]); }
    assert IsBlank(" \t") by { assert IsWhiteSpace(" \t"[0]) && IsWhiteSpace(" \t"[1]); }
  }
}
