/**
 * The servlet that serves the film query. It keeps the films it has read in a list field that
 * every request appends to; the request's resource children and parameters are arguments.
 */
module Servlets {
  import opened Wrappers
  import opened JavaIntegers
  import opened Models
  import opened FilmSort
  import opened OscarConstants
  import opened FilmQuery

  /** Every film in the list has all six attributes. */
  predicate AllComplete(films: seq<Film>)
    reads films
  {
    forall i :: 0 <= i < |films| ==> films[i].Complete()
  }

  /** What the getters of each film return now, in list order. */
  function Records(films: seq<Film>): (r: seq<FilmRecord>)
    reads films
    requires AllComplete(films)
    ensures |r| == |films|
    ensures forall i :: 0 <= i < |films| ==> r[i] == films[i].Record()
  {
    if films == [] then [] else Records(films[..|films| - 1]) + [films[|films| - 1].Record()]
  }

  /**
   * Because the list is never cleared, a second request for the same resource on the same
   * servlet sees every film twice: without a limit, it fails exactly when the first one does,
   * and otherwise returns each film of the first answer twice.
   */
  lemma RepeatedRequestDoublesResult(films: seq<FilmRecord>, params: Parameters)
    requires !HasLimit(params)
    ensures Query(films + films, params).Ok? <==> Query(films, params).Ok?
    ensures Query(films, params).Ok? ==>
              multiset(Query(films + films, params).value)
              == multiset(Query(films, params).value) + multiset(Query(films, params).value)
  {
    var p := Reduce(ParamFilters(params));
    var key := SortKeyOf(params);
    FilteringKeepsMatches(films, params);
    FilteringKeepsMatches(films + films, params);
    if exists i :: 0 <= i < |films + films| && Apply(p, (films + films)[i]).Err? {
      var i :| 0 <= i < |films + films| && Apply(p, (films + films)[i]).Err?;
      var j := if i < |films| then i else i - |films|;
      assert (films + films)[i] == films[j];
    }
    if exists i :: 0 <= i < |films| && Apply(p, films[i]).Err? {
      var i :| 0 <= i < |films| && Apply(p, films[i]).Err?;
      assert (films + films)[i] == films[i];
    }
    MatchingFilmsAppend(films, films, params);
    SortByPermutes(MatchingFilms(films, params), key);
    SortByPermutes(MatchingFilms(films + films, params), key);
  }

  class OscarFilmContainerServlet {
    /** The films read so far, over all requests served by this instance. */
    var oscarFilmList: seq<Film>

    constructor ()
      ensures oscarFilmList == []
    {
      oscarFilmList := [];
    }

    /** Appends each child film of the request's resource, in child order. */
    method RetrieveFilmsFromResource(children: seq<Film>)
      modifies this
      ensures oscarFilmList == old(oscarFilmList) + children
    {
      for i := 0 to |children|
        invariant oscarFilmList == old(oscarFilmList) + children[..i]
      {
        oscarFilmList := oscarFilmList + [children[i]];
      }
    }

    /** One filter per given parameter, in the order the parameters are consulted. */
    method AddParamFilters(params: Parameters) returns (paramPredicates: seq<Filter>)
      ensures paramPredicates == ParamFilters(params)
    {
      paramPredicates := [];
      if |params| > 0 {
        if Given(params, TITLE) {
          paramPredicates := paramPredicates + [Filter(TitleEquals, params[TITLE])];
        }
        assert paramPredicates == FiltersUpTo(1, params);
        if Given(params, YEAR) {
          paramPredicates := paramPredicates + [Filter(YearEquals, params[YEAR])];
        }
        assert paramPredicates == FiltersUpTo(2, params);
        if Given(params, MIN_YEAR) {
          paramPredicates := paramPredicates + [Filter(YearAtLeast, params[MIN_YEAR])];
        }
        assert paramPredicates == FiltersUpTo(3, params);
        if Given(params, MAX_YEAR) {
          paramPredicates := paramPredicates + [Filter(YearAtMost, params[MAX_YEAR])];
        }
        assert paramPredicates == FiltersUpTo(4, params);
        if Given(params, MIN_AWARDS) {
          paramPredicates := paramPredicates + [Filter(AwardsAtLeast, params[MIN_AWARDS])];
        }
        assert paramPredicates == FiltersUpTo(5, params);
        if Given(params, MAX_AWARDS) {
          paramPredicates := paramPredicates + [Filter(AwardsAtMost, params[MAX_AWARDS])];
        }
        assert paramPredicates == FiltersUpTo(6, params);
        if Given(params, NOMINATIONS) {
          paramPredicates := paramPredicates + [Filter(NominationsEquals, params[NOMINATIONS])];
        }
        assert paramPredicates == FiltersUpTo(7, params);
        if Given(params, IS_BEST_PICTURE) {
          paramPredicates := paramPredicates + [Filter(BestPictureEquals, params[IS_BEST_PICTURE])];
        }
        assert paramPredicates == FiltersUpTo(8, params);
        ParamFiltersInOrder(params);
      }
    }

    /**
     * A GET request: the resource's children are appended to the list, then the query runs
     * over the whole list, earlier requests' films included. An `Err` is an exception that
     * escapes the request.
     */
    method DoGet(children: seq<Film>, params: Parameters) returns (result: Outcome<seq<FilmRecord>>)
      requires AllComplete(oscarFilmList) && AllComplete(children)
      modifies this
      ensures oscarFilmList == old(oscarFilmList) + children
      ensures AllComplete(oscarFilmList)
      ensures result == Query(Records(oscarFilmList), params)
    {
      RetrieveFilmsFromResource(children);
      assert AllComplete(oscarFilmList) by {
        forall i | 0 <= i < |oscarFilmList| ensures oscarFilmList[i].Complete() {
          if i >= |old(oscarFilmList)| {
            assert oscarFilmList[i] == children[i - |old(oscarFilmList)|];
          }
        }
      }
      var films := Records(oscarFilmList);
      var paramPredicates := AddParamFilters(params);
      var key := SortKeyOf(params);
      var limit := if HasLimit(params) then Some(params[LIMIT]) else None;
      var n: nat := |films|;
      if limit.Some? {
        match ParseInt(limit.value)
        case None =>
          return Err(NumberFormat);
        case Some(v) =>
          if v < 0 {
            return Err(IllegalArgument);
          }
          n := v;
      }
      match FilterFilms(films, Reduce(paramPredicates))
      case Err(e) =>
        result := Err(e);
      case Ok(kept) =>
        var sorted := SortBy(kept, key);
        if limit.Some? {
          result := Ok(Take(sorted, n));
        } else {
          result := Ok(sorted);
        }
    }
  }
}
