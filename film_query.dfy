/**
 * The film query: one predicate per given filter parameter, folded with `Predicate::and`
 * from the always-true predicate, applied with `Stream.filter`, then a stable sort on the
 * chosen getter and an optional `Stream.limit`.
 *
 * Parameter values are parsed inside each predicate, once per film that reaches it, so a
 * malformed number only fails the query when some film's evaluation gets that far.
 */
module FilmQuery {
  import opened Wrappers
  import opened JavaStrings
  import opened JavaIntegers
  import opened Models
  import opened FilmSort
  import opened OscarConstants

  /** The request parameters, each name mapped to its (first) value. */
  type Parameters = map<string, string>

  /** The exceptions that escape the query uncaught. */
  datatype Failure =
    | NumberFormat     // Integer.parseInt rejected a film attribute or a parameter value
    | IllegalArgument  // Stream.limit was given a negative size

  type Outcome<T> = Result<T, Failure>

  /** `value != null && !value.isEmpty()`: the parameter contributes a filter. */
  predicate Given(params: Parameters, name: string) {
    name in params && |params[name]| > 0
  }

  /** The eight filters, one per filtering parameter. */
  datatype FilterKind =
    | TitleEquals | YearEquals | YearAtLeast | YearAtMost
    | AwardsAtLeast | AwardsAtMost | NominationsEquals | BestPictureEquals

  /** A filter together with the raw, unparsed parameter value it compares against. */
  datatype Filter = Filter(kind: FilterKind, argument: string)

  function ParamName(kind: FilterKind): string {
    match kind
    case TitleEquals => TITLE
    case YearEquals => YEAR
    case YearAtLeast => MIN_YEAR
    case YearAtMost => MAX_YEAR
    case AwardsAtLeast => MIN_AWARDS
    case AwardsAtMost => MAX_AWARDS
    case NominationsEquals => NOMINATIONS
    case BestPictureEquals => IS_BEST_PICTURE
  }

  /** The order in which the parameters are consulted, and so the order of the predicates. */
  const FilterOrder: seq<FilterKind> := [
    TitleEquals, YearEquals, YearAtLeast, YearAtMost,
    AwardsAtLeast, AwardsAtMost, NominationsEquals, BestPictureEquals]

  /** The position of a kind in `FilterOrder`. */
  function Rank(kind: FilterKind): (r: nat)
    ensures r < |FilterOrder| && FilterOrder[r] == kind
  {
    match kind
    case TitleEquals => 0
    case YearEquals => 1
    case YearAtLeast => 2
    case YearAtMost => 3
    case AwardsAtLeast => 4
    case AwardsAtMost => 5
    case NominationsEquals => 6
    case BestPictureEquals => 7
  }

  /** The filter one kind contributes: one if its parameter is given, none otherwise. */
  function FilterIfGiven(kind: FilterKind, params: Parameters): seq<Filter> {
    var name := ParamName(kind);
    if Given(params, name) then [Filter(kind, params[name])] else []
  }

  /** One filter for each of `kinds` whose parameter is given, in the order of `kinds`. */
  function FiltersFor(kinds: seq<FilterKind>, params: Parameters): seq<Filter> {
    if kinds == [] then [] else FilterIfGiven(kinds[0], params) + FiltersFor(kinds[1..], params)
  }

  /** The filters the first `n` kinds of `FilterOrder` contribute, collected front to back. */
  function FiltersUpTo(n: nat, params: Parameters): seq<Filter>
    requires n <= |FilterOrder|
  {
    if n == 0 then [] else FiltersUpTo(n - 1, params) + FilterIfGiven(FilterOrder[n - 1], params)
  }

  /** Consulting one more kind at the end adds its filter, if any, at the end. */
  lemma {:induction false} FiltersForSnoc(kinds: seq<FilterKind>, kind: FilterKind, params: Parameters)
    ensures FiltersFor(kinds + [kind], params) == FiltersFor(kinds, params) + FilterIfGiven(kind, params)
  {
    if kinds == [] {
      assert [] + [kind] == [kind];
    } else {
      var here := FilterIfGiven(kinds[0], params);
      calc {
        FiltersFor(kinds + [kind], params);
        == { assert (kinds + [kind])[0] == kinds[0] && (kinds + [kind])[1..] == kinds[1..] + [kind]; }
        here + FiltersFor(kinds[1..] + [kind], params);
        == { FiltersForSnoc(kinds[1..], kind, params); }
        here + (FiltersFor(kinds[1..], params) + FilterIfGiven(kind, params));
        == (here + FiltersFor(kinds[1..], params)) + FilterIfGiven(kind, params);
      }
    }
  }

  /** The filters of the first `n` kinds, collected front to back. */
  lemma {:induction false} FiltersUpToPrefix(n: nat, params: Parameters)
    requires n <= |FilterOrder|
    ensures FiltersUpTo(n, params) == FiltersFor(FilterOrder[..n], params)
  {
    if n > 0 {
      FiltersUpToPrefix(n - 1, params);
      assert FilterOrder[..n] == FilterOrder[..n - 1] + [FilterOrder[n - 1]];
      FiltersForSnoc(FilterOrder[..n - 1], FilterOrder[n - 1], params);
    }
  }

  /** Collecting the filters front to back yields the predicate list of a non-empty request. */
  lemma ParamFiltersInOrder(params: Parameters)
    requires |params| > 0
    ensures ParamFilters(params) == FiltersUpTo(|FilterOrder|, params)
  {
    FiltersUpToPrefix(|FilterOrder|, params);
    assert FilterOrder[..|FilterOrder|] == FilterOrder;
  }

  /** The predicate list a request yields; a request without parameters yields none. */
  function ParamFilters(params: Parameters): seq<Filter> {
    if |params| == 0 then [] else FiltersFor(FilterOrder, params)
  }

  // ---------------------------------------------------------------------------------------
  // Evaluating one filter on one film

  /** `Integer.parseInt` succeeds. */
  predicate Parses(s: string) {
    ParseInt(s).Some?
  }

  function IntOf(s: string): int
    requires Parses(s)
  {
    ParseInt(s).value
  }

  /** The comparison a numeric filter makes between the film's value and the parameter's. */
  datatype Relation = Equal | AtLeast | AtMost

  /**
   * `Integer.parseInt(field) REL Integer.parseInt(argument)`, evaluated left to right;
   * either parse may throw.
   */
  function CompareParsed(field: string, argument: string, rel: Relation): Outcome<bool> {
    match ParseInt(field)
    case None => Err(NumberFormat)
    case Some(a) =>
      match ParseInt(argument)
      case None => Err(NumberFormat)
      case Some(b) =>
        Ok(match rel
           case Equal => a == b
           case AtLeast => a >= b
           case AtMost => a <= b)
  }

  /** The lambda each parameter contributes, applied to one film. */
  function Evaluate(filter: Filter, film: FilmRecord): Outcome<bool> {
    match filter.kind
    case TitleEquals => Ok(EqualsIgnoreCase(film.title, filter.argument))
    case YearEquals => CompareParsed(film.year, filter.argument, Equal)
    case YearAtLeast => CompareParsed(film.year, filter.argument, AtLeast)
    case YearAtMost => CompareParsed(film.year, filter.argument, AtMost)
    case AwardsAtLeast => CompareParsed(film.awards, filter.argument, AtLeast)
    case AwardsAtMost => CompareParsed(film.awards, filter.argument, AtMost)
    case NominationsEquals => CompareParsed(film.nominations, filter.argument, Equal)
    case BestPictureEquals => Ok(ParseBoolean(film.isBestPicture) == ParseBoolean(filter.argument))
  }

  /**
   * What each parameter asks of a film, stated on the values: case-insensitive title
   * equality, integer equality or inclusive bounds on the parsed numbers (which must parse),
   * and equality of the parsed best-picture flags.
   */
  ghost predicate Accepts(kind: FilterKind, argument: string, film: FilmRecord) {
    match kind
    case TitleEquals => EqualsIgnoreCase(film.title, argument)
    case YearEquals => Parses(film.year) && Parses(argument) && IntOf(film.year) == IntOf(argument)
    case YearAtLeast => Parses(film.year) && Parses(argument) && IntOf(film.year) >= IntOf(argument)
    case YearAtMost => Parses(film.year) && Parses(argument) && IntOf(film.year) <= IntOf(argument)
    case AwardsAtLeast => Parses(film.awards) && Parses(argument) && IntOf(film.awards) >= IntOf(argument)
    case AwardsAtMost => Parses(film.awards) && Parses(argument) && IntOf(film.awards) <= IntOf(argument)
    case NominationsEquals =>
      Parses(film.nominations) && Parses(argument) && IntOf(film.nominations) == IntOf(argument)
    case BestPictureEquals => ParseBoolean(film.isBestPicture) == ParseBoolean(argument)
  }

  /** The film attribute a numeric filter parses; none for the title and best-picture filters. */
  function NumericField(kind: FilterKind, film: FilmRecord): Option<string> {
    match kind
    case TitleEquals => None
    case YearEquals | YearAtLeast | YearAtMost => Some(film.year)
    case AwardsAtLeast | AwardsAtMost => Some(film.awards)
    case NominationsEquals => Some(film.nominations)
    case BestPictureEquals => None
  }

  /**
   * A filter returns the truth of `Accepts`, or throws `NumberFormatException` exactly when
   * it is numeric and the film's attribute or the parameter value is not an `int`.
   */
  lemma EvaluateMeaning(filter: Filter, film: FilmRecord)
    ensures Evaluate(filter, film).Ok? ==>
              (Evaluate(filter, film).value <==> Accepts(filter.kind, filter.argument, film))
    ensures Evaluate(filter, film).Err? <==>
              NumericField(filter.kind, film).Some?
              && !(Parses(NumericField(filter.kind, film).value) && Parses(filter.argument))
    ensures Evaluate(filter, film).Err? ==> Evaluate(filter, film) == Err(NumberFormat)
  {
  }

  // ---------------------------------------------------------------------------------------
  // Composing the filters

  /** A composed `java.util.function.Predicate<Film>`. */
  datatype Predicate =
    | Always                              // x -> true
    | Test(filter: Filter)                // one parameter's lambda
    | And(left: Predicate, right: Predicate)  // left.and(right)

  /** `filters.stream().reduce(x -> true, Predicate::and)`: a left fold. */
  function Reduce(filters: seq<Filter>): Predicate {
    if filters == [] then Always
    else And(Reduce(filters[..|filters| - 1]), Test(filters[|filters| - 1]))
  }

  /** `p.test(film)`; `and` does not evaluate its right operand once the left is false. */
  function Apply(p: Predicate, film: FilmRecord): Outcome<bool> {
    match p
    case Always => Ok(true)
    case Test(f) => Evaluate(f, film)
    case And(l, r) =>
      match Apply(l, film)
      case Err(e) => Err(e)
      case Ok(b) => if b then Apply(r, film) else Ok(false)
  }

  /** Every filter accepts the film. */
  predicate AllAccept(filters: seq<Filter>, film: FilmRecord) {
    forall i :: 0 <= i < |filters| ==> Evaluate(filters[i], film) == Ok(true)
  }

  /** Filter `i` throws on the film after every filter before it accepted. */
  predicate FailsAt(filters: seq<Filter>, film: FilmRecord, i: int) {
    0 <= i < |filters| && Evaluate(filters[i], film).Err?
    && forall j :: 0 <= j < i ==> Evaluate(filters[j], film) == Ok(true)
  }

  /**
   * The folded predicate is the short-circuit conjunction of the filters in list order: it
   * holds when all of them accept, and it throws exactly when some filter throws after all
   * earlier ones accepted; a filter after a rejecting one is never evaluated.
   */
  lemma {:induction false} ReduceIsConjunction(filters: seq<Filter>, film: FilmRecord)
    ensures Apply(Reduce(filters), film) == Ok(true) <==> AllAccept(filters, film)
    ensures Apply(Reduce(filters), film).Err? ==> exists i :: FailsAt(filters, film, i)
    ensures (exists i :: FailsAt(filters, film, i)) ==> Apply(Reduce(filters), film).Err?
    ensures Apply(Reduce(filters), film).Err? ==> Apply(Reduce(filters), film) == Err(NumberFormat)
  {
    if filters != [] {
      var init, last := filters[..|filters| - 1], filters[|filters| - 1];
      ReduceIsConjunction(init, film);
      EvaluateMeaning(last, film);
      assert forall i :: 0 <= i < |init| ==> filters[i] == init[i];
      var r := Apply(Reduce(filters), film);
      assert Reduce(filters) == And(Reduce(init), Test(last));
      assert filters[|init|] == last;
      if r.Err? {
        if Apply(Reduce(init), film).Err? {
          var i :| FailsAt(init, film, i);
          assert FailsAt(filters, film, i);
        } else {
          assert Apply(Reduce(init), film) == Ok(true);
          assert AllAccept(init, film);
          assert r == Apply(Test(last), film) == Evaluate(last, film);
          assert FailsAt(filters, film, |init|);
        }
      }
      if exists i :: FailsAt(filters, film, i) {
        var i :| FailsAt(filters, film, i);
        if i < |init| {
          assert FailsAt(init, film, i);
        } else {
          assert AllAccept(init, film);
        }
      }
    }
  }

  /** The film meets what every given filtering parameter asks of it. */
  ghost predicate Matches(params: Parameters, film: FilmRecord) {
    forall kind :: Given(params, ParamName(kind)) ==> Accepts(kind, params[ParamName(kind)], film)
  }

  /** Every given numeric parameter, and the film attribute it is compared with, is an `int`. */
  ghost predicate NumbersParse(params: Parameters, film: FilmRecord) {
    forall kind :: Given(params, ParamName(kind)) && NumericField(kind, film).Some? ==>
      Parses(NumericField(kind, film).value) && Parses(params[ParamName(kind)])
  }

  /** Each filter collected for `kinds` belongs to one of them and carries its parameter's value. */
  lemma {:induction false} FiltersForMembers(kinds: seq<FilterKind>, params: Parameters)
    ensures forall f :: f in FiltersFor(kinds, params) ==>
              f.kind in kinds && Given(params, ParamName(f.kind)) && f.argument == params[ParamName(f.kind)]
  {
    if kinds != [] {
      FiltersForMembers(kinds[1..], params);
    }
  }

  /** Every kind of `kinds` whose parameter is given contributes its filter. */
  lemma {:induction false} FiltersForComplete(kinds: seq<FilterKind>, params: Parameters)
    ensures forall kind :: kind in kinds && Given(params, ParamName(kind)) ==>
              Filter(kind, params[ParamName(kind)]) in FiltersFor(kinds, params)
  {
    if kinds != [] {
      FiltersForComplete(kinds[1..], params);
      forall kind | kind in kinds && Given(params, ParamName(kind))
        ensures Filter(kind, params[ParamName(kind)]) in FiltersFor(kinds, params)
      {
        if kind != kinds[0] {
          assert kind in kinds[1..];
        }
      }
    }
  }

  /** Filters are collected in the order of `kinds`. */
  lemma {:induction false} FiltersForOrdered(kinds: seq<FilterKind>, params: Parameters)
    requires forall i, j :: 0 <= i < j < |kinds| ==> Rank(kinds[i]) < Rank(kinds[j])
    ensures forall i, j :: 0 <= i < j < |FiltersFor(kinds, params)| ==>
              Rank(FiltersFor(kinds, params)[i].kind) < Rank(FiltersFor(kinds, params)[j].kind)
  {
    if kinds != [] {
      var rest := FiltersFor(kinds[1..], params);
      forall i, j | 0 <= i < j < |kinds[1..]| ensures Rank(kinds[1..][i]) < Rank(kinds[1..][j]) {
        assert kinds[1..][i] == kinds[i + 1] && kinds[1..][j] == kinds[j + 1];
      }
      FiltersForOrdered(kinds[1..], params);
      FiltersForMembers(kinds[1..], params);
      forall f | f in rest ensures Rank(kinds[0]) < Rank(f.kind) {
        var m :| 0 <= m < |kinds[1..]| && kinds[1..][m] == f.kind;
        assert kinds[m + 1] == f.kind;
      }
      if Given(params, ParamName(kinds[0])) {
        ConsOrdered(Filter(kinds[0], params[ParamName(kinds[0])]), rest);
      }
    }
  }

  /** A filter ranked before every filter of an ordered list can go in front of it. */
  lemma ConsOrdered(h: Filter, rest: seq<Filter>)
    requires forall f :: f in rest ==> Rank(h.kind) < Rank(f.kind)
    requires forall i, j :: 0 <= i < j < |rest| ==> Rank(rest[i].kind) < Rank(rest[j].kind)
    ensures forall i, j :: 0 <= i < j < |[h] + rest| ==> Rank(([h] + rest)[i].kind) < Rank(([h] + rest)[j].kind)
  {
    var all := [h] + rest;
    forall i, j | 0 <= i < j < |all| ensures Rank(all[i].kind) < Rank(all[j].kind) {
      assert all[j] == rest[j - 1] && all[j] in rest;
      if i > 0 {
        assert all[i] == rest[i - 1];
      }
    }
  }

  /**
   * The request yields exactly one filter per given filtering parameter, carrying that
   * parameter's value, in the fixed order title, year, minYear, maxYear, minAwards, maxAwards,
   * nominations, isBestPicture; absent and empty parameters yield none.
   */
  lemma ParamFiltersSpec(params: Parameters)
    ensures forall f :: f in ParamFilters(params) ==>
              Given(params, ParamName(f.kind)) && f.argument == params[ParamName(f.kind)]
    ensures forall kind :: Given(params, ParamName(kind)) ==>
              Filter(kind, params[ParamName(kind)]) in ParamFilters(params)
    ensures forall i, j :: 0 <= i < j < |ParamFilters(params)| ==>
              Rank(ParamFilters(params)[i].kind) < Rank(ParamFilters(params)[j].kind)
  {
    FiltersForMembers(FilterOrder, params);
    FiltersForComplete(FilterOrder, params);
    FiltersForOrdered(FilterOrder, params);
    forall kind | Given(params, ParamName(kind)) ensures kind in FilterOrder && |params| > 0 {
      assert FilterOrder[Rank(kind)] == kind;
      assert ParamName(kind) in params;
    }
  }

  /** The first filter that does not accept the film. */
  lemma {:induction false} FirstRefusal(filters: seq<Filter>, film: FilmRecord) returns (i: nat)
    requires !AllAccept(filters, film)
    ensures i < |filters| && Evaluate(filters[i], film) != Ok(true)
    ensures forall j :: 0 <= j < i ==> Evaluate(filters[j], film) == Ok(true)
  {
    var init := filters[..|filters| - 1];
    assert forall j :: 0 <= j < |init| ==> filters[j] == init[j];
    if AllAccept(init, film) {
      i := |init|;
    } else {
      i := FirstRefusal(init, film);
    }
  }

  /** When the composed predicate holds, the film meets every given parameter. */
  lemma AcceptedFilmsMatch(params: Parameters, film: FilmRecord)
    requires Apply(Reduce(ParamFilters(params)), film) == Ok(true)
    ensures Matches(params, film)
  {
    var fs := ParamFilters(params);
    ParamFiltersSpec(params);
    ReduceIsConjunction(fs, film);
    forall kind | Given(params, ParamName(kind))
      ensures Accepts(kind, params[ParamName(kind)], film)
    {
      var f := Filter(kind, params[ParamName(kind)]);
      var i :| 0 <= i < |fs| && fs[i] == f;
      EvaluateMeaning(f, film);
    }
  }

  /** When the composed predicate is false, some given parameter rejects the film. */
  lemma RejectedFilmsDoNotMatch(params: Parameters, film: FilmRecord)
    requires Apply(Reduce(ParamFilters(params)), film) == Ok(false)
    ensures !Matches(params, film)
  {
    var fs := ParamFilters(params);
    ParamFiltersSpec(params);
    ReduceIsConjunction(fs, film);
    // the first filter that does not accept must reject: throwing would fail the fold
    var i := FirstRefusal(fs, film);
    assert !FailsAt(fs, film, i);
    EvaluateMeaning(fs[i], film);
    assert fs[i] in fs;
  }

  /** The composed predicate cannot throw when every number it could parse is an `int`. */
  lemma ParsableFilmsDoNotFail(params: Parameters, film: FilmRecord)
    requires NumbersParse(params, film)
    ensures Apply(Reduce(ParamFilters(params)), film).Ok?
  {
    var fs := ParamFilters(params);
    ParamFiltersSpec(params);
    ReduceIsConjunction(fs, film);
    if Apply(Reduce(fs), film).Err? {
      var i :| FailsAt(fs, film, i);
      assert fs[i] in fs;
      EvaluateMeaning(fs[i], film);
    }
  }

  // ---------------------------------------------------------------------------------------
  // The stream pipeline

  /** `Stream.filter(p)` collected: the films `p` accepts, in order; the first throw escapes. */
  function FilterFilms(films: seq<FilmRecord>, p: Predicate): Outcome<seq<FilmRecord>> {
    if films == [] then Ok([])
    else
      match Apply(p, films[0])
      case Err(e) => Err(e)
      case Ok(keep) =>
        match FilterFilms(films[1..], p)
        case Err(e) => Err(e)
        case Ok(rest) => Ok(if keep then [films[0]] + rest else rest)
  }

  /** The films that meet the request, in loaded order. */
  ghost function MatchingFilms(films: seq<FilmRecord>, params: Parameters): seq<FilmRecord> {
    if films == [] then []
    else (if Matches(params, films[0]) then [films[0]] else []) + MatchingFilms(films[1..], params)
  }

  /**
   * Filtering by the request's composed predicate throws exactly when the predicate throws on
   * some loaded film, and otherwise keeps exactly the films that meet the request, in order.
   */
  lemma {:induction false} FilteringKeepsMatches(films: seq<FilmRecord>, params: Parameters)
    ensures FilterFilms(films, Reduce(ParamFilters(params))).Err? ==>
              exists i :: 0 <= i < |films| && Apply(Reduce(ParamFilters(params)), films[i]).Err?
    ensures (exists i :: 0 <= i < |films| && Apply(Reduce(ParamFilters(params)), films[i]).Err?) ==>
              FilterFilms(films, Reduce(ParamFilters(params))).Err?
    ensures FilterFilms(films, Reduce(ParamFilters(params))).Err? ==>
              FilterFilms(films, Reduce(ParamFilters(params))) == Err(NumberFormat)
    ensures FilterFilms(films, Reduce(ParamFilters(params))).Ok? ==>
              FilterFilms(films, Reduce(ParamFilters(params))).value == MatchingFilms(films, params)
  {
    var p := Reduce(ParamFilters(params));
    if films != [] {
      FilteringKeepsMatches(films[1..], params);
      ReduceIsConjunction(ParamFilters(params), films[0]);
      match Apply(p, films[0])
      case Err(_) =>
      case Ok(keep) =>
        if keep {
          AcceptedFilmsMatch(params, films[0]);
        } else {
          RejectedFilmsDoNotMatch(params, films[0]);
        }
        if exists i :: 0 <= i < |films| && Apply(p, films[i]).Err? {
          var i :| 0 <= i < |films| && Apply(p, films[i]).Err?;
          assert films[1..][i - 1] == films[i];
        }
        if FilterFilms(films[1..], p).Err? {
          var i :| 0 <= i < |films[1..]| && Apply(p, films[1..][i]).Err?;
          assert films[1..][i] == films[i + 1];
        }
    }
  }

  /**
   * `getSortComparator`: the getter named by `sortBy`, ignoring case, among year, awards and
   * nominations; the title getter for any other, empty or absent value.
   */
  function SortKeyOf(params: Parameters): SortKey {
    if |params| > 0 && Given(params, SORT_BY) then
      var sortBy := params[SORT_BY];
      if EqualsIgnoreCase(sortBy, YEAR) then ByYear
      else if EqualsIgnoreCase(sortBy, AWARDS) then ByAwards
      else if EqualsIgnoreCase(sortBy, NOMINATIONS) then ByNominations
      else ByTitle
    else ByTitle
  }

  /** `StringUtils.isNotBlank(limit)`: a limit is applied. */
  predicate HasLimit(params: Parameters) {
    LIMIT in params && !IsBlank(params[LIMIT])
  }

  /** `Stream.limit(n)` for `n >= 0`: the first `n` elements, or all of them if fewer. */
  function Take(s: seq<FilmRecord>, n: nat): seq<FilmRecord> {
    if n < |s| then s[..n] else s
  }

  /** `filter` then `sorted`. */
  function FilterAndSort(films: seq<FilmRecord>, params: Parameters): Outcome<seq<FilmRecord>> {
    match FilterFilms(films, Reduce(ParamFilters(params)))
    case Err(e) => Err(e)
    case Ok(kept) => Ok(SortBy(kept, SortKeyOf(params)))
  }

  /**
   * The whole query over the loaded films. The limit is parsed, and rejected when negative,
   * before the terminal operation runs, so those failures come before any filter's.
   */
  function Query(films: seq<FilmRecord>, params: Parameters): Outcome<seq<FilmRecord>> {
    if HasLimit(params) then
      match ParseInt(params[LIMIT])
      case None => Err(NumberFormat)
      case Some(n) =>
        if n < 0 then Err(IllegalArgument)
        else
          match FilterAndSort(films, params)
          case Err(e) => Err(e)
          case Ok(sorted) => Ok(Take(sorted, n))
    else FilterAndSort(films, params)
  }

  // ---------------------------------------------------------------------------------------
  // Properties of the query

  lemma {:induction false} MatchingFilmsMembers(films: seq<FilmRecord>, params: Parameters)
    ensures forall x :: x in MatchingFilms(films, params) <==> x in films && Matches(params, x)
  {
    if films != [] {
      MatchingFilmsMembers(films[1..], params);
      assert films == [films[0]] + films[1..];
    }
  }

  /** The matches of two collections one after the other are their matches one after the other. */
  lemma {:induction false} MatchingFilmsAppend(a: seq<FilmRecord>, b: seq<FilmRecord>, params: Parameters)
    ensures MatchingFilms(a + b, params) == MatchingFilms(a, params) + MatchingFilms(b, params)
  {
    if a == [] {
      assert a + b == b;
    } else {
      var head := if Matches(params, a[0]) then [a[0]] else [];
      calc {
        MatchingFilms(a + b, params);
        == { assert (a + b)[0] == a[0] && (a + b)[1..] == a[1..] + b; }
        head + MatchingFilms(a[1..] + b, params);
        == { MatchingFilmsAppend(a[1..], b, params); }
        head + (MatchingFilms(a[1..], params) + MatchingFilms(b, params));
        == (head + MatchingFilms(a[1..], params)) + MatchingFilms(b, params);
      }
    }
  }

  /**
   * Without a limit, a query that succeeds returns a permutation of exactly the loaded films
   * that meet every given parameter, ascending under `compareTo` of the sort key, with films
   * of equal key in loaded order; that sequence is `SortBy` of the matches.
   */
  lemma QueryResultUnlimited(films: seq<FilmRecord>, params: Parameters)
    requires !HasLimit(params)
    ensures Query(films, params).Ok? ==>
              Query(films, params).value == SortBy(MatchingFilms(films, params), SortKeyOf(params))
    ensures Query(films, params).Ok? ==>
              multiset(Query(films, params).value) == multiset(MatchingFilms(films, params))
    ensures Query(films, params).Ok? ==>
              forall x :: x in Query(films, params).value <==> x in films && Matches(params, x)
    ensures Query(films, params).Ok? ==> SortedOn(Query(films, params).value, SortKeyOf(params))
    ensures Query(films, params).Ok? ==>
              forall k :: WithKey(Query(films, params).value, SortKeyOf(params), k)
                          == WithKey(MatchingFilms(films, params), SortKeyOf(params), k)
  {
    FilteringKeepsMatches(films, params);
    SortByCorrect(MatchingFilms(films, params), SortKeyOf(params));
    MatchingFilmsMembers(films, params);
    if Query(films, params).Ok? {
      var r := Query(films, params).value;
      forall x ensures x in r <==> x in films && Matches(params, x) {
        assert x in r <==> x in multiset(r);
      }
    }
  }

  /** A blank or absent limit, or a non-negative one: the query reaches the terminal operation. */
  predicate LimitAccepted(params: Parameters) {
    !HasLimit(params) || (ParseInt(params[LIMIT]).Some? && ParseInt(params[LIMIT]).value >= 0)
  }

  /**
   * The query fails with `NumberFormatException` when a non-blank limit is not an `int`, with
   * `IllegalArgumentException` when it is negative, and otherwise exactly when the composed
   * predicate throws on some loaded film; it fails in no other way.
   */
  lemma QueryFailures(films: seq<FilmRecord>, params: Parameters)
    ensures HasLimit(params) && !Parses(params[LIMIT]) ==> Query(films, params) == Err(NumberFormat)
    ensures HasLimit(params) && Parses(params[LIMIT]) && IntOf(params[LIMIT]) < 0 ==>
              Query(films, params) == Err(IllegalArgument)
    ensures LimitAccepted(params) && Query(films, params).Err? ==>
              Query(films, params) == Err(NumberFormat)
              && exists i :: 0 <= i < |films| && Apply(Reduce(ParamFilters(params)), films[i]).Err?
    ensures LimitAccepted(params)
            && (exists i :: 0 <= i < |films| && Apply(Reduce(ParamFilters(params)), films[i]).Err?) ==>
              Query(films, params).Err?
  {
    FilteringKeepsMatches(films, params);
  }

  /** A query that gives no filtering parameter keeps every loaded film and cannot throw in the filter. */
  lemma NoFiltersKeepAll(films: seq<FilmRecord>, params: Parameters)
    requires forall kind :: !Given(params, ParamName(kind))
    ensures ParamFilters(params) == [] && Reduce(ParamFilters(params)) == Always
    ensures MatchingFilms(films, params) == films
    ensures !HasLimit(params) ==> Query(films, params) == Ok(SortBy(films, SortKeyOf(params)))
  {
    ParamFiltersSpec(params);
    forall x ensures Matches(params, x) {
    }
    MatchesEverything(films, params);
    FilteringKeepsMatches(films, params);
    forall i | 0 <= i < |films| ensures Apply(Reduce(ParamFilters(params)), films[i]).Ok? {
    }
  }

  lemma {:induction false} MatchesEverything(films: seq<FilmRecord>, params: Parameters)
    requires forall x :: Matches(params, x)
    ensures MatchingFilms(films, params) == films
  {
    if films != [] {
      MatchesEverything(films[1..], params);
      assert films == [films[0]] + films[1..];
    }
  }

  /**
   * A non-negative limit `n` cuts the unlimited result to its first `min(n, length)` films:
   * none for `n = 0`, all of them when `n` is at least their number. It fails exactly when
   * the same request with a blank limit fails.
   */
  lemma QueryLimit(films: seq<FilmRecord>, params: Parameters, n: nat)
    requires LIMIT in params && Parses(params[LIMIT]) && IntOf(params[LIMIT]) == n
    ensures Query(films, params).Ok? <==> Query(films, params[LIMIT := ""]).Ok?
    ensures Query(films, params).Ok? ==>
              var all := Query(films, params[LIMIT := ""]).value;
              var r := Query(films, params).value;
              |r| == (if n < |all| then n else |all|)
              && r == all[..|r|]
              && (n == 0 ==> r == [])
              && (n >= |all| ==> r == all)
  {
    var blank := params[LIMIT := ""];
    var limit := params[LIMIT];
    if limit[0] != '-' && limit[0] != '+' {
      assert AllDigits(limit);
      assert IsDigit(limit[0]);
    }
    assert !IsWhitespace(limit[0]);
    assert !HasLimit(blank);
    SameQueryParameters(params, blank);
  }

  /** Two requests that agree on every filtering parameter and on `sortBy` filter and sort alike. */
  lemma SameQueryParameters(p1: Parameters, p2: Parameters)
    requires |p1| > 0 && |p2| > 0
    requires forall kind :: (ParamName(kind) in p1 <==> ParamName(kind) in p2)
    requires forall kind :: ParamName(kind) in p1 ==> p1[ParamName(kind)] == p2[ParamName(kind)]
    requires (SORT_BY in p1 <==> SORT_BY in p2) && (SORT_BY in p1 ==> p1[SORT_BY] == p2[SORT_BY])
    ensures ParamFilters(p1) == ParamFilters(p2) && SortKeyOf(p1) == SortKeyOf(p2)
  {
    SameFilters(FilterOrder, p1, p2);
  }

  lemma {:induction false} SameFilters(kinds: seq<FilterKind>, p1: Parameters, p2: Parameters)
    requires forall kind :: (ParamName(kind) in p1 <==> ParamName(kind) in p2)
    requires forall kind :: ParamName(kind) in p1 ==> p1[ParamName(kind)] == p2[ParamName(kind)]
    ensures FiltersFor(kinds, p1) == FiltersFor(kinds, p2)
  {
    if kinds != [] {
      SameFilters(kinds[1..], p1, p2);
    }
  }

  /**
   * `sortBy` is matched ignoring case: "year", "awards" and "nominations" select their getter,
   * and every other value, empty or absent, selects the title.
   */
  lemma SortKeyChoice(params: Parameters)
    ensures SortKeyOf(params) == ByYear <==> Given(params, SORT_BY) && Lowered(params[SORT_BY]) == "year"
    ensures SortKeyOf(params) == ByAwards <==> Given(params, SORT_BY) && Lowered(params[SORT_BY]) == "awards"
    ensures SortKeyOf(params) == ByNominations <==>
              Given(params, SORT_BY) && Lowered(params[SORT_BY]) == "nominations"
    ensures SortKeyOf(params) == ByTitle <==>
              !Given(params, SORT_BY) || Lowered(params[SORT_BY]) !in {"year", "awards", "nominations"}
  {
    if Given(params, SORT_BY) {
      var sortBy := params[SORT_BY];
      assert |params| > 0 by {
        assert SORT_BY in params.Keys;
      }
      assert Lowered(YEAR) == "year";
      assert Lowered(AWARDS) == "awards";
      assert Lowered(NOMINATIONS) == "nominations";
      EqualsIgnoreCaseIsLowerEquality(sortBy, YEAR);
      EqualsIgnoreCaseIsLowerEquality(sortBy, AWARDS);
      EqualsIgnoreCaseIsLowerEquality(sortBy, NOMINATIONS);
    }
  }

  /** Numeric attributes are ordered as text: a film with "10" awards sorts before one with "9". */
  lemma NumbersSortAsText(a: FilmRecord, b: FilmRecord)
    requires a.awards == "10" && b.awards == "9"
    ensures SortBy([b, a], ByAwards) == [a, b]
  {
    assert [b, a][..1] == [b];
    assert SortBy([b], ByAwards) == [b] by {
      assert [b][..0] == [];
    }
    assert CompareTo(b.awards, a.awards) > 0;
  }

  /** Filter `j` rejects the film and every filter before it accepts: the fold yields false. */
  lemma RejectedAt(filters: seq<Filter>, film: FilmRecord, j: nat)
    requires j < |filters| && Evaluate(filters[j], film) == Ok(false)
    requires forall i :: 0 <= i < j ==> Evaluate(filters[i], film) == Ok(true)
    ensures Apply(Reduce(filters), film) == Ok(false)
  {
    ReduceIsConjunction(filters, film);
  }

  /**
   * Parameters are parsed lazily: when the title matches no loaded film, the query succeeds
   * with no films even if a numeric parameter cannot be parsed, because the title predicate
   * comes first and `and` does not evaluate the rest.
   */
  lemma EarlierRejectionHidesMalformedFilter(films: seq<FilmRecord>, params: Parameters)
    requires LimitAccepted(params) && Given(params, TITLE)
    requires forall i :: 0 <= i < |films| ==> !EqualsIgnoreCase(films[i].title, params[TITLE])
    ensures Query(films, params) == Ok([])
  {
    var filters := ParamFilters(params);
    ParamFiltersSpec(params);
    assert Filter(TitleEquals, params[TITLE]) in filters;
    var t :| 0 <= t < |filters| && filters[t] == Filter(TitleEquals, params[TITLE]);
    var first := filters[0];
    assert t == 0;
    forall i | 0 <= i < |films| ensures Apply(Reduce(filters), films[i]) == Ok(false) {
      RejectedAt(filters, films[i], 0);
    }
    FilteringKeepsMatches(films, params);
    forall i | 0 <= i < |films| ensures !Matches(params, films[i]) {
      assert !Accepts(TitleEquals, params[TITLE], films[i]);
    }
    NoneMatch(films, params);
  }

  lemma {:induction false} NoneMatch(films: seq<FilmRecord>, params: Parameters)
    requires forall i :: 0 <= i < |films| ==> !Matches(params, films[i])
    ensures MatchingFilms(films, params) == []
  {
    if films != [] {
      NoneMatch(films[1..], params);
    }
  }

  /**
   * A malformed year bound fails the query as soon as one loaded film reaches it: here no
   * other filter is given, so every film does.
   */
  lemma MalformedFilterFailsWhenReached(films: seq<FilmRecord>, params: Parameters)
    requires LimitAccepted(params) && |films| > 0
    requires Given(params, MIN_YEAR) && !Parses(params[MIN_YEAR])
    requires forall kind :: kind != YearAtLeast ==> !Given(params, ParamName(kind))
    ensures Query(films, params) == Err(NumberFormat)
  {
    var filters := ParamFilters(params);
    ParamFiltersSpec(params);
    assert Given(params, ParamName(YearAtLeast));
    assert Filter(YearAtLeast, params[MIN_YEAR]) in filters;
    assert filters[0] in filters;
    assert filters[0] == Filter(YearAtLeast, params[MIN_YEAR]);
    assert FailsAt(filters, films[0], 0);
    ReduceIsConjunction(filters, films[0]);
    QueryFailures(films, params);
  }

  lemma {:induction false} MatchingFilmsNarrow(films: seq<FilmRecord>, p1: Parameters, p2: Parameters)
    requires forall x :: Matches(p2, x) ==> Matches(p1, x)
    ensures multiset(MatchingFilms(films, p2)) <= multiset(MatchingFilms(films, p1))
  {
    if films != [] {
      MatchingFilmsNarrow(films[1..], p1, p2);
    }
  }

  /**
   * Giving one more filter parameter never adds films: when both queries succeed, the
   * narrower result is a sub-multiset of the wider one, and both are sorted on the same key.
   */
  lemma AddingFilterNarrows(films: seq<FilmRecord>, params: Parameters, kind: FilterKind, value: string)
    requires !HasLimit(params) && !Given(params, ParamName(kind))
    ensures SortKeyOf(params[ParamName(kind) := value]) == SortKeyOf(params)
    ensures Query(films, params).Ok? && Query(films, params[ParamName(kind) := value]).Ok? ==>
              multiset(Query(films, params[ParamName(kind) := value]).value)
              <= multiset(Query(films, params).value)
  {
    var narrow := params[ParamName(kind) := value];
    var key := SortKeyOf(params);
    assert !HasLimit(narrow);
    SortKeyUnchanged(params, kind, value);
    NarrowerMatches(params, kind, value);
    MatchingFilmsNarrow(films, params, narrow);
    FilteringKeepsMatches(films, params);
    FilteringKeepsMatches(films, narrow);
    SortByPermutes(MatchingFilms(films, params), key);
    SortByPermutes(MatchingFilms(films, narrow), key);
  }

  /** A filtering parameter is not `sortBy`, so giving one leaves the sort key as it was. */
  lemma SortKeyUnchanged(params: Parameters, kind: FilterKind, value: string)
    ensures SortKeyOf(params[ParamName(kind) := value]) == SortKeyOf(params)
  {
    var narrow := params[ParamName(kind) := value];
    assert ParamName(kind) != SORT_BY;
    assert |narrow| > 0 by {
      assert ParamName(kind) in narrow.Keys;
    }
    if |params| == 0 {
      assert narrow.Keys == {ParamName(kind)};
    }
  }

  /** A film that meets the request with one more filtering parameter meets it without. */
  lemma NarrowerMatches(params: Parameters, kind: FilterKind, value: string)
    requires !Given(params, ParamName(kind))
    ensures forall x :: Matches(params[ParamName(kind) := value], x) ==> Matches(params, x)
  {
    var narrow := params[ParamName(kind) := value];
    forall x | Matches(narrow, x) ensures Matches(params, x) {
      forall k | Given(params, ParamName(k)) ensures Accepts(k, params[ParamName(k)], x) {
        assert Given(narrow, ParamName(k));
      }
    }
  }

}
