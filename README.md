# Oscar film query, modelled in Dafny

This project models the core of the oscars-challenge Sling servlet. The servlet answers a GET
request on a resource whose children are Oscar-nominated films. It loads each child as a `Film`
model, keeps the films in a list, and builds one `Predicate<Film>` per given filter parameter
(`title`, `year`, `minYear`, `maxYear`, `minAwards`, `maxAwards`, `nominations`,
`isBestPicture`). It folds those predicates with `Predicate::and`, filters the list, and sorts
it by the getter `sortBy` names. An optional `limit` then cuts the result.

Modules:

- `Wrappers`: `Option` and `Result`.
- `JavaStrings`: the parts of `java.lang.String`, `Boolean.parseBoolean` and
  `StringUtils.isBlank` the servlet relies on. This covers ASCII case-insensitive equality,
  `compareTo` and whitespace.
- `JavaIntegers`: `Integer.parseInt` (optional sign, decimal digits, 32-bit range) and
  decimal formatting as its inverse.
- `Models`: the `Film` Sling model as a class with six nullable string attributes
  (`None` is Java `null`), plus `FilmRecord`, the value its six getters return together.
- `FilmSort`: `Comparator.comparing(Film::getX)` and the stable `Stream.sorted`.
- `OscarConstants`: the parameter names.
- `FilmQuery`: the predicates, their fold, `Stream.filter`, the comparator choice and
  `Stream.limit`, as pure functions over the loaded films and the request parameters. An
  uncaught `NumberFormatException` or `IllegalArgumentException` is an `Err`.
- `Servlets`: the servlet as a class whose `oscarFilmList` field every request appends to.
  The resource's children and the request's parameters are method arguments.
- `Scenarios`: the ordering of the second request example in the servlet's documentation.

Where the servlet's documentation comment and its code differ, the model follows the code:

- The documentation types `year`, `awards` and `nominations` as integers, but the comparators
  order them as strings, so "10" comes before "9" (`FilmQuery.NumbersSortAsText`).
- The documentation promises "all the films below the requested container", but the film list
  is a field that is never cleared, so each request also sees the films loaded by earlier
  requests (`Servlets.RepeatedRequestDoublesResult`).
- The documentation asks for "the exact film title", but titles are compared ignoring case
  (`FilmQuery.EvaluateMeaning`).

Other behaviour of the code worth noting:

- The title sort uses `compareTo`, which is case-sensitive: "a" sorts after "Z".
- A parameter value is parsed inside its predicate, once for each film that reaches that
  predicate. A malformed number therefore fails the request only when some film's evaluation
  gets that far (`FilmQuery.EarlierRejectionHidesMalformedFilter` and
  `FilmQuery.MalformedFilterFailsWhenReached`).

## Model

| member | source | states |
|---|---|---|
| JavaIntegers.ParseInt | oscars-challenge-master/core/src/main/java/de/cyberport/core/servlets/OscarFilmContainerServlet.java:210 | `Integer.parseInt` yields only values in the 32-bit `int` range; anything else is a `NumberFormatException` (`None`). Which strings parse is stated by `JavaIntegers.ParseIntCharacterized` |
| JavaIntegers.ParseIntCharacterized | oscars-challenge-master/core/src/main/java/de/cyberport/core/servlets/OscarFilmContainerServlet.java:210 | `Integer.parseInt(s)` returns `v` exactly when `v` is an `int` and `s` is an optional sign ('+' for `v >= 0`, '-' for `v <= 0`), any number of leading '0's, then the decimal digits of `v`'s magnitude. Every other string throws |
| JavaIntegers.ParseIntEdges | oscars-challenge-master/core/src/main/java/de/cyberport/core/servlets/OscarFilmContainerServlet.java:210 | "+7" and "007" parse to 7 and "-0" to 0; the empty string, a bare sign, surrounding spaces and "1e3" throw |
| JavaIntegers.ParseIntMax | oscars-challenge-master/core/src/main/java/de/cyberport/core/servlets/OscarFilmContainerServlet.java:210 | "2147483647" parses to the largest `int` |
| JavaIntegers.ParseIntMin | oscars-challenge-master/core/src/main/java/de/cyberport/core/servlets/OscarFilmContainerServlet.java:210 | "-2147483648" parses to the smallest `int` |
| JavaIntegers.ParseIntOverflow | oscars-challenge-master/core/src/main/java/de/cyberport/core/servlets/OscarFilmContainerServlet.java:210 | "2147483648", one past the largest `int`, throws |
| JavaIntegers.ParseFormatRoundTrip | oscars-challenge-master/core/src/main/java/de/cyberport/core/servlets/OscarFilmContainerServlet.java:210 | every `int` written in decimal parses back to itself |
| JavaStrings.EqualsIgnoreCaseIsLowerEquality | oscars-challenge-master/core/src/main/java/de/cyberport/core/servlets/OscarFilmContainerServlet.java:205 | two strings are equal ignoring case exactly when their lower-cased forms are equal |
| JavaStrings.EqualsIgnoreCaseIsEquivalence | oscars-challenge-master/core/src/main/java/de/cyberport/core/servlets/OscarFilmContainerServlet.java:256-261 | equality ignoring case is reflexive, symmetric and transitive |
| JavaStrings.ParseBooleanAcceptsOnlyTrue | oscars-challenge-master/core/src/main/java/de/cyberport/core/servlets/OscarFilmContainerServlet.java:240 | `Boolean.parseBoolean` is true exactly for "true" in any case |
| JavaStrings.CompareToZeroIffEqual | oscars-challenge-master/core/src/main/java/de/cyberport/core/servlets/OscarFilmContainerServlet.java:257-266 | `compareTo` is zero exactly for equal strings |
| JavaStrings.CompareToAntisymmetric | oscars-challenge-master/core/src/main/java/de/cyberport/core/servlets/OscarFilmContainerServlet.java:257-266 | `compareTo` flips sign when its arguments are swapped |
| JavaStrings.CompareToTransitive | oscars-challenge-master/core/src/main/java/de/cyberport/core/servlets/OscarFilmContainerServlet.java:257-266 | `compareTo` is transitive, so the comparators are total orders |
| Models.Film.constructor | oscars-challenge-master/core/src/main/java/de/cyberport/core/models/Film.java:15-43 | with optional injection, a fresh film has every attribute `null` |
| Models.Film.GetTitle | oscars-challenge-master/core/src/main/java/de/cyberport/core/models/Film.java:45-47 | the title attribute, `None` for `null`; the round trip with `Models.Film.SetTitle` is stated by that setter's contract |
| Models.Film.GetYear | oscars-challenge-master/core/src/main/java/de/cyberport/core/models/Film.java:49-51 | the year attribute, `None` for `null`; the round trip with `Models.Film.SetYear` is stated by that setter's contract |
| Models.Film.GetAwards | oscars-challenge-master/core/src/main/java/de/cyberport/core/models/Film.java:53-55 | the awards attribute, `None` for `null`; the round trip with `Models.Film.SetAwards` is stated by that setter's contract |
| Models.Film.GetNominations | oscars-challenge-master/core/src/main/java/de/cyberport/core/models/Film.java:57-59 | the nominations attribute, `None` for `null`; the round trip with `Models.Film.SetNominations` is stated by that setter's contract |
| Models.Film.GetIsBestPicture | oscars-challenge-master/core/src/main/java/de/cyberport/core/models/Film.java:61-63 | the best-picture attribute, `None` for `null`; the round trip with `Models.Film.SetIsBestPicture` is stated by that setter's contract |
| Models.Film.GetNumberOfReferences | oscars-challenge-master/core/src/main/java/de/cyberport/core/models/Film.java:65-67 | the references attribute, `None` for `null`; the round trip with `Models.Film.SetNumberOfReferences` is stated by that setter's contract |
| Models.Film.SetTitle | oscars-challenge-master/core/src/main/java/de/cyberport/core/models/Film.java:73-75 | the title getter returns the new value; the other five attributes are unchanged |
| Models.Film.SetYear | oscars-challenge-master/core/src/main/java/de/cyberport/core/models/Film.java:77-79 | the year getter returns the new value; the other five attributes are unchanged |
| Models.Film.SetAwards | oscars-challenge-master/core/src/main/java/de/cyberport/core/models/Film.java:81-83 | the awards getter returns the new value; the other five attributes are unchanged |
| Models.Film.SetNominations | oscars-challenge-master/core/src/main/java/de/cyberport/core/models/Film.java:85-87 | the nominations getter returns the new value; the other five attributes are unchanged |
| Models.Film.SetIsBestPicture | oscars-challenge-master/core/src/main/java/de/cyberport/core/models/Film.java:89-91 | the best-picture getter returns the new value; the other five attributes are unchanged |
| Models.Film.SetNumberOfReferences | oscars-challenge-master/core/src/main/java/de/cyberport/core/models/Film.java:93-95 | the references getter returns the new value; the other five attributes are unchanged |
| JavaStrings.EqualsIgnoreCase | oscars-challenge-master/core/src/main/java/de/cyberport/core/servlets/OscarFilmContainerServlet.java:205 | `String.equalsIgnoreCase` on ASCII; characterized by `JavaStrings.EqualsIgnoreCaseIsLowerEquality` |
| JavaStrings.ParseBoolean | oscars-challenge-master/core/src/main/java/de/cyberport/core/servlets/OscarFilmContainerServlet.java:240 | `Boolean.parseBoolean` of a non-null string; characterized by `JavaStrings.ParseBooleanAcceptsOnlyTrue` |
| JavaStrings.CompareTo | oscars-challenge-master/core/src/main/java/de/cyberport/core/servlets/OscarFilmContainerServlet.java:257-266 | `String.compareTo`; its order properties are `JavaStrings.CompareToZeroIffEqual`, `CompareToAntisymmetric` and `CompareToTransitive` |
| JavaStrings.IsBlank | oscars-challenge-master/core/src/main/java/de/cyberport/core/servlets/OscarFilmContainerServlet.java:155 | `StringUtils.isBlank` on ASCII whitespace; used by `FilmQuery.HasLimit`, whose effect `FilmQuery.QueryFailures` and `FilmQuery.QueryLimit` state |
| FilmSort.KeyOf | oscars-challenge-master/core/src/main/java/de/cyberport/core/servlets/OscarFilmContainerServlet.java:257-266 | the value of the getter a comparator is built on, one per sort key; used by `FilmSort.SortBy` |
| FilmSort.SortBy | oscars-challenge-master/core/src/main/java/de/cyberport/core/servlets/OscarFilmContainerServlet.java:152 | `Stream.sorted` with the chosen comparator; characterized by `FilmSort.SortByCorrect` and `FilmSort.SortByCharacterized` |
| FilmSort.SortByPermutes | oscars-challenge-master/core/src/main/java/de/cyberport/core/servlets/OscarFilmContainerServlet.java:152 | the sort returns a permutation of its input |
| FilmSort.SortBySorted | oscars-challenge-master/core/src/main/java/de/cyberport/core/servlets/OscarFilmContainerServlet.java:152 | the sort result is ascending under `compareTo` of the chosen getter |
| FilmSort.SortByStable | oscars-challenge-master/core/src/main/java/de/cyberport/core/servlets/OscarFilmContainerServlet.java:152 | the sort is stable: films with equal keys keep their encounter order |
| FilmSort.SortByCorrect | oscars-challenge-master/core/src/main/java/de/cyberport/core/servlets/OscarFilmContainerServlet.java:152 | the sort is a permutation, ascending and stable |
| FilmSort.SortedStableUnique | oscars-challenge-master/core/src/main/java/de/cyberport/core/servlets/OscarFilmContainerServlet.java:152 | two ascending sequences that keep the same films per key in the same order are equal, so any stable sort gives this result |
| FilmSort.SortByCharacterized | oscars-challenge-master/core/src/main/java/de/cyberport/core/servlets/OscarFilmContainerServlet.java:152 | a sequence is the sort result if and only if it is ascending and keeps each key's films in input order |
| FilmQuery.Given | oscars-challenge-master/core/src/main/java/de/cyberport/core/servlets/OscarFilmContainerServlet.java:204 | `value != null && !value.isEmpty()`, the test each of the eight filter parameters passes at lines 204-239 before contributing a predicate; its effect is stated by `FilmQuery.ParamFiltersSpec` |
| FilmQuery.ParamFilters | oscars-challenge-master/core/src/main/java/de/cyberport/core/servlets/OscarFilmContainerServlet.java:199-245 | the predicate list `addParamFilters` returns; characterized by `FilmQuery.ParamFiltersSpec`, and `Servlets.OscarFilmContainerServlet.AddParamFilters` is proved equal to it |
| FilmQuery.ParamFiltersInOrder | oscars-challenge-master/core/src/main/java/de/cyberport/core/servlets/OscarFilmContainerServlet.java:199-245 | for a non-empty request, the predicate list is built by consulting the eight parameters one after the other |
| FilmQuery.ParamFiltersSpec | oscars-challenge-master/core/src/main/java/de/cyberport/core/servlets/OscarFilmContainerServlet.java:199-245 | one predicate per given (non-null, non-empty) filter parameter, carrying its value, in the order title, year, minYear, maxYear, minAwards, maxAwards, nominations, isBestPicture; none for absent or empty ones |
| FilmQuery.EvaluateMeaning | oscars-challenge-master/core/src/main/java/de/cyberport/core/servlets/OscarFilmContainerServlet.java:203-241 | each predicate returns case-insensitive title equality, integer equality or an inclusive bound, or best-picture flag equality. It throws `NumberFormatException` exactly when it is numeric and the film's attribute or the parameter value is not an `int` |
| FilmQuery.ReduceIsConjunction | oscars-challenge-master/core/src/main/java/de/cyberport/core/servlets/OscarFilmContainerServlet.java:151 | the fold of the predicates with `x -> true` and `Predicate::and` holds exactly when every predicate accepts. It throws exactly when some predicate throws after all earlier ones accepted; later predicates are not evaluated |
| FilmQuery.AcceptedFilmsMatch | oscars-challenge-master/core/src/main/java/de/cyberport/core/servlets/OscarFilmContainerServlet.java:151 | a film the composed predicate accepts meets every given parameter |
| FilmQuery.RejectedFilmsDoNotMatch | oscars-challenge-master/core/src/main/java/de/cyberport/core/servlets/OscarFilmContainerServlet.java:151 | a film the composed predicate rejects fails some given parameter |
| FilmQuery.ParsableFilmsDoNotFail | oscars-challenge-master/core/src/main/java/de/cyberport/core/servlets/OscarFilmContainerServlet.java:151 | the composed predicate cannot throw on a film when every number it may parse is an `int` |
| FilmQuery.FilteringKeepsMatches | oscars-challenge-master/core/src/main/java/de/cyberport/core/servlets/OscarFilmContainerServlet.java:150-151 | filtering throws exactly when the composed predicate throws on some loaded film, and only `NumberFormatException`. Otherwise it keeps exactly the films that meet the request, in list order |
| FilmQuery.CompareParsed | oscars-challenge-master/core/src/main/java/de/cyberport/core/servlets/OscarFilmContainerServlet.java:210-235 | `Integer.parseInt(film.getX()) OP Integer.parseInt(value)` of the numeric lambdas, film value parsed first; characterized by `FilmQuery.EvaluateMeaning` |
| FilmQuery.Evaluate | oscars-challenge-master/core/src/main/java/de/cyberport/core/servlets/OscarFilmContainerServlet.java:203-241 | the lambda each parameter contributes, applied to one film; characterized by `FilmQuery.EvaluateMeaning` |
| FilmQuery.Reduce | oscars-challenge-master/core/src/main/java/de/cyberport/core/servlets/OscarFilmContainerServlet.java:151 | `reduce(x -> true, Predicate::and)` as a left fold; with `FilmQuery.Apply`, characterized by `FilmQuery.ReduceIsConjunction` |
| FilmQuery.Apply | oscars-challenge-master/core/src/main/java/de/cyberport/core/servlets/OscarFilmContainerServlet.java:151 | `Predicate.test`, with `and` not evaluating its right operand once the left is false; characterized by `FilmQuery.ReduceIsConjunction` |
| FilmQuery.FilterFilms | oscars-challenge-master/core/src/main/java/de/cyberport/core/servlets/OscarFilmContainerServlet.java:150-151 | `Stream.filter` collected, the first exception escaping; characterized by `FilmQuery.FilteringKeepsMatches` |
| FilmQuery.SortKeyOf | oscars-challenge-master/core/src/main/java/de/cyberport/core/servlets/OscarFilmContainerServlet.java:252-267 | `getSortComparator`; characterized by `FilmQuery.SortKeyChoice` |
| FilmQuery.HasLimit | oscars-challenge-master/core/src/main/java/de/cyberport/core/servlets/OscarFilmContainerServlet.java:155 | `StringUtils.isNotBlank(limit)`; its effect is stated by `FilmQuery.QueryFailures` and `FilmQuery.QueryLimit` |
| FilmQuery.Take | oscars-challenge-master/core/src/main/java/de/cyberport/core/servlets/OscarFilmContainerServlet.java:156-158 | `Stream.limit(n)` for `n >= 0`; characterized by `FilmQuery.QueryLimit` |
| FilmQuery.FilterAndSort | oscars-challenge-master/core/src/main/java/de/cyberport/core/servlets/OscarFilmContainerServlet.java:150-152 | `.filter(...).sorted(...)` on the loaded films; characterized by `FilmQuery.QueryResultUnlimited` and `FilmQuery.FilteringKeepsMatches` |
| FilmQuery.Query | oscars-challenge-master/core/src/main/java/de/cyberport/core/servlets/OscarFilmContainerServlet.java:145-161 | the whole filter, sort and limit pipeline; characterized by `FilmQuery.QueryResultUnlimited`, `FilmQuery.QueryFailures` and `FilmQuery.QueryLimit` |
| FilmQuery.SortKeyChoice | oscars-challenge-master/core/src/main/java/de/cyberport/core/servlets/OscarFilmContainerServlet.java:252-267 | `sortBy` selects year, awards or nominations when it equals that name ignoring case; any other, empty or absent value selects the title |
| FilmQuery.NumbersSortAsText | oscars-challenge-master/core/src/main/java/de/cyberport/core/servlets/OscarFilmContainerServlet.java:258-259 | awards are compared as text: a film with "10" awards sorts before one with "9" |
| FilmQuery.QueryResultUnlimited | oscars-challenge-master/core/src/main/java/de/cyberport/core/servlets/OscarFilmContainerServlet.java:150-160 | without a limit, a successful request returns exactly the loaded films that meet every given parameter. The result is a permutation of them, ascending on the sort key, with equal keys in load order |
| FilmQuery.QueryFailures | oscars-challenge-master/core/src/main/java/de/cyberport/core/servlets/OscarFilmContainerServlet.java:155-157 | a non-blank limit that is not an `int` gives `NumberFormatException` and a negative one gives `IllegalArgumentException`, both before any filter runs. Otherwise the request fails exactly when the composed predicate throws on some film |
| FilmQuery.QueryLimit | oscars-challenge-master/core/src/main/java/de/cyberport/core/servlets/OscarFilmContainerServlet.java:155-161 | a limit `n >= 0` returns the first `min(n, count)` films of the unlimited result: none for 0, all when `n` reaches the count. It fails exactly when the unlimited request fails |
| FilmQuery.NoFiltersKeepAll | oscars-challenge-master/core/src/main/java/de/cyberport/core/servlets/OscarFilmContainerServlet.java:202 | a request with no filter parameter builds no predicate, keeps every loaded film and, without a limit, returns them all sorted |
| FilmQuery.EarlierRejectionHidesMalformedFilter | oscars-challenge-master/core/src/main/java/de/cyberport/core/servlets/OscarFilmContainerServlet.java:203-206 | when the title matches no loaded film, the request returns no films even if a numeric parameter cannot be parsed |
| FilmQuery.MalformedFilterFailsWhenReached | oscars-challenge-master/core/src/main/java/de/cyberport/core/servlets/OscarFilmContainerServlet.java:213-216 | an unparsable `minYear` that is the only filter fails the request with `NumberFormatException` once any film is loaded |
| FilmQuery.AddingFilterNarrows | oscars-challenge-master/core/src/main/java/de/cyberport/core/servlets/OscarFilmContainerServlet.java:199-245 | giving one more filter parameter keeps the sort key. When both requests succeed, the narrower result is a sub-multiset of the wider one |
| Servlets.RepeatedRequestDoublesResult | oscars-challenge-master/core/src/main/java/de/cyberport/core/servlets/OscarFilmContainerServlet.java:135 | the list is never cleared, so a repeated unlimited request over the same films fails exactly when the first does, and otherwise returns every film twice |
| Servlets.OscarFilmContainerServlet.constructor | oscars-challenge-master/core/src/main/java/de/cyberport/core/servlets/OscarFilmContainerServlet.java:135 | a new servlet starts with an empty film list |
| Servlets.OscarFilmContainerServlet.RetrieveFilmsFromResource | oscars-challenge-master/core/src/main/java/de/cyberport/core/servlets/OscarFilmContainerServlet.java:183-192 | appends every child film of the resource to the list, in child order |
| Servlets.OscarFilmContainerServlet.AddParamFilters | oscars-challenge-master/core/src/main/java/de/cyberport/core/servlets/OscarFilmContainerServlet.java:199-245 | returns the predicate list that `FilmQuery.ParamFiltersSpec` characterizes |
| Servlets.OscarFilmContainerServlet.DoGet | oscars-challenge-master/core/src/main/java/de/cyberport/core/servlets/OscarFilmContainerServlet.java:139-177 | appends the resource's films to the list, then answers with the query over the whole list, earlier requests' films included |
| Scenarios.NominationsExample | oscars-challenge-master/core/src/main/java/de/cyberport/core/servlets/OscarFilmContainerServlet.java:74-111 | sorting the documented example's four films on nominations gives the documented order, ties in load order |

## Left out

- HTTP: the response status, content type and `PrintWriter` output, and the `JSONObject`
  result with its `JSONException` handler. The model returns the film list, or the exception
  that escapes the request.
- Logging.
- Sling and OSGi wiring: the `@Model` adaptation, `@Self` resource injection and
  `setResource`. `Resource.getChildren` and `adaptTo` are replaced by the list of child
  films passed to `RetrieveFilmsFromResource` and `DoGet`.
- Servlets.OscarFilmContainerServlet.DoGet: requires every loaded film to have all six
  attributes, so no film with a `null` attribute is modelled in a request. This also excludes
  films the code handles without failing. In the code:
  - a `null` year, awards or nominations that reaches a numeric predicate throws
    `NumberFormatException`, since `Integer.parseInt(null)` does, and throws
    `NullPointerException` when the comparator on that attribute compares it;
  - a `null` title throws `NullPointerException` in the title predicate or in the title
    comparator;
  - a `null` isBestPicture parses as `false` without failing;
  - a `null` numberOfReferences is never read by the query.
  `Models.Film` itself allows `null` in every attribute.
- JavaStrings: case mapping and whitespace cover ASCII only. `compareTo` compares characters
  rather than UTF-16 code units, which gives the same order for characters of the Basic
  Multilingual Plane.
- JavaIntegers.ParseInt: accepts ASCII digits only, not the other Unicode digits Java accepts.
- Parameters: a parameter given several times is modelled by its first value only.
- FilmSort.SortBy: an insertion sort instead of the library's merge sort. The result is the
  same, because `FilmSort.SortedStableUnique` shows any stable sort gives that result.
- The constants class that declares the parameter names is not part of this model. Its values
  are the names the servlet documents.
- Concurrent requests on the shared film list.
- The example responses in the documentation are not reproduced as whole queries. Only the
  ordering of the second example is (`Scenarios.NominationsExample`), because evaluating
  concrete requests symbolically is too costly for the verifier.
