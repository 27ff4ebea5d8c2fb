/** The `search` API route (src/pages/api/search.js): it compiles the posted
    request body into one Elasticsearch request against the `movies` index.
    The call to the client and the HTTP response are not part of this module;
    `Compile` is the argument the handler passes to `client.search`, or the
    TypeError the handler throws before it gets there. */
module Search {
  import opened JsValue
  import opened QueryDsl

  /** `req.body`: a property the client did not post is `Undefined`. */
  datatype RequestBody = RequestBody(query: Value, genres: Value, languages: Value)

  const MoviesIndex := "movies"

  /** The fields the free-text query is matched against, with their boosts. */
  const TextFields: seq<FieldBoost> := [
    FieldBoost("title", Some(Tenths(12))),
    FieldBoost("storyline", Some(Tenths(13))),
    FieldBoost("genres", None),
    FieldBoost("languages", None),
    FieldBoost("directors", Some(Tenths(11))),
    FieldBoost("writers", Some(Tenths(11))),
    FieldBoost("cast", Some(Tenths(11)))
  ]

  const GenreFacet := "genres.keyword"
  const LanguageFacet := "languages.keyword"

  const SortSpec: seq<SortKey> := [ByScore, ByField("rating", Desc), ByField("released_date", Asc)]

  const HighlightSpec := Highlight(
    ["title", "storyline", "genres", "languages", "directors", "writers", "cast"],
    ["<mark style=\"background:yellow\">"],
    ["</mark>"])

  const MaxResults: nat := 10000

  /** The scoring clause: everything when the query is falsy, else a
      multi-field match of the query as posted. */
  function Must(query: Value): (q: Query)
    ensures q.MatchAll? <==> !Truthy(query)
    ensures Truthy(query) ==> q == MultiMatch(query, TextFields)
  {
    if Truthy(query) then MultiMatch(query, TextFields) else MatchAll
  }

  /** The exact-match bonus clauses, present only with a truthy query. */
  function Should(query: Value): (r: seq<Query>)
    ensures |r| == (if Truthy(query) then 4 else 0)
    ensures forall i :: 0 <= i < |r| ==> r[i].Term? && r[i].value == query && r[i].boost.Some?
  {
    if Truthy(query) then
      [
        Term("title.keyword", query, Some(Tenths(21))),
        Term("directors.keyword", query, Some(Tenths(20))),
        Term("writers.keyword", query, Some(Tenths(20))),
        Term("cast.keyword", query, Some(Tenths(20)))
      ]
    else
      []
  }

  /** `entries.filter(([key, value]) => value)`: the entries with a truthy
      flag, in their original order. */
  function Selected(entries: seq<(string, Value)>): (r: seq<(string, Value)>)
    ensures |r| <= |entries|
    ensures forall j :: 0 <= j < |r| ==> Truthy(r[j].1)
  {
    if entries == [] then []
    else (if Truthy(entries[0].1) then [entries[0]] else []) + Selected(entries[1..])
  }

  /** `.map(([key, value]) => ({ term: { field: key } }))` over the selected entries. */
  function FacetTerms(field: string, entries: seq<(string, Value)>): (r: seq<Query>)
    ensures |r| == |Selected(entries)| <= |entries|
    ensures forall i :: 0 <= i < |r| ==> r[i].Term? && r[i].field == field && r[i].value.Str? && r[i].boost == None
  {
    var kept := Selected(entries);
    seq(|kept|, i requires 0 <= i < |kept| => Term(field, Str(kept[i].0), None))
  }

  /** The filter list: one term per selected genre, then one per selected
      language. `Object.entries` throws when a facet map is missing. */
  function Filter(genres: Value, languages: Value): (r: Completion<seq<Query>>)
    ensures r.Throw? <==> genres == Undefined || genres == Null || languages == Undefined || languages == Null
    ensures r.Normal? ==>
              |r.value| == |Selected(Entries(genres).value)| + |Selected(Entries(languages).value)|
  {
    match Entries(genres)
    case Throw(e) => Throw(e)
    case Normal(genreEntries) =>
      match Entries(languages)
      case Throw(e) => Throw(e)
      case Normal(languageEntries) =>
        Normal(FacetTerms(GenreFacet, genreEntries) + FacetTerms(LanguageFacet, languageEntries))
  }

  /** The request around a given filter list: everything but the filter
      comes from the query or is fixed. */
  function Assemble(query: Value, filter: seq<Query>): (r: SearchRequest)
    ensures r.body.query.filter == filter
    ensures r.body.query.must.MatchAll? <==> r.body.query.should == []
    ensures r.body.query.must.MultiMatch? ==> FieldNames(r.body.query.must.fields) == r.body.highlight.fields
  {
    var boolQuery := BoolQuery(Must(query), filter, Should(query));
    SearchRequest(MoviesIndex, SearchBody(boolQuery, SortSpec, HighlightSpec, MaxResults))
  }

  /** The request the handler sends to the search engine for a posted body. */
  function Compile(body: RequestBody): (r: Completion<SearchRequest>)
    ensures r.Throw? <==>
              (body.genres == Undefined || body.genres == Null
               || body.languages == Undefined || body.languages == Null)
  {
    match Filter(body.genres, body.languages)
    case Throw(e) => Throw(e)
    case Normal(filter) => Normal(Assemble(body.query, filter))
  }
}
