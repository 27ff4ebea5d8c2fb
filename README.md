# Movies search: the request compiler

This project models the `search` API route of the movies-search application
(`src/pages/api/search.js`). The route turns the posted body
`{ query, genres, languages }` into one Elasticsearch request against the
`movies` index. That request is a `bool` query plus a sort, a highlight spec
and a result size:

- `must`: `match_all` when `query` is falsy. Otherwise one `multi_match` of the
  query over seven boosted fields.
- `should`: empty when `query` is falsy. Otherwise four exact `term` clauses on
  `.keyword` fields, each comparing the whole query.
- `filter`: one `term` on `genres.keyword` per genre whose flag is truthy,
  followed by one `term` on `languages.keyword` per truthy language, in the
  order `Object.entries` lists them.
- Every request carries the same sort (`_score`, `rating` desc,
  `released_date` asc), the same highlight over the seven matched fields with
  the `<mark style="background:yellow">` / `</mark>` tag pair, and
  `size: 10000`.

The model has four modules:

- `JsValue` (`js_value.dfy`) covers the JavaScript semantics the route relies
  on. It has the values a parsed JSON body can hold, plus `undefined` for an
  absent property. It defines truthiness (ToBoolean) and `Object.entries`.
  `Object.entries` throws a TypeError on `undefined` or `null`, so a body
  without `genres` or `languages` makes the route throw. For strings and
  arrays it gives the decimal index keys.
- `QueryDsl` (`query_dsl.dfy`) holds the request as plain data. A boost is an
  exact count of tenths, so `Tenths(21)` is the literal `2.1`. `FieldSpec`
  renders the `field^boost` strings that `multi_match` takes.
- `Search` (`search.dfy`) is the route itself. It has the clause builders
  `Must`, `Should`, `Selected` (the `.filter` step), `FacetTerms` (the `.map`
  step) and `Filter`, and `Compile`, which gives the `client.search` argument
  or the TypeError.
- `SearchProperties` (`search_properties.dfy`) states what the compiled
  request promises for every body.

Each facet selection becomes its own `term` clause in `bool.filter`, and
`bool.filter` is conjunctive. So ticking two genres keeps only the movies that
have both genres. It does not build one "any of these" clause per facet.
The model follows the code here (see `TwoLanguagesNoText`).

## Model

| member | source | states |
|---|---|---|
| `JsValue.Entries` | src/pages/api/search.js:22-28 | `Object.entries` throws exactly on `undefined` and `null`. A string or array yields one entry per character or element. A boolean or number yields none. |
| `JsValue.Decimal` | src/pages/api/search.js:22 | An index key is a non-empty string of decimal digits. It starts with `0` only for index 0. |
| `JsValue.DecimalRoundTrip` | src/pages/api/search.js:22 | Reading an index key back as a number gives the index. |
| `JsValue.DecimalInjective` | src/pages/api/search.js:22 | Distinct indices get distinct keys. |
| `JsValue.EntriesKeysDistinct` | src/pages/api/search.js:22-28 | The entries `Object.entries` returns name each key at most once, for every value it accepts. |
| `JsValue.Truthy` | src/pages/api/search.js:5-27 | A value is falsy exactly when it is `undefined`, `null`, `false`, `0` or the empty string. Every array and object, even an empty one, is truthy. |
| `Search.Must` | src/pages/api/search.js:5-12 | `must` is `match_all` exactly when the query is falsy. Otherwise it is a `multi_match` that carries the query unchanged over the text-field table. |
| `Search.Should` | src/pages/api/search.js:13-20 | A truthy query yields four bonus clauses and a falsy one none. Each clause is a boosted `term` comparing the whole query. |
| `Search.Selected` | src/pages/api/search.js:23 | The `.filter` step keeps no more entries than it is given, and every entry it keeps has a truthy flag. |
| `SearchProperties.SelectedMembers` | src/pages/api/search.js:23 | An entry is kept exactly when it occurs in the map with a truthy flag. |
| `SearchProperties.SelectedAppend` | src/pages/api/search.js:22-24 | Filtering distributes over concatenation, so entry order is preserved. |
| `Search.FacetTerms` | src/pages/api/search.js:24-28 | A facet emits one clause per kept entry. Each clause is an unboosted `term` on that facet's field with a string key. |
| `SearchProperties.FacetTermsAppend` | src/pages/api/search.js:22-28 | A facet's clauses follow its entry order. The clauses of `a + b` are those of `a` followed by those of `b`. |
| `SearchProperties.SelectedCount` | src/pages/api/search.js:23 | The number of kept entries equals the number of positions whose flag is truthy. |
| `SearchProperties.FacetTermsExactly` | src/pages/api/search.js:22-28 | A facet emits a term on key `k` exactly when some entry maps `k` to a truthy flag. Each clause is an unboosted term on that facet's field. |
| `SearchProperties.FacetToggle` | src/pages/api/search.js:22-28 | Flipping one entry from falsy to truthy inserts exactly that key's clause, between the clauses of the entries before it and those after it. |
| `SearchProperties.GenreFilterToggle` | src/pages/api/search.js:21-25 | Switching one genre entry on, rather than off, inserts exactly its clause into the filter list. The clause goes at the position given by the number of genre entries kept before it. |
| `SearchProperties.LanguageFilterToggle` | src/pages/api/search.js:21-29 | Switching one language entry on, rather than off, inserts exactly its clause into the filter list. The clause goes after all genre clauses and the language entries kept before it. |
| `Search.Filter` | src/pages/api/search.js:21-30 | The filter list throws exactly when `genres` or `languages` is missing or `null`. Otherwise it has one clause per truthy genre entry plus one per truthy language entry. |
| `Search.Assemble` | src/pages/api/search.js:31-60 | The filter list is placed in `bool.filter` unchanged. `must` is `match_all` exactly when `should` is empty. When `must` is a `multi_match`, the highlight covers exactly its fields. |
| `Search.Compile` | src/pages/api/search.js:3-61 | The route throws exactly when `genres` or `languages` is missing or `null`. |
| `SearchProperties.ScoringWithoutText` | src/pages/api/search.js:5-20 | `must` is `match_all` if and only if the query is falsy. `should` is empty if and only if the query is falsy. |
| `SearchProperties.BoostLiterals` | src/pages/api/search.js:9 | The boosts 1.1, 1.2 and 1.3, held as exact tenths, print as `1.1`, `1.2` and `1.3`. |
| `SearchProperties.TextFieldSpecs` | src/pages/api/search.js:9 | The structured field table renders to exactly the seven field strings of the `multi_match`, in their order. |
| `SearchProperties.ScoringWithText` | src/pages/api/search.js:5-11 | With a truthy query, `must` is one `multi_match` that carries the query unchanged. Its fields render to `title^1.2, storyline^1.3, genres, languages, directors^1.1, writers^1.1, cast^1.1`, in that order. |
| `SearchProperties.ShouldClauses` | src/pages/api/search.js:13-19 | A truthy query yields four boosted terms, and each carries the query unchanged. They are on `title.keyword` (2.1), `directors.keyword` (2), `writers.keyword` (2) and `cast.keyword` (2), in that order. |
| `SearchProperties.FilterCount` | src/pages/api/search.js:21-30 | The filter has as many clauses as truthy genre entries plus truthy language entries. |
| `SearchProperties.FilterLayout` | src/pages/api/search.js:21-30 | Every filter clause is an unboosted term on a string key. The clauses at the first (number of truthy genres) positions are on `genres.keyword`, and the rest are on `languages.keyword`. |
| `SearchProperties.FilterKeys` | src/pages/api/search.js:21-30 | The i-th filter clause is the genre term on the i-th kept genre key. The clause at (number of kept genres) + j is the language term on the j-th kept language key. |
| `SearchProperties.FilterSelectsExactly` | src/pages/api/search.js:21-30 | A key appears as a genre (language) filter exactly when the genre (language) map flags it truthy. |
| `SearchProperties.FalsyKeyNeverFiltered` | src/pages/api/search.js:23-27 | No key whose flag is falsy ever appears in the filter. |
| `SearchProperties.FilterIgnoresQuery` | src/pages/api/search.js:21-30 | Whether the route throws, and the filter list, depend only on the facet maps and not on the query. |
| `SearchProperties.ScoringIgnoresFacets` | src/pages/api/search.js:5-20 | `must` and `should` depend only on the query and not on the facet maps. |
| `SearchProperties.FixedParts` | src/pages/api/search.js:31-60 | The index is `movies`. The sort is `_score`, `rating` desc, `released_date` asc. The highlight covers exactly the fields of the `multi_match`, namely `title`, `storyline`, `genres`, `languages`, `directors`, `writers` and `cast`, with the fixed tag pair. The size is 10000. |
| `SearchProperties.ToggleGenre` | src/pages/api/search.js:22-25 | Turning one genre on inserts exactly its clause into the filter, after the clauses of the genres kept before it. Both requests are assembled from the same query, so nothing else changes. |
| `SearchProperties.ToggleLanguage` | src/pages/api/search.js:26-29 | Turning one language on inserts exactly its clause into the filter, after every genre clause and the languages kept before it. Nothing else changes. |
| `SearchProperties.TextWithOneGenre` | src/pages/api/search.js:5-30 | For query `"dark knight"` with Action on and Comedy off, the request has a `multi_match`, four bonus terms and the single filter `genres.keyword = Action`. |
| `SearchProperties.TwoLanguagesNoText` | src/pages/api/search.js:5-30 | For an empty query with English and French on, the request has `match_all`, no bonus terms, and two separate conjunctive language terms. |

## Left out

- The `client.search` call and `res.json(...)` (src/pages/api/search.js:31, 62) are network and HTTP I/O. The model stops at the request value; the engine's response is passed through unchanged.
- Elasticsearch's own semantics are not modelled: scoring, text analysis, which documents a term matches, highlighting and the capping of `hits.total`. The request is modelled as data only.
- The page component in src/pages/index.js is not part of this model. This covers the form, the checkbox toggles, the axios POST, the result rendering with its `9999+` label, and the two `terms` aggregations that load the genre and language options, which are network I/O.
- The Elasticsearch client set-up (src/elasticsearch.js, src/elasticsearch/index.js) is configuration of a library outside the model.
- An object's properties are taken as already in `Object.entries` order. JavaScript lists integer-like keys first in ascending order, and a JSON parser collapses duplicate keys. Neither step is modelled.
- `req.body` is modelled as a record of its three properties. A body that is not an object, where reading `req.body.query` would itself throw or yield `undefined`, is not modelled.
- Strings are sequences of Dafny characters (Unicode scalar values). `Object.entries` on a JavaScript string splits it into UTF-16 code units, which differs for characters outside the Basic Multilingual Plane.
- JSON numbers are exact reals, and boosts are exact tenths. IEEE double rounding is not modelled; the route does no arithmetic on either.
