/** What the compiled request promises, for every posted body. */
module SearchProperties {
  import opened JsValue
  import opened QueryDsl
  import opened Search

  /** The positions of the entries whose flag is truthy: an independent
      count of what the `.filter(...)` step keeps. */
  function TruthyPositions(entries: seq<(string, Value)>): set<int> {
    set i | 0 <= i < |entries| && Truthy(entries[i].1)
  }

  /** A key that some entry maps to a truthy flag. */
  predicate SelectsKey(entries: seq<(string, Value)>, k: string) {
    exists i :: 0 <= i < |entries| && entries[i].0 == k && Truthy(entries[i].1)
  }

  // ---------------------------------------------------------------------
  // The filter step on one facet map

  /** Filtering distributes over concatenation: it keeps the entries of
      each part in their order and never reorders across parts. */
  lemma {:induction false} SelectedAppend(a: seq<(string, Value)>, b: seq<(string, Value)>)
    ensures Selected(a + b) == Selected(a) + Selected(b)
  {
    if a == [] {
      assert a + b == b;
    } else {
      assert (a + b)[0] == a[0];
      assert (a + b)[1..] == a[1..] + b;
      SelectedAppend(a[1..], b);
    }
  }

  /** The filter step keeps an entry exactly when its flag is truthy. */
  lemma {:induction false} SelectedMembers(entries: seq<(string, Value)>)
    ensures forall e :: e in Selected(entries) <==> e in entries && Truthy(e.1)
  {
    if entries != [] {
      SelectedMembers(entries[1..]);
      assert entries == [entries[0]] + entries[1..];
    }
  }

  /** The clauses of one facet follow its entry order: the clauses of a
      concatenation are the clauses of the first part, then the second's. */
  lemma FacetTermsAppend(field: string, a: seq<(string, Value)>, b: seq<(string, Value)>)
    ensures FacetTerms(field, a + b) == FacetTerms(field, a) + FacetTerms(field, b)
  {
    SelectedAppend(a, b);
  }

  /** One clause per truthy entry. */
  lemma {:induction false} SelectedCount(entries: seq<(string, Value)>)
    ensures |Selected(entries)| == |TruthyPositions(entries)|
  {
    if entries != [] {
      var n := |entries|;
      var last := entries[n - 1];
      var init := entries[..n - 1];
      assert entries == init + [last];
      SelectedAppend(init, [last]);
      SelectedCount(init);
      assert Selected([last]) == if Truthy(last.1) then [last] else [] by {
        assert [last][1..] == [];
      }
      var positions := TruthyPositions(entries);
      var initPositions := TruthyPositions(init);
      assert forall j :: j in initPositions <==> j in positions && j != n - 1 by {
        forall j ensures j in initPositions <==> j in positions && j != n - 1 {
          if 0 <= j < n - 1 {
            assert init[j] == entries[j];
          }
        }
      }
      if Truthy(last.1) {
        assert positions == initPositions + {n - 1};
      } else {
        assert positions == initPositions;
      }
    }
  }

  /** A facet emits a term on a key exactly when some entry flags that key
      truthy; every clause it emits is an unboosted term on its field. */
  lemma FacetTermsExactly(field: string, entries: seq<(string, Value)>)
    ensures forall k :: Term(field, Str(k), None) in FacetTerms(field, entries) <==> SelectsKey(entries, k)
    ensures forall c :: c in FacetTerms(field, entries) ==> c.Term? && c.field == field && c.value.Str? && c.boost == None
  {
    var kept := Selected(entries);
    var ts := FacetTerms(field, entries);
    SelectedMembers(entries);
    forall k ensures Term(field, Str(k), None) in ts <==> SelectsKey(entries, k) {
      if Term(field, Str(k), None) in ts {
        var i :| 0 <= i < |ts| && ts[i] == Term(field, Str(k), None);
        assert kept[i] in kept;
        var j :| 0 <= j < |entries| && entries[j] == kept[i];
      }
      if SelectsKey(entries, k) {
        var j :| 0 <= j < |entries| && entries[j].0 == k && Truthy(entries[j].1);
        var v := entries[j].1;
        assert entries[j] == (k, v) && entries[j] in entries;
        assert (k, v) in kept;
        var i :| 0 <= i < |kept| && kept[i] == (k, v);
        assert ts[i] == Term(field, Str(k), None);
      }
    }
  }

  /** The clauses of a facet map, split around one entry. */
  lemma FacetTermsAround(field: string, entries: seq<(string, Value)>, i: nat)
    requires i < |entries|
    ensures FacetTerms(field, entries)
         == FacetTerms(field, entries[..i]) + FacetTerms(field, [entries[i]]) + FacetTerms(field, entries[i + 1..])
  {
    assert entries == entries[..i] + [entries[i]] + entries[i + 1..];
    FacetTermsAppend(field, entries[..i] + [entries[i]], entries[i + 1..]);
    FacetTermsAppend(field, entries[..i], [entries[i]]);
  }

  /** Switching one entry's flag from falsy to truthy inserts exactly the one
      clause for its key, between the clauses of the entries before it and
      those after it. */
  lemma FacetToggle(field: string, entries: seq<(string, Value)>, i: nat, on: Value, off: Value)
    requires i < |entries|
    requires Truthy(on) && !Truthy(off)
    ensures FacetTerms(field, entries[i := (entries[i].0, on)])
         == FacetTerms(field, entries[..i]) + [Term(field, Str(entries[i].0), None)] + FacetTerms(field, entries[i + 1..])
    ensures FacetTerms(field, entries[i := (entries[i].0, off)])
         == FacetTerms(field, entries[..i]) + FacetTerms(field, entries[i + 1..])
  {
    var k := entries[i].0;
    var withOn := entries[i := (k, on)];
    var withOff := entries[i := (k, off)];
    FacetTermsAround(field, withOn, i);
    FacetTermsAround(field, withOff, i);
    assert withOn[..i] == entries[..i] && withOn[i + 1..] == entries[i + 1..];
    assert withOff[..i] == entries[..i] && withOff[i + 1..] == entries[i + 1..];
    assert [(k, on)][1..] == [] && [(k, off)][1..] == [];
    assert FacetTerms(field, [(k, on)]) == [Term(field, Str(k), None)];
    assert FacetTerms(field, [(k, off)]) == [];
  }

  // ---------------------------------------------------------------------
  // The compiled request

  /** Without a (truthy) query the request matches every document and adds
      no bonus clause; with one it does neither. */
  lemma ScoringWithoutText(body: RequestBody)
    requires Compile(body).Normal?
    ensures Compile(body).value.body.query.must == MatchAll <==> !Truthy(body.query)
    ensures Compile(body).value.body.query.should == [] <==> !Truthy(body.query)
  {
  }

  /** The boosts of the text fields, printed as JavaScript prints numbers. */
  lemma BoostLiterals()
    ensures BoostLiteral(Tenths(11)) == "1.1"
    ensures BoostLiteral(Tenths(12)) == "1.2"
    ensures BoostLiteral(Tenths(13)) == "1.3"
  {
    assert Decimal(1) == "1";
    assert DigitChar(1) == '1' && DigitChar(2) == '2' && DigitChar(3) == '3';
  }

  /** Proof step for `TextFieldSpecs`: one boosted field in the
      `field^boost` notation, given its printed boost. */
  lemma BoostedFieldSpec(name: string, b: Boost, literal: string)
    requires literal == name + "^" + BoostLiteral(b)
    ensures FieldSpec(FieldBoost(name, Some(b))) == literal
  {
  }

  /** The field list of the multi_match, in the notation the engine reads. */
  lemma TextFieldSpecs()
    ensures FieldSpecs(TextFields)
         == ["title^1.2", "storyline^1.3", "genres", "languages", "directors^1.1", "writers^1.1", "cast^1.1"]
  {
    BoostLiterals();
    BoostedFieldSpec("title", Tenths(12), "title^1.2");
    BoostedFieldSpec("storyline", Tenths(13), "storyline^1.3");
    BoostedFieldSpec("directors", Tenths(11), "directors^1.1");
    BoostedFieldSpec("writers", Tenths(11), "writers^1.1");
    BoostedFieldSpec("cast", Tenths(11), "cast^1.1");
  }

  /** With a query, `must` is one multi_match carrying the query as posted,
      over the seven fields with their boosts, in this order. */
  lemma ScoringWithText(body: RequestBody)
    requires Compile(body).Normal? && Truthy(body.query)
    ensures Compile(body).value.body.query.must.MultiMatch?
    ensures Compile(body).value.body.query.must.query == body.query
    ensures FieldSpecs(Compile(body).value.body.query.must.fields)
         == ["title^1.2", "storyline^1.3", "genres", "languages", "directors^1.1", "writers^1.1", "cast^1.1"]
  {
    TextFieldSpecs();
    assert Compile(body).value.body.query.must == MultiMatch(body.query, TextFields);
  }

  /** The bonus clauses a truthy query produces: four exact terms, each
      comparing the whole query. */
  lemma ShouldClauses(query: Value)
    requires Truthy(query)
    ensures |Should(query)| == 4
    ensures forall c :: c in Should(query) ==>
              c.Term? && c.value == query && c.boost.Some?
    ensures var should := Should(query);
            should[0].field == "title.keyword" && should[0].boost.value.AsReal() == 2.1
            && should[1].field == "directors.keyword" && should[1].boost.value.AsReal() == 2.0
            && should[2].field == "writers.keyword" && should[2].boost.value.AsReal() == 2.0
            && should[3].field == "cast.keyword" && should[3].boost.value.AsReal() == 2.0
  {
    var should := Should(query);
    assert should == [
      Term("title.keyword", query, Some(Tenths(21))),
      Term("directors.keyword", query, Some(Tenths(20))),
      Term("writers.keyword", query, Some(Tenths(20))),
      Term("cast.keyword", query, Some(Tenths(20)))
    ];
  }

  /** There are as many filter clauses as truthy genre entries plus truthy
      language entries. */
  lemma FilterCount(body: RequestBody)
    requires Compile(body).Normal?
    ensures |Compile(body).value.body.query.filter|
         == |TruthyPositions(Entries(body.genres).value)| + |TruthyPositions(Entries(body.languages).value)|
  {
    SelectedCount(Entries(body.genres).value);
    SelectedCount(Entries(body.languages).value);
  }

  /** Every filter clause is an unboosted term on a key; the genre clauses
      come first, the language clauses after them. */
  lemma FilterLayout(body: RequestBody)
    requires Compile(body).Normal?
    ensures var filter := Compile(body).value.body.query.filter;
            var genreCount := |TruthyPositions(Entries(body.genres).value)|;
            forall i :: 0 <= i < |filter| ==>
              filter[i].Term? && filter[i].value.Str? && filter[i].boost == None
              && (filter[i].field == GenreFacet <==> i < genreCount)
              && (filter[i].field == LanguageFacet <==> genreCount <= i)
  {
    var genres := Entries(body.genres).value;
    var filter := Compile(body).value.body.query.filter;
    var genreTerms := FacetTerms(GenreFacet, genres);
    var languageTerms := FacetTerms(LanguageFacet, Entries(body.languages).value);
    assert filter == genreTerms + languageTerms;
    SelectedCount(genres);
    assert GenreFacet != LanguageFacet by {
      assert GenreFacet[0] != LanguageFacet[0];
    }
    forall i | 0 <= i < |filter|
      ensures filter[i].Term? && filter[i].value.Str? && filter[i].boost == None
      ensures filter[i].field == (if i < |genreTerms| then GenreFacet else LanguageFacet)
    {
      if i < |genreTerms| {
        assert filter[i] == genreTerms[i];
      } else {
        assert filter[i] == languageTerms[i - |genreTerms|];
      }
    }
  }

  /** The filter clauses name the kept keys themselves: the i-th genre
      clause is on the i-th kept genre key, and the j-th language clause,
      which follows every genre clause, is on the j-th kept language key. */
  lemma FilterKeys(body: RequestBody)
    requires Compile(body).Normal?
    ensures var filter := Compile(body).value.body.query.filter;
            var g := Selected(Entries(body.genres).value);
            forall i :: 0 <= i < |g| ==>
              i < |filter| && filter[i] == Term(GenreFacet, Str(g[i].0), None)
    ensures var filter := Compile(body).value.body.query.filter;
            var g := Selected(Entries(body.genres).value);
            var l := Selected(Entries(body.languages).value);
            forall j :: 0 <= j < |l| ==>
              |g| + j < |filter| && filter[|g| + j] == Term(LanguageFacet, Str(l[j].0), None)
  {
    var filter := Compile(body).value.body.query.filter;
    var genreTerms := FacetTerms(GenreFacet, Entries(body.genres).value);
    var languageTerms := FacetTerms(LanguageFacet, Entries(body.languages).value);
    var g, l := Selected(Entries(body.genres).value), Selected(Entries(body.languages).value);
    assert filter == genreTerms + languageTerms;
    forall i | 0 <= i < |g|
      ensures filter[i] == Term(GenreFacet, Str(g[i].0), None)
    {
      assert filter[i] == genreTerms[i];
    }
    forall j | 0 <= j < |l|
      ensures filter[|g| + j] == Term(LanguageFacet, Str(l[j].0), None)
    {
      assert filter[|g| + j] == languageTerms[j];
    }
  }

  /** A key is filtered on, under its facet, exactly when that facet's map
      flags it truthy. */
  lemma FilterSelectsExactly(body: RequestBody)
    requires Compile(body).Normal?
    ensures forall k :: Term(GenreFacet, Str(k), None) in Compile(body).value.body.query.filter
                        <==> SelectsKey(Entries(body.genres).value, k)
    ensures forall k :: Term(LanguageFacet, Str(k), None) in Compile(body).value.body.query.filter
                        <==> SelectsKey(Entries(body.languages).value, k)
  {
    var genreTerms := FacetTerms(GenreFacet, Entries(body.genres).value);
    var languageTerms := FacetTerms(LanguageFacet, Entries(body.languages).value);
    assert Compile(body).value.body.query.filter == genreTerms + languageTerms;
    FacetTermsExactly(GenreFacet, Entries(body.genres).value);
    FacetTermsExactly(LanguageFacet, Entries(body.languages).value);
  }

  /** A key whose flag is falsy is never filtered on (a JavaScript object
      holds each key once). */
  lemma FalsyKeyNeverFiltered(body: RequestBody)
    requires Compile(body).Normal?
    requires WellFormedObject(body.genres) && WellFormedObject(body.languages)
    ensures var ge := Entries(body.genres).value;
            forall i :: 0 <= i < |ge| && !Truthy(ge[i].1) ==>
              Term(GenreFacet, Str(ge[i].0), None) !in Compile(body).value.body.query.filter
    ensures var le := Entries(body.languages).value;
            forall i :: 0 <= i < |le| && !Truthy(le[i].1) ==>
              Term(LanguageFacet, Str(le[i].0), None) !in Compile(body).value.body.query.filter
  {
    FilterSelectsExactly(body);
    EntriesKeysDistinct(body.genres);
    EntriesKeysDistinct(body.languages);
    forall es: seq<(string, Value)>, i | KeysDistinct(es) && 0 <= i < |es| && !Truthy(es[i].1)
      ensures !SelectsKey(es, es[i].0)
    {
    }
  }

  /** The filter list depends on the facet maps alone, not on the query. */
  lemma FilterIgnoresQuery(b1: RequestBody, b2: RequestBody)
    requires b1.genres == b2.genres && b1.languages == b2.languages
    ensures Compile(b1).Normal? <==> Compile(b2).Normal?
    ensures Compile(b1).Normal? ==>
              Compile(b1).value.body.query.filter == Compile(b2).value.body.query.filter
  {
  }

  /** The scoring clauses depend on the query alone, not on the facet maps. */
  lemma ScoringIgnoresFacets(b1: RequestBody, b2: RequestBody)
    requires b1.query == b2.query
    requires Compile(b1).Normal? && Compile(b2).Normal?
    ensures Compile(b1).value.body.query.must == Compile(b2).value.body.query.must
    ensures Compile(b1).value.body.query.should == Compile(b2).value.body.query.should
  {
  }

  /** The index, sort, highlight and size are the same for every body; the
      highlight covers exactly the fields the query is matched against. */
  lemma FixedParts(body: RequestBody)
    requires Compile(body).Normal?
    ensures Compile(body).value.index == "movies"
    ensures Compile(body).value.body.sort == [ByScore, ByField("rating", Desc), ByField("released_date", Asc)]
    ensures Compile(body).value.body.highlight.fields == FieldNames(TextFields)
    ensures Compile(body).value.body.highlight.fields
         == ["title", "storyline", "genres", "languages", "directors", "writers", "cast"]
    ensures Compile(body).value.body.highlight.preTags == ["<mark style=\"background:yellow\">"]
    ensures Compile(body).value.body.highlight.postTags == ["</mark>"]
    ensures Compile(body).value.body.size == 10000
  {
  }

  /** Inserting `t` between `a` and `b` is inserting it at position `|a|` of `a + b`. */
  lemma InsertAt<T>(a: seq<T>, t: T, b: seq<T>)
    ensures a + [t] + b == (a + b)[..|a|] + [t] + (a + b)[|a|..]
  {
    assert (a + b)[..|a|] == a;
    assert (a + b)[|a|..] == b;
  }

  /** The filter list when one genre entry is switched on, against the list
      when it is off. */
  lemma GenreFilterToggle(genres: seq<(string, Value)>, languageTerms: seq<Query>, i: nat, on: Value, off: Value)
    requires i < |genres|
    requires Truthy(on) && !Truthy(off)
    ensures var offFilter := FacetTerms(GenreFacet, genres[i := (genres[i].0, off)]) + languageTerms;
            var p := |Selected(genres[..i])|;
            p <= |offFilter|
            && FacetTerms(GenreFacet, genres[i := (genres[i].0, on)]) + languageTerms
               == offFilter[..p] + [Term(GenreFacet, Str(genres[i].0), None)] + offFilter[p..]
  {
    var t := Term(GenreFacet, Str(genres[i].0), None);
    var before := FacetTerms(GenreFacet, genres[..i]);
    var after := FacetTerms(GenreFacet, genres[i + 1..]);
    FacetToggle(GenreFacet, genres, i, on, off);
    InsertAt(before, t, after + languageTerms);
    assert before + [t] + after + languageTerms == before + [t] + (after + languageTerms);
    assert before + after + languageTerms == before + (after + languageTerms);
  }

  /** The filter list when one language entry is switched on, against the
      list when it is off. */
  lemma LanguageFilterToggle(genreTerms: seq<Query>, languages: seq<(string, Value)>, i: nat, on: Value, off: Value)
    requires i < |languages|
    requires Truthy(on) && !Truthy(off)
    ensures var offFilter := genreTerms + FacetTerms(LanguageFacet, languages[i := (languages[i].0, off)]);
            var p := |genreTerms| + |Selected(languages[..i])|;
            p <= |offFilter|
            && genreTerms + FacetTerms(LanguageFacet, languages[i := (languages[i].0, on)])
               == offFilter[..p] + [Term(LanguageFacet, Str(languages[i].0), None)] + offFilter[p..]
  {
    var t := Term(LanguageFacet, Str(languages[i].0), None);
    var before := FacetTerms(LanguageFacet, languages[..i]);
    var after := FacetTerms(LanguageFacet, languages[i + 1..]);
    FacetToggle(LanguageFacet, languages, i, on, off);
    InsertAt(genreTerms + before, t, after);
    assert genreTerms + (before + [t] + after) == genreTerms + before + [t] + after;
    assert genreTerms + (before + after) == genreTerms + before + after;
  }

  /** Turning one genre on adds its one clause and changes nothing else:
      both requests are assembled from the same query, and the filter with
      the genre on is the filter with it off plus that genre's clause, placed
      after the clauses of the genres ticked before it. */
  lemma ToggleGenre(body: RequestBody, i: nat, on: Value, off: Value)
    requires body.genres.Obj? && i < |body.genres.props|
    requires body.languages != Undefined && body.languages != Null
    requires Truthy(on) && !Truthy(off)
    ensures var props := body.genres.props;
            var withOn := Compile(body.(genres := Obj(props[i := (props[i].0, on)])));
            var withOff := Compile(body.(genres := Obj(props[i := (props[i].0, off)])));
            var p := |Selected(props[..i])|;
            withOn.Normal? && withOff.Normal?
            && withOff.value == Assemble(body.query, withOff.value.body.query.filter)
            && p <= |withOff.value.body.query.filter|
            && withOn.value == Assemble(body.query,
                 withOff.value.body.query.filter[..p]
                 + [Term(GenreFacet, Str(props[i].0), None)]
                 + withOff.value.body.query.filter[p..])
  {
    var props := body.genres.props;
    var languageTerms := FacetTerms(LanguageFacet, Entries(body.languages).value);
    var setOn := props[i := (props[i].0, on)];
    var setOff := props[i := (props[i].0, off)];
    assert Compile(body.(genres := Obj(setOn)))
        == Normal(Assemble(body.query, FacetTerms(GenreFacet, setOn) + languageTerms));
    assert Compile(body.(genres := Obj(setOff)))
        == Normal(Assemble(body.query, FacetTerms(GenreFacet, setOff) + languageTerms));
    GenreFilterToggle(props, languageTerms, i, on, off);
  }

  /** Turning one language on adds its one clause and changes nothing else;
      the clause goes after every genre clause and after the clauses of the
      languages ticked before it. */
  lemma ToggleLanguage(body: RequestBody, i: nat, on: Value, off: Value)
    requires body.languages.Obj? && i < |body.languages.props|
    requires body.genres != Undefined && body.genres != Null
    requires Truthy(on) && !Truthy(off)
    ensures var props := body.languages.props;
            var withOn := Compile(body.(languages := Obj(props[i := (props[i].0, on)])));
            var withOff := Compile(body.(languages := Obj(props[i := (props[i].0, off)])));
            var p := |Selected(Entries(body.genres).value)| + |Selected(props[..i])|;
            withOn.Normal? && withOff.Normal?
            && withOff.value == Assemble(body.query, withOff.value.body.query.filter)
            && p <= |withOff.value.body.query.filter|
            && withOn.value == Assemble(body.query,
                 withOff.value.body.query.filter[..p]
                 + [Term(LanguageFacet, Str(props[i].0), None)]
                 + withOff.value.body.query.filter[p..])
  {
    var props := body.languages.props;
    var genres := Entries(body.genres).value;
    var genreTerms := FacetTerms(GenreFacet, genres);
    var setOn := props[i := (props[i].0, on)];
    var setOff := props[i := (props[i].0, off)];
    assert Compile(body.(languages := Obj(setOn)))
        == Normal(Assemble(body.query, genreTerms + FacetTerms(LanguageFacet, setOn)));
    assert Compile(body.(languages := Obj(setOff)))
        == Normal(Assemble(body.query, genreTerms + FacetTerms(LanguageFacet, setOff)));
    LanguageFilterToggle(genreTerms, props, i, on, off);
  }

  // ---------------------------------------------------------------------
  // Two concrete requests

  /** A text query with one genre ticked and one unticked: the text drives
      `must` and `should`, and only the ticked genre becomes a filter. */
  lemma TextWithOneGenre()
    ensures var r := Compile(RequestBody(Str("dark knight"),
                                         Obj([("Action", Bool(true)), ("Comedy", Bool(false))]),
                                         Obj([])));
            r.Normal?
            && r.value.body.query.must == MultiMatch(Str("dark knight"), TextFields)
            && |r.value.body.query.should| == 4
            && r.value.body.query.filter == [Term(GenreFacet, Str("Action"), None)]
  {
    var genres := [("Action", Bool(true)), ("Comedy", Bool(false))];
    assert genres[1..][1..] == [];
    assert Selected(genres) == [("Action", Bool(true))];
  }

  /** An empty query with two languages ticked matches everything and emits
      one term per language: two separate clauses, both of which a document
      has to satisfy, not one clause accepting either language. */
  lemma TwoLanguagesNoText()
    ensures var r := Compile(RequestBody(Str(""), Obj([]),
                                         Obj([("English", Bool(true)), ("French", Bool(true))])));
            r.Normal?
            && r.value.body.query.must == MatchAll
            && r.value.body.query.should == []
            && r.value.body.query.filter
               == [Term(LanguageFacet, Str("English"), None), Term(LanguageFacet, Str("French"), None)]
  {
    var languages := [("English", Bool(true)), ("French", Bool(true))];
    assert languages[1..][1..] == [];
    assert Selected(languages) == languages;
  }
}
