/** The part of the Elasticsearch request language that the handler builds, as
    plain data: a `bool` query, a sort, a highlight spec and a result size. */
module QueryDsl {
  import opened JsValue

  datatype Option<T> = None | Some(value: T)

  /** A boost as an exact decimal with one fractional digit, in tenths:
      `Tenths(21)` is the literal 2.1. */
  datatype Boost = Tenths(tenths: nat) {
    function AsReal(): real {
      tenths as real / 10.0
    }
  }

  /** A field of a `multi_match`, optionally with a per-field boost. */
  datatype FieldBoost = FieldBoost(field: string, boost: Option<Boost>)

  datatype Query =
    | MatchAll
      /** `{ multi_match: { query, fields } }` */
    | MultiMatch(query: Value, fields: seq<FieldBoost>)
      /** `{ term: { field: value } }` when `boost` is `None`,
          `{ term: { field: { value, boost } } }` otherwise */
    | Term(field: string, value: Value, boost: Option<Boost>)

  /** `{ bool: { must, filter, should } }` */
  datatype BoolQuery = BoolQuery(must: Query, filter: seq<Query>, should: seq<Query>)

  datatype SortOrder = Asc | Desc

  /** `'_score'`, or `{ field: order }` */
  datatype SortKey = ByScore | ByField(field: string, order: SortOrder)

  /** `{ fields: { f: {} ... }, pre_tags, post_tags }` */
  datatype Highlight = Highlight(fields: seq<string>, preTags: seq<string>, postTags: seq<string>)

  datatype SearchBody = SearchBody(query: BoolQuery, sort: seq<SortKey>, highlight: Highlight, size: nat)

  /** The argument of `client.search`: the index and the request body. */
  datatype SearchRequest = SearchRequest(index: string, body: SearchBody)

  /** How JavaScript prints a boost: no fractional part when it is whole. */
  function BoostLiteral(b: Boost): string {
    var whole := Decimal(b.tenths / 10);
    if b.tenths % 10 == 0 then whole else whole + "." + [DigitChar(b.tenths % 10)]
  }

  /** The `field^boost` notation `multi_match` reads its field list in. */
  function FieldSpec(f: FieldBoost): string {
    match f.boost
    case None => f.field
    case Some(b) => f.field + "^" + BoostLiteral(b)
  }

  function FieldSpecs(fs: seq<FieldBoost>): (r: seq<string>)
    ensures |r| == |fs|
    ensures forall i :: 0 <= i < |fs| ==> r[i] == FieldSpec(fs[i])
  {
    seq(|fs|, i requires 0 <= i < |fs| => FieldSpec(fs[i]))
  }

  function FieldNames(fs: seq<FieldBoost>): (r: seq<string>)
    ensures |r| == |fs|
    ensures forall i :: 0 <= i < |fs| ==> r[i] == fs[i].field
  {
    seq(|fs|, i requires 0 <= i < |fs| => fs[i].field)
  }
}
