/** The property search query of the listing application's data-access layer
    (`getAllProperties`): from a sparse set of search options and a result
    limit it builds a parameterised SQL text and the values bound to its
    placeholders. Running the query against the pool is not modelled. */
module PropertySearch {
  import opened JsValue
  import opened SqlPhrase
  import opened SqlText

  /** The options object: an absent key reads as `undefined`. */
  type Options = map<string, Value>

  function Get(options: Options, key: string): Value
  {
    if key in options then options[key] else Undefined
  }

  const CityKey := "city"
  const MinimumPriceKey := "minimum_price_per_night"
  const MaximumPriceKey := "maximum_price_per_night"
  const MinimumRatingKey := "minimum_rating"

  /** The number of results when the caller gives no limit. */
  const DefaultLimit := 10

  /** The default parameter `limit = 10`: it applies when the argument is
      `undefined` (left out), and only then. */
  function EffectiveLimit(limit: Value): (l: Value)
    ensures limit == Undefined ==> l == Num(DefaultLimit)
    ensures limit != Undefined ==> l == limit
  {
    if limit == Undefined then Num(DefaultLimit) else limit
  }

  /** Some option, recognised or not, has a value that is `!= ''`. */
  predicate HasSearchValue(options: Options)
  {
    exists key :: key in options && !LooselyEqualsEmptyString(options[key])
  }

  /** The individual filters test their options for truthiness. */
  predicate FiltersCity(options: Options)
  {
    Truthy(Get(options, CityKey))
  }

  predicate FiltersPrice(options: Options)
  {
    Truthy(Get(options, MinimumPriceKey)) && Truthy(Get(options, MaximumPriceKey))
  }

  predicate FiltersRating(options: Options)
  {
    Truthy(Get(options, MinimumRatingKey))
  }

  /** Which filters a search runs. The shape of the filtered query depends on
      these three answers alone. */
  datatype Filters = Filters(city: bool, price: bool, rating: bool)

  function FiltersOf(options: Options): Filters
  {
    Filters(FiltersCity(options), FiltersPrice(options), FiltersRating(options))
  }

  /** The value bound for a city: the template `%${options.city}%`. */
  function CityPattern(city: Value): (p: Value)
    ensures p.Str? && |p.s| >= 2 && p.s[0] == '%' && p.s[|p.s| - 1] == '%'
    ensures p.s[1..|p.s| - 1] == TemplateString(city)
    ensures city.Str? ==> p.s[1..|p.s| - 1] == city.s
  {
    Str("%" + TemplateString(city) + "%")
  }

  /* The clauses of the two branches, each a template and the values for its
     holes. Assembled in order they give the reference query (SqlText.Assemble). */

  const UnfilteredSelect := Clause([Text(SelectFromJoin), Text(UnfilteredGroupBy)], [])

  function LimitClause(limit: Value): Clause
  {
    Clause([Text(Limit), Hole], [limit])
  }

  const FilteredSelect := Clause([Text(SelectFromJoin)], [])

  function CityClause(city: Value): Clause
  {
    Clause([Text(Where), Text(CityMatches), Hole, Text(CityMatchEnd)], [CityPattern(city)])
  }

  function PriceClause(connective: Phrase, minimum: Value, maximum: Value): Clause
  {
    Clause([Text(connective), Text(CostAbove), Hole, Text(CostBelow), Hole], [minimum, maximum])
  }

  const GroupByClause := Clause([Text(GroupBy)], [])

  function RatingClause(rating: Value): Clause
  {
    Clause([Text(Having), Text(RatingAtLeast), Hole], [rating])
  }

  function OrderLimitClause(limit: Value): Clause
  {
    Clause([Text(OrderBy), Text(Limit), Hole, Text(Terminator)], [limit])
  }

  /** The filters' clauses, each present when its options are truthy; the
      price filter is joined by AND after a city filter and opens the WHERE
      clause otherwise. */
  function CityPart(options: Options): seq<Clause>
  {
    if FiltersCity(options) then [CityClause(Get(options, CityKey))] else []
  }

  function PricePart(options: Options): seq<Clause>
  {
    if FiltersPrice(options)
    then [PriceClause(Connective(FiltersOf(options)), Get(options, MinimumPriceKey), Get(options, MaximumPriceKey))]
    else []
  }

  function RatingPart(options: Options): seq<Clause>
  {
    if FiltersRating(options) then [RatingClause(Get(options, MinimumRatingKey))] else []
  }

  function Connective(f: Filters): Phrase
  {
    if f.city then And else Where
  }

  /** The clauses the search asks for: the plain query when no option has a
      value, otherwise the filters between the SELECT and GROUP BY, the rating
      filter after GROUP BY, and ORDER BY with the LIMIT last. */
  function Clauses(options: Options, limit: Value): seq<Clause>
  {
    var l := EffectiveLimit(limit);
    if !HasSearchValue(options) then
      [UnfilteredSelect, LimitClause(l)]
    else
      [FilteredSelect] + CityPart(options) + PricePart(options)
      + [GroupByClause] + RatingPart(options) + [OrderLimitClause(l)]
  }

  /** The query the search should hand to the pool. */
  function Build(options: Options, limit: Value): Query
  {
    Assemble(Clauses(options, limit))
  }

  /* The filled-in text of each clause. */

  lemma FillUnfilteredSelect(first: nat)
    ensures WellFormed(UnfilteredSelect)
    ensures Fill(UnfilteredSelect.pieces, first) == [Sql(SelectFromJoin), Sql(UnfilteredGroupBy)]
  {
    var p1 := [Text(SelectFromJoin)];
    var p2 := [Text(SelectFromJoin), Text(UnfilteredGroupBy)];
    assert p1[..0] == [];
    assert Fill(p1, first) == [Sql(SelectFromJoin)] && Holes(p1) == 0;
    assert p2[..1] == p1;
  }

  lemma FillLimit(limit: Value, first: nat)
    ensures WellFormed(LimitClause(limit))
    ensures Fill(LimitClause(limit).pieces, first) == [Sql(Limit), Param(first)]
  {
    var p1 := [Text(Limit)];
    var p2 := [Text(Limit), Hole];
    assert p1[..0] == [];
    assert Fill(p1, first) == [Sql(Limit)] && Holes(p1) == 0;
    assert p2[..1] == p1;
    assert LimitClause(limit).pieces == p2;
    assert Holes(p2) == 1;
    assert Fill(p2, first) == [Sql(Limit)] + [Param(first)];
  }

  lemma FillFilteredSelect(first: nat)
    ensures WellFormed(FilteredSelect)
    ensures Fill(FilteredSelect.pieces, first) == [Sql(SelectFromJoin)]
  {
    var p1 := [Text(SelectFromJoin)];
    assert p1[..0] == [];
  }

  lemma FillCity(city: Value, first: nat)
    ensures WellFormed(CityClause(city))
    ensures Fill(CityClause(city).pieces, first) == [Sql(Where), Sql(CityMatches), Param(first), Sql(CityMatchEnd)]
  {
    var p1 := [Text(Where)];
    var p2 := [Text(Where), Text(CityMatches)];
    var p3 := [Text(Where), Text(CityMatches), Hole];
    var p4 := [Text(Where), Text(CityMatches), Hole, Text(CityMatchEnd)];
    assert p1[..0] == [];
    assert Fill(p1, first) == [Sql(Where)] && Holes(p1) == 0;
    assert p2[..1] == p1;
    assert Fill(p2, first) == [Sql(Where), Sql(CityMatches)] && Holes(p2) == 0;
    assert p3[..2] == p2;
    assert Fill(p3, first) == [Sql(Where), Sql(CityMatches), Param(first)] && Holes(p3) == 1;
    assert p4[..3] == p3;
  }

  lemma FillPrice(connective: Phrase, minimum: Value, maximum: Value, first: nat)
    ensures WellFormed(PriceClause(connective, minimum, maximum))
    ensures Fill(PriceClause(connective, minimum, maximum).pieces, first) == [Sql(connective), Sql(CostAbove), Param(first), Sql(CostBelow), Param(first + 1)]
  {
    var p1 := [Text(connective)];
    var p2 := [Text(connective), Text(CostAbove)];
    var p3 := [Text(connective), Text(CostAbove), Hole];
    var p4 := [Text(connective), Text(CostAbove), Hole, Text(CostBelow)];
    var p5 := [Text(connective), Text(CostAbove), Hole, Text(CostBelow), Hole];
    assert p1[..0] == [];
    assert Fill(p1, first) == [Sql(connective)] && Holes(p1) == 0;
    assert p2[..1] == p1;
    assert Fill(p2, first) == [Sql(connective), Sql(CostAbove)] && Holes(p2) == 0;
    assert p3[..2] == p2;
    assert Fill(p3, first) == [Sql(connective), Sql(CostAbove), Param(first)] && Holes(p3) == 1;
    assert p4[..3] == p3;
    assert Fill(p4, first) == [Sql(connective), Sql(CostAbove), Param(first), Sql(CostBelow)] && Holes(p4) == 1;
    assert p5[..4] == p4;
  }

  lemma FillGroupBy(first: nat)
    ensures WellFormed(GroupByClause)
    ensures Fill(GroupByClause.pieces, first) == [Sql(GroupBy)]
  {
    var p1 := [Text(GroupBy)];
    assert p1[..0] == [];
  }

  lemma FillRating(rating: Value, first: nat)
    ensures WellFormed(RatingClause(rating))
    ensures Fill(RatingClause(rating).pieces, first) == [Sql(Having), Sql(RatingAtLeast), Param(first)]
  {
    var p1 := [Text(Having)];
    var p2 := [Text(Having), Text(RatingAtLeast)];
    var p3 := [Text(Having), Text(RatingAtLeast), Hole];
    assert p1[..0] == [];
    assert Fill(p1, first) == [Sql(Having)] && Holes(p1) == 0;
    assert p2[..1] == p1;
    assert Fill(p2, first) == [Sql(Having), Sql(RatingAtLeast)] && Holes(p2) == 0;
    assert p3[..2] == p2;
  }

  lemma FillOrderLimit(limit: Value, first: nat)
    ensures WellFormed(OrderLimitClause(limit))
    ensures Fill(OrderLimitClause(limit).pieces, first) == [Sql(OrderBy), Sql(Limit), Param(first), Sql(Terminator)]
  {
    var p1 := [Text(OrderBy)];
    var p2 := [Text(OrderBy), Text(Limit)];
    var p3 := [Text(OrderBy), Text(Limit), Hole];
    var p4 := [Text(OrderBy), Text(Limit), Hole, Text(Terminator)];
    assert p1[..0] == [];
    assert Fill(p1, first) == [Sql(OrderBy)] && Holes(p1) == 0;
    assert p2[..1] == p1;
    assert Fill(p2, first) == [Sql(OrderBy), Sql(Limit)] && Holes(p2) == 0;
    assert p3[..2] == p2;
    assert Fill(p3, first) == [Sql(OrderBy), Sql(Limit), Param(first)] && Holes(p3) == 1;
    assert p4[..3] == p3;
  }

  /* The values each filter binds, and the text it adds, in the filtered branch. */

  function CityArgs(options: Options): seq<Value>
  {
    if FiltersCity(options) then [CityPattern(Get(options, CityKey))] else []
  }

  function PriceArgs(options: Options): seq<Value>
  {
    if FiltersPrice(options) then [Get(options, MinimumPriceKey), Get(options, MaximumPriceKey)] else []
  }

  function RatingArgs(options: Options): seq<Value>
  {
    if FiltersRating(options) then [Get(options, MinimumRatingKey)] else []
  }

  /** How many values each filter binds. */
  lemma ArgsCount(options: Options)
    ensures |CityArgs(options)| == if FiltersCity(options) then 1 else 0
    ensures |PriceArgs(options)| == if FiltersPrice(options) then 2 else 0
    ensures |RatingArgs(options)| == if FiltersRating(options) then 1 else 0
  {
  }

  function CityText(f: Filters): seq<Fragment>
  {
    if f.city then [Sql(Where), Sql(CityMatches), Param(1), Sql(CityMatchEnd)] else []
  }

  function PriceText(f: Filters): seq<Fragment>
  {
    var n := if f.city then 1 else 0;
    if f.price then [Sql(Connective(f)), Sql(CostAbove), Param(n + 1), Sql(CostBelow), Param(n + 2)] else []
  }

  function RatingText(f: Filters): seq<Fragment>
  {
    var n := (if f.city then 1 else 0) + (if f.price then 2 else 0);
    if f.rating then [Sql(Having), Sql(RatingAtLeast), Param(n + 1)] else []
  }

  /** The number of values the filters bind. */
  function FilterValueCount(f: Filters): nat
  {
    (if f.city then 1 else 0) + (if f.price then 2 else 0) + (if f.rating then 1 else 0)
  }

  lemma AssembleThroughCity(options: Options)
    ensures Assemble([FilteredSelect] + CityPart(options))
         == Query([Sql(SelectFromJoin)] + CityText(FiltersOf(options)), CityArgs(options))
  {
    AssembleOne(FilteredSelect);
    FillFilteredSelect(1);
    if FiltersCity(options) {
      FillCity(Get(options, CityKey), 1);
    }
    AssembleOptional([FilteredSelect], CityPart(options), CityText(FiltersOf(options)), CityArgs(options));
    AppendEmpty(CityArgs(options));
  }

  lemma AssembleThroughPrice(options: Options)
    ensures Assemble([FilteredSelect] + CityPart(options) + PricePart(options))
         == Query([Sql(SelectFromJoin)] + CityText(FiltersOf(options)) + PriceText(FiltersOf(options)),
                  CityArgs(options) + PriceArgs(options))
  {
    AssembleThroughCity(options);
    if FiltersPrice(options) {
      FillPrice(Connective(FiltersOf(options)), Get(options, MinimumPriceKey), Get(options, MaximumPriceKey),
                |CityArgs(options)| + 1);
    }
    AssembleOptional([FilteredSelect] + CityPart(options), PricePart(options), PriceText(FiltersOf(options)), PriceArgs(options));
  }

  lemma AssembleThroughGroupBy(options: Options)
    ensures Assemble([FilteredSelect] + CityPart(options) + PricePart(options) + [GroupByClause])
         == Query([Sql(SelectFromJoin)] + CityText(FiltersOf(options)) + PriceText(FiltersOf(options)) + [Sql(GroupBy)],
                  CityArgs(options) + PriceArgs(options))
  {
    AssembleThroughPrice(options);
    FillGroupBy(|CityArgs(options) + PriceArgs(options)| + 1);
    AssembleOptional([FilteredSelect] + CityPart(options) + PricePart(options), [GroupByClause], [Sql(GroupBy)], []);
    AppendEmpty(CityArgs(options) + PriceArgs(options));
  }

  lemma AssembleThroughRating(options: Options)
    ensures Assemble([FilteredSelect] + CityPart(options) + PricePart(options) + [GroupByClause] + RatingPart(options))
         == Query([Sql(SelectFromJoin)] + CityText(FiltersOf(options)) + PriceText(FiltersOf(options)) + [Sql(GroupBy)] + RatingText(FiltersOf(options)),
                  CityArgs(options) + PriceArgs(options) + RatingArgs(options))
  {
    AssembleThroughGroupBy(options);
    if FiltersRating(options) {
      FillRating(Get(options, MinimumRatingKey), |CityArgs(options) + PriceArgs(options)| + 1);
    }
    AssembleOptional([FilteredSelect] + CityPart(options) + PricePart(options) + [GroupByClause],
                     RatingPart(options), RatingText(FiltersOf(options)), RatingArgs(options));
  }

  /** The query of the filtered branch written out, value by value and
      fragment by fragment as the branch appends them: the SELECT, the city
      condition, the price condition, GROUP BY, HAVING, then ORDER BY and the
      LIMIT, whose placeholder is the last. */
  function FilteredParams(options: Options, limit: Value): seq<Value>
  {
    CityArgs(options) + PriceArgs(options) + RatingArgs(options) + [limit]
  }

  function FilteredText(f: Filters): seq<Fragment>
  {
    [Sql(SelectFromJoin)] + CityText(f) + PriceText(f) + [Sql(GroupBy)] + RatingText(f)
    + FilteredTail(FilterValueCount(f) + 1)
  }

  /** The filtered text, part after part, as the branch appends them. */
  lemma FilteredTextInOrder(f: Filters, n: nat)
    requires n == FilterValueCount(f) + 1
    ensures [Sql(SelectFromJoin)] + CityText(f) + PriceText(f) + [Sql(GroupBy)] + RatingText(f)
            + [Sql(OrderBy), Sql(Limit), Param(n), Sql(Terminator)]
         == FilteredText(f)
  {
  }

  /** ORDER BY, then the LIMIT naming the last value. */
  function FilteredTail(n: nat): seq<Fragment>
  {
    [Sql(OrderBy), Sql(Limit), Param(n), Sql(Terminator)]
  }

  /** The query of the unfiltered branch written out. */
  const UnfilteredText := [Sql(SelectFromJoin), Sql(UnfilteredGroupBy), Sql(Limit), Param(1)]

  /** The plain query's string: the SELECT, GROUP BY and `LIMIT $1`. */
  lemma RenderUnfilteredText()
    ensures Render(UnfilteredText) == PhraseText(SelectFromJoin) + PhraseText(UnfilteredGroupBy) + PhraseText(Limit) + "$1"
  {
    RenderSqlSql(SelectFromJoin, UnfilteredGroupBy);
    RenderSnoc2([Sql(SelectFromJoin), Sql(UnfilteredGroupBy)], Sql(Limit), Param(1));
    assert [Sql(SelectFromJoin), Sql(UnfilteredGroupBy)] + [Sql(Limit), Param(1)] == UnfilteredText;
    assert NatToDecimal(1) == "1";
  }

  /** When some option has a value, the clauses assemble to the filtered
      branch's query. */
  lemma FilteredShape(options: Options, limit: Value)
    requires HasSearchValue(options)
    ensures Build(options, limit) == Query(FilteredText(FiltersOf(options)),
                                           FilteredParams(options, EffectiveLimit(limit)))
  {
    var l := EffectiveLimit(limit);
    var cs := [FilteredSelect] + CityPart(options) + PricePart(options) + [GroupByClause] + RatingPart(options);
    var params := CityArgs(options) + PriceArgs(options) + RatingArgs(options);
    assert Clauses(options, limit) == cs + [OrderLimitClause(l)];
    AssembleThroughRating(options);
    FillOrderLimit(l, |params| + 1);
    AssembleOptional(cs, [OrderLimitClause(l)], [Sql(OrderBy), Sql(Limit), Param(|params| + 1), Sql(Terminator)], [l]);
    ArgsCount(options);
    FilteredTextInOrder(FiltersOf(options), |params| + 1);
  }

  /** When no option has a value, the clauses assemble to the plain query. */
  lemma UnfilteredShape(options: Options, limit: Value)
    requires !HasSearchValue(options)
    ensures Build(options, limit) == Query(UnfilteredText, [EffectiveLimit(limit)])
  {
    var l := EffectiveLimit(limit);
    assert Clauses(options, limit) == [UnfilteredSelect] + [LimitClause(l)];
    AssembleOne(UnfilteredSelect);
    FillUnfilteredSelect(1);
    FillLimit(l, 1);
    AssembleOptional([UnfilteredSelect], [LimitClause(l)], [Sql(Limit), Param(1)], [l]);
    Snoc2([Sql(SelectFromJoin), Sql(UnfilteredGroupBy)], Sql(Limit), Param(1));
    AppendEmpty([l]);
  }


  /** The loop that looks for an option whose value is `!= ''`, stopping at
      the first one. The order in which keys are visited does not change the
      answer. */
  method FindSearchValue(options: Options) returns (queries: bool)
    ensures queries <==> HasSearchValue(options)
  {
    queries := false;
    var keys := options.Keys;
    while keys != {}
      invariant keys <= options.Keys
      invariant !queries
      invariant forall key :: key in options && key !in keys ==> LooselyEqualsEmptyString(options[key])
      decreases keys
    {
      var key :| key in keys;
      if !LooselyEqualsEmptyString(options[key]) {
        queries := true;
        break;
      }
      keys := keys - {key};
    }
  }

  /** The unfiltered branch: the plain query, with the limit as its only value. */
  method UnfilteredQuery(limit: Value) returns (queryString: string, queryParams: seq<Value>)
    ensures queryParams == [limit]
    ensures queryString == Render(UnfilteredText)
  {
    queryParams := [];
    queryString := PhraseText(SelectFromJoin) + PhraseText(UnfilteredGroupBy);
    ghost var text := [Sql(SelectFromJoin), Sql(UnfilteredGroupBy)];
    RenderSqlSql(SelectFromJoin, UnfilteredGroupBy);
    queryParams := queryParams + [limit];
    var n := |queryParams|;
    queryString := queryString + PhraseText(Limit) + Placeholder(n);
    RenderSnoc2(text, Sql(Limit), Param(n));
    assert text + [Sql(Limit), Param(n)] == UnfilteredText;
  }

  /* What each filter appends to the string is the rendering of what it adds
     to the text. */

  lemma CityRendered(f: Filters, s: string, t: seq<Fragment>)
    requires f.city && s == Render(t)
    ensures s + PhraseText(Where) + PhraseText(CityMatches) + Placeholder(1) + PhraseText(CityMatchEnd)
         == Render(t + CityText(f))
  {
    RenderSnoc4(t, Sql(Where), Sql(CityMatches), Param(1), Sql(CityMatchEnd));
  }

  lemma PriceRendered(f: Filters, s: string, t: seq<Fragment>, n: nat)
    requires f.price && n == (if f.city then 1 else 0) + 2 && s == Render(t)
    ensures s + PhraseText(Connective(f)) + PhraseText(CostAbove) + Placeholder(n - 1) + PhraseText(CostBelow)
            + Placeholder(n)
         == Render(t + PriceText(f))
  {
    RenderSnoc5(t, Sql(Connective(f)), Sql(CostAbove), Param(n - 1), Sql(CostBelow), Param(n));
  }

  lemma RatingRendered(f: Filters, s: string, t: seq<Fragment>, n: nat)
    requires f.rating && n == (if f.city then 1 else 0) + (if f.price then 2 else 0) + 1 && s == Render(t)
    ensures s + PhraseText(Having) + PhraseText(RatingAtLeast) + Placeholder(n) == Render(t + RatingText(f))
  {
    RenderSnoc3(t, Sql(Having), Sql(RatingAtLeast), Param(n));
  }

  lemma OrderLimitRendered(s: string, t: seq<Fragment>, n: nat)
    requires s == Render(t)
    ensures s + PhraseText(OrderBy) + PhraseText(Limit) + Placeholder(n) + PhraseText(Terminator)
         == Render(t + [Sql(OrderBy), Sql(Limit), Param(n), Sql(Terminator)])
  {
    RenderSnoc4(t, Sql(OrderBy), Sql(Limit), Param(n), Sql(Terminator));
  }

  /** The city filter (`if (options.city)`): the pattern is pushed as the
      first value and named by the list's new length. Whether it ran is kept
      for the price filter's connective. */
  method AppendCityFilter(options: Options, queryString: string, queryParams: seq<Value>, ghost text: seq<Fragment>)
    returns (s: string, p: seq<Value>, cityEmpty: bool)
    requires queryString == Render(text) && queryParams == []
    ensures p == queryParams + CityArgs(options)
    ensures s == Render(text + CityText(FiltersOf(options)))
    ensures cityEmpty <==> !FiltersCity(options)
  {
    s, p, cityEmpty := queryString, queryParams, true;
    var city := Get(options, CityKey);
    if Truthy(city) {
      p := p + [Str("%" + TemplateString(city) + "%")];
      s := s + PhraseText(Where) + PhraseText(CityMatches) + Placeholder(|p|) + PhraseText(CityMatchEnd);
      cityEmpty := false;
      CityRendered(FiltersOf(options), queryString, text);
    } else {
      assert text + CityText(FiltersOf(options)) == text;
    }
  }

  /** The price filter (both bounds truthy): the two bounds are pushed, minimum
      first, and named by the list's length minus one and its length; the
      clause opens with AND after a city filter and with WHERE otherwise. */
  method AppendPriceFilter(options: Options, cityEmpty: bool, queryString: string, queryParams: seq<Value>,
                           ghost text: seq<Fragment>)
    returns (s: string, p: seq<Value>)
    requires cityEmpty <==> !FiltersCity(options)
    requires queryString == Render(text) && |queryParams| == |CityArgs(options)|
    ensures p == queryParams + PriceArgs(options)
    ensures s == Render(text + PriceText(FiltersOf(options)))
  {
    ArgsCount(options);
    s, p := queryString, queryParams;
    var low, high := Get(options, MinimumPriceKey), Get(options, MaximumPriceKey);
    if Truthy(low) && Truthy(high) {
      p := p + [low];
      p := p + [high];
      assert p == queryParams + PriceArgs(options);
      var n := |p|;
      var connective;
      if !cityEmpty {
        connective := And;
      } else {
        connective := Where;
      }
      assert connective == Connective(FiltersOf(options));
      s := s + PhraseText(connective);
      s := s + PhraseText(CostAbove) + Placeholder(n - 1) + PhraseText(CostBelow) + Placeholder(n);
      PriceRendered(FiltersOf(options), queryString, text, n);
    } else {
      assert queryParams + [] == queryParams;
      assert text + PriceText(FiltersOf(options)) == text;
    }
  }

  /** The rating filter (`if (options.minimum_rating)`): a HAVING clause on
      the average rating, its value named by the list's new length. */
  method AppendRatingFilter(options: Options, queryString: string, queryParams: seq<Value>, ghost text: seq<Fragment>)
    returns (s: string, p: seq<Value>)
    requires queryString == Render(text) && |queryParams| == |CityArgs(options)| + |PriceArgs(options)|
    ensures p == queryParams + RatingArgs(options)
    ensures s == Render(text + RatingText(FiltersOf(options)))
  {
    ArgsCount(options);
    s, p := queryString, queryParams;
    var rating := Get(options, MinimumRatingKey);
    if Truthy(rating) {
      p := p + [rating];
      var n := |p|;
      s := s + PhraseText(Having) + PhraseText(RatingAtLeast) + Placeholder(n);
      RatingRendered(FiltersOf(options), queryString, text, n);
    } else {
      assert queryParams + [] == queryParams;
      assert text + RatingText(FiltersOf(options)) == text;
    }
  }

  /** The start of the filtered branch: the SELECT, then the city and price
      conditions, each naming its values by the list's length right after they
      were pushed. */
  method FilteredSelectWhere(options: Options) returns (queryString: string, queryParams: seq<Value>)
    ensures queryParams == CityArgs(options) + PriceArgs(options)
    ensures queryString == Render([Sql(SelectFromJoin)] + CityText(FiltersOf(options)) + PriceText(FiltersOf(options)))
  {
    ArgsCount(options);
    queryParams := [];
    queryString := PhraseText(SelectFromJoin);
    ghost var text := [Sql(SelectFromJoin)];
    RenderSql(SelectFromJoin);

    var cityEmpty;
    queryString, queryParams, cityEmpty := AppendCityFilter(options, queryString, queryParams, text);
    text := text + CityText(FiltersOf(options));
    AppendEmpty(CityArgs(options));
    queryString, queryParams := AppendPriceFilter(options, cityEmpty, queryString, queryParams, text);
  }

  /** The filtered branch: the text grows clause by clause and the parameter
      list value by value; each clause names its values by the list's length
      right after they were pushed. */
  method FilteredQuery(options: Options, limit: Value) returns (queryString: string, queryParams: seq<Value>)
    ensures queryParams == FilteredParams(options, limit)
    ensures queryString == Render(FilteredText(FiltersOf(options)))
  {
    ArgsCount(options);
    queryString, queryParams := FilteredSelectWhere(options);
    ghost var text := [Sql(SelectFromJoin)] + CityText(FiltersOf(options)) + PriceText(FiltersOf(options));

    RenderSnocSql(queryString, text, GroupBy);
    queryString := queryString + PhraseText(GroupBy);
    text := text + [Sql(GroupBy)];

    queryString, queryParams := AppendRatingFilter(options, queryString, queryParams, text);
    text := text + RatingText(FiltersOf(options));

    queryParams := queryParams + [limit];
    OrderLimitRendered(queryString, text, |queryParams|);
    queryString := queryString + PhraseText(OrderBy) + PhraseText(Limit) + Placeholder(|queryParams|) + PhraseText(Terminator);
    text := text + [Sql(OrderBy), Sql(Limit), Param(|queryParams|), Sql(Terminator)];
    FilteredTextInOrder(FiltersOf(options), |queryParams|);
  }


  /** The query-building part of `getAllProperties`: the default limit, the
      search for an option with a value, then one of the two branches. */
  method GetAllPropertiesQuery(options: Options, limit: Value) returns (queryString: string, queryParams: seq<Value>)
    ensures queryParams == Build(options, limit).params
    ensures queryString == Render(Build(options, limit).text)
  {
    var lim := if limit == Undefined then Num(DefaultLimit) else limit;
    var queries := FindSearchValue(options);
    if !queries {
      queryString, queryParams := UnfilteredQuery(lim);
      UnfilteredShape(options, limit);
    } else {
      queryString, queryParams := FilteredQuery(options, lim);
      FilteredShape(options, limit);
    }
  }
}
