/** What the property search promises about the query it builds: which
    clauses appear and in what order, which values are bound and where, and
    that every placeholder names the position of its value. Each statement is
    about the reference query `Build`, which the imperative builder produces
    exactly. */
module QueryGuarantees {
  import opened JsValue
  import opened SqlPhrase
  import opened SqlText
  import opened PropertySearch

  /** A filter only runs on a truthy option, and a truthy value is `!= ''`, so
      any filter sends the search down the filtered branch. */
  lemma FilterMeansSearchValue(options: Options)
    ensures FiltersCity(options) || FiltersPrice(options) || FiltersRating(options) ==> HasSearchValue(options)
  {
    if FiltersCity(options) {
      assert CityKey in options && !LooselyEqualsEmptyString(options[CityKey]);
    } else if FiltersPrice(options) {
      assert MinimumPriceKey in options && !LooselyEqualsEmptyString(options[MinimumPriceKey]);
    } else if FiltersRating(options) {
      assert MinimumRatingKey in options && !LooselyEqualsEmptyString(options[MinimumRatingKey]);
    }
  }

  /** The number of bound values: one for a city, two for a price range, one
      for a rating, and the limit. */
  lemma ParameterCount(options: Options, limit: Value)
    ensures |Build(options, limit).params|
         == (if FiltersCity(options) then 1 else 0) + (if FiltersPrice(options) then 2 else 0)
            + (if FiltersRating(options) then 1 else 0) + 1
  {
    FilterMeansSearchValue(options);
    if HasSearchValue(options) {
      FilteredShape(options, limit);
    } else {
      UnfilteredShape(options, limit);
    }
  }

  /** The limit is always the last value, and the LIMIT clause's placeholder
      is the number of values. */
  lemma LimitIsLastParameter(options: Options, limit: Value)
    ensures var q := Build(options, limit);
      var k := if HasSearchValue(options) then 3 else 2;
      |q.params| >= 1 && q.params[|q.params| - 1] == EffectiveLimit(limit) &&
      |q.text| >= k && q.text[|q.text| - k] == Sql(Limit) && q.text[|q.text| - k + 1] == Param(|q.params|)
  {
    if HasSearchValue(options) {
      FilteredShape(options, limit);
    } else {
      UnfilteredShape(options, limit);
    }
  }

  /** Leaving the limit out is the same as asking for ten results; any other
      limit, `null` included, is bound as given. */
  lemma OmittedLimitIsTen(options: Options, limit: Value)
    ensures Build(options, Undefined) == Build(options, Num(10))
    ensures var q := Build(options, limit);
      limit != Undefined ==> |q.params| >= 1 && q.params[|q.params| - 1] == limit
  {
    LimitIsLastParameter(options, limit);
  }

  /** With no option `!= ''` the query is the plain one: only the limit is
      bound, there is no WHERE, HAVING or ORDER BY, and the text ends with
      `LIMIT $1`. */
  lemma UnfilteredQueryIsPlain(options: Options, limit: Value)
    requires !HasSearchValue(options)
    ensures var q := Build(options, limit);
      q.params == [EffectiveLimit(limit)] &&
      Sql(Where) !in q.text && Sql(Having) !in q.text && Sql(OrderBy) !in q.text &&
      Render(q.text) == PhraseText(SelectFromJoin) + PhraseText(UnfilteredGroupBy) + PhraseText(Limit) + "$1"
  {
    UnfilteredShape(options, limit);
    RenderUnfilteredText();
  }

  /** Where each part of the filtered branch's text sits. */
  lemma FilteredLayout(f: Filters)
    ensures var text := FilteredText(f);
      var c, p, r := CityText(f), PriceText(f), RatingText(f);
      var g := 1 + |c| + |p|;
      |text| == g + 1 + |r| + 4 &&
      text[0] == Sql(SelectFromJoin) &&
      text[1..1 + |c|] == c &&
      text[1 + |c|..g] == p &&
      text[g] == Sql(GroupBy) &&
      text[g + 1..g + 1 + |r|] == r &&
      text[g + 1 + |r|..] == FilteredTail(FilterValueCount(f) + 1)
  {
    SixParts([Sql(SelectFromJoin)], CityText(f), PriceText(f), [Sql(GroupBy)], RatingText(f),
             FilteredTail(FilterValueCount(f) + 1));
  }

  /** A truthy city binds `%city%` as the first value and adds the LIKE
      condition, opening the WHERE clause, right after the SELECT. */
  lemma CityFilterBindsPattern(options: Options, limit: Value)
    requires FiltersCity(options)
    ensures var q := Build(options, limit);
      |q.params| >= 2 && q.params[0] == CityPattern(Get(options, CityKey)) &&
      |q.text| >= 5 && q.text[1..5] == [Sql(Where), Sql(CityMatches), Param(1), Sql(CityMatchEnd)]
  {
    FilterMeansSearchValue(options);
    FilteredShape(options, limit);
    FilteredLayout(FiltersOf(options));
  }

  /** Two truthy price bounds bind the minimum and then the maximum, and the
      condition names them by the two positions they took; it opens with AND
      after a city condition and with WHERE otherwise. */
  lemma PriceFilterBindsBounds(options: Options, limit: Value)
    requires FiltersPrice(options)
    ensures var q := Build(options, limit);
      var n, at := if FiltersCity(options) then 3 else 2, if FiltersCity(options) then 5 else 1;
      |q.params| > n && q.params[n - 2] == Get(options, MinimumPriceKey) && q.params[n - 1] == Get(options, MaximumPriceKey) &&
      |q.text| >= at + 5 &&
      q.text[at..at + 5] == [Sql(if FiltersCity(options) then And else Where), Sql(CostAbove), Param(n - 1), Sql(CostBelow), Param(n)]
  {
    FilterMeansSearchValue(options);
    FilteredShape(options, limit);
    PriceBoundsFollowCity(options, EffectiveLimit(limit));
    PriceRangeFollowsCity(FiltersOf(options));
  }

  /** The price bounds come right after the city's value in the filtered
      branch's values. */
  lemma PriceBoundsFollowCity(options: Options, limit: Value)
    requires FiltersPrice(options)
    ensures var ps, n := FilteredParams(options, limit), if FiltersCity(options) then 3 else 2;
      |ps| > n && ps[n - 2] == Get(options, MinimumPriceKey) && ps[n - 1] == Get(options, MaximumPriceKey)
  {
    ArgsCount(options);
  }

  /** The price range comes right after the city condition in the filtered
      branch's text. */
  lemma PriceRangeFollowsCity(f: Filters)
    requires f.price
    ensures var text, n, at := FilteredText(f), if f.city then 3 else 2, if f.city then 5 else 1;
      |text| >= at + 5 &&
      text[at..at + 5] == [Sql(if f.city then And else Where), Sql(CostAbove), Param(n - 1), Sql(CostBelow), Param(n)]
  {
    FilteredLayout(f);
  }

  /** The position of GROUP BY in the filtered branch's text: after the
      SELECT, the city condition and the price condition. */
  function GroupByPosition(f: Filters): nat
  {
    1 + (if f.city then 4 else 0) + (if f.price then 5 else 0)
  }

  /** A truthy rating binds the next-to-last value, named by a HAVING
      condition that directly follows GROUP BY. */
  lemma RatingFilterBindsRating(options: Options, limit: Value)
    requires FiltersRating(options)
    ensures var q := Build(options, limit);
      var g := GroupByPosition(FiltersOf(options));
      |q.params| >= 2 && q.params[|q.params| - 2] == Get(options, MinimumRatingKey) &&
      |q.text| >= g + 4 && q.text[g] == Sql(GroupBy) &&
      q.text[g + 1..g + 4] == [Sql(Having), Sql(RatingAtLeast), Param(|q.params| - 1)]
  {
    FilterMeansSearchValue(options);
    FilteredShape(options, limit);
    FilteredLayout(FiltersOf(options));
  }

  /* Which phrases each part of the filtered text holds. */

  lemma CityTextHolds(f: Filters)
    ensures var c := CityText(f);
      (Sql(CityMatches) in c <==> f.city) &&
      Sql(And) !in c && Sql(CostAbove) !in c && Sql(Having) !in c && Sql(OrderBy) !in c &&
      (f.city ==> c[0] == Sql(Where) && Sql(Where) !in c[1..])
  {
  }

  lemma PriceTextHolds(f: Filters)
    ensures var p := PriceText(f);
      (Sql(CostAbove) in p <==> f.price) &&
      (Sql(And) in p <==> f.price && f.city) &&
      Sql(CityMatches) !in p && Sql(Having) !in p && Sql(OrderBy) !in p &&
      (f.price ==> p[0] == Sql(Connective(f)) && Sql(Where) !in p[1..])
  {
  }

  lemma RatingTextHolds(f: Filters)
    ensures var r := RatingText(f);
      (Sql(Having) in r <==> f.rating) &&
      Sql(Where) !in r && Sql(And) !in r && Sql(CityMatches) !in r && Sql(CostAbove) !in r && Sql(OrderBy) !in r
  {
  }

  /** The tail holds ORDER BY and no condition. */
  lemma TailHolds(n: nat)
    ensures var tail := FilteredTail(n);
      Sql(OrderBy) in tail &&
      Sql(Where) !in tail && Sql(And) !in tail && Sql(CityMatches) !in tail && Sql(CostAbove) !in tail &&
      Sql(Having) !in tail
  {
  }

  /** A phrase is in the filtered text exactly when it is in one of its parts. */
  lemma InFilteredText(f: Filters, x: Fragment)
    ensures x in FilteredText(f)
        <==> x == Sql(SelectFromJoin) || x in CityText(f) || x in PriceText(f)
             || x == Sql(GroupBy) || x in RatingText(f) || x in FilteredTail(FilterValueCount(f) + 1)
  {
    InSix([Sql(SelectFromJoin)], CityText(f), PriceText(f), [Sql(GroupBy)], RatingText(f),
          FilteredTail(FilterValueCount(f) + 1), x);
  }

  /** In the filtered text each condition is present exactly when its filter
      ran, and ORDER BY always is. */
  lemma FilteredConditions(f: Filters)
    ensures var text := FilteredText(f);
      (Sql(CityMatches) in text <==> f.city) &&
      (Sql(CostAbove) in text <==> f.price) &&
      (Sql(Having) in text <==> f.rating) &&
      Sql(OrderBy) in text
  {
    CityTextHolds(f);
    PriceTextHolds(f);
    RatingTextHolds(f);
    TailHolds(FilterValueCount(f) + 1);
    InFilteredText(f, Sql(CityMatches));
    InFilteredText(f, Sql(CostAbove));
    InFilteredText(f, Sql(Having));
    InFilteredText(f, Sql(OrderBy));
  }

  /** Each condition is in the text exactly when its options are truthy, and
      ORDER BY exactly when the search took the filtered branch. */
  lemma ClausesPresentExactlyWhenAsked(options: Options, limit: Value)
    ensures var q := Build(options, limit);
      (Sql(CityMatches) in q.text <==> FiltersCity(options)) &&
      (Sql(CostAbove) in q.text <==> FiltersPrice(options)) &&
      (Sql(Having) in q.text <==> FiltersRating(options)) &&
      (Sql(OrderBy) in q.text <==> HasSearchValue(options))
  {
    FilterMeansSearchValue(options);
    if HasSearchValue(options) {
      FilteredShape(options, limit);
      FilteredConditions(FiltersOf(options));
    } else {
      UnfilteredShape(options, limit);
    }
  }

  /** In the filtered text WHERE can only be the second fragment, and it is
      exactly when the city or the price condition is there. */
  lemma FilteredWhereFirst(f: Filters)
    ensures var text := FilteredText(f);
      |text| >= 2 && text[0] != Sql(Where) && (text[1] == Sql(Where) <==> f.city || f.price)
  {
    FilteredLayout(f);
  }

  /** ... and it is nowhere later. */
  lemma FilteredWhereOnce(f: Filters)
    ensures Sql(Where) !in FilteredText(f)[2..]
  {
    var c, p, r, tail := CityText(f), PriceText(f), RatingText(f), FilteredTail(FilterValueCount(f) + 1);
    var text := FilteredText(f);
    if f.city {
      CityTextHolds(f);
      PriceTextHolds(f);
      RatingTextHolds(f);
      TailHolds(FilterValueCount(f) + 1);
      InDropSix([Sql(SelectFromJoin)], c, p, [Sql(GroupBy)], r, tail, 2, Sql(Where));
    } else if f.price {
      PriceTextHolds(f);
      RatingTextHolds(f);
      TailHolds(FilterValueCount(f) + 1);
      AppendEmpty(text);
      InDropSix([Sql(SelectFromJoin)] + c, p, [Sql(GroupBy)], r, tail, [], 2, Sql(Where));
    } else {
      RatingTextHolds(f);
      TailHolds(FilterValueCount(f) + 1);
      AppendEmpty(text);
      InDropSix([Sql(SelectFromJoin)] + c + p, [Sql(GroupBy)], r, tail, [], [], 2, Sql(Where));
    }
  }

  /** AND is in the filtered text exactly when both the city and the price
      conditions are. */
  lemma FilteredAnd(f: Filters)
    ensures Sql(And) in FilteredText(f) <==> f.city && f.price
  {
    CityTextHolds(f);
    PriceTextHolds(f);
    RatingTextHolds(f);
    TailHolds(FilterValueCount(f) + 1);
    InFilteredText(f, Sql(And));
  }

  /** WHERE, when present, comes right after the SELECT and nowhere else: it
      is there exactly when a city or a price range filters, and AND joins the
      two conditions when both do. */
  lemma WhereAtMostOnce(options: Options, limit: Value)
    ensures var q := Build(options, limit);
      |q.text| >= 2 && q.text[0] != Sql(Where) && Sql(Where) !in q.text[2..] &&
      (q.text[1] == Sql(Where) <==> FiltersCity(options) || FiltersPrice(options)) &&
      (Sql(And) in q.text <==> FiltersCity(options) && FiltersPrice(options))
  {
    FilterMeansSearchValue(options);
    if HasSearchValue(options) {
      FilteredShape(options, limit);
      FilteredWhereFirst(FiltersOf(options));
      FilteredWhereOnce(FiltersOf(options));
      FilteredAnd(FiltersOf(options));
    } else {
      UnfilteredShape(options, limit);
      assert UnfilteredText[2..] == [Sql(Limit), Param(1)];
    }
  }

  /** In the filtered text GROUP BY sits at its position, with no HAVING
      before it ... */
  lemma FilteredGroupByAt(f: Filters)
    ensures var text := FilteredText(f);
      var g := GroupByPosition(f);
      g < |text| && text[g] == Sql(GroupBy) && Sql(Having) !in text[..g]
  {
    var c, p, r, tail := CityText(f), PriceText(f), RatingText(f), FilteredTail(FilterValueCount(f) + 1);
    FilteredLayout(f);
    CityTextHolds(f);
    PriceTextHolds(f);
    InTakeSix([Sql(SelectFromJoin)], c, p, [Sql(GroupBy)], r, tail, Sql(Having));
  }

  /** ... and no condition of the WHERE clause after it. */
  lemma FilteredWhereClauseBeforeGroupBy(f: Filters)
    ensures var text := FilteredText(f);
      var g := GroupByPosition(f);
      g <= |text| &&
      Sql(Where) !in text[g..] && Sql(And) !in text[g..] &&
      Sql(CityMatches) !in text[g..] && Sql(CostAbove) !in text[g..]
  {
    var c, p, r, tail := CityText(f), PriceText(f), RatingText(f), FilteredTail(FilterValueCount(f) + 1);
    var text := FilteredText(f);
    var g := GroupByPosition(f);
    var head := [Sql(SelectFromJoin)] + c;
    RatingTextHolds(f);
    TailHolds(FilterValueCount(f) + 1);
    AppendEmpty(text);
    InDropSix(head, p, [Sql(GroupBy)], r, tail, [], g, Sql(Where));
    InDropSix(head, p, [Sql(GroupBy)], r, tail, [], g, Sql(And));
    InDropSix(head, p, [Sql(GroupBy)], r, tail, [], g, Sql(CityMatches));
    InDropSix(head, p, [Sql(GroupBy)], r, tail, [], g, Sql(CostAbove));
  }

  /** In the filtered branch GROUP BY separates the two kinds of condition:
      WHERE, AND and the city and price conditions come before it, HAVING
      only after it. */
  lemma GroupBySeparatesConditions(options: Options, limit: Value)
    requires HasSearchValue(options)
    ensures var q := Build(options, limit);
      var g := GroupByPosition(FiltersOf(options));
      g < |q.text| && q.text[g] == Sql(GroupBy) &&
      Sql(Having) !in q.text[..g] &&
      Sql(Where) !in q.text[g..] && Sql(And) !in q.text[g..] &&
      Sql(CityMatches) !in q.text[g..] && Sql(CostAbove) !in q.text[g..]
  {
    FilteredShape(options, limit);
    FilteredGroupByAt(FiltersOf(options));
    FilteredWhereClauseBeforeGroupBy(FiltersOf(options));
  }

  /** An option that is `!= ''` but filters nothing (an unknown key, one price
      bound, a `null` city) still selects the filtered branch: its query has
      GROUP BY, ORDER BY and the limit, and no condition. */
  lemma FilteredBranchWithoutFilters(options: Options, limit: Value)
    requires HasSearchValue(options)
    requires !FiltersCity(options) && !FiltersPrice(options) && !FiltersRating(options)
    ensures Build(options, limit)
         == Query([Sql(SelectFromJoin), Sql(GroupBy), Sql(OrderBy), Sql(Limit), Param(1), Sql(Terminator)],
                  [EffectiveLimit(limit)])
  {
    FilteredShape(options, limit);
  }

  /** Every clause of the search has one value per hole. */
  lemma ClausesWellFormed(options: Options, limit: Value)
    ensures forall i :: 0 <= i < |Clauses(options, limit)| ==> WellFormed(Clauses(options, limit)[i])
  {
    var l := EffectiveLimit(limit);
    var cs := Clauses(options, limit);
    FillUnfilteredSelect(1);
    FillLimit(l, 1);
    FillFilteredSelect(1);
    FillCity(Get(options, CityKey), 1);
    FillPrice(Connective(FiltersOf(options)), Get(options, MinimumPriceKey), Get(options, MaximumPriceKey), 1);
    FillGroupBy(1);
    FillRating(Get(options, MinimumRatingKey), 1);
    FillOrderLimit(l, 1);
    forall i | 0 <= i < |cs|
      ensures WellFormed(cs[i])
    {
      if HasSearchValue(options) {
        InSix([FilteredSelect], CityPart(options), PricePart(options), [GroupByClause], RatingPart(options),
              [OrderLimitClause(l)], cs[i]);
      } else {
        assert cs == [UnfilteredSelect, LimitClause(l)];
      }
    }
  }

  /** The placeholders of the query, read in text order, are `$1`, `$2`, ...,
      `$n` for the n bound values: each value is named exactly once, by its
      own position, and no placeholder names a missing value. */
  lemma PlaceholdersNumberedInOrder(options: Options, limit: Value)
    ensures var q := Build(options, limit);
      Consecutive(Placeholders(q.text), 1, |q.params|)
  {
    ClausesWellFormed(options, limit);
    AssembleNumbersPlaceholders(Clauses(options, limit));
  }

  /** Each clause of the search binds its own values: the clause's values sit
      in the parameter list right after those of the clauses before it, and its
      template sits in the text with its holes numbered by those positions, so
      `$k` names the k-th value. */
  lemma ClauseBindsItsValues(options: Options, limit: Value, j: nat)
    requires j < |Clauses(options, limit)|
    ensures var cs, q := Clauses(options, limit), Build(options, limit);
      var before := Assemble(cs[..j]);
      var filled := Fill(cs[j].pieces, |before.params| + 1);
      |before.params| + |cs[j].args| <= |q.params| &&
      q.params[|before.params|..|before.params| + |cs[j].args|] == cs[j].args &&
      |before.text| + |filled| <= |q.text| &&
      q.text[|before.text|..|before.text| + |filled|] == filled
  {
    AssembleBindsClause(Clauses(options, limit), j);
  }

  /** A search for a city with no limit: the pattern and the default limit
      are bound, in that order. */
  lemma CitySearchExample()
    ensures Build(map[CityKey := Str("Vancouver")], Undefined)
         == Query([Sql(SelectFromJoin), Sql(Where), Sql(CityMatches), Param(1), Sql(CityMatchEnd), Sql(GroupBy),
                   Sql(OrderBy), Sql(Limit), Param(2), Sql(Terminator)],
                  [Str("%Vancouver%"), Num(10)])
  {
    var options := map[CityKey := Str("Vancouver")];
    CitySearchFilters(options);
    CitySearchParams(options);
    CityOnlyText();
    FilteredShape(options, Undefined);
  }

  lemma CitySearchFilters(options: Options)
    requires options == map[CityKey := Str("Vancouver")]
    ensures HasSearchValue(options) && FiltersOf(options) == Filters(true, false, false)
  {
    assert CityKey in options && !LooselyEqualsEmptyString(options[CityKey]);
  }

  lemma CitySearchParams(options: Options)
    requires options == map[CityKey := Str("Vancouver")]
    ensures FilteredParams(options, Num(10)) == [Str("%Vancouver%"), Num(10)]
  {
    CitySearchFilters(options);
    assert CityPattern(Str("Vancouver")) == Str("%Vancouver%");
    assert FilteredParams(options, Num(10)) == [Str("%Vancouver%")] + [] + [] + [Num(10)];
  }

  lemma CityOnlyText()
    ensures FilteredText(Filters(true, false, false))
         == [Sql(SelectFromJoin), Sql(Where), Sql(CityMatches), Param(1), Sql(CityMatchEnd), Sql(GroupBy),
             Sql(OrderBy), Sql(Limit), Param(2), Sql(Terminator)]
  {
  }

  /** A price range after no city opens the WHERE clause itself; a rating
      follows GROUP BY; the given limit is bound last. */
  lemma PriceAndRatingExample()
    ensures Build(map[MinimumPriceKey := Num(50), MaximumPriceKey := Num(200), MinimumRatingKey := Num(4)], Num(5))
         == Query([Sql(SelectFromJoin), Sql(Where), Sql(CostAbove), Param(1), Sql(CostBelow), Param(2), Sql(GroupBy),
                   Sql(Having), Sql(RatingAtLeast), Param(3), Sql(OrderBy), Sql(Limit), Param(4), Sql(Terminator)],
                  [Num(50), Num(200), Num(4), Num(5)])
  {
    var options := map[MinimumPriceKey := Num(50), MaximumPriceKey := Num(200), MinimumRatingKey := Num(4)];
    PriceAndRatingFilters(options);
    PriceAndRatingParams(options);
    PriceAndRatingText();
    FilteredShape(options, Num(5));
  }

  lemma PriceAndRatingFilters(options: Options)
    requires options == map[MinimumPriceKey := Num(50), MaximumPriceKey := Num(200), MinimumRatingKey := Num(4)]
    ensures HasSearchValue(options) && FiltersOf(options) == Filters(false, true, true)
  {
    assert MinimumRatingKey in options && !LooselyEqualsEmptyString(options[MinimumRatingKey]);
  }

  lemma PriceAndRatingParams(options: Options)
    requires options == map[MinimumPriceKey := Num(50), MaximumPriceKey := Num(200), MinimumRatingKey := Num(4)]
    ensures FilteredParams(options, Num(5)) == [Num(50), Num(200), Num(4), Num(5)]
  {
    PriceAndRatingFilters(options);
    assert FilteredParams(options, Num(5)) == [] + [Num(50), Num(200)] + [Num(4)] + [Num(5)];
  }

  lemma PriceAndRatingText()
    ensures FilteredText(Filters(false, true, true))
         == [Sql(SelectFromJoin), Sql(Where), Sql(CostAbove), Param(1), Sql(CostBelow), Param(2), Sql(GroupBy),
             Sql(Having), Sql(RatingAtLeast), Param(3), Sql(OrderBy), Sql(Limit), Param(4), Sql(Terminator)]
  {
  }
}
