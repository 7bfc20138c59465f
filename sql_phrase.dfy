/** The fixed pieces of SQL the property search writes, each named once. A
    query text refers to a phrase by its name; its spelling, character for
    character as the search writes it, is given here and only here. */
module SqlPhrase {

  datatype Phrase =
    | SelectFromJoin     // the SELECT list and the join of the reviews
    | UnfilteredGroupBy  // GROUP BY of the plain query, on its own line
    | Where
    | And
    | CityMatches        // the start of the case-insensitive city match
    | CityMatchEnd
    | CostAbove          // the nightly cost, in whole units, above a bound
    | CostBelow          // ... and below a bound
    | GroupBy            // GROUP BY of the filtered query
    | Having
    | RatingAtLeast
    | OrderBy
    | Limit
    | Terminator

  /** The text of a phrase. */
  function PhraseText(p: Phrase): string
  {
    match p
    case SelectFromJoin => SelectFromJoinText
    case UnfilteredGroupBy => UnfilteredGroupByText
    case Where => WhereText
    case And => AndText
    case CityMatches => CityMatchesText
    case CityMatchEnd => CityMatchEndText
    case CostAbove => CostAboveText
    case CostBelow => CostBelowText
    case GroupBy => GroupByText
    case Having => HavingText
    case RatingAtLeast => RatingAtLeastText
    case OrderBy => OrderByText
    case Limit => LimitText
    case Terminator => TerminatorText
  }

  /* The spellings. */
  const SelectFromJoinText := "\n    SELECT properties.*, AVG(property_reviews.rating) AS average_rating\n    FROM properties\n    JOIN property_reviews ON property_id = properties.id"
  const UnfilteredGroupByText := "\n    GROUP BY properties.id"
  const WhereText := " WHERE "
  const AndText := " AND "
  const CityMatchesText := "LOWER(city) LIKE LOWER("
  const CityMatchEndText := ") "
  const CostAboveText := "cost_per_night / 100 > "
  const CostBelowText := "\n      AND cost_per_night / 100 < "
  const GroupByText := " GROUP BY properties.id"
  const HavingText := " HAVING "
  const RatingAtLeastText := "AVG(property_reviews.rating) >= "
  const OrderByText := "\n    ORDER BY cost_per_night"
  const LimitText := "\n    LIMIT "
  const TerminatorText := ";\n    "
}
