# LightBnB property search: the query builder of `getAllProperties`

The listing application's data-access layer answers a property search with one
SQL query. `getAllProperties(options, limit = 10)` builds it before handing it
to the connection pool. It builds two things side by side: a query string with
positional placeholders (`$1`, `$2`, ...) and the array `queryParams` of the
values bound to them.

The options object is sparse. Its keys are `city`, `minimum_price_per_night`,
`maximum_price_per_night` and `minimum_rating`, and any other key may be present
too. A loop first looks for any option whose value is `!= ''`.

- If there is none, the builder emits the plain query: the SELECT with the
  reviews join, `GROUP BY`, and `LIMIT $1`, which binds the limit.
- Otherwise it grows the query clause by clause. A truthy city adds a
  case-insensitive `LIKE` on `%city%`. Two truthy price bounds add a range on
  the nightly cost, opened by `AND` after a city condition and by `WHERE`
  otherwise. `GROUP BY` always follows. A truthy minimum rating adds a `HAVING`
  on the average rating. `ORDER BY cost_per_night` and `LIMIT` close the query.
  Each value is pushed and then named by the array's new length.

The project models that builder and proves what it promises.

- `js_value.dfy` (`JsValue`) holds the JavaScript values an option can hold:
  `undefined`, `null`, booleans, safe integers and strings. It defines the two
  emptiness tests the source mixes, loose `!= ''` and truthiness, and the
  stringification a template literal performs.
- `sql_phrase.dfy` (`SqlPhrase`) names each fixed piece of SQL the builder
  writes. `PhraseText` gives each one's exact text.
- `sql_text.dfy` (`SqlText`) holds query texts as sequences of fragments. A
  fragment is a phrase or a placeholder `$k`, and `Render` gives the string the
  text stands for. The module also gives a reference way to build a query
  (`Assemble`): a list of clauses, each a template with holes and the values
  for them, assembled so that every hole is numbered by its value's position.
  It proves that assembled texts number their placeholders 1..n in order.
- `property_search.dfy` (`PropertySearch`) holds the reference query `Build`,
  which assembles the clauses the options ask for. It also holds the imperative
  builder `GetAllPropertiesQuery` and its parts. These work as the source does:
  a string accumulator grown by `+`, a parameter sequence grown by appending,
  and a loop with a break for the search. They are proved to produce exactly
  `Render(Build(...).text)` and `Build(...).params`.
- `query_guarantees.dfy` (`QueryGuarantees`) holds the properties of `Build`:
  - which clauses appear, and in what order;
  - which values are bound, and where;
  - that the limit is last;
  - that placeholders are numbered in order;
  - what the two branches look like.

Two behaviours of the code are easy to miss, and the model keeps both:

- The detection loop (database.js:122) checks every key of the options
  object, not only the four it filters on. An unknown key whose value is
  `!= ''` selects the filtered query.
- The city filter (database.js:157) tests truthiness, as the price and rating
  filters do, and not string emptiness.

## Model

| member | source | states |
|---|---|---|
| JsValue.Truthy | LightBnB_WebApp/server/database.js:157-164 | a truthy option is always `!= ''`; the two tests differ exactly on `null` and `undefined` (falsy yet `!= ''`); on strings they agree |
| JsValue.TemplateString | LightBnB_WebApp/server/database.js:158 | `${v}` of a string is the string itself; of a safe integer (magnitude at most 2^53 − 1), a `-` exactly when negative followed by digits whose value is the magnitude; of a boolean, `null` or `undefined`, its name |
| JsValue.IntToDecimal | LightBnB_WebApp/server/database.js:158 | `String(n)` of a safe integer (magnitude at most 2^53 − 1) starts with `-` exactly when n is negative, and the rest is a numeral that reads back as the magnitude of n |
| JsValue.DecimalRoundTrip | LightBnB_WebApp/server/database.js:139 | the numeral written for `queryParams.length` reads back as that number |
| JsValue.DecimalInjective | LightBnB_WebApp/server/database.js:139 | distinct positions are written as distinct numerals |
| SqlText.Placeholder | LightBnB_WebApp/server/database.js:139 | `$${n}` is `$` followed by decimal digits whose value is n |
| SqlText.RenderAppend | LightBnB_WebApp/server/database.js:138-139 | appending fragments to a text appends their strings to its rendering (`+=` on the query string) |
| SqlText.AssembleNumbersPlaceholders | LightBnB_WebApp/server/database.js:158-192 | when every clause has one value per hole, the placeholders of the assembled text are exactly 1, 2, ..., n in text order, n being the number of values |
| SqlText.AssembleBindsClause | LightBnB_WebApp/server/database.js:164-175 | each clause's values occupy the parameter positions right after the earlier clauses' values, and its text sits in the query with its holes numbered by those positions |
| PropertySearch.EffectiveLimit | LightBnB_WebApp/server/database.js:113 | the default parameter: 10 when the limit is `undefined`, the given value (`null` included) otherwise |
| PropertySearch.CityPattern | LightBnB_WebApp/server/database.js:158 | the bound city value is a string that starts and ends with `%` and holds `${city}` between them, for any value of the city; for a string city that is the city itself |
| PropertySearch.FindSearchValue | LightBnB_WebApp/server/database.js:119-127 | the `for...in` loop with `break` sets `queries` exactly when some option's value is `!= ''`, whatever order the keys are visited in |
| PropertySearch.UnfilteredQuery | LightBnB_WebApp/server/database.js:130-139 | the plain branch binds exactly `[limit]` and its string renders the plain text ending in `LIMIT $1` |
| PropertySearch.AppendCityFilter | LightBnB_WebApp/server/database.js:157-161 | a truthy city pushes `%city%` and appends ` WHERE LOWER(city) LIKE LOWER($1) `; `cityEmpty` ends false exactly when it ran; otherwise nothing changes |
| PropertySearch.AppendPriceFilter | LightBnB_WebApp/server/database.js:164-176 | two truthy bounds push minimum then maximum and append the range naming `$(n-1)` and `$n`, opened by ` AND ` when `cityEmpty` is false and by ` WHERE ` otherwise; one bound alone changes nothing |
| PropertySearch.AppendRatingFilter | LightBnB_WebApp/server/database.js:183-186 | a truthy rating is pushed and named by a HAVING on the average rating; otherwise nothing changes |
| PropertySearch.FilteredSelectWhere | LightBnB_WebApp/server/database.js:146-176 | the filtered branch up to its conditions: the values are the city pattern then the price bounds, each present as its filter ran, and the string renders the SELECT followed by the city and price conditions naming those positions |
| PropertySearch.FilteredQuery | LightBnB_WebApp/server/database.js:146-193 | the filtered branch's parameters are the city pattern, the price bounds, the rating and the limit, each present as its filter ran; its string renders SELECT, the conditions, GROUP BY, HAVING, ORDER BY and `LIMIT $n;` with every placeholder naming its value's position |
| PropertySearch.GetAllPropertiesQuery | LightBnB_WebApp/server/database.js:113-193 | the builder's string and parameters are exactly the rendering and the values of the reference query `Build` |
| PropertySearch.FilteredShape | LightBnB_WebApp/server/database.js:146-193 | with a search value, the reference clauses assemble to the filtered branch's text and values, part by part |
| PropertySearch.UnfilteredShape | LightBnB_WebApp/server/database.js:130-139 | without a search value, the reference clauses assemble to the plain text with the limit as its only value |
| PropertySearch.RenderUnfilteredText | LightBnB_WebApp/server/database.js:131-139 | the plain query's string is the SELECT, the GROUP BY and `LIMIT $1`, nothing else |
| QueryGuarantees.FilterMeansSearchValue | LightBnB_WebApp/server/database.js:122-186 | any filter that runs implies that the detection loop found a value, so no condition is ever dropped by the plain branch |
| QueryGuarantees.ParameterCount | LightBnB_WebApp/server/database.js:157-189 | the number of bound values is [city] + 2·[both prices] + [rating] + 1 |
| QueryGuarantees.LimitIsLastParameter | LightBnB_WebApp/server/database.js:137-192 | in both branches the limit is the last value and the LIMIT placeholder is the number of values |
| QueryGuarantees.OmittedLimitIsTen | LightBnB_WebApp/server/database.js:113 | leaving the limit out gives the same query as passing 10; any other limit, `null` included, is bound last as given |
| QueryGuarantees.UnfilteredQueryIsPlain | LightBnB_WebApp/server/database.js:118-139 | with no option `!= ''` only the limit is bound, there is no WHERE, HAVING or ORDER BY, and the string ends in `LIMIT $1` |
| QueryGuarantees.CityFilterBindsPattern | LightBnB_WebApp/server/database.js:157-161 | a truthy city is bound first as `%city%` and its LIKE condition, naming `$1`, opens the WHERE clause right after the SELECT |
| QueryGuarantees.PriceFilterBindsBounds | LightBnB_WebApp/server/database.js:164-176 | two truthy bounds are bound minimum then maximum right after the city, and the range names exactly those two positions; it opens with AND after a city and with WHERE otherwise |
| QueryGuarantees.RatingFilterBindsRating | LightBnB_WebApp/server/database.js:179-186 | a truthy rating is the next-to-last value and its HAVING condition, naming that position, directly follows GROUP BY |
| QueryGuarantees.ClausesPresentExactlyWhenAsked | LightBnB_WebApp/server/database.js:157-193 | the city, price and rating conditions are in the text exactly when their options are truthy (one price bound adds nothing), and ORDER BY exactly when the filtered branch ran |
| QueryGuarantees.WhereAtMostOnce | LightBnB_WebApp/server/database.js:149-176 | WHERE is at most the second fragment and nowhere else, present exactly when a city or a price range filters; the AND connective is present exactly when both do (the price range's own `AND cost_per_night` is a different phrase) |
| QueryGuarantees.GroupBySeparatesConditions | LightBnB_WebApp/server/database.js:157-186 | in the filtered branch GROUP BY sits after the SELECT and the city and price conditions; no HAVING comes before it, and no WHERE, AND, city or price condition after it |
| QueryGuarantees.FilteredBranchWithoutFilters | LightBnB_WebApp/server/database.js:122-193 | an option that is `!= ''` but runs no filter (an unknown key, one price bound, a `null` city) still gives the filtered query, with GROUP BY, ORDER BY and `LIMIT $1` and no condition |
| QueryGuarantees.PlaceholdersNumberedInOrder | LightBnB_WebApp/server/database.js:158-192 | in both branches the placeholders, read in text order, are `$1` ... `$n` for the n bound values, each once |
| QueryGuarantees.ClauseBindsItsValues | LightBnB_WebApp/server/database.js:157-192 | for every clause of the search, its values sit in the parameter list right after the earlier clauses' values, and its text sits in the query with its holes numbered by those positions, so `$k` names the k-th value |
| QueryGuarantees.CitySearchExample | LightBnB_WebApp/server/database.js:146-193 | `{city: "Vancouver"}` with no limit binds `["%Vancouver%", 10]` under a WHERE ... GROUP BY ... ORDER BY ... `LIMIT $2` text |
| QueryGuarantees.PriceAndRatingExample | LightBnB_WebApp/server/database.js:146-193 | price bounds 50 and 200, rating 4 and limit 5 bind `[50, 200, 4, 5]`, the range opening with WHERE and HAVING naming `$3` |

## Left out

- The connection pool, `pool.query(...)`, its promise chain and the error
  logging: the model stops at the string and values handed to the pool.
- The other functions of the data-access layer (`getUserWithEmail`,
  `getUserWithId`, `addUser`, `getAllReservations`, `addProperty`) and the
  unused JSON fixtures: each is a fixed query with a fixed values array.
- What the SQL means: LIKE matching, `AVG`, the inner join that drops
  unreviewed properties, the ordering. SQL text is treated as opaque phrases.
- Fractional numbers, `NaN`, the infinities, arrays and objects as option
  values, and integers beyond 2^53 − 1 in magnitude. A JavaScript number is a
  double: above 2^53 − 1 `String()` rounds to the shortest digits that read
  back to the same double, and from 10^21 on it uses exponent notation
  (`"1e+21"`). Numbers are therefore safe integers (`JsValue.SafeInt`), where
  `${n}` is exactly the signed numeral.
- Inherited enumerable properties seen by `for...in`: the options are a map of
  own keys. A `null` or `undefined` options object is not modelled; the loop
  treats it as having no keys, which is the empty map here.
- The order in which `for...in` visits keys: the loop picks any remaining key.
  The answer does not depend on the order.
- The inline layout of the filtered branch: its three filter blocks are
  separate methods here (`AppendCityFilter`, `AppendPriceFilter`,
  `AppendRatingFilter`) that take and return the two accumulators, and the
  statements up to the price filter form `FilteredSelectWhere`. The
  statements and their order are the same.
