# Expense tracker engine in Dafny

A model of the engine of a browser-based personal expense tracker (`script.js`). The engine has four parts.

- **Store.** It keeps two lists: the expenses and the spending budgets. It adds, edits and deletes expenses, and creates or replaces the budget of a (category, period) key.
- **List view.** `filterExpenses` selects expenses by date range, category and search text, then sorts them in one of five orders.
- **Aggregates.**
  - the total;
  - the average spending per day of the current month;
  - the per-category totals;
  - the budget remainder and utilization of a key.
- **Reports and parser.**
  - three history reports: six months, three years and thirty days;
  - a parser that turns a pasted WhatsApp message into a draft expense.

Modules:

- `Util`: filtering (`Keep`), lookup (`FindIndex`, `Find`), first and last match.
- `Text`: characters, trimming, splitting and joining, search, string order, decimal digits.
- `Calendar`: days, their `YYYY-MM-DD` text, day and month stepping.
- `Records`: the records, the category list and sums of amounts.
- `Store`: the `ExpenseStore` class, whose methods update its two lists in place.
- `Query`: `filterExpenses` and its stable sort.
- `Budgets`, `Stats` and `History`: the aggregates and the reports.
- `Parser` and `ParserFacts`: the message parser and what it promises.

The parser's loops are methods proved against the functions `Parse` and `InferCategory`. The three report loops share the counted loop `History.CountDown`.

Amounts and limits are integer cents. The clock reading ("now", today), generated ids and timestamps are parameters.

## Model

| member | source | states |
|---|---|---|
| Store.ExpenseStore.constructor | script.js:116-117 | the store starts with the loaded lists, and its invariant (unique ids, one budget per key) holds |
| Store.ExpenseStore.AddExpense | script.js:120-133 | appends exactly one record built from the form and the fresh id, returns it, leaves the budgets alone and keeps the ids unique |
| Store.FormTagsShape | script.js:127 | a blank tag field gives no tags; otherwise one tag per comma-separated piece, none dropped, tag i being the trimmed piece i, each free of commas |
| Store.ExpenseStore.EditExpense | script.js:135-151 | with no record of that id, nothing changes and the result is absent; otherwise only the record at the first index with that id is replaced by its edit, and the edit is returned |
| Store.EditedKeepsIdentity | script.js:138-146 | an edited record keeps its id and creation time, gets `updatedAt`, and takes every form field from the input |
| Store.ExpenseStore.DeleteExpense | script.js:153-156 | the expenses become exactly the records whose id differs, in order; the ids stay unique |
| Store.DeleteMeaning | script.js:154 | with unique ids, deletion removes exactly the one record with that id, or nothing when there is none |
| Store.KeepUniqueIds | script.js:154 | filtering a list with unique ids leaves the ids unique |
| Store.Upserted | script.js:211-230 | the budget list setBudget leaves; its meaning is stated by Store.UpsertedLookup: one budget per key is kept, the key then finds the new budget, other keys find what they found |
| Store.ExpenseStore.SetBudget | script.js:211-230 | the budget of the same key is replaced at its index, or the new one is appended; returns the budget; the expenses are untouched |
| Store.UpsertedLookup | script.js:212-226 | after the upsert there is still one budget per key, the lookup of the key finds the new budget, and every other key finds what it found before |
| Store.FindOtherKey | script.js:222-223 | replacing the budget of one key leaves the lookup of any other key unchanged |
| Store.FindAppendOther | script.js:224-225 | appending the budget of a new key leaves the lookup of any other key unchanged |
| Query.FilterExpenses | script.js:158-208 | the four filters applied one after another select what their conjunction selects; then comes the sort of the chosen key, or no sort for any other value |
| Query.FilterFacts | script.js:158-208 | the result holds exactly the matching records, each as often as in the list; it is ordered by a known key, keeps records of equal key in list order, and is in list order for an unknown key |
| Query.Compare | script.js:189-205 | the five comparators (newest, oldest, highest, lowest amount, category); Query.CompareFlip and Query.CompareTransitive state that each is a total preorder |
| Query.SortBy | script.js:188-205 | the stable sort; Query.SortFacts states that it is a permutation, ordered by the comparator, and keeps records of equal key in list order |
| Query.CompareFlip | script.js:189-205 | each of the five comparators is antisymmetric |
| Query.CompareTransitive | script.js:189-205 | each of the five comparators is transitive |
| Query.SortPermutation | script.js:191-203 | sorting is a permutation |
| Query.SortOrdered | script.js:191-203 | the sorted list is ordered by the comparator |
| Query.SortStable | script.js:191-203 | records of equal key keep their relative order (the sort is stable) |
| Query.InsertPermutation | script.js:191-203 | inserting one record adds exactly it |
| Query.InsertOrdered | script.js:191-203 | inserting into an ordered list keeps it ordered |
| Query.InsertAbove | script.js:191-203 | a record that sorts at or before x and before every element of a list still does so once x is inserted |
| Query.InsertStable | script.js:191-203 | insertion keeps the relative order of records of equal key |
| Query.SortFacts | script.js:191-203 | the sort is a permutation, ordered and stable |
| Budgets.FindBudgetMeaning | script.js:233 | the lookup is absent exactly when no budget has the key; a found budget has the key; with one budget per key it is that budget |
| Budgets.PeriodStart | script.js:239-245 | the first day of the current month or year is a valid day |
| Budgets.PeriodEnd | script.js:239-245 | the last day of the current month (day zero of the next) or of the year is a valid day |
| Budgets.PeriodBounds | script.js:239-245 | a valid day lies between the period's first and last day exactly when it is in the current month or year |
| Budgets.CountsMeaning | script.js:247-251 | for expenses dated by four-digit-year days, the string comparison against the period's window selects exactly the category's expenses dated in the period |
| Budgets.SpentMeaning | script.js:247-253 | what was spent sums over exactly the expenses that count, and is non-negative for non-negative amounts |
| Budgets.Percent | script.js:279 | `(spent / limit) * 100`: finite exactly when the limit is non-zero, and then times the limit it is 100 times the spent amount; a zero limit gives Infinity for a positive spent amount and NaN for zero |
| Budgets.CalculateBudgetRemaining | script.js:232-255 | calculateBudgetRemaining; Budgets.QueriesDefined states that it answers exactly when a budget has the key, and Budgets.RemainingAndUtilization that its answer plus what was spent in the window is the limit |
| Budgets.GetBudgetUtilization | script.js:257-280 | getBudgetUtilization; Budgets.QueriesDefined states when it answers, Budgets.Percent what the percentage is, and Budgets.RemainingAndUtilization how it agrees with the remainder |
| Budgets.QueriesDefined | script.js:232-259 | both queries answer exactly when some budget has the key |
| Budgets.RemainingAndUtilization | script.js:232-280 | the remainder plus what was spent is the limit; for a positive limit, utilization is finite, below 100 exactly when the remainder is positive, and 100 exactly when it is zero |
| Budgets.PercentBelow | script.js:279 | a percentage of a positive limit is below or at 100 exactly when the amount is below or at the limit |
| Stats.CalculateTotalExpenses | script.js:283-286 | calculateTotalExpenses; Stats.TotalFacts states which list is summed and that the total is additive, order-independent and non-negative for non-negative amounts |
| Stats.TotalFacts | script.js:283-286 | a given list, even an empty one, is summed instead of the store; the total is additive over concatenation, independent of order, and non-negative for non-negative amounts |
| Stats.CalculateAverageSpending | script.js:288-305 | calculateAverageSpending; Stats.AverageFacts states that it is 0 for an empty list and otherwise the month total divided by the day of the month |
| Stats.AverageFacts | script.js:288-305 | the average is 0 for an empty list; times the day of the month it gives the month's total; non-negative for non-negative amounts |
| Stats.MonthTotalFacts | script.js:297-303 | the month's total sums exactly the expenses dated in that month |
| Stats.InMonthIso | script.js:298-300 | an expense dated by a day's ISO text is in a month exactly when that day is |
| Stats.CalculateCategoryTotals | script.js:307-318 | calculateCategoryTotals; Stats.CategoryTotalsKeys, Stats.CategoryTotalFacts and Stats.CategoryTotalsSum state its keys, its entries and their sum |
| Stats.CategoryTotalsKeys | script.js:307-318 | the totals have exactly the eight categories as keys, each mapped to its category's total |
| Stats.CategoryTotalFacts | script.js:312-314 | a category's total sums exactly that category's expenses |
| Stats.CategoryTotalsSum | script.js:307-318 | when every expense has one of the categories, the category totals add up to the overall total |
| History.CountDown | script.js:326-342 | the loop `for (let i = n - 1; i >= 0; i--) push(bucket(i))` yields n buckets, position k holding the one for `i = n - 1 - k` |
| History.MonthComparison | script.js:320-345 | the six month buckets; History.MonthComparisonFacts states their labels and totals, History.MonthComparisonSum that each expense of the six months is counted once |
| History.CompareMonths | script.js:320-345 | returns the six month buckets, oldest first |
| History.BucketMonthsConsecutive | script.js:326-330 | the six months are consecutive and end with the current month |
| History.MonthComparisonFacts | script.js:326-342 | six buckets, bucket k labelled `Mon YYYY` and totalling the k-th month; the last is the current month |
| History.MonthComparisonSum | script.js:332-341 | each expense dated in one of the six months is counted in exactly one bucket, and no other expense is counted |
| History.MonthTotalByKey | script.js:332-336 | the month filter picks the expenses whose (year, month) number is that month's |
| History.MonthNumberInjective | script.js:334-335 | two valid (year, month) pairs with the same month number are equal |
| History.YearComparison | script.js:347-366 | the three year buckets; History.YearComparisonFacts and History.YearComparisonSum state their labels, totals and coverage |
| History.CompareYears | script.js:347-366 | returns the three year buckets, oldest first |
| History.YearComparisonFacts | script.js:352-363 | three buckets labelled by the two previous years and the current year, in that order, each totalling the expenses dated in its year |
| History.YearComparisonSum | script.js:354-361 | each expense dated in one of the three years is counted in exactly one bucket, and no other expense is counted |
| History.YearTotalByKey | script.js:354-357 | the year filter picks the expenses whose parsed year is that year |
| History.SpendingTrends | script.js:368-386 | the thirty day buckets; History.SpendingTrendsFacts states their days, dates and totals |
| History.GetSpendingTrends | script.js:368-386 | returns the thirty day buckets, oldest first |
| History.SpendingTrendsFacts | script.js:372-383 | thirty buckets for thirty consecutive days ending today, each dated by its day's ISO text and totalling exactly the expenses carrying that date |
| Calendar.DaysInMonth | script.js:241 | day zero of the next month is 28 to 31, with 29 in February exactly in leap years |
| Calendar.ParseIsoDate | script.js:298 | `new Date(e.date)` for a `YYYY-MM-DD` string: a parsed date is a valid day with a four-digit year; Calendar.ParseIsoDateRoundTrip states that it reads back the ISO text of any such day |
| Calendar.ParseIsoDateRoundTrip | script.js:298 | reading back the ISO text of a day with a four-digit year gives that day |
| Calendar.IsoDateOrder | script.js:249-250 | for four-digit years, comparing ISO date strings orders them as their days |
| Calendar.PrevNextInverse | script.js:373-374 | stepping a day back and forward are inverse |
| Calendar.DaysBack | script.js:373-374 | `setDate(getDate() - i)` gives a valid day, earlier than the start when i > 0 |
| Calendar.MonthsBack | script.js:327 | `new Date(year, month - i, 1)` normalises to a valid month exactly i months earlier |
| Parser.Parse | script.js:805-905 | the draft of a message; the ParserFacts lemmas state each field: amount, category, date, description and tags |
| Parser.ParseWhatsAppMessage | script.js:805-905 | the parser computes the draft `Parse` describes |
| Parser.ScanLines | script.js:815-857 | the line loop: amount under the `!amount` guard; category, date and description at their first match; tags at their last |
| Parser.MatchKeywords | script.js:884-890 | the keyword loop finds the first table row with a keyword in the lower-cased message |
| Parser.Lines | script.js:807 | the lines visited; Parser.LinesTrimmed states that they are exactly the non-empty trimmed pieces between line feeds |
| Parser.LineAmount | script.js:817-820 | the labelled amount of a line; Parser.SearchFound, Parser.SearchNone state where it matches, Parser.NumberAtWhole and Parser.NumberAtCents what number it reads, Parser.LineAmountWritten a whole line, and ParserFacts.ParseAmountLabelled how it sets the amount |
| Parser.CategoryCapture | script.js:823-829 | the category capture of a line; Parser.LineFieldsShape and ParserFacts.ParseCategoryFirstLine state what it sets |
| Parser.LinesTrimmed | script.js:807 | every line visited is non-empty, trimmed and one of the trimmed pieces between line feeds, and every piece that trims to something non-empty is visited |
| Parser.LabelledAmountMeaning | script.js:817-820 | the first positive labelled amount wins; with none, a labelled zero is kept; with no labelled amount at all there is none |
| Parser.SearchFound | script.js:817-853 | a match comes from the leftmost position where a label is present and its tail matches |
| Parser.SearchNone | script.js:817-853 | there is no match exactly when no label anywhere is followed by a matching tail |
| Parser.TryLabelsSome | script.js:817-853 | the labels are tried in order, and a match is some present label's tail |
| Parser.ScanLeftmost | script.js:861 | the scan yields the match at the leftmost matching position, and none when no position matches |
| Parser.NumberAt | script.js:817 | the number ends after its start, within the line; Parser.NumberAtUnits and Parser.NumberAtFraction state its value |
| Parser.NumberAtUnits | script.js:817 | a run of digits with no point and two digits after it reads as its value in whole units, and the match ends with the run |
| Parser.NumberAtFraction | script.js:817 | a run of digits followed by a point and two digits reads as the units plus the two digits as hundredths, and the match ends after them |
| Parser.NumberAtWhole | script.js:817-819 | a number written by toString and followed by neither a digit nor a point reads back as that number |
| Parser.NumberAtCents | script.js:817-819 | cents written as units, a point and two digits, followed by no digit, read back as the same cents |
| Parser.LineAmountWritten | script.js:817-819 | a line `amount: <n>` gives the amount n |
| Parser.LabelAtSpelled | script.js:817 | a label is present at a position exactly when the characters from there, lower-cased, spell it |
| Parser.DateCapture | script.js:832-833 | a captured date token has one of the three accepted shapes |
| Parser.NormalizeDate | script.js:834-843 | the date reordering; Parser.NormalizeDateCorrect states its result for each accepted shape |
| Parser.NormalizeDateCorrect | script.js:834-843 | `dd/mm/yyyy` and `dd-mm-yyyy` become `yyyy-mm-dd`, `yyyy-mm-dd` is kept, every accepted token ends in the shape `dddd-dd-dd` |
| Parser.SplitToken | script.js:837-841 | a ten-character token with the separator at positions 2 and 5 splits into its three digit fields |
| Parser.LineFieldsShape | script.js:823-850 | a category set by a line is one of the labels, a date has the ISO shape, a description is non-empty |
| Parser.SplitTags | script.js:855 | the tag pieces of a line; Parser.SplitTagsShape states that they are exactly the non-empty trimmed comma-separated pieces |
| Parser.SplitTagsShape | script.js:855 | every tag is non-empty, trimmed, free of commas and one of the trimmed comma-separated pieces, and every piece that trims to something non-empty is a tag |
| Parser.InferCategory | script.js:873-891 | the keyword lookup; Parser.InferCategoryIn, ParserFacts.InferCategoryFirstRow and Parser.MatchKeywords state that it is the first row with a keyword present, a listed category |
| Parser.InferCategoryIn | script.js:873-891 | an inferred category is one of the fixed labels |
| Parser.KeywordTableCategories | script.js:874-882 | every row of the keyword table is a category of the list |
| ParserFacts.ParseCategoryValid | script.js:822-896 | the category is always one of the eight labels |
| ParserFacts.ParseCategoryFirstLine | script.js:823-829 | the first line with a valid category label sets the category |
| ParserFacts.ParseCategoryInferred | script.js:873-896 | with no valid label the keyword table decides, and otherwise "Other" |
| ParserFacts.InferCategoryFirstRow | script.js:885-890 | the inferred category is that of the first row in order with a keyword present; none exactly when no row hits |
| ParserFacts.ParseDateFirstLine | script.js:832-844 | the first line with a date token sets the date, normalised |
| ParserFacts.ParseDateToday | script.js:868-870 | with no date in any line the date is today's ISO text |
| ParserFacts.ParseDateShape | script.js:832-870 | the date always has the shape `dddd-dd-dd` |
| ParserFacts.ParseDescriptionFirstLine | script.js:847-850 | the first line with a non-empty description sets it, trimmed |
| ParserFacts.ParseDescriptionEmpty | script.js:847-850 | the description is empty exactly when no line sets one |
| ParserFacts.ParseTagsLastLine | script.js:853-856 | the last line with a tags label sets the tags, joined with ", " |
| ParserFacts.ParseTagsNone | script.js:853-856 | with no tags label the tags are the empty string |
| ParserFacts.ParseAmountLabelled | script.js:817-820 | the first positive labelled amount is the amount, and the fallback is not consulted |
| ParserFacts.ParseAmountFallback | script.js:859-865 | with no positive labelled amount, the first standalone number of the message is the amount |
| ParserFacts.ParseAmountNone | script.js:859-865 | with neither, the amount is absent unless a line had a labelled zero, which is kept |
| Parser.FallbackNumber | script.js:859-865 | the first standalone number; ParserFacts.FallbackLeftmost and ParserFacts.ParseAmountFallback state where it matches and when it sets the amount |
| ParserFacts.FallbackLeftmost | script.js:861 | the fallback number matches at its leftmost position; there is none exactly when no position matches |
| Text.TrimIdempotent | script.js:807 | trimming twice is trimming once |
| Text.JoinSplit | script.js:855 | joining the pieces of a split on a character with that character gives back the text: splitting loses nothing |
| Text.LexAntisymmetric | script.js:165-168 | string comparison is antisymmetric |
| Text.LexTransitive | script.js:165-168 | string comparison is transitive |
| Records.TotalAppend | script.js:285 | the sum of amounts is additive over concatenation |
| Records.TotalPermutation | script.js:285 | the sum of amounts does not depend on order |
| Records.KeySumCovers | script.js:311-315 | over distinct keys, the per-key totals add up to the total of the expenses carrying one of the keys |

## Left out

- Storage, the page, charts, export, authentication and WhatsApp sending are not part of this model. `saveExpenses` and `saveBudgets` are I/O.
- Store.ExpenseStore.constructor: requires the loaded lists to have unique ids and one budget per key. The source loads them from storage without a check (script.js:116-117); only the four operations, each proved to keep that invariant, write them.
- Clock and randomness: `crypto.randomUUID()`, `new Date()` and `toISOString()` timestamps are parameters. Store.ExpenseStore.AddExpense requires the fresh id to be unused, which is what a random UUID gives in practice.
- Time zones:
  - The budget window's bound strings are a parameter (`Budgets.Window`). The source builds them with `toISOString()` of local midnights, which shifts them by a day east of UTC. `Budgets.PeriodWindow` is the window they are meant to be, and `Budgets.CountsMeaning` is stated for it.
  - `new Date("YYYY-MM-DD")` is read as UTC while `getMonth`/`getFullYear` are local. The model reads the date fields as written.
  - getSpendingTrends' `toISOString()` is taken as the local day.
- Date parsing: `new Date(e.date)` is modelled as strict `YYYY-MM-DD` parsing of a valid day (`Calendar.ParseIsoDate`). Other strings JavaScript accepts count as unparsable, like `NaN`.
- Date sorting: the source subtracts `new Date(...)` values. The model compares the date strings, which agrees for ISO dates with four-digit years (`Calendar.IsoDateOrder`).
- Numbers:
  - Amounts and limits are exact integer cents, and the form values arrive already parsed. `parseFloat` of arbitrary text and floating-point rounding are not modelled.
  - The parser's amount is given in cents.
  - The average and the percentage are exact reals.
  - Division by a zero limit gives `Budgets.Percentage` values standing for Infinity and NaN.
- Text:
  - `toLowerCase` is modelled as ASCII case folding.
  - `localeCompare` is modelled as code-point order.
  - String comparison with `<`, `<=` and `>=` (`Text.LexCompare`) is modelled as code-point order. JavaScript compares UTF-16 code units; the two orders differ only between a character above U+FFFF and one in U+E000 to U+FFFF.
  - Month names are the English short names, the labels of `toLocaleString('default', …)` in an English locale.
- JavaScript's `sort` has been stable since ES2019; it is modelled as a stable insertion sort.
- Sort key: a sort value other than the five known ones is `None` in `Query.Criteria`, and the list keeps its order.
- The period is the datatype `Monthly | Yearly`, the two values the budget form offers. An unknown period string follows the yearly branch in the source, and that case is not modelled.
- The rupee label: in `script.js:817` it appears as mis-decoded text. It is modelled as the single character U+20B9.
- Queries on the live store: `filterExpenses`, `compareMonths` and the other queries read the global lists. Here those lists are parameters, namely the store's `expenses` and `budgets`.
