# Andhra Pradesh 2024 assembly election dashboard — a Dafny model

The dashboard is a single-page React application. It is built over one static
dataset: 175 constituency records. Each record has a number, a name, a
district, the electorate, a polling percentage, the winner and the runner-up,
the winning margin and a top-five candidate list.

Every page derives its tables, cards and charts from that array with small
pieces of pure logic:

- search filtering and pagination of the constituency list, including the
  window of page buttons;
- the per-district roll-up behind the district cards, their fixed display
  order, and the list of one selected district;
- the per-party accumulation of seats and votes, the sorted party table and
  the top-eight chart;
- the party page's wins, vote total, vote share and district breakdown;
- the constituency page's lookup by route parameter and its top-five table,
  including the zero-guarded vote shares;
- the seats summary, the votes bar chart's labels and legend, and the party
  colour tables.

This project models that logic in Dafny and proves what each view promises.

How the model is laid out:

- The dataset is a parameter: a `seq<Constituency>`.
- React state (the search text, the current page and the page size) is an
  explicit value, `Constituencies.ListView`. Event handlers are functions
  from one view to the next.
- The estimated ballots of a constituency (`Math.round(electors * percent /
  100)`) involve floating point. They enter as a parameter
  `polled: Constituency -> nat`.
- A vote share is kept as an unevaluated ratio (`Share`), without division.
  What matters about it is checked: the zero guard, and which numerator and
  denominator were used.
- A JavaScript object used as a dictionary is `Dicts.Dict`. It keeps its
  keys in insertion order, because that is the order `Object.values` and
  `Object.entries` report.
- `Array.prototype.sort` is `Sorting.SortBy`, a stable insertion sort. It is
  proved to return a permutation, ordered by the comparator whenever the
  comparator is a total preorder.

Where the source accumulates in a `forEach` or `for` loop, or in the
`reduce` that mutates its accumulator, the model has a `method` with that
loop. The `reduce`s that only add numbers are the functions `Seqs.SumBy` and
`ElectionTypes.SumPolled`. The method is proved equal to a
specification function, and the promised properties are lemmas about that
function.

Modules, one per source file:

| module | file | source |
|---|---|---|
| `Seqs` | `seqs.dfy` | helper theory: filters, sums, dedup |
| `Sorting` | `sorting.dfy` | helper theory: sorting |
| `Text` | `text.dfy` | JavaScript string built-ins: `toLowerCase`, `includes`, `trim`, `parseInt`, ordinal comparison |
| `Dicts` | `dicts.dfy` | records used as dictionaries |
| `ElectionTypes` | `election_types.dfy` | `src/types/election.ts` |
| `PartyColors` | `party_colors.dfy` | `src/lib/partyColors.ts` |
| `Constituencies` | `constituencies.dfy` | `src/pages/Constituencies.tsx` |
| `DistrictPerformance` | `district_performance.dfy` | `src/pages/DistrictPerformance.tsx` |
| `PartyStatsSummary` | `party_stats_summary.dfy` | `src/components/dashboard/PartyStatsSummary.tsx` |
| `PartyDetail` | `party_detail.dfy` | `src/pages/PartyDetail.tsx` |
| `PartySeatsSummary` | `party_seats_summary.dfy` | `src/components/dashboard/PartySeatsSummary.tsx` |
| `CandidatesTable` | `candidates_table.dfy` | `src/components/dashboard/CandidatesTable.tsx` |
| `ConstituencyDetails` | `constituency_details.dfy` | `src/pages/ConstituencyDetails.tsx` |
| `VotesBarChart` | `votes_bar_chart.dfy` | `src/components/dashboard/VotesBarChart.tsx` |

## Model

| member | source | states |
|---|---|---|
| PartyColors.GetPartyColor | src/lib/partyColors.ts:2-15 | A known party gets its own colour from the table; any other label gets the grey fallback; the result is never empty |
| PartyColors.GetPartyBgClass | src/lib/partyColors.ts:17-29 | A known party gets its own background class; any other label gets `bg-party-other` |
| PartyColors.GetPartyTextClass | src/lib/partyColors.ts:31-35 | Dark text exactly for TDP and BJP, white text for every other label |
| PartyColors.TablesAgree | src/lib/partyColors.ts:2-29 | The colour table and the class table have the same eight parties, and no known party falls back |
| PartyColors.LookupIsCaseSensitive | src/lib/partyColors.ts:13-35 | A lower-case label such as `tdp` is not recognised and gets all three fallbacks |
| ElectionTypes.DistrictLabel | src/pages/DistrictPerformance.tsx:54 | A district label is never empty: the record's own district, or `Unknown` when it has none |
| ElectionTypes.ShareOf | src/components/dashboard/PartyStatsSummary.tsx:59 | A share is a real ratio exactly when the denominator is positive, and then it has the given part and whole |
| Text.Lower | src/pages/Constituencies.tsx:31 | Lower-casing keeps the length and maps each character on its own |
| Text.IncludesIff | src/pages/Constituencies.tsx:34-37 | `includes` holds exactly when the query occurs at some index of the text |
| Text.IsBlankIff | src/pages/Constituencies.tsx:29 | A query whose trim is empty is exactly one made only of whitespace |
| Text.StrLtTrichotomy | src/pages/DistrictPerformance.tsx:47 | The ordinal string order used by the default `sort()` is a strict total order |
| Text.Compare | src/pages/DistrictPerformance.tsx:94 | `localeCompare` is negative, zero or positive exactly when the first name sorts before, equals or sorts after the second |
| Text.ParseIntOfIntToString | src/pages/ConstituencyDetails.tsx:17 | `parseInt` reads every decimal numeral `String(n)` back as `n`, negative numbers included |
| Constituencies.FilterConstituencies | src/pages/Constituencies.tsx:28-39 | A blank query keeps every record. Otherwise the result is a subsequence of the records that match by name, number, winner or winner's party, and every matching record is kept |
| Constituencies.TotalPages | src/pages/Constituencies.tsx:42 | The page count is the least number of full pages that covers every row; it is zero only for an empty list |
| Constituencies.TotalPagesDivMod | src/pages/Constituencies.tsx:42 | The page count is the quotient, plus one when there is a remainder |
| Constituencies.PageSlice | src/pages/Constituencies.tsx:43-45 | A page holds the rows from `(page-1)*size`, clipped to the list; it has at most `size` rows and is empty beyond the last page |
| Constituencies.PagesCoverList | src/pages/Constituencies.tsx:42-45 | The pages `1..totalPages`, one after the other, make up exactly the filtered list |
| Constituencies.LastPageLength | src/pages/Constituencies.tsx:42-45 | The last page holds the remainder of the rows, or a full page when the remainder is zero |
| Constituencies.GetPageNumbers | src/pages/Constituencies.tsx:59-83 | The loop-built button list equals the specified page window |
| Constituencies.WindowNumbersIncreasing | src/pages/Constituencies.tsx:59-83 | Every page button is a page in `1..totalPages`, and the buttons strictly increase from left to right |
| Constituencies.WindowShape | src/pages/Constituencies.tsx:63-80 | For a current page in range, the window has one to seven items, starts at page 1, ends at the last page and contains the current page |
| Constituencies.WindowEllipsisMarksGaps | src/pages/Constituencies.tsx:66-80 | An ellipsis sits only between two page buttons that skip at least one page; adjacent buttons are consecutive pages |
| Constituencies.ItemsPerPageLabelsParse | src/pages/Constituencies.tsx:20 | The page-size selector shows exactly the four sizes as labels, and `parseInt` reads each label back as its size |
| Constituencies.HandleSearch | src/pages/Constituencies.tsx:48-51 | A new search text returns the table to page 1 and keeps the page size |
| Constituencies.HandleItemsPerPageChange | src/pages/Constituencies.tsx:53-56 | Choosing a label from the selector sets the size whose label was chosen (`parseInt` of it, one of the four sizes) and returns to page 1, keeping the search |
| Constituencies.PrevPage | src/pages/Constituencies.tsx:255 | Previous goes back one page but never below page 1 |
| Constituencies.NextPage | src/pages/Constituencies.tsx:285 | Next goes forward one page but never past the last page |
| Constituencies.StepKeepsViewValid | src/pages/Constituencies.tsx:246-290 | Every action the page offers (search, size change, previous, next, a page button) keeps the view on a listed size and on a page that exists |
| Constituencies.ValidViewShowsRows | src/pages/Constituencies.tsx:42-45 | In such a view, a non-empty search result always shows a non-empty page |
| Constituencies.InitialViewValid | src/pages/Constituencies.tsx:23-25 | The initial state (empty search, page 1, 25 rows) is such a view |
| DistrictPerformance.StrLePreorder | src/pages/DistrictPerformance.tsx:47 | The default string comparator is a total preorder, so the district sort is well defined |
| DistrictPerformance.UniqueDistricts | src/pages/DistrictPerformance.tsx:45-48 | The selector lists every record's district label once, in strictly increasing order, and lists nothing else |
| DistrictPerformance.ComputeDistrictStats | src/pages/DistrictPerformance.tsx:50-72 | The `forEach` roll-up computes exactly the specified per-district statistics |
| DistrictPerformance.CountRecord | src/pages/DistrictPerformance.tsx:53-71 | One pass of the loop body creates the card on a first record and then counts the seat, the winner's party and the polled votes, exactly as one `AddRecord` step |
| DistrictPerformance.RollupWellFormed | src/pages/DistrictPerformance.tsx:53-67 | There is one card per district label and no other. Each card is named by its key, has at least one seat, and its party wins add up to its seats |
| DistrictPerformance.RollupCountsDistrict | src/pages/DistrictPerformance.tsx:54-71 | A card's seat count is the number of the district's records, and its vote total is the sum of their polled votes |
| DistrictPerformance.RollupCountsWins | src/pages/DistrictPerformance.tsx:66-67 | A card's tally for a party is the number of the district's records that party won |
| DistrictPerformance.RollupSeatsSum | src/pages/DistrictPerformance.tsx:65 | The cards' seat counts add up to the number of records |
| DistrictPerformance.FilterDistricts | src/pages/DistrictPerformance.tsx:83-86 | A blank search keeps every card. Otherwise exactly the cards whose lower-cased name contains the lower-cased query are kept, in order, with no card twice |
| DistrictPerformance.OrderIndex | src/pages/DistrictPerformance.tsx:74-78 | `indexOf` in the fixed list of 13 districts is `-1` exactly for an unlisted name, and otherwise the name's position |
| DistrictPerformance.DistrictLePreorder | src/pages/DistrictPerformance.tsx:88-95 | The card comparator is a total preorder. It puts listed districts in list order before unlisted ones, and unlisted ones in name order |
| DistrictPerformance.NamesInOrderTransitive | src/pages/DistrictPerformance.tsx:88-95 | The intended card order is transitive across listed and unlisted districts |
| DistrictPerformance.DistrictOverview | src/pages/DistrictPerformance.tsx:80-95 | The overview is a permutation of the filtered cards, in that display order |
| DistrictPerformance.OverviewCoversDistricts | src/pages/DistrictPerformance.tsx:50-95 | With no search, every record's district has a card and every card is some record's district |
| DistrictPerformance.OverviewNamesDistinct | src/pages/DistrictPerformance.tsx:50-95 | No two overview cards share a name, so card keys are unique |
| Dicts.RankedEntries | src/pages/DistrictPerformance.tsx:179-180 | A card's party bar (and the party page's district list) is a permutation of the dictionary's entries, largest count first, equal counts in insertion order |
| DistrictPerformance.AcLePreorder | src/pages/DistrictPerformance.tsx:101 | Ordering by constituency number is a total preorder |
| DistrictPerformance.DistrictConstituencies | src/pages/DistrictPerformance.tsx:98-102 | As written: `all` lists nothing. Otherwise the list is a permutation of the records whose raw `District` equals the selection, ordered by number |
| DistrictPerformance.UnknownCardListsNothing | src/pages/DistrictPerformance.tsx:54-102 | A record without a district makes an `Unknown` card with one seat, but selecting that card lists no records |
| DistrictPerformance.DistrictConstituenciesByLabel | src/pages/DistrictPerformance.tsx:98-102 | Corrected: the records whose district label equals the selection, ordered by number, are listed |
| DistrictPerformance.SelectedListMatchesCard | src/pages/DistrictPerformance.tsx:65-166 | Corrected: selecting any card lists exactly as many records as the card's seat count |
| Dicts.UpsertInTwoSteps | src/components/dashboard/PartyStatsSummary.tsx:41-51 | The dictionary update equals the source's two steps: insert the initial value under a missing key, then overwrite that key's value. A new key goes last |
| Dicts.TotalBump | src/pages/PartyDetail.tsx:42 | Counting one more occurrence of a key raises the dictionary's total by exactly one |
| PartyStatsSummary.AccumulatePartyData | src/components/dashboard/PartyStatsSummary.tsx:39-53 | The nested `forEach` loops compute exactly the specified per-party tally |
| PartyStatsSummary.AddTopFiveVotes | src/components/dashboard/PartyStatsSummary.tsx:46-52 | The inner loop adds each top-five entry's votes to its party, creating the party's entry when missing, exactly as the reference tally of the list |
| PartyStatsSummary.TallyRecordSpec | src/components/dashboard/PartyStatsSummary.tsx:39-53 | One record adds a seat to its winner's party and each top-five entry's votes to that entry's party; no other tally changes |
| PartyStatsSummary.AccumulateKeys | src/components/dashboard/PartyStatsSummary.tsx:39-53 | The parties tallied are exactly the winners' parties together with the parties of any top-five entry |
| PartyStatsSummary.AccumulateCounts | src/components/dashboard/PartyStatsSummary.tsx:40-52 | A party's seats are the number of records it won; its votes are the sum over every top-five entry under its name |
| PartyStatsSummary.AccumulateSeatsSum | src/components/dashboard/PartyStatsSummary.tsx:44 | The parties' seats add up to the number of records |
| PartyStatsSummary.RunnerUpHasVotesWithoutSeats | src/components/dashboard/PartyStatsSummary.tsx:46-52 | A party that only appears in a top five gets a row with zero seats and its votes |
| PartyStatsSummary.ToStats | src/components/dashboard/PartyStatsSummary.tsx:55-60 | Each entry becomes one row with the same party, seats and votes, and its zero-guarded share of the state's polled votes |
| PartyStatsSummary.StatLePreorder | src/components/dashboard/PartyStatsSummary.tsx:62-65 | The table comparator (seats, then votes, both descending) is a total preorder |
| PartyStatsSummary.PartyStats | src/components/dashboard/PartyStatsSummary.tsx:55-65 | The table is a permutation of the rows. Parties with more seats come first; among equal seats, more votes come first |
| PartyStatsSummary.PartyStatsRows | src/components/dashboard/PartyStatsSummary.tsx:33-65 | The table has one row per party that won or stood: every such party has a row, no party has two, and no other name appears. Each row's seats, votes and share are that party's wins, its total top-five votes and that total over the state's polled votes |
| PartyStatsSummary.ChartRows | src/components/dashboard/PartyStatsSummary.tsx:111 | The chart shows the first eight rows of the table, or all of them when there are fewer |
| PartyStatsSummary.ChartShowsLeaders | src/components/dashboard/PartyStatsSummary.tsx:111-132 | No party left off the chart has more seats than a party on it |
| PartyDetail.FindParty | src/pages/PartyDetail.tsx:24 | `find` returns nothing exactly when no top-five entry has the party, and otherwise its first such entry |
| PartyDetail.TotalVotes | src/pages/PartyDetail.tsx:22-28 | The `forEach` loop adds up, over all records, the votes of the party's first top-five entry |
| PartyDetail.PageVotesAtMostTableVotes | src/pages/PartyDetail.tsx:22-28 | The page's vote total never exceeds the state table's. The two are equal when no record lists the party twice |
| PartyDetail.DuplicateListingCountedOnce | src/pages/PartyDetail.tsx:24 | A party listed twice in one top five gets 30 votes on its page but 50 in the state table |
| PartyDetail.Wins | src/pages/PartyDetail.tsx:20 | The wins are exactly the records the party won, in record order |
| PartyDetail.WinsMatchTable | src/pages/PartyDetail.tsx:20 | The page's win count equals the party's seats in the state table |
| PartyDetail.DistrictBreakdown | src/pages/PartyDetail.tsx:40-44 | The `reduce` computes exactly the specified district breakdown |
| PartyDetail.BreakdownCounts | src/pages/PartyDetail.tsx:40-44 | Each district's count is the number of wins there. A district appears exactly when some win is in it, and the counts add up to the wins |
| PartyDetail.PartyDetailPage | src/pages/PartyDetail.tsx:16-48 | A missing or empty name shows "not found". Otherwise the page shows the party's wins, its vote total, the zero-guarded share of the state's polled votes and the breakdown of the wins |
| PartyDetail.PageBreakdownAddsUp | src/pages/PartyDetail.tsx:40-44 | On a found page the district counts add up to the number of wins |
| PartySeatsSummary.SortedData | src/components/dashboard/PartySeatsSummary.tsx:9 | The sorted copy is a permutation of the input, most seats first |
| PartySeatsSummary.TotalSeatsOfInput | src/components/dashboard/PartySeatsSummary.tsx:10 | The total taken over the sorted copy equals the total of the input |
| PartySeatsSummary.StatCards | src/components/dashboard/PartySeatsSummary.tsx:41 | The stat cards are the first four sorted rows, or all of them when there are fewer |
| PartySeatsSummary.StatCardsAreLeaders | src/components/dashboard/PartySeatsSummary.tsx:9-41 | No party without a card has more seats than a party with one |
| CandidatesTable.RankStyle | src/components/dashboard/CandidatesTable.tsx:44-48 | Rank 1 gets the winner badge, rank 2 the secondary badge, and every other rank the muted badge |
| CandidatesTable.GuardedShare | src/components/dashboard/CandidatesTable.tsx:71 | A share is shown only when a positive total was passed, and then it has that total as its denominator |
| CandidatesTable.Top5TotalVotes | src/components/dashboard/CandidatesTable.tsx:11 | The top-five total is zero for an empty list, is never negative and is at least each candidate's votes |
| CandidatesTable.RenderTable | src/components/dashboard/CandidatesTable.tsx:11-81 | One row per candidate with its rank, name, party and votes, in order, and a footer holding the top-five total |
| CandidatesTable.SharesGuarded | src/components/dashboard/CandidatesTable.tsx:71-81 | Without a positive total every share, footer included, shows `0.00`. With one, each share is the votes over that total |
| CandidatesTable.WinnerRowMarked | src/components/dashboard/CandidatesTable.tsx:37-48 | A row is highlighted exactly when it has the winner badge, and that is exactly the rank-1 row |
| ConstituencyDetails.SelectedAc | src/pages/ConstituencyDetails.tsx:17 | A missing or empty route parameter selects constituency 1; otherwise the parameter is read with `parseInt` |
| ConstituencyDetails.SelectedAcOfLink | src/pages/ConstituencyDetails.tsx:17 | A link built from a constituency number selects that number |
| ConstituencyDetails.FindConstituency | src/pages/ConstituencyDetails.tsx:18-24 | Nothing is found exactly when the parameter is not a number or no record has it; otherwise the first record with that number is found |
| ConstituencyDetails.TotalVotesCast | src/pages/ConstituencyDetails.tsx:26-29 | The votes cast are never negative and at least each top-five candidate's votes |
| ConstituencyDetails.ConstituencyPage | src/pages/ConstituencyDetails.tsx:17-183 | As written: "not found" exactly when the lookup fails. Otherwise the page shows the record, its top-five total, its stored margin and a table rendered without a total |
| ConstituencyDetails.LeadIsStoredMargin | src/pages/ConstituencyDetails.tsx:165 | The lead shown is the stored margin, even when it differs from the winner's minus the runner-up's votes |
| ConstituencyDetails.TableSharesAlwaysZero | src/pages/ConstituencyDetails.tsx:183 | As written, every share in the table and its footer shows `0.00` |
| ConstituencyDetails.ZeroShareWithVotes | src/pages/ConstituencyDetails.tsx:183 | A seat whose winner has votes still shows that winner's share as `0.00` |
| ConstituencyDetails.ConstituencyPageWithShares | src/pages/ConstituencyDetails.tsx:183 | Corrected: the same page, with the table given the top-five total as its denominator, as the candidate cards get it |
| ConstituencyDetails.SharesOfTopFive | src/pages/ConstituencyDetails.tsx:183 | Corrected: a seat with votes shows each candidate's share of the top five and a footer of the whole (100%); a seat without votes shows `0.00` |
| VotesBarChart.ShortName | src/components/dashboard/VotesBarChart.tsx:11 | A name longer than 15 characters is cut to its first 15 plus `...`; a shorter name is kept whole |
| VotesBarChart.BarData | src/components/dashboard/VotesBarChart.tsx:10-15 | One bar per candidate, in order, with the short label, the full name, the votes and the party |
| VotesBarChart.UniqueParties | src/components/dashboard/VotesBarChart.tsx:34 | The legend lists each bar's party exactly once, nothing else, in order of first appearance |
| VotesBarChart.LabelIsPrefixOfName | src/components/dashboard/VotesBarChart.tsx:11-12 | A bar label always starts with the candidate's name |

## Left out

- The constituency map (`src/components/dashboard/ConstituencyMap.tsx`), its coordinate data and the vote-share pie chart are not part of this model. They are drawing code with no logic the pages depend on.
- Floating point is left out: `parseFloat` of the polling percentage, `Math.round`, `toFixed` and `toLocaleString`.
  - Estimated polled votes are a parameter of type `Constituency -> nat`.
  - Shares are unevaluated ratios.
  - The polling string is therefore never parsed. This also hides how the pages strip it differently: `'%'` at DistrictPerformance.tsx:69, `" %"` at ConstituencyDetails.tsx:31.
- The constituency page's margin percentage (ConstituencyDetails.tsx:167-171) is left out. It divides by the top-five total without a guard; that is a floating-point display that the model does not evaluate.
- Bar widths are left out: `wins / totalSeats` on the district cards and the seats bars. They are display arithmetic.
- React itself is left out: hooks, memoisation, rendering, routing, layout, SEO tags and navigation.
  - State is an explicit value.
  - A click is an `Action` or a function call.
  - Route parameters arrive as `Option<string>`.
- `decodeURIComponent` is left out: the party name arrives already decoded. A malformed escape, which throws in the source, is not modelled.
- Strings are sequences of Dafny characters, not UTF-16 code units. `length`, `substring` and `toLowerCase` are modelled on those characters, and lower-casing covers ASCII letters only.
- `localeCompare` and the default `sort()` are both modelled as ordinal comparison. The model does not capture locale collation.
- Records used as dictionaries keep keys in insertion order. The model does not capture JavaScript's rule that integer-like keys come first, nor inherited keys such as `__proto__` and `toString`; neither occurs among party or district names.
- Comparators are applied to unbounded integers. `NaN` and infinities cannot occur.
- The JSON dataset itself is a parameter, not a constant.
- The other context components (navbar, KPI cards, candidate cards, the party legend, the selector and header components, the party performance page) are not part of this model. They only display values computed by the modelled code.
- "The input array is not modified" (`[...partySeats].sort` at PartySeatsSummary.tsx:9) holds trivially, because Dafny sequences are values.
- Text.Lower: ASCII case mapping only, because Unicode case tables are not modelled.
- Text.Compare: states ordinal order rather than locale collation, for the reason above.

## Findings

| source | as written | input that shows it | evidently intended | confidence | as-written member | corrected member |
|---|---|---|---|---|---|---|
| src/pages/DistrictPerformance.tsx:100 | The selected district's list matches on the raw `c.District === selectedDistrict`. The cards are keyed by `c.District \|\| "Unknown"` (line 54) | One record with an empty `District`: it makes an `Unknown` card with 1 constituency, but clicking that card lists no records | Match on the same label as the cards, so a card's list has as many records as its seat count | not executed | DistrictPerformance.DistrictConstituencies, DistrictPerformance.UnknownCardListsNothing | DistrictPerformance.DistrictConstituenciesByLabel, DistrictPerformance.SelectedListMatchesCard |
| src/pages/ConstituencyDetails.tsx:183 | `CandidatesTable` is rendered without its `totalVotes` prop, so the guard at CandidatesTable.tsx:71 and :81 always falls to `0.00` | Any seat whose top five has votes, e.g. a winner with 60 votes: the table shows `0.00%` for every row and the footer | Pass the page's own `totalVotesCast` (the top-five sum, line 26), the denominator its candidate cards already get at lines 94 and 101, so each row shows its share of the top five and the footer reads 100% | not executed | ConstituencyDetails.ConstituencyPage, ConstituencyDetails.TableSharesAlwaysZero | ConstituencyDetails.ConstituencyPageWithShares, ConstituencyDetails.SharesOfTopFive |
