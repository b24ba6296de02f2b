# ryanair-ui fare search, modelled in Dafny

This project models the logic core of the ryanair-ui web client. The client is a React front end for a fare search service. Four groups of logic are modelled:

- **The query policy** of the data hooks (`src/hooks/useFares.ts`, `src/hooks/useAirports.ts`). This is what each hook hands to the query cache: the cache key, when the query is enabled, how long its answer stays fresh and cached, and which failures are retried. The caller's options are spread last, so they override the hook's own settings. `useFareSearch` maps a search to one of two queries and merges their states.
- **The fare calendar.** This covers what the results panel shows for a search (`FareSearchResults.tsx`). It includes the requested day's fare, the three cheapest alternatives when that day has no fare, the round-trip headings and the total price line. It also covers the price calendar dialog (`DailyFaresCalendarModal.tsx`) and its day cards (`DailyFareCard.tsx`): the range the dialog requests, the months it lays out, the grid of each month, and which days can be chosen.
- **The search form and the airport picker** (`FlightSearchForm.tsx`, `AirportSearch.tsx`). The form handlers each return the new form. The picker filters its list and pins the nearest airport on top.
- **The pure formatters** of `src/utils/format.ts`. These are the currency symbol, airport labels, durations, flight numbers, passenger counts and the relative-time label.

Every record is an immutable datatype and every operation a pure function. The one exception is the month list of range mode. It is a method with a loop, as in the source, and is proved equal to a functional reference. Dates are calendar triples (`Calendar.Date`) with their `yyyy-MM-dd` rendering and a strict parser. Prices are integer minor units. The current day and the current instant are parameters.

The modules follow the source layout:

| module | models |
|---|---|
| `Optional`, `Text`, `Seqs` | JavaScript's `||` on strings, ASCII case mapping, `includes`, `filter` and `find` |
| `Calendar` | leap years, month lengths, weekday from a day count, `startOfMonth`/`endOfMonth`/`addMonths`, `yyyy-MM-dd` |
| `Types`, `Constants` | `src/services/types.ts`, `src/utils/constants.ts` |
| `QueryPolicy` | query keys, query options, option spreading, the retry classifier |
| `FareQueries`, `AirportQueries` | the two hook files |
| `PriceSort` | the stable sort by price of `Array.prototype.sort` |
| `FareResults`, `FareCard`, `CalendarModal` | the three fare components |
| `FlightForm`, `AirportSearch` | the form and the picker |
| `Format` | `src/utils/format.ts` |

The model keeps several behaviours that the code has even though the comments or the surrounding design suggest otherwise. A lemma states each one:

- The results panel's fallback to the series' `minFare` can never be reached. A one-way search without a fare for its day shows the alternatives instead (`FareResults.ShownFareIsRequestedDay`).
- The fare retry classifier's comment speaks of all 400-499 errors, but only the substrings `400` and `404` are checked. A 403 is retried (`FareQueries.ForbiddenIsRetried`).
- The panel's bookability test ignores `soldOut`, but the calendar card checks it (`FareResults.CardStricterThanPanel`).
- The round-trip heading adds the two legs' amounts and keeps only the outbound currency (`FareResults.HeadingIgnoresReturnCurrency`).
- The components pass their own `enabled` option. It replaces each hook's checks, which are: different airports, date order, the six-month limit and a non-empty code (`FareQueries.SearchOverrideSkipsChecks`, `CalendarModal.LongRangeIsFetched`, `AirportSearch.DestinationsOverrideSkipsCodeCheck`).
- The search button accepts a return day before the departure day (`FlightForm.ReturnBeforeDepartureAccepted`). Picking a calendar day can also move the departure past the return day (`FareResults.CalendarDayMayPassReturn`).
- Swedish, Norwegian and Danish prices all carry the prefix `kr` (`Format.KronaSymbolShared`).
- Negative durations mix floored hours with truncated minutes (`Format.NegativeDuration`).
- An unparseable date is labelled "In NaN days" (`Format.InvalidDateLabel`).

## Model

| member | source | states |
|---|---|---|
| Types.InitialForm | src/pages/HomePage.tsx:10-18 | the home page starts with no airports and no dates, a one-way trip, one passenger and euros |
| Constants.CurrencyTableWellFormed | src/utils/constants.ts:1-9 | currency codes are unique and every symbol is non-empty, so a lookup by code is unambiguous |
| QueryPolicy.ShouldRetry | src/hooks/useFares.ts:33-39 | a message containing a needle is never retried; any other failure is retried exactly while the count is below the limit |
| QueryPolicy.RetriesBounded | src/hooks/useFares.ts:33-39 | over any run of failures a query retries at most `limit` times |
| QueryPolicy.RetriesReachLimit | src/hooks/useFares.ts:33-39 | with enough failures and no needle in any message, exactly `limit` retries happen |
| QueryPolicy.ApplyNothing | src/hooks/useFares.ts:40 | spreading no options leaves the hook's settings as they are |
| QueryPolicy.ApplyEnabled | src/hooks/useFares.ts:139-145 | a caller's `enabled` replaces the hook's predicate and changes no other setting |
| QueryPolicy.ApplyTwice | src/hooks/useFares.ts:40 | spreading two option objects in turn equals spreading their merge, later fields winning |
| FareQueries.CheapestPerDayKey | src/hooks/useFares.ts:13-16 | every one-way key starts with `fares` and has three components |
| FareQueries.CheapestPerDayKeyInjective | src/hooks/useFares.ts:15-16 | two one-way keys are equal iff their parameters are equal, including the optional fields |
| FareQueries.DailyRangeKeyInjective | src/hooks/useFares.ts:17-18 | two daily-range keys are equal iff their parameters are equal |
| FareQueries.RoundTripKeyInjective | src/hooks/useFares.ts:19-20 | two round-trip keys are equal iff their parameters are equal |
| FareQueries.FareKeyFamiliesDistinct | src/hooks/useFares.ts:13-21 | keys of different families never coincide, whatever their parameters |
| FareQueries.DateRangeOnDays | src/hooks/useFares.ts:49-56 | on rendered days the range check holds iff start is not after end and the calendar-month difference is at most six |
| FareQueries.DateRangeNeedsBothDates | src/hooks/useFares.ts:50 | an empty start or end date never forms a valid range |
| FareQueries.DateRangeExamples | src/hooks/useFares.ts:53-55 | the day of the month is ignored: Jan 1 to Jul 31 passes, Jan 1 to Aug 1 fails, a reversed range fails |
| FareQueries.RoundTripEnabledOnDays | src/hooks/useFares.ts:91-98 | the round-trip query runs iff the codes are non-empty and different and the outbound day is not after the inbound day |
| FareQueries.FareRetryClassifies | src/hooks/useFares.ts:71-76 | a message mentioning 400 or 404 is never retried; any other failure is retried iff fewer than two failures were seen |
| FareQueries.ForbiddenIsRetried | src/hooks/useFares.ts:34-35 | a 403 message is retried, although the comment speaks of all client errors |
| FareQueries.CheapestPerDayQuery | src/hooks/useFares.ts:23-42 | the key is the one-way key; enabled is the caller's flag or else the hook's predicate; without options, 5 minutes fresh, 15 cached, fare retry rule |
| FareQueries.DailyRangeQuery | src/hooks/useFares.ts:44-82 | the key is the range key; enabled is the caller's flag or else the range predicate; without options, 10 and 30 minutes, no refetch on focus or mount |
| FareQueries.RoundTripQuery | src/hooks/useFares.ts:84-109 | the key is the round-trip key; enabled is the caller's flag or else the round-trip predicate; without options, 5 and 15 minutes |
| FareQueries.FareCacheOutlivesFreshness | src/hooks/useFares.ts:31-32 | each fare hook keeps data cached at least as long as it stays fresh |
| FareQueries.SearchCurrency | src/hooks/useFares.ts:120 | an absent currency becomes EUR; a present one, even empty, is kept |
| FareQueries.OneWayParams | src/hooks/useFares.ts:123-128 | missing or empty fields become `''`; there is no end date; the currency is the defaulted one |
| FareQueries.RoundTripParamsOf | src/hooks/useFares.ts:131-137 | the departure and return days become outbound and inbound, missing or empty ones `''` |
| FareQueries.OneWayQueryOf | src/hooks/useFares.ts:139-141 | the one-way query runs iff the trip is one-way and origin, destination and departure are non-empty |
| FareQueries.RoundTripQueryOf | src/hooks/useFares.ts:143-145 | the round-trip query runs iff the trip is a round trip and all four fields are non-empty |
| FareQueries.AtMostOneSearchQuery | src/hooks/useFares.ts:139-145 | a search never runs both queries |
| FareQueries.SearchOverrideSkipsChecks | src/hooks/useFares.ts:139-145 | a one-way search from an airport to itself is fetched, as is a round trip that returns before it leaves |
| FareQueries.CombineFareSearch | src/hooks/useFares.ts:147-153 | loading is the OR of both queries; the one-way error wins; data is the one-way result iff the trip is one-way |
| AirportQueries.AirportKey | src/hooks/useAirports.ts:13-22 | every airport key starts with `airports` |
| AirportQueries.AirportKeyInjective | src/hooks/useAirports.ts:13-22 | two airport keys are equal iff they name the same endpoint with the same arguments, so the route key is order-significant |
| AirportQueries.AirportEnabledCases | src/hooks/useAirports.ts:36-123 | detail, destinations and schedules run iff the code is non-empty; routes iff both codes are non-empty and differ; the rest always |
| AirportQueries.StaleMinutes | src/hooks/useAirports.ts:24-123 | every freshness budget lies between 10 and 60 minutes |
| AirportQueries.GeoRetryClassifies | src/hooks/useAirports.ts:56-62 | a message about location or permission is never retried; any other failure is retried iff fewer than two failures were seen |
| AirportQueries.AirportQuery | src/hooks/useAirports.ts:24-123 | the key is the endpoint's; enabled is the caller's flag or else the hook's; without options, the minutes of the table, a cache time for the active list only, the geolocation rule for closest and nearby only |
| AirportQueries.ActiveCacheOutlivesFreshness | src/hooks/useAirports.ts:30-31 | the airport list stays cached (60 minutes) longer than it stays fresh (30) |
| AirportSearch.ClosestQuery | src/components/airport/AirportSearch.tsx:36-38 | the nearest-airport lookup runs iff the picker shows it and is an origin picker |
| AirportSearch.DestinationsQuery | src/components/airport/AirportSearch.tsx:41-46 | the destinations lookup runs iff the picker is a destination picker with an origin; its code is the origin's |
| AirportSearch.DestinationsOverrideSkipsCodeCheck | src/components/airport/AirportSearch.tsx:41-46 | an origin with an empty code still starts the destinations lookup, which the hook alone would not |
| AirportSearch.AsAirport | src/components/airport/AirportSearch.tsx:49-54 | a destination becomes an airport with the same code, name and country and an empty time zone |
| AirportSearch.SourceData | src/components/airport/AirportSearch.tsx:49-54 | an origin picker lists the active airports; a destination picker lists each destination, in order, as an airport |
| AirportSearch.FilteredItems | src/components/airport/AirportSearch.tsx:59-64 | the result keeps the source's items in source order and adds none; every matching item keeps all its copies and no other item appears; an empty query keeps the list as it is |
| AirportSearch.EmptyQueryKeepsAll | src/components/airport/AirportSearch.tsx:59-60 | the empty-query shortcut agrees with filtering by the empty string |
| AirportSearch.FilteredMembership | src/components/airport/AirportSearch.tsx:59-64 | an item is listed iff it is in the source and the query is empty or occurs in its lower-cased code, name and country |
| AirportSearch.FilterIgnoresCase | src/components/airport/AirportSearch.tsx:61-63 | an upper-cased query lists the same items as the query itself |
| AirportSearch.DisplayItems | src/components/airport/AirportSearch.tsx:67-69 | with a nearest airport in an origin picker that shows it, that airport comes first and is followed by exactly the filtered airports of other codes, in their order and each as often as it was filtered; otherwise the filtered list is shown unchanged |
| AirportSearch.PinnedAirportOnce | src/components/airport/AirportSearch.tsx:67-68 | after the pinned airport no item has its code, and every filtered item with another code is still listed |
| AirportSearch.PinnedAirportIgnoresQuery | src/components/airport/AirportSearch.tsx:67-68 | the pinned airport is shown even when the query filters it out |
| AirportSearch.Select | src/components/airport/AirportSearch.tsx:71-75 | a selection passes the airport to the parent, clears the query and closes the list |
| AirportSearch.SelectResetsFilter | src/components/airport/AirportSearch.tsx:71-75 | after a selection the list offers every source item again |
| Format.SymbolFor | src/utils/format.ts:20-32 | a code missing from the currency table is printed as itself |
| Format.SymbolOfListed | src/utils/format.ts:24-25 | a listed code is printed with its own row's symbol |
| Format.KronaSymbolShared | src/utils/constants.ts:6-8 | SEK, NOK and DKK all get the prefix `kr` |
| Format.UnlistedCodeIsItsOwnSymbol | src/utils/format.ts:24-25 | CHF, not in the table, is printed as `CHF` |
| Format.FormatCurrency | src/utils/format.ts:20-32 | the label carries the amount and the symbol of the code, EUR when no code is given |
| Format.FormatPrice | src/utils/format.ts:5-18 | a missing price is a dash, and only a missing price is; a present one shows its amount behind its currency's symbol |
| Format.PriceIsCurrency | src/utils/format.ts:5-18 | a present price is labelled exactly as its amount in its currency |
| Format.FormatAirportDisplay | src/utils/format.ts:54-65 | empty iff there is no airport; otherwise starts with `code - `, and is exactly `code - name` iff the country is missing, empty or equal to the name |
| Format.AirportDisplayCountry | src/utils/format.ts:54-65 | with a country that adds something, the label is `code - name, country` |
| Format.DurationShapes | src/utils/format.ts:67-80 | a non-negative duration prints as minutes only, hours only, or `Nh Nm`, from its floored hours and remainder minutes |
| Format.DurationRoundTrip | src/utils/format.ts:67-80 | every non-negative duration reads back from its label, so different durations get different labels |
| Format.NegativeDuration | src/utils/format.ts:67-80 | a negative duration mixes floored hours with truncated minutes: -30 prints as `-1h -30m` |
| Format.FormatFlightNumber | src/utils/format.ts:95-98 | the result is the upper-cased input, with one space after the second character iff that input is two letters then digits |
| Format.FlightNumberIdempotent | src/utils/format.ts:95-98 | formatting a formatted flight number changes nothing |
| Format.FlightNumberExamples | src/utils/format.ts:95-98 | `fr1234` becomes `FR 1234`; `f1234` is only upper-cased |
| Format.FormatPassengerCount | src/utils/format.ts:100-103 | singular iff the count is one, otherwise the number and `Adults` |
| Format.PassengerCountMatchesTable | src/utils/constants.ts:13-23 | every row of the passenger list counts one more than the last, and its text is the formatter's label for that count |
| Format.RelativeTimeBands | src/utils/format.ts:105-124 | `Past` iff the target is before now, `Today` within 24 hours, `Tomorrow` within 48, otherwise the number of whole days |
| Format.InvalidDateLabel | src/utils/format.ts:105-124 | an unparseable date gets a label no valid date gets |
| PriceSort.SortByPrice | src/components/fare/FareSearchResults.tsx:228 | the result is sorted by price and is a permutation of the input |
| PriceSort.SortIsStable | src/components/fare/FareSearchResults.tsx:228 | fares of equal price keep their relative order |
| PriceSort.SortSorted | src/components/fare/FareSearchResults.tsx:228 | an already sorted list is returned unchanged |
| PriceSort.SortedIndices | src/components/fare/FareSearchResults.tsx:228 | sortedness by neighbours equals sortedness of every pair |
| PriceSort.StableSortUnique | src/components/fare/FareSearchResults.tsx:228 | two price orders of the same fares that keep the listing order within each price are equal, so a stable sort has one result |
| Seqs.FilterCount | src/components/airport/AirportSearch.tsx:61-64 | `filter` keeps every copy of an element that passes and drops every copy of one that does not |
| FareResults.SearchInputOf | src/components/fare/FareSearchResults.tsx:19-26 | the search gets the form's trip type, currency and airport codes (each present iff the airport is chosen), and its departure and return days rendered `yyyy-MM-dd` iff the form has them |
| FareResults.CompleteFormStartsQuery | src/components/fare/FareSearchResults.tsx:19-36 | a complete form with non-empty codes starts exactly the query its trip type needs |
| FareResults.FareForDate | src/components/fare/FareSearchResults.tsx:47-50 | the result is a listed fare of the day, not unavailable and priced; none iff no such fare exists; sold-out is not consulted |
| FareResults.FareForDateIsFirst | src/components/fare/FareSearchResults.tsx:47-50 | of several such fares the earliest listed is taken |
| FareResults.Alternatives | src/components/fare/FareSearchResults.tsx:226-229 | the first three (or fewer) of the bookable fares stably sorted by price, so as many as there are up to three, sorted, and drawn from the series without repetition |
| FareResults.AlternativesFromStableOrder | src/components/fare/FareSearchResults.tsx:226-229 | for any ascending order of the bookable fares that keeps listing order within a price, the alternatives are its first three |
| FareResults.AlternativesOfOnePrice | src/components/fare/FareSearchResults.tsx:226-229 | when all fares are bookable at one price, the alternatives are the first three in listing order |
| FareResults.AlternativesBookable | src/components/fare/FareSearchResults.tsx:226-227 | every alternative is a bookable fare of the series |
| FareResults.AlternativesCheapest | src/components/fare/FareSearchResults.tsx:226-229 | a bookable fare left out costs at least as much as every alternative |
| FareResults.AlternativesEmptyIff | src/components/fare/FareSearchResults.tsx:226-229 | there are no alternatives iff no fare of the series is bookable |
| FareResults.AlternativesAvoidRequestedDay | src/components/fare/FareSearchResults.tsx:218-229 | when the requested day has no fare, no alternative falls on that day |
| FareResults.HeadingsNumbering | src/components/fare/FareSearchResults.tsx:85 | the options are numbered from 1 and only the first is marked best price |
| FareResults.HeadingIgnoresReturnCurrency | src/components/fare/FareSearchResults.tsx:91-94 | legs in EUR and GBP are summed as they stand and labelled in EUR |
| FareResults.Panel | src/components/fare/FareSearchResults.tsx:28-75 | hidden iff an airport is missing; the completion prompt iff both are set but the form is incomplete; while loading, the searching state with no total; on error, the error text and no total; with no data, nothing; with data, the main view and the total derived from it |
| FareResults.MainViewOf | src/components/fare/FareSearchResults.tsx:75-289 | never searching or failed; the option list iff round-trip data has options, with one heading per option; alternatives iff a one-way day has no bookable fare; otherwise the fare of that day |
| FareResults.TotalOf | src/components/fare/FareSearchResults.tsx:345-375 | a total iff the first round-trip option carries one or the one-way day has a bookable fare; it is that price times the passengers, in its currency or EUR |
| FareResults.Headings | src/components/fare/FareSearchResults.tsx:79-94 | one heading per option, the heading at each position being that option's |
| FareResults.CardStricterThanPanel | src/components/fare/DailyFareCard.tsx:26 | the card's test is the panel's bookability plus not sold out, so a sold-out day can be shown by the panel and yet be unclickable on its card |
| FareResults.ShownFareIsRequestedDay | src/components/fare/FareSearchResults.tsx:211-289 | a shown fare is always the requested day's first bookable fare, so the `minFare` fallback is never used |
| FareResults.UnavailableIff | src/components/fare/FareSearchResults.tsx:218-224 | the panel offers alternatives iff the trip is one-way and the requested day has no bookable fare |
| FareResults.OneWayTotalMatchesFare | src/components/fare/FareSearchResults.tsx:359-371 | a one-way total is shown iff a fare is shown, and equals that fare times the passengers in its currency or EUR |
| FareResults.RoundTripTotalFromServer | src/components/fare/FareSearchResults.tsx:350-358 | a round-trip total is shown iff the first option carries the server's total, and is that total times the passengers |
| FareResults.PickAlternative | src/components/fare/FareSearchResults.tsx:254-257 | choosing an alternative sets the departure to its parsed day and changes nothing else |
| FareResults.PickAlternativeShowsIt | src/components/fare/FareSearchResults.tsx:254-257 | with the same fare series, the new form shows a fare of exactly the chosen day |
| FareResults.SelectCalendarDay | src/components/fare/FareSearchResults.tsx:428-433 | choosing a calendar day sets the departure and changes nothing else |
| FareResults.CalendarDayMayPassReturn | src/components/fare/FareSearchResults.tsx:428-433 | a departure chosen after the return day is kept as it is |
| FareCard.Click | src/components/fare/DailyFareCard.tsx:29-33 | a click reports the day iff the card is enabled, not past, and has a fare that is available, not sold out and priced |
| FareCard.PastDayNeverClicked | src/components/fare/DailyFareCard.tsx:24-33 | a day before today is never reported |
| FareCard.FirstWeekCoversAllWeekdays | src/components/fare/DailyFareCard.tsx:67 | the first seven days of a month carry seven different weekdays, so each column gets one label |
| FareCard.BodyOf | src/components/fare/DailyFareCard.tsx:79-121 | a placeholder iff loading; the price iff not loading with a valid fare; "No flights" iff not loading, no valid fare and not past |
| FareCard.ClickableShowsPrice | src/components/fare/DailyFareCard.tsx:26-121 | a clickable card shows a price once loaded; a "No flights" card never reacts |
| FareCard.PastFareShownNotClickable | src/components/fare/DailyFareCard.tsx:24-27 | a past day with a valid fare shows its price but cannot be chosen |
| CalendarModal.ApiRange | src/components/fare/DailyFaresCalendarModal.tsx:41-50 | the given range when both ends are passed; otherwise the first day of the base month to the last day of the next month |
| CalendarModal.RangeParams | src/components/fare/DailyFaresCalendarModal.tsx:56-61 | the request carries the airport codes or `''`, both ends rendered `yyyy-MM-dd`, and the currency or EUR |
| CalendarModal.RangeQuery | src/components/fare/DailyFaresCalendarModal.tsx:56-64 | the fetch runs iff the dialog is open and both airports are set |
| CalendarModal.LongRangeIsFetched | src/components/fare/DailyFaresCalendarModal.tsx:62-64 | a range longer than six months is fetched although the hook's own check rejects it |
| CalendarModal.FareOfDay | src/components/fare/DailyFaresCalendarModal.tsx:74-78 | nothing before data arrives; otherwise an entry of the day with no entry of that day before it, bookable or not, and none iff no entry has that day |
| CalendarModal.FareOfDayIsFirst | src/components/fare/DailyFaresCalendarModal.tsx:74-78 | whichever entry of the day comes first is the one returned |
| CalendarModal.NextMonthStart | src/components/fare/DailyFaresCalendarModal.tsx:103 | adding a month to a month's first day gives the next month's first day |
| CalendarModal.RangeMonths | src/components/fare/DailyFaresCalendarModal.tsx:94-106 | the loop yields every month start from the start's month to the end's, none when the start's month is later |
| CalendarModal.SingleMonths | src/components/fare/DailyFaresCalendarModal.tsx:108-111 | single mode lays out the base day's month and the next one |
| CalendarModal.RangeDayIsLaidOut | src/components/fare/DailyFaresCalendarModal.tsx:94-106 | every day of the range falls in one of the months laid out, at its month's offset |
| CalendarModal.SingleModeRequestMatchesMonths | src/components/fare/DailyFaresCalendarModal.tsx:45-50 | in single mode the request covers exactly the two months laid out |
| CalendarModal.MonthGrid | src/components/fare/DailyFaresCalendarModal.tsx:81-90 | one blank per weekday before the first day, then every day of the month in order |
| CalendarModal.GridColumnIsWeekday | src/components/fare/DailyFaresCalendarModal.tsx:81-90 | each day sits in the column of its weekday, Sunday first |
| CalendarModal.IsSelectedDayIff | src/components/fare/DailyFaresCalendarModal.tsx:224-225 | comparing `yyyy-MM-dd` renderings marks exactly the selected day |
| CalendarModal.CellOf | src/components/fare/DailyFaresCalendarModal.tsx:207-235 | a day outside the range is greyed out; inside, its card gets the day's fare, the loading flag and the selection mark |
| CalendarModal.ChooseDay | src/components/fare/DailyFaresCalendarModal.tsx:67-70 | a chosen day is passed on iff the dialog closes, and is a day of the range that is not past |
| CalendarModal.ChosenDayHasFare | src/components/fare/DailyFaresCalendarModal.tsx:228-235 | a day can be chosen only once fares have arrived and its first entry is a valid fare |
| FlightForm.Swap | src/components/fare/FlightSearchForm.tsx:22-28 | origin and destination are exchanged and nothing else changes |
| FlightForm.SwapInvolutive | src/components/fare/FlightSearchForm.tsx:22-28 | swapping twice restores the form |
| FlightForm.SwapPreservesValidity | src/components/fare/FlightSearchForm.tsx:22-63 | a swapped form is valid iff the form was |
| FlightForm.ValidFormShowsResults | src/components/fare/FlightSearchForm.tsx:55-63 | a valid form is one the results panel shows results for; the converse fails for two equal airports |
| FlightForm.ReturnBeforeDepartureAccepted | src/components/fare/FlightSearchForm.tsx:55-63 | the button accepts a round trip returning before it leaves |
| FlightForm.ChangeField | src/components/fare/FlightSearchForm.tsx:30-45 | a new origin clears the destination; the same origin changes nothing; other edits keep the origin |
| FlightForm.ChangeFieldFrame | src/components/fare/FlightSearchForm.tsx:30-45 | the edited field reads back as set; other fields keep their values; putting the old value back restores the form |
| FlightForm.NewOriginInvalidates | src/components/fare/FlightSearchForm.tsx:39-42 | after a new origin the form is never valid |
| FlightForm.DateFromInput | src/components/fare/FlightSearchForm.tsx:148-152 | empty text clears the day; a day read from text renders back to that text |
| FlightForm.DateInputRoundTrip | src/components/fare/FlightSearchForm.tsx:148-152 | a day shown in the input reads back as the same day |
| FlightForm.ChangeTripType | src/components/fare/FlightSearchForm.tsx:47-53 | one-way clears the return day, round trip keeps it, nothing else changes |
| FlightForm.OneWayRoundTripForgetsReturn | src/components/fare/FlightSearchForm.tsx:47-53 | switching to one-way and back loses the return day |
| FlightForm.TripTypeValidity | src/components/fare/FlightSearchForm.tsx:47-63 | a one-way form is valid iff it has two different airports and a departure day |
| Calendar.ParseIsoString | src/components/fare/FareSearchResults.tsx:256 | a day of a four-digit year reads back from its `yyyy-MM-dd` rendering |
| Calendar.IsoStringOfParse | src/components/fare/FareSearchResults.tsx:256 | text that reads as a day is that day's rendering |
| Calendar.AddMonths | src/components/fare/DailyFaresCalendarModal.tsx:103 | one month on lands in the next month, on the same day or the month's last day |

## Left out

- The query cache (deduplication, timers, refetching, garbage collection, retry scheduling) belongs to `@tanstack/react-query`. Only the settings handed to it are modelled. The library calls the classifier with `failureCount` counting from 0; `QueryPolicy.RetriesFrom` assumes this.
- `src/services/api.ts` (HTTP, URLs, JSON error bodies) is I/O around the fare service. `src/providers/QueryProvider.tsx` only configures the library: its default retry applies only to hooks without their own rule, and is not part of this model.
- The map components, `PopularDestinations`, `NearbyAirportsButton`, the header, the footer and all markup and styling are presentation only.
- `Intl.NumberFormat` digit grouping and decimals are not modelled. A money label keeps the symbol and the integer amount. `formatDate` and `formatDistance` depend on `date-fns` and `Intl` and are left out.
- Time zones are not modelled: a day is a calendar triple, and `new Date('yyyy-MM-dd')` is read as that day. The clock becomes a parameter (`today`, `now`).
- JavaScript's lenient date parsing is not modelled. `Calendar.ParseIso` accepts exactly `dddd-dd-dd` naming a real day, and anything else is an invalid date (`None`).
- Case mapping covers ASCII letters only.
- The object identity compared by `!==` in `handleFieldChange` is modelled as structural inequality.
- Prices are integer minor units, so float rounding is not modelled. Values the server computes (`minFare`, `maxFare`, `totalPrice`, the order of round-trip options) are taken as given.
- Format.FormatDuration: has no contract of its own. Its meaning is stated by `Format.DurationShapes` and `Format.DurationRoundTrip`. Fractional minutes are not modelled.
- Format.RelativeTime: has no contract of its own; `Format.RelativeTimeBands` and `Format.InvalidDateLabel` state it. Instants are whole milliseconds.
- Format.FormatCurrency: states the symbol and the amount but not the digits `Intl` prints.
- FareResults.PickAlternative: on a day string JavaScript cannot parse, `new Date(fare.day)` is a truthy Invalid Date, and `format` at src/components/fare/FareSearchResults.tsx:22 would throw. The model records no departure day instead, which shows the completion prompt. Server days are `yyyy-MM-dd`, so this does not arise for them.
- The loading skeletons, the error message layout and the "Complete your search" text are presentation only. The panel records which state is shown.
- The extra fields of `ClosestAirport` and `AirportDetails` (coordinates, distance) are not used by the modelled logic.
- The highlighting of the current day on a card (`isCurrentDay`) and the selected style affect styling only.
