# Mafraq health portal — a Dafny model of its core

The portal is an Arabic web application for the Mafraq governorate of
Jordan. It has a directory of hospitals, clinics and doctors; pages for
blood donation, laboratory results, quick health checks, mental-health
screening, nutrition, patient reviews, remote triage and disease
education; and two Node scripts that scrape doctor listings and WHO health
topics into JSON files. This project models the logic of those parts in
Dafny and proves what they promise.

The modules follow the program's files:

| module | file | models |
|---|---|---|
| `Text` | text.dfy | JavaScript whitespace, `trim`, the `\s+` collapse and `normalizeSpace`, substring search, ASCII `toLowerCase`, decimal printing of integers, string order |
| `Js` | js.dfy | `Number(...)` on decimal text, `parseInt`, `parseFloat`, the truncating `%`, `Math.round` |
| `Seqs` | seqs.dfy | `filter`, the "seen set" de-duplications, removal by id, `slice(0, n)` |
| `Web` | web.dfy | the `?page=i` page addresses |
| `Crawls` | crawls.dfy | the four crawl loops of the scripts, generic in the page parser |
| `DoctorPatterns` | doctor_patterns.dfy | the phone, city label, honorific name and specialty regular expressions of `fetch_jo_doctors.mjs` |
| `JoDoctors` | jo_doctors.dfy | `scripts/fetch_jo_doctors.mjs` |
| `WhoTopics` | who_topics.dfy | `scripts/fetch_who_topics.mjs` |
| `TimeFormat` | time_format.dfy | `src/lib/utils.ts` |
| `Schedule` | schedule.dfy | the booking date window and opening hours shared by the mental-health and nutrition pages |
| `BloodDonation`, `LabAnalysis`, `HealthAI`, `MentalHealth`, `Nutrition`, `Reviews`, `Telehealth`, `Diseases`, `Hospitals`, `Doctors`, `Services` | one file each | the page or component of that name |

How the program's pieces are represented:

- **Pure logic** (filters, classifications, compatibility tables,
  parsers) is written as functions, and lemmas state its properties.
- **Page state** that React updates is a class per page. Each handler is
  a method whose `ensures` gives the whole new state.
- **Loops** become methods with loop invariants, each proved equal to a
  reference function. This covers the crawl loops, the `push` loops of
  the parsers, the `seen`-set de-duplications, `interpretResults`,
  `summaryCounts`, the inventory `Map`, the `get` pattern loop and the
  symptom hints.
- **The network** is a parameter `web: string -> Fetched<Page>`, which
  says what a request for a given address returns. `new URL(href, base)`
  is likewise a parameter `resolve` that may fail.
- **HTML** is reduced to the fragments the cheerio selectors pick out:
  cards, blocks and anchors with their texts and `href`s.
- **Dates** are day numbers, and parsing a date input is a parameter.

The three crawl shapes are proved in general in `Crawls`:
- a crawl that follows "next" links stops at the first failure;
- a crawl over numbered pages skips a failing page and goes on;
- a paginated crawl stops at an empty page after the first, or at an
  error.

`JoDoctors` and `WhoTopics` instantiate these shapes with their own
parsers.

Two observations the proofs make explicit:

- **`extractCityFromText` has a dead pattern.** On whitespace-collapsed,
  single-line text, its third pattern can only match where the first
  one already has (`DoctorPatterns.ThirdLabelImpliesFirst`). The function
  therefore behaves as a two-pattern chain
  (`DoctorPatterns.ExtractCityTwoPatterns`).
- **`fetch_who_topics.mjs` writes its output twice.** Lines 191-194 still
  carry diff markers `-`/`+`, which JavaScript parses as unary operators,
  so both `writeFile` statements execute. The first writes the fact-sheet
  records. The second writes the records of the chosen source, and it is
  the one that decides the file. `WhoTopics.Run` returns both writes.
  `WhoTopics.WritesAgreeWithFacts` states when they differ.

Booking times need comparing across the two booking pages. The
mental-health page checks `HH:MM` with a pattern and then compares
minutes. The nutrition page compares the text with `"09:00"` and
`"17:00"`. For valid clock times the two windows agree
(`Schedule.WindowsAgree`). On a pattern-matching time such as `"08:75"`
they do not (`Schedule.WindowsDisagreeOffClock`): the minute check
accepts it as 555 minutes. Such a value cannot come from the time input
the pages use.

## Model

| member | source | states |
|---|---|---|
| Text.NormalizeSpace | scripts/fetch_who_topics.mjs:22-24 | the result has no leading or trailing whitespace and no two whitespace characters in a row; every other character comes from the input |
| Text.NormalizeSpaceIdempotent | scripts/fetch_who_topics.mjs:22-24 | normalizing twice is normalizing once |
| Text.Trim | scripts/fetch_jo_doctors.mjs:27 | the result is trimmed and no longer than the input; trimmed text is returned as it is |
| Text.ToLower | scripts/fetch_jo_doctors.mjs:153 | the length is kept and every character is lower-cased one by one |
| Js.StringToNumber | scripts/fetch_who_topics.mjs:169 | `Number` of blank text is 0 |
| Js.StringToNumberOfNat | src/pages/BloodDonation.tsx:64 | `Number` of a printed natural number is that number |
| Js.ParseIntOfNat | scripts/fetch_jo_doctors.mjs:28-29 | `parseInt` of a printed natural number is that number |
| Js.ParseFloatOfNat | src/pages/Nutrition.tsx:150 | `parseFloat` of a printed natural number is that number |
| Js.JsRem | src/lib/utils.ts:14 | `%` takes the sign of the dividend, is smaller than the divisor in size, and the dividend is the truncated quotient times the divisor plus the remainder |
| Js.Round | src/pages/LabAnalysis.tsx:279 | `Math.round` gives the integer within one half below or above, halves upwards |
| Seqs.Filter | src/pages/Hospitals.tsx:431-446 | `filter` keeps exactly the elements that pass, in their order |
| Seqs.Dedup | scripts/fetch_jo_doctors.mjs:84-91 | the `seen`-set filter equals keeping the first element of each key |
| Seqs.DedupedKeepsFirst | scripts/fetch_jo_doctors.mjs:84-91 | an element whose key did not occur before it is kept |
| Seqs.DedupedDistinct | scripts/fetch_jo_doctors.mjs:84-91 | no key occurs twice in the result |
| Seqs.DedupedSubseq | scripts/fetch_jo_doctors.mjs:84-91 | the result is a subsequence of the input |
| Seqs.DedupedKeys | scripts/fetch_jo_doctors.mjs:84-91 | every key of the input survives |
| Seqs.DedupedIdempotent | scripts/fetch_jo_doctors.mjs:114-121 | de-duplicating twice is de-duplicating once |
| Seqs.Without | src/pages/Reviews.tsx:49-51 | removal by id keeps exactly the elements with another id, in order |
| Seqs.Capped | src/pages/HealthAI.tsx:298 | `slice(0, n)` is the first `min(length, n)` elements |
| Web.PageUrlInjective | scripts/fetch_who_topics.mjs:115 | different page numbers give different addresses |
| Crawls.FollowLinks | scripts/fetch_jo_doctors.mjs:94-113 | the loop collects what the reference crawl over the next links collects and requests the same pages |
| Crawls.FollowsNextLinks | scripts/fetch_jo_doctors.mjs:105-107 | each requested page after the first is the resolved next link of the one before |
| Crawls.FollowStopsAtFailure | scripts/fetch_jo_doctors.mjs:109-112 | a failed page is the last one requested |
| Crawls.FollowItemsFromPages | scripts/fetch_jo_doctors.mjs:94-113 | every item collected comes from a page that was requested |
| Crawls.FollowItemsAll | scripts/fetch_jo_doctors.mjs:94-113 | a property of every parsed item holds of everything collected |
| Crawls.CrawlRange | scripts/fetch_jo_doctors.mjs:124-140 | the loop requests every index `1..max` and collects their items in order |
| Crawls.RangeUrlsAt | scripts/fetch_jo_doctors.mjs:127 | the `k`-th request is for index `k + 1` |
| Crawls.RangeItemsAgree | scripts/fetch_jo_doctors.mjs:124-140 | the result depends only on the requested pages |
| Crawls.RangeItemsSplit | scripts/fetch_jo_doctors.mjs:124-140 | the items of a range are the items of its two halves |
| Crawls.RangeFailureIsolated | scripts/fetch_jo_doctors.mjs:135-139 | a failing index adds nothing and leaves the items of every other index as they were |
| Crawls.RangeItemsAll | scripts/fetch_jo_doctors.mjs:124-140 | a property of every parsed item holds of everything collected |
| Crawls.CrawlPages | scripts/fetch_jo_doctors.mjs:185-201 | the paginated loop equals the reference paged crawl |
| Crawls.PagesInOrder | scripts/fetch_jo_doctors.mjs:185-201 | pages are requested as 1, 2, 3, … at their page addresses |
| Crawls.EmptyFirstPageContinues | scripts/fetch_jo_doctors.mjs:196 | an empty first page does not stop the crawl |
| Crawls.PagedItemsAll | scripts/fetch_jo_doctors.mjs:185-201 | a property of every parsed item holds of everything collected |
| Crawls.CrawlEach | scripts/fetch_jo_doctors.mjs:212-231 | the per-key paginated loop equals the reference crawl over all keys |
| Crawls.EveryKeyAttempted | scripts/fetch_jo_doctors.mjs:212-231 | the first page of every key is requested, whatever happened to earlier keys |
| Crawls.EachItemsAll | scripts/fetch_jo_doctors.mjs:212-231 | a property of every parsed item holds of everything collected |
| DoctorPatterns.RunEnd | scripts/fetch_jo_doctors.mjs:59-60 | a character-class run ends at the first character outside the class |
| DoctorPatterns.PhoneAt | scripts/fetch_jo_doctors.mjs:59-60 | a match at a position starts with `+` or a digit and ends with a digit |
| DoctorPatterns.FindPhone | scripts/fetch_jo_doctors.mjs:59-60 | the phone search finds a position where the phone pattern matches |
| DoctorPatterns.PhoneShapeOfMatch | scripts/fetch_jo_doctors.mjs:59-60 | a match, once its whitespace is collapsed, has the phone shape |
| DoctorPatterns.Phone | scripts/fetch_jo_doctors.mjs:59-60 | a non-empty phone starts with `+` or a digit, ends with a digit, holds only digits, single spaces and hyphens, and is trimmed |
| DoctorPatterns.PhoneFound | scripts/fetch_jo_doctors.mjs:59-60 | the phone is empty exactly when the pattern matches nowhere |
| DoctorPatterns.LabelCapture | scripts/fetch_jo_doctors.mjs:42-44 | a label pattern captures exactly when it matches; the capture is trimmed and holds no `\|` |
| DoctorPatterns.ExtractCity | scripts/fetch_jo_doctors.mjs:39-47 | empty text gives ""; the city is trimmed and never contains `\|` |
| DoctorPatterns.ThirdLabelImpliesFirst | scripts/fetch_jo_doctors.mjs:42-44 | on single-line text the third pattern matches only where the first one does |
| DoctorPatterns.ExtractCityTwoPatterns | scripts/fetch_jo_doctors.mjs:39-47 | the city is the first of the first two patterns that matches, trimmed, else "" |
| DoctorPatterns.NameAt | scripts/fetch_jo_doctors.mjs:165-167 | a name match starts with one of the two honorifics |
| DoctorPatterns.FindName | scripts/fetch_jo_doctors.mjs:165-167 | the name search finds a position where the name pattern matches |
| DoctorPatterns.Name | scripts/fetch_jo_doctors.mjs:165-167 | a found name starts with an honorific |
| DoctorPatterns.NameFound | scripts/fetch_jo_doctors.mjs:74 | a name is found exactly when the pattern matches somewhere |
| DoctorPatterns.SpecialtyFrom | scripts/fetch_jo_doctors.mjs:168-169 | the alternatives are tried in order at one position |
| DoctorPatterns.FindSpecialty | scripts/fetch_jo_doctors.mjs:168-169 | the specialty search finds a position where an alternative matches |
| DoctorPatterns.Specialty | scripts/fetch_jo_doctors.mjs:168-169 | a found specialty is trimmed and not empty |
| DoctorPatterns.SpecialtyOfMatch | scripts/fetch_jo_doctors.mjs:168-169 | the specialty starts with the alternative that matched first |
| DoctorPatterns.SpecialtyFound | scripts/fetch_jo_doctors.mjs:168-169 | text that contains any specialty word yields a specialty |
| JoDoctors.CardAddress | scripts/fetch_jo_doctors.mjs:57-58 | the address is never empty and trimmed; it is the address text when there is one, else the city text, else the city extracted from the card text, else "الأردن" |
| JoDoctors.CardDoctor | scripts/fetch_jo_doctors.mjs:55-69 | a card gives an item exactly when it has a name; the item is well formed |
| JoDoctors.Fallback | scripts/fetch_jo_doctors.mjs:72-82 | the whole-page fallback adds at most one well-formed item |
| JoDoctors.FallbackOnlyWithoutCards | scripts/fetch_jo_doctors.mjs:49-92 | the fallback is used exactly when no card has a name |
| JoDoctors.ParsedDoctorsWellFormed | scripts/fetch_jo_doctors.mjs:49-92 | every parsed item has a non-empty name and address |
| JoDoctors.ParseDoctors | scripts/fetch_jo_doctors.mjs:49-92 | the `push` loop and the de-duplication by name, address and phone equal the reference parse |
| JoDoctors.AltibbiDoctor | scripts/fetch_jo_doctors.mjs:163-173 | a fragment is kept exactly when its collapsed text mentions المفرق and holds an honorific name; its address is "المفرق، الأردن" |
| JoDoctors.ParseAltibbiDoctors | scripts/fetch_jo_doctors.mjs:158-183 | the fragment loop and the de-duplication by name and phone equal the reference parse |
| JoDoctors.ParsedAltibbiSound | scripts/fetch_jo_doctors.mjs:158-183 | every kept item is well formed, has the Mafraq address and comes from one fragment |
| JoDoctors.Crawl | scripts/fetch_jo_doctors.mjs:94-122 | the general crawl follows next links up to `maxPages` and de-duplicates the result |
| JoDoctors.DeptUrlInjective | scripts/fetch_jo_doctors.mjs:127 | different department indices give different addresses |
| JoDoctors.CrawlDepartments | scripts/fetch_jo_doctors.mjs:124-149 | every department `1..maxDept` is requested and the result is de-duplicated |
| JoDoctors.CrawlAltibbiList | scripts/fetch_jo_doctors.mjs:185-210 | the Altibbi list is crawled page by page and de-duplicated by name and phone |
| JoDoctors.CrawlAltibbiSpecialties | scripts/fetch_jo_doctors.mjs:212-240 | every specialty slug is crawled in turn and the result de-duplicated by name and phone |
| JoDoctors.IncludesCityEquivalent | scripts/fetch_jo_doctors.mjs:151-156 | true for no city, otherwise exactly when the lower-cased text holds the city, المفرق or mafraq |
| JoDoctors.ParseArgs | scripts/fetch_jo_doctors.mjs:22-31 | the city option is trimmed; the English key wins over the Arabic one; pages and departments are 10 and 80 when neither key is given and when the value is not a number |
| JoDoctors.NotANumberDefaults | scripts/fetch_jo_doctors.mjs:28-30 | a page or department count that is not a number falls back to 10 and 80 |
| JoDoctors.DefaultCounts | scripts/fetch_jo_doctors.mjs:28-29 | the default texts "10" and "80" are read back as 10 and 80 |
| JoDoctors.ParseArgsDefaults | scripts/fetch_jo_doctors.mjs:22-31 | with no arguments the city is empty, pages 10 and departments 80 |
| JoDoctors.ArgEntryOfOption | scripts/fetch_jo_doctors.mjs:22-31 | an argument `--key=value` reads back as that key and value |
| JoDoctors.LookupOptionArgs | scripts/fetch_jo_doctors.mjs:22-31 | the last argument given for a key wins |
| JoDoctors.ParseArgsRoundTrip | scripts/fetch_jo_doctors.mjs:22-31 | printed options parse back to the same options |
| JoDoctors.OutputRecords | scripts/fetch_jo_doctors.mjs:250-261 | one output record per item |
| JoDoctors.SelectSound | scripts/fetch_jo_doctors.mjs:248-261 | the output keeps, in the order of the concatenation, exactly the items whose address or name passes the city test, with id `d.id` or the index |
| JoDoctors.NoCityKeepsEverything | scripts/fetch_jo_doctors.mjs:248-261 | with no city every item is written |
| JoDoctors.Run | scripts/fetch_jo_doctors.mjs:242-265 | the file holds the four crawls in order general, departments, Altibbi list, Altibbi specialties, with no de-duplication across them |
| JoDoctors.CrawlResultsWellFormed | scripts/fetch_jo_doctors.mjs:242-265 | every crawled item has a non-empty name and address |
| WhoTopics.FactStep | scripts/fetch_who_topics.mjs:40-52 | a pushed fact has a non-empty name and link and normalized texts; a link that cannot be resolved fails the parse |
| WhoTopics.ParseFactList | scripts/fetch_who_topics.mjs:26-64 | the block loop and the de-duplication by link equal the reference parse |
| WhoTopics.ParsedFactsSound | scripts/fetch_who_topics.mjs:26-64 | the parse fails exactly when a link cannot be resolved; otherwise the links are distinct and each fact comes from a block |
| WhoTopics.ParsedFactsKeepsFirst | scripts/fetch_who_topics.mjs:56-62 | the first fact with a given link is the one kept |
| WhoTopics.EmroStep | scripts/fetch_who_topics.mjs:69-77 | a kept EMRO topic has a name longer than two characters and does not link to an index page |
| WhoTopics.WhoStep | scripts/fetch_who_topics.mjs:92-100 | a kept WHO topic has a name longer than two characters |
| WhoTopics.ParseEmroTopics | scripts/fetch_who_topics.mjs:66-87 | the anchor loop equals the reference EMRO parse |
| WhoTopics.ParseWhoTopics | scripts/fetch_who_topics.mjs:89-110 | the anchor loop equals the reference WHO parse |
| WhoTopics.ParsedEmroSound | scripts/fetch_who_topics.mjs:66-87 | topics are distinct by link or name, and each passes the filters and comes from an anchor |
| WhoTopics.ParsedWhoSound | scripts/fetch_who_topics.mjs:89-110 | topics are distinct by link or name, and each passes the filter and comes from an anchor |
| WhoTopics.EmroDropsIndexPages | scripts/fetch_who_topics.mjs:75 | an anchor linking to `index.htm` or `index.html` is skipped |
| WhoTopics.FactsOutcome | scripts/fetch_who_topics.mjs:116-126 | a fact-sheet page counts exactly when it was fetched and parsed |
| WhoTopics.LoopBound | scripts/fetch_who_topics.mjs:114 | `i <= maxPages` with a fractional bound stops at its floor; NaN allows no page |
| WhoTopics.LoopBoundCounts | scripts/fetch_who_topics.mjs:114 | page `i` is requested exactly when `i <= maxPages` |
| WhoTopics.CrawlFacts | scripts/fetch_who_topics.mjs:112-136 | every page `1..maxPages` is requested, a failing one is skipped, and the facts are unique by link in first-seen order |
| WhoTopics.FactsPagesRequested | scripts/fetch_who_topics.mjs:115 | the `k`-th request is for page `k + 1` of the fact sheets |
| WhoTopics.CrawlEmroTopics | scripts/fetch_who_topics.mjs:138-149 | the crawl returns the EMRO topics, or none on failure |
| WhoTopics.CrawlWhoTopics | scripts/fetch_who_topics.mjs:151-162 | the crawl returns the WHO topics, or none on failure |
| WhoTopics.PagesArg | scripts/fetch_who_topics.mjs:165-169 | without `--pages` the bound is 5 |
| WhoTopics.DefaultPages | scripts/fetch_who_topics.mjs:165-169 | with no arguments five pages are crawled |
| WhoTopics.Records | scripts/fetch_who_topics.mjs:182-188 | one record per topic |
| WhoTopics.RecordsAre | scripts/fetch_who_topics.mjs:182-188 | records are numbered 0..n-1, carry the topic's fields and the source "WHO"; no topics give `[]` |
| WhoTopics.Run | scripts/fetch_who_topics.mjs:164-195 | the first write holds the fact records and the second, which decides the file, the records of the chosen source |
| WhoTopics.WritesAgreeWithFacts | scripts/fetch_who_topics.mjs:182-194 | the two writes differ only when there are no facts but another source has topics |
| TimeFormat.Hour12OfDay | src/lib/utils.ts:14 | for hours 0..23 the clock hour lies in 1..12 and is 12 exactly at hours 0 and 12 |
| TimeFormat.PadStart | src/lib/utils.ts:15 | `padStart` prefixes the fill character up to the width and keeps the text at its end |
| TimeFormat.MinutesPadded | src/lib/utils.ts:15 | minutes take at least two digits, with a leading zero below 10 |
| TimeFormat.FormatTime12h | src/lib/utils.ts:8-17 | a non-numeric hour or minute returns the input unchanged |
| TimeFormat.FormatShape | src/lib/utils.ts:16 | any changed output is exactly `hour12:mm suffix` |
| TimeFormat.NoColonUnchanged | src/lib/utils.ts:9-12 | text without a colon is returned unchanged |
| TimeFormat.SplitOfParts | src/lib/utils.ts:9 | `split(":")` of `a:b` gives `a` and `b` |
| TimeFormat.FormatOfIntegers | src/lib/utils.ts:8-17 | integer parts are rendered with suffix, clock hour and padded minutes |
| TimeFormat.FromDateAgrees | src/lib/utils.ts:19-26 | the date variant gives the same text as the string variant on "h:m" |
| Schedule.Minutes | src/pages/MentalHealth.tsx:206 | `HH:MM` is worth `HH * 60 + MM` minutes |
| Schedule.WindowMinutes | src/pages/MentalHealth.tsx:136-137 | the opening hours are 540..1020 minutes |
| Schedule.LexLessClock | src/pages/Nutrition.tsx:198 | string order on `HH:MM` compares digit by digit |
| Schedule.ClockOrder | src/pages/Nutrition.tsx:198 | on valid clock times string order is chronological order |
| Schedule.WindowsAgree | src/pages/Nutrition.tsx:198 | on valid clock times the string window equals the minutes window |
| Schedule.WindowsDisagreeOffClock | src/pages/MentalHealth.tsx:222-226 | "08:75" passes the format and minutes checks but not the string window |
| BloodDonation.DonateTargetsMembers | src/pages/BloodDonation.tsx:92-103 | a donor reaches exactly the listed types, Rh- reaching both factors |
| BloodDonation.ReceiveSourcesMembers | src/pages/BloodDonation.tsx:92-103 | a recipient takes exactly the listed types, Rh+ taking both factors |
| BloodDonation.CompatibilityMembers | src/pages/BloodDonation.tsx:92-103 | the donate-to and receive-from lists of a group, member by member |
| BloodDonation.SelfCompatible | src/pages/BloodDonation.tsx:93-101 | every group donates to and receives from itself |
| BloodDonation.AboConverse | src/pages/BloodDonation.tsx:93-102 | X is in the ABO donate-to list of Y exactly when Y is in the receive-from list of X |
| BloodDonation.Converse | src/pages/BloodDonation.tsx:93-102 | X is in `donateTo(Y)` exactly when Y is in `receiveFrom(X)` |
| BloodDonation.UniversalDonorAndRecipient | src/pages/BloodDonation.tsx:94-101 | O- donates to all eight groups and AB+ receives from all eight |
| BloodDonation.RhRestrictions | src/pages/BloodDonation.tsx:94-101 | an Rh+ donor reaches only Rh+ and an Rh- recipient takes only Rh- |
| BloodDonation.FieldNumber | src/pages/BloodDonation.tsx:64 | an empty field reads as 0 |
| BloodDonation.CheckEligibility | src/pages/BloodDonation.tsx:62-86 | the reasons are those of the rules; eligible exactly when there are none; a next date only with a last donation |
| BloodDonation.EligibilityRules | src/pages/BloodDonation.tsx:68-81 | no reasons exactly when age is in 18..65, weight at least 50, Hb zero or at least 12.5 (women) or 13 (others) and 56 days have passed, the wait showing the days left |
| BloodDonation.BlankFormRefused | src/pages/BloodDonation.tsx:62-86 | an empty form is refused for age and weight |
| BloodDonation.ReasonsInOrder | src/pages/BloodDonation.tsx:68-81 | each reason appears exactly when its rule fails, in the order age, weight, Hb, wait |
| BloodDonation.WithDonor | src/pages/BloodDonation.tsx:45-54 | a blank name or phone changes nothing; otherwise one available donor with trimmed fields is put first |
| BloodDonation.Cancelled | src/pages/BloodDonation.tsx:56-58 | the length is kept, donors with the id become unavailable and the others are unchanged |
| BloodDonation.CancelIdempotent | src/pages/BloodDonation.tsx:56-58 | cancelling twice is cancelling once |
| BloodDonation.DonorRegister.constructor | src/pages/BloodDonation.tsx:30-37 | the register starts from the saved donors and a blank form |
| BloodDonation.DonorRegister.AddDonor | src/pages/BloodDonation.tsx:45-54 | the donors become the list with the donor, and the form is cleared unless incomplete |
| BloodDonation.DonorRegister.CancelDonation | src/pages/BloodDonation.tsx:56-58 | the donors become the cancelled list and the form stays |
| BloodDonation.TallyInventory | src/pages/BloodDonation.tsx:39-43 | the counting loop over the `Map` equals the reference inventory |
| BloodDonation.EntriesForSum | src/pages/BloodDonation.tsx:39-43 | the entries' counts add up to the counts over the groups |
| BloodDonation.InventoryTotal | src/pages/BloodDonation.tsx:39-43 | the counts sum to the number of available donors |
| BloodDonation.InventoryCounts | src/pages/BloodDonation.tsx:39-43 | every entry counts the available donors of its group and is at least 1 |
| BloodDonation.InventoryComplete | src/pages/BloodDonation.tsx:39-43 | every group with an available donor has an entry |
| BloodDonation.InventorySorted | src/pages/BloodDonation.tsx:39-43 | entries come in increasing order of their labels |
| BloodDonation.LabelsOrdered | src/pages/BloodDonation.tsx:39-43 | the group order is the string order of the labels |
| BloodDonation.FilteredDonors | src/pages/BloodDonation.tsx:165 | the listed donors are the available ones that match both filters, in order; "all" filters nothing |
| BloodDonation.CancelledNotListed | src/pages/BloodDonation.tsx:165 | a cancelled donor is no longer listed |
| BloodDonation.DonorBadges | src/pages/BloodDonation.tsx:167-174 | one badge for any O- donor and others at 5 and 10 donors |
| LabAnalysis.ClassifyBands | src/pages/LabAnalysis.tsx:149-163 | normal on [min, max]; low below min down to 0.7·min; high above max up to 1.5·max; critical beyond |
| LabAnalysis.ClassifyMonotoneBelow | src/pages/LabAnalysis.tsx:149-163 | a lower value below the range is no less severe |
| LabAnalysis.Lookup | src/pages/LabAnalysis.tsx:142-167 | a key is found exactly when the object has it |
| LabAnalysis.InterpretResults | src/pages/LabAnalysis.tsx:136-170 | the `push` loop equals the reference interpretation |
| LabAnalysis.InterpretedMembers | src/pages/LabAnalysis.tsx:142-167 | there is one result per key with a numeric value and a range, with its status, and no other |
| LabAnalysis.InterpretedDistinct | src/pages/LabAnalysis.tsx:142-167 | distinct keys give results with distinct keys |
| LabAnalysis.SummaryCounts | src/pages/LabAnalysis.tsx:273-281 | the counts are per status; the total is the number of results, or 1 without any; the percentage is that of normal results |
| LabAnalysis.StatusCountsSum | src/pages/LabAnalysis.tsx:273-281 | the four counts add up to the number of results |
| LabAnalysis.PercentBounds | src/pages/LabAnalysis.tsx:279 | the percentage lies in 0..100 |
| LabAnalysis.NormalPercentInRange | src/pages/LabAnalysis.tsx:273-281 | the normal percentage lies in 0..100 |
| LabAnalysis.CleanChar | src/pages/LabAnalysis.tsx:341-348 | a kept character is a digit or a point |
| LabAnalysis.Cleaned | src/pages/LabAnalysis.tsx:341-348 | after cleaning only digits and points remain |
| LabAnalysis.CleanedAppend | src/pages/LabAnalysis.tsx:341-348 | cleaning works character by character |
| LabAnalysis.NormalizeNumberDefined | src/pages/LabAnalysis.tsx:341-348 | a number results exactly when the cleaned text is empty or has one point at most and a digit |
| LabAnalysis.CleanedOfDigits | src/pages/LabAnalysis.tsx:341-348 | ASCII digits are kept as they are |
| LabAnalysis.CleanedOfArabicIndic | src/pages/LabAnalysis.tsx:341-348 | Arabic-Indic digits become their ASCII digits |
| LabAnalysis.NormalizeNumberOfNat | src/pages/LabAnalysis.tsx:341-348 | a number in ASCII or Arabic-Indic digits reads as itself |
| LabAnalysis.NormalizeNumberComma | src/pages/LabAnalysis.tsx:341-348 | a decimal comma reads as a point |
| LabAnalysis.FirstFoundSpec | src/pages/LabAnalysis.tsx:352-360 | nothing is found only when no pattern yields; otherwise the first pattern that yields gives the value |
| LabAnalysis.Get | src/pages/LabAnalysis.tsx:352-360 | the early-return loop gives the first defined number |
| LabAnalysis.StripSpaces | src/pages/LabAnalysis.tsx:231-244 | stripping leaves no whitespace, and text without whitespace is unchanged |
| LabAnalysis.FilteredLabs | src/pages/LabAnalysis.tsx:231-244 | the labs shown are those matching by name, address or stripped phone, in order; a blank query shows all |
| LabAnalysis.NewKeys | src/pages/LabAnalysis.tsx:447-456 | the appended fields are the new ones |
| LabAnalysis.SpreadLookup | src/pages/LabAnalysis.tsx:447-456 | after `{...prev, ...parsed}` a field has the parsed value if parsed has it, else the previous one |
| LabAnalysis.LabPanel.constructor | src/pages/LabAnalysis.tsx:214-227 | every category starts empty |
| LabAnalysis.LabPanel.ExtractFromText | src/pages/LabAnalysis.tsx:447-456 | every category becomes the spread of its previous and parsed fields |
| HealthAI.InterpretValueBands | src/pages/HealthAI.tsx:139-143 | low exactly below min, high exactly above max, normal in between |
| HealthAI.PressureEntry | src/pages/HealthAI.tsx:159-173 | a pressure entry appears exactly when both readings are truthy; high if either is high, else low if either is low, else normal |
| HealthAI.HeartRateEntry | src/pages/HealthAI.tsx:149-157 | a heart-rate entry appears exactly when the reading is truthy |
| HealthAI.HdlEntry | src/pages/HealthAI.tsx:249-259 | HDL is normal from 40, low below and never high; no entry without a reading |
| HealthAI.RiskLevel | src/pages/HealthAI.tsx:311-322 | high exactly when there are two highs or two lows, moderate exactly when neither reaches two and one of them is one, low exactly when there are none; never critical |
| HealthAI.LowRiskAllNormal | src/pages/HealthAI.tsx:311-322 | the risk is low exactly when every entry is normal |
| HealthAI.RiskMonotone | src/pages/HealthAI.tsx:311-322 | one more entry never lowers the risk |
| HealthAI.AbnormalIsLowPlusHigh | src/pages/HealthAI.tsx:301-309 | the abnormal count is the low count plus the high count |
| HealthAI.OverallInterpretationSpec | src/pages/HealthAI.tsx:301-309 | "all normal" exactly when every entry is normal; otherwise the text starts with the abnormal count |
| HealthAI.CategoryBands | src/pages/HealthAI.tsx:125-136 | the BMI categories split at 18.5, 25 and 30, lower bounds included |
| HealthAI.CategoryMonotone | src/pages/HealthAI.tsx:125-136 | a larger BMI never has a lower category |
| HealthAI.HealthAIPage.constructor | src/pages/HealthAI.tsx:57-62 | the page starts on vital signs, with empty readings and no records |
| HealthAI.HealthAIPage.SaveCurrentTest | src/pages/HealthAI.tsx:285-299 | the current record goes first before the previous first nine; at most ten are kept |
| HealthAI.HealthAIPage.RecalculateBmi | src/pages/HealthAI.tsx:476-481 | with weight and height the BMI and its category are set, otherwise nothing changes |
| HealthAI.SavedRecordsShape | src/pages/HealthAI.tsx:298 | the new list is the record followed by the old records in order, up to ten in all |
| MentalHealth.LevelOf | src/pages/MentalHealth.tsx:14-37 | probable from 3, mild for 1..2, none at 0 |
| MentalHealth.Score | src/pages/MentalHealth.tsx:14-16 | with answers in 0..3 the score lies in 0..6 |
| MentalHealth.ScreeningBands | src/pages/MentalHealth.tsx:40-63 | the score lies in 0..6; none exactly for two zero answers; any answer 3 is probable |
| MentalHealth.LevelMonotone | src/pages/MentalHealth.tsx:14-37 | a higher score never has a lower level |
| MentalHealth.LabelsDiffer | src/pages/MentalHealth.tsx:20 | the two tests share the labels except at the probable level |
| MentalHealth.FilteredTherapists | src/pages/MentalHealth.tsx:171-180 | the therapists shown are the matching ones, in order; an empty query shows all |
| MentalHealth.SearchIdempotent | src/pages/MentalHealth.tsx:171-180 | searching the result again changes nothing |
| MentalHealth.Rejected | src/pages/MentalHealth.tsx:187-229 | the first failing check in the order missing field, invalid date, date window, time format, opening hours |
| MentalHealth.AcceptedHours | src/pages/MentalHealth.tsx:212-226 | an accepted booking is 0..60 days ahead and between 09:00 and 17:00 by minutes |
| MentalHealth.MentalHealthPage.constructor | src/pages/MentalHealth.tsx:122-150 | the page starts from the saved bookings with a blank form |
| MentalHealth.MentalHealthPage.ConfirmBooking | src/pages/MentalHealth.tsx:187-251 | a rejection sets the error and changes no booking; otherwise one booking is put first in the stored list and in `myBookings` |
| MentalHealth.MentalHealthPage.CancelBooking | src/pages/MentalHealth.tsx:471-476 | exactly the bookings with the id are removed, the rest kept in order |
| Nutrition.ExactEntry | src/pages/Nutrition.tsx:156-157 | an own key equal to the name finds its entry; nothing when no key equals it |
| Nutrition.KeyFindsItsValues | src/pages/Nutrition.tsx:94-117 | the first entry of a key is what that key finds |
| Nutrition.FirstContained | src/pages/Nutrition.tsx:156-157 | otherwise the first key, in table order, contained in the name is used |
| Nutrition.FoodEntry | src/pages/Nutrition.tsx:156-157 | an own key equal to the name wins, then the inherited members `constructor` and `__proto__`, then the first key the name contains; nothing is found exactly when the name is not inherited and contains no key |
| Nutrition.EstimateOf | src/pages/Nutrition.tsx:148-169 | no estimate for an empty name, grams that are NaN or not positive, or an unknown food; all values NaN exactly for an inherited name that is not a key |
| Nutrition.InheritedNamesShowNaN | src/pages/Nutrition.tsx:156-168 | typing "constructor" or "__proto__" with a positive weight shows NaN for every value |
| Nutrition.EstimateScales | src/pages/Nutrition.tsx:162-168 | the estimate is the entry scaled by grams / 100 |
| Nutrition.HundredGrams | src/pages/Nutrition.tsx:162-168 | 100 grams give the table values |
| Nutrition.FindNutritionist | src/pages/Nutrition.tsx:210 | the nutritionist found has the id; none is found only when no one has it |
| Nutrition.Rejected | src/pages/Nutrition.tsx:171-205 | the first failing check in the order missing field, date window, opening hours by string order |
| Nutrition.AcceptedClockTime | src/pages/Nutrition.tsx:198 | a valid clock time is accepted exactly in 540..1020 minutes |
| Nutrition.UnparsedDatePasses | src/pages/Nutrition.tsx:188-195 | a date that cannot be parsed passes the date check |
| Nutrition.NutritionPage.constructor | src/pages/Nutrition.tsx:119-124 | the page starts from the saved bookings with an empty form |
| Nutrition.NutritionPage.Estimate | src/pages/Nutrition.tsx:148-169 | the result becomes the estimate and nothing else changes |
| Nutrition.NutritionPage.ConfirmBooking | src/pages/Nutrition.tsx:171-243 | a rejection sets the error and changes no booking; otherwise the booking is put first, the state equals the stored list and the five fields are cleared |
| Nutrition.NutritionPage.CancelBooking | src/pages/Nutrition.tsx:245-251 | only the bookings with the id are removed, the rest kept in order |
| Reviews.ProblemOf | src/pages/Reviews.tsx:56-75 | the first failing check in the order clinic, doctor, description, rating 1..5 |
| Reviews.NewReview | src/pages/Reviews.tsx:77-85 | the fields are trimmed and a blank hospital is left out |
| Reviews.WithReview | src/pages/Reviews.tsx:86 | the review goes first and the length becomes min(old + 1, 200) |
| Reviews.WithReviewCapped | src/pages/Reviews.tsx:86 | the list never exceeds 200 reviews |
| Reviews.AvgRating | src/pages/Reviews.tsx:96-100 | no reviews give 0 |
| Reviews.RatingSumBounds | src/pages/Reviews.tsx:96-100 | with ratings in 1..5 the sum lies between the count and five times the count |
| Reviews.AvgRatingBounds | src/pages/Reviews.tsx:96-100 | with ratings in 1..5 the rounded mean lies in 1..5 |
| Reviews.AvgOfOne | src/pages/Reviews.tsx:96-100 | one review's average is its rating |
| Reviews.ReviewBoard.constructor | src/pages/Reviews.tsx:26-40 | the board starts from the saved reviews with a blank form |
| Reviews.ReviewBoard.HandleSubmit | src/pages/Reviews.tsx:56-94 | a rejection sets the error and changes nothing else; otherwise the review is added and the form cleared with rating 0 |
| Reviews.ReviewBoard.DeleteReview | src/pages/Reviews.tsx:49-54 | every review with the id is removed, the rest kept in order |
| Reviews.DeleteUndoesSubmit | src/pages/Reviews.tsx:49-54 | deleting a review just added with a fresh id restores the list |
| Telehealth.TriageLevels | src/pages/Telehealth.tsx:18-48 | each of the four levels exactly for its condition on the answers and the duration |
| Telehealth.MildAloneIsNormal | src/pages/Telehealth.tsx:43-47 | mild breathing and chest pain alone for two days is normal |
| Telehealth.TriageMonotone | src/pages/Telehealth.tsx:18-48 | worse answers or a longer illness never lower the level |
| Telehealth.LinkOpensDirectory | src/pages/Telehealth.tsx:130 | the hospitals link asks for government sites exactly at the emergency level, and for hospitals |
| Diseases.Toggled | src/pages/Diseases.tsx:84-86 | the key is selected afterwards exactly when it was not; other keys keep their state |
| Diseases.ToggleKeepsDistinct | src/pages/Diseases.tsx:84-86 | toggling never repeats a key |
| Diseases.ToggleTwice | src/pages/Diseases.tsx:84-86 | toggling twice restores the selection |
| Diseases.SymptomHints | src/pages/Diseases.tsx:87-110 | each hint appears exactly for its trigger; the general one only when no other fired and something is selected; in order |
| Diseases.Plan | src/pages/Diseases.tsx:118-127 | activity and diet first, then each ticked condition in order, the age item last: 3 plus the ticks in all |
| Diseases.FilteredDiseases | src/pages/Diseases.tsx:45-47 | the diseases shown match by name or description, case ignored, in order; an empty query shows all |
| Diseases.FetchedTopicsSearchable | src/pages/Diseases.tsx:45-59 | after a fetch with entries, searching for an entry's name shows its card, the description defaulting to "" and no tips |
| Diseases.FetchReplacesList | src/pages/Diseases.tsx:54-61 | a fetch with entries replaces the list whole: the old list makes no difference and every card comes from the file |
| Diseases.AfterFetchIdempotent | src/pages/Diseases.tsx:49-69 | fetching the same file twice gives what fetching it once gives |
| Diseases.DiseasesPage.constructor | src/pages/Diseases.tsx:44 | the page starts with the built-in diseases, no query and nothing selected |
| Diseases.DiseasesPage.ToggleSymptom | src/pages/Diseases.tsx:84-86 | the selection is toggled and nothing else changes |
| Diseases.DiseasesPage.FetchWho | src/pages/Diseases.tsx:49-69 | the list becomes the result of the fetch and nothing else changes |
| Hospitals.FilterData | src/pages/Hospitals.tsx:431-446 | the sites shown match the search and the filter, in order |
| Hospitals.EmptySearchKeepsAll | src/pages/Hospitals.tsx:434-441 | an empty query with "all" shows every site |
| Hospitals.FilterDataIdempotent | src/pages/Hospitals.tsx:431-446 | filtering again changes nothing |
| Hospitals.KindFilterKeepsKind | src/pages/Hospitals.tsx:439-442 | a kind filter keeps every matching site of that kind |
| Hospitals.MapQuery | src/pages/Hospitals.tsx:459-464 | the map search is exactly the name, the kind word and the address separated by spaces, then ", المفرق, الأردن" |
| Hospitals.OtherKindsAreClinics | src/pages/Hospitals.tsx:459-464 | every kind but government, private and university, the military one included, is searched for as a clinic |
| Hospitals.ParamGet | src/pages/Hospitals.tsx:24-29 | the first value given for the name, or none when it is absent |
| Hospitals.WithParamsStable | src/pages/Hospitals.tsx:24-29 | no parameters change nothing, and applying them twice is applying them once |
| Hospitals.HospitalsPage.constructor | src/pages/Hospitals.tsx:20-21 | no query and the "all" filter |
| Hospitals.HospitalsPage.ApplyParams | src/pages/Hospitals.tsx:24-29 | filter and query become those the parameters give |
| Doctors.PlaceItem | src/pages/Doctors.tsx:215-225 | a place without a name becomes "منشأة صحية", one without a vicinity "المفرق، الأردن", with an empty phone |
| Doctors.MergeProperties | src/pages/Doctors.tsx:226-235 | the previous cards stay in front, keys are distinct, every key survives and the first card with a key is kept |
| Doctors.MergeSkipsKnown | src/pages/Doctors.tsx:230 | a place with a known key is not added |
| Doctors.JoinOccurs | src/pages/Doctors.tsx:250 | every language occurs in the joined text |
| Doctors.FilteredDoctors | src/pages/Doctors.tsx:248-258 | the cards shown match the trimmed, lower-cased query in name, specialty, clinic, address or languages, in order; a blank query shows all |
| Doctors.LanguageFindsDoctor | src/pages/Doctors.tsx:250 | searching for one of a doctor's languages finds the doctor |
| Doctors.MapLinkOf | src/pages/Doctors.tsx:174-183 | directions to the coordinates exactly when both are truthy, else a search for exactly the name followed by " المفرق الأردن" |
| Doctors.NoCoordinatesSearchesName | src/pages/Doctors.tsx:174-181 | without coordinates, or with a zero latitude or longitude, the name is searched for |
| Doctors.DoctorsDirectory.constructor | src/pages/Doctors.tsx:170-172 | the page starts from the built-in list |
| Doctors.DoctorsDirectory.FetchOnline | src/pages/Doctors.tsx:185-198 | the file replaces the list when it could be read, else the list stays |
| Doctors.DoctorsDirectory.FetchFromGooglePlaces | src/pages/Doctors.tsx:200-242 | without an API key nothing changes; a failure keeps the list; otherwise the places are merged |
| Services.InsertPermutes | src/components/Services.tsx:128 | an insertion adds the one element |
| Services.InsertIntoGroups | src/components/Services.tsx:128 | a featured service goes after the featured ones, any other at the end |
| Services.SortIsFeaturedFirst | src/components/Services.tsx:128 | the stable sort gives the featured services, then the others, each in original order |
| Services.SortPermutes | src/components/Services.tsx:128 | the sort is a permutation |
| Services.FeaturedFirstOrder | src/components/Services.tsx:128 | a permutation in which no featured service follows another one, each group in its original order |
| Services.SortIdempotent | src/components/Services.tsx:128 | sorting again changes nothing |

## Left out

- The network, `sleep` pacing, `fs.writeFile` and `process.exit` of the scripts: a request and the written file are values.
- HTML parsing: cheerio selectors become the fragments they return, and `\p{L}` is approximated by Arabic and ASCII letters.
- The Unicode parts of `toLowerCase` and of `\s`: only ASCII letters are lower-cased.
- Js.StringToNumber: reads decimal text only; hexadecimal, exponents and `Infinity` become NaN.
- Floating point is exact `real` arithmetic. Agreement with IEEE doubles at band edges is not claimed.
- Nutrition.EstimateOf: `toFixed(1)` on the scaled values is left out, so the estimate is exact.
- Js.ParseFloatJs: exponents and `Infinity` are not read, so a weight typed as "1e2" grams is 1 gram in the model where `parseFloat` gives 100.
- TimeFormat.FormatTime12h: a part with a fractional value, such as "8.5:30", gives `Fractional` instead of the float text JavaScript would print, because number-to-text conversion of non-integers is not modelled.
- WhoTopics.EmroStep: the `length > 2` test counts code points, where JavaScript counts UTF-16 units; the two differ only for characters outside the Basic Multilingual Plane.
- WhoTopics.WhoStep: the `length > 2` test counts code points, where JavaScript counts UTF-16 units, as in EmroStep.
- Doctors.KeyOf: the de-duplication key is a tuple of name, coordinates and phone, where the source joins them with `-` into one string (src/pages/Doctors.tsx:230); two different places whose joined texts coincide are merged by the source but kept apart by the model.
- Reviews.AvgRating: the mean is rounded to one decimal on exact reals.
- HealthAI.HealthAIPage.RecalculateBmi: the BMI is exact `real` division, without `toFixed`.
- JS `Date`, time zones and locale date formats: dates are day numbers, and reading a date input is a parameter.
- URL encoding of the map links: the models give the text before `encodeURIComponent`.
- Messages, toasts and colours: rejections and states are datatypes, not their Arabic texts.
- The ~40 regular expressions of `parseLabText` (src/pages/LabAnalysis.tsx:370-442): the patterns are a parameter of the `get` combinator.
- LabAnalysis saving, copying and alerts (`saveCurrentTest`, `copyResults`): browser plumbing.
- BloodDonation `filteredSites`, `openMap` and `addPledge`: display and storage only.
- MentalHealth.MentalHealthPage.constructor: the sort by `createdAt` of bookings read from storage is left out, because their order when saved is kept.
- Nutrition booking type field: it is stored but no check depends on it.
- Diseases vaccine list and seasonal tips: static texts.
- HealthAI audio and camera analysis: browser media and frame timing.
- localStorage, React rendering and hooks, `window.open`, scroll and highlight timers, and the delayed switch to the bookings tab after a Nutrition booking (src/pages/Nutrition.tsx:240-242): the state a page holds is a class and storage is an initial value.
- src/pages/Jobs.tsx is not part of this model: it polls a network service and refers to identifiers it does not define.
- scripts/generate_pdf.mjs, Fitness, Blog, Header, Footer, Hero, Index, App, Government, NotFound, EmptyBookings, ScrollToHash and navigation-menu: presentation only.
- Value semantics: arrays the source copies are sequences, so aliasing is not modelled.
