# French startup funding tracker — migration scripts, modelled in Dafny

The repository keeps a database of French start-up funding rounds. Its
`migration/` scripts fill and repair that database. This project models
the scripts' core logic and proves properties of it:

- **The SIREN matcher** (`match-siren.js`). It queries the Sirene
  registry for each company. It escapes the query, handles the
  404 / 429 / error statuses, and normalises names. It scores candidates
  by Levenshtein similarity, city and headquarters, then picks the best
  candidate and grades it HIGH, MEDIUM or LOW. It sorts every company
  into a bucket. It writes the SIREN/SIRET of HIGH matches, either during
  the loop or after a `--confirm` prompt, and `--dry-run` writes nothing.
- **The JSON migration helpers** (`migrate.js`): `parseFounders`,
  `parseInvestors`, `slugify` and `getSectorColor`.
- **The three deal-insertion scripts** (`insert-deals.js`,
  `insert-deals-jan16.js`, `insert-deals-jan23.js`). They share
  `validateDeal` and the validate-then-insert gate: `main` validates every
  deal before it inserts any. The result tally decides the exit code. For a
  company that already exists, the first script records `'added'` with a
  new round; the two dated copies report `'skipped'` and write nothing.
- **`update-sectors.js`**: it splits combined sectors such as
  `"FoodTech & AgriTech"` into their components, removes duplicates, and
  counts `updatedCount` and `sectorChanges`.
- **`migrate-sectors.js`**: it moves the string field `sector` to the
  `sectors` array, counting `migrated` and `skipped`.

## Layout

| file | module | models |
|---|---|---|
| `wrappers.dfy` | `Wrappers` | `Option` and `Result` |
| `json.dfy` | `Json` | JavaScript values, property access and truthiness |
| `text.dfy` | `Text` | character classes, trimming, whitespace runs, words and joins (shared by every normaliser) |
| `query.dfy` | `Query` | `escapeQuery` and the query string of `searchSirene` |
| `normalize.dfy` | `Normalize` | `normalizeName` |
| `editdistance.dfy` | `EditDistance` | `levenshteinDistance` (the table-filling loop) |
| `similarity.dfy` | `NameSimilarity` | `similarity` |
| `matcher.dfy` | `Matcher` | `findBestMatch` and the confidence tiers |
| `batch.dfy` | `Batch` | `searchSirene`'s status handling, `updateCompanySiren`, `applyHighConfidenceMatches`, and the loop, buckets and confirmation of `main` |
| `founders.dfy` | `Founders` | `parseFounders` |
| `investors.dfy` | `Investors` | `parseInvestors` |
| `slug.dfy` | `Slug` | `slugify` (the same four lines in four scripts) |
| `sectorcolor.dfy` | `SectorColor` | `getSectorColor` |
| `deals.dfy` | `Deals` | `validateDeal`, `insertDeal`'s outcome, and the gate and tally of `main` |
| `updatesectors.dfy` | `UpdateSectors` | `update-sectors.js` |
| `migratesectors.dfy` | `MigrateSectors` | `migrate-sectors.js` |

Code that changes state is written as imperative Dafny, each piece
proved against a function that specifies it:

- the `forEach` over the JSON records is a method over an `array`;
- the Levenshtein table is an `array2`;
- the database tables are the classes `Batch.Datastore` and
  `Deals.DealStore`;
- the loops of `findBestMatch`, `parseFounders`, `validateDeal`,
  `main` and `applyHighConfidenceMatches` are `while` loops with
  invariants.

Expression-only helpers are functions: `escapeQuery`, `normalizeName`,
`similarity`, `slugify`, `parseInvestors` and `getSectorColor`.

## Model

| member | source | states |
|---|---|---|
| Query.EscapeQuery | migration/match-siren.js:167-173 | the escaped query is the whitespace-separated words of the input, with every reserved Lucene character first made a blank, joined by single spaces |
| Query.EscapeQueryClean | migration/match-siren.js:167-173 | the escaped query contains no reserved character and no whitespace but single spaces, with no space at either end and never two spaces in a row |
| Query.EscapeQueryIdempotent | migration/match-siren.js:167-173 | escaping an escaped query changes nothing |
| Query.UpperKeepsSpaces | migration/match-siren.js:93-106 | upper-casing neither adds nor removes a space, so the phrase-or-wildcard choice is the same before and after `toUpperCase` |
| Query.TermHasSpace | migration/match-siren.js:93-106 | the search term contains a space exactly when the escaped name has at least two words |
| Query.NameClauseShape | migration/match-siren.js:93-118 | a name of two or more words becomes a quoted phrase clause, and a one-word name becomes a `TERM*` prefix clause; without a city nothing else is added except the active-entity filter |
| Query.EmptyNameSearchesEverything | migration/match-siren.js:93-106 | a name made only of reserved characters and blanks becomes the wildcard clause `denominationUniteLegale:*` |
| Query.BuildQuery | migration/match-siren.js:93-118 | every query starts with the name clause and ends with ` AND etatAdministratifUniteLegale:A`; without a city it is exactly those two |
| Query.CityClauseShape | migration/match-siren.js:108-115 | no city adds nothing; a city of two or more words adds ` AND` a quoted phrase on the city field, and a one-word city adds ` AND` a `TERM*` prefix clause |
| Query.CityClauseInQuery | migration/match-siren.js:93-118 | with a city, the whole query is the name clause, then ` AND` and the city's phrase (two or more words) or `TERM*` (one word) clause, then the active-entity filter |
| Batch.SearchSirene | migration/match-siren.js:140-161 | status 404 means an empty result; 429 means a rate-limit error; any other status outside 200-299 fails with that status; a fetch that rejects is a network error; a 200-299 body that is not JSON or is JSON `null` is an error; otherwise the result is the `etablissements` list, or the empty list when it is missing |
| Normalize.NormalizeName | migration/match-siren.js:182-191 | the normalised name is the words of the upper-cased, accent-free, special-characters-to-blanks input, legal-form words (SAS, SARL, ...) removed, joined by single spaces |
| Normalize.NormalizeShape | migration/match-siren.js:182-191 | a normalised name holds only A-Z, digits and single interior spaces, and no legal-form word |
| Normalize.NormalizeIdempotent | migration/match-siren.js:182-191 | normalising twice is the same as normalising once |
| Normalize.NormalizeDropsLegalSuffix | migration/match-siren.js:188-190 | appending a legal form such as `SAS` after a blank does not change the normalised name |
| Normalize.NormalizeWords | migration/match-siren.js:182-191 | the words of the normalised name are exactly the non-legal-form words of the prepared input, in order |
| Normalize.DropLegalFormsWords | migration/match-siren.js:188 | removing legal-form words in the text is the same as filtering them out of the word list |
| Normalize.FilterLegalIdempotent | migration/match-siren.js:188 | filtering legal forms twice is filtering them once |
| EditDistance.LevenshteinDistance | migration/match-siren.js:220-241 | the table-filling loop returns the recursive edit distance |
| EditDistance.FillRow | migration/match-siren.js:228-237 | filling row `i` from row `i-1` puts the edit distance of every pair of prefixes in that row, and leaves the rows before it alone |
| EditDistance.LevStep | migration/match-siren.js:230-235 | the distance of two non-empty prefixes is the least of deletion, insertion and substitution (free on equal characters) |
| EditDistance.LevSymmetric | migration/match-siren.js:220-241 | the distance does not depend on the order of the two strings |
| EditDistance.LevLowerBound | migration/match-siren.js:220-241 | the distance is at least the difference of the lengths |
| EditDistance.LevUpperBound | migration/match-siren.js:220-241 | the distance is at most the longer length |
| EditDistance.LevZeroIff | migration/match-siren.js:220-241 | the distance is zero exactly when the strings are equal |
| NameSimilarity.Similarity | migration/match-siren.js:196-215 | the similarity of two names is in [0, 1], and it is 1 exactly when the two normalised names are equal |
| NameSimilarity.ComputeSimilarity | migration/match-siren.js:196-215 | the method computing `similarity` returns the function's value: in [0, 1], and 1 exactly when the two normalised names are equal |
| NameSimilarity.ScoreRange | migration/match-siren.js:200-214 | the score of two normalised names is in [0, 1] and is 1 only for equal names |
| NameSimilarity.SimilaritySymmetric | migration/match-siren.js:196-215 | similarity does not depend on the order of its arguments |
| NameSimilarity.ContainmentScore | migration/match-siren.js:203-207 | when one name contains the other, the score is the ratio of the lengths, strictly below 1, and 0 for an empty name |
| NameSimilarity.DistanceBranch | migration/match-siren.js:209-214 | otherwise the score is 1 minus the edit distance over the longer length, and is below 1 |
| Matcher.ScoreCandidate | migration/match-siren.js:257-278 | a candidate's name similarity is in [0, 1], and its total score, with the 0.2 city bonus and the 0.1 headquarters bonus, is in [0, 1.3] |
| Matcher.FindBestMatch | migration/match-siren.js:249-316 | no match exactly when every candidate scores 0; otherwise the match is the first candidate with the greatest score, graded by the tiers on its name similarity and city match |
| Matcher.Scan | migration/match-siren.js:253-296 | the strict `>` scan keeps the first candidate with the greatest positive score |
| Matcher.BestExists | migration/match-siren.js:257-294 | a non-empty list of scores always has a first greatest element |
| Matcher.BestUnique | migration/match-siren.js:280-293 | at most one candidate is the first with the greatest score |
| Matcher.BestDominates | migration/match-siren.js:280-293 | the best scores at least as much as every candidate, and strictly more than every one before it |
| Matcher.OrderDecidesTies | migration/match-siren.js:280-293 | two candidates with equal scores: whichever comes first in the registry's list wins |
| Matcher.FirstOfTieIsBest | migration/match-siren.js:280-293 | of two equal scores, the first is the only best one |
| Matcher.SirenNotScored | migration/match-siren.js:257-278 | the SIREN number plays no part in the score |
| Matcher.Tier | migration/match-siren.js:298-310 | HIGH exactly when the similarity is at least 0.98, or at least 0.95 with a matching city; LOW exactly when it is below 0.8 and either below 0.6 or without a matching city; MEDIUM otherwise |
| Matcher.TierMonotone | migration/match-siren.js:301-310 | a higher name similarity never gives a lower confidence tier |
| Matcher.TierCityHelps | migration/match-siren.js:301-310 | a matching city never lowers the tier |
| Matcher.TierExamples | migration/match-siren.js:298-310 | 0.98 is HIGH without a city; 0.97 is HIGH only with the city; 0.7 is MEDIUM only with the city; 0.59 is LOW even with it |
| Batch.Datastore.constructor | migration/match-siren.js:360-380 | a store starts with the given rows and failing ids |
| Batch.Datastore.UpdateCompanySiren | migration/match-siren.js:360-380 | a dry run reports success and writes nothing; otherwise the call succeeds exactly when the update is not rejected, and then sets that company's SIREN and SIRET |
| Batch.ApplyHighConfidenceMatches | migration/match-siren.js:546-562 | every HIGH record is written in order, and the count is the number of successful writes (all of them on a dry run, which changes nothing) |
| Batch.CountOk | migration/match-siren.js:548-558 | the success count never exceeds the number of records, and equals it when no update fails |
| Batch.OutcomeOf | migration/match-siren.js:437-463 | a matched company is graded by the tiers on its best candidate's name similarity and city match; an error outcome carries the error of the search with the city or of the broader search |
| Batch.MatchCompany | migration/match-siren.js:437-463 | a company's outcome: a search error; or the best match among the results with the city; or, only when that search finds nothing, among the results without it; not found when both are empty |
| Batch.FallbackOnlyWhenEmpty | migration/match-siren.js:437-452 | when the search with the city finds something, the search without it plays no part in the outcome |
| Batch.Run | migration/match-siren.js:386-519 | `main` sorts every company into the bucket of its outcome, in order. It prompts exactly when `--confirm` is set and there are HIGH matches. The database ends with every HIGH match written, unless the run is dry or the operator does not answer yes, in which case it is untouched |
| Batch.SortedStep | migration/match-siren.js:428-500 | one more company adds exactly one entry, to the bucket of its outcome |
| Batch.RouteHigh | migration/match-siren.js:457-488 | only a HIGH match reaches the HIGH bucket, as one record at its end |
| Batch.BucketsCover | migration/match-siren.js:428-500 | the five buckets together hold one entry per company |
| Batch.EveryCompanyBucketed | migration/match-siren.js:428-500 | every company of the list is in the bucket its outcome selects: its record in the HIGH, MEDIUM or LOW bucket, or itself among the not-found, or with its error among the errors |
| Batch.BucketsByTier | migration/match-siren.js:457-488 | each bucket holds only companies of the list whose outcome is that bucket's tier, not-found or error |
| Batch.AppliedStep | migration/match-siren.js:550-558 | writing one more record writes it on top of the earlier writes |
| Batch.AppliedKeys | migration/match-siren.js:360-380 | updates never add or remove a company row |
| Batch.AppliedFrame | migration/match-siren.js:360-380 | a row that no record names, or whose update fails, keeps its SIREN and SIRET |
| Batch.LastWriteWins | migration/match-siren.js:550-558 | a company named by several records ends with the SIREN of the last one |
| Batch.OnlyHighMatchesWritten | migration/match-siren.js:475-488 | a company without a HIGH match keeps its row whatever the other companies' outcomes |
| Founders.ParseFounders | migration/migrate.js:50-87 | the loop returns the founders of the split pieces, in order; each has a non-empty name; there are no more of them than pieces |
| Founders.SplitParts | migration/migrate.js:59 | splitting at `,` plus blanks before a capital yields at least one piece |
| Founders.UrlAfterName | migration/migrate.js:66 | after a name, the tail ` (url)` of an `http(s)://` URL without blank or `)` yields exactly that URL |
| Founders.ParsePart | migration/migrate.js:62-83 | a blank piece gives no founder; a founder has a non-empty, trimmed name, and its LinkedIn URL, when present, is a whole `http(s)://` URL |
| Founders.CollectParts | migration/migrate.js:61-84 | every collected founder has a non-empty name, and there are no more founders than pieces |
| Founders.BlankHasNoFounders | migration/migrate.js:51-53 | a blank founders string gives no founders |
| Founders.SplitJoin | migration/migrate.js:59 | pieces that start with a capital and hold no comma, joined by `, `, split back into the same pieces |
| Founders.ParsePartRender | migration/migrate.js:62-83 | a founder rendered as `Name (url)` or `Name` parses back to the same founder |
| Founders.MatchEndsAtName | migration/migrate.js:66-72 | the lazy name group of `Name (url)` stops exactly at the end of the name |
| Founders.NoMatchInName | migration/migrate.js:66-76 | a string without `:` has no LinkedIn match |
| Founders.ParseRenderAll | migration/migrate.js:50-87 | rendering plain founders and joining them with `, ` parses back to the same list |
| Investors.SplitComma | migration/migrate.js:99 | the split yields at least one piece, and no piece holds a comma |
| Investors.JoinSplitComma | migration/migrate.js:99 | gluing the pieces back with commas gives the input |
| Investors.ParseInvestors | migration/migrate.js:93-102 | every investor is a non-empty trimmed name without a comma |
| Investors.ParseJoin | migration/migrate.js:93-102 | non-empty trimmed comma-free names joined by `, ` parse back to the same list |
| Investors.CleanJoin | migration/migrate.js:98-101 | trimming and dropping empty pieces recovers the joined names |
| Slug.Slugify | migration/migrate.js:107-113 | a slug is the runs of `a-z0-9` of the lower-cased input, with `&` read as `-and-`, joined by single hyphens |
| Slug.SlugShape | migration/insert-deals.js:146-152 | a slug holds only `a-z`, digits and single hyphens, with no hyphen at either end |
| Slug.SlugIdempotent | migration/insert-deals-jan16.js:455-461 | slugifying a slug changes nothing |
| Slug.SlugAmpersand | migration/insert-deals-jan23.js:375-381 | `a&b` slugifies to the slugs of `a` and `b` around the word `and` |
| Slug.ExpandAmpConcat | migration/migrate.js:110 | the `&` expansion works piece by piece over a concatenation |
| SectorColor.GetSectorColor | migration/migrate.js:118-141 | a sector of the table gets its colour from the table, and every other name the slate-grey default `#64748b` |
| SectorColor.SectorColorIsHex | migration/migrate.js:118-141 | every name other than a prototype property, in the table or not, gets a `#rrggbb` colour |
| Deals.CheckFields | migration/insert-deals.js:162-182 | the top-level checks push their messages in the order of the fields |
| Deals.CheckFounders | migration/insert-deals.js:184-192 | the founder loop throws exactly when some entry is `null` or `undefined`; otherwise it appends one message per string entry and one per entry without a string name |
| Deals.ValidateDeal | migration/insert-deals.js:158-208 | `validateDeal` throws on an unreadable founder; otherwise it returns the collected messages, and it reports the deal valid exactly when none of them blocks |
| Deals.FieldIssuesMeaning | migration/insert-deals.js:162-182 | the top-level checks report nothing exactly when every required field is present and well typed |
| Deals.FounderIssueMeaning | migration/insert-deals.js:186-190 | a founder entry gets a message exactly when it is not an object with a non-empty string name, and that message blocks |
| Deals.FounderIssuesMeaning | migration/insert-deals.js:184-192 | every founder message blocks, and there are none exactly when every founder is well formed |
| Deals.ValidationMeaning | migration/insert-deals.js:198-207 | no blocking message exactly when the deal is valid; a valid deal never throws |
| Deals.NewsUrlOnlyWarns | migration/insert-deals.js:194-204 | a missing `news_url` adds its message but never blocks the deal |
| Deals.UncheckedFieldsIgnored | migration/insert-deals.js:158-208 | `website` and `news_summary` are never checked, and `news_url` never changes the blocking messages |
| Deals.ArrayElementsIgnored | migration/insert-deals.js:177-180 | only the emptiness of `sectors` and `investors` matters, not their elements |
| Deals.PlainStringFounderRejected | migration/insert-deals.js:186-187 | a founder given as a plain string makes the deal invalid |
| Deals.BlockingWarning | migration/insert-deals.js:200-204 | the `news_url` warning is never among the blocking messages |
| Deals.Blocking | migration/insert-deals.js:200 | the blocking messages are exactly those that do not start with `news_url` |
| Deals.ValidateAll | migration/insert-deals.js:479-491 | validation crashes exactly when some deal has an unreadable founder; otherwise the gate passes exactly when every deal is valid |
| Deals.DealStore.constructor | migration/insert-deals.js:338-461 | a store starts with the given companies and rounds |
| Deals.DealStore.InsertDeal | migration/insert-deals.js:338-461 | an existing company gets a new round and `'added'`; a new company is created and then its round, giving `'success'`; a failing insert gives `'failed'` |
| Deals.ExistingCompanyAdded | migration/insert-deals-jan16.js:655-663 | an existing company gains a round in insert-deals.js, but the jan16 and jan23 copies skip it and write nothing |
| Deals.Insert | migration/insert-deals-jan23.js:574-584 | insert-deals.js never reports `'skipped'` and the dated copies never report `'added'`; a dated copy skips exactly an existing company when nothing throws; a round is added exactly on `'success'` or `'added'`; no company is removed and only the deal's company can be added |
| Deals.SkippingNeverDuplicates | migration/insert-deals-jan23.js:567-677 | in the dated copies a company that already has a round never gets a second one, and earlier rounds are kept |
| Deals.Run | migration/insert-deals.js:467-517 | `main` exits 0 on no deals. An unreadable founder crashes it. Any invalid deal exits 1 with nothing written. Otherwise every deal is inserted in order, and the run exits 1 exactly when some insert failed |
| Deals.InsertEach | migration/insert-deals.js:496-506 | the insert loop leaves the database as inserting the deals in order does, and tallies their outcomes |
| Deals.TallyOf | migration/insert-deals.js:496-506 | each counter is the number of outcomes of its kind |
| Deals.TallyTotal | migration/insert-deals.js:496-506 | the counters add up to the number of deals |
| Deals.ScriptOutcomes | migration/insert-deals-jan16.js:793-813 | one outcome per deal; the standard script never counts `'skipped'`, and the dated copies never count `'added'` |
| UpdateSectors.Update | migration/update-sectors.js:44-80 | every company is rewritten in place. `updatedCount` is the number of companies with a combined sector. `sectorChanges` counts each combined sector as often as it occurs, and holds no zero entry |
| UpdateSectors.RewriteCompany | migration/update-sectors.js:45-79 | a company whose sectors hold no combined sector is left unchanged; otherwise its array is the components in first-seen order, without duplicates |
| UpdateSectors.RewriteSectors | migration/update-sectors.js:49-74 | the new array is the deduplicated expansion, and the flag says whether some sector was combined |
| UpdateSectors.PushComponents | migration/update-sectors.js:56-60 | each component is pushed only when it is not already there |
| UpdateSectors.CountChange | migration/update-sectors.js:64-67 | one more occurrence of a combined sector, counted from zero |
| UpdateSectors.TotalChangesCount | migration/update-sectors.js:44-80 | each counter equals the number of occurrences of its combined sector across all companies, and no counter is zero |
| UpdateSectors.NewSectorsShape | migration/update-sectors.js:49-74 | the new sectors hold no combined sector and no duplicate, and they keep every plain sector |
| UpdateSectors.NewSectorsValues | migration/update-sectors.js:49-74 | the new sectors are exactly the values of the expansion |
| UpdateSectors.DedupDistinct | migration/update-sectors.js:56-73 | the `includes` check leaves no duplicate |
| UpdateSectors.DedupOfDistinct | migration/update-sectors.js:56-73 | a list without duplicates is kept as it is |
| UpdateSectors.ComponentsNotCombined | migration/update-sectors.js:17-24 | no component of the mapping is itself a combined sector |
| UpdateSectors.ExpandFoodAgri | migration/update-sectors.js:17-24 | `FoodTech & AgriTech` becomes `AgriTech`, `FoodTech`, in the mapping's order |
| UpdateSectors.ExpandBioPharma | migration/update-sectors.js:17-24 | `BioTech & Pharma` becomes `BioTech` alone |
| UpdateSectors.ExpandSharedComponent | migration/update-sectors.js:49-74 | two combined sectors that share `BioTech` give it once |
| UpdateSectors.UntouchedCompanies | migration/update-sectors.js:45-47 | a company without a sectors array, or without a combined sector, is not changed |
| UpdateSectors.UpdateIdempotent | migration/update-sectors.js:44-80 | rewriting a rewritten company changes nothing |
| UpdateSectors.SecondPass | migration/update-sectors.js:44-80 | a second run changes nothing and counts no company |
| MigrateSectors.Migrate | migrate-sectors.js:18-37 | every record is rewritten in place. `migrated` counts the records with a non-empty string `sector`, and `skipped` those that already had a `sectors` array |
| MigrateSectors.MigrateRecord | migrate-sectors.js:24-36 | every record ends with a `sectors` array, and no field except `sector` and `sectors` changes |
| MigrateSectors.SectorMoved | migrate-sectors.js:24-28 | a non-empty string `sector` becomes the one-element `sectors` and is deleted |
| MigrateSectors.OtherRecords | migrate-sectors.js:30-36 | an existing `sectors` array is kept; a record with neither field gets `[]`, and a falsy `sector` stays |
| MigrateSectors.CountsBounded | migrate-sectors.js:18-37 | the two counters together never exceed the number of records |
| MigrateSectors.SecondPassIsIdentity | migrate-sectors.js:18-37 | running the migration again changes nothing and migrates nothing |
| MigrateSectors.SecondPassCounts | migrate-sectors.js:18-37 | on a second run every record counts as skipped |

## Left out

- The database client and the HTTP `fetch` are not modelled as code. The registry is a function from the query string to the response, the company table is `Batch.Datastore` with a fixed set of ids whose update fails, and the insertion scripts' database is `Deals.DealStore` with one `Fault` per deal.
- Only the company names of the `companies` and `funding_rounds` tables are modelled. The cities, sectors, investors and people upserts, the link tables, the company-info refresh of an existing company in insert-deals.js, the caches and `updated_at` are not.
- Deals.DealStore.InsertDeal: a `Thrown` fault stands for an exception before anything is written. An exception thrown after the company insert (in the link upserts) is not modelled.
- The delays between registry calls, the readline prompt, command-line flags, environment variables, `DEBUG`, `validateConfig`, `fetchCompaniesToMatch` (and its `--limit`) and `printSummary` are not modelled. The operator's answer and the flags are parameters of `Batch.Run`.
- The console messages are abstracted: `validateDeal`'s messages are the `Issue` constructors, and the log lines are not modelled.
- Unicode: `normalize('NFD')` and `toUpperCase`/`toLowerCase` are modelled on ASCII only. Accented input is assumed already decomposed, and only the combining marks U+0300-U+036F are removed.
- Numbers are Dafny reals, not IEEE doubles: rounding and `NaN` (the one falsy number besides 0) are not modelled.
- JavaScript objects are maps from keys to values. Key order, prototype properties and reference equality are not modelled. In update-sectors.js a non-string sector element is kept as it is, and `includes` compares by value.
- The JSON file read and write of `migrate-sectors.js` are not modelled. The parsed array is the method's argument, and each record is assumed to be an object.
- UpdateSectors.Update: each company is assumed to be an object. A `null` company makes update-sectors.js throw at `company.sectors` (migration/update-sectors.js:45); the model cannot express it.
- Batch.SearchSirene: the `nombre=10` page size of the registry URL (migration/match-siren.js:120) is not modelled. The model's registry may return any number of candidates, where the real one returns at most 10.
- Deals.CheckFields: the ten checks are written out one after the other, as the source writes them, not as a loop over a table.
- `migrate.js`'s `migrate()` and the other scripts of `migration/` (`update-investors.js`, `recategorize-companies.js`, `update-sectors-db.js`, `insert-jan16-2026.js`) are not part of this model.
- `validateDeal` never checks `website` (migration/insert-deals.js:158-208), so the model does not either.
- When the search with the city finds nothing, the broader search's results are the whole candidate pool: they are pushed onto an empty list, which is the same as replacing it (migration/match-siren.js:439-452).
- Among equal best scores the first candidate wins, because the scan uses a strict `>` (migration/match-siren.js:280).
