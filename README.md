# WillhabenWatcher in Dafny

This project models the core of WillhabenWatcher. The app watches the Austrian used-car
marketplace willhaben.at for cheap cars sold by private sellers and notifies subscribed
phones when new ones appear. The model covers five parts:

- **Scraper** (`scraper.dfy`): listing extraction and classification.
  - the URL join at the top of the page fetcher;
  - the price, year and mileage extractors;
  - the Austrian phone-number finder and normaliser;
  - the private/commercial seller classifier;
  - the per-advert field mapping of the embedded JSON page data, with the fuel-code table;
  - the per-entry filters of the markup fallback;
  - the source choice and the 10000 EUR price ceiling of a scrape.
- **Server** (`server.dfy`): the backend's in-memory state as the class `Backend`.
  - the vehicle cache, kept in insertion order, and the set of new ids;
  - the push-token set and the first-scrape flag;
  - admission of a scraped batch, the listing queries and mark-seen;
  - token registration, deletion and pruning;
  - the push-message builder and the day/night polling delay.
- **MockVehicles** (`mock_vehicles.dfy`): the sample vehicle list and its sort, find and "similar" helpers.
- **PhoneInput** (`phone_input.dfy`): the phone dialog's whitespace cleaning, validation and save sequence, as the class `PhoneModal`.
- **SearchFilter** (`search_filter.dfy`): the filter bar's "any filter active" test, its single-field update and its chip option lists.

Shared helpers live in three modules:

- `Wrappers` has `Option`, `Result`, a `JsNumber` that is either NaN or an integer, and a `JsFloat` that is NaN, a finite value or a signed infinity.
- `Text` covers JavaScript white space, digits, ASCII case mapping, trimming, `parseInt`'s prefix rule, `parseFloat`'s prefix rule with exact decimal values, and decimal numerals.
- `Lists` has `find`, `filter`, `slice`, a stable descending sort, the "latest n" selection of sort-then-slice, and duplicate-free lists.

The source's loops are loops here: `isPrivateAd`, `extractPhoneNumber`, both page parsers,
the admission loop, message building, token pruning and mark-seen. Each is proved equal to
a function, and the properties are lemmas about that function.

Inputs the model takes as parameters:

- the clock, as an integer `now`;
- `Math.random()`, as an integer `rand` in [0, 2^53);
- the push service's reply, as a `PushResponse`;
- the phone-storage outcome, as `storageOk`;
- the phone regexes, as "first match or none" functions;
- the `__NEXT_DATA__` parse, as an optional list of adverts.

## Model

| member | source | states |
|---|---|---|
| Text.ParseInt | server/scraper.js:216-219 | `parseInt(s, 10)` is NaN exactly when no digit follows the optional leading white space and sign; the value of a number is stated by `Text.ParseIntOfNumeral` |
| Text.ParseIntOfNumeral | server/scraper.js:218-219 | leading white space, an optional sign, a decimal numeral and then a non-digit parse to the numeral's value, negated after `-` |
| Text.ParseFloat | server/scraper.js:215-216 | `parseFloat` is NaN only where `parseInt` is NaN, and is a finite number wherever `parseInt` reads one |
| Text.ParseFloatSigned | server/scraper.js:215-216 | leading white space is skipped and a `-` sign negates what follows |
| Text.ParseFloatOfDecimal | server/scraper.js:215-216 | white space, a sign and `whole.fraction` not followed by a digit or exponent read as the exact decimal value, negated after `-` |
| Text.ParseFloatOfNumeral | server/scraper.js:215-219 | on a whole numeral with a sign and nothing numeric after it, `parseFloat` and `parseInt` read the same number |
| Text.ParseFloatOfInfinity | server/scraper.js:215-216 | "Infinity" after white space and a sign reads as the infinity of that sign, whatever follows |
| Text.ParseFloatOfExponent | server/scraper.js:215-219 | "NeK" reads as N·10^K for `parseFloat` and as N for `parseInt` |
| Text.ParseFloatOfBareDecimal | server/scraper.js:215-216 | an unsigned `whole.fraction` of digits, not both empty, reads as its exact decimal value |
| Text.ParseFloatOfTenths | server/scraper.js:215-216 | "w.f" with one fraction digit reads as w + f/10 |
| Text.ParseIntOfTenths | server/scraper.js:218-219 | `parseInt` of "w.f" stops at the dot and reads w |
| Text.ParseFloatOfTenthsOnly | server/scraper.js:215-216 | ".f" reads as f/10 |
| Text.ParseIntOfTenthsOnly | server/scraper.js:218-219 | `parseInt` of ".f" is NaN |
| Text.ParseFloatFractionExample | server/scraper.js:215-219 | "10000.5" reads as 10000.5 for `parseFloat` but as 10000 for `parseInt` |
| Text.ParseFloatFractionOnlyExample | server/scraper.js:215-219 | ".5" reads as 0.5 for `parseFloat` but NaN for `parseInt` |
| Text.ParseFloatExponentExample | server/scraper.js:215-219 | "1e5" reads as 100000 for `parseFloat` but 1 for `parseInt` |
| Text.ParseFloatZeroExample | server/scraper.js:215-216 | "0" reads as zero |
| Text.ParseFloatNaNExample | server/scraper.js:215-216 | "abc" reads as NaN |
| Text.DecimalOfNatToString | server/scraper.js:52-56 | the decimal value of a number's numeral is that number (the round trip behind the extractors) |
| Text.Trim | server/scraper.js:108 | `trim()` leaves no white space at either end and leaves text without white space unchanged |
| Text.TrimMiddle | server/scraper.js:108 | `trim()` gives a contiguous middle slice of the text, and everything cut off on either side is white space |
| Lists.Find | data/mockVehicles.ts:197-199 | `find` gives none exactly when no element passes, and otherwise the first element that passes |
| Lists.FilterMembers | data/mockVehicles.ts:202 | `filter` keeps exactly the passing elements, and only elements of the list |
| Lists.FilterConcat | data/mockVehicles.ts:202 | filtering distributes over concatenation, so order is preserved |
| Lists.FilterMultiset | data/mockVehicles.ts:202 | `filter` keeps each element at most as often as the list holds it |
| Lists.Take | data/mockVehicles.ts:202 | `slice(0, n)` is the prefix of length min(n, length) |
| Lists.InsertDescSorted | server/index.js:129 | inserting into a list ordered by key, later first, keeps it ordered |
| Lists.SortDesc | server/index.js:129 | the sort gives a permutation ordered by key, later first |
| Lists.SortDescStable | server/index.js:129 | the sort is stable: elements with equal keys keep their relative order |
| Lists.TakeSortDesc | server/index.js:129-130 | sort-then-`slice(0, n)` keeps min(n, length) elements drawn from the list, all of them when the list is no longer than n; no left-out element is later than a kept one; elements with equal key keep their list order |
| Lists.TakeKeepsKeyOrder | server/index.js:129-130 | for each key, the kept elements with that key are the first ones with it in the list, in list order |
| Lists.FilterNoDup | server/index.js:136 | filtering a duplicate-free list keeps it duplicate-free |
| Lists.NoDupPerm | server/index.js:137 | a permutation of a duplicate-free list, such as its sort, is duplicate-free |
| Lists.NoDupCard | server/index.js:138 | a duplicate-free list is as long as the set of its elements |
| Lists.WithoutMembers | server/index.js:63 | deleting a set of tokens keeps exactly the others, and keeps them duplicate-free |
| Lists.WithoutWithout | server/index.js:57-67 | deleting tokens one after another equals deleting them all at once |
| Scraper.ResolveUrl | server/scraper.js:6-17 | an absolute URL is kept; a relative one is joined to the base; a joined URL that does not start with "http" is the "Invalid URL" error; `Scraper.RedirectAlwaysResolves` states the exact joined URL for an http base |
| Scraper.RedirectAlwaysResolves | server/scraper.js:7-12 | with an http base, every location resolves: "/path" against protocol and host, anything else after "base/" |
| Scraper.ExtractPrice | server/scraper.js:52-56 | none exactly when the text is absent or has no digit, otherwise the value of all its digits in order |
| Scraper.ExtractPriceOfNumeral | server/scraper.js:52-56 | a price written between digit-free text is extracted exactly |
| Scraper.FindYear | server/scraper.js:60 | the leftmost whole-word 19xx/20xx from the start position, or none when there is none |
| Scraper.ExtractYear | server/scraper.js:58-62 | none or a year in 1900..2099, found exactly when the text holds a whole-word 19xx/20xx, and the leftmost one |
| Scraper.ExtractMileage | server/scraper.js:64-71 | none exactly when no digit/dot run is followed by optional white space and "km" (any case); otherwise `parseInt` of the leftmost such run with its dots removed |
| Scraper.ExtractMileageOfNumeral | server/scraper.js:64-71 | "N km" gives N |
| Scraper.NormalizePhone | server/scraper.js:86-90 | no space, `-` or `/` remains; a single leading `0` becomes `+43`; a number starting `00` or `+` is left as is |
| Scraper.NormalizePhoneIdempotent | server/scraper.js:86-90 | normalising a normalised number changes nothing |
| Scraper.FirstMatch | server/scraper.js:76-85 | the patterns are tried in list order: none when none matches, otherwise the match of the first pattern that matches |
| Scraper.PhoneOf | server/scraper.js:73-95 | none for empty text or when no pattern matches; otherwise the first matching pattern's match, normalised |
| Scraper.ExtractPhoneNumber | server/scraper.js:73-95 | the loop with early return finds exactly `PhoneOf` |
| Scraper.GetAttrFirst | server/scraper.js:210-211 | the first value of the first attribute with that name, present exactly when that value is non-empty |
| Scraper.AnyCommercialAt | server/scraper.js:167-186 | the walk over the attributes finds a commercial signal exactly when some attribute is one |
| Scraper.IsPrivateAd | server/scraper.js:161-187 | an ISPRIVATE `.value` of "0" or "1" decides first; otherwise private exactly when no attribute is a company-name, non-PRIVATE seller-type or company-marked contact-name signal |
| Scraper.CompanyContactIsCommercial | server/scraper.js:180-183 | a contact name containing a company marker in any case makes an unflagged advert commercial |
| Scraper.ShortMarkerHitsSurname | server/scraper.js:182 | the unanchored marker "ag" classifies the contact "Maria Wagner" as commercial |
| Scraper.FuelType | server/scraper.js:149-160 | an absent code stays absent; a known code maps through the table; an unknown code passes through raw |
| Scraper.VehicleFromAd | server/scraper.js:213-254 | the record's id is "wh-" + the advert id, its fuel type is the mapped ENGINE/FUEL code, its price is `JsonPrice` of PRICE/AMOUNT, or of PRICE when that is absent, and a private advert gets isPrivate 1 |
| Scraper.KeptAdsFromAds | server/scraper.js:203-207 | every advert kept by the JSON walk is an advert of the page that passes the private classification |
| Scraper.JsonVehicles | server/scraper.js:203-255 | one record per kept advert, in order, each the field mapping of that advert, with isPrivate 1; never more records than adverts |
| Scraper.JsonVehiclesFromPrivateAds | server/scraper.js:203-255 | every JSON record comes from an advert that passes the private classification |
| Scraper.ParseVehiclesFromJSON | server/scraper.js:189-261 | the loop gives no records without page data, otherwise exactly `JsonVehicles` (commercial adverts skipped, parse stopped at an advert without attributes) |
| Scraper.StripTags | server/scraper.js:108 | removing tags never lengthens the text and keeps text without `<` unchanged |
| Scraper.StripTagsOfTag | server/scraper.js:108 | a tag `<…>` with a non-empty, `>`-free inside is removed, and the `<`-free text before it is kept |
| Scraper.StripTagsKeepsText | server/scraper.js:108 | `<`-free text in front of any rest passes through unchanged |
| Scraper.StripLeadingTag | server/scraper.js:108 | a leading tag is removed up to the first `>` |
| Scraper.HtmlRecord | server/scraper.js:106-143 | an entry is dropped exactly when its trimmed title is shorter than 3 or its seller has a company marker; a kept one has isPrivate 1 |
| Scraper.HtmlVehicles | server/scraper.js:96-147 | at most one record per entry, each with a title of length ≥ 3 without edge white space, no company seller, and isPrivate 1 |
| Scraper.ParseVehiclesFromHTML | server/scraper.js:96-147 | the `exec` loop gives exactly `HtmlVehicles` |
| Scraper.JsonPrice | server/scraper.js:215-216 | `parseFloat(…) \|\| null` never yields NaN or zero: both become no price |
| Scraper.NoJsonPrice | server/scraper.js:215-216 | "0", "abc" and a missing attribute give no price |
| Scraper.FractionOnlyPrice | server/scraper.js:215-216 | ".5" is the price 0.5 |
| Scraper.UnderCeiling | server/scraper.js:276 | keeps each vehicle at most as often as the batch holds it, and exactly the vehicles without a price or whose price is a finite value ≤ 10000 or -Infinity; the order is kept, as `Lists.FilterConcat` states for every filter |
| Scraper.CeilingBoundary | server/scraper.js:276 | price 10000 or none is kept; 10000.5, 10001 and Infinity are dropped; -Infinity is kept |
| Scraper.FractionalPriceOverCeiling | server/scraper.js:215-276 | a price text "10000.5" is the price 10000.5 and the vehicle is dropped by the ceiling |
| Scraper.ExponentPriceOverCeiling | server/scraper.js:215-276 | a price text "1e5" is the price 100000, although `parseInt` reads 1, and the vehicle is dropped |
| Scraper.InfinitePriceOverCeiling | server/scraper.js:215-276 | a price text "Infinity" is +Infinity and the vehicle is dropped |
| Scraper.ScrapeWillhaben | server/scraper.js:263-281 | a failed fetch gives []; otherwise the JSON records, or the markup records only when the JSON gives none, under the ceiling; every result is under the ceiling and private |
| Server.AdmitValid | server/index.js:80-93 | admitting one vehicle keeps the cache invariant |
| Server.AdmitAllValid | server/index.js:80-93 | admitting a batch keeps the cache invariant (ids once, each entry under its own id, isNew iff in newVehicleIds) |
| Server.AdmitAllKeepsExisting | server/index.js:81 | entries already cached are never overwritten, so their isNew and firstSeenAt survive |
| Server.AdmitAllKeys | server/index.js:80-93 | afterwards the cached ids are exactly the old ids plus the batch's |
| Server.AdmitAllEntries | server/index.js:80-93 | each newly cached id holds the first batch vehicle with that id, flagged new unless seeding, stamped now |
| Server.AdmitAllFound | server/index.js:84-92 | the seeding scrape finds nothing and leaves newVehicleIds alone; a later one finds exactly the newly cached records in insertion order and adds exactly their ids |
| Server.AdmitAllKnown | server/index.js:81 | a batch whose ids are all cached changes nothing |
| Server.AdmitAllIdempotent | server/index.js:80-93 | scraping the same batch twice admits nothing the second time |
| Server.MarkedSeen | server/index.js:141-147 | mark-seen keeps the key order and the cached ids, and empties newVehicleIds |
| Server.MarkedSeenEffect | server/index.js:141-147 | after mark-seen no record is new, records that were new differ only in isNew, and all others are unchanged |
| Server.NotifyTitleCount | server/index.js:23-26 | the title is "Novo vozilo!" exactly for one vehicle, and otherwise starts with the vehicle count |
| Server.PriceText | server/index.js:31 | the price text is never empty and is "N/A" without a price |
| Server.MessagesFor | server/index.js:21-41 | one message per token in token order, each to that token, titled by the count, carrying the first vehicle's id |
| Server.BuildMessages | server/index.js:21-41 | the loop builds exactly `MessagesFor` |
| Server.PruneEnd | server/index.js:57-67 | where the ticket walk stops: the first dead ticket with no message, or the end |
| Server.DeadBeforeMembers | server/index.js:57-67 | the tokens removed by the first i tickets are exactly the tokens of the dead tickets among them that have a message |
| Server.PrunedExactly | server/index.js:57-67 | with duplicate-free tokens, a token survives pruning exactly when its ticket, matched by index, is not DeviceNotRegistered |
| Server.Backend.constructor | server/index.js:11-15 | the server starts with an empty cache, no new ids, no tokens, no scrape time, and first-scrape set |
| Server.Backend.ValuesExactlyOnce | server/index.js:127 | `vehicleCache.values()` lists every cached record, and each exactly once |
| Server.Backend.ValuesAreEntries | server/index.js:127 | every listed value is the cache entry under its own id |
| Server.Backend.ListVehicles | server/index.js:126-132 | min(n, 100) of the n private cached records, drawn from them as a sub-multiset and each the entry under its id, sorted by firstSeenAt descending; all of them when n ≤ 100; no left-out private record was first seen later than a listed one; records with equal firstSeenAt keep cache order |
| Server.Backend.ListNewVehicles | server/index.js:134-139 | exactly the cached records whose id is in newVehicleIds, each once, so the reply's count equals the number of new ids; sorted by firstSeenAt descending, with equal firstSeenAt in cache order |
| Server.Backend.CountOfNew | server/index.js:138 | a duplicate-free list holding exactly the new ids' records has one record per new id |
| Server.Backend.ScrapeAndStore | server/index.js:75-108 | the cache becomes `AdmitAll` of the batch; the count is the number of new records; they are pushed and dead tokens pruned; the scrape time is set and first-scrape cleared; the first scrape counts 0 and pushes nothing |
| Server.Backend.SendPushNotifications | server/index.js:18-72 | no tokens or no vehicles: nothing is sent; otherwise `MessagesFor` is sent and tokens are pruned by the reply; the cache is unchanged |
| Server.PruneTokens | server/index.js:57-67 | the ticket loop, walking until a dead ticket has no message, deletes exactly `DeadTokens` |
| Server.Backend.PruneDeadTokens | server/index.js:57-67 | the ticket walk deletes exactly `DeadTokens` from the token set |
| Server.Backend.RegisterPushToken | server/index.js:111-118 | a missing or empty token is 400 and changes nothing; otherwise 200 and the token is in the set once |
| Server.Backend.DeletePushToken | server/index.js:120-124 | a given token is removed and nothing else changes |
| Server.Backend.MarkSeen | server/index.js:141-148 | the cache becomes `MarkedSeen` of the old cache and the new-vehicles query is empty |
| Server.IsNightByMinute | server/index.js:190 | night is exactly the minutes of the day from 23:00 up to 05:45 |
| Server.NextScrapeDelay | server/index.js:185-207 | the night delay lies in [40 min, 45 min) and the day delay in [2000, 5000) ms |
| MockVehicles.GetSortedVehicles | data/mockVehicles.ts:191-195 | a permutation of the sample list, ordered by createdAt, later first |
| MockVehicles.GetSortedVehiclesStable | data/mockVehicles.ts:191-195 | vehicles with equal createdAt keep their order from the sample list |
| MockVehicles.FirstById | data/mockVehicles.ts:197-199 | none exactly when no vehicle has the id, otherwise the first vehicle with it |
| MockVehicles.SimilarIn | data/mockVehicles.ts:201-203 | at most 4 vehicles, none with the current id: the order-preserving prefix of the list with that id removed |
| MockVehicles.SimilarForUnknownId | data/mockVehicles.ts:201-203 | for an id not in the list, the similar vehicles are the list's first four |
| PhoneInput.Cleaned | components/PhoneInputModal.tsx:40-43 | the input with all white space removed and nothing else changed |
| PhoneInput.CleanedConcat | components/PhoneInputModal.tsx:40-43 | cleaning works piece by piece and is idempotent |
| PhoneInput.ValidPhoneShape | components/PhoneInputModal.tsx:51 | an accepted number has 9 to 17 characters: `+` or `0`, then digits only |
| PhoneInput.ZeroAfterPrefixRejected | components/PhoneInputModal.tsx:51 | "000…" is never accepted |
| PhoneInput.SaveRejectsEmpty | components/PhoneInputModal.tsx:46-49 | an empty number only raises the alert: nothing is stored, the dialog stays open, `onSaved` is not called |
| PhoneInput.SaveRejectsInvalid | components/PhoneInputModal.tsx:51-57 | a malformed number only raises the format alert |
| PhoneInput.SaveAccepts | components/PhoneInputModal.tsx:59-62 | a valid number is stored, then the dialog closes, then `onSaved` gets it, without white space |
| PhoneInput.SaveFailureUnnoticed | components/PhoneInputModal.tsx:59-65 | as written, a failed storage write still closes the dialog and hands on an unstored number, and the failed write never reaches the `catch`, so the retry alert does not show |
| PhoneInput.SaveIntendedSound | components/PhoneInputModal.tsx:59-65 | as intended, the dialog closes and `onSaved` runs only when the number was stored |
| PhoneInput.SaveFailureReported | components/PhoneInputModal.tsx:63-65 | as intended, a failed write of a valid number shows only the retry alert |
| PhoneInput.PhoneModal.OnVisible | components/PhoneInputModal.tsx:36-38 | opening prefills the field with the stored number, or "" |
| PhoneInput.PhoneModal.HandleSave | components/PhoneInputModal.tsx:45-66 | the handler as written: its stored number and effects are `SaveAsWritten` of the cleaned field |
| PhoneInput.PhoneModal.HandleSaveChecked | components/PhoneInputModal.tsx:45-66 | the corrected handler: its stored number and effects are `SaveIntended` of the cleaned field |
| SearchFilter.HasActiveFilters | components/SearchFilterBar.tsx:50-57 | false exactly when the four bounds are "" and the three chips are "Alle" |
| SearchFilter.HandleFilterChange | components/SearchFilterBar.tsx:59-61 | the chosen field takes the value and every other field keeps its own |
| SearchFilter.ChangeActivates | components/SearchFilterBar.tsx:50-61 | setting a field to a non-default value activates the filters; on otherwise unset filters, they are active exactly when the value is not the default |
| SearchFilter.ChangeToSameValue | components/SearchFilterBar.tsx:59-61 | setting a field to its current value changes nothing |
| SearchFilter.ChipOptionsStartWithDefault | components/SearchFilterBar.tsx:35-37 | every chip list starts with "Alle" and has it nowhere else |

## Left out

Not modelled at all:

- Network I/O: the HTTP(S) request and redirect following of the page fetcher; only its URL join is modelled.
- The Expo push request: the reply is an input, with `SendFailed` standing for a thrown fetch or JSON error.
- `server/fetchPageIPRoyal.ts` is not part of this model.
- Regular expressions for phone numbers and for the markup article, title, seller, price and link groups are abstract.
  - Phone patterns are given as first-match functions.
  - Markup entries are given with their captured groups.
  - The year, mileage, tag-strip, company-marker and phone-validation patterns are written out.
- `JSON.parse` of the `__NEXT_DATA__` script: the adverts come in already parsed.
- Attribute values that are not strings are not represented.
- Synthetic markup ids built from `Date.now` and `Math.random` are given with each entry.
- Locale formatting (`toLocaleString("de-AT")`) is the parameter `formatPrice`.
- The timer loop and its possible overlap with `POST /api/scrape` are not modelled.
  - There is no in-flight guard in the code, so no exclusion property is stated.
  - Interleaving of other requests with the awaited push request is not modelled.
- Express plumbing is not modelled: CORS, `listen`, the health and `GET /` responses, and the JSON response wrappers of the routes.
- The `catch` of `scrapeAndStore` is not modelled: the scrape function and the push sender catch their own errors.
- `PhoneInput.PhoneModal.HandleSave`: `onClose` and `onSaved` are assumed not to throw. A throwing callback would reach the `catch` of components/PhoneInputModal.tsx:63-65 and show the retry alert after the dialog closed; the model does not capture that path.
- React Native rendering, navigation, WebView injection, sound and the notification, radio-mode and phone contexts are not modelled.
  - The phone context enters only as its setter's effect.

Modelled, but simplified:

- The clock, `Math.random` and the push response are parameters.
  - Each call of `ScrapeAndStore` uses one `now` for the whole batch.
- `Text.ParseFloat`: values are exact decimals, not rounded to doubles.
  - Overflow to Infinity beyond about 1.8e308 is not modelled. The ceiling treats such a value as JavaScript's infinity would: dropped when positive, kept when negative.
  - A text such as "10000.00000000000000001" is dropped by the ceiling, while JavaScript rounds it to 10000 and keeps it.
- `Server.NextScrapeDelay`: the jittered delay is floored to whole milliseconds.
  - `Math.random()` is `rand / 2^53`.
- `Text.Upper`, `Text.Lower`: case mapping covers ASCII letters only.
  - String lengths count characters, not UTF-16 code units.
- `Text.ParseInt`: numbers beyond 2^53 are not rounded to doubles.
- `Scraper.FuelType`: codes equal to names inherited from `Object.prototype` are not modelled.
- `MockVehicles.GetSortedVehicles`: the key is the createdAt timestamp's digits read as one number (`CreatedKey`).
  - For the ISO-8601 timestamps of the sample list, this orders like `Date.getTime()`.
  - NaN dates are not covered.
  - The concrete order of the eight sample vehicles is not computed.
- `MockVehicles.GetVehicleById` and `MockVehicles.GetSimilarVehicles` apply `FirstById` and `SimilarIn` to the sample list and carry no contract of their own.

## Findings

| source | as written | input that shows it | evidently intended | confidence | as-written member | corrected member |
|---|---|---|---|---|---|---|
| components/PhoneInputModal.tsx:59-65 (with context/usePhone.tsx:43-54) | the phone setter catches its own storage errors, so a failed storage write never reaches `handleSave`'s `catch`; after a failed write the dialog closes and `onSaved` receives a number that was not stored | a valid number such as "+436641234567" with the device storage write failing | a failed write shows "Ne mogu sačuvati broj. Pokušaj ponovo." and the dialog stays open | high, not executed | PhoneInput.SaveFailureUnnoticed, PhoneInput.PhoneModal.HandleSave | PhoneInput.SaveIntendedSound, PhoneInput.SaveFailureReported, PhoneInput.PhoneModal.HandleSaveChecked |
