# agent-extension: a verified model of the scraping, scoring and selection core

This project models, in Dafny, the decision logic of the jobsforce.ai browser extension:

- **The skill-match scorer** (`calculateScore`). It collects weighted keywords from the selected resume. It deduplicates them through a `Map` keyed by the lower-cased, trimmed keyword. It claims each job skill at most once through a fuzzy search, and computes the match percentage. Every failure gives the zeroed result.
- **The job-record builder** (`scrapeJsonLd`, `getMetaData`). The first JSON-LD `JobPosting` block wins. Each field is then merged with what the page's DOM gives.
- **The description poller** (`extractJobDetailsText`). It makes up to 30 attempts, each reading the noise-stripped text of one element. It then tries seven fallback selectors, and returns `null` when all fail.
- **The company name, logo and location readers.**
- **The URL lookup tables.** These are the per-site selectors, the supported-site lists and the cover-letter selectors.
- **The resume store.** It builds the dropdown entries, chooses the initial entry, and provides the selection actions and getters.

## How the model is organised

There is one module per source file, plus four shared modules:

- `Wrappers` holds `Option`, which stands for `null`/`undefined`.
- `Text` holds the JavaScript string operations the code relies on:
  - `includes`;
  - `trim`, over ECMAScript whitespace;
  - an ASCII `toLowerCase`;
  - the separator split;
  - `/logo/gi` removal;
  - truthiness and `||` on optional strings;
  - template-literal interpolation.
- `Dom` is an abstract DOM. An element is the list of its text nodes, each tagged with the elements between the root and the text. `querySelector` on one state of the page is a map from selector to element.
- `Types` holds the records of `src/data/types.ts`.

Where the source changes state step by step, the model does too:

- **Store:** the resume store is a `class` with the two fields `selectedItem` and `dropdownItems`.
- **Loops:** keyword collection, the dedup `Map`, the claim loop, the poll loops, noise removal and dropdown building are `method`s with loops. Each such method is proved equal to a function. The properties are then proved about that function.
- **Pure code:** the lookup tables, the getters, and `findInitialItem` are functions.

Every input that is I/O becomes a parameter:

- the backend's response;
- the fuzzy search, an uninterpreted function over the lower-cased job skills and a query;
- the JSON-LD blocks, already parsed or marked unparsable;
- the DOM before the description poller runs, where the title is read;
- the DOM at each poll attempt;
- the DOM and its images once the poller has finished, where the fallback selectors, the company name, the logo and the location are read;
- the page URL.

Waiting is counted as the milliseconds passed to `delay`.

Two behaviours of the code worth noting:

- `selectorsBasedOnSite` tests for the exact fragment `"www.linkedin.com"`, so a LinkedIn URL without `www.` does not get the LinkedIn selectors.
- `matchPercentage` is `Infinity` when the job has no skills (`JDcount = 0`) but something matched. `Math.round(n/0*100)` is `Infinity`, and `Infinity || 0` stays `Infinity`.

## Model

| member | source | states |
|---|---|---|
| Score.FilterWords | src/helpers/calculateScore.helper.ts:71-92 | keeps exactly the words longer than two characters that are not among the 16 stop words: every kept word passes and comes from the input, every passing input word is kept |
| Score.DescriptionWordsShape | src/helpers/calculateScore.helper.ts:67-92 | every keyword taken from a project description is lower-case, a non-empty run of non-separator characters, longer than two characters and not a stop word |
| Score.SkillKeywords | src/helpers/calculateScore.helper.ts:47-54 | one keyword per resume skill, in order, with that skill's own years |
| Score.TechKeywords | src/helpers/calculateScore.helper.ts:58-65 | one keyword per technology of a project, in order, each with years 1 |
| Score.WordKeywords | src/helpers/calculateScore.helper.ts:94-99 | one keyword per description word, in order, each with years 0.5 |
| Score.CollectKeywords | src/helpers/calculateScore.helper.ts:41-102 | the pushing loop yields exactly the skills' keywords followed by every project's technologies and then its description words, project by project |
| Score.ProjectKeywordWeights | src/helpers/calculateScore.helper.ts:56-101 | a project keyword has weight 1 and is a technology of some project, or has weight 0.5 and is a lower-case non-stop word longer than two characters |
| Score.SkillsFirst | src/helpers/calculateScore.helper.ts:47-54 | the collected list starts with the skills' keywords, each with its own years |
| Score.KeyIndex | src/helpers/calculateScore.helper.ts:114-116 | the `has`/`get` lookup: a found position holds the key, and no position holds it when none is found |
| Score.UpsertShape | src/helpers/calculateScore.helper.ts:114-122 | one `set` round keeps every earlier key in its place, either appends the entry for a new key or replaces only an entry with strictly fewer years, and always leaves the key present |
| Score.MergeDistinct | src/helpers/calculateScore.helper.ts:105-123 | the fold over all keywords never stores two entries with the same key |
| Score.MergeFrom | src/helpers/calculateScore.helper.ts:110-123 | every stored entry is one of the inserted entries |
| Score.MergeCovers | src/helpers/calculateScore.helper.ts:110-123 | every inserted key is present after the fold |
| Score.MergeMax | src/helpers/calculateScore.helper.ts:112-122 | a stored entry has at least the years of every inserted entry with its key |
| Score.TieNotReplaced | src/helpers/calculateScore.helper.ts:114-117 | a keyword that only ties the years already stored for its key leaves the map unchanged (the comparison is strict) |
| Score.MergeFirstOnTie | src/helpers/calculateScore.helper.ts:114-122 | on a tie in years, the stored entry was inserted no later than any tying entry |
| Score.DedupDistinct | src/helpers/calculateScore.helper.ts:104-125 | the final keywords have pairwise distinct lower-cased, trimmed keys |
| Score.DedupFrom | src/helpers/calculateScore.helper.ts:110-125 | each final keyword is an input keyword, filed under its own lower-cased, trimmed key |
| Score.DedupCovers | src/helpers/calculateScore.helper.ts:110-125 | the key of every input keyword is a final key |
| Score.DedupMax | src/helpers/calculateScore.helper.ts:112-125 | each final keyword carries the maximum years among the input keywords with its key |
| Score.DedupFirstOnTie | src/helpers/calculateScore.helper.ts:114-122 | when another input keyword ties the final years for a key, the final keyword is that one or an earlier one |
| Score.MapUpsert | src/helpers/calculateScore.helper.ts:114-122 | one `has`/`get`/`set` round on the `Map`, with its insertion order, performs the same update as the entry-list step |
| Score.MapValues | src/helpers/calculateScore.helper.ts:125 | `Array.from(map.values())`: the values in key insertion order |
| Score.DedupKeywords | src/helpers/calculateScore.helper.ts:104-125 | the `Map` loop yields exactly the values of the entry-list fold, in first-insertion order of their keys |
| Score.LowerAll | src/helpers/calculateScore.helper.ts:126 | the job skills lower-cased one by one, same length and order |
| Score.IndexOf | src/helpers/calculateScore.helper.ts:150 | `indexOf`: the first position holding the item, and absence exactly when the item is not in the list |
| Score.OriginalSkill | src/helpers/calculateScore.helper.ts:149-150 | the reported skill is the first original job skill whose lower-case is the matched item; it is missing exactly when no job skill lower-cases to it |
| Score.SkillScore | src/helpers/calculateScore.helper.ts:151 | a match scores the keyword's years, or 1 when the years are 0 |
| Score.ClaimStep | src/helpers/calculateScore.helper.ts:140-165 | one iteration keeps the loop invariant: one claimed item per match, no item claimed twice, each match carrying its item's original skill, the search's verdict, the score of one of its keywords, and a running total equal to the sum of scores |
| Score.MatchAllHolds | src/helpers/calculateScore.helper.ts:135-165 | soundness: after all keywords the invariant above holds, so every job skill item is claimed at most once and only by an accepted hit of some keyword |
| Score.AcceptedHitClaimed | src/helpers/calculateScore.helper.ts:141-147 | completeness: the item of every keyword's accepted hit (score at most 0.2) is claimed at the end, by that keyword or an earlier one |
| Score.NotYetClaimed | src/helpers/calculateScore.helper.ts:143-147 | an item that no keyword's accepted hit names is never claimed |
| Score.FirstAcceptedWins | src/helpers/calculateScore.helper.ts:143-160 | the first keyword, in processing order, with an accepted hit on an item is the one whose match for that item is recorded, with its keyword and its score |
| Score.ClaimedHitDropped | src/helpers/calculateScore.helper.ts:143-147 | a keyword whose best hit is already claimed changes nothing; it is not retried against another candidate |
| Score.MatchBound | src/helpers/calculateScore.helper.ts:138-165 | with a search that only returns job skill items, there are no more matches than distinct lower-cased job skills |
| Score.MatchKeywords | src/helpers/calculateScore.helper.ts:135-165 | the matching loop with its set and counters produces the fold's matches and total score, and its counter equals the number of matches |
| Score.MatchPercentage | src/helpers/calculateScore.helper.ts:168-169 | 0 when nothing matched; an integer at least 0 when the job has skills; `Infinity` when it has none but something matched |
| Score.RoundsHalfUp | src/helpers/calculateScore.helper.ts:168-169 | the percentage p is the integer nearest 100·n/JDcount with halves rounded up: (2p-1)·JDcount <= 200n < (2p+1)·JDcount |
| Score.PercentageExamples | src/helpers/calculateScore.helper.ts:168-169 | 2 of 5 gives 40, 1 of 8 (12.5) gives 13, 0 of 0 gives 0, 3 of 0 gives `Infinity` |
| Score.CalculateScore | src/helpers/calculateScore.helper.ts:8-191 | no profile or resume, a non-ok or non-JSON response, `success` false, missing `data` or missing `skills` each give the zeroed result; otherwise the result holds the fold's matches, their count, the percentage, `JDcount`, the skills, the lower-cased skills and the number of resume skills; the count never exceeds the distinct job skills for a search that returns only job skill items |
| MetaData.FirstPosting | src/helpers/sendMetaData/metaData.helper.ts:11-15 | the index of the first block in document order that parsed and has `"@type"` exactly `"JobPosting"`; none exactly when no block does |
| MetaData.LdLocation | src/helpers/sendMetaData/metaData.helper.ts:17 | `addressLocality` when truthy, else the address `name` when truthy, else `""` |
| MetaData.FromPosting | src/helpers/sendMetaData/metaData.helper.ts:16-27 | title, description, company name and logo copied; `companyUrl` is `sameAs` when truthy, else `url`; a location is always present |
| MetaData.ScrapeJsonLd | src/helpers/sendMetaData/metaData.helper.ts:9-34 | the fields of the first `JobPosting` block, and the empty record exactly when no block is one |
| MetaData.LaterBlocksIgnored | src/helpers/sendMetaData/metaData.helper.ts:11-28 | blocks after the first posting do not change the result |
| MetaData.SkippedBlock | src/helpers/sendMetaData/metaData.helper.ts:12-32 | an unparsable or non-posting block is skipped and the scan goes on |
| MetaData.DomTitle | src/helpers/job/title.helper.ts:1-4 | the title element's untrimmed text, present exactly when the element is |
| MetaData.GetMetaData | src/helpers/sendMetaData/metaData.helper.ts:36-63 | the title is the JSON-LD title, else the DOM title, else `""`; the link is the page URL; the poller runs (and time passes) exactly when the JSON-LD description is falsy, and its `null` becomes `""`; the company name and logo are each the truthy JSON-LD value, else what `getCompanyNameAndLogo` gives on the page with the site's image selector as the logo selector (so also the name inferred from the logo's alt, and the DOM logo); `companyUrl` comes only from JSON-LD; location is the JSON-LD location, else the DOM location |
| MetaData.NothingToMerge | src/helpers/sendMetaData/metaData.helper.ts:47-59 | with no `JobPosting` block, no company elements and no images, the merged name and logo are both `null` |
| JobDetails.FirstLong | src/helpers/score/jobDetails.helper.ts:15-38 | the index of the first read that found an element with more than 50 characters; none exactly when no read did |
| JobDetails.JobDetailsText | src/helpers/score/jobDetails.helper.ts:10-65 | any returned description is longer than 50 characters and already lower-case |
| JobDetails.ExtractJobDetailsText | src/helpers/score/jobDetails.helper.ts:10-65 | the two loops return the description chosen by the first-accepted primary attempt, else the first-accepted fallback selector, else `null`; success on attempt k has waited 500 + 700·k ms, and the fallback is reached only after 500 + 700·30 ms |
| JobDetails.FirstLongAt | src/helpers/score/jobDetails.helper.ts:15-37 | attempt k decides exactly when it is accepted and all earlier attempts found no element or too short a text |
| JobDetails.NullIff | src/helpers/score/jobDetails.helper.ts:53-64 | `null` exactly when no primary attempt and no fallback selector was accepted |
| JobDetails.ThirdAttempt | src/helpers/score/jobDetails.helper.ts:15-37 | text that first qualifies on the third attempt is returned lower-cased from that attempt |
| JobDetails.NeverResolves | src/helpers/score/jobDetails.helper.ts:15-64 | a selector that never matches, on a page where no fallback selector matches, gives `null` |
| Dom.CloneWithoutNoise | src/helpers/score/jobDetails.helper.ts:19-24 | cloning and removing every `button, svg, li-icon, script, style` descendant gives the element with exactly its noise-free text nodes; the original is left as it was |
| Dom.StripNoiseLeavesNoNoise | src/helpers/score/jobDetails.helper.ts:22-24 | after stripping, no text from inside a noise element is left, and all text outside one is |
| Dom.StripNoiseIdempotent | src/helpers/score/jobDetails.helper.ts:22-24 | stripping a stripped clone changes nothing |
| CompanyNameAndLogo.NameFromSelector | src/helpers/company/nameAndLogo.helper.ts:8-12 | the trimmed text of the name element; `null` exactly when there is no selector, no element, or only whitespace |
| CompanyNameAndLogo.FindImageByAlt | src/helpers/company/nameAndLogo.helper.ts:18-23 | the first image in document order whose non-empty alt contains the name, case-sensitively |
| CompanyNameAndLogo.LogoSource | src/helpers/company/nameAndLogo.helper.ts:32-34 | the element's `src`, or `null` exactly when it is empty |
| CompanyNameAndLogo.NameFromAlt | src/helpers/company/nameAndLogo.helper.ts:38-40 | the alt text with every case-insensitive "logo" removed and trimmed; `null` exactly when nothing is left |
| CompanyNameAndLogo.LogoElement | src/helpers/company/nameAndLogo.helper.ts:18-30 | the image found by strategy 1 when there is a name and an image whose alt contains it; otherwise the logo selector's element, or none without a truthy selector |
| CompanyNameAndLogo.NameAndLogo | src/helpers/company/nameAndLogo.helper.ts:1-43 | a name from its own selector is returned unchanged and drives strategy 1; the logo selector is used only when strategy 1 found nothing; without a name of its own, the name comes from the chosen element's alt; any name is non-empty and trimmed, any logo a non-empty `src` |
| CompanyNameAndLogo.GetCompanyNameAndLogo | src/helpers/company/nameAndLogo.helper.ts:1-43 | the step-by-step assignments return exactly the pair described by `NameAndLogo` |
| Location.GetJobLocation | src/helpers/company/location.helper.ts:1-10 | `null` for a missing element or whitespace-only text, else the trimmed text, which is non-empty with no whitespace at either end |
| Location.LocationIsTrimmed | src/helpers/company/location.helper.ts:5-6 | a returned location is unchanged by trimming it again |
| SiteSelectors.SelectorsBasedOnSite | src/utils/selectorsBasedOnSite.ts:3-67 | total: every URL gets title, description, image and location selectors |
| SiteSelectors.SelectorsAreFirstIncluded | src/utils/selectorsBasedOnSite.ts:4-66 | the `if` chain is the lookup of the first of the six fragments in order that the URL contains, with the generic set when there is none |
| SiteSelectors.FirstFragmentWins | src/utils/selectorsBasedOnSite.ts:4-57 | a URL containing fragment k and none before it gets entry k, whatever later fragments it contains |
| SiteSelectors.UnknownSiteGetsDefault | src/utils/selectorsBasedOnSite.ts:59-66 | a URL containing none of the six fragments gets the generic set |
| SiteSelectors.SourceTypeAndCompanyName | src/utils/selectorsBasedOnSite.ts:3-67 | `sourceType` is set exactly for the generic set, and only to `"unknown"`; a company-name selector exists exactly for `www.linkedin.com` URLs |
| SiteSelectors.MatchesInsideQuery | src/utils/selectorsBasedOnSite.ts:4 | containment is tested on the whole URL: a query string naming the LinkedIn host selects the LinkedIn entry |
| CoverLetter.CoverLetterIsFirstMatch | src/utils/siteSelectorForCoverLetter.ts:1-18 | the selector of the first of the five fragments in order that the URL contains; `null` exactly when it contains none |
| CoverLetter.CoverLetterPrecedence | src/utils/siteSelectorForCoverLetter.ts:2-12 | a Workable URL gets the Workable selector whatever else it names; a LinkedIn jobs URL that names no Workable host gets the LinkedIn selector; the Greenhouse selector implies greenhouse.io and no indeed.com |
| SupportedSites.AutofillIff | src/utils/supportedSites.ts:2-19 | autofill is supported exactly when some list entry is a substring of the URL |
| SupportedSites.AutoapplyIff | src/utils/supportedSites.ts:22 | auto-apply is supported exactly when the URL contains `linkedin.com/jobs` |
| SupportedSites.AutoapplyIsAlwaysVisible | src/utils/supportedSites.ts:22-38 | every auto-apply page also shows the floating button |
| SupportedSites.SupportExtended | src/utils/supportedSites.ts:28-38 | support of each kind survives adding text before and after the URL |
| SupportedSites.ShortUrlUnsupported | src/utils/supportedSites.ts:2-19 | a URL shorter than 15 characters that lacks a character of each of `workable.com`, `ashbyhq.com` and `lever.co` is not autofill-supported |
| SupportedSites.EmptyUrlRejected | src/utils/supportedSites.ts:2-38 | the empty URL is rejected by all three lists |
| SupportedSites.LinkedInRootUnsupported | src/utils/supportedSites.ts:3 | the commented-out `linkedin.com/` is not supported |
| SupportedSites.JobsforceUnsupported | src/utils/supportedSites.ts:16 | the commented-out `jobsforce.ai` is not supported |
| ResumeStore.CreateDropdownItems | src/stores/resumeStore.ts:8-33 | the `forEach` with `push` yields, per resume in order, its regular entry followed by its universal entry when it has one |
| ResumeStore.DropdownLength | src/stores/resumeStore.ts:8-33 | the number of entries is the number of resumes plus the number with a universal resume |
| ResumeStore.DropdownWellFormed | src/stores/resumeStore.ts:11-29 | every universal entry directly follows its parent's regular entry and has the parent as `resume`; a regular entry is followed by a universal one exactly when its resume has a universal resume |
| ResumeStore.RegularsInOrder | src/stores/resumeStore.ts:11-19 | the regular entries are exactly one per resume, in input order, with `id` and `name` from the resume |
| ResumeStore.UniversalEntryResume | src/stores/resumeStore.ts:21-28 | a universal entry has the universal id and name plus " (Universal)", and its corrected resume is the parent with the universal URL, name and id |
| ResumeStore.FirstPrimaryRegular | src/stores/resumeStore.ts:39-41 | the first regular entry whose resume is primary; none exactly when there is no such entry |
| ResumeStore.FirstRegular | src/stores/resumeStore.ts:45 | the first regular entry; none exactly when there is no such entry |
| ResumeStore.FindInitialItem | src/stores/resumeStore.ts:35-50 | the first primary regular entry, else the first regular entry, else the first entry; `undefined` exactly for an empty list |
| ResumeStore.InitialOfBuilt | src/stores/resumeStore.ts:11-19 | for entries built from a non-empty list, the initial entry is regular, and primary whenever some resume is |
| ResumeStore.InitialWithoutPrimary | src/stores/resumeStore.ts:38-46 | when no resume is primary, the initial entry is the first resume's regular entry |
| ResumeStore.CorrectUrlResume | src/stores/resumeStore.ts:99-114 | a regular entry, or a universal one without a universal resume, gives its resume unchanged; a universal entry gives the parent with `s3Url`, `originalName` and `_id` of the universal resume and every other field unchanged |
| ResumeStore.ResumeStore.constructor | src/stores/resumeStore.ts:64-65 | the store starts with no selection and no entries |
| ResumeStore.ResumeStore.InitializeResumes | src/stores/resumeStore.ts:67-84 | always replaces the entries; sets the initial entry only when nothing was selected; keeps an existing selection even if it is not among the new entries |
| ResumeStore.ResumeStore.SetSelectedItem | src/stores/resumeStore.ts:86 | sets the selection and leaves the entries alone |
| ResumeStore.ResumeStore.GetSelectedResume | src/stores/resumeStore.ts:88-91 | `null` exactly with no selection, else the selected entry's (parent) resume |
| ResumeStore.ResumeStore.GetSelectedResumeWithCorrectUrl | src/stores/resumeStore.ts:93-115 | `null` exactly with no selection, else the corrected resume of the entry, whose skills and projects are those of the selected resume |
| ResumeStore.FirstInitialization | src/stores/resumeStore.ts:61-84 | a fresh store initialised with a non-empty list selects a regular entry |
| Text.IncludesIffOccurs | src/utils/supportedSites.ts:29 | `url.includes(site)` holds exactly when `site` occurs at some position of `url` |
| Text.IncludesTransitive | src/utils/supportedSites.ts:22-25 | containment is transitive |
| Text.FirstIncluded | src/utils/selectorsBasedOnSite.ts:4-57 | the first key of an ordered table that the URL contains; none exactly when it contains no key |
| Text.SomeIncluded | src/utils/supportedSites.ts:28-38 | `sites.some((site) => url.includes(site))` holds exactly when some entry is contained |
| Text.TrimSpec | src/helpers/company/location.helper.ts:5 | `trim` returns a contiguous part of the text with only whitespace before and after it and no whitespace at either of its ends, empty exactly when the text is all whitespace |
| Text.TrimUnique | src/helpers/company/location.helper.ts:5 | those properties pin the result: any slice that has them is the trimmed text |
| Text.TrimIdempotent | src/helpers/company/location.helper.ts:5 | trimming twice is trimming once |
| Text.LowerIsLowercase | src/helpers/score/jobDetails.helper.ts:30 | a lower-cased text is unchanged by lower-casing again |
| Text.WordsOfLowercase | src/helpers/calculateScore.helper.ts:68-70 | the non-empty pieces of the split of a lower-case text are lower-case |
| Text.WordEndIsWord | src/helpers/calculateScore.helper.ts:70 | a piece of the split is a non-empty run of non-separator characters |
| Text.RemoveLogoNoMatch | src/helpers/company/nameAndLogo.helper.ts:39 | text without "logo" in any letter case passes through the replacement unchanged |
| Text.Or | src/helpers/sendMetaData/metaData.helper.ts:41-42 | `a or b` gives `a` when it is a non-empty string and `b` otherwise |

## Left out

- Browser, network and library calls are parameters, not code:
  - `fetch` and `response.json()`;
  - `document.querySelector(All)`, `cloneNode`, `remove()`, `img.alt`/`src`;
  - `JSON.parse`;
  - the Fuse.js index and its scoring;
  - `delay` and the clock;
  - `window.location.href`.
- `console` output is left out: it has no effect on results.
- `innerText` is modelled as `textContent`. Layout, hidden elements and CSS line breaks are not modelled.
- `toLowerCase` is modelled on ASCII letters only, and no Unicode case mapping is modelled.
- `trim` and `\s` use the ECMAScript whitespace set. The split drops its empty fields, which the length filter would drop anyway.
- Numbers are exact:
  - years are `real`, and the percentage is exact rational rounding;
  - IEEE floating-point error in `(n / JDcount) * 100` is not modelled;
  - nor are `NaN` years, a negative `JDcount`, or non-string JSON-LD values.
- `Score.MatchPercentage`: rounds the exact quotient, so it can differ from the source by one. For 23 of 40, JavaScript computes 57.49999999999999 and rounds to 57, while the model gives 58.
- `Score.CalculateScore`: `JDcount` is a `nat` that is always present. A response without `JDcount` is not modelled; in the source, `n / undefined` is `NaN`, and `NaN || 0` gives a percentage of 0.
- Lengths count Unicode scalar values, not UTF-16 code units. Text with characters outside the Basic Multilingual Plane is therefore measured shorter than JavaScript's `length`. This affects the description threshold (`> 50`) and the keyword filter (`> 2`). For example, the word "🚀🚀" has `length` 4, so the source keeps it, but the model measures it as 2 and drops it.
- The JSON-LD blocks and the page URL are read once. In the source, `window.location.href` is read after the poll, and the model does not consider a change to either during the wait.
- An invalid selector that makes `querySelector` throw is not modelled, so a DOM lookup never throws.
- `Score.CalculateScore`: it does not model the error `message`, which is only logged. It also does not model a profile without `userDetails` beyond the single `profileLoaded` flag.
- `Score.MatchBound` holds only for a search that returns items of its own index. Fuse does this, but the search is an uninterpreted parameter.
- `ResumeStore`: zustand `persist` (saving `selectedItem` to storage) and the subscription machinery are not modelled.
- The UI components, the API clients, the profile and auth stores are not part of this model. These are React rendering, axios/fetch, `chrome.storage` and zustand persistence.
- The id, logo and profile helpers are not part of this model either. They are `URL` parsing, a single DOM query, and `Date` arithmetic.
- `src/helpers/job/title.helper.ts` appears only as `MetaData.DomTitle`, an input to `getMetaData`.
