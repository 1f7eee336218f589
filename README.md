# VC-Aggregate directory: a verified model of the search, filter, bookmark and submit logic

VC-Aggregate is a single-page React directory of venture-capital firms. A
visitor types into a search box, clicks region, stage and sector chips, and
bookmarks firms onto a shortlist. A "Submit a VC" form turns its comma-separated
tag fields into lists. This project models the logic behind those features in
Dafny and proves what it does:

- `seqs.dfy` (`Seqs`): `Array.prototype.filter` and `map`, and order-preserving
  selection (`IsSubsequence`).
- `strings.dfy` (`Strings`): `join`, `split` with a one-character separator,
  `includes`, `trim` (exactly the ECMAScript white-space and line-terminator
  code points) and `toLowerCase` (ASCII letters only).
- `directory.dfy` (`Directory`): the firm record, the three-facet chip selection,
  the `filtered` predicate (query, then one test per facet), the
  `Filters.toggle` updater, `toggleBookmark`'s set flip and `bookmarkedList`.
- `catalog.dfy` (`Catalog`): the ten sample firms, what the directory shows on
  first load, and small scenarios about text matching.
- `submission.dfy` (`Submission`): the payload `onSubmit` builds from the form.
- `app.dfy` (`App`): the `App` component's state as a class. Its fields are
  the query, the three chip sets and the bookmarks. Its methods (`SetQuery`,
  `ToggleFacet`, `ToggleBookmark`) update that state in place. They are proved
  against the functions in `Directory`.

Matching is one substring test over the lower-cased, space-joined fields name,
hq, ticket, regions, stages and sectors. It is not a test per word. So the
search tip's own example "AI India Seed" misses a firm tagged India, Seed and
AI (`Catalog.NoTokenization`). A query may still run across two adjacent tags
(`Catalog.MatchSpansTags`). In the sample data, a16z carries the sector tag
"Games", but the sector chips offer "Gaming". The model keeps the tag as written.

## Model

Each row names a member whose contract states the property. The definitions
the contracts are about carry no row of their own: `Strings.Join`,
`Directory.Tags`, `SearchFields`, `SearchText`, `NormalizeQuery`,
`MatchesQuery`, `MatchesFacet`, `MatchesFacets`, `Matches`,
`Submission.NonEmpty` (the `Boolean` of `.filter(Boolean)`),
`App.AppState.CurrentSelection` (which packs the three chip fields into the
`selected` value), `App.AppState.Visible` and `App.AppState.Shortlist`. The rows for `Filtered`,
`FilteredMultiplicity`, `FieldsHit`, `TagHit`, `FacetExcludes`,
`BookmarkedList` and the `AppState` methods state what they mean.

| member | source | states |
|---|---|---|
| Seqs.Filter | vc_aggregate_landing_directory_react.jsx:400 | the result keeps exactly the elements the test accepts (each result element is an accepted input element, every accepted input element is in the result) and is no longer than the input |
| Seqs.Map | vc_aggregate_landing_directory_react.jsx:328 | same length as the input, each element is the function applied to the input element at the same index |
| Seqs.FilterIsSubsequence | vc_aggregate_landing_directory_react.jsx:400 | filtering never reorders: the result is a subsequence of the input |
| Seqs.FilterCount | vc_aggregate_landing_directory_react.jsx:400 | an accepted element occurs as often in the result as in the input, a rejected one not at all |
| Seqs.FilterAppend | vc_aggregate_landing_directory_react.jsx:400 | filtering a concatenation is the concatenation of the filtered parts |
| Seqs.FilterKeepsAll | vc_aggregate_landing_directory_react.jsx:400 | if every element is accepted the result is the input |
| Seqs.FilterKeepsNone | vc_aggregate_landing_directory_react.jsx:400 | if no element is accepted the result is empty |
| Seqs.FilterPrefix | vc_aggregate_landing_directory_react.jsx:400 | when the accepted elements all come before the rejected ones, the result is exactly the accepted prefix |
| Seqs.FilterCongruent | vc_aggregate_landing_directory_react.jsx:400 | two tests that agree on every element give the same result |
| Strings.JoinAppend | vc_aggregate_landing_directory_react.jsx:411 | joining a concatenation of two non-empty lists puts exactly one separator between the two joins |
| Strings.JoinSliceIsInfix | vc_aggregate_landing_directory_react.jsx:402-411 | the join of any run of adjacent fields occurs inside the join of all fields |
| Strings.Split | vc_aggregate_landing_directory_react.jsx:328 | there is one more piece than there are separators (so at least one piece, even for ""), and no piece contains the separator |
| Strings.JoinSplit | vc_aggregate_landing_directory_react.jsx:328 | joining the pieces of a split with the separator gives back the original string |
| Strings.SplitJoin | vc_aggregate_landing_directory_react.jsx:328 | splitting the join of separator-free parts gives back the parts |
| Strings.Includes | vc_aggregate_landing_directory_react.jsx:413 | `includes` is true exactly when the query occurs at some position of the text (the empty query always occurs) |
| Strings.IncludesSlice | vc_aggregate_landing_directory_react.jsx:413 | a slice of the text is found |
| Strings.InfixTransitive | vc_aggregate_landing_directory_react.jsx:413 | a string found inside a part of the text is found in the text |
| Strings.LowerInfix | vc_aggregate_landing_directory_react.jsx:411-413 | lower-casing keeps an occurrence an occurrence |
| Strings.Trim | vc_aggregate_landing_directory_react.jsx:399 | the result is a slice of the input, everything cut off on both sides is white space, and the result neither starts nor ends with white space |
| Strings.TrimUnchanged | vc_aggregate_landing_directory_react.jsx:399 | a string without white space at either end trims to itself |
| Strings.TrimIdempotent | vc_aggregate_landing_directory_react.jsx:399 | trimming twice is trimming once |
| Strings.Lower | vc_aggregate_landing_directory_react.jsx:399 | same length, each character lower-cased on its own |
| Strings.LowerIdempotent | vc_aggregate_landing_directory_react.jsx:399 | lower-casing twice is lower-casing once |
| Strings.LowerAppend | vc_aggregate_landing_directory_react.jsx:411 | lower-casing distributes over concatenation |
| Strings.LowerTrim | vc_aggregate_landing_directory_react.jsx:399 | trimming and lower-casing commute |
| Strings.LeadingSpace | vc_aggregate_landing_directory_react.jsx:399 | the count of leading characters that are white space: they are all white space and the next one, if any, is not |
| Directory.Selection.With | vc_aggregate_landing_directory_react.jsx:213 | `{ ...s, [key]: set }` replaces one facet's set and keeps the other two |
| Directory.SomeTagIn | vc_aggregate_landing_directory_react.jsx:416 | `tags.some(t => chosen.has(t))` is true exactly when some tag is chosen |
| Directory.Filtered | vc_aggregate_landing_directory_react.jsx:398-427 | the shown firms are a subsequence of the catalog, and a firm is shown exactly when it is in the catalog and passes the query test and all three facet tests |
| Directory.FilteredMultiplicity | vc_aggregate_landing_directory_react.jsx:400-426 | a matching firm is listed as many times as the catalog holds it, a non-matching one never |
| Directory.FilteredAppend | vc_aggregate_landing_directory_react.jsx:400-426 | each firm is judged on its own: filtering a concatenated catalog filters each part |
| Directory.FilteredSingle | vc_aggregate_landing_directory_react.jsx:400-426 | a one-firm catalog shows its firm exactly when it matches |
| Directory.BlankQueryIgnoresText | vc_aggregate_landing_directory_react.jsx:399-401 | a query that trims to "" applies only the facet tests, so it shows what the empty query shows |
| Directory.NothingChosenShowsAll | vc_aggregate_landing_directory_react.jsx:415-423 | with a blank query and no chip chosen, the whole catalog is shown in order |
| Directory.FacetExcludes | vc_aggregate_landing_directory_react.jsx:415-425 | when a facet has chips chosen, a firm with none of those tags in that facet is hidden whatever the query |
| Directory.QueryCaseInsensitive | vc_aggregate_landing_directory_react.jsx:399 | queries that agree after ASCII lower-casing show the same firms |
| Directory.FieldsHit | vc_aggregate_landing_directory_react.jsx:402-413 | a query found (ignoring case) in a run of adjacent searched fields passes the text test |
| Directory.TagHit | vc_aggregate_landing_directory_react.jsx:402-413 | a query found (ignoring case) in one region, stage or sector tag passes the text test |
| Directory.TagPosition | vc_aggregate_landing_directory_react.jsx:402-410 | every region, stage and sector tag of a firm is one of its searched fields |
| Directory.Toggle | vc_aggregate_landing_directory_react.jsx:212 | `has ? delete : add` flips the value's membership and changes no other element |
| Directory.ToggleTwice | vc_aggregate_landing_directory_react.jsx:212 | flipping the same value twice restores the set |
| Directory.ToggleFacet | vc_aggregate_landing_directory_react.jsx:209-215 | the chosen facet's set is flipped at the value, the other two facets are unchanged |
| Directory.ToggleFacetTwice | vc_aggregate_landing_directory_react.jsx:209-215 | clicking the same chip twice restores the selection |
| Directory.BookmarkedList | vc_aggregate_landing_directory_react.jsx:437 | the shortlist is a subsequence of the catalog holding exactly the firms whose id is bookmarked, in catalog order |
| Directory.BookmarkedMultiplicity | vc_aggregate_landing_directory_react.jsx:437 | a bookmarked firm is listed as many times as the catalog holds it, a firm whose id is not bookmarked never |
| Directory.UnknownBookmarksIgnored | vc_aggregate_landing_directory_react.jsx:437 | bookmarked ids naming no catalog firm do not affect the shortlist |
| Directory.ToggleBookmarkFlipsShortlist | vc_aggregate_landing_directory_react.jsx:429-437 | toggling a catalog firm's id puts it on the shortlist exactly when it was not on it |
| Directory.ToggleUnknownBookmark | vc_aggregate_landing_directory_react.jsx:429-437 | toggling an id that names no catalog firm leaves the shortlist unchanged |
| Catalog.IndianPrefixShown | vc_aggregate_landing_directory_react.jsx:379-383 | with a blank query and region "India" chosen, a catalog whose firms tagged "India" (in any region position) come first shows exactly those, in order |
| Catalog.InitialView | vc_aggregate_landing_directory_react.jsx:19-120 | on first load the sample directory shows its first eight firms (the Indian ones) and hides a16z and Tiger Global |
| Catalog.RegionScenario | vc_aggregate_landing_directory_react.jsx:415-417 | of a firm tagged India/Seed and one tagged USA/Growth, region "India" shows only the first |
| Catalog.FintechScenario | vc_aggregate_landing_directory_react.jsx:399-413 | the query "fintech" finds any firm with the sector tag "Fintech" |
| Catalog.NoTokenization | vc_aggregate_landing_directory_react.jsx:200 | the tip's query "AI India Seed" misses a firm tagged India, Seed and AI, because the tags are searched in the order regions, stages, sectors |
| Catalog.MatchSpansTags | vc_aggregate_landing_directory_react.jsx:402-413 | "India Seed" finds that firm: a match may run across two adjacent tags |
| Catalog.SearchHitShown | vc_aggregate_landing_directory_react.jsx:399-413 | a firm whose search text contains the normalized query is shown when no chip is chosen |
| Catalog.SearchMissHidden | vc_aggregate_landing_directory_react.jsx:399-413 | a firm whose search text lacks a non-blank normalized query is hidden |
| Submission.ParseTags | vc_aggregate_landing_directory_react.jsx:328 | every parsed tag is non-empty, has no comma and has no white space at either end |
| Submission.ParseTagsMembers | vc_aggregate_landing_directory_react.jsx:328 | a tag is produced exactly when it is non-empty and some comma-separated piece trims to it |
| Submission.ParseTagsOrder | vc_aggregate_landing_directory_react.jsx:328 | the tags come out in the order of the pieces they were trimmed from |
| Submission.ParseTagsCount | vc_aggregate_landing_directory_react.jsx:328 | a non-empty trimmed piece yields one tag per occurrence, so repeated tags are all kept; the empty string is never a tag |
| Submission.ParseTagsExample | vc_aggregate_landing_directory_react.jsx:328 | " AI, , SaaS " parses to ["AI", "SaaS"] |
| Submission.ParseJoinedTags | vc_aggregate_landing_directory_react.jsx:328-330 | parsing the comma-join of clean tags gives the tags back (round trip) |
| Submission.TrimmedClean | vc_aggregate_landing_directory_react.jsx:328 | trimming leaves clean tags as they are |
| Submission.Submit | vc_aggregate_landing_directory_react.jsx:326-331 | the name, website, hq and ticket fields are copied as typed; each tag list is the parse of its field (split at commas, trimmed, blanks dropped), so every tag is clean |
| App.LoadBookmarks | vc_aggregate_landing_directory_react.jsx:384-391 | nothing usable stored gives no bookmarks; a stored list gives exactly its ids |
| App.AppState.constructor | vc_aggregate_landing_directory_react.jsx:378-391 | blank query, region "India" chosen, no stage or sector, restored bookmarks; the directory then shows the eight Indian sample firms |
| App.AppState.SetQuery | vc_aggregate_landing_directory_react.jsx:196 | the query is replaced; selection and bookmarks stay |
| App.AppState.ToggleFacet | vc_aggregate_landing_directory_react.jsx:209-215 | the new selection is `Directory.ToggleFacet` of the old one; query, bookmarks and shortlist are unchanged |
| App.AppState.ToggleBookmark | vc_aggregate_landing_directory_react.jsx:429-435 | the bookmarks are flipped at the id; the directory is unchanged; a catalog firm with that id joins or leaves the shortlist; an unknown id leaves the shortlist unchanged |
| App.AppState.ToggleFacetTwice | vc_aggregate_landing_directory_react.jsx:226 | two clicks on the same chip restore the state and the directory |
| App.AppState.ToggleBookmarkTwice | vc_aggregate_landing_directory_react.jsx:471 | two clicks on the same bookmark button restore the bookmarks and the shortlist |

## Left out

- Rendering (the hero, cards, chip groups, modal markup and CSS classes) and the `cn` helper: presentation only.
- Writing bookmarks to `localStorage` (`useEffect`, `JSON.stringify`): storage is outside the model. Reading them back is a parameter of the constructor: `None` stands for a missing entry, an empty entry or a parse failure.
- App.LoadBookmarks: stored JSON that parses to something other than a list of strings (`new Set` of a string or an object) is not modelled. Only a list of ids or nothing is.
- The JavaScript `Set`'s insertion order: sets are modelled as mathematical sets. Nothing shown depends on that order, because both lists follow catalog order.
- Strings: a JavaScript string is a sequence of UTF-16 code units, but the model's `string` is a sequence of Unicode scalar values. `trim`, `split` and `includes` agree on text in the Basic Multilingual Plane, which covers the whole catalog ("–", "₹"). A query with a character outside that plane, or with a lone surrogate, is not modelled.
- Strings.Lower: only ASCII letters are lower-cased. Unicode case mapping, including mappings that change the length, is not modelled.
- React's state scheduling (`useState` updaters, `useMemo`): each handler is modelled as one atomic update of the state.
- `onSubmit`'s side effects (`preventDefault`, the clipboard write, `alert`, `onClose`), the mailto link and the form's `required` attributes, which the browser enforces.
- The chip lists `REGIONS`, `STAGES` and `SECTORS`: they only decide which chips are drawn. The filter accepts any chosen value.
