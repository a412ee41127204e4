# JSON transcript search: a Dafny model of its core

This project models the logic of a Lucene-based command-line search tool over JSON
transcripts, with Lucene replaced by abstract oracles.

**Indexing.** Every JSON file whose name ends in `.json`, ignoring letter case, is
indexed. One bookmark tag is looked up per file: an object's own string `bookmark_tag`,
otherwise the first non-empty tag deeper in the tree. Every JSON object then becomes one
document, nested objects first. Each document holds the file name, the file path, the
file's bookmark tag, and none, one or two fields per member, chosen by the type of its value.

**Searching.** The tester reads integer flags, each with bounds. It builds capped
spelling suggestions for the phrase. It runs an exact and a phonetic search. If, after
those two, the hit count is below `minOccur`, it runs one exact search for every
suggestion, however large the count grows meanwhile. Every
search's per-bookmark scores are summed into one insertion-ordered map. That map is
ranked by descending score when the final count exceeds `minOccur`.

Modules:

- `ScoreMaps`: the insertion-ordered map of bookmark scores (`LinkedHashMap<String, Double>`),
  as a sequence of entries with distinct keys, and the `ScoreMap` class that holds one.
- `Ranking`: `merge` (in place, proved equal to a closed form of the result) and
  `sortByValue` (specified by a stable descending insertion sort).
- `Suggestions`: `buildPerTermSuggestions`, with the spelling dictionary and the analyzer
  as oracles.
- `Flags`: `Integer.parseInt` on 32-bit values, `parseInt` with bounds, and the flag chain
  of `main` as a function on the configuration.
- `Tester`: the `StarWarsTester` object, with the flag loop, the search sequence and the
  `SearchOutcome` normalisation, against a functional description of a whole session.
- `Indexing`: `findBookmarkTagFirst`, `ParseContext`, and the `parseJsonElement` /
  `parseJsonObject` walk. The index writer is an append-only list of documents.
- `JsonFileFilter`: `accept` on a path.
- `Text`, `Wrappers`: ASCII lower-casing, prefixes and suffixes, `String.join`, and `Option`.

An object that holds its own string `bookmark_tag` member gets two `bookmark_tag` fields:
first the file's tag, then its own value (`Indexing.OwnTagIsSecondField`). The model keeps
that behaviour as written.

All source paths below are under `src/main/java/org/jsonsearch/lucene/`; the table spells
them out in full.

## Model

| member | source | states |
|---|---|---|
| ScoreMaps.PutEntry | src/main/java/org/jsonsearch/lucene/StarWarsTester.java:295-299 | `put` leaves the key present with the new value; an existing key keeps its position and a new key is appended last; distinct keys stay distinct |
| ScoreMaps.PutEntryKeepsOthers | src/main/java/org/jsonsearch/lucene/StarWarsTester.java:295-299 | `put` on one key changes neither the presence nor the value of any other key |
| ScoreMaps.ScoreMap.constructor | src/main/java/org/jsonsearch/lucene/StarWarsTester.java:129 | `new LinkedHashMap<>()` is empty and has distinct keys |
| ScoreMaps.ScoreMap.ContainsKey | src/main/java/org/jsonsearch/lucene/StarWarsTester.java:295 | `containsKey` is true exactly when some entry has that key |
| ScoreMaps.ScoreMap.GetValue | src/main/java/org/jsonsearch/lucene/StarWarsTester.java:296 | `get` of a present key returns the score of an entry with that key; with distinct keys, the score of every entry with that key |
| ScoreMaps.ScoreMap.Put | src/main/java/org/jsonsearch/lucene/StarWarsTester.java:296-298 | the map's new entries are the old ones with the key put, and the distinct-keys invariant is kept |
| Ranking.MergeInto | src/main/java/org/jsonsearch/lucene/StarWarsTester.java:291-300 | no contract of its own; defined as the left-to-right fold of `put(key, old + value)` or `put(key, value)` over `map2`'s entries; its properties are stated by `MergeIntoIsMerged`, `MergeKeepsDistinct`, `MergeScores`, `MergeKeepsOrder` and `MergeMonotone` |
| Ranking.Merge | src/main/java/org/jsonsearch/lucene/StarWarsTester.java:290-301 | the loop over `map2` leaves `map1` equal to the fold of `put`s over `map2`'s entries, keeping distinct keys |
| Ranking.MergeIntoIsMerged | src/main/java/org/jsonsearch/lucene/StarWarsTester.java:290-301 | the merge result is `map1` with every shared key raised by `map2`'s score, followed by `map2`'s new entries in `map2`'s order |
| Ranking.MergeKeepsDistinct | src/main/java/org/jsonsearch/lucene/StarWarsTester.java:290-301 | merging into a map keeps its keys distinct |
| Ranking.MergeScores | src/main/java/org/jsonsearch/lucene/StarWarsTester.java:295-299 | a key is in the result exactly when it is in either map, and its score is the sum of its scores in the two maps (a missing key scoring 0) |
| Ranking.MergeKeepsOrder | src/main/java/org/jsonsearch/lucene/StarWarsTester.java:295-299 | keys already in `map1` keep their positions; after them come exactly `map2`'s new entries, in `map2`'s order |
| Ranking.MergeMonotone | src/main/java/org/jsonsearch/lucene/StarWarsTester.java:295-299 | with non-negative scores in `map2`, no score of `map1` decreases |
| Ranking.SortDesc | src/main/java/org/jsonsearch/lucene/StarWarsTester.java:307 | no contract of its own; defined as an insertion sort by descending score that puts an entry after the equal-scored ones before it; its properties are stated by `SortDescIsSortedPermutation`, `SortDescIsStable`, `SortDescIdempotent` and `SortDescKeepsDistinct` |
| Ranking.SortDescIsSortedPermutation | src/main/java/org/jsonsearch/lucene/StarWarsTester.java:307 | sorting gives non-increasing scores and a permutation of the entries |
| Ranking.SortDescIsStable | src/main/java/org/jsonsearch/lucene/StarWarsTester.java:307 | entries with equal scores keep their original relative order |
| Ranking.SortDescIdempotent | src/main/java/org/jsonsearch/lucene/StarWarsTester.java:304-314 | an already sorted map comes back unchanged |
| Ranking.SortDescKeepsDistinct | src/main/java/org/jsonsearch/lucene/StarWarsTester.java:304-314 | the sorted entries still have distinct keys, so rebuilding the map drops nothing |
| Ranking.SortByValue | src/main/java/org/jsonsearch/lucene/StarWarsTester.java:304-314 | returns a fresh map whose entries are the input's, stably sorted by descending score |
| Suggestions.OptionsFor | src/main/java/org/jsonsearch/lucene/StarWarsTester.java:378-391 | a term's option list is never empty: `[term]` when the dictionary knows it, otherwise its suggestions when there are any, otherwise `[term]` |
| Suggestions.CollectOptions | src/main/java/org/jsonsearch/lucene/StarWarsTester.java:377-391 | the per-term loop yields one option list per term, in term order |
| Suggestions.Expand | src/main/java/org/jsonsearch/lucene/StarWarsTester.java:396-405 | the two inner loops with their `break`s yield the first `maxCombos` extensions of the prefixes, prefixes outer and options inner |
| Suggestions.CombineCapped | src/main/java/org/jsonsearch/lucene/StarWarsTester.java:393-408 | the combination loop yields exactly the first `maxCombos` entries of the full left-to-right cross product (`[""]` when there are no terms) |
| Suggestions.ExpandAfterCap | src/main/java/org/jsonsearch/lucene/StarWarsTester.java:396-406 | capping the prefixes before extending them does not change the capped result |
| Suggestions.EmptyCombinationStaysEmpty | src/main/java/org/jsonsearch/lucene/StarWarsTester.java:407 | once the capped list is empty, every later one is empty too, so the early `break` changes nothing |
| Suggestions.CrossProduct | src/main/java/org/jsonsearch/lucene/StarWarsTester.java:393-408 | no contract of its own; defined as the uncapped combination, earlier terms outer and later terms inner, starting from `[""]`; its properties are stated by `CombineCapped`, `CrossProductIsChoices` and `CrossProductLength` |
| Suggestions.CrossProductIsChoices | src/main/java/org/jsonsearch/lucene/StarWarsTester.java:393-408 | with non-empty words as options, a string is in the cross product exactly when it joins one option per term, in term order, with single spaces |
| Suggestions.CrossProductLength | src/main/java/org/jsonsearch/lucene/StarWarsTester.java:393-408 | the uncapped cross product has as many entries as the product of the option counts |
| Suggestions.Take | src/main/java/org/jsonsearch/lucene/StarWarsTester.java:445-447 | `subList(0, n)` on a longer list: the result is a prefix of length `min(n, size)` |
| Suggestions.VariantOptions | src/main/java/org/jsonsearch/lucene/StarWarsTester.java:415-438 | no contract of its own; defined as what one whole-phrase variant contributes: nothing when it equals the phrase ignoring case, itself when the dictionary knows it, else its suggestions; `AddVariant` is proved to append exactly these, and `SuggestionsBounds` states what the final list keeps of them |
| Suggestions.AddVariant | src/main/java/org/jsonsearch/lucene/StarWarsTester.java:415-438 | a whole-phrase variant adds nothing when it equals the phrase ignoring case; otherwise it adds itself if the dictionary knows it, else its suggestions |
| Suggestions.Without | src/main/java/org/jsonsearch/lucene/StarWarsTester.java:442 | removing the phrase keeps exactly the other values |
| Suggestions.Distinct | src/main/java/org/jsonsearch/lucene/StarWarsTester.java:441 | no contract of its own; defined as the `LinkedHashSet` built from the list, keeping each value at its first occurrence; its properties are stated by `DistinctMembers`, `DistinctNoDuplicates` and `DistinctOrder` |
| Suggestions.DistinctMembers | src/main/java/org/jsonsearch/lucene/StarWarsTester.java:441 | the `LinkedHashSet` holds exactly the values of the candidate list |
| Suggestions.DistinctNoDuplicates | src/main/java/org/jsonsearch/lucene/StarWarsTester.java:441 | the `LinkedHashSet` holds each value once |
| Suggestions.DistinctOrder | src/main/java/org/jsonsearch/lucene/StarWarsTester.java:441 | the `LinkedHashSet` lists values in the order of their first occurrence |
| Suggestions.SuggestionsFor | src/main/java/org/jsonsearch/lucene/StarWarsTester.java:369-448 | no contract of its own; defined as the capped combinations plus the two variants, de-duplicated, without the phrase and capped again, or empty when there are no terms; its properties are stated by `SuggestionsBounds` and `BuildPerTermSuggestions` |
| Suggestions.SuggestionsBounds | src/main/java/org/jsonsearch/lucene/StarWarsTester.java:369-448 | the final list is empty when the phrase has no terms; otherwise it has no duplicates, never holds the phrase (exact comparison), has at most `maxCombos` entries, and lists candidates in first-occurrence order |
| Suggestions.BuildPerTermSuggestions | src/main/java/org/jsonsearch/lucene/StarWarsTester.java:369-449 | the method returns the suggestion list its specification describes: no duplicates, not the phrase, at most `maxCombos` entries |
| Flags.ParseJavaInt | src/main/java/org/jsonsearch/lucene/StarWarsTester.java:329 | `Integer.parseInt` only ever yields a value within the 32-bit range |
| Flags.ParseIntToString | src/main/java/org/jsonsearch/lucene/StarWarsTester.java:329 | every 32-bit integer written in decimal parses back to itself |
| Flags.ParseDigits | src/main/java/org/jsonsearch/lucene/StarWarsTester.java:329 | a non-empty digit string parses to its decimal value when that fits in 32 bits, and fails otherwise |
| Flags.ParseRejectsNonDigit | src/main/java/org/jsonsearch/lucene/StarWarsTester.java:329 | a non-digit character, other than a leading sign, makes the parse fail |
| Flags.ParseInt | src/main/java/org/jsonsearch/lucene/StarWarsTester.java:327-335 | a value is accepted exactly when it parses and lies within `[min, max]`, and the accepted value is the parsed one |
| Flags.Set | src/main/java/org/jsonsearch/lucene/StarWarsTester.java:62-77 | a flag's setter changes its own setting to the value and no other setting |
| Flags.ApplyInt | src/main/java/org/jsonsearch/lucene/StarWarsTester.java:62-77 | one integer flag either leaves the configuration unchanged or sets its own setting to a value within its bounds, so the bounds invariant is kept |
| Flags.ApplyFlag | src/main/java/org/jsonsearch/lucene/StarWarsTester.java:54-78 | one argument through the flag chain in its order; ensures the bounds invariant is kept; which branch an argument takes and what it changes are stated by `PrefixSelects`, `FlagSetsValue`, `FlagOutOfBoundsIgnored`, `RebuildFlag`, `UnknownFlagIgnored` and `FlagLeavesOthers` |
| Flags.ApplyFlags | src/main/java/org/jsonsearch/lucene/StarWarsTester.java:53-79 | the flag loop keeps every setting within the bounds its flag enforces |
| Flags.InBoundsIsFlagBounds | src/main/java/org/jsonsearch/lucene/StarWarsTester.java:62-77 | the bounds invariant is exactly "every setting within its flag's `[min, max]`" |
| Flags.PrefixSelects | src/main/java/org/jsonsearch/lucene/StarWarsTester.java:54-77 | an argument with an integer flag's prefix is handled by that flag's branch: no earlier branch of the chain matches it |
| Flags.FlagSetsValue | src/main/java/org/jsonsearch/lucene/StarWarsTester.java:62-77 | a flag with an in-bounds decimal value sets its setting to that value and changes no other setting and not the rebuild switch |
| Flags.FlagOutOfBoundsIgnored | src/main/java/org/jsonsearch/lucene/StarWarsTester.java:327-335 | a flag whose value is out of bounds leaves the configuration unchanged |
| Flags.RebuildFlag | src/main/java/org/jsonsearch/lucene/StarWarsTester.java:72-73 | `--rebuildSpellIndex` sets only the rebuild switch |
| Flags.UnknownFlagIgnored | src/main/java/org/jsonsearch/lucene/StarWarsTester.java:53-79 | an argument that matches no flag changes nothing |
| Flags.LaterFlagWins | src/main/java/org/jsonsearch/lucene/StarWarsTester.java:53-79 | a valid flag keeps its value unless a later argument names the same flag |
| Flags.FlagLeavesOthers | src/main/java/org/jsonsearch/lucene/StarWarsTester.java:53-79 | an argument without a setting's prefix leaves that setting unchanged |
| Tester.NewSearchOutcome | src/main/java/org/jsonsearch/lucene/StarWarsTester.java:456-459 | a `null` map becomes the empty map; any other map and the hit count are kept |
| Tester.Run | src/main/java/org/jsonsearch/lucene/StarWarsTester.java:251-285 | no contract of its own; `exactWordSearch` and `phoneticSearch` with the index replaced by a search oracle, whose answer goes through the `SearchOutcome` constructor, whose normalisation `NewSearchOutcome` states |
| Tester.StarWarsTester.constructor | src/main/java/org/jsonsearch/lucene/StarWarsTester.java:36-47 | a new tester has the default settings (10, 2, 1, 2, 20, no rebuild, 2, 5), within bounds, and a zero hit count |
| Tester.StarWarsTester.SetSetting | src/main/java/org/jsonsearch/lucene/StarWarsTester.java:62-77 | a setter lambda changes its own field only |
| Tester.StarWarsTester.ParseIntFlag | src/main/java/org/jsonsearch/lucene/StarWarsTester.java:327-335 | the setter runs with the parsed value when it lies within the bounds; otherwise the settings are unchanged |
| Tester.StarWarsTester.ApplyArg | src/main/java/org/jsonsearch/lucene/StarWarsTester.java:54-77 | one argument updates the fields as the flag chain prescribes, leaving the hit count alone |
| Tester.StarWarsTester.ApplyArgs | src/main/java/org/jsonsearch/lucene/StarWarsTester.java:53-79 | the flag loop leaves the fields equal to the flag chain applied to every argument in order, and keeps them within bounds |
| Tester.StarWarsTester.SearchAndMerge | src/main/java/org/jsonsearch/lucene/StarWarsTester.java:148-152 | one search merges its normalised map into the results and adds its hits to the running total |
| Tester.StarWarsTester.RetrySuggestions | src/main/java/org/jsonsearch/lucene/StarWarsTester.java:167-175 | the retry loop runs one exact search per suggestion in order, merging each map and adding each hit count |
| Tester.StarWarsTester.SearchWith | src/main/java/org/jsonsearch/lucene/StarWarsTester.java:148-190 | after the searches, the results, the total and the significance flag are those of the session described by `SessionWith` |
| Tester.StarWarsTester.SearchPhrase | src/main/java/org/jsonsearch/lucene/StarWarsTester.java:145-190 | builds the suggestions with the tester's settings, then ends in the state `Session` describes |
| Tester.Retried | src/main/java/org/jsonsearch/lucene/StarWarsTester.java:167-175 | there is one retry outcome per suggestion |
| Tester.MergeAllAppend | src/main/java/org/jsonsearch/lucene/StarWarsTester.java:148-175 | merging two runs of outcomes one after the other is merging them all at once |
| Tester.MergeAllDistinct | src/main/java/org/jsonsearch/lucene/StarWarsTester.java:129-175 | the results map keeps distinct keys through every merge |
| Tester.MergeAllScores | src/main/java/org/jsonsearch/lucene/StarWarsTester.java:148-175 | every bookmark's final score is the sum of its scores in all the searches; it is present exactly when some search returned it |
| Tester.SessionWith | src/main/java/org/jsonsearch/lucene/StarWarsTester.java:148-190 | no contract of its own; defined as the exact and phonetic searches, the retries under the `minOccur` threshold, the merges and the final sort for any suggestion list and `minOccur`; `SearchWith` is proved to reach it and `SessionReport`, `SessionSearches`, `ThresholdGap` and `TotalNeverDrops` state its properties through `Session` |
| Tester.Session | src/main/java/org/jsonsearch/lucene/StarWarsTester.java:129-190 | no contract of its own; defined as the suggestions of the phrase followed by the searches, merges and threshold test of `main`; its properties are stated by `SessionReport`, `SessionSearches`, `ThresholdGap` and `TotalNeverDrops`, and `SearchPhrase` is proved to reach it |
| Tester.SessionReport | src/main/java/org/jsonsearch/lucene/StarWarsTester.java:129-190 | the final map has distinct keys and summed scores; the total is the sum of the hits; the result is significant exactly when the total exceeds `minOccur`, and is then sorted and a permutation of the merged map, otherwise the merged map as is |
| Tester.SessionSearches | src/main/java/org/jsonsearch/lucene/StarWarsTester.java:148-176 | a session runs the exact then the phonetic search; the suggestions are retried in order exactly when there are some and the running total is below `minOccur` |
| Tester.ThresholdGap | src/main/java/org/jsonsearch/lucene/StarWarsTester.java:165-190 | a running total of exactly `minOccur` triggers no retries and is still not significant |
| Tester.SumHitsNonNegative | src/main/java/org/jsonsearch/lucene/StarWarsTester.java:152-173 | searches with non-negative hit counts add up to a non-negative total |
| Tester.TotalNeverDrops | src/main/java/org/jsonsearch/lucene/StarWarsTester.java:152-173 | with non-negative hit counts, the session's final total is at least the starting value |
| Indexing.Lookup | src/main/java/org/jsonsearch/lucene/Indexer.java:171 | `get` returns a value stored under the key, or nothing when no member has that key; when the object's keys are distinct, as a parsed object's are, it returns exactly the value stored under the key |
| Indexing.FirstNonEmpty | src/main/java/org/jsonsearch/lucene/Indexer.java:176 | the first non-empty candidate, preceded only by empty ones, or `""` when all are empty |
| Indexing.FindBookmarkTagFirst | src/main/java/org/jsonsearch/lucene/Indexer.java:169-185 | no contract of its own; defined as the recursive search: an object's own string tag at once, else the first non-empty answer among its values in key order or an array's elements in order, else `""`; its properties are stated by `FindIsFirstCandidate`, `FindIsFirstNonEmptyOfFrontier` and `FileTag` |
| Indexing.FindIsFirstCandidate | src/main/java/org/jsonsearch/lucene/Indexer.java:169-185 | the search returns the first non-empty tag among the candidates (an object's own string tag hides its subtree) in key and element order; an object's own empty string tag is returned at once, without visiting the children |
| Indexing.FindIsFirstNonEmptyOfFrontier | src/main/java/org/jsonsearch/lucene/Indexer.java:173-184 | an empty tag found below does not stop the search: every subtree answers its first non-empty candidate |
| Indexing.FileTag | src/main/java/org/jsonsearch/lucene/Indexer.java:169-185 | a file's tag is `""` exactly when every candidate is empty, and otherwise the first non-empty candidate |
| Indexing.NewParseContext | src/main/java/org/jsonsearch/lucene/Indexer.java:32-35 | a `null` tag becomes `""`; any other tag is kept |
| Indexing.Header | src/main/java/org/jsonsearch/lucene/Indexer.java:155-160 | no contract of its own; defined as `createLuceneDocument`'s file name and canonical path fields followed by the file's bookmark tag field; `DocumentsCarryFileTag` states that every document begins with them |
| Indexing.DocumentFor | src/main/java/org/jsonsearch/lucene/Indexer.java:110-141 | no contract of its own; defined as the header followed by every member's fields in key order; `DocumentsCarryFileTag` and `OwnTagIsSecondField` state its properties and `ParseJsonObject` is proved to add it |
| Indexing.FieldsFor | src/main/java/org/jsonsearch/lucene/Indexer.java:122-141 | fields are named after the key; a string gives one field holding it, a text field exactly under `"text"` and a keyword field elsewhere; a boolean gives one keyword field holding `true` or `false`; a long or a double gives a point field and then a stored field, both holding the value; null, objects and arrays give none |
| Indexing.AddFields | src/main/java/org/jsonsearch/lucene/Indexer.java:122-141 | the type dispatch appends exactly one member's fields to the document |
| Indexing.Indexer.AddDocument | src/main/java/org/jsonsearch/lucene/Indexer.java:149 | the writer appends the document and keeps the earlier ones |
| Indexing.Indexer.ParseJsonFile | src/main/java/org/jsonsearch/lucene/Indexer.java:87-94 | one tag is computed for the file, then every object of the tree is indexed in post-order with that tag |
| Indexing.Indexer.ParseJsonElement | src/main/java/org/jsonsearch/lucene/Indexer.java:97-105 | an object is indexed, an array's elements are walked in order, and a scalar adds nothing |
| Indexing.Indexer.ParseJsonObject | src/main/java/org/jsonsearch/lucene/Indexer.java:110-150 | the writer gains the documents of the nested objects in member order, then this object's own document (header, then every member's fields in key order) |
| Indexing.PostOrder | src/main/java/org/jsonsearch/lucene/Indexer.java:97-149 | no contract of its own; defined as the objects of a tree, each after the objects nested in its members, members and elements in order; its properties are stated by `OneDocumentPerObject` and `SubtreeSegment`, and `ParseJsonElement` is proved to add its documents |
| Indexing.DocsOf | src/main/java/org/jsonsearch/lucene/Indexer.java:149 | one document per object |
| Indexing.OneDocumentPerObject | src/main/java/org/jsonsearch/lucene/Indexer.java:97-149 | a walk adds exactly as many documents as the tree holds objects |
| Indexing.SubtreeSegment | src/main/java/org/jsonsearch/lucene/Indexer.java:143-149 | in the post-order list, every object is preceded immediately by the objects nested inside it, so a nested object comes before the object that holds it |
| Indexing.DocumentsCarryFileTag | src/main/java/org/jsonsearch/lucene/Indexer.java:91-115 | every document of a file has the file's tag as its first `bookmark_tag` field, and the file's name and path as its first `filename` and `filepath` fields |
| Indexing.OwnTagIsSecondField | src/main/java/org/jsonsearch/lucene/Indexer.java:115-127 | an object's own string `bookmark_tag` member adds a second `bookmark_tag` field with its own value, after the header |
| JsonFileFilter.GetName | src/main/java/org/jsonsearch/lucene/JsonFileFilter.java:21 | `getName` is the final path component: a suffix of the path with no separator, preceded by a separator when shorter |
| JsonFileFilter.Accept | src/main/java/org/jsonsearch/lucene/JsonFileFilter.java:20-22 | no contract of its own; defined as the lower-cased last path component ending in `.json`; its properties are stated by `AcceptIsJsonSuffix`, `ShortNamesRejected`, `ParentIgnored` and the example lemmas below |
| JsonFileFilter.AcceptIsJsonSuffix | src/main/java/org/jsonsearch/lucene/JsonFileFilter.java:20-22 | a path is accepted exactly when its name ends in a five-character suffix that lower-cases to `.json` |
| JsonFileFilter.ShortNamesRejected | src/main/java/org/jsonsearch/lucene/JsonFileFilter.java:21 | names shorter than five characters are rejected |
| JsonFileFilter.AcceptsStemWithExtension | src/main/java/org/jsonsearch/lucene/JsonFileFilter.java:21 | any name ending in `.json` in any letter case is accepted |
| JsonFileFilter.AcceptsBareExtension | src/main/java/org/jsonsearch/lucene/JsonFileFilter.java:21 | the name `.json` itself is accepted |
| JsonFileFilter.RejectsLaterExtension | src/main/java/org/jsonsearch/lucene/JsonFileFilter.java:21 | the suffix must be at the very end: `x.json.bak` is rejected |
| JsonFileFilter.ParentIgnored | src/main/java/org/jsonsearch/lucene/JsonFileFilter.java:21 | only the last path component decides: any parent path gives the same answer as the bare name |
| JsonFileFilter.RejectsJsonParent | src/main/java/org/jsonsearch/lucene/JsonFileFilter.java:21 | a `.json` directory does not make its files accepted |
| Text.Lower | src/main/java/org/jsonsearch/lucene/JsonFileFilter.java:21 | lower-casing keeps the length and maps every character by ASCII lower-casing |

## Left out

- Lucene is not modelled: `IndexWriter`, `IndexSearcher`, directories and analyzers. The
  spelling dictionary (`exist`, `suggestSimilar`), the analyzer's tokenizer (`tokenize`)
  and the exact and phonetic searches are parameters of the model.
- `exactWordSearch` / `phoneticSearch`: the query builders they call (`setBoosts`,
  `setQueryParams`, `createBooleanQuery`, `getBookmarks`) are not part of this model, so
  each search is an oracle returning a map and a hit count. The `(int)` cast of Lucene's
  `long` hit total is part of that oracle.
- `ensureSpellIndex` (the spelling index rebuild) is not modelled. `--rebuildSpellIndex`
  only sets its switch.
- `parseBoost`, the four boost fields and their flags are not modelled, because they are
  floating point. Their branches in the flag chain leave the modelled settings unchanged.
- Console prompts, the index directory setup, the directory setters and getters, timing
  and all printing are not modelled.
- `createIndex` is not modelled (directory listing and the hidden, readable and directory
  checks), nor is `indexFile`. `parseJSONFile` starts from an already parsed tree.
- JSON parsing by json-simple is not modelled. An object's key order, unspecified in a
  `HashMap`, is taken as the given member order.
- Scores are Java `Double`s, modelled as `real`: no rounding, NaN or signed zeros in
  `compareTo`. JSON doubles are `real`, and JSON longs are unbounded integers.
- Tester.StarWarsTester.SearchAndMerge: does not model 32-bit wrap-around of `totalHits +=`,
  because the hit counts come from an oracle and the running total is an unbounded integer.
- Text.Lower: `toLowerCase` and `equalsIgnoreCase` are modelled as ASCII letter case only,
  because locale-dependent Unicode case mapping has no counterpart here.
- Flags.ParseJavaInt: only ASCII digits are recognised, not the other Unicode digits
  `Integer.parseInt` accepts.
- JsonFileFilter.GetName: a path is a string split at `/`. There is no path normalisation
  and no other separator.
- Suggestions.BuildPerTermSuggestions: `maxCombos` is a natural number. The flag bounds keep
  it at least 1; a negative cap, which `subList` would reject, is not modelled.
- Suggestions.CrossProductIsChoices: states the single-space join only for options that are
  non-empty words. An empty option would be joined without its separator, as the
  `prefix.isEmpty()` test in `buildPerTermSuggestions` does.
