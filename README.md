# naruhodo-api core, modelled in Dafny

naruhodo-api splits Japanese text into words and looks each word up in a JMdict
dictionary held in SQLite. This project models three parts of it and proves
properties about them:

- **Token merger** (`getTextTokens.ts`, `getTokens.ts`). The tokenizer's output is
  walked once, left to right, by `reduceParsedParagraphs`. A token either fuses with
  its successor, whose array slot is then marked `skip`, or fuses into the last token
  already accumulated. `TokenMerge` has the pass as a specification (`Step`, `Run`,
  `Reduce`) and as an in-place method on an `array<Slot>`. `MergeRules` has both
  files' rule predicates. A `Variant` flag picks the three-rule forward predicate of
  getTextTokens.ts or the four-rule one of getTokens.ts. `Tokenization` has
  `getTextTokens` and `getTokens`, with the tokenizer as a function parameter.
- **Dictionary resolver** (`getDictionaryEntries.ts`, `mapTokenWithDictionaryEntries.ts`).
  `DictionaryStore` models the `kanji`, `kana` and `word` tables as sequences of rows.
  Each SELECT is "the first matching row, or none", and a failing query is a table
  named in `failing`. `DictionaryEntries` is the kanji-then-kana resolver.
  `KanjiOnlyResolver` is the variant that reads only the kanji table.
- **Dictionary normaliser** (`jmdictToSQLiteFull.js`, `jmdictToSQLite.js`,
  `jmdictToSQLite.ts`). A store is a class whose fields are its tables, as sequences
  that the methods extend.
  - `FullSchema.FullDb` / `JmdictFull` is the nine-table store.
  - `SimpleSchema.SimpleDb` is the three-table store. Its entry loop is modelled once,
    because the `.js` and `.ts` converters share it. `JmdictSimpleJs` and
    `JmdictSimpleTs` are their top-level functions.
  - `crypto.randomUUID()` is a `UuidSupply` object that never issues the same id twice.
  - `JSON.stringify` is an uninterpreted function parameter.
  - Every loading method is proved against a specification predicate (`Imported`,
    `Loaded`). That predicate names exactly which rows each document variant produces.
    The lemmas under "what an imported store satisfies" then derive row counts,
    `word_id` references, junction rows and gloss-to-sense links from it.
- `StoreLookup` connects the two halves. In a simple store that the converter loaded,
  the resolver finds the entry that holds a kanji or kana form, and finds nothing for
  any other text.

Three behaviours of the program that are easy to miss:

- `shouldMergeWithNext` of getTextTokens.ts has its 未然形 + 接尾 rule commented out.
  getTokens.ts has that rule active.
- The kanji-only resolver reports `"kanji"` even when no word row is found. It also
  looks up `word_id` 0 like any other id.
- The full converter's `word` table holds only ids (`word(id)`). The simple converters
  also store `content`.

## Model

| member | source | states |
|---|---|---|
| MergeRules.ForwardRulesOfTokens | src/lib/utils/functions/getTokens.ts:61-88 | the forward test of getTokens.ts holds exactly when one of its four rules holds; it equals getTextTokens.ts' test or the extra 未然形 + 接尾 rule |
| MergeRules.BackwardRulesAgree | src/lib/utils/functions/getTokens.ts:90-109 | both files' backward tests agree, and hold exactly for 助動詞+体言接続, 接尾+助数詞 and 動詞+一段+非自立 |
| TokenMerge.StepCases | src/lib/utils/functions/getTextTokens.ts:13-44 | one callback call: skipped slots are no-ops; the forward test comes first, marks slot i+1 and emits one token with both surface forms and the current token's metadata; a backward merge replaces the last output token, keeping its metadata; a backward merge with an empty accumulator appends the token; the last position never merges forward; only slot i+1 of the array can change |
| TokenMerge.ReduceParsedParagraphs | src/lib/utils/functions/getTextTokens.ts:9-48 | the in-place loop leaves the array and returns the accumulator that the specification `Reduce` gives |
| TokenMerge.SurfacePreserved | src/lib/utils/functions/getTextTokens.ts:13-44 | the output surface forms, concatenated in order, equal the input's |
| TokenMerge.StepKeepsSurfaces | src/lib/utils/functions/getTextTokens.ts:13-44 | one callback call keeps "surfaces emitted so far + surfaces of the slots still to be read" unchanged, and keeps every later slot unmarked |
| TokenMerge.ForwardKeepsSurfaces | src/lib/utils/functions/getTextTokens.ts:16-30 | a forward merge emits both surface forms joined and marks the next slot, whose surface is then no longer still to be read: nothing is lost or read twice |
| TokenMerge.BackwardKeepsSurfaces | src/lib/utils/functions/getTextTokens.ts:33-42 | a backward merge appends the current surface form to the last emitted token: the emitted surfaces grow by exactly what was read |
| TokenMerge.OutputLength | src/lib/utils/functions/getTextTokens.ts:13-44 | the output is never longer than the input, and is empty exactly when the input is |
| TokenMerge.StepKeepsAnchored | src/lib/utils/functions/getTextTokens.ts:13-44 | one callback call keeps every emitted token tied to an input slot with the same metadata, with the tie positions strictly increasing and below the next position |
| TokenMerge.OutputAnchored | src/lib/utils/functions/getTokens.ts:21-58 | each output token has the metadata of one input token, apart from its surface form; these anchor positions strictly increase |
| TokenMerge.ArrayMarks | src/lib/utils/functions/getTokens.ts:24-38 | after the pass the array keeps its tokens; a slot is marked exactly when its predecessor was not marked and the forward test fired between them |
| TokenMerge.TabetaMergesForward | src/lib/utils/functions/getTextTokens.ts:16-29 | 食べ (連用形) + た (助動詞) gives 食べた with 食べ's metadata, and the second slot is marked |
| TokenMerge.GenkinaMergesBackward | src/lib/utils/functions/getTextTokens.ts:33-41 | 元気 + な (助動詞, 体言接続) gives 元気な with 元気's metadata |
| TokenMerge.KakareruSeparatesVariants | src/lib/utils/functions/getTokens.ts:61-88 | 書か (未然形) + れる (接尾) fuses into 書かれる under the getTokens.ts rules, while the getTextTokens.ts rules, whose 未然形 + 接尾 test is commented out, leave both tokens as they are |
| Tokenization.Merge | src/lib/utils/functions/getTokens.ts:12 | the merged tokens are `Reduce` of the tokenizer output; they preserve its surface text, are no longer than it, and are empty exactly when it is |
| Tokenization.GetTextTokens | src/lib/utils/functions/getTextTokens.ts:5-7 | the text is merged with the three-rule predicate, and its surface text is preserved |
| Tokenization.GetTokens | src/lib/utils/functions/getTokens.ts:6-18 | one result per paragraph, in order, each keeping its `baseText` and `index`, with tokens merged by the four-rule predicate and their surface text preserved |
| DictionaryStore.SelectWordId | src/lib/utils/functions/getDictionaryEntries.ts:96 | none exactly when no row has the text; otherwise the `word_id` of a row with that text |
| DictionaryStore.FetchKanji | src/lib/utils/functions/getDictionaryEntries.ts:94-104 | a result exactly when the kanji query does not fail and some kanji row has the text; the result is the `word_id` of such a row |
| DictionaryStore.FetchKana | src/lib/utils/functions/getDictionaryEntries.ts:106-116 | a result exactly when the kana query does not fail and some kana row has the text; the result is the `word_id` of such a row |
| DictionaryStore.SelectWord | src/lib/utils/functions/getDictionaryEntries.ts:120 | none exactly when no word row has the id; otherwise a word row with that id |
| DictionaryStore.FetchWord | src/lib/utils/functions/getDictionaryEntries.ts:118-128 | a word row with the id, or none exactly when the query fails or no row has the id |
| DictionaryEntries.GetWordId | src/lib/utils/functions/getDictionaryEntries.ts:72-92 | a kanji hit is reported as found in kanji, with its `word_id`; otherwise a kana hit is reported as found in kana; otherwise nothing |
| DictionaryEntries.FetchDictionaryEntry | src/lib/utils/functions/getDictionaryEntries.ts:41-70 | an entry exactly when the form hit has a non-zero `word_id` whose word row is found; the entry is that row, with the hit's `foundInKanji` |
| DictionaryEntries.MapToken | src/lib/utils/functions/getDictionaryEntries.ts:23-37 | `text` and `wordBasicForm` come from the token; UNKNOWN tokens are not looked up; `type` is "kana" whenever nothing is found; otherwise `fullEntry` is the found row and `type` is "kanji" exactly when it was found via kanji |
| DictionaryEntries.MapTokenWithDictionaryEntries | src/lib/utils/functions/getDictionaryEntries.ts:19-39 | one parsed word per token, in order, with its surface and basic form; word k is token k resolved by `MapToken`, so its `type` and `fullEntry` are those `MapToken` promises |
| DictionaryEntries.GetDictionaryEntries | src/lib/utils/functions/getDictionaryEntries.ts:7-17 | one result per paragraph, in order, keeping its fields and tokens; its `parsedText` is its tokens resolved one by one |
| DictionaryEntries.KanjiTableWins | src/lib/utils/functions/getDictionaryEntries.ts:75-80 | with a kanji hit, the result does not depend on the kana table or on its failure, and an entry is marked found in kanji |
| DictionaryEntries.KanaFallback | src/lib/utils/functions/getDictionaryEntries.ts:83-88 | with no kanji hit (a miss or a failing query), the result is that of an empty kanji table, and an entry is marked found in kana |
| DictionaryEntries.ZeroKanjiWordIdBlocksKana | src/lib/utils/functions/getDictionaryEntries.ts:52-57 | a kanji hit with `word_id` 0 gives no entry, with no kana fallback |
| DictionaryEntries.DanglingWordIdGivesNothing | src/lib/utils/functions/getDictionaryEntries.ts:59-66 | a `word_id` with no word row gives no entry: "kana" and no full entry |
| DictionaryEntries.FoundEntry | src/lib/utils/functions/getDictionaryEntries.ts:68 | a non-zero `word_id` whose word row exists gives that row, with "kanji" exactly when the kanji table matched |
| DictionaryEntries.AbsentFormGivesNothing | src/lib/utils/functions/getDictionaryEntries.ts:24-36 | an UNKNOWN token, or a form in neither table, gives "kana" and no full entry |
| KanjiOnlyResolver.FetchDictionaryEntry | src/lib/utils/functions/mapTokenWithDictionaryEntries.ts:27-50 | an entry exactly when a kanji row matches and the word query does not fail; the entry holds the word lookup of that row's `word_id`, possibly empty |
| KanjiOnlyResolver.MapToken | src/lib/utils/functions/mapTokenWithDictionaryEntries.ts:10-23 | `text` and `wordBasicForm` come from the token; UNKNOWN tokens get "kana"; "kanji" exactly when the lookup gave an entry; the full entry is that entry's word row, if any, and always a word row reached via kanji |
| KanjiOnlyResolver.MapTokenWithDictionaryEntries | src/lib/utils/functions/mapTokenWithDictionaryEntries.ts:5-25 | one parsed word per token, in order, with its surface and basic form; word k is token k resolved by the kanji-only `MapToken` |
| KanjiOnlyResolver.KanaTableIgnored | src/lib/utils/functions/mapTokenWithDictionaryEntries.ts:32-36 | the result does not depend on the kana table or on its failure |
| KanjiOnlyResolver.KanjiAndWordFound | src/lib/utils/functions/mapTokenWithDictionaryEntries.ts:38-44 | a kanji row and its word row give "kanji" with that row |
| KanjiOnlyResolver.KanjiFoundWordMissing | src/lib/utils/functions/mapTokenWithDictionaryEntries.ts:41-44 | a kanji row without a word row still gives "kanji", with no full entry |
| KanjiOnlyResolver.ZeroWordIdIsLookedUp | src/lib/utils/functions/mapTokenWithDictionaryEntries.ts:38-41 | `word_id` 0 is looked up like any other id and can find a word row with id 0 |
| KanjiOnlyResolver.NoEntryWithoutKanji | src/lib/utils/functions/mapTokenWithDictionaryEntries.ts:36-42 | a kanji miss, a kanji-query error or a word-query error gives "kana" and no entry |
| KanjiOnlyResolver.ResolversAgreeOnKanjiHits | src/lib/utils/functions/mapTokenWithDictionaryEntries.ts:27-50 | with no failing query, a kanji row with a non-zero `word_id` whose word row exists resolves the same in both resolvers |
| KanjiOnlyResolver.ResolversDifferOnKanaOnlyForms | src/lib/utils/functions/mapTokenWithDictionaryEntries.ts:32-36 | a form only in the kana table gets a full entry from the kanji-then-kana resolver and none from the kanji-only one |
| Jmdict.TallyIdentity | src/lib/jmdict/jmdictToSQLiteFull.js:167-172 | `converted + notConverted` is the number of entries |
| Jmdict.ConvertedCountsNonZeroIds | src/lib/jmdict/jmdictToSQLiteFull.js:167-172 | `converted` is the number of entries whose id is not 0 |
| Jmdict.ConvertedIdsLength | src/lib/jmdict/jmdictToSQLiteFull.js:167-170 | one `word` id per converted entry |
| Jmdict.ConvertedIdsMembers | src/lib/jmdict/jmdictToSQLiteFull.js:167-170 | an id gets a `word` row exactly when it is not 0 and some entry has it |
| Jmdict.AllKanjiMembers | src/lib/jmdict/jmdictToSQLiteFull.js:85-105 | the kanji variants in document order are exactly the entries' kanji variants, each with its owner's id |
| Jmdict.AllKanaMembers | src/lib/jmdict/jmdictToSQLiteFull.js:107-130 | the kana variants in document order are exactly the entries' kana variants, each with its owner's id |
| Jmdict.AllSensesOwners | src/lib/jmdict/jmdictToSQLiteFull.js:132-145 | every sense block belongs to an entry with that id |
| Jmdict.AllKanjiLength | src/lib/jmdict/jmdictToSQLiteFull.js:89 | entries without a kanji array contribute no variants; the list is as long as all kanji arrays together |
| Jmdict.UuidSupply.RandomUuid | src/lib/jmdict/jmdictToSQLiteFull.js:90 | the new id was never issued before, and is now issued |
| Links.FanOutLength | src/lib/jmdict/jmdictToSQLiteFull.js:99-104 | one junction row per child value |
| Links.FanOutParents | src/lib/jmdict/jmdictToSQLiteFull.js:99-104 | every junction row points at one of the parents |
| Links.FanOutOfParent | src/lib/jmdict/jmdictToSQLiteFull.js:99-104 | with distinct parent ids, a parent's junction rows are exactly one per child value, in order |
| FullSchema.FullDb.constructor | src/lib/jmdict/jmdictToSQLiteFull.js:29-71 | the nine tables are created empty |
| FullSchema.KanjiTablesSnoc | src/lib/jmdict/jmdictToSQLiteFull.js:89-104 | a kanji row and its tag rows appended for one more variant keep the kanji tables those of the variants so far |
| FullSchema.KanaTablesSnoc | src/lib/jmdict/jmdictToSQLiteFull.js:108-129 | the same for a kana row, with `applies_to_kanji` joined |
| FullSchema.SenseTablesSnoc | src/lib/jmdict/jmdictToSQLiteFull.js:133-164 | the same for a sense row, its part-of-speech rows and its gloss rows |
| FullSchema.LinksOfRow | src/lib/jmdict/jmdictToSQLiteFull.js:147-153 | with distinct ids, row k's junction rows are exactly its values, in order; there is one row per value, each pointing at a parent |
| FullSchema.GlossesOfSense | src/lib/jmdict/jmdictToSQLiteFull.js:155-164 | the gloss rows of sense row k are the glosses of sense block k, in order; every gloss row points at a sense row |
| JmdictFull.AppendLinks | src/lib/jmdict/jmdictToSQLiteFull.js:99-104 | the tag loop appends one `(parent, value)` row per value, in order |
| JmdictFull.InsertKanji | src/lib/jmdict/jmdictToSQLiteFull.js:89-105 | one kanji row under a fresh id, and its tag rows; the ids stay fresh; earlier kanji and tag rows are kept |
| JmdictFull.InsertKanjiVariants | src/lib/jmdict/jmdictToSQLiteFull.js:89 | the kanji tables grow by the rows of the entry's kanji variants; earlier rows are kept |
| JmdictFull.InsertKana | src/lib/jmdict/jmdictToSQLiteFull.js:108-130 | one kana row under a fresh id, and its tag rows; earlier kana and tag rows are kept |
| JmdictFull.InsertKanaVariants | src/lib/jmdict/jmdictToSQLiteFull.js:108 | the kana tables grow by the rows of the entry's kana variants; earlier rows are kept |
| JmdictFull.InsertGloss | src/lib/jmdict/jmdictToSQLiteFull.js:156-164 | one gloss row under a fresh id pointing at the sense; earlier gloss rows are kept |
| JmdictFull.InsertGlosses | src/lib/jmdict/jmdictToSQLiteFull.js:156 | one gloss row per gloss, in order, each pointing at the sense; earlier gloss rows are kept |
| JmdictFull.InsertSense | src/lib/jmdict/jmdictToSQLiteFull.js:133-165 | one sense row under a fresh id, its part-of-speech rows and its gloss rows; earlier sense, part-of-speech and gloss rows are kept |
| JmdictFull.InsertSenses | src/lib/jmdict/jmdictToSQLiteFull.js:133 | the sense tables grow by the rows of the entry's sense blocks; earlier rows are kept |
| JmdictFull.InsertTags | src/lib/jmdict/jmdictToSQLiteFull.js:80-82 | the `tag` table grows by one row per pair |
| JmdictFull.ImportEntry | src/lib/jmdict/jmdictToSQLiteFull.js:85-173 | one entry's rows are added, and the `word` row and the counter only when its id is not 0 |
| JmdictFull.InsertFormRows | src/lib/jmdict/jmdictToSQLiteFull.js:87-130 | the kanji rows and then the kana rows of one entry are appended to those of the entries before it, every new id fresh |
| JmdictFull.InsertEntryRows | src/lib/jmdict/jmdictToSQLiteFull.js:87-165 | the kanji, kana and sense rows of one entry are appended to those of the entries before it, every new id fresh |
| JmdictFull.ImportEntries | src/lib/jmdict/jmdictToSQLiteFull.js:85 | after the word loop the store holds exactly the rows of the entries, and the tallies count them |
| JmdictFull.JmdictToSQLite | src/lib/jmdict/jmdictToSQLiteFull.js:6-181 | a missing input, then an existing output, fails with no store and no id issued; otherwise a fresh store holds exactly the rows of the document, under fresh ids, and the tallies are returned |
| JmdictFull.ImportedCounts | src/lib/jmdict/jmdictToSQLiteFull.js:76-165 | one tag row per pair; one kanji row per kanji variant; one junction or gloss row per tag, part of speech or gloss |
| JmdictFull.ImportedWords | src/lib/jmdict/jmdictToSQLiteFull.js:167-170 | one `word` row per converted entry; an id has one exactly when it is not 0 and an entry has it |
| JmdictFull.ImportedRowsReferenceWords | src/lib/jmdict/jmdictToSQLiteFull.js:86-170 | every kanji, kana or sense row with a non-zero `word_id` refers to a `word` row; no `word` row has id 0 |
| JmdictFull.ImportedKanjiTags | src/lib/jmdict/jmdictToSQLiteFull.js:89-104 | kanji row k has the text of kanji variant k, and its `kanji_tag` rows are that variant's tags, in order |
| JmdictFull.ImportedKanaTags | src/lib/jmdict/jmdictToSQLiteFull.js:108-129 | kana row k has the text of kana variant k, and its `kana_tag` rows are that variant's tags, in order |
| JmdictFull.ImportedSenses | src/lib/jmdict/jmdictToSQLiteFull.js:133-164 | sense row k's `sense_pos` rows and gloss rows are the parts of speech and glosses of sense block k, in order |
| SimpleSchema.SimpleDb.constructor | src/lib/jmdict/jmdictToSQLite.js:24-46 | the three tables are created empty, with the given indexes |
| SimpleSchema.WordRowsIds | src/lib/jmdict/jmdictToSQLite.js:81-86 | one `word` row per converted entry, with the converted ids in document order |
| SimpleSchema.WordRowsMembers | src/lib/jmdict/jmdictToSQLite.js:81-86 | a `word` row is exactly a non-zero entry id paired with that entry serialized |
| SimpleSchema.KanjiFormsSnoc | src/lib/jmdict/jmdictToSQLite.js:58-67 | a kanji row appended for one more variant keeps the kanji table that of the variants so far |
| SimpleSchema.KanaFormsSnoc | src/lib/jmdict/jmdictToSQLite.js:70-79 | the same for a kana row |
| SimpleSchema.InsertKanji | src/lib/jmdict/jmdictToSQLite.js:58-67 | one kanji row with the text and `word_id`, under a fresh id; earlier rows are kept |
| SimpleSchema.InsertKana | src/lib/jmdict/jmdictToSQLite.js:70-79 | one kana row with the text and `word_id`, under a fresh id; earlier rows are kept |
| SimpleSchema.InsertKanjiForms | src/lib/jmdict/jmdictToSQLite.js:58 | one kanji row per kanji variant, in order, even when the id is 0; earlier rows are kept |
| SimpleSchema.InsertKanaForms | src/lib/jmdict/jmdictToSQLite.js:70 | one kana row per kana variant, in order, even when the id is 0; earlier rows are kept |
| SimpleSchema.ImportEntry | src/lib/jmdict/jmdictToSQLite.js:54-90 | one entry's form rows are added, and the `(id, content)` row and the counter only when its id is not 0 |
| SimpleSchema.ImportEntries | src/lib/jmdict/jmdictToSQLite.js:51-90 | after the word loop the store holds exactly the rows of the entries, and the tallies count them |
| SimpleSchema.LoadedCounts | src/lib/jmdict/jmdictToSQLite.js:54-90 | one `word` row per converted entry, one kanji row per kanji variant |
| SimpleSchema.LoadedFormsHaveWords | src/lib/jmdict/jmdictToSQLite.js:55-86 | a kanji row with a non-zero `word_id` has a `word` row holding an entry with that id and that kanji form |
| SimpleSchema.LoadedKanaFormsHaveWords | src/lib/jmdict/jmdictToSQLite.js:55-86 | a kana row with a non-zero `word_id` has a `word` row holding an entry with that id and that kana form |
| SimpleSchema.LoadedKanjiTexts | src/lib/jmdict/jmdictToSQLite.js:58-67 | a kanji row has a text exactly when some entry has a kanji variant with it |
| SimpleSchema.LoadedKanaTexts | src/lib/jmdict/jmdictToSQLite.js:70-79 | a kana row has a text exactly when some entry has a kana variant with it |
| JmdictSimpleJs.JmdictToSQLite | src/lib/jmdict/jmdictToSQLite.js:6-98 | a missing input, then an existing output, fails with no store and no id issued; otherwise a fresh store indexed on `kanji.text` only holds exactly the rows of the document, under fresh ids, and the tallies are returned |
| JmdictSimpleTs.JmdictToSQLite | src/lib/jmdict/jmdictToSQLite.ts:15-93 | the store is indexed on `kanji.text` and `kana.text`; without data it stays empty, with no tallies and no id issued; otherwise it holds exactly the rows of the document, under fresh ids, and the tallies are returned |
| StoreLookup.FormWordRow | src/lib/utils/functions/getDictionaryEntries.ts:118-128 | in a loaded store, a non-zero entry id finds a `word` row, which holds an entry with that id |
| StoreLookup.KanjiOwner | src/lib/utils/functions/getDictionaryEntries.ts:94-104 | in a loaded store, the kanji lookup of an entry's kanji form answers with the id of an entry that has that kanji form |
| StoreLookup.KanaOwner | src/lib/utils/functions/getDictionaryEntries.ts:106-116 | in a loaded store, the kana lookup of an entry's kana form answers with the id of an entry that has that kana form |
| StoreLookup.LoadedKanjiResolves | src/lib/utils/functions/getDictionaryEntries.ts:41-80 | when every entry has an id, an entry's kanji form resolves via kanji to the word row of an entry with that id and that kanji form |
| StoreLookup.LoadedKanaResolves | src/lib/utils/functions/getDictionaryEntries.ts:72-92 | when every entry has an id, a kana form that is no entry's kanji form resolves via kana to the word row of an entry with that kana form |
| StoreLookup.LoadedUnknownText | src/lib/utils/functions/getDictionaryEntries.ts:72-92 | a text that is no entry's form resolves to nothing |

## Left out

- SQLite engine semantics are not modelled: the WAL pragma, the asynchronous
  scheduling of `db.run`/`db.get`, foreign-key enforcement and the effect of indexes.
  An index is only recorded as present.
- Primary keys are not enforced. The `word` table can hold two rows with one id when
  two entries share an id. SELECT returns "the first matching row". No lemma depends
  on which duplicate comes first, except through the plain "first row" definition.
- `fs.existsSync` is a boolean parameter, and `readFileSync` + `JSON.parse` an
  already-parsed `Document`. A file that does not parse is not modelled.
- `downloadAndExtractJson` (network, unzip, file writing) is not part of this model.
  Its result is a parameter of `JmdictSimpleTs.JmdictToSQLite`.
- JmdictSimpleTs.JmdictToSQLite: modelled on an output file that does not exist yet.
  jmdictToSQLite.ts has no output-exists guard and opens `jmdict.db` whatever is
  there. On an existing file its `CREATE TABLE` statements fail with an unhandled
  error while the inserts stay queued. The model has no input for that case and
  promises a fresh store.
- The HTTP layer (`src/index.ts`) and the controller glue
  (`src/controllers/tokenizerController.ts`) are not part of this model.
  `Promise.all` over a `map` is modelled as an order-preserving sequential map.
- The kuromoji tokenizer (`tokenize`, `getTokenizer`) is an external function
  parameter.
- Console logging and the closing of connections are left out. So is the connection
  left open by the early `resolve` in `fetchDictionaryEntry`.
- The `.js` and `.ts` converters return nothing. The counters they log on close are
  returned as a `Tally`.
- Ids are a `Uuid` serial rather than a UUID string, and `entry.id` is an integer
  (`entry.id || 0`), although the type declarations give it as a string.
- `appliesToKanji` and `appliesToKana` are modelled as required arrays. The source
  calls `.join("")` on them without a guard, so a document lacking them makes the
  source throw. That crash is not modelled.
- The simple `.js` schema declares `common` and `applies_to_kanji` columns that are
  never written. The model omits them, since they are always NULL.
- The `if (!nextWord)` branch of `reduceParsedParagraphs` is unreachable after the
  guard `baseArray[index + 1] &&`, and is not modelled. Token objects are always
  truthy, so the guard reduces to "there is a next position".
- Merge idempotence is not claimed, because it does not hold. A fused token keeps its
  anchor's conjugation, so a second pass can merge again.
- A failing query is modelled per table. Every query against that table fails in the
  same call, rather than one query failing independently of another.
- Tokenization.GetTokens: `{ ...paragraph, tokens }` keeps `baseText` and `index`.
  Other fields of a batch item are not modelled.
