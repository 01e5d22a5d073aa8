/** The resolver of mapTokenWithDictionaryEntries.ts: only the kanji table is
    consulted, then the word table by the kanji row's `word_id`, whatever its value. */
module KanjiOnlyResolver {
  import opened Options
  import opened Schema
  import opened Kuromoji
  import opened DictionaryStore
  import DictionaryEntries

  /** `{ row, foundInKanji: true }`; `row` is undefined when the word query found nothing. */
  datatype KanjiEntry = KanjiEntry(row: Option<WordRow>)

  /** `fetchDictionaryEntry`: a kanji miss or error gives nothing; a word-query error
      gives nothing (the first `resolve` wins); otherwise the word row, if any. */
  function FetchDictionaryEntry(db: Dictionary, kanjiText: string): (r: Option<KanjiEntry>)
    ensures r.Some? <==> FetchKanji(db, kanjiText).Some? && WordTable !in db.failing
    ensures r.Some? ==> r.value.row == SelectWord(db.word, FetchKanji(db, kanjiText).value)
  {
    match FetchKanji(db, kanjiText)
    case None => None
    case Some(wordId) =>
      if WordTable in db.failing then None
      else Some(KanjiEntry(SelectWord(db.word, wordId)))
  }

  /** The callback of `mapTokenWithDictionaryEntries`. */
  function MapToken(db: Dictionary, token: Token): (r: DictionaryEntries.ParsedWord)
    ensures r.text == token.surfaceForm && r.dictionaryEntry.wordBasicForm == token.basicForm
    ensures token.wordType == "UNKNOWN" ==>
      r.dictionaryEntry == DictionaryEntries.ParsedWordEntry(token.basicForm, DictionaryEntries.Kana, None)
    // "kanji" exactly when the two queries ran without error and a kanji row was found
    ensures r.dictionaryEntry.origin == DictionaryEntries.Kanji <==>
      token.wordType != "UNKNOWN" && FetchDictionaryEntry(db, token.basicForm).Some?
    ensures r.dictionaryEntry.fullEntry.Some? ==>
      r.dictionaryEntry.origin == DictionaryEntries.Kanji && r.dictionaryEntry.fullEntry.value in db.word
    ensures token.wordType != "UNKNOWN" && FetchDictionaryEntry(db, token.basicForm).Some? ==>
      r.dictionaryEntry.fullEntry == FetchDictionaryEntry(db, token.basicForm).value.row
  {
    var entry := if token.wordType == "UNKNOWN" then None else FetchDictionaryEntry(db, token.basicForm);
    DictionaryEntries.ParsedWord(
      token.surfaceForm,
      DictionaryEntries.ParsedWordEntry(
        token.basicForm,
        if entry.Some? then DictionaryEntries.Kanji else DictionaryEntries.Kana,
        if entry.Some? then entry.value.row else None))
  }

  /** `mapTokenWithDictionaryEntries`: one result per token, in token order. */
  function MapTokenWithDictionaryEntries(db: Dictionary, tokens: seq<Token>): (r: seq<DictionaryEntries.ParsedWord>)
    ensures |r| == |tokens|
    ensures forall k :: 0 <= k < |tokens| ==>
      r[k].text == tokens[k].surfaceForm && r[k].dictionaryEntry.wordBasicForm == tokens[k].basicForm
    ensures forall k :: 0 <= k < |tokens| ==> r[k] == MapToken(db, tokens[k])
  {
    seq(|tokens|, k requires 0 <= k < |tokens| => MapToken(db, tokens[k]))
  }

  /** The kana table is never consulted: the result does not depend on it. */
  lemma KanaTableIgnored(db: Dictionary, token: Token, kana: seq<FormRow>, kanaFails: bool)
    ensures MapToken(db, token) ==
      MapToken(db.(kana := kana, failing := if kanaFails then db.failing + {KanaTable} else db.failing - {KanaTable}), token)
  {
  }

  /** A kanji row found and its word row found gives "kanji" with that word row. */
  lemma KanjiAndWordFound(db: Dictionary, token: Token, row: WordRow)
    requires token.wordType != "UNKNOWN" && WordTable !in db.failing
    requires FetchKanji(db, token.basicForm).Some?
    requires SelectWord(db.word, FetchKanji(db, token.basicForm).value) == Some(row)
    ensures MapToken(db, token).dictionaryEntry ==
      DictionaryEntries.ParsedWordEntry(token.basicForm, DictionaryEntries.Kanji, Some(row))
  {
  }

  /** A kanji row found but no word row with its `word_id` (0 included: it is not
      special-cased) still reports "kanji", with no full entry. */
  lemma KanjiFoundWordMissing(db: Dictionary, token: Token)
    requires token.wordType != "UNKNOWN" && WordTable !in db.failing
    requires FetchKanji(db, token.basicForm).Some?
    requires forall k :: 0 <= k < |db.word| ==> db.word[k].id != FetchKanji(db, token.basicForm).value
    ensures MapToken(db, token).dictionaryEntry ==
      DictionaryEntries.ParsedWordEntry(token.basicForm, DictionaryEntries.Kanji, None)
  {
  }

  /** A word row with id 0 is found through a kanji row whose `word_id` is 0. */
  lemma ZeroWordIdIsLookedUp(db: Dictionary, token: Token, row: WordRow)
    requires token.wordType != "UNKNOWN" && WordTable !in db.failing
    requires FetchKanji(db, token.basicForm) == Some(0)
    requires SelectWord(db.word, 0) == Some(row)
    ensures MapToken(db, token).dictionaryEntry.fullEntry == Some(row) && row.id == 0
  {
  }

  /** A kanji miss, a kanji-query error or a word-query error gives "kana" and no
      entry, even when a kana row would match. */
  lemma NoEntryWithoutKanji(db: Dictionary, token: Token)
    requires FetchKanji(db, token.basicForm).None? || WordTable in db.failing
    ensures MapToken(db, token).dictionaryEntry ==
      DictionaryEntries.ParsedWordEntry(token.basicForm, DictionaryEntries.Kana, None)
  {
  }

  /** The two resolvers agree whenever the kanji row has a non-zero `word_id` whose word
      row exists and no query fails; they differ on a kana-only form, which only the
      kanji-then-kana resolver finds. */
  lemma ResolversAgreeOnKanjiHits(db: Dictionary, token: Token)
    requires db.failing == {}
    requires FetchKanji(db, token.basicForm).Some? && FetchKanji(db, token.basicForm).value != 0
    requires SelectWord(db.word, FetchKanji(db, token.basicForm).value).Some?
    ensures MapToken(db, token) == DictionaryEntries.MapToken(db, token)
  {
  }

  lemma ResolversDifferOnKanaOnlyForms(db: Dictionary, token: Token)
    requires db.failing == {} && token.wordType != "UNKNOWN"
    requires !HasText(db.kanji, token.basicForm)
    requires FetchKana(db, token.basicForm).Some? && FetchKana(db, token.basicForm).value != 0
    requires SelectWord(db.word, FetchKana(db, token.basicForm).value).Some?
    ensures MapToken(db, token).dictionaryEntry.fullEntry.None?
    ensures DictionaryEntries.MapToken(db, token).dictionaryEntry.fullEntry.Some?
    ensures DictionaryEntries.MapToken(db, token).dictionaryEntry.origin == DictionaryEntries.Kana
  {
  }
}
