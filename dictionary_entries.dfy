/** The resolver of getDictionaryEntries.ts: the kanji table is tried first, then the
    kana table, then the word row is fetched by the form row's `word_id`. */
module DictionaryEntries {
  import opened Options
  import opened Schema
  import opened Kuromoji
  import opened DictionaryStore
  import Tokenization

  /** Where a dictionary match was found (`type` of the result). */
  datatype MatchOrigin = Kanji | Kana

  /** `{ row, foundInKanji }` as built by `getWordId`: the form row's `word_id`. */
  datatype FormHit = FormHit(wordId: int, foundInKanji: bool)

  /** `{ row, foundInKanji }` as built by `fetchDictionaryEntry`: the word row. */
  datatype ResultEntry = ResultEntry(row: WordRow, foundInKanji: bool)

  /** `dictionaryEntry` of a parsed word. */
  datatype ParsedWordEntry = ParsedWordEntry(wordBasicForm: string, origin: MatchOrigin, fullEntry: Option<WordRow>)

  /** `{ text, dictionaryEntry }` of a parsed word. */
  datatype ParsedWord = ParsedWord(text: string, dictionaryEntry: ParsedWordEntry)

  /** A paragraph with its tokens and their resolutions (`{ ...wordTokens, parsedText }`). */
  datatype ResolvedParagraph = ResolvedParagraph(baseText: string, index: int, tokens: seq<Token>, parsedText: seq<ParsedWord>)

  /** `getWordId`: the kanji lookup and, only when it yields no row, the kana lookup. */
  function GetWordId(db: Dictionary, word: string): (r: Option<FormHit>)
    ensures r.Some? && r.value.foundInKanji <==> FetchKanji(db, word).Some?
    ensures r.Some? && r.value.foundInKanji ==> r.value.wordId == FetchKanji(db, word).value
    ensures r.Some? && !r.value.foundInKanji <==> FetchKanji(db, word).None? && FetchKana(db, word).Some?
    ensures r.Some? && !r.value.foundInKanji ==> r.value.wordId == FetchKana(db, word).value
  {
    match FetchKanji(db, word)
    case Some(id) => Some(FormHit(id, true))
    case None =>
      match FetchKana(db, word)
      case Some(id) => Some(FormHit(id, false))
      case None => None
  }

  /** `fetchDictionaryEntry`: a falsy `word_id` or a missing word row means no entry. */
  function FetchDictionaryEntry(db: Dictionary, word: string): (r: Option<ResultEntry>)
    ensures r.Some? ==>
      GetWordId(db, word).Some? && GetWordId(db, word).value.wordId != 0
      && r.value.foundInKanji == GetWordId(db, word).value.foundInKanji
      && r.value.row in db.word && r.value.row.id == GetWordId(db, word).value.wordId
    ensures r.None? <==>
      GetWordId(db, word).None? || GetWordId(db, word).value.wordId == 0
      || FetchWord(db, GetWordId(db, word).value.wordId).None?
  {
    var hit := GetWordId(db, word);
    if hit.None? || hit.value.wordId == 0 then None
    else
      match FetchWord(db, hit.value.wordId)
      case None => None
      case Some(row) => Some(ResultEntry(row, hit.value.foundInKanji))
  }

  /** The callback of `mapTokenWithDictionaryEntries`: unknown words are not looked up,
      and the result always carries a `dictionaryEntry`. */
  function MapToken(db: Dictionary, token: Token): (r: ParsedWord)
    ensures r.text == token.surfaceForm && r.dictionaryEntry.wordBasicForm == token.basicForm
    ensures token.wordType == "UNKNOWN" ==> r.dictionaryEntry == ParsedWordEntry(token.basicForm, Kana, None)
    // `type` is "kana" whenever nothing was found
    ensures r.dictionaryEntry.origin == Kanji ==> r.dictionaryEntry.fullEntry.Some?
    ensures token.wordType != "UNKNOWN" ==>
      match FetchDictionaryEntry(db, token.basicForm)
      case None => r.dictionaryEntry.origin == Kana && r.dictionaryEntry.fullEntry.None?
      case Some(e) =>
        r.dictionaryEntry.fullEntry == Some(e.row) && (r.dictionaryEntry.origin == Kanji <==> e.foundInKanji)
  {
    var entry := if token.wordType == "UNKNOWN" then None else FetchDictionaryEntry(db, token.basicForm);
    ParsedWord(
      token.surfaceForm,
      ParsedWordEntry(
        token.basicForm,
        if entry.Some? && entry.value.foundInKanji then Kanji else Kana,
        if entry.Some? then Some(entry.value.row) else None))
  }

  /** `mapTokenWithDictionaryEntries`: one result per token, in token order. */
  function MapTokenWithDictionaryEntries(db: Dictionary, tokens: seq<Token>): (r: seq<ParsedWord>)
    ensures |r| == |tokens|
    ensures forall k :: 0 <= k < |tokens| ==>
      r[k].text == tokens[k].surfaceForm && r[k].dictionaryEntry.wordBasicForm == tokens[k].basicForm
    ensures forall k :: 0 <= k < |tokens| ==> r[k] == MapToken(db, tokens[k])
  {
    seq(|tokens|, k requires 0 <= k < |tokens| => MapToken(db, tokens[k]))
  }

  /** `getDictionaryEntries`: one result per paragraph, in paragraph order, keeping the
      paragraph's fields and adding the resolved tokens. */
  function GetDictionaryEntries(db: Dictionary, paragraphs: seq<Tokenization.TokenizedParagraph>): (r: seq<ResolvedParagraph>)
    ensures |r| == |paragraphs|
    ensures forall k :: 0 <= k < |paragraphs| ==>
      r[k].baseText == paragraphs[k].baseText && r[k].index == paragraphs[k].index
      && r[k].tokens == paragraphs[k].tokens && |r[k].parsedText| == |paragraphs[k].tokens|
    ensures forall k :: 0 <= k < |paragraphs| ==>
      r[k].parsedText == MapTokenWithDictionaryEntries(db, paragraphs[k].tokens)
  {
    seq(|paragraphs|, k requires 0 <= k < |paragraphs| =>
      var p := paragraphs[k];
      ResolvedParagraph(p.baseText, p.index, p.tokens, MapTokenWithDictionaryEntries(db, p.tokens)))
  }

  // ---------------------------------------------------------------------------
  // Fallback order
  // ---------------------------------------------------------------------------

  /** When the kanji table has a row with the text, the kana table is never consulted:
      the result is the same whatever the kana table holds or whether it fails, and a
      found entry is marked as found via kanji. */
  lemma KanjiTableWins(db: Dictionary, word: string, kana: seq<FormRow>, kanaFails: bool)
    requires KanjiTable !in db.failing && HasText(db.kanji, word)
    ensures FetchDictionaryEntry(db, word).Some? ==> FetchDictionaryEntry(db, word).value.foundInKanji
    ensures FetchDictionaryEntry(db, word) ==
      FetchDictionaryEntry(db.(kana := kana, failing := if kanaFails then db.failing + {KanaTable} else db.failing - {KanaTable}), word)
  {
  }

  /** When the kanji lookup yields no row (no row has the text, or the query fails),
      the result is the one a store with an empty, healthy kanji table gives: the kana
      table decides, and a found entry is marked as found via kana. */
  lemma KanaFallback(db: Dictionary, word: string)
    requires KanjiTable in db.failing || !HasText(db.kanji, word)
    ensures FetchDictionaryEntry(db, word).Some? ==> !FetchDictionaryEntry(db, word).value.foundInKanji
    ensures FetchDictionaryEntry(db, word) ==
      FetchDictionaryEntry(db.(kanji := [], failing := db.failing - {KanjiTable}), word)
  {
    var db' := db.(kanji := [], failing := db.failing - {KanjiTable});
    assert FetchKanji(db', word).None?;
  }

  /** A kanji row with a falsy `word_id` gives no entry, and does not fall back to kana. */
  lemma ZeroKanjiWordIdBlocksKana(db: Dictionary, word: string)
    requires FetchKanji(db, word) == Some(0)
    ensures FetchDictionaryEntry(db, word).None?
  {
  }

  /** A form row whose `word_id` names no word row (a dangling reference) gives no
      entry, so the parsed word says "kana" and has no full entry. */
  lemma DanglingWordIdGivesNothing(db: Dictionary, token: Token)
    requires GetWordId(db, token.basicForm).Some?
    requires forall k :: 0 <= k < |db.word| ==> db.word[k].id != GetWordId(db, token.basicForm).value.wordId
    ensures FetchDictionaryEntry(db, token.basicForm).None?
    ensures MapToken(db, token).dictionaryEntry == ParsedWordEntry(token.basicForm, Kana, None)
  {
  }

  /** Completeness: a form row with a non-zero `word_id` whose word row exists (and whose
      queries do not fail) yields that word row, tagged with the table it came from. */
  lemma FoundEntry(db: Dictionary, token: Token, row: WordRow)
    requires token.wordType != "UNKNOWN"
    requires GetWordId(db, token.basicForm).Some? && GetWordId(db, token.basicForm).value.wordId != 0
    requires WordTable !in db.failing
    requires row in db.word && row.id == GetWordId(db, token.basicForm).value.wordId
    ensures MapToken(db, token).dictionaryEntry.fullEntry.Some?
    ensures MapToken(db, token).dictionaryEntry.fullEntry.value.id == row.id
    ensures MapToken(db, token).dictionaryEntry.origin == Kanji <==> FetchKanji(db, token.basicForm).Some?
  {
    var k :| 0 <= k < |db.word| && db.word[k] == row;
  }

  /** A canonical form present in neither form table (or unrecognised) gets no entry. */
  lemma AbsentFormGivesNothing(db: Dictionary, token: Token)
    requires token.wordType == "UNKNOWN" || (!HasText(db.kanji, token.basicForm) && !HasText(db.kana, token.basicForm))
    ensures MapToken(db, token).dictionaryEntry == ParsedWordEntry(token.basicForm, Kana, None)
  {
  }
}
