/** What the resolver of getDictionaryEntries.ts finds in a simple store the converter
    loaded: the store read by `fetchKanji`, `fetchKana` and `fetchWord` is the one the
    entry loop wrote. */
module StoreLookup {
  import opened Options
  import opened Schema
  import opened Jmdict
  import opened SimpleSchema
  import opened DictionaryStore
  import opened DictionaryEntries

  /** The loaded store as the resolver sees it, with no failing query. */
  function AsDictionary(db: SimpleDb): (d: Dictionary)
    reads db`word, db`kanji, db`kana
    ensures d.kanji == db.kanji && d.kana == db.kana && d.word == db.word && d.failing == {}
  {
    Dictionary(db.kanji, db.kana, db.word, {})
  }

  /** Every entry has an id, so no form row carries `word_id` 0. */
  predicate AllIdsPresent(ws: seq<Entry>) {
    forall j :: 0 <= j < |ws| ==> WordId(ws[j]) != 0
  }

  /** The word row holds an entry with that id, serialized. */
  predicate HoldsEntry(row: WordRow, ws: seq<Entry>, stringify: Entry -> string) {
    exists i :: 0 <= i < |ws| && WordId(ws[i]) == row.id && row.content == stringify(ws[i])
  }

  /** Some entry with this id has a kanji form with this text. */
  predicate KanjiOfEntry(id: int, ws: seq<Entry>, text: string) {
    exists i, v :: 0 <= i < |ws| && WordId(ws[i]) == id && v in OrEmpty(ws[i].kanji) && v.text == text
  }

  /** Some entry with this id has a kana form with this text. */
  predicate KanaOfEntry(id: int, ws: seq<Entry>, text: string) {
    exists i, v :: 0 <= i < |ws| && WordId(ws[i]) == id && v in OrEmpty(ws[i].kana) && v.text == text
  }

  /** The word row for form row k exists and holds an entry with that id. */
  lemma {:induction false} FormWordRow(db: SimpleDb, ws: seq<Entry>, stringify: Entry -> string, id: int, j: nat)
    requires Loaded(db, ws, stringify) && j < |ws| && WordId(ws[j]) == id && id != 0
    ensures FetchWord(AsDictionary(db), id).Some?
    ensures HoldsEntry(FetchWord(AsDictionary(db), id).value, ws, stringify)
  {
    WordRowsMembers(ws, stringify, WordRow(id, stringify(ws[j])));
    var row := WordRow(id, stringify(ws[j]));
    var k :| 0 <= k < |db.word| && db.word[k] == row;
    var found := FetchWord(AsDictionary(db), id).value;
    WordRowsMembers(ws, stringify, found);
  }

  /** A form hit with a non-zero id whose word row exists yields that row. */
  lemma HitEntry(d: Dictionary, text: string, id: int, inKanji: bool)
    requires GetWordId(d, text) == Some(FormHit(id, inKanji)) && id != 0 && FetchWord(d, id).Some?
    ensures FetchDictionaryEntry(d, text) == Some(ResultEntry(FetchWord(d, id).value, inKanji))
  {
  }

  /** The kanji table answers a kanji form of an entry with the id of an entry that has it. */
  lemma KanjiOwner(db: SimpleDb, ws: seq<Entry>, stringify: Entry -> string, text: string)
    returns (id: int, j: nat, v: KanjiVariant)
    requires Loaded(db, ws, stringify) && IsKanjiForm(ws, text)
    ensures FetchKanji(AsDictionary(db), text) == Some(id)
    ensures j < |ws| && WordId(ws[j]) == id && v in OrEmpty(ws[j].kanji) && v.text == text
  {
    LoadedKanjiTexts(db, ws, stringify, text);
    id := FetchKanji(AsDictionary(db), text).value;
    var k :| 0 <= k < |db.kanji| && db.kanji[k].text == text && db.kanji[k].wordId == id;
    var o := AllKanji(ws)[k];
    AllKanjiMembers(ws, o);
    j :| 0 <= j < |ws| && o.variant in OrEmpty(ws[j].kanji) && o.wordId == WordId(ws[j]);
    v := o.variant;
  }

  /** The kana table answers a kana form of an entry with the id of an entry that has it. */
  lemma KanaOwner(db: SimpleDb, ws: seq<Entry>, stringify: Entry -> string, text: string)
    returns (id: int, j: nat, v: KanaVariant)
    requires Loaded(db, ws, stringify) && IsKanaForm(ws, text)
    ensures FetchKana(AsDictionary(db), text) == Some(id)
    ensures j < |ws| && WordId(ws[j]) == id && v in OrEmpty(ws[j].kana) && v.text == text
  {
    LoadedKanaTexts(db, ws, stringify, text);
    id := FetchKana(AsDictionary(db), text).value;
    var k :| 0 <= k < |db.kana| && db.kana[k].text == text && db.kana[k].wordId == id;
    var o := AllKana(ws)[k];
    AllKanaMembers(ws, o);
    j :| 0 <= j < |ws| && o.variant in OrEmpty(ws[j].kana) && o.wordId == WordId(ws[j]);
    v := o.variant;
  }

  /** A kanji form of an entry resolves, through the kanji table, to the word row of an
      entry holding such a kanji form. */
  lemma {:induction false} LoadedKanjiResolves(db: SimpleDb, ws: seq<Entry>, stringify: Entry -> string, text: string)
    requires Loaded(db, ws, stringify) && AllIdsPresent(ws)
    requires IsKanjiForm(ws, text)
    ensures FetchDictionaryEntry(AsDictionary(db), text).Some?
    ensures FetchDictionaryEntry(AsDictionary(db), text).value.foundInKanji
    ensures HoldsEntry(FetchDictionaryEntry(AsDictionary(db), text).value.row, ws, stringify)
    ensures KanjiOfEntry(FetchDictionaryEntry(AsDictionary(db), text).value.row.id, ws, text)
  {
    var d := AsDictionary(db);
    var id, j, v := KanjiOwner(db, ws, stringify, text);
    FormWordRow(db, ws, stringify, id, j);
    assert GetWordId(d, text) == Some(FormHit(id, true));
    HitEntry(d, text, id, true);
    assert KanjiOfEntry(id, ws, text);
  }

  /** A kana form that is no entry's kanji form resolves, through the kana table, to the
      word row of an entry holding such a kana form. */
  lemma {:induction false} LoadedKanaResolves(db: SimpleDb, ws: seq<Entry>, stringify: Entry -> string, text: string)
    requires Loaded(db, ws, stringify) && AllIdsPresent(ws)
    requires !IsKanjiForm(ws, text)
    requires IsKanaForm(ws, text)
    ensures FetchDictionaryEntry(AsDictionary(db), text).Some?
    ensures !FetchDictionaryEntry(AsDictionary(db), text).value.foundInKanji
    ensures HoldsEntry(FetchDictionaryEntry(AsDictionary(db), text).value.row, ws, stringify)
    ensures KanaOfEntry(FetchDictionaryEntry(AsDictionary(db), text).value.row.id, ws, text)
  {
    var d := AsDictionary(db);
    LoadedKanjiTexts(db, ws, stringify, text);
    var id, j, v := KanaOwner(db, ws, stringify, text);
    FormWordRow(db, ws, stringify, id, j);
    assert GetWordId(d, text) == Some(FormHit(id, false));
    HitEntry(d, text, id, false);
    assert KanaOfEntry(id, ws, text);
  }

  /** A text that is no form of any entry resolves to nothing. */
  lemma {:induction false} LoadedUnknownText(db: SimpleDb, ws: seq<Entry>, stringify: Entry -> string, text: string)
    requires Loaded(db, ws, stringify)
    requires !IsKanjiForm(ws, text)
    requires !IsKanaForm(ws, text)
    ensures FetchDictionaryEntry(AsDictionary(db), text).None?
  {
    LoadedKanjiTexts(db, ws, stringify, text);
    LoadedKanaTexts(db, ws, stringify, text);
  }
}
