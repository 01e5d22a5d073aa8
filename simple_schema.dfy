/** The simple dictionary store written by jmdictToSQLite.js and jmdictToSQLite.ts, the
    one the resolvers read: `word(id, content)`, `kanji` and `kana` form rows, and the
    text indexes. The entry loop they share is modelled once, here. */
module SimpleSchema {
  import opened Options
  import opened Schema
  import opened Jmdict

  /** The indexes `idx_kanji_text` and `idx_kana_text`. */
  datatype Index = KanjiTextIndex | KanaTextIndex

  class SimpleDb {
    var word: seq<WordRow>
    var kanji: seq<FormRow>
    var kana: seq<FormRow>
    var indexes: set<Index>

    /** Opens a new store file and creates the three tables, empty, with `indexes`. */
    constructor (indexes: set<Index>)
      ensures word == [] && kanji == [] && kana == [] && this.indexes == indexes
    {
      word, kanji, kana := [], [], [];
      this.indexes := indexes;
    }

    /** Every generated id in the store. */
    function AllIds(): seq<Uuid>
      reads this`kanji, this`kana
    {
      FormIds(kanji) + FormIds(kana)
    }
  }

  function FormIds(rows: seq<FormRow>): (r: seq<Uuid>)
    ensures |r| == |rows| && forall k :: 0 <= k < |rows| ==> r[k] == rows[k].id
  {
    seq(|rows|, k requires 0 <= k < |rows| => rows[k].id)
  }

  /** The `word` rows: one per entry whose id is not 0, holding the serialized entry. */
  function WordRows(ws: seq<Entry>, stringify: Entry -> string): seq<WordRow> {
    if ws == [] then []
    else WordRows(ws[..|ws| - 1], stringify)
         + (if WordId(ws[|ws| - 1]) != 0 then [WordRow(WordId(ws[|ws| - 1]), stringify(ws[|ws| - 1]))] else [])
  }

  /** Row k of the kanji table is kanji variant k: its text and its owner's word id. */
  predicate KanjiFormsOf(rows: seq<FormRow>, vs: seq<Owned<KanjiVariant>>) {
    |rows| == |vs| &&
    forall k :: 0 <= k < |rows| ==> rows[k] == FormRow(rows[k].id, vs[k].variant.text, vs[k].wordId)
  }

  /** Row k of the kana table is kana variant k: its text and its owner's word id. */
  predicate KanaFormsOf(rows: seq<FormRow>, vs: seq<Owned<KanaVariant>>) {
    |rows| == |vs| &&
    forall k :: 0 <= k < |rows| ==> rows[k] == FormRow(rows[k].id, vs[k].variant.text, vs[k].wordId)
  }

  /** The rows the entries `ws` give rise to. */
  ghost predicate Loaded(db: SimpleDb, ws: seq<Entry>, stringify: Entry -> string)
    reads db`word, db`kanji, db`kana
  {
    && db.word == WordRows(ws, stringify)
    && KanjiFormsOf(db.kanji, AllKanji(ws))
    && KanaFormsOf(db.kana, AllKana(ws))
  }

  ghost predicate FreshIds(db: SimpleDb, issued: set<Uuid>, before: set<Uuid>)
    reads db`kanji, db`kana
  {
    FreshSeq(db.AllIds(), issued, before)
  }

  // ----- the `word` table -----

  /** One `word` row per converted entry, in document order, with the converted ids. */
  lemma {:induction false} WordRowsIds(ws: seq<Entry>, stringify: Entry -> string)
    ensures |WordRows(ws, stringify)| == |ConvertedIds(ws)| == Converted(ws)
    ensures forall k :: 0 <= k < |WordRows(ws, stringify)| ==> WordRows(ws, stringify)[k].id == ConvertedIds(ws)[k]
  {
    ConvertedIdsLength(ws);
    if ws != [] {
      var init := ws[..|ws| - 1];
      WordRowsIds(init, stringify);
      var rows, ids := WordRows(init, stringify), ConvertedIds(init);
      forall k | 0 <= k < |WordRows(ws, stringify)| ensures WordRows(ws, stringify)[k].id == ConvertedIds(ws)[k] {
        if k < |rows| {
          assert WordRows(ws, stringify)[k] == rows[k] && ConvertedIds(ws)[k] == ids[k];
        }
      }
    }
  }

  /** A `word` row is exactly a non-zero entry id with that entry serialized. */
  lemma {:induction false} WordRowsMembers(ws: seq<Entry>, stringify: Entry -> string, row: WordRow)
    ensures row in WordRows(ws, stringify) <==>
      row.id != 0 && exists k :: 0 <= k < |ws| && WordId(ws[k]) == row.id && row.content == stringify(ws[k])
  {
    if ws != [] {
      var init := ws[..|ws| - 1];
      var last := ws[|ws| - 1];
      WordRowsMembers(init, stringify, row);
      assert forall k :: 0 <= k < |init| ==> init[k] == ws[k];
      var tail := if WordId(last) != 0 then [WordRow(WordId(last), stringify(last))] else [];
      assert WordRows(ws, stringify) == WordRows(init, stringify) + tail;
      assert row in tail <==> WordId(last) != 0 && row == WordRow(WordId(last), stringify(last));
    }
  }

  // ----- one row at a time -----

  lemma KanjiFormsSnoc(rows: seq<FormRow>, ak: seq<Owned<KanjiVariant>>, v: KanjiVariant, wordId: int, id: Uuid)
    requires KanjiFormsOf(rows, ak)
    ensures KanjiFormsOf(rows + [FormRow(id, v.text, wordId)], ak + [Owned(v, wordId)])
    ensures FormIds(rows + [FormRow(id, v.text, wordId)]) == FormIds(rows) + [id]
  {
    var row, o := FormRow(id, v.text, wordId), Owned(v, wordId);
    forall k | 0 <= k < |rows| + 1
      ensures (rows + [row])[k] == FormRow((rows + [row])[k].id, (ak + [o])[k].variant.text, (ak + [o])[k].wordId)
    {
      if k < |rows| { assert (rows + [row])[k] == rows[k] && (ak + [o])[k] == ak[k]; }
    }
    assert forall k :: 0 <= k < |rows| ==> (rows + [row])[k] == rows[k];
  }

  lemma KanaFormsSnoc(rows: seq<FormRow>, an: seq<Owned<KanaVariant>>, v: KanaVariant, wordId: int, id: Uuid)
    requires KanaFormsOf(rows, an)
    ensures KanaFormsOf(rows + [FormRow(id, v.text, wordId)], an + [Owned(v, wordId)])
    ensures FormIds(rows + [FormRow(id, v.text, wordId)]) == FormIds(rows) + [id]
  {
    var row, o := FormRow(id, v.text, wordId), Owned(v, wordId);
    forall k | 0 <= k < |rows| + 1
      ensures (rows + [row])[k] == FormRow((rows + [row])[k].id, (an + [o])[k].variant.text, (an + [o])[k].wordId)
    {
      if k < |rows| { assert (rows + [row])[k] == rows[k] && (an + [o])[k] == an[k]; }
    }
    assert forall k :: 0 <= k < |rows| ==> (rows + [row])[k] == rows[k];
  }

  // ----- the entry loop -----

  /** The callback of `entry.kanji?.forEach`: a kanji row under a fresh id. */
  method InsertKanji(db: SimpleDb, kanji: KanjiVariant, wordId: int, supply: UuidSupply,
                     ghost ak: seq<Owned<KanjiVariant>>, ghost before: set<Uuid>)
    requires KanjiFormsOf(db.kanji, ak) && FreshIds(db, supply.Issued(), before) && before <= supply.Issued()
    modifies db`kanji, supply
    ensures KanjiFormsOf(db.kanji, ak + [Owned(kanji, wordId)])
    ensures FreshIds(db, supply.Issued(), before) && before <= supply.Issued()
    ensures old(db.kanji) <= db.kanji
  {
    ghost var issued := supply.Issued();
    ghost var rows := db.kanji;
    var kanjiId := supply.RandomUuid();
    FreshInsert(FormIds(rows), kanjiId, FormIds(db.kana), issued, before);
    KanjiFormsSnoc(rows, ak, kanji, wordId, kanjiId);
    db.kanji := db.kanji + [FormRow(kanjiId, kanji.text, wordId)];
  }

  /** The callback of `entry.kana?.forEach`: a kana row under a fresh id. */
  method InsertKana(db: SimpleDb, kana: KanaVariant, wordId: int, supply: UuidSupply,
                    ghost an: seq<Owned<KanaVariant>>, ghost before: set<Uuid>)
    requires KanaFormsOf(db.kana, an) && FreshIds(db, supply.Issued(), before) && before <= supply.Issued()
    modifies db`kana, supply
    ensures KanaFormsOf(db.kana, an + [Owned(kana, wordId)])
    ensures FreshIds(db, supply.Issued(), before) && before <= supply.Issued()
    ensures old(db.kana) <= db.kana
  {
    ghost var issued := supply.Issued();
    ghost var rows := db.kana;
    var kanaId := supply.RandomUuid();
    assert FormIds(db.kanji) + FormIds(rows) + [] == db.AllIds();
    FreshInsert(db.AllIds(), kanaId, [], issued, before);
    KanaFormsSnoc(rows, an, kana, wordId, kanaId);
    db.kana := db.kana + [FormRow(kanaId, kana.text, wordId)];
    assert db.AllIds() == FormIds(db.kanji) + FormIds(rows) + [kanaId] + [];
  }

  /** `entry.kanji?.forEach(...)`: one kanji row per variant. */
  method InsertKanjiForms(db: SimpleDb, entry: Entry, supply: UuidSupply,
                          ghost ak: seq<Owned<KanjiVariant>>, ghost before: set<Uuid>)
    requires KanjiFormsOf(db.kanji, ak) && FreshIds(db, supply.Issued(), before) && before <= supply.Issued()
    modifies db`kanji, supply
    ensures KanjiFormsOf(db.kanji, ak + OwnedKanji(entry))
    ensures FreshIds(db, supply.Issued(), before) && before <= supply.Issued()
    ensures old(db.kanji) <= db.kanji
  {
    var kanjis := OrEmpty(entry.kanji);
    var wordId := WordId(entry);
    ghost var done := ak;
    assert ak + OwnedKanji(entry)[..0] == ak;
    for j := 0 to |kanjis|
      invariant done == ak + OwnedKanji(entry)[..j]
      invariant KanjiFormsOf(db.kanji, done)
      invariant old(db.kanji) <= db.kanji
      invariant FreshIds(db, supply.Issued(), before) && before <= supply.Issued()
    {
      InsertKanji(db, kanjis[j], wordId, supply, done, before);
      PrefixSnoc(ak, OwnedKanji(entry), j);
      done := done + [Owned(kanjis[j], wordId)];
    }
    assert OwnedKanji(entry)[..|kanjis|] == OwnedKanji(entry);
  }

  /** `entry.kana?.forEach(...)`: one kana row per variant. */
  method InsertKanaForms(db: SimpleDb, entry: Entry, supply: UuidSupply,
                         ghost an: seq<Owned<KanaVariant>>, ghost before: set<Uuid>)
    requires KanaFormsOf(db.kana, an) && FreshIds(db, supply.Issued(), before) && before <= supply.Issued()
    modifies db`kana, supply
    ensures KanaFormsOf(db.kana, an + OwnedKana(entry))
    ensures FreshIds(db, supply.Issued(), before) && before <= supply.Issued()
    ensures old(db.kana) <= db.kana
  {
    var kanas := OrEmpty(entry.kana);
    var wordId := WordId(entry);
    ghost var done := an;
    assert an + OwnedKana(entry)[..0] == an;
    for j := 0 to |kanas|
      invariant done == an + OwnedKana(entry)[..j]
      invariant KanaFormsOf(db.kana, done)
      invariant old(db.kana) <= db.kana
      invariant FreshIds(db, supply.Issued(), before) && before <= supply.Issued()
    {
      InsertKana(db, kanas[j], wordId, supply, done, before);
      PrefixSnoc(an, OwnedKana(entry), j);
      done := done + [Owned(kanas[j], wordId)];
    }
    assert OwnedKana(entry)[..|kanas|] == OwnedKana(entry);
  }

  /** The callback of `words.forEach`: the entry's kanji and kana rows, then its `word`
      row holding `JSON.stringify(entry)` and the counter, both only when its id is not 0. */
  method ImportEntry(db: SimpleDb, entry: Entry, stringify: Entry -> string, supply: UuidSupply, tally: Tally,
                     ghost ws: seq<Entry>, ghost before: set<Uuid>)
    returns (next: Tally)
    requires Loaded(db, ws, stringify) && tally == Tally(Converted(ws), NotConverted(ws))
    requires FreshIds(db, supply.Issued(), before) && before <= supply.Issued()
    modifies db`word, db`kanji, db`kana, supply
    ensures Loaded(db, ws + [entry], stringify) && next == Tally(Converted(ws + [entry]), NotConverted(ws + [entry]))
    ensures FreshIds(db, supply.Issued(), before) && before <= supply.Issued()
  {
    var wordId := WordId(entry);
    assert (ws + [entry])[..|ws|] == ws;
    assert AllKanji(ws + [entry]) == AllKanji(ws) + OwnedKanji(entry);
    assert AllKana(ws + [entry]) == AllKana(ws) + OwnedKana(entry);
    InsertKanjiForms(db, entry, supply, AllKanji(ws), before);
    InsertKanaForms(db, entry, supply, AllKana(ws), before);
    if wordId != 0 {
      next := Tally(tally.converted + 1, tally.notConverted);
      db.word := db.word + [WordRow(wordId, stringify(entry))];
    } else {
      next := Tally(tally.converted, tally.notConverted + 1);
    }
  }

  /** `words.forEach(...)`: the rows of every entry in document order, and the counts. */
  method ImportEntries(db: SimpleDb, words: seq<Entry>, stringify: Entry -> string, supply: UuidSupply,
                       ghost before: set<Uuid>)
    returns (tally: Tally)
    requires Loaded(db, [], stringify) && FreshIds(db, supply.Issued(), before) && before <= supply.Issued()
    modifies db`word, db`kanji, db`kana, supply
    ensures Loaded(db, words, stringify) && tally == Tally(Converted(words), NotConverted(words))
    ensures FreshIds(db, supply.Issued(), before) && before <= supply.Issued()
  {
    tally := Tally(0, 0);
    ghost var done: seq<Entry> := [];
    for i := 0 to |words|
      invariant done == words[..i]
      invariant Loaded(db, done, stringify) && tally == Tally(Converted(done), NotConverted(done))
      invariant FreshIds(db, supply.Issued(), before) && before <= supply.Issued()
    {
      tally := ImportEntry(db, words[i], stringify, supply, tally, done, before);
      TakeSnoc(words, i);
      done := done + [words[i]];
    }
    assert words[..|words|] == words;
  }

  // ----- what a loaded store satisfies -----

  /** Some entry has a kanji form with this text. */
  predicate IsKanjiForm(ws: seq<Entry>, text: string) {
    exists j, v :: 0 <= j < |ws| && v in OrEmpty(ws[j].kanji) && v.text == text
  }

  /** Some entry has a kana form with this text. */
  predicate IsKanaForm(ws: seq<Entry>, text: string) {
    exists j, v :: 0 <= j < |ws| && v in OrEmpty(ws[j].kana) && v.text == text
  }


  /** Row counts: one `word` row per converted entry, one kanji row per kanji variant. */
  lemma LoadedCounts(db: SimpleDb, ws: seq<Entry>, stringify: Entry -> string)
    requires Loaded(db, ws, stringify)
    ensures |db.word| == Converted(ws) && |db.kanji| == KanjiCount(ws)
  {
    WordRowsIds(ws, stringify);
    AllKanjiLength(ws);
  }

  /** Every kanji row with a non-zero `word_id` has its `word` row, which holds an entry
      with that id and that kanji form. */
  lemma LoadedFormsHaveWords(db: SimpleDb, ws: seq<Entry>, stringify: Entry -> string, k: nat)
    requires Loaded(db, ws, stringify) && k < |db.kanji| && db.kanji[k].wordId != 0
    ensures exists j :: (0 <= j < |ws| && WordId(ws[j]) == db.kanji[k].wordId
                         && WordRow(db.kanji[k].wordId, stringify(ws[j])) in db.word
                         && exists v :: v in OrEmpty(ws[j].kanji) && v.text == db.kanji[k].text)
  {
    AllKanjiMembers(ws, AllKanji(ws)[k]);
    var j :| 0 <= j < |ws| && AllKanji(ws)[k].variant in OrEmpty(ws[j].kanji) && AllKanji(ws)[k].wordId == WordId(ws[j]);
    WordRowsMembers(ws, stringify, WordRow(db.kanji[k].wordId, stringify(ws[j])));
  }

  /** Every kana row with a non-zero `word_id` has its `word` row, which holds an entry
      with that id and that kana form. */
  lemma LoadedKanaFormsHaveWords(db: SimpleDb, ws: seq<Entry>, stringify: Entry -> string, k: nat)
    requires Loaded(db, ws, stringify) && k < |db.kana| && db.kana[k].wordId != 0
    ensures exists j :: (0 <= j < |ws| && WordId(ws[j]) == db.kana[k].wordId
                         && WordRow(db.kana[k].wordId, stringify(ws[j])) in db.word
                         && exists v :: v in OrEmpty(ws[j].kana) && v.text == db.kana[k].text)
  {
    AllKanaMembers(ws, AllKana(ws)[k]);
    var j :| 0 <= j < |ws| && AllKana(ws)[k].variant in OrEmpty(ws[j].kana) && AllKana(ws)[k].wordId == WordId(ws[j]);
    WordRowsMembers(ws, stringify, WordRow(db.kana[k].wordId, stringify(ws[j])));
  }

  /** The kanji table holds a row with the text of every kanji variant of every entry,
      and nothing else. */
  lemma LoadedKanjiTexts(db: SimpleDb, ws: seq<Entry>, stringify: Entry -> string, text: string)
    requires Loaded(db, ws, stringify)
    ensures (exists k :: 0 <= k < |db.kanji| && db.kanji[k].text == text) <==> IsKanjiForm(ws, text)
  {
    if IsKanjiForm(ws, text) {
      var j, v :| 0 <= j < |ws| && v in OrEmpty(ws[j].kanji) && v.text == text;
      AllKanjiMembers(ws, Owned(v, WordId(ws[j])));
      var k :| 0 <= k < |AllKanji(ws)| && AllKanji(ws)[k] == Owned(v, WordId(ws[j]));
      assert db.kanji[k].text == text;
    }
    if exists k :: 0 <= k < |db.kanji| && db.kanji[k].text == text {
      var k :| 0 <= k < |db.kanji| && db.kanji[k].text == text;
      AllKanjiMembers(ws, AllKanji(ws)[k]);
    }
  }

  /** The kana table holds a row with the text of every kana variant of every entry, and
      nothing else. */
  lemma LoadedKanaTexts(db: SimpleDb, ws: seq<Entry>, stringify: Entry -> string, text: string)
    requires Loaded(db, ws, stringify)
    ensures (exists k :: 0 <= k < |db.kana| && db.kana[k].text == text) <==> IsKanaForm(ws, text)
  {
    if IsKanaForm(ws, text) {
      var j, v :| 0 <= j < |ws| && v in OrEmpty(ws[j].kana) && v.text == text;
      AllKanaMembers(ws, Owned(v, WordId(ws[j])));
      var k :| 0 <= k < |AllKana(ws)| && AllKana(ws)[k] == Owned(v, WordId(ws[j]));
      assert db.kana[k].text == text;
    }
    if exists k :: 0 <= k < |db.kana| && db.kana[k].text == text {
      var k :| 0 <= k < |db.kana| && db.kana[k].text == text;
      AllKanaMembers(ws, AllKana(ws)[k]);
    }
  }
}
