/** The full importer of jmdictToSQLiteFull.js: checks the two paths, creates the nine
    tables, inserts one `tag` row per document tag, then walks the entries, giving every
    kanji, kana, sense and gloss row a fresh id and linking tags, parts of speech and
    glosses to it. */
module JmdictFull {
  import opened Options
  import opened Schema
  import opened Jmdict
  import opened Links
  import opened FullSchema

  /** The rows the entries `ws` give rise to: one `word` row per converted entry, and
      the form, sense and gloss rows of every entry in document order. */
  ghost predicate EntriesPart(db: FullDb, ws: seq<Entry>)
    reads db`word, db`kanji, db`kanjiTag, db`kana, db`kanaTag, db`sense, db`sensePos, db`gloss
  {
    && db.word == ConvertedIds(ws)
    && KanjiPart(db, AllKanji(ws))
    && KanaPart(db, AllKana(ws))
    && SensePart(db, AllSenses(ws))
  }

  /** The store a document is imported into: its tags and the rows of all its entries. */
  ghost predicate Imported(db: FullDb, doc: Document)
    reads db
  {
    db.tag == TagRows(OrEmpty(doc.tags)) && EntriesPart(db, OrEmpty(doc.words))
  }

  /** One `INSERT` of `(parent, value)` per value, in order (the inner `forEach` over
      `tags` or `partOfSpeech`). */
  method AppendLinks(table: seq<Link>, parent: Uuid, values: seq<string>) returns (r: seq<Link>)
    ensures r == table + LinksTo(parent, values)
  {
    r := table;
    for t := 0 to |values|
      invariant r == table + LinksTo(parent, values[..t])
    {
      assert LinksTo(parent, values[..t + 1]) == LinksTo(parent, values[..t]) + [Link(parent, values[t])];
      r := r + [Link(parent, values[t])];
    }
    assert values[..|values|] == values;
  }

  /** The callback of `entry.kanji?.forEach`: a kanji row under a fresh id, then one
      `kanji_tag` row per tag of the variant. */
  method InsertKanji(db: FullDb, kanji: KanjiVariant, wordId: int, supply: UuidSupply,
                     ghost ak: seq<Owned<KanjiVariant>>, ghost before: set<Uuid>)
    requires KanjiPart(db, ak) && FreshIds(db, supply.Issued(), before) && before <= supply.Issued()
    modifies db`kanji, db`kanjiTag, supply
    ensures KanjiPart(db, ak + [Owned(kanji, wordId)])
    ensures FreshIds(db, supply.Issued(), before) && before <= supply.Issued()
    ensures old(db.kanji) <= db.kanji && old(db.kanjiTag) <= db.kanjiTag
  {
    ghost var issued := supply.Issued();
    ghost var rows, tags := db.kanji, db.kanjiTag;
    var kanjiId := supply.RandomUuid();
    FreshAppend(KanjiIds(rows), KanaIds(db.kana), SenseIds(db.sense), GlossIds(db.gloss), kanjiId, 0, issued, before);
    KanjiTablesSnoc(rows, tags, ak, kanji, wordId, kanjiId);
    db.kanji := db.kanji + [KanjiRow(kanjiId, kanji.text, Flag(kanji.common), wordId)];
    db.kanjiTag := AppendLinks(db.kanjiTag, kanjiId, OrEmpty(kanji.tags));
    assert KanjiIds(db.kanji) == KanjiIds(rows) + [kanjiId];
  }

  /** `entry.kanji?.forEach(...)`: one kanji row per variant and one `kanji_tag` row per
      tag of it. */
  method InsertKanjiVariants(db: FullDb, entry: Entry, supply: UuidSupply,
                             ghost ak: seq<Owned<KanjiVariant>>, ghost before: set<Uuid>)
    requires KanjiPart(db, ak) && FreshIds(db, supply.Issued(), before) && before <= supply.Issued()
    modifies db`kanji, db`kanjiTag, supply
    ensures KanjiPart(db, ak + OwnedKanji(entry))
    ensures FreshIds(db, supply.Issued(), before) && before <= supply.Issued()
    ensures old(db.kanji) <= db.kanji && old(db.kanjiTag) <= db.kanjiTag
  {
    var kanjis := OrEmpty(entry.kanji);
    var wordId := WordId(entry);
    ghost var done := ak;
    assert ak + OwnedKanji(entry)[..0] == ak;
    for j := 0 to |kanjis|
      invariant done == ak + OwnedKanji(entry)[..j]
      invariant KanjiPart(db, done)
      invariant old(db.kanji) <= db.kanji && old(db.kanjiTag) <= db.kanjiTag
      invariant FreshIds(db, supply.Issued(), before) && before <= supply.Issued()
    {
      InsertKanji(db, kanjis[j], wordId, supply, done, before);
      PrefixSnoc(ak, OwnedKanji(entry), j);
      done := done + [Owned(kanjis[j], wordId)];
    }
    assert OwnedKanji(entry)[..|kanjis|] == OwnedKanji(entry);
  }

  /** The callback of `entry.kana?.forEach`: a kana row under a fresh id, then one
      `kana_tag` row per tag of the variant. */
  method InsertKana(db: FullDb, kana: KanaVariant, wordId: int, supply: UuidSupply,
                    ghost an: seq<Owned<KanaVariant>>, ghost before: set<Uuid>)
    requires KanaPart(db, an) && FreshIds(db, supply.Issued(), before) && before <= supply.Issued()
    modifies db`kana, db`kanaTag, supply
    ensures KanaPart(db, an + [Owned(kana, wordId)])
    ensures FreshIds(db, supply.Issued(), before) && before <= supply.Issued()
    ensures old(db.kana) <= db.kana && old(db.kanaTag) <= db.kanaTag
  {
    ghost var issued := supply.Issued();
    ghost var rows, tags := db.kana, db.kanaTag;
    var kanaId := supply.RandomUuid();
    FreshAppend(KanjiIds(db.kanji), KanaIds(rows), SenseIds(db.sense), GlossIds(db.gloss), kanaId, 1, issued, before);
    KanaTablesSnoc(rows, tags, an, kana, wordId, kanaId);
    db.kana := db.kana + [KanaRow(kanaId, kana.text, Flag(kana.common), Join(kana.appliesToKanji), wordId)];
    db.kanaTag := AppendLinks(db.kanaTag, kanaId, OrEmpty(kana.tags));
    assert KanaIds(db.kana) == KanaIds(rows) + [kanaId];
  }

  /** `entry.kana?.forEach(...)`: one kana row per variant and one `kana_tag` row per tag
      of it. */
  method InsertKanaVariants(db: FullDb, entry: Entry, supply: UuidSupply,
                            ghost an: seq<Owned<KanaVariant>>, ghost before: set<Uuid>)
    requires KanaPart(db, an) && FreshIds(db, supply.Issued(), before) && before <= supply.Issued()
    modifies db`kana, db`kanaTag, supply
    ensures KanaPart(db, an + OwnedKana(entry))
    ensures FreshIds(db, supply.Issued(), before) && before <= supply.Issued()
    ensures old(db.kana) <= db.kana && old(db.kanaTag) <= db.kanaTag
  {
    var kanas := OrEmpty(entry.kana);
    var wordId := WordId(entry);
    ghost var done := an;
    assert an + OwnedKana(entry)[..0] == an;
    for j := 0 to |kanas|
      invariant done == an + OwnedKana(entry)[..j]
      invariant KanaPart(db, done)
      invariant old(db.kana) <= db.kana && old(db.kanaTag) <= db.kanaTag
      invariant FreshIds(db, supply.Issued(), before) && before <= supply.Issued()
    {
      InsertKana(db, kanas[j], wordId, supply, done, before);
      PrefixSnoc(an, OwnedKana(entry), j);
      done := done + [Owned(kanas[j], wordId)];
    }
    assert OwnedKana(entry)[..|kanas|] == OwnedKana(entry);
  }

  /** The callback of `sense?.gloss?.forEach`: a gloss row under a fresh id, pointing at
      the sense. */
  method InsertGloss(db: FullDb, senseId: Uuid, term: Gloss, supply: UuidSupply, ghost before: set<Uuid>)
    requires FreshIds(db, supply.Issued(), before) && before <= supply.Issued()
    modifies db`gloss, supply
    ensures GlossLinks(db.gloss) == old(GlossLinks(db.gloss)) + [Link(senseId, term.text)]
    ensures FreshIds(db, supply.Issued(), before) && before <= supply.Issued()
    ensures old(db.gloss) <= db.gloss
  {
    ghost var issued := supply.Issued();
    ghost var glosses := db.gloss;
    var glossId := supply.RandomUuid();
    FreshAppend(KanjiIds(db.kanji), KanaIds(db.kana), SenseIds(db.sense), GlossIds(glosses), glossId, 3, issued, before);
    db.gloss := db.gloss + [GlossRow(glossId, term.text, senseId)];
    assert GlossIds(db.gloss) == GlossIds(glosses) + [glossId];
    assert GlossLinks(db.gloss) == GlossLinks(glosses) + [Link(senseId, term.text)];
  }

  /** `sense?.gloss?.forEach(...)`: one gloss row per term, in order. */
  method InsertGlosses(db: FullDb, senseId: Uuid, terms: seq<Gloss>, supply: UuidSupply, ghost before: set<Uuid>)
    requires FreshIds(db, supply.Issued(), before) && before <= supply.Issued()
    modifies db`gloss, supply
    ensures GlossLinks(db.gloss) == old(GlossLinks(db.gloss)) + LinksTo(senseId, GlossTexts(terms))
    ensures FreshIds(db, supply.Issued(), before) && before <= supply.Issued()
    ensures old(db.gloss) <= db.gloss
  {
    for t := 0 to |terms|
      invariant GlossLinks(db.gloss) == old(GlossLinks(db.gloss)) + LinksTo(senseId, GlossTexts(terms)[..t])
      invariant old(db.gloss) <= db.gloss
      invariant FreshIds(db, supply.Issued(), before) && before <= supply.Issued()
    {
      InsertGloss(db, senseId, terms[t], supply, before);
      assert LinksTo(senseId, GlossTexts(terms)[..t + 1]) == LinksTo(senseId, GlossTexts(terms)[..t]) + [Link(senseId, terms[t].text)];
    }
    assert GlossTexts(terms)[..|terms|] == GlossTexts(terms);
  }

  /** The callback of `entry.sense?.forEach`: a sense row under a fresh id, one
      `sense_pos` row per part of speech, then the glosses. */
  method InsertSense(db: FullDb, sense: Sense, wordId: int, supply: UuidSupply,
                     ghost ss: seq<Owned<Sense>>, ghost before: set<Uuid>)
    requires SensePart(db, ss) && FreshIds(db, supply.Issued(), before) && before <= supply.Issued()
    modifies db`sense, db`sensePos, db`gloss, supply
    ensures SensePart(db, ss + [Owned(sense, wordId)])
    ensures FreshIds(db, supply.Issued(), before) && before <= supply.Issued()
    ensures old(db.sense) <= db.sense && old(db.sensePos) <= db.sensePos && old(db.gloss) <= db.gloss
  {
    ghost var issued := supply.Issued();
    ghost var rows, pos, glosses := db.sense, db.sensePos, GlossLinks(db.gloss);
    var senseId := supply.RandomUuid();
    FreshAppend(KanjiIds(db.kanji), KanaIds(db.kana), SenseIds(rows), GlossIds(db.gloss), senseId, 2, issued, before);
    SenseTablesSnoc(rows, pos, glosses, ss, sense, wordId, senseId);
    db.sense := db.sense + [SenseRow(senseId, Join(sense.appliesToKanji), Join(sense.appliesToKana), wordId)];
    assert SenseIds(db.sense) == SenseIds(rows) + [senseId];
    db.sensePos := AppendLinks(db.sensePos, senseId, OrEmpty(sense.partOfSpeech));
    InsertGlosses(db, senseId, OrEmpty(sense.gloss), supply, before);
  }

  /** `entry.sense?.forEach(...)`: one sense row per sense block, with its parts of speech
      and glosses. */
  method InsertSenses(db: FullDb, entry: Entry, supply: UuidSupply,
                      ghost ss: seq<Owned<Sense>>, ghost before: set<Uuid>)
    requires SensePart(db, ss) && FreshIds(db, supply.Issued(), before) && before <= supply.Issued()
    modifies db`sense, db`sensePos, db`gloss, supply
    ensures SensePart(db, ss + OwnedSenses(entry))
    ensures FreshIds(db, supply.Issued(), before) && before <= supply.Issued()
    ensures old(db.sense) <= db.sense && old(db.sensePos) <= db.sensePos && old(db.gloss) <= db.gloss
  {
    var senses := OrEmpty(entry.sense);
    var wordId := WordId(entry);
    ghost var done := ss;
    assert ss + OwnedSenses(entry)[..0] == ss;
    for j := 0 to |senses|
      invariant done == ss + OwnedSenses(entry)[..j]
      invariant SensePart(db, done)
      invariant Extends(old(db.sense), db.sense) && Extends(old(db.sensePos), db.sensePos) && Extends(old(db.gloss), db.gloss)
      invariant FreshIds(db, supply.Issued(), before) && before <= supply.Issued()
    {
      ghost var s1, p1, g1 := db.sense, db.sensePos, db.gloss;
      InsertSense(db, senses[j], wordId, supply, done, before);
      ExtendsTrans(old(db.sense), s1, db.sense);
      ExtendsTrans(old(db.sensePos), p1, db.sensePos);
      ExtendsTrans(old(db.gloss), g1, db.gloss);
      PrefixSnoc(ss, OwnedSenses(entry), j);
      done := done + [Owned(senses[j], wordId)];
    }
    assert OwnedSenses(entry)[..|senses|] == OwnedSenses(entry);
  }

  /** `for (const [key, value] of Object.entries(tags))`: one `tag` row per pair. */
  method InsertTags(db: FullDb, tags: seq<(string, string)>)
    modifies db`tag
    ensures db.tag == old(db.tag) + TagRows(tags)
  {
    for k := 0 to |tags|
      invariant db.tag == old(db.tag) + TagRows(tags[..k])
    {
      assert TagRows(tags[..k + 1]) == TagRows(tags[..k]) + [TagRow(tags[k].0, tags[k].1)];
      db.tag := db.tag + [TagRow(tags[k].0, tags[k].1)];
    }
    assert tags[..|tags|] == tags;
  }

  /** The first two statements of the `words.forEach` callback: the entry's kanji rows,
      then its kana rows. */
  method InsertFormRows(db: FullDb, entry: Entry, supply: UuidSupply,
                        ghost ws: seq<Entry>, ghost before: set<Uuid>)
    requires KanjiPart(db, AllKanji(ws)) && KanaPart(db, AllKana(ws))
    requires FreshIds(db, supply.Issued(), before) && before <= supply.Issued()
    modifies db`kanji, db`kanjiTag, db`kana, db`kanaTag, supply
    ensures KanjiPart(db, AllKanji(ws) + OwnedKanji(entry)) && KanaPart(db, AllKana(ws) + OwnedKana(entry))
    ensures FreshIds(db, supply.Issued(), before) && before <= supply.Issued()
  {
    InsertKanjiVariants(db, entry, supply, AllKanji(ws), before);
    InsertKanaVariants(db, entry, supply, AllKana(ws), before);
  }

  /** The first three statements of the `words.forEach` callback: the entry's kanji,
      kana and sense rows, appended to those of the entries before it. */
  method InsertEntryRows(db: FullDb, entry: Entry, supply: UuidSupply,
                         ghost ws: seq<Entry>, ghost before: set<Uuid>)
    requires KanjiPart(db, AllKanji(ws)) && KanaPart(db, AllKana(ws)) && SensePart(db, AllSenses(ws))
    requires FreshIds(db, supply.Issued(), before) && before <= supply.Issued()
    modifies db`kanji, db`kanjiTag, db`kana, db`kanaTag, db`sense, db`sensePos, db`gloss, supply
    ensures KanjiPart(db, AllKanji(ws) + OwnedKanji(entry)) && KanaPart(db, AllKana(ws) + OwnedKana(entry))
    ensures SensePart(db, AllSenses(ws) + OwnedSenses(entry))
    ensures FreshIds(db, supply.Issued(), before) && before <= supply.Issued()
  {
    InsertFormRows(db, entry, supply, ws, before);
    InsertSenses(db, entry, supply, AllSenses(ws), before);
  }

  /** The callback of `words.forEach`: the entry's kanji, kana and sense rows, then its
      `word` row and the counter, both only when its id is not 0. */
  method ImportEntry(db: FullDb, entry: Entry, supply: UuidSupply, tally: Tally,
                     ghost ws: seq<Entry>, ghost before: set<Uuid>)
    returns (next: Tally)
    requires EntriesPart(db, ws) && tally == Tally(Converted(ws), NotConverted(ws))
    requires FreshIds(db, supply.Issued(), before) && before <= supply.Issued()
    modifies db`word, db`kanji, db`kanjiTag, db`kana, db`kanaTag, db`sense, db`sensePos, db`gloss, supply
    ensures EntriesPart(db, ws + [entry]) && next == Tally(Converted(ws + [entry]), NotConverted(ws + [entry]))
    ensures FreshIds(db, supply.Issued(), before) && before <= supply.Issued()
  {
    var wordId := WordId(entry);
    InsertEntryRows(db, entry, supply, ws, before);
    EntriesSnoc(ws, entry);
    if wordId != 0 {
      next := Tally(tally.converted + 1, tally.notConverted);
      db.word := db.word + [wordId];
    } else {
      next := Tally(tally.converted, tally.notConverted + 1);
    }
  }

  /** `words.forEach(...)`: the rows of every entry in document order, and the counts. */
  method ImportEntries(db: FullDb, words: seq<Entry>, supply: UuidSupply, ghost before: set<Uuid>)
    returns (tally: Tally)
    requires EntriesPart(db, []) && FreshIds(db, supply.Issued(), before) && before <= supply.Issued()
    modifies db`word, db`kanji, db`kanjiTag, db`kana, db`kanaTag, db`sense, db`sensePos, db`gloss, supply
    ensures EntriesPart(db, words) && tally == Tally(Converted(words), NotConverted(words))
    ensures FreshIds(db, supply.Issued(), before) && before <= supply.Issued()
  {
    tally := Tally(0, 0);
    ghost var done: seq<Entry> := [];
    for i := 0 to |words|
      invariant done == words[..i]
      invariant EntriesPart(db, done) && tally == Tally(Converted(done), NotConverted(done))
      invariant FreshIds(db, supply.Issued(), before) && before <= supply.Issued()
    {
      tally := ImportEntry(db, words[i], supply, tally, done, before);
      TakeSnoc(words, i);
      done := done + [words[i]];
    }
    assert words[..|words|] == words;
  }

  /** `jmdictToSQLite(input, output)`: refuses a missing input and an existing output
      before opening anything; otherwise builds the store from the parsed document and
      reports how many entries had a non-zero id. The file checks are the booleans
      `inputExists` and `outputExists`, the parsed file is `doc`. */
  method JmdictToSQLite(inputExists: bool, outputExists: bool, doc: Document, supply: UuidSupply)
    returns (r: Result<Tally, BuildError>, db: FullDb?)
    modifies supply
    ensures !inputExists ==> r == Failure(InputNotFound) && db == null
    ensures inputExists && outputExists ==> r == Failure(OutputExists) && db == null
    ensures r.Failure? ==> supply.Issued() == old(supply.Issued())
    ensures inputExists && !outputExists ==>
      && r == Success(Tally(Converted(OrEmpty(doc.words)), NotConverted(OrEmpty(doc.words))))
      && db != null && fresh(db) && Imported(db, doc)
      && FreshIds(db, supply.Issued(), old(supply.Issued()))
  {
    if !inputExists {
      return Failure(InputNotFound), null;
    }
    if outputExists {
      return Failure(OutputExists), null;
    }
    db := new FullDb();
    var tags := OrEmpty(doc.tags);
    var words := OrEmpty(doc.words);
    InsertTags(db, tags);
    assert TagRows(tags) == [] + TagRows(tags);
    var tally := ImportEntries(db, words, supply, supply.Issued());
    return Success(tally), db;
  }

  // ---------------------------------------------------------------------------
  // What an imported store satisfies
  // ---------------------------------------------------------------------------

  /** `word` holds exactly the non-zero entry ids, one row per converted entry. */
  lemma ImportedWords(db: FullDb, doc: Document, id: int)
    requires Imported(db, doc)
    ensures |db.word| == Converted(OrEmpty(doc.words))
    ensures id in db.word <==> id != 0 && exists k :: 0 <= k < |OrEmpty(doc.words)| && WordId(OrEmpty(doc.words)[k]) == id
  {
    ConvertedIdsLength(OrEmpty(doc.words));
    ConvertedIdsMembers(OrEmpty(doc.words), id);
  }

  /** Row counts: one kanji row per kanji variant, one junction row per tag, part of
      speech or gloss. */
  lemma ImportedCounts(db: FullDb, doc: Document)
    requires Imported(db, doc)
    ensures |db.tag| == |OrEmpty(doc.tags)|
    ensures |db.kanji| == KanjiCount(OrEmpty(doc.words))
    ensures |db.kanjiTag| == Total(KanjiTagLists(AllKanji(OrEmpty(doc.words))))
    ensures |db.kanaTag| == Total(KanaTagLists(AllKana(OrEmpty(doc.words))))
    ensures |db.sensePos| == Total(PosLists(AllSenses(OrEmpty(doc.words))))
    ensures |db.gloss| == Total(GlossTextLists(AllSenses(OrEmpty(doc.words))))
  {
    var ws := OrEmpty(doc.words);
    AllKanjiLength(ws);
    FanOutLength(KanjiTagLists(AllKanji(ws)), KanjiIds(db.kanji));
    FanOutLength(KanaTagLists(AllKana(ws)), KanaIds(db.kana));
    FanOutLength(PosLists(AllSenses(ws)), SenseIds(db.sense));
    FanOutLength(GlossTextLists(AllSenses(ws)), SenseIds(db.sense));
  }

  /** A form or sense row with a non-zero `word_id` refers to a `word` row (rows of
      entries without an id carry 0, which no `word` row has). */
  lemma ImportedRowsReferenceWords(db: FullDb, doc: Document)
    requires Imported(db, doc)
    ensures forall r :: r in db.kanji && r.wordId != 0 ==> r.wordId in db.word
    ensures forall r :: r in db.kana && r.wordId != 0 ==> r.wordId in db.word
    ensures forall r :: r in db.sense && r.wordId != 0 ==> r.wordId in db.word
    ensures 0 !in db.word
  {
    var ws := OrEmpty(doc.words);
    ConvertedIdsMembers(ws, 0);
    forall r | r in db.kanji && r.wordId != 0 ensures r.wordId in db.word {
      var k :| 0 <= k < |db.kanji| && db.kanji[k] == r;
      AllKanjiMembers(ws, AllKanji(ws)[k]);
      ConvertedIdsMembers(ws, r.wordId);
    }
    forall r | r in db.kana && r.wordId != 0 ensures r.wordId in db.word {
      var k :| 0 <= k < |db.kana| && db.kana[k] == r;
      AllKanaMembers(ws, AllKana(ws)[k]);
      ConvertedIdsMembers(ws, r.wordId);
    }
    forall r | r in db.sense && r.wordId != 0 ensures r.wordId in db.word {
      var k :| 0 <= k < |db.sense| && db.sense[k] == r;
      AllSensesOwners(ws, AllSenses(ws)[k]);
      ConvertedIdsMembers(ws, r.wordId);
    }
  }

  /** With fresh ids, the `kanji_tag` rows of kanji row k are the tags of the k-th kanji
      variant of the document, in order, and no others. */
  lemma ImportedKanjiTags(db: FullDb, doc: Document, k: nat)
    requires Imported(db, doc) && Distinct(db.AllIds()) && k < |db.kanji|
    ensures db.kanji[k].text == AllKanji(OrEmpty(doc.words))[k].variant.text
    ensures LinksOf(db.kanjiTag, db.kanji[k].id) ==
      LinksTo(db.kanji[k].id, OrEmpty(AllKanji(OrEmpty(doc.words))[k].variant.tags))
  {
    DistinctTables(db);
    LinksOfRow(KanjiTagLists(AllKanji(OrEmpty(doc.words))), KanjiIds(db.kanji), k);
  }

  /** With fresh ids, the `kana_tag` rows of kana row k are the tags of the k-th kana
      variant of the document, in order, and no others. */
  lemma ImportedKanaTags(db: FullDb, doc: Document, k: nat)
    requires Imported(db, doc) && Distinct(db.AllIds()) && k < |db.kana|
    ensures db.kana[k].text == AllKana(OrEmpty(doc.words))[k].variant.text
    ensures LinksOf(db.kanaTag, db.kana[k].id) ==
      LinksTo(db.kana[k].id, OrEmpty(AllKana(OrEmpty(doc.words))[k].variant.tags))
  {
    DistinctTables(db);
    LinksOfRow(KanaTagLists(AllKana(OrEmpty(doc.words))), KanaIds(db.kana), k);
  }

  /** With fresh ids, the `sense_pos` rows of sense row k are the parts of speech of the
      k-th sense block, and its gloss rows are that block's glosses, both in order. */
  lemma ImportedSenses(db: FullDb, doc: Document, k: nat)
    requires Imported(db, doc) && Distinct(db.AllIds()) && k < |db.sense|
    ensures LinksOf(db.sensePos, db.sense[k].id) ==
      LinksTo(db.sense[k].id, OrEmpty(AllSenses(OrEmpty(doc.words))[k].variant.partOfSpeech))
    ensures LinksOf(GlossLinks(db.gloss), db.sense[k].id) ==
      LinksTo(db.sense[k].id, GlossTexts(OrEmpty(AllSenses(OrEmpty(doc.words))[k].variant.gloss)))
  {
    DistinctTables(db);
    LinksOfRow(PosLists(AllSenses(OrEmpty(doc.words))), SenseIds(db.sense), k);
    GlossesOfSense(db, AllSenses(OrEmpty(doc.words)), k);
  }
}
