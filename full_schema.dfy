/** The full dictionary store written by jmdictToSQLiteFull.js: nine tables, the form,
    sense and gloss rows keyed by generated ids, and three junction tables. The
    predicates below say which rows a list of document variants gives rise to. */
module FullSchema {
  import opened Options
  import opened Schema
  import opened Jmdict
  import opened Links

  datatype TagRow = TagRow(id: string, text: string)
  datatype KanjiRow = KanjiRow(id: Uuid, text: string, common: int, wordId: int)
  datatype KanaRow = KanaRow(id: Uuid, text: string, common: int, appliesToKanji: string, wordId: int)
  datatype SenseRow = SenseRow(id: Uuid, appliesToKanji: string, appliesToKana: string, wordId: int)
  datatype GlossRow = GlossRow(id: Uuid, text: string, senseId: Uuid)

  /** The store. `word` holds the ids of the `word(id)` rows; the junction tables hold
      `(kanji_id, tag_id)`, `(kana_id, tag_id)` and `(sense_id, tag_id)` rows. */
  class FullDb {
    var tag: seq<TagRow>
    var word: seq<int>
    var kanji: seq<KanjiRow>
    var kana: seq<KanaRow>
    var sense: seq<SenseRow>
    var gloss: seq<GlossRow>
    var kanjiTag: seq<Link>
    var kanaTag: seq<Link>
    var sensePos: seq<Link>

    /** Opens a new store file and creates its nine tables, all empty. */
    constructor ()
      ensures tag == [] && word == [] && kanji == [] && kana == [] && sense == [] && gloss == []
      ensures kanjiTag == [] && kanaTag == [] && sensePos == []
    {
      tag, word, kanji, kana, sense, gloss := [], [], [], [], [], [];
      kanjiTag, kanaTag, sensePos := [], [], [];
    }

    /** Every generated id in the store: kanji, kana, sense and gloss rows. */
    function AllIds(): seq<Uuid>
      reads this`kanji, this`kana, this`sense, this`gloss
    {
      KanjiIds(kanji) + KanaIds(kana) + SenseIds(sense) + GlossIds(gloss)
    }
  }

  function KanjiIds(rows: seq<KanjiRow>): (r: seq<Uuid>)
    ensures |r| == |rows| && forall k :: 0 <= k < |rows| ==> r[k] == rows[k].id
  {
    seq(|rows|, k requires 0 <= k < |rows| => rows[k].id)
  }

  function KanaIds(rows: seq<KanaRow>): (r: seq<Uuid>)
    ensures |r| == |rows| && forall k :: 0 <= k < |rows| ==> r[k] == rows[k].id
  {
    seq(|rows|, k requires 0 <= k < |rows| => rows[k].id)
  }

  function SenseIds(rows: seq<SenseRow>): (r: seq<Uuid>)
    ensures |r| == |rows| && forall k :: 0 <= k < |rows| ==> r[k] == rows[k].id
  {
    seq(|rows|, k requires 0 <= k < |rows| => rows[k].id)
  }

  function GlossIds(rows: seq<GlossRow>): (r: seq<Uuid>)
    ensures |r| == |rows| && forall k :: 0 <= k < |rows| ==> r[k] == rows[k].id
  {
    seq(|rows|, k requires 0 <= k < |rows| => rows[k].id)
  }

  /** The `(sense_id, text)` part of the gloss rows. */
  function GlossLinks(rows: seq<GlossRow>): (r: seq<Link>)
    ensures |r| == |rows| && forall k :: 0 <= k < |rows| ==> r[k] == Link(rows[k].senseId, rows[k].text)
  {
    seq(|rows|, k requires 0 <= k < |rows| => Link(rows[k].senseId, rows[k].text))
  }

  // ----- which rows the variants give rise to -----

  /** Row k of the kanji table is kanji variant k: its text, `common ? 1 : 0` and its
      owner's word id, under a generated id. */
  predicate KanjiRowsOf(rows: seq<KanjiRow>, vs: seq<Owned<KanjiVariant>>) {
    |rows| == |vs| &&
    forall k :: 0 <= k < |rows| ==>
      rows[k] == KanjiRow(rows[k].id, vs[k].variant.text, Flag(vs[k].variant.common), vs[k].wordId)
  }

  /** Row k of the kana table is kana variant k, with `appliesToKanji.join("")`. */
  predicate KanaRowsOf(rows: seq<KanaRow>, vs: seq<Owned<KanaVariant>>) {
    |rows| == |vs| &&
    forall k :: 0 <= k < |rows| ==>
      rows[k] == KanaRow(rows[k].id, vs[k].variant.text, Flag(vs[k].variant.common),
                         Join(vs[k].variant.appliesToKanji), vs[k].wordId)
  }

  /** Row k of the sense table is sense block k. */
  predicate SenseRowsOf(rows: seq<SenseRow>, ss: seq<Owned<Sense>>) {
    |rows| == |ss| &&
    forall k :: 0 <= k < |rows| ==>
      rows[k] == SenseRow(rows[k].id, Join(ss[k].variant.appliesToKanji), Join(ss[k].variant.appliesToKana), ss[k].wordId)
  }

  function KanjiTagLists(vs: seq<Owned<KanjiVariant>>): (r: seq<seq<string>>)
    ensures |r| == |vs| && forall k :: 0 <= k < |vs| ==> r[k] == OrEmpty(vs[k].variant.tags)
  {
    seq(|vs|, k requires 0 <= k < |vs| => OrEmpty(vs[k].variant.tags))
  }

  function KanaTagLists(vs: seq<Owned<KanaVariant>>): (r: seq<seq<string>>)
    ensures |r| == |vs| && forall k :: 0 <= k < |vs| ==> r[k] == OrEmpty(vs[k].variant.tags)
  {
    seq(|vs|, k requires 0 <= k < |vs| => OrEmpty(vs[k].variant.tags))
  }

  function PosLists(ss: seq<Owned<Sense>>): (r: seq<seq<string>>)
    ensures |r| == |ss| && forall k :: 0 <= k < |ss| ==> r[k] == OrEmpty(ss[k].variant.partOfSpeech)
  {
    seq(|ss|, k requires 0 <= k < |ss| => OrEmpty(ss[k].variant.partOfSpeech))
  }

  function GlossTexts(gs: seq<Gloss>): (r: seq<string>)
    ensures |r| == |gs| && forall t :: 0 <= t < |gs| ==> r[t] == gs[t].text
  {
    seq(|gs|, t requires 0 <= t < |gs| => gs[t].text)
  }

  function GlossTextLists(ss: seq<Owned<Sense>>): (r: seq<seq<string>>)
    ensures |r| == |ss| && forall k :: 0 <= k < |ss| ==> r[k] == GlossTexts(OrEmpty(ss[k].variant.gloss))
  {
    seq(|ss|, k requires 0 <= k < |ss| => GlossTexts(OrEmpty(ss[k].variant.gloss)))
  }

  /** The `tag` rows: one per key/value pair, in order. */
  function TagRows(pairs: seq<(string, string)>): (r: seq<TagRow>)
    ensures |r| == |pairs|
    ensures forall k :: 0 <= k < |pairs| ==> r[k] == TagRow(pairs[k].0, pairs[k].1)
  {
    seq(|pairs|, k requires 0 <= k < |pairs| => TagRow(pairs[k].0, pairs[k].1))
  }

  /** The kanji rows and their tag rows are those of the kanji variants `ak`. */
  predicate KanjiTables(rows: seq<KanjiRow>, tags: seq<Link>, ak: seq<Owned<KanjiVariant>>) {
    KanjiRowsOf(rows, ak) && tags == FanOut(KanjiTagLists(ak), KanjiIds(rows))
  }

  /** The kana rows and their tag rows are those of the kana variants `an`. */
  predicate KanaTables(rows: seq<KanaRow>, tags: seq<Link>, an: seq<Owned<KanaVariant>>) {
    KanaRowsOf(rows, an) && tags == FanOut(KanaTagLists(an), KanaIds(rows))
  }

  /** The sense rows, their part-of-speech rows and the gloss rows (as `(sense_id, text)`)
      are those of the sense blocks `ss`. */
  predicate SenseTables(rows: seq<SenseRow>, pos: seq<Link>, glosses: seq<Link>, ss: seq<Owned<Sense>>) {
    && SenseRowsOf(rows, ss)
    && pos == FanOut(PosLists(ss), SenseIds(rows))
    && glosses == FanOut(GlossTextLists(ss), SenseIds(rows))
  }

  ghost predicate KanjiPart(db: FullDb, ak: seq<Owned<KanjiVariant>>)
    reads db`kanji, db`kanjiTag
  {
    KanjiTables(db.kanji, db.kanjiTag, ak)
  }

  ghost predicate KanaPart(db: FullDb, an: seq<Owned<KanaVariant>>)
    reads db`kana, db`kanaTag
  {
    KanaTables(db.kana, db.kanaTag, an)
  }

  ghost predicate SensePart(db: FullDb, ss: seq<Owned<Sense>>)
    reads db`sense, db`sensePos, db`gloss
  {
    SenseTables(db.sense, db.sensePos, GlossLinks(db.gloss), ss)
  }

  ghost predicate FreshIds(db: FullDb, issued: set<Uuid>, before: set<Uuid>)
    reads db`kanji, db`kana, db`sense, db`gloss
  {
    FreshSeq(db.AllIds(), issued, before)
  }

  // ----- one variant at a time -----

  /** Inserting the row of one more kanji variant, then its tag rows, keeps the tables
      those of the variants so far. */
  lemma KanjiTablesSnoc(rows: seq<KanjiRow>, tags: seq<Link>, ak: seq<Owned<KanjiVariant>>,
                        v: KanjiVariant, wordId: int, id: Uuid)
    requires KanjiTables(rows, tags, ak)
    ensures KanjiTables(rows + [KanjiRow(id, v.text, Flag(v.common), wordId)],
                        tags + LinksTo(id, OrEmpty(v.tags)), ak + [Owned(v, wordId)])
  {
    var row, o := KanjiRow(id, v.text, Flag(v.common), wordId), Owned(v, wordId);
    forall k | 0 <= k < |rows| + 1
      ensures (rows + [row])[k] == KanjiRow((rows + [row])[k].id, (ak + [o])[k].variant.text,
                                             Flag((ak + [o])[k].variant.common), (ak + [o])[k].wordId)
    {
      if k < |rows| { assert (rows + [row])[k] == rows[k] && (ak + [o])[k] == ak[k]; }
    }
    IdsSnoc(rows, row);
    TagListsSnoc(KanjiTagLists(ak), KanjiTagLists(ak + [o]), OrEmpty(v.tags));
    FanOutSnoc(KanjiTagLists(ak), KanjiIds(rows), OrEmpty(v.tags), id);
  }

  lemma KanaTablesSnoc(rows: seq<KanaRow>, tags: seq<Link>, an: seq<Owned<KanaVariant>>,
                       v: KanaVariant, wordId: int, id: Uuid)
    requires KanaTables(rows, tags, an)
    ensures KanaTables(rows + [KanaRow(id, v.text, Flag(v.common), Join(v.appliesToKanji), wordId)],
                       tags + LinksTo(id, OrEmpty(v.tags)), an + [Owned(v, wordId)])
  {
    var row, o := KanaRow(id, v.text, Flag(v.common), Join(v.appliesToKanji), wordId), Owned(v, wordId);
    forall k | 0 <= k < |rows| + 1
      ensures (rows + [row])[k] == KanaRow((rows + [row])[k].id, (an + [o])[k].variant.text,
                                           Flag((an + [o])[k].variant.common),
                                           Join((an + [o])[k].variant.appliesToKanji), (an + [o])[k].wordId)
    {
      if k < |rows| { assert (rows + [row])[k] == rows[k] && (an + [o])[k] == an[k]; }
    }
    KanaIdsSnoc(rows, row);
    TagListsSnoc(KanaTagLists(an), KanaTagLists(an + [o]), OrEmpty(v.tags));
    FanOutSnoc(KanaTagLists(an), KanaIds(rows), OrEmpty(v.tags), id);
  }

  lemma SenseTablesSnoc(rows: seq<SenseRow>, pos: seq<Link>, glosses: seq<Link>, ss: seq<Owned<Sense>>,
                        v: Sense, wordId: int, id: Uuid)
    requires SenseTables(rows, pos, glosses, ss)
    ensures SenseTables(rows + [SenseRow(id, Join(v.appliesToKanji), Join(v.appliesToKana), wordId)],
                        pos + LinksTo(id, OrEmpty(v.partOfSpeech)),
                        glosses + LinksTo(id, GlossTexts(OrEmpty(v.gloss))),
                        ss + [Owned(v, wordId)])
  {
    var row, o := SenseRow(id, Join(v.appliesToKanji), Join(v.appliesToKana), wordId), Owned(v, wordId);
    forall k | 0 <= k < |rows| + 1
      ensures (rows + [row])[k] == SenseRow((rows + [row])[k].id, Join((ss + [o])[k].variant.appliesToKanji),
                                            Join((ss + [o])[k].variant.appliesToKana), (ss + [o])[k].wordId)
    {
      if k < |rows| { assert (rows + [row])[k] == rows[k] && (ss + [o])[k] == ss[k]; }
    }
    SenseIdsSnoc(rows, row);
    TagListsSnoc(PosLists(ss), PosLists(ss + [o]), OrEmpty(v.partOfSpeech));
    TagListsSnoc(GlossTextLists(ss), GlossTextLists(ss + [o]), GlossTexts(OrEmpty(v.gloss)));
    FanOutSnoc(PosLists(ss), SenseIds(rows), OrEmpty(v.partOfSpeech), id);
    FanOutSnoc(GlossTextLists(ss), SenseIds(rows), GlossTexts(OrEmpty(v.gloss)), id);
  }

  /** A list that agrees with `lists` and then has `last` is `lists + [last]`. */
  lemma TagListsSnoc(lists: seq<seq<string>>, longer: seq<seq<string>>, last: seq<string>)
    requires |longer| == |lists| + 1 && longer[|lists|] == last
    requires forall k :: 0 <= k < |lists| ==> longer[k] == lists[k]
    ensures longer == lists + [last]
  {
  }

  lemma IdsSnoc(rows: seq<KanjiRow>, row: KanjiRow)
    ensures KanjiIds(rows + [row]) == KanjiIds(rows) + [row.id]
  {
    assert forall k :: 0 <= k < |rows| ==> (rows + [row])[k] == rows[k];
  }

  lemma KanaIdsSnoc(rows: seq<KanaRow>, row: KanaRow)
    ensures KanaIds(rows + [row]) == KanaIds(rows) + [row.id]
  {
    assert forall k :: 0 <= k < |rows| ==> (rows + [row])[k] == rows[k];
  }

  lemma SenseIdsSnoc(rows: seq<SenseRow>, row: SenseRow)
    ensures SenseIds(rows + [row]) == SenseIds(rows) + [row.id]
  {
    assert forall k :: 0 <= k < |rows| ==> (rows + [row])[k] == rows[k];
  }

  /** With distinct ids, the tag rows of the kanji row for variant k are exactly that
      variant's tags, in order; likewise for kana rows, part-of-speech rows and glosses. */
  lemma LinksOfRow(children: seq<seq<string>>, ids: seq<Uuid>, k: nat)
    requires |children| == |ids| && Distinct(ids) && k < |ids|
    ensures LinksOf(FanOut(children, ids), ids[k]) == LinksTo(ids[k], children[k])
    ensures |FanOut(children, ids)| == Total(children)
    ensures forall l :: l in FanOut(children, ids) ==> l.parent in ids
  {
    FanOutOfParent(children, ids, k);
    FanOutLength(children, ids);
    FanOutParents(children, ids);
  }

  /** Distinct store ids are distinct within each table. */
  lemma DistinctTables(db: FullDb)
    requires Distinct(db.AllIds())
    ensures Distinct(KanjiIds(db.kanji)) && Distinct(KanaIds(db.kana))
    ensures Distinct(SenseIds(db.sense)) && Distinct(GlossIds(db.gloss))
  {
    var k, n, s, g := KanjiIds(db.kanji), KanaIds(db.kana), SenseIds(db.sense), GlossIds(db.gloss);
    DistinctParts(k + n + s, g);
    DistinctParts(k + n, s);
    DistinctParts(k, n);
  }

  /** In a store with distinct ids, the glosses of sense row k are those of sense block
      k, in order, and every gloss row points at a sense row. */
  lemma GlossesOfSense(db: FullDb, ss: seq<Owned<Sense>>, k: nat)
    requires SensePart(db, ss) && Distinct(db.AllIds()) && k < |db.sense|
    ensures LinksOf(GlossLinks(db.gloss), db.sense[k].id) ==
      LinksTo(db.sense[k].id, GlossTexts(OrEmpty(ss[k].variant.gloss)))
    ensures forall g :: g in db.gloss ==> exists j :: 0 <= j < |db.sense| && db.sense[j].id == g.senseId
  {
    var ids := SenseIds(db.sense);
    DistinctTables(db);
    LinksOfRow(GlossTextLists(ss), ids, k);
    forall g | g in db.gloss ensures exists j :: 0 <= j < |db.sense| && db.sense[j].id == g.senseId {
      var t :| 0 <= t < |db.gloss| && db.gloss[t] == g;
      assert GlossLinks(db.gloss)[t] in FanOut(GlossTextLists(ss), ids);
    }
  }

  /** A fresh id appended to the kanji ids, the kana ids, the sense ids or the gloss ids
      keeps the store's ids fresh. */
  lemma FreshAppend(k: seq<Uuid>, n: seq<Uuid>, s: seq<Uuid>, g: seq<Uuid>, x: Uuid, at: nat,
                    issued: set<Uuid>, before: set<Uuid>)
    requires FreshSeq(k + n + s + g, issued, before) && x !in issued && before <= issued && at < 4
    ensures at == 0 ==> FreshSeq((k + [x]) + n + s + g, issued + {x}, before)
    ensures at == 1 ==> FreshSeq(k + (n + [x]) + s + g, issued + {x}, before)
    ensures at == 2 ==> FreshSeq(k + n + (s + [x]) + g, issued + {x}, before)
    ensures at == 3 ==> FreshSeq(k + n + s + (g + [x]), issued + {x}, before)
  {
    if at == 0 {
      assert k + n + s + g == k + (n + s + g);
      assert (k + [x]) + n + s + g == k + [x] + (n + s + g);
      FreshInsert(k, x, n + s + g, issued, before);
    } else if at == 1 {
      assert k + n + s + g == (k + n) + (s + g);
      assert k + (n + [x]) + s + g == (k + n) + [x] + (s + g);
      FreshInsert(k + n, x, s + g, issued, before);
    } else if at == 2 {
      assert k + n + s + g == (k + n + s) + g;
      assert k + n + (s + [x]) + g == (k + n + s) + [x] + g;
      FreshInsert(k + n + s, x, g, issued, before);
    } else {
      assert k + n + s + g + [] == k + n + s + g;
      assert k + n + s + (g + [x]) == (k + n + s + g) + [x] + [];
      FreshInsert(k + n + s + g, x, [], issued, before);
    }
  }
}
