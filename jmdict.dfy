/** The parsed JMdict document the importers read, the derived facts they rely on
    (`entry.id || 0`, flattened variant lists), and the supply of fresh identifiers
    that stands for `crypto.randomUUID()`. */
module Jmdict {
  import opened Options
  import opened Schema

  datatype KanjiVariant = KanjiVariant(text: string, common: bool, tags: Option<seq<string>>)

  datatype KanaVariant = KanaVariant(text: string, common: bool, tags: Option<seq<string>>, appliesToKanji: seq<string>)

  datatype Gloss = Gloss(lang: string, text: string)

  datatype Sense = Sense(
    partOfSpeech: Option<seq<string>>,
    appliesToKanji: seq<string>,
    appliesToKana: seq<string>,
    gloss: Option<seq<Gloss>>)

  /** A word entry; `id` is None when the field is absent or falsy. */
  datatype Entry = Entry(
    id: Option<int>,
    kanji: Option<seq<KanjiVariant>>,
    kana: Option<seq<KanaVariant>>,
    sense: Option<seq<Sense>>)

  /** The document: `tags` as the key/value pairs `Object.entries` lists, and `words`. */
  datatype Document = Document(tags: Option<seq<(string, string)>>, words: Option<seq<Entry>>)

  /** `x || []`: an absent array is empty. */
  function OrEmpty<T>(o: Option<seq<T>>): (r: seq<T>)
    ensures o.None? ==> r == []
    ensures o.Some? ==> r == o.value
  {
    match o
    case None => []
    case Some(s) => s
  }

  /** `entry.id || 0`. */
  function WordId(e: Entry): (r: int)
    ensures e.id.None? ==> r == 0
    ensures e.id.Some? ==> r == e.id.value
  {
    match e.id
    case None => 0
    case Some(n) => n
  }

  /** `array.join("")`. */
  function Join(parts: seq<string>): string {
    if parts == [] then "" else Join(parts[..|parts| - 1]) + parts[|parts| - 1]
  }

  /** `common ? 1 : 0`. */
  function Flag(b: bool): int {
    if b then 1 else 0
  }

  // ---------------------------------------------------------------------------
  // Tallies
  // ---------------------------------------------------------------------------

  /** The number of entries the importers count as converted (`wordId !== 0`). */
  function Converted(ws: seq<Entry>): nat {
    if ws == [] then 0
    else Converted(ws[..|ws| - 1]) + (if WordId(ws[|ws| - 1]) != 0 then 1 else 0)
  }

  /** The number of entries the importers count as not converted. */
  function NotConverted(ws: seq<Entry>): nat {
    if ws == [] then 0
    else NotConverted(ws[..|ws| - 1]) + (if WordId(ws[|ws| - 1]) == 0 then 1 else 0)
  }

  /** Every entry is tallied exactly once. */
  lemma {:induction false} TallyIdentity(ws: seq<Entry>)
    ensures Converted(ws) + NotConverted(ws) == |ws|
  {
    if ws != [] { TallyIdentity(ws[..|ws| - 1]); }
  }

  /** `converted` counts exactly the entries whose id is not 0. */
  lemma {:induction false} ConvertedCountsNonZeroIds(ws: seq<Entry>)
    ensures Converted(ws) == |set k | 0 <= k < |ws| && WordId(ws[k]) != 0|
  {
    if ws != [] {
      var init := ws[..|ws| - 1];
      ConvertedCountsNonZeroIds(init);
      var before := set k | 0 <= k < |init| && WordId(init[k]) != 0;
      var after := set k | 0 <= k < |ws| && WordId(ws[k]) != 0;
      if WordId(ws[|ws| - 1]) != 0 {
        assert after == before + {|ws| - 1};
      } else {
        assert after == before;
      }
    }
  }

  /** The ids of the `word` rows the importers insert: one per entry whose id is not 0,
      in document order. */
  function ConvertedIds(ws: seq<Entry>): seq<int> {
    if ws == [] then []
    else ConvertedIds(ws[..|ws| - 1]) + (if WordId(ws[|ws| - 1]) != 0 then [WordId(ws[|ws| - 1])] else [])
  }

  /** There is one `word` row per converted entry. */
  lemma {:induction false} ConvertedIdsLength(ws: seq<Entry>)
    ensures |ConvertedIds(ws)| == Converted(ws)
  {
    if ws != [] { ConvertedIdsLength(ws[..|ws| - 1]); }
  }

  /** A `word` row exists for an id exactly when the id is not 0 and some entry has it. */
  lemma {:induction false} ConvertedIdsMembers(ws: seq<Entry>, id: int)
    ensures id in ConvertedIds(ws) <==> id != 0 && exists k :: 0 <= k < |ws| && WordId(ws[k]) == id
  {
    if ws != [] {
      var n := |ws| - 1;
      var init := ws[..n];
      ConvertedIdsMembers(init, id);
      assert ConvertedIds(ws) == ConvertedIds(init) + (if WordId(ws[n]) != 0 then [WordId(ws[n])] else []);
      if id in ConvertedIds(ws) {
        if id in ConvertedIds(init) {
          var k :| 0 <= k < |init| && WordId(init[k]) == id;
          assert ws[k] == init[k];
        } else {
          assert WordId(ws[n]) == id;
        }
      }
      if id != 0 && exists k :: 0 <= k < |ws| && WordId(ws[k]) == id {
        var k :| 0 <= k < |ws| && WordId(ws[k]) == id;
        if k < n {
          assert init[k] == ws[k];
        }
      }
    }
  }

  // ---------------------------------------------------------------------------
  // Variants in document order, each paired with its owner's word id
  // ---------------------------------------------------------------------------

  datatype Owned<T> = Owned(variant: T, wordId: int)

  function OwnedKanji(e: Entry): (r: seq<Owned<KanjiVariant>>)
    ensures |r| == |OrEmpty(e.kanji)|
    ensures forall j :: 0 <= j < |r| ==> r[j] == Owned(OrEmpty(e.kanji)[j], WordId(e))
  {
    seq(|OrEmpty(e.kanji)|, j requires 0 <= j < |OrEmpty(e.kanji)| => Owned(OrEmpty(e.kanji)[j], WordId(e)))
  }

  function OwnedKana(e: Entry): (r: seq<Owned<KanaVariant>>)
    ensures |r| == |OrEmpty(e.kana)|
    ensures forall j :: 0 <= j < |r| ==> r[j] == Owned(OrEmpty(e.kana)[j], WordId(e))
  {
    seq(|OrEmpty(e.kana)|, j requires 0 <= j < |OrEmpty(e.kana)| => Owned(OrEmpty(e.kana)[j], WordId(e)))
  }

  function OwnedSenses(e: Entry): (r: seq<Owned<Sense>>)
    ensures |r| == |OrEmpty(e.sense)|
    ensures forall j :: 0 <= j < |r| ==> r[j] == Owned(OrEmpty(e.sense)[j], WordId(e))
  {
    seq(|OrEmpty(e.sense)|, j requires 0 <= j < |OrEmpty(e.sense)| => Owned(OrEmpty(e.sense)[j], WordId(e)))
  }

  /** All kanji variants of the entries, in document order. */
  function AllKanji(ws: seq<Entry>): seq<Owned<KanjiVariant>> {
    if ws == [] then [] else AllKanji(ws[..|ws| - 1]) + OwnedKanji(ws[|ws| - 1])
  }

  /** All kana variants of the entries, in document order. */
  function AllKana(ws: seq<Entry>): seq<Owned<KanaVariant>> {
    if ws == [] then [] else AllKana(ws[..|ws| - 1]) + OwnedKana(ws[|ws| - 1])
  }

  /** All sense blocks of the entries, in document order. */
  function AllSenses(ws: seq<Entry>): seq<Owned<Sense>> {
    if ws == [] then [] else AllSenses(ws[..|ws| - 1]) + OwnedSenses(ws[|ws| - 1])
  }

  /** Appending one entry appends its variants, its sense blocks, its id and its count. */
  lemma EntriesSnoc(ws: seq<Entry>, e: Entry)
    ensures AllKanji(ws + [e]) == AllKanji(ws) + OwnedKanji(e)
    ensures AllKana(ws + [e]) == AllKana(ws) + OwnedKana(e)
    ensures AllSenses(ws + [e]) == AllSenses(ws) + OwnedSenses(e)
    ensures ConvertedIds(ws + [e]) == ConvertedIds(ws) + (if WordId(e) != 0 then [WordId(e)] else [])
    ensures Converted(ws + [e]) == Converted(ws) + (if WordId(e) != 0 then 1 else 0)
    ensures NotConverted(ws + [e]) == NotConverted(ws) + (if WordId(e) == 0 then 1 else 0)
  {
    assert (ws + [e])[..|ws|] == ws;
  }

  /** An entry lists exactly its own kanji variants, each with its word id. */
  lemma OwnedKanjiMembers(e: Entry, o: Owned<KanjiVariant>)
    ensures o in OwnedKanji(e) <==> o.variant in OrEmpty(e.kanji) && o.wordId == WordId(e)
  {
    if o in OwnedKanji(e) {
      var j :| 0 <= j < |OwnedKanji(e)| && OwnedKanji(e)[j] == o;
      assert OrEmpty(e.kanji)[j] == o.variant;
    }
    if o.variant in OrEmpty(e.kanji) && o.wordId == WordId(e) {
      var j :| 0 <= j < |OrEmpty(e.kanji)| && OrEmpty(e.kanji)[j] == o.variant;
      assert OwnedKanji(e)[j] == o;
    }
  }

  /** Every kanji variant of every entry is listed with its entry's word id, 0 included,
      and nothing else is listed. */
  lemma {:induction false} AllKanjiMembers(ws: seq<Entry>, o: Owned<KanjiVariant>)
    ensures o in AllKanji(ws) <==>
      exists k :: 0 <= k < |ws| && o.variant in OrEmpty(ws[k].kanji) && o.wordId == WordId(ws[k])
  {
    if ws != [] {
      var init := ws[..|ws| - 1];
      AllKanjiMembers(init, o);
      assert forall k :: 0 <= k < |init| ==> init[k] == ws[k];
      var last := ws[|ws| - 1];
      OwnedKanjiMembers(last, o);
      assert AllKanji(ws) == AllKanji(init) + OwnedKanji(last);
    }
  }

  /** An entry lists exactly its own kana variants, each with its word id. */
  lemma OwnedKanaMembers(e: Entry, o: Owned<KanaVariant>)
    ensures o in OwnedKana(e) <==> o.variant in OrEmpty(e.kana) && o.wordId == WordId(e)
  {
    if o in OwnedKana(e) {
      var j :| 0 <= j < |OwnedKana(e)| && OwnedKana(e)[j] == o;
      assert OrEmpty(e.kana)[j] == o.variant;
    }
    if o.variant in OrEmpty(e.kana) && o.wordId == WordId(e) {
      var j :| 0 <= j < |OrEmpty(e.kana)| && OrEmpty(e.kana)[j] == o.variant;
      assert OwnedKana(e)[j] == o;
    }
  }

  /** Every kana variant of every entry is listed with its entry's word id, 0 included,
      and nothing else is listed. */
  lemma {:induction false} AllKanaMembers(ws: seq<Entry>, o: Owned<KanaVariant>)
    ensures o in AllKana(ws) <==>
      exists k :: 0 <= k < |ws| && o.variant in OrEmpty(ws[k].kana) && o.wordId == WordId(ws[k])
  {
    if ws != [] {
      var init := ws[..|ws| - 1];
      AllKanaMembers(init, o);
      assert forall k :: 0 <= k < |init| ==> init[k] == ws[k];
      var last := ws[|ws| - 1];
      OwnedKanaMembers(last, o);
      assert AllKana(ws) == AllKana(init) + OwnedKana(last);
    }
  }

  /** Every listed sense block carries the word id of one of the entries. */
  lemma {:induction false} AllSensesOwners(ws: seq<Entry>, o: Owned<Sense>)
    requires o in AllSenses(ws)
    ensures exists k :: 0 <= k < |ws| && o.wordId == WordId(ws[k])
  {
    var init := ws[..|ws| - 1];
    if o in AllSenses(init) {
      AllSensesOwners(init, o);
      var k :| 0 <= k < |init| && o.wordId == WordId(init[k]);
      assert init[k] == ws[k];
    } else {
      assert o in OwnedSenses(ws[|ws| - 1]);
    }
  }

  /** Entries without a kanji array contribute no kanji variants: the list is as long
      as the sum of the entries' kanji arrays. */
  lemma {:induction false} AllKanjiLength(ws: seq<Entry>)
    ensures |AllKanji(ws)| == KanjiCount(ws)
  {
    if ws != [] { AllKanjiLength(ws[..|ws| - 1]); }
  }

  function KanjiCount(ws: seq<Entry>): nat {
    if ws == [] then 0 else KanjiCount(ws[..|ws| - 1]) + |OrEmpty(ws[|ws| - 1].kanji)|
  }

  // ---------------------------------------------------------------------------
  // Fresh identifiers
  // ---------------------------------------------------------------------------

  /** `crypto.randomUUID()`: a supply that never hands out the same identifier twice. */
  class UuidSupply {
    var next: nat

    /** The identifiers handed out so far. */
    function Issued(): set<Uuid>
      reads this
    {
      set n | 0 <= n < next :: Uuid(n)
    }

    constructor ()
      ensures Issued() == {}
    {
      next := 0;
    }

    method RandomUuid() returns (id: Uuid)
      modifies this
      ensures id !in old(Issued())
      ensures Issued() == old(Issued()) + {id}
    {
      id := Uuid(next);
      next := next + 1;
      assert Issued() == old(Issued()) + {id} by {
        forall u | u in Issued() ensures u in old(Issued()) + {id} {
          if u.serial < next - 1 { assert u in old(Issued()); }
        }
      }
    }
  }

  // ---------------------------------------------------------------------------
  // Distinct identifiers
  // ---------------------------------------------------------------------------

  predicate Distinct(s: seq<Uuid>) {
    forall i, j :: 0 <= i < j < |s| ==> s[i] != s[j]
  }

  /** Putting an identifier that occurs nowhere between two parts keeps them distinct. */
  lemma DistinctInsert(a: seq<Uuid>, x: Uuid, b: seq<Uuid>)
    requires Distinct(a + b) && x !in a && x !in b
    ensures Distinct(a + [x] + b)
  {
    var s := a + [x] + b;
    forall i, j | 0 <= i < j < |s| ensures s[i] != s[j] {
      if i < |a| && j > |a| {
        assert s[j] == (a + b)[j - 1];
        assert s[i] == (a + b)[i];
      } else if i > |a| {
        assert s[j] == (a + b)[j - 1] && s[i] == (a + b)[i - 1];
      } else if j < |a| {
        assert s[i] == (a + b)[i] && s[j] == (a + b)[j];
      } else if i == |a| {
        assert s[j] == b[j - |a| - 1];
      } else {
        assert s[i] == a[i];
      }
    }
  }

  /** The ids are distinct, and each was issued (`issued`) but not before the import
      began (`before`). */
  predicate FreshSeq(ids: seq<Uuid>, issued: set<Uuid>, before: set<Uuid>) {
    Distinct(ids) && forall k :: 0 <= k < |ids| ==> ids[k] in issued - before
  }

  /** Slotting a freshly issued id between two parts of the id list keeps the list
      distinct and every id in it issued during the import. */
  lemma FreshInsert(a: seq<Uuid>, x: Uuid, b: seq<Uuid>, issued: set<Uuid>, before: set<Uuid>)
    requires FreshSeq(a + b, issued, before)
    requires x !in issued && before <= issued
    ensures FreshSeq(a + [x] + b, issued + {x}, before)
  {
    var s := a + [x] + b;
    assert x !in a && x !in b by {
      assert forall k :: 0 <= k < |a| ==> a[k] == (a + b)[k];
      assert forall k :: 0 <= k < |b| ==> b[k] == (a + b)[|a| + k];
    }
    DistinctInsert(a, x, b);
    forall k | 0 <= k < |s| ensures s[k] in (issued + {x}) - before {
      if k < |a| { assert s[k] == (a + b)[k]; }
      else if k > |a| { assert s[k] == (a + b)[k - 1]; }
    }
  }

  /** Both parts of a distinct list are distinct. */
  lemma DistinctParts(a: seq<Uuid>, b: seq<Uuid>)
    requires Distinct(a + b)
    ensures Distinct(a) && Distinct(b)
  {
    forall i, j | 0 <= i < j < |a| ensures a[i] != a[j] {
      assert a[i] == (a + b)[i] && a[j] == (a + b)[j];
    }
    forall i, j | 0 <= i < j < |b| ensures b[i] != b[j] {
      assert b[i] == (a + b)[|a| + i] && b[j] == (a + b)[|a| + j];
    }
  }

  /** Taking one more element of a sequence appends that element. */
  lemma TakeSnoc<T>(b: seq<T>, j: nat)
    requires j < |b|
    ensures b[..j] + [b[j]] == b[..j + 1]
  {
  }

  /** Extending a prefix by one element. */
  lemma PrefixSnoc<T>(a: seq<T>, b: seq<T>, j: nat)
    requires j < |b|
    ensures a + b[..j + 1] == a + b[..j] + [b[j]]
  {
    assert b[..j + 1] == b[..j] + [b[j]];
  }

  /** `a` is a prefix of `b`: a table that only ever had rows appended. Kept as a named
      predicate so that loop invariants about several growing tables stay cheap. */
  ghost predicate Extends<T>(a: seq<T>, b: seq<T>) {
    a <= b
  }

  lemma ExtendsTrans<T>(a: seq<T>, b: seq<T>, c: seq<T>)
    requires Extends(a, b) && b <= c
    ensures Extends(a, c)
  {
  }

  // ---------------------------------------------------------------------------
  // Outcomes shared by the importers
  // ---------------------------------------------------------------------------

  /** The two errors thrown before the store is opened. */
  datatype BuildError = InputNotFound | OutputExists

  /** The counters logged when the store is closed. */
  datatype Tally = Tally(converted: nat, notConverted: nat)
}
