/** jmdictToSQLite.ts: the converter run at build time. The download of the JMdict
    archive is a parameter: `json` is what `downloadAndExtractJson` resolved to, `None`
    when it produced no data. */
module JmdictSimpleTs {
  import opened Options
  import opened Jmdict
  import opened SimpleSchema

  /** The store and its indexes on `kanji.text` and `kana.text` are created before the
      data is checked: without data the tables stay empty and nothing is counted;
      otherwise every entry is loaded. */
  method JmdictToSQLite(json: Option<Document>, stringify: Entry -> string, supply: UuidSupply)
    returns (tally: Option<Tally>, db: SimpleDb)
    modifies supply
    ensures fresh(db) && db.indexes == {KanjiTextIndex, KanaTextIndex}
    ensures json.None? ==>
      tally == None && db.word == [] && db.kanji == [] && db.kana == []
      && supply.Issued() == old(supply.Issued())
    ensures json.Some? ==>
      && tally == Some(Tally(Converted(OrEmpty(json.value.words)), NotConverted(OrEmpty(json.value.words))))
      && Loaded(db, OrEmpty(json.value.words), stringify)
      && FreshIds(db, supply.Issued(), old(supply.Issued()))
  {
    db := new SimpleDb({KanjiTextIndex, KanaTextIndex});
    if json.None? {
      return None, db;
    }
    var words := OrEmpty(json.value.words);
    var t := ImportEntries(db, words, stringify, supply, supply.Issued());
    return Some(t), db;
  }
}
