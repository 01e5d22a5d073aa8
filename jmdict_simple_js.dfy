/** jmdictToSQLite.js: the command-line converter that writes the simple store from a
    JMdict JSON file on disk. The file checks are booleans, the parsed file is given as a
    `Document`, and the counts it logs on close are the `Tally` it returns. */
module JmdictSimpleJs {
  import opened Options
  import opened Jmdict
  import opened SimpleSchema

  /** Fails with `InputNotFound` when the input is missing, then with `OutputExists` when
      the output is already there, creating no store in either case; otherwise it creates
      the three tables and the index on `kanji.text` and loads every entry. */
  method JmdictToSQLite(inputExists: bool, outputExists: bool, doc: Document,
                        stringify: Entry -> string, supply: UuidSupply)
    returns (r: Result<Tally, BuildError>, db: SimpleDb?)
    modifies supply
    ensures !inputExists ==> r == Failure(InputNotFound) && db == null
    ensures inputExists && outputExists ==> r == Failure(OutputExists) && db == null
    ensures r.Failure? ==> supply.Issued() == old(supply.Issued())
    ensures inputExists && !outputExists ==>
      && r == Success(Tally(Converted(OrEmpty(doc.words)), NotConverted(OrEmpty(doc.words))))
      && db != null && fresh(db) && db.indexes == {KanjiTextIndex}
      && Loaded(db, OrEmpty(doc.words), stringify)
      && FreshIds(db, supply.Issued(), old(supply.Issued()))
  {
    if !inputExists {
      return Failure(InputNotFound), null;
    }
    if outputExists {
      return Failure(OutputExists), null;
    }
    db := new SimpleDb({KanjiTextIndex});
    var words := OrEmpty(doc.words);
    var tally := ImportEntries(db, words, stringify, supply, supply.Issued());
    return Success(tally), db;
  }
}
