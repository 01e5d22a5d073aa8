/** The read side of the dictionary store: its three tables as sequences of rows and
    the SELECT statements the resolvers issue, each answering "the first matching row,
    or none". A query error is modelled by naming the table in `failing`; every
    resolver callback turns an error into "no row". */
module DictionaryStore {
  import opened Options
  import opened Schema

  datatype Table = KanjiTable | KanaTable | WordTable

  datatype Dictionary = Dictionary(
    kanji: seq<FormRow>,
    kana: seq<FormRow>,
    word: seq<WordRow>,
    failing: set<Table>)

  /** The position of the first row satisfying `matches`, if any. */
  function FirstIndex<T>(rows: seq<T>, matches: T -> bool): (r: Option<nat>)
    ensures r.None? <==> forall k :: 0 <= k < |rows| ==> !matches(rows[k])
    ensures r.Some? ==> r.value < |rows| && matches(rows[r.value])
    ensures r.Some? ==> forall k :: 0 <= k < r.value ==> !matches(rows[k])
  {
    if rows == [] then None
    else if matches(rows[0]) then Some(0)
    else match FirstIndex(rows[1..], matches)
      case None => None
      case Some(k) => Some(k + 1)
  }

  /** A form table has a row with this text. */
  predicate HasText(rows: seq<FormRow>, text: string) {
    exists k :: 0 <= k < |rows| && rows[k].text == text
  }

  /** `SELECT word_id FROM <table> WHERE text = ? LIMIT 1` on a form table that did not
      fail: the `word_id` of a row with that text, or none when no row has it. */
  function SelectWordId(rows: seq<FormRow>, text: string): (r: Option<int>)
    ensures r.None? <==> !HasText(rows, text)
    ensures r.Some? ==> exists k :: 0 <= k < |rows| && rows[k].text == text && rows[k].wordId == r.value
  {
    match FirstIndex(rows, (f: FormRow) => f.text == text)
    case None => None
    case Some(k) => Some(rows[k].wordId)
  }

  /** `fetchKanji`: the kanji-table lookup; an error counts as no row. */
  function FetchKanji(db: Dictionary, text: string): (r: Option<int>)
    ensures r.Some? <==> KanjiTable !in db.failing && HasText(db.kanji, text)
    ensures r.Some? ==> exists k :: 0 <= k < |db.kanji| && db.kanji[k].text == text && db.kanji[k].wordId == r.value
  {
    if KanjiTable in db.failing then None else SelectWordId(db.kanji, text)
  }

  /** `fetchKana`: the kana-table lookup; an error counts as no row. */
  function FetchKana(db: Dictionary, text: string): (r: Option<int>)
    ensures r.Some? <==> KanaTable !in db.failing && HasText(db.kana, text)
    ensures r.Some? ==> exists k :: 0 <= k < |db.kana| && db.kana[k].text == text && db.kana[k].wordId == r.value
  {
    if KanaTable in db.failing then None else SelectWordId(db.kana, text)
  }

  /** `SELECT * FROM word WHERE id = ? LIMIT 1` on a word table that did not fail. */
  function SelectWord(rows: seq<WordRow>, id: int): (r: Option<WordRow>)
    ensures r.None? <==> forall k :: 0 <= k < |rows| ==> rows[k].id != id
    ensures r.Some? ==> r.value in rows && r.value.id == id
  {
    match FirstIndex(rows, (w: WordRow) => w.id == id)
    case None => None
    case Some(k) => Some(rows[k])
  }

  /** `fetchWord`: the word-table lookup by id; an error counts as no row. */
  function FetchWord(db: Dictionary, id: int): (r: Option<WordRow>)
    ensures r.Some? ==> WordTable !in db.failing && r.value in db.word && r.value.id == id
    ensures r.None? <==> WordTable in db.failing || forall k :: 0 <= k < |db.word| ==> db.word[k].id != id
  {
    if WordTable in db.failing then None else SelectWord(db.word, id)
  }
}
