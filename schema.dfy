/** Rows of the simple dictionary store (tables `word`, `kanji`, `kana`), which the
    resolver reads and the simple importers write. */
module Schema {

  /** An identifier from `crypto.randomUUID()`; only its distinctness matters. */
  datatype Uuid = Uuid(serial: nat)

  /** A `word` row: the dictionary entry id and its serialized entry. */
  datatype WordRow = WordRow(id: int, content: string)

  /** A `kanji` or `kana` row: a generated id, the form's text and the owning word id. */
  datatype FormRow = FormRow(id: Uuid, text: string, wordId: int)
}
