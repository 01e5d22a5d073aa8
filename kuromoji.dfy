/** The token record produced by the external morphological tokenizer (kuromoji).
    The tokenizer itself is not modelled: its output is simply a sequence of these. */
module Kuromoji {

  datatype Token = Token(
    wordId: int,
    wordType: string,        // "KNOWN" or "UNKNOWN"
    wordPosition: int,
    surfaceForm: string,
    pos: string,
    posDetail1: string,
    posDetail2: string,
    posDetail3: string,
    conjugatedType: string,
    conjugatedForm: string,
    basicForm: string,
    reading: string,
    pronunciation: string)

  /** Two tokens agree on every field except the surface form. */
  predicate SameMetadata(a: Token, b: Token) {
    a.(surfaceForm := "") == b.(surfaceForm := "")
  }

  /** The surface forms of `ts`, concatenated in order. */
  function Surfaces(ts: seq<Token>): string {
    if ts == [] then "" else Surfaces(ts[..|ts| - 1]) + ts[|ts| - 1].surfaceForm
  }

  lemma SurfacesSnoc(ts: seq<Token>, t: Token)
    ensures Surfaces(ts + [t]) == Surfaces(ts) + t.surfaceForm
  {
    assert (ts + [t])[..|ts|] == ts;
  }
}
