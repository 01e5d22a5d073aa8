/** The entry points around the merge pass: `getTextTokens` (getTextTokens.ts) merges
    one text with the three-rule forward predicate, `getTokens` (getTokens.ts) merges
    every paragraph of a batch with the four-rule one. The tokenizer is a parameter. */
module Tokenization {
  import opened Kuromoji
  import opened MergeRules
  import opened TokenMerge

  /** One paragraph of a request batch. */
  datatype BatchItem = BatchItem(baseText: string, index: int)

  /** A batch item extended with its merged tokens (`{ ...paragraph, tokens }`). */
  datatype TokenizedParagraph = TokenizedParagraph(baseText: string, index: int, tokens: seq<Token>)

  /** Copies the tokenizer's output into a fresh array and runs the merge pass on it. */
  method Merge(v: Variant, parsed: seq<Token>) returns (tokens: seq<Token>)
    ensures tokens == Reduce(v, Unmarked(parsed)).out
    ensures Surfaces(tokens) == Surfaces(parsed)
    ensures |tokens| <= |parsed| && (tokens == [] <==> parsed == [])
  {
    var a := new Slot[|parsed|](k requires 0 <= k < |parsed| => Slot(parsed[k], false));
    assert a[..] == Unmarked(parsed);
    ghost var anchors;
    tokens, anchors := ReduceParsedParagraphs(v, a);
    SurfacePreserved(v, parsed);
    OutputLength(v, parsed);
  }

  /** `getTextTokens`: tokenize a text and merge it with getTextTokens.ts' rules. */
  method GetTextTokens(text: string, tokenize: string -> seq<Token>) returns (tokens: seq<Token>)
    ensures tokens == Reduce(TextTokens, Unmarked(tokenize(text))).out
    ensures Surfaces(tokens) == Surfaces(tokenize(text))
  {
    tokens := Merge(TextTokens, tokenize(text));
  }

  /** `parsed` is what `getTokens` makes of `paragraph`. */
  ghost predicate ParagraphParsed(paragraph: BatchItem, tokenize: string -> seq<Token>, parsed: TokenizedParagraph) {
    && parsed.baseText == paragraph.baseText && parsed.index == paragraph.index
    && parsed.tokens == Reduce(Tokens, Unmarked(tokenize(paragraph.baseText))).out
    && Surfaces(parsed.tokens) == Surfaces(tokenize(paragraph.baseText))
  }

  /** `getTokens`: one result per paragraph, in input order, each carrying the
      paragraph's fields and its tokens merged with getTokens.ts' rules. */
  method GetTokens(paragraphs: seq<BatchItem>, tokenize: string -> seq<Token>)
    returns (parsed: seq<TokenizedParagraph>)
    ensures |parsed| == |paragraphs|
    ensures forall k :: 0 <= k < |paragraphs| ==>
      parsed[k].baseText == paragraphs[k].baseText && parsed[k].index == paragraphs[k].index
    ensures forall k :: 0 <= k < |paragraphs| ==>
      parsed[k].tokens == Reduce(Tokens, Unmarked(tokenize(paragraphs[k].baseText))).out
    ensures forall k :: 0 <= k < |paragraphs| ==>
      Surfaces(parsed[k].tokens) == Surfaces(tokenize(paragraphs[k].baseText))
  {
    parsed := [];
    for i := 0 to |paragraphs|
      invariant |parsed| == i
      invariant forall k :: 0 <= k < i ==> ParagraphParsed(paragraphs[k], tokenize, parsed[k])
    {
      var paragraph := paragraphs[i];
      var tokens := Merge(Tokens, tokenize(paragraph.baseText));
      parsed := parsed + [TokenizedParagraph(paragraph.baseText, paragraph.index, tokens)];
    }
  }
}
