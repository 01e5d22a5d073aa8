/** The linguistic rules deciding when the merge pass fuses adjacent tokens.
    getTextTokens.ts writes them as boolean expressions and leaves one forward rule
    commented out; getTokens.ts writes them as if/return chains with that rule active. */
module MergeRules {
  import opened Kuromoji

  /** Which of the two source files' forward predicate the merge pass uses. */
  datatype Variant = TextTokens | Tokens

  // ----- getTextTokens.ts -----

  /** `shouldMergeWithNext` of getTextTokens.ts: three alternatives. */
  predicate TextShouldMergeWithNext(token: Token, next: Token) {
    (token.conjugatedForm in ["連用形", "未然形", "連用タ接続"] && next.pos == "助動詞")
    || (token.conjugatedForm in ["連用タ接続", "連用形"] && next.posDetail1 == "接続助詞")
    || (token.basicForm == "ん" && token.posDetail1 == "非自立" && next.basicForm == "です")
  }

  /** `shouldMergeWithPrev` of getTextTokens.ts. */
  predicate TextShouldMergeWithPrev(token: Token) {
    (token.pos == "助動詞" && token.conjugatedForm == "体言接続")
    || (token.posDetail1 == "接尾" && token.posDetail2 == "助数詞")
    || (token.pos == "動詞" && token.conjugatedType == "一段" && token.posDetail1 == "非自立")
  }

  // ----- getTokens.ts -----

  /** `shouldMergeWithNext` of getTokens.ts: a chain of early returns. */
  function ChainShouldMergeWithNext(token: Token, next: Token): bool {
    if token.conjugatedForm in ["連用形", "未然形", "連用タ接続"] && next.pos == "助動詞" then true
    else if token.conjugatedForm in ["未然形"] && next.posDetail1 == "接尾" then true
    else if token.conjugatedForm in ["連用タ接続", "連用形"] && next.posDetail1 == "接続助詞" then true
    else if token.basicForm == "ん" && token.posDetail1 == "非自立" && next.basicForm == "です" then true
    else false
  }

  /** `shouldMergeWithPrev` of getTokens.ts: a chain of early returns. */
  function ChainShouldMergeWithPrev(token: Token): bool {
    if token.pos == "助動詞" && token.conjugatedForm == "体言接続" then true
    else if token.posDetail1 == "接尾" && token.posDetail2 == "助数詞" then true
    else if token.pos == "動詞" && token.conjugatedType == "一段" && token.posDetail1 == "非自立" then true
    else false
  }

  /** The forward predicate of the chosen file. */
  predicate ShouldMergeWithNext(v: Variant, token: Token, next: Token) {
    match v
    case TextTokens => TextShouldMergeWithNext(token, next)
    case Tokens => ChainShouldMergeWithNext(token, next)
  }

  /** The backward predicate of the chosen file. */
  predicate ShouldMergeWithPrev(v: Variant, token: Token) {
    match v
    case TextTokens => TextShouldMergeWithPrev(token)
    case Tokens => ChainShouldMergeWithPrev(token)
  }

  /** The four forward rules of getTokens.ts, as a disjunction: the chain holds exactly
      when one rule does, and the only rule getTextTokens.ts lacks is 未然形 + 接尾. */
  lemma ForwardRulesOfTokens(token: Token, next: Token)
    ensures ChainShouldMergeWithNext(token, next) <==>
      (token.conjugatedForm in {"連用形", "未然形", "連用タ接続"} && next.pos == "助動詞")
      || (token.conjugatedForm == "未然形" && next.posDetail1 == "接尾")
      || (token.conjugatedForm in {"連用タ接続", "連用形"} && next.posDetail1 == "接続助詞")
      || (token.basicForm == "ん" && token.posDetail1 == "非自立" && next.basicForm == "です")
    ensures ChainShouldMergeWithNext(token, next) <==>
      TextShouldMergeWithNext(token, next)
      || (token.conjugatedForm == "未然形" && next.posDetail1 == "接尾")
  {
  }

  /** Both files' backward predicates hold exactly for the same three rules. */
  lemma BackwardRulesAgree(token: Token)
    ensures ChainShouldMergeWithPrev(token) == TextShouldMergeWithPrev(token)
    ensures TextShouldMergeWithPrev(token) <==>
      (token.pos == "助動詞" && token.conjugatedForm == "体言接続")
      || (token.posDetail1 == "接尾" && token.posDetail2 == "助数詞")
      || (token.pos == "動詞" && token.conjugatedType == "一段" && token.posDetail1 == "非自立")
  {
  }
}
