/** The left-to-right merge pass `reduceParsedParagraphs` of getTokens.ts and
    getTextTokens.ts (identical in both files up to the forward predicate).

    The pass reads the tokenizer's array in place: a forward merge at position i
    overwrites slot i+1 with a copy marked `skip`, and the reduction's accumulator is
    either extended or has its last token replaced. `Step` is one iteration of the
    reduction callback, `Run` the rest of the reduction from a position, and
    `ReduceParsedParagraphs` the method that does it on an array. */
module TokenMerge {
  import opened Kuromoji
  import opened MergeRules

  /** One element of the array the reduction walks: a token and its `skip` mark. */
  datatype Slot = Slot(token: Token, skip: bool)

  /** The state of the reduction: the (partly marked) array, the accumulator, and for
      each accumulated token the input position whose metadata it carries. */
  datatype Pass = Pass(slots: seq<Slot>, out: seq<Token>, anchors: seq<nat>)

  /** The tokenizer's output as the reduction sees it: nothing is marked. */
  function Unmarked(ts: seq<Token>): (r: seq<Slot>)
    ensures |r| == |ts|
    ensures forall k :: 0 <= k < |r| ==> r[k].token == ts[k] && !r[k].skip
  {
    seq(|ts|, k requires 0 <= k < |ts| => Slot(ts[k], false))
  }

  function TokensOf(s: seq<Slot>): (r: seq<Token>)
    ensures |r| == |s|
    ensures forall k :: 0 <= k < |s| ==> r[k] == s[k].token
  {
    seq(|s|, k requires 0 <= k < |s| => s[k].token)
  }

  /** The surface forms of the unmarked slots from position i on, concatenated. */
  function Rest(s: seq<Slot>, i: nat): string
    decreases |s| - i
  {
    if i >= |s| then ""
    else (if s[i].skip then "" else s[i].token.surfaceForm) + Rest(s, i + 1)
  }

  /** True when the forward test fires at position i (the test reads slot i+1, if any). */
  predicate Forward(v: Variant, s: seq<Slot>, i: nat)
    requires i < |s|
  {
    i + 1 < |s| && ShouldMergeWithNext(v, s[i].token, s[i + 1].token)
  }

  /** One call of the reduction callback at position i. */
  function Step(v: Variant, p: Pass, i: nat): Pass
    requires i < |p.slots|
  {
    var curr := p.slots[i];
    if curr.skip then p
    else if Forward(v, p.slots, i) then
      var next := p.slots[i + 1];
      Pass(p.slots[i + 1 := next.(skip := true)],
           p.out + [curr.token.(surfaceForm := curr.token.surfaceForm + next.token.surfaceForm)],
           p.anchors + [i])
    else if ShouldMergeWithPrev(v, curr.token) && p.out != [] then
      var prev := p.out[|p.out| - 1];
      Pass(p.slots,
           p.out[..|p.out| - 1] + [prev.(surfaceForm := prev.surfaceForm + curr.token.surfaceForm)],
           p.anchors)
    else
      Pass(p.slots, p.out + [curr.token], p.anchors + [i])
  }

  /** What one call of the callback does, case by case. */
  lemma StepCases(v: Variant, p: Pass, i: nat)
    requires i < |p.slots|
    // the array keeps its length and tokens; only slot i+1 may change, and only by being marked
    ensures |Step(v, p, i).slots| == |p.slots| && TokensOf(Step(v, p, i).slots) == TokensOf(p.slots)
    ensures forall k :: 0 <= k < |p.slots| && k != i + 1 ==> Step(v, p, i).slots[k] == p.slots[k]
    ensures Step(v, p, i).slots != p.slots ==> i + 1 < |p.slots| && Step(v, p, i).slots[i + 1].skip
    // the accumulator grows by at most one, and all but its last token are kept
    ensures |p.out| <= |Step(v, p, i).out| <= |p.out| + 1
    ensures |p.out| > 0 ==> Step(v, p, i).out[..|p.out| - 1] == p.out[..|p.out| - 1]
    ensures |Step(v, p, i).out| == |p.out| + 1 ==> Step(v, p, i).out[..|p.out|] == p.out
    // a skipped slot contributes nothing
    ensures p.slots[i].skip ==> Step(v, p, i) == p
    // the last position never merges forward
    ensures i + 1 == |p.slots| ==> Step(v, p, i).slots == p.slots
    // the forward test is tried first; when it fires the next slot is marked and the
    // fused token keeps the current token's metadata
    ensures !p.slots[i].skip && Forward(v, p.slots, i) ==>
      Step(v, p, i).slots[i + 1].skip && |Step(v, p, i).out| == |p.out| + 1 &&
      Step(v, p, i).out[|p.out|].surfaceForm == p.slots[i].token.surfaceForm + p.slots[i + 1].token.surfaceForm &&
      SameMetadata(Step(v, p, i).out[|p.out|], p.slots[i].token)
    // a backward merge into a non-empty accumulator replaces its last token in place
    ensures !p.slots[i].skip && !Forward(v, p.slots, i) && ShouldMergeWithPrev(v, p.slots[i].token) && p.out != [] ==>
      Step(v, p, i).slots == p.slots && |Step(v, p, i).out| == |p.out| &&
      SameMetadata(Step(v, p, i).out[|p.out| - 1], p.out[|p.out| - 1]) &&
      Step(v, p, i).out[|p.out| - 1].surfaceForm == p.out[|p.out| - 1].surfaceForm + p.slots[i].token.surfaceForm
    // otherwise the token itself is appended, unchanged
    ensures !p.slots[i].skip && !Forward(v, p.slots, i) && (!ShouldMergeWithPrev(v, p.slots[i].token) || p.out == []) ==>
      Step(v, p, i).slots == p.slots && Step(v, p, i).out == p.out + [p.slots[i].token]
  {
  }

  /** The reduction from position i to the end of the array. */
  function Run(v: Variant, p: Pass, i: nat): Pass
    decreases |p.slots| - i
  {
    if i >= |p.slots| then p else Run(v, Step(v, p, i), i + 1)
  }

  /** The whole reduction, started with an empty accumulator. */
  function Reduce(v: Variant, s: seq<Slot>): Pass {
    Run(v, Pass(s, [], []), 0)
  }

  /** `reduceParsedParagraphs`: the reduction on the array itself. The array is
      marked in place; the accumulator is returned. */
  method ReduceParsedParagraphs(v: Variant, a: array<Slot>) returns (acc: seq<Token>, ghost anchors: seq<nat>)
    modifies a
    ensures Reduce(v, old(a[..])) == Pass(a[..], acc, anchors)
  {
    acc, anchors := [], [];
    for i := 0 to a.Length
      invariant Run(v, Pass(a[..], acc, anchors), i) == Reduce(v, old(a[..]))
    {
      ghost var p := Pass(a[..], acc, anchors);
      if a[i].skip {
        continue;
      }
      var curr := a[i].token;
      if i + 1 < a.Length && ShouldMergeWithNext(v, curr, a[i + 1].token) {
        var nextWord := a[i + 1];
        a[i + 1] := nextWord.(skip := true);
        acc, anchors := acc + [curr.(surfaceForm := curr.surfaceForm + nextWord.token.surfaceForm)], anchors + [i];
      } else if ShouldMergeWithPrev(v, curr) && acc != [] {
        var prevWord := acc[|acc| - 1];
        acc := acc[..|acc| - 1] + [prevWord.(surfaceForm := prevWord.surfaceForm + curr.surfaceForm)];
      } else {
        acc, anchors := acc + [curr], anchors + [i];
      }
      assert Pass(a[..], acc, anchors) == Step(v, p, i);
    }
  }

  // ---------------------------------------------------------------------------
  // Properties of the reduction
  // ---------------------------------------------------------------------------

  /** No slot after position i is marked. */
  predicate UnmarkedAfter(s: seq<Slot>, i: nat) {
    forall k :: i < k < |s| ==> !s[k].skip
  }

  lemma {:induction false} RestUnmarked(ts: seq<Token>, i: nat)
    requires i <= |ts|
    ensures Rest(Unmarked(ts), i) == Surfaces(ts[i..])
    decreases |ts| - i
  {
    if i < |ts| {
      var s := Unmarked(ts);
      assert Rest(s, i) == ts[i].surfaceForm + Rest(s, i + 1);
      RestUnmarked(ts, i + 1);
      DropCons(ts, i);
      SurfacesCons(ts[i], ts[i + 1..]);
    } else {
      assert ts[i..] == [];
    }
  }

  lemma DropCons<T>(s: seq<T>, i: nat)
    requires i < |s|
    ensures s[i..] == [s[i]] + s[i + 1..]
  {
  }

  lemma {:induction false} SurfacesCons(t: Token, ts: seq<Token>)
    ensures Surfaces([t] + ts) == t.surfaceForm + Surfaces(ts)
    decreases |ts|
  {
    if ts == [] {
      assert [t] + ts == [t];
      assert Surfaces([t]) == Surfaces([]) + t.surfaceForm;
    } else {
      var init := ts[..|ts| - 1];
      var last := ts[|ts| - 1];
      assert ([t] + ts)[..|ts|] == [t] + init;
      calc {
        Surfaces([t] + ts);
        Surfaces([t] + init) + last.surfaceForm;
        { SurfacesCons(t, init); }
        t.surfaceForm + Surfaces(init) + last.surfaceForm;
      }
    }
  }

  /** One step keeps "accumulated surfaces + what is left" unchanged. */
  lemma StepKeepsSurfaces(v: Variant, p: Pass, i: nat)
    requires i < |p.slots| && UnmarkedAfter(p.slots, i)
    ensures UnmarkedAfter(Step(v, p, i).slots, i + 1)
    ensures Surfaces(Step(v, p, i).out) + Rest(Step(v, p, i).slots, i + 1) == Surfaces(p.out) + Rest(p.slots, i)
  {
    var curr := p.slots[i];
    if curr.skip {
      assert Step(v, p, i) == p;
    } else if Forward(v, p.slots, i) {
      ForwardKeepsSurfaces(v, p, i);
    } else if ShouldMergeWithPrev(v, curr.token) && p.out != [] {
      BackwardKeepsSurfaces(v, p, i);
    } else {
      assert Step(v, p, i) == Pass(p.slots, p.out + [curr.token], p.anchors + [i]);
      SurfacesSnoc(p.out, curr.token);
    }
  }

  lemma ForwardKeepsSurfaces(v: Variant, p: Pass, i: nat)
    requires i < |p.slots| && UnmarkedAfter(p.slots, i)
    requires !p.slots[i].skip && Forward(v, p.slots, i)
    ensures UnmarkedAfter(Step(v, p, i).slots, i + 1)
    ensures Surfaces(Step(v, p, i).out) + Rest(Step(v, p, i).slots, i + 1) == Surfaces(p.out) + Rest(p.slots, i)
  {
    var curr, next := p.slots[i], p.slots[i + 1];
    var merged := curr.token.(surfaceForm := curr.token.surfaceForm + next.token.surfaceForm);
    var slots := p.slots[i + 1 := next.(skip := true)];
    assert Step(v, p, i) == Pass(slots, p.out + [merged], p.anchors + [i]);
    RestOnlyFrom(slots, p.slots, i + 2);
    assert Rest(slots, i + 1) == Rest(p.slots, i + 2);
    assert Rest(p.slots, i) == curr.token.surfaceForm + (next.token.surfaceForm + Rest(p.slots, i + 2));
    SurfacesSnoc(p.out, merged);
    AppendAssoc(curr.token.surfaceForm, next.token.surfaceForm, Rest(p.slots, i + 2));
    AppendAssoc(Surfaces(p.out), merged.surfaceForm, Rest(p.slots, i + 2));
  }

  lemma BackwardKeepsSurfaces(v: Variant, p: Pass, i: nat)
    requires i < |p.slots| && UnmarkedAfter(p.slots, i)
    requires !p.slots[i].skip && !Forward(v, p.slots, i) && ShouldMergeWithPrev(v, p.slots[i].token) && p.out != []
    ensures UnmarkedAfter(Step(v, p, i).slots, i + 1)
    ensures Surfaces(Step(v, p, i).out) + Rest(Step(v, p, i).slots, i + 1) == Surfaces(p.out) + Rest(p.slots, i)
  {
    var b := p.slots[i].token.surfaceForm;
    var prev := p.out[|p.out| - 1];
    var out := p.out[..|p.out| - 1] + [prev.(surfaceForm := prev.surfaceForm + b)];
    assert Step(v, p, i) == Pass(p.slots, out, p.anchors);
    SurfacesExtendLast(p.out, b);
    assert Rest(p.slots, i) == b + Rest(p.slots, i + 1);
    AppendAssoc(Surfaces(p.out), b, Rest(p.slots, i + 1));
  }

  /** Extending the surface of the last token extends the concatenation. */
  lemma SurfacesExtendLast(out: seq<Token>, b: string)
    requires out != []
    ensures Surfaces(out[..|out| - 1] + [out[|out| - 1].(surfaceForm := out[|out| - 1].surfaceForm + b)]) == Surfaces(out) + b
  {
    var init, prev := out[..|out| - 1], out[|out| - 1];
    var merged := prev.(surfaceForm := prev.surfaceForm + b);
    assert Surfaces(out) == Surfaces(init) + prev.surfaceForm;
    SurfacesSnoc(init, merged);
    AppendAssoc(Surfaces(init), prev.surfaceForm, b);
  }

  lemma AppendAssoc(a: string, b: string, c: string)
    ensures a + (b + c) == (a + b) + c
  {
  }

  /** `Rest` from position i depends only on the slots from i on. */
  lemma RestOnlyFrom(s: seq<Slot>, t: seq<Slot>, i: nat)
    requires |s| == |t| && forall k :: i <= k < |s| ==> s[k] == t[k]
    ensures Rest(s, i) == Rest(t, i)
    decreases |s| - i
  {
    if i < |s| { RestOnlyFrom(s, t, i + 1); }
  }

  lemma {:induction false} RunKeepsSurfaces(v: Variant, p: Pass, i: nat)
    requires i <= |p.slots| && UnmarkedAfter(p.slots, i)
    ensures Surfaces(Run(v, p, i).out) == Surfaces(p.out) + Rest(p.slots, i)
    decreases |p.slots| - i
  {
    if i < |p.slots| {
      StepKeepsSurfaces(v, p, i);
      RunKeepsSurfaces(v, Step(v, p, i), i + 1);
    }
  }

  /** Surface text is preserved: the output's surface forms, concatenated in order,
      are the input's surface forms concatenated in order. */
  lemma SurfacePreserved(v: Variant, ts: seq<Token>)
    ensures Surfaces(Reduce(v, Unmarked(ts)).out) == Surfaces(ts)
  {
    RunKeepsSurfaces(v, Pass(Unmarked(ts), [], []), 0);
    RestUnmarked(ts, 0);
    assert ts[0..] == ts;
  }

  lemma {:induction false} RunLength(v: Variant, p: Pass, i: nat)
    requires i <= |p.slots|
    ensures |p.out| <= |Run(v, p, i).out| <= |p.out| + (|p.slots| - i)
    ensures |Run(v, p, i).slots| == |p.slots|
    decreases |p.slots| - i
  {
    if i < |p.slots| {
      StepCases(v, p, i);
      RunLength(v, Step(v, p, i), i + 1);
    }
  }

  /** The output never has more tokens than the input, and it is empty exactly when
      the input is: the first token is never marked and always yields an output token. */
  lemma OutputLength(v: Variant, ts: seq<Token>)
    ensures |Reduce(v, Unmarked(ts)).out| <= |ts|
    ensures Reduce(v, Unmarked(ts)).out == [] <==> ts == []
  {
    var p := Pass(Unmarked(ts), [], []);
    RunLength(v, p, 0);
    if ts != [] {
      StepCases(v, p, 0);
      RunLength(v, Step(v, p, 0), 1);
    }
  }

  /** The anchor invariant: every accumulated token has the metadata of the slot at
      its anchor, and anchors strictly increase and lie before position i. */
  predicate Anchored(p: Pass, i: nat) {
    && |p.anchors| == |p.out|
    && (forall k :: 0 <= k < |p.anchors| ==> p.anchors[k] < i && p.anchors[k] < |p.slots|)
    && (forall k :: 0 <= k < |p.anchors| ==> SameMetadata(p.out[k], p.slots[p.anchors[k]].token))
    && (forall k, l :: 0 <= k < l < |p.anchors| ==> p.anchors[k] < p.anchors[l])
  }

  lemma StepKeepsAnchored(v: Variant, p: Pass, i: nat)
    requires i < |p.slots| && Anchored(p, i)
    ensures Anchored(Step(v, p, i), i + 1)
  {
    var curr := p.slots[i];
    if curr.skip {
      assert Step(v, p, i) == p;
    } else if Forward(v, p.slots, i) {
      var next := p.slots[i + 1];
      var merged := curr.token.(surfaceForm := curr.token.surfaceForm + next.token.surfaceForm);
      var slots := p.slots[i + 1 := next.(skip := true)];
      assert Step(v, p, i) == Pass(slots, p.out + [merged], p.anchors + [i]);
      assert forall k :: 0 <= k < |slots| ==> slots[k].token == p.slots[k].token;
      AppendAnchored(Pass(slots, p.out, p.anchors), merged, i);
    } else if ShouldMergeWithPrev(v, curr.token) && p.out != [] {
      var prev := p.out[|p.out| - 1];
      var merged := prev.(surfaceForm := prev.surfaceForm + curr.token.surfaceForm);
      assert Step(v, p, i) == Pass(p.slots, p.out[..|p.out| - 1] + [merged], p.anchors);
      ReplaceLastAnchored(p, merged, i);
    } else {
      assert Step(v, p, i) == Pass(p.slots, p.out + [curr.token], p.anchors + [i]);
      AppendAnchored(p, curr.token, i);
    }
  }

  /** Appending a token anchored at position i keeps the invariant, one position on. */
  lemma AppendAnchored(p: Pass, t: Token, i: nat)
    requires i < |p.slots| && Anchored(p, i) && SameMetadata(t, p.slots[i].token)
    ensures Anchored(Pass(p.slots, p.out + [t], p.anchors + [i]), i + 1)
  {
    var q := Pass(p.slots, p.out + [t], p.anchors + [i]);
    forall k | 0 <= k < |q.anchors| ensures SameMetadata(q.out[k], q.slots[q.anchors[k]].token) {
      if k < |p.anchors| { assert q.out[k] == p.out[k] && q.anchors[k] == p.anchors[k]; }
    }
  }

  /** Replacing the last token by one with the same metadata keeps the invariant. */
  lemma ReplaceLastAnchored(p: Pass, t: Token, i: nat)
    requires i < |p.slots| && Anchored(p, i) && p.out != [] && SameMetadata(t, p.out[|p.out| - 1])
    ensures Anchored(Pass(p.slots, p.out[..|p.out| - 1] + [t], p.anchors), i + 1)
  {
    var q := Pass(p.slots, p.out[..|p.out| - 1] + [t], p.anchors);
    forall k | 0 <= k < |q.anchors| ensures SameMetadata(q.out[k], q.slots[q.anchors[k]].token) {
      if k < |p.anchors| - 1 { assert q.out[k] == p.out[k]; }
    }
  }

  lemma {:induction false} RunKeepsAnchored(v: Variant, p: Pass, i: nat)
    requires i <= |p.slots| && Anchored(p, i)
    ensures Anchored(Run(v, p, i), |p.slots|)
    ensures TokensOf(Run(v, p, i).slots) == TokensOf(p.slots)
    decreases |p.slots| - i
  {
    if i < |p.slots| {
      StepKeepsAnchored(v, p, i);
      StepCases(v, p, i);
      RunKeepsAnchored(v, Step(v, p, i), i + 1);
    }
  }

  /** Every output token carries, apart from its surface form, the metadata of one
      input token (its anchor); the anchors strictly increase, so tokens are never
      reordered. */
  lemma OutputAnchored(v: Variant, s: seq<Slot>)
    ensures |Reduce(v, s).anchors| == |Reduce(v, s).out|
    ensures forall k :: 0 <= k < |Reduce(v, s).out| ==>
      Reduce(v, s).anchors[k] < |s| && SameMetadata(Reduce(v, s).out[k], s[Reduce(v, s).anchors[k]].token)
    ensures forall k, l :: 0 <= k < l < |Reduce(v, s).out| ==> Reduce(v, s).anchors[k] < Reduce(v, s).anchors[l]
  {
    var p := Pass(s, [], []);
    RunKeepsAnchored(v, p, 0);
    var r := Reduce(v, s);
    forall k | 0 <= k < |r.out|
      ensures r.anchors[k] < |s| && SameMetadata(r.out[k], s[r.anchors[k]].token)
    {
      assert TokensOf(r.slots)[r.anchors[k]] == TokensOf(s)[r.anchors[k]];
    }
  }

  /** The marks left in the array: slot j is marked exactly when slot j-1 was not
      marked and the forward test fired between the tokens at j-1 and j. */
  predicate MarkedByForward(v: Variant, s: seq<Slot>, ts: seq<Token>, upTo: nat)
    requires |s| == |ts|
  {
    && (|s| > 0 ==> !s[0].skip)
    && forall j :: 0 < j < |s| && j <= upTo ==>
         (s[j].skip <==> !s[j - 1].skip && ShouldMergeWithNext(v, ts[j - 1], ts[j]))
  }

  /** What the reduction has done to the array up to position i. */
  predicate Marked(v: Variant, s: seq<Slot>, ts: seq<Token>, i: nat) {
    && |s| == |ts|
    && (forall k :: 0 <= k < |s| ==> s[k].token == ts[k])
    && UnmarkedAfter(s, i)
    && MarkedByForward(v, s, ts, i)
  }

  lemma StepKeepsMarked(v: Variant, p: Pass, ts: seq<Token>, i: nat)
    requires i < |p.slots| && Marked(v, p.slots, ts, i)
    ensures Marked(v, Step(v, p, i).slots, ts, i + 1)
  {
    var r := Step(v, p, i);
    if !p.slots[i].skip && Forward(v, p.slots, i) {
      assert r.slots == p.slots[i + 1 := p.slots[i + 1].(skip := true)];
    } else {
      assert r.slots == p.slots;
    }
  }

  lemma {:induction false} RunKeepsMarked(v: Variant, p: Pass, ts: seq<Token>, i: nat)
    requires i <= |p.slots| && Marked(v, p.slots, ts, i)
    ensures Marked(v, Run(v, p, i).slots, ts, |p.slots|)
    decreases |p.slots| - i
  {
    if i < |p.slots| {
      StepKeepsMarked(v, p, ts, i);
      RunKeepsMarked(v, Step(v, p, i), ts, i + 1);
    }
  }

  /** After the pass the only change to the tokenizer's array is a `skip` mark on
      each slot consumed by a forward merge of its predecessor. */
  lemma ArrayMarks(v: Variant, ts: seq<Token>)
    ensures |Reduce(v, Unmarked(ts)).slots| == |ts|
    ensures forall k :: 0 <= k < |ts| ==> Reduce(v, Unmarked(ts)).slots[k].token == ts[k]
    ensures MarkedByForward(v, Reduce(v, Unmarked(ts)).slots, ts, |ts|)
  {
    RunKeepsMarked(v, Pass(Unmarked(ts), [], []), ts, 0);
  }

  // ---------------------------------------------------------------------------
  // Worked examples
  // ---------------------------------------------------------------------------

  /** A known token with the given surface/basic form and tags; other fields blank. */
  function Known(surface: string, basic: string, pos: string, detail1: string, detail2: string,
                 conjType: string, conjForm: string): Token
  {
    Token(0, "KNOWN", 1, surface, pos, detail1, detail2, "*", conjType, conjForm, basic, "", "")
  }

  /** 食べ (連用形) followed by the auxiliary た fuse forward into 食べた, which keeps
      食べ's metadata; the second slot is left marked. */
  lemma TabetaMergesForward(v: Variant)
    ensures
      var tabe := Known("食べ", "食べる", "動詞", "自立", "*", "一段", "連用形");
      var ta := Known("た", "た", "助動詞", "*", "*", "特殊・タ", "基本形");
      var r := Reduce(v, Unmarked([tabe, ta]));
      r.out == [tabe.(surfaceForm := "食べた")] && r.slots == [Slot(tabe, false), Slot(ta, true)]
  {
    var tabe := Known("食べ", "食べる", "動詞", "自立", "*", "一段", "連用形");
    var ta := Known("た", "た", "助動詞", "*", "*", "特殊・タ", "基本形");
    var p0 := Pass(Unmarked([tabe, ta]), [], []);
    assert Forward(v, p0.slots, 0);
    assert tabe.surfaceForm + ta.surfaceForm == "食べた";
    var p1 := Step(v, p0, 0);
    assert p1.slots[1].skip;
    assert Step(v, p1, 1) == p1;
    assert Run(v, p0, 0) == Run(v, p1, 1) == Run(v, p1, 2) == p1;
  }

  /** The passive 書か + れる (未然形 before a 接尾 verb) is the one pair that only the
      getTokens.ts rules fuse: they give 書かれる with 書か's metadata, while the rules of
      getTextTokens.ts leave both tokens unchanged. */
  lemma KakareruSeparatesVariants()
    ensures
      var kaka := Known("書か", "書く", "動詞", "自立", "*", "五段・カ行イ音便", "未然形");
      var reru := Known("れる", "れる", "動詞", "接尾", "*", "一段", "基本形");
      && Reduce(Tokens, Unmarked([kaka, reru])).out == [kaka.(surfaceForm := "書かれる")]
      && Reduce(TextTokens, Unmarked([kaka, reru])).out == [kaka, reru]
  {
    var kaka := Known("書か", "書く", "動詞", "自立", "*", "五段・カ行イ音便", "未然形");
    var reru := Known("れる", "れる", "動詞", "接尾", "*", "一段", "基本形");
    var p0 := Pass(Unmarked([kaka, reru]), [], []);
    assert kaka.surfaceForm + reru.surfaceForm == "書かれる";
    assert Forward(Tokens, p0.slots, 0);
    var p1 := Step(Tokens, p0, 0);
    assert p1.slots[1].skip;
    assert Step(Tokens, p1, 1) == p1;
    assert Run(Tokens, p0, 0) == Run(Tokens, p1, 1) == Run(Tokens, p1, 2) == p1;
    assert !Forward(TextTokens, p0.slots, 0);
    var q1 := Step(TextTokens, p0, 0);
    assert q1 == Pass(p0.slots, [kaka], [0]);
    assert !Forward(TextTokens, q1.slots, 1);
    var q2 := Step(TextTokens, q1, 1);
    assert q2 == Pass(p0.slots, [kaka, reru], [0, 1]);
    assert Run(TextTokens, p0, 0) == Run(TextTokens, q1, 1) == Run(TextTokens, q2, 2) == q2;
  }

  /** The auxiliary な in 体言接続 after 元気 fuses backward into 元気な, which keeps
      元気's metadata. */
  lemma GenkinaMergesBackward(v: Variant)
    ensures
      var genki := Known("元気", "元気", "名詞", "形容動詞語幹", "*", "*", "*");
      var na := Known("な", "だ", "助動詞", "*", "*", "特殊・ダ", "体言接続");
      Reduce(v, Unmarked([genki, na])).out == [genki.(surfaceForm := "元気な")]
  {
    var genki := Known("元気", "元気", "名詞", "形容動詞語幹", "*", "*", "*");
    var na := Known("な", "だ", "助動詞", "*", "*", "特殊・ダ", "体言接続");
    var p0 := Pass(Unmarked([genki, na]), [], []);
    assert !Forward(v, p0.slots, 0);
    var p1 := Step(v, p0, 0);
    assert p1 == Pass(p0.slots, [genki], [0]);
    assert !Forward(v, p1.slots, 1) && ShouldMergeWithPrev(v, na);
    assert genki.surfaceForm + na.surfaceForm == "元気な";
    var p2 := Step(v, p1, 1);
    assert p2.out == [genki.(surfaceForm := "元気な")];
    assert Run(v, p0, 0) == Run(v, p1, 1) == Run(v, p2, 2) == p2;
  }
}
