/** Child rows that point at a parent row by its generated id: the junction tables
    `kanji_tag`, `kana_tag` and `sense_pos`, and the `sense_id` column of `gloss`.
    `FanOut` is what nested `forEach` loops produce: for each parent in order, one
    link per child value, in order. */
module Links {
  import opened Schema
  import opened Jmdict

  /** A row `(parent_id, value)`. */
  datatype Link = Link(parent: Uuid, value: string)

  /** One link from `parent` to each value, in order. */
  function LinksTo(parent: Uuid, values: seq<string>): (r: seq<Link>)
    ensures |r| == |values|
    ensures forall t :: 0 <= t < |values| ==> r[t] == Link(parent, values[t])
  {
    seq(|values|, t requires 0 <= t < |values| => Link(parent, values[t]))
  }

  /** The links of every parent, parent `ids[i]` having the values `children[i]`. */
  function FanOut(children: seq<seq<string>>, ids: seq<Uuid>): seq<Link>
    requires |children| == |ids|
  {
    if ids == [] then []
    else FanOut(children[..|ids| - 1], ids[..|ids| - 1]) + LinksTo(ids[|ids| - 1], children[|ids| - 1])
  }

  lemma FanOutSnoc(children: seq<seq<string>>, ids: seq<Uuid>, values: seq<string>, id: Uuid)
    requires |children| == |ids|
    ensures FanOut(children + [values], ids + [id]) == FanOut(children, ids) + LinksTo(id, values)
  {
    assert (children + [values])[..|ids|] == children;
    assert (ids + [id])[..|ids|] == ids;
  }

  /** The total number of child values. */
  function Total(children: seq<seq<string>>): nat {
    if children == [] then 0 else Total(children[..|children| - 1]) + |children[|children| - 1]|
  }

  /** There is exactly one link per child value. */
  lemma {:induction false} FanOutLength(children: seq<seq<string>>, ids: seq<Uuid>)
    requires |children| == |ids|
    ensures |FanOut(children, ids)| == Total(children)
  {
    if ids != [] {
      FanOutLength(children[..|ids| - 1], ids[..|ids| - 1]);
    }
  }

  /** Every link points at one of the parents. */
  lemma {:induction false} FanOutParents(children: seq<seq<string>>, ids: seq<Uuid>)
    requires |children| == |ids|
    ensures forall l :: l in FanOut(children, ids) ==> l.parent in ids
  {
    if ids != [] {
      var n := |ids| - 1;
      FanOutParents(children[..n], ids[..n]);
      forall l | l in FanOut(children, ids) ensures l.parent in ids {
        if l in FanOut(children[..n], ids[..n]) {
          assert l.parent in ids[..n];
        } else {
          assert l in LinksTo(ids[n], children[n]);
        }
      }
    }
  }

  /** The links pointing at `parent`, in order. */
  function LinksOf(links: seq<Link>, parent: Uuid): (r: seq<Link>)
    ensures forall l :: l in r ==> l in links && l.parent == parent
  {
    if links == [] then []
    else LinksOf(links[..|links| - 1], parent)
         + (if links[|links| - 1].parent == parent then [links[|links| - 1]] else [])
  }

  lemma {:induction false} LinksOfAppend(a: seq<Link>, b: seq<Link>, parent: Uuid)
    ensures LinksOf(a + b, parent) == LinksOf(a, parent) + LinksOf(b, parent)
    decreases |b|
  {
    if b == [] {
      assert a + b == a;
    } else {
      var n := |b| - 1;
      assert a + b == (a + b[..n]) + [b[n]];
      LinksOfSnoc(a + b[..n], b[n], parent);
      SplitLast(b);
      LinksOfSnoc(b[..n], b[n], parent);
      LinksOfAppend(a, b[..n], parent);
    }
  }

  lemma LinksOfSnoc(links: seq<Link>, l: Link, parent: Uuid)
    ensures LinksOf(links + [l], parent) == LinksOf(links, parent) + (if l.parent == parent then [l] else [])
  {
    assert (links + [l])[..|links|] == links;
  }

  /** Links that all point at `id` are all kept, or all dropped. */
  lemma {:induction false} LinksOfUniform(links: seq<Link>, id: Uuid, parent: Uuid)
    requires forall t :: 0 <= t < |links| ==> links[t].parent == id
    ensures LinksOf(links, parent) == if id == parent then links else []
  {
    if links != [] {
      var n := |links| - 1;
      var init, last := links[..n], links[n];
      assert forall t :: 0 <= t < |init| ==> init[t] == links[t];
      LinksOfUniform(init, id, parent);
      assert LinksOf(links, parent) == LinksOf(init, parent) + (if last.parent == parent then [last] else []);
      if id == parent {
        SplitLast(links);
      }
    }
  }

  lemma SplitLast<T>(s: seq<T>)
    requires s != []
    ensures s[..|s| - 1] + [s[|s| - 1]] == s
  {
  }

  lemma LinksOfLinksTo(id: Uuid, values: seq<string>, parent: Uuid)
    ensures LinksOf(LinksTo(id, values), parent) == if id == parent then LinksTo(id, values) else []
  {
    LinksOfUniform(LinksTo(id, values), id, parent);
  }

  /** With distinct parent ids, the links of parent `ids[i]` are exactly one per value of
      `children[i]`, in order: no link is lost, duplicated or attached to another parent. */
  lemma {:induction false} FanOutOfParent(children: seq<seq<string>>, ids: seq<Uuid>, i: nat)
    requires |children| == |ids| && Distinct(ids) && i < |ids|
    ensures LinksOf(FanOut(children, ids), ids[i]) == LinksTo(ids[i], children[i])
  {
    var n := |ids| - 1;
    FanOutSplit(children, ids, ids[i]);
    DistinctInit(ids);
    if i < n {
      assert ids[..n][i] == ids[i] && children[..n][i] == children[i];
      FanOutOfParent(children[..n], ids[..n], i);
    } else {
      FanOutLastParent(children, ids);
    }
  }

  /** The links of `parent` in a fan-out are those of all but the last parent, followed by
      the last parent's own links when it is `parent`. */
  lemma FanOutSplit(children: seq<seq<string>>, ids: seq<Uuid>, parent: Uuid)
    requires |children| == |ids| && ids != []
    ensures ids[|ids| - 1] != parent ==>
      LinksOf(FanOut(children, ids), parent) == LinksOf(FanOut(children[..|ids| - 1], ids[..|ids| - 1]), parent)
    ensures ids[|ids| - 1] == parent ==>
      LinksOf(FanOut(children, ids), parent)
        == LinksOf(FanOut(children[..|ids| - 1], ids[..|ids| - 1]), parent) + LinksTo(parent, children[|ids| - 1])
  {
    var n := |ids| - 1;
    var prefix := FanOut(children[..n], ids[..n]);
    var last := LinksTo(ids[n], children[n]);
    assert FanOut(children, ids) == prefix + last;
    LinksOfAppend(prefix, last, parent);
    LinksOfLinksTo(ids[n], children[n], parent);
    if ids[n] != parent {
      assert LinksOf(prefix, parent) + [] == LinksOf(prefix, parent);
    }
  }

  /** The last parent of a distinct sequence has no links among those of the others. */
  lemma FanOutLastParent(children: seq<seq<string>>, ids: seq<Uuid>)
    requires |children| == |ids| && ids != [] && ids[|ids| - 1] !in ids[..|ids| - 1]
    ensures LinksOf(FanOut(children[..|ids| - 1], ids[..|ids| - 1]), ids[|ids| - 1]) == []
  {
    var n := |ids| - 1;
    FanOutParents(children[..n], ids[..n]);
    NoLinksOfOther(FanOut(children[..n], ids[..n]), ids[..n], ids[n]);
  }

  lemma DistinctInit(ids: seq<Uuid>)
    requires Distinct(ids) && ids != []
    ensures Distinct(ids[..|ids| - 1]) && ids[|ids| - 1] !in ids[..|ids| - 1]
  {
    var n := |ids| - 1;
    forall a, b | 0 <= a < b < n ensures ids[..n][a] != ids[..n][b] {
      assert ids[..n][a] == ids[a] && ids[..n][b] == ids[b];
    }
  }

  lemma {:induction false} NoLinksOfOther(links: seq<Link>, ids: seq<Uuid>, parent: Uuid)
    requires forall l :: l in links ==> l.parent in ids
    requires parent !in ids
    ensures LinksOf(links, parent) == []
  {
    if links != [] {
      NoLinksOfOther(links[..|links| - 1], ids, parent);
    }
  }
}
