/** The queueing loops of `workOnConfig` (dump.js): which pages are handed
    to the export pool, in which order, and under which tree root.

    `search(cql)` is what `paginated_fetch` settled to for the search
    query `cql`: a list, or `None` for the `undefined` a failed fetch
    yields. Iterating over `undefined` throws a TypeError out of `main`,
    which has no handler, so the whole run ends: this config's sweep and
    every later config are skipped. `threw` records it, and `entries` are
    then the pages queued before the throw. */
module Discovery {
  import opened Wrappers
  import opened Content

  /** One queued export: a page and, for a child of a tree root, that root. */
  datatype Entry = Entry(page: ContentItem, root: Option<ContentItem>)

  datatype Queue = Queue(entries: seq<Entry>, threw: bool)

  type Search = string -> Option<seq<ContentItem>>

  /** Flat search results, queued with no root. */
  function Singles(pages: seq<ContentItem>): (es: seq<Entry>)
    ensures |es| == |pages|
    ensures forall i | 0 <= i < |es| :: es[i] == Entry(pages[i], None)
  {
    seq(|pages|, i requires 0 <= i < |pages| => Entry(pages[i], None))
  }

  /** The children of `root`, each queued under `root`. */
  function ChildEntries(root: ContentItem, kids: seq<ContentItem>): (es: seq<Entry>)
    ensures |es| == |kids|
    ensures forall i | 0 <= i < |es| :: es[i] == Entry(kids[i], Some(root))
  {
    seq(|kids|, i requires 0 <= i < |kids| => Entry(kids[i], Some(root)))
  }

  /** The number of children the child queries of `roots` returned. */
  function ChildCount(roots: seq<ContentItem>, search: Search): nat {
    if |roots| == 0 then 0
    else |search(ChildCql(roots[0])).GetOr([])| + ChildCount(roots[1..], search)
  }

  /** The child query of some root in `roots` yielded no value. */
  predicate SomeChildQueryFailed(roots: seq<ContentItem>, search: Search) {
    exists i | 0 <= i < |roots| :: search(ChildCql(roots[i])).None?
  }

  /** `e` is a direct child of one of `roots`, as its root's child query
      returned it. */
  predicate IsChildOf(e: Entry, roots: seq<ContentItem>, search: Search) {
    && e.root.Some?
    && e.root.value in roots
    && search(ChildCql(e.root.value)).Some?
    && e.page in search(ChildCql(e.root.value)).value
  }

  /** The loop over tree roots: each root, then each of its direct children
      (one level only) under it. */
  function ExpandTrees(roots: seq<ContentItem>, search: Search): Queue {
    if |roots| == 0 then Queue([], false)
    else
      var root := roots[0];
      match search(ChildCql(root))
      case None => Queue([Entry(root, None)], true)
      case Some(kids) =>
        var rest := ExpandTrees(roots[1..], search);
        Queue([Entry(root, None)] + ChildEntries(root, kids) + rest.entries, rest.threw)
  }

  /** The tree loop throws exactly when some root's child query yields no
      value; otherwise it queues every root and every child returned. */
  lemma {:induction false} ExpandTreesOutcome(roots: seq<ContentItem>, search: Search)
    ensures var q := ExpandTrees(roots, search);
      && (q.threw <==> SomeChildQueryFailed(roots, search))
      && (!q.threw ==> |q.entries| == |roots| + ChildCount(roots, search))
    decreases |roots|
  {
    if |roots| > 0 && search(ChildCql(roots[0])).Some? {
      ExpandTreesOutcome(roots[1..], search);
      assert forall i | 1 <= i < |roots| :: roots[i] == roots[1..][i - 1];
    }
  }

  /** Every queued tree entry is a root with no root, or a direct child of
      a root under that root, as its child query returned it. */
  lemma {:induction false} ExpandTreesSound(roots: seq<ContentItem>, search: Search)
    ensures forall e | e in ExpandTrees(roots, search).entries ::
              if e.root.None? then e.page in roots else IsChildOf(e, roots, search)
    decreases |roots|
  {
    if |roots| > 0 && search(ChildCql(roots[0])).Some? {
      var root := roots[0];
      var kids := search(ChildCql(root)).value;
      var rest := ExpandTrees(roots[1..], search);
      ExpandTreesSound(roots[1..], search);
      var block := ChildEntries(root, kids);
      assert ExpandTrees(roots, search).entries == [Entry(root, None)] + block + rest.entries;
      forall e | e in ExpandTrees(roots, search).entries
        ensures if e.root.None? then e.page in roots else IsChildOf(e, roots, search)
      {
        if e in block {
          var i :| 0 <= i < |block| && block[i] == e;
          assert e == Entry(kids[i], Some(root));
        } else if e in rest.entries {
          if e.root.None? {
            assert e.page in roots[1..];
          } else {
            assert e.root.value in roots[1..];
          }
        }
      }
    }
  }

  /** Both loops: every flat search result with no root, then the trees. */
  function Discover(search: Search, cqlSingle: string, cqlTree: string): (q: Queue)
    ensures q.threw <==> || search(cqlSingle).None? || search(cqlTree).None?
                         || SomeChildQueryFailed(search(cqlTree).value, search)
    ensures search(cqlSingle).None? ==> q.entries == []
    ensures search(cqlSingle).Some? ==> Singles(search(cqlSingle).value) <= q.entries
    ensures !q.threw ==>
      |q.entries| == |search(cqlSingle).value| + |search(cqlTree).value| + ChildCount(search(cqlTree).value, search)
  {
    match search(cqlSingle)
    case None => Queue([], true)
    case Some(singles) =>
      match search(cqlTree)
      case None => Queue(Singles(singles), true)
      case Some(roots) =>
        ExpandTreesOutcome(roots, search);
        var trees := ExpandTrees(roots, search);
        Queue(Singles(singles) + trees.entries, trees.threw)
  }

  /** Roots are expanded one after another: when the roots of `a` all
      expand, the roots of `a + b` queue `a`'s block and then `b`'s. */
  lemma {:induction false} ExpandTreesAppend(a: seq<ContentItem>, b: seq<ContentItem>, search: Search)
    requires !ExpandTrees(a, search).threw
    ensures ExpandTrees(a + b, search)
            == Queue(ExpandTrees(a, search).entries + ExpandTrees(b, search).entries, ExpandTrees(b, search).threw)
    decreases |a|
  {
    if |a| == 0 {
      assert a + b == b;
    } else {
      var ab := a + b;
      var kids := search(ChildCql(a[0])).value;
      var head := [Entry(a[0], None)] + ChildEntries(a[0], kids);
      var restA := ExpandTrees(a[1..], search);
      var restAB := ExpandTrees(a[1..] + b, search);
      var tail := ExpandTrees(b, search);
      assert ExpandTrees(a, search) == Queue(head + restA.entries, restA.threw);
      assert ExpandTrees(ab, search) == Queue(head + restAB.entries, restAB.threw) by {
        assert ab[0] == a[0] && ab[1..] == a[1..] + b;
      }
      assert restAB == Queue(restA.entries + tail.entries, tail.threw) by {
        ExpandTreesAppend(a[1..], b, search);
      }
      assert head + restAB.entries == (head + restA.entries) + tail.entries;
    }
  }

  /** One root queues itself with no root, then each child it returned, in
      the order returned, under it. */
  lemma OneTree(root: ContentItem, search: Search)
    ensures var kids := search(ChildCql(root));
      ExpandTrees([root], search)
      == if kids.None? then Queue([Entry(root, None)], true)
         else Queue([Entry(root, None)] + ChildEntries(root, kids.value), false)
  {
    var kids := search(ChildCql(root));
    if kids.Some? {
      assert ExpandTrees([root][1..], search) == Queue([], false);
    }
  }

  /** When every child query succeeds, every root and every child it
      returned is queued. */
  lemma {:induction false} ExpandTreesComplete(roots: seq<ContentItem>, search: Search)
    requires !SomeChildQueryFailed(roots, search)
    ensures forall r | r in roots :: Entry(r, None) in ExpandTrees(roots, search).entries
    ensures forall r, c | r in roots && c in search(ChildCql(r)).value ::
              Entry(c, Some(r)) in ExpandTrees(roots, search).entries
    decreases |roots|
  {
    if |roots| > 0 {
      var root := roots[0];
      assert search(ChildCql(roots[0])).Some?;
      var kids := search(ChildCql(root)).value;
      assert !SomeChildQueryFailed(roots[1..], search) by {
        forall i | 0 <= i < |roots[1..]| ensures search(ChildCql(roots[1..][i])).Some? {
          assert roots[1..][i] == roots[i + 1];
        }
      }
      ExpandTreesComplete(roots[1..], search);
      var rest := ExpandTrees(roots[1..], search);
      var block := [Entry(root, None)] + ChildEntries(root, kids);
      assert ExpandTrees(roots, search).entries == block + rest.entries;
      forall c | c in kids ensures Entry(c, Some(root)) in block {
        var i :| 0 <= i < |kids| && kids[i] == c;
        assert block[i + 1] == Entry(c, Some(root));
      }
      forall r | r in roots ensures r == root || r in roots[1..] {
        var i :| 0 <= i < |roots| && roots[i] == r;
        if i > 0 { assert roots[1..][i - 1] == r; }
      }
    }
  }

  /** When nothing throws, the queue holds exactly the flat results and the
      tree roots with no root, and exactly the direct children of the tree
      roots under their root: nothing else, and no grandchildren. */
  lemma DiscoverMembership(search: Search, cqlSingle: string, cqlTree: string)
    requires !Discover(search, cqlSingle, cqlTree).threw
    ensures var q := Discover(search, cqlSingle, cqlTree);
      var singles := search(cqlSingle).value;
      var roots := search(cqlTree).value;
      && (forall p :: Entry(p, None) in q.entries <==> p in singles || p in roots)
      && (forall p, r :: Entry(p, Some(r)) in q.entries <==> IsChildOf(Entry(p, Some(r)), roots, search))
  {
    var singles := search(cqlSingle).value;
    var roots := search(cqlTree).value;
    var trees := ExpandTrees(roots, search);
    var q := Discover(search, cqlSingle, cqlTree);
    assert q.entries == Singles(singles) + trees.entries;
    ExpandTreesComplete(roots, search);
    ExpandTreesSound(roots, search);
    forall p | p in singles ensures Entry(p, None) in q.entries {
      var i :| 0 <= i < |singles| && singles[i] == p;
      assert q.entries[i] == Entry(p, None);
    }
    forall e | e in Singles(singles) ensures e.root.None? && e.page in singles {
      var i :| 0 <= i < |singles| && Singles(singles)[i] == e;
    }
  }

  /** Two flat results and one tree root with two children queue exactly
      five exports: the two pages, the root, then its two children under it. */
  lemma FiveExportsScenario(search: Search, cqlSingle: string, cqlTree: string,
                            s1: ContentItem, s2: ContentItem, root: ContentItem, c1: ContentItem, c2: ContentItem)
    requires search(cqlSingle) == Some([s1, s2])
    requires search(cqlTree) == Some([root])
    requires search(ChildCql(root)) == Some([c1, c2])
    ensures Discover(search, cqlSingle, cqlTree)
            == Queue([Entry(s1, None), Entry(s2, None), Entry(root, None),
                      Entry(c1, Some(root)), Entry(c2, Some(root))], false)
  {
    OneTree(root, search);
    assert Singles([s1, s2]) == [Entry(s1, None), Entry(s2, None)];
    assert ChildEntries(root, [c1, c2]) == [Entry(c1, Some(root)), Entry(c2, Some(root))];
  }
}
