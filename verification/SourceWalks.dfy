/**
 The stamp of a checkout over all the orders its directories can be read in: one stamp if and only if no
 stamped name is claimed by two contents.
 */
module SourceWalks {
  import opened Common
  import opened SourceStamp
  import opened SourceTree
  import opened SourceNames

  // ---------------------------------------------------------------- some order exists

  lemma {:induction false} AnyOrder(path: Bytes, node: Node) returns (o: Order)
    ensures Orders(path, node, o)
    decreases node, 2, 0
  {
    o := Order([]);
    if node.Dir? {
      var steps := AnyPartOrder(path, node, node.children);
      o := Order(steps);
    }
  }

  lemma {:induction false} AnyPartOrder(path: Bytes, node: Node, part: map<Bytes, Node>) returns (steps: seq<Visit>)
    requires PartOf(part, node)
    ensures OrdersPart(path, node, part, steps)
    decreases node, 1, |part|
  {
    steps := [];
    if part != map[] {
      var k :| k in part;
      var front := AnyPartOrder(path, node, part - {k});
      var below := AnyOrder(Join(path, k), node.children[k]);
      VisitNext(path, node, part, part - {k}, front, Visit(k, below));
      steps := front + [Visit(k, below)];
    }
  }

  // ---------------------------------------------------------------- entries of one name

  lemma {:induction false} OfNameJoin(a: seq<Entry>, b: seq<Entry>, name: Bytes)
    ensures OfName(a + b, name) == OfName(a, name) + OfName(b, name)
  {
    if a == [] {
      assert a + b == b;
    } else {
      assert (a + b)[1..] == a[1..] + b;
      OfNameJoin(a[1..], b, name);
    }
  }

  lemma {:induction false} OfNameMember(s: seq<Entry>, e: Entry)
    requires e in s
    ensures e in OfName(s, e.name)
  {
    if s[0] != e {
      OfNameMember(s[1..], e);
    }
  }

  lemma {:induction false} OfNameSound(s: seq<Entry>, name: Bytes)
    ensures forall i :: 0 <= i < |OfName(s, name)| ==> OfName(s, name)[i] in s && OfName(s, name)[i].name == name
  {
    if s != [] {
      OfNameSound(s[1..], name);
    }
  }

  /** Different entries of a name in different orders are stamped differently. */
  lemma OrderShows(a: seq<Entry>, b: seq<Entry>, name: Bytes)
    requires AllRepresentable(a) && AllRepresentable(b) && OfName(a, name) != OfName(b, name)
    ensures StampOf(a) != StampOf(b)
  {
    SortStable(a, name);
    SortStable(b, name);
    RepresentableSorted(a);
    RepresentableSorted(b);
    if Stream(Sorted(a)) == Stream(Sorted(b)) {
      StreamInjective(Sorted(a), Sorted(b));
    }
  }

  lemma AfterSamePrefix(x: seq<Entry>, a: seq<Entry>, b: seq<Entry>)
    requires a != b
    ensures x + a != x + b
  {
    assert (x + a)[|x|..] == a && (x + b)[|x|..] == b;
  }

  lemma BeforeSameSuffix(a: seq<Entry>, b: seq<Entry>, x: seq<Entry>)
    requires a != b
    ensures a + x != b + x
  {
    assert (a + x)[..|a|] == a && (b + x)[..|b|] == b;
  }

  // ---------------------------------------------------------------- two orders that differ

  /** Two orders of one node that list the entries of a name differently. */
  ghost predicate Differ(path: Bytes, node: Node, o: Order, o': Order, name: Bytes) {
    && Orders(path, node, o) && Orders(path, node, o')
    && OfName(Walked(path, node, o), name) != OfName(Walked(path, node, o'), name)
  }

  /** Two contents with one name in a node. */
  predicate Clash(d: Entry, e: Entry) {
    d.name == e.name && d != e
  }

  lemma {:induction false} ChildOf(path: Bytes, node: Node, part: map<Bytes, Node>, e: Entry) returns (k: Bytes)
    requires PartOf(part, node) && e in FilesIn(path, node, part)
    ensures k in part && e in ChildFiles(path, node, k)
    decreases |part|
  {
    k :| k in part;
    FilesAnyFirst(path, node, part, k);
    if e !in ChildFiles(path, node, k) {
      k := ChildOf(path, node, part - {k}, e);
    }
  }

  /** Where two contents claim one name, some two orders list them differently: swap the entries at the fork. */
  lemma {:induction false} ClashShows(path: Bytes, node: Node, d: Entry, e: Entry) returns (o: Order, o': Order)
    requires d in Files(path, node) && e in Files(path, node) && Clash(d, e)
    ensures Differ(path, node, o, o', d.name)
    decreases node
  {
    var k := ChildOf(path, node, node.children, d);
    var l := ChildOf(path, node, node.children, e);
    if e in ChildFiles(path, node, k) {
      var below, below' := ClashShows(Join(path, k), node.children[k], d, e);
      o, o' := DifferBelow(path, node, k, below, below', d.name);
    } else {
      var a := AnyOrder(Join(path, k), node.children[k]);
      var b := AnyOrder(Join(path, l), node.children[l]);
      WalkedFiles(Join(path, k), node.children[k], a);
      WalkedFiles(Join(path, l), node.children[l], b);
      var x, y := Visited(path, node, Visit(k, a)), Visited(path, node, Visit(l, b));
      if exists d' :: d' in x && d'.name == d.name && d' in y {
        // the name has two contents in the entry `l` alone
        var d' :| d' in x && d'.name == d.name && d' in y;
        var below, below' := ClashShows(Join(path, l), node.children[l], d', e);
        o, o' := DifferBelow(path, node, l, below, below', d.name);
      } else {
        o, o' := SwapAtFork(path, node, Visit(k, a), Visit(l, b), d, e);
      }
    }
  }

  /** Orders that differ below one entry differ above it. */
  lemma DifferBelow(path: Bytes, node: Node, k: Bytes, below: Order, below': Order, name: Bytes)
    returns (o: Order, o': Order)
    requires node.Dir? && Slashed(path) != UPSTREAM && k in node.children && k !in SKIPPED
    requires Differ(Join(path, k), node.children[k], below, below', name)
    ensures Differ(path, node, o, o', name)
  {
    var rest := AnyPartOrder(path, node, node.children - {k});
    VisitNext(path, node, node.children, node.children - {k}, rest, Visit(k, below));
    VisitNext(path, node, node.children, node.children - {k}, rest, Visit(k, below'));
    o, o' := Order(rest + [Visit(k, below)]), Order(rest + [Visit(k, below')]);
    var before := WalkedPart(path, node, node.children - {k}, rest);
    var x, x' := Walked(Join(path, k), node.children[k], below), Walked(Join(path, k), node.children[k], below');
    OfNameJoin(before, x, name);
    OfNameJoin(before, x', name);
    AfterSamePrefix(OfName(before, name), OfName(x, name), OfName(x', name));
  }

  /** The two entries at the fork, read last, in either order. */
  lemma SwapAtFork(path: Bytes, node: Node, v: Visit, w: Visit, d: Entry, e: Entry) returns (o: Order, o': Order)
    requires node.Dir? && Slashed(path) != UPSTREAM && v.name != w.name
    requires v.name in node.children && v.name !in SKIPPED && Orders(Join(path, v.name), node.children[v.name], v.below)
    requires w.name in node.children && w.name !in SKIPPED && Orders(Join(path, w.name), node.children[w.name], w.below)
    requires d in Visited(path, node, v) && e in Visited(path, node, w) && d.name == e.name
    requires forall f :: f in Visited(path, node, v) && f.name == d.name ==> f !in Visited(path, node, w)
    ensures Differ(path, node, o, o', d.name)
  {
    var both := node.children - {v.name} - {w.name};
    var rest := AnyPartOrder(path, node, both);
    TwoMore(path, node, rest, v, w);
    assert node.children - {w.name} - {v.name} == both;
    TwoMore(path, node, rest, w, v);
    o, o' := Order(rest + [w] + [v]), Order(rest + [v] + [w]);
    var before := WalkedPart(path, node, both, rest);
    HeadsDiffer(before, Visited(path, node, v), Visited(path, node, w), d, e);
  }

  /** Reading `w` and then `v` after the rest. */
  lemma TwoMore(path: Bytes, node: Node, rest: seq<Visit>, v: Visit, w: Visit)
    requires node.Dir? && Slashed(path) != UPSTREAM && v.name != w.name
    requires v.name in node.children && v.name !in SKIPPED && Orders(Join(path, v.name), node.children[v.name], v.below)
    requires w.name in node.children && w.name !in SKIPPED && Orders(Join(path, w.name), node.children[w.name], w.below)
    requires OrdersPart(path, node, node.children - {v.name} - {w.name}, rest)
    ensures Orders(path, node, Order(rest + [w] + [v]))
    ensures Walked(path, node, Order(rest + [w] + [v]))
         == WalkedPart(path, node, node.children - {v.name} - {w.name}, rest) + Visited(path, node, w)
             + Visited(path, node, v)
  {
    VisitNext(path, node, node.children - {v.name}, node.children - {v.name} - {w.name}, rest, w);
    VisitNext(path, node, node.children, node.children - {v.name}, rest + [w], v);
  }

  lemma HeadsDiffer(before: seq<Entry>, x: seq<Entry>, y: seq<Entry>, d: Entry, e: Entry)
    requires d in x && e in y && d.name == e.name
    requires forall f :: f in x && f.name == d.name ==> f !in y
    ensures OfName(before + y + x, d.name) != OfName(before + x + y, d.name)
  {
    var name := d.name;
    var p, q, r := OfName(before, name), OfName(x, name), OfName(y, name);
    OfNameJoin(before + y, x, name);
    OfNameJoin(before, y, name);
    OfNameJoin(before + x, y, name);
    OfNameJoin(before, x, name);
    OfNameMember(x, d);
    OfNameMember(y, e);
    OfNameSound(x, name);
    OfNameSound(y, name);
    assert q[0] in x && r[0] in y && q[0] != r[0];
    assert (p + r + q)[|p|] == r[0] && (p + q + r)[|p|] == q[0];
  }

  // ---------------------------------------------------------------- the roots

  lemma AnyRootOrders(root: map<Bytes, Node>, names: seq<Bytes>) returns (os: seq<Order>)
    ensures OrdersRoots(root, names, os)
  {
    os := [];
    for i := 0 to |names|
      invariant OrdersRoots(root, names[..i], os)
    {
      var o := Order([]);
      if names[i] in root {
        o := AnyOrder(names[i], root[names[i]]);
      }
      WalkNextRoot(root, names, i, os, o);
      os := os + [o];
    }
    assert names[..|names|] == names;
  }

  lemma {:induction false} RootsFiles(root: map<Bytes, Node>, names: seq<Bytes>, os: seq<Order>)
    requires OrdersRoots(root, names, os)
    ensures multiset(WalkedRoots(root, names, os)) == ListedFiles(root, names)
  {
    if names != [] {
      var n := |names| - 1;
      RootsFiles(root, names[..n], os[..n]);
      if names[n] in root {
        WalkedFiles(names[n], root[names[n]], os[n]);
      }
    }
  }

  /** Whatever is stamped under a path has a name at or below it, rewritten as the path is. */
  lemma {:induction false} StampedUnder(path: Bytes, node: Node, e: Entry)
    requires e in Files(path, node)
    ensures Under(e.name, Slashed(path))
    decreases node
  {
    if node.Dir? {
      var k := ChildOf(path, node, node.children, e);
      StampedUnder(Join(path, k), node.children[k], e);
      assert Slashed(Join(path, k)) == Join(Slashed(path), Slashed(k));
      UnderJoin(e.name, Slashed(path), Slashed(k));
    }
  }

  lemma RootsApartFiles(root: map<Bytes, Node>, r: Bytes, r': Bytes, d: Entry, e: Entry)
    requires Plain(r) && Plain(r') && r in root && r' in root && d.name == e.name
    requires d in Files(r, root[r]) && e in Files(r', root[r'])
    ensures r == r'
  {
    StampedUnder(r, root[r], d);
    StampedUnder(r', root[r'], e);
    assert Slashed(r) == r && Slashed(r') == r';
    assert [] + r == r && [] + r' == r';
    SiblingsApart(d.name, [], r, r');
  }

  lemma {:induction false} RootOf(root: map<Bytes, Node>, names: seq<Bytes>, e: Entry) returns (i: nat)
    requires e in ListedFiles(root, names)
    ensures i < |names| && names[i] in root && e in Files(names[i], root[names[i]])
  {
    var n := |names| - 1;
    if e in ListedFiles(root, names[..n]) {
      i := RootOf(root, names[..n], e);
    } else {
      i := n;
    }
  }

  /** Two contents of one name lie under one root, and some two orders of all roots list them differently. */
  lemma {:induction false} RootClashShows(root: map<Bytes, Node>, names: seq<Bytes>, i: nat, d: Entry, e: Entry)
    returns (os: seq<Order>, os': seq<Order>)
    requires i < |names| && names[i] in root && d in Files(names[i], root[names[i]])
            && e in Files(names[i], root[names[i]])
    requires Clash(d, e)
    ensures OrdersRoots(root, names, os) && OrdersRoots(root, names, os')
    ensures OfName(WalkedRoots(root, names, os), d.name) != OfName(WalkedRoots(root, names, os'), d.name)
    decreases |names|
  {
    var n := |names| - 1;
    assert names[..n + 1] == names;
    if i == n {
      var o, o' := ClashShows(names[n], root[names[n]], d, e);
      var front := AnyRootOrders(root, names[..n]);
      WalkNextRoot(root, names, n, front, o);
      WalkNextRoot(root, names, n, front, o');
      os, os' := front + [o], front + [o'];
      var before := WalkedRoots(root, names[..n], front);
      var x, x' := Walked(names[n], root[names[n]], o), Walked(names[n], root[names[n]], o');
      OfNameJoin(before, x, d.name);
      OfNameJoin(before, x', d.name);
      AfterSamePrefix(OfName(before, d.name), OfName(x, d.name), OfName(x', d.name));
    } else {
      var front, front' := RootClashShows(root, names[..n], i, d, e);
      var o := Order([]);
      if names[n] in root {
        o := AnyOrder(names[n], root[names[n]]);
      }
      WalkNextRoot(root, names, n, front, o);
      WalkNextRoot(root, names, n, front', o);
      os, os' := front + [o], front' + [o];
      var last := if names[n] in root then Walked(names[n], root[names[n]], o) else [];
      var x, x' := WalkedRoots(root, names[..n], front), WalkedRoots(root, names[..n], front');
      OfNameJoin(x, last, d.name);
      OfNameJoin(x', last, d.name);
      BeforeSameSuffix(OfName(x, d.name), OfName(x', d.name), OfName(last, d.name));
    }
  }

  // ---------------------------------------------------------------- the checkout

  /** All orders of reading the checkout's directories give one stamp. */
  ghost predicate OneStamp(root: map<Bytes, Node>) {
    forall os, os' :: OrdersCheckout(root, os) && OrdersCheckout(root, os')
                      ==> StampOf(WalkedCheckout(root, os)) == StampOf(WalkedCheckout(root, os'))
  }

  lemma RepresentableWalk(root: map<Bytes, Node>, os: seq<Order>)
    requires OrdersCheckout(root, os) && forall e :: e in CheckoutFiles(root) ==> Representable(e)
    ensures AllRepresentable(WalkedCheckout(root, os))
  {
    RootsFiles(root, ROOT_FILES + INPUT_DIRS, os);
    var es := WalkedCheckout(root, os);
    forall i | 0 <= i < |es|
      ensures Representable(es[i])
    {
      assert es[i] in multiset(es);
    }
  }

  /**
   A checkout has one stamp, in whatever order its directories are read, if and only if no stamped name is
   claimed by two contents. File names and contents are of lengths that fit 64 bits.
   */
  lemma OneStampIff(root: map<Bytes, Node>)
    requires forall e :: e in CheckoutFiles(root) ==> Representable(e)
    ensures OneStamp(root) <==> SourceStamp.Consistent(CheckoutFiles(root))
  {
    var names := ROOT_FILES + INPUT_DIRS;
    if SourceStamp.Consistent(CheckoutFiles(root)) {
      forall os, os' | OrdersCheckout(root, os) && OrdersCheckout(root, os')
        ensures StampOf(WalkedCheckout(root, os)) == StampOf(WalkedCheckout(root, os'))
      {
        RootsFiles(root, names, os);
        RootsFiles(root, names, os');
        StampUnique(root, WalkedCheckout(root, os), WalkedCheckout(root, os'));
      }
    } else {
      var d, e :| d in CheckoutFiles(root) && e in CheckoutFiles(root) && Clash(d, e);
      TwoStamps(root, d, e);
    }
  }

  lemma TwoStamps(root: map<Bytes, Node>, d: Entry, e: Entry)
    requires forall f :: f in CheckoutFiles(root) ==> Representable(f)
    requires d in CheckoutFiles(root) && e in CheckoutFiles(root) && Clash(d, e)
    ensures !OneStamp(root)
  {
    var names := ROOT_FILES + INPUT_DIRS;
    var i := RootOf(root, names, d);
    var j := RootOf(root, names, e);
    RootsDistinct();
    RootsApartFiles(root, names[i], names[j], d, e);
    var os, os' := RootClashShows(root, names, i, d, e);
    RepresentableWalk(root, os);
    RepresentableWalk(root, os');
    OrderShows(WalkedCheckout(root, os), WalkedCheckout(root, os'), d.name);
    assert OrdersCheckout(root, os) && OrdersCheckout(root, os');
  }

  lemma {:induction false} ListedHas(root: map<Bytes, Node>, names: seq<Bytes>, i: nat, e: Entry)
    requires i < |names| && names[i] in root && e in Files(names[i], root[names[i]])
    ensures e in ListedFiles(root, names)
    decreases |names|
  {
    if i < |names| - 1 {
      ListedHas(root, names[..|names| - 1], i, e);
    }
  }

  /** With a file `a\b` beside a directory `a` with another file `b`, the stamp depends on which is read first. */
  lemma BackslashTwoStamps(root: map<Bytes, Node>, i: nat, a: Bytes, b: Bytes, x: Bytes, y: Bytes)
    requires i < |ROOT_FILES + INPUT_DIRS| && (ROOT_FILES + INPUT_DIRS)[i] in root
    requires BackslashBeside((ROOT_FILES + INPUT_DIRS)[i], root[(ROOT_FILES + INPUT_DIRS)[i]], a, b, x, y)
    requires forall e :: e in CheckoutFiles(root) ==> Representable(e)
    ensures !OneStamp(root)
  {
    var names := ROOT_FILES + INPUT_DIRS;
    BackslashCollides(names[i], root[names[i]], a, b, x, y);
    var d, e :| d in Files(names[i], root[names[i]]) && e in Files(names[i], root[names[i]]) && Clash(d, e);
    ListedHas(root, names, i, d);
    ListedHas(root, names, i, e);
    TwoStamps(root, d, e);
  }
}
