/** Walking a checkout: which files are stamped, in whatever order directories are read. */
module SourceTree {
  import opened Common
  import opened SourceStamp

  /** What the file system has at a path; a directory has no order of its own. */
  datatype Node = File(bytes: Bytes) | Dir(children: map<Bytes, Node>) | Symlink | Special

  const SLASH: byte := 0x2F
  const BACKSLASH: byte := 0x5C
  const ROOT_FILES := [Ascii("Cargo.toml"), Ascii("Cargo.lock"), Ascii("build.rs")]
  const INPUT_DIRS := [Ascii("src"), Ascii("crates"), Ascii("third_party"), Ascii("tools"), Ascii("build_support"),
                       Ascii("assets"), Ascii(".cargo")]
  const SKIPPED := [Ascii("target"), Ascii(".git"), Ascii(".dev_docs"), Ascii(".tmp")]
  const UPSTREAM := Ascii("third_party/xdelta3/xdelta3")

  function Join(path: Bytes, component: Bytes): Bytes {
    path + [SLASH] + component
  }

  /** The stamped name of a path. */
  function Slashed(path: Bytes): (name: Bytes)
    ensures |name| == |path|
  {
    seq(|path|, i requires 0 <= i < |path| => if path[i] == BACKSLASH then SLASH else path[i])
  }

  // ---------------------------------------------------------------- the specification

  /** The files under `path`, whatever the reading order. */
  ghost function Files(path: Bytes, node: Node): multiset<Entry>
    decreases node
  {
    if node.Symlink? || Slashed(path) == UPSTREAM then multiset{}
    else
      match node
      case File(bytes) => multiset{Entry(Slashed(path), Some(bytes))}
      case Dir(children) => FilesIn(path, node, children)
      case _ => multiset{}
  }

  ghost function FilesIn(path: Bytes, node: Node, part: map<Bytes, Node>): multiset<Entry>
    requires PartOf(part, node)
    decreases node, |part|
  {
    if part == map[] then multiset{}
    else
      var k :| k in part;
      ChildFiles(path, node, k) + FilesIn(path, node, part - {k})
  }

  ghost predicate PartOf(part: map<Bytes, Node>, node: Node) {
    node.Dir? && part.Keys <= node.children.Keys && forall k :: k in part ==> part[k] == node.children[k]
  }

  ghost function ChildFiles(path: Bytes, node: Node, k: Bytes): multiset<Entry>
    requires node.Dir? && k in node.children
    decreases node, 0, 0
  {
    if k in SKIPPED then multiset{} else Files(Join(path, k), node.children[k])
  }

  /** The walk stops with an error: a symbolic link or a special file where an input is expected. */
  ghost predicate Refused(path: Bytes, node: Node)
    decreases node
  {
    || node.Symlink?
    || (Slashed(path) != UPSTREAM
        && match node
           case Special => true
           case Dir(children) => exists k :: k in children && k !in SKIPPED && Refused(Join(path, k), children[k])
           case _ => false)
  }

  ghost predicate RefusedEntry(path: Bytes, node: Node, k: Bytes)
    requires node.Dir? && k in node.children
  {
    k !in SKIPPED && Refused(Join(path, k), node.children[k])
  }

  /** The fold over a directory may start with any of its entries. */
  lemma {:induction false} FilesAnyFirst(path: Bytes, node: Node, part: map<Bytes, Node>, k: Bytes)
    requires PartOf(part, node) && k in part
    ensures FilesIn(path, node, part) == ChildFiles(path, node, k) + FilesIn(path, node, part - {k})
    decreases |part|
  {
    var first :| first in part
        && FilesIn(path, node, part) == ChildFiles(path, node, first) + FilesIn(path, node, part - {first});
    if first != k {
      var rest := part - {first} - {k};
      assert rest == part - {k} - {first};
      FilesAnyFirst(path, node, part - {first}, k);
      FilesAnyFirst(path, node, part - {k}, first);
      Exchange(ChildFiles(path, node, first), ChildFiles(path, node, k), FilesIn(path, node, rest));
    }
  }

  lemma Exchange(a: multiset<Entry>, b: multiset<Entry>, c: multiset<Entry>)
    ensures a + (b + c) == b + (a + c)
  {
  }

  ghost function ListedFiles(root: map<Bytes, Node>, names: seq<Bytes>): multiset<Entry> {
    if names == [] then multiset{}
    else ListedFiles(root, names[..|names| - 1])
         + var last := names[|names| - 1]; if last in root then Files(last, root[last]) else multiset{}
  }

  /** The first `required` names exist, and nothing under any of them is refused. */
  ghost predicate AllWalkable(root: map<Bytes, Node>, names: seq<Bytes>, required: nat) {
    && (forall i :: 0 <= i < |names| && i < required ==> names[i] in root)
    && (forall i :: 0 <= i < |names| ==> names[i] in root ==> !Refused(names[i], root[names[i]]))
  }

  ghost predicate Walkable(root: map<Bytes, Node>, name: Bytes, required: bool) {
    if name in root then !Refused(name, root[name]) else !required
  }

  lemma WalkableStep(root: map<Bytes, Node>, names: seq<Bytes>, required: nat, i: nat)
    requires i < |names|
    ensures AllWalkable(root, names[..i + 1], required)
            <==> AllWalkable(root, names[..i], required) && Walkable(root, names[i], i < required)
    ensures AllWalkable(root, names, required) ==> Walkable(root, names[i], i < required)
  {
    var longer, shorter := names[..i + 1], names[..i];
    assert forall j :: 0 <= j < i ==> longer[j] == shorter[j];
    assert longer[i] == names[i];
  }

  lemma ListedStep(root: map<Bytes, Node>, names: seq<Bytes>, i: nat)
    requires i < |names|
    ensures ListedFiles(root, names[..i + 1])
            == ListedFiles(root, names[..i]) + if names[i] in root then Files(names[i], root[names[i]]) else multiset{}
  {
    assert names[..i + 1][..i] == names[..i];
  }

  /** Every stamped file of a checkout. */
  ghost function CheckoutFiles(root: map<Bytes, Node>): multiset<Entry> {
    ListedFiles(root, ROOT_FILES + INPUT_DIRS)
  }

  ghost predicate Acceptable(root: map<Bytes, Node>) {
    AllWalkable(root, ROOT_FILES + INPUT_DIRS, |ROOT_FILES|)
  }

  // ---------------------------------------------------------------- reading orders

  /** The order in which a directory's entries were read, each with the order below it. */
  datatype Order = Order(steps: seq<Visit>)

  datatype Visit = Visit(name: Bytes, below: Order)

  /** The order reads every entry of the directory once, and so on below. */
  ghost predicate Orders(path: Bytes, node: Node, o: Order)
    decreases node, 1 + |o.steps|
  {
    node.Dir? && Slashed(path) != UPSTREAM ==> OrdersPart(path, node, node.children, o.steps)
  }

  ghost predicate OrdersPart(path: Bytes, node: Node, part: map<Bytes, Node>, steps: seq<Visit>)
    requires PartOf(part, node)
    decreases node, |steps|
  {
    if steps == [] then part == map[]
    else
      var last := steps[|steps| - 1];
      && last.name in part
      && (last.name !in SKIPPED ==> Orders(Join(path, last.name), node.children[last.name], last.below))
      && OrdersPart(path, node, part - {last.name}, steps[..|steps| - 1])
  }

  /** What a walk below `path` pushes when it reads in this order. */
  ghost function Walked(path: Bytes, node: Node, o: Order): seq<Entry>
    requires Orders(path, node, o)
    decreases node, 1 + |o.steps|
  {
    if node.Symlink? || Slashed(path) == UPSTREAM then []
    else
      match node
      case File(bytes) => [Entry(Slashed(path), Some(bytes))]
      case Dir(children) => WalkedPart(path, node, children, o.steps)
      case _ => []
  }

  ghost function WalkedPart(path: Bytes, node: Node, part: map<Bytes, Node>, steps: seq<Visit>): seq<Entry>
    requires PartOf(part, node) && OrdersPart(path, node, part, steps)
    decreases node, |steps|
  {
    if steps == [] then []
    else
      var last := steps[|steps| - 1];
      WalkedPart(path, node, part - {last.name}, steps[..|steps| - 1])
      + if last.name in SKIPPED then [] else Walked(Join(path, last.name), node.children[last.name], last.below)
  }

  ghost function Visited(path: Bytes, node: Node, v: Visit): seq<Entry>
    requires node.Dir? && v.name in node.children
    requires v.name !in SKIPPED ==> Orders(Join(path, v.name), node.children[v.name], v.below)
  {
    if v.name in SKIPPED then [] else Walked(Join(path, v.name), node.children[v.name], v.below)
  }

  lemma VisitNext(path: Bytes, node: Node, part: map<Bytes, Node>, before: map<Bytes, Node>, steps: seq<Visit>,
                  v: Visit)
    requires PartOf(part, node) && PartOf(before, node) && v.name in part && before == part - {v.name}
    requires OrdersPart(path, node, before, steps)
    requires v.name !in SKIPPED ==> Orders(Join(path, v.name), node.children[v.name], v.below)
    ensures OrdersPart(path, node, part, steps + [v])
    ensures WalkedPart(path, node, part, steps + [v]) == WalkedPart(path, node, before, steps) + Visited(path, node, v)
  {
    var longer := steps + [v];
    assert longer[..|longer| - 1] == steps && longer[|longer| - 1] == v;
  }

  /** Whatever the order, the same files are pushed. */
  lemma {:induction false} WalkedFiles(path: Bytes, node: Node, o: Order)
    requires Orders(path, node, o)
    ensures multiset(Walked(path, node, o)) == Files(path, node)
    decreases node, 1 + |o.steps|
  {
    if node.Dir? && Slashed(path) != UPSTREAM {
      WalkedPartFiles(path, node, node.children, o.steps);
    }
  }

  lemma {:induction false} WalkedPartFiles(path: Bytes, node: Node, part: map<Bytes, Node>, steps: seq<Visit>)
    requires PartOf(part, node) && OrdersPart(path, node, part, steps)
    ensures multiset(WalkedPart(path, node, part, steps)) == FilesIn(path, node, part)
    decreases node, |steps|
  {
    if steps != [] {
      var last := steps[|steps| - 1];
      FilesAnyFirst(path, node, part, last.name);
      WalkedPartFiles(path, node, part - {last.name}, steps[..|steps| - 1]);
      if last.name !in SKIPPED {
        WalkedFiles(Join(path, last.name), node.children[last.name], last.below);
      }
    }
  }

  /** The visits so far cover what is no longer to do, and pushed `entries` onto `start`. */
  ghost predicate ReadSoFar(path: Bytes, node: Node, todo: map<Bytes, Node>, steps: seq<Visit>,
                            start: seq<Entry>, entries: seq<Entry>)
    requires PartOf(todo, node)
  {
    var done := node.children - todo.Keys;
    OrdersPart(path, node, done, steps) && entries == start + WalkedPart(path, node, done, steps)
  }

  lemma ReadNothing(path: Bytes, node: Node, todo: map<Bytes, Node>, start: seq<Entry>)
    requires node.Dir? && todo == node.children
    ensures ReadSoFar(path, node, todo, [], start, start)
  {
    assert node.children - todo.Keys == map[];
    assert start + [] == start;
  }

  lemma ReadOne(path: Bytes, node: Node, todo: map<Bytes, Node>, steps: seq<Visit>, v: Visit,
                start: seq<Entry>, entries: seq<Entry>)
    requires PartOf(todo, node) && v.name in todo && ReadSoFar(path, node, todo, steps, start, entries)
    requires v.name !in SKIPPED ==> Orders(Join(path, v.name), node.children[v.name], v.below)
    ensures ReadSoFar(path, node, todo - {v.name}, steps + [v], start, entries + Visited(path, node, v))
  {
    var done, longer := node.children - todo.Keys, node.children - (todo - {v.name}).Keys;
    assert longer - {v.name} == done;
    VisitNext(path, node, longer, done, steps, v);
    assert start + WalkedPart(path, node, done, steps) + Visited(path, node, v)
        == start + (WalkedPart(path, node, done, steps) + Visited(path, node, v));
  }

  lemma ReadAll(path: Bytes, node: Node, todo: map<Bytes, Node>, steps: seq<Visit>, start: seq<Entry>,
                entries: seq<Entry>)
    requires PartOf(todo, node) && todo == map[] && ReadSoFar(path, node, todo, steps, start, entries)
    requires Slashed(path) != UPSTREAM
    ensures Orders(path, node, Order(steps)) && entries == start + Walked(path, node, Order(steps))
  {
    assert node.children - todo.Keys == node.children;
  }

  /** One order for each root; the roots themselves are read in the order of their names. */
  ghost predicate OrdersRoots(root: map<Bytes, Node>, names: seq<Bytes>, os: seq<Order>) {
    && |os| == |names|
    && forall i :: 0 <= i < |names| && names[i] in root ==> Orders(names[i], root[names[i]], os[i])
  }

  ghost function WalkedRoots(root: map<Bytes, Node>, names: seq<Bytes>, os: seq<Order>): seq<Entry>
    requires OrdersRoots(root, names, os)
  {
    if names == [] then []
    else
      var n := |names| - 1;
      WalkedRoots(root, names[..n], os[..n]) + if names[n] in root then Walked(names[n], root[names[n]], os[n]) else []
  }

  lemma WalkNextRoot(root: map<Bytes, Node>, names: seq<Bytes>, i: nat, os: seq<Order>, o: Order)
    requires i < |names| && OrdersRoots(root, names[..i], os)
            && (names[i] in root ==> Orders(names[i], root[names[i]], o))
    ensures OrdersRoots(root, names[..i + 1], os + [o])
    ensures WalkedRoots(root, names[..i + 1], os + [o])
         == WalkedRoots(root, names[..i], os) + if names[i] in root then Walked(names[i], root[names[i]], o) else []
  {
    var longer := names[..i + 1];
    assert longer[..i] == names[..i] && (os + [o])[..i] == os && longer[i] == names[i];
  }

  /** The lists a walk of the checkout can collect. */
  ghost predicate OrdersCheckout(root: map<Bytes, Node>, os: seq<Order>) {
    OrdersRoots(root, ROOT_FILES + INPUT_DIRS, os)
  }

  ghost function WalkedCheckout(root: map<Bytes, Node>, os: seq<Order>): seq<Entry>
    requires OrdersCheckout(root, os)
  {
    WalkedRoots(root, ROOT_FILES + INPUT_DIRS, os)
  }

  // ---------------------------------------------------------------- the walk

  /** The two streams and the number of files. */
  datatype Stamp = Stamp(full: Bytes, qualification: Bytes, fileCount: nat)

  class Snapshotter {
    var entries: seq<Entry>

    constructor ()
      ensures entries == []
    {
      entries := [];
    }

    /** `collect`: pushes the files under `path`, reading each directory in an arbitrary order. */
    method Collect(path: Bytes, node: Node) returns (ok: bool, ghost order: Order)
      modifies this
      decreases node, 2, 0
      ensures ok <==> !Refused(path, node)
      ensures ok ==> Orders(path, node, order) && entries == old(entries) + Walked(path, node, order)
      ensures ok ==> multiset(entries) == old(multiset(entries)) + Files(path, node)
    {
      order := Order([]);
      if node.Symlink? {
        return false, order;
      }
      if Slashed(path) == UPSTREAM {
        assert entries + [] == entries;
        return true, order;
      }
      match node
      case File(bytes) =>
        entries := entries + [Entry(Slashed(path), Some(bytes))];
        ok := true;
      case Dir(_) =>
        ok, order := CollectEntries(path, node);
        if ok {
          WalkedFiles(path, node, order);
        }
      case _ =>
        ok := false;
    }

    method CollectEntries(path: Bytes, node: Node) returns (ok: bool, ghost order: Order)
      requires node.Dir? && Slashed(path) != UPSTREAM
      modifies this
      decreases node, 1, 0
      ensures ok <==> !Refused(path, node)
      ensures ok ==> Orders(path, node, order) && entries == old(entries) + Walked(path, node, order)
    {
      var todo := node.children;
      ghost var steps: seq<Visit> := [];
      order := Order([]);
      ReadNothing(path, node, todo, entries);
      while todo != map[]
        invariant PartOf(todo, node) && ReadSoFar(path, node, todo, steps, old(entries), entries)
        invariant forall k :: k in node.children && k !in todo ==> !RefusedEntry(path, node, k)
        decreases |todo|
      {
        var k :| k in todo;
        ghost var before := entries;
        ghost var visit;
        ok, visit := CollectEntry(path, node, k);
        if !ok {
          return;
        }
        ReadOne(path, node, todo, steps, visit, old(entries), before);
        steps, todo := steps + [visit], todo - {k};
      }
      ReadAll(path, node, todo, steps, old(entries), entries);
      order := Order(steps);
      ok := true;
    }

    method CollectEntry(path: Bytes, node: Node, k: Bytes) returns (ok: bool, ghost visit: Visit)
      requires node.Dir? && Slashed(path) != UPSTREAM && k in node.children
      modifies this
      decreases node, 0, 0
      ensures ok <==> !RefusedEntry(path, node, k)
      ensures ok ==> visit.name == k && (k !in SKIPPED ==> Orders(Join(path, k), node.children[k], visit.below))
      ensures ok ==> entries == old(entries) + Visited(path, node, visit)
    {
      visit := Visit(k, Order([]));
      if k in SKIPPED {
        assert entries + [] == entries;
        return true, visit;
      }
      ghost var below;
      ok, below := Collect(Join(path, k), node.children[k]);
      visit := Visit(k, below);
    }

    /** The roots of the walk, in order; the first `required` must exist. */
    method CollectRoots(root: map<Bytes, Node>, names: seq<Bytes>, required: nat)
      returns (ok: bool, ghost orders: seq<Order>)
      modifies this
      requires entries == []
      ensures ok <==> AllWalkable(root, names, required)
      ensures ok ==> multiset(entries) == ListedFiles(root, names)
      ensures ok ==> OrdersRoots(root, names, orders) && entries == WalkedRoots(root, names, orders)
    {
      orders := [];
      for i := 0 to |names|
        invariant multiset(entries) == ListedFiles(root, names[..i]) && AllWalkable(root, names[..i], required)
        invariant OrdersRoots(root, names[..i], orders) && entries == WalkedRoots(root, names[..i], orders)
      {
        ghost var order := Order([]);
        ListedStep(root, names, i);
        WalkableStep(root, names, required, i);
        if names[i] in root {
          ok, order := Collect(names[i], root[names[i]]);
          if !ok {
            return;
          }
        } else if i < required {
          return false, orders;
        }
        WalkNextRoot(root, names, i, orders, order);
        orders := orders + [order];
      }
      assert names[..|names|] == names;
      ok := true;
    }

    /** `snapshot`: sorts what was collected and feeds both hashes in one pass. */
    method Snapshot(root: map<Bytes, Node>) returns (r: Result<Stamp>, ghost orders: seq<Order>)
      modifies this
      requires entries == []
      ensures r.Ok? <==> Acceptable(root)
      ensures r.Ok? ==> multiset(entries) == CheckoutFiles(root) && r.value == StampOf(entries)
      ensures r.Ok? ==> OrdersCheckout(root, orders) && entries == WalkedCheckout(root, orders)
    {
      var ok;
      ok, orders := CollectRoots(root, ROOT_FILES + INPUT_DIRS, |ROOT_FILES|);
      if !ok {
        return Rejected, orders;
      }
      var stamp := Hashed(Sorted(entries));
      QualificationStream(entries);
      return Ok(stamp), orders;
    }
  }

  method Hashed(sorted: seq<Entry>) returns (stamp: Stamp)
    ensures stamp == Stamp(Stream(sorted), Stream(WithoutTable(sorted)), FileCount(sorted))
  {
    var full, qualification, fileCount: nat := [], [], 0;
    for i := 0 to |sorted|
      invariant full == Stream(sorted[..i])
      invariant qualification == Stream(WithoutTable(sorted[..i]))
      invariant fileCount == FileCount(sorted[..i])
    {
      var e := sorted[i];
      assert sorted[..i + 1] == sorted[..i] + [e];
      StreamSnoc(sorted[..i], e);
      WithoutTableSnoc(sorted[..i], e);
      StreamSnoc(WithoutTable(sorted[..i]), e);
      if e.content.Some? {
        fileCount := fileCount + 1;
      }
      full := full + Encoded(e);
      if e.name != TABLE {
        qualification := qualification + Encoded(e);
      }
    }
    assert sorted[..|sorted|] == sorted;
    stamp := Stamp(full, qualification, fileCount);
  }

  lemma {:induction false} StreamSnoc(s: seq<Entry>, e: Entry)
    ensures Stream(s + [e]) == Stream(s) + Encoded(e)
    ensures FileCount(s + [e]) == FileCount(s) + if e.content.Some? then 1 else 0
  {
    if s == [] {
      assert [e][1..] == [] && s + [e] == [e];
    } else {
      StreamSnoc(s[1..], e);
      assert (s + [e])[1..] == s[1..] + [e];
    }
  }

  lemma {:induction false} WithoutTableSnoc(s: seq<Entry>, e: Entry)
    ensures WithoutTable(s + [e]) == if e.name == TABLE then WithoutTable(s) else WithoutTable(s) + [e]
  {
    if s == [] {
      assert [e][1..] == [] && s + [e] == [e];
    } else {
      WithoutTableSnoc(s[1..], e);
      assert (s + [e])[1..] == s[1..] + [e];
    }
  }

  function FileCount(es: seq<Entry>): nat {
    if es == [] then 0 else (if es[0].content.Some? then 1 else 0) + FileCount(es[1..])
  }

  /** The stamp of a list of entries. */
  function StampOf(es: seq<Entry>): Stamp {
    Stamp(Stream(Sorted(es)), Stream(Sorted(WithoutTable(es))), FileCount(Sorted(es)))
  }

  /** When no name is claimed by two contents, every reading order gives one and the same stamp. */
  lemma StampUnique(root: map<Bytes, Node>, a: seq<Entry>, b: seq<Entry>)
    requires multiset(a) == multiset(b) == CheckoutFiles(root) && SourceStamp.Consistent(CheckoutFiles(root))
    ensures StampOf(a) == StampOf(b)
  {
    SameEntriesSameStream(a, b);
    QualificationStream(a);
    QualificationStream(b);
  }
}
