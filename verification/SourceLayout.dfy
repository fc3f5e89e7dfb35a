/** The stamp spelled out: the bytes of an entry, the order of names, and which files of a checkout are stamped. */
module SourceLayout {
  import opened Common
  import opened SourceStamp
  import opened SourceTree

  // ---------------------------------------------------------------- the bytes of an entry

  /** Eight bytes that add up to `n`, the first counting ones. */
  predicate EightBytes(b: Bytes, n: nat) {
    && |b| == 8
    && n == b[0] as nat + 0x100 * (b[1] as nat + 0x100 * (b[2] as nat + 0x100 * (b[3] as nat
            + 0x100 * (b[4] as nat + 0x100 * (b[5] as nat + 0x100 * (b[6] as nat + 0x100 * b[7] as nat))))))
  }

  lemma LowByte(n: nat, d: byte, rest: nat)
    requires n == d as nat + 0x100 * rest
    ensures n % 256 == d as int && n / 256 == rest
  {
  }

  /** The low `k` bytes start with the ones. */
  lemma OneByte(n: nat, d: byte, rest: nat, k: nat)
    requires n == d as nat + 0x100 * rest
    ensures LittleEndian(n, k + 1) == [d] + LittleEndian(rest, k)
  {
    LowByte(n, d, rest);
  }

  lemma FourBytes(n: nat, d0: byte, d1: byte, d2: byte, d3: byte, rest: nat, k: nat)
    requires n == d0 as nat + 0x100 * (d1 as nat + 0x100 * (d2 as nat + 0x100 * (d3 as nat + 0x100 * rest)))
    ensures LittleEndian(n, k + 4) == [d0, d1, d2, d3] + LittleEndian(rest, k)
  {
    var r3: nat := d3 as nat + 0x100 * rest;
    var r2: nat := d2 as nat + 0x100 * r3;
    var r1: nat := d1 as nat + 0x100 * r2;
    OneByte(n, d0, r1, k + 3);
    OneByte(r1, d1, r2, k + 2);
    OneByte(r2, d2, r3, k + 1);
    OneByte(r3, d3, rest, k);
  }

  lemma Length64Layout(b: Bytes, n: nat)
    requires EightBytes(b, n)
    ensures Length64(n) == b
  {
    var upper: nat := b[4] as nat + 0x100 * (b[5] as nat + 0x100 * (b[6] as nat + 0x100 * b[7] as nat));
    FourBytes(n, b[0], b[1], b[2], b[3], upper, 4);
    FourBytes(upper, b[4], b[5], b[6], b[7], 0, 0);
    assert b == [b[0], b[1], b[2], b[3]] + ([b[4], b[5], b[6], b[7]] + []);
  }

  /** An entry is its name after the name's length, a byte that says whether content follows, and that likewise. */
  lemma EntryLayout(name: Bytes, content: Bytes, nameLength: Bytes, contentLength: Bytes)
    requires EightBytes(nameLength, |name|) && EightBytes(contentLength, |content|)
    ensures Encoded(Entry(name, Some(content))) == nameLength + name + [1] + contentLength + content
    ensures Encoded(Entry(name, None)) == nameLength + name + [0]
  {
    Length64Layout(nameLength, |name|);
    Length64Layout(contentLength, |content|);
  }

  // ---------------------------------------------------------------- the order of names

  /** The names agree up to `k`, where the first one ends or has the smaller byte. */
  predicate DiffersAt(a: Bytes, b: Bytes, k: nat) {
    && k <= |a| && k < |b| && a[..k] == b[..k]
    && (k == |a| || a[k] < b[k])
  }

  lemma DiffersLater(a: Bytes, b: Bytes, k: nat)
    requires a != [] && b != [] && a[0] == b[0]
    ensures DiffersAt(a, b, k + 1) <==> DiffersAt(a[1..], b[1..], k)
    ensures !DiffersAt(a, b, 0)
  {
    if k <= |a| - 1 && k <= |b| - 1 {
      assert a[..k + 1] == [a[0]] + a[1..][..k] && b[..k + 1] == [b[0]] + b[1..][..k];
    }
  }

  lemma DiffersNow(a: Bytes, b: Bytes, k: nat)
    requires b == [] || a == [] || a[0] != b[0]
    ensures DiffersAt(a, b, k) <==> k == 0 && b != [] && (a == [] || a[0] < b[0])
  {
    if 0 < k <= |a| && k <= |b| {
      assert a[..k][0] == a[0] && b[..k][0] == b[0];
    }
  }

  lemma {:induction false} BeforeIff(a: Bytes, b: Bytes)
    ensures Before(a, b) <==> exists k: nat :: DiffersAt(a, b, k)
  {
    if a != [] && b != [] && a[0] == b[0] {
      BeforeIff(a[1..], b[1..]);
      if k: nat :| DiffersAt(a[1..], b[1..], k) {
        DiffersLater(a, b, k);
      }
      if k: nat :| DiffersAt(a, b, k) {
        DiffersLater(a, b, if k == 0 then 0 else k - 1);
      }
    } else {
      DiffersNow(a, b, 0);
      if k: nat :| DiffersAt(a, b, k) {
        DiffersNow(a, b, k);
      }
    }
  }

  // ---------------------------------------------------------------- the qualification stream

  /** Of the entries only those of the table are left out, each other as often as before. */
  lemma {:induction false} OnlyTableLeftOut(s: seq<Entry>, e: Entry)
    ensures multiset(WithoutTable(s))[e]
            == if e.name == Ascii("src/netplay/qualification.json") then 0 else multiset(s)[e]
  {
    if s != [] {
      OnlyTableLeftOut(s[1..], e);
      assert s == [s[0]] + s[1..];
    }
  }

  /** Every stamped file is counted. */
  lemma {:induction false} CountsFiles(es: seq<Entry>)
    requires forall i :: 0 <= i < |es| ==> es[i].content.Some?
    ensures FileCount(es) == |es|
  {
    if es != [] {
      CountsFiles(es[1..]);
    }
  }

  /** The files in the order of their names. */
  ghost predicate InOrder(s: seq<Entry>, files: multiset<Entry>) {
    && multiset(s) == files
    && forall i, j :: 0 <= i < j < |s| ==> !exists k: nat :: DiffersAt(s[j].name, s[i].name, k)
  }

  lemma SortedInOrder(es: seq<Entry>)
    ensures InOrder(Sorted(es), multiset(es))
  {
    SortedKeeps(es);
    var s := Sorted(es);
    forall i, j | 0 <= i < j < |s|
      ensures !exists k: nat :: DiffersAt(s[j].name, s[i].name, k)
    {
      BeforeIff(s[j].name, s[i].name);
    }
  }

  /** The full stream is that of all files by name, the qualification stream that of all but the table. */
  lemma StampMeans(es: seq<Entry>) returns (all: seq<Entry>, others: seq<Entry>)
    ensures InOrder(all, multiset(es)) && StampOf(es).full == Stream(all)
    ensures InOrder(others, multiset(WithoutTable(es))) && StampOf(es).qualification == Stream(others)
  {
    SortedInOrder(es);
    SortedInOrder(WithoutTable(es));
    all, others := Sorted(es), Sorted(WithoutTable(es));
  }

  lemma StampCounts(es: seq<Entry>)
    requires forall i :: 0 <= i < |es| ==> es[i].content.Some?
    ensures StampOf(es).fileCount == |es|
  {
    var s := Sorted(es);
    SortedLength(es);
    SortedKeeps(es);
    forall i | 0 <= i < |s|
      ensures s[i].content.Some?
    {
      assert s[i] in multiset(s) && s[i] in multiset(es);
    }
    CountsFiles(s);
  }

  lemma SortedLength(es: seq<Entry>)
    ensures |Sorted(es)| == |es|
  {
    SortedKeeps(es);
    assert |multiset(Sorted(es))| == |Sorted(es)| && |multiset(es)| == |es|;
  }

  // ---------------------------------------------------------------- which files are stamped

  /** The node reached by following names down from a directory. */
  function At(node: Node, ks: seq<Bytes>): Option<Node> {
    if ks == [] then Some(node)
    else if node.Dir? && ks[0] in node.children then At(node.children[ks[0]], ks[1..])
    else None
  }

  function PathTo(path: Bytes, ks: seq<Bytes>): Bytes
    decreases |ks|
  {
    if ks == [] then path else PathTo(path + Ascii("/") + ks[0], ks[1..])
  }

  predicate IsUpstream(path: Bytes) {
    Slashed(path) == Ascii("third_party/xdelta3/xdelta3")
  }

  predicate IsSkipped(k: Bytes) {
    k == Ascii("target") || k == Ascii(".git") || k == Ascii(".dev_docs") || k == Ascii(".tmp")
  }

  /** None of the names on the way is skipped, and no directory on the way is the upstream checkout. */
  predicate Entered(path: Bytes, ks: seq<Bytes>) {
    && (forall i :: 0 <= i < |ks| ==> !IsSkipped(ks[i]))
    && (forall i :: 0 <= i < |ks| ==> !IsUpstream(PathTo(path, ks[..i])))
  }

  lemma SkippedIff(k: Bytes)
    ensures k in SKIPPED <==> IsSkipped(k)
  {
  }

  lemma JoinIs(path: Bytes, k: Bytes)
    ensures Join(path, k) == path + Ascii("/") + k
  {
  }

  lemma EnteredCons(path: Bytes, ks: seq<Bytes>)
    requires ks != []
    ensures Entered(path, ks) <==> !IsSkipped(ks[0]) && !IsUpstream(path) && Entered(Join(path, ks[0]), ks[1..])
  {
    var below, rest := Join(path, ks[0]), ks[1..];
    JoinIs(path, ks[0]);
    forall i | 0 <= i < |rest|
      ensures PathTo(path, ks[..i + 1]) == PathTo(below, rest[..i]) && rest[i] == ks[i + 1]
    {
      assert ks[..i + 1][1..] == rest[..i];
    }
    assert ks[..0] == [];
    if Entered(path, ks) {
      assert !IsUpstream(PathTo(path, ks[..0]));
      forall i | 0 <= i < |rest|
        ensures !IsUpstream(PathTo(below, rest[..i]))
      {
        assert !IsUpstream(PathTo(path, ks[..i + 1]));
      }
    }
    if !IsSkipped(ks[0]) && !IsUpstream(path) && Entered(below, rest) {
      forall i | 0 <= i < |ks|
        ensures !IsSkipped(ks[i]) && !IsUpstream(PathTo(path, ks[..i]))
      {
        if i > 0 {
          assert ks[i] == rest[i - 1] && PathTo(path, ks[..i - 1 + 1]) == PathTo(below, rest[..i - 1]);
        }
      }
    }
  }

  /** These names lead to a regular file that is stamped as this entry. */
  predicate LeadsToFile(path: Bytes, node: Node, ks: seq<Bytes>, e: Entry) {
    && Entered(path, ks) && !IsUpstream(PathTo(path, ks))
    && At(node, ks).Some? && At(node, ks).value.File?
    && e == Entry(Slashed(PathTo(path, ks)), Some(At(node, ks).value.bytes))
  }

  /** These names lead to a link, or to a special file that is not the upstream checkout. */
  predicate LeadsAstray(path: Bytes, node: Node, ks: seq<Bytes>) {
    && Entered(path, ks) && At(node, ks).Some?
    && (At(node, ks).value.Symlink? || (At(node, ks).value.Special? && !IsUpstream(PathTo(path, ks))))
  }

  /** An entry of a directory comes from one of its children. */
  lemma {:induction false} FromChild(path: Bytes, node: Node, part: map<Bytes, Node>, e: Entry)
    requires PartOf(part, node)
    ensures e in FilesIn(path, node, part) <==> exists k :: k in part && e in ChildFiles(path, node, k)
    decreases |part|
  {
    if part != map[] {
      var first :| first in part
        && FilesIn(path, node, part) == ChildFiles(path, node, first) + FilesIn(path, node, part - {first});
      FromChild(path, node, part - {first}, e);
      if k :| k in part && e in ChildFiles(path, node, k) {
        assert k == first || k in part - {first};
      }
    }
  }

  lemma DownTo(path: Bytes, node: Node, k: Bytes, ks: seq<Bytes>, e: Entry)
    requires node.Dir? && k in node.children
    ensures LeadsToFile(path, node, [k] + ks, e)
            <==> !IsSkipped(k) && !IsUpstream(path) && LeadsToFile(Join(path, k), node.children[k], ks, e)
    ensures LeadsAstray(path, node, [k] + ks)
            <==> !IsSkipped(k) && !IsUpstream(path) && LeadsAstray(Join(path, k), node.children[k], ks)
  {
    EnteredCons(path, [k] + ks);
    JoinIs(path, k);
    assert ([k] + ks)[1..] == ks;
  }

  /** Exactly the regular files reached without a skipped name or the upstream checkout are stamped. */
  lemma {:induction false} FilesIff(path: Bytes, node: Node, e: Entry)
    ensures e in Files(path, node) <==> exists ks :: LeadsToFile(path, node, ks, e)
    decreases node
  {
    if node.Dir? && !IsUpstream(path) {
      FromChild(path, node, node.children, e);
      if e in Files(path, node) {
        var k :| k in node.children && e in ChildFiles(path, node, k);
        SkippedIff(k);
        FilesIff(Join(path, k), node.children[k], e);
        var ks :| LeadsToFile(Join(path, k), node.children[k], ks, e);
        DownTo(path, node, k, ks, e);
      }
      if ks :| LeadsToFile(path, node, ks, e) {
        LeadsDown(path, node, ks);
        var k := ks[0];
        assert [k] + ks[1..] == ks;
        DownTo(path, node, k, ks[1..], e);
        SkippedIff(k);
        FilesIff(Join(path, k), node.children[k], e);
        assert e in ChildFiles(path, node, k);
      }
    } else {
      LeafFiles(path, node, e);
    }
  }

  lemma LeadsDown(path: Bytes, node: Node, ks: seq<Bytes>)
    requires node.Dir? && At(node, ks).Some? && !At(node, ks).value.Dir?
    ensures ks != [] && ks[0] in node.children
  {
  }

  lemma LeafFiles(path: Bytes, node: Node, e: Entry)
    requires !node.Dir? || IsUpstream(path)
    ensures e in Files(path, node) <==> exists ks :: LeadsToFile(path, node, ks, e)
  {
    if ks :| LeadsToFile(path, node, ks, e) {
      if ks != [] {
        EnteredCons(path, ks);
      }
    }
    if e in Files(path, node) {
      assert LeadsToFile(path, node, [], e);
    }
  }

  /** The walk stops exactly when it reaches a link or a special file that way. */
  lemma {:induction false} RefusedIff(path: Bytes, node: Node)
    ensures Refused(path, node) <==> exists ks :: LeadsAstray(path, node, ks)
    decreases node
  {
    if node.Dir? && !IsUpstream(path) {
      if Refused(path, node) {
        var k :| k in node.children && k !in SKIPPED && Refused(Join(path, k), node.children[k]);
        SkippedIff(k);
        RefusedIff(Join(path, k), node.children[k]);
        var ks :| LeadsAstray(Join(path, k), node.children[k], ks);
        DownTo(path, node, k, ks, Entry([], None));
      }
      if ks :| LeadsAstray(path, node, ks) {
        LeadsDown(path, node, ks);
        assert [ks[0]] + ks[1..] == ks;
        DownTo(path, node, ks[0], ks[1..], Entry([], None));
        SkippedIff(ks[0]);
        RefusedIff(Join(path, ks[0]), node.children[ks[0]]);
      }
    } else {
      LeafRefused(path, node);
    }
  }

  lemma LeafRefused(path: Bytes, node: Node)
    requires !node.Dir? || IsUpstream(path)
    ensures Refused(path, node) <==> exists ks :: LeadsAstray(path, node, ks)
  {
    if ks :| LeadsAstray(path, node, ks) {
      if ks != [] {
        EnteredCons(path, ks);
      }
    }
    if Refused(path, node) {
      assert LeadsAstray(path, node, []);
    }
  }

  // ---------------------------------------------------------------- the checkout

  predicate RootFile(name: Bytes) {
    name == Ascii("Cargo.toml") || name == Ascii("Cargo.lock") || name == Ascii("build.rs")
  }

  predicate RootDirectory(name: Bytes) {
    || name == Ascii("src") || name == Ascii("crates") || name == Ascii("third_party") || name == Ascii("tools")
    || name == Ascii("build_support") || name == Ascii("assets") || name == Ascii(".cargo")
  }

  lemma RootsIff(name: Bytes)
    ensures name in ROOT_FILES <==> RootFile(name)
    ensures name in INPUT_DIRS <==> RootDirectory(name)
  {
  }

  lemma {:induction false} ListedIff(root: map<Bytes, Node>, names: seq<Bytes>, e: Entry)
    ensures e in ListedFiles(root, names)
            <==> exists name :: name in names && name in root && e in Files(name, root[name])
  {
    if names != [] {
      var front, last := names[..|names| - 1], names[|names| - 1];
      ListedIff(root, front, e);
      assert names == front + [last];
    }
  }

  /** A stamped file: under one of the three root files or seven directories, reached by names that are not skipped. */
  lemma CheckoutFileIff(root: map<Bytes, Node>, e: Entry)
    ensures e in CheckoutFiles(root)
            <==> exists name, ks :: (RootFile(name) || RootDirectory(name)) && name in root
                                    && LeadsToFile(name, root[name], ks, e)
  {
    var names := ROOT_FILES + INPUT_DIRS;
    ListedIff(root, names, e);
    if name :| name in names && name in root && e in Files(name, root[name]) {
      RootsIff(name);
      FilesIff(name, root[name], e);
    }
    if name, ks :| (RootFile(name) || RootDirectory(name)) && name in root && LeadsToFile(name, root[name], ks, e) {
      RootsIff(name);
      FilesIff(name, root[name], e);
      assert name in names;
    }
  }

  /** A checkout is stamped exactly when the three root files exist and no link or special file is in the way. */
  lemma AcceptableIff(root: map<Bytes, Node>)
    ensures Acceptable(root)
            <==> && (forall name :: RootFile(name) ==> name in root)
                 && !exists name, ks :: (RootFile(name) || RootDirectory(name)) && name in root
                                        && LeadsAstray(name, root[name], ks)
  {
    var names := ROOT_FILES + INPUT_DIRS;
    forall name
      ensures name in names <==> RootFile(name) || RootDirectory(name)
      ensures name in root ==> (Refused(name, root[name]) <==> exists ks :: LeadsAstray(name, root[name], ks))
    {
      RootsIff(name);
      if name in root {
        RefusedIff(name, root[name]);
      }
    }
    RequiredIff(root, names);
  }

  lemma RequiredIff(root: map<Bytes, Node>, names: seq<Bytes>)
    requires names == ROOT_FILES + INPUT_DIRS
    ensures AllWalkable(root, names, |ROOT_FILES|)
            <==> && (forall name :: RootFile(name) ==> name in root)
                 && forall name :: name in names && name in root ==> !Refused(name, root[name])
  {
    assert names[0] == ROOT_FILES[0] && names[1] == ROOT_FILES[1] && names[2] == ROOT_FILES[2];
  }
}
