/**
 When is a stamp canonical? Paths are stamped with backslashes rewritten to slashes, so two files can
 claim one name; without backslashes in file names they never do.
 */
module SourceNames {
  import opened Common
  import opened SourceStamp
  import opened SourceTree

  predicate Plain(component: Bytes) {
    forall i :: 0 <= i < |component| ==> component[i] != SLASH && component[i] != BACKSLASH
  }

  predicate NoBackslash(path: Bytes) {
    forall i :: 0 <= i < |path| ==> path[i] != BACKSLASH
  }

  /** Every name in a directory tree is free of slashes and backslashes. */
  ghost predicate PlainTree(node: Node)
    decreases node
  {
    node.Dir? ==> forall k :: k in node.children ==> Plain(k) && PlainTree(node.children[k])
  }

  /** `name` is `path` itself or lies below it. */
  predicate Under(name: Bytes, path: Bytes) {
    && |path| <= |name| && name[..|path|] == path
    && (|path| < |name| ==> name[|path|] == SLASH)
  }

  lemma UnderJoin(name: Bytes, path: Bytes, k: Bytes)
    requires Under(name, Join(path, k))
    ensures Under(name, path)
  {
    assert name[..|path|] == Join(path, k)[..|path|] == path;
    assert name[|path|] == name[..|path| + 1 + |k|][|path|];
  }

  /** Siblings with plain names have nothing below them in common. */
  lemma SiblingsApart(name: Bytes, prefix: Bytes, k: Bytes, l: Bytes)
    requires Plain(k) && Plain(l) && Under(name, prefix + k) && Under(name, prefix + l)
    ensures k == l
  {
    SiblingNotShorter(name, prefix, k, l);
    SiblingNotShorter(name, prefix, l, k);
    assert (prefix + k)[|prefix|..] == k && (prefix + l)[|prefix|..] == l;
  }

  lemma SiblingNotShorter(name: Bytes, prefix: Bytes, k: Bytes, l: Bytes)
    requires Plain(l) && Under(name, prefix + k) && Under(name, prefix + l)
    ensures |l| <= |k|
  {
    assert forall i :: 0 <= i < |l| ==> name[|prefix| + i] == (prefix + l)[|prefix| + i] == l[i];
  }

  ghost predicate AllUnder(es: multiset<Entry>, path: Bytes) {
    forall e :: e in es ==> Under(e.name, path)
  }

  lemma {:induction false} FilesUnder(path: Bytes, node: Node)
    requires PlainTree(node) && NoBackslash(path)
    ensures AllUnder(Files(path, node), path)
    decreases node
  {
    assert Slashed(path) == path;
    if node.Dir? && path != UPSTREAM {
      forall e | e in FilesIn(path, node, node.children)
        ensures Under(e.name, path)
      {
        var k := Owner(path, node, node.children, e);
        UnderJoin(e.name, path, k);
      }
    }
  }

  /** The directory entry a stamped file lies under. */
  lemma {:induction false} Owner(path: Bytes, node: Node, part: map<Bytes, Node>, e: Entry) returns (k: Bytes)
    requires PlainTree(node) && NoBackslash(path) && PartOf(part, node) && e in FilesIn(path, node, part)
    ensures k in part && Under(e.name, Join(path, k))
    decreases node, |part|
  {
    k :| k in part;
    FilesAnyFirst(path, node, part, k);
    if e in ChildFiles(path, node, k) {
      FilesUnder(Join(path, k), node.children[k]);
    } else {
      k := Owner(path, node, part - {k}, e);
    }
  }

  lemma ApartConsistent(a: multiset<Entry>, b: multiset<Entry>)
    requires SourceStamp.Consistent(a) && SourceStamp.Consistent(b)
    requires forall d, e :: d in a && e in b ==> d.name != e.name
    ensures SourceStamp.Consistent(a + b)
  {
  }

  lemma {:induction false} FilesConsistent(path: Bytes, node: Node)
    requires PlainTree(node) && NoBackslash(path)
    ensures SourceStamp.Consistent(Files(path, node))
    decreases node
  {
    if node.Dir? {
      PartConsistent(path, node, node.children);
    }
  }

  lemma {:induction false} PartConsistent(path: Bytes, node: Node, part: map<Bytes, Node>)
    requires PlainTree(node) && NoBackslash(path) && PartOf(part, node)
    ensures SourceStamp.Consistent(FilesIn(path, node, part))
    decreases node, |part|
  {
    if part != map[] {
      var k :| k in part;
      var rest := part - {k};
      FilesAnyFirst(path, node, part, k);
      FilesConsistent(Join(path, k), node.children[k]);
      FilesUnder(Join(path, k), node.children[k]);
      PartConsistent(path, node, rest);
      forall d, e | d in ChildFiles(path, node, k) && e in FilesIn(path, node, rest)
        ensures d.name != e.name
      {
        var l := Owner(path, node, rest, e);
        if d.name == e.name {
          SiblingsApart(d.name, path + [SLASH], k, l);
        }
      }
      ApartConsistent(ChildFiles(path, node, k), FilesIn(path, node, rest));
    }
  }

  predicate DistinctPlain(names: seq<Bytes>) {
    && (forall i :: 0 <= i < |names| ==> Plain(names[i]))
    && forall i, j :: 0 <= i < j < |names| ==> names[i] != names[j]
  }

  lemma {:induction false} ListedOwner(root: map<Bytes, Node>, names: seq<Bytes>, e: Entry) returns (i: nat)
    requires DistinctPlain(names) && (forall k :: k in root ==> PlainTree(root[k])) && e in ListedFiles(root, names)
    ensures i < |names| && Under(e.name, names[i])
  {
    var n := |names| - 1;
    if names[n] in root && e in Files(names[n], root[names[n]]) {
      FilesUnder(names[n], root[names[n]]);
      i := n;
    } else {
      i := ListedOwner(root, names[..n], e);
    }
  }

  lemma {:induction false} ListedConsistent(root: map<Bytes, Node>, names: seq<Bytes>)
    requires DistinctPlain(names) && forall k :: k in root ==> PlainTree(root[k])
    ensures SourceStamp.Consistent(ListedFiles(root, names))
  {
    if names != [] {
      var n := |names| - 1;
      ListedConsistent(root, names[..n]);
      if names[n] in root {
        FilesConsistent(names[n], root[names[n]]);
        FilesUnder(names[n], root[names[n]]);
        forall d, e | d in ListedFiles(root, names[..n]) && e in Files(names[n], root[names[n]])
          ensures d.name != e.name
        {
          var i := ListedOwner(root, names[..n], d);
          if d.name == e.name {
            assert [] + names[i] == names[i] && [] + names[n] == names[n];
            SiblingsApart(d.name, [], names[i], names[n]);
          }
        }
        ApartConsistent(ListedFiles(root, names[..n]), Files(names[n], root[names[n]]));
      }
    }
  }

  lemma PlainAscii(s: string)
    requires forall i :: 0 <= i < |s| ==> s[i] != '/' && s[i] != '\\' && s[i] as int < 128
    ensures Plain(Ascii(s))
  {
  }

  /** A fingerprint that tells the ten roots apart: length, first and last byte. */
  function Fingerprint(name: Bytes): (int, int, int) {
    if name == [] then (0, 0, 0) else (|name|, name[0] as int, name[|name| - 1] as int)
  }

  lemma RootsDistinct()
    ensures DistinctPlain(ROOT_FILES + INPUT_DIRS)
  {
    RootsPlain();
    RootsApart();
  }

  lemma RootsPlain()
    ensures forall i :: 0 <= i < |ROOT_FILES + INPUT_DIRS| ==> Plain((ROOT_FILES + INPUT_DIRS)[i])
  {
    PlainAscii("Cargo.toml");
    PlainAscii("Cargo.lock");
    PlainAscii("build.rs");
    PlainAscii("src");
    PlainAscii("crates");
    PlainAscii("third_party");
    PlainAscii("tools");
    PlainAscii("build_support");
    PlainAscii("assets");
    PlainAscii(".cargo");
  }

  lemma RootsApart()
    ensures forall i, j :: 0 <= i < j < |ROOT_FILES + INPUT_DIRS| ==>
                             (ROOT_FILES + INPUT_DIRS)[i] != (ROOT_FILES + INPUT_DIRS)[j]
  {
    var names := ROOT_FILES + INPUT_DIRS;
    assert Fingerprint(names[0]) == (10, 67, 108);
    assert Fingerprint(names[1]) == (10, 67, 107);
    assert Fingerprint(names[2]).0 == 8;
    assert Fingerprint(names[3]).0 == 3;
    assert Fingerprint(names[4]) == (6, 99, 115);
    assert Fingerprint(names[5]).0 == 11;
    assert Fingerprint(names[6]).0 == 5;
    assert Fingerprint(names[7]).0 == 13;
    assert Fingerprint(names[8]) == (6, 97, 115);
    assert Fingerprint(names[9]) == (6, 46, 111);
    forall i, j | 0 <= i < j < |names|
      ensures Fingerprint(names[i]) != Fingerprint(names[j])
    {
    }
  }

  /** A checkout whose file names hold no backslash has one stamp, whatever the reading order. */
  lemma PlainCheckoutCanonical(root: map<Bytes, Node>, a: seq<Entry>, b: seq<Entry>)
    requires forall k :: k in root ==> PlainTree(root[k])
    requires multiset(a) == multiset(b) == CheckoutFiles(root)
    ensures StampOf(a) == StampOf(b)
  {
    RootsDistinct();
    ListedConsistent(root, ROOT_FILES + INPUT_DIRS);
    StampUnique(root, a, b);
  }

  lemma ChildInFiles(path: Bytes, node: Node, k: Bytes, e: Entry)
    requires node.Dir? && Slashed(path) != UPSTREAM && k in node.children && k !in SKIPPED
    requires e in Files(Join(path, k), node.children[k])
    ensures e in Files(path, node)
  {
    FilesAnyFirst(path, node, node.children, k);
  }

  /** A file `a\b` beside a directory `a` with a file `b` of other content. */
  ghost predicate BackslashBeside(path: Bytes, node: Node, a: Bytes, b: Bytes, x: Bytes, y: Bytes) {
    && node.Dir? && a + [BACKSLASH] + b in node.children && node.children[a + [BACKSLASH] + b] == File(x)
    && a in node.children && node.children[a].Dir?
    && b in node.children[a].children && node.children[a].children[b] == File(y) && x != y
    && a + [BACKSLASH] + b !in SKIPPED && a !in SKIPPED && b !in SKIPPED
    && Slashed(path) != UPSTREAM && Slashed(Join(path, a)) != UPSTREAM && Slashed(Join(Join(path, a), b)) != UPSTREAM
  }

  /** One backslash is enough: the two claim the same name. */
  lemma BackslashCollides(path: Bytes, node: Node, a: Bytes, b: Bytes, x: Bytes, y: Bytes)
    requires BackslashBeside(path, node, a, b, x, y)
    ensures !SourceStamp.Consistent(Files(path, node))
  {
    var name := Slashed(Join(Join(path, a), b));
    assert name == Slashed(Join(path, a + [BACKSLASH] + b));
    ChildInFiles(path, node, a + [BACKSLASH] + b, Entry(name, Some(x)));
    ChildInFiles(Join(path, a), node.children[a], b, Entry(name, Some(y)));
    ChildInFiles(path, node, a, Entry(name, Some(y)));
  }
}
