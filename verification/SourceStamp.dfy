/**
 The source stamp: which files of a checkout are stamped, the byte stream fed to the hash, and why that
 stream is canonical and injective.
 */
module SourceStamp {
  import opened Common

  type Bytes = seq<byte>

  /** A stamped path with its content; the code allows for entries without content. */
  datatype Entry = Entry(name: Bytes, content: Option<Bytes>)

  function Ascii(s: string): Bytes {
    seq(|s|, i requires 0 <= i < |s| => s[i] as int % 256)
  }

  // ---------------------------------------------------------------- the encoding

  function Pow256(k: nat): nat {
    if k == 0 then 1 else 256 * Pow256(k - 1)
  }

  /** The `k` low bytes of `n`, least significant first. */
  function LittleEndian(n: nat, k: nat): (b: Bytes)
    ensures |b| == k
  {
    if k == 0 then [] else [n % 256] + LittleEndian(n / 256, k - 1)
  }

  function Length64(n: nat): (b: Bytes)
    ensures |b| == 8
  {
    LittleEndian(n, 8)
  }

  function Field(bytes: Bytes): Bytes {
    Length64(|bytes|) + bytes
  }

  function Tail(e: Entry): Bytes {
    match e.content
    case None => [0]
    case Some(bytes) => [1] + Field(bytes)
  }

  /** What `append` feeds to the hash for one entry. */
  function Encoded(e: Entry): Bytes {
    Field(e.name) + Tail(e)
  }

  function Stream(es: seq<Entry>): Bytes {
    if es == [] then [] else Encoded(es[0]) + Stream(es[1..])
  }

  /** Lengths fit the 64-bit length fields. */
  predicate Representable(e: Entry) {
    |e.name| <= U64_MAX && (e.content.Some? ==> |e.content.value| <= U64_MAX)
  }

  predicate AllRepresentable(es: seq<Entry>) {
    forall i :: 0 <= i < |es| ==> Representable(es[i])
  }

  lemma {:induction false} LittleEndianInjective(m: nat, n: nat, k: nat)
    requires m < Pow256(k) && n < Pow256(k) && LittleEndian(m, k) == LittleEndian(n, k)
    ensures m == n
  {
    if k > 0 {
      var a, b := LittleEndian(m, k), LittleEndian(n, k);
      assert a[0] == b[0] && a[1..] == b[1..];
      assert a[1..] == LittleEndian(m / 256, k - 1) && b[1..] == LittleEndian(n / 256, k - 1);
      LittleEndianInjective(m / 256, n / 256, k - 1);
    }
  }

  lemma Length64Injective(m: nat, n: nat)
    requires m <= U64_MAX && n <= U64_MAX && Length64(m) == Length64(n)
    ensures m == n
  {
    assert Pow256(8) == 256 * (256 * (256 * (256 * Pow256(4))));
    assert Pow256(4) == 256 * (256 * (256 * (256 * 1)));
    LittleEndianInjective(m, n, 8);
  }

  /** A length-prefixed field is self-delimiting. */
  lemma FieldDecodes(a: Bytes, b: Bytes, x: Bytes, y: Bytes)
    requires |a| <= U64_MAX && |b| <= U64_MAX
    requires Field(a) + x == Field(b) + y
    ensures a == b && x == y
  {
    var s, t := Field(a) + x, Field(b) + y;
    assert s[..8] == Length64(|a|) && t[..8] == Length64(|b|);
    Length64Injective(|a|, |b|);
    assert s[8..8 + |a|] == a && t[8..8 + |b|] == b;
    assert s[8 + |a|..] == x && t[8 + |b|..] == y;
  }

  lemma TailDecodes(d: Entry, e: Entry, x: Bytes, y: Bytes)
    requires Representable(d) && Representable(e) && Tail(d) + x == Tail(e) + y
    ensures d.content == e.content && x == y
  {
    TailFlag(d, x);
    TailFlag(e, y);
    if d.content.Some? && e.content.Some? {
      FieldDecodes(d.content.value, e.content.value, x, y);
    }
  }

  /** The first byte of a tail says whether content follows; the rest is the content's field or nothing. */
  lemma TailFlag(e: Entry, x: Bytes)
    ensures Tail(e) + x != [] && (Tail(e) + x)[0] == if e.content.Some? then 1 else 0
    ensures (Tail(e) + x)[1..] == if e.content.Some? then Field(e.content.value) + x else x
  {
    if e.content.Some? {
      assert Tail(e) == [1 as byte] + Field(e.content.value);
      assert Tail(e) + x == [1 as byte] + (Field(e.content.value) + x);
    }
  }

  lemma EncodedSplits(e: Entry, x: Bytes)
    ensures Encoded(e) + x == Field(e.name) + (Tail(e) + x)
  {
  }

  lemma EntryDecodes(d: Entry, e: Entry, x: Bytes, y: Bytes)
    requires Representable(d) && Representable(e) && Encoded(d) + x == Encoded(e) + y
    ensures d == e && x == y
  {
    EncodedSplits(d, x);
    EncodedSplits(e, y);
    FieldDecodes(d.name, e.name, Tail(d) + x, Tail(e) + y);
    TailDecodes(d, e, x, y);
  }

  /** The stream determines the list of entries. */
  lemma {:induction false} StreamInjective(a: seq<Entry>, b: seq<Entry>)
    requires AllRepresentable(a) && AllRepresentable(b) && Stream(a) == Stream(b)
    ensures a == b
  {
    if a != [] && b != [] {
      EntryDecodes(a[0], b[0], Stream(a[1..]), Stream(b[1..]));
      StreamInjective(a[1..], b[1..]);
      assert a == [a[0]] + a[1..] && b == [b[0]] + b[1..];
    }
  }

  // ---------------------------------------------------------------- sorting by name

  /** Byte-wise lexicographic order. */
  predicate Before(a: Bytes, b: Bytes) {
    if b == [] then false
    else if a == [] then true
    else if a[0] != b[0] then a[0] < b[0]
    else Before(a[1..], b[1..])
  }

  lemma {:induction false} BeforeTotal(a: Bytes, b: Bytes)
    ensures Before(a, b) || Before(b, a) || a == b
    ensures !(Before(a, b) && Before(b, a)) && !Before(a, a)
  {
    if a != [] && b != [] {
      BeforeTotal(a[1..], b[1..]);
      assert a == [a[0]] + a[1..] && b == [b[0]] + b[1..];
    }
    if a != [] {
      BeforeTotal(a[1..], a[1..]);
    }
  }

  lemma {:induction false} BeforeTransitive(a: Bytes, b: Bytes, c: Bytes)
    requires !Before(b, a) && !Before(c, b)
    ensures !Before(c, a)
  {
    if a != [] && b != [] && c != [] && a[0] == b[0] == c[0] {
      BeforeTransitive(a[1..], b[1..], c[1..]);
    }
  }

  /** Stable insertion: a new front element goes before its equals. */
  function Insert(x: Entry, s: seq<Entry>): seq<Entry> {
    if s == [] || !Before(s[0].name, x.name) then [x] + s else [s[0]] + Insert(x, s[1..])
  }

  /** `sort_by` on the names: the stable sort. */
  function Sorted(s: seq<Entry>): seq<Entry> {
    if s == [] then [] else Insert(s[0], Sorted(s[1..]))
  }

  predicate Ascending(s: seq<Entry>) {
    forall i, j :: 0 <= i < j < |s| ==> !Before(s[j].name, s[i].name)
  }

  lemma {:induction false} InsertMultiset(x: Entry, s: seq<Entry>)
    ensures multiset(Insert(x, s)) == multiset(s) + multiset{x}
  {
    if s != [] && Before(s[0].name, x.name) {
      InsertMultiset(x, s[1..]);
      assert s == [s[0]] + s[1..];
    }
  }

  /** The least entry of an ascending list comes first. */
  lemma AscendingCons(x: Entry, s: seq<Entry>)
    requires Ascending(s) && (s != [] ==> !Before(s[0].name, x.name))
    ensures Ascending([x] + s) && forall i :: 0 <= i < |s| ==> !Before(s[i].name, x.name)
  {
    forall i | 0 <= i < |s|
      ensures !Before(s[i].name, x.name)
    {
      if i > 0 {
        BeforeTransitive(x.name, s[0].name, s[i].name);
      }
    }
  }

  lemma {:induction false} InsertAscending(x: Entry, s: seq<Entry>)
    requires Ascending(s)
    ensures Ascending(Insert(x, s))
  {
    if s == [] || !Before(s[0].name, x.name) {
      AscendingCons(x, s);
    } else {
      InsertAscending(x, s[1..]);
      BeforeTotal(s[0].name, x.name);
      var r := Insert(x, s[1..]);
      assert r[0] == x || r[0] == s[1];
      AscendingCons(s[0], r);
    }
  }

  lemma {:induction false} SortedKeeps(s: seq<Entry>)
    ensures multiset(Sorted(s)) == multiset(s) && Ascending(Sorted(s))
  {
    if s != [] {
      SortedKeeps(s[1..]);
      InsertMultiset(s[0], Sorted(s[1..]));
      InsertAscending(s[0], Sorted(s[1..]));
      assert s == [s[0]] + s[1..];
    }
  }

  // ---------------------------------------------------------------- canonical

  /** Entries that share a name are the same entry. */
  ghost predicate Consistent(es: multiset<Entry>) {
    forall d, e :: d in es && e in es && d.name == e.name ==> d == e
  }

  lemma LeastUnique(a: seq<Entry>, b: seq<Entry>)
    requires Ascending(a) && Ascending(b) && multiset(a) == multiset(b) && Consistent(multiset(a)) && a != [] && b != []
    ensures a[0] == b[0]
  {
    assert a[0] in multiset(b) && b[0] in multiset(a);
    var i :| 0 <= i < |b| && b[i] == a[0];
    var j :| 0 <= j < |a| && a[j] == b[0];
    BeforeTotal(a[0].name, b[0].name);
  }

  lemma TailMultiset(s: seq<Entry>)
    requires s != []
    ensures multiset(s) == multiset{s[0]} + multiset(s[1..])
    ensures Ascending(s) ==> Ascending(s[1..])
    ensures Consistent(multiset(s)) ==> Consistent(multiset(s[1..]))
  {
    assert s == [s[0]] + s[1..];
  }

  lemma {:induction false} AscendingUnique(a: seq<Entry>, b: seq<Entry>)
    requires Ascending(a) && Ascending(b) && multiset(a) == multiset(b) && Consistent(multiset(a))
    ensures a == b
  {
    SameLength(a, b);
    if a != [] {
      LeastUnique(a, b);
      TailMultiset(a);
      TailMultiset(b);
      CancelFirst(a[0], multiset(a[1..]), multiset(b[1..]));
      AscendingUnique(a[1..], b[1..]);
      HeadAndTail(a, b);
    }
  }

  lemma HeadAndTail(a: seq<Entry>, b: seq<Entry>)
    requires a != [] && b != [] && a[0] == b[0] && a[1..] == b[1..]
    ensures a == b
  {
    assert a == [a[0]] + a[1..] && b == [b[0]] + b[1..];
  }

  lemma CancelFirst(x: Entry, m: multiset<Entry>, n: multiset<Entry>)
    requires multiset{x} + m == multiset{x} + n
    ensures m == n
  {
    assert m == (multiset{x} + m) - multiset{x} && n == (multiset{x} + n) - multiset{x};
  }

  function OfName(s: seq<Entry>, name: Bytes): seq<Entry> {
    if s == [] then []
    else if s[0].name == name then [s[0]] + OfName(s[1..], name)
    else OfName(s[1..], name)
  }

  /** Stability: entries of one name keep their order. */
  lemma {:induction false} InsertStable(x: Entry, s: seq<Entry>, name: Bytes)
    ensures OfName(Insert(x, s), name) == if x.name == name then [x] + OfName(s, name) else OfName(s, name)
  {
    if s != [] && Before(s[0].name, x.name) {
      InsertStable(x, s[1..], name);
      BeforeTotal(x.name, x.name);
      var r := Insert(x, s[1..]);
      assert ([s[0]] + r)[1..] == r;
    } else {
      assert ([x] + s)[1..] == s;
    }
  }

  lemma {:induction false} SortStable(s: seq<Entry>, name: Bytes)
    ensures OfName(Sorted(s), name) == OfName(s, name)
  {
    if s != [] {
      SortStable(s[1..], name);
      InsertStable(s[0], Sorted(s[1..]), name);
    }
  }

  /** The stream does not depend on the order in which the entries were collected. */
  ghost predicate OrderIndependent(es: seq<Entry>) {
    forall other :: multiset(other) == multiset(es) ==> Stream(Sorted(other)) == Stream(Sorted(es))
  }

  lemma SameEntriesSameStream(a: seq<Entry>, b: seq<Entry>)
    requires multiset(a) == multiset(b) && Consistent(multiset(a))
    ensures Sorted(a) == Sorted(b)
  {
    SortedKeeps(a);
    SortedKeeps(b);
    AscendingUnique(Sorted(a), Sorted(b));
  }

  lemma RepresentableSorted(a: seq<Entry>)
    requires AllRepresentable(a)
    ensures AllRepresentable(Sorted(a))
  {
    SortedKeeps(a);
    RepresentablePermuted(a, Sorted(a));
  }

  /** Two entries of one name in either order give different streams. */
  lemma SwapChangesStream(d: Entry, e: Entry, rest: seq<Entry>)
    requires d.name == e.name && d != e && AllRepresentable([d, e] + rest)
    ensures Stream(Sorted([d, e] + rest)) != Stream(Sorted([e, d] + rest))
  {
    var a, b := [d, e] + rest, [e, d] + rest;
    assert multiset(a) == multiset(b);
    RepresentablePermuted(a, b);
    RepresentableSorted(a);
    RepresentableSorted(b);
    SortStable(a, d.name);
    SortStable(b, d.name);
    assert OfName(a, d.name)[0] == d && OfName(b, d.name)[0] == e;
    if Stream(Sorted(a)) == Stream(Sorted(b)) {
      StreamInjective(Sorted(a), Sorted(b));
    }
  }

  /** The stream is canonical if and only if no name is claimed by two different contents. */
  lemma CanonicalIff(es: seq<Entry>)
    requires AllRepresentable(es)
    ensures OrderIndependent(es) <==> Consistent(multiset(es))
  {
    if Consistent(multiset(es)) {
      forall other | multiset(other) == multiset(es)
        ensures Stream(Sorted(other)) == Stream(Sorted(es))
      {
        SameEntriesSameStream(es, other);
      }
    } else {
      var d, e :| d in multiset(es) && e in multiset(es) && d.name == e.name && d != e;
      var i, j :| 0 <= i < |es| && 0 <= j < |es| && es[i] == d && es[j] == e;
      if i < j {
        NotCanonical(es, i, j);
      } else {
        NotCanonical(es, j, i);
      }
    }
  }

  function Dropped(s: seq<Entry>, k: nat): seq<Entry>
    requires k < |s|
  {
    s[..k] + s[k + 1..]
  }

  lemma DroppedMultiset(s: seq<Entry>, k: nat)
    requires k < |s|
    ensures multiset(s) == multiset{s[k]} + multiset(Dropped(s, k))
  {
    assert s == s[..k] + [s[k]] + s[k + 1..];
  }

  lemma PairMultiset(d: Entry, e: Entry, rest: seq<Entry>)
    ensures multiset([d, e] + rest) == multiset{d} + multiset{e} + multiset(rest)
  {
    assert [d, e] + rest == [d] + ([e] + rest);
  }

  lemma PulledToFront(es: seq<Entry>, i: nat, j: nat, rest: seq<Entry>)
    requires i < j < |es| && rest == Dropped(Dropped(es, j), i)
    ensures multiset([es[i], es[j]] + rest) == multiset([es[j], es[i]] + rest) == multiset(es)
  {
    DroppedMultiset(es, j);
    DroppedMultiset(Dropped(es, j), i);
    assert Dropped(es, j)[i] == es[i];
    PairMultiset(es[i], es[j], rest);
    PairMultiset(es[j], es[i], rest);
  }

  lemma NotCanonical(es: seq<Entry>, i: nat, j: nat)
    requires AllRepresentable(es) && i < j < |es| && es[i].name == es[j].name && es[i] != es[j]
    ensures !OrderIndependent(es)
  {
    var rest := Dropped(Dropped(es, j), i);
    PulledToFront(es, i, j, rest);
    var a, b := [es[i], es[j]] + rest, [es[j], es[i]] + rest;
    RepresentablePermuted(es, a);
    SwapChangesStream(es[i], es[j], rest);
    TwoStreams(es, a, b);
  }

  lemma TwoStreams(es: seq<Entry>, a: seq<Entry>, b: seq<Entry>)
    requires multiset(a) == multiset(b) == multiset(es) && Stream(Sorted(a)) != Stream(Sorted(b))
    ensures !OrderIndependent(es)
  {
  }

  lemma RepresentablePermuted(a: seq<Entry>, b: seq<Entry>)
    requires AllRepresentable(a) && multiset(a) == multiset(b)
    ensures AllRepresentable(b)
  {
    forall i | 0 <= i < |b|
      ensures Representable(b[i])
    {
      assert b[i] in multiset(a);
    }
  }

  /** With names claimed once, two checkouts feed the hash the same bytes exactly when they have the same files. */
  lemma SameStreamIffSameFiles(a: seq<Entry>, b: seq<Entry>)
    requires AllRepresentable(a) && AllRepresentable(b) && Consistent(multiset(a)) && Consistent(multiset(b))
    ensures Stream(Sorted(a)) == Stream(Sorted(b)) <==> multiset(a) == multiset(b)
  {
    SortedKeeps(a);
    SortedKeeps(b);
    if Stream(Sorted(a)) == Stream(Sorted(b)) {
      RepresentableSorted(a);
      RepresentableSorted(b);
      StreamInjective(Sorted(a), Sorted(b));
    }
    if multiset(a) == multiset(b) {
      SameEntriesSameStream(a, b);
    }
  }

  // ---------------------------------------------------------------- the qualification table

  const TABLE := Ascii("src/netplay/qualification.json")

  function WithoutTable(s: seq<Entry>): seq<Entry> {
    if s == [] then []
    else if s[0].name == TABLE then WithoutTable(s[1..])
    else [s[0]] + WithoutTable(s[1..])
  }

  lemma {:induction false} InsertWithoutTable(x: Entry, s: seq<Entry>)
    requires Ascending(s)
    ensures WithoutTable(Insert(x, s)) == if x.name == TABLE then WithoutTable(s) else Insert(x, WithoutTable(s))
  {
    if s != [] && Before(s[0].name, x.name) {
      InsertWithoutTable(x, s[1..]);
      KeptFront(s[0], Insert(x, s[1..]));
      assert ([s[0]] + WithoutTable(s[1..]))[1..] == WithoutTable(s[1..]);
    } else {
      AscendingCons(x, s);
      KeptFront(x, s);
      InsertInFront(x, s);
    }
  }

  lemma KeptFront(x: Entry, s: seq<Entry>)
    ensures WithoutTable([x] + s) == if x.name == TABLE then WithoutTable(s) else [x] + WithoutTable(s)
  {
    assert ([x] + s)[1..] == s;
  }

  lemma {:induction false} InsertInFront(x: Entry, s: seq<Entry>)
    requires forall i :: 0 <= i < |s| ==> !Before(s[i].name, x.name)
    ensures Insert(x, WithoutTable(s)) == [x] + WithoutTable(s)
  {
    if s != [] && s[0].name == TABLE {
      InsertInFront(x, s[1..]);
    }
  }

  /** Skipping the table in the sorted stream is stamping the file set with only the table removed. */
  lemma {:induction false} QualificationStream(es: seq<Entry>)
    ensures WithoutTable(Sorted(es)) == Sorted(WithoutTable(es))
  {
    if es != [] {
      QualificationStream(es[1..]);
      SortedKeeps(es[1..]);
      InsertWithoutTable(es[0], Sorted(es[1..]));
      assert ([es[0]] + WithoutTable(es[1..]))[1..] == WithoutTable(es[1..]);
    }
  }
}
