/**
 The web bundle's module loader: a depth-first resolution that rewrites every import of a module to
 the blob URL of the imported module, memoised over the bundle and refusing cycles and unknown names.
 */
module ModuleLoader {
  import opened Common

  type Name = string
  type Url = nat

  /** The bundled modules, each with its imports in textual order. */
  type Bundle = map<Name, seq<Name>>

  // ---------------------------------------------------------------- what should load

  /** A chain of imports. */
  predicate Walk(g: Bundle, w: seq<Name>) {
    && w != []
    && forall i :: 0 <= i < |w| - 1 ==> w[i] in g && w[i + 1] in g[w[i]]
  }

  /** A chain of imports that leaves the bundle or comes back to itself. */
  predicate BadWalk(g: Bundle, w: seq<Name>) {
    && Walk(g, w)
    && var last := w[|w| - 1];
    (last !in g || last in w[..|w| - 1])
  }

  /** Everything reachable from `root` is bundled, and no import chain from it has a cycle. */
  ghost predicate ClosedAndAcyclic(g: Bundle, root: Name) {
    forall w :: BadWalk(g, w) ==> w[0] != root
  }

  /** An order in which every module comes after everything it imports. */
  ghost predicate Topological(g: Bundle, order: seq<Name>) {
    && (forall i :: 0 <= i < |order| ==> order[i] in g)
    && (forall i, d :: 0 <= i < |order| && d in g[order[i]] ==> d in order[..i])
  }

  /** A module imports only what precedes it, so a chain of imports moves strictly backwards. */
  lemma {:induction false} WalkDescends(g: Bundle, order: seq<Name>, w: seq<Name>, at: nat, k: nat)
    requires Topological(g, order) && Walk(g, w) && at < |order| && w[0] == order[at] && k < |w|
    ensures k == 0 ==> w[k] in order[..at + 1]
    ensures k > 0 ==> w[k] in order[..at]
  {
    if k > 0 {
      WalkDescends(g, order, w, at, k - 1);
      var i :| 0 <= i < |order| && i <= at && order[i] == w[k - 1] && (k - 1 > 0 ==> i < at);
      assert w[k] in order[..i];
    }
  }

  lemma {:induction false} OrderedHasNoBadWalk(g: Bundle, order: seq<Name>, w: seq<Name>)
    requires Topological(g, order) && Walk(g, w) && w[0] in order
    ensures !BadWalk(g, w)
    decreases |order|
  {
    var at := First(order, w[0]);
    WalkDescends(g, order, w, at, |w| - 1);
    if |w| > 1 {
      if w[|w| - 1] == w[0] {
        assert false;
      }
      var rest := w[1..];
      assert Walk(g, rest) by {
        forall i | 0 <= i < |rest| - 1
          ensures rest[i] in g && rest[i + 1] in g[rest[i]]
        {
          assert w[i + 1] in g && w[i + 2] in g[w[i + 1]];
        }
      }
      assert rest[0] in order[..at];
      var shorter := order[..at];
      assert Topological(g, shorter) by {
        forall i, d | 0 <= i < |shorter| && d in g[shorter[i]]
          ensures d in shorter[..i]
        {
          assert shorter[..i] == order[..i];
        }
      }
      OrderedHasNoBadWalk(g, shorter, rest);
      assert w[..|w| - 1] == [w[0]] + rest[..|rest| - 1];
    }
  }

  function First(order: seq<Name>, x: Name): (i: nat)
    requires x in order
    ensures i < |order| && order[i] == x && x !in order[..i]
  {
    if order[0] == x then 0
    else
      var i := First(order[1..], x) + 1;
      assert order[..i] == [order[0]] + order[1..][..i - 1];
      i
  }

  // ---------------------------------------------------------------- the loader

  class Loader {
    const bundle: Bundle
    var blobs: map<Name, Url>
    /** What each blob imports: the URLs that replaced its import names. */
    var content: map<Url, seq<Url>>
    var nextUrl: Url
    ghost var order: seq<Name>

    ghost predicate Valid()
      reads this
    {
      && (forall n :: n in blobs <==> n in order)
      && Topological(bundle, order)
      && (forall n :: n in blobs ==> blobs[n] < nextUrl && blobs[n] in content)
      && (forall u :: u in content ==> u < nextUrl)
      && (forall m, n :: m in blobs && n in blobs && blobs[m] == blobs[n] ==> m == n)
      && (forall n :: n in blobs ==> Linked(n))
    }

    /** The published source of `n` imports exactly the published modules its text names, in order. */
    ghost predicate Linked(n: Name)
      requires n in blobs && blobs[n] in content && n in bundle
      reads this
    {
      && |content[blobs[n]]| == |bundle[n]|
      && forall i :: 0 <= i < |bundle[n]| ==> bundle[n][i] in blobs && content[blobs[n]][i] == blobs[bundle[n][i]]
    }

    constructor (bundle: Bundle)
      ensures Valid() && blobs == map[] && this.bundle == bundle
    {
      this.bundle := bundle;
      blobs, content, nextUrl, order := map[], map[], 0, [];
    }

    /** Nothing already published is withdrawn or changed. */
    twostate predicate Extended()
      reads this
    {
      && old(blobs).Keys <= blobs.Keys && (forall n :: n in old(blobs) ==> blobs[n] == old(blobs)[n])
      && old(content).Keys <= content.Keys && (forall u :: u in old(content) ==> content[u] == old(content)[u])
      && old(nextUrl) <= nextUrl
    }

    /**
     `moduleUrl`: `visiting` holds the modules on the import path that led here. Whatever happens, a
     throw included, the memo stays closed under imports; a throw comes with a bad import chain.
     */
    method ModuleUrl(name: Name, visiting: set<Name>, ghost path: seq<Name>)
      returns (r: Result<Url>, ghost bad: seq<Name>)
      requires Valid() && Walk(bundle, path + [name])
      requires visiting == (set n | n in path) && visiting <= bundle.Keys
      modifies this
      decreases bundle.Keys - visiting
      ensures Valid() && Extended()
      ensures forall n :: n in visiting && n !in old(blobs) ==> n !in blobs
      ensures r.Ok? ==> name in blobs && r.value == blobs[name]
      ensures r.Rejected? ==> BadWalk(bundle, bad) && bad[0] == (path + [name])[0]
    {
      bad := path + [name];
      if name in blobs {
        return Ok(blobs[name]), bad;
      }
      if name in visiting || name !in bundle {
        assert bad[..|bad| - 1] == path;
        return Rejected, bad;
      }
      var here := visiting + {name};
      assert bundle.Keys - here < bundle.Keys - visiting by {
        assert name in bundle.Keys - visiting && name !in bundle.Keys - here;
      }
      var imports, urls := bundle[name], [];
      for i := 0 to |imports|
        invariant Valid() && Extended() && name !in blobs
        invariant forall n :: n in visiting && n !in old(blobs) ==> n !in blobs
        invariant |urls| == i
        invariant forall j :: 0 <= j < i ==> imports[j] in blobs && urls[j] == blobs[imports[j]]
      {
        ghost var longer := path + [name];
        assert Walk(bundle, longer + [imports[i]]) by {
          ExtendWalk(bundle, longer, imports[i]);
        }
        var url, witnessed := ModuleUrl(imports[i], here, longer);
        if url.Rejected? {
          return Rejected, witnessed;
        }
        urls := urls + [url.value];
      }
      Publish(name, urls);
      return Ok(blobs[name]), bad;
    }

    /**
     Loading the entry module, from an empty memo or any later one, succeeds exactly when its imports
     are all bundled and acyclic; then everything reachable from it has been published.
     */
    method Load(root: Name) returns (r: Result<Url>)
      requires Valid()
      modifies this
      ensures Valid() && Extended()
      ensures r.Ok? <==> ClosedAndAcyclic(bundle, root)
      ensures r.Ok? ==> forall w :: Walk(bundle, w) && w[0] == root ==> w[|w| - 1] in blobs
    {
      ghost var bad;
      r, bad := ModuleUrl(root, {}, []);
      if r.Ok? {
        forall w | Walk(bundle, w) && w[0] == root
          ensures !BadWalk(bundle, w) && w[|w| - 1] in blobs
        {
          OrderedHasNoBadWalk(bundle, order, w);
          WalkDescends(bundle, order, w, First(order, root), |w| - 1);
        }
      }
    }

    /** `createObjectURL` on the rewritten source, and the memo entry for it. */
    method Publish(name: Name, urls: seq<Url>)
      requires Valid() && name in bundle && name !in blobs && |urls| == |bundle[name]|
      requires forall j :: 0 <= j < |urls| ==> bundle[name][j] in blobs && urls[j] == blobs[bundle[name][j]]
      modifies this
      ensures Valid() && Extended() && blobs.Keys == old(blobs).Keys + {name}
    {
      TopologicalExtends(bundle, order, name);
      content := content[nextUrl := urls];
      blobs := blobs[name := nextUrl];
      nextUrl := nextUrl + 1;
      order := order + [name];
    }
  }

  lemma TopologicalExtends(g: Bundle, order: seq<Name>, name: Name)
    requires Topological(g, order) && name in g && forall d :: d in g[name] ==> d in order
    ensures Topological(g, order + [name])
  {
    var longer := order + [name];
    forall i, d | 0 <= i < |longer| && d in g[longer[i]]
      ensures d in longer[..i]
    {
      assert longer[..i] == order[..i];
      assert order[..|order|] == order;
    }
  }

  lemma ExtendWalk(g: Bundle, w: seq<Name>, next: Name)
    requires Walk(g, w) && w[|w| - 1] in g && next in g[w[|w| - 1]]
    ensures Walk(g, w + [next])
  {
  }
}
