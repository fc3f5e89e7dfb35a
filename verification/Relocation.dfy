/**
 The generator proper: it checks one linked image against the object, keeps the bytes that move
 with a base as a packed, sorted table, and emits the lookup that rebuilds the driver at any base.
 */
module Relocation {
  import opened Common
  import opened DriverObject

  const DRIVER_SIZE: nat := 1941
  const UPDATE_OFFSET: nat := 0x469
  const PLAYBACK_SIZE: nat := 100
  const FIELD := 0x800          // 1 << 11
  const KIND_UNIT := 0x40_0000  // 1 << 22

  // ---------------------------------------------------------------- patches

  function Width(kind: nat): nat {
    if kind == PATCH_WORD then 2 else if kind == PATCH_LONG then 4 else 1
  }

  /** The bytes a patch of this kind stores for the number `raw`, with the program counter at `pc`. */
  function Stored(kind: nat, raw: nat, pc: int): (r: Result<seq<byte>>)
    ensures r.Ok? ==> |r.value| == Width(kind)
  {
    if kind == PATCH_BYTE then Ok([raw % 256])
    else if kind == PATCH_WORD then Ok([raw % 256, raw / 256 % 256])
    else if kind == PATCH_LONG then Ok([raw % 256, raw / 256 % 256, raw / 65536 % 256, raw / 16777216 % 256])
    else if kind == PATCH_JR then Ok([(raw - (pc + 2)) % 256])
    else Rejected
  }

  function PatchBytes(p: Patch, v: Value, codeBase: int, ramBase: int): (r: Result<seq<byte>>)
    ensures r.Ok? ==> |r.value| == Width(p.kind)
  {
    Stored(p.kind, Materialize(v, codeBase, ramBase), codeBase + p.pcOffset)
  }

  predicate Covers(p: Patch, i: nat) {
    p.offset <= i < p.offset + Width(p.kind)
  }

  /** The index of the patch whose byte survives at `i`, or -1 when no patch covers it. */
  function LastWriter(ps: seq<Patch>, i: nat): (j: int)
    ensures -1 <= j < |ps|
    ensures 0 <= j ==> Covers(ps[j], i)
    ensures forall k :: j < k < |ps| ==> !Covers(ps[k], i)
  {
    if ps == [] then -1
    else if Covers(ps[|ps| - 1], i) then |ps| - 1
    else LastWriter(ps[..|ps| - 1], i)
  }

  // ---------------------------------------------------------------- the reference linker

  /** Slice assignment on a bytearray, with Python's clamping. */
  function Overlay(image: seq<byte>, at: nat, bytes: seq<byte>): seq<byte> {
    var lo, hi := Min(at, |image|), Min(at + |bytes|, |image|);
    image[..lo] + bytes + image[hi..]
  }

  function Clip(s: seq<byte>, from: nat, to: nat): seq<byte>
    requires from <= to
  {
    s[Min(from, |s|)..Min(to, |s|)]
  }

  /** The bytes a linker stores for one patch once every section is placed. */
  function LinkedPatch(o: Object, place: seq<int>, p: Patch): (r: Result<seq<byte>>)
    ensures r.Ok? ==> |r.value| == Width(p.kind)
  {
    var raw :- LinkedValue(o, place, p.expression);
    if p.kind == PATCH_JR && p.pcSection >= |place| then Rejected
    else Stored(p.kind, raw, if p.kind == PATCH_JR then place[p.pcSection] + p.pcOffset else 0)
  }

  /** The section's data with every patch linked in, in order. */
  function Linked(o: Object, place: seq<int>, data: seq<byte>, ps: seq<Patch>): (r: Result<seq<byte>>)
    ensures r.Ok? ==> |r.value| == |data|
  {
    if ps == [] then Ok(data)
    else
      var last := ps[|ps| - 1];
      var image :- Linked(o, place, data, ps[..|ps| - 1]);
      var bytes :- LinkedPatch(o, place, last);
      if last.offset + |bytes| <= |image| then Ok(Overlay(image, last.offset, bytes)) else Rejected
  }

  // ---------------------------------------------------------------- the generator's checks

  /** The image the generator materialises, checked patch by patch against the linked ROM `code`. */
  function Materialized(o: Object, code: seq<byte>, data: seq<byte>, ps: seq<Patch>, codeBase: int, ramBase: int)
    : Result<seq<byte>>
  {
    if ps == [] then Ok(data)
    else
      var last := ps[|ps| - 1];
      var image :- Materialized(o, code, data, ps[..|ps| - 1], codeBase, ramBase);
      var v :- Meaning(o, last.expression);
      var bytes :- PatchBytes(last, v, codeBase, ramBase);
      if Clip(code, last.offset, last.offset + |bytes|) == bytes
      then Ok(Overlay(image, last.offset, bytes)) else Rejected
  }

  method MaterializeSection(o: Object, code: seq<byte>, data: seq<byte>, ps: seq<Patch>, codeBase: int, ramBase: int)
    returns (r: Result<seq<byte>>)
    ensures r == Materialized(o, code, data, ps, codeBase, ramBase)
  {
    var image := data;
    for k := 0 to |ps|
      invariant Materialized(o, code, data, ps[..k], codeBase, ramBase) == Ok(image)
    {
      assert ps[..k + 1][..k] == ps[..k];
      var v := ExpressionValue(o, ps[k].expression);
      var bytes := if v.Ok? then PatchBytes(ps[k], v.value, codeBase, ramBase) else Rejected;
      if bytes.Rejected? || Clip(code, ps[k].offset, ps[k].offset + |bytes.value|) != bytes.value {
        RejectionSticks(o, code, data, ps, k + 1, codeBase, ramBase);
        return Rejected;
      }
      image := Overlay(image, ps[k].offset, bytes.value);
    }
    assert ps[..|ps|] == ps;
    return Ok(image);
  }

  lemma {:induction false} RejectionSticks(o: Object, code: seq<byte>, data: seq<byte>, ps: seq<Patch>, k: nat,
                                           codeBase: int, ramBase: int)
    requires k <= |ps|
    requires Materialized(o, code, data, ps[..k], codeBase, ramBase).Rejected?
    ensures Materialized(o, code, data, ps, codeBase, ramBase).Rejected?
  {
    if k == |ps| {
      assert ps[..k] == ps;
    } else {
      assert ps[..|ps| - 1][..k] == ps[..k];
      RejectionSticks(o, code, data, ps[..|ps| - 1], k, codeBase, ramBase);
    }
  }

  // ---------------------------------------------------------------- relocations

  datatype Kind = Kind(domain: Domain, select: Select)

  /** Byte `at` of the driver is the `kind` byte of its base plus `offset`. */
  datatype Reloc = Reloc(at: nat, offset: int, kind: Kind)

  function DriverIndex(sections: seq<Section>): (r: Option<nat>)
    ensures r.Some? ==> r.value < |sections| && sections[r.value].name == "Sound Driver"
  {
    FirstNamed(sections, 0)
  }

  function FirstNamed(sections: seq<Section>, i: nat): (r: Option<nat>)
    ensures r.Some? ==> r.value < |sections| && sections[r.value].name == "Sound Driver"
    decreases |sections| - i
  {
    if i >= |sections| then None
    else if sections[i].name == "Sound Driver" then Some(i)
    else FirstNamed(sections, i + 1)
  }

  predicate Moves(p: Patch, v: Value) {
    p.kind != PATCH_JR && v.domain.Some?
  }

  predicate JrHigh(p: Patch, v: Value) {
    p.kind == PATCH_JR && v.select == Some(High)
  }

  /** The relocations of one patch: none for JR and for base-independent values. */
  function PatchRelocs(codeSection: nat, p: Patch, v: Value): (r: Result<seq<Reloc>>)
    ensures r.Ok? ==> forall x :: x in r.value ==> Covers(p, x.at) && Moves(p, v)
    ensures r.Ok? && Moves(p, v) ==> forall i :: Covers(p, i) ==> exists x :: x in r.value && x.at == i
  {
    if p.kind == PATCH_JR then
      if v.domain != Some(Code) || p.pcSection != codeSection then Rejected else Ok([])
    else if v.domain.None? then Ok([])
    else if p.kind == PATCH_WORD && v.select.None? then
      var rs := [Reloc(p.offset, v.offset, Kind(v.domain.value, Low)),
                 Reloc(p.offset + 1, v.offset, Kind(v.domain.value, High))];
      assert rs[0].at == p.offset && rs[1].at == p.offset + 1;
      Ok(rs)
    else if p.kind == PATCH_BYTE && v.select.Some? then
      var rs := [Reloc(p.offset, v.offset, Kind(v.domain.value, v.select.value))];
      assert rs[0].at == p.offset;
      Ok(rs)
    else Rejected
  }

  /** All relocations in patch order. */
  function Gathered(o: Object, codeSection: nat, ps: seq<Patch>): Result<seq<Reloc>> {
    if ps == [] then Ok([])
    else
      var last := ps[|ps| - 1];
      var before :- Gathered(o, codeSection, ps[..|ps| - 1]);
      var v :- Meaning(o, last.expression);
      var here :- PatchRelocs(codeSection, last, v);
      Ok(before + here)
  }

  /** Insertion into a list sorted by position. */
  function Insert(x: Reloc, s: seq<Reloc>): (r: seq<Reloc>)
    ensures |r| == |s| + 1
  {
    if s == [] || x.at <= s[0].at then [x] + s else [s[0]] + Insert(x, s[1..])
  }

  /** `list.sort()`: positions decide the order, because equal positions are rejected right after. */
  function Sorted(s: seq<Reloc>): (r: seq<Reloc>)
    ensures |r| == |s|
  {
    if s == [] then [] else Insert(s[0], Sorted(s[1..]))
  }

  predicate Ascending(s: seq<Reloc>) {
    forall i, j :: 0 <= i < j < |s| ==> s[i].at <= s[j].at
  }

  predicate DistinctPositions(s: seq<Reloc>) {
    forall i, j :: 0 <= i < j < |s| ==> s[i].at != s[j].at
  }

  lemma {:induction false} InsertAdds(x: Reloc, s: seq<Reloc>)
    ensures multiset(Insert(x, s)) == multiset(s) + multiset{x}
  {
    if s != [] && x.at > s[0].at {
      InsertAdds(x, s[1..]);
      assert s == [s[0]] + s[1..];
    }
  }

  /** A list stays ascending with an element in front that is at most every other. */
  lemma AscendingCons(x: Reloc, s: seq<Reloc>)
    requires Ascending(s) && forall i :: 0 <= i < |s| ==> x.at <= s[i].at
    ensures Ascending([x] + s)
  {
  }

  lemma {:induction false} InsertAscending(x: Reloc, s: seq<Reloc>)
    requires Ascending(s)
    ensures Ascending(Insert(x, s))
  {
    if s != [] && x.at > s[0].at {
      var r := Insert(x, s[1..]);
      InsertAscending(x, s[1..]);
      InsertAdds(x, s[1..]);
      forall i | 0 <= i < |r|
        ensures s[0].at <= r[i].at
      {
        assert r[i] in multiset(r);
        assert r[i] == x || r[i] in s[1..];
      }
      AscendingCons(s[0], r);
    } else {
      AscendingCons(x, s);
    }
  }

  lemma {:induction false} SortedKeeps(s: seq<Reloc>)
    ensures multiset(Sorted(s)) == multiset(s)
    ensures Ascending(Sorted(s))
  {
    if s != [] {
      SortedKeeps(s[1..]);
      InsertAdds(s[0], Sorted(s[1..]));
      InsertAscending(s[0], Sorted(s[1..]));
      assert s == [s[0]] + s[1..];
    }
  }

  /** With distinct positions, ascending lists of the same relocations are equal. */
  lemma {:induction false} AscendingUnique(s: seq<Reloc>, t: seq<Reloc>)
    requires multiset(s) == multiset(t) && Ascending(s) && Ascending(t) && DistinctPositions(s)
    ensures s == t
  {
    if s == [] || t == [] {
      SameLength(s, t);
    } else {
      HeadsAgree(s, t);
      TailMultiset(s);
      TailMultiset(t);
      AscendingUnique(s[1..], t[1..]);
      assert s == [s[0]] + s[1..] && t == [t[0]] + t[1..];
    }
  }

  lemma HeadsAgree(s: seq<Reloc>, t: seq<Reloc>)
    requires multiset(s) == multiset(t) && Ascending(s) && Ascending(t) && DistinctPositions(s) && s != [] && t != []
    ensures s[0] == t[0]
  {
    assert s[0] in multiset(s) && t[0] in multiset(t);
    assert s[0] in multiset(t) && t[0] in multiset(s);
    var i :| 0 <= i < |s| && s[i] == t[0];
    var j :| 0 <= j < |t| && t[j] == s[0];
    assert s[0].at <= s[i].at && t[0].at <= t[j].at;
  }

  lemma TailMultiset(s: seq<Reloc>)
    requires s != []
    ensures multiset(s[1..]) == multiset(s) - multiset{s[0]}
    ensures Ascending(s) ==> Ascending(s[1..])
    ensures DistinctPositions(s) ==> DistinctPositions(s[1..])
  {
    assert s == [s[0]] + s[1..];
  }

  lemma DistinctAsMultiset(s: seq<Reloc>, t: seq<Reloc>)
    requires multiset(s) == multiset(t) && DistinctPositions(s) && Ascending(t)
    ensures DistinctPositions(t)
  {
    forall i, j | 0 <= i < j < |t|
      ensures t[i].at != t[j].at
    {
      if t[i].at == t[j].at {
        TwoOfOne(s, t, i, j);
      }
    }
  }

  /** Two places of `t` at one position need two of `s`. */
  lemma TwoOfOne(s: seq<Reloc>, t: seq<Reloc>, i: nat, j: nat)
    requires multiset(s) == multiset(t) && i < j < |t|
    ensures exists k, l :: 0 <= k < |s| && 0 <= l < |s| && k != l && s[k].at == t[i].at && s[l].at == t[j].at
  {
    assert t[i] in multiset(t) && t[j] in multiset(t);
    var k :| 0 <= k < |s| && s[k] == t[i];
    if t[i] != t[j] {
      var l :| 0 <= l < |s| && s[l] == t[j];
      assert k != l;
    } else {
      assert t == t[..i] + [t[i]] + t[i + 1..j] + [t[j]] + t[j + 1..];
      assert multiset(s)[t[i]] >= 2;
      assert s == s[..k] + [s[k]] + s[k + 1..];
      assert t[i] in s[..k] || t[i] in s[k + 1..];
    }
  }

  /**
   The source sorts whole tuples. Any such order gives the same outcome: an ascending permutation is rejected exactly
   when the sorted list is, and otherwise is that list.
   */
  lemma AnySortAgrees(s: seq<Reloc>, t: seq<Reloc>)
    requires multiset(t) == multiset(s) && Ascending(t)
    ensures DistinctPositions(t) <==> DistinctPositions(Sorted(s))
    ensures DistinctPositions(t) ==> t == Sorted(s)
  {
    SortedKeeps(s);
    if DistinctPositions(t) {
      DistinctAsMultiset(t, Sorted(s));
      AscendingUnique(t, Sorted(s));
    } else if DistinctPositions(Sorted(s)) {
      DistinctAsMultiset(Sorted(s), t);
    }
  }

  /** `relocations`: the moving bytes in position order, or a rejection when two share a byte. */
  function Relocations(o: Object, ps: seq<Patch>): Result<seq<Reloc>> {
    var codeSection := DriverIndex(o.sections);
    if codeSection.None? then Rejected
    else
      var all :- Gathered(o, codeSection.value, ps);
      var sorted := Sorted(all);
      if DistinctPositions(sorted) then Ok(sorted) else Rejected
  }

  method CollectRelocations(o: Object, ps: seq<Patch>) returns (r: Result<seq<Reloc>>)
    ensures r == Relocations(o, ps)
  {
    var codeSection := DriverIndex(o.sections);
    if codeSection.None? {
      return Rejected;
    }
    var output := [];
    for k := 0 to |ps|
      invariant Gathered(o, codeSection.value, ps[..k]) == Ok(output)
    {
      assert ps[..k + 1][..k] == ps[..k];
      var v := ExpressionValue(o, ps[k].expression);
      var here := if v.Ok? then PatchRelocs(codeSection.value, ps[k], v.value) else Rejected;
      if here.Rejected? {
        GatheredAccepts(o, codeSection.value, ps, k);
        return Rejected;
      }
      output := output + here.value;
    }
    assert ps[..|ps|] == ps;
    var sorted := Sorted(output);
    if !DistinctPositions(sorted) {
      return Rejected;
    }
    return Ok(sorted);
  }

  /** When gathering succeeds, every patch has a meaning and its relocations are in the result. */
  lemma {:induction false} GatheredAccepts(o: Object, codeSection: nat, ps: seq<Patch>, j: nat)
    requires j < |ps|
    ensures Gathered(o, codeSection, ps).Ok? ==>
              && Meaning(o, ps[j].expression).Ok?
              && PatchRelocs(codeSection, ps[j], Meaning(o, ps[j].expression).value).Ok?
              && forall x :: x in PatchRelocs(codeSection, ps[j], Meaning(o, ps[j].expression).value).value
                             ==> x in Gathered(o, codeSection, ps).value
  {
    if j < |ps| - 1 {
      GatheredAccepts(o, codeSection, ps[..|ps| - 1], j);
    }
  }

  /** Every gathered relocation comes from some patch. */
  lemma {:induction false} GatheredOrigin(o: Object, codeSection: nat, ps: seq<Patch>, x: Reloc) returns (j: nat)
    requires Gathered(o, codeSection, ps).Ok? && x in Gathered(o, codeSection, ps).value
    ensures j < |ps| && Meaning(o, ps[j].expression).Ok?
    ensures PatchRelocs(codeSection, ps[j], Meaning(o, ps[j].expression).value).Ok?
    ensures x in PatchRelocs(codeSection, ps[j], Meaning(o, ps[j].expression).value).value
  {
    var before := Gathered(o, codeSection, ps[..|ps| - 1]).value;
    if x in before {
      j := GatheredOrigin(o, codeSection, ps[..|ps| - 1], x);
    } else {
      j := |ps| - 1;
    }
  }

  // ---------------------------------------------------------------- the packed table

  function KindCode(k: Kind): (c: nat)
    ensures c < 4
  {
    (if k.domain.Code? then 0 else 2) + (if k.select.Low? then 0 else 1)
  }

  predicate Fits(r: Reloc) {
    r.at < FIELD && 0 <= r.offset < FIELD
  }

  /** `at | offset << 11 | kind << 22`; the three fields do not overlap. */
  function Pack(r: Reloc): nat
    requires Fits(r)
  {
    r.at + r.offset * FIELD + KindCode(r.kind) * KIND_UNIT
  }

  function PackedAt(w: nat): nat {
    w % FIELD
  }

  function PackedOffset(w: nat): nat {
    w / FIELD % FIELD
  }

  function PackedKind(w: nat): nat {
    w / KIND_UNIT
  }

  lemma PackRoundTrip(r: Reloc)
    requires Fits(r)
    ensures PackedAt(Pack(r)) == r.at && PackedOffset(Pack(r)) == r.offset && PackedKind(Pack(r)) == KindCode(r.kind)
    ensures Pack(r) < 0x100_0000
  {
  }

  function PackAll(rs: seq<Reloc>): (ws: seq<nat>)
    requires forall i :: 0 <= i < |rs| ==> Fits(rs[i])
    ensures |ws| == |rs|
    ensures forall i :: 0 <= i < |rs| ==> ws[i] == Pack(rs[i])
  {
    seq(|rs|, i requires 0 <= i < |rs| => Pack(rs[i]))
  }

  // ---------------------------------------------------------------- the generated file

  /** The constants of the emitted source file. */
  datatype Reference = Reference(code: seq<byte>, patches: seq<nat>, anchorAt: nat, anchorOffset: nat)

  /** The first RAM word relocation, as the position of its low byte in the sorted list. */
  function RamAnchor(rs: seq<Reloc>, i: nat): (r: Option<nat>)
    requires i <= |rs|
    ensures r.Some? ==> i <= r.value && r.value + 1 < |rs| && IsRamWord(rs, r.value)
    ensures forall j :: i <= j && j + 1 < |rs| && (r.None? || j < r.value) ==> !IsRamWord(rs, j)
    decreases |rs| - i
  {
    if i + 1 >= |rs| then None
    else if IsRamWord(rs, i) then Some(i)
    else RamAnchor(rs, i + 1)
  }

  predicate IsRamWord(rs: seq<Reloc>, i: nat)
    requires i + 1 < |rs|
  {
    rs[i].kind == Kind(Ram, Low) && rs[i + 1] == Reloc(rs[i].at + 1, rs[i].offset, Kind(Ram, High))
  }

  function SymbolNamed(symbols: seq<Symbol>, name: string): Option<nat> {
    if symbols == [] then None
    else if symbols[0].name == name then Some(symbols[0].value)
    else SymbolNamed(symbols[1..], name)
  }

  function PlaybackSize(sections: seq<Section>): Option<nat> {
    if sections == [] then None
    else if IsPlayback(sections[0]) then Some(sections[0].size)
    else PlaybackSize(sections[1..])
  }

  /** The checks of `generate` that look at names and sizes only. */
  predicate Recognised(o: Object) {
    var d := DriverIndex(o.sections);
    && d.Some?
    && var section := o.sections[d.value];
    && section.kind == ROM0 && section.size == DRIVER_SIZE && section.data.Some?
    && SymbolNamed(o.symbols, "hUGE_init") == Some(0)
    && SymbolNamed(o.symbols, "hUGE_dosound") == Some(UPDATE_OFFSET)
    && PlaybackSize(o.sections) == Some(PLAYBACK_SIZE)
  }

  function DriverSection(o: Object): Section
    requires DriverIndex(o.sections).Some?
  {
    o.sections[DriverIndex(o.sections).value]
  }

  /** What reading an object file guarantees: a section's data has the section's size. */
  predicate ReadFromFile(o: Object) {
    forall i :: 0 <= i < |o.sections| ==>
                  (o.sections[i].data.Some? ==> |o.sections[i].data.value| == o.sections[i].size)
  }

  /** The file emitted for an object and a ROM that contains it linked at the two bases. */
  function Generated(o: Object, rom: seq<byte>, codeBase: nat, ramBase: nat): Result<Reference> {
    if !Recognised(o) then Rejected
    else
      var section := DriverSection(o);
      var code := Clip(rom, codeBase, codeBase + section.size);
      if |code| != section.size then Rejected
      else
        var image :- Materialized(o, code, section.data.value, section.patches, codeBase, ramBase);
        var rs :- Relocations(o, section.patches);
        var anchor := RamAnchor(rs, 0);
        if code != image || anchor.None? || !(forall i :: 0 <= i < |rs| ==> Fits(rs[i])) then Rejected
        else Ok(Reference(code, PackAll(rs), rs[anchor.value].at, rs[anchor.value].offset))
  }

  method Generate(o: Object, rom: seq<byte>, codeBase: nat, ramBase: nat) returns (r: Result<Reference>)
    ensures r == Generated(o, rom, codeBase, ramBase)
  {
    if !Recognised(o) {
      return Rejected;
    }
    var section := DriverSection(o);
    var code := Clip(rom, codeBase, codeBase + section.size);
    if |code| != section.size {
      return Rejected;
    }
    var image := MaterializeSection(o, code, section.data.value, section.patches, codeBase, ramBase);
    if image.Rejected? || code != image.value {
      return Rejected;
    }
    var rs := CollectRelocations(o, section.patches);
    if rs.Rejected? {
      return Rejected;
    }
    var anchor := RamAnchor(rs.value, 0);
    if anchor.None? || !(forall i :: 0 <= i < |rs.value| ==> Fits(rs.value[i])) {
      return Rejected;
    }
    return Ok(Reference(code, PackAll(rs.value), rs.value[anchor.value].at, rs.value[anchor.value].offset));
  }

  // ---------------------------------------------------------------- the emitted lookup

  /** Binary search for the table word of position `at` in `ws[lo..hi]`. */
  function PatchFor(ws: seq<nat>, at: nat, lo: nat, hi: nat): (r: Option<nat>)
    requires lo <= hi <= |ws|
    ensures r.Some? ==> r.value in ws && PackedAt(r.value) == at
    decreases hi - lo
  {
    if lo == hi then None
    else
      var mid := lo + (hi - lo) / 2;
      if PackedAt(ws[mid]) == at then Some(ws[mid])
      else if PackedAt(ws[mid]) < at then PatchFor(ws, at, mid + 1, hi)
      else PatchFor(ws, at, lo, mid)
  }

  function PatchByte(w: nat, codeBase: nat, ramBase: nat): byte {
    var kind := PackedKind(w);
    var base := if kind < 2 then codeBase else ramBase;
    var value := (base + PackedOffset(w)) % 0x1_0000;
    if kind % 2 == 0 then value % 256 else value / 256
  }

  function RelocatedByte(f: Reference, index: nat, codeBase: nat, ramBase: nat): byte
    requires index < |f.code|
  {
    var w := if index <= U16_MAX then PatchFor(f.patches, index, 0, |f.patches|) else None;
    if w.Some? then PatchByte(w.value, codeBase, ramBase) else f.code[index]
  }

  function RelocatedImage(f: Reference, codeBase: nat, ramBase: nat): (image: seq<byte>)
    ensures |image| == |f.code|
    ensures forall i :: 0 <= i < |image| ==> image[i] == RelocatedByte(f, i, codeBase, ramBase)
  {
    seq(|f.code|, i requires 0 <= i < |f.code| => RelocatedByte(f, i, codeBase, ramBase))
  }

  function InferRam(f: Reference, bytes: seq<byte>): Option<nat>
    requires f.anchorAt + 1 < |f.code|
  {
    if |bytes| != |f.code| then None
    else
      var value := bytes[f.anchorAt] as int + 256 * bytes[f.anchorAt + 1] as int;
      if value < f.anchorOffset then None
      else if 0xC000 <= value - f.anchorOffset <= 0xCFFF then Some(value - f.anchorOffset)
      else None
  }
}
