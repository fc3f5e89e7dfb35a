/**
 Which objects and ROMs the generator accepts, said of the object's patches and the linked bytes, and what it emits.
 */
module RelocationAcceptance {
  import opened Common
  import opened DriverObject
  import opened Relocation
  import opened RelocationProof
  import opened DriverEncoding

  // ---------------------------------------------------------------- the bytes of a patch

  lemma LowDigits(b0: nat, b1: nat, b2: nat, b3: nat)
    requires b0 < 256 && b1 < 256 && b2 < 256 && b3 < 256
    ensures var raw := b0 + 0x100 * b1 + 0x1_0000 * b2 + 0x100_0000 * b3;
            raw % 256 == b0 && raw / 256 % 256 == b1 && raw / 65536 % 256 == b2 && raw / 16777216 % 256 == b3
  {
    Digits(b0, b1, b2, b3);
  }

  /** Bytes, words and longs are stored least significant byte first; what is too wide is cut. */
  lemma StoredDigits(b0: byte, b1: byte, b2: byte, b3: byte, pc: int)
    ensures var raw := b0 as nat + 0x100 * b1 as nat + 0x1_0000 * b2 as nat + 0x100_0000 * b3 as nat;
            && Stored(0, raw, pc) == Ok([b0])
            && Stored(1, raw, pc) == Ok([b0, b1])
            && Stored(2, raw, pc) == Ok([b0, b1, b2, b3])
  {
    LowDigits(b0 as nat, b1 as nat, b2 as nat, b3 as nat);
  }

  /** A JR stores the distance from the byte after it, two past its own address, to the target. */
  lemma JumpReaches(raw: nat, pc: int, d: byte)
    ensures Stored(3, raw, pc) == Ok([d]) <==> (pc + 2 + d as int - raw) % 256 == 0
  {
  }

  lemma NoOtherKind(kind: nat, raw: nat, pc: int)
    ensures Stored(kind, raw, pc).Ok? <==> kind <= 3
  {
  }

  // ---------------------------------------------------------------- what one patch needs

  /** However the other sections are placed, the ROM holds this patch linked. */
  ghost predicate LinkedInRom(o: Object, p: Patch, code: seq<byte>, codeBase: int, ramBase: int) {
    forall place :: Placed(o, place, codeBase, ramBase) ==>
                      && LinkedPatch(o, place, p).Ok?
                      && p.offset + |LinkedPatch(o, place, p).value| <= |code|
                      && code[p.offset..p.offset + |LinkedPatch(o, place, p).value|] == LinkedPatch(o, place, p).value
  }

  /** The shapes the table can hold: jumps inside the driver, fixed values, whole words and bytes of addresses. */
  predicate Movable(p: Patch, v: Value, driver: nat) {
    if p.kind == 3 then v.domain == Some(Code) && p.pcSection == driver
    else
      || v.domain == None
      || (p.kind == 1 && v.select == None)
      || (p.kind == 0 && v.select != None)
  }

  /** The table entries of a patch: none, one for the byte, or the two of a word. */
  function EntriesOf(p: Patch, v: Value): seq<Reloc> {
    if p.kind == 3 || v.domain == None then []
    else if p.kind == 1 then
      [Reloc(p.offset, v.offset, Kind(v.domain.value, Low)), Reloc(p.offset + 1, v.offset, Kind(v.domain.value, High))]
    else if v.select.Some? then [Reloc(p.offset, v.offset, Kind(v.domain.value, v.select.value))]
    else []
  }

  lemma MovableIff(p: Patch, v: Value, driver: nat)
    ensures PatchRelocs(driver, p, v).Ok? <==> Movable(p, v, driver)
    ensures PatchRelocs(driver, p, v).Ok? ==> PatchRelocs(driver, p, v).value == EntriesOf(p, v)
  {
  }

  ghost predicate Suitable(o: Object, p: Patch, code: seq<byte>, codeBase: int, ramBase: int)
    requires DriverIndex(o.sections).Some?
  {
    && Meaning(o, p.expression).Ok? && p.kind <= 3
    && LinkedInRom(o, p, code, codeBase, ramBase)
    && Movable(p, Meaning(o, p.expression).value, DriverIndex(o.sections).value)
  }

  predicate Holds(p: Patch, v: Value, code: seq<byte>, codeBase: int, ramBase: int) {
    && PatchBytes(p, v, codeBase, ramBase).Ok?
    && Clip(code, p.offset, p.offset + |PatchBytes(p, v, codeBase, ramBase).value|)
       == PatchBytes(p, v, codeBase, ramBase).value
  }

  lemma ClipIs(code: seq<byte>, at: nat, bytes: seq<byte>)
    requires bytes != []
    ensures Clip(code, at, at + |bytes|) == bytes
            <==> at + |bytes| <= |code| && code[at..at + |bytes|] == bytes
  {
  }

  lemma SuitableIff(o: Object, p: Patch, code: seq<byte>, codeBase: int, ramBase: int)
    requires DriverIndex(o.sections).Some? && IsDriver(DriverSection(o))
    ensures Suitable(o, p, code, codeBase, ramBase)
            <==> && Meaning(o, p.expression).Ok?
                 && Holds(p, Meaning(o, p.expression).value, code, codeBase, ramBase)
                 && PatchRelocs(DriverIndex(o.sections).value, p, Meaning(o, p.expression).value).Ok?
  {
    if Meaning(o, p.expression).Ok? {
      var v := Meaning(o, p.expression).value;
      MovableIff(p, v, DriverIndex(o.sections).value);
      if p.kind <= 3 && Movable(p, v, DriverIndex(o.sections).value) {
        var bytes := PatchBytes(p, v, codeBase, ramBase).value;
        ClipIs(code, p.offset, bytes);
        forall place | Placed(o, place, codeBase, ramBase)
          ensures LinkedPatch(o, place, p) == Ok(bytes)
        {
          LinkedPatchAgrees(o, place, p, v, codeBase, ramBase);
        }
        assert Placed(o, SomePlacement(o, codeBase, ramBase), codeBase, ramBase);
      }
    }
  }

  // ---------------------------------------------------------------- all patches

  ghost predicate AllHold(o: Object, ps: seq<Patch>, code: seq<byte>, codeBase: int, ramBase: int) {
    forall j :: 0 <= j < |ps| ==>
                  && Meaning(o, ps[j].expression).Ok?
                  && Holds(ps[j], Meaning(o, ps[j].expression).value, code, codeBase, ramBase)
  }

  predicate Covered(ps: seq<Patch>, i: nat) {
    exists j :: 0 <= j < |ps| && Covers(ps[j], i)
  }

  /** The bytes under patches are the ROM's, all others the section's own. */
  predicate Patched(image: seq<byte>, code: seq<byte>, data: seq<byte>, ps: seq<Patch>)
    requires |data| == |code|
  {
    |image| == |code| && forall i :: 0 <= i < |code| ==> image[i] == if Covered(ps, i) then code[i] else data[i]
  }

  lemma {:induction false} MaterializedIff(o: Object, code: seq<byte>, data: seq<byte>, ps: seq<Patch>,
                                           codeBase: int, ramBase: int)
    requires |data| == |code|
    ensures Materialized(o, code, data, ps, codeBase, ramBase).Ok? <==> AllHold(o, ps, code, codeBase, ramBase)
    ensures Materialized(o, code, data, ps, codeBase, ramBase).Ok?
            ==> Patched(Materialized(o, code, data, ps, codeBase, ramBase).value, code, data, ps)
  {
    if ps != [] {
      var front, last := ps[..|ps| - 1], ps[|ps| - 1];
      MaterializedIff(o, code, data, front, codeBase, ramBase);
      AllHoldSplits(o, ps, code, codeBase, ramBase);
      if Materialized(o, code, data, ps, codeBase, ramBase).Ok? {
        OneMoreHolds(o, code, data, front, last, codeBase, ramBase,
                     Materialized(o, code, data, front, codeBase, ramBase).value);
        assert front + [last] == ps;
      }
    }
  }

  lemma AllHoldSplits(o: Object, ps: seq<Patch>, code: seq<byte>, codeBase: int, ramBase: int)
    requires ps != []
    ensures AllHold(o, ps, code, codeBase, ramBase)
            <==> && AllHold(o, ps[..|ps| - 1], code, codeBase, ramBase)
                 && Meaning(o, ps[|ps| - 1].expression).Ok?
                 && Holds(ps[|ps| - 1], Meaning(o, ps[|ps| - 1].expression).value, code, codeBase, ramBase)
  {
    assert ps == ps[..|ps| - 1] + [ps[|ps| - 1]];
  }

  lemma OneMoreHolds(o: Object, code: seq<byte>, data: seq<byte>, front: seq<Patch>, last: Patch,
                     codeBase: int, ramBase: int, image: seq<byte>)
    requires |data| == |code| && Patched(image, code, data, front)
    requires Meaning(o, last.expression).Ok?
    requires Holds(last, Meaning(o, last.expression).value, code, codeBase, ramBase)
    ensures var bytes := PatchBytes(last, Meaning(o, last.expression).value, codeBase, ramBase).value;
            Patched(Overlay(image, last.offset, bytes), code, data, front + [last])
  {
    var bytes := PatchBytes(last, Meaning(o, last.expression).value, codeBase, ramBase).value;
    ClipIs(code, last.offset, bytes);
    OverlayKeeps(code, data, front, last, image, bytes);
  }

  lemma OverlayKeeps(code: seq<byte>, data: seq<byte>, front: seq<Patch>, last: Patch, image: seq<byte>,
                     bytes: seq<byte>)
    requires |data| == |code| && Patched(image, code, data, front) && |bytes| == Width(last.kind)
    requires last.offset + |bytes| <= |code| && code[last.offset..last.offset + |bytes|] == bytes
    ensures Patched(Overlay(image, last.offset, bytes), code, data, front + [last])
  {
    var r, ps := Overlay(image, last.offset, bytes), front + [last];
    forall i | 0 <= i < |code|
      ensures r[i] == if Covered(ps, i) then code[i] else data[i]
    {
      assert ps[|front|] == last && forall j :: 0 <= j < |front| ==> ps[j] == front[j];
      assert Covered(ps, i) <==> Covered(front, i) || Covers(last, i);
      if Covers(last, i) {
        assert r[i] == bytes[i - last.offset] == code[last.offset..last.offset + |bytes|][i - last.offset];
      }
    }
  }

  // ---------------------------------------------------------------- the table of all patches

  ghost predicate AllMovable(o: Object, ps: seq<Patch>, driver: nat) {
    forall j :: 0 <= j < |ps| ==>
                  && Meaning(o, ps[j].expression).Ok?
                  && PatchRelocs(driver, ps[j], Meaning(o, ps[j].expression).value).Ok?
  }

  lemma {:induction false} GatheredIff(o: Object, driver: nat, ps: seq<Patch>)
    ensures Gathered(o, driver, ps).Ok? <==> AllMovable(o, ps, driver)
  {
    if ps != [] {
      GatheredIff(o, driver, ps[..|ps| - 1]);
      assert ps == ps[..|ps| - 1] + [ps[|ps| - 1]];
    }
  }

  /** Patch `j` puts byte `i` into the table. */
  ghost predicate PutsIn(o: Object, ps: seq<Patch>, j: nat, i: nat)
    requires j < |ps|
  {
    Covers(ps[j], i) && Meaning(o, ps[j].expression).Ok? && Moves(ps[j], Meaning(o, ps[j].expression).value)
  }

  /** No byte moves for two patches. */
  ghost predicate MovesOnce(o: Object, ps: seq<Patch>) {
    forall j, k, i :: 0 <= j < k < |ps| && PutsIn(o, ps, j, i) ==> !PutsIn(o, ps, k, i)
  }

  lemma HereIff(o: Object, driver: nat, p: Patch, i: nat)
    requires Meaning(o, p.expression).Ok? && PatchRelocs(driver, p, Meaning(o, p.expression).value).Ok?
    ensures var here := PatchRelocs(driver, p, Meaning(o, p.expression).value).value;
            && DistinctPositions(here)
            && ((exists x :: x in here && x.at == i) <==> Covers(p, i) && Moves(p, Meaning(o, p.expression).value))
  {
    var v := Meaning(o, p.expression).value;
    var here := PatchRelocs(driver, p, v).value;
    if Moves(p, v) && Covers(p, i) {
      var x :| x in here && x.at == i;
    }
  }

  lemma GatheredAt(o: Object, driver: nat, ps: seq<Patch>, i: nat)
    requires Gathered(o, driver, ps).Ok?
    ensures (exists x :: x in Gathered(o, driver, ps).value && x.at == i)
            <==> exists j :: 0 <= j < |ps| && PutsIn(o, ps, j, i)
  {
    var all := Gathered(o, driver, ps).value;
    if x :| x in all && x.at == i {
      var j := GatheredOrigin(o, driver, ps, x);
      HereIff(o, driver, ps[j], i);
      assert PutsIn(o, ps, j, i);
    }
    if j :| 0 <= j < |ps| && PutsIn(o, ps, j, i) {
      GatheredAccepts(o, driver, ps, j);
      HereIff(o, driver, ps[j], i);
    }
  }

  lemma DistinctTogether(before: seq<Reloc>, here: seq<Reloc>)
    ensures DistinctPositions(before + here)
            <==> && DistinctPositions(before) && DistinctPositions(here)
                 && forall x, y :: x in before && y in here ==> x.at != y.at
  {
    var all := before + here;
    if DistinctPositions(all) {
      forall x, y | x in before && y in here
        ensures x.at != y.at
      {
        var i :| 0 <= i < |before| && before[i] == x;
        var j :| 0 <= j < |here| && here[j] == y;
        assert all[i] == x && all[|before| + j] == y;
      }
      assert forall i :: 0 <= i < |before| ==> all[i] == before[i];
      assert forall i :: 0 <= i < |here| ==> all[|before| + i] == here[i];
    }
  }

  /** The last patch meets none of the bytes the others move. */
  ghost predicate LastApart(o: Object, ps: seq<Patch>)
    requires ps != []
  {
    forall j, i :: 0 <= j < |ps| - 1 && PutsIn(o, ps, j, i) ==> !PutsIn(o, ps, |ps| - 1, i)
  }

  lemma MovesOnceSplits(o: Object, ps: seq<Patch>)
    requires ps != []
    ensures MovesOnce(o, ps) <==> MovesOnce(o, ps[..|ps| - 1]) && LastApart(o, ps)
  {
    var front := ps[..|ps| - 1];
    assert forall j, i :: 0 <= j < |front| ==> (PutsIn(o, front, j, i) <==> PutsIn(o, ps, j, i));
  }

  lemma CrossIff(o: Object, driver: nat, ps: seq<Patch>, before: seq<Reloc>, here: seq<Reloc>)
    requires ps != [] && Gathered(o, driver, ps).Ok? && before == Gathered(o, driver, ps[..|ps| - 1]).value
    requires here == PatchRelocs(driver, ps[|ps| - 1], Meaning(o, ps[|ps| - 1].expression).value).value
    ensures (forall x, y :: x in before && y in here ==> x.at != y.at) <==> LastApart(o, ps)
  {
    var front, last := ps[..|ps| - 1], ps[|ps| - 1];
    if LastApart(o, ps) {
      forall x, y | x in before && y in here
        ensures x.at != y.at
      {
        GatheredAt(o, driver, front, x.at);
        HereIff(o, driver, last, x.at);
        var j :| 0 <= j < |front| && PutsIn(o, front, j, x.at);
        assert PutsIn(o, ps, j, x.at);
      }
    }
    if j, i :| 0 <= j < |ps| - 1 && PutsIn(o, ps, j, i) && PutsIn(o, ps, |ps| - 1, i) {
      assert PutsIn(o, front, j, i);
      GatheredAt(o, driver, front, i);
      HereIff(o, driver, last, i);
    }
  }

  lemma {:induction false} DistinctIff(o: Object, driver: nat, ps: seq<Patch>)
    requires Gathered(o, driver, ps).Ok?
    ensures DistinctPositions(Gathered(o, driver, ps).value) <==> MovesOnce(o, ps)
  {
    if ps != [] {
      var front, last := ps[..|ps| - 1], ps[|ps| - 1];
      var before := Gathered(o, driver, front).value;
      var here := PatchRelocs(driver, last, Meaning(o, last.expression).value).value;
      DistinctIff(o, driver, front);
      DistinctTogether(before, here);
      HereIff(o, driver, last, 0);
      CrossIff(o, driver, ps, before, here);
      MovesOnceSplits(o, ps);
    }
  }

  lemma SortedDistinctIff(s: seq<Reloc>)
    ensures DistinctPositions(Sorted(s)) <==> DistinctPositions(s)
  {
    SortedKeeps(s);
    if DistinctPositions(s) {
      DistinctAsMultiset(s, Sorted(s));
    } else {
      var i, j :| 0 <= i < j < |s| && s[i].at == s[j].at;
      TwoOfOne(Sorted(s), s, i, j);
    }
  }

  lemma SameMembers(s: seq<Reloc>, x: Reloc)
    ensures x in Sorted(s) <==> x in s
  {
    SortedKeeps(s);
    assert x in multiset(s) <==> x in multiset(Sorted(s));
  }

  /** Some patch has this table entry. */
  ghost predicate HasEntry(o: Object, ps: seq<Patch>, x: Reloc) {
    exists j :: 0 <= j < |ps| && Meaning(o, ps[j].expression).Ok?
                && x in EntriesOf(ps[j], Meaning(o, ps[j].expression).value)
  }

  lemma EntryIff(o: Object, driver: nat, ps: seq<Patch>, x: Reloc)
    requires Gathered(o, driver, ps).Ok?
    ensures x in Gathered(o, driver, ps).value <==> HasEntry(o, ps, x)
  {
    if x in Gathered(o, driver, ps).value {
      var j := GatheredOrigin(o, driver, ps, x);
      MovableIff(ps[j], Meaning(o, ps[j].expression).value, driver);
    }
    if HasEntry(o, ps, x) {
      var j :| 0 <= j < |ps| && Meaning(o, ps[j].expression).Ok?
               && x in EntriesOf(ps[j], Meaning(o, ps[j].expression).value);
      GatheredAccepts(o, driver, ps, j);
      MovableIff(ps[j], Meaning(o, ps[j].expression).value, driver);
    }
  }

  // ---------------------------------------------------------------- the anchor

  /** A RAM address is stored whole at these two bytes. */
  ghost predicate WordEntries(o: Object, ps: seq<Patch>, at: nat, offset: int) {
    HasEntry(o, ps, Reloc(at, offset, Kind(Ram, Low))) && HasEntry(o, ps, Reloc(at + 1, offset, Kind(Ram, High)))
  }

  lemma AnchorIff(rs: seq<Reloc>, at: nat, offset: int)
    requires Ascending(rs) && DistinctPositions(rs)
    ensures (exists i :: 0 <= i && i + 1 < |rs| && IsRamWord(rs, i) && rs[i].at == at && rs[i].offset == offset)
            <==> Reloc(at, offset, Kind(Ram, Low)) in rs && Reloc(at + 1, offset, Kind(Ram, High)) in rs
  {
    if Reloc(at, offset, Kind(Ram, Low)) in rs && Reloc(at + 1, offset, Kind(Ram, High)) in rs {
      var i :| 0 <= i < |rs| && rs[i] == Reloc(at, offset, Kind(Ram, Low));
      var j :| 0 <= j < |rs| && rs[j] == Reloc(at + 1, offset, Kind(Ram, High));
      assert i < j;
      assert i + 1 == j;
      assert IsRamWord(rs, i);
    }
  }

  // ---------------------------------------------------------------- the right object

  ghost predicate FirstSymbol(o: Object, name: string, value: nat) {
    exists i :: 0 <= i < |o.symbols| && o.symbols[i].name == name && o.symbols[i].value == value
                && forall k :: 0 <= k < i ==> o.symbols[k].name != name
  }

  lemma {:induction false} SymbolNamedIff(o: Object, name: string, value: nat)
    ensures SymbolNamed(o.symbols, name) == Some(value) <==> FirstSymbol(o, name, value)
    decreases |o.symbols|
  {
    if o.symbols != [] && o.symbols[0].name != name {
      var rest := o.(symbols := o.symbols[1..]);
      SymbolNamedIff(rest, name, value);
      assert forall k :: 0 <= k < |rest.symbols| ==> rest.symbols[k] == o.symbols[k + 1];
      if FirstSymbol(rest, name, value) {
        var i :| 0 <= i < |rest.symbols| && rest.symbols[i].name == name && rest.symbols[i].value == value
                 && forall k :: 0 <= k < i ==> rest.symbols[k].name != name;
        assert o.symbols[i + 1].name == name && o.symbols[i + 1].value == value;
        assert forall k :: 1 <= k < i + 1 ==> o.symbols[k] == rest.symbols[k - 1];
      }
      if FirstSymbol(o, name, value) {
        var i :| 0 <= i < |o.symbols| && o.symbols[i].name == name && o.symbols[i].value == value
                 && forall k :: 0 <= k < i ==> o.symbols[k].name != name;
        assert rest.symbols[i - 1].name == name && rest.symbols[i - 1].value == value;
      }
    }
  }

  ghost predicate FirstPlayback(sections: seq<Section>, size: nat) {
    exists i :: 0 <= i < |sections| && sections[i].name == "Playback variables" && sections[i].kind == 0
                && sections[i].size == size
                && forall k :: 0 <= k < i ==> !(sections[k].name == "Playback variables" && sections[k].kind == 0)
  }

  lemma {:induction false} PlaybackSizeIff(sections: seq<Section>, size: nat)
    ensures PlaybackSize(sections) == Some(size) <==> FirstPlayback(sections, size)
  {
    if sections != [] && !IsPlayback(sections[0]) {
      var rest := sections[1..];
      PlaybackSizeIff(rest, size);
      if FirstPlayback(rest, size) {
        var i :| 0 <= i < |rest| && IsPlayback(rest[i]) && rest[i].size == size
                 && forall k :: 0 <= k < i ==> !IsPlayback(rest[k]);
        assert sections[i + 1] == rest[i] && forall k :: 1 <= k < i + 1 ==> sections[k] == rest[k - 1];
      }
      if FirstPlayback(sections, size) {
        var i :| 0 <= i < |sections| && IsPlayback(sections[i]) && sections[i].size == size
                 && forall k :: 0 <= k < i ==> !IsPlayback(sections[k]);
        assert rest[i - 1] == sections[i] && forall k :: 0 <= k < i - 1 ==> rest[k] == sections[k + 1];
      }
    }
  }

  /** The first section of that name. */
  predicate FirstDriver(sections: seq<Section>, d: nat) {
    d < |sections| && sections[d].name == "Sound Driver"
    && forall k :: 0 <= k < d ==> sections[k].name != "Sound Driver"
  }

  lemma {:induction false} FirstNamedIff(sections: seq<Section>, i: nat, d: nat)
    requires forall k :: 0 <= k < i && k < |sections| ==> sections[k].name != "Sound Driver"
    ensures FirstNamed(sections, i) == Some(d) <==> FirstDriver(sections, d)
    decreases |sections| - i
  {
    if i < |sections| && sections[i].name != "Sound Driver" {
      FirstNamedIff(sections, i + 1, d);
    }
  }

  /** A 1941-byte ROM driver entered at its start and updated at 0x469, with 100 bytes of variables in RAM. */
  lemma RecognisedIff(o: Object)
    ensures Recognised(o)
            <==> && (exists d: nat :: FirstDriver(o.sections, d) && o.sections[d].kind == 3
                                      && o.sections[d].size == 1941 && o.sections[d].data.Some?)
                 && FirstSymbol(o, "hUGE_init", 0) && FirstSymbol(o, "hUGE_dosound", 0x469)
                 && FirstPlayback(o.sections, 100)
  {
    SymbolNamedIff(o, "hUGE_init", 0);
    SymbolNamedIff(o, "hUGE_dosound", 0x469);
    PlaybackSizeIff(o.sections, 100);
    forall d: nat
      ensures DriverIndex(o.sections) == Some(d) <==> FirstDriver(o.sections, d)
    {
      FirstNamedIff(o.sections, 0, d);
    }
    if DriverIndex(o.sections).Some? {
      assert FirstDriver(o.sections, DriverIndex(o.sections).value);
    }
  }

  // ---------------------------------------------------------------- acceptance

  /** A byte under no patch is the section's own. */
  predicate UnpatchedKept(code: seq<byte>, data: seq<byte>, ps: seq<Patch>)
    requires |data| == |code|
  {
    forall i :: 0 <= i < |code| && !Covered(ps, i) ==> code[i] == data[i]
  }

  ghost predicate OffsetsSmall(o: Object, ps: seq<Patch>) {
    forall x :: HasEntry(o, ps, x) ==> 0 <= x.offset < 0x800
  }

  ghost predicate HasWord(o: Object, ps: seq<Patch>) {
    exists at: nat, offset :: WordEntries(o, ps, at, offset)
  }

  /** The ROM holds the driver linked at these bases, and its moving bytes can be tabulated and anchored. */
  ghost predicate Acceptable(o: Object, rom: seq<byte>, codeBase: nat, ramBase: nat)
    requires ReadFromFile(o) && Recognised(o)
  {
    && codeBase + 1941 <= |rom|
    && var code, ps := rom[codeBase..codeBase + 1941], PatchesOf(o);
    && (forall j :: 0 <= j < |ps| ==> Suitable(o, ps[j], code, codeBase, ramBase))
    && UnpatchedKept(code, DriverSection(o).data.value, ps)
    && MovesOnce(o, ps) && OffsetsSmall(o, ps) && HasWord(o, ps)
  }

  /** The word of a table entry: position, offset and kind in eleven, eleven and two bits. */
  predicate Spelled(x: Reloc, w: nat) {
    w as int == x.at + 0x800 * x.offset
                + 0x40_0000 * (match x.kind
                               case Kind(Code, Low) => 0
                               case Kind(Code, High) => 1
                               case Kind(Ram, Low) => 2
                               case Kind(Ram, High) => 3)
  }

  lemma SpelledIsPacked(x: Reloc, w: nat)
    requires Fits(x)
    ensures Spelled(x, w) <==> w == Pack(x)
  {
  }

  /** What is emitted: the driver's bytes, the table of all entries by position, and the first RAM word. */
  ghost predicate Emits(o: Object, rom: seq<byte>, codeBase: nat, f: Reference)
    requires Recognised(o) && codeBase + 1941 <= |rom|
  {
    var ps := PatchesOf(o);
    && f.code == rom[codeBase..codeBase + 1941]
    && (exists rs :: Tabulates(o, ps, f, rs))
    && WordEntries(o, ps, f.anchorAt, f.anchorOffset)
    && forall at: nat, offset :: WordEntries(o, ps, at, offset) ==> f.anchorAt <= at
  }

  /** The entries of all patches, each once, by ascending position, spelled word by word. */
  ghost predicate Tabulates(o: Object, ps: seq<Patch>, f: Reference, rs: seq<Reloc>) {
    && |rs| == |f.patches|
    && (forall i :: 0 <= i < |rs| ==> Spelled(rs[i], f.patches[i]))
    && (forall i, j :: 0 <= i < j < |rs| ==> rs[i].at < rs[j].at)
    && (forall x :: x in rs <==> HasEntry(o, ps, x))
  }

  lemma ImageIff(o: Object, code: seq<byte>, data: seq<byte>, ps: seq<Patch>, codeBase: int, ramBase: int)
    requires |data| == |code|
    ensures Materialized(o, code, data, ps, codeBase, ramBase) == Ok(code)
            <==> AllHold(o, ps, code, codeBase, ramBase) && UnpatchedKept(code, data, ps)
  {
    MaterializedIff(o, code, data, ps, codeBase, ramBase);
    if Materialized(o, code, data, ps, codeBase, ramBase).Ok? {
      PatchedIsCode(Materialized(o, code, data, ps, codeBase, ramBase).value, code, data, ps);
    }
  }

  lemma PatchedIsCode(image: seq<byte>, code: seq<byte>, data: seq<byte>, ps: seq<Patch>)
    requires |data| == |code| && Patched(image, code, data, ps)
    ensures image == code <==> UnpatchedKept(code, data, ps)
  {
  }

  lemma AllSuitableIff(o: Object, ps: seq<Patch>, code: seq<byte>, codeBase: int, ramBase: int)
    requires DriverIndex(o.sections).Some? && IsDriver(DriverSection(o))
    ensures (forall j :: 0 <= j < |ps| ==> Suitable(o, ps[j], code, codeBase, ramBase))
            <==> AllHold(o, ps, code, codeBase, ramBase) && AllMovable(o, ps, DriverIndex(o.sections).value)
  {
    forall j | 0 <= j < |ps|
      ensures Suitable(o, ps[j], code, codeBase, ramBase)
              <==> && Meaning(o, ps[j].expression).Ok?
                   && Holds(ps[j], Meaning(o, ps[j].expression).value, code, codeBase, ramBase)
                   && PatchRelocs(DriverIndex(o.sections).value, ps[j], Meaning(o, ps[j].expression).value).Ok?
    {
      SuitableIff(o, ps[j], code, codeBase, ramBase);
    }
  }

  lemma RelocationsIff(o: Object, ps: seq<Patch>, driver: nat)
    requires DriverIndex(o.sections) == Some(driver)
    ensures Relocations(o, ps).Ok? <==> AllMovable(o, ps, driver) && MovesOnce(o, ps)
    ensures Relocations(o, ps).Ok? ==>
              var rs := Relocations(o, ps).value;
              && Ascending(rs) && DistinctPositions(rs) && forall x :: x in rs <==> HasEntry(o, ps, x)
  {
    GatheredIff(o, driver, ps);
    if Gathered(o, driver, ps).Ok? {
      var all := Gathered(o, driver, ps).value;
      SortedDistinctIff(all);
      DistinctIff(o, driver, ps);
      SortedKeeps(all);
      forall x
        ensures x in Sorted(all) <==> HasEntry(o, ps, x)
      {
        SameMembers(all, x);
        EntryIff(o, driver, ps, x);
      }
    }
  }

  lemma EntriesInside(o: Object, ps: seq<Patch>, code: seq<byte>, codeBase: int, ramBase: int, x: Reloc)
    requires AllHold(o, ps, code, codeBase, ramBase) && HasEntry(o, ps, x)
    ensures x.at < |code|
  {
    var j :| 0 <= j < |ps| && Meaning(o, ps[j].expression).Ok?
             && x in EntriesOf(ps[j], Meaning(o, ps[j].expression).value);
    var bytes := PatchBytes(ps[j], Meaning(o, ps[j].expression).value, codeBase, ramBase).value;
    ClipIs(code, ps[j].offset, bytes);
  }

  lemma FirstWordIff(o: Object, ps: seq<Patch>, rs: seq<Reloc>)
    requires Ascending(rs) && DistinctPositions(rs) && forall x :: x in rs <==> HasEntry(o, ps, x)
    ensures RamAnchor(rs, 0).Some? <==> HasWord(o, ps)
    ensures RamAnchor(rs, 0).Some? ==>
              var k := RamAnchor(rs, 0).value;
              && WordEntries(o, ps, rs[k].at, rs[k].offset)
              && forall at: nat, offset :: WordEntries(o, ps, at, offset) ==> rs[k].at <= at
  {
    var anchor := RamAnchor(rs, 0);
    if anchor.Some? {
      var k := anchor.value;
      AnchorIff(rs, rs[k].at, rs[k].offset);
      assert IsRamWord(rs, k);
      assert WordEntries(o, ps, rs[k].at, rs[k].offset);
    }
    forall at: nat, offset | WordEntries(o, ps, at, offset)
      ensures anchor.Some? && rs[anchor.value].at <= at
    {
      AnchorIff(rs, at, offset);
      var i :| 0 <= i && i + 1 < |rs| && IsRamWord(rs, i) && rs[i].at == at && rs[i].offset == offset;
      assert anchor.Some? && anchor.value <= i;
    }
  }

  lemma AllFitIff(o: Object, ps: seq<Patch>, rs: seq<Reloc>, code: seq<byte>, codeBase: int, ramBase: int)
    requires AllHold(o, ps, code, codeBase, ramBase) && |code| == 1941
    requires forall x :: x in rs <==> HasEntry(o, ps, x)
    ensures (forall i :: 0 <= i < |rs| ==> Fits(rs[i])) <==> OffsetsSmall(o, ps)
  {
    forall x | HasEntry(o, ps, x)
      ensures x.at < 0x800
    {
      EntriesInside(o, ps, code, codeBase, ramBase, x);
    }
    if forall i :: 0 <= i < |rs| ==> Fits(rs[i]) {
      forall x | HasEntry(o, ps, x)
        ensures 0 <= x.offset < 0x800
      {
        var i :| 0 <= i < |rs| && rs[i] == x;
        assert Fits(rs[i]);
      }
    }
  }

  lemma EmitsIt(o: Object, rom: seq<byte>, codeBase: nat, rs: seq<Reloc>, k: nat, f: Reference)
    requires Recognised(o) && codeBase + 1941 <= |rom| && k < |rs|
    requires Ascending(rs) && DistinctPositions(rs) && forall i :: 0 <= i < |rs| ==> Fits(rs[i])
    requires forall x :: x in rs <==> HasEntry(o, PatchesOf(o), x)
    requires WordEntries(o, PatchesOf(o), rs[k].at, rs[k].offset)
    requires forall at: nat, offset :: WordEntries(o, PatchesOf(o), at, offset) ==> rs[k].at <= at
    requires f.code == rom[codeBase..codeBase + 1941] && f.patches == PackAll(rs)
    requires f.anchorAt == rs[k].at && f.anchorOffset == rs[k].offset
    ensures Emits(o, rom, codeBase, f)
  {
    forall i | 0 <= i < |rs|
      ensures Spelled(rs[i], f.patches[i])
    {
      SpelledIsPacked(rs[i], f.patches[i]);
    }
    assert Tabulates(o, PatchesOf(o), f, rs);
  }

  /** The generator accepts exactly the recognised objects whose ROM is acceptable, and emits what it must. */
  lemma GeneratedIff(o: Object, rom: seq<byte>, codeBase: nat, ramBase: nat)
    requires ReadFromFile(o)
    ensures Generated(o, rom, codeBase, ramBase).Ok? <==> Recognised(o) && Acceptable(o, rom, codeBase, ramBase)
    ensures Generated(o, rom, codeBase, ramBase).Ok? ==>
              Emits(o, rom, codeBase, Generated(o, rom, codeBase, ramBase).value)
  {
    if Recognised(o) && codeBase + 1941 <= |rom| {
      AcceptedFromRom(o, rom, codeBase, ramBase, rom[codeBase..codeBase + 1941]);
    }
  }

  /** The generator's answer once the driver is cut out of the ROM. */
  lemma GeneratedParts(o: Object, rom: seq<byte>, codeBase: nat, ramBase: nat, code: seq<byte>)
    requires ReadFromFile(o) && Recognised(o) && codeBase + 1941 <= |rom| && code == rom[codeBase..codeBase + 1941]
    ensures var image := Materialized(o, code, DriverSection(o).data.value, PatchesOf(o), codeBase, ramBase);
            var rs := Relocations(o, PatchesOf(o));
            Generated(o, rom, codeBase, ramBase)
            == if image == Ok(code) && rs.Ok? && Tabulable(rs.value) then Ok(Emission(code, rs.value)) else Rejected
  {
    assert Clip(rom, codeBase, codeBase + DriverSection(o).size) == code;
  }

  predicate Tabulable(rs: seq<Reloc>) {
    RamAnchor(rs, 0).Some? && forall i :: 0 <= i < |rs| ==> Fits(rs[i])
  }

  function Emission(code: seq<byte>, rs: seq<Reloc>): Reference
    requires Tabulable(rs)
  {
    var k := RamAnchor(rs, 0).value;
    Reference(code, PackAll(rs), rs[k].at, rs[k].offset)
  }

  lemma TabulableIff(o: Object, rom: seq<byte>, codeBase: nat, ramBase: nat, code: seq<byte>, rs: seq<Reloc>)
    requires Recognised(o) && codeBase + 1941 <= |rom| && code == rom[codeBase..codeBase + 1941]
    requires AllHold(o, PatchesOf(o), code, codeBase, ramBase) && Relocations(o, PatchesOf(o)) == Ok(rs)
    ensures Tabulable(rs) <==> HasWord(o, PatchesOf(o)) && OffsetsSmall(o, PatchesOf(o))
    ensures Tabulable(rs) ==> Emits(o, rom, codeBase, Emission(code, rs))
  {
    RelocationsIff(o, PatchesOf(o), DriverIndex(o.sections).value);
    FirstWordIff(o, PatchesOf(o), rs);
    AllFitIff(o, PatchesOf(o), rs, code, codeBase, ramBase);
    if Tabulable(rs) {
      EmitsIt(o, rom, codeBase, rs, RamAnchor(rs, 0).value, Emission(code, rs));
    }
  }

  lemma AcceptedFromRom(o: Object, rom: seq<byte>, codeBase: nat, ramBase: nat, code: seq<byte>)
    requires ReadFromFile(o) && Recognised(o) && codeBase + 1941 <= |rom| && code == rom[codeBase..codeBase + 1941]
    ensures Generated(o, rom, codeBase, ramBase).Ok? <==> Acceptable(o, rom, codeBase, ramBase)
    ensures Generated(o, rom, codeBase, ramBase).Ok? ==>
              Emits(o, rom, codeBase, Generated(o, rom, codeBase, ramBase).value)
  {
    var data, ps := DriverSection(o).data.value, PatchesOf(o);
    GeneratedParts(o, rom, codeBase, ramBase, code);
    ImageIff(o, code, data, ps, codeBase, ramBase);
    AllSuitableIff(o, ps, code, codeBase, ramBase);
    RelocationsIff(o, ps, DriverIndex(o.sections).value);
    if Materialized(o, code, data, ps, codeBase, ramBase) == Ok(code) && Relocations(o, ps).Ok? {
      TabulableIff(o, rom, codeBase, ramBase, code, Relocations(o, ps).value);
    }
  }

  // ---------------------------------------------------------------- inference

  /** A base is read from a whole driver only, back from the anchored word, and only in the work RAM bank. */
  lemma InferredIff(f: Reference, bytes: seq<byte>, ramBase: nat)
    requires f.anchorAt + 1 < |f.code|
    ensures InferRam(f, bytes) == Some(ramBase)
            <==> && |bytes| == |f.code| && 0xC000 <= ramBase <= 0xCFFF
                 && ramBase + f.anchorOffset == bytes[f.anchorAt] as nat + 256 * bytes[f.anchorAt + 1] as nat
  {
  }
}
