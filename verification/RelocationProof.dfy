/**
 Relocation is linking: when, and exactly when, the emitted table rebuilds the image that linking
 the object at any pair of bases would give; and the RAM base can be read back from that image.
 */
module RelocationProof {
  import opened Common
  import opened DriverObject
  import opened Relocation

  type word16 = w: int | 0 <= w < 0x1_0000

  // ---------------------------------------------------------------- the byte a patch leaves

  /** What acceptance says about one patch, under its meaning `v`. */
  ghost predicate Accepted(o: Object, p: Patch, v: Value) {
    && DriverIndex(o.sections).Some? && IsDriver(DriverSection(o))
    && Meaning(o, p.expression) == Ok(v)
    && p.kind <= PATCH_JR
    && PatchRelocs(DriverIndex(o.sections).value, p, v).Ok?
  }

  ghost predicate AllAccepted(o: Object, ps: seq<Patch>) {
    forall j :: 0 <= j < |ps| ==>
                  && Meaning(o, ps[j].expression).Ok?
                  && Accepted(o, ps[j], Meaning(o, ps[j].expression).value)
  }

  function ByteAt(p: Patch, v: Value, i: nat, codeBase: int, ramBase: int): byte
    requires p.kind <= PATCH_JR && Covers(p, i)
  {
    PatchBytes(p, v, codeBase, ramBase).value[i - p.offset]
  }

  lemma LinkedPatchAgrees(o: Object, place: seq<int>, p: Patch, v: Value, codeBase: int, ramBase: int)
    requires Placed(o, place, codeBase, ramBase) && Accepted(o, p, v)
    ensures LinkedPatch(o, place, p) == PatchBytes(p, v, codeBase, ramBase)
    ensures PatchBytes(p, v, codeBase, ramBase).Ok?
  {
    MeaningSound(o, place, p.expression, codeBase, ramBase);
  }

  lemma Split256(x: int, q: int, r: int)
    requires x == 256 * q + r && 0 <= r < 256
    ensures x / 256 == q && x % 256 == r
  {
  }

  /** Reduction modulo 2^32 or 2^16 keeps the low byte and the high byte of the low word. */
  lemma ReductionKeepsBytes(x: int)
    ensures x % WORD32 % 256 == x % 0x1_0000 % 256 == x % 256
    ensures x % WORD32 / 256 % 256 == x % 0x1_0000 / 256 == x / 256 % 256
  {
    var q, r := x / 0x1_0000, x % 0x1_0000;
    Split256(x, q * 256 + r / 256, r % 256);
    Split256(x / 256, q, r / 256);
    var q', r' := x / WORD32, x % WORD32;
    Split256(x, q' * 0x100_0000 + r' / 256, r' % 256);
    Split256(x / 256, q' * 0x1_0000 + r' / 256 / 256, r' / 256 % 256);
  }

  /** Constants and JR displacements do not depend on the bases, unless a JR narrows to its high byte. */
  lemma FixedByte(o: Object, p: Patch, v: Value, i: nat, c0: int, r0: int, c1: int, r1: int)
    requires Accepted(o, p, v) && Covers(p, i) && !Moves(p, v) && !JrHigh(p, v)
    ensures ByteAt(p, v, i, c0, r0) == ByteAt(p, v, i, c1, r1)
  {
    if p.kind == PATCH_JR {
      JrDisplacement(v.offset, p.pcOffset, c0);
      JrDisplacement(v.offset, p.pcOffset, c1);
    }
  }

  lemma JrDisplacement(offset: int, pcOffset: int, base: int)
    ensures ((base + offset) % WORD32 - (base + pcOffset + 2)) % 256 == (offset - pcOffset - 2) % 256
    ensures ((base + offset) % WORD32 % 256 - (base + pcOffset + 2)) % 256 == (offset - pcOffset - 2) % 256
  {
    var x := base + offset;
    var q, r := x / WORD32, x % WORD32;
    var t := r - (base + pcOffset + 2);
    assert t == offset - pcOffset - 2 - q * WORD32;
    Split256(t, t / 256, t % 256);
    Split256(offset - pcOffset - 2, t / 256 + q * 0x100_0000, t % 256);
    var t' := t - 256 * (r / 256);
    Split256(t', t / 256 - r / 256, t % 256);
  }

  /** A JR narrowed to its high byte: two steps of the code base lower the stored byte by one or two. */
  lemma JrHighByte(o: Object, p: Patch, v: Value, i: nat, ramBase: int)
    requires Accepted(o, p, v) && Covers(p, i) && JrHigh(p, v)
    ensures var d := (ByteAt(p, v, i, 2, ramBase) - ByteAt(p, v, i, 0, ramBase)) % 256; d == 254 || d == 255
  {
    ReductionKeepsBytes(v.offset);
    ReductionKeepsBytes(2 + v.offset);
    HighDifference(v.offset, p.pcOffset);
  }

  lemma HighDifference(offset: int, pcOffset: int)
    ensures var f0, f2 := (offset / 256 % 256 - (pcOffset + 2)) % 256,
            ((2 + offset) / 256 % 256 - (2 + pcOffset + 2)) % 256;
            (f2 - f0) % 256 == 254 || (f2 - f0) % 256 == 255
  {
    var q, q' := offset / 256, (2 + offset) / 256;
    assert q' == q || q' == q + 1;
    ModDifference(q' % 256 - (pcOffset + 4), q % 256 - (pcOffset + 2));
    ModDifference(q', q);
  }

  lemma ModDifference(a: int, b: int)
    ensures (a % 256 - b % 256) % 256 == (a - b) % 256
  {
    var c, d := a / 256, b / 256;
    var t := a % 256 - b % 256;
    Split256(t, t / 256, t % 256);
    Split256(a - b, t / 256 + c - d, t % 256);
  }

  /** JR displacements are base-independent exactly when the target is not narrowed to its high byte. */
  lemma JrBaseIndependentIff(o: Object, p: Patch, v: Value, i: nat)
    requires Accepted(o, p, v) && p.kind == PATCH_JR && Covers(p, i)
    ensures (forall c0: int, r0: int, c1: int, r1: int :: ByteAt(p, v, i, c0, r0) == ByteAt(p, v, i, c1, r1))
            <==> v.select != Some(High)
  {
    if v.select == Some(High) {
      JrHighByte(o, p, v, i, 0);
    } else {
      forall c0: int, r0: int, c1: int, r1: int
        ensures ByteAt(p, v, i, c0, r0) == ByteAt(p, v, i, c1, r1)
      {
        FixedByte(o, p, v, i, c0, r0, c1, r1);
      }
    }
  }

  function RelocByte(x: Reloc, codeBase: int, ramBase: int): byte {
    var value := ((if x.kind.domain.Code? then codeBase else ramBase) + x.offset) % 0x1_0000;
    if x.kind.select.Low? then value % 256 else value / 256
  }

  lemma MovingByte(o: Object, p: Patch, v: Value, x: Reloc, codeBase: int, ramBase: int)
    requires Accepted(o, p, v)
    requires x in PatchRelocs(DriverIndex(o.sections).value, p, v).value
    ensures ByteAt(p, v, x.at, codeBase, ramBase) == RelocByte(x, codeBase, ramBase)
  {
    ReductionKeepsBytes((if v.domain == Some(Code) then codeBase else ramBase) + v.offset);
  }

  // ---------------------------------------------------------------- images, byte by byte

  lemma {:induction false} LinkedAt(o: Object, place: seq<int>, data: seq<byte>, ps: seq<Patch>, i: nat)
    requires Linked(o, place, data, ps).Ok? && i < |data|
    ensures var j := LastWriter(ps, i);
            Linked(o, place, data, ps).value[i]
            == if j < 0 then data[i]
               else (assert LinkedPatch(o, place, ps[j]).Ok? by { LinkedPatchesOk(o, place, data, ps, j); }
                     LinkedPatch(o, place, ps[j]).value[i - ps[j].offset])
  {
    if ps != [] {
      var last := ps[|ps| - 1];
      if !Covers(last, i) {
        LinkedAt(o, place, data, ps[..|ps| - 1], i);
      }
    }
  }

  lemma {:induction false} LinkedPatchesOk(o: Object, place: seq<int>, data: seq<byte>, ps: seq<Patch>, j: nat)
    requires Linked(o, place, data, ps).Ok? && j < |ps|
    ensures LinkedPatch(o, place, ps[j]).Ok?
  {
    if j < |ps| - 1 {
      LinkedPatchesOk(o, place, data, ps[..|ps| - 1], j);
    }
  }

  /** The accepted patches link at every placement, and the checked image is the one at the two bases. */
  lemma {:induction false} AcceptedLinks(o: Object, code: seq<byte>, data: seq<byte>, ps: seq<Patch>,
                                         c0: int, r0: int, place: seq<int>, codeBase: int, ramBase: int)
    requires |code| == |data| && Materialized(o, code, data, ps, c0, r0).Ok?
    requires AllAccepted(o, ps)
    requires Placed(o, place, codeBase, ramBase)
    ensures Linked(o, place, data, ps).Ok?
    ensures c0 == codeBase && r0 == ramBase ==> Linked(o, place, data, ps) == Materialized(o, code, data, ps, c0, r0)
  {
    if ps != [] {
      var last := ps[|ps| - 1];
      AcceptedLinks(o, code, data, ps[..|ps| - 1], c0, r0, place, codeBase, ramBase);
      LinkedPatchAgrees(o, place, last, Meaning(o, last.expression).value, codeBase, ramBase);
    }
  }

  lemma {:induction false} MaterializedKinds(o: Object, code: seq<byte>, data: seq<byte>, ps: seq<Patch>,
                                             c0: int, r0: int, j: nat)
    requires Materialized(o, code, data, ps, c0, r0).Ok? && j < |ps|
    ensures ps[j].kind <= PATCH_JR
  {
    if j < |ps| - 1 {
      MaterializedKinds(o, code, data, ps[..|ps| - 1], c0, r0, j);
    }
  }

  // ---------------------------------------------------------------- the table

  /** The sorted relocation list behind an emitted file. */
  ghost predicate TableOf(f: Reference, rs: seq<Reloc>) {
    && Ascending(rs) && DistinctPositions(rs)
    && (forall i :: 0 <= i < |rs| ==> Fits(rs[i]))
    && f.patches == PackAll(rs)
  }

  lemma {:induction false} SearchComplete(rs: seq<Reloc>, k: nat, lo: nat, hi: nat)
    requires Ascending(rs) && DistinctPositions(rs) && forall i :: 0 <= i < |rs| ==> Fits(rs[i])
    requires lo <= k < hi <= |rs|
    ensures PatchFor(PackAll(rs), rs[k].at, lo, hi) == Some(Pack(rs[k]))
    decreases hi - lo
  {
    var mid := lo + (hi - lo) / 2;
    ProbeCompares(rs, k, mid);
    if k > mid {
      SearchComplete(rs, k, mid + 1, hi);
    } else if k < mid {
      SearchComplete(rs, k, lo, mid);
    }
  }

  /** A probe of the table compares positions as the list orders them. */
  lemma ProbeCompares(rs: seq<Reloc>, k: nat, mid: nat)
    requires Ascending(rs) && DistinctPositions(rs) && forall i :: 0 <= i < |rs| ==> Fits(rs[i])
    requires k < |rs| && mid < |rs|
    ensures PackedAt(PackAll(rs)[mid]) == rs[mid].at
    ensures rs[mid].at == rs[k].at <==> mid == k
    ensures rs[mid].at < rs[k].at <==> mid < k
  {
    PackRoundTrip(rs[mid]);
  }

  /** Looking up a relocated position gives its relocation; every other position gives the stored byte. */
  lemma LookupAt(f: Reference, rs: seq<Reloc>, i: nat, codeBase: nat, ramBase: nat)
    requires TableOf(f, rs) && i < |f.code|
    ensures forall x :: x in rs && x.at == i ==>
                          RelocatedByte(f, i, codeBase, ramBase) == RelocByte(x, codeBase, ramBase)
    ensures (forall x :: x in rs ==> x.at != i) ==> RelocatedByte(f, i, codeBase, ramBase) == f.code[i]
  {
    forall x | x in rs && x.at == i
      ensures RelocatedByte(f, i, codeBase, ramBase) == RelocByte(x, codeBase, ramBase)
    {
      var k :| 0 <= k < |rs| && rs[k] == x;
      SearchComplete(rs, k, 0, |rs|);
      PackedByte(x, codeBase, ramBase);
    }
    var w := PatchFor(f.patches, i, 0, |f.patches|);
    if w.Some? {
      var k :| 0 <= k < |rs| && Pack(rs[k]) == w.value;
      assert rs[k].at == i by {
        PackRoundTrip(rs[k]);
      }
    }
  }

  lemma PackedByte(x: Reloc, codeBase: nat, ramBase: nat)
    requires Fits(x)
    ensures PatchByte(Pack(x), codeBase, ramBase) == RelocByte(x, codeBase, ramBase)
  {
    PackRoundTrip(x);
  }

  // ---------------------------------------------------------------- what acceptance gives

  function PatchesOf(o: Object): seq<Patch>
    requires Recognised(o)
  {
    DriverSection(o).patches
  }

  ghost function MeaningAt(o: Object, j: nat): Value
    requires Recognised(o) && j < |PatchesOf(o)| && Meaning(o, PatchesOf(o)[j].expression).Ok?
  {
    Meaning(o, PatchesOf(o)[j].expression).value
  }

  lemma AcceptedPatches(o: Object, rom: seq<byte>, c0: nat, r0: nat)
    requires Generated(o, rom, c0, r0).Ok?
    ensures AllAccepted(o, PatchesOf(o))
  {
    var section := DriverSection(o);
    var code := Clip(rom, c0, c0 + section.size);
    forall j | 0 <= j < |section.patches|
      ensures Meaning(o, section.patches[j].expression).Ok?
      ensures Accepted(o, section.patches[j], Meaning(o, section.patches[j].expression).value)
    {
      MaterializedKinds(o, code, section.data.value, section.patches, c0, r0, j);
      GatheredAccepts(o, DriverIndex(o.sections).value, section.patches, j);
    }
  }

  lemma TableExists(o: Object, rom: seq<byte>, c0: nat, r0: nat)
    requires Generated(o, rom, c0, r0).Ok?
    ensures TableOf(Generated(o, rom, c0, r0).value, Relocations(o, PatchesOf(o)).value)
    ensures Relocations(o, PatchesOf(o)).Ok?
  {
    SortedKeeps(Gathered(o, DriverIndex(o.sections).value, PatchesOf(o)).value);
  }

  /** A byte is in the table exactly when some moving patch covers it. */
  lemma TableCovers(o: Object, rom: seq<byte>, c0: nat, r0: nat, j: nat, x: Reloc)
    requires Generated(o, rom, c0, r0).Ok? && j < |PatchesOf(o)|
    ensures Meaning(o, PatchesOf(o)[j].expression).Ok? && Accepted(o, PatchesOf(o)[j], MeaningAt(o, j))
    ensures x in PatchRelocs(DriverIndex(o.sections).value, PatchesOf(o)[j], MeaningAt(o, j)).value
            ==> x in Relocations(o, PatchesOf(o)).value
  {
    AcceptedPatches(o, rom, c0, r0);
    var d := DriverIndex(o.sections).value;
    var all := Gathered(o, d, PatchesOf(o)).value;
    GatheredAccepts(o, d, PatchesOf(o), j);
    SortedKeeps(all);
    if x in PatchRelocs(d, PatchesOf(o)[j], MeaningAt(o, j)).value {
      assert x in multiset(all);
      assert x in multiset(Sorted(all));
    }
  }

  // ---------------------------------------------------------------- the main theorem

  /**
   The condition, byte by byte: the patch that has the last word on byte `i` either moves with a
   base, or it shares the byte with no moving patch and is not a JR narrowed to its high byte.
   */
  ghost predicate CleanByte(o: Object, i: nat)
    requires Recognised(o)
  {
    var ps := PatchesOf(o);
    var j := LastWriter(ps, i);
    0 <= j ==>
      && Meaning(o, ps[j].expression).Ok?
      && (Moves(ps[j], MeaningAt(o, j))
          || (!JrHigh(ps[j], MeaningAt(o, j)) && !MovedByte(o, i)))
  }

  /** Some moving patch covers byte `i`. */
  ghost predicate MovedByte(o: Object, i: nat)
    requires Recognised(o)
  {
    exists k :: 0 <= k < |PatchesOf(o)| && Covers(PatchesOf(o)[k], i)
                && Meaning(o, PatchesOf(o)[k].expression).Ok? && Moves(PatchesOf(o)[k], MeaningAt(o, k))
  }

  /** The emitted lookup at two bases equals the object linked at those bases, in every placement. */
  ghost predicate RelocatesTo(o: Object, f: Reference, codeBase: word16, ramBase: word16)
    requires Recognised(o)
  {
    forall place :: Placed(o, place, codeBase, ramBase) ==>
                      Linked(o, place, DriverSection(o).data.value, PatchesOf(o))
                          == Ok(RelocatedImage(f, codeBase, ramBase))
  }

  function SomePlacement(o: Object, codeBase: int, ramBase: int): (place: seq<int>)
    ensures Placed(o, place, codeBase, ramBase)
  {
    seq(|o.sections|, i requires 0 <= i < |o.sections| =>
      if IsDriver(o.sections[i]) then codeBase else if IsPlayback(o.sections[i]) then ramBase else 0)
  }

  /** The linked byte at `i`, in terms of the patch that writes it last. */
  lemma LinkedByte(o: Object, rom: seq<byte>, c0: nat, r0: nat, place: seq<int>, i: nat, codeBase: int, ramBase: int)
    requires ReadFromFile(o) && Generated(o, rom, c0, r0).Ok? && i < DRIVER_SIZE
    requires Placed(o, place, codeBase, ramBase)
    ensures var data, ps := DriverSection(o).data.value, PatchesOf(o);
            var j := LastWriter(ps, i);
            && Linked(o, place, data, ps).Ok?
            && (j >= 0 ==> Meaning(o, ps[j].expression).Ok? && Accepted(o, ps[j], MeaningAt(o, j)))
            && |data| == DRIVER_SIZE
            && Linked(o, place, data, ps).value[i]
               == if j < 0 then data[i] else ByteAt(ps[j], MeaningAt(o, j), i, codeBase, ramBase)
  {
    var data, ps := DriverSection(o).data.value, PatchesOf(o);
    var code := Clip(rom, c0, c0 + DRIVER_SIZE);
    AcceptedPatches(o, rom, c0, r0);
    AcceptedLinks(o, code, data, ps, c0, r0, place, codeBase, ramBase);
    LinkedAt(o, place, data, ps, i);
    var j := LastWriter(ps, i);
    if j >= 0 {
      LinkedPatchAgrees(o, place, ps[j], MeaningAt(o, j), codeBase, ramBase);
    }
  }

  /** The stored code is the object linked at the bases it was generated for. */
  lemma StoredByte(o: Object, rom: seq<byte>, c0: nat, r0: nat, i: nat)
    requires ReadFromFile(o) && Generated(o, rom, c0, r0).Ok? && i < DRIVER_SIZE
    ensures var f, ps := Generated(o, rom, c0, r0).value, PatchesOf(o);
            var j := LastWriter(ps, i);
            && |f.code| == DRIVER_SIZE
            && (j >= 0 ==> Meaning(o, ps[j].expression).Ok? && Accepted(o, ps[j], MeaningAt(o, j)))
            && f.code[i] == if j < 0 then DriverSection(o).data.value[i] else ByteAt(ps[j], MeaningAt(o, j), i, c0, r0)
  {
    var place := SomePlacement(o, c0, r0);
    var data, ps := DriverSection(o).data.value, PatchesOf(o);
    LinkedByte(o, rom, c0, r0, place, i, c0, r0);
    AcceptedPatches(o, rom, c0, r0);
    AcceptedLinks(o, Clip(rom, c0, c0 + DRIVER_SIZE), data, ps, c0, r0, place, c0, r0);
  }

  lemma {:induction false} MovedIffInTable(o: Object, rom: seq<byte>, c0: nat, r0: nat, i: nat)
    requires Generated(o, rom, c0, r0).Ok?
    ensures Relocations(o, PatchesOf(o)).Ok?
    ensures MovedByte(o, i) <==> exists x :: x in Relocations(o, PatchesOf(o)).value && x.at == i
  {
    TableExists(o, rom, c0, r0);
    var d, ps, rs := DriverIndex(o.sections).value, PatchesOf(o), Relocations(o, PatchesOf(o)).value;
    if MovedByte(o, i) {
      var k :| 0 <= k < |ps| && Covers(ps[k], i) && Meaning(o, ps[k].expression).Ok? && Moves(ps[k], MeaningAt(o, k));
      AcceptedPatches(o, rom, c0, r0);
      var x :| x in PatchRelocs(d, ps[k], MeaningAt(o, k)).value && x.at == i;
      TableCovers(o, rom, c0, r0, k, x);
    }
    if x :| x in rs && x.at == i {
      var all := Gathered(o, d, ps).value;
      SortedKeeps(all);
      assert x in multiset(Sorted(all));
      assert x in multiset(all);
      var k := GatheredOrigin(o, d, ps, x);
      assert Covers(ps[k], i) && Moves(ps[k], MeaningAt(o, k));
    }
  }

  lemma CleanByteRelocates(o: Object, rom: seq<byte>, c0: nat, r0: nat, i: nat,
                           place: seq<int>, codeBase: word16, ramBase: word16)
    requires ReadFromFile(o) && Generated(o, rom, c0, r0).Ok? && i < DRIVER_SIZE
    requires Placed(o, place, codeBase, ramBase) && CleanByte(o, i)
    ensures |Generated(o, rom, c0, r0).value.code| == DRIVER_SIZE
    ensures Linked(o, place, DriverSection(o).data.value, PatchesOf(o)).Ok?
    ensures |DriverSection(o).data.value| == DRIVER_SIZE
    ensures Linked(o, place, DriverSection(o).data.value, PatchesOf(o)).value[i]
            == RelocatedByte(Generated(o, rom, c0, r0).value, i, codeBase, ramBase)
  {
    var f, ps, rs := Generated(o, rom, c0, r0).value, PatchesOf(o), Relocations(o, PatchesOf(o)).value;
    var j := LastWriter(ps, i);
    LinkedByte(o, rom, c0, r0, place, i, codeBase, ramBase);
    StoredByte(o, rom, c0, r0, i);
    TableExists(o, rom, c0, r0);
    LookupAt(f, rs, i, codeBase, ramBase);
    if j >= 0 && Moves(ps[j], MeaningAt(o, j)) {
      var x :| x in PatchRelocs(DriverIndex(o.sections).value, ps[j], MeaningAt(o, j)).value && x.at == i;
      TableCovers(o, rom, c0, r0, j, x);
      MovingByte(o, ps[j], MeaningAt(o, j), x, codeBase, ramBase);
    } else {
      MovedIffInTable(o, rom, c0, r0, i);
      if j >= 0 {
        FixedByte(o, ps[j], MeaningAt(o, j), i, c0, r0, codeBase, ramBase);
      } else {
        assert !MovedByte(o, i);
      }
    }
  }

  lemma RelocatedAsLinked(o: Object, rom: seq<byte>, c0: nat, r0: nat, i: nat, codeBase: word16, ramBase: word16)
    requires ReadFromFile(o) && Generated(o, rom, c0, r0).Ok? && i < DRIVER_SIZE
    requires LastWriter(PatchesOf(o), i) >= 0
    requires RelocatesTo(o, Generated(o, rom, c0, r0).value, codeBase, ramBase)
    ensures |Generated(o, rom, c0, r0).value.code| == DRIVER_SIZE
    ensures var j := LastWriter(PatchesOf(o), i);
            && Meaning(o, PatchesOf(o)[j].expression).Ok? && Accepted(o, PatchesOf(o)[j], MeaningAt(o, j))
            && RelocatedByte(Generated(o, rom, c0, r0).value, i, codeBase, ramBase)
               == ByteAt(PatchesOf(o)[j], MeaningAt(o, j), i, codeBase, ramBase)
  {
    var place := SomePlacement(o, codeBase, ramBase);
    LinkedByte(o, rom, c0, r0, place, i, codeBase, ramBase);
    assert Linked(o, place, DriverSection(o).data.value, PatchesOf(o))
        == Ok(RelocatedImage(Generated(o, rom, c0, r0).value, codeBase, ramBase));
  }

  lemma LookupMissesJrHigh(o: Object, f: Reference, rs: seq<Reloc>, p: Patch, v: Value, i: nat)
    requires TableOf(f, rs) && i < |f.code| && Accepted(o, p, v) && Covers(p, i) && JrHigh(p, v)
    ensures RelocatedByte(f, i, 0, 0) == ByteAt(p, v, i, 0, 0) ==> RelocatedByte(f, i, 2, 0) != ByteAt(p, v, i, 2, 0)
  {
    JrHighByte(o, p, v, i, 0);
    TwoStepsOfABase(f, rs, i);
  }

  /** A JR narrowed to its high byte goes wrong at code base 0 or 2. */
  lemma JrHighFails(o: Object, rom: seq<byte>, c0: nat, r0: nat, i: nat)
    requires ReadFromFile(o) && Generated(o, rom, c0, r0).Ok? && i < DRIVER_SIZE
    requires LastWriter(PatchesOf(o), i) >= 0
    requires Meaning(o, PatchesOf(o)[LastWriter(PatchesOf(o), i)].expression).Ok?
    requires JrHigh(PatchesOf(o)[LastWriter(PatchesOf(o), i)], MeaningAt(o, LastWriter(PatchesOf(o), i)))
    ensures !RelocatesTo(o, Generated(o, rom, c0, r0).value, 0, 0)
            || !RelocatesTo(o, Generated(o, rom, c0, r0).value, 2, 0)
  {
    var f, ps, rs := Generated(o, rom, c0, r0).value, PatchesOf(o), Relocations(o, PatchesOf(o)).value;
    var j := LastWriter(ps, i);
    if RelocatesTo(o, f, 0, 0) && RelocatesTo(o, f, 2, 0) {
      RelocatedAsLinked(o, rom, c0, r0, i, 0, 0);
      RelocatedAsLinked(o, rom, c0, r0, i, 2, 0);
      TableExists(o, rom, c0, r0);
      LookupMissesJrHigh(o, f, rs, ps[j], MeaningAt(o, j), i);
      assert false;
    }
  }

  /** A fixed byte written over a moving one goes wrong at base 0, 1 or 256. */
  lemma OverwrittenMoveFails(o: Object, rom: seq<byte>, c0: nat, r0: nat, i: nat)
    requires ReadFromFile(o) && Generated(o, rom, c0, r0).Ok? && i < DRIVER_SIZE
    requires LastWriter(PatchesOf(o), i) >= 0 && MovedByte(o, i)
    requires Meaning(o, PatchesOf(o)[LastWriter(PatchesOf(o), i)].expression).Ok?
    requires !JrHigh(PatchesOf(o)[LastWriter(PatchesOf(o), i)], MeaningAt(o, LastWriter(PatchesOf(o), i)))
    requires !Moves(PatchesOf(o)[LastWriter(PatchesOf(o), i)], MeaningAt(o, LastWriter(PatchesOf(o), i)))
    ensures var f := Generated(o, rom, c0, r0).value;
            !RelocatesTo(o, f, 0, 0) || !RelocatesTo(o, f, 1, 1) || !RelocatesTo(o, f, 256, 256)
  {
    var f, ps, rs := Generated(o, rom, c0, r0).value, PatchesOf(o), Relocations(o, PatchesOf(o)).value;
    var j := LastWriter(ps, i);
    if RelocatesTo(o, f, 0, 0) && RelocatesTo(o, f, 1, 1) && RelocatesTo(o, f, 256, 256) {
      TableExists(o, rom, c0, r0);
      MovedIffInTable(o, rom, c0, r0, i);
      var x :| x in rs && x.at == i;
      RelocatedAsLinked(o, rom, c0, r0, i, 0, 0);
      RelocatedAsLinked(o, rom, c0, r0, i, 1, 1);
      RelocatedAsLinked(o, rom, c0, r0, i, 256, 256);
      FixedByte(o, ps[j], MeaningAt(o, j), i, 0, 0, 1, 1);
      FixedByte(o, ps[j], MeaningAt(o, j), i, 0, 0, 256, 256);
      LookupAt(f, rs, i, 0, 0);
      LookupAt(f, rs, i, 1, 1);
      LookupAt(f, rs, i, 256, 256);
      RelocByteVaries(x);
      assert false;
    }
  }

  /** Two steps of the code base never lower a looked-up byte by one or two. */
  lemma TwoStepsOfABase(f: Reference, rs: seq<Reloc>, i: nat)
    requires TableOf(f, rs) && i < |f.code|
    ensures var d := (RelocatedByte(f, i, 2, 0) - RelocatedByte(f, i, 0, 0)) % 256; d != 254 && d != 255
  {
    LookupAt(f, rs, i, 0, 0);
    LookupAt(f, rs, i, 2, 0);
    if x :| x in rs && x.at == i {
      TwoSteps(x);
    }
  }

  lemma TwoSteps(x: Reloc)
    requires Fits(x)
    ensures var d := (RelocByte(x, 2, 0) - RelocByte(x, 0, 0)) % 256; d != 254 && d != 255
  {
  }

  lemma RelocByteVaries(x: Reloc)
    requires Fits(x)
    ensures RelocByte(x, 0, 0) != RelocByte(x, 1, 1) || RelocByte(x, 0, 0) != RelocByte(x, 256, 256)
  {
  }

  /**
   Relocation is linking. For every accepted object, the emitted table rebuilds the object linked at
   every pair of 16-bit bases if and only if every byte of the driver is clean.
   */
  lemma RelocationIsLinking(o: Object, rom: seq<byte>, c0: nat, r0: nat)
    requires ReadFromFile(o) && Generated(o, rom, c0, r0).Ok?
    ensures (forall codeBase: word16, ramBase: word16 ::
               RelocatesTo(o, Generated(o, rom, c0, r0).value, codeBase, ramBase))
            <==> (forall i :: 0 <= i < DRIVER_SIZE ==> CleanByte(o, i))
  {
    var f := Generated(o, rom, c0, r0).value;
    if forall i :: 0 <= i < DRIVER_SIZE ==> CleanByte(o, i) {
      forall codeBase: word16, ramBase: word16, place | Placed(o, place, codeBase, ramBase)
        ensures Linked(o, place, DriverSection(o).data.value, PatchesOf(o)) == Ok(RelocatedImage(f, codeBase, ramBase))
      {
        LinkedByte(o, rom, c0, r0, place, 0, codeBase, ramBase);
        var image := Linked(o, place, DriverSection(o).data.value, PatchesOf(o)).value;
        forall i | 0 <= i < |image|
          ensures |f.code| == |image| && image[i] == RelocatedByte(f, i, codeBase, ramBase)
        {
          CleanByteRelocates(o, rom, c0, r0, i, place, codeBase, ramBase);
        }
        StoredByte(o, rom, c0, r0, 0);
        assert image == RelocatedImage(f, codeBase, ramBase);
      }
    } else {
      var i :| 0 <= i < DRIVER_SIZE && !CleanByte(o, i);
      AcceptedPatches(o, rom, c0, r0);
      var j := LastWriter(PatchesOf(o), i);
      if JrHigh(PatchesOf(o)[j], MeaningAt(o, j)) {
        JrHighFails(o, rom, c0, r0, i);
      } else {
        OverwrittenMoveFails(o, rom, c0, r0, i);
      }
    }
  }

  predicate DisjointPatches(ps: seq<Patch>) {
    forall j, k :: 0 <= j < k < |ps| ==>
                     || ps[j].offset + Width(ps[j].kind) <= ps[k].offset
                     || ps[k].offset + Width(ps[k].kind) <= ps[j].offset
  }

  ghost predicate NoJrHigh(o: Object)
    requires Recognised(o)
  {
    forall j :: 0 <= j < |PatchesOf(o)| && Meaning(o, PatchesOf(o)[j].expression).Ok?
                ==> !JrHigh(PatchesOf(o)[j], MeaningAt(o, j))
  }

  /** Disjoint patches without a JR narrowed to its high byte are always relocated faithfully. */
  lemma DisjointPatchesRelocate(o: Object, rom: seq<byte>, c0: nat, r0: nat, codeBase: word16, ramBase: word16)
    requires ReadFromFile(o) && Generated(o, rom, c0, r0).Ok?
    requires DisjointPatches(PatchesOf(o)) && NoJrHigh(o)
    ensures RelocatesTo(o, Generated(o, rom, c0, r0).value, codeBase, ramBase)
  {
    AcceptedPatches(o, rom, c0, r0);
    forall i | 0 <= i < DRIVER_SIZE
      ensures CleanByte(o, i)
    {
      DisjointIsClean(o, i);
    }
    RelocationIsLinking(o, rom, c0, r0);
  }

  lemma DisjointIsClean(o: Object, i: nat)
    requires Recognised(o) && AllAccepted(o, PatchesOf(o)) && DisjointPatches(PatchesOf(o)) && NoJrHigh(o)
    ensures CleanByte(o, i)
  {
  }

  // ---------------------------------------------------------------- reading the RAM base back

  /** The RAM bytes of `bytes` are the ones a driver relocated to `ramBase` would have. */
  ghost predicate MatchesRam(rs: seq<Reloc>, bytes: seq<byte>, ramBase: nat) {
    forall x :: x in rs && x.kind.domain.Ram? ==> x.at < |bytes| && bytes[x.at] == RelocByte(x, 0, ramBase)
  }

  /** The anchor of an emitted file is a RAM word of its relocation list, inside the driver. */
  lemma Anchor(o: Object, rom: seq<byte>, c0: nat, r0: nat) returns (k: nat)
    requires ReadFromFile(o) && Generated(o, rom, c0, r0).Ok?
    ensures Relocations(o, PatchesOf(o)).Ok?
    ensures AnchoredAt(Generated(o, rom, c0, r0).value, Relocations(o, PatchesOf(o)).value, k)
    ensures |Generated(o, rom, c0, r0).value.code| == DRIVER_SIZE
  {
    var d, ps := DriverIndex(o.sections).value, PatchesOf(o);
    var rs := Relocations(o, ps).value;
    k := RamAnchor(rs, 0).value;
    TableExists(o, rom, c0, r0);
    var all := Gathered(o, d, ps).value;
    SortedKeeps(all);
    assert rs[k + 1] in multiset(Sorted(all));
    assert rs[k + 1] in multiset(all);
    var j := GatheredOrigin(o, d, ps, rs[k + 1]);
    var code := Clip(rom, c0, c0 + DRIVER_SIZE);
    PatchInside(o, code, DriverSection(o).data.value, ps, c0, r0, j);
  }

  ghost predicate AnchoredAt(f: Reference, rs: seq<Reloc>, k: nat) {
    && TableOf(f, rs)
    && k + 1 < |rs| && IsRamWord(rs, k)
    && f.anchorAt == rs[k].at && f.anchorOffset == rs[k].offset
    && f.anchorAt + 1 < |f.code|
  }

  lemma {:induction false} PatchInside(o: Object, code: seq<byte>, data: seq<byte>, ps: seq<Patch>, c0: int, r0: int,
                                       j: nat)
    requires Materialized(o, code, data, ps, c0, r0).Ok? && j < |ps|
    ensures ps[j].offset + Width(ps[j].kind) <= |code|
  {
    if j < |ps| - 1 {
      PatchInside(o, code, data, ps[..|ps| - 1], c0, r0, j);
    }
  }

  /** Any bytes whose RAM positions match some base in work RAM give back exactly that base. */
  lemma InferenceUnique(o: Object, rom: seq<byte>, c0: nat, r0: nat, bytes: seq<byte>, ramBase: nat)
    requires ReadFromFile(o) && Generated(o, rom, c0, r0).Ok?
    requires |bytes| == DRIVER_SIZE && 0xC000 <= ramBase <= 0xCFFF
    requires MatchesRam(Relocations(o, PatchesOf(o)).value, bytes, ramBase)
    ensures Generated(o, rom, c0, r0).value.anchorAt + 1 < |Generated(o, rom, c0, r0).value.code|
    ensures InferRam(Generated(o, rom, c0, r0).value, bytes) == Some(ramBase)
    ensures forall other :: 0xC000 <= other <= 0xCFFF && MatchesRam(Relocations(o, PatchesOf(o)).value, bytes, other)
                            ==> other == ramBase
  {
    var k := Anchor(o, rom, c0, r0);
    var f, rs := Generated(o, rom, c0, r0).value, Relocations(o, PatchesOf(o)).value;
    InferredFromMatch(f, rs, k, bytes, ramBase);
    forall other | 0xC000 <= other <= 0xCFFF && MatchesRam(rs, bytes, other)
      ensures other == ramBase
    {
      InferredFromMatch(f, rs, k, bytes, other);
    }
  }

  lemma InferredFromMatch(f: Reference, rs: seq<Reloc>, k: nat, bytes: seq<byte>, ramBase: nat)
    requires AnchoredAt(f, rs, k) && |bytes| == |f.code| && 0xC000 <= ramBase <= 0xCFFF
            && MatchesRam(rs, bytes, ramBase)
    ensures InferRam(f, bytes) == Some(ramBase)
  {
    assert rs[k] in rs && rs[k + 1] in rs && Fits(rs[k]);
    RamWord(rs, k, 0, ramBase);
  }

  /** Inference inverts relocation: it returns the RAM base of a relocated driver, or nothing outside work RAM. */
  lemma InferenceInvertsRelocation(o: Object, rom: seq<byte>, c0: nat, r0: nat, codeBase: word16, ramBase: word16)
    requires ReadFromFile(o) && Generated(o, rom, c0, r0).Ok?
    ensures var f := Generated(o, rom, c0, r0).value;
            && f.anchorAt + 1 < |f.code|
            && InferRam(f, RelocatedImage(f, codeBase, ramBase))
               == if 0xC000 <= ramBase <= 0xCFFF then Some(ramBase) else None
  {
    var k := Anchor(o, rom, c0, r0);
    InferredFromAnchor(Generated(o, rom, c0, r0).value, Relocations(o, PatchesOf(o)).value, k, codeBase, ramBase);
  }

  lemma InferredFromAnchor(f: Reference, rs: seq<Reloc>, k: nat, codeBase: word16, ramBase: word16)
    requires AnchoredAt(f, rs, k)
    ensures InferRam(f, RelocatedImage(f, codeBase, ramBase))
            == if 0xC000 <= ramBase <= 0xCFFF then Some(ramBase) else None
  {
    assert rs[k] in rs && rs[k + 1] in rs && Fits(rs[k]);
    var bytes := RelocatedImage(f, codeBase, ramBase);
    assert bytes[f.anchorAt] == RelocByte(rs[k], codeBase, ramBase) by {
      LookupAt(f, rs, rs[k].at, codeBase, ramBase);
    }
    assert bytes[f.anchorAt + 1] == RelocByte(rs[k + 1], codeBase, ramBase) by {
      LookupAt(f, rs, rs[k + 1].at, codeBase, ramBase);
    }
    RamWord(rs, k, codeBase, ramBase);
  }

  lemma RamWord(rs: seq<Reloc>, k: nat, codeBase: int, ramBase: int)
    requires k + 1 < |rs| && IsRamWord(rs, k)
    ensures RelocByte(rs[k], codeBase, ramBase) as int + 256 * RelocByte(rs[k + 1], codeBase, ramBase) as int
            == (ramBase + rs[k].offset) % 0x1_0000
  {
  }
}
