/**
 The condition of `RelocationIsLinking` is not idle: objects outside it that the generator accepts,
 one for each way a byte can be unclean.
 */
module RelocationLimits {
  import opened Common
  import opened DriverObject
  import opened Relocation
  import opened RelocationProof

  function Zeros(): (z: seq<byte>)
    ensures |z| == DRIVER_SIZE && forall i :: 0 <= i < |z| ==> z[i] == 0
  {
    seq(DRIVER_SIZE, _ => 0 as byte)
  }

  /** The names and sizes the generator asks for, and one RAM symbol. */
  const SYMBOLS := [Symbol("hUGE_init", Some(0), 0), Symbol("hUGE_dosound", Some(0), UPDATE_OFFSET),
      Symbol("ram", Some(1), 0)]

  /** The address of the first RAM variable, the start of the driver, its high byte, and the number 0. */
  const RAM_START: seq<byte> := [RPN_SYMBOL, 2, 0, 0, 0]
  const CODE_HIGH: seq<byte> := [RPN_SYMBOL, 0, 0, 0, 0, RPN_HIGH]
  const ZERO: seq<byte> := [RPN_INT, 0, 0, 0, 0]

  function Driver(patches: seq<Patch>): Object {
    Object(SYMBOLS, [Section("Sound Driver", ROM0, DRIVER_SIZE, Some(Zeros()), patches),
                     Section("Playback variables", WRAM0, PLAYBACK_SIZE, None, [])])
  }

  lemma DriverRecognised(patches: seq<Patch>)
    ensures var o := Driver(patches);
            && Recognised(o) && ReadFromFile(o) && DriverIndex(o.sections) == Some(0)
            && PatchesOf(o) == patches && DriverSection(o).data == Some(Zeros())
  {
    var o := Driver(patches);
    assert FirstNamed(o.sections, 0) == Some(0);
    var tail := SYMBOLS[1..];
    assert tail[0] == SYMBOLS[1];
    assert SymbolNamed(tail, "hUGE_dosound") == Some(UPDATE_OFFSET);
    assert "hUGE_init"[5] != "hUGE_dosound"[5];
    assert o.sections[1..][0] == o.sections[1];
    assert "Sound Driver"[0] != "Playback variables"[0];
    assert PlaybackSize(o.sections[1..]) == Some(PLAYBACK_SIZE);
  }

  lemma Meanings(patches: seq<Patch>)
    ensures var o := Driver(patches);
            && Meaning(o, RAM_START) == Ok(Value(Some(Ram), 0, None))
            && Meaning(o, CODE_HIGH) == Ok(Value(Some(Code), 0, Some(High)))
            && Meaning(o, ZERO) == Ok(Value(None, 0, None))
  {
    var o := Driver(patches);
    var ram, code, zero := Value(Some(Ram), 0, None), Value(Some(Code), 0, None), Value(None, 0, None);
    var high := code.(select := Some(High));
    assert SymbolValue(o, 2) == Ok(ram) && SymbolValue(o, 0) == Ok(code);
    assert [] + [ram] == [ram] && [] + [code] == [code] && [] + [zero] == [zero] && [code][..0] + [high] == [high];
    assert ReadToken(RAM_START, 0) == Ok((Sym(2), 5)) && ReadToken(CODE_HIGH, 0) == Ok((Sym(0), 5));
    assert ReadToken(CODE_HIGH, 5) == Ok((Narrow(High), 6)) && ReadToken(ZERO, 0) == Ok((Int(0), 5));
    assert Step(o, Sym(2), []) == Ok([ram]) && Step(o, Sym(0), []) == Ok([code]) && Step(o, Int(0), []) == Ok([zero]);
    assert Step(o, Narrow(High), [code]) == Ok([high]);
    assert Run(o, RAM_START, 5, [ram]) == Ok([ram]);
    assert Run(o, CODE_HIGH, 6, [high]) == Ok([high]) && Run(o, CODE_HIGH, 5, [code]) == Ok([high]);
    assert Run(o, ZERO, 5, [zero]) == Ok([zero]);
  }

  // ---------------------------------------------------------------- one more patch

  lemma OneMorePatch(o: Object, code: seq<byte>, ps: seq<Patch>, p: Patch, image: seq<byte>, v: Value, bytes: seq<byte>)
    requires Materialized(o, code, Zeros(), ps, 0, 0) == Ok(image)
    requires Meaning(o, p.expression) == Ok(v) && PatchBytes(p, v, 0, 0) == Ok(bytes)
    requires Clip(code, p.offset, p.offset + |bytes|) == bytes
    ensures Materialized(o, code, Zeros(), ps + [p], 0, 0) == Ok(Overlay(image, p.offset, bytes))
  {
    assert (ps + [p])[..|ps|] == ps;
  }

  lemma OneMoreGathered(o: Object, ps: seq<Patch>, p: Patch, rs: seq<Reloc>, v: Value, here: seq<Reloc>)
    requires Gathered(o, 0, ps) == Ok(rs)
    requires Meaning(o, p.expression) == Ok(v) && PatchRelocs(0, p, v) == Ok(here)
    ensures Gathered(o, 0, ps + [p]) == Ok(rs + here)
  {
    assert (ps + [p])[..|ps|] == ps;
  }

  function RamWord0(): seq<Reloc> {
    [Reloc(0, 0, Kind(Ram, Low)), Reloc(1, 0, Kind(Ram, High))]
  }

  /** A driver with a RAM word at 0 and one more patch that stores `bytes` and adds nothing to the table. */
  lemma Accepts(o: Object, code: seq<byte>, p: Patch, v: Value, bytes: seq<byte>)
    requires o == Driver([WORD_AT_0] + [p]) && |code| == DRIVER_SIZE && code[..2] == [0, 0]
    requires Meaning(o, p.expression) == Ok(v) && PatchBytes(p, v, 0, 0) == Ok(bytes) && PatchRelocs(0, p, v) == Ok([])
    requires Clip(code, p.offset, p.offset + |bytes|) == bytes && Overlay(Zeros(), p.offset, bytes) == code
    ensures ReadFromFile(o) && Generated(o, code, 0, 0).Ok?
  {
    var ps := [WORD_AT_0] + [p];
    DriverRecognised(ps);
    Meanings(ps);
    WordPatch(o, code);
    OneMorePatch(o, code, [WORD_AT_0], p, Zeros(), v, bytes);
    assert Materialized(o, code, Zeros(), ps, 0, 0) == Ok(code);
    OneMoreGathered(o, [WORD_AT_0], p, RamWord0(), v, []);
    assert RamWord0() + [] == RamWord0();
    WordTable();
    Emitted(o, code, ps);
  }

  lemma Emitted(o: Object, code: seq<byte>, ps: seq<Patch>)
    requires o == Driver(ps) && |code| == DRIVER_SIZE
    requires Materialized(o, code, Zeros(), ps, 0, 0) == Ok(code) && Gathered(o, 0, ps) == Ok(RamWord0())
    ensures Generated(o, code, 0, 0).Ok?
  {
    DriverRecognised(ps);
    WordTable();
    assert Clip(code, 0, DRIVER_SIZE) == code;
    assert Relocations(o, ps) == Ok(RamWord0());
  }

  const WORD_AT_0 := Patch(0, 0, 0, PATCH_WORD, RAM_START)

  lemma WordPatch(o: Object, image: seq<byte>)
    requires Meaning(o, RAM_START) == Ok(Value(Some(Ram), 0, None))
    requires |image| == DRIVER_SIZE && image[..2] == [0, 0]
    ensures Materialized(o, image, Zeros(), [WORD_AT_0], 0, 0) == Ok(Zeros())
    ensures Gathered(o, 0, [WORD_AT_0]) == Ok(RamWord0())
  {
    var ram := Value(Some(Ram), 0, None);
    WordStores(ram);
    ZerosOverZeros(image);
    OneMorePatch(o, image, [], WORD_AT_0, Zeros(), ram, [0, 0]);
    OneMoreGathered(o, [], WORD_AT_0, [], ram, RamWord0());
    assert [] + [WORD_AT_0] == [WORD_AT_0] && [] + RamWord0() == RamWord0();
  }

  lemma ZerosOverZeros(image: seq<byte>)
    requires |image| == DRIVER_SIZE && image[..2] == [0, 0]
    ensures Overlay(Zeros(), 0, [0, 0]) == Zeros() && Clip(image, 0, 2) == [0, 0]
  {
    assert Zeros()[..0] + [0, 0] + Zeros()[2..] == Zeros();
  }

  lemma WordStores(ram: Value)
    requires ram == Value(Some(Ram), 0, None)
    ensures PatchBytes(WORD_AT_0, ram, 0, 0) == Ok([0, 0]) && PatchRelocs(0, WORD_AT_0, ram) == Ok(RamWord0())
  {
  }

  /** The table of one RAM word at 0. */
  lemma WordTable()
    ensures Sorted(RamWord0()) == RamWord0() && DistinctPositions(RamWord0()) && RamAnchor(RamWord0(), 0) == Some(0)
  {
    var rs := RamWord0();
    assert rs[1..] == [rs[1]] && [rs[1]][1..] == [];
    assert Sorted([]) == [] && Insert(rs[1], []) == [rs[1]] && [rs[1]] + [] == [rs[1]];
    assert Sorted([rs[1]]) == [rs[1]];
    assert [rs[0]] + [rs[1]] == rs;
  }

  /** Accepted, and yet wrong at some pair of bases. */
  ghost predicate AcceptedWrongly(o: Object, rom: seq<byte>) {
    && Recognised(o) && ReadFromFile(o) && Generated(o, rom, 0, 0).Ok?
    && exists codeBase: word16, ramBase: word16 :: !RelocatesTo(o, Generated(o, rom, 0, 0).value, codeBase, ramBase)
  }

  // ---------------------------------------------------------------- a JR narrowed to its high byte

  const JR_HIGH_AT_2 := Patch(2, 0, 2, PATCH_JR, CODE_HIGH)

  /** The driver linked with both bases at 0: the JR at 2 stores -4. */
  function JrImage(): (z: seq<byte>)
    ensures |z| == DRIVER_SIZE
  {
    Zeros()[2 := 252]
  }

  /**
   The generator accepts a driver with a RAM word at 0 and a JR narrowed to its high byte at 2, and relocates it
   wrongly.
   */
  lemma AcceptsJrHigh()
    ensures Recognised(Driver([WORD_AT_0] + [JR_HIGH_AT_2])) && !CleanByte(Driver([WORD_AT_0] + [JR_HIGH_AT_2]), 2)
    ensures AcceptedWrongly(Driver([WORD_AT_0] + [JR_HIGH_AT_2]), JrImage())
  {
    var ps := [WORD_AT_0] + [JR_HIGH_AT_2];
    var o, image, high := Driver(ps), JrImage(), Value(Some(Code), 0, Some(High));
    DriverRecognised(ps);
    Meanings(ps);
    assert PatchBytes(JR_HIGH_AT_2, high, 0, 0) == Ok([252]) && PatchRelocs(0, JR_HIGH_AT_2, high) == Ok([]);
    assert Overlay(Zeros(), 2, [252]) == image && Clip(image, 2, 3) == [252];
    Accepts(o, image, JR_HIGH_AT_2, high, [252]);
    assert LastWriter(ps, 2) == 1;
    RelocationIsLinking(o, image, 0, 0);
  }

  // ---------------------------------------------------------------- a fixed byte over a moving one

  const ZERO_AT_1 := Patch(1, 0, 0, PATCH_BYTE, ZERO)

  /**
   The generator accepts a driver whose RAM word at 0 has its high byte overwritten by a constant, and relocates it
   wrongly.
   */
  lemma AcceptsOverwrittenMove()
    ensures Recognised(Driver([WORD_AT_0] + [ZERO_AT_1])) && !CleanByte(Driver([WORD_AT_0] + [ZERO_AT_1]), 1)
    ensures AcceptedWrongly(Driver([WORD_AT_0] + [ZERO_AT_1]), Zeros())
  {
    var ps := [WORD_AT_0] + [ZERO_AT_1];
    var o, image, zero := Driver(ps), Zeros(), Value(None, 0, None);
    DriverRecognised(ps);
    Meanings(ps);
    assert PatchBytes(ZERO_AT_1, zero, 0, 0) == Ok([0]) && PatchRelocs(0, ZERO_AT_1, zero) == Ok([]);
    assert Overlay(Zeros(), 1, [0]) == image && Clip(image, 1, 2) == [0];
    Accepts(o, image, ZERO_AT_1, zero, [0]);
    assert LastWriter(ps, 1) == 1 && Covers(ps[0], 1) && Moves(ps[0], MeaningAt(o, 0));
    RelocationIsLinking(o, image, 0, 0);
  }
}
