/**
 The RGBDS object as the generator sees it, and its two readings of a patch expression: the
 symbolic one the generator computes once, and the concrete one a linker computes for every
 placement of the sections.
 */
module DriverObject {
  import opened Common

  const ROM0: nat := 3
  const WRAM0: nat := 0
  const PATCH_BYTE: nat := 0
  const PATCH_WORD: nat := 1
  const PATCH_LONG: nat := 2
  const PATCH_JR: nat := 3
  const RPN_ADD: byte := 0x00
  const RPN_SUB: byte := 0x01
  const RPN_HIGH: byte := 0x70
  const RPN_LOW: byte := 0x71
  const RPN_INT: byte := 0x80
  const RPN_SYMBOL: byte := 0x81
  const WORD32 := 0x1_0000_0000

  datatype Symbol = Symbol(name: string, section: Option<int>, value: nat)

  datatype Patch = Patch(offset: nat, pcSection: nat, pcOffset: nat, kind: nat, expression: seq<byte>)

  datatype Section = Section(name: string, kind: nat, size: nat, data: Option<seq<byte>>, patches: seq<Patch>)

  datatype Object = Object(symbols: seq<Symbol>, sections: seq<Section>)

  datatype Domain = Code | Ram

  datatype Select = High | Low

  /** A base-relative number: `offset` from the base of `domain`, possibly narrowed to one byte. */
  datatype Value = Value(domain: Option<Domain>, offset: int, select: Option<Select>)

  predicate IsDriver(section: Section) {
    section.name == "Sound Driver" && section.kind == ROM0
  }

  predicate IsPlayback(section: Section) {
    section.name == "Playback variables" && section.kind == WRAM0
  }

  /** A Python list index: negative indices count from the end. */
  function ListIndex(length: nat, i: int): (r: Option<nat>)
    ensures r.Some? ==> r.value < length
  {
    if 0 <= i < length then Some(i)
    else if i < 0 && 0 <= i + length then Some(i + length)
    else None
  }

  // ---------------------------------------------------------------- tokens

  datatype Token = Int(value: int) | Sym(id: nat) | Add | Sub | Narrow(select: Select)

  function U32(e: seq<byte>, at: nat): (v: nat)
    requires at + 4 <= |e|
    ensures v < WORD32
  {
    e[at] as int + 0x100 * e[at + 1] as int + 0x1_0000 * e[at + 2] as int + 0x100_0000 * e[at + 3] as int
  }

  function I32(e: seq<byte>, at: nat): int
    requires at + 4 <= |e|
  {
    var v := U32(e, at);
    if v < 0x8000_0000 then v else v - WORD32
  }

  /** The token at `at` and the position after it; an unknown opcode or a truncated operand raises. */
  function ReadToken(e: seq<byte>, at: nat): (r: Result<(Token, nat)>)
    requires at < |e|
    ensures r.Ok? ==> at < r.value.1 <= |e|
  {
    if e[at] == RPN_INT then
      if at + 5 <= |e| then Ok((Int(I32(e, at + 1)), at + 5)) else Rejected
    else if e[at] == RPN_SYMBOL then
      if at + 5 <= |e| then Ok((Sym(U32(e, at + 1)), at + 5)) else Rejected
    else if e[at] == RPN_ADD then Ok((Add, at + 1))
    else if e[at] == RPN_SUB then Ok((Sub, at + 1))
    else if e[at] == RPN_HIGH then Ok((Narrow(High), at + 1))
    else if e[at] == RPN_LOW then Ok((Narrow(Low), at + 1))
    else Rejected
  }

  // ---------------------------------------------------------------- symbolic reading

  function SymbolValue(o: Object, id: nat): Result<Value> {
    if id >= |o.symbols| then Rejected
    else if o.symbols[id].section.None? then Rejected
    else
      var at := ListIndex(|o.sections|, o.symbols[id].section.value);
      if at.None? then Rejected
      else if IsDriver(o.sections[at.value]) then Ok(Value(Some(Code), o.symbols[id].value, None))
      else if IsPlayback(o.sections[at.value]) then Ok(Value(Some(Ram), o.symbols[id].value, None))
      else Rejected
  }

  function Combine(left: Value, right: Value, add: bool): Result<Value> {
    if left.select.Some? || right.select.Some? then Rejected
    else if left.domain.None? && right.domain.None? then
      Ok(Value(None, if add then left.offset + right.offset else left.offset - right.offset, None))
    else if add then
      if left.domain.Some? && right.domain.None? then Ok(Value(left.domain, left.offset + right.offset, None))
      else if left.domain.None? && right.domain.Some? then Ok(Value(right.domain, left.offset + right.offset, None))
      else Rejected
    else if left.domain.Some? && right.domain.None? then
      Ok(Value(left.domain, left.offset - right.offset, None))
    else if left.domain == right.domain then
      Ok(Value(None, left.offset - right.offset, None))
    else Rejected
  }

  /** One token on the symbolic stack (top last); popping an empty stack raises. */
  function Step(o: Object, t: Token, stack: seq<Value>): Result<seq<Value>> {
    var n := |stack|;
    match t
    case Int(v) => Ok(stack + [Value(None, v, None)])
    case Sym(id) => var v :- SymbolValue(o, id); Ok(stack + [v])
    case Narrow(s) =>
      if n < 1 || stack[n - 1].select.Some? then Rejected
      else Ok(stack[..n - 1] + [Value(stack[n - 1].domain, stack[n - 1].offset, Some(s))])
    case _ =>
      if n < 2 then Rejected
      else var v :- Combine(stack[n - 2], stack[n - 1], t.Add?); Ok(stack[..n - 2] + [v])
  }

  function Run(o: Object, e: seq<byte>, at: nat, stack: seq<Value>): Result<seq<Value>>
    requires at <= |e|
    decreases |e| - at
  {
    if at == |e| then Ok(stack)
    else
      var (t, next) :- ReadToken(e, at);
      var pushed :- Step(o, t, stack);
      Run(o, e, next, pushed)
  }

  /** What the generator takes an expression to mean. */
  function Meaning(o: Object, e: seq<byte>): Result<Value> {
    var stack :- Run(o, e, 0, []);
    if |stack| == 1 then Ok(stack[0]) else Rejected
  }

  /** The generator's loop over the bytes of an expression. */
  method ExpressionValue(o: Object, e: seq<byte>) returns (r: Result<Value>)
    ensures r == Meaning(o, e)
  {
    var at, stack := 0, [];
    while at != |e|
      invariant at <= |e|
      invariant Run(o, e, at, stack) == Run(o, e, 0, [])
      decreases |e| - at
    {
      var token := ReadToken(e, at);
      if token.Rejected? {
        return Rejected;
      }
      var (t, next) := token.value;
      var pushed := Step(o, t, stack);
      if pushed.Rejected? {
        return Rejected;
      }
      at, stack := next, pushed.value;
    }
    if |stack| != 1 {
      return Rejected;
    }
    return Ok(stack[0]);
  }

  // ---------------------------------------------------------------- concrete reading

  function Narrowed(raw: int, s: Select): (b: byte) {
    if s.Low? then raw % 256 else raw / 256 % 256
  }

  /** The number a symbolic value stands for once both bases are known. */
  function Materialize(v: Value, codeBase: int, ramBase: int): (raw: nat)
    ensures raw < WORD32
  {
    var base := if v.domain == Some(Code) then codeBase else if v.domain == Some(Ram) then ramBase else 0;
    var raw := (base + v.offset) % WORD32;
    if v.select.Some? then Narrowed(raw, v.select.value) else raw
  }

  /** `place[i]` is the address of section `i`; the driver and its variables sit at the two bases. */
  predicate Placed(o: Object, place: seq<int>, codeBase: int, ramBase: int) {
    && |place| == |o.sections|
    && (forall i :: 0 <= i < |place| && IsDriver(o.sections[i]) ==> place[i] == codeBase)
    && (forall i :: 0 <= i < |place| && IsPlayback(o.sections[i]) ==> place[i] == ramBase)
  }

  /** One token on a stack of 32-bit numbers, with every symbol at its final address. */
  function LinkStep(o: Object, place: seq<int>, t: Token, stack: seq<nat>): Result<seq<nat>> {
    var n := |stack|;
    match t
    case Int(v) => Ok(stack + [v % WORD32])
    case Sym(id) =>
      if id >= |o.symbols| || o.symbols[id].section.None? then Rejected
      else
        var at := ListIndex(|place|, o.symbols[id].section.value);
        if at.None? then Rejected else Ok(stack + [(place[at.value] + o.symbols[id].value) % WORD32])
    case Narrow(s) =>
      if n < 1 then Rejected else Ok(stack[..n - 1] + [Narrowed(stack[n - 1], s)])
    case Add =>
      if n < 2 then Rejected else Ok(stack[..n - 2] + [(stack[n - 2] + stack[n - 1]) % WORD32])
    case Sub =>
      if n < 2 then Rejected else Ok(stack[..n - 2] + [(stack[n - 2] - stack[n - 1]) % WORD32])
  }

  function LinkRun(o: Object, place: seq<int>, e: seq<byte>, at: nat, stack: seq<nat>): Result<seq<nat>>
    requires at <= |e|
    decreases |e| - at
  {
    if at == |e| then Ok(stack)
    else
      var (t, next) :- ReadToken(e, at);
      var pushed :- LinkStep(o, place, t, stack);
      LinkRun(o, place, e, next, pushed)
  }

  /** The reference: the number a linker computes for an expression under a placement. */
  function LinkedValue(o: Object, place: seq<int>, e: seq<byte>): Result<nat> {
    var stack :- LinkRun(o, place, e, 0, []);
    if |stack| == 1 then Ok(stack[0]) else Rejected
  }

  ghost predicate StandsFor(symbolic: seq<Value>, concrete: seq<nat>, codeBase: int, ramBase: int) {
    && |symbolic| == |concrete|
    && forall i :: 0 <= i < |symbolic| ==> concrete[i] == Materialize(symbolic[i], codeBase, ramBase)
  }

  lemma CombineSound(left: Value, right: Value, add: bool, codeBase: int, ramBase: int)
    requires Combine(left, right, add).Ok?
    ensures var l, r := Materialize(left, codeBase, ramBase), Materialize(right, codeBase, ramBase);
            Materialize(Combine(left, right, add).value, codeBase, ramBase)
            == (if add then l + r else l - r) % WORD32
  {
    var base := (d: Option<Domain>) => if d == Some(Code) then codeBase else if d == Some(Ram) then ramBase else 0;
    ModularSum(base(left.domain) + left.offset, base(right.domain) + right.offset);
  }

  lemma ModularSum(a: int, b: int)
    ensures (a % WORD32 + b % WORD32) % WORD32 == (a + b) % WORD32
    ensures (a % WORD32 - b % WORD32) % WORD32 == (a - b) % WORD32
  {
    var s, d := a % WORD32 + b % WORD32, a % WORD32 - b % WORD32;
    Split32(a + b, s / WORD32 + a / WORD32 + b / WORD32, s % WORD32);
    Split32(a - b, d / WORD32 + a / WORD32 - b / WORD32, d % WORD32);
  }

  lemma Split32(x: int, q: int, r: int)
    requires x == WORD32 * q + r && 0 <= r < WORD32
    ensures x / WORD32 == q && x % WORD32 == r
  {
  }

  lemma StepSound(o: Object, place: seq<int>, t: Token, symbolic: seq<Value>, concrete: seq<nat>,
                  codeBase: int, ramBase: int)
    requires Placed(o, place, codeBase, ramBase) && StandsFor(symbolic, concrete, codeBase, ramBase)
    requires Step(o, t, symbolic).Ok?
    ensures LinkStep(o, place, t, concrete).Ok?
    ensures StandsFor(Step(o, t, symbolic).value, LinkStep(o, place, t, concrete).value, codeBase, ramBase)
  {
    var n := |symbolic|;
    if t.Add? || t.Sub? {
      CombineSound(symbolic[n - 2], symbolic[n - 1], t.Add?, codeBase, ramBase);
    }
  }

  lemma {:induction false} RunSound(o: Object, place: seq<int>, e: seq<byte>, at: nat,
                                    symbolic: seq<Value>, concrete: seq<nat>, codeBase: int, ramBase: int)
    requires at <= |e|
    requires Placed(o, place, codeBase, ramBase) && StandsFor(symbolic, concrete, codeBase, ramBase)
    requires Run(o, e, at, symbolic).Ok?
    ensures LinkRun(o, place, e, at, concrete).Ok?
    ensures StandsFor(Run(o, e, at, symbolic).value, LinkRun(o, place, e, at, concrete).value, codeBase, ramBase)
    decreases |e| - at
  {
    if at < |e| {
      var (t, next) := ReadToken(e, at).value;
      StepSound(o, place, t, symbolic, concrete, codeBase, ramBase);
      RunSound(o, place, e, next, Step(o, t, symbolic).value, LinkStep(o, place, t, concrete).value,
               codeBase, ramBase);
    }
  }

  /** Symbolic evaluation is sound for every accepted expression and every placement. */
  lemma MeaningSound(o: Object, place: seq<int>, e: seq<byte>, codeBase: int, ramBase: int)
    requires Placed(o, place, codeBase, ramBase)
    requires Meaning(o, e).Ok?
    ensures LinkedValue(o, place, e) == Ok(Materialize(Meaning(o, e).value, codeBase, ramBase))
  {
    RunSound(o, place, e, 0, [], [], codeBase, ramBase);
  }
}
