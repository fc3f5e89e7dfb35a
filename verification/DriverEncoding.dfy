/**
 Patch expressions as bytes. The encoding of rgbds(5) is written out here once, from tokens to bytes and without the
 decoder, and both readings of an expression are shown to be folds over the tokens it encodes.
 */
module DriverEncoding {
  import opened Common
  import opened DriverObject

  // ---------------------------------------------------------------- from tokens to bytes

  /** Four bytes, least significant first. */
  function FourBytes(n: nat): (b: seq<byte>)
    requires n < 0x1_0000_0000
    ensures |b| == 4
  {
    [n % 256, n / 0x100 % 256, n / 0x1_0000 % 256, n / 0x100_0000]
  }

  /** The operands a token can carry. */
  predicate Encodable(t: Token) {
    && (t.Int? ==> -0x8000_0000 <= t.value < 0x8000_0000)
    && (t.Sym? ==> t.id < 0x1_0000_0000)
  }

  function Encode(t: Token): (b: seq<byte>)
    requires Encodable(t)
    ensures b != []
  {
    match t
    case Add => [0x00]
    case Sub => [0x01]
    case Narrow(High) => [0x70]
    case Narrow(Low) => [0x71]
    case Int(v) => [0x80] + FourBytes(if v < 0 then v + 0x1_0000_0000 else v)
    case Sym(id) => [0x81] + FourBytes(id)
  }

  predicate AllEncodable(ts: seq<Token>) {
    forall i :: 0 <= i < |ts| ==> Encodable(ts[i])
  }

  function EncodeAll(ts: seq<Token>): seq<byte>
    requires AllEncodable(ts)
  {
    if ts == [] then [] else Encode(ts[0]) + EncodeAll(ts[1..])
  }

  // ---------------------------------------------------------------- both readings, over tokens

  function Fold(o: Object, ts: seq<Token>, stack: seq<Value>): Result<seq<Value>> {
    if ts == [] then Ok(stack)
    else
      var pushed :- Step(o, ts[0], stack);
      Fold(o, ts[1..], pushed)
  }

  function LinkFold(o: Object, place: seq<int>, ts: seq<Token>, stack: seq<nat>): Result<seq<nat>> {
    if ts == [] then Ok(stack)
    else
      var pushed :- LinkStep(o, place, ts[0], stack);
      LinkFold(o, place, ts[1..], pushed)
  }

  // ---------------------------------------------------------------- the decoder undoes the encoder

  lemma FourBytesRead(n: nat, e: seq<byte>, at: nat)
    requires n < 0x1_0000_0000 && at + 4 <= |e| && e[at..at + 4] == FourBytes(n)
    ensures U32(e, at) == n
  {
    var b, f := FourBytes(n), e[at..at + 4];
    assert f[0] == e[at] && f[1] == e[at + 1] && f[2] == e[at + 2] && f[3] == e[at + 3];
    Undigits(n);
  }

  lemma Undigits(n: nat)
    requires n < 0x1_0000_0000
    ensures n % 256 + 0x100 * (n / 0x100 % 256) + 0x1_0000 * (n / 0x1_0000 % 256) + 0x100_0000 * (n / 0x100_0000) == n
  {
    assert n / 0x1_0000 == n / 0x100 / 0x100;
    assert n / 0x100_0000 == n / 0x1_0000 / 0x100;
  }

  lemma FourBytesWritten(e: seq<byte>, at: nat)
    requires at + 4 <= |e|
    ensures e[at..at + 4] == FourBytes(U32(e, at))
  {
    Digits(e[at] as nat, e[at + 1] as nat, e[at + 2] as nat, e[at + 3] as nat);
  }

  lemma Digits(a: nat, b: nat, c: nat, d: nat)
    requires a < 256 && b < 256 && c < 256 && d < 256
    ensures var n := a + 0x100 * b + 0x1_0000 * c + 0x100_0000 * d;
            n % 256 == a && n / 0x100 % 256 == b && n / 0x1_0000 % 256 == c && n / 0x100_0000 == d
  {
    var n := a + 0x100 * b + 0x1_0000 * c + 0x100_0000 * d;
    Quotient(n, 0x100, b + 0x100 * c + 0x1_0000 * d, a);
    Quotient(b + 0x100 * c + 0x1_0000 * d, 0x100, c + 0x100 * d, b);
    Quotient(n, 0x1_0000, c + 0x100 * d, a + 0x100 * b);
    Quotient(c + 0x100 * d, 0x100, d, c);
    Quotient(n, 0x100_0000, d, a + 0x100 * b + 0x1_0000 * c);
  }

  /** Division with remainder is unique. */
  lemma Quotient(n: nat, m: nat, q: nat, r: nat)
    requires r < m && n == m * q + r
    ensures n / m == q && n % m == r
  {
    var e := n / m - q;
    assert m * e == r - n % m;
    if e > 0 {
      Scales(m, e);
    } else if e < 0 {
      Scales(m, -e);
    }
  }

  lemma Scales(m: nat, e: int)
    requires e >= 1
    ensures m * e >= m && m * -e + m <= 0
  {
  }

  /** Where an encoded token stands, the decoder reads that token and goes past it. */
  lemma ReadsEncoded(e: seq<byte>, at: nat, t: Token)
    requires Encodable(t) && at + |Encode(t)| <= |e| && e[at..at + |Encode(t)|] == Encode(t)
    ensures ReadToken(e, at) == Ok((t, at + |Encode(t)|))
  {
    var b := Encode(t);
    assert e[at..at + |b|][0] == e[at];
    if t.Int? || t.Sym? {
      assert e[at + 1..at + 5] == b[1..5] == b[1..];
      FourBytesRead(if t.Sym? then t.id else if t.value < 0 then t.value + 0x1_0000_0000 else t.value, e, at + 1);
    }
  }

  /** Whatever the decoder reads is an encoded token. */
  lemma ReadIsEncoded(e: seq<byte>, at: nat)
    requires at < |e| && ReadToken(e, at).Ok?
    ensures var (t, next) := ReadToken(e, at).value; Encodable(t) && e[at..next] == Encode(t)
  {
    var (t, next) := ReadToken(e, at).value;
    if next == at + 5 {
      FourBytesWritten(e, at + 1);
      assert e[at..next] == [e[at]] + e[at + 1..at + 5];
    } else {
      assert e[at..next] == [e[at]];
    }
  }

  lemma EncodeSplits(e: seq<byte>, at: nat, ts: seq<Token>)
    requires AllEncodable(ts) && ts != [] && at <= |e| && e[at..] == EncodeAll(ts)
    ensures at + |Encode(ts[0])| <= |e| && e[at..at + |Encode(ts[0])|] == Encode(ts[0])
    ensures e[at + |Encode(ts[0])|..] == EncodeAll(ts[1..])
  {
    var first, rest := Encode(ts[0]), EncodeAll(ts[1..]);
    assert e[at..] == first + rest;
    assert e[at..][..|first|] == first && e[at..][|first|..] == rest;
  }

  /** The decoder reads the first of the tokens and stands before the rest. */
  lemma FirstToken(e: seq<byte>, at: nat, ts: seq<Token>) returns (next: nat)
    requires AllEncodable(ts) && ts != [] && at <= |e| && e[at..] == EncodeAll(ts)
    ensures at < next <= |e| && ReadToken(e, at) == Ok((ts[0], next))
    ensures AllEncodable(ts[1..]) && e[next..] == EncodeAll(ts[1..])
  {
    EncodeSplits(e, at, ts);
    ReadsEncoded(e, at, ts[0]);
    next := at + |Encode(ts[0])|;
  }

  lemma {:induction false} RunIsFold(o: Object, e: seq<byte>, at: nat, ts: seq<Token>, stack: seq<Value>)
    requires AllEncodable(ts) && at <= |e| && e[at..] == EncodeAll(ts)
    ensures Run(o, e, at, stack) == Fold(o, ts, stack)
    decreases |ts|
  {
    if ts == [] {
      assert at == |e|;
    } else {
      var next := FirstToken(e, at, ts);
      var pushed := Step(o, ts[0], stack);
      if pushed.Ok? {
        RunIsFold(o, e, next, ts[1..], pushed.value);
      }
    }
  }

  lemma {:induction false} LinkRunIsFold(o: Object, place: seq<int>, e: seq<byte>, at: nat, ts: seq<Token>,
                                        stack: seq<nat>)
    requires AllEncodable(ts) && at <= |e| && e[at..] == EncodeAll(ts)
    ensures LinkRun(o, place, e, at, stack) == LinkFold(o, place, ts, stack)
    decreases |ts|
  {
    if ts == [] {
      assert at == |e|;
    } else {
      var next := FirstToken(e, at, ts);
      var pushed := LinkStep(o, place, ts[0], stack);
      if pushed.Ok? {
        LinkRunIsFold(o, place, e, next, ts[1..], pushed.value);
      }
    }
  }

  /** Both readings in terms of the tokens: for every token list, reading its encoding folds it. */
  lemma ReadingsFold(o: Object, place: seq<int>, ts: seq<Token>)
    requires AllEncodable(ts)
    ensures Run(o, EncodeAll(ts), 0, []) == Fold(o, ts, [])
    ensures LinkRun(o, place, EncodeAll(ts), 0, []) == LinkFold(o, place, ts, [])
  {
    var e := EncodeAll(ts);
    assert e[0..] == e;
    RunIsFold(o, e, 0, ts, []);
    LinkRunIsFold(o, place, e, 0, ts, []);
  }

  // ---------------------------------------------------------------- what is no encoding is rejected

  lemma EncodePrepends(e: seq<byte>, at: nat, next: nat, t: Token, rest: seq<Token>)
    requires at <= next <= |e| && Encodable(t) && AllEncodable(rest)
    requires e[at..next] == Encode(t) && e[next..] == EncodeAll(rest)
    ensures AllEncodable([t] + rest) && e[at..] == EncodeAll([t] + rest)
  {
    assert ([t] + rest)[1..] == rest;
    assert e[at..] == e[at..next] + e[next..];
  }

  lemma {:induction false} AcceptedIsEncoded(o: Object, e: seq<byte>, at: nat, stack: seq<Value>)
    returns (ts: seq<Token>)
    requires at <= |e| && Run(o, e, at, stack).Ok?
    ensures AllEncodable(ts) && e[at..] == EncodeAll(ts)
    decreases |e| - at
  {
    ts := [];
    if at < |e| {
      var (t, next) := ReadToken(e, at).value;
      ReadIsEncoded(e, at);
      var rest := AcceptedIsEncoded(o, e, next, Step(o, t, stack).value);
      EncodePrepends(e, at, next, t, rest);
      ts := [t] + rest;
    }
  }

  lemma {:induction false} LinkedIsEncoded(o: Object, place: seq<int>, e: seq<byte>, at: nat, stack: seq<nat>)
    returns (ts: seq<Token>)
    requires at <= |e| && LinkRun(o, place, e, at, stack).Ok?
    ensures AllEncodable(ts) && e[at..] == EncodeAll(ts)
    decreases |e| - at
  {
    ts := [];
    if at < |e| {
      var (t, next) := ReadToken(e, at).value;
      ReadIsEncoded(e, at);
      var rest := LinkedIsEncoded(o, place, e, next, LinkStep(o, place, t, stack).value);
      EncodePrepends(e, at, next, t, rest);
      ts := [t] + rest;
    }
  }

  /** The bytes encode these tokens. */
  ghost predicate Spells(e: seq<byte>, ts: seq<Token>) {
    AllEncodable(ts) && e == EncodeAll(ts)
  }

  /** An expression means a value exactly when its bytes spell tokens that fold to that one value. */
  lemma MeaningIff(o: Object, e: seq<byte>, v: Value)
    ensures Meaning(o, e) == Ok(v) <==> exists ts :: Spells(e, ts) && Fold(o, ts, []) == Ok([v])
  {
    assert e[0..] == e;
    if Meaning(o, e) == Ok(v) {
      var ts := AcceptedIsEncoded(o, e, 0, []);
      RunIsFold(o, e, 0, ts, []);
      var stack := Run(o, e, 0, []).value;
      assert Spells(e, ts) && stack == [v];
    }
    forall ts | Spells(e, ts) && Fold(o, ts, []) == Ok([v])
      ensures Meaning(o, e) == Ok(v)
    {
      RunIsFold(o, e, 0, ts, []);
    }
  }

  /** The reference linker likewise. */
  lemma LinkedValueIff(o: Object, place: seq<int>, e: seq<byte>, raw: nat)
    ensures LinkedValue(o, place, e) == Ok(raw)
            <==> exists ts :: Spells(e, ts) && LinkFold(o, place, ts, []) == Ok([raw])
  {
    assert e[0..] == e;
    if LinkedValue(o, place, e) == Ok(raw) {
      var ts := LinkedIsEncoded(o, place, e, 0, []);
      LinkRunIsFold(o, place, e, 0, ts, []);
      var stack := LinkRun(o, place, e, 0, []).value;
      assert Spells(e, ts) && stack == [raw];
    }
    forall ts | Spells(e, ts) && LinkFold(o, place, ts, []) == Ok([raw])
      ensures LinkedValue(o, place, e) == Ok(raw)
    {
      LinkRunIsFold(o, place, e, 0, ts, []);
    }
  }

  // ---------------------------------------------------------------- the operators

  /** The linker's operators on numbers: sum, difference, bits 8 to 15, bits 0 to 7. */
  lemma OperatorsMean(o: Object, place: seq<int>, stack: seq<nat>, a: nat, b: nat)
    requires a < 0x1_0000_0000 && b < 0x1_0000_0000
    ensures LinkStep(o, place, Add, stack + [a, b])
            == Ok(stack + [if a + b < 0x1_0000_0000 then a + b else a + b - 0x1_0000_0000])
    ensures LinkStep(o, place, Sub, stack + [a, b]) == Ok(stack + [if a >= b then a - b else a + 0x1_0000_0000 - b])
  {
    assert (stack + [a, b])[..|stack|] == stack;
  }

  lemma SelectorsMean(o: Object, place: seq<int>, stack: seq<nat>, low: byte, high: byte, rest: nat)
    ensures var raw := low as nat + 0x100 * high as nat + 0x1_0000 * rest;
            && LinkStep(o, place, Narrow(Low), stack + [raw]) == Ok(stack + [low])
            && LinkStep(o, place, Narrow(High), stack + [raw]) == Ok(stack + [high])
  {
    var raw := low as nat + 0x100 * high as nat + 0x1_0000 * rest;
    assert (stack + [raw])[..|stack|] == stack;
    BytesOf(low as nat, high as nat, rest);
  }

  lemma BytesOf(low: nat, high: nat, rest: nat)
    requires low < 256 && high < 256
    ensures var raw := low + 0x100 * high + 0x1_0000 * rest; raw % 256 == low && raw / 256 % 256 == high
  {
    var raw := low + 0x100 * high + 0x1_0000 * rest;
    assert raw == 256 * (high + 256 * rest) + low;
  }

  // ---------------------------------------------------------------- which combinations have a meaning

  /** How often the base of `d` is contained in a value. */
  function BaseCount(v: Value, d: Domain): int {
    if v.domain == Some(d) then 1 else 0
  }

  /** A whole number or an address: no base, or one base once. */
  predicate SingleBase(code: int, ram: int) {
    (code == 0 && ram == 0) || (code == 1 && ram == 0) || (code == 0 && ram == 1)
  }

  lemma DomainCases(v: Value)
    ensures v.domain == None || v.domain == Some(Code) || v.domain == Some(Ram)
  {
    if v.domain.Some? {
      match v.domain.value
      case Code =>
      case Ram =>
    }
  }

  /**
   Two values combine exactly when neither is narrowed and their sum or difference is a number or an address: at
   most one base, and that once; the result then counts its bases as the operands do, and is not narrowed.
   */
  lemma CombineAcceptsIff(left: Value, right: Value, add: bool)
    ensures var sign := if add then 1 else -1;
            var code := BaseCount(left, Code) + sign * BaseCount(right, Code);
            var ram := BaseCount(left, Ram) + sign * BaseCount(right, Ram);
            && (Combine(left, right, add).Ok? <==> left.select.None? && right.select.None? && SingleBase(code, ram))
            && (Combine(left, right, add).Ok? ==>
                  var v := Combine(left, right, add).value;
                  && v.select.None? && BaseCount(v, Code) == code && BaseCount(v, Ram) == ram
                  && v.offset == left.offset + sign * right.offset)
  {
    DomainCases(left);
    DomainCases(right);
  }

  // ---------------------------------------------------------------- which tokens have a meaning

  /** Section `k`, by its number from the start or, as Python counts negative numbers, from the end. */
  predicate InSection(o: Object, symbol: Symbol, k: nat) {
    symbol.section.Some? && k < |o.sections|
    && (symbol.section.value == k || symbol.section.value == k - |o.sections|)
  }

  /** A symbol means its value, counted from the base of the driver or of the variables; any other section raises. */
  lemma SymbolMeans(o: Object, id: nat, v: Value)
    ensures SymbolValue(o, id) == Ok(v)
            <==> && id < |o.symbols| && v.select.None? && v.offset == o.symbols[id].value
                 && exists k: nat :: InSection(o, o.symbols[id], k)
                      && (|| (v.domain == Some(Code) && o.sections[k].name == "Sound Driver" && o.sections[k].kind == 3)
                          || (v.domain == Some(Ram) && o.sections[k].name == "Playback variables"
                              && o.sections[k].kind == 0))
  {
    DomainCases(v);
    if id < |o.symbols| && o.symbols[id].section.Some? {
      var at := ListIndex(|o.sections|, o.symbols[id].section.value);
      forall k: nat
        ensures InSection(o, o.symbols[id], k) <==> at == Some(k)
      {
      }
      if at.Some? {
        assert InSection(o, o.symbols[id], at.value);
      }
    }
  }

  /** What each token needs of the stack, top last, and what it leaves. */
  lemma StepAcceptsIff(o: Object, t: Token, stack: seq<Value>, after: seq<Value>)
    ensures Step(o, t, stack) == Ok(after)
            <==> match t
                 case Int(n) => after == stack + [Value(None, n, None)]
                 case Sym(id) => |after| == |stack| + 1 && after[..|stack|] == stack
                                 && SymbolValue(o, id) == Ok(after[|stack|])
                 case Narrow(s) =>
                   && |stack| >= 1 && |after| == |stack| && after[..|stack| - 1] == stack[..|stack| - 1]
                   && var v := stack[|stack| - 1];
                   && v.select == None && after[|stack| - 1] == Value(v.domain, v.offset, Some(s))
                 case Add => Combines(stack, after, true)
                 case Sub => Combines(stack, after, false)
  {
    match t
    case Int(n) =>
    case Sym(id) =>
      if |after| == |stack| + 1 && after[..|stack|] == stack {
        assert after == stack + [after[|stack|]];
      }
    case Narrow(s) =>
      if |stack| >= 1 && |after| == |stack| && after[..|stack| - 1] == stack[..|stack| - 1] {
        assert after == stack[..|stack| - 1] + [after[|stack| - 1]];
      }
    case Add => CombinesIff(o, t, stack, after);
    case Sub => CombinesIff(o, t, stack, after);
  }

  lemma CombinesIff(o: Object, t: Token, stack: seq<Value>, after: seq<Value>)
    requires t.Add? || t.Sub?
    ensures Step(o, t, stack) == Ok(after) <==> Combines(stack, after, t.Add?)
  {
    if |stack| >= 2 && |after| == |stack| - 1 && after[..|stack| - 2] == stack[..|stack| - 2] {
      assert after == stack[..|stack| - 2] + [after[|stack| - 2]];
    }
  }

  /** The two values on top, the lower one first, are replaced by their combination. */
  predicate Combines(stack: seq<Value>, after: seq<Value>, add: bool) {
    && |stack| >= 2 && |after| == |stack| - 1 && after[..|stack| - 2] == stack[..|stack| - 2]
    && Combine(stack[|stack| - 2], stack[|stack| - 1], add) == Ok(after[|stack| - 2])
  }
}
