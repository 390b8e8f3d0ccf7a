/**
 The hand-written protobuf framing and wire scanner of
 scripts/check-proto-roundtrip.py. Bytes are read from the front of a
 sequence; Python integers are unbounded.
 */
module ProtoWire {
  import opened Common

  type byte = x: int | 0 <= x < 256

  datatype Error =
    | TruncatedFrame | TruncatedPayload | TruncatedKey | TruncatedVarint | TruncatedFixed64
    | TruncatedLength | TruncatedDelimited | TruncatedFixed32 | UnsupportedWireType

  // ---------------------------------------------------------------- bit arithmetic

  function Pow2(k: nat): (r: nat)
    ensures r > 0
  {
    if k == 0 then 1 else 2 * Pow2(k - 1)
  }

  function ShiftLeft(n: nat, k: nat): nat {
    n * Pow2(k)
  }

  function BitOr(a: nat, b: nat): nat
    decreases a + b
  {
    if a == 0 && b == 0 then 0
    else (if a % 2 == 1 || b % 2 == 1 then 1 else 0) + 2 * BitOr(a / 2, b / 2)
  }

  /** `v | 1`. */
  function WithLowBit(v: nat): nat {
    if v % 2 == 1 then v else v + 1
  }

  lemma {:induction false} OrZero(b: nat)
    ensures BitOr(0, b) == b
  {
    if b > 0 { OrZero(b / 2); }
  }

  lemma OrOne(b: nat)
    ensures BitOr(1, b) == WithLowBit(b)
  {
    OrZero(b / 2);
  }

  /** Low bits that only the first operand has are kept apart from the rest. */
  lemma {:induction false} OrShifted(low: nat, a: nat, b: nat, k: nat)
    requires low < Pow2(k)
    ensures BitOr(low + a * Pow2(k), b * Pow2(k)) == low + BitOr(a, b) * Pow2(k)
    decreases k
  {
    if k > 0 {
      var p, or := Pow2(k - 1), BitOr(a, b);
      HalfOf(low, a, p);
      HalfOf(0, b, p);
      HalfOf(low, or, p);
      Halves(low + a * Pow2(k), b * Pow2(k));
      OrShifted(low / 2, a, b, k - 1);
    }
  }

  lemma Halves(x: nat, y: nat)
    ensures BitOr(x, y) == (if x % 2 == 1 || y % 2 == 1 then 1 else 0) + 2 * BitOr(x / 2, y / 2)
  {
  }

  lemma HalfOf(low: nat, a: nat, p: nat)
    ensures (low + a * (2 * p)) / 2 == low / 2 + a * p && (low + a * (2 * p)) % 2 == low % 2
  {
    assert a * (2 * p) == 2 * (a * p);
  }

  lemma OrAbove(low: nat, b: nat, k: nat)
    requires low < Pow2(k)
    ensures BitOr(low, b * Pow2(k)) == low + b * Pow2(k)
  {
    OrShifted(low, 0, b, k);
    OrZero(b);
  }

  lemma {:induction false} Pow2Add(a: nat, b: nat)
    ensures Pow2(a + b) == Pow2(a) * Pow2(b)
    decreases b
  {
    if b > 0 {
      Pow2Add(a, b - 1);
      assert Pow2(a) * (2 * Pow2(b - 1)) == 2 * (Pow2(a) * Pow2(b - 1));
    }
  }

  // ----------------------------------------------------------------------- varints

  /** The minimal varint of a number (Protocol Buffers Encoding, "Base 128 Varints"). */
  function Varint(n: nat): seq<byte> {
    if n < 128 then [n] else [n % 128 + 128] + Varint(n / 128)
  }

  /** The varint at the front of `data` and the bytes after it. */
  function VarintAt(data: seq<byte>): (r: Option<(nat, seq<byte>)>)
    ensures r.Some? ==> |r.value.1| < |data|
  {
    if data == [] then None
    else if data[0] < 128 then Some((data[0], data[1..]))
    else
      match VarintAt(data[1..])
      case None => None
      case Some((n, rest)) => Some((data[0] - 128 + 128 * n, rest))
  }

  lemma {:induction false} VarintRoundTrip(n: nat, rest: seq<byte>)
    ensures VarintAt(Varint(n) + rest) == Some((n, rest))
  {
    var data := Varint(n) + rest;
    if n < 128 {
      assert data[1..] == rest;
    } else {
      VarintRoundTrip(n / 128, rest);
      assert data[1..] == Varint(n / 128) + rest;
    }
  }

  method EncodeVarint(n: nat) returns (encoded: seq<byte>)
    ensures encoded == Varint(n)
  {
    encoded := [];
    var value := n;
    while value > 0x7f
      invariant encoded + Varint(value) == Varint(n)
    {
      ghost var before := encoded;
      encoded := encoded + [value % 128 + 128];
      assert Varint(value) == [value % 128 + 128] + Varint(value / 128);
      assert encoded + Varint(value / 128) == before + Varint(value);
      value := value / 128;
    }
    encoded := encoded + [value];
  }

  /** What follows a low part of `k` bits that has been read already. */
  function Above(low: nat, k: nat, rest: Option<(nat, seq<byte>)>): Option<(nat, seq<byte>)> {
    match rest
    case None => None
    case Some((n, tail)) => Some((low + n * Pow2(k), tail))
  }

  lemma AboveZero(rest: Option<(nat, seq<byte>)>)
    ensures Above(0, 0, rest) == rest
  {
  }

  /** One more group of seven bits. */
  lemma AboveNext(low: nat, k: nat, b: byte, tail: seq<byte>) returns (next: nat)
    requires low < Pow2(k)
    ensures BitOr(low, ShiftLeft(b % 128, k)) == next < Pow2(k + 7)
    ensures b < 128 ==> Above(low, k, VarintAt([b] + tail)) == Some((next, tail))
    ensures b >= 128 ==> Above(low, k, VarintAt([b] + tail)) == Above(next, k + 7, VarintAt(tail))
  {
    next := low + b % 128 * Pow2(k);
    OrAbove(low, b % 128, k);
    SevenMore(low, k, b % 128);
    if b < 128 { AboveLast(low, k, b, tail); } else { AboveMore(low, k, b, tail); }
  }

  lemma AboveLast(low: nat, k: nat, b: byte, tail: seq<byte>)
    requires b < 128
    ensures Above(low, k, VarintAt([b] + tail)) == Some((low + b % 128 * Pow2(k), tail))
  {
    VarintOfOneMore(b, tail);
  }

  lemma AboveMore(low: nat, k: nat, b: byte, tail: seq<byte>)
    requires b >= 128
    ensures Above(low, k, VarintAt([b] + tail)) == Above(low + b % 128 * Pow2(k), k + 7, VarintAt(tail))
  {
    VarintOfOneMore(b, tail);
    if VarintAt(tail).Some? { GroupAbove(low, k, b % 128, VarintAt(tail).value.0); }
  }

  lemma VarintOfOneMore(b: byte, tail: seq<byte>)
    ensures
      VarintAt([b] + tail) ==
      if b < 128 then Some((b as int, tail))
      else match VarintAt(tail)
           case None => None
           case Some((n, rest)) => Some((b % 128 + 128 * n, rest))
  {
    assert ([b] + tail)[1..] == tail;
  }

  lemma SevenMore(low: nat, k: nat, g: nat)
    requires low < Pow2(k) && g < 128
    ensures low + g * Pow2(k) < Pow2(k + 7)
  {
    Pow2Add(7, k);
    assert Pow2(7) == 128;
    assert g * Pow2(k) <= 127 * Pow2(k);
  }

  lemma GroupAbove(low: nat, k: nat, g: nat, n: nat)
    ensures low + (g + 128 * n) * Pow2(k) == low + g * Pow2(k) + n * Pow2(k + 7)
  {
    Pow2Add(7, k);
    assert Pow2(7) == 128;
    assert (g + 128 * n) * Pow2(k) == g * Pow2(k) + n * (128 * Pow2(k));
  }

  /** The inline loop that reads a length, seven bits at a time. */
  method ReadVarint(data: seq<byte>, start: nat) returns (result: Option<nat>, pos: nat)
    requires start <= |data|
    ensures start <= pos <= |data|
    ensures VarintAt(data[start..]) == if result.Some? then Some((result.value, data[pos..])) else None
  {
    var length: nat, shift: nat := 0, 0;
    pos := start;
    AboveZero(VarintAt(data[start..]));
    while true
      invariant start <= pos <= |data| && length < Pow2(shift)
      invariant VarintAt(data[start..]) == Above(length, shift, VarintAt(data[pos..]))
      decreases |data| - pos
    {
      if pos == |data| { return None, pos; }
      var b := data[pos];
      assert data[pos..] == [b] + data[pos + 1..];
      ghost var next := AboveNext(length, shift, b, data[pos + 1..]);
      length := BitOr(length, ShiftLeft(b % 128, shift));
      pos := pos + 1;
      if b < 0x80 { return Some(length), pos; }
      shift := shift + 7;
    }
  }

  // ------------------------------------------------------------------------ frames

  function Frame(payload: seq<byte>): seq<byte> {
    Varint(|payload|) + payload
  }

  function FrameAt(data: seq<byte>): Result<(seq<byte>, seq<byte>), Error> {
    match VarintAt(data)
    case None => Err(TruncatedFrame)
    case Some((n, rest)) => if |rest| < n then Err(TruncatedPayload) else Ok((rest[..n], rest[n..]))
  }

  method ReadFrame(data: seq<byte>, start: nat) returns (result: Result<seq<byte>, Error>, pos: nat)
    requires start <= |data|
    ensures start <= pos <= |data|
    ensures FrameAt(data[start..]) == if result.Ok? then Ok((result.value, data[pos..])) else Err(result.error)
  {
    var length;
    length, pos := ReadVarint(data, start);
    if length.None? { return Err(TruncatedFrame), pos; }
    var rest := data[pos..];
    if |rest| < length.value { return Err(TruncatedPayload), |data|; }
    assert rest[length.value..] == data[pos + length.value..];
    return Ok(rest[..length.value]), pos + length.value;
  }

  /** Reading undoes framing, whatever follows the frame. */
  lemma FrameRoundTrip(payload: seq<byte>, trailing: seq<byte>)
    ensures FrameAt(Frame(payload) + trailing) == Ok((payload, trailing))
  {
    var rest := payload + trailing;
    assert Frame(payload) + trailing == Varint(|payload|) + rest;
    VarintRoundTrip(|payload|, rest);
    assert rest[..|payload|] == payload && rest[|payload|..] == trailing;
  }

  // ----------------------------------------------------------------------- scanner

  datatype Key = Key(field: nat, wireType: nat)

  /** The key at the front of `data` as the scanner sees it: for a tag of several bytes the continuation bit of
      the first byte stays in the field number, where it is bit 4. */
  function KeyAt(data: seq<byte>): (r: Option<(Key, seq<byte>)>)
    ensures r.Some? ==> |r.value.1| < |data|
  {
    if data == [] then None
    else if data[0] < 128 then Some((Key(data[0] / 8, data[0] % 8), data[1..]))
    else
      match VarintAt(data[1..])
      case None => None
      case Some((n, rest)) => Some((Key((data[0] - 128) / 8 + 16 * WithLowBit(n), data[0] % 8), rest))
  }

  /** The field number after some continuation bytes: `first` is the key byte, `low` the `k` bits read since. */
  function Seen(first: byte, low: nat, k: nat): nat
    requires first >= 128
  {
    if k == 0 then first / 8 else (first - 128) / 8 + 16 * WithLowBit(low)
  }

  lemma {:induction false} SeenBound(first: byte, low: nat, k: nat)
    requires first >= 128 && k > 0 && low < Pow2(k)
    ensures Seen(first, low, k) < Pow2(k + 4)
  {
    Pow2Add(k, 4);
    assert Pow2(4) == 16;
    assert WithLowBit(low) < Pow2(k);
  }

  lemma {:induction false} SeenFirst(first: byte, g: nat)
    requires first >= 128 && g < 128
    ensures BitOr(Seen(first, 0, 0), g * Pow2(4)) == Seen(first, g, 7)
  {
    assert Pow2(4) == 16;
    OrShifted((first - 128) / 8, 1, g, 4);
    OrOne(g);
  }

  lemma {:induction false} SeenLater(first: byte, low: nat, k: nat, g: nat)
    requires first >= 128 && k > 0 && low < Pow2(k) && g < 128
    ensures BitOr(Seen(first, low, k), g * Pow2(k + 4)) == Seen(first, low + g * Pow2(k), k + 7)
  {
    SeenBound(first, low, k);
    OrAbove(Seen(first, low, k), g, k + 4);
    LowBitAbove(low, g, Pow2(k - 1));
    SixteenTimes(WithLowBit(low), g, k);
  }

  lemma SixteenTimes(w: nat, g: nat, k: nat)
    ensures 16 * (w + g * Pow2(k)) == 16 * w + g * Pow2(k + 4)
  {
    Pow2Add(k, 4);
    assert Pow2(4) == 16;
  }

  /** Adding the next group with a bitwise or. */
  lemma {:induction false} SeenNext(first: byte, low: nat, k: nat, g: nat)
    requires first >= 128 && low < Pow2(k) && g < 128
    ensures BitOr(Seen(first, low, k), g * Pow2(k + 4)) == Seen(first, low + g * Pow2(k), k + 7)
  {
    if k == 0 { SeenFirst(first, g); } else { SeenLater(first, low, k, g); }
  }

  lemma KeyNext(first: byte, low: nat, k: nat, b: byte, tail: seq<byte>) returns (next: nat)
    requires first >= 128 && low < Pow2(k)
    ensures next < Pow2(k + 7) && BitOr(Seen(first, low, k), ShiftLeft(b % 128, k + 4)) == Seen(first, next, k + 7)
    ensures b < 128 ==> Above(low, k, VarintAt([b] + tail)) == Some((next, tail))
    ensures b >= 128 ==> Above(low, k, VarintAt([b] + tail)) == Above(next, k + 7, VarintAt(tail))
  {
    next := AboveNext(low, k, b, tail);
    OrAbove(low, b % 128, k);
    SeenNext(first, low, k, b % 128);
  }

  lemma LowBitAbove(low: nat, g: nat, p: nat)
    ensures WithLowBit(low + g * (2 * p)) == WithLowBit(low) + g * (2 * p)
  {
    HalfOf(low, g, p);
  }

  /** The loop over the continuation bytes of a key; the shift starts at 4. */
  method ReadContinuation(first: byte, data: seq<byte>, start: nat) returns (result: Option<nat>, pos: nat)
    requires first >= 128 && start <= |data|
    ensures start <= pos <= |data|
    ensures
      match VarintAt(data[start..])
      case None => result.None?
      case Some((n, rest)) => result == Some((first - 128) / 8 + 16 * WithLowBit(n)) && rest == data[pos..]
  {
    var field: nat, shift: nat := first / 8, 4;
    ghost var low: nat, k: nat := 0, 0;
    pos := start;
    AboveZero(VarintAt(data[start..]));
    while true
      invariant start <= pos <= |data| && shift == k + 4 && low < Pow2(k) && field == Seen(first, low, k)
      invariant VarintAt(data[start..]) == Above(low, k, VarintAt(data[pos..]))
      decreases |data| - pos
    {
      if pos == |data| { return None, pos; }
      var key := data[pos];
      assert data[pos..] == [key] + data[pos + 1..];
      ghost var next := KeyNext(first, low, k, key, data[pos + 1..]);
      field := BitOr(field, ShiftLeft(key % 128, shift));
      low, k := next, k + 7;
      pos := pos + 1;
      if key < 0x80 {
        assert VarintAt(data[start..]) == Some((low, data[pos..]));
        return Some(field), pos;
      }
      shift := shift + 7;
    }
  }

  method ReadKey(data: seq<byte>, start: nat) returns (result: Option<Key>, pos: nat)
    requires start < |data|
    ensures start < pos <= |data|
    ensures KeyAt(data[start..]) == if result.Some? then Some((result.value, data[pos..])) else None
  {
    var first := data[start];
    pos := start + 1;
    assert data[start..][1..] == data[pos..];
    if first < 0x80 { return Some(Key(first / 8, first % 8)), pos; }
    var field;
    field, pos := ReadContinuation(first, data, pos);
    result := if field.Some? then Some(Key(field.value, first % 8)) else None;
  }

  /** Skips a value of the given wire type. */
  function SkipAt(wireType: nat, data: seq<byte>): (r: Result<seq<byte>, Error>)
    ensures r.Ok? ==> |r.value| <= |data|
  {
    if wireType == 0 then
      match VarintAt(data)
      case None => Err(TruncatedVarint)
      case Some((_, rest)) => Ok(rest)
    else if wireType == 1 then if |data| < 8 then Err(TruncatedFixed64) else Ok(data[8..])
    else if wireType == 2 then
      match VarintAt(data)
      case None => Err(TruncatedLength)
      case Some((n, rest)) => if |rest| < n then Err(TruncatedDelimited) else Ok(rest[n..])
    else if wireType == 5 then if |data| < 4 then Err(TruncatedFixed32) else Ok(data[4..])
    else Err(UnsupportedWireType)
  }

  /** Skips bytes with the continuation bit and the one after them. */
  method SkipVarint(data: seq<byte>, start: nat) returns (ok: bool, pos: nat)
    requires start <= |data|
    ensures start <= pos <= |data|
    ensures ok <==> VarintAt(data[start..]).Some?
    ensures ok ==> VarintAt(data[start..]).value.1 == data[pos..]
  {
    pos := start;
    while true
      invariant start <= pos <= |data|
      invariant VarintAt(data[start..]).Some? <==> VarintAt(data[pos..]).Some?
      invariant VarintAt(data[start..]).Some? ==> VarintAt(data[start..]).value.1 == VarintAt(data[pos..]).value.1
      decreases |data| - pos
    {
      if pos == |data| { return false, pos; }
      assert data[pos..][1..] == data[pos + 1..];
      pos := pos + 1;
      if data[pos - 1] < 0x80 { return true, pos; }
    }
  }

  method SkipValue(wireType: nat, data: seq<byte>, start: nat) returns (error: Option<Error>, pos: nat)
    requires start <= |data|
    ensures start <= pos <= |data|
    ensures SkipAt(wireType, data[start..]) == if error.Some? then Err(error.value) else Ok(data[pos..])
  {
    if wireType == 0 {
      var ok;
      ok, pos := SkipVarint(data, start);
      error := if ok then None else Some(TruncatedVarint);
    } else if wireType == 1 {
      if |data| - start < 8 { return Some(TruncatedFixed64), |data|; }
      assert data[start..][8..] == data[start + 8..];
      return None, start + 8;
    } else if wireType == 2 {
      var length;
      length, pos := ReadVarint(data, start);
      if length.None? { return Some(TruncatedLength), pos; }
      if |data| - pos < length.value { return Some(TruncatedDelimited), |data|; }
      assert data[pos..][length.value..] == data[pos + length.value..];
      return None, pos + length.value;
    } else if wireType == 5 {
      if |data| - start < 4 { return Some(TruncatedFixed32), |data|; }
      assert data[start..][4..] == data[start + 4..];
      return None, start + 4;
    } else {
      return Some(UnsupportedWireType), start;
    }
  }

  const ALLOCATION_PRIORITY: nat := 20

  function Scan(data: seq<byte>): Result<bool, Error>
    decreases |data|
  {
    if data == [] then Ok(false)
    else
      match KeyAt(data)
      case None => Err(TruncatedKey)
      case Some((key, rest)) =>
        if key.field == ALLOCATION_PRIORITY then Ok(true)
        else
          match SkipAt(key.wireType, rest)
          case Err(e) => Err(e)
          case Ok(next) => Scan(next)
  }

  method ContainsAllocationPriority(payload: seq<byte>) returns (result: Result<bool, Error>)
    ensures result == Scan(payload)
  {
    var pos := 0;
    assert payload[0..] == payload;
    while pos < |payload|
      invariant pos <= |payload| && Scan(payload) == Scan(payload[pos..])
    {
      var key, error;
      key, pos := ReadKey(payload, pos);
      if key.None? { return Err(TruncatedKey); }
      if key.value.field == ALLOCATION_PRIORITY { return Ok(true); }
      error, pos := SkipValue(key.value.wireType, payload, pos);
      if error.Some? { return Err(error.value); }
    }
    result := Ok(false);
  }

  // --------------------------------------------------------- what the scanner finds

  type Group = x: int | 0 <= x < 128

  /** A varint written as these groups of seven bits, low group first; high zero groups are padding. */
  function Spell(gs: seq<Group>): seq<byte>
    requires gs != []
  {
    if |gs| == 1 then [gs[0]] else [gs[0] as int + 128] + Spell(gs[1..])
  }

  function Amount(gs: seq<Group>): nat {
    if gs == [] then 0 else gs[0] + 128 * Amount(gs[1..])
  }

  datatype Value =
    | Number(groups: seq<Group>)
    | Fixed64(bytes: seq<byte>)
    | Delimited(length: seq<Group>, bytes: seq<byte>)
    | Fixed32(bytes: seq<byte>)

  datatype Field = Field(tag: seq<Group>, value: Value)

  function WireType(v: Value): nat {
    match v
    case Number(_) => 0
    case Fixed64(_) => 1
    case Delimited(_, _) => 2
    case Fixed32(_) => 5
  }

  predicate ValidValue(v: Value) {
    match v
    case Number(groups) => groups != []
    case Fixed64(bytes) => |bytes| == 8
    case Delimited(length, bytes) => length != [] && Amount(length) == |bytes|
    case Fixed32(bytes) => |bytes| == 4
  }

  predicate ValidField(f: Field) {
    f.tag != [] && Amount(f.tag) % 8 == WireType(f.value) && ValidValue(f.value)
  }

  function FieldNumber(f: Field): nat {
    Amount(f.tag) / 8
  }

  function ValueBytes(v: Value): seq<byte>
    requires ValidValue(v)
  {
    match v
    case Number(groups) => Spell(groups)
    case Fixed64(bytes) => bytes
    case Delimited(length, bytes) => Spell(length) + bytes
    case Fixed32(bytes) => bytes
  }

  function Message(fs: seq<Field>): seq<byte>
    requires forall i :: 0 <= i < |fs| ==> ValidField(fs[i])
  {
    if fs == [] then []
    else
      assert ValidField(fs[0]);
      Spell(fs[0].tag) + (ValueBytes(fs[0].value) + Message(fs[1..]))
  }

  /** The fields that make the scanner answer yes. */
  predicate Hit(f: Field) {
    FieldNumber(f) == 20 || (FieldNumber(f) == 4 && |f.tag| > 1)
  }

  predicate Minimal(gs: seq<Group>) {
    |gs| == 1 || (|gs| > 1 && gs[|gs| - 1] != 0)
  }

  lemma {:induction false} SpelledIsRead(gs: seq<Group>, rest: seq<byte>)
    requires gs != []
    ensures VarintAt(Spell(gs) + rest) == Some((Amount(gs), rest))
    decreases |gs|
  {
    var data := Spell(gs) + rest;
    if |gs| == 1 {
      assert data[1..] == rest;
    } else {
      SpelledIsRead(gs[1..], rest);
      assert data[1..] == Spell(gs[1..]) + rest;
    }
  }

  lemma TagIsRead(tag: seq<Group>, rest: seq<byte>) returns (key: Key)
    requires tag != []
    ensures KeyAt(Spell(tag) + rest) == Some((key, rest)) && key.wireType == Amount(tag) % 8
    ensures key.field == 20 <==> Amount(tag) / 8 == 20 || (Amount(tag) / 8 == 4 && |tag| > 1)
  {
    var data := Spell(tag) + rest;
    var first: int := tag[0];
    if |tag| == 1 {
      assert data[1..] == rest && Amount(tag[1..]) == 0;
      key := Key(first / 8, first % 8);
    } else {
      SpelledIsRead(tag[1..], rest);
      assert data[1..] == Spell(tag[1..]) + rest;
      var n := Amount(tag[1..]);
      TagArithmetic(first, n);
      key := Key(first / 8 + 16 * WithLowBit(n), first % 8);
    }
  }

  lemma TagArithmetic(first: int, n: nat)
    requires 0 <= first < 128
    ensures (first + 128 * n) / 8 == first / 8 + 16 * n && (first + 128 * n) % 8 == first % 8
    ensures first / 8 + 16 * WithLowBit(n) == 20 <==> first / 8 + 16 * n == 20 || first / 8 + 16 * n == 4
  {
  }

  lemma ValueIsSkipped(v: Value, rest: seq<byte>)
    requires ValidValue(v)
    ensures SkipAt(WireType(v), ValueBytes(v) + rest) == Ok(rest)
  {
    match v {
      case Number(groups) => SpelledIsRead(groups, rest);
      case Fixed64(bytes) => assert (bytes + rest)[8..] == rest;
      case Delimited(length, bytes) =>
        assert Spell(length) + bytes + rest == Spell(length) + (bytes + rest);
        SpelledIsRead(length, bytes + rest);
        assert (bytes + rest)[|bytes|..] == rest;
      case Fixed32(bytes) => assert (bytes + rest)[4..] == rest;
    }
  }

  lemma {:induction false} CutVarintIsNone(gs: seq<Group>, n: nat)
    requires gs != [] && n < |Spell(gs)|
    ensures VarintAt(Spell(gs)[..n]).None?
    decreases |gs|
  {
    if n > 0 {
      assert Spell(gs)[..n][1..] == Spell(gs[1..])[..n - 1];
      CutVarintIsNone(gs[1..], n - 1);
    }
  }

  /** What a value that ends too early is reported as. */
  function CutError(v: Value, n: nat): Error
    requires ValidValue(v)
  {
    match v
    case Number(_) => TruncatedVarint
    case Fixed64(_) => TruncatedFixed64
    case Delimited(length, _) => if n < |Spell(length)| then TruncatedLength else TruncatedDelimited
    case Fixed32(_) => TruncatedFixed32
  }

  /** Every proper prefix of every value is reported as what it is: a cut number, a cut length, or a cut content. */
  lemma CutValueIsReported(v: Value, n: nat)
    requires ValidValue(v) && n < |ValueBytes(v)|
    ensures SkipAt(WireType(v), ValueBytes(v)[..n]) == Err(CutError(v, n))
  {
    match v {
      case Number(groups) => CutVarintIsNone(groups, n);
      case Delimited(length, bytes) =>
        var spelled := Spell(length);
        if n < |spelled| {
          assert ValueBytes(v)[..n] == spelled[..n];
          CutVarintIsNone(length, n);
        } else {
          assert ValueBytes(v)[..n] == spelled + bytes[..n - |spelled|];
          SpelledIsRead(length, bytes[..n - |spelled|]);
        }
      case _ =>
    }
  }

  ghost predicate AnyHit(fs: seq<Field>) {
    exists i :: 0 <= i < |fs| && Hit(fs[i])
  }

  lemma AnyHitUnfolds(fs: seq<Field>)
    requires fs != []
    ensures AnyHit(fs) <==> Hit(fs[0]) || AnyHit(fs[1..])
  {
    if AnyHit(fs) && !Hit(fs[0]) {
      var i :| 0 <= i < |fs| && Hit(fs[i]);
      assert Hit(fs[1..][i - 1]);
    } else if AnyHit(fs[1..]) {
      var i :| 0 <= i < |fs[1..]| && Hit(fs[1..][i]);
      assert Hit(fs[i + 1]);
    }
  }

  /** On every well-formed message the scanner answers yes exactly when some top-level field has number 20, or has
      number 4 under a tag padded to several bytes. */
  lemma {:induction false} ScanFindsHits(fs: seq<Field>)
    requires forall i :: 0 <= i < |fs| ==> ValidField(fs[i])
    ensures Scan(Message(fs)) == Ok(AnyHit(fs))
    decreases |fs|
  {
    if fs != [] {
      var later := Message(fs[1..]);
      var key := TagIsRead(fs[0].tag, ValueBytes(fs[0].value) + later);
      ValueIsSkipped(fs[0].value, later);
      ScanFindsHits(fs[1..]);
      AnyHitUnfolds(fs);
    }
  }

  lemma {:induction false} ReadIsSpelled(data: seq<byte>) returns (gs: seq<Group>)
    requires VarintAt(data).Some?
    ensures gs != [] && Amount(gs) == VarintAt(data).value.0 && data == Spell(gs) + VarintAt(data).value.1
    decreases |data|
  {
    if data[0] < 128 {
      gs := [data[0]];
      assert Amount(gs[1..]) == 0 && data == [data[0]] + data[1..];
    } else {
      var later := ReadIsSpelled(data[1..]);
      gs := [data[0] - 128] + later;
      assert gs[1..] == later && data == [data[0]] + data[1..];
    }
  }

  lemma KeyIsSpelled(data: seq<byte>) returns (tag: seq<Group>)
    requires KeyAt(data).Some?
    ensures tag != [] && data == Spell(tag) + KeyAt(data).value.1 && Amount(tag) % 8 == KeyAt(data).value.0.wireType
  {
    tag := ReadIsSpelled(data);
    var key := TagIsRead(tag, VarintAt(data).value.1);
  }

  lemma SkippedIsSpelled(wireType: nat, data: seq<byte>) returns (v: Value)
    requires SkipAt(wireType, data).Ok?
    ensures ValidValue(v) && WireType(v) == wireType && data == ValueBytes(v) + SkipAt(wireType, data).value
  {
    if wireType == 0 {
      var groups := ReadIsSpelled(data);
      v := Number(groups);
    } else if wireType == 1 {
      v := Fixed64(data[..8]);
    } else if wireType == 2 {
      var length := ReadIsSpelled(data);
      var (n, rest) := VarintAt(data).value;
      v := Delimited(length, rest[..n]);
      assert rest == rest[..n] + rest[n..];
    } else {
      v := Fixed32(data[..4]);
    }
  }

  /** A scan that ends with no has read a well-formed message to its end. */
  lemma {:induction false} CleanScanReadsMessage(data: seq<byte>) returns (fs: seq<Field>)
    requires Scan(data) == Ok(false)
    ensures (forall i :: 0 <= i < |fs| ==> ValidField(fs[i])) && Message(fs) == data && !AnyHit(fs)
    decreases |data|
  {
    if data == [] {
      fs := [];
    } else {
      var (key, rest) := KeyAt(data).value;
      var tag := KeyIsSpelled(data);
      var v := SkippedIsSpelled(key.wireType, rest);
      var later := CleanScanReadsMessage(SkipAt(key.wireType, rest).value);
      fs := [Field(tag, v)] + later;
      assert fs[1..] == later;
      ScanFindsHits(fs);
    }
  }

  lemma {:induction false} LongMinimalIsLarge(gs: seq<Group>)
    requires |gs| > 0 && gs[|gs| - 1] != 0
    ensures Amount(gs) >= 1 && (|gs| > 1 ==> Amount(gs) >= 128)
    decreases |gs|
  {
    if |gs| > 1 { LongMinimalIsLarge(gs[1..]); }
  }

  ghost predicate HasField(fs: seq<Field>, n: nat) {
    exists i :: 0 <= i < |fs| && FieldNumber(fs[i]) == n
  }

  lemma MinimalHit(f: Field)
    requires ValidField(f) && Minimal(f.tag)
    ensures Hit(f) <==> FieldNumber(f) == 20
  {
    if |f.tag| > 1 { LongMinimalIsLarge(f.tag); }
  }

  /** With minimal tags that is exactly: some field has number 20. */
  lemma MinimalTagsFindField20(fs: seq<Field>)
    requires forall i :: 0 <= i < |fs| ==> ValidField(fs[i]) && Minimal(fs[i].tag)
    ensures Scan(Message(fs)) == Ok(HasField(fs, 20))
  {
    ScanFindsHits(fs);
    if AnyHit(fs) {
      var i :| 0 <= i < |fs| && Hit(fs[i]);
      MinimalHit(fs[i]);
    }
    if HasField(fs, 20) {
      var i :| 0 <= i < |fs| && FieldNumber(fs[i]) == 20;
      MinimalHit(fs[i]);
    }
  }

  /** Without them it is not: field 4 with value zero, its tag padded to two bytes, is taken for field 20. */
  lemma PaddedFieldFourIsTakenForTwenty(f: Field)
    requires f == Field([0x20, 0], Number([0]))
    ensures ValidField(f) && FieldNumber(f) == 4 && Scan(Message([f])) == Ok(true)
  {
    assert f.tag[1..] == [0] && f.tag[1..][1..] == [];
    assert Amount(f.tag[1..]) == 0;
    ScanFindsHits([f]);
    assert Hit([f][0]);
  }
}
