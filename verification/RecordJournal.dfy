/**
 The append-only record journal (storage/journal.go): a 12-byte header with
 magic, body length and checksum, then length-prefixed kind and key and a
 payload. The checksum is a parameter; everything holds for any checksum.
 */
module RecordJournal {
  import opened Common

  type byte = x: int | 0 <= x < 256
  type uint32 = x: int | 0 <= x < 0x1_0000_0000
  type Checksum = seq<byte> -> uint32

  const MAGIC: uint32 := 0x5447534a
  const MAX_BODY: nat := 0x400_0000   // 64 MiB
  const MAX_NAME: nat := 0xffff
  const HEADER: nat := 12

  datatype Record = Record(kind: seq<byte>, key: seq<byte>, payload: seq<byte>)

  datatype Error =
    | KindRequired | KeyRequired | KindTooLong | KeyTooLong | RecordTooLarge | JournalTooLarge
    | Eof | UnexpectedEof | BadMagic | InvalidBodyLength | ChecksumMismatch | BadKind | BadKeyLength | BadKey
    | TruncatedTail | VisitorFailed | WriteFailed | NameRequired | OpenFailed

  // ------------------------------------------------------------------ integers

  function U16(n: nat): (r: seq<byte>)
    requires n <= 0xffff
    ensures |r| == 2
  {
    [n / 0x100, n % 0x100]
  }

  function U32(n: uint32): (r: seq<byte>)
    ensures |r| == 4
  {
    [n / 0x100_0000, n / 0x1_0000 % 0x100, n / 0x100 % 0x100, n % 0x100]
  }

  function ReadU16(s: seq<byte>): (r: nat)
    requires |s| == 2
    ensures r <= 0xffff
  {
    s[0] as int * 0x100 + s[1]
  }

  function ReadU32(s: seq<byte>): uint32
    requires |s| == 4
  {
    s[0] as int * 0x100_0000 + s[1] as int * 0x1_0000 + s[2] as int * 0x100 + s[3]
  }

  lemma U16RoundTrip(n: nat, s: seq<byte>)
    requires n <= 0xffff && |s| == 2
    ensures ReadU16(U16(n)) == n && U16(ReadU16(s)) == s
  {
  }

  lemma U32IsRead(n: uint32)
    ensures ReadU32(U32(n)) == n
  {
    var high := n / 0x1_0000;
    assert n / 0x100 / 0x100 == high && n / 0x100_0000 == high / 0x100;
  }

  lemma U32IsWritten(s: seq<byte>)
    requires |s| == 4
    ensures U32(ReadU32(s)) == s
  {
    var n := ReadU32(s);
    var high, low := s[0] as int * 0x100 + s[1], s[2] as int * 0x100 + s[3];
    assert n == high * 0x1_0000 + low;
    assert n / 0x1_0000 == high && n / 0x100_0000 == high / 0x100;
    assert n / 0x100 == high * 0x100 + s[2];
  }

  lemma U32RoundTrip(n: uint32, s: seq<byte>)
    requires |s| == 4
    ensures ReadU32(U32(n)) == n && U32(ReadU32(s)) == s
  {
    U32IsRead(n);
    U32IsWritten(s);
  }

  // --------------------------------------------------------------------- codec

  function Body(r: Record): seq<byte>
    requires Named(r)
  {
    U16(|r.kind|) + r.kind + (U16(|r.key|) + r.key + r.payload)
  }

  predicate Named(r: Record) {
    |r.kind| <= MAX_NAME && |r.key| <= MAX_NAME
  }

  predicate Encodable(r: Record) {
    Named(r) && 4 + |r.kind| + |r.key| + |r.payload| <= MAX_BODY
  }

  function BodyLength(r: Record): (n: Result<nat, Error>)
    ensures n.Ok? <==> Encodable(r)
    ensures n == Err(KindTooLong) <==> |r.kind| > MAX_NAME
    ensures n == Err(KeyTooLong) <==> |r.kind| <= MAX_NAME < |r.key|
    ensures n == Err(RecordTooLarge) <==> Named(r) && !Encodable(r)
    ensures n.Ok? ==> n.value == |Body(r)|
  {
    if |r.kind| > MAX_NAME then Err(KindTooLong)
    else if |r.key| > MAX_NAME then Err(KeyTooLong)
    else
      var n := 2 + |r.kind| + 2 + |r.key| + |r.payload|;
      if n > MAX_BODY then Err(RecordTooLarge) else Ok(n)
  }

  function Encode(sum: Checksum, r: Record): (wire: seq<byte>)
    requires Encodable(r)
    ensures |wire| == HEADER + |Body(r)|
  {
    U32(MAGIC) + U32(|Body(r)|) + U32(sum(Body(r))) + Body(r)
  }

  function DecodeBody(body: seq<byte>): Result<Record, Error>
    requires |body| >= 4
  {
    var kindEnd := 2 + ReadU16(body[..2]);
    if kindEnd > |body| then Err(BadKind)
    else if kindEnd + 2 > |body| then Err(BadKeyLength)
    else
      var keyEnd := kindEnd + 2 + ReadU16(body[kindEnd..kindEnd + 2]);
      if keyEnd > |body| then Err(BadKey)
      else Ok(Record(body[2..kindEnd], body[kindEnd + 2..keyEnd], body[keyEnd..]))
  }

  /** Reads one record from the front of `data`; a read of nothing at all is `Eof`, also for the body. */
  function Decode(sum: Checksum, data: seq<byte>): Result<(Record, seq<byte>), Error> {
    if |data| == 0 then Err(Eof)
    else if |data| < HEADER then Err(UnexpectedEof)
    else if ReadU32(data[0..4]) != MAGIC then Err(BadMagic)
    else
      var n := ReadU32(data[4..8]);
      if n > MAX_BODY then Err(RecordTooLarge)
      else if n < 4 then Err(InvalidBodyLength)
      else if |data| == HEADER then Err(Eof)
      else if |data| < HEADER + n then Err(UnexpectedEof)
      else
        var body := data[HEADER..HEADER + n];
        if ReadU32(data[8..12]) != sum(body) then Err(ChecksumMismatch)
        else
          match DecodeBody(body)
          case Err(e) => Err(e)
          case Ok(r) => Ok((r, data[HEADER + n..]))
  }

  lemma BytesOfMagic()
    ensures U32(MAGIC) == [0x54, 0x47, 0x53, 0x4a]
  {
  }

  lemma BodyRoundTrip(r: Record)
    requires Named(r)
    ensures DecodeBody(Body(r)) == Ok(r)
  {
    var body := Body(r);
    var k := 2 + |r.kind|;
    U16RoundTrip(|r.kind|, U16(0));
    U16RoundTrip(|r.key|, U16(0));
    assert body[..2] == U16(|r.kind|);
    assert body[2..k] == r.kind;
    assert body[k..k + 2] == U16(|r.key|);
    assert body[k + 2..k + 2 + |r.key|] == r.key;
    assert body[k + 2 + |r.key|..] == r.payload;
  }

  lemma BodyReencodes(body: seq<byte>)
    requires |body| >= 4 && DecodeBody(body).Ok?
    ensures Named(DecodeBody(body).value) && Body(DecodeBody(body).value) == body
  {
    var r := DecodeBody(body).value;
    var k := 2 + |r.kind|;
    U16RoundTrip(0, body[..2]);
    U16RoundTrip(0, body[k..k + 2]);
    assert body[k..] == body[k..k + 2] + r.key + r.payload;
    assert body == body[..2] + r.kind + body[k..];
  }

  lemma HeaderOfEncoding(sum: Checksum, r: Record, data: seq<byte>)
    requires Encodable(r) && |data| >= HEADER && data[..HEADER] == Encode(sum, r)[..HEADER]
    ensures ReadU32(data[0..4]) == MAGIC && ReadU32(data[4..8]) == |Body(r)| && ReadU32(data[8..12]) == sum(Body(r))
  {
    var head := data[..HEADER];
    assert data[0..4] == head[0..4] == U32(MAGIC);
    assert data[4..8] == head[4..8] == U32(|Body(r)|);
    assert data[8..12] == head[8..12] == U32(sum(Body(r)));
    U32RoundTrip(MAGIC, U32(0));
    U32RoundTrip(|Body(r)|, U32(0));
    U32RoundTrip(sum(Body(r)), U32(0));
  }

  /** The wire format, byte by byte: magic number, length of the body and checksum, each with its high byte first; then
      kind and key, each after its length; then the payload. */
  lemma LayoutOfEncoding(sum: Checksum, r: Record)
    requires Encodable(r)
    ensures
      var w, k := Encode(sum, r), 14 + |r.kind|;
      && |w| == 16 + |r.kind| + |r.key| + |r.payload| && w[..4] == [0x54, 0x47, 0x53, 0x4a]
      && ((w[4] as int * 256 + w[5]) * 256 + w[6]) * 256 + w[7] == |w| - 12
      && ((w[8] as int * 256 + w[9]) * 256 + w[10]) * 256 + w[11] == sum(w[12..])
      && w[12] as int * 256 + w[13] == |r.kind| && w[14..k] == r.kind
      && w[k] as int * 256 + w[k + 1] == |r.key| && w[k + 2..k + 2 + |r.key|] == r.key
      && w[k + 2 + |r.key|..] == r.payload
  {
    var w, body, k := Encode(sum, r), Body(r), 2 + |r.kind|;
    assert w[..4] == U32(MAGIC) && w[4..8] == U32(|body|) && w[8..12] == U32(sum(body)) && w[12..] == body;
    BytesOfMagic();
    U32IsRead(|body|);
    U32IsRead(sum(body));
    LayoutOfBody(r);
    BigEndian(w[4..8]);
    BigEndian(w[8..12]);
  }

  lemma BigEndian(s: seq<byte>)
    requires |s| == 4
    ensures ReadU32(s) == ((s[0] as int * 256 + s[1]) * 256 + s[2]) * 256 + s[3]
  {
  }

  lemma LayoutOfBody(r: Record)
    requires Named(r)
    ensures
      var b, k := Body(r), 2 + |r.kind|;
      && |b| == 4 + |r.kind| + |r.key| + |r.payload|
      && b[0] as int * 256 + b[1] == |r.kind| && b[2..k] == r.kind
      && b[k] as int * 256 + b[k + 1] == |r.key| && b[k + 2..k + 2 + |r.key|] == r.key
      && b[k + 2 + |r.key|..] == r.payload
  {
    var b, k := Body(r), 2 + |r.kind|;
    assert b[..2] == U16(|r.kind|) && b[k..k + 2] == U16(|r.key|);
  }

  /** Decoding an encoding returns the record and leaves exactly the bytes that follow it. */
  lemma DecodeInvertsEncode(sum: Checksum, r: Record, rest: seq<byte>)
    requires Encodable(r)
    ensures Decode(sum, Encode(sum, r) + rest) == Ok((r, rest))
  {
    var data := Encode(sum, r) + rest;
    var end := HEADER + |Body(r)|;
    assert data[..HEADER] == Encode(sum, r)[..HEADER];
    HeaderOfEncoding(sum, r, data);
    assert data[HEADER..end] == Body(r) && data[end..] == rest;
    BodyRoundTrip(r);
  }

  /** What a successful decode has checked. */
  lemma DecodedParts(sum: Checksum, data: seq<byte>) returns (n: nat, body: seq<byte>)
    requires Decode(sum, data).Ok?
    ensures 4 <= n <= MAX_BODY && HEADER + n <= |data| && n == ReadU32(data[4..8]) && body == data[HEADER..HEADER + n]
    ensures ReadU32(data[0..4]) == MAGIC && ReadU32(data[8..12]) == sum(body)
    ensures DecodeBody(body) == Ok(Decode(sum, data).value.0) && Decode(sum, data).value.1 == data[HEADER + n..]
  {
    n := ReadU32(data[4..8]);
    body := data[HEADER..HEADER + n];
  }

  lemma EncodeParts(sum: Checksum, r: Record, data: seq<byte>, n: nat, body: seq<byte>)
    requires Named(r) && Body(r) == body && |body| == n <= MAX_BODY && |data| >= HEADER
    requires ReadU32(data[0..4]) == MAGIC && ReadU32(data[4..8]) == n && ReadU32(data[8..12]) == sum(body)
    ensures Encodable(r) && Encode(sum, r) == data[0..4] + data[4..8] + data[8..12] + body
  {
    U32RoundTrip(0, data[0..4]);
    U32RoundTrip(0, data[4..8]);
    U32RoundTrip(0, data[8..12]);
  }

  /** A successful decode re-encodes to exactly the bytes it consumed. */
  lemma EncodeInvertsDecode(sum: Checksum, data: seq<byte>)
    requires Decode(sum, data).Ok?
    ensures
      var (r, rest) := Decode(sum, data).value;
      Encodable(r) && data == Encode(sum, r) + rest
  {
    var n, body := DecodedParts(sum, data);
    BodyReencodes(body);
    EncodeParts(sum, Decode(sum, data).value.0, data, n, body);
    Reassemble(data, n);
  }

  lemma Reassemble(data: seq<byte>, n: nat)
    requires HEADER + n <= |data|
    ensures data == data[0..4] + data[4..8] + data[8..12] + data[HEADER..HEADER + n] + data[HEADER + n..]
  {
  }

  // ------------------------------------------------------------------- journals

  function Encodings(sum: Checksum, rs: seq<Record>): seq<byte>
    requires forall i :: 0 <= i < |rs| ==> Encodable(rs[i])
  {
    if rs == [] then [] else Encode(sum, rs[0]) + Encodings(sum, rs[1..])
  }

  /** What replaying `data` visits, and how it ends. */
  function Replay(sum: Checksum, accepts: Record -> bool, data: seq<byte>): (seq<Record>, Option<Error>)
    decreases |data|
  {
    match Decode(sum, data)
    case Err(Eof) => ([], None)
    case Err(UnexpectedEof) => ([], Some(TruncatedTail))
    case Err(e) => ([], Some(e))
    case Ok((r, rest)) =>
      if !accepts(r) then ([r], Some(VisitorFailed))
      else
        var (visited, end) := Replay(sum, accepts, rest);
        ([r] + visited, end)
  }

  /** The number of records that lie wholly inside the first `n` bytes. */
  function WholeRecords(sum: Checksum, rs: seq<Record>, n: nat): (k: nat)
    requires forall i :: 0 <= i < |rs| ==> Encodable(rs[i])
    ensures k <= |rs|
  {
    if rs == [] || n < |Encode(sum, rs[0])| then 0 else 1 + WholeRecords(sum, rs[1..], n - |Encode(sum, rs[0])|)
  }

  /** It is the last boundary not beyond `n`. */
  lemma {:induction false} WholeRecordsIsLastBoundary(sum: Checksum, rs: seq<Record>, n: nat)
    requires forall i :: 0 <= i < |rs| ==> Encodable(rs[i])
    ensures
      var k := WholeRecords(sum, rs, n);
      && |Encodings(sum, rs[..k])| <= n
      && (k < |rs| ==> n < |Encodings(sum, rs[..k + 1])|)
    decreases |rs|
  {
    var k := WholeRecords(sum, rs, n);
    if rs != [] && n >= |Encode(sum, rs[0])| {
      WholeRecordsIsLastBoundary(sum, rs[1..], n - |Encode(sum, rs[0])|);
      assert rs[..k][1..] == rs[1..][..k - 1];
      if k < |rs| { assert rs[..k + 1][1..] == rs[1..][..k]; }
    } else if rs != [] {
      assert rs[..1][1..] == [];
    }
  }

  lemma DecodeOfCut(sum: Checksum, r: Record, n: nat)
    requires Encodable(r) && n < |Encode(sum, r)|
    ensures Decode(sum, Encode(sum, r)[..n]) == Err(if n == 0 || n == HEADER then Eof else UnexpectedEof)
  {
    if n >= HEADER {
      assert Encode(sum, r)[..n][..HEADER] == Encode(sum, r)[..HEADER];
      HeaderOfEncoding(sum, r, Encode(sum, r)[..n]);
    }
  }

  lemma ReplayOfCut(sum: Checksum, accepts: Record -> bool, r: Record, n: nat)
    requires Encodable(r) && n < |Encode(sum, r)|
    ensures
      Replay(sum, accepts, Encode(sum, r)[..n]) ==
      ([], if n == 0 || n == HEADER then None else Some(TruncatedTail))
  {
    DecodeOfCut(sum, r, n);
  }

  lemma ReplayOfFirst(sum: Checksum, accepts: Record -> bool, r: Record, rest: seq<byte>)
    requires Encodable(r) && accepts(r)
    ensures
      var tail := Replay(sum, accepts, rest);
      Replay(sum, accepts, Encode(sum, r) + rest) == ([r] + tail.0, tail.1)
  {
    DecodeInvertsEncode(sum, r, rest);
  }

  /** How replaying the first `n` bytes of the journal of `rs` must end. */
  ghost predicate ReplaysPrefix(sum: Checksum, rs: seq<Record>, n: nat, visited: seq<Record>, end: Option<Error>)
    requires forall i :: 0 <= i < |rs| ==> Encodable(rs[i])
  {
    var k := WholeRecords(sum, rs, n);
    var boundary := |Encodings(sum, rs[..k])|;
    visited == rs[..k] && end == if n == boundary || n == boundary + HEADER then None else Some(TruncatedTail)
  }

  lemma PrefixAfterFirst(sum: Checksum, rs: seq<Record>, n: nat, visited: seq<Record>, end: Option<Error>)
    requires rs != [] && forall i :: 0 <= i < |rs| ==> Encodable(rs[i])
    requires n >= |Encode(sum, rs[0])| && ReplaysPrefix(sum, rs[1..], n - |Encode(sum, rs[0])|, visited, end)
    ensures ReplaysPrefix(sum, rs, n, [rs[0]] + visited, end)
  {
    var k := WholeRecords(sum, rs[1..], n - |Encode(sum, rs[0])|);
    assert rs[..k + 1][1..] == rs[1..][..k];
  }

  /** Replaying any prefix of a valid journal visits exactly the records wholly inside it. It reports no error
      exactly when the cut is on a record boundary or right after the 12-byte header of the next record. */
  lemma {:induction false} PrefixReplay(sum: Checksum, accepts: Record -> bool, rs: seq<Record>, n: nat)
    requires forall i :: 0 <= i < |rs| ==> Encodable(rs[i]) && accepts(rs[i])
    requires n <= |Encodings(sum, rs)|
    ensures
      var (visited, end) := Replay(sum, accepts, Encodings(sum, rs)[..n]);
      ReplaysPrefix(sum, rs, n, visited, end)
    decreases |rs|
  {
    if rs != [] {
      var first, rest := Encode(sum, rs[0]), Encodings(sum, rs[1..]);
      if n < |first| {
        assert Encodings(sum, rs)[..n] == first[..n];
        ReplayOfCut(sum, accepts, rs[0], n);
      } else {
        var m := n - |first|;
        assert Encodings(sum, rs)[..n] == first + rest[..m];
        ReplayOfFirst(sum, accepts, rs[0], rest[..m]);
        PrefixReplay(sum, accepts, rs[1..], m);
        var (visited, end) := Replay(sum, accepts, rest[..m]);
        PrefixAfterFirst(sum, rs, n, visited, end);
      }
    }
  }

  /** In particular a whole journal replays to its records. */
  lemma {:induction false} ReplayInvertsEncodings(sum: Checksum, accepts: Record -> bool, rs: seq<Record>)
    requires forall i :: 0 <= i < |rs| ==> Encodable(rs[i]) && accepts(rs[i])
    ensures Replay(sum, accepts, Encodings(sum, rs)) == (rs, None)
  {
    var all := Encodings(sum, rs);
    ReplayThrough(sum, accepts, rs, []);
    assert all + [] == all;
    assert rs + [] == rs;
  }

  /** The visited records are what the file starts with, byte for byte, and a replay that reports no error
      stopped at the end of the file or after a bare header. */
  ghost predicate IsThere(sum: Checksum, data: seq<byte>, visited: seq<Record>, end: Option<Error>) {
    && (forall i :: 0 <= i < |visited| ==> Encodable(visited[i]))
    && Encodings(sum, visited) <= data
    && (end.None? ==> var tail := |data| - |Encodings(sum, visited)|; tail == 0 || tail == HEADER)
  }

  lemma IsThereAfterFirst(sum: Checksum, r: Record, rest: seq<byte>, visited: seq<Record>, end: Option<Error>)
    requires Encodable(r) && IsThere(sum, rest, visited, end)
    ensures IsThere(sum, Encode(sum, r) + rest, [r] + visited, end)
  {
    assert ([r] + visited)[1..] == visited;
  }

  /** For arbitrary bytes. */
  lemma {:induction false} ReplayVisitsWhatIsThere(sum: Checksum, accepts: Record -> bool, data: seq<byte>)
    ensures
      var (visited, end) := Replay(sum, accepts, data);
      IsThere(sum, data, visited, end)
    decreases |data|
  {
    ReplayUnfolds(sum, accepts, data);
    var d := Decode(sum, data);
    if d.Ok? {
      EncodeInvertsDecode(sum, data);
      var (r, rest) := d.value;
      if accepts(r) {
        ReplayVisitsWhatIsThere(sum, accepts, rest);
        var (visited, end) := Replay(sum, accepts, rest);
        IsThereAfterFirst(sum, r, rest, visited, end);
      } else {
        assert IsThere(sum, rest, [], Some(VisitorFailed));
        IsThereAfterFirst(sum, r, rest, [], Some(VisitorFailed));
      }
    }
  }

  lemma {:induction false} ReplayUnfolds(sum: Checksum, accepts: Record -> bool, data: seq<byte>)
    ensures
      var d, (visited, end) := Decode(sum, data), Replay(sum, accepts, data);
      if d.Ok? then
        && |d.value.1| < |data|
        && (if accepts(d.value.0) then
              var (later, e) := Replay(sum, accepts, d.value.1);
              visited == [d.value.0] + later && end == e
            else visited == [d.value.0] && end == Some(VisitorFailed))
      else
        && visited == []
        && end == if d.error.Eof? then None else if d.error.UnexpectedEof? then Some(TruncatedTail) else Some(d.error)
  {
  }

  /** Which error a damaged front is reported as: a wrong magic number, a length that no record has, a body that is cut
      short, a body with another checksum, or one whose names do not fit into it. */
  lemma DamageIsReported(sum: Checksum, data: seq<byte>)
    requires |data| > HEADER
    ensures
      var d, n := Decode(sum, data), ReadU32(data[4..8]);
      var bad := ReadU32(data[..4]) != MAGIC;
      && (d == Err(BadMagic) <==> bad)
      && (d == Err(RecordTooLarge) <==> !bad && n > MAX_BODY)
      && (d == Err(InvalidBodyLength) <==> !bad && n < 4)
      && (d == Err(UnexpectedEof) <==> !bad && 4 <= n <= MAX_BODY && |data| < HEADER + n)
      && d != Err(Eof)
      && (!bad && 4 <= n <= MAX_BODY && HEADER + n <= |data| ==>
            var body := data[HEADER..HEADER + n];
            var kind := ReadU16(body[..2]);
            && (d == Err(ChecksumMismatch) <==> ReadU32(data[8..12]) != sum(body))
            && (d == Err(BadKind) <==> ReadU32(data[8..12]) == sum(body) && kind + 2 > n)
            && (d == Err(BadKeyLength) <==> ReadU32(data[8..12]) == sum(body) && kind + 2 <= n < kind + 4)
            && (d == Err(BadKey) <==>
                  && ReadU32(data[8..12]) == sum(body) && kind + 4 <= n
                  && kind + 4 + ReadU16(body[kind + 2..kind + 4]) > n))
  {
    assert data[..4] == data[0..4];
  }

  // -------------------------------------------------------------- the code in place

  method PutBytes(wire: array<byte>, offset: nat, src: seq<byte>) returns (next: nat)
    requires offset + |src| <= wire.Length
    modifies wire
    ensures next == offset + |src|
    ensures wire[..next] == old(wire[..offset]) + src
    ensures wire[next..] == old(wire[next..])
  {
    next := offset;
    for i := 0 to |src|
      invariant next == offset + i
      invariant wire[..next] == old(wire[..offset]) + src[..i]
      invariant wire[next..] == old(wire[next..])
    {
      ghost var before := wire[..next];
      wire[next] := src[i];
      next := next + 1;
      assert wire[..next] == before + [src[i]] && src[..i + 1] == src[..i] + [src[i]];
    }
  }

  lemma Regroup(a: seq<byte>, b: seq<byte>, c: seq<byte>, d: seq<byte>, e: seq<byte>, f: seq<byte>)
    ensures a + b + c + d + e + f == a + (b + c + (d + e + f))
  {
    assert a + b + c + d + e + f == a + (b + c) + (d + e + f);
  }

  /** Writes kind, key and payload through a moving offset. */
  method PutBody(wire: array<byte>, r: Record)
    requires Encodable(r) && wire.Length == HEADER + |Body(r)|
    modifies wire
    ensures wire[..] == old(wire[..HEADER]) + Body(r)
  {
    ghost var head := wire[..HEADER];
    var offset := PutBytes(wire, HEADER, U16(|r.kind|));
    offset := PutBytes(wire, offset, r.kind);
    offset := PutBytes(wire, offset, U16(|r.key|));
    offset := PutBytes(wire, offset, r.key);
    offset := PutBytes(wire, offset, r.payload);
    assert wire[..] == wire[..offset];
    Regroup(head, U16(|r.kind|), r.kind, U16(|r.key|), r.key, r.payload);
  }

  /** Fills the wire buffer; the checksum is written last. */
  method EncodeRecord(sum: Checksum, r: Record) returns (result: Result<array<byte>, Error>)
    ensures result.Ok? <==> Encodable(r)
    ensures result.Ok? ==> fresh(result.value) && result.value[..] == Encode(sum, r)
    ensures result.Err? ==> result.error == BodyLength(r).error
  {
    var length := BodyLength(r);
    if length.Err? { return Err(length.error); }
    var wire := new byte[HEADER + length.value](_ => 0);
    var offset := PutBytes(wire, 0, U32(MAGIC));
    offset := PutBytes(wire, offset, U32(length.value));
    ghost var head := wire[..8];
    PutBody(wire, r);
    assert wire[..8] == wire[..HEADER][..8] == head;
    assert wire[HEADER..] == Body(r);
    offset := PutBytes(wire, offset, U32(sum(wire[HEADER..])));
    assert wire[..] == wire[..HEADER] + wire[HEADER..];
    result := Ok(wire);
  }

  /** Encodes one record after the other. */
  method EncodeAll(sum: Checksum, rs: seq<Record>) returns (data: seq<byte>)
    requires forall i :: 0 <= i < |rs| ==> Encodable(rs[i])
    ensures data == Encodings(sum, rs)
  {
    data := [];
    for i := 0 to |rs|
      invariant data == Encodings(sum, rs[..i])
    {
      var wire := EncodeRecord(sum, rs[i]);
      EncodingsAppend(sum, rs[..i], rs[i]);
      assert rs[..i + 1] == rs[..i] + [rs[i]];
      data := data + wire.value[..];
    }
    assert rs[..|rs|] == rs;
  }

  lemma {:induction false} EncodingsLength(sum: Checksum, rs: seq<Record>, i: nat)
    requires i < |rs| && forall j :: 0 <= j <= i ==> Encodable(rs[j])
    ensures |Encodings(sum, rs[..i + 1])| == |Encodings(sum, rs[..i])| + HEADER + |Body(rs[i])|
  {
    EncodingsAppend(sum, rs[..i], rs[i]);
    assert rs[..i + 1] == rs[..i] + [rs[i]];
  }

  lemma {:induction false} TooLargeAlready(sum: Checksum, rs: seq<Record>, k: nat)
    requires k <= |rs| && (forall i :: 0 <= i < k ==> Encodable(rs[i])) && |Encodings(sum, rs[..k])| > MAX_BODY
    ensures !((forall i :: 0 <= i < |rs| ==> Encodable(rs[i])) && |Encodings(sum, rs)| <= MAX_BODY)
  {
    if forall i :: 0 <= i < |rs| ==> Encodable(rs[i]) { EncodingsGrow(sum, rs, k); }
  }

  /** Sums the encoded sizes and stops at the first record that does not fit. */
  method ValidateReplacement(sum: Checksum, rs: seq<Record>) returns (result: Result<nat, Error>)
    ensures result.Ok? <==> (forall i :: 0 <= i < |rs| ==> Encodable(rs[i])) && |Encodings(sum, rs)| <= MAX_BODY
    ensures result.Ok? ==> result.value == |Encodings(sum, rs)|
  {
    var total := 0;
    for i := 0 to |rs|
      invariant forall j :: 0 <= j < i ==> Encodable(rs[j])
      invariant total == |Encodings(sum, rs[..i])| <= MAX_BODY
    {
      var length := BodyLength(rs[i]);
      if length.Err? { return Err(length.error); }
      EncodingsLength(sum, rs, i);
      total := total + HEADER + length.value;
      if total > MAX_BODY {
        TooLargeAlready(sum, rs, i + 1);
        return Err(JournalTooLarge);
      }
    }
    assert rs[..|rs|] == rs;
    result := Ok(total);
  }

  lemma {:induction false} EncodingsAppend(sum: Checksum, rs: seq<Record>, r: Record)
    requires (forall i :: 0 <= i < |rs| ==> Encodable(rs[i])) && Encodable(r)
    ensures Encodings(sum, rs + [r]) == Encodings(sum, rs) + Encode(sum, r)
    decreases |rs|
  {
    if rs == [] {
      assert [r][1..] == [];
    } else {
      assert (rs + [r])[1..] == rs[1..] + [r];
      EncodingsAppend(sum, rs[1..], r);
    }
  }

  lemma {:induction false} EncodingsGrow(sum: Checksum, rs: seq<Record>, k: nat)
    requires k <= |rs| && forall i :: 0 <= i < |rs| ==> Encodable(rs[i])
    ensures Encodings(sum, rs[..k]) <= Encodings(sum, rs)
    decreases |rs| - k
  {
    if k == |rs| {
      assert rs[..k] == rs;
    } else {
      EncodingsAppend(sum, rs[..k], rs[k]);
      assert rs[..k + 1] == rs[..k] + [rs[k]];
      EncodingsGrow(sum, rs, k + 1);
    }
  }

  class Journal {
    var file: seq<byte>
    const sum: Checksum

    /** The records this file was written with, if nothing tore it. */
    ghost predicate Holds(rs: seq<Record>)
      reads this
    {
      (forall i :: 0 <= i < |rs| ==> Encodable(rs[i])) && file == Encodings(sum, rs)
    }

    /** Opens the journal of that name; `reachable` says whether its file can be opened or created. */
    static method Open(name: string, sum: Checksum, existing: Option<seq<byte>>, reachable: bool)
      returns (r: Result<Journal, Error>)
      ensures r.Ok? <==> name != "" && reachable
      ensures r.Err? ==> r.error == if name == "" then NameRequired else OpenFailed
      ensures r.Ok? ==> fresh(r.value) && r.value.sum == sum
      ensures r.Ok? ==> r.value.file == if existing.Some? then existing.value else []
      ensures r.Ok? && existing.None? ==> r.value.Holds([])
    {
      if name == "" { return Err(NameRequired); }
      if !reachable { return Err(OpenFailed); }
      var journal := new Journal(sum, existing);
      r := Ok(journal);
    }

    /** Opening creates a missing file and leaves an existing one alone. */
    constructor (sum: Checksum, existing: Option<seq<byte>>)
      ensures this.sum == sum && file == if existing.Some? then existing.value else []
      ensures existing.None? ==> Holds([])
    {
      this.sum, file := sum, if existing.Some? then existing.value else [];
    }

    /** Appends a record; `written` bytes of it reach the file, and `synced` says whether the sync succeeds. */
    method Append(r: Record, written: nat, synced: bool) returns (result: Result<bool, Error>)
      modifies this
      ensures result.Err? && result.error in {KindRequired, KeyRequired, KindTooLong, KeyTooLong, RecordTooLarge} <==>
              r.kind == [] || r.key == [] || !Encodable(r)
      ensures r.kind == [] || r.key == [] || !Encodable(r) ==> file == old(file)
      ensures result == Err(KindRequired) <==> r.kind == []
      ensures result == Err(KeyRequired) <==> r.kind != [] && r.key == []
      ensures result == Err(KindTooLong) <==> r.key != [] && |r.kind| > MAX_NAME
      ensures result == Err(KeyTooLong) <==> 0 < |r.kind| <= MAX_NAME && |r.key| > MAX_NAME
      ensures r.kind != [] && r.key != [] && Encodable(r) ==>
                var wire := Encode(sum, r);
                && (result.Ok? <==> written >= |wire| && synced)
                && file == old(file) + (if written >= |wire| then wire else wire[..written])
    {
      if r.kind == [] { return Err(KindRequired); }
      if r.key == [] { return Err(KeyRequired); }
      var wire := EncodeRecord(sum, r);
      if wire.Err? { return Err(wire.error); }
      if written < wire.value.Length {
        file := file + wire.value[..written];
        return Err(WriteFailed);
      }
      file := file + wire.value[..];
      if !synced { return Err(WriteFailed); }
      result := Ok(true);
    }

    /** Atomic replacement: the file changes exactly when the records are valid and the rename happens, and then it
        holds the new records and nothing else. */
    method Replace(rs: seq<Record>, renamed: bool, synced: bool) returns (result: Result<bool, Error>)
      modifies this
      ensures
        var valid := (forall i :: 0 <= i < |rs| ==> Encodable(rs[i])) && |Encodings(sum, rs)| <= MAX_BODY;
        && (result.Ok? <==> valid && renamed && synced)
        && (if valid && renamed then Holds(rs) else file == old(file))
    {
      var size := ValidateReplacement(sum, rs);
      if size.Err? { return Err(size.error); }
      var temp := EncodeAll(sum, rs);
      if !renamed { return Err(WriteFailed); }
      file := temp;
      if !synced { return Err(WriteFailed); }
      result := Ok(true);
    }

    /** Visits the records from the start of the file. */
    method ReplayFile(accepts: Record -> bool) returns (visited: seq<Record>, end: Option<Error>)
      ensures (visited, end) == Replay(sum, accepts, file)
    {
      visited := [];
      var rest := file;
      var next := Decode(sum, rest);
      ghost var whole := Replay(sum, accepts, file);
      ghost var tail := whole;
      assert [] + tail.0 == tail.0;
      while next.Ok?
        invariant next == Decode(sum, rest) && tail == Replay(sum, accepts, rest)
        invariant whole == (visited + tail.0, tail.1)
        decreases |rest|
      {
        var r := next.value.0;
        ReplayUnfolds(sum, accepts, rest);
        ghost var before := visited;
        visited := visited + [r];
        if !accepts(r) { return visited, Some(VisitorFailed); }
        rest := next.value.1;
        next := Decode(sum, rest);
        tail := Replay(sum, accepts, rest);
        assert before + ([r] + tail.0) == visited + tail.0;
      }
      ReplayUnfolds(sum, accepts, rest);
      assert visited + [] == visited;
      end :=
        if next.error.Eof? then None
        else if next.error.UnexpectedEof? then Some(TruncatedTail)
        else Some(next.error);
    }
  }

  /** Replay gets through whole records and goes on with what follows them. */
  lemma {:induction false} ReplayThrough(sum: Checksum, accepts: Record -> bool, rs: seq<Record>, tail: seq<byte>)
    requires forall i :: 0 <= i < |rs| ==> Encodable(rs[i]) && accepts(rs[i])
    ensures
      var rest := Replay(sum, accepts, tail);
      Replay(sum, accepts, Encodings(sum, rs) + tail) == (rs + rest.0, rest.1)
    decreases |rs|
  {
    if rs == [] {
      assert Encodings(sum, rs) + tail == tail;
      AddFront(rs, Replay(sum, accepts, tail).0);
    } else {
      var later := Encodings(sum, rs[1..]) + tail;
      EncodingsThen(sum, rs, tail);
      ReplayOfFirst(sum, accepts, rs[0], later);
      ReplayThrough(sum, accepts, rs[1..], tail);
      AddFront(rs, Replay(sum, accepts, tail).0);
    }
  }

  lemma {:induction false} EncodingsThen(sum: Checksum, rs: seq<Record>, tail: seq<byte>)
    requires rs != [] && forall i :: 0 <= i < |rs| ==> Encodable(rs[i])
    ensures Encodings(sum, rs) + tail == Encode(sum, rs[0]) + (Encodings(sum, rs[1..]) + tail)
  {
    Associate(Encode(sum, rs[0]), Encodings(sum, rs[1..]), tail);
  }

  lemma Associate<T>(a: seq<T>, b: seq<T>, c: seq<T>)
    ensures a + b + c == a + (b + c)
  {
  }

  lemma AddFront<T>(s: seq<T>, t: seq<T>)
    ensures s + t == if s == [] then t else [s[0]] + (s[1..] + t)
  {
  }

  /** A crash while appending loses at most the record being appended: replaying what is left visits all
      earlier records, and the new one only if every byte of it arrived. */
  lemma {:induction false} TornAppendKeepsEarlierRecords(
    sum: Checksum, accepts: Record -> bool, rs: seq<Record>, r: Record, written: nat)
    requires (forall i :: 0 <= i < |rs| ==> Encodable(rs[i]) && accepts(rs[i])) && Encodable(r) && accepts(r)
    requires written <= |Encode(sum, r)|
    ensures
      var (visited, end) := Replay(sum, accepts, Encodings(sum, rs) + Encode(sum, r)[..written]);
      && visited == (if written == |Encode(sum, r)| then rs + [r] else rs)
      && (end.None? <==> written == 0 || written == HEADER || written == |Encode(sum, r)|)
  {
    ReplayThrough(sum, accepts, rs, Encode(sum, r)[..written]);
    ReplayOfTorn(sum, accepts, r, written);
    assert rs + [] == rs;
  }

  lemma {:induction false} ReplayOfTorn(sum: Checksum, accepts: Record -> bool, r: Record, written: nat)
    requires Encodable(r) && accepts(r) && written <= |Encode(sum, r)|
    ensures
      var (visited, end) := Replay(sum, accepts, Encode(sum, r)[..written]);
      && visited == (if written == |Encode(sum, r)| then [r] else [])
      && (end.None? <==> written == 0 || written == HEADER || written == |Encode(sum, r)|)
  {
    var wire := Encode(sum, r);
    if written == |wire| {
      assert wire[..written] == wire + [];
      ReplayOfFirst(sum, accepts, r, []);
      ReplayUnfolds(sum, accepts, []);
    } else {
      ReplayOfCut(sum, accepts, r, written);
    }
  }

  // ------------------------------------------------------------ appending after a tear

  /** The bytes after a magic number pass for a record: length, checksum and body fit together. */
  predicate Framed(sum: Checksum, data: seq<byte>) {
    && |data| >= HEADER
    && var n := ReadU32(data[4..8]);
      && 4 <= n <= MAX_BODY && HEADER + n <= |data|
      && ReadU32(data[8..12]) == sum(data[HEADER..HEADER + n])
      && DecodeBody(data[HEADER..HEADER + n]).Ok?
  }

  lemma VisitedExactlyIfFramed(sum: Checksum, accepts: Record -> bool, data: seq<byte>)
    requires |data| > HEADER
    ensures
      var (visited, end) := Replay(sum, accepts, data);
      && (visited == [] <==> ReadU32(data[0..4]) != MAGIC || !Framed(sum, data))
      && (visited == [] ==> end.Some?)
  {
    ReplayUnfolds(sum, accepts, data);
  }

  lemma StartsWithMagic(sum: Checksum, r: Record)
    requires Encodable(r)
    ensures |Encode(sum, r)| > HEADER && Encode(sum, r)[..4] == [0x54, 0x47, 0x53, 0x4a]
  {
    BytesOfMagic();
    assert Encode(sum, r)[..4] == U32(MAGIC);
  }

  /** A tear inside the magic number leaves a wrong one. */
  lemma TornMagicIsWrong(data: seq<byte>, wire: seq<byte>, written: nat, more: seq<byte>)
    requires 0 < written < 4 <= |wire| && 4 <= |more| && data == wire[..written] + more
    requires wire[..4] == more[..4] == [0x54, 0x47, 0x53, 0x4a]
    ensures ReadU32(data[0..4]) != MAGIC
  {
    var head := data[0..4];
    U32RoundTrip(MAGIC, head);
    BytesOfMagic();
    assert head[written] == more[..4][0] && head[0] == wire[..4][0];
  }

  /** A tear right after the magic number makes the next one a length, which is too large. */
  lemma MagicIsTooLong(sum: Checksum, data: seq<byte>, wire: seq<byte>, more: seq<byte>)
    requires 4 <= |wire| && 4 <= |more| && data == wire[..4] + more && more[..4] == [0x54, 0x47, 0x53, 0x4a]
    ensures !Framed(sum, data)
  {
    if |data| >= HEADER {
      BytesOfMagic();
      U32RoundTrip(MAGIC, U32(0));
      assert data[4..8] == more[..4];
    }
  }

  lemma WholeMagicIsRead(data: seq<byte>, wire: seq<byte>, written: nat, more: seq<byte>)
    requires 4 <= written <= |wire| && data == wire[..written] + more
    requires wire[..4] == [0x54, 0x47, 0x53, 0x4a]
    ensures ReadU32(data[0..4]) == MAGIC
  {
    BytesOfMagic();
    U32RoundTrip(MAGIC, U32(0));
    assert data[0..4] == wire[..4];
  }

  lemma TornTail(
    sum: Checksum, accepts: Record -> bool, r: Record, written: nat, next: Record, tail: seq<byte>)
    requires Encodable(r) && Encodable(next) && 0 < written < |Encode(sum, r)|
    requires tail == Encode(sum, r)[..written] + Encode(sum, next)
    ensures
      var (visited, end) := Replay(sum, accepts, tail);
      && (visited == [] <==> written <= 4 || !Framed(sum, tail))
      && (visited == [] ==> end.Some?)
  {
    var wire, more := Encode(sum, r), Encode(sum, next);
    StartsWithMagic(sum, r);
    StartsWithMagic(sum, next);
    VisitedExactlyIfFramed(sum, accepts, tail);
    if written < 4 {
      TornMagicIsWrong(tail, wire, written, more);
    } else {
      WholeMagicIsRead(tail, wire, written, more);
      if written == 4 { MagicIsTooLong(sum, tail, wire, more); }
    }
  }

  /** Exactly when a record appended after a torn one is not visited, nor anything else after the earlier records: when
      the tear is within the first four bytes, or the mis-framed bytes do not pass for a record. Then the replay reports
      an error, also where the torn journal alone replayed cleanly. */
  lemma AppendAfterTearIsLost(
    sum: Checksum, accepts: Record -> bool, rs: seq<Record>, r: Record, written: nat, next: Record)
    requires (forall i :: 0 <= i < |rs| ==> Encodable(rs[i]) && accepts(rs[i])) && Encodable(r) && Encodable(next)
    requires 0 < written < |Encode(sum, r)|
    ensures
      var tail := Encode(sum, r)[..written] + Encode(sum, next);
      var (visited, end) := Replay(sum, accepts, Encodings(sum, rs) + tail);
      && (visited == rs <==> written <= 4 || !Framed(sum, tail))
      && (visited == rs ==> end.Some?)
  {
    var tail := Encode(sum, r)[..written] + Encode(sum, next);
    ReplayThrough(sum, accepts, rs, tail);
    TornTail(sum, accepts, r, written, next, tail);
    var rest := Replay(sum, accepts, tail).0;
    assert rs + rest == rs <==> rest == [] by { assert |rs + rest| == |rs| + |rest|; }
  }

  /** When the header of the torn record is whole, the next record is taken for the missing part of its body: the tail
      passes for a record exactly when there are enough bytes, their checksum is that of the lost body, and they can be
      read as a body. */
  lemma TornBodyIsCompletedBy(sum: Checksum, r: Record, written: nat, next: Record)
    requires Encodable(r) && Encodable(next) && HEADER <= written < |Encode(sum, r)|
    ensures
      var missing := |Encode(sum, r)| - written;
      Framed(sum, Encode(sum, r)[..written] + Encode(sum, next)) <==>
        && missing <= |Encode(sum, next)|
        && var body := Body(r)[..written - HEADER] + Encode(sum, next)[..missing];
          sum(body) == sum(Body(r)) && DecodeBody(body).Ok?
  {
    var wire, more := Encode(sum, r), Encode(sum, next);
    var data, n := wire[..written] + more, |Body(r)|;
    assert data[..HEADER] == wire[..HEADER];
    HeaderOfEncoding(sum, r, data);
    if |wire| - written <= |more| { TornBody(wire, Body(r), written, more); }
  }

  lemma TornBody(wire: seq<byte>, body: seq<byte>, written: nat, more: seq<byte>)
    requires |wire| == HEADER + |body| && wire[HEADER..] == body
    requires HEADER <= written < |wire| && |wire| - written <= |more|
    ensures (wire[..written] + more)[HEADER..HEADER + |body|] == body[..written - HEADER] + more[..|wire| - written]
  {
    assert wire[HEADER..written] == body[..written - HEADER];
  }
}
