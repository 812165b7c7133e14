/** The PNG writer of the icon generator, against a reader that follows sections 5 and 11.2 of
    the PNG specification for the subset written. */
module Png {
  import opened Options
  import opened Crc32

  // ---------- big-endian numbers ----------

  const WORD_LIMIT := 0x1_0000_0000

  function Power256(k: nat): nat {
    if k == 0 then 1 else 256 * Power256(k - 1)
  }

  /** The k-byte big-endian form of n. */
  function BigEndian(n: nat, k: nat): (b: Bytes)
    ensures |b| == k
    decreases k
  {
    if k == 0 then [] else BigEndian(n / 256, k - 1) + [(n % 256) as bv8]
  }

  function ReadBigEndian(b: Bytes): nat {
    if b == [] then 0 else ReadBigEndian(b[..|b| - 1]) * 256 + b[|b| - 1] as nat
  }

  lemma Successor(b: bv8)
    requires b != 255
    ensures (b + 1) as nat == b as nat + 1
  {
  }

  lemma {:induction false} ByteReadsBack(n: nat)
    requires n < 256
    ensures (n as bv8) as nat == n
  {
    if n > 0 {
      ByteReadsBack(n - 1);
      Successor((n - 1) as bv8);
      BitsOfNat((n - 1) as bv8 + 1);
    }
  }

  lemma BitsOfNat(b: bv8)
    ensures (b as nat) as bv8 == b
  {
  }

  lemma {:induction false} ReadBack(n: nat, k: nat)
    requires n < Power256(k)
    ensures ReadBigEndian(BigEndian(n, k)) == n
    decreases k
  {
    if k > 0 {
      ByteReadsBack(n % 256);
      ReadBack(n / 256, k - 1);
      assert BigEndian(n, k)[..k - 1] == BigEndian(n / 256, k - 1);
    }
  }

  lemma SameLastDigit(p: nat, q: nat, x: bv8, y: bv8)
    requires p * 256 + x as nat == q * 256 + y as nat
    ensures p == q && x == y
  {
    BitsOfNat(x);
    BitsOfNat(y);
  }

  lemma {:induction false} ReadInjective(b: Bytes, c: Bytes)
    requires |b| == |c| && ReadBigEndian(b) == ReadBigEndian(c)
    ensures b == c
    decreases |b|
  {
    if b != [] {
      var n := |b| - 1;
      SameLastDigit(ReadBigEndian(b[..n]), ReadBigEndian(c[..n]), b[n], c[n]);
      ReadInjective(b[..n], c[..n]);
      assert b == b[..n] + [b[n]] && c == c[..n] + [c[n]];
    }
  }

  function Number(c: bv32): nat {
    c as nat
  }

  function Bits(n: nat): bv32 {
    if n < WORD_LIMIT then n as bv32 else 0
  }

  lemma BitsOfNumber(c: bv32)
    ensures Number(c) < WORD_LIMIT && Bits(Number(c)) == c
  {
  }

  lemma NumberInjective(c: bv32, d: bv32)
    requires Number(c) == Number(d)
    ensures c == d
  {
    BitsOfNumber(c);
    BitsOfNumber(d);
  }

  /** The four bytes of an unsigned 32-bit big-endian write. */
  function Be32(n: nat): Bytes {
    BigEndian(n, 4)
  }

  lemma Be32ReadsBack(n: nat)
    requires n < WORD_LIMIT
    ensures ReadBigEndian(Be32(n)) == n
  {
    assert Power256(4) == WORD_LIMIT;
    ReadBack(n, 4);
  }

  // ---------- chunks ----------

  const IHDR: Bytes := [0x49, 0x48, 0x44, 0x52]
  const IDAT: Bytes := [0x49, 0x44, 0x41, 0x54]
  const IEND: Bytes := [0x49, 0x45, 0x4e, 0x44]

  function Chunk(name: Bytes, data: Bytes): Bytes {
    Be32(|data|) + (name + data) + Be32(Number(Crc(name + data)))
  }

  datatype Parsed = Parsed(name: Bytes, data: Bytes, rest: Bytes)

  function Checked(body: Bytes, crc: Bytes, rest: Bytes): Option<Parsed>
    requires |body| >= 4
  {
    if ReadBigEndian(crc) != Number(Crc(body)) then None else Some(Parsed(body[..4], body[4..], rest))
  }

  /** Reads one chunk off the front: length, type, data, and a CRC that must match. */
  function ParseChunk(s: Bytes): Option<Parsed> {
    if |s| < 4 then None
    else
      var n := ReadBigEndian(s[..4]);
      if |s| < 12 + n then None else Checked(s[4..8 + n], s[8 + n..12 + n], s[12 + n..])
  }

  lemma FourPieces(a: Bytes, b: Bytes, c: Bytes, rest: Bytes, s: Bytes)
    requires |a| == |c| == 4 && s == a + b + c + rest
    ensures s[..4] == a && s[4..4 + |b|] == b
    ensures s[4 + |b|..8 + |b|] == c && s[8 + |b|..] == rest
  {
  }

  /** What a chunk-shaped input parses to, whatever its body and its CRC bytes are. */
  lemma ParsePieces(len: Bytes, body: Bytes, crc: Bytes, rest: Bytes, s: Bytes)
    requires |len| == |crc| == 4 && |body| == ReadBigEndian(len) + 4 && s == len + body + crc + rest
    ensures ParseChunk(s) == Checked(body, crc, rest)
  {
    FourPieces(len, body, crc, rest, s);
  }

  /** Reading undoes writing. */
  lemma ParseUndoesChunk(name: Bytes, data: Bytes, rest: Bytes)
    requires |name| == 4 && |data| < WORD_LIMIT
    ensures ParseChunk(Chunk(name, data) + rest) == Some(Parsed(name, data, rest))
  {
    var body := name + data;
    Be32ReadsBack(|data|);
    BitsOfNumber(Crc(body));
    Be32ReadsBack(Number(Crc(body)));
    ParsePieces(Be32(|data|), body, Be32(Number(Crc(body))), rest, Chunk(name, data) + rest);
    assert body[..4] == name && body[4..] == data;
  }

  lemma UpdateMiddle(a: Bytes, b: Bytes, c: Bytes, i: nat, x: bv8)
    requires |a| <= i < |a| + |b|
    ensures (a + b + c)[i := x] == a + b[i - |a| := x] + c
  {
  }

  lemma UpdateEnd(a: Bytes, b: Bytes, i: nat, x: bv8)
    requires |a| <= i < |a| + |b|
    ensures (a + b)[i := x] == a + b[i - |a| := x]
  {
  }

  lemma DamagedBody(name: Bytes, data: Bytes, rest: Bytes, i: nat, x: bv8)
    requires |name| == 4 && |data| < WORD_LIMIT
    requires 4 <= i < 8 + |data| && x != Chunk(name, data)[i]
    ensures ParseChunk(Chunk(name, data)[i := x] + rest) == None
  {
    var body := name + data;
    var crc := Be32(Number(Crc(body)));
    UpdateMiddle(Be32(|data|), body, crc, i, x);
    assert Chunk(name, data)[i] == body[i - 4];
    SingleByteChangeDetected(body, i - 4, x);
    Be32ReadsBack(|data|);
    BitsOfNumber(Crc(body));
    Be32ReadsBack(Number(Crc(body)));
    if Number(Crc(body[i - 4 := x])) == Number(Crc(body)) {
      NumberInjective(Crc(body[i - 4 := x]), Crc(body));
    }
    ParsePieces(Be32(|data|), body[i - 4 := x], crc, rest, Chunk(name, data)[i := x] + rest);
  }

  lemma DamagedCrc(name: Bytes, data: Bytes, rest: Bytes, i: nat, x: bv8)
    requires |name| == 4 && |data| < WORD_LIMIT
    requires 8 + |data| <= i < 12 + |data| && x != Chunk(name, data)[i]
    ensures ParseChunk(Chunk(name, data)[i := x] + rest) == None
  {
    var body := name + data;
    var crc := Be32(Number(Crc(body)));
    var k := i - (8 + |data|);
    UpdateEnd(Be32(|data|) + body, crc, i, x);
    assert Chunk(name, data)[i] == crc[k];
    Be32ReadsBack(|data|);
    BitsOfNumber(Crc(body));
    Be32ReadsBack(Number(Crc(body)));
    if ReadBigEndian(crc[k := x]) == ReadBigEndian(crc) {
      ReadInjective(crc[k := x], crc);
    }
    ParsePieces(Be32(|data|), body, crc[k := x], rest, Chunk(name, data)[i := x] + rest);
  }

  /** One wrong byte anywhere after the length field makes the reader refuse the chunk. */
  lemma DamageIsDetected(name: Bytes, data: Bytes, rest: Bytes, i: nat, x: bv8)
    requires |name| == 4 && |data| < WORD_LIMIT
    requires 4 <= i < |Chunk(name, data)| && x != Chunk(name, data)[i]
    ensures ParseChunk(Chunk(name, data)[i := x] + rest) == None
  {
    if i < 8 + |data| {
      DamagedBody(name, data, rest, i, x);
    } else {
      DamagedCrc(name, data, rest, i, x);
    }
  }

  // ---------- scanlines ----------

  /** The first n bytes of a pixel buffer, zero beyond its end. */
  function Fitted(rgba: Bytes, n: nat): (px: Bytes)
    ensures |px| == n
  {
    seq(n, k requires 0 <= k => if k < |rgba| then rgba[k] else 0)
  }

  /** h scanlines of the given length, each behind a zero filter byte. */
  function Scanlines(px: Bytes, stride: nat, h: nat): Bytes
    requires |px| == stride * h
    decreases h
  {
    if h == 0 then []
    else
      assert stride * (h - 1) + stride == stride * h;
      Scanlines(px[..stride * (h - 1)], stride, h - 1) + ([0] + px[stride * (h - 1)..])
  }

  /** The reader of scanlines: every filter byte must be zero, and nothing may be left over. */
  function Unfilter(raw: Bytes, stride: nat, h: nat): Option<Bytes>
    decreases h
  {
    if h == 0 then if raw == [] then Some([]) else None
    else if |raw| < stride + 1 || raw[0] != 0 then None
    else
      match Unfilter(raw[stride + 1..], stride, h - 1)
      case None => None
      case Some(rest) => Some(raw[1..stride + 1] + rest)
  }

  lemma RowOff(first: Bytes, rest: Bytes, row: Bytes, stride: nat)
    requires |first| == stride + 1
    ensures (first + rest + row)[..stride + 1] == first && (first + rest + row)[stride + 1..] == rest + row
  {
  }

  lemma {:induction false} UnfilterAppend(raw: Bytes, stride: nat, h: nat, row: Bytes)
    requires Unfilter(raw, stride, h).Some? && |row| == stride
    ensures Unfilter(raw + ([0] + row), stride, h + 1) == Some(Unfilter(raw, stride, h).value + row)
    decreases h
  {
    var all := raw + ([0] + row);
    if h == 0 {
      assert all == [0] + row && all[stride + 1..] == [] && all[1..stride + 1] == row;
      assert Unfilter(all[stride + 1..], stride, 0) == Some([]);
      assert row + [] == row && [] + row == row;
    } else {
      var first, rest := raw[..stride + 1], raw[stride + 1..];
      UnfilterAppend(rest, stride, h - 1, row);
      assert raw == first + rest;
      RowOff(first, rest, [0] + row, stride);
      assert all[1..stride + 1] == raw[1..stride + 1];
      var tail := Unfilter(rest, stride, h - 1).value;
      assert raw[1..stride + 1] + (tail + row) == raw[1..stride + 1] + tail + row;
    }
  }

  lemma LastRow(px: Bytes, stride: nat, h: nat)
    requires |px| == stride * h && h > 0
    ensures 0 <= stride * (h - 1) <= |px| && |px[stride * (h - 1)..]| == stride
    ensures |px[..stride * (h - 1)]| == stride * (h - 1)
    ensures px == px[..stride * (h - 1)] + px[stride * (h - 1)..]
  {
    assert stride * (h - 1) + stride == stride * h;
  }

  /** Reading undoes filtering. */
  lemma {:induction false} UnfilterUndoesScanlines(px: Bytes, stride: nat, h: nat)
    requires |px| == stride * h
    ensures Unfilter(Scanlines(px, stride, h), stride, h) == Some(px)
    decreases h
  {
    if h > 0 {
      LastRow(px, stride, h);
      var head, row := px[..stride * (h - 1)], px[stride * (h - 1)..];
      UnfilterUndoesScanlines(head, stride, h - 1);
      UnfilterAppend(Scanlines(head, stride, h - 1), stride, h - 1, row);
    }
  }

  lemma {:induction false} ScanlinesLength(px: Bytes, stride: nat, h: nat)
    requires |px| == stride * h
    ensures |Scanlines(px, stride, h)| == (stride + 1) * h
    decreases h
  {
    if h > 0 {
      assert stride * (h - 1) + stride == stride * h;
      ScanlinesLength(px[..stride * (h - 1)], stride, h - 1);
      assert (stride + 1) * (h - 1) + (stride + 1) == (stride + 1) * h;
    }
  }

  lemma FittedPrefix(rgba: Bytes, m: nat, n: nat)
    requires m <= n
    ensures Fitted(rgba, n)[..m] == Fitted(rgba, m)
  {
  }

  lemma FittedAll(rgba: Bytes)
    ensures Fitted(rgba, |rgba|) == rgba
  {
  }

  lemma MultiplyLe(a: nat, b: nat, c: nat)
    requires b <= c
    ensures a * b <= a * c
  {
  }

  function Zeros(n: nat): (z: Bytes)
    ensures |z| == n
  {
    seq(n, _ => 0)
  }

  /** What there is of a slice of a buffer. */
  function Slice(source: Bytes, from: nat, to: nat): Bytes
    requires from <= |source| && from <= to
  {
    if to <= |source| then source[from..to] else source[from..]
  }

  lemma FittedRow(rgba: Bytes, m: nat, n: nat)
    requires m <= n && m <= |rgba|
    ensures |Slice(rgba, m, n)| <= n - m
    ensures Fitted(rgba, n)[m..] == Slice(rgba, m, n) + Zeros(n - m - |Slice(rgba, m, n)|)
  {
  }

  /** The buffer with part written at the given place. */
  function Overlay(buf: Bytes, at: nat, part: Bytes): Bytes
    requires at + |part| <= |buf|
  {
    buf[..at] + part + buf[at + |part|..]
  }

  lemma OverlayPush(buf: Bytes, at: nat, part: Bytes, x: bv8)
    requires at + |part| < |buf|
    ensures Overlay(buf, at, part)[at + |part| := x] == Overlay(buf, at, part + [x])
  {
  }

  lemma OverlayNothing(buf: Bytes, at: nat)
    requires at <= |buf|
    ensures Overlay(buf, at, []) == buf
  {
  }

  lemma OverlayAll(buf: Bytes, part: Bytes)
    requires |buf| == |part|
    ensures Overlay(buf, 0, part) == part
  {
  }

  /** Writes bytes into a buffer at the given place. */
  method Write(target: array<bv8>, at: nat, part: Bytes)
    requires at + |part| <= target.Length
    modifies target
    ensures target[..] == Overlay(old(target[..]), at, part)
  {
    ghost var was := target[..];
    var i := 0;
    OverlayNothing(was, at);
    while i < |part|
      invariant i <= |part|
      invariant target[..] == Overlay(was, at, part[..i])
    {
      OverlayPush(was, at, part[..i], part[i]);
      assert part[..i] + [part[i]] == part[..i + 1];
      ghost var before := target[..];
      target[at + i] := part[i];
      assert target[..] == before[at + i := part[i]];
      i := i + 1;
    }
    assert part[..i] == part;
  }

  /** The copy of a slice of one buffer into another: refused when the slice starts past the
      end of its source, cut when it ends past it. */
  method Copy(target: array<bv8>, targetStart: nat, source: Bytes, sourceStart: nat, sourceEnd: nat) returns (ok: bool)
    requires sourceStart <= sourceEnd && targetStart + (sourceEnd - sourceStart) <= target.Length
    modifies target
    ensures ok == (sourceStart <= |source|)
    ensures !ok ==> target[..] == old(target[..])
    ensures ok ==> target[..] == Overlay(old(target[..]), targetStart, Slice(source, sourceStart, sourceEnd))
  {
    ok := sourceStart <= |source|;
    if ok {
      Write(target, targetStart, Slice(source, sourceStart, sourceEnd));
    }
  }

  /** Whether every scanline starts inside the pixel buffer. */
  predicate RowsStartInside(rgba: Bytes, stride: nat, height: nat) {
    height > 0 ==> stride * (height - 1) <= |rgba|
  }

  lemma RowWritten(done: Bytes, part: Bytes, stride: nat, rest: nat)
    requires |part| <= stride
    ensures Overlay(done + Zeros(1 + stride + rest), |done| + 1, part) ==
            done + ([0] + (part + Zeros(stride - |part|))) + Zeros(rest)
  {
  }

  lemma AlreadyZero(done: Bytes, n: nat)
    requires n > 0
    ensures (done + Zeros(n))[|done| := 0] == done + Zeros(n)
  {
  }

  lemma ScanlineAdded(rgba: Bytes, stride: nat, y: nat)
    requires stride * y <= |rgba|
    ensures stride * y + stride == stride * (y + 1)
    ensures |Slice(rgba, stride * y, stride * (y + 1))| <= stride
    ensures var part := Slice(rgba, stride * y, stride * (y + 1));
            Scanlines(Fitted(rgba, stride * (y + 1)), stride, y + 1) ==
            Scanlines(Fitted(rgba, stride * y), stride, y) + ([0] + (part + Zeros(stride - |part|)))
  {
    FittedPrefix(rgba, stride * y, stride * (y + 1));
    FittedRow(rgba, stride * y, stride * (y + 1));
  }

  /** The first y scanlines, from a pixel buffer cut or padded to their length. */
  function FirstRows(rgba: Bytes, stride: nat, y: nat): Bytes {
    Scanlines(Fitted(rgba, stride * y), stride, y)
  }

  /** What one round of the row loop adds, with the positions it computes. */
  lemma RowAdds(rgba: Bytes, stride: nat, y: nat, at: nat, from: nat, to: nat)
    requires at == y * (stride + 1) && from == stride * y && to == stride * (y + 1)
    ensures |FirstRows(rgba, stride, y)| == at && to == from + stride
    ensures RowsStartInside(rgba, stride, y + 1) <==> from <= |rgba|
    ensures from <= |rgba| ==>
              var part := Slice(rgba, from, to);
              && |part| <= stride
              && FirstRows(rgba, stride, y + 1) ==
                 FirstRows(rgba, stride, y) + ([0] + (part + Zeros(stride - |part|)))
  {
    ScanlinesLength(Fitted(rgba, from), stride, y);
    if from <= |rgba| {
      ScanlineAdded(rgba, stride, y);
    }
  }

  /** One round of the row loop: the filter byte, then the pixels. */
  method WriteRow(raw: array<bv8>, rgba: Bytes, stride: nat, y: nat, ghost left: nat) returns (ok: bool)
    requires raw[..] == FirstRows(rgba, stride, y) + Zeros(left + stride + 1)
    modifies raw
    ensures ok == RowsStartInside(rgba, stride, y + 1)
    ensures ok ==> raw[..] == FirstRows(rgba, stride, y + 1) + Zeros(left)
  {
    var at, from, to := y * (stride + 1), stride * y, stride * (y + 1);
    RowAdds(rgba, stride, y, at, from, to);
    ok := WriteRowAt(raw, rgba, stride, at, from, to, FirstRows(rgba, stride, y), left);
  }

  /** The same at given positions of the buffers. */
  method WriteRowAt(raw: array<bv8>, rgba: Bytes, stride: nat, at: nat, from: nat, to: nat,
                    ghost done: Bytes, ghost left: nat) returns (ok: bool)
    requires at == |done| && to == from + stride && raw[..] == done + Zeros(left + stride + 1)
    modifies raw
    ensures ok == (from <= |rgba|)
    ensures ok ==> var part := Slice(rgba, from, to);
                   |part| <= stride && raw[..] == done + ([0] + (part + Zeros(stride - |part|))) + Zeros(left)
  {
    assert |raw[..]| == at + 1 + stride + left;
    AlreadyZero(done, 1 + stride + left);
    raw[at] := 0;
    assert raw[..] == done + Zeros(1 + stride + left);
    ok := Copy(raw, at + 1, rgba, from, to);
    if ok {
      RowWritten(done, Slice(rgba, from, to), stride, left);
    }
  }

  /** The bytes of n filtered rows. */
  function RowBytes(stride: nat, n: nat): nat {
    (stride + 1) * n
  }

  lemma OneMoreRow(stride: nat, n: nat)
    ensures RowBytes(stride, n + 1) == RowBytes(stride, n) + stride + 1
  {
  }

  lemma NoRows(rgba: Bytes, stride: nat)
    ensures RowBytes(stride, 0) == 0 && FirstRows(rgba, stride, 0) == []
    ensures RowsStartInside(rgba, stride, 0)
  {
  }

  /** If some row starts outside the pixel buffer, so does the last. */
  lemma RowOutside(rgba: Bytes, stride: nat, y: nat, height: nat)
    requires y < height && !RowsStartInside(rgba, stride, y + 1)
    ensures !RowsStartInside(rgba, stride, height)
  {
    MultiplyLe(stride, y, height - 1);
  }

  /** The row loop. */
  method FillRows(raw: array<bv8>, rgba: Bytes, stride: nat, height: nat) returns (ok: bool)
    requires raw.Length == RowBytes(stride, height) && raw[..] == Zeros(raw.Length)
    modifies raw
    ensures ok == RowsStartInside(rgba, stride, height)
    ensures ok ==> raw[..] == FirstRows(rgba, stride, height)
  {
    ok := true;
    var y := 0;
    NoRows(rgba, stride);
    assert [] + Zeros(raw.Length) == Zeros(raw.Length);
    while y < height
      invariant y <= height
      invariant RowsStartInside(rgba, stride, y)
      invariant raw[..] == FirstRows(rgba, stride, y) + Zeros(RowBytes(stride, height - y))
    {
      OneMoreRow(stride, height - y - 1);
      ok := WriteRow(raw, rgba, stride, y, RowBytes(stride, height - y - 1));
      if !ok {
        RowOutside(rgba, stride, y, height);
        return;
      }
      y := y + 1;
    }
    assert FirstRows(rgba, stride, height) + Zeros(0) == FirstRows(rgba, stride, height);
  }

  /** The filtered image, row by row in one zeroed buffer. */
  method BuildRaw(width: nat, height: nat, rgba: Bytes) returns (ok: bool, raw: array<bv8>)
    ensures ok == RowsStartInside(rgba, width * 4, height)
    ensures ok ==> raw[..] == FirstRows(rgba, width * 4, height)
  {
    var stride := width * 4;
    raw := new bv8[(stride + 1) * height](_ => 0);
    ok := FillRows(raw, rgba, stride, height);
  }

  // ---------- the file ----------

  const SIGNATURE: Bytes := [0x89, 0x50, 0x4e, 0x47, 0x0d, 0x0a, 0x1a, 0x0a]

  /** Bit depth 8, colour type 6, and three zero method bytes. */
  const FORMAT: Bytes := [8, 6, 0, 0, 0]

  function Header(width: nat, height: nat): Bytes {
    Be32(width) + Be32(height) + FORMAT
  }

  function Compose(header: Bytes, idat: Bytes): Bytes {
    SIGNATURE + (Chunk(IHDR, header) + (Chunk(IDAT, idat) + Chunk(IEND, [])))
  }

  function RawImage(width: nat, height: nat, rgba: Bytes): Bytes {
    FirstRows(rgba, width * 4, height)
  }

  /** The encoder's failures: a dimension or a compressed size that does not fit its field, or
      a pixel buffer that ends before the last scanline starts. */
  predicate Encodable(width: nat, height: nat, rgba: Bytes, deflate: Bytes -> Bytes) {
    width < WORD_LIMIT && height < WORD_LIMIT && RowsStartInside(rgba, width * 4, height) &&
    |deflate(RawImage(width, height, rgba))| < WORD_LIMIT
  }

  method WriteUInt32BE(buf: array<bv8>, n: nat, at: nat) returns (ok: bool)
    requires at + 4 <= buf.Length
    modifies buf
    ensures ok == (n < WORD_LIMIT)
    ensures ok ==> buf[..] == Overlay(old(buf[..]), at, Be32(n))
  {
    if n >= WORD_LIMIT {
      return false;
    }
    Write(buf, at, Be32(n));
    ok := true;
  }

  /** A fresh four-byte buffer holding a number. */
  method NumberBuffer(n: nat) returns (ok: bool, b: Bytes)
    ensures ok == (n < WORD_LIMIT)
    ensures ok ==> b == Be32(n)
  {
    var buf := new bv8[4](_ => 0);
    ghost var was := buf[..];
    ok := WriteUInt32BE(buf, n, 0);
    OverlayAll(was, Be32(n));
    b := buf[..];
  }

  method MakeChunk(table: array<Word>, name: Bytes, data: Bytes) returns (chunk: Option<Bytes>)
    requires IsTable(table[..])
    ensures chunk == if |data| < WORD_LIMIT then Some(Chunk(name, data)) else None
  {
    var ok, len := NumberBuffer(|data|);
    if !ok {
      return None;
    }
    var sum := ComputeCrc(table, name + data);
    BitsOfNumber(sum);
    var _, crc := NumberBuffer(Number(sum));
    chunk := Some(len + (name + data) + crc);
  }

  /** The thirteen header bytes, in one zeroed buffer. */
  method BuildHeader(width: nat, height: nat) returns (ok: bool, ihdr: array<bv8>)
    ensures ok == (width < WORD_LIMIT && height < WORD_LIMIT)
    ensures ok ==> ihdr[..] == Header(width, height)
  {
    ihdr := new bv8[13](_ => 0);
    assert ihdr[..] == Zeros(13);
    ok := WriteUInt32BE(ihdr, width, 0);
    if !ok {
      return;
    }
    ok := WriteUInt32BE(ihdr, height, 4);
    if !ok {
      return;
    }
    HeaderWritten(Be32(width), Be32(height));
    ghost var written := ihdr[..];
    ihdr[8] := 8;
    ihdr[9] := 6;
    assert ihdr[..] == written[8 := 8][9 := 6];
  }

  lemma HeaderWritten(w: Bytes, h: Bytes)
    requires |w| == |h| == 4
    ensures Overlay(Overlay(Zeros(13), 0, w), 4, h)[8 := 8][9 := 6] == w + h + FORMAT
  {
  }

  /** The whole encoder, with the compressor as a parameter. */
  method EncodePng(table: array<Word>, width: nat, height: nat, rgba: Bytes, deflate: Bytes -> Bytes)
    returns (file: Option<Bytes>)
    requires IsTable(table[..])
    ensures file.Some? == Encodable(width, height, rgba, deflate)
    ensures file.Some? ==> file.value == Compose(Header(width, height), deflate(RawImage(width, height, rgba)))
  {
    var ok, ihdr := BuildHeader(width, height);
    if !ok {
      return None;
    }
    var raw;
    ok, raw := BuildRaw(width, height, rgba);
    if !ok {
      return None;
    }
    var header := MakeChunk(table, IHDR, ihdr[..]);
    var idat := MakeChunk(table, IDAT, deflate(raw[..]));
    var end := MakeChunk(table, IEND, []);
    if header.None? || idat.None? || end.None? {
      return None;
    }
    file := Some(SIGNATURE + (header.value + (idat.value + end.value)));
  }

  datatype Image = Image(width: nat, height: nat, rgba: Bytes)

  datatype Framed = Framed(header: Bytes, idat: Bytes)

  /** A chunk of the given type off the front. */
  function Expect(s: Bytes, name: Bytes): Option<Parsed> {
    match ParseChunk(s)
    case None => None
    case Some(p) => if p.name == name then Some(p) else None
  }

  /** The signature, one header chunk, one data chunk, one end chunk and nothing else. */
  function ParseFile(s: Bytes): Option<Framed> {
    if |s| < 8 || s[..8] != SIGNATURE then None
    else
      match Expect(s[8..], IHDR)
      case None => None
      case Some(header) =>
        match Expect(header.rest, IDAT)
        case None => None
        case Some(idat) =>
          match Expect(idat.rest, IEND)
          case None => None
          case Some(end) => if end.data == [] && end.rest == [] then Some(Framed(header.data, idat.data)) else None
  }

  /** Reads a file of the subset written. A zero dimension is invalid (section 11.2.2). */
  function Decode(s: Bytes, inflate: Bytes -> Option<Bytes>): Option<Image> {
    match ParseFile(s)
    case None => None
    case Some(f) =>
      if |f.header| != 13 || f.header[8..] != FORMAT then None
      else
        var width, height := ReadBigEndian(f.header[..4]), ReadBigEndian(f.header[4..8]);
        if width == 0 || height == 0 then None
        else
          match inflate(f.idat)
          case None => None
          case Some(raw) =>
            match Unfilter(raw, width * 4, height)
            case None => None
            case Some(rgba) => Some(Image(width, height, rgba))
  }

  lemma ExpectChunk(name: Bytes, data: Bytes, rest: Bytes)
    requires |name| == 4 && |data| < WORD_LIMIT
    ensures Expect(Chunk(name, data) + rest, name) == Some(Parsed(name, data, rest))
  {
    ParseUndoesChunk(name, data, rest);
  }

  lemma SignatureOff(rest: Bytes)
    ensures (SIGNATURE + rest)[..8] == SIGNATURE && (SIGNATURE + rest)[8..] == rest
  {
  }

  lemma ParseUndoesCompose(header: Bytes, idat: Bytes)
    requires |header| < WORD_LIMIT && |idat| < WORD_LIMIT
    ensures ParseFile(Compose(header, idat)) == Some(Framed(header, idat))
  {
    var end := Chunk(IEND, []);
    ExpectChunk(IHDR, header, Chunk(IDAT, idat) + end);
    ExpectChunk(IDAT, idat, end);
    ExpectChunk(IEND, [], []);
    assert end + [] == end;
    SignatureOff(Chunk(IHDR, header) + (Chunk(IDAT, idat) + end));
  }

  lemma HeaderReads(width: nat, height: nat)
    requires width < WORD_LIMIT && height < WORD_LIMIT
    ensures |Header(width, height)| == 13 && Header(width, height)[8..] == FORMAT
    ensures ReadBigEndian(Header(width, height)[..4]) == width
    ensures ReadBigEndian(Header(width, height)[4..8]) == height
  {
    Be32ReadsBack(width);
    Be32ReadsBack(height);
    HeaderSlices(Be32(width), Be32(height));
  }

  lemma HeaderSlices(w: Bytes, h: Bytes)
    requires |w| == |h| == 4
    ensures (w + h + FORMAT)[..4] == w && (w + h + FORMAT)[4..8] == h && (w + h + FORMAT)[8..] == FORMAT
  {
  }

  /** Every file the encoder writes decodes to the image it was given, its buffer cut or filled
      with zeros to the size of the image, exactly when no dimension is zero. */
  lemma DecodeUndoesEncode(
    width: nat, height: nat, rgba: Bytes, deflate: Bytes -> Bytes, inflate: Bytes -> Option<Bytes>)
    requires Encodable(width, height, rgba, deflate)
    requires inflate(deflate(RawImage(width, height, rgba))) == Some(RawImage(width, height, rgba))
    ensures Decode(Compose(Header(width, height), deflate(RawImage(width, height, rgba))), inflate) ==
            if width > 0 && height > 0 then Some(Image(width, height, Fitted(rgba, width * 4 * height))) else None
  {
    HeaderReads(width, height);
    ParseUndoesCompose(Header(width, height), deflate(RawImage(width, height, rgba)));
    UnfilterUndoesScanlines(Fitted(rgba, width * 4 * height), width * 4, height);
  }

  /** In particular a full pixel buffer comes back byte for byte. */
  lemma FullBufferComesBack(
    width: nat, height: nat, rgba: Bytes, deflate: Bytes -> Bytes, inflate: Bytes -> Option<Bytes>)
    requires |rgba| == width * 4 * height && width > 0 && height > 0
    requires Encodable(width, height, rgba, deflate)
    requires inflate(deflate(RawImage(width, height, rgba))) == Some(RawImage(width, height, rgba))
    ensures Decode(Compose(Header(width, height), deflate(RawImage(width, height, rgba))), inflate) ==
            Some(Image(width, height, rgba))
  {
    DecodeUndoesEncode(width, height, rgba, deflate, inflate);
    FittedAll(rgba);
  }

  // ---------- the bytes themselves ----------

  lemma TopBytes(a: nat, b: nat, c: nat, d: nat)
    requires a < 256 && b < 256 && c < 256 && d < 256
    ensures var n := ((a * 256 + b) * 256 + c) * 256 + d;
            && n % 256 == d && n / 256 % 256 == c && n / 256 / 256 % 256 == b && n / 256 / 256 / 256 % 256 == a
  {
  }

  /** Most significant byte first. */
  lemma Be32Bytes(a: nat, b: nat, c: nat, d: nat)
    requires a < 256 && b < 256 && c < 256 && d < 256
    ensures Be32(((a * 256 + b) * 256 + c) * 256 + d) == [a as bv8, b as bv8, c as bv8, d as bv8]
  {
    var n := ((a * 256 + b) * 256 + c) * 256 + d;
    TopBytes(a, b, c, d);
    assert BigEndian(n / 256 / 256 / 256 / 256, 0) == [];
    assert BigEndian(n / 256 / 256 / 256, 1) == [a as bv8];
    assert BigEndian(n / 256 / 256, 2) == [a as bv8, b as bv8];
    assert BigEndian(n / 256, 3) == [a as bv8, b as bv8, c as bv8];
  }

  lemma SmallNumbers()
    ensures Be32(13) == [0, 0, 0, 13] && Be32(0) == [0, 0, 0, 0]
  {
    Be32Bytes(0, 0, 0, 13);
    Be32Bytes(0, 0, 0, 0);
  }

  lemma EndBytes(a: nat, b: nat, c: nat, d: nat)
    requires a == 0xae && b == 0x42 && c == 0x60 && d == 0x82
    ensures a as bv8 == 0xae && b as bv8 == 0x42 && c as bv8 == 0x60 && d as bv8 == 0x82
    ensures ((a * 256 + b) * 256 + c) * 256 + d == 0xae426082
  {
  }

  lemma EndCrcBytes(n: nat, a: nat, b: nat, c: nat, d: nat)
    requires a == 0xae && b == 0x42 && c == 0x60 && d == 0x82
    requires n == ((a * 256 + b) * 256 + c) * 256 + d
    ensures Be32(n) == [0xae, 0x42, 0x60, 0x82]
  {
    EndBytes(a, b, c, d);
    Be32Bytes(a, b, c, d);
  }

  /** The end chunk is the twelve bytes every PNG file ends with. */
  lemma EndChunkIs()
    ensures Chunk(IEND, []) == [0, 0, 0, 0, 0x49, 0x45, 0x4e, 0x44, 0xae, 0x42, 0x60, 0x82]
  {
    SmallNumbers();
    CrcOfEnd();
    assert IEND + [] == [0x49, 0x45, 0x4e, 0x44];
    NumberIs(Crc(IEND + []));
    EndCrcBytes(Number(Crc(IEND + [])), 0xae, 0x42, 0x60, 0x82);
  }

  lemma NumberIs(c: bv32)
    requires c == 0xae426082
    ensures Number(c) == 0xae426082
  {
  }

  /** The layout of a file: signature; length 13, IHDR, dimensions, format, CRC; length, IDAT, the
      compressed rows, CRC; and the end chunk. */
  lemma FileLayout(width: nat, height: nat, idat: Bytes)
    ensures |Header(width, height)| == 13
    ensures var header := Be32(width) + Be32(height) + [8, 6, 0, 0, 0];
            var ihdr, data: Bytes := [0x49, 0x48, 0x44, 0x52] + header, [0x49, 0x44, 0x41, 0x54] + idat;
            Compose(Header(width, height), idat) ==
              [0x89, 0x50, 0x4e, 0x47, 0x0d, 0x0a, 0x1a, 0x0a]
              + (([0, 0, 0, 13] + ihdr + Be32(Number(Crc(ihdr))))
                 + ((Be32(|idat|) + data + Be32(Number(Crc(data))))
                    + [0, 0, 0, 0, 0x49, 0x45, 0x4e, 0x44, 0xae, 0x42, 0x60, 0x82]))
  {
    SmallNumbers();
    EndChunkIs();
  }

  lemma RowAt(px: Bytes, stride: nat, h: nat)
    requires |px| == stride * h && h > 0
    ensures 0 <= stride * (h - 1) <= |px|
    ensures var before := Scanlines(px[..stride * (h - 1)], stride, h - 1);
            && |before| == (stride + 1) * (h - 1)
            && Scanlines(px, stride, h) == before + ([0] + px[stride * (h - 1)..])
  {
    LastRow(px, stride, h);
    ScanlinesLength(px[..stride * (h - 1)], stride, h - 1);
  }

  lemma RowInside(stride: nat, y: nat, h: nat)
    requires y < h
    ensures stride * y + stride <= stride * h
  {
    MultiplyLe(stride, y + 1, h);
    assert stride * (y + 1) == stride * y + stride;
  }

  lemma SliceInFront(a: Bytes, b: Bytes, i: nat, j: nat)
    requires i <= j <= |a|
    ensures (a + b)[i..j] == a[i..j]
  {
  }

  lemma SliceBehind(a: Bytes, b: Bytes, i: nat, j: nat)
    requires i == |a| && j == |a| + |b|
    ensures (a + b)[i..j] == b
  {
  }

  /** Row y stands at y * (stride + 1), behind a zero. */
  lemma {:induction false} ScanlineAt(px: Bytes, stride: nat, h: nat, y: nat, at: nat, from: nat)
    requires |px| == stride * h && y < h && at == (stride + 1) * y && from == stride * y
    ensures from + stride <= |px| && at + stride + 1 <= |Scanlines(px, stride, h)|
    ensures Scanlines(px, stride, h)[at..at + stride + 1] == [0] + px[from..from + stride]
    decreases h
  {
    RowInside(stride, y, h);
    RowAt(px, stride, h);
    LastRow(px, stride, h);
    var n := stride * (h - 1);
    var before, row := Scanlines(px[..n], stride, h - 1), [0] + px[n..];
    if y < h - 1 {
      RowInside(stride, y, h - 1);
      RowInside(stride + 1, y, h - 1);
      ScanlineAt(px[..n], stride, h - 1, y, at, from);
      SliceInFront(before, row, at, at + stride + 1);
      SliceInFront(px[..n], px[n..], from, from + stride);
    } else {
      SliceBehind(before, row, at, at + stride + 1);
    }
  }

  lemma ElementsOf(raw: Bytes, at: nat, px: Bytes, from: nat, stride: nat, x: nat)
    requires at + stride + 1 <= |raw| && from + stride <= |px| && x < stride
    requires raw[at..at + stride + 1] == [0] + px[from..from + stride]
    ensures raw[at] == 0 && raw[at + 1 + x] == px[from + x]
  {
    var row := raw[at..at + stride + 1];
    assert row[0] == raw[at] && row[1 + x] == raw[at + 1 + x];
    assert px[from..from + stride][x] == px[from + x];
  }

  lemma RowElement(px: Bytes, stride: nat, h: nat, y: nat, x: nat, at: nat, from: nat)
    requires |px| == stride * h && y < h && x < stride && at == (stride + 1) * y && from == stride * y
    ensures from + x < |px| && at + 1 + x < |Scanlines(px, stride, h)|
    ensures Scanlines(px, stride, h)[at] == 0 && Scanlines(px, stride, h)[at + 1 + x] == px[from + x]
  {
    ScanlineAt(px, stride, h, y, at, from);
    ElementsOf(Scanlines(px, stride, h), at, px, from, stride, x);
  }

  /** The raw image: row y is a zero and the bytes of the pixel buffer from 4 * width * y on, zeros
      where the buffer has ended. */
  lemma RawImageAt(width: nat, height: nat, rgba: Bytes, y: nat, x: nat)
    requires y < height && x < width * 4
    ensures var raw, at := RawImage(width, height, rgba), (width * 4 + 1) * y;
            && at + 1 + x < |raw| && raw[at] == 0
            && raw[at + 1 + x] == if width * 4 * y + x < |rgba| then rgba[width * 4 * y + x] else 0
  {
    RowElement(Fitted(rgba, width * 4 * height), width * 4, height, y, x, (width * 4 + 1) * y, width * 4 * y);
  }
}
