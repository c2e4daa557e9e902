/** The WASM section reader: a loop over section headers (section 5.5.2 of the WebAssembly
    Core Specification), each with a LEB128 size (section 5.2.2) that the program assembles in
    32-bit signed arithmetic. */
module WasmSections {
  import opened Prelude

  type Byte = b: int | 0 <= b < 256

  const TWO31: int := 0x8000_0000
  const TWO32: int := 0x1_0000_0000

  function Pow2(n: nat): (r: nat)
    ensures r >= 1
  {
    if n == 0 then 1 else 2 * Pow2(n - 1)
  }

  // ----- JavaScript's 32-bit operators -----

  /** The bit pattern of a 32-bit integer, and the integer of a bit pattern. */
  function Pattern(x: int): nat
    requires -TWO31 <= x < TWO31
  {
    if x >= 0 then x else x + TWO32
  }

  function Signed(u: nat): (x: int)
    ensures u < TWO32 ==> -TWO31 <= x < TWO31
  {
    if u >= TWO31 then u - TWO32 else u
  }

  /** Bitwise or of two bit patterns. */
  function Or(a: nat, b: nat): nat {
    if a == 0 then b
    else if b == 0 then a
    else (if a % 2 == 1 || b % 2 == 1 then 1 else 0) + 2 * Or(a / 2, b / 2)
  }

  lemma {:induction false} OrBelow(a: nat, b: nat, n: nat)
    requires a < Pow2(n) && b < Pow2(n)
    ensures Or(a, b) < Pow2(n)
  {
    if n == 0 {
    } else {
      OrBelow(a / 2, b / 2, n - 1);
    }
  }

  lemma Pow2Of32()
    ensures Pow2(32) == TWO32
  {
    assert Pow2(8) == 256;
    assert Pow2(16) == 65536;
    assert Pow2(24) == 16777216;
  }

  type Int32 = x: int | -TWO31 <= x < TWO31

  function Or32(a: Int32, b: Int32): Int32 {
    Pow2Of32();
    OrBelow(Pattern(a), Pattern(b), 32);
    Signed(Or(Pattern(a), Pattern(b)))
  }

  function Wrap32(x: nat): Int32 { Signed(x % TWO32) }

  /** The shift count is taken modulo 32, the result modulo 2^32. */
  function ShiftLeft32(a: nat, shift: nat): Int32 { Wrap32(a * Pow2(shift % 32)) }

  function Bit(x: nat, i: nat): bool { x / Pow2(i) % 2 == 1 }

  lemma DivDiv(x: nat, a: nat, b: nat)
    requires a > 0 && b > 0
    ensures a * b > 0 && x / (a * b) == x / a / b
  {
    var q, r := x / a, x % a;
    var p, t := q / b, q % b;
    assert x == q * a + r && q == p * b + t;
    assert x == p * (a * b) + (t * a + r);
    assert t * a + r < a * b by {
      assert t * a <= (b - 1) * a;
    }
    Division(x, a * b, p, t * a + r);
  }

  lemma ZeroHasNoBits(i: nat)
    ensures !Bit(0, i)
  {
    Division(0, Pow2(i), 0, 0);
  }

  lemma HalfBit(x: nat, i: nat)
    ensures Bit(x, i + 1) == Bit(x / 2, i)
  {
    DivDiv(x, 2, Pow2(i));
  }

  /** The or of two patterns has exactly the bits of either, overlapping or not. */
  lemma {:induction false} OrIsBitwise(a: nat, b: nat, i: nat)
    ensures Bit(Or(a, b), i) <==> Bit(a, i) || Bit(b, i)
    decreases a + b
  {
    if a == 0 || b == 0 {
      ZeroHasNoBits(i);
    } else if i == 0 {
      assert Pow2(0) == 1;
      assert Or(a, b) % 2 == if a % 2 == 1 || b % 2 == 1 then 1 else 0;
    } else {
      HalfBit(a, i - 1);
      HalfBit(b, i - 1);
      HalfBit(Or(a, b), i - 1);
      assert Or(a, b) / 2 == Or(a / 2, b / 2);
      OrIsBitwise(a / 2, b / 2, i - 1);
    }
  }

  /** Shift counts wrap around at 32, so a sixth byte goes where the first bits went. */
  lemma ShiftWrapsAround(a: nat, shift: nat)
    ensures ShiftLeft32(a, shift + 32) == ShiftLeft32(a, shift)
    ensures shift < 32 && a * Pow2(shift) < TWO31 ==> ShiftLeft32(a, shift) == a * Pow2(shift)
  {
    assert (shift + 32) % 32 == shift % 32;
    if shift < 32 && a * Pow2(shift) < TWO31 {
      assert shift % 32 == shift;
    }
  }

  // ----- The parser -----

  const SECTION_NAMES := [
    "custom", "type", "import", "function", "table", "memory", "global",
    "export", "start", "element", "code", "data", "data_count"]

  /** `None` is a read before the start of the buffer, which yields `undefined`. */
  function SectionName(id: Option<Byte>): string {
    if id.None? then "unknown_undefined"
    else if id.value < |SECTION_NAMES| then SECTION_NAMES[id.value]
    else "unknown_" + Decimal(id.value)
  }

  datatype SectionInfo = SectionInfo(id: Option<Byte>, size: int)

  type Sections = map<string, SectionInfo>

  function ByteAt(buffer: seq<Byte>, i: int): Option<Byte> {
    if 0 <= i < |buffer| then Some(buffer[i]) else None
  }

  datatype SizeRead = Truncated | SizeRead(size: Int32, next: int)

  /** One more byte of a size: its low seven bits, or-ed in at `shift`. */
  function AddBits(size: Int32, byte: Option<Byte>, shift: nat): Int32 {
    Or32(size, ShiftLeft32(if byte.Some? then byte.value % 128 else 0, shift))
  }

  /** The loop that reads a size; it ends early at the end of the buffer. */
  function ReadSize(buffer: seq<Byte>, offset: int, size: Int32, shift: nat): SizeRead
    decreases |buffer| - offset
  {
    if offset >= |buffer| then Truncated
    else
      var byte := ByteAt(buffer, offset);
      var size' := AddBits(size, byte, shift);
      if byte.Some? && byte.value >= 128 then ReadSize(buffer, offset + 1, size', shift + 7)
      else SizeRead(size', offset + 1)
  }

  datatype Parse = Parse(offset: int, sections: Sections, finished: bool)

  function Start(buffer: seq<Byte>): Parse { Parse(8, map[], |buffer| < 8) }

  /** One round of the outer loop. */
  function Round(buffer: seq<Byte>, p: Parse): Parse {
    if p.finished || p.offset >= |buffer| then p.(finished := true)
    else
      var id := ByteAt(buffer, p.offset);
      if p.offset + 1 >= |buffer| then p.(offset := p.offset + 1, finished := true)
      else
        match ReadSize(buffer, p.offset + 1, 0, 0)
        case Truncated => p.(finished := true)
        case SizeRead(size, next) =>
          p.(offset := next + size, sections := p.sections[SectionName(id) := SectionInfo(id, size)])
  }

  function Rounds(buffer: seq<Byte>, p: Parse, n: nat): Parse
    decreases n
  {
    if n == 0 then p else Rounds(buffer, Round(buffer, p), n - 1)
  }

  lemma {:induction false} FinishedStays(buffer: seq<Byte>, p: Parse, n: nat)
    requires p.finished
    ensures Rounds(buffer, p, n) == p
  {
    if n == 0 {
    } else {
      FinishedStays(buffer, p, n - 1);
    }
  }

  /** The inner loop. */
  method ReadSectionSize(buffer: seq<Byte>, start: int) returns (r: SizeRead)
    ensures r == ReadSize(buffer, start, 0, 0)
  {
    var offset, sectionSize: Int32, shift := start, 0, 0;
    while true
      invariant shift >= 0
      invariant ReadSize(buffer, offset, sectionSize, shift) == ReadSize(buffer, start, 0, 0)
      decreases |buffer| - offset
    {
      if offset >= |buffer| {
        return Truncated;
      }
      var byte := ByteAt(buffer, offset);
      offset := offset + 1;
      sectionSize := AddBits(sectionSize, byte, shift);
      shift := shift + 7;
      if !(byte.Some? && byte.value >= 128) {
        return SizeRead(sectionSize, offset);
      }
    }
  }

  /** The program's loops, stopped after at most `limit` rounds of the outer one. */
  method ParseWasmSections(buffer: seq<Byte>, limit: nat) returns (sections: Sections, finished: bool)
    ensures var p := Rounds(buffer, Start(buffer), limit); sections == p.sections && finished == p.finished
  {
    sections := map[];
    if |buffer| < 8 {
      FinishedStays(buffer, Start(buffer), limit);
      return map[], true;
    }
    var offset, rounds := 8, limit;
    while rounds > 0
      invariant 0 <= rounds <= limit
      invariant Rounds(buffer, Parse(offset, sections, false), rounds) == Rounds(buffer, Start(buffer), limit)
    {
      ghost var p := Round(buffer, Parse(offset, sections, false));
      if offset >= |buffer| {
        FinishedStays(buffer, p, rounds - 1);
        return sections, true;
      }
      var sectionId := ByteAt(buffer, offset);
      offset := offset + 1;
      if offset >= |buffer| {
        FinishedStays(buffer, p, rounds - 1);
        return sections, true;
      }
      var read := ReadSectionSize(buffer, offset);
      if read.Truncated? {
        FinishedStays(buffer, p, rounds - 1);
        return sections, true;
      }
      sections := sections[SectionName(sectionId) := SectionInfo(sectionId, read.size)];
      offset := read.next + read.size;
      rounds := rounds - 1;
    }
    finished := false;
  }

  // ----- LEB128 sizes -----

  /** The number that LEB128 bytes stand for: seven bits each, least significant first. */
  function LebValue(bytes: seq<Byte>): nat {
    if bytes == [] then 0 else bytes[0] % 128 + 128 * LebValue(bytes[1..])
  }

  /** All bytes but the last have the continuation bit. */
  predicate IsLeb(bytes: seq<Byte>) {
    && bytes != []
    && (forall i :: 0 <= i < |bytes| - 1 ==> bytes[i] >= 128)
    && bytes[|bytes| - 1] < 128
  }

  lemma {:induction false} OrDisjoint(a: nat, k: nat, s: nat)
    requires a < Pow2(s)
    ensures Or(a, k * Pow2(s)) == a + k * Pow2(s)
  {
    if s == 0 {
    } else {
      var b := k * Pow2(s - 1);
      assert k * Pow2(s) == 2 * b;
      OrDisjoint(a / 2, k, s - 1);
    }
  }

  lemma ShiftPattern(bits: nat, shift: nat, piece: nat)
    requires shift < 32 && piece == bits * Pow2(shift) && piece < TWO32
    ensures Pattern(ShiftLeft32(bits, shift)) == piece
  {
    assert shift % 32 == shift && piece % TWO32 == piece;
  }

  /** Or-ing in the next seven bits adds them to the bit pattern. */
  lemma OrInBits(acc: nat, bits: nat, shift: nat, piece: nat)
    requires piece == bits * Pow2(shift)
    requires acc < Pow2(shift) && acc < TWO31 && shift < 32 && acc + piece < TWO32
    ensures Or32(acc, ShiftLeft32(bits, shift)) == Signed(acc + piece)
  {
    ShiftPattern(bits, shift, piece);
    OrDisjoint(acc, bits, shift);
  }

  /** The value of the bytes from bit `shift` on. */
  function LebFrom(bytes: seq<Byte>, shift: nat): nat {
    if bytes == [] then 0 else (bytes[0] % 128) * Pow2(shift) + LebFrom(bytes[1..], shift + 7)
  }

  lemma Pow2Plus7(shift: nat)
    ensures Pow2(shift + 7) == 128 * Pow2(shift)
  {
    assert Pow2(shift + 2) == 4 * Pow2(shift);
    assert Pow2(shift + 4) == 4 * Pow2(shift + 2);
    assert Pow2(shift + 6) == 4 * Pow2(shift + 4);
  }

  lemma Regroup(p: nat, bits: nat, tail: nat)
    ensures bits * p + 128 * p * tail == p * (bits + 128 * tail)
  {
  }

  lemma {:induction false} LebFromIsLebValue(bytes: seq<Byte>, shift: nat)
    ensures LebFrom(bytes, shift) == Pow2(shift) * LebValue(bytes)
  {
    if bytes == [] {
    } else {
      LebFromIsLebValue(bytes[1..], shift + 7);
      Pow2Plus7(shift);
      Regroup(Pow2(shift), bytes[0] % 128, LebValue(bytes[1..]));
    }
  }

  lemma PieceBound(bits: nat, p: nat)
    requires bits < 128
    ensures bits * p <= 127 * p
  {
  }

  lemma {:induction false} Pow2Monotone(m: nat, n: nat)
    requires m <= n
    ensures Pow2(m) <= Pow2(n)
    decreases n
  {
    if m < n {
      Pow2Monotone(m, n - 1);
    }
  }

  lemma Pow2Of28()
    ensures Pow2(28) == 0x1000_0000
  {
    assert Pow2(8) == 256;
    assert Pow2(16) == 65536;
    assert Pow2(24) == 16777216;
  }

  lemma NextBits(acc: nat, bytes: seq<Byte>, shift: nat) returns (next: nat)
    requires bytes != [] && acc < Pow2(shift) && acc < TWO31 && shift < 32 && acc + LebFrom(bytes, shift) < TWO32
    ensures next < TWO32 && AddBits(acc, Some(bytes[0]), shift) == Signed(next)
    ensures next < Pow2(shift + 7)
    ensures next + LebFrom(bytes[1..], shift + 7) == acc + LebFrom(bytes, shift)
  {
    var bits := bytes[0] % 128;
    var piece: nat := bits * Pow2(shift);
    next := acc + piece;
    assert LebFrom(bytes, shift) == piece + LebFrom(bytes[1..], shift + 7);
    PieceBound(bits, Pow2(shift));
    Pow2Plus7(shift);
    OrInBits(acc, bits, shift, piece);
  }

  lemma {:induction false} ReadSizeFrom(buffer: seq<Byte>, offset: nat, acc: nat, shift: nat, bytes: seq<Byte>)
    requires IsLeb(bytes) && offset + |bytes| <= |buffer| && buffer[offset..offset + |bytes|] == bytes
    requires shift + 7 * |bytes| <= 35
    requires acc < Pow2(shift) && acc < TWO31 && acc + LebFrom(bytes, shift) < TWO32
    ensures ReadSize(buffer, offset, acc, shift) == SizeRead(Signed(acc + LebFrom(bytes, shift)), offset + |bytes|)
    decreases |bytes|
  {
    var tail := bytes[1..];
    assert buffer[offset] == bytes[0];
    var next := NextBits(acc, bytes, shift);
    if |bytes| > 1 {
      assert buffer[offset + 1..offset + 1 + |tail|] == tail;
      assert next < TWO31 by {
        Pow2Monotone(shift + 7, 28);
        Pow2Of28();
      }
      ReadSizeFrom(buffer, offset + 1, next, shift + 7, tail);
    }
  }

  lemma ReadSizeIsSigned(buffer: seq<Byte>, offset: nat, bytes: seq<Byte>, value: nat)
    requires IsLeb(bytes) && |bytes| <= 5 && value == LebFrom(bytes, 0) < TWO32
    requires offset + |bytes| <= |buffer| && buffer[offset..offset + |bytes|] == bytes
    ensures ReadSize(buffer, offset, 0, 0) == SizeRead(Signed(value), offset + |bytes|)
  {
    assert Pow2(0) == 1;
    ReadSizeFrom(buffer, offset, 0, 0, bytes);
  }

  lemma SignedExactly(value: nat)
    ensures Signed(value) == value <==> value < TWO31
  {
  }

  /** For every 32-bit size in at most five LEB128 bytes, the loop ends right after them with
      the value in two's complement: the size itself exactly when it is below 2^31. */
  lemma ReadSizeIsLebValue(buffer: seq<Byte>, offset: nat, bytes: seq<Byte>)
    requires IsLeb(bytes) && |bytes| <= 5 && LebValue(bytes) < TWO32
    requires offset + |bytes| <= |buffer| && buffer[offset..offset + |bytes|] == bytes
    ensures ReadSize(buffer, offset, 0, 0) == SizeRead(Signed(LebValue(bytes)), offset + |bytes|)
    ensures ReadSize(buffer, offset, 0, 0).size == LebValue(bytes) <==> LebValue(bytes) < TWO31
  {
    var value := LebValue(bytes);
    assert LebFrom(bytes, 0) == value by {
      LebFromIsLebValue(bytes, 0);
    }
    ReadSizeIsSigned(buffer, offset, bytes, value);
    SignedExactly(value);
  }

  // ----- Parsing undoes encoding -----

  /** A section as a producer writes it. */
  datatype Section = Section(id: Byte, sizeBytes: seq<Byte>, payload: seq<Byte>) {
    predicate Valid() {
      IsLeb(sizeBytes) && |sizeBytes| <= 5 && LebValue(sizeBytes) == |payload| < TWO31
    }

    function Encode(): seq<Byte> { [id] + sizeBytes + payload }

    function Name(): string { SectionName(Some(id)) }

    function Info(): SectionInfo { SectionInfo(Some(id), |payload|) }
  }

  function EncodeAll(ss: seq<Section>): seq<Byte> {
    if ss == [] then [] else ss[0].Encode() + EncodeAll(ss[1..])
  }

  /** The entries that a list of sections writes, one after the other. */
  function Record(m: Sections, ss: seq<Section>): Sections
    decreases |ss|
  {
    if ss == [] then m else Record(m[ss[0].Name() := ss[0].Info()], ss[1..])
  }

  lemma RoundReadsSection(before: seq<Byte>, s: Section, after: seq<Byte>, m: Sections)
    requires s.Valid()
    ensures var buffer := before + s.Encode() + after;
            Round(buffer, Parse(|before|, m, false)) ==
            Parse(|before + s.Encode()|, m[s.Name() := s.Info()], false)
  {
    var buffer := before + s.Encode() + after;
    var at := |before| + 1;
    assert buffer[|before|] == s.id;
    assert buffer[at..at + |s.sizeBytes|] == s.sizeBytes;
    ReadSizeIsLebValue(buffer, at, s.sizeBytes);
  }

  lemma {:induction false} RoundsReadSections(before: seq<Byte>, ss: seq<Section>, m: Sections)
    requires forall i :: 0 <= i < |ss| ==> ss[i].Valid()
    ensures var buffer := before + EncodeAll(ss);
            Rounds(buffer, Parse(|before|, m, false), |ss|) == Parse(|buffer|, Record(m, ss), false)
    decreases |ss|
  {
    var buffer := before + EncodeAll(ss);
    if ss == [] {
    } else {
      var s, rest := ss[0], ss[1..];
      RoundReadsSection(before, s, EncodeAll(rest), m);
      assert buffer == before + s.Encode() + EncodeAll(rest);
      RoundsReadSections(before + s.Encode(), rest, m[s.Name() := s.Info()]);
    }
  }

  lemma {:induction false} RoundsThen(buffer: seq<Byte>, p: Parse, n: nat)
    ensures Rounds(buffer, p, n + 1) == Round(buffer, Rounds(buffer, p, n))
    decreases n
  {
    if n == 0 {
    } else {
      RoundsThen(buffer, Round(buffer, p), n - 1);
    }
  }

  lemma TableNamesAreDistinct(a: Byte, b: Byte)
    requires a < b < 13 || b < a < 13
    ensures SECTION_NAMES[a] != SECTION_NAMES[b]
  {
  }

  /** No two section ids share a name. */
  lemma NamesAreDistinct(a: Byte, b: Byte)
    requires a != b
    ensures SectionName(Some(a)) != SectionName(Some(b))
  {
    var m, n := SectionName(Some(a)), SectionName(Some(b));
    if a >= 13 && b >= 13 {
      assert m[8..] == Decimal(a) && n[8..] == Decimal(b);
      DecimalRoundTrip(a);
      DecimalRoundTrip(b);
    } else if a >= 13 || b >= 13 {
      assert (m[0] == 'u') != (n[0] == 'u');
    } else {
      TableNamesAreDistinct(a, b);
    }
  }

  /** Section `i` is the last one with its id. */
  predicate IsLast(ss: seq<Section>, i: nat) {
    i < |ss| && forall j :: i < j < |ss| ==> ss[j].id != ss[i].id
  }

  lemma {:induction false} RecordKeepsOthers(m: Sections, ss: seq<Section>, name: string)
    requires forall j :: 0 <= j < |ss| ==> ss[j].Name() != name
    ensures name in Record(m, ss) <==> name in m
    ensures name in m ==> Record(m, ss)[name] == m[name]
    decreases |ss|
  {
    if ss == [] {
    } else {
      RecordKeepsOthers(m[ss[0].Name() := ss[0].Info()], ss[1..], name);
    }
  }

  /** The recorded size of a section is that of the last section with the same id. */
  lemma {:induction false} RecordKeepsLast(m: Sections, ss: seq<Section>, i: nat)
    requires IsLast(ss, i)
    ensures ss[i].Name() in Record(m, ss) && Record(m, ss)[ss[i].Name()] == ss[i].Info()
    decreases |ss|
  {
    var m' := m[ss[0].Name() := ss[0].Info()];
    if i > 0 {
      RecordKeepsLast(m', ss[1..], i - 1);
    } else {
      forall j | 0 <= j < |ss| - 1
        ensures ss[1..][j].Name() != ss[0].Name()
      {
        assert ss[j + 1].id != ss[0].id;
        NamesAreDistinct(ss[j + 1].id, ss[0].id);
      }
      RecordKeepsOthers(m', ss[1..], ss[0].Name());
    }
  }

  /** `m` has an entry for the names that occur and no others, each with the size of the last
      section of that name. */
  ghost predicate LastOccurrences(m: Sections, ss: seq<Section>) {
    && (forall i: nat :: IsLast(ss, i) ==> ss[i].Name() in m && m[ss[i].Name()] == ss[i].Info())
    && (forall name :: name in m ==> exists i :: 0 <= i < |ss| && ss[i].Name() == name)
  }

  lemma RecordIsLastOccurrences(ss: seq<Section>)
    ensures LastOccurrences(Record(map[], ss), ss)
  {
    var m := Record(map[], ss);
    forall i: nat | IsLast(ss, i)
      ensures ss[i].Name() in m && m[ss[i].Name()] == ss[i].Info()
    {
      RecordKeepsLast(map[], ss, i);
    }
    forall name | name in m
      ensures exists i :: 0 <= i < |ss| && ss[i].Name() == name
    {
      if forall j :: 0 <= j < |ss| ==> ss[j].Name() != name {
        RecordKeepsOthers(map[], ss, name);
      }
    }
  }

  /** Eight header bytes and any list of sections with sizes below 2^31 in at most five LEB128
      bytes: the parser stops exactly at the end, with the last occurrence of each name. */
  lemma ParseUndoesEncode(header: seq<Byte>, ss: seq<Section>)
    requires |header| == 8 && forall i :: 0 <= i < |ss| ==> ss[i].Valid()
    ensures var buffer := header + EncodeAll(ss);
            var p := Rounds(buffer, Start(buffer), |ss| + 1);
            p.finished && p.offset == |buffer| && LastOccurrences(p.sections, ss)
  {
    var buffer := header + EncodeAll(ss);
    RoundsReadSections(header, ss, map[]);
    RoundsThen(buffer, Start(buffer), |ss|);
    assert Rounds(buffer, Start(buffer), |ss| + 1) == Parse(|buffer|, Record(map[], ss), true);
    RecordIsLastOccurrences(ss);
  }

  // ----- When the loop ends -----

  /** The state of the program's loop after `n` rounds. */
  function At(buffer: seq<Byte>, n: nat): Parse { Rounds(buffer, Start(buffer), n) }

  lemma AtNext(buffer: seq<Byte>, n: nat)
    ensures At(buffer, n + 1) == Round(buffer, At(buffer, n))
  {
    RoundsThen(buffer, Start(buffer), n);
  }

  lemma {:induction false} UnfinishedBefore(buffer: seq<Byte>, i: nat, j: nat)
    requires i <= j && !At(buffer, j).finished
    ensures !At(buffer, i).finished
    decreases j - i
  {
    if i == j {
    } else {
      AtNext(buffer, j - 1);
      UnfinishedBefore(buffer, i, j - 1);
    }
  }

  lemma {:induction false} ReadSizeAdvances(buffer: seq<Byte>, offset: int, size: Int32, shift: nat)
    ensures var r := ReadSize(buffer, offset, size, shift); r.SizeRead? ==> offset < r.next <= |buffer|
    decreases |buffer| - offset
  {
    if offset >= |buffer| {
    } else {
      ReadSizeAdvances(buffer, offset + 1, AddBits(size, ByteAt(buffer, offset), shift), shift + 7);
    }
  }

  /** No size in the buffer, wherever it starts, has the sign bit. */
  predicate NoSignBit(buffer: seq<Byte>) {
    forall offset :: 8 <= offset < |buffer| ==>
      var r := ReadSize(buffer, offset, 0, 0); r.SizeRead? ==> r.size >= 0
  }

  lemma {:induction false} OffsetGrows(buffer: seq<Byte>, n: nat)
    requires NoSignBit(buffer) && !At(buffer, n).finished
    ensures At(buffer, n).offset >= 8 + 2 * n
  {
    if n == 0 {
    } else {
      AtNext(buffer, n - 1);
      OffsetGrows(buffer, n - 1);
      var p := At(buffer, n - 1);
      ReadSizeAdvances(buffer, p.offset + 1, 0, 0);
    }
  }

  /** On every buffer, well-formed or not, without such a size the loop ends, after at most one
      round for every two bytes behind the header and one more. */
  lemma FinishesWithoutSignBit(buffer: seq<Byte>)
    requires NoSignBit(buffer)
    ensures At(buffer, if |buffer| < 8 then 0 else (|buffer| - 8) / 2 + 1).finished
  {
    if |buffer| >= 8 {
      var n := (|buffer| - 8) / 2;
      AtNext(buffer, n);
      if !At(buffer, n + 1).finished {
        UnfinishedBefore(buffer, n, n + 1);
        OffsetGrows(buffer, n);
      }
    }
  }

  /** Two rounds start at the same offset, and the program is still running. */
  predicate Returns(buffer: seq<Byte>, i: nat, j: nat) {
    i < j && !At(buffer, j).finished && At(buffer, i).offset == At(buffer, j).offset
  }

  lemma OffsetDecides(buffer: seq<Byte>, p: Parse, q: Parse)
    requires p.offset == q.offset && p.finished == q.finished
    ensures Round(buffer, p).offset == Round(buffer, q).offset
    ensures Round(buffer, p).finished == Round(buffer, q).finished
  {
  }

  /** From equal offsets the loop goes on in the same way. */
  lemma {:induction false} SameFuture(buffer: seq<Byte>, i: nat, j: nat, k: nat)
    requires Returns(buffer, i, j)
    ensures At(buffer, i + k).finished == At(buffer, j + k).finished
    ensures At(buffer, i + k).offset == At(buffer, j + k).offset
  {
    if k == 0 {
      UnfinishedBefore(buffer, i, j);
    } else {
      SameFuture(buffer, i, j, k - 1);
      AtNext(buffer, i + (k - 1));
      AtNext(buffer, j + (k - 1));
      OffsetDecides(buffer, At(buffer, i + (k - 1)), At(buffer, j + (k - 1)));
    }
  }

  lemma {:induction false} ReturnsForever(buffer: seq<Byte>, i: nat, j: nat, n: nat)
    requires Returns(buffer, i, j)
    ensures !At(buffer, n).finished
  {
    if n <= j {
      UnfinishedBefore(buffer, n, j);
    } else {
      ReturnsForever(buffer, i, j, n - (j - i));
      SameFuture(buffer, i, j, n - j);
    }
  }

  /** Before the start of the buffer there are only zeros to read. */
  lemma UndefinedSize(buffer: seq<Byte>, offset: int)
    requires offset < 0
    ensures ReadSize(buffer, offset, 0, 0) == SizeRead(0, offset + 1)
  {
  }

  lemma RoundStaysAbove(buffer: seq<Byte>, p: Parse)
    requires p.offset >= -TWO31
    ensures Round(buffer, p).offset >= -TWO31
  {
    ReadSizeAdvances(buffer, p.offset + 1, 0, 0);
    if p.offset < -1 {
      UndefinedSize(buffer, p.offset + 1);
    }
  }

  lemma {:induction false} OffsetBelow(buffer: seq<Byte>, n: nat)
    ensures At(buffer, n).offset >= -TWO31
  {
    if n == 0 {
    } else {
      AtNext(buffer, n - 1);
      OffsetBelow(buffer, n - 1);
      RoundStaysAbove(buffer, At(buffer, n - 1));
    }
  }

  /** Distinct numbers out of `n` consecutive ones are at most `n`. */
  lemma {:induction false} DistinctInRange(q: seq<int>, lo: int, n: nat)
    requires forall i, j :: 0 <= i < j < |q| ==> q[i] != q[j]
    requires forall i :: 0 <= i < |q| ==> lo <= q[i] < lo + n
    ensures |q| <= n
    decreases n
  {
    assert |q| > 0 ==> lo <= q[0] < lo + n;
    if q == [] {
    } else if k :| 0 <= k < |q| && q[k] == lo + n - 1 {
      DistinctInRange(q[..k] + q[k + 1..], lo, n - 1);
    } else {
      DistinctInRange(q, lo, n - 1);
    }
  }

  /** The offsets at which the first `n` rounds start. */
  function Offsets(buffer: seq<Byte>, n: nat): seq<int> { seq(n, i requires 0 <= i < n => At(buffer, i).offset) }

  lemma OffsetsInRange(buffer: seq<Byte>, n: nat, i: nat)
    requires i < n && !At(buffer, n).finished
    ensures -TWO31 <= Offsets(buffer, n)[i] < |buffer|
  {
    OffsetBelow(buffer, i);
    AtNext(buffer, i);
    UnfinishedBefore(buffer, i + 1, n);
  }

  /** As many rounds as there are offsets to start from, and one more. */
  function AllRounds(buffer: seq<Byte>): nat { TWO31 + |buffer| + 1 }

  /** A loop that is still running by then has come back to an offset. */
  lemma LongRunReturns(buffer: seq<Byte>) returns (i: nat, j: nat)
    requires !At(buffer, AllRounds(buffer)).finished
    ensures Returns(buffer, i, j)
  {
    var n := AllRounds(buffer);
    var q := Offsets(buffer, n);
    if forall i, j :: 0 <= i < j < |q| ==> q[i] != q[j] {
      forall i | 0 <= i < |q|
        ensures -TWO31 <= q[i] < -TWO31 + (n - 1)
      {
        OffsetsInRange(buffer, n, i);
      }
      DistinctInRange(q, -TWO31, n - 1);
      assert false;
    }
    i, j :| 0 <= i < j < |q| && q[i] == q[j];
    UnfinishedBefore(buffer, j, n);
  }

  /** Exactly when the loop never ends, on any buffer: it comes back to an offset. Whether it
      does shows within a fixed number of rounds. */
  lemma NeverFinishesExactlyIfOffsetReturns(buffer: seq<Byte>)
    ensures (forall n: nat :: !At(buffer, n).finished) <==> exists i: nat, j: nat :: Returns(buffer, i, j)
    ensures (forall n: nat :: !At(buffer, n).finished) <==> !At(buffer, AllRounds(buffer)).finished
  {
    if !At(buffer, AllRounds(buffer)).finished {
      var i, j := LongRunReturns(buffer);
    }
    if i: nat, j: nat :| Returns(buffer, i, j) {
      forall n: nat
        ensures !At(buffer, n).finished
      {
        ReturnsForever(buffer, i, j, n);
      }
    }
  }

  // ----- Sizes with the sign bit -----

  /** A buffer whose only section has the five-byte size 0xFFFFFFFA, which the 32-bit
      arithmetic reads as -6. */
  const LOOPING: seq<Byte> := [0, 97, 115, 109, 1, 0, 0, 0, 1, 0xFA, 0xFF, 0xFF, 0xFF, 0x0F]

  lemma SignBitSize()
    ensures ReadSize(LOOPING, 9, 0, 0) == SizeRead(-6, 14)
  {
    var bytes: seq<Byte> := [0xFA, 0xFF, 0xFF, 0xFF, 0x0F];
    assert LOOPING[9..14] == bytes;
    assert bytes[1..] == [0xFF, 0xFF, 0xFF, 0x0F];
    assert bytes[1..][1..] == [0xFF, 0xFF, 0x0F];
    assert bytes[1..][1..][1..] == [0xFF, 0x0F];
    assert LebValue([0xFF, 0x0F]) == 0x7FF by {
      assert [0xFF, 0x0F][1..] == [0x0F];
    }
    assert LebValue(bytes[1..][1..]) == 0x3FFFF;
    assert LebValue(bytes) == 0xFFFF_FFFA;
    ReadSizeIsLebValue(LOOPING, 9, bytes);
  }

  lemma LoopingRound(m: Sections)
    ensures Round(LOOPING, Parse(8, m, false)) == Parse(8, m[SectionName(Some(1)) := SectionInfo(Some(1), -6)], false)
  {
    SignBitSize();
  }

  /** Beyond 2^31 the parser need not stop: on this buffer it comes back to its first section,
      and no number of rounds suffices. */
  lemma LargeSizeNeverFinishes(n: nat)
    ensures !At(LOOPING, n).finished
  {
    LoopingRound(map[]);
    AtNext(LOOPING, 0);
    assert Returns(LOOPING, 0, 1);
    ReturnsForever(LOOPING, 0, 1, n);
  }
}
