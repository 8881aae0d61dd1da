/** Directory entries as they are stored: 128 bytes each, and what a reader makes of them. */
module DirectoryEntries {
  import opened CfbNames
  import opened SiblingTrees

  type Byte = n: int | 0 <= n < 0x100
  type Bytes = seq<Byte>
  type U32 = n: int | 0 <= n < 0x1_0000_0000
  type U64 = n: int | 0 <= n < 0x1_0000_0000_0000_0000

  const ENTRY_SIZE: nat := 128
  const NAME_FIELD: nat := 64
  const STORED_UNITS: nat := 31
  const END_OF_CHAIN: U32 := 0xFFFF_FFFE

  type ClassId = b: Bytes | |b| == 16
    witness [0, 0, 0, 0, 0, 0, 0, 0, 0, 0, 0, 0, 0, 0, 0, 0]

  const NO_CLASS: ClassId := [0, 0, 0, 0, 0, 0, 0, 0, 0, 0, 0, 0, 0, 0, 0, 0]

  datatype ObjectType = UnknownObject | StorageObject | StreamObject | RootObject

  datatype DirectoryEntry = DirectoryEntry(
    name: Name,
    objectType: ObjectType,
    color: Color,
    left: StreamId,
    right: StreamId,
    child: StreamId,
    classId: ClassId,
    stateBits: U32,
    created: U64,
    modified: U64,
    startSector: U32,
    size: U64)

  datatype EntryError =
    | TooShort(length: nat)
    | BadNameLength(length: nat)
    | BadUtf16
    | BadType(code: Byte)
    | BadColor(code: Byte)

  datatype Result<+T> = Ok(value: T) | Err(error: EntryError)

  // ----- Numbers as bytes -----

  function Power256(width: nat): (p: nat)
    ensures p > 0
  {
    if width == 0 then 1 else 0x100 * Power256(width - 1)
  }

  /** The lowest `width` bytes of a number, the lowest first. */
  function LittleEndian(n: nat, width: nat): (b: Bytes)
    ensures |b| == width
  {
    if width == 0 then [] else [n % 0x100] + LittleEndian(n / 0x100, width - 1)
  }

  function FromLittleEndian(b: Bytes): nat {
    if b == [] then 0 else b[0] + 0x100 * FromLittleEndian(b[1..])
  }

  /** A number that fits is read back as it was written. */
  lemma {:induction false} NumberReadsBack(n: nat, width: nat)
    requires n < Power256(width)
    ensures FromLittleEndian(LittleEndian(n, width)) == n
  {
    if width > 0 {
      assert LittleEndian(n, width)[1..] == LittleEndian(n / 0x100, width - 1);
      NumberReadsBack(n / 0x100, width - 1);
    }
  }

  lemma Powers()
    ensures Power256(2) == 0x1_0000 && Power256(4) == 0x1_0000_0000 && Power256(8) == 0x1_0000_0000_0000_0000
  {
    assert Power256(1) == 0x100 * Power256(0);
    assert Power256(2) == 0x100 * Power256(1);
    assert Power256(3) == 0x100 * Power256(2);
    assert Power256(4) == 0x100 * Power256(3);
    assert Power256(5) == 0x100 * Power256(4);
    assert Power256(6) == 0x100 * Power256(5);
    assert Power256(7) == 0x100 * Power256(6);
    assert Power256(8) == 0x100 * Power256(7);
  }

  lemma FieldReadsBack(n: nat)
    ensures n < 0x1_0000 ==> FromLittleEndian(LittleEndian(n, 2)) == n
    ensures n < 0x1_0000_0000 ==> FromLittleEndian(LittleEndian(n, 4)) == n
    ensures n < 0x1_0000_0000_0000_0000 ==> FromLittleEndian(LittleEndian(n, 8)) == n
  {
    Powers();
    hide *;
    if n < 0x1_0000 {
      NumberReadsBack(n, 2);
    }
    if n < 0x1_0000_0000 {
      NumberReadsBack(n, 4);
    }
    if n < 0x1_0000_0000_0000_0000 {
      NumberReadsBack(n, 8);
    }
  }

  // ----- Names as bytes -----

  function UnitBytes(units: Units): (b: Bytes)
    ensures |b| == 2 * |units|
  {
    if units == [] then [] else LittleEndian(units[0], 2) + UnitBytes(units[1..])
  }

  function UnitAt(b: Bytes, i: nat): (u: CodeUnit)
    requires 2 * i + 1 < |b|
  {
    var low: int, high: int := b[2 * i], b[2 * i + 1];
    low + 0x100 * high
  }

  function UnitsOf(b: Bytes, count: nat): (units: Units)
    requires 2 * count <= |b|
    ensures |units| == count
  {
    if count == 0 then [] else UnitsOf(b, count - 1) + [UnitAt(b, count - 1)]
  }

  function Min(a: nat, b: nat): nat {
    if a <= b then a else b
  }

  function Zeros(n: nat): (b: Bytes)
    ensures |b| == n && forall k | 0 <= k < n :: b[k] == 0
  {
    seq(n, _ => 0)
  }

  /** What the name field holds of a name: its first 31 units and zeros behind them. */
  function NameBytes(name: Units): (b: Bytes)
    ensures |b| == NAME_FIELD
  {
    var n := Min(STORED_UNITS, |name|);
    UnitBytes(name[..n]) + Zeros(NAME_FIELD - 2 * n)
  }

  /** The length of a name with its terminator, in bytes. */
  function NameByteLength(name: Units): nat {
    if name == [] then 0 else (|name| + 1) * 2
  }

  /** The name a reader takes from the name field and the recorded length. */
  function ReadName(field: Bytes, length: nat): (r: Result<Name>)
    requires |field| >= NAME_FIELD
    ensures r.Ok? ==> |r.value| <= STORED_UNITS
  {
    if length == 0 then Ok([])
    else if length > NAME_FIELD || length % 2 != 0 then Err(BadNameLength(length))
    else
      var units := UnitsOf(field, length / 2 - 1);
      if WellFormed(units) then Ok(units) else Err(BadUtf16)
  }

  /** The name that is read back for a name that was stored: its length is recorded in
      16 bits. */
  function StoredName(name: Name): (r: Result<Name>)
    ensures r.Ok? ==> |r.value| <= STORED_UNITS
  {
    ReadName(NameBytes(name), NameByteLength(name) % 0x1_0000)
  }

  lemma {:induction false} UnitBytesAt(units: Units, i: nat)
    requires i < |units|
    ensures UnitAt(UnitBytes(units), i) == units[i]
  {
    var first := LittleEndian(units[0], 2);
    assert first == [units[0] % 0x100, units[0] / 0x100 % 0x100] by {
      assert first[1..] == LittleEndian(units[0] / 0x100, 1);
      assert LittleEndian(units[0] / 0x100, 1) == [units[0] / 0x100 % 0x100] + LittleEndian(units[0] / 0x100 / 0x100, 0);
    }
    if i > 0 {
      UnitBytesAt(units[1..], i - 1);
      assert UnitBytes(units)[2 * i] == UnitBytes(units[1..])[2 * (i - 1)];
      assert UnitBytes(units)[2 * i + 1] == UnitBytes(units[1..])[2 * (i - 1) + 1];
    }
  }

  lemma {:induction false} UnitsReadBack(units: Units, behind: Bytes, count: nat)
    requires count <= |units|
    ensures UnitsOf(UnitBytes(units) + behind, count) == units[..count]
  {
    if count > 0 {
      UnitsReadBack(units, behind, count - 1);
      UnitBytesAt(units, count - 1);
      assert units[..count] == units[..count - 1] + [units[count - 1]];
    }
  }

  lemma EmptyNameSurvives()
    ensures StoredName([]) == Ok([])
  {
    hide NameBytes;
    hide UnitsOf;
    hide WellFormed;
    assert NameByteLength([]) % 0x1_0000 == 0;
    hide NameByteLength;
  }

  lemma ShortNameSurvives(name: Name)
    requires 0 < |name| <= STORED_UNITS
    ensures StoredName(name) == Ok(name)
  {
    var n := |name|;
    assert name[..n] == name;
    UnitsReadBack(name, Zeros(NAME_FIELD - 2 * n), n);
    assert NameByteLength(name) % 0x1_0000 == 2 * n + 2 && (2 * n + 2) / 2 - 1 == n;
    hide UnitBytes;
    hide UnitsOf;
    hide WellFormed;
  }

  /** A stored name is read back as it was if and only if it has at most 31 units. Of a
      longer one, whatever is read back is too short, also where the recorded length
      has wrapped round to one that is allowed. */
  lemma NameSurvivesExactly(name: Name)
    ensures StoredName(name) == Ok(name) <==> |name| <= STORED_UNITS
  {
    hide *;
    if name == [] {
      EmptyNameSurvives();
    } else if |name| <= STORED_UNITS {
      ShortNameSurvives(name);
    }
  }

  /** How a name that is too long is read: as an error, unless its recorded length has
      wrapped round to at most 64; then as so many of its first units as that allows. */
  lemma LongNameIsReadAs(name: Name)
    requires |name| > STORED_UNITS
    ensures var length := 2 * (|name| + 1) % 0x1_0000;
            StoredName(name) ==
            if length == 0 then Ok([])
            else if length > NAME_FIELD then Err(BadNameLength(length))
            else if WellFormed(name[..length / 2 - 1]) then Ok(name[..length / 2 - 1])
            else Err(BadUtf16)
  {
    var length := 2 * (|name| + 1) % 0x1_0000;
    assert length % 2 == 0;
    if 0 < length <= NAME_FIELD {
      var n := length / 2 - 1;
      UnitsReadBack(name[..STORED_UNITS], Zeros(NAME_FIELD - 2 * STORED_UNITS), n);
      assert name[..STORED_UNITS][..n] == name[..n];
    }
  }

  lemma NameOf32(name: Name)
    requires |name| == 32
    ensures StoredName(name) == Err(BadNameLength(66))
  {
    LongNameIsReadAs(name);
    hide StoredName;
    hide WellFormed;
  }

  lemma NameOf32767(name: Name)
    requires |name| == 32767
    ensures StoredName(name) == Ok([])
  {
    LongNameIsReadAs(name);
    hide StoredName;
    hide WellFormed;
  }

  // ----- Entries as bytes -----

  function Concat(fields: seq<Bytes>): Bytes {
    if fields == [] then [] else fields[0] + Concat(fields[1..])
  }

  /** Where the `k`-th field begins. */
  function Offset(fields: seq<Bytes>, k: nat): nat
    requires k <= |fields|
  {
    if k == 0 then 0 else Offset(fields, k - 1) + |fields[k - 1]|
  }

  lemma {:induction false} ConcatAppend(fields: seq<Bytes>, field: Bytes)
    ensures Concat(fields + [field]) == Concat(fields) + field
  {
    if fields == [] {
      assert fields + [field] == [field] && [field][1..] == [];
    } else {
      assert (fields + [field])[1..] == fields[1..] + [field];
      ConcatAppend(fields[1..], field);
    }
  }

  lemma {:induction false} PrefixLength(fields: seq<Bytes>, k: nat)
    requires k <= |fields|
    ensures |Concat(fields[..k])| == Offset(fields, k)
  {
    if k > 0 {
      PrefixLength(fields, k - 1);
      assert fields[..k] == fields[..k - 1] + [fields[k - 1]];
      ConcatAppend(fields[..k - 1], fields[k - 1]);
    }
  }

  lemma {:induction false} ConcatPrefix(fields: seq<Bytes>, k: nat)
    requires k <= |fields|
    ensures |Concat(fields[..k])| == Offset(fields, k)
    ensures Concat(fields[..k]) <= Concat(fields)
    decreases |fields| - k, k
  {
    PrefixLength(fields, k);
    if k == |fields| {
      assert fields[..k] == fields;
    } else {
      assert fields[..k + 1] == fields[..k] + [fields[k]];
      ConcatAppend(fields[..k], fields[k]);
      ConcatPrefix(fields, k + 1);
    }
  }

  lemma SliceBehind(before: Bytes, field: Bytes, next: Bytes, all: Bytes)
    requires next == before + field && next <= all
    ensures |before| + |field| <= |all| && all[|before|..|before| + |field|] == field
  {
    assert all[..|next|] == before + field;
  }

  lemma NextField(fields: seq<Bytes>, k: nat)
    requires k < |fields|
    ensures Concat(fields[..k + 1]) == Concat(fields[..k]) + fields[k]
  {
    hide Concat;
    assert fields[..k + 1] == fields[..k] + [fields[k]];
    ConcatAppend(fields[..k], fields[k]);
  }

  lemma FieldAt(fields: seq<Bytes>, k: nat, at: nat, end: nat)
    requires k < |fields| && at == Offset(fields, k) && end == at + |fields[k]|
    ensures end <= |Concat(fields)| && Concat(fields)[at..end] == fields[k]
  {
    hide *;
    ConcatPrefix(fields, k);
    ConcatPrefix(fields, k + 1);
    NextField(fields, k);
    SliceBehind(Concat(fields[..k]), fields[k], Concat(fields[..k + 1]), Concat(fields));
  }

  function TypeCode(t: ObjectType): Byte {
    match t
    case UnknownObject => 0
    case StorageObject => 1
    case StreamObject => 2
    case RootObject => 5
  }

  function TypeOf(code: Byte): Result<ObjectType> {
    match code
    case 0 => Ok(UnknownObject)
    case 1 => Ok(StorageObject)
    case 2 => Ok(StreamObject)
    case 5 => Ok(RootObject)
    case _ => Err(BadType(code))
  }

  function ColorCode(c: Color): Byte {
    if c == Red then 0 else 1
  }

  function ColorOf(code: Byte): Result<Color> {
    match code
    case 0 => Ok(Red)
    case 1 => Ok(Black)
    case _ => Err(BadColor(code))
  }

  /** The fields of an entry, in the order in which they are stored. */
  function Fields(d: DirectoryEntry): (fields: seq<Bytes>)
    ensures |fields| == 13
  {
    [NameBytes(d.name), LittleEndian(NameByteLength(d.name) % 0x1_0000, 2),
     [TypeCode(d.objectType)], [ColorCode(d.color)],
     LittleEndian(d.left, 4), LittleEndian(d.right, 4), LittleEndian(d.child, 4), d.classId,
     LittleEndian(d.stateBits, 4), LittleEndian(d.created, 8), LittleEndian(d.modified, 8),
     LittleEndian(d.startSector, 4), LittleEndian(d.size, 8)]
  }

  function ToBytes(d: DirectoryEntry): Bytes {
    Concat(Fields(d))
  }

  /** Where the fields of an entry begin. */
  lemma Layout(d: DirectoryEntry)
    ensures var f := Fields(d);
            && Offset(f, 0) == 0 && Offset(f, 1) == 64 && Offset(f, 2) == 66 && Offset(f, 3) == 67
            && Offset(f, 4) == 68 && Offset(f, 5) == 72 && Offset(f, 6) == 76 && Offset(f, 7) == 80
            && Offset(f, 8) == 96 && Offset(f, 9) == 100 && Offset(f, 10) == 108 && Offset(f, 11) == 116
            && Offset(f, 12) == 120 && Offset(f, 13) == ENTRY_SIZE
  {
    var f := Fields(d);
    assert |f[0]| == 64 && |f[1]| == 2 && |f[2]| == 1 && |f[3]| == 1;
    assert |f[4]| == |f[5]| == |f[6]| == 4 && |f[7]| == 16;
    assert |f[8]| == 4 && |f[9]| == |f[10]| == 8 && |f[11]| == 4 && |f[12]| == 8;
    hide Fields;
    assert Offset(f, 1) == Offset(f, 0) + |f[0]|;
    assert Offset(f, 2) == Offset(f, 1) + |f[1]|;
    assert Offset(f, 3) == Offset(f, 2) + |f[2]|;
    assert Offset(f, 4) == Offset(f, 3) + |f[3]|;
    assert Offset(f, 5) == Offset(f, 4) + |f[4]|;
    assert Offset(f, 6) == Offset(f, 5) + |f[5]|;
    assert Offset(f, 7) == Offset(f, 6) + |f[6]|;
    assert Offset(f, 8) == Offset(f, 7) + |f[7]|;
    assert Offset(f, 9) == Offset(f, 8) + |f[8]|;
    assert Offset(f, 10) == Offset(f, 9) + |f[9]|;
    assert Offset(f, 11) == Offset(f, 10) + |f[10]|;
    assert Offset(f, 12) == Offset(f, 11) + |f[11]|;
    assert Offset(f, 13) == Offset(f, 12) + |f[12]|;
  }

  lemma ToBytesLength(d: DirectoryEntry)
    ensures |ToBytes(d)| == ENTRY_SIZE
  {
    Layout(d);
    var f := Fields(d);
    PrefixLength(f, 13);
    assert f[..13] == f;
    hide Fields;
  }

  lemma {:induction false} NumberFits(b: Bytes)
    ensures FromLittleEndian(b) < Power256(|b|)
  {
    if b != [] {
      NumberFits(b[1..]);
    }
  }

  function Number32(b: Bytes): (n: U32)
    requires |b| == 4
    ensures n == FromLittleEndian(b)
  {
    Powers();
    NumberFits(b);
    FromLittleEndian(b)
  }

  function Number64(b: Bytes): (n: U64)
    requires |b| == 8
    ensures n == FromLittleEndian(b)
  {
    Powers();
    NumberFits(b);
    FromLittleEndian(b)
  }

  /** What is read from the bytes of an entry, errors in the order in which they are met. */
  function Parse(b: Bytes): Result<DirectoryEntry> {
    if |b| < ENTRY_SIZE then Err(TooShort(|b|))
    else
      var name := ReadName(b[..64], FromLittleEndian(b[64..66]));
      if name.Err? then Err(name.error)
      else if TypeOf(b[66]).Err? then Err(TypeOf(b[66]).error)
      else if ColorOf(b[67]).Err? then Err(ColorOf(b[67]).error)
      else
        Ok(DirectoryEntry(
             name.value, TypeOf(b[66]).value, ColorOf(b[67]).value,
             Number32(b[68..72]), Number32(b[72..76]), Number32(b[76..80]), b[80..96],
             Number32(b[96..100]), Number64(b[100..108]), Number64(b[108..116]),
             Number32(b[116..120]), Number64(b[120..128])))
  }

  lemma FieldSpans(fields: seq<Bytes>)
    ensures forall k: nat | k < |fields| :: Offset(fields, k + 1) == Offset(fields, k) + |fields[k]|
  {
  }

  lemma FieldSlices(d: DirectoryEntry)
    ensures var b, f := ToBytes(d), Fields(d);
            && |b| == ENTRY_SIZE
            && b[..64] == f[0] && b[64..66] == f[1] && b[66..67] == f[2] && b[67..68] == f[3]
            && b[68..72] == f[4] && b[72..76] == f[5] && b[76..80] == f[6] && b[80..96] == f[7]
            && b[96..100] == f[8] && b[100..108] == f[9] && b[108..116] == f[10] && b[116..120] == f[11]
            && b[120..128] == f[12]
  {
    ToBytesLength(d);
    Layout(d);
    var f := Fields(d);
    hide Fields;
    hide Concat;
    hide Offset;
    assert |f| == 13;
    FieldSpans(f);
    FieldAt(f, 0, 0, 64);
    FieldAt(f, 1, 64, 66);
    FieldAt(f, 2, 66, 67);
    FieldAt(f, 3, 67, 68);
    FieldAt(f, 4, 68, 72);
    FieldAt(f, 5, 72, 76);
    FieldAt(f, 6, 76, 80);
    FieldAt(f, 7, 80, 96);
    FieldAt(f, 8, 96, 100);
    FieldAt(f, 9, 100, 108);
    FieldAt(f, 10, 108, 116);
    FieldAt(f, 11, 116, 120);
    FieldAt(f, 12, 120, 128);
  }

  lemma NumbersReadBack(d: DirectoryEntry)
    ensures var b := ToBytes(d);
            && |b| == ENTRY_SIZE
            && FromLittleEndian(b[64..66]) == NameByteLength(d.name) % 0x1_0000
            && Number32(b[68..72]) == d.left && Number32(b[72..76]) == d.right && Number32(b[76..80]) == d.child
            && Number32(b[96..100]) == d.stateBits && Number64(b[100..108]) == d.created
            && Number64(b[108..116]) == d.modified && Number32(b[116..120]) == d.startSector
            && Number64(b[120..128]) == d.size
  {
    FieldSlices(d);
    hide ToBytes;
    hide LittleEndian;
    hide FromLittleEndian;
    hide NameBytes;
    hide NameByteLength;
    FieldReadsBack(NameByteLength(d.name) % 0x1_0000);
    FieldReadsBack(d.left);
    FieldReadsBack(d.right);
    FieldReadsBack(d.child);
    FieldReadsBack(d.stateBits);
    FieldReadsBack(d.created);
    FieldReadsBack(d.modified);
    FieldReadsBack(d.startSector);
    FieldReadsBack(d.size);
  }

  lemma RestReadsBack(d: DirectoryEntry)
    ensures var b := ToBytes(d);
            && |b| == ENTRY_SIZE && b[..64] == NameBytes(d.name) && b[80..96] == d.classId
            && TypeOf(b[66]) == Ok(d.objectType) && ColorOf(b[67]) == Ok(d.color)
  {
    FieldSlices(d);
    var b := ToBytes(d);
    assert b[66] == b[66..67][0] && b[67] == b[67..68][0];
    hide ToBytes;
    hide LittleEndian;
    hide NameBytes;
    hide NameByteLength;
  }

  /** An entry that is stored and read back is the same entry but for its name, which
      is what is left of it; it is not read at all exactly when its name is not. */
  lemma StoredEntry(d: DirectoryEntry)
    ensures Parse(ToBytes(d)) == match StoredName(d.name)
                                 case Err(error) => Err(error)
                                 case Ok(name) => Ok(d.(name := name))
  {
    NumbersReadBack(d);
    RestReadsBack(d);
    hide ToBytes;
    hide FromLittleEndian;
    hide ReadName;
    hide NameBytes;
    hide NameByteLength;
    hide TypeOf;
    hide ColorOf;
    hide Number32;
    hide Number64;
  }

  /** An entry is read back as it was if and only if its name has at most 31 units. */
  lemma EntrySurvivesExactly(d: DirectoryEntry)
    ensures Parse(ToBytes(d)) == Ok(d) <==> |d.name| <= STORED_UNITS
  {
    StoredEntry(d);
    NameSurvivesExactly(d.name);
    hide Parse;
    hide ToBytes;
    hide StoredName;
  }

  // ----- The format, byte by byte -----

  function At16(b: Bytes, i: nat): int
    requires i + 2 <= |b|
  {
    b[i] as int + 0x100 * b[i + 1] as int
  }

  function At32(b: Bytes, i: nat): int
    requires i + 4 <= |b|
  {
    b[i] as int + 0x100 * b[i + 1] as int + 0x1_0000 * b[i + 2] as int + 0x100_0000 * b[i + 3] as int
  }

  function At64(b: Bytes, i: nat): int
    requires i + 8 <= |b|
  {
    At32(b, i) + 0x1_0000_0000 * At32(b, i + 4)
  }

  lemma NextByte(b: Bytes)
    requires b != []
    ensures FromLittleEndian(b) == b[0] as int + 0x100 * FromLittleEndian(b[1..])
  {
  }

  lemma TwoBytes(b: Bytes)
    requires |b| == 2
    ensures FromLittleEndian(b) == At16(b, 0)
  {
    NextByte(b);
    NextByte(b[1..]);
    assert b[1..][1..] == [];
  }

  lemma FourBytes(b: Bytes)
    requires |b| == 4
    ensures FromLittleEndian(b) == At32(b, 0)
  {
    NextByte(b);
    NextByte(b[1..]);
    TwoBytes(b[2..]);
    assert b[1..][1..] == b[2..];
    hide FromLittleEndian;
  }

  lemma EightBytes(b: Bytes)
    requires |b| == 8
    ensures FromLittleEndian(b) == At64(b, 0)
  {
    NextByte(b);
    NextByte(b[1..]);
    NextByte(b[2..]);
    NextByte(b[3..]);
    FourBytes(b[4..]);
    assert b[1..][1..] == b[2..] && b[2..][1..] == b[3..] && b[3..][1..] == b[4..];
    hide FromLittleEndian;
  }

  /** All fields but the name stand at their places: the type as 0, 1, 2 or 5, the colour as
      0 for red and 1 for black, numbers with the lowest byte first. */
  predicate FieldsStand(b: Bytes, d: DirectoryEntry) {
    && |b| >= 128
    && b[66] == (match d.objectType
                 case UnknownObject => 0
                 case StorageObject => 1
                 case StreamObject => 2
                 case RootObject => 5)
    && b[67] == (if d.color == Red then 0 else 1)
    && At32(b, 68) == d.left && At32(b, 72) == d.right && At32(b, 76) == d.child && b[80..96] == d.classId
    && At32(b, 96) == d.stateBits && At64(b, 100) == d.created && At64(b, 108) == d.modified
    && At32(b, 116) == d.startSector && At64(b, 120) == d.size
  }

  lemma NumbersStand(b: Bytes)
    requires |b| >= 128
    ensures FromLittleEndian(b[64..66]) == At16(b, 64)
    ensures Number32(b[68..72]) == At32(b, 68) && Number32(b[72..76]) == At32(b, 72)
    ensures Number32(b[76..80]) == At32(b, 76)
    ensures Number32(b[96..100]) == At32(b, 96) && Number64(b[100..108]) == At64(b, 100)
    ensures Number64(b[108..116]) == At64(b, 108) && Number32(b[116..120]) == At32(b, 116)
    ensures Number64(b[120..128]) == At64(b, 120)
  {
    TwoBytes(b[64..66]);
    FourBytes(b[68..72]);
    FourBytes(b[72..76]);
    FourBytes(b[76..80]);
    FourBytes(b[96..100]);
    EightBytes(b[100..108]);
    EightBytes(b[108..116]);
    FourBytes(b[116..120]);
    EightBytes(b[120..128]);
    hide FromLittleEndian;
  }

  /** The units of a name, up to 31 of them, and zeros behind. */
  lemma NameStands(name: Units, k: nat)
    requires k < 32
    ensures At16(NameBytes(name), 2 * k) == if k < 31 && k < |name| then name[k] else 0
  {
    var n := Min(STORED_UNITS, |name|);
    if k < n {
      UnitBytesAt(name[..n], k);
    }
    hide UnitBytes;
  }

  lemma TypeOfExactly(code: Byte, t: ObjectType)
    ensures TypeOf(code) == Ok(t) <==>
              code == match t
                      case UnknownObject => 0
                      case StorageObject => 1
                      case StreamObject => 2
                      case RootObject => 5
    ensures TypeOf(code).Err? <==> code !in [0, 1, 2, 5]
    ensures TypeOf(code).Err? ==> TypeOf(code) == Err(BadType(code))
  {
  }

  lemma ColorOfExactly(code: Byte, c: Color)
    ensures ColorOf(code) == Ok(c) <==> code == if c == Red then 0 else 1
    ensures ColorOf(code).Err? <==> code !in [0, 1]
    ensures ColorOf(code).Err? ==> ColorOf(code) == Err(BadColor(code))
  {
  }

  lemma StoredFieldsStand(d: DirectoryEntry)
    ensures |ToBytes(d)| == 128 && FieldsStand(ToBytes(d), d)
    ensures At16(ToBytes(d), 64) == NameByteLength(d.name) % 0x1_0000
  {
    var b := ToBytes(d);
    NumbersReadBack(d);
    RestReadsBack(d);
    hide ToBytes;
    hide FromLittleEndian;
    hide NameBytes;
    hide NameByteLength;
    hide TypeOf;
    hide ColorOf;
    hide Number32;
    hide Number64;
    hide At16;
    hide At32;
    hide At64;
    NumbersStand(b);
    TypeOfExactly(b[66], d.objectType);
    ColorOfExactly(b[67], d.color);
  }

  /** The stored form of an entry, as the reader of another program would take it. */
  lemma EntryFormat(d: DirectoryEntry)
    ensures var b := ToBytes(d);
            && |b| == 128 && FieldsStand(b, d)
            && At16(b, 64) == (if d.name == [] then 0 else 2 * (|d.name| + 1) % 0x1_0000)
            && forall k: nat | k < 32 :: At16(b, 2 * k) == if k < 31 && k < |d.name| then d.name[k] else 0
  {
    var b := ToBytes(d);
    StoredFieldsStand(d);
    RestReadsBack(d);
    hide ToBytes;
    hide NameBytes;
    hide FieldsStand;
    hide TypeOf;
    hide ColorOf;
    forall k: nat | k < 32 ensures At16(b, 2 * k) == if k < 31 && k < |d.name| then d.name[k] else 0 {
      NameStands(d.name, k);
      assert b[..64][2 * k] == b[2 * k] && b[..64][2 * k + 1] == b[2 * k + 1];
    }
  }

  /** A name that can be read from the bytes: none, or as many units as the recorded length
      says, without the last. */
  ghost predicate IsNameIn(b: Bytes, name: Name)
    requires |b| >= 128
  {
    var length := At16(b, 64);
    && |name| == (if length == 0 then 0 else length / 2 - 1) <= 31
    && (length % 2 == 0)
    && forall k | 0 <= k < |name| :: name[k] == At16(b, 2 * k)
  }

  lemma {:induction false} UnitsStand(b: Bytes, count: nat, k: nat)
    requires |b| >= 64 && count <= 32 && k < count
    ensures UnitsOf(b[..64], count)[k] == At16(b, 2 * k)
  {
    if k < count - 1 {
      UnitsStand(b, count - 1, k);
    }
  }

  lemma NameIsRead(b: Bytes)
    requires |b| >= 128
    ensures match ReadName(b[..64], At16(b, 64))
            case Ok(name) => IsNameIn(b, name)
            case Err(BadNameLength(n)) => n == At16(b, 64) && (n > 64 || n % 2 != 0)
            case Err(BadUtf16) =>
              At16(b, 64) <= 64 && At16(b, 64) % 2 == 0 && forall name: Name :: !IsNameIn(b, name)
            case _ => false
  {
    var length := At16(b, 64);
    if 0 < length <= 64 && length % 2 == 0 {
      var units := UnitsOf(b[..64], length / 2 - 1);
      forall k: nat | k < |units| ensures units[k] == At16(b, 2 * k) {
        UnitsStand(b, length / 2 - 1, k);
      }
      hide At16;
      hide UnitsOf;
      if !WellFormed(units) {
        forall name: Name ensures !IsNameIn(b, name) {
          assert IsNameIn(b, name) ==> name == units;
        }
      }
    }
  }

  /** What a reader makes of any bytes: the entry that they are, or the first thing that is
      wrong with them. */
  lemma ReadExactly(b: Bytes)
    ensures match Parse(b)
            case Ok(d) => FieldsStand(b, d) && IsNameIn(b, d.name)
            case Err(TooShort(n)) => n == |b| < 128
            case Err(BadNameLength(n)) => |b| >= 128 && n == At16(b, 64) && (n > 64 || n % 2 != 0)
            case Err(BadUtf16) =>
              && |b| >= 128 && At16(b, 64) <= 64 && At16(b, 64) % 2 == 0
              && forall name: Name :: !IsNameIn(b, name)
            case Err(BadType(code)) =>
              && |b| >= 128 && (exists name: Name :: IsNameIn(b, name))
              && code == b[66] && code !in [0, 1, 2, 5]
            case Err(BadColor(code)) =>
              && |b| >= 128 && (exists name: Name :: IsNameIn(b, name))
              && b[66] in [0, 1, 2, 5] && code == b[67] && code !in [0, 1]
  {
    if |b| >= 128 {
      NameIsRead(b);
      NumbersStand(b);
      var name := ReadName(b[..64], FromLittleEndian(b[64..66]));
      if TypeOf(b[66]).Ok? {
        TypeOfExactly(b[66], TypeOf(b[66]).value);
      } else {
        TypeOfExactly(b[66], UnknownObject);
      }
      if ColorOf(b[67]).Ok? {
        ColorOfExactly(b[67], ColorOf(b[67]).value);
      } else {
        ColorOfExactly(b[67], Red);
      }
      hide FromLittleEndian;
      hide ReadName;
      hide TypeOf;
      hide ColorOf;
      hide Number32;
      hide Number64;
      hide At16;
      hide At32;
      hide At64;
      hide IsNameIn;
      assert name.Ok? ==> IsNameIn(b, name.value);
    }
  }

  // ----- Writing and reading an entry -----

  /** Writes the next field behind those that are there. */
  method PutField(buf: array<Byte>, at: nat, ghost fields: seq<Bytes>, ghost k: nat, field: Bytes)
    requires at + |field| <= buf.Length && k < |fields| && fields[k] == field
    requires buf[..at] == Concat(fields[..k])
    modifies buf
    ensures buf[..at + |field|] == Concat(fields[..k + 1])
  {
    ghost var before := buf[..at];
    for i := 0 to |field|
      invariant buf[..at] == before
      invariant buf[at..at + i] == field[..i]
    {
      buf[at + i] := field[i];
    }
    assert buf[at..at + |field|] == field;
    assert buf[..at + |field|] == before + field;
    NextField(fields, k);
  }

  lemma {:induction false} UnitBytesAppend(units: Units, u: CodeUnit)
    ensures UnitBytes(units + [u]) == UnitBytes(units) + LittleEndian(u, 2)
  {
    if units == [] {
      assert units + [u] == [u] && [u][1..] == [];
    } else {
      assert (units + [u])[1..] == units[1..] + [u];
      UnitBytesAppend(units[1..], u);
    }
  }

  /** Writes the two bytes of a unit behind those of the units before it. */
  method PutUnit(buf: array<Byte>, i: nat, ghost units: Units, u: CodeUnit)
    requires 2 * i + 2 <= buf.Length && buf[..2 * i] == UnitBytes(units) && |units| == i
    modifies buf
    ensures buf[..2 * (i + 1)] == UnitBytes(units + [u])
    ensures forall k | 2 * i + 2 <= k < buf.Length :: buf[k] == old(buf[k])
  {
    var unit := LittleEndian(u, 2);
    UnitBytesAppend(units, u);
    hide LittleEndian;
    hide UnitBytes;
    buf[2 * i] := unit[0];
    buf[2 * i + 1] := unit[1];
    assert buf[..2 * i] == UnitBytes(units);
    assert buf[..2 * (i + 1)] == buf[..2 * i] + unit;
  }

  lemma NoUnits()
    ensures UnitBytes([]) == []
  {
  }

  /** Writes the first units of a name into a field of zeros. */
  method PutName(buf: array<Byte>, name: Name)
    requires buf.Length >= NAME_FIELD && forall i | 0 <= i < buf.Length :: buf[i] == 0
    modifies buf
    ensures buf[..NAME_FIELD] == NameBytes(name)
  {
    var n := Min(STORED_UNITS, |name|);
    hide UnitBytes;
    NoUnits();
    for i := 0 to n
      invariant buf[..2 * i] == UnitBytes(name[..i])
      invariant forall k | 2 * i <= k < buf.Length :: buf[k] == 0
    {
      assert name[..i + 1] == name[..i] + [name[i]];
      PutUnit(buf, i, name[..i], name[i]);
    }
    assert buf[2 * n..NAME_FIELD] == Zeros(NAME_FIELD - 2 * n);
    assert buf[..NAME_FIELD] == buf[..2 * n] + buf[2 * n..NAME_FIELD];
  }

  lemma FieldsOf(d: DirectoryEntry)
    ensures var f := Fields(d);
            && f[1] == LittleEndian(NameByteLength(d.name) % 0x1_0000, 2) && f[2] == [TypeCode(d.objectType)]
            && f[3] == [ColorCode(d.color)] && f[4] == LittleEndian(d.left, 4) && f[5] == LittleEndian(d.right, 4)
            && f[6] == LittleEndian(d.child, 4) && f[7] == d.classId && f[8] == LittleEndian(d.stateBits, 4)
            && f[9] == LittleEndian(d.created, 8) && f[10] == LittleEndian(d.modified, 8)
            && f[11] == LittleEndian(d.startSector, 4) && f[12] == LittleEndian(d.size, 8)
  {
  }

  /** The fields from the recorded length to the links. */
  method PutLinks(buf: array<Byte>, d: DirectoryEntry)
    requires buf.Length == ENTRY_SIZE && buf[..64] == Concat(Fields(d)[..1])
    modifies buf
    ensures buf[..80] == Concat(Fields(d)[..7])
  {
    ghost var f := Fields(d);
    FieldsOf(d);
    hide Concat;
    hide Fields;
    hide LittleEndian;
    hide NameByteLength;
    hide TypeCode;
    hide ColorCode;
    PutField(buf, 64, f, 1, LittleEndian(NameByteLength(d.name) % 0x1_0000, 2));
    PutField(buf, 66, f, 2, [TypeCode(d.objectType)]);
    PutField(buf, 67, f, 3, [ColorCode(d.color)]);
    PutField(buf, 68, f, 4, LittleEndian(d.left, 4));
    PutField(buf, 72, f, 5, LittleEndian(d.right, 4));
    PutField(buf, 76, f, 6, LittleEndian(d.child, 4));
  }

  /** The fields from the class id to the size. */
  method PutRest(buf: array<Byte>, d: DirectoryEntry)
    requires buf.Length == ENTRY_SIZE && buf[..80] == Concat(Fields(d)[..7])
    modifies buf
    ensures buf[..128] == Concat(Fields(d)[..13])
  {
    ghost var f := Fields(d);
    FieldsOf(d);
    hide Concat;
    hide Fields;
    hide LittleEndian;
    hide NameByteLength;
    hide TypeCode;
    hide ColorCode;
    PutField(buf, 80, f, 7, d.classId);
    PutField(buf, 96, f, 8, LittleEndian(d.stateBits, 4));
    PutField(buf, 100, f, 9, LittleEndian(d.created, 8));
    PutField(buf, 108, f, 10, LittleEndian(d.modified, 8));
    PutField(buf, 116, f, 11, LittleEndian(d.startSector, 4));
    PutField(buf, 120, f, 12, LittleEndian(d.size, 8));
  }

  lemma FirstField(d: DirectoryEntry)
    ensures Concat(Fields(d)[..1]) == NameBytes(d.name) && Fields(d)[..13] == Fields(d)
  {
    var f := Fields(d);
    var first, none := f[..1], f[..0];
    assert first[1..] == none && first[0] == f[0];
    assert Concat(none) == [];
    hide NameBytes;
  }

  method Serialize(d: DirectoryEntry) returns (buf: array<Byte>)
    ensures fresh(buf) && buf[..] == ToBytes(d)
  {
    FirstField(d);
    buf := new Byte[ENTRY_SIZE](_ => 0);
    PutName(buf, d.name);
    hide Concat;
    hide Fields;
    PutLinks(buf, d);
    PutRest(buf, d);
    assert buf[..] == buf[..128];
  }

  lemma UnitIsNumber(b: Bytes, i: nat)
    requires |b| >= 64 && 2 * i + 2 <= 64
    ensures FromLittleEndian(b[2 * i..2 * i + 2]) == UnitAt(b[..64], i)
  {
    var two := b[2 * i..2 * i + 2];
    assert FromLittleEndian(two[1..]) == two[1] + 0x100 * FromLittleEndian(two[1..][1..]);
  }

  method ReadEntry(bytes: Bytes) returns (r: Result<DirectoryEntry>)
    ensures r == Parse(bytes)
  {
    if |bytes| < ENTRY_SIZE {
      return Err(TooShort(|bytes|));
    }
    var nameByteLength := FromLittleEndian(bytes[64..66]);
    var name: Name := [];
    if nameByteLength != 0 {
      if nameByteLength > NAME_FIELD || nameByteLength % 2 != 0 {
        return Err(BadNameLength(nameByteLength));
      }
      var charCount := nameByteLength / 2 - 1;
      var units: Units := [];
      for i := 0 to charCount
        invariant units == UnitsOf(bytes[..64], i)
      {
        UnitIsNumber(bytes, i);
        var unit: CodeUnit := FromLittleEndian(bytes[2 * i..2 * i + 2]);
        units := units + [unit];
      }
      if !WellFormed(units) {
        return Err(BadUtf16);
      }
      name := units;
    }
    var objectType := TypeOf(bytes[66]);
    if objectType.Err? {
      return Err(objectType.error);
    }
    var color := ColorOf(bytes[67]);
    if color.Err? {
      return Err(color.error);
    }
    r := Ok(DirectoryEntry(
              name, objectType.value, color.value,
              Number32(bytes[68..72]), Number32(bytes[72..76]), Number32(bytes[76..80]), bytes[80..96],
              Number32(bytes[96..100]), Number64(bytes[100..108]), Number64(bytes[108..116]),
              Number32(bytes[116..120]), Number64(bytes[120..128])));
  }
}
