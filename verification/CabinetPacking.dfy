/** Packing files from disk into a package under construction. */
module CabinetPacking {
  import opened Options

  type Bytes = seq<bv8>

  const MSI_SUCCESS: int := 0
  const MSI_ERROR_NULL_POINTER: int := -1
  const MSI_ERROR_INVALID_ARGUMENT: int := -2
  const MSI_ERROR_VALIDATION: int := -3
  const MSI_ERROR_IO: int := -4
  const MAX_I16: int := 0x7FFF
  const MAX_I32: int := 0x7FFF_FFFF
  const COMPRESSED: int := 0x4000

  /** A string argument: a null pointer, bytes that are not UTF-8, or text. */
  datatype CStr = Null | NotUtf8 | Text(text: string)

  datatype Compression = Stored | Mszip | Quantum | Lzx(windowBits: nat)

  datatype FileRow = FileRow(file: string, component: string, fileName: string, fileSize: int,
                             attributes: int, sequence: int)

  datatype FileHashRow = FileHashRow(file: string, options: int, parts: (int, int, int, int))

  datatype MediaRow = MediaRow(diskId: int, lastSequence: int, diskPrompt: Option<string>,
                               cabinet: Option<string>, volumeLabel: Option<string>, source: Option<string>)

  datatype CabEntry = CabEntry(name: string, data: Bytes)

  /** What the call finds outside itself: the outcome of reading the i-th file, the
      MD5 quads of some data, the shortened form of an over-long identifier, the last
      component of a path, and the bytes of a finished cabinet. */
  datatype Env = Env(
    read: (nat, string) -> Option<Bytes>,
    quads: Bytes -> (int, int, int, int),
    sanitize: string -> string,
    fileName: string -> Option<string>,
    build: (Compression, seq<CabEntry>) -> Bytes)

  function TextOf(c: CStr): string {
    if c.Text? then c.text else ""
  }

  /** The arguments after the builder; a null array is absent. */
  datatype Request = Request(
    sourcePaths: Option<seq<CStr>>,
    fileIds: Option<seq<CStr>>,
    componentIds: Option<seq<CStr>>,
    count: nat,
    compression: int,
    cabinetName: CStr)
  {
    /** Every array that is there has at least `count` elements. */
    predicate Sized() {
      && (sourcePaths.Some? ==> |sourcePaths.value| >= count)
      && (fileIds.Some? ==> |fileIds.value| >= count)
      && (componentIds.Some? ==> |componentIds.value| >= count)
    }

    predicate HasArrays() {
      Sized() && sourcePaths.Some? && fileIds.Some? && componentIds.Some?
    }

    function Path(i: nat): string
      requires HasArrays() && i < count
    {
      TextOf(sourcePaths.value[i])
    }

    function FileId(i: nat): string
      requires HasArrays() && i < count
    {
      TextOf(fileIds.value[i])
    }

    function ComponentId(i: nat): string
      requires HasArrays() && i < count
    {
      TextOf(componentIds.value[i])
    }
  }

  function StringError(c: CStr): Option<int> {
    match c
    case Null => Some(MSI_ERROR_NULL_POINTER)
    case NotUtf8 => Some(MSI_ERROR_INVALID_ARGUMENT)
    case Text(_) => None
  }

  /** Truncation of a 64-bit count to a signed 16-bit integer. */
  function AsI16(n: nat): int {
    var low := n % 0x1_0000;
    if low > MAX_I16 then low - 0x1_0000 else low
  }

  function LowerAscii(c: char): char {
    if 'A' <= c <= 'Z' then c - 'A' + 'a' else c
  }

  /** Cabinet entry names that differ only in the case of ASCII letters collide. */
  predicate SameName(a: string, b: string) {
    |a| == |b| && forall k | 0 <= k < |a| :: LowerAscii(a[k]) == LowerAscii(b[k])
  }

  // ----- The call as a function of its arguments -----

  function DataOf(env: Env, req: Request, i: nat): Bytes
    requires req.HasArrays() && i < req.count
  {
    var r := env.read(i, req.Path(i));
    if r.Some? then r.value else []
  }

  function FileRowOf(env: Env, req: Request, i: nat): FileRow
    requires req.HasArrays() && i < req.count
  {
    var size := |DataOf(env, req, i)|;
    var name := env.fileName(req.Path(i));
    FileRow(env.sanitize(req.FileId(i)), env.sanitize(req.ComponentId(i)),
            if name.Some? then name.value else req.FileId(i),
            if size <= MAX_I32 then size else MAX_I32, COMPRESSED, AsI16(i + 1))
  }

  function HashRowOf(env: Env, req: Request, i: nat): FileHashRow
    requires req.HasArrays() && i < req.count
  {
    FileHashRow(env.sanitize(req.FileId(i)), 0, env.quads(DataOf(env, req, i)))
  }

  function EntryOf(env: Env, req: Request, i: nat): CabEntry
    requires req.HasArrays() && i < req.count
  {
    CabEntry(req.FileId(i), DataOf(env, req, i))
  }

  function FileRows(env: Env, req: Request, n: nat): (rows: seq<FileRow>)
    requires req.HasArrays() && n <= req.count
    ensures |rows| == n
  {
    if n == 0 then [] else FileRows(env, req, n - 1) + [FileRowOf(env, req, n - 1)]
  }

  function HashRows(env: Env, req: Request, n: nat): (rows: seq<FileHashRow>)
    requires req.HasArrays() && n <= req.count
    ensures |rows| == n
  {
    if n == 0 then [] else HashRows(env, req, n - 1) + [HashRowOf(env, req, n - 1)]
  }

  function Entries(env: Env, req: Request, n: nat): (entries: seq<CabEntry>)
    requires req.HasArrays() && n <= req.count
    ensures |entries| == n
  {
    if n == 0 then [] else Entries(env, req, n - 1) + [EntryOf(env, req, n - 1)]
  }

  lemma {:induction false} RowsAt(env: Env, req: Request, n: nat, k: nat)
    requires req.HasArrays() && k < n <= req.count
    ensures FileRows(env, req, n)[k] == FileRowOf(env, req, k)
    ensures HashRows(env, req, n)[k] == HashRowOf(env, req, k)
    ensures Entries(env, req, n)[k] == EntryOf(env, req, k)
  {
    hide FileRowOf;
    hide HashRowOf;
    hide EntryOf;
    if k < n - 1 {
      RowsAt(env, req, n - 1, k);
    }
  }

  /** Why file `i` is rejected before anything is recorded for it. */
  function Rejection(env: Env, req: Request, i: nat): Option<int>
    requires req.HasArrays() && i < req.count
  {
    var path, id, comp := req.sourcePaths.value[i], req.fileIds.value[i], req.componentIds.value[i];
    if StringError(path).Some? then StringError(path)
    else if StringError(id).Some? then StringError(id)
    else if StringError(comp).Some? then StringError(comp)
    else if env.read(i, path.text).None? then Some(MSI_ERROR_IO)
    else if id.text == "" || comp.text == "" then Some(MSI_ERROR_VALIDATION)
    else None
  }

  /** File `i` collides with an earlier entry of the cabinet. */
  predicate Collides(req: Request, i: nat)
    requires req.HasArrays() && i < req.count
  {
    exists j: nat :: j < i && SameName(req.FileId(j), req.FileId(i))
  }

  /** How the loop ends: with all files packed, at a rejected file, or at a file
      whose rows were recorded but which the cabinet refused. */
  datatype Ending = Packed | Rejected(i: nat, code: int) | Refused(i: nat)

  function EndingFrom(env: Env, req: Request, i: nat): (e: Ending)
    requires req.HasArrays() && i <= req.count
    ensures e.Rejected? ==> i <= e.i < req.count && Rejection(env, req, e.i) == Some(e.code)
    ensures e.Refused? ==> i <= e.i < req.count && Collides(req, e.i)
    decreases req.count - i
  {
    if i == req.count then Packed
    else if Rejection(env, req, i).Some? then Rejected(i, Rejection(env, req, i).value)
    else if Collides(req, i) then Refused(i)
    else EndingFrom(env, req, i + 1)
  }

  function EndingCode(e: Ending): Option<int> {
    match e
    case Packed => None
    case Rejected(_, code) => Some(code)
    case Refused(_) => Some(MSI_ERROR_INVALID_ARGUMENT)
  }

  /** How many files have rows when the loop ends: a rejected file has none, a
      refused one has. */
  function RecordedAt(e: Ending, count: nat): nat {
    match e
    case Packed => count
    case Rejected(i, _) => i
    case Refused(i) => i + 1
  }

  /** Compression by its number: 1 and unknown numbers stand for MSZIP. */
  function CompressionOf(code: int): (c: Compression)
    ensures c == Stored <==> code == 0
    ensures c == Quantum <==> code == 2
    ensures c == Lzx(17) <==> code == 3
    ensures c == Mszip <==> code !in [0, 2, 3]
  {
    if code == 0 then Stored else if code == 2 then Quantum else if code == 3 then Lzx(17) else Mszip
  }

  class CabinetWriter {
    var entries: seq<CabEntry>

    constructor ()
      ensures entries == []
    {
      entries := [];
    }

    /** Refuses a name that is in the cabinet already, whatever its case. */
    method AddFile(name: string, data: Bytes) returns (added: bool)
      modifies this
      ensures added <==> !(exists k :: 0 <= k < |old(entries)| && SameName(old(entries)[k].name, name))
      ensures entries == if added then old(entries) + [CabEntry(name, data)] else old(entries)
    {
      var k := 0;
      while k < |entries|
        invariant 0 <= k <= |entries| && entries == old(entries)
        invariant forall j | 0 <= j < k :: !SameName(entries[j].name, name)
      {
        if SameName(entries[k].name, name) {
          return false;
        }
        k := k + 1;
      }
      entries := entries + [CabEntry(name, data)];
      added := true;
    }
  }

  class PackageBuilder {
    var files: seq<FileRow>
    var fileHashes: seq<FileHashRow>
    var media: seq<MediaRow>
    var embedded: map<string, Bytes>

    constructor ()
      ensures files == [] && fileHashes == [] && media == [] && embedded == map[]
    {
      files, fileHashes, media, embedded := [], [], [], map[];
    }
  }

  lemma CollisionIsEntry(env: Env, req: Request, i: nat)
    requires req.HasArrays() && i < req.count
    ensures Collides(req, i) <==>
              exists k :: 0 <= k < i && SameName(Entries(env, req, i)[k].name, req.FileId(i))
  {
    if Collides(req, i) {
      var j: nat :| j < i && SameName(req.FileId(j), req.FileId(i));
      RowsAt(env, req, i, j);
    }
    if exists k :: 0 <= k < i && SameName(Entries(env, req, i)[k].name, req.FileId(i)) {
      var k :| 0 <= k < i && SameName(Entries(env, req, i)[k].name, req.FileId(i));
      RowsAt(env, req, i, k);
    }
  }

  /** Records and stores one file: the body of the loop. */
  method PackOne(builder: PackageBuilder, writer: CabinetWriter, env: Env, req: Request, i: nat)
    returns (error: Option<int>)
    requires req.HasArrays() && i < req.count
    requires writer.entries == Entries(env, req, i)
    modifies builder`files, builder`fileHashes, writer
    ensures error == if Rejection(env, req, i).Some? then Rejection(env, req, i)
                     else if Collides(req, i) then Some(MSI_ERROR_INVALID_ARGUMENT)
                     else None
    ensures var recorded := Rejection(env, req, i).None?;
            && builder.files == old(builder.files) + (if recorded then [FileRowOf(env, req, i)] else [])
            && builder.fileHashes == old(builder.fileHashes) + (if recorded then [HashRowOf(env, req, i)] else [])
    ensures error.None? ==> writer.entries == Entries(env, req, i + 1)
  {
    hide SameName;
    hide Collides;
    hide AsI16;
    var path, id, comp := req.sourcePaths.value[i], req.fileIds.value[i], req.componentIds.value[i];
    if !path.Text? {
      return StringError(path);
    }
    if !id.Text? {
      return StringError(id);
    }
    if !comp.Text? {
      return StringError(comp);
    }
    var data := env.read(i, path.text);
    if data.None? {
      return Some(MSI_ERROR_IO);
    }
    var parts := env.quads(data.value);
    if id.text == "" {
      return Some(MSI_ERROR_VALIDATION);
    }
    if comp.text == "" {
      return Some(MSI_ERROR_VALIDATION);
    }
    var fileKey, component := env.sanitize(id.text), env.sanitize(comp.text);
    var hashRow := FileHashRow(fileKey, 0, parts);
    var name := env.fileName(path.text);
    var fileNameStr := if name.Some? then name.value else id.text;
    var seqNo := AsI16(i + 1);
    var size := if |data.value| <= MAX_I32 then |data.value| else MAX_I32;
    var fileRow := FileRow(fileKey, component, fileNameStr, size, COMPRESSED, seqNo);
    builder.fileHashes := builder.fileHashes + [hashRow];
    builder.files := builder.files + [fileRow];
    var added := writer.AddFile(id.text, data.value);
    CollisionIsEntry(env, req, i);
    error := if added then None else Some(MSI_ERROR_INVALID_ARGUMENT);
  }

  /** The loop over the files. */
  method PackAll(builder: PackageBuilder, writer: CabinetWriter, env: Env, req: Request) returns (error: Option<int>)
    requires req.HasArrays() && writer.entries == []
    modifies builder`files, builder`fileHashes, writer
    ensures var e := EndingFrom(env, req, 0);
            && error == EndingCode(e)
            && builder.files == old(builder.files) + FileRows(env, req, RecordedAt(e, req.count))
            && builder.fileHashes == old(builder.fileHashes) + HashRows(env, req, RecordedAt(e, req.count))
            && (e.Packed? ==> writer.entries == Entries(env, req, req.count))
  {
    hide Rejection;
    hide Collides;
    hide FileRowOf;
    hide HashRowOf;
    hide EntryOf;
    for i := 0 to req.count
      invariant writer.entries == Entries(env, req, i)
      invariant builder.files == old(builder.files) + FileRows(env, req, i)
      invariant builder.fileHashes == old(builder.fileHashes) + HashRows(env, req, i)
      invariant EndingFrom(env, req, 0) == EndingFrom(env, req, i)
    {
      error := PackOne(builder, writer, env, req, i);
      if error.Some? {
        return;
      }
    }
    error := None;
  }

  twostate predicate Untouched(builder: PackageBuilder)
    reads builder
  {
    && builder.files == old(builder.files) && builder.fileHashes == old(builder.fileHashes)
    && builder.media == old(builder.media) && builder.embedded == old(builder.embedded)
  }

  /** The whole call. On success all four tables have grown as the arguments say; on
      an early exit the file tables have grown by the files up to the one the loop
      stopped at, and the media table and the embedded cabinets not at all. */
  method PackFilesFromDisk(builder: PackageBuilder?, env: Env, req: Request) returns (code: int)
    requires req.Sized()
    modifies builder
    ensures builder == null ==> code == -1
    ensures builder != null && req.count == 0 ==> code == 0 && Untouched(builder)
    ensures builder != null && req.count > 0x7FFF ==> code == -2 && Untouched(builder)
    ensures builder != null && 0 < req.count <= 0x7FFF && !req.HasArrays() ==> code == -1 && Untouched(builder)
    ensures builder != null && 0 < req.count <= 0x7FFF && req.HasArrays() && req.cabinetName.NotUtf8? ==>
              code == -2 && Untouched(builder)
    ensures builder != null && 0 < req.count <= 0x7FFF && req.HasArrays() && !req.cabinetName.NotUtf8? ==>
              var cabinet := if req.cabinetName.Text? then req.cabinetName.text else "#cab1.cab";
              match EndingFrom(env, req, 0)
              case Packed =>
                && code == 0
                && builder.files == old(builder.files) + FileRows(env, req, req.count)
                && builder.fileHashes == old(builder.fileHashes) + HashRows(env, req, req.count)
                && builder.media == old(builder.media)
                                    + [MediaRow(1, req.count, None, Some(cabinet), None, None)]
                && builder.embedded == old(builder.embedded)[
                     cabinet := env.build(CompressionOf(req.compression), Entries(env, req, req.count))]
              case Rejected(i, error) =>
                && code == error
                && builder.files == old(builder.files) + FileRows(env, req, i)
                && builder.fileHashes == old(builder.fileHashes) + HashRows(env, req, i)
                && builder.media == old(builder.media) && builder.embedded == old(builder.embedded)
              case Refused(i) =>
                && code == -2
                && builder.files == old(builder.files) + FileRows(env, req, i + 1)
                && builder.fileHashes == old(builder.fileHashes) + HashRows(env, req, i + 1)
                && builder.media == old(builder.media) && builder.embedded == old(builder.embedded)
  {
    hide FileRows;
    hide HashRows;
    hide Entries;
    hide EndingFrom;
    if builder == null {
      return MSI_ERROR_NULL_POINTER;
    }
    if req.count == 0 {
      return MSI_SUCCESS;
    }
    if req.count > MAX_I16 {
      return MSI_ERROR_INVALID_ARGUMENT;
    }
    if req.sourcePaths.None? || req.fileIds.None? || req.componentIds.None? {
      return MSI_ERROR_NULL_POINTER;
    }
    if req.cabinetName.NotUtf8? {
      return MSI_ERROR_INVALID_ARGUMENT;
    }
    var writer := new CabinetWriter();
    var error := PackAll(builder, writer, env, req);
    if error.Some? {
      return error.value;
    }
    var cabName := if req.cabinetName.Text? then req.cabinetName.text else "#cab1.cab";
    var compression := match req.compression
      case 0 => Stored
      case 2 => Quantum
      case 3 => Lzx(17)
      case _ => Mszip;
    var cabBytes := env.build(compression, writer.entries);
    var row := MediaRow(1, req.count, None, Some(cabName), None, None);
    builder.media := builder.media + [row];
    builder.embedded := builder.embedded[cabName := cabBytes];
    code := MSI_SUCCESS;
  }

  // ----- What the endings mean -----

  ghost predicate Acceptable(env: Env, req: Request, n: nat)
    requires req.HasArrays() && n <= req.count
  {
    && (forall i: nat | i < n :: Rejection(env, req, i).None?)
    && (forall i: nat, j: nat | j < i < n :: !SameName(req.FileId(j), req.FileId(i)))
  }

  /** The loop packs everything exactly when every file is readable with usable names
      and no two file ids agree up to ASCII case; else it stops at the first file for
      which that fails. */
  lemma {:induction false} EndingExactly(env: Env, req: Request, i: nat)
    requires req.HasArrays() && i <= req.count && Acceptable(env, req, i)
    ensures match EndingFrom(env, req, i)
            case Packed => Acceptable(env, req, req.count)
            case Rejected(k, code) =>
              Acceptable(env, req, k) && Rejection(env, req, k) == Some(code) && !Acceptable(env, req, req.count)
            case Refused(k) =>
              Acceptable(env, req, k) && Rejection(env, req, k).None? && Collides(req, k)
              && !Acceptable(env, req, req.count)
    decreases req.count - i
  {
    if i < req.count && Rejection(env, req, i).None? {
      if Collides(req, i) {
        var j: nat :| j < i && SameName(req.FileId(j), req.FileId(i));
      } else {
        EndingExactly(env, req, i + 1);
      }
    }
    hide Rejection;
    hide SameName;
  }

  /** Why a file is rejected, said by the arguments: -1 for the first missing string, -2
      for one that is no text, -4 if the file cannot be read, -3 if then an id or a
      component is empty; a file is recorded exactly when it can be read and has both. */
  lemma RejectionExactly(env: Env, req: Request, i: nat)
    requires req.HasArrays() && i < req.count
    ensures var path, id, comp := req.sourcePaths.value[i], req.fileIds.value[i], req.componentIds.value[i];
            var texts := path.Text? && id.Text? && comp.Text?;
            var found := texts && env.read(i, path.text).Some?;
            var why := Rejection(env, req, i);
            && (why == Some(-1) <==> path.Null? || (path.Text? && (id.Null? || (id.Text? && comp.Null?))))
            && (why == Some(-2) <==> path.NotUtf8? || (path.Text? && (id.NotUtf8? || (id.Text? && comp.NotUtf8?))))
            && (why == Some(-4) <==> texts && !found)
            && (why == Some(-3) <==> found && (id.text == "" || comp.text == ""))
            && (why == None <==> found && id.text != "" && comp.text != "")
  {
  }

  /** Names are the same exactly when each character is, or is the same ASCII letter in the
      other case. */
  lemma SameNameExactly(a: string, b: string)
    ensures SameName(a, b) <==>
              |a| == |b| && forall k | 0 <= k < |a| ::
                || a[k] == b[k]
                || ('A' <= a[k] <= 'Z' && b[k] as int == a[k] as int + 32)
                || ('A' <= b[k] <= 'Z' && a[k] as int == b[k] as int + 32)
  {
  }

  /** The row of a file in each table, and its cabinet entry, column by column: within the
      limit sequence numbers are 1, 2, 3, ... with no wrap. */
  lemma {:induction false} RowsExactly(env: Env, req: Request, n: nat, k: nat)
    requires req.HasArrays() && k < n <= req.count <= MAX_I16 && Rejection(env, req, k).None?
    ensures var path, id, comp := req.sourcePaths.value[k], req.fileIds.value[k], req.componentIds.value[k];
            && path.Text? && id.Text? && comp.Text? && env.read(k, path.text).Some?
            && var data, name := env.read(k, path.text).value, env.fileName(path.text);
            && FileRows(env, req, n)[k] ==
               FileRow(file := env.sanitize(id.text), component := env.sanitize(comp.text),
                       fileName := if name.Some? then name.value else id.text,
                       fileSize := if |data| < 0x8000_0000 then |data| else 0x7FFF_FFFF,
                       attributes := 0x4000, sequence := k + 1)
            && HashRows(env, req, n)[k] ==
               FileHashRow(file := env.sanitize(id.text), options := 0, parts := env.quads(data))
            && Entries(env, req, n)[k] == CabEntry(name := id.text, data := data)
  {
    RowsAt(env, req, n, k);
    RejectionExactly(env, req, k);
    hide FileRows;
    hide HashRows;
    hide Entries;
    hide Rejection;
  }

  /** The limit is the right one: one file more and the last sequence number, cast as
      the rows cast it, would be negative. */
  lemma LimitIsSharp(n: nat)
    ensures (forall k: nat | 1 <= k <= n :: AsI16(k) == k) <==> n <= MAX_I16
  {
    assert AsI16(MAX_I16 + 1) < 0;
  }
}
