/** A directory from end to end: what the writer arranges is stored, and a reader that has
    only the bytes finds each stream by its name, if the names are short enough. */
module DirectoryFiles {
  import opened Options
  import opened CfbNames
  import opened SiblingTrees
  import opened DirectoryEntries
  import opened DirectoryLinks
  import opened DirectoryTrees
  import opened DirectorySearch
  import opened DirectoryPaths

  // ----- Storing and reading back all entries -----

  const UNUSED_ENTRY := DirectoryEntry([], UnknownObject, Black, NO_STREAM, NO_STREAM, NO_STREAM, NO_CLASS,
                                       0, 0, 0, END_OF_CHAIN, 0)

  function Unused(n: nat): (ds: seq<DirectoryEntry>)
    ensures |ds| == n && forall k | 0 <= k < n :: ds[k] == UNUSED_ENTRY
  {
    if n == 0 then [] else [UNUSED_ENTRY] + Unused(n - 1)
  }

  datatype CfbVersion = V3 | V4

  /** How many entries fit into a sector of 512 or of 4096 bytes. */
  function PerSector(version: CfbVersion): nat {
    if version.V3? then 4 else 32
  }

  /** Unused entries fill up the last sector. */
  function Padded(ds: seq<DirectoryEntry>, version: CfbVersion): (padded: seq<DirectoryEntry>)
    ensures ds <= padded && |padded| * 128 % (if version.V3? then 512 else 4096) == 0
    ensures |padded| * 128 < |ds| * 128 + if version.V3? then 512 else 4096
    ensures forall k | |ds| <= k < |padded| :: padded[k] == UNUSED_ENTRY
  {
    var rest := |ds| % PerSector(version);
    if rest == 0 then ds else ds + Unused(PerSector(version) - rest)
  }

  function DirectoryBytes(ds: seq<DirectoryEntry>): Bytes {
    if ds == [] then [] else ToBytes(ds[0]) + DirectoryBytes(ds[1..])
  }

  lemma Sliced(first: Bytes, rest: Bytes, i: nat, j: nat)
    requires i <= j <= |rest|
    ensures (first + rest)[|first| + i..|first| + j] == rest[i..j]
    ensures (first + rest)[..|first|] == first
  {
  }

  /** Each entry takes its own 128 bytes, in order. */
  lemma {:induction false} EntriesStand(ds: seq<DirectoryEntry>, k: nat)
    requires k < |ds|
    ensures |DirectoryBytes(ds)| == 128 * |ds|
    ensures DirectoryBytes(ds)[128 * k..128 * k + 128] == ToBytes(ds[k])
  {
    var first, rest := ToBytes(ds[0]), DirectoryBytes(ds[1..]);
    ToBytesLength(ds[0]);
    hide ToBytes;
    if |ds| > 1 {
      EntriesStand(ds[1..], if k == 0 then 0 else k - 1);
    }
    assert DirectoryBytes(ds) == first + rest && |first| == 128;
    hide DirectoryBytes;
    if k == 0 {
      Sliced(first, rest, 0, 0);
    } else {
      Sliced(first, rest, 128 * (k - 1), 128 * k);
    }
  }

  /** All entries of a directory, or the first error among them. */
  function ReadEntries(b: Bytes): (r: Result<seq<DirectoryEntry>>)
    decreases |b|
  {
    if |b| < ENTRY_SIZE then Ok([])
    else
      var first := Parse(b[..ENTRY_SIZE]);
      if first.Err? then Err(first.error)
      else
        var rest := ReadEntries(b[ENTRY_SIZE..]);
        if rest.Err? then rest else Ok([first.value] + rest.value)
  }

  /** What is left of entries that are stored and read back. */
  function Stored(ds: seq<DirectoryEntry>): Result<seq<DirectoryEntry>> {
    if ds == [] then Ok([])
    else
      var name := StoredName(ds[0].name);
      if name.Err? then Err(name.error)
      else
        var rest := Stored(ds[1..]);
        if rest.Err? then rest else Ok([ds[0].(name := name.value)] + rest.value)
  }

  lemma {:induction false} DirectoryIsStored(ds: seq<DirectoryEntry>)
    ensures ReadEntries(DirectoryBytes(ds)) == Stored(ds)
  {
    if ds != [] {
      var b := DirectoryBytes(ds);
      ToBytesLength(ds[0]);
      StoredEntry(ds[0]);
      DirectoryIsStored(ds[1..]);
      hide Parse;
      hide ToBytes;
      hide StoredName;
      assert b[..ENTRY_SIZE] == ToBytes(ds[0]) && b[ENTRY_SIZE..] == DirectoryBytes(ds[1..]);
    }
  }

  /** What is read back differs in names alone, and has no name over 31 units. */
  lemma {:induction false} StoredIsAlike(ds: seq<DirectoryEntry>)
    requires Stored(ds).Ok?
    ensures var rs := Stored(ds).value;
            |rs| == |ds| && forall k | 0 <= k < |ds| ::
              && rs[k] == ds[k].(name := rs[k].name) && |rs[k].name| <= STORED_UNITS
              && StoredName(ds[k].name) == Ok(rs[k].name)
  {
    hide StoredName;
    if ds != [] {
      StoredIsAlike(ds[1..]);
    }
  }

  /** The directory cannot be read exactly when some name in it cannot. */
  lemma {:induction false} StoredFailsExactly(ds: seq<DirectoryEntry>)
    ensures Stored(ds).Err? <==> exists k :: 0 <= k < |ds| && StoredName(ds[k].name).Err?
  {
    hide StoredName;
    if ds != [] {
      StoredFailsExactly(ds[1..]);
      assert forall k | 0 <= k < |ds[1..]| :: ds[1..][k] == ds[k + 1];
      if exists k :: 0 <= k < |ds[1..]| && StoredName(ds[1..][k].name).Err? {
        var k :| 0 <= k < |ds[1..]| && StoredName(ds[1..][k].name).Err?;
        assert StoredName(ds[k + 1].name).Err?;
      }
      if exists k :: 0 <= k < |ds| && StoredName(ds[k].name).Err? {
        var k :| 0 <= k < |ds| && StoredName(ds[k].name).Err?;
        assert k == 0 || StoredName(ds[1..][k - 1].name).Err?;
      }
    }
  }

  ghost predicate ShortNames(ds: seq<DirectoryEntry>) {
    forall k | 0 <= k < |ds| :: |ds[k].name| <= STORED_UNITS
  }

  lemma {:induction false} StoredSurvivesExactly(ds: seq<DirectoryEntry>)
    ensures Stored(ds) == Ok(ds) <==> ShortNames(ds)
  {
    hide StoredName;
    if ds != [] {
      NameSurvivesExactly(ds[0].name);
      StoredSurvivesExactly(ds[1..]);
      assert ds == [ds[0]] + ds[1..];
      assert ShortNames(ds) <==> |ds[0].name| <= STORED_UNITS && ShortNames(ds[1..]) by {
        assert forall k | 0 <= k < |ds[1..]| :: ds[1..][k] == ds[k + 1];
      }
      if Stored(ds) == Ok(ds) {
        assert Stored(ds).value[0] == ds[0] && Stored(ds).value[1..] == ds[1..];
      }
    }
  }

  /** Every entry is read back with its own name, and as it was, if and only if every
      name has at most 31 units. */
  lemma {:induction false} DirectorySurvivesExactly(ds: seq<DirectoryEntry>)
    ensures ReadEntries(DirectoryBytes(ds)) == Ok(ds) <==> ShortNames(ds)
  {
    DirectoryIsStored(ds);
    hide ReadEntries;
    hide DirectoryBytes;
    StoredSurvivesExactly(ds);
  }

  lemma WriteOne(ds: seq<DirectoryEntry>, k: nat, b: Bytes)
    requires k < |ds|
    ensures b + DirectoryBytes(ds[k..]) == (b + ToBytes(ds[k])) + DirectoryBytes(ds[k + 1..])
  {
    hide ToBytes;
    assert ds[k..][0] == ds[k] && ds[k..][1..] == ds[k + 1..];
    assert DirectoryBytes(ds[k..]) == ToBytes(ds[k]) + DirectoryBytes(ds[k + 1..]);
    hide DirectoryBytes;
  }

  lemma NothingLeft(ds: seq<DirectoryEntry>)
    ensures DirectoryBytes(ds[|ds|..]) == [] && ds[0..] == ds
  {
  }

  method WriteDirectory(ds: seq<DirectoryEntry>, version: CfbVersion) returns (b: Bytes)
    ensures b == DirectoryBytes(Padded(ds, version))
  {
    var padded := Padded(ds, version);
    b := [];
    NothingLeft(padded);
    assert b + DirectoryBytes(padded) == DirectoryBytes(padded);
    hide ToBytes;
    hide Padded;
    hide DirectoryBytes;
    for k := 0 to |padded|
      invariant b + DirectoryBytes(padded[k..]) == DirectoryBytes(padded)
    {
      var entry := Serialize(padded[k]);
      WriteOne(padded, k, b);
      b := b + entry[..];
    }
    assert b + [] == b;
  }

  /** The entries read so far in front of what the rest holds. */
  function ReadBehind(ds: seq<DirectoryEntry>, rest: Bytes): Result<seq<DirectoryEntry>> {
    if ReadEntries(rest).Err? then ReadEntries(rest) else Ok(ds + ReadEntries(rest).value)
  }

  lemma ReadOne(ds: seq<DirectoryEntry>, b: Bytes, i: nat)
    requires (i + 1) * ENTRY_SIZE <= |b|
    ensures var slice := b[i * ENTRY_SIZE..(i + 1) * ENTRY_SIZE];
            ReadBehind(ds, b[i * ENTRY_SIZE..]) ==
            if Parse(slice).Err? then Err(Parse(slice).error)
            else ReadBehind(ds + [Parse(slice).value], b[(i + 1) * ENTRY_SIZE..])
  {
    hide Parse;
    var rest, slice := b[i * ENTRY_SIZE..], b[i * ENTRY_SIZE..(i + 1) * ENTRY_SIZE];
    assert slice == rest[..ENTRY_SIZE] && rest[ENTRY_SIZE..] == b[(i + 1) * ENTRY_SIZE..];
    var behind := ReadEntries(rest[ENTRY_SIZE..]);
    if Parse(slice).Ok? && behind.Ok? {
      assert ReadEntries(rest) == Ok([Parse(slice).value] + behind.value);
      hide ReadEntries;
      assert ds + ([Parse(slice).value] + behind.value) == (ds + [Parse(slice).value]) + behind.value;
    }
  }

  lemma ReadingBegins(b: Bytes)
    ensures ReadBehind([], b[0 * ENTRY_SIZE..]) == ReadEntries(b)
  {
    assert b[0 * ENTRY_SIZE..] == b;
    hide ReadEntries;
    if ReadEntries(b).Ok? {
      assert [] + ReadEntries(b).value == ReadEntries(b).value;
    }
  }

  lemma ReadingEnds(ds: seq<DirectoryEntry>, rest: Bytes)
    requires |rest| < ENTRY_SIZE
    ensures ReadBehind(ds, rest) == Ok(ds)
  {
    assert ds + [] == ds;
  }

  method ReadDirectory(b: Bytes) returns (r: Result<seq<DirectoryEntry>>)
    ensures r == ReadEntries(b)
  {
    var ds: seq<DirectoryEntry> := [];
    var count := |b| / ENTRY_SIZE;
    ReadingBegins(b);
    hide Parse;
    hide ReadBehind;
    hide ReadEntries;
    for i := 0 to count
      invariant ReadBehind(ds, b[i * ENTRY_SIZE..]) == ReadEntries(b)
    {
      ReadOne(ds, b, i);
      var entry := ReadEntry(b[i * ENTRY_SIZE..(i + 1) * ENTRY_SIZE]);
      if entry.Err? {
        return Err(entry.error);
      }
      ds := ds + [entry.value];
    }
    ReadingEnds(ds, b[count * ENTRY_SIZE..]);
    r := Ok(ds);
  }

  // ----- The whole way -----

  /** "Root Entry". */
  const ROOT_NAME: Name := [0x52, 0x6F, 0x6F, 0x74, 0x20, 0x45, 0x6E, 0x74, 0x72, 0x79]

  /** What the root's entry tells besides its links: the class, and where the short
      streams are and how long they are together. */
  datatype RootFields = RootFields(classId: ClassId, size: U64, sector: U32)

  function LinksOf(ds: seq<DirectoryEntry>): (e: seq<Entry>)
    ensures |e| == |ds|
    ensures forall k | 0 <= k < |ds| :: e[k] == Entry(ds[k].name, ds[k].color, ds[k].left, ds[k].right)
  {
    seq(|ds|, k requires 0 <= k < |ds| => Entry(ds[k].name, ds[k].color, ds[k].left, ds[k].right))
  }

  /** The entries are those the writer has arranged for the streams, below the root
      storage; sizes, sectors and the like may be any. */
  ghost predicate IsArranged(up: Upcase, streams: seq<Stream>, ds: seq<DirectoryEntry>, par: seq<StreamId>, t: Tree) {
    && |ds| == |streams| + 1 && ds[0].name == ROOT_NAME
    && IsDirectory(up, streams, LinksOf(ds), par, t, ds[0].child)
  }

  lemma LinksAppend(ds: seq<DirectoryEntry>, d: DirectoryEntry)
    ensures LinksOf(ds + [d]) == LinksOf(ds) + [Entry(d.name, d.color, d.left, d.right)]
  {
  }

  /** The whole entry around the links of a stream. */
  function StreamEntry(link: Entry, size: U64, sector: U32): (d: DirectoryEntry)
    ensures Entry(d.name, d.color, d.left, d.right) == link
    ensures d.objectType == StreamObject && d.size == size && d.startSector == sector && d.child == NO_STREAM
  {
    DirectoryEntry(link.name, StreamObject, link.color, link.left, link.right, NO_STREAM, NO_CLASS, 0, 0, 0,
                   sector, size)
  }

  function RootEntry(link: Entry, child: StreamId, root: RootFields): (d: DirectoryEntry)
    ensures Entry(d.name, d.color, d.left, d.right) == link && d.child == child
    ensures d.objectType == RootObject && d.classId == root.classId
    ensures d.size == root.size && d.startSector == root.sector
  {
    DirectoryEntry(link.name, RootObject, link.color, link.left, link.right, child, root.classId, 0, 0, 0,
                   root.sector, root.size)
  }

  lemma LinksOfOne(d: DirectoryEntry)
    ensures LinksOf([d]) == [Entry(d.name, d.color, d.left, d.right)]
  {
  }

  /** The entry of a stream says that it is one and how long it is; an empty stream has no
      sector. */
  predicate TellsStream(d: DirectoryEntry, size: nat, sector: U32) {
    && d.objectType == StreamObject && d.size == size
    && d.startSector == if size == 0 then END_OF_CHAIN else sector
  }

  /** The first entry tells of the root, the others of the streams in order. */
  ghost predicate TellsAll(ds: seq<DirectoryEntry>, streams: seq<Stream>, root: RootFields, sectors: nat -> U32) {
    && |ds| == |streams| + 1
    && ds[0].objectType == RootObject && ds[0].classId == root.classId
    && ds[0].size == root.size && ds[0].startSector == root.sector
    && forall k | 0 <= k < |streams| :: TellsStream(ds[k + 1], |streams[k].data|, sectors(k))
  }

  /** The whole entries around the links that have been arranged. */
  method CompleteEntries(e: seq<Entry>, child: StreamId, streams: seq<Stream>, root: RootFields, sectors: nat -> U32)
    returns (ds: seq<DirectoryEntry>)
    requires |e| == |streams| + 1 && forall k | 0 <= k < |streams| :: |streams[k].data| < 0x1_0000_0000_0000_0000
    ensures LinksOf(ds) == e && ds != [] && ds[0].child == child
    ensures TellsAll(ds, streams, root, sectors)
  {
    hide StreamEntry;
    hide RootEntry;
    hide LinksOf;
    ds := [RootEntry(e[0], child, root)];
    LinksOfOne(ds[0]);
    for k := 0 to |streams|
      invariant |ds| == k + 1 && ds[0] == RootEntry(e[0], child, root) && LinksOf(ds) == e[..k + 1]
      invariant forall j | 0 <= j < k :: TellsStream(ds[j + 1], |streams[j].data|, sectors(j))
    {
      var size: U64 := |streams[k].data|;
      var entry := StreamEntry(e[k + 1], size, if size == 0 then END_OF_CHAIN else sectors(k));
      LinksAppend(ds, entry);
      assert e[..k + 2] == e[..k + 1] + [e[k + 1]];
      ds := ds + [entry];
    }
    assert e[..|e|] == e;
  }

  ghost predicate ShortStreamNames(streams: seq<Stream>) {
    forall k | 0 <= k < |streams| :: |streams[k].name| <= STORED_UNITS
  }

  /** The reader opens the file, and finds this under the name. */
  ghost predicate ReaderFinds(up: Upcase, b: Bytes, target: Name, found: Option<StreamId>) {
    var read := ReadEntries(b);
    read.Ok? && read.value != [] && Finds(up, LinksOf(read.value), read.value[0].child, target, found)
  }

  lemma NamesOfArranged(up: Upcase, streams: seq<Stream>, ds: seq<DirectoryEntry>, par: seq<StreamId>, t: Tree,
                        version: CfbVersion)
    requires IsArranged(up, streams, ds, par, t)
    ensures ShortNames(Padded(ds, version)) <==> ShortStreamNames(streams)
    ensures forall k | 0 <= k < |streams| :: Padded(ds, version)[k + 1].name == streams[k].name
  {
    var padded := Padded(ds, version);
    hide Padded;
    forall k | 0 <= k < |streams| ensures padded[k + 1].name == streams[k].name {
      assert padded[k + 1] == ds[k + 1] && LinksOf(ds)[k + 1].name == streams[k].name;
    }
    if ShortStreamNames(streams) {
      forall k | 0 <= k < |padded| ensures |padded[k].name| <= STORED_UNITS {
        if 0 < k < |ds| {
          assert padded[k].name == streams[k - 1].name;
        } else if k == 0 {
          assert padded[0] == ds[0];
        }
      }
    }
    hide LinksOf;
  }

  lemma {:induction false} LinkedInMore(e: seq<Entry>, par: seq<StreamId>, e': seq<Entry>, t: Tree, parent: StreamId)
    requires Linked(e, par, t, parent) && e <= e'
    ensures Linked(e', par, t, parent)
  {
    if t.Node? {
      LinkedInMore(e, par, e', t.left, t.id);
      LinkedInMore(e, par, e', t.right, t.id);
    }
  }

  lemma {:induction false} SearchInMore(up: Upcase, e: seq<Entry>, par: seq<StreamId>, e': seq<Entry>, t: Tree,
                                        parent: StreamId, target: Name)
    requires Linked(e, par, t, parent) && e <= e'
    ensures Search(up, e', t, target) == Search(up, e, t, target)
  {
    hide CompareNames;
    if t.Node? {
      SearchInMore(up, e, par, e', t.left, t.id, target);
      SearchInMore(up, e, par, e', t.right, t.id, target);
    }
  }

  lemma TreeOfArranged(up: Upcase, streams: seq<Stream>, ds: seq<DirectoryEntry>, par: seq<StreamId>, t: Tree)
    requires IsArranged(up, streams, ds, par, t)
    ensures Linked(LinksOf(ds), par, t, NO_STREAM) && ds[0].child == RootId(t)
  {
    hide IsRedBlack;
    hide Sorted;
    hide HoldsFirst;
    hide NamedBy;
  }

  /** With short names, the reader finds what comparisons in the writer's tree lead to. */
  lemma ReaderFindsAlike(up: Upcase, streams: seq<Stream>, ds: seq<DirectoryEntry>, par: seq<StreamId>, t: Tree,
                         version: CfbVersion, target: Name)
    requires IsArranged(up, streams, ds, par, t) && ShortStreamNames(streams)
    ensures ReaderFinds(up, DirectoryBytes(Padded(ds, version)), target, Search(up, LinksOf(ds), t, target))
  {
    var padded := Padded(ds, version);
    NamesOfArranged(up, streams, ds, par, t, version);
    var e, e' := LinksOf(ds), LinksOf(padded);
    assert e <= e' && padded[0] == ds[0] && padded != [];
    TreeOfArranged(up, streams, ds, par, t);
    hide IsArranged;
    hide ReadEntries;
    hide DirectoryBytes;
    hide ShortNames;
    hide ShortStreamNames;
    hide Padded;
    hide LinksOf;
    hide Finds;
    hide Linked;
    hide Search;
    DirectorySurvivesExactly(padded);
    LinkedInMore(e, par, e', t, NO_STREAM);
    SearchInMore(up, e, par, e', t, NO_STREAM, target);
    var n := TreeSearchEnds(up, e', par, t, NO_STREAM, target);
    FoundHere(up, e', RootId(t), target, n);
  }

  /** A reader finds a name exactly when some stream has a name that compares equal, and
      finds the entry of such a stream: given that no name is over 31 units. Where staging
      let the names pass, it finds each stream under its name. */
  lemma DirectoryFindsExactly(up: Upcase, streams: seq<Stream>, ds: seq<DirectoryEntry>, par: seq<StreamId>, t: Tree,
                              version: CfbVersion, target: Name) returns (found: Option<StreamId>)
    requires IsArranged(up, streams, ds, par, t) && ShortStreamNames(streams)
    ensures ReaderFinds(up, DirectoryBytes(Padded(ds, version)), target, found)
    ensures match found
            case Some(id) => 1 <= id <= |streams| && CompareNames(up, target, streams[id - 1].name) == Equal
            case None => forall k | 0 <= k < |streams| :: CompareNames(up, target, streams[k].name) != Equal
    ensures forall k | 0 <= k < |streams| && Unique(up, streams) && target == streams[k].name :: found == Some(k + 1)
  {
    found := Search(up, LinksOf(ds), t, target);
    ReaderFindsAlike(up, streams, ds, par, t, version, target);
    TreeFindsExactly(up, streams, LinksOf(ds), par, t, ds[0].child, target);
    hide *;
  }

  /** Whatever the file, a reader finds nothing under a name over 31 units. */
  lemma LongNameIsNotFound(up: Upcase, ds: seq<DirectoryEntry>, root: StreamId, target: Name, found: Option<StreamId>)
    requires |target| > STORED_UNITS && ShortNames(ds) && Finds(up, LinksOf(ds), root, target, found)
    ensures found == None
  {
    var e := LinksOf(ds);
    hide Visit;
    forall k | 0 <= k < |e| ensures CompareNames(up, target, e[k].name) != Equal {
      assert e[k].name == ds[k].name;
    }
    hide CompareNames;
    var n: nat :| Stops(up, e, target, Visit(up, e, target, root, n))
                  && found == FoundAt(e, Visit(up, e, target, root, n));
  }

  lemma NotFoundIn(up: Upcase, ds: seq<DirectoryEntry>, target: Name, found: Option<StreamId>)
    requires |target| > STORED_UNITS && ReaderFinds(up, DirectoryBytes(ds), target, found)
    ensures found == None
  {
    DirectoryIsStored(ds);
    hide DirectoryBytes;
    hide ReadEntries;
    StoredIsAlike(ds);
    hide Stored;
    var rs := Stored(ds).value;
    assert ShortNames(rs);
    hide Finds;
    LongNameIsNotFound(up, rs, rs[0].child, target, found);
  }

  /** The round trip: in the file of staged streams a reader finds every stream under its
      own name if and only if every name has at most 31 units. Otherwise the file cannot
      be opened, or the streams with longer names are never found. */
  lemma RoundTripExactly(up: Upcase, streams: seq<Stream>, ds: seq<DirectoryEntry>, par: seq<StreamId>, t: Tree,
                         version: CfbVersion)
    requires IsArranged(up, streams, ds, par, t) && Unique(up, streams)
    ensures var b := DirectoryBytes(Padded(ds, version));
            (forall k | 0 <= k < |streams| :: ReaderFinds(up, b, streams[k].name, Some(k + 1)))
            <==> ShortStreamNames(streams)
  {
    assert |streams| <= MAX_VALID;
    hide IsArranged;
    hide Unique;
    hide Padded;
    hide DirectoryBytes;
    hide ReaderFinds;
    var b := DirectoryBytes(Padded(ds, version));
    if ShortStreamNames(streams) {
      forall k | 0 <= k < |streams| ensures ReaderFinds(up, b, streams[k].name, Some(k + 1)) {
        var found := DirectoryFindsExactly(up, streams, ds, par, t, version, streams[k].name);
      }
    } else {
      var k :| 0 <= k < |streams| && |streams[k].name| > STORED_UNITS;
      if ReaderFinds(up, b, streams[k].name, Some(k + 1)) {
        NotFoundIn(up, Padded(ds, version), streams[k].name, Some(k + 1));
      }
    }
  }

  /** A reader of the bytes gets the entries, and behind them only unused ones. */
  ghost predicate ReaderGets(b: Bytes, ds: seq<DirectoryEntry>) {
    var read := ReadEntries(b);
    && read.Ok? && ds <= read.value
    && forall k | |ds| <= k < |read.value| ::
      read.value[k] == DirectoryEntry([], UnknownObject, Black, 0xFFFF_FFFF, 0xFFFF_FFFF, 0xFFFF_FFFF, NO_CLASS,
                                      0, 0, 0, 0xFFFF_FFFE, 0)
  }

  lemma ShortNamesAreGot(ds: seq<DirectoryEntry>, version: CfbVersion)
    requires ShortNames(Padded(ds, version))
    ensures ReaderGets(DirectoryBytes(Padded(ds, version)), ds)
  {
    hide ReadEntries;
    hide DirectoryBytes;
    hide ShortNames;
    DirectorySurvivesExactly(Padded(ds, version));
  }

  lemma GotNamesAreShort(ds: seq<DirectoryEntry>, version: CfbVersion, k: nat)
    requires ReaderGets(DirectoryBytes(Padded(ds, version)), ds) && k < |ds|
    ensures |ds[k].name| <= STORED_UNITS
  {
    var padded := Padded(ds, version);
    DirectoryIsStored(padded);
    hide ReadEntries;
    hide DirectoryBytes;
    hide Padded;
    StoredIsAlike(padded);
    assert Stored(padded).value[k] == ds[k];
  }

  lemma ReaderGetsExactly(up: Upcase, streams: seq<Stream>, ds: seq<DirectoryEntry>, par: seq<StreamId>, t: Tree,
                          version: CfbVersion)
    requires IsArranged(up, streams, ds, par, t)
    ensures ReaderGets(DirectoryBytes(Padded(ds, version)), ds) <==> ShortStreamNames(streams)
  {
    var padded := Padded(ds, version);
    NamesOfArranged(up, streams, ds, par, t, version);
    assert |ds| == |streams| + 1;
    hide IsArranged;
    hide DirectoryBytes;
    hide ReaderGets;
    hide ShortNames;
    if ShortStreamNames(streams) {
      ShortNamesAreGot(ds, version);
    }
    if ReaderGets(DirectoryBytes(padded), ds) {
      forall k | 0 <= k < |streams| ensures |streams[k].name| <= STORED_UNITS {
        GotNamesAreShort(ds, version, k + 1);
        assert padded[k + 1] == ds[k + 1];
      }
    }
  }

  /** The writer's whole way to the directory's bytes. A reader gets the entries back, and
      finds every stream under its own name, exactly when no name is over 31 units. Where
      the contents of each stream go is no matter here. */
  method WriteFile(up: Upcase, streams: seq<Stream>, version: CfbVersion, root: RootFields, sectors: nat -> U32)
    returns (b: Bytes, ghost ds: seq<DirectoryEntry>, ghost par: seq<StreamId>, ghost t: Tree)
    requires |streams| <= MAX_VALID && forall k | 0 <= k < |streams| :: |streams[k].data| < 0x1_0000_0000_0000_0000
    ensures IsArranged(up, streams, ds, par, t) && b == DirectoryBytes(Padded(ds, version))
    ensures TellsAll(ds, streams, root, sectors)
    ensures ReaderGets(b, ds) <==> ShortStreamNames(streams)
    ensures Unique(up, streams) ==>
              ((forall k | 0 <= k < |streams| :: ReaderFinds(up, b, streams[k].name, Some(k + 1)))
               <==> ShortStreamNames(streams))
  {
    hide Padded;
    hide DirectoryBytes;
    hide WellFormed;
    hide Held;
    hide Sorted;
    hide HoldsFirst;
    hide IsRedBlack;
    var entries, child;
    entries, child, par, t := BuildDirectory(up, ROOT_NAME, streams);
    assert entries.Length == |streams| + 1;
    hide IsDirectory;
    hide TellsAll;
    var all := CompleteEntries(entries[..], child, streams, root, sectors);
    assert LinksOf(all)[0].name == all[0].name;
    ds := all;
    b := WriteDirectory(all, version);
    hide LinksOf;
    hide Unique;
    hide ReaderFinds;
    hide ReaderGets;
    hide ShortStreamNames;
    ReaderGetsExactly(up, streams, ds, par, t, version);
    if Unique(up, streams) {
      RoundTripExactly(up, streams, ds, par, t, version);
    }
  }

  // ----- Files in which streams are not found -----

  function Repeated(u: CodeUnit, n: nat): (name: Name)
    requires !IsSurrogate(u)
    ensures |name| == n
  {
    if n == 0 then [] else [u] + Repeated(u, n - 1)
  }

  /** The writer arranges a single stream like this. */
  function OnlyEntries(stream: Stream): seq<DirectoryEntry> {
    [DirectoryEntry(ROOT_NAME, RootObject, Black, NO_STREAM, NO_STREAM, 1, NO_CLASS, 0, 0, 0, END_OF_CHAIN, 0),
     DirectoryEntry(stream.name, StreamObject, Black, NO_STREAM, NO_STREAM, NO_STREAM, NO_CLASS, 0, 0, 0,
                    END_OF_CHAIN, 0)]
  }

  lemma OnlyLinks(stream: Stream, par: seq<StreamId>)
    requires par == [NO_STREAM, NO_STREAM]
    ensures var ds := OnlyEntries(stream); var e := LinksOf(ds);
            && |ds| == 2 && ds[0].name == ROOT_NAME && ds[0].child == 1
            && NamedBy(e, [stream]) && Fresh(e, par, 1) && e[1 := e[1].(color := Black)] == e
  {
    var e := LinksOf(OnlyEntries(stream));
    assert e[1] == Entry(stream.name, Black, NO_STREAM, NO_STREAM) && |e| == 2;
    assert e[1 := e[1].(color := Black)] == e;
  }

  lemma OnlyIsHeld(up: Upcase, e: seq<Entry>, par: seq<StreamId>)
    requires Held(e, par, Place.Root, Leaf, NO_STREAM) && Fresh(e, par, 1) && e[1 := e[1].(color := Black)] == e
    ensures var t := Node(Leaf, 1, Black, Leaf);
            Held(e, par, Place.Root, t, 1) && IsRedBlack(t) && Sorted(up, e, Inorder(t)) && HoldsFirst(t, 1)
  {
    FirstEntry(up, e, par, Leaf, NO_STREAM, 1);
    hide Held;
    hide IsRedBlack;
    assert Inorder(Node(Leaf, 1, Black, Leaf)) == [1];
  }

  lemma OnlyIsArranged(up: Upcase, stream: Stream)
    ensures IsArranged(up, [stream], OnlyEntries(stream), [NO_STREAM, NO_STREAM], Node(Leaf, 1, Black, Leaf))
    ensures Unique(up, [stream])
  {
    var e, par := LinksOf(OnlyEntries(stream)), [NO_STREAM, NO_STREAM];
    OnlyLinks(stream, par);
    hide OnlyEntries;
    hide LinksOf;
    hide Held;
    hide IsRedBlack;
    hide Sorted;
    hide HoldsFirst;
    hide NamedBy;
    hide Fresh;
    hide Inorder;
    NothingIsHeld(up, e, par);
    OnlyIsHeld(up, e, par);
  }

  lemma FirstIsRoot(stream: Stream)
    ensures var ds := OnlyEntries(stream);
            |ds| == 2 && |ds[0].name| <= STORED_UNITS && ds[1].name == stream.name
  {
  }

  lemma UnusedAreRead(ds: seq<DirectoryEntry>)
    requires forall k | 0 <= k < |ds| :: ds[k] == UNUSED_ENTRY
    ensures Stored(ds) == Ok(ds)
  {
    StoredSurvivesExactly(ds);
  }

  lemma SecondName(ds: seq<DirectoryEntry>, version: CfbVersion)
    requires |ds| == 2 && |ds[0].name| <= STORED_UNITS
    ensures var read := ReadEntries(DirectoryBytes(Padded(ds, version)));
            match StoredName(ds[1].name)
            case Err(error) => read == Err(error)
            case Ok(name) => read.Ok? && |read.value| > 1 && read.value[1].name == name
  {
    var padded := Padded(ds, version);
    DirectoryIsStored(padded);
    NameSurvivesExactly(ds[0].name);
    assert padded[0] == ds[0] && padded[1] == ds[1] && padded[1..][0] == padded[1];
    assert padded[1..][1..] == padded[2..];
    UnusedAreRead(padded[2..]);
    hide ReadEntries;
    hide DirectoryBytes;
    hide Padded;
    hide StoredName;
    assert Stored(padded[1..]) == if StoredName(ds[1].name).Err? then Err(StoredName(ds[1].name).error)
                                  else Ok([ds[1].(name := StoredName(ds[1].name).value)] + padded[2..]);
  }

  lemma FileWithLongName(stream: Stream, version: CfbVersion)
    ensures var read := ReadEntries(DirectoryBytes(Padded(OnlyEntries(stream), version)));
            && (|stream.name| == 32 ==> read == Err(BadNameLength(66)))
            && (|stream.name| == 32767 ==> read.Ok? && |read.value| > 1 && read.value[1].name == [])
  {
    hide *;
    FirstIsRoot(stream);
    SecondName(OnlyEntries(stream), version);
    if |stream.name| == 32 {
      NameOf32(stream.name);
    } else if |stream.name| == 32767 {
      NameOf32767(stream.name);
    }
  }

  /** A file that cannot be opened, so that not a single stream is found in it: one name
      has 32 units. And one that can be opened and has lost a stream: 32767 units make a
      recorded length that has wrapped round to 0. */
  lemma FilesWithLongNames(data: seq<bv8>, version: CfbVersion)
    ensures var ds := OnlyEntries(Stream(Repeated(0x61, 32), data));
            ReadEntries(DirectoryBytes(Padded(ds, version))) == Err(BadNameLength(66))
    ensures var ds := OnlyEntries(Stream(Repeated(0x61, 32767), data));
            var read := ReadEntries(DirectoryBytes(Padded(ds, version)));
            read.Ok? && |read.value| > 1 && read.value[1].name == []
  {
    assert !IsSurrogate(0x61);
    hide *;
    FileWithLongName(Stream(Repeated(0x61, 32), data), version);
    FileWithLongName(Stream(Repeated(0x61, 32767), data), version);
  }

  /** A stream that is found under a name that has nothing to do with its own. */
  lemma OtherStreamIsFound(up: Upcase, data: seq<bv8>, version: CfbVersion)
    ensures ReaderFinds(up, DirectoryBytes(Padded(OnlyEntries(Stream(GRINNING, data)), version)), BEAMING, Some(1))
  {
    hide IsArranged;
    hide ReaderFinds;
    hide CompareNames;
    hide DirectoryBytes;
    hide Padded;
    hide OnlyEntries;
    hide PairOf;
    hide SameUpToCase;
    var stream := Stream(GRINNING, data);
    OnlyIsArranged(up, stream);
    DifferentNamesThatAreEqual(up);
    NamesReverse(up, GRINNING, BEAMING);
    var found := DirectoryFindsExactly(up, [stream], OnlyEntries(stream), [NO_STREAM, NO_STREAM],
                                       Node(Leaf, 1, Black, Leaf), version, BEAMING);
    assert [stream][0].name == GRINNING;
  }
}
