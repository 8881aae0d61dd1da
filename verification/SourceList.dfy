/** The source list cache: per product, an ordered list of sources and the one used last. */
module SourceList {
  import opened Options

  type U32 = n: int | 0 <= n < 0x1_0000_0000

  const ERROR_SUCCESS: U32 := 0
  const ERROR_INVALID_PARAMETER: U32 := 87
  const ERROR_NO_MORE_ITEMS: U32 := 259
  const ERROR_UNKNOWN_PRODUCT: U32 := 1605
  const ERROR_BAD_CONFIGURATION: U32 := 1610
  const ALL_DISKS: U32 := 0xFFFF_FFFF

  datatype SourcePath =
    | Media(basePath: string, diskId: Option<U32>, volumeLabel: Option<string>, diskPrompt: Option<string>)
    | Network(uncPath: string)
    | Url(url: string)

  datatype Sources = Sources(sources: seq<SourcePath>, lastUsed: Option<SourcePath>)

  type Cache = map<string, Sources>

  /** The kind of a source goes by the prefix of its path. */
  function Classify(path: string): SourcePath {
    if "http://" <= path || "https://" <= path then Url(path)
    else if "\\\\" <= path then Network(path)
    else Media(path, None, None, None)
  }

  /** The path a source was given as. */
  function PathOf(s: SourcePath): string {
    match s
    case Media(basePath, _, _, _) => basePath
    case Network(uncPath) => uncPath
    case Url(url) => url
  }

  function TypeLetter(s: SourcePath): string {
    match s
    case Media(_, _, _, _) => "m"
    case Network(_) => "n"
    case Url(_) => "u"
  }

  /** The entry of a product, created empty when there is none. */
  function EntryOf(cache: Cache, product: string): Sources {
    if product in cache then cache[product] else Sources([], None)
  }

  /** A disk clear removes a media entry that carries the id, or any id. */
  predicate ClearedBy(s: SourcePath, diskId: U32) {
    s.Media? && s.diskId.Some? && (s.diskId.value == diskId || diskId == ALL_DISKS)
  }

  /** `retain`: the entries a disk clear keeps, in order. */
  function Retain(sources: seq<SourcePath>, diskId: U32): seq<SourcePath> {
    if sources == [] then []
    else (if ClearedBy(sources[0], diskId) then [] else [sources[0]]) + Retain(sources[1..], diskId)
  }

  /** The media entries of a list, in order. */
  function MediaOf(sources: seq<SourcePath>): (r: seq<SourcePath>)
    ensures forall k | 0 <= k < |r| :: r[k].Media? && r[k] in sources
    ensures |r| <= |sources|
  {
    if sources == [] then []
    else (if sources[0].Media? then [sources[0]] else []) + MediaOf(sources[1..])
  }

  /** What enumeration reports about one media entry. */
  datatype DiskInfo = DiskInfo(diskId: U32, volumeLabel: string, diskPrompt: string)

  function Describe(s: SourcePath): DiskInfo
    requires s.Media?
  {
    DiskInfo(if s.diskId.Some? then s.diskId.value else 0,
             if s.volumeLabel.Some? then s.volumeLabel.value else "",
             if s.diskPrompt.Some? then s.diskPrompt.value else "")
  }

  /** Calls that change the cache; an absent argument is a null or undecodable string. */
  datatype Op =
    | AddSource(product: Option<string>, path: Option<string>)
    | AddDisk(product: Option<string>, diskId: U32, volumeLabel: Option<string>, diskPrompt: Option<string>)
    | ClearDisk(product: Option<string>, diskId: U32)
    | ClearAll(product: Option<string>)
    | SetInfo(product: Option<string>, property: Option<string>, value: Option<string>)

  /** All the strings the call needs are there. */
  predicate WellFormed(op: Op) {
    match op
    case AddSource(product, path) => product.Some? && path.Some?
    case AddDisk(product, _, volumeLabel, _) => product.Some? && volumeLabel.Some?
    case ClearDisk(product, _) => product.Some?
    case ClearAll(product) => product.Some?
    case SetInfo(product, property, value) => product.Some? && property.Some? && value.Some?
  }

  /** The cache after a call. */
  function Apply(cache: Cache, op: Op): Cache {
    if !WellFormed(op) then cache
    else
      var product := op.product.value;
      var entry := EntryOf(cache, product);
      match op
      case AddSource(_, path) =>
        cache[product := entry.(sources := entry.sources + [Classify(path.value)])]
      case AddDisk(_, diskId, volumeLabel, diskPrompt) =>
        cache[product := entry.(sources := entry.sources + [Media("", Some(diskId), volumeLabel, diskPrompt)])]
      case ClearDisk(_, diskId) =>
        if product in cache then cache[product := entry.(sources := Retain(entry.sources, diskId))] else cache
      case ClearAll(_) => cache - {product}
      case SetInfo(_, property, value) =>
        if property.value == "LastUsedSource" then cache[product := entry.(lastUsed := Some(Classify(value.value)))]
        else cache[product := entry]
  }

  /** The status a call returns. */
  function Status(cache: Cache, op: Op): U32 {
    if !WellFormed(op) then ERROR_INVALID_PARAMETER
    else if op.ClearDisk? && op.product.value !in cache then ERROR_UNKNOWN_PRODUCT
    else ERROR_SUCCESS
  }

  function Info(cache: Cache, product: Option<string>, property: Option<string>): (U32, string) {
    if product.None? || property.None? then (ERROR_INVALID_PARAMETER, "")
    else if product.value !in cache then (ERROR_BAD_CONFIGURATION, "")
    else
      var last := cache[product.value].lastUsed;
      (ERROR_SUCCESS,
       if last.None? then ""
       else if property.value == "LastUsedSource" then PathOf(last.value)
       else if property.value == "LastUsedType" then TypeLetter(last.value)
       else "")
  }

  function Enumerate(cache: Cache, product: Option<string>, index: U32): (U32, Option<DiskInfo>) {
    if product.None? then (ERROR_INVALID_PARAMETER, None)
    else if product.value !in cache then (ERROR_NO_MORE_ITEMS, None)
    else
      var media := MediaOf(cache[product.value].sources);
      if index < |media| then (ERROR_SUCCESS, Some(Describe(media[index]))) else (ERROR_NO_MORE_ITEMS, None)
  }

  function Resolve(cache: Cache, product: Option<string>): U32 {
    if product.None? then ERROR_INVALID_PARAMETER
    else if product.value in cache then ERROR_SUCCESS
    else ERROR_UNKNOWN_PRODUCT
  }

  class SourceListCache {
    var cache: Cache

    constructor ()
      ensures cache == map[]
    {
      cache := map[];
    }

    method AddSource(product: Option<string>, path: Option<string>) returns (status: U32)
      modifies this
      ensures status == if product.None? || path.None? then 87 else 0
      ensures cache == Apply(old(cache), Op.AddSource(product, path))
    {
      if product.None? || path.None? {
        return ERROR_INVALID_PARAMETER;
      }
      var list := EntryOf(cache, product.value);
      cache := cache[product.value := list.(sources := list.sources + [Classify(path.value)])];
      status := ERROR_SUCCESS;
    }

    method AddMediaDisk(product: Option<string>, diskId: U32, volumeLabel: Option<string>, diskPrompt: Option<string>)
      returns (status: U32)
      modifies this
      ensures status == if product.None? || volumeLabel.None? then 87 else 0
      ensures cache == Apply(old(cache), AddDisk(product, diskId, volumeLabel, diskPrompt))
    {
      if product.None? || volumeLabel.None? {
        return ERROR_INVALID_PARAMETER;
      }
      var list := EntryOf(cache, product.value);
      var disk := Media("", Some(diskId), Some(volumeLabel.value), diskPrompt);
      cache := cache[product.value := list.(sources := list.sources + [disk])];
      status := ERROR_SUCCESS;
    }

    method ClearMediaDisk(product: Option<string>, diskId: U32) returns (status: U32)
      modifies this
      ensures status == Status(old(cache), ClearDisk(product, diskId))
      ensures status == if product.None? then 87 else if product.value in old(cache) then 0 else 1605
      ensures cache == Apply(old(cache), ClearDisk(product, diskId))
    {
      if product.None? {
        return ERROR_INVALID_PARAMETER;
      }
      if product.value in cache {
        var list := cache[product.value];
        cache := cache[product.value := list.(sources := Retain(list.sources, diskId))];
        status := ERROR_SUCCESS;
      } else {
        status := ERROR_UNKNOWN_PRODUCT;
      }
    }

    method ClearAll(product: Option<string>) returns (status: U32)
      modifies this
      ensures status == if product.None? then 87 else 0
      ensures cache == Apply(old(cache), Op.ClearAll(product))
    {
      if product.None? {
        return ERROR_INVALID_PARAMETER;
      }
      cache := cache - {product.value};
      status := ERROR_SUCCESS;
    }

    method SetInfo(product: Option<string>, property: Option<string>, value: Option<string>) returns (status: U32)
      modifies this
      ensures status == if product.None? || property.None? || value.None? then 87 else 0
      ensures cache == Apply(old(cache), Op.SetInfo(product, property, value))
    {
      if product.None? || property.None? || value.None? {
        return ERROR_INVALID_PARAMETER;
      }
      var list := EntryOf(cache, product.value);
      if property.value == "LastUsedSource" {
        list := list.(lastUsed := Some(Classify(value.value)));
      }
      cache := cache[product.value := list];
      status := ERROR_SUCCESS;
    }

    method GetInfo(product: Option<string>, property: Option<string>) returns (status: U32, value: string)
      ensures (status, value) == Info(cache, product, property)
      ensures status == if product.None? || property.None? then 87 else if product.value in cache then 0 else 1610
      ensures value != "" ==> status == 0 && property.value in ["LastUsedSource", "LastUsedType"]
    {
      value := "";
      if product.None? || property.None? {
        return ERROR_INVALID_PARAMETER, value;
      }
      if product.value !in cache {
        return ERROR_BAD_CONFIGURATION, value;
      }
      var list := cache[product.value];
      if property.value == "LastUsedSource" && list.lastUsed.Some? {
        value := PathOf(list.lastUsed.value);
      } else if property.value == "LastUsedType" && list.lastUsed.Some? {
        value := TypeLetter(list.lastUsed.value);
      }
      status := ERROR_SUCCESS;
    }

    method EnumMediaDisks(product: Option<string>, index: U32) returns (status: U32, disk: Option<DiskInfo>)
      ensures (status, disk) == Enumerate(cache, product, index)
      ensures disk.Some? <==> status == 0
      ensures disk.None? ==> status == if product.None? then 87 else 259
    {
      if product.None? {
        return ERROR_INVALID_PARAMETER, None;
      }
      if product.value !in cache {
        return ERROR_NO_MORE_ITEMS, None;
      }
      var media := MediaOf(cache[product.value].sources);
      if index >= |media| {
        return ERROR_NO_MORE_ITEMS, None;
      }
      disk := Some(Describe(media[index]));
      status := ERROR_SUCCESS;
    }

    method ForceResolutionEx(product: Option<string>) returns (status: U32)
      ensures status == Resolve(cache, product)
      ensures status == if product.None? then 87 else if product.value in cache then 0 else 1605
    {
      if product.None? {
        return ERROR_INVALID_PARAMETER;
      }
      status := if product.value in cache then ERROR_SUCCESS else ERROR_UNKNOWN_PRODUCT;
    }
  }

  // ----- Clearing disks -----

  lemma {:induction false} RetainAppend(a: seq<SourcePath>, b: seq<SourcePath>, diskId: U32)
    ensures Retain(a + b, diskId) == Retain(a, diskId) + Retain(b, diskId)
  {
    if a == [] {
      assert a + b == b;
    } else {
      assert (a + b)[1..] == a[1..] + b;
      RetainAppend(a[1..], b, diskId);
    }
  }

  function Kept(s: SourcePath, diskId: U32): seq<SourcePath> {
    if ClearedBy(s, diskId) then [] else [s]
  }

  lemma RetainOne(s: SourcePath, diskId: U32)
    ensures Retain([s], diskId) == Kept(s, diskId)
  {
    assert [s][1..] == [];
  }

  lemma RetainOfKept(s: SourcePath, d1: U32, d2: U32, rest: seq<SourcePath>)
    ensures Retain(Kept(s, d1) + rest, d2) ==
            (if ClearedBy(s, d1) || ClearedBy(s, d2) then [] else [s]) + Retain(rest, d2)
  {
    RetainAppend(Kept(s, d1), rest, d2);
    RetainOne(s, d2);
  }

  /** Two disk clears come to the same whichever comes first, and repeating one
      changes nothing more. */
  lemma {:induction false} ClearsCommute(sources: seq<SourcePath>, d1: U32, d2: U32)
    ensures Retain(Retain(sources, d1), d2) == Retain(Retain(sources, d2), d1)
    ensures Retain(Retain(sources, d1), d1) == Retain(sources, d1)
  {
    if sources != [] {
      var rest := sources[1..];
      ClearsCommute(rest, d1, d2);
      RetainOfKept(sources[0], d1, d2, Retain(rest, d1));
      RetainOfKept(sources[0], d2, d1, Retain(rest, d2));
      RetainOfKept(sources[0], d1, d1, Retain(rest, d1));
      assert Retain(sources, d1) == Kept(sources[0], d1) + Retain(rest, d1);
      assert Retain(sources, d2) == Kept(sources[0], d2) + Retain(rest, d2);
      hide Retain;
    }
  }

  lemma {:induction false} RetainCounts(sources: seq<SourcePath>, diskId: U32, s: SourcePath)
    ensures multiset(Retain(sources, diskId))[s] == if ClearedBy(s, diskId) then 0 else multiset(sources)[s]
  {
    if sources != [] {
      RetainCounts(sources[1..], diskId, s);
      assert sources == [sources[0]] + sources[1..];
    }
  }

  /** A disk clear is a stable filter: the entries left are those at the places, taken
      in rising order, at which the clear does not name the entry. Every network, URL
      and id-less media entry is among them. */
  lemma {:induction false} ClearIsStableFilter(sources: seq<SourcePath>, diskId: U32) returns (places: seq<nat>)
    ensures |places| == |Retain(sources, diskId)|
    ensures forall k | 0 <= k < |places| :: places[k] < |sources| && Retain(sources, diskId)[k] == sources[places[k]]
    ensures forall j, k | 0 <= j < k < |places| :: places[j] < places[k]
    ensures forall i: nat | i < |sources| ::
              i in places <==>
              !(sources[i].Media? && sources[i].diskId.Some?
                && (sources[i].diskId.value == diskId || diskId == 0xFFFF_FFFF))
    decreases |sources|
  {
    places := [];
    if sources != [] {
      var n := |sources| - 1;
      var pre, s := sources[..n], sources[n];
      assert sources == pre + [s];
      RetainAppend(pre, [s], diskId);
      RetainOne(s, diskId);
      hide Retain;
      places := ClearIsStableFilter(pre, diskId);
      if !ClearedBy(s, diskId) {
        places := places + [n];
      }
    }
  }

  lemma {:induction false} MediaAppend(a: seq<SourcePath>, b: seq<SourcePath>)
    ensures MediaOf(a + b) == MediaOf(a) + MediaOf(b)
  {
    if a == [] {
      assert a + b == b;
    } else {
      assert (a + b)[1..] == a[1..] + b && (a + b)[0] == a[0];
      MediaAppend(a[1..], b);
      var first: seq<SourcePath> := if a[0].Media? then [a[0]] else [];
      assert first + (MediaOf(a[1..]) + MediaOf(b)) == (first + MediaOf(a[1..])) + MediaOf(b);
    }
  }

  lemma {:induction false} MediaMembers(sources: seq<SourcePath>, s: SourcePath)
    ensures s in MediaOf(sources) <==> s.Media? && s in sources
  {
    if sources != [] {
      MediaMembers(sources[1..], s);
      assert s in sources <==> s == sources[0] || s in sources[1..];
    }
  }

  lemma RetainMembers(sources: seq<SourcePath>, diskId: U32, s: SourcePath)
    ensures s in Retain(sources, diskId) <==> s in sources && !ClearedBy(s, diskId)
  {
    RetainCounts(sources, diskId, s);
    assert s in sources <==> s in multiset(sources);
    assert s in Retain(sources, diskId) <==> s in multiset(Retain(sources, diskId));
    hide Retain;
  }

  /** After a clear of disk `d`, enumeration reports no disk `d`, if and only if `d`
      is not 0 or the list has no media entry without an id: those report 0 too. */
  lemma ClearedDiskReportedExactly(sources: seq<SourcePath>, d: U32)
    ensures (forall m | m in MediaOf(Retain(sources, d)) :: Describe(m).diskId != d)
            <==> d != 0 || !(exists s :: s in sources && s.Media? && s.diskId.None?)
  {
    forall m ensures m in MediaOf(Retain(sources, d)) <==> m.Media? && m in sources && !ClearedBy(m, d) {
      MediaMembers(Retain(sources, d), m);
      RetainMembers(sources, d, m);
    }
    hide Retain;
    hide MediaOf;
    if d == 0 && exists s :: s in sources && s.Media? && s.diskId.None? {
      var s :| s in sources && s.Media? && s.diskId.None?;
      assert s in MediaOf(Retain(sources, d)) && Describe(s).diskId == d;
    }
  }

  /** Clearing all disks leaves no media entry with an id and touches no other entry. */
  lemma ClearAllDisksExactly(sources: seq<SourcePath>, s: SourcePath)
    ensures s in Retain(sources, ALL_DISKS) <==> s in sources && !(s.Media? && s.diskId.Some?)
  {
    RetainMembers(sources, ALL_DISKS, s);
  }
}
