/** The NBAR archive: its writer, and the batch reader unpack_into. */
module Archive {
  import opened Bytes
  import opened EntryNames

  /** The extraction root's files, by the components of their paths. */
  type Disk = map<seq<Data>, Data>

  datatype Error =
    | TooSmall | BadMagic | TruncatedField | TruncatedName | TruncatedData
    | BadNameLength | BadName(why: NameError) | TrailingBytes | Incomplete

  datatype Outcome<+T> = Done(value: T) | Threw(error: Error)

  const MAGIC: Data := [78, 66, 65, 82]
  const CHUNK: nat := 0x10_0000

  function Min(a: int, b: int): int {
    if a < b then a else b
  }

  // ----- writing -----

  /** A file found by the scan: its archived name, its size then, and what opening
      it while the archive is written finds now. */
  datatype Entry = Entry(rel: Data, size: nat, file: Opened)

  datatype Opened = Missing | Content(bytes: Data)

  predicate Readable(e: Entry) {
    e.file.Content? && e.size <= |e.file.bytes|
  }

  /** The bytes of e that can be read. */
  function Body(e: Entry): (r: Data)
    ensures Readable(e) ==> |r| == e.size
  {
    if e.file.Missing? then [] else e.file.bytes[..Min(e.size, |e.file.bytes|)]
  }

  function Header(count: nat): Data {
    MAGIC + Le(count, 4)
  }

  function Frame(e: Entry): Data {
    Le(|e.rel|, 4) + e.rel + Le(e.size, 8)
  }

  function EntryBytes(entries: seq<Entry>): Data {
    if |entries| == 0 then [] else Frame(entries[0]) + Body(entries[0]) + EntryBytes(entries[1..])
  }

  /** The whole archive of entries. */
  function Wire(entries: seq<Entry>): Data {
    Header(|entries|) + EntryBytes(entries)
  }

  function Flat(spans: seq<Data>): Data {
    if |spans| == 0 then [] else Flat(spans[..|spans| - 1]) + spans[|spans| - 1]
  }

  /** The receiving end of `emit`: whether it takes the last span, given all it was
      handed so far. */
  type Sink = seq<Data> -> bool

  ghost predicate TookAll(sink: Sink, spans: seq<Data>) {
    forall k :: 1 <= k <= |spans| ==> sink(spans[..k])
  }

  /** How a streamed write ends. */
  datatype Sent = All | Refused | CannotOpen | ShortRead

  /** stream_archive */
  method StreamArchive(entries: seq<Entry>, sink: Sink) returns (sent: Sent, spans: seq<Data>)
    ensures Flat(spans) <= Wire(entries)
    ensures sent.All? ==> Flat(spans) == Wire(entries) && TookAll(sink, spans)
    ensures sent.All? || sent.Refused? || exists e :: e in entries && !Readable(e)
    ensures sent.All? ==> forall e :: e in entries ==> Readable(e)
    ensures sent.Refused? ==> |spans| > 0 && !sink(spans) && TookAll(sink, spans[..|spans| - 1])
  {
    assert TookAll(sink, []);
    hide Frame, Body, TookAll;
    var hdr := AppendLe(MAGIC, |entries|, 4);
    Push(sink, [], hdr);
    spans := [] + [hdr];
    if !sink(spans) { return Refused, spans; }
    assert entries[0..] == entries;
    for k := 0 to |entries|
      invariant |spans| > 0 && TookAll(sink, spans)
      invariant Flat(spans) + EntryBytes(entries[k..]) == Wire(entries)
      invariant forall e :: e in entries[..k] ==> Readable(e)
    {
      NextEntry(entries, k, Flat(spans));
      var s;
      s, spans := StreamEntry(entries[k], sink, spans);
      if !s.All? { return s, spans; }
      assert entries[..k + 1] == entries[..k] + [entries[k]];
    }
    assert entries[|entries|..] == [] && entries[..|entries|] == entries;
    sent := All;
  }

  lemma NextEntry(entries: seq<Entry>, k: nat, before: Data)
    requires k < |entries|
    ensures before + EntryBytes(entries[k..])
         == before + Frame(entries[k]) + Body(entries[k]) + EntryBytes(entries[k + 1..])
  {
    hide Frame, Body;
    assert entries[k..][1..] == entries[k + 1..];
  }

  /** One entry's framing, then its bytes. */
  method StreamEntry(e: Entry, sink: Sink, before: seq<Data>) returns (sent: Sent, spans: seq<Data>)
    requires TookAll(sink, before)
    ensures Flat(spans) <= Flat(before) + Frame(e) + Body(e)
    ensures sent.All? ==> Flat(spans) == Flat(before) + Frame(e) + Body(e) && TookAll(sink, spans) && |spans| > 0
    ensures sent.All? ==> Readable(e)
    ensures sent.Refused? ==> |spans| > 0 && !sink(spans) && TookAll(sink, spans[..|spans| - 1])
    ensures sent.CannotOpen? || sent.ShortRead? ==> !Readable(e)
  {
    hide Frame, TookAll, Flat, Body;
    var frame := BuildFrame(e);
    Push(sink, before, frame);
    spans := before + [frame];
    if !sink(spans) { return Refused, spans; }
    if e.file.Missing? { return CannotOpen, spans; }
    BodyBytes(e);
    sent, spans := StreamBytes(e.file.bytes, e.size, sink, spans);
  }

  lemma BodyBytes(e: Entry)
    requires e.file.Content?
    ensures Body(e) == e.file.bytes[..Min(e.size, |e.file.bytes|)]
  {}

  method BuildFrame(e: Entry) returns (frame: Data)
    ensures frame == Frame(e)
  {
    hide Le;
    frame := AppendLe([], |e.rel|, 4);
    frame := AppendLe(frame + e.rel, e.size, 8);
  }

  /** The first size bytes of a file, a chunk at a time. */
  method StreamBytes(file: Data, size: nat, sink: Sink, before: seq<Data>) returns (sent: Sent, spans: seq<Data>)
    requires TookAll(sink, before) && |before| > 0
    ensures Flat(spans) <= Flat(before) + file[..Min(size, |file|)]
    ensures sent.All? ==> size <= |file| && Flat(spans) == Flat(before) + file[..size]
    ensures sent.All? ==> TookAll(sink, spans) && |spans| > 0
    ensures sent.Refused? ==> |spans| > 0 && !sink(spans) && TookAll(sink, spans[..|spans| - 1])
    ensures !sent.CannotOpen? && (sent.ShortRead? ==> |file| < size)
  {
    hide TookAll, Flat;
    spans := before;
    var remaining := size;
    ghost var at := 0;
    while remaining > 0
      invariant 0 <= remaining <= size && at == size - remaining <= |file|
      invariant TookAll(sink, spans) && |spans| > 0
      invariant Flat(spans) == Flat(before) + file[..at]
    {
      var n := Min(remaining, CHUNK);
      var from := size - remaining;
      if from + n > |file| { return ShortRead, spans; }
      var buf := file[from..from + n];
      Push(sink, spans, buf);
      assert file[..from + n] == file[..from] + buf;
      spans := spans + [buf];
      at := at + n;
      if !sink(spans) { return Refused, spans; }
      remaining := remaining - n;
    }
    sent := All;
  }

  lemma Push(sink: Sink, spans: seq<Data>, span: Data)
    requires TookAll(sink, spans)
    ensures Flat(spans + [span]) == Flat(spans) + span
    ensures (spans + [span])[..|spans|] == spans
    ensures sink(spans + [span]) ==> TookAll(sink, spans + [span])
  {
    var all := spans + [span];
    assert all[..|spans|] == spans;
    forall k | 1 <= k <= |spans| ensures sink(all[..k]) {
      assert all[..k] == spans[..k];
    }
    assert all[..|spans| + 1] == all;
  }

  /** pack_directory, over the entries its scan found. */
  method PackDirectory(entries: seq<Entry>) returns (sent: Sent, out: Data)
    ensures sent.All? <==> forall e :: e in entries ==> Readable(e)
    ensures sent.All? ==> out == Wire(entries)
  {
    var spans;
    sent, spans := StreamArchive(entries, _ => true);
    out := [];
    for i := 0 to |spans|
      invariant out == Flat(spans[..i])
    {
      assert spans[..i + 1][..i] == spans[..i];
      out := out + spans[i];
    }
    assert spans[..|spans|] == spans;
  }

  /** archive_content_length */
  method ContentLength(entries: seq<Entry>) returns (total: nat)
    ensures (forall e :: e in entries ==> Readable(e)) ==> total == |Wire(entries)|
  {
    total := 4 + 4;
    for k := 0 to |entries|
      invariant total >= 8
      invariant (forall e :: e in entries ==> Readable(e)) ==>
        total + |EntryBytes(entries[k..])| == |Wire(entries)|
    {
      var e := entries[k];
      assert entries[k..][1..] == entries[k + 1..];
      total := total + 4 + |e.rel| + 8 + e.size;
    }
  }

  // ----- reading: unpack_into -----

  datatype Unpacked = Unpacked(disk: Disk, outcome: Outcome<nat>)

  /** The data field at pos of an entry called name. */
  function UnpackBody(a: Data, pos: nat, name: Data, disk: Disk): (u: Unpacked)
    requires pos <= |a|
    ensures u.outcome.Done? ==> pos + 8 <= u.outcome.value <= |a|
  {
    if pos + 8 > |a| then Unpacked(disk, Threw(TruncatedField))
    else
      var dataLen, p := FromLe(a[pos..pos + 8]), pos + 8;
      if p + dataLen > |a| then Unpacked(disk, Threw(TruncatedData))
      else if NameCheck(name).Bad? then Unpacked(disk, Threw(BadName(NameCheck(name).error)))
      else Unpacked(disk[FileKey(name) := a[p..p + dataLen]], Done(p + dataLen))
  }

  /** One entry at pos: the disk after it, and where the next one starts. */
  function UnpackEntry(a: Data, pos: nat, disk: Disk): (u: Unpacked)
    requires pos <= |a|
    ensures u.outcome.Done? ==> pos + 12 <= u.outcome.value <= |a|
  {
    if pos + 4 > |a| then Unpacked(disk, Threw(TruncatedField))
    else
      var nameLen, p := FromLe(a[pos..pos + 4]), pos + 4;
      if p + nameLen > |a| then Unpacked(disk, Threw(TruncatedName))
      else UnpackBody(a, p + nameLen, a[p..p + nameLen], disk)
  }

  /** n entries from pos on. */
  function UnpackEntries(a: Data, pos: nat, n: nat, disk: Disk): (u: Unpacked)
    requires pos <= |a|
    ensures u.outcome.Done? ==> pos <= u.outcome.value <= |a|
    decreases n
  {
    if n == 0 then Unpacked(disk, Done(pos))
    else
      var u := UnpackEntry(a, pos, disk);
      if u.outcome.Threw? then u else UnpackEntries(a, u.outcome.value, n - 1, u.disk)
  }

  function CountOf(a: Data): nat
    requires 8 <= |a|
  {
    FromLe(a[4..8])
  }

  /** The whole archive: the disk, and where reading stopped. */
  function Unpack(a: Data, disk: Disk): Unpacked {
    if |a| < 8 then Unpacked(disk, Threw(TooSmall))
    else if a[..4] != MAGIC then Unpacked(disk, Threw(BadMagic))
    else UnpackEntries(a, 8, CountOf(a), disk)
  }

  /** unpack_into; a failure leaves the files written before it. */
  method UnpackInto(a: Data, before: Disk) returns (r: Outcome<nat>, disk: Disk, ghost stop: nat)
    ensures Unpack(a, before).disk == disk
    ensures r.Done? ==> Unpack(a, before).outcome == Done(stop) && r.value == CountOf(a)
    ensures r.Threw? ==> Unpack(a, before).outcome == r
  {
    disk, stop := before, 0;
    if |a| < 8 { return Threw(TooSmall), disk, 0; }
    if a[..4] != MAGIC { return Threw(BadMagic), disk, 0; }
    hide UnpackEntry, FromLe;
    var ok: bool, count: nat, pos: nat := ReadLe(a, 4, 4);
    for i := 0 to count
      invariant 0 <= pos <= |a|
      invariant UnpackEntries(a, pos, count - i, disk) == Unpack(a, before)
    {
      var next;
      next, disk := UnpackOne(a, pos, disk);
      if next.Threw? { return next, disk, 0; }
      pos := next.value;
    }
    return Done(count), disk, pos;
  }

  method UnpackOne(a: Data, start: nat, before: Disk) returns (next: Outcome<nat>, disk: Disk)
    requires start <= |a|
    ensures UnpackEntry(a, start, before) == Unpacked(disk, next)
  {
    hide FromLe, UnpackBody;
    var ok: bool, nameLen: nat, pos: nat := ReadLe(a, start, 4);
    if !ok { return Threw(TruncatedField), before; }
    if pos + nameLen > |a| { return Threw(TruncatedName), before; }
    var name := a[pos..pos + nameLen];
    next, disk := UnpackOneBody(a, pos + nameLen, name, before);
  }

  method UnpackOneBody(a: Data, start: nat, name: Data, before: Disk) returns (next: Outcome<nat>, disk: Disk)
    requires start <= |a|
    ensures UnpackBody(a, start, name, before) == Unpacked(disk, next)
  {
    hide FromLe, NameCheck, FileKey;
    disk := before;
    var ok: bool, dataLen: nat, pos: nat := ReadLe(a, start, 8);
    if !ok { return Threw(TruncatedField), disk; }
    if pos + dataLen > |a| { return Threw(TruncatedData), disk; }
    var v := Validate(name);
    if v.Bad? { return Threw(BadName(v.error)), disk; }
    disk := disk[FileKey(name) := a[pos..pos + dataLen]];
    next := Done(pos + dataLen);
  }

  // ----- packing and unpacking -----

  /** What a reader's disk holds after taking entries in order. */
  function WriteAll(disk: Disk, entries: seq<Entry>): Disk
    decreases |entries|
  {
    if |entries| == 0 then disk else WriteAll(disk[FileKey(entries[0].rel) := Body(entries[0])], entries[1..])
  }

  /** Lengths and counts fit the fields they are written to. */
  ghost predicate Representable(entries: seq<Entry>) {
    && |entries| < Pow256(4)
    && forall e :: e in entries ==> |e.rel| < Pow256(4) && e.size < Pow256(8) && Readable(e)
  }

  lemma UnpackFrame(a: Data, pos: nat, e: Entry, rest: Data, disk: Disk)
    requires pos <= |a| && a[pos..] == Frame(e) + Body(e) + rest
    requires |e.rel| < Pow256(4) && e.size < Pow256(8) && Readable(e)
    ensures var u := UnpackEntry(a, pos, disk);
      if Admissible(e.rel) then
        u == Unpacked(disk[FileKey(e.rel) := Body(e)], Done(|a| - |rest|))
      else
        u.outcome.Threw?
  {
    hide UnpackEntry, Le, Admissible, Body, Frame, Pow256, FileKey;
    FrameFields(a, pos, e, rest);
    EntryOf(a, pos, e, disk);
  }

  lemma EntryOf(a: Data, pos: nat, e: Entry, disk: Disk)
    requires |e.rel| < Pow256(4) && e.size < Pow256(8)
    requires pos + 12 + |e.rel| + e.size <= |a|
    requires a[pos..pos + 4] == Le(|e.rel|, 4) && a[pos + 4..pos + 4 + |e.rel|] == e.rel
    requires a[pos + 4 + |e.rel|..pos + 12 + |e.rel|] == Le(e.size, 8)
    requires a[pos + 12 + |e.rel|..pos + 12 + |e.rel| + e.size] == Body(e)
    ensures var u := UnpackEntry(a, pos, disk);
      if Admissible(e.rel) then u == Unpacked(disk[FileKey(e.rel) := Body(e)], Done(pos + 12 + |e.rel| + e.size))
      else u.outcome.Threw?
  {
    hide FromLe, Le, UnpackBody, FileKey, Pow256, Admissible, Body;
    LeRoundTrip(|e.rel|, 4);
    BodyOf(a, pos + 4 + |e.rel|, e, disk);
  }

  lemma BodyOf(a: Data, pos: nat, e: Entry, disk: Disk)
    requires pos + 8 + e.size <= |a| && e.size < Pow256(8)
    requires a[pos..pos + 8] == Le(e.size, 8) && a[pos + 8..pos + 8 + e.size] == Body(e)
    ensures var u := UnpackBody(a, pos, e.rel, disk);
      if Admissible(e.rel) then u == Unpacked(disk[FileKey(e.rel) := Body(e)], Done(pos + 8 + e.size))
      else u.outcome.Threw?
  {
    hide FromLe, Le, FileKey, Pow256, Body, Admissible;
    LeRoundTrip(e.size, 8);
  }

  lemma FrameFields(a: Data, pos: nat, e: Entry, rest: Data)
    requires pos <= |a| && a[pos..] == Frame(e) + Body(e) + rest && Readable(e)
    ensures var p := pos + 4; var p2 := p + |e.rel|; var p3 := p2 + 8;
      && p3 + e.size == |a| - |rest|
      && a[pos..p] == Le(|e.rel|, 4)
      && a[p..p2] == e.rel
      && a[p2..p3] == Le(e.size, 8)
      && a[p3..p3 + e.size] == Body(e)
  {
    hide Le, Body;
    var tail, n := a[pos..], |e.rel|;
    var nameLen, dataLen := Le(n, 4), Le(e.size, 8);
    assert tail == nameLen + e.rel + dataLen + Body(e) + rest;
    Slice(a, pos, 0, 4);
    Slice(a, pos, 4, 4 + n);
    Slice(a, pos, 4 + n, 12 + n);
    Slice(a, pos, 12 + n, 12 + n + e.size);
    assert tail[0..4] == nameLen;
    assert tail[4..4 + n] == e.rel;
    assert tail[4 + n..12 + n] == dataLen;
    assert tail[12 + n..12 + n + e.size] == Body(e);
  }

  lemma Slice(a: Data, pos: nat, lo: nat, hi: nat)
    requires pos <= |a| && lo <= hi <= |a| - pos
    ensures a[pos..][lo..hi] == a[pos + lo..pos + hi]
  {}

  lemma {:induction false} UnpackWritten(a: Data, pos: nat, entries: seq<Entry>, disk: Disk)
    requires pos <= |a| && a[pos..] == EntryBytes(entries)
    requires forall e :: e in entries ==> |e.rel| < Pow256(4) && e.size < Pow256(8) && Readable(e)
    ensures var u := UnpackEntries(a, pos, |entries|, disk);
      if forall e :: e in entries ==> Admissible(e.rel) then
        u == Unpacked(WriteAll(disk, entries), Done(|a|))
      else
        u.outcome.Threw?
    decreases |entries|
  {
    hide UnpackEntry, Frame, Body, FileKey, Admissible;
    if |entries| > 0 {
      var e, rest := entries[0], EntryBytes(entries[1..]);
      UnpackFrame(a, pos, e, rest, disk);
      assert forall x :: x in entries <==> x == e || x in entries[1..];
      if Admissible(e.rel) {
        var next := |a| - |rest|;
        assert a[next..] == a[pos..][next - pos..] == rest;
        UnpackWritten(a, next, entries[1..], disk[FileKey(e.rel) := Body(e)]);
      }
    }
  }

  /** Unpacking what was packed succeeds exactly when every name is admissible,
      and then consumes the whole archive and writes every entry. */
  lemma UnpackPacked(entries: seq<Entry>, disk: Disk)
    requires Representable(entries)
    ensures var u := Unpack(Wire(entries), disk);
      && (u.outcome.Done? <==> forall e :: e in entries ==> Admissible(e.rel))
      && (u.outcome.Done? ==> u == Unpacked(WriteAll(disk, entries), Done(|Wire(entries)|)))
  {
    var a := Wire(entries);
    LeRoundTrip(|entries|, 4);
    assert a[..4] == MAGIC && a[4..8] == Le(|entries|, 4);
    assert a[8..] == EntryBytes(entries);
    UnpackWritten(a, 8, entries, disk);
  }

  ghost predicate DistinctFiles(entries: seq<Entry>) {
    forall i, j :: 0 <= i < j < |entries| ==> FileKey(entries[i].rel) != FileKey(entries[j].rel)
  }

  ghost predicate Names(entries: seq<Entry>, key: seq<Data>) {
    exists e :: e in entries && FileKey(e.rel) == key
  }

  lemma {:induction false} WriteAllElsewhere(disk: Disk, entries: seq<Entry>, key: seq<Data>)
    requires !Names(entries, key)
    ensures key in WriteAll(disk, entries) <==> key in disk
    ensures key in disk ==> WriteAll(disk, entries)[key] == disk[key]
    decreases |entries|
  {
    hide FileKey, Body;
    if |entries| > 0 {
      assert entries[0] in entries;
      WriteAllElsewhere(disk[FileKey(entries[0].rel) := Body(entries[0])], entries[1..], key);
    }
  }

  lemma {:induction false} WriteAllHolds(disk: Disk, entries: seq<Entry>, i: nat)
    requires DistinctFiles(entries) && i < |entries|
    ensures FileKey(entries[i].rel) in WriteAll(disk, entries)
    ensures WriteAll(disk, entries)[FileKey(entries[i].rel)] == Body(entries[i])
    decreases |entries|
  {
    hide FileKey, Body;
    var rest := entries[1..];
    var disk' := disk[FileKey(entries[0].rel) := Body(entries[0])];
    if i > 0 {
      assert entries[i] == rest[i - 1];
      WriteAllHolds(disk', rest, i - 1);
    } else {
      WriteAllElsewhere(disk', rest, FileKey(entries[0].rel));
    }
  }

  /** Pack then unpack is the identity on distinct admissible names: the disk has
      exactly the files that were packed, each with its bytes. */
  lemma PackUnpackIdentity(entries: seq<Entry>)
    requires Representable(entries) && DistinctFiles(entries)
    requires forall e :: e in entries ==> Admissible(e.rel)
    ensures var u := Unpack(Wire(entries), map[]);
      && u.outcome == Done(|Wire(entries)|)
      && (forall key :: key in u.disk <==> Names(entries, key))
      && forall e :: e in entries ==> u.disk[FileKey(e.rel)] == e.file.bytes[..e.size]
  {
    hide Unpack, FileKey, Wire;
    UnpackPacked(entries, map[]);
    var disk := WriteAll(map[], entries);
    forall e | e in entries ensures FileKey(e.rel) in disk && disk[FileKey(e.rel)] == e.file.bytes[..e.size] {
      var i :| 0 <= i < |entries| && entries[i] == e;
      WriteAllHolds(map[], entries, i);
    }
    forall key | !Names(entries, key) ensures key !in disk {
      WriteAllElsewhere(map[], entries, key);
    }
  }
}
