// scripts/cua-cursor-theme/dotLottie.ts: a ZIP writer for stored entries, and the reader that
// sections 4.3.7, 4.3.12 and 4.3.16 of the PKWARE ZIP APPNOTE describe.
module ZipArchive {
  import opened Prelude
  import opened Bytes

  const DOS_TIME: u16 := 0
  const DOS_DATE: u16 := 0x21
  const VERSION_NEEDED: u16 := 20
  const VERSION_MADE_BY_UNIX: u16 := 0x300 + 20
  const METHOD_STORED: u16 := 0
  const REGULAR_FILE_0644: u32 := 0x81A4_0000
  const LOCAL_SIGNATURE: u32 := 0x0403_4b50
  const CENTRAL_SIGNATURE: u32 := 0x0201_4b50
  const END_SIGNATURE: u32 := 0x0605_4b50

  // `name` is the UTF-8 encoding of the file's name.
  datatype File = File(name: bytes, data: bytes)

  datatype ZipEntry = ZipEntry(file: File, crc: u32, offset: nat)

  // The name and data lengths fit their fields.
  predicate FileFits(f: File) {
    |f.name| < 0x1_0000 && |f.data| < 0x1_0000_0000
  }

  // --- The layout ---

  // What local and central headers have in common, from the version to the extra field's length.
  predicate IsCommonAt(h: bytes, at: nat, e: ZipEntry) {
    && at + 26 <= |h|
    && U16At(h, at) == VERSION_NEEDED
    && U16At(h, at + 2) == 0           // flags
    && U16At(h, at + 4) == METHOD_STORED
    && U16At(h, at + 6) == DOS_TIME
    && U16At(h, at + 8) == DOS_DATE
    && U32At(h, at + 10) == e.crc
    && U32At(h, at + 14) == |e.file.data|
    && U32At(h, at + 18) == |e.file.data|
    && U16At(h, at + 22) == |e.file.name|
    && U16At(h, at + 24) == 0          // extra field length
  }

  predicate IsLocalHeader(h: bytes, e: ZipEntry) {
    |h| == 30 && U32At(h, 0) == LOCAL_SIGNATURE && IsCommonAt(h, 4, e)
  }

  predicate IsCentralHeader(h: bytes, e: ZipEntry) {
    && |h| == 46
    && U32At(h, 0) == CENTRAL_SIGNATURE
    && U16At(h, 4) == VERSION_MADE_BY_UNIX
    && IsCommonAt(h, 6, e)
    && U16At(h, 32) == 0               // comment length
    && U16At(h, 34) == 0               // disk number
    && U16At(h, 36) == 0               // internal attributes
    && U32At(h, 38) == REGULAR_FILE_0644
    && U32At(h, 42) == e.offset
  }

  predicate IsEnd(h: bytes, count: nat, size: nat, offset: nat) {
    && |h| == 22
    && U32At(h, 0) == END_SIGNATURE
    && U16At(h, 4) == 0                // this disk
    && U16At(h, 6) == 0                // disk of the central directory
    && U16At(h, 8) == count
    && U16At(h, 10) == count
    && U32At(h, 12) == size
    && U32At(h, 16) == offset
    && U16At(h, 20) == 0               // comment length
  }

  function LocalSize(f: File): nat {
    30 + |f.name| + |f.data|
  }

  function CentralSize(f: File): nat {
    46 + |f.name|
  }

  // A local entry: its header, its name and its data.
  ghost predicate IsLocal(b: bytes, e: ZipEntry) {
    exists h: bytes :: IsLocalHeader(h, e) && b == h + e.file.name + e.file.data
  }

  ghost predicate IsCentral(b: bytes, e: ZipEntry) {
    exists h: bytes :: IsCentralHeader(h, e) && b == h + e.file.name
  }

  // Where the i-th local entry starts, and the length of the first i central headers.
  function LocalOffset(files: seq<File>, i: nat): nat
    requires i <= |files|
  {
    if i == 0 then 0 else LocalOffset(files, i - 1) + LocalSize(files[i - 1])
  }

  function CentralLength(files: seq<File>, i: nat): nat
    requires i <= |files|
  {
    if i == 0 then 0 else CentralLength(files, i - 1) + CentralSize(files[i - 1])
  }

  function EntryOf(files: seq<File>, crc32: bytes -> u32, i: nat): ZipEntry
    requires i < |files|
  {
    ZipEntry(files[i], crc32(files[i].data), LocalOffset(files, i))
  }

  ghost predicate IsLocalAt(z: bytes, at: nat, e: ZipEntry) {
    at + LocalSize(e.file) <= |z| && IsLocal(z[at..at + LocalSize(e.file)], e)
  }

  ghost predicate IsCentralAt(z: bytes, at: nat, e: ZipEntry) {
    at + CentralSize(e.file) <= |z| && IsCentral(z[at..at + CentralSize(e.file)], e)
  }

  // --- Writing ---

  // The fields that say when, how and for which version an entry is stored.
  method WriteStored(header: array<byte>, at: nat)
    requires at + 10 <= header.Length
    modifies header
    ensures U16At(header[..], at) == VERSION_NEEDED && U16At(header[..], at + 2) == 0
    ensures U16At(header[..], at + 4) == METHOD_STORED && U16At(header[..], at + 6) == DOS_TIME
    ensures U16At(header[..], at + 8) == DOS_DATE
    ensures forall j :: 0 <= j < header.Length && !(at <= j < at + 10) ==> header[j] == old(header[j])
  {
    hide Join16, Join32;
    WriteUInt16LE(header, VERSION_NEEDED, at);
    WriteUInt16LE(header, 0, at + 2);
    WriteUInt16LE(header, METHOD_STORED, at + 4);
    WriteUInt16LE(header, DOS_TIME, at + 6);
    WriteUInt16LE(header, DOS_DATE, at + 8);
  }

  method WriteSizes(header: array<byte>, at: nat, e: ZipEntry)
    requires at + 16 <= header.Length && FileFits(e.file)
    modifies header
    ensures U32At(header[..], at) == e.crc && U32At(header[..], at + 4) == |e.file.data|
    ensures U32At(header[..], at + 8) == |e.file.data| && U16At(header[..], at + 12) == |e.file.name|
    ensures U16At(header[..], at + 14) == 0
    ensures forall j :: 0 <= j < header.Length && !(at <= j < at + 16) ==> header[j] == old(header[j])
  {
    hide Join16, Join32;
    WriteUInt32LE(header, e.crc, at);
    WriteUInt32LE(header, |e.file.data|, at + 4);
    WriteUInt32LE(header, |e.file.data|, at + 8);
    WriteUInt16LE(header, |e.file.name|, at + 12);
    WriteUInt16LE(header, 0, at + 14);
  }

  method WriteCommon(header: array<byte>, at: nat, e: ZipEntry)
    requires at + 26 <= header.Length && FileFits(e.file)
    modifies header
    ensures IsCommonAt(header[..], at, e)
    ensures forall j :: 0 <= j < header.Length && !(at <= j < at + 26) ==> header[j] == old(header[j])
  {
    WriteStored(header, at);
    WriteSizes(header, at + 10, e);
  }

  method WriteLocal(e: ZipEntry) returns (h: bytes)
    requires FileFits(e.file)
    ensures IsLocalHeader(h, e)
  {
    var header := new byte[30](_ => 0);
    WriteUInt32LE(header, LOCAL_SIGNATURE, 0);
    ghost var before := header[..];
    WriteCommon(header, 4, e);
    h := header[..];
    SameStart(before, h);
  }

  lemma SameStart(a: bytes, b: bytes)
    requires |a| >= 4 && |b| >= 4 && forall j :: 0 <= j < 4 ==> a[j] == b[j]
    ensures U32At(a, 0) == U32At(b, 0)
  {
  }

  method LocalHeader(e: ZipEntry) returns (b: bytes)
    requires FileFits(e.file)
    ensures IsLocal(b + e.file.data, e) && |b| == 30 + |e.file.name|
  {
    var header := WriteLocal(e);
    b := header + e.file.name;
  }

  method WriteCentralStart(header: array<byte>)
    requires header.Length == 46
    modifies header
    ensures U32At(header[..], 0) == CENTRAL_SIGNATURE && U16At(header[..], 4) == VERSION_MADE_BY_UNIX
    ensures forall j :: 6 <= j < 46 ==> header[j] == old(header[j])
  {
    WriteUInt32LE(header, CENTRAL_SIGNATURE, 0);
    WriteUInt16LE(header, VERSION_MADE_BY_UNIX, 4);
  }

  method WriteCentralTail(header: array<byte>, offset: u32)
    requires header.Length == 46
    modifies header
    ensures U32At(header[..], 38) == REGULAR_FILE_0644 && U32At(header[..], 42) == offset
    ensures forall j :: 0 <= j < 38 ==> header[j] == old(header[j])
  {
    hide Join16, Join32;
    WriteUInt32LE(header, REGULAR_FILE_0644, 38);
    WriteUInt32LE(header, offset, 42);
  }

  lemma ZeroAt(b: bytes, i: nat)
    requires i + 2 <= |b| && b[i] == b[i + 1] == 0
    ensures U16At(b, i) == 0
  {
  }

  lemma CentralFrom(start: bytes, common: bytes, h: bytes, e: ZipEntry)
    requires |start| == |common| == |h| == 46
    requires U32At(start, 0) == CENTRAL_SIGNATURE && U16At(start, 4) == VERSION_MADE_BY_UNIX
    requires IsCommonAt(common, 6, e) && U32At(h, 38) == REGULAR_FILE_0644 && U32At(h, 42) == e.offset
    requires forall j :: 0 <= j < 6 ==> common[j] == start[j]
    requires forall j :: 32 <= j < 38 ==> common[j] == 0
    requires forall j :: 0 <= j < 38 ==> h[j] == common[j]
    ensures IsCentralHeader(h, e)
  {
    hide Join16, Join32;
    ZeroAt(h, 32);
    ZeroAt(h, 34);
    ZeroAt(h, 36);
    CommonStays(common, h, 6, e);
    assert U32At(h, 0) == U32At(start, 0) && U16At(h, 4) == U16At(start, 4);
  }

  lemma CommonStays(a: bytes, b: bytes, at: nat, e: ZipEntry)
    requires |a| == |b| && IsCommonAt(a, at, e) && forall j :: at <= j < at + 26 ==> b[j] == a[j]
    ensures IsCommonAt(b, at, e)
  {
  }

  method WriteCentral(e: ZipEntry) returns (h: bytes)
    requires FileFits(e.file) && e.offset < 0x1_0000_0000
    ensures IsCentralHeader(h, e)
  {
    hide Join16, Join32, U16At, U32At, IsCommonAt, IsCentralHeader;
    var header := new byte[46](_ => 0);
    WriteCentralStart(header);
    ghost var start := header[..];
    WriteCommon(header, 6, e);
    ghost var common := header[..];
    // Comment length, disk number and internal attributes stay zero.
    WriteCentralTail(header, e.offset);
    h := header[..];
    CentralFrom(start, common, h, e);
  }

  method CentralHeader(e: ZipEntry) returns (b: bytes)
    requires FileFits(e.file) && e.offset < 0x1_0000_0000
    ensures IsCentral(b, e) && |b| == CentralSize(e.file)
  {
    var header := WriteCentral(e);
    b := header + e.file.name;
  }

  method WriteEndCounts(record: array<byte>, count: u16)
    requires record.Length == 22
    modifies record
    ensures U32At(record[..], 0) == END_SIGNATURE && U16At(record[..], 8) == count && U16At(record[..], 10) == count
    ensures forall j :: 4 <= j < 8 || 12 <= j < 22 ==> record[j] == old(record[j])
  {
    hide Join16, Join32;
    WriteUInt32LE(record, END_SIGNATURE, 0);
    WriteUInt16LE(record, count, 8);
    WriteUInt16LE(record, count, 10);
  }

  method WriteEndSizes(record: array<byte>, size: u32, offset: u32)
    requires record.Length == 22
    modifies record
    ensures U32At(record[..], 12) == size && U32At(record[..], 16) == offset
    ensures forall j :: 0 <= j < 12 || 20 <= j < 22 ==> record[j] == old(record[j])
  {
    hide Join16, Join32;
    WriteUInt32LE(record, size, 12);
    WriteUInt32LE(record, offset, 16);
  }

  method EndOfCentralDirectory(count: u16, size: u32, offset: u32) returns (b: bytes)
    ensures IsEnd(b, count, size, offset)
  {
    var record := new byte[22](_ => 0);
    WriteEndCounts(record, count);
    WriteEndSizes(record, size, offset);
    b := record[..];
    ZeroAt(b, 4);
    ZeroAt(b, 6);
    ZeroAt(b, 20);
  }

  // --- Putting the parts together ---

  function Concat(parts: seq<bytes>): (b: bytes) {
    if parts == [] then [] else Concat(parts[..|parts| - 1]) + parts[|parts| - 1]
  }

  lemma SliceOfFront(front: bytes, after: bytes, lo: nat, hi: nat)
    requires lo <= hi <= |front|
    ensures (front + after)[lo..hi] == front[lo..hi]
  {
  }

  // The i-th part stands where the parts before it end.
  lemma {:induction false} PartInPlace(parts: seq<bytes>, i: nat)
    requires i < |parts|
    ensures var at := |Concat(parts[..i])|;
      at + |parts[i]| <= |Concat(parts)| && Concat(parts)[at..at + |parts[i]|] == parts[i]
  {
    var n := |parts| - 1;
    if i < n {
      PartInPlace(parts[..n], i);
      assert parts[..n][..i] == parts[..i];
      var at := |Concat(parts[..i])|;
      SliceOfFront(Concat(parts[..n]), parts[n], at, at + |parts[i]|);
    }
  }

  lemma {:induction false} LocalOffsetIs(files: seq<File>, parts: seq<bytes>, i: nat)
    requires i <= |files| == |parts|
    requires forall j {:trigger parts[j]} :: 0 <= j < |files| ==> |parts[j]| == LocalSize(files[j])
    ensures |Concat(parts[..i])| == LocalOffset(files, i)
  {
    if i > 0 {
      LocalOffsetIs(files, parts, i - 1);
      assert parts[..i][..i - 1] == parts[..i - 1];
    }
  }

  lemma {:induction false} CentralLengthIs(files: seq<File>, parts: seq<bytes>, i: nat)
    requires i <= |files| == |parts|
    requires forall j {:trigger parts[j]} :: 0 <= j < |files| ==> |parts[j]| == CentralSize(files[j])
    ensures |Concat(parts[..i])| == CentralLength(files, i)
  {
    if i > 0 {
      CentralLengthIs(files, parts, i - 1);
      assert parts[..i][..i - 1] == parts[..i - 1];
    }
  }

  lemma SliceOfMiddle(before: bytes, middle: bytes, after: bytes, lo: nat, hi: nat)
    requires lo <= hi <= |middle|
    ensures (before + middle + after)[|before| + lo..|before| + hi] == middle[lo..hi]
  {
  }

  lemma LocalInPlace(files: seq<File>, crc32: bytes -> u32, parts: seq<bytes>, rest: bytes, i: nat)
    requires i < |files| == |parts|
    requires forall j {:trigger parts[j]} :: 0 <= j < |files| ==> |parts[j]| == LocalSize(files[j])
    requires IsLocal(parts[i], EntryOf(files, crc32, i))
    ensures IsLocalAt(Concat(parts) + rest, LocalOffset(files, i), EntryOf(files, crc32, i))
  {
    hide IsLocal, Concat, LocalOffset;
    PartInPlace(parts, i);
    LocalOffsetIs(files, parts, i);
    var at, all := LocalOffset(files, i), Concat(parts);
    SliceOfMiddle([], all, rest, at, at + |parts[i]|);
    assert [] + all + rest == all + rest;
  }

  lemma CentralInPlace(files: seq<File>, crc32: bytes -> u32, before: bytes, parts: seq<bytes>, rest: bytes, i: nat)
    requires i < |files| == |parts|
    requires forall j {:trigger parts[j]} :: 0 <= j < |files| ==> |parts[j]| == CentralSize(files[j])
    requires IsCentral(parts[i], EntryOf(files, crc32, i))
    ensures IsCentralAt(before + Concat(parts) + rest, |before| + CentralLength(files, i), EntryOf(files, crc32, i))
  {
    hide IsCentral, Concat, CentralLength;
    PartInPlace(parts, i);
    CentralLengthIs(files, parts, i);
    var at := CentralLength(files, i);
    SliceOfMiddle(before, Concat(parts), rest, at, at + |parts[i]|);
  }

  ghost predicate AreLocals(parts: seq<bytes>, files: seq<File>, crc32: bytes -> u32, n: nat)
    requires n <= |files|
  {
    && |parts| == n
    && forall i {:trigger parts[i]} :: 0 <= i < n ==>
         |parts[i]| == LocalSize(files[i]) && IsLocal(parts[i], EntryOf(files, crc32, i))
  }

  ghost predicate AreCentrals(parts: seq<bytes>, files: seq<File>, crc32: bytes -> u32, n: nat)
    requires n <= |files|
  {
    && |parts| == n
    && forall i {:trigger parts[i]} :: 0 <= i < n ==>
         |parts[i]| == CentralSize(files[i]) && IsCentral(parts[i], EntryOf(files, crc32, i))
  }

  // The local entries, one after the other from the start, then the central directory, then the end
  // record: together they are the whole archive.
  ghost predicate IsLaidOut(z: bytes, locals: seq<bytes>, centrals: seq<bytes>, end: bytes, files: seq<File>,
                            crc32: bytes -> u32) {
    && z == Concat(locals) + Concat(centrals) + end
    && AreLocals(locals, files, crc32, |files|)
    && AreCentrals(centrals, files, crc32, |files|)
    && IsEnd(end, |files|, |Concat(centrals)|, |Concat(locals)|)
  }

  ghost predicate IsArchive(z: bytes, files: seq<File>, crc32: bytes -> u32) {
    exists locals, centrals, end :: IsLaidOut(z, locals, centrals, end, files, crc32)
  }

  // Every entry stands at the offset its header records, and its header where those before it end.
  lemma EntryInPlace(z: bytes, locals: seq<bytes>, centrals: seq<bytes>, end: bytes, files: seq<File>,
                     crc32: bytes -> u32, i: nat)
    requires IsLaidOut(z, locals, centrals, end, files, crc32) && i < |files|
    ensures IsLocalAt(z, LocalOffset(files, i), EntryOf(files, crc32, i))
    ensures IsCentralAt(z, |Concat(locals)| + CentralLength(files, i), EntryOf(files, crc32, i))
  {
    hide IsLocal, IsCentral, IsLocalAt, IsCentralAt, IsEnd;
    LocalInPlace(files, crc32, locals, Concat(centrals) + end, i);
    CentralInPlace(files, crc32, Concat(locals), centrals, end, i);
    assert Concat(locals) + (Concat(centrals) + end) == Concat(locals) + Concat(centrals) + end;
  }

  // No header field overflows.
  ghost predicate Fits(files: seq<File>) {
    && (forall i :: 0 <= i < |files| ==> FileFits(files[i]))
    && |files| < 0x1_0000
    && LocalOffset(files, |files|) < 0x1_0000_0000
    && CentralLength(files, |files|) < 0x1_0000_0000
  }

  lemma {:induction false} LocalOffsetGrows(files: seq<File>, i: nat, j: nat)
    requires i <= j <= |files|
    ensures LocalOffset(files, i) <= LocalOffset(files, j)
    decreases j
  {
    if i < j {
      LocalOffsetGrows(files, i, j - 1);
    }
  }

  lemma ConcatLengths(locals: seq<bytes>, centrals: seq<bytes>, files: seq<File>, crc32: bytes -> u32)
    requires AreLocals(locals, files, crc32, |files|) && AreCentrals(centrals, files, crc32, |files|)
    ensures |Concat(locals)| == LocalOffset(files, |files|) && |Concat(centrals)| == CentralLength(files, |files|)
  {
    LocalOffsetIs(files, locals, |files|);
    CentralLengthIs(files, centrals, |files|);
    assert locals[..|files|] == locals && centrals[..|files|] == centrals;
  }

  // The local entries; a name or data length may overflow its field.
  method Locals(files: seq<File>, crc32: bytes -> u32)
    returns (fits: bool, localParts: seq<bytes>, entries: seq<ZipEntry>, offset: nat)
    ensures fits <==> forall i :: 0 <= i < |files| ==> FileFits(files[i])
    ensures fits ==> AreLocals(localParts, files, crc32, |files|) && offset == LocalOffset(files, |files|)
    ensures fits ==> |entries| == |files|
    ensures fits ==> forall j {:trigger entries[j]} :: 0 <= j < |files| ==> entries[j] == EntryOf(files, crc32, j)
  {
    fits, localParts, entries, offset := true, [], [], 0;
    for i := 0 to |files|
      invariant offset == LocalOffset(files, i) && AreLocals(localParts, files, crc32, i)
      invariant |entries| == i && forall j {:trigger entries[j]} :: 0 <= j < i ==> entries[j] == EntryOf(files, crc32, j)
      invariant forall j :: 0 <= j < i ==> FileFits(files[j])
    {
      if !FileFits(files[i]) {
        fits := false;
        return;
      }
      var entry := ZipEntry(files[i], crc32(files[i].data), offset);
      var header := LocalHeader(entry);
      var local := header + files[i].data;
      localParts := localParts + [local];
      entries := entries + [entry];
      offset := offset + |local|;
    }
  }

  // The central directory; a header's offset field may overflow.
  method Centrals(entries: seq<ZipEntry>, ghost files: seq<File>, ghost crc32: bytes -> u32)
    returns (inRange: bool, centralParts: seq<bytes>)
    requires |entries| == |files|
    requires forall j {:trigger entries[j]} :: 0 <= j < |files| ==>
      entries[j] == EntryOf(files, crc32, j) && FileFits(files[j])
    ensures inRange ==> AreCentrals(centralParts, files, crc32, |files|)
    ensures !inRange ==> LocalOffset(files, |files|) >= 0x1_0000_0000
  {
    inRange, centralParts := true, [];
    for i := 0 to |entries|
      invariant AreCentrals(centralParts, files, crc32, i)
    {
      if entries[i].offset >= 0x1_0000_0000 {
        LocalOffsetGrows(files, i, |files|);
        inRange := false;
        return;
      }
      var header := CentralHeader(entries[i]);
      centralParts := centralParts + [header];
    }
  }

  // --- Reading ---

  // Where the end record starts: the last one whose comment ends with the archive (section 4.3.16).
  function FindEnd(z: bytes, at: nat): Option<nat>
    requires at + 22 <= |z|
  {
    if U32At(z[at..at + 22], 0) == END_SIGNATURE && at + 22 + U16At(z[at..at + 22], 20) == |z| then Some(at)
    else if at == 0 then None
    else FindEnd(z, at - 1)
  }

  datatype Central = Central(name: bytes, crc: u32, size: nat, offset: nat, next: nat)

  // The central header at `at` (section 4.3.12), if it describes an unencrypted stored entry.
  function ReadCentral(z: bytes, at: nat): Option<Central> {
    if at + 46 > |z| then None else
    var h := z[at..at + 46];
    var n := U16At(h, 28);
    var next := at + 46 + n + U16At(h, 30) + U16At(h, 32);
    if U32At(h, 0) != CENTRAL_SIGNATURE || U16At(h, 8) != 0 || U16At(h, 10) != METHOD_STORED
       || U32At(h, 20) != U32At(h, 24) || next > |z| then None
    else Some(Central(z[at + 46..at + 46 + n], U32At(h, 16), U32At(h, 20), U32At(h, 42), next))
  }

  // The file of a central header: its local header (section 4.3.7) must agree with it, and its data
  // must have its checksum.
  function ReadLocal(z: bytes, c: Central, crc32: bytes -> u32): Option<File> {
    if c.offset + 30 > |z| then None else
    var h := z[c.offset..c.offset + 30];
    var n := U16At(h, 26);
    var start := c.offset + 30 + n + U16At(h, 28);
    if U32At(h, 0) != LOCAL_SIGNATURE || U16At(h, 6) != 0 || U16At(h, 8) != METHOD_STORED
       || U32At(h, 14) != c.crc || U32At(h, 18) != c.size || U32At(h, 22) != c.size || start + c.size > |z| then None
    else
      var name, data := z[c.offset + 30..c.offset + 30 + n], z[start..start + c.size];
      if name != c.name || crc32(data) != c.crc then None else Some(File(name, data))
  }

  // The files of `count` central headers from `at` on, which must end at `end`.
  function ReadFiles(z: bytes, at: nat, count: nat, end: nat, crc32: bytes -> u32): Option<seq<File>>
    decreases count
  {
    if count == 0 then
      if at == end then Some([]) else None
    else match ReadCentral(z, at)
      case None => None
      case Some(c) =>
        match (ReadLocal(z, c, crc32), ReadFiles(z, c.next, count - 1, end, crc32))
        case (Some(f), Some(rest)) => Some([f] + rest)
        case (_, _) => None
  }

  function Unzip(z: bytes, crc32: bytes -> u32): Option<seq<File>> {
    if |z| < 22 then None
    else match FindEnd(z, |z| - 22)
      case None => None
      case Some(at) =>
        if at + 22 > |z| then None else
        var h := z[at..at + 22];
        if U16At(h, 4) != 0 || U16At(h, 6) != 0 || U16At(h, 8) != U16At(h, 10)
           || U32At(h, 16) + U32At(h, 12) != at then None
        else ReadFiles(z, U32At(h, 16), U16At(h, 10), at, crc32)
  }

  lemma ReadsCentral(z: bytes, at: nat, e: ZipEntry)
    requires IsCentralAt(z, at, e)
    ensures ReadCentral(z, at)
         == Some(Central(e.file.name, e.crc, |e.file.data|, e.offset, at + CentralSize(e.file)))
  {
    hide Join16, Join32;
    var b := z[at..at + CentralSize(e.file)];
    var h: bytes :| IsCentralHeader(h, e) && b == h + e.file.name;
    assert z[at..at + 46] == b[..46] == h;
    assert z[at + 46..at + 46 + |e.file.name|] == b[46..] == e.file.name;
  }

  lemma ReadsLocal(z: bytes, c: Central, e: ZipEntry, crc32: bytes -> u32)
    requires IsLocalAt(z, e.offset, e) && e.crc == crc32(e.file.data)
    requires c.name == e.file.name && c.crc == e.crc && c.size == |e.file.data| && c.offset == e.offset
    ensures ReadLocal(z, c, crc32) == Some(e.file)
  {
    hide Join16, Join32;
    var b := z[e.offset..e.offset + LocalSize(e.file)];
    var h: bytes :| IsLocalHeader(h, e) && b == h + e.file.name + e.file.data;
    Thirds(z, e.offset, h, e.file.name, e.file.data);
  }

  lemma Thirds(z: bytes, at: nat, x: bytes, y: bytes, w: bytes)
    requires at + |x| + |y| + |w| <= |z| && z[at..at + |x| + |y| + |w|] == x + y + w
    ensures z[at..at + |x|] == x && z[at + |x|..at + |x| + |y|] == y
    ensures z[at + |x| + |y|..at + |x| + |y| + |w|] == w
  {
    var b := x + y + w;
    SliceOfSlice(z, at, b, 0, |x|);
    SliceOfSlice(z, at, b, |x|, |x| + |y|);
    SliceOfSlice(z, at, b, |x| + |y|, |b|);
    assert b[..|x|] == x && b[|x|..|x| + |y|] == y && b[|x| + |y|..|b|] == w;
  }

  lemma SliceOfSlice(z: bytes, at: nat, b: bytes, lo: nat, hi: nat)
    requires lo <= hi <= |b| && at + |b| <= |z| && z[at..at + |b|] == b
    ensures z[at + lo..at + hi] == b[lo..hi]
  {
    forall k | 0 <= k < hi - lo ensures z[at + lo..at + hi][k] == b[lo..hi][k] {
      assert z[at..at + |b|][lo + k] == b[lo + k];
    }
  }

  lemma ReadsEntry(z: bytes, locals: seq<bytes>, centrals: seq<bytes>, end: bytes, files: seq<File>,
                   crc32: bytes -> u32, i: nat)
    requires IsLaidOut(z, locals, centrals, end, files, crc32) && i < |files|
    ensures var c := ReadCentral(z, |Concat(locals)| + CentralLength(files, i));
      && c.Some? && c.value.next == |Concat(locals)| + CentralLength(files, i + 1)
      && ReadLocal(z, c.value, crc32) == Some(files[i])
  {
    hide IsLaidOut, IsLocalAt, IsCentralAt, ReadCentral, ReadLocal, Concat;
    var at, e := |Concat(locals)| + CentralLength(files, i), EntryOf(files, crc32, i);
    EntryInPlace(z, locals, centrals, end, files, crc32, i);
    ReadsCentral(z, at, e);
    ReadsLocal(z, ReadCentral(z, at).value, e, crc32);
  }

  lemma {:induction false} ReadsFiles(z: bytes, locals: seq<bytes>, centrals: seq<bytes>, end: bytes, files: seq<File>,
                                      crc32: bytes -> u32, i: nat)
    requires IsLaidOut(z, locals, centrals, end, files, crc32) && i <= |files|
    ensures var base := |Concat(locals)|;
      ReadFiles(z, base + CentralLength(files, i), |files| - i, base + CentralLength(files, |files|), crc32)
      == Some(files[i..])
    decreases |files| - i
  {
    hide IsLaidOut, ReadCentral, ReadLocal, Concat;
    if i == |files| {
      assert files[i..] == [];
    } else {
      ReadsFiles(z, locals, centrals, end, files, crc32, i + 1);
      ReadsEntry(z, locals, centrals, end, files, crc32, i);
      assert files[i..] == [files[i]] + files[i + 1..];
    }
  }

  // The end record is found at once: the archive has no comment.
  lemma FindsEnd(z: bytes, before: bytes, end: bytes, count: nat, size: nat, offset: nat)
    requires z == before + end && IsEnd(end, count, size, offset)
    ensures |z| >= 22 && z[|before|..|before| + 22] == end && FindEnd(z, |z| - 22) == Some(|before|)
  {
    assert z[|before|..|before| + 22] == end;
  }

  // Reading what was written gives the names and data back, in order.
  lemma UnzipZip(z: bytes, files: seq<File>, crc32: bytes -> u32)
    requires IsArchive(z, files, crc32)
    ensures Unzip(z, crc32) == Some(files)
  {
    hide Join16, Join32, FindEnd, ReadFiles, IsLocal, IsCentral, Concat;
    var locals, centrals, end :| IsLaidOut(z, locals, centrals, end, files, crc32);
    FindsEnd(z, Concat(locals) + Concat(centrals), end, |files|, |Concat(centrals)|, |Concat(locals)|);
    ConcatLengths(locals, centrals, files, crc32);
    ReadsFiles(z, locals, centrals, end, files, crc32, 0);
    assert files[0..] == files;
  }

  // --- The whole writer ---

  // zipArchive throws a RangeError exactly when some field does not fit.
  method ZipArchive(files: seq<File>, crc32: bytes -> u32) returns (result: Result<bytes, string>)
    ensures result.Ok? <==> Fits(files)
    ensures result.Ok? ==> IsArchive(result.value, files, crc32) && Unzip(result.value, crc32) == Some(files)
  {
    hide Unzip, IsLocal, IsCentral, IsEnd;
    var fits, localParts, entries, offset := Locals(files, crc32);
    if !fits {
      return Err("RangeError");
    }
    var inRange, centralParts := Centrals(entries, files, crc32);
    if !inRange {
      return Err("RangeError");
    }
    var central := Concat(centralParts);
    ConcatLengths(localParts, centralParts, files, crc32);
    if |entries| >= 0x1_0000 || |central| >= 0x1_0000_0000 || offset >= 0x1_0000_0000 {
      return Err("RangeError");
    }
    var end := EndOfCentralDirectory(|entries|, |central|, offset);
    result := Ok(Concat(localParts) + central + end);
    assert IsLaidOut(result.value, localParts, centralParts, end, files, crc32);
    UnzipZip(result.value, files, crc32);
  }

  // So different lists of files never make the same archive.
  lemma ArchiveDeterminesFiles(z: bytes, a: seq<File>, b: seq<File>, crc32: bytes -> u32)
    requires IsArchive(z, a, crc32) && IsArchive(z, b, crc32)
    ensures a == b
  {
    UnzipZip(z, a, crc32);
    UnzipZip(z, b, crc32);
  }
}
