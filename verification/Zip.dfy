/** The release archive: a stored-method ZIP serializer (APPNOTE sections 4.3.7, 4.3.12 and
    4.3.16) with two independent readers, and the round trips between them. */
module Zip {
  import opened Wrappers
  import opened Bytes
  import opened Crc32

  datatype File = File(name: seq<Byte>, content: seq<Byte>)
  datatype Item = Item(name: seq<Byte>, content: seq<Byte>, crc: nat)

  const LIMIT16 := 0x1_0000
  const LIMIT32 := 0x1_0000_0000
  const LOCAL_SIGNATURE := 0x04034b50
  const CENTRAL_SIGNATURE := 0x02014b50
  const END_SIGNATURE := 0x06054b50
  const DOS_DATE := 33

  // ---------- Little-endian fields ----------

  /** Node's writeUInt16LE throws from 2^16 on: `MakeZip` refuses those values before printing. */
  function U16(v: nat): (s: seq<Byte>)
    ensures |s| == 2
  {
    [ByteOf(v % 256), ByteOf(v / 256 % 256)]
  }

  /** writeUInt32LE after `>>> 0`: the value is silently reduced modulo 2^32. */
  function U32(v: nat): (s: seq<Byte>)
    ensures |s| == 4
  {
    U16(v % LIMIT32 % LIMIT16) + U16(v % LIMIT32 / LIMIT16)
  }

  function Get8(s: seq<Byte>, at: nat): nat
    requires at < |s|
  {
    s[at] as int
  }

  function Get16(s: seq<Byte>, at: nat): (v: nat)
    requires at + 2 <= |s|
  {
    Get8(s, at) + 256 * Get8(s, at + 1)
  }

  function Get32(s: seq<Byte>, at: nat): nat
    requires at + 4 <= |s|
  {
    Get16(s, at) + LIMIT16 * Get16(s, at + 2)
  }

  lemma GetU16(s: seq<Byte>, at: nat, v: nat)
    requires v < LIMIT16 && at + 2 <= |s| && s[at..at + 2] == U16(v)
    ensures Get16(s, at) == v
  {
    hide ByteOf, Get8;
    TwoDigits(v);
    var low, high := v % 256, v / 256 % 256;
    assert s[at] == ByteOf(low) && s[at + 1] == ByteOf(high) by {
      assert s[at] == s[at..at + 2][0] && s[at + 1] == s[at..at + 2][1];
    }
    Get8Of(s, at, low);
    Get8Of(s, at + 1, high);
  }

  lemma Get8Of(s: seq<Byte>, at: nat, v: nat)
    requires v < 256 && at < |s| && s[at] == ByteOf(v)
    ensures Get8(s, at) == v
  {}

  lemma TwoDigits(v: nat)
    requires v < LIMIT16
    ensures v % 256 + 256 * (v / 256 % 256) == v
  {}

  lemma GetU32(s: seq<Byte>, at: nat, v: nat)
    requires at + 4 <= |s| && s[at..at + 4] == U32(v)
    ensures Get32(s, at) == v % LIMIT32
  {
    hide ByteOf, U16, Get16;
    var w := v % LIMIT32;
    assert s[at..at + 2] == s[at..at + 4][..2] == U16(w % LIMIT16);
    assert s[at + 2..at + 4] == s[at..at + 4][2..] == U16(w / LIMIT16);
    GetU16(s, at, w % LIMIT16);
    GetU16(s, at + 2, w / LIMIT16);
  }

  // ---------- What the writer prints ----------

  function Crc(content: seq<Byte>): nat {
    SerialChecksum(content) as int
  }

  function LocalFixed(file: File): (s: seq<Byte>)
    ensures |s| == 30
  {
    U32(LOCAL_SIGNATURE) + U16(20) + U16(0x0800) + U16(0) + U16(0) + U16(DOS_DATE)
    + U32(Crc(file.content)) + U32(|file.content|) + U32(|file.content|)
    + U16(|file.name|) + U16(0)
  }

  function LocalRecord(file: File): seq<Byte> {
    LocalFixed(file) + file.name + file.content
  }

  function CentralFixed(file: File, offset: nat): (s: seq<Byte>)
    ensures |s| == 46
  {
    U32(CENTRAL_SIGNATURE) + U16(20) + U16(20) + U16(0x0800) + U16(0) + U16(0) + U16(DOS_DATE)
    + U32(Crc(file.content)) + U32(|file.content|) + U32(|file.content|)
    + U16(|file.name|) + U16(0) + U16(0) + U16(0) + U16(0) + U32(0) + U32(offset)
  }

  function CentralRecord(file: File, offset: nat): seq<Byte> {
    CentralFixed(file, offset) + file.name
  }

  ghost predicate NamesFit(files: seq<File>) {
    forall i | 0 <= i < |files| :: |files[i].name| < LIMIT16
  }

  function Locals(files: seq<File>): seq<Byte> {
    if files == [] then [] else Locals(files[..|files| - 1]) + LocalRecord(files[|files| - 1])
  }

  function Central(files: seq<File>): seq<Byte> {
    if files == [] then []
    else
      var front := files[..|files| - 1];
      Central(front) + CentralRecord(files[|files| - 1], |Locals(front)|)
  }

  function EndRecord(count: nat, size: nat, offset: nat): (s: seq<Byte>)
    ensures |s| == 22
  {
    U32(END_SIGNATURE) + U16(0) + U16(0) + U16(count) + U16(count) + U32(size) + U32(offset) + U16(0)
  }

  function Archive(files: seq<File>): seq<Byte> {
    Locals(files) + Central(files) + EndRecord(|files|, |Central(files)|, |Locals(files)|)
  }

  /** The packager's loop; a 16-bit field that does not fit makes the buffer write throw. */
  method MakeZip(table: array<Words.Word>, files: seq<File>) returns (archive: Result<seq<Byte>>)
    requires IsTable(table[..])
    ensures archive.Ok? <==> NamesFit(files) && |files| < LIMIT16
    ensures archive.Ok? ==> archive.value == Archive(files)
  {
    hide U16, U32, SerialChecksum, IsTable;
    var localParts: seq<Byte>, centralParts: seq<Byte>, offset := [], [], 0;
    for i := 0 to |files|
      invariant NamesFit(files[..i])
      invariant localParts == Locals(files[..i]) && centralParts == Central(files[..i]) && offset == |localParts|
    {
      var file := files[i];
      var checksum := Checksum(table, file.content);
      if |file.name| >= LIMIT16 {
        return Error;
      }
      var localHeader := U32(LOCAL_SIGNATURE) + U16(20) + U16(0x0800) + U16(0) + U16(0) + U16(DOS_DATE)
        + U32(checksum as int) + U32(|file.content|) + U32(|file.content|)
        + U16(|file.name|) + U16(0) + file.name;
      var centralHeader := U32(CENTRAL_SIGNATURE) + U16(20) + U16(20) + U16(0x0800) + U16(0) + U16(0) + U16(DOS_DATE)
        + U32(checksum as int) + U32(|file.content|) + U32(|file.content|)
        + U16(|file.name|) + U16(0) + U16(0) + U16(0) + U16(0) + U32(0) + U32(offset) + file.name;
      assert files[..i + 1][..i] == files[..i];
      localParts := localParts + (localHeader + file.content);
      centralParts := centralParts + centralHeader;
      offset := offset + |localHeader| + |file.content|;
    }
    assert files[..|files|] == files;
    if |files| >= LIMIT16 {
      return Error;
    }
    return Ok(localParts + centralParts + EndRecord(|files|, |centralParts|, offset));
  }

  // ---------- Readers ----------

  /** A local record at the front of `s`: the item and the bytes it occupies. */
  function ParseLocal(s: seq<Byte>): Option<(Item, nat)> {
    if |s| < 30 || Get32(s, 0) != LOCAL_SIGNATURE || Get16(s, 8) != 0 then None
    else
      var crc, stored, size: nat, nameLength: nat := Get32(s, 14), Get32(s, 18), Get32(s, 22), Get16(s, 26);
      var body: nat := 30 + nameLength + Get16(s, 28);
      if stored != size || |s| < body + size then None
      else Some((Item(s[30..30 + nameLength], s[body..body + size], crc), body + size))
  }

  /** First reader: scan local records from byte 0 until another signature appears. */
  function ScanLocals(s: seq<Byte>): Option<seq<Item>>
    decreases |s|
  {
    if |s| < 4 then None
    else if Get32(s, 0) != LOCAL_SIGNATURE then Some([])
    else
      var first := ParseLocal(s);
      if first.None? then None
      else
        var rest := ScanLocals(s[first.value.1..]);
        if rest.None? then None else Some([first.value.0] + rest.value)
  }

  /** Search backwards for the end record whose comment runs to the end of the archive. */
  function FindEnd(z: seq<Byte>, from: int): (end: Option<nat>)
    requires from + 22 <= |z|
    ensures end.Some? ==> end.value + 22 <= |z|
    decreases from + 1
  {
    if from < 0 then None
    else if Get32(z, from) == END_SIGNATURE && from + 22 + Get16(z, from + 20) == |z| then Some(from)
    else FindEnd(z, from - 1)
  }

  /** The i-th directory entry is at `at`; its local record is read through the stored offset. */
  function ReadEntries(z: seq<Byte>, at: nat, count: nat): Option<seq<Item>>
    decreases count
  {
    if count == 0 then Some([])
    else if |z| < at + 46 then None
    else if Get32(z, at) != CENTRAL_SIGNATURE then None
    else
      var nameLength := Get16(z, at + 28);
      var next := at + 46 + nameLength + Get16(z, at + 30) + Get16(z, at + 32);
      var offset := Get32(z, at + 42);
      if |z| < next || |z| < offset then None
      else
        var local := ParseLocal(z[offset..]);
        if local.None? then None
        else
          var item := local.value.0;
          if item.name != z[at + 46..at + 46 + nameLength] || item.crc != Get32(z, at + 16)
             || |item.content| != Get32(z, at + 24) then None
          else
            var rest := ReadEntries(z, next, count - 1);
            if rest.None? then None else Some([item] + rest.value)
  }

  /** Second reader: find the end record and follow the central directory. */
  function ReadDirectory(z: seq<Byte>): Option<seq<Item>> {
    if |z| < 22 then None
    else
      var end := FindEnd(z, |z| - 22);
      if end.None? then None
      else
        var offset := Get32(z, end.value + 16);
        if offset + Get32(z, end.value + 12) != end.value then None
        else ReadEntries(z, offset, Get16(z, end.value + 10))
  }

  // ---------- Round trips ----------

  function ItemOf(file: File): Item {
    Item(file.name, file.content, Crc(file.content))
  }

  function ItemsOf(files: seq<File>): seq<Item> {
    seq(|files|, i requires 0 <= i < |files| => ItemOf(files[i]))
  }

  lemma CrcFits(content: seq<Byte>)
    ensures Crc(content) < LIMIT32
  {
    hide SerialChecksum;
    var w := SerialChecksum(content);
  }

  lemma LocalFixedFields(file: File, s: seq<Byte>)
    requires |file.name| < LIMIT16 && |file.content| < LIMIT32
    requires |s| >= 30 && s[..30] == LocalFixed(file)
    ensures Get32(s, 0) == LOCAL_SIGNATURE && Get16(s, 8) == 0
    ensures Get32(s, 14) == Crc(file.content) && Get32(s, 18) == Get32(s, 22) == |file.content|
    ensures Get16(s, 26) == |file.name| && Get16(s, 28) == 0
  {
    hide U16, U32, Get16, Get32, Crc;
    CrcFits(file.content);
    var h := LocalFixed(file);
    assert s[0..4] == h[0..4] == U32(LOCAL_SIGNATURE);
    assert s[8..10] == h[8..10] == U16(0);
    assert s[14..18] == h[14..18] == U32(Crc(file.content));
    assert s[18..22] == h[18..22] == U32(|file.content|);
    assert s[22..26] == h[22..26] == U32(|file.content|);
    assert s[26..28] == h[26..28] == U16(|file.name|);
    assert s[28..30] == h[28..30] == U16(0);
    GetU32(s, 0, LOCAL_SIGNATURE);
    GetU16(s, 8, 0);
    GetU32(s, 14, Crc(file.content));
    GetU32(s, 18, |file.content|);
    GetU32(s, 22, |file.content|);
    GetU16(s, 26, |file.name|);
    GetU16(s, 28, 0);
  }

  /** A printed local record parses back, whatever follows it. */
  lemma ParseLocalPrinted(file: File, rest: seq<Byte>)
    requires |file.name| < LIMIT16 && |file.content| < LIMIT32
    ensures ParseLocal(LocalRecord(file) + rest) == Some((ItemOf(file), |LocalRecord(file)|))
  {
    hide LocalFixed, Get16, Get32, Crc;
    var s := LocalRecord(file) + rest;
    assert s[..30] == LocalFixed(file);
    LocalFixedFields(file, s);
    assert s[30..30 + |file.name|] == file.name;
    assert s[30 + |file.name|..30 + |file.name| + |file.content|] == file.content;
  }

  /** The records of the files from index i on. */
  ghost function LocalsAfter(files: seq<File>, i: nat): seq<Byte>
    requires i <= |files|
    decreases |files| - i
  {
    if i == |files| then [] else LocalRecord(files[i]) + LocalsAfter(files, i + 1)
  }

  ghost function CentralAfter(files: seq<File>, i: nat): seq<Byte>
    requires i <= |files|
    decreases |files| - i
  {
    if i == |files| then [] else CentralRecord(files[i], |Locals(files[..i])|) + CentralAfter(files, i + 1)
  }

  lemma {:induction false} LocalsSplit(files: seq<File>, i: nat)
    requires i <= |files|
    ensures Locals(files) == Locals(files[..i]) + LocalsAfter(files, i)
    decreases |files| - i
  {
    hide LocalRecord;
    if i == |files| {
      assert files[..i] == files;
    } else {
      LocalsSplit(files, i + 1);
      assert files[..i + 1][..i] == files[..i];
      assert Locals(files[..i + 1]) == Locals(files[..i]) + LocalRecord(files[i]);
    }
  }

  lemma {:induction false} CentralSplit(files: seq<File>, i: nat)
    requires i <= |files|
    ensures Central(files) == Central(files[..i]) + CentralAfter(files, i)
    decreases |files| - i
  {
    hide CentralRecord, Locals;
    if i == |files| {
      assert files[..i] == files;
    } else {
      CentralSplit(files, i + 1);
      assert files[..i + 1][..i] == files[..i];
      var record := CentralRecord(files[i], |Locals(files[..i])|);
      assert Central(files[..i + 1]) == Central(files[..i]) + record;
    }
  }

  /** What a directory offset promises: the i-th local record starts exactly there. */
  lemma OffsetIsTrue(files: seq<File>, i: nat)
    requires i < |files|
    ensures |Locals(files[..i])| <= |Archive(files)|
    ensures LocalRecord(files[i]) <= Archive(files)[|Locals(files[..i])|..]
  {
    hide LocalRecord, Locals, Central, EndRecord;
    LocalsSplit(files, i);
    var before := Locals(files[..i]);
    var tail := LocalsAfter(files, i + 1) + Central(files)
      + EndRecord(|files|, |Central(files)|, |Locals(files)|);
    assert Archive(files) == before + (LocalRecord(files[i]) + tail);
    assert Archive(files)[|before|..] == LocalRecord(files[i]) + tail;
  }

  lemma {:induction false} ScanLocalsFrom(files: seq<File>, i: nat, rest: seq<Byte>)
    requires NamesFit(files) && |Locals(files)| < LIMIT32 && i <= |files|
    requires |rest| >= 4 && Get32(rest, 0) != LOCAL_SIGNATURE
    ensures ScanLocals(LocalsAfter(files, i) + rest) == Some(ItemsOf(files[i..]))
    decreases |files| - i
  {
    hide LocalRecord, Locals, ItemOf, ParseLocal, Get32;
    if i == |files| {
      assert LocalsAfter(files, i) + rest == rest;
    } else {
      LocalsSplit(files, i);
      var later := LocalsAfter(files, i + 1) + rest;
      var s := LocalsAfter(files, i) + rest;
      assert s == LocalRecord(files[i]) + later;
      ContentFits(files[i]);
      ParseLocalPrinted(files[i], later);
      LocalStarts(files[i], later);
      assert s[|LocalRecord(files[i])|..] == later;
      ScanLocalsFrom(files, i + 1, rest);
      assert [ItemOf(files[i])] + ItemsOf(files[i + 1..]) == ItemsOf(files[i..]);
    }
  }

  lemma ContentFits(file: File)
    ensures |file.content| <= |LocalRecord(file)| && |file.name| <= |LocalRecord(file)|
  {}

  lemma LocalStarts(file: File, rest: seq<Byte>)
    ensures |LocalRecord(file) + rest| >= 4 && Get32(LocalRecord(file) + rest, 0) == LOCAL_SIGNATURE
  {
    hide U16, U32, Get32, Crc;
    var s := LocalRecord(file) + rest;
    assert s[0..4] == U32(LOCAL_SIGNATURE);
    GetU32(s, 0, LOCAL_SIGNATURE);
  }

  lemma CentralStarts(file: File, offset: nat, rest: seq<Byte>)
    ensures |CentralRecord(file, offset) + rest| >= 4
    ensures Get32(CentralRecord(file, offset) + rest, 0) == CENTRAL_SIGNATURE
  {
    hide U16, U32, Get32, Crc;
    var s := CentralRecord(file, offset) + rest;
    assert s[0..4] == U32(CENTRAL_SIGNATURE);
    GetU32(s, 0, CENTRAL_SIGNATURE);
  }

  lemma EndStarts(count: nat, size: nat, offset: nat)
    ensures Get32(EndRecord(count, size, offset), 0) == END_SIGNATURE
  {
    hide U16, U32, Get32;
    var s := EndRecord(count, size, offset);
    assert s[0..4] == U32(END_SIGNATURE);
    GetU32(s, 0, END_SIGNATURE);
  }

  /** What follows the local records does not start like one. */
  lemma TailIsNoLocal(files: seq<File>)
    requires NamesFit(files) && |files| < LIMIT16 && |Locals(files)| < LIMIT32
    ensures var rest := Central(files) + EndRecord(|files|, |Central(files)|, |Locals(files)|);
            |rest| >= 4 && Get32(rest, 0) != LOCAL_SIGNATURE
  {
    hide LocalRecord, CentralRecord, Locals, EndRecord, Get32, ScanLocals;
    var end := EndRecord(|files|, |Central(files)|, |Locals(files)|);
    var rest := Central(files) + end;
    if files == [] {
      assert rest == end;
      EndStarts(|files|, |Central(files)|, |Locals(files)|);
    } else {
      CentralSplit(files, 0);
      assert files[..0] == [];
      var record := CentralRecord(files[0], |Locals(files[..0])|);
      assert rest == record + (CentralAfter(files, 1) + end);
      CentralStarts(files[0], |Locals(files[..0])|, CentralAfter(files, 1) + end);
    }
  }

  /** Scanning local records from byte 0 recovers every file in order. */
  lemma ScanRoundTrip(files: seq<File>)
    requires NamesFit(files) && |files| < LIMIT16 && |Locals(files)| < LIMIT32
    ensures ScanLocals(Archive(files)) == Some(ItemsOf(files))
  {
    hide LocalRecord, Central, Locals, EndRecord, Get32, ScanLocals, LocalsAfter, ItemsOf, NamesFit;
    var rest := Central(files) + EndRecord(|files|, |Central(files)|, |Locals(files)|);
    TailIsNoLocal(files);
    LocalsSplit(files, 0);
    assert Locals(files[..0]) == [] by { LocalsOfNothing(); assert files[..0] == []; }
    ScanLocalsFrom(files, 0, rest);
    assert Archive(files) == LocalsAfter(files, 0) + rest;
    assert files[0..] == files;
  }

  lemma LocalsOfNothing()
    ensures Locals([]) == []
  {}

  lemma CentralFields(file: File, offset: nat)
    requires |file.name| < LIMIT16 && |file.content| < LIMIT32 && offset < LIMIT32
    ensures var h := CentralFixed(file, offset);
            && Get32(h, 0) == CENTRAL_SIGNATURE && Get32(h, 16) == Crc(file.content)
            && Get32(h, 24) == |file.content| && Get16(h, 28) == |file.name|
            && Get16(h, 30) == Get16(h, 32) == 0 && Get32(h, 42) == offset
  {
    hide U16, U32, Get16, Get32, Crc;
    CrcFits(file.content);
    var h := CentralFixed(file, offset);
    assert h[0..4] == U32(CENTRAL_SIGNATURE);
    assert h[16..20] == U32(Crc(file.content));
    assert h[24..28] == U32(|file.content|);
    assert h[28..30] == U16(|file.name|);
    assert h[30..32] == U16(0);
    assert h[32..34] == U16(0);
    assert h[42..46] == U32(offset);
    GetU32(h, 0, CENTRAL_SIGNATURE);
    GetU32(h, 16, Crc(file.content));
    GetU32(h, 24, |file.content|);
    GetU16(h, 28, |file.name|);
    GetU16(h, 30, 0);
    GetU16(h, 32, 0);
    GetU32(h, 42, offset);
  }

  /** Where the i-th directory entry starts. */
  ghost function DirectoryAt(files: seq<File>, i: nat): nat
    requires i <= |files|
  {
    |Locals(files)| + |Central(files[..i])|
  }

  lemma DirectorySplit(files: seq<File>, i: nat) returns (before: seq<Byte>, after: seq<Byte>)
    requires i < |files|
    ensures Archive(files) == before + (CentralFixed(files[i], |Locals(files[..i])|) + (files[i].name + after))
    ensures |before| == DirectoryAt(files, i)
    ensures DirectoryAt(files, i + 1) == DirectoryAt(files, i) + 46 + |files[i].name|
  {
    hide Locals, CentralFixed, EndRecord, Central;
    CentralSplit(files, i);
    CentralNext(files, i);
    var fixed := CentralFixed(files[i], |Locals(files[..i])|);
    var end := EndRecord(|files|, |Central(files)|, |Locals(files)|);
    before := Locals(files) + Central(files[..i]);
    after := CentralAfter(files, i + 1) + end;
    Regrouped(Locals(files), Central(files[..i]), fixed, files[i].name, CentralAfter(files, i + 1), end);
  }

  lemma CentralNext(files: seq<File>, i: nat)
    requires i < |files|
    ensures Central(files[..i + 1]) == Central(files[..i]) + CentralRecord(files[i], |Locals(files[..i])|)
  {
    hide CentralRecord, Locals;
    assert files[..i + 1][..i] == files[..i];
  }

  lemma Regrouped(a: seq<Byte>, b: seq<Byte>, c: seq<Byte>, d: seq<Byte>, e: seq<Byte>, f: seq<Byte>)
    ensures a + (b + ((c + d) + e)) + f == a + b + (c + (d + (e + f)))
  {
    assert (c + d) + e == c + (d + e);
  }

  /** The i-th directory entry sits where the reader looks for it and carries the file's data. */
  lemma DirectoryEntry(files: seq<File>, i: nat)
    requires NamesFit(files) && |Locals(files)| < LIMIT32 && i < |files|
    ensures DirectoryAt(files, i + 1) == DirectoryAt(files, i) + 46 + |files[i].name| <= |Archive(files)|
    ensures var z, file, at := Archive(files), files[i], DirectoryAt(files, i);
            && Get32(z, at) == CENTRAL_SIGNATURE && Get32(z, at + 16) == Crc(file.content)
            && Get32(z, at + 24) == |file.content| && Get16(z, at + 28) == |file.name|
            && Get16(z, at + 30) == Get16(z, at + 32) == 0 && Get32(z, at + 42) == |Locals(files[..i])|
            && z[at + 46..at + 46 + |file.name|] == file.name
  {
    hide *;
    LocalsSplit(files, i);
    LocalsAfterStarts(files, i);
    ContentFits(files[i]);
    var before, after := DirectorySplit(files, i);
    var fixed := CentralFixed(files[i], |Locals(files[..i])|);
    assert |files[i].name| < LIMIT16 by { NameFits(files, i); }
    CentralFields(files[i], |Locals(files[..i])|);
    EntryInContext(before, fixed, files[i].name, after);
  }

  lemma NameFits(files: seq<File>, i: nat)
    requires NamesFit(files) && i < |files|
    ensures |files[i].name| < LIMIT16
  {}

  lemma LocalsAfterStarts(files: seq<File>, i: nat)
    requires i < |files|
    ensures |LocalsAfter(files, i)| >= |LocalRecord(files[i])|
  {}

  lemma EntryInContext(before: seq<Byte>, fixed: seq<Byte>, name: seq<Byte>, after: seq<Byte>)
    requires |fixed| == 46
    ensures var z, at := before + (fixed + (name + after)), |before|;
            && Get32(z, at) == Get32(fixed, 0) && Get32(z, at + 16) == Get32(fixed, 16)
            && Get32(z, at + 24) == Get32(fixed, 24) && Get16(z, at + 28) == Get16(fixed, 28)
            && Get16(z, at + 30) == Get16(fixed, 30) && Get16(z, at + 32) == Get16(fixed, 32)
            && Get32(z, at + 42) == Get32(fixed, 42) && z[at + 46..at + 46 + |name|] == name
  {}

  lemma ItemsOfSuffix(files: seq<File>, i: nat)
    requires i <= |files|
    ensures ItemsOf(files[i..]) == if i == |files| then [] else [ItemOf(files[i])] + ItemsOf(files[i + 1..])
  {}

  /** Through its stored offset, the i-th file's local record is read back. */
  lemma LocalThroughOffset(files: seq<File>, i: nat)
    requires NamesFit(files) && |Locals(files)| < LIMIT32 && i < |files|
    ensures |Locals(files[..i])| <= |Archive(files)|
    ensures ParseLocal(Archive(files)[|Locals(files[..i])|..])
         == Some((ItemOf(files[i]), |LocalRecord(files[i])|))
  {
    hide *;
    LocalsSplit(files, i);
    LocalsAfterStarts(files, i);
    ContentFits(files[i]);
    NameFits(files, i);
    OffsetIsTrue(files, i);
    var s := Archive(files)[|Locals(files[..i])|..];
    var rest := s[|LocalRecord(files[i])|..];
    assert s == LocalRecord(files[i]) + rest;
    ParseLocalPrinted(files[i], rest);
  }

  lemma {:induction false} ReadEntriesFrom(files: seq<File>, i: nat)
    requires NamesFit(files) && |Locals(files)| < LIMIT32 && i <= |files|
    ensures ReadEntries(Archive(files), DirectoryAt(files, i), |files| - i) == Some(ItemsOf(files[i..]))
    decreases |files| - i
  {
    hide NamesFit, Locals, Archive, LocalRecord, ParseLocal, Get16, Get32, Crc, DirectoryAt, ItemsOf;
    ItemsOfSuffix(files, i);
    if i < |files| {
      DirectoryEntry(files, i);
      LocalThroughOffset(files, i);
      ReadEntriesFrom(files, i + 1);
    }
  }

  lemma EndFields(count: nat, size: nat, offset: nat)
    requires count < LIMIT16
    ensures var h := EndRecord(count, size, offset);
            && Get32(h, 0) == END_SIGNATURE && Get16(h, 10) == count && Get16(h, 20) == 0
            && Get32(h, 12) == size % LIMIT32 && Get32(h, 16) == offset % LIMIT32
  {
    hide U16, U32, Get16, Get32;
    var h := EndRecord(count, size, offset);
    var tail := U16(count) + U32(size) + U32(offset) + U16(0);
    assert h == U32(END_SIGNATURE) + U16(0) + U16(0) + U16(count) + tail;
    assert h[0..4] == U32(END_SIGNATURE);
    assert h[10..12] == tail[0..2] == U16(count);
    assert h[12..16] == tail[2..6] == U32(size);
    assert h[16..20] == tail[6..10] == U32(offset);
    assert h[20..22] == tail[10..12] == U16(0);
    GetU32(h, 0, END_SIGNATURE);
    GetU16(h, 10, count);
    GetU32(h, 12, size);
    GetU32(h, 16, offset);
    GetU16(h, 20, 0);
  }

  lemma GetShifted(before: seq<Byte>, s: seq<Byte>, k: nat)
    requires k + 2 <= |s|
    ensures Get16(before + s, |before| + k) == Get16(s, k)
    ensures k + 4 <= |s| ==> Get32(before + s, |before| + k) == Get32(s, k)
  {}

  lemma EndOfArchive(files: seq<File>)
    requires |files| < LIMIT16
    ensures var z, at := Archive(files), |Locals(files)| + |Central(files)|;
            && |z| == at + 22 && Get32(z, at) == END_SIGNATURE && Get16(z, at + 20) == 0
            && Get16(z, at + 10) == |files|
            && Get32(z, at + 12) == |Central(files)| % LIMIT32 && Get32(z, at + 16) == |Locals(files)| % LIMIT32
  {
    hide Locals, Central, EndRecord, Get16, Get32;
    var before, end := Locals(files) + Central(files), EndRecord(|files|, |Central(files)|, |Locals(files)|);
    EndFields(|files|, |Central(files)|, |Locals(files)|);
    GetShifted(before, end, 0);
    GetShifted(before, end, 10);
    GetShifted(before, end, 12);
    GetShifted(before, end, 16);
    GetShifted(before, end, 20);
  }

  // ---------- Every field of the headers ----------

  lemma FrontFields(s: seq<Byte>, tail: seq<Byte>, k: nat)
    requires k + 2 <= |s|
    ensures Get16(s + tail, k) == Get16(s, k)
    ensures k + 4 <= |s| ==> Get32(s + tail, k) == Get32(s, k)
  {}

  /** A field of a fixed header, wherever the header stands. */
  lemma FieldInContext(before: seq<Byte>, fixed: seq<Byte>, after: seq<Byte>, k: nat)
    requires k + 2 <= |fixed|
    ensures Get16(before + (fixed + after), |before| + k) == Get16(fixed, k)
    ensures k + 4 <= |fixed| ==> Get32(before + (fixed + after), |before| + k) == Get32(fixed, k)
  {
    hide Get16, Get32;
    FrontFields(fixed, after, k);
    GetShifted(before, fixed + after, k);
  }

  /** A local header at `at`, field by field: the content is stored, under a name in UTF-8, dated
      1980-01-01, without extra field. */
  ghost predicate LocalSays(z: seq<Byte>, at: nat, file: File)
    requires at + 30 <= |z|
  {
    && Get32(z, at) == 0x04034b50 && Get16(z, at + 4) == 20 && Get16(z, at + 6) == 0x0800
    && Get16(z, at + 8) == 0 && Get16(z, at + 10) == 0 && Get16(z, at + 12) == 33
    && Get32(z, at + 14) == SerialChecksum(file.content) as int
    && Get32(z, at + 18) == Get32(z, at + 22) == |file.content|
    && Get16(z, at + 26) == |file.name| && Get16(z, at + 28) == 0
  }

  /** A directory entry at `at`: the same, on the first disk, without comment or attributes. */
  ghost predicate CentralSays(z: seq<Byte>, at: nat, file: File)
    requires at + 46 <= |z|
  {
    && Get32(z, at) == 0x02014b50 && Get16(z, at + 4) == Get16(z, at + 6) == 20 && Get16(z, at + 8) == 0x0800
    && Get16(z, at + 10) == 0 && Get16(z, at + 12) == 0 && Get16(z, at + 14) == 33
    && Get32(z, at + 16) == SerialChecksum(file.content) as int
    && Get32(z, at + 20) == Get32(z, at + 24) == |file.content|
    && Get16(z, at + 28) == |file.name| && Get16(z, at + 30) == 0
    && Get16(z, at + 32) == Get16(z, at + 34) == Get16(z, at + 36) == 0 && Get32(z, at + 38) == 0
  }

  lemma LocalLayout(file: File)
    requires |file.name| < LIMIT16 && |file.content| < LIMIT32
    ensures LocalSays(LocalFixed(file), 0, file)
  {
    hide U16, U32, Get16, Get32, SerialChecksum;
    var h := LocalFixed(file);
    LocalFixedFields(file, h);
    assert h[4..6] == U16(20);
    assert h[6..8] == U16(0x0800);
    assert h[10..12] == U16(0);
    assert h[12..14] == U16(DOS_DATE);
    GetU16(h, 4, 20);
    GetU16(h, 6, 0x0800);
    GetU16(h, 10, 0);
    GetU16(h, 12, 33);
  }

  lemma CentralLayout(file: File, offset: nat)
    requires |file.name| < LIMIT16 && |file.content| < LIMIT32 && offset < LIMIT32
    ensures CentralSays(CentralFixed(file, offset), 0, file) && Get32(CentralFixed(file, offset), 42) == offset
  {
    hide U16, U32, Get16, Get32, SerialChecksum;
    var h := CentralFixed(file, offset);
    CentralFields(file, offset);
    CentralStart(file, offset);
    assert h[20..24] == U32(|file.content|);
    assert h[34..36] == U16(0);
    assert h[36..38] == U16(0);
    assert h[38..42] == U32(0);
    GetU32(h, 20, |file.content|);
    GetU16(h, 34, 0);
    GetU16(h, 36, 0);
    GetU32(h, 38, 0);
  }

  lemma CentralStart(file: File, offset: nat)
    ensures var h := CentralFixed(file, offset);
            && Get16(h, 4) == Get16(h, 6) == 20 && Get16(h, 8) == 0x0800
            && Get16(h, 10) == Get16(h, 12) == 0 && Get16(h, 14) == 33
  {
    hide U16, U32, Get16, Get32, Crc;
    var h := CentralFixed(file, offset);
    assert h[4..6] == U16(20);
    assert h[6..8] == U16(20);
    assert h[8..10] == U16(0x0800);
    assert h[10..12] == U16(0);
    assert h[12..14] == U16(0);
    assert h[14..16] == U16(DOS_DATE);
    GetU16(h, 4, 20);
    GetU16(h, 6, 20);
    GetU16(h, 8, 0x0800);
    GetU16(h, 10, 0);
    GetU16(h, 12, 0);
    GetU16(h, 14, 33);
  }

  /** Where local headers stand. */
  ghost function LocalAt(files: seq<File>, i: nat): nat
    requires i <= |files|
  {
    |Locals(files[..i])|
  }

  lemma LocalSplit(files: seq<File>, i: nat) returns (before: seq<Byte>, after: seq<Byte>)
    requires i < |files|
    ensures Archive(files) == before + (LocalFixed(files[i]) + after) && |before| == LocalAt(files, i)
  {
    hide Locals, LocalRecord, LocalFixed, Central, EndRecord;
    LocalsSplit(files, i);
    before := Locals(files[..i]);
    var tail := LocalsAfter(files, i + 1) + Central(files)
      + EndRecord(|files|, |Central(files)|, |Locals(files)|);
    assert Archive(files) == before + (LocalRecord(files[i]) + tail);
    RecordSplit(files[i], tail);
    after := files[i].name + files[i].content + tail;
  }

  lemma RecordSplit(file: File, tail: seq<Byte>)
    ensures LocalRecord(file) + tail == LocalFixed(file) + (file.name + file.content + tail)
  {
    hide LocalFixed;
  }

  /** What an unzipper relies on: the directory entry of each file, and the local header its offset
      leads to, say what they should of the file, and so agree. */
  lemma HeadersAgree(files: seq<File>, i: nat)
    requires NamesFit(files) && |Locals(files)| < LIMIT32 && i < |files|
    ensures DirectoryAt(files, i) + 46 <= |Archive(files)|
    ensures CentralSays(Archive(files), DirectoryAt(files, i), files[i])
    ensures var local := Get32(Archive(files), DirectoryAt(files, i) + 42);
            local + 30 <= |Archive(files)| && LocalSays(Archive(files), local, files[i])
  {
    hide *;
    assert |files[i].name| < LIMIT16 by { NameFits(files, i); }
    LocalsSplit(files, i);
    LocalsAfterStarts(files, i);
    ContentFits(files[i]);
    var before, after := DirectorySplit(files, i);
    var fixed := CentralFixed(files[i], LocalAt(files, i));
    LocalAtIs(files, i);
    CentralLayout(files[i], LocalAt(files, i));
    CentralInContext(before, fixed, files[i].name + after, files[i]);
    var front, rest := LocalSplit(files, i);
    LocalLayout(files[i]);
    LocalInContext(front, LocalFixed(files[i]), rest, files[i]);
  }

  lemma LocalAtIs(files: seq<File>, i: nat)
    requires i <= |files|
    ensures LocalAt(files, i) == |Locals(files[..i])|
  {}

  lemma CentralInContext(before: seq<Byte>, fixed: seq<Byte>, after: seq<Byte>, file: File)
    requires |fixed| == 46 && CentralSays(fixed, 0, file)
    ensures CentralSays(before + (fixed + after), |before|, file)
    ensures Get32(before + (fixed + after), |before| + 42) == Get32(fixed, 42)
  {
    hide Get16, Get32, SerialChecksum;
    forall k: nat | k + 2 <= 46
      ensures Get16(before + (fixed + after), |before| + k) == Get16(fixed, k)
      ensures k + 4 <= 46 ==> Get32(before + (fixed + after), |before| + k) == Get32(fixed, k)
    {
      FieldInContext(before, fixed, after, k);
    }
  }

  lemma LocalInContext(before: seq<Byte>, fixed: seq<Byte>, after: seq<Byte>, file: File)
    requires |fixed| == 30 && LocalSays(fixed, 0, file)
    ensures LocalSays(before + (fixed + after), |before|, file)
  {
    hide Get16, Get32, SerialChecksum;
    forall k: nat | k + 2 <= 30
      ensures Get16(before + (fixed + after), |before| + k) == Get16(fixed, k)
      ensures k + 4 <= 30 ==> Get32(before + (fixed + after), |before| + k) == Get32(fixed, k)
    {
      FieldInContext(before, fixed, after, k);
    }
  }

  /** The end record: one disk, every entry on it, no comment. */
  lemma EndRecordSays(files: seq<File>)
    requires |files| < LIMIT16
    ensures var z := Archive(files);
            var at := |z| - 22;
            && Get32(z, at) == 0x06054b50 && Get16(z, at + 4) == Get16(z, at + 6) == 0
            && Get16(z, at + 8) == Get16(z, at + 10) == |files| && Get16(z, at + 20) == 0
            && Get32(z, at + 12) == |Central(files)| % LIMIT32 && Get32(z, at + 16) == |Locals(files)| % LIMIT32
  {
    hide Locals, Central, EndRecord, Get16, Get32;
    var before, end := Locals(files) + Central(files), EndRecord(|files|, |Central(files)|, |Locals(files)|);
    EndOfArchive(files);
    EndStartFields(|files|, |Central(files)|, |Locals(files)|);
    GetShifted(before, end, 4);
    GetShifted(before, end, 6);
    GetShifted(before, end, 8);
  }

  lemma EndStartFields(count: nat, size: nat, offset: nat)
    requires count < LIMIT16
    ensures var h := EndRecord(count, size, offset); Get16(h, 4) == Get16(h, 6) == 0 && Get16(h, 8) == count
  {
    hide U16, U32, Get16, Get32;
    var h := EndRecord(count, size, offset);
    assert h[4..6] == U16(0);
    assert h[6..8] == U16(0);
    assert h[8..10] == U16(count);
    GetU16(h, 4, 0);
    GetU16(h, 6, 0);
    GetU16(h, 8, count);
  }

  /** Following the end record and the directory recovers every file in order. */
  lemma DirectoryRoundTrip(files: seq<File>)
    requires NamesFit(files) && |files| < LIMIT16 && |Archive(files)| <= LIMIT32
    ensures ReadDirectory(Archive(files)) == Some(ItemsOf(files))
  {
    hide Locals, Central, EndRecord, Get16, Get32, ReadEntries;
    EndOfArchive(files);
    ReadEntriesFrom(files, 0);
    assert files[0..] == files && files[..0] == [];
    assert Central([]) == [] by { CentralOfNothing(); }
  }

  lemma CentralOfNothing()
    ensures Central([]) == []
  {}

  /** The end record points at the directory exactly while the local part is below 4 GiB:
      beyond that the 32-bit field silently wraps. */
  lemma EndRecordIffBelowLimit(files: seq<File>)
    requires |files| < LIMIT16
    ensures Get32(Archive(files), |Archive(files)| - 6) == |Locals(files)| <==> |Locals(files)| < LIMIT32
  {
    hide Locals, Central, EndRecord, Get32;
    EndOfArchive(files);
  }

  /** It happens: three files of just under 2 GiB, the most that one read yields. */
  lemma EndRecordWraps()
    ensures var content := seq(0x7fff_ffff, _ => 0);
            var files := [File([97], content), File([98], content), File([99], content)];
            Get32(Archive(files), |Archive(files)| - 6) != |Locals(files)|
  {
    hide Archive, Get32, LocalRecord, Locals;
    var content := seq(0x7fff_ffff, _ => 0);
    var a, b, c := File([97], content), File([98], content), File([99], content);
    EndRecordIffBelowLimit([a, b, c]);
    ThreeLocals(a, b, c);
  }

  lemma ThreeLocals(a: File, b: File, c: File)
    ensures |Locals([a, b, c])| >= |a.content| + |b.content| + |c.content|
  {
    hide Locals;
    OneMoreLocal([], a);
    OneMoreLocal([a], b);
    OneMoreLocal([a, b], c);
    assert [] + [a] == [a] && [a] + [b] == [a, b] && [a, b] + [c] == [a, b, c];
  }

  lemma OneMoreLocal(files: seq<File>, file: File)
    ensures |Locals(files + [file])| >= |Locals(files)| + |file.content|
  {
    assert (files + [file])[..|files|] == files;
  }
}
