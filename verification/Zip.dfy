/** The stored-entry ZIP writer, field by field as it fills its buffers, and a reader written from
    APPNOTE.TXT sections 4.3.7, 4.3.12 and 4.3.16. The reader starts at the end record and is strict:
    it also insists that the regions follow each other without gap or overlap. */
module Zip {
  import opened Common
  import opened Crc32

  datatype Result<+T> = Ok(value: T) | TooLarge

  /** A file to pack; `name` is the UTF-8 form that TextEncoder produces. */
  datatype File = File(name: Bytes, data: Bytes)

  /** The date and time words of the headers. */
  datatype Stamp = Stamp(date: nat, time: nat)

  /** The fields that the local and the central header of a file share. */
  datatype Entry = Entry(needed: nat, flags: nat, compression: nat, time: nat, date: nat, crc: nat,
                         packed: nat, size: nat, name: Bytes)

  /** What a reader gets back for one file: both headers' fields and the bytes. */
  datatype Record = Record(entry: Entry, madeBy: nat, inner: nat, outer: nat, data: Bytes)

  const MAX32: nat := 0xffffffff

  // ------------------------------------------------------------------ little-endian fields

  /** DataView.setUint16 and setUint32 in little-endian order; digits beyond `width` are lost. */
  function Put(s: Bytes, at: nat, width: nat, value: nat): (r: Bytes)
    requires at + width <= |s|
    ensures |r| == |s|
    ensures forall i :: 0 <= i < |s| && !(at <= i < at + width) ==> r[i] == s[i]
    decreases width
  {
    if width == 0 then s else Put(s[at := (value % 256) as bv8], at + 1, width - 1, value / 256)
  }

  function Get(s: Bytes, at: nat, width: nat): nat
    requires at + width <= |s|
    decreases width
  {
    if width == 0 then 0 else (s[at] as int) + 256 * Get(s, at + 1, width - 1)
  }

  function Range(width: nat): nat {
    if width == 0 then 1 else 256 * Range(width - 1)
  }

  lemma Successor(b: bv8)
    requires b != 255
    ensures (b + 1) as int == b as int + 1
  {
  }

  lemma {:induction false} SomeByte(n: nat) returns (b: bv8)
    requires n < 256
    ensures b as int == n
  {
    if n == 0 {
      b := 0;
    } else {
      b := SomeByte(n - 1);
      assert b == 255 ==> b as int == 255;
      Successor(b);
      b := b + 1;
    }
  }

  lemma Digit(n: nat)
    requires n < 256
    ensures (n as bv8) as int == n
  {
    var b := SomeByte(n);
    ByteIndex(b);
  }

  lemma {:induction false} GetPut(s: Bytes, at: nat, width: nat, value: nat)
    requires at + width <= |s| && value < Range(width)
    ensures Get(Put(s, at, width, value), at, width) == value
    decreases width
  {
    if width > 0 {
      var t := s[at := (value % 256) as bv8];
      assert value / 256 < Range(width - 1);
      GetPut(t, at + 1, width - 1, value / 256);
      Digit(value % 256);
    }
  }

  lemma {:induction false} GetSame(s: Bytes, at: nat, t: Bytes, at': nat, width: nat)
    requires at + width <= |s| && at' + width <= |t|
    requires s[at..at + width] == t[at'..at' + width]
    ensures Get(s, at, width) == Get(t, at', width)
    decreases width
  {
    if width > 0 {
      assert s[at..at + width][0] == s[at] && t[at'..at' + width][0] == t[at'];
      assert s[at + 1..at + width] == s[at..at + width][1..];
      assert t[at' + 1..at' + width] == t[at'..at' + width][1..];
      GetSame(s, at + 1, t, at' + 1, width - 1);
    }
  }

  lemma {:induction false} GetBound(s: Bytes, at: nat, width: nat)
    requires at + width <= |s|
    ensures Get(s, at, width) < Range(width)
    decreases width
  {
    if width > 0 {
      GetBound(s, at + 1, width - 1);
    }
  }

  /** A write leaves every field it does not overlap. */
  lemma PutKeeps(s: Bytes, at: nat, width: nat, value: nat)
    requires at + width <= |s|
    ensures forall i: nat, w: nat {:trigger Get(Put(s, at, width, value), i, w)} ::
              i + w <= |s| && (i + w <= at || at + width <= i) ==> Get(Put(s, at, width, value), i, w) == Get(s, i, w)
  {
    var t := Put(s, at, width, value);
    forall i: nat, w: nat | i + w <= |s| && (i + w <= at || at + width <= i)
      ensures Get(t, i, w) == Get(s, i, w)
    {
      assert t[i..i + w] == s[i..i + w];
      GetSame(t, i, s, i, w);
    }
  }

  /** One write into a buffer: its own field holds the value, all others are as before. */
  lemma PutField(s: Bytes, at: nat, width: nat, value: nat) returns (t: Bytes)
    requires at + width <= |s|
    ensures t == Put(s, at, width, value)
    ensures value < Range(width) ==> Get(Put(s, at, width, value), at, width) == value
    ensures forall i: nat, w: nat {:trigger Get(Put(s, at, width, value), i, w)} ::
              i + w <= |s| && (i + w <= at || at + width <= i) ==> Get(Put(s, at, width, value), i, w) == Get(s, i, w)
  {
    t := Put(s, at, width, value);
    PutKeeps(s, at, width, value);
    if value < Range(width) { GetPut(s, at, width, value); }
  }

  lemma Ranges()
    ensures Range(2) == 0x1_0000 && Range(4) == 0x1_0000_0000
  {
    assert Range(1) == 256 && Range(0) == 1;
    assert Range(3) == 0x100_0000;
  }

  function Byte(n: nat): bv8 { (n % 256) as bv8 }

  lemma FirstTwo(s: Bytes, at: nat, width: nat, value: nat)
    requires 2 <= width && at + width <= |s|
    ensures Put(s, at, width, value)[at..at + 2] == [Byte(value), Byte(value / 256)]
    ensures width == 4 ==>
              Put(s, at, 4, value)[at + 2..at + 4] == [Byte(value / 256 / 256), Byte(value / 256 / 256 / 256)]
    decreases width
  {
    var t := s[at := Byte(value)];
    var u := t[at + 1 := Byte(value / 256)];
    assert Put(s, at, width, value) == Put(t, at + 1, width - 1, value / 256);
    assert Put(t, at + 1, width - 1, value / 256) == Put(u, at + 2, width - 2, value / 256 / 256);
    if width == 4 { FirstTwo(u, at + 2, 2, value / 256 / 256); }
  }

  /** Fields are written low byte first. */
  lemma LowByteFirst(s: Bytes, at: nat, value: nat)
    ensures at + 2 <= |s| ==> Put(s, at, 2, value)[at..at + 2] == [Byte(value), Byte(value / 0x100)]
    ensures at + 4 <= |s| ==>
              Put(s, at, 4, value)[at..at + 4]
              == [Byte(value), Byte(value / 0x100), Byte(value / 0x1_0000), Byte(value / 0x100_0000)]
  {
    hide Put, Byte;
    if at + 2 <= |s| { FirstTwo(s, at, 2, value); }
    if at + 4 <= |s| {
      FirstTwo(s, at, 4, value);
      var r := Put(s, at, 4, value);
      assert r[at..at + 4] == r[at..at + 2] + r[at + 2..at + 4];
    }
  }

  // ------------------------------------------------------------------ what the writer has to produce

  function Zeros(n: nat): (s: Bytes)
    ensures |s| == n && forall i :: 0 <= i < n ==> s[i] == 0
  {
    seq(n, _ => 0)
  }

  /** Uint8Array.set(name, at) on a buffer whose length is at + |name|. */
  function SetTail(s: Bytes, at: nat, tail: Bytes): Bytes
    requires |s| == at + |tail|
  {
    s[..at] + tail
  }

  function CrcField(data: Bytes): (crc: nat)
    ensures crc <= MAX32
  {
    BitSerial(data) as int
  }

  /** One header field: `width` bytes at offset `at`. */
  datatype Field = Field(at: nat, width: nat, value: nat)

  ghost predicate Within(fields: seq<Field>, size: nat) {
    forall k :: 0 <= k < |fields| ==> fields[k].at + fields[k].width <= size
  }

  /** The buffer after the first n writes of the list. */
  ghost function Fill(s: Bytes, fields: seq<Field>, n: nat): (r: Bytes)
    requires n <= |fields| && Within(fields, |s|)
    ensures |r| == |s|
  {
    if n == 0 then s else Put(Fill(s, fields, n - 1), fields[n - 1].at, fields[n - 1].width, fields[n - 1].value)
  }

  ghost function LocalFields(f: File, stamp: Stamp): (fields: seq<Field>)
    ensures Within(fields, 30) && |fields| == 10
  {
    [Field(0, 4, 0x04034b50), Field(4, 2, 20), Field(6, 2, 0x0800), Field(8, 2, 0),
     Field(10, 2, stamp.time), Field(12, 2, stamp.date), Field(14, 4, CrcField(f.data)),
     Field(18, 4, |f.data|), Field(22, 4, |f.data|), Field(26, 2, |f.name|)]
  }

  ghost function CentralFields(f: File, stamp: Stamp, offset: nat): (fields: seq<Field>)
    ensures Within(fields, 46) && |fields| == 12
  {
    [Field(0, 4, 0x02014b50), Field(4, 2, 20), Field(6, 2, 20), Field(8, 2, 0x0800), Field(10, 2, 0),
     Field(12, 2, stamp.time), Field(14, 2, stamp.date), Field(16, 4, CrcField(f.data)),
     Field(20, 4, |f.data|), Field(24, 4, |f.data|), Field(28, 2, |f.name|), Field(42, 4, offset)]
  }

  ghost function EndFields(count: nat, centralSize: nat, offset: nat): (fields: seq<Field>)
    ensures Within(fields, 22) && |fields| == 5
  {
    [Field(0, 4, 0x06054b50), Field(8, 2, count), Field(10, 2, count),
     Field(12, 4, centralSize), Field(16, 4, offset)]
  }

  ghost function Header(size: nat, fields: seq<Field>, name: Bytes): (h: Bytes)
    requires Within(fields, size)
    ensures |h| == size + |name|
  {
    SetTail(Fill(Zeros(size + |name|), fields, |fields|), size, name)
  }

  /** Header and bytes of every file, in turn. */
  ghost function LocalParts(files: seq<File>, stamp: Stamp): (parts: seq<Bytes>)
    ensures |parts| == 2 * |files|
  {
    if files == [] then []
    else
      var f := files[|files| - 1];
      LocalParts(files[..|files| - 1], stamp) + [Header(30, LocalFields(f, stamp), f.name), f.data]
  }

  ghost function CentralParts(files: seq<File>, stamp: Stamp): (parts: seq<Bytes>)
    ensures |parts| == |files|
  {
    if files == [] then []
    else
      var f, before := files[|files| - 1], files[..|files| - 1];
      CentralParts(before, stamp) + [Header(46, CentralFields(f, stamp, Offset(before, stamp)), f.name)]
  }

  /** Where the next local header goes once `files` are written. */
  ghost function Offset(files: seq<File>, stamp: Stamp): nat {
    |Concat(LocalParts(files, stamp), 2 * |files|)|
  }

  ghost function StoredZip(files: seq<File>, stamp: Stamp): Result<Bytes> {
    var locals := Concat(LocalParts(files, stamp), 2 * |files|);
    var centrals := Concat(CentralParts(files, stamp), |files|);
    if |locals| > MAX32 || |centrals| > MAX32 then TooLarge
    else Ok(locals + centrals + Header(22, EndFields(|files|, |centrals|, |locals|), []))
  }

  // ------------------------------------------------------------------ the program

  method SetUint(view: array<bv8>, at: nat, width: nat, value: nat)
    requires at + width <= view.Length
    modifies view
    ensures view[..] == Put(old(view[..]), at, width, value)
    decreases width
  {
    if width > 0 {
      view[at] := (value % 256) as bv8;
      assert view[..] == old(view[..])[at := (value % 256) as bv8];
      SetUint(view, at + 1, width - 1, value / 256);
    }
  }

  lemma NothingFilled(s: Bytes, fields: seq<Field>, size: nat)
    requires Within(fields, size) && size <= |s|
    ensures Within(fields, |s|) && Fill(s, fields, 0) == s
  {
  }

  /** One DataView write, carrying along which list of fields is being filled and how far. */
  method SetField(view: array<bv8>, at: nat, width: nat, value: nat, ghost plan: seq<Field>, ghost done: nat)
    requires done < |plan| && plan[done] == Field(at, width, value) && Within(plan, view.Length)
    requires view[..] == Fill(Zeros(view.Length), plan, done)
    modifies view
    ensures view[..] == Fill(Zeros(view.Length), plan, done + 1)
  {
    SetUint(view, at, width, value);
  }

  method SetBytes(view: array<bv8>, at: nat, tail: Bytes)
    requires view.Length == at + |tail|
    modifies view
    ensures view[..] == SetTail(old(view[..]), at, tail)
  {
    forall i | 0 <= i < |tail| {
      view[at + i] := tail[i];
    }
    assert view[..at] == old(view[..])[..at];
    assert view[at..] == tail;
    assert view[..] == view[..at] + view[at..];
  }

  method NewBuffer(n: nat) returns (view: array<bv8>)
    ensures fresh(view) && view[..] == Zeros(n) && view.Length == n
  {
    view := new bv8[n](_ => 0);
  }

  method WriteLocal(f: File, stamp: Stamp, checksum: nat) returns (local: array<bv8>)
    requires checksum == CrcField(f.data)
    ensures local[..] == Header(30, LocalFields(f, stamp), f.name)
  {
    hide CrcField, Fill, Within, Put, SetTail, Zeros;
    ghost var plan := LocalFields(f, stamp);
    local := NewBuffer(30 + |f.name|);
    NothingFilled(local[..], plan, 30);
    SetField(local, 0, 4, 0x04034b50, plan, 0);
    SetField(local, 4, 2, 20, plan, 1);
    SetField(local, 6, 2, 0x0800, plan, 2);
    SetField(local, 8, 2, 0, plan, 3);
    SetField(local, 10, 2, stamp.time, plan, 4);
    SetField(local, 12, 2, stamp.date, plan, 5);
    SetField(local, 14, 4, checksum, plan, 6);
    SetField(local, 18, 4, |f.data|, plan, 7);
    SetField(local, 22, 4, |f.data|, plan, 8);
    SetField(local, 26, 2, |f.name|, plan, 9);
    SetBytes(local, 30, f.name);
  }

  /** The second half of the central header's fields. */
  method WriteCentralSizes(central: array<bv8>, f: File, stamp: Stamp, checksum: nat, offset: nat)
    requires checksum == CrcField(f.data) && Within(CentralFields(f, stamp, offset), central.Length)
    requires central[..] == Fill(Zeros(central.Length), CentralFields(f, stamp, offset), 6)
    modifies central
    ensures central[..] == Fill(Zeros(central.Length), CentralFields(f, stamp, offset), 12)
  {
    hide CrcField, Fill, Within, Zeros;
    ghost var plan := CentralFields(f, stamp, offset);
    SetField(central, 14, 2, stamp.date, plan, 6);
    SetField(central, 16, 4, checksum, plan, 7);
    SetField(central, 20, 4, |f.data|, plan, 8);
    SetField(central, 24, 4, |f.data|, plan, 9);
    SetField(central, 28, 2, |f.name|, plan, 10);
    SetField(central, 42, 4, offset, plan, 11);
  }

  method WriteCentral(f: File, stamp: Stamp, checksum: nat, offset: nat) returns (central: array<bv8>)
    requires checksum == CrcField(f.data)
    ensures central[..] == Header(46, CentralFields(f, stamp, offset), f.name)
  {
    hide CrcField, Fill, Within, Put, SetTail, Zeros;
    ghost var plan := CentralFields(f, stamp, offset);
    central := NewBuffer(46 + |f.name|);
    NothingFilled(central[..], plan, 46);
    SetField(central, 0, 4, 0x02014b50, plan, 0);
    SetField(central, 4, 2, 20, plan, 1);
    SetField(central, 6, 2, 20, plan, 2);
    SetField(central, 8, 2, 0x0800, plan, 3);
    SetField(central, 10, 2, 0, plan, 4);
    SetField(central, 12, 2, stamp.time, plan, 5);
    WriteCentralSizes(central, f, stamp, checksum, offset);
    SetBytes(central, 46, f.name);
  }

  method WriteEnd(count: nat, centralSize: nat, offset: nat) returns (end: array<bv8>)
    ensures end[..] == Header(22, EndFields(count, centralSize, offset), [])
  {
    hide Fill, Within;
    ghost var plan := EndFields(count, centralSize, offset);
    end := NewBuffer(22);
    NothingFilled(end[..], plan, 22);
    SetField(end, 0, 4, 0x06054b50, plan, 0);
    SetField(end, 8, 2, count, plan, 1);
    SetField(end, 10, 2, count, plan, 2);
    SetField(end, 12, 4, centralSize, plan, 3);
    SetField(end, 16, 4, offset, plan, 4);
    assert end[..22] == end[..];
  }

  method Blob(parts: seq<Bytes>) returns (bytes: Bytes)
    ensures bytes == Concat(parts, |parts|)
  {
    bytes := [];
    for i := 0 to |parts|
      invariant bytes == Concat(parts, i)
    {
      bytes := bytes + parts[i];
    }
  }

  method TotalSize(parts: seq<Bytes>) returns (total: nat)
    ensures total == |Concat(parts, |parts|)|
  {
    total := 0;
    for i := 0 to |parts|
      invariant total == |Concat(parts, i)|
    {
      total := total + |parts[i]|;
    }
  }

  method ChecksumField(table: array<Word>, data: Bytes) returns (checksum: nat)
    requires IsTable(table[..])
    ensures checksum == CrcField(data)
  {
    var value := Checksum(table, data);
    checksum := value as int;
  }

  method Assemble(localParts: seq<Bytes>, centralParts: seq<Bytes>, count: nat, centralSize: nat, offset: nat)
    returns (bytes: Bytes)
    ensures bytes == Concat(localParts, |localParts|) + Concat(centralParts, |centralParts|)
                     + Header(22, EndFields(count, centralSize, offset), [])
  {
    hide Header, EndFields;
    var end := WriteEnd(count, centralSize, offset);
    bytes := Blob(localParts + centralParts + [end[..]]);
    ConcatOfMore(localParts, centralParts);
    ConcatOfMore(localParts + centralParts, [end[..]]);
    assert Concat([end[..]], 1) == Concat([end[..]], 0) + end[..] == end[..];
  }

  method WriteZip(files: seq<File>, stamp: Stamp) returns (zip: Result<Bytes>)
    ensures zip == StoredZip(files, stamp)
  {
    hide CrcField, Header, LocalFields, CentralFields, EndFields;
    var table := BuildTable();
    var localParts: seq<Bytes>, centralParts: seq<Bytes> := [], [];
    var offset := 0;
    for i := 0 to |files|
      invariant IsTable(table[..])
      invariant localParts == LocalParts(files[..i], stamp)
      invariant centralParts == CentralParts(files[..i], stamp)
      invariant offset == Offset(files[..i], stamp)
    {
      var checksum := ChecksumField(table, files[i].data);
      var local := WriteLocal(files[i], stamp, checksum);
      var central := WriteCentral(files[i], stamp, checksum, offset);
      assert files[..i + 1][..i] == files[..i];
      OffsetStep(files[..i + 1], stamp);
      localParts := localParts + [local[..], files[i].data];
      centralParts := centralParts + [central[..]];
      offset := offset + local.Length + |files[i].data|;
    }
    assert files[..|files|] == files;
    var centralSize := TotalSize(centralParts);
    if offset > MAX32 || centralSize > MAX32 {
      return TooLarge;
    }
    var bytes := Assemble(localParts, centralParts, |files|, centralSize, offset);
    zip := Ok(bytes);
  }

  lemma OffsetStep(files: seq<File>, stamp: Stamp)
    requires files != []
    ensures var n := |files| - 1;
            Offset(files, stamp) == Offset(files[..n], stamp) + 30 + |files[n].name| + |files[n].data|
  {
    hide LocalFields;
    var n := |files| - 1;
    var f := files[n];
    var more := [Header(30, LocalFields(f, stamp), f.name), f.data];
    ConcatOfMore(LocalParts(files[..n], stamp), more);
    assert Concat(more, 2) == Concat(more, 1) + more[1];
    assert Concat(more, 1) == Concat(more, 0) + more[0];
  }

  // ------------------------------------------------------------------ the reader

  /** The shared fields stand in the same order in both headers; `at` is the first of their 26 bytes. */
  function ReadEntry(a: Bytes, at: nat, nameAt: nat): Entry
    requires at + 26 <= |a| && nameAt + Get(a, at + 22, 2) <= |a|
  {
    Entry(Get(a, at, 2), Get(a, at + 2, 2), Get(a, at + 4, 2), Get(a, at + 6, 2), Get(a, at + 8, 2),
      Get(a, at + 10, 4), Get(a, at + 14, 4), Get(a, at + 18, 4), a[nameAt..nameAt + Get(a, at + 22, 2)])
  }

  /** A parsed central header: what it says, and where the next one starts. */
  datatype Central = Central(entry: Entry, madeBy: nat, inner: nat, outer: nat, offset: nat, next: nat)

  /** Only stored entries that begin on this disk. */
  function ReadCentral(a: Bytes, at: nat, end: nat): Option<Central>
    requires end <= |a|
  {
    if at + 46 > end || Get(a, at, 4) != 0x02014b50 then None
    else
      var n, m, k := Get(a, at + 28, 2), Get(a, at + 30, 2), Get(a, at + 32, 2);
      if at + 46 + n + m + k > end then None
      else
        var entry := ReadEntry(a, at + 6, at + 46);
        if entry.compression != 0 || entry.packed != entry.size || Get(a, at + 34, 2) != 0 then None
        else Some(Central(entry, Get(a, at + 4, 2), Get(a, at + 36, 2), Get(a, at + 38, 4), Get(a, at + 42, 4),
                          at + 46 + n + m + k))
  }

  /** The local header at `at` has to repeat the directory's entry; returns the file bytes and their end. */
  function ReadLocal(a: Bytes, at: nat, end: nat, entry: Entry): Option<(Bytes, nat)>
    requires end <= |a|
  {
    hide Get, ReadEntry;
    if at + 30 > end || Get(a, at, 4) != 0x04034b50 then None
    else
      var n, m := Get(a, at + 26, 2), Get(a, at + 28, 2);
      var start := at + 30 + n + m;
      if start + entry.size > end then None
      else if ReadEntry(a, at + 4, at + 30) != entry then None
      else Some((a[start..start + entry.size], start + entry.size))
  }

  /** Reads `count` entries; the directory must fill [centralAt, end) and the regions [localAt, start). */
  function ReadRecords(a: Bytes, count: nat, centralAt: nat, end: nat, localAt: nat, start: nat): Option<seq<Record>>
    requires end <= |a| && start <= |a|
    decreases count
  {
    if count == 0 then if centralAt == end && localAt == start then Some([]) else None
    else
      match ReadCentral(a, centralAt, end)
      case None => None
      case Some(c) =>
        if c.offset != localAt then None
        else
          match ReadLocal(a, localAt, start, c.entry)
          case None => None
          case Some((data, next)) =>
            if CrcField(data) != c.entry.crc then None
            else
              match ReadRecords(a, count - 1, c.next, end, next, start)
              case None => None
              case Some(rest) => Some([Record(c.entry, c.madeBy, c.inner, c.outer, data)] + rest)
  }

  /** One disk, the same number of entries on it as in all, and no comment. */
  function ReadArchive(a: Bytes): Option<seq<Record>> {
    if |a| < 22 || Get(a, |a| - 22, 4) != 0x06054b50 then None
    else
      var e := |a| - 22;
      var count, size, start := Get(a, e + 10, 2), Get(a, e + 12, 4), Get(a, e + 16, 4);
      if Get(a, e + 4, 2) != 0 || Get(a, e + 6, 2) != 0 || Get(a, e + 8, 2) != count || Get(a, e + 20, 2) != 0 then None
      else if start + size != e then None
      else ReadRecords(a, count, start, e, 0, start)
  }

  /** Version 2.0, a UTF-8 name (bit 11), stored. */
  function EntryOf(f: File, stamp: Stamp): Entry {
    Entry(20, 0x0800, 0, stamp.time, stamp.date, BitSerial(f.data) as int, |f.data|, |f.data|, f.name)
  }

  function Contents(files: seq<File>, stamp: Stamp): (r: seq<Record>)
    ensures |r| == |files|
    ensures forall i :: 0 <= i < |files| ==> r[i] == Record(EntryOf(files[i], stamp), 20, 0, 0, files[i].data)
  {
    seq(|files|, i requires 0 <= i < |files| => Record(EntryOf(files[i], stamp), 20, 0, 0, files[i].data))
  }

  // ------------------------------------------------------------------ what the headers say

  lemma TailKeepsFields(s: Bytes, at: nat, tail: Bytes)
    requires |s| == at + |tail|
    ensures forall i: nat, w: nat {:trigger Get(SetTail(s, at, tail), i, w)} ::
              i + w <= at ==> Get(SetTail(s, at, tail), i, w) == Get(s, i, w)
  {
    forall i: nat, w: nat | i + w <= at ensures Get(SetTail(s, at, tail), i, w) == Get(s, i, w) {
      assert SetTail(s, at, tail)[i..i + w] == s[i..i + w];
      GetSame(SetTail(s, at, tail), i, s, i, w);
    }
  }

  lemma ZeroField(n: nat, i: nat, w: nat)
    requires i + w <= n
    ensures Get(Zeros(n), i, w) == 0
    decreases w
  {
    if w > 0 { ZeroField(n, i + 1, w - 1); }
  }

  /** Fields that do not overlap all read back, whatever order they were written in. */
  lemma {:induction false} FilledField(s: Bytes, fields: seq<Field>, n: nat, k: nat)
    requires k < n <= |fields| && Within(fields, |s|)
    requires forall i, j :: 0 <= i < j < |fields| ==> fields[i].at + fields[i].width <= fields[j].at
    requires fields[k].value < Range(fields[k].width)
    ensures Get(Fill(s, fields, n), fields[k].at, fields[k].width) == fields[k].value
    decreases n
  {
    var last := fields[n - 1];
    var t := PutField(Fill(s, fields, n - 1), last.at, last.width, last.value);
    if k < n - 1 { FilledField(s, fields, n - 1, k); }
  }

  lemma {:induction false} UnfilledField(s: Bytes, fields: seq<Field>, n: nat, at: nat, width: nat)
    requires n <= |fields| && Within(fields, |s|) && at + width <= |s|
    requires forall i :: 0 <= i < |fields| ==> fields[i].at + fields[i].width <= at || at + width <= fields[i].at
    ensures Get(Fill(s, fields, n), at, width) == Get(s, at, width)
    decreases n
  {
    if n > 0 {
      var last := fields[n - 1];
      var t := PutField(Fill(s, fields, n - 1), last.at, last.width, last.value);
      UnfilledField(s, fields, n - 1, at, width);
    }
  }

  /** Every field of a header reads back, and the bytes between its fields are zero. */
  lemma HeaderFields(size: nat, fields: seq<Field>, name: Bytes)
    requires Within(fields, size)
    requires forall i, j :: 0 <= i < j < |fields| ==> fields[i].at + fields[i].width <= fields[j].at
    ensures var h := Header(size, fields, name);
            && (forall k :: 0 <= k < |fields| && fields[k].value < Range(fields[k].width) ==>
                 Get(h, fields[k].at, fields[k].width) == fields[k].value)
            && h[size..] == name
    ensures forall at: nat, width: nat {:trigger Get(Header(size, fields, name), at, width)} ::
              at + width <= size
              && (forall i :: 0 <= i < |fields| ==> fields[i].at + fields[i].width <= at || at + width <= fields[i].at)
              ==> Get(Header(size, fields, name), at, width) == 0
  {
    var s := Zeros(size + |name|);
    TailKeepsFields(Fill(s, fields, |fields|), size, name);
    forall k | 0 <= k < |fields| && fields[k].value < Range(fields[k].width)
      ensures Get(Header(size, fields, name), fields[k].at, fields[k].width) == fields[k].value
    {
      FilledField(s, fields, |fields|, k);
    }
    forall at: nat, width: nat
      | at + width <= size
        && forall i :: 0 <= i < |fields| ==> fields[i].at + fields[i].width <= at || at + width <= fields[i].at
      ensures Get(Header(size, fields, name), at, width) == 0
    {
      UnfilledField(s, fields, |fields|, at, width);
      ZeroField(|s|, at, width);
    }
  }

  /** Every field of a local header (section 4.3.7). */
  ghost predicate LocalSays(h: Bytes, f: File, stamp: Stamp) {
    && |h| == 30 + |f.name| && h[30..] == f.name && Get(h, 0, 4) == 0x04034b50
    && Get(h, 4, 2) == 20 && Get(h, 6, 2) == 0x0800 && Get(h, 8, 2) == 0
    && Get(h, 10, 2) == stamp.time && Get(h, 12, 2) == stamp.date && Get(h, 14, 4) == CrcField(f.data)
    && Get(h, 18, 4) == |f.data| == Get(h, 22, 4) && Get(h, 26, 2) == |f.name| && Get(h, 28, 2) == 0
  }

  /** Every field of a directory header (section 4.3.12). */
  ghost predicate CentralSays(h: Bytes, f: File, stamp: Stamp, offset: nat) {
    && |h| == 46 + |f.name| && h[46..] == f.name && Get(h, 0, 4) == 0x02014b50 && Get(h, 4, 2) == 20
    && Get(h, 6, 2) == 20 && Get(h, 8, 2) == 0x0800 && Get(h, 10, 2) == 0
    && Get(h, 12, 2) == stamp.time && Get(h, 14, 2) == stamp.date && Get(h, 16, 4) == CrcField(f.data)
    && Get(h, 20, 4) == |f.data| == Get(h, 24, 4) && Get(h, 28, 2) == |f.name| && Get(h, 30, 2) == 0
    && Get(h, 32, 2) == 0 && Get(h, 34, 2) == 0 && Get(h, 36, 2) == 0 && Get(h, 38, 4) == 0 && Get(h, 42, 4) == offset
  }

  lemma LocalHeaderSays(f: File, stamp: Stamp)
    requires Fits(f, stamp) && |f.data| <= MAX32
    ensures LocalSays(Header(30, LocalFields(f, stamp), f.name), f, stamp)
  {
    hide CrcField, Put, Get, Header;
    Ranges();
    var fields := LocalFields(f, stamp);
    HeaderFields(30, fields, f.name);
    assert fields[0].at == 0 && fields[1].at == 4 && fields[2].at == 6 && fields[3].at == 8 && fields[4].at == 10;
    assert fields[5].at == 12 && fields[6].at == 14 && fields[7].at == 18 && fields[8].at == 22 && fields[9].at == 26;
  }

  lemma CentralHeaderSays(f: File, stamp: Stamp, offset: nat)
    requires Fits(f, stamp) && |f.data| <= MAX32 && offset <= MAX32
    ensures CentralSays(Header(46, CentralFields(f, stamp, offset), f.name), f, stamp, offset)
  {
    hide CrcField, Put, Get, Header, Fill;
    Ranges();
    var fields := CentralFields(f, stamp, offset);
    HeaderFields(46, fields, f.name);
    assert fields[0].at == 0 && fields[1].at == 4 && fields[2].at == 6 && fields[3].at == 8 && fields[4].at == 10;
    assert fields[5].at == 12 && fields[6].at == 14 && fields[7].at == 16 && fields[8].at == 20 && fields[9].at == 24;
    assert fields[10].at == 28 && fields[11].at == 42;
  }

  // ------------------------------------------------------------------ where everything lies

  /** `part` stands in `a` at position `at`. */
  ghost predicate Holds(a: Bytes, at: nat, part: Bytes) {
    at + |part| <= |a| && a[at..at + |part|] == part
  }

  lemma FieldsOfPart(a: Bytes, at: nat, part: Bytes)
    requires Holds(a, at, part)
    ensures forall i: nat, w: nat {:trigger Get(part, i, w)} :: i + w <= |part| ==> Get(a, at + i, w) == Get(part, i, w)
    ensures forall i: nat {:trigger part[i..]} :: i <= |part| ==> a[at + i..at + |part|] == part[i..]
  {
    forall i | 0 <= i < |part| ensures a[at + i] == part[i] {
      assert a[at + i] == a[at..at + |part|][i];
    }
    forall i: nat, w: nat | i + w <= |part| ensures Get(a, at + i, w) == Get(part, i, w) {
      assert a[at + i..at + i + w] == part[i..i + w];
      GetSame(a, at + i, part, i, w);
    }
  }

  lemma {:induction false} ConcatGrows(parts: seq<Bytes>, k: nat, n: nat)
    requires k <= n <= |parts|
    ensures Concat(parts, k) <= Concat(parts, n)
    decreases n - k
  {
    if k < n { ConcatGrows(parts, k, n - 1); }
  }

  /** Part k of a concatenation stands right behind the parts before it. */
  lemma PartHolds(parts: seq<Bytes>, k: nat, before: Bytes, after: Bytes)
    requires k < |parts|
    ensures Holds(before + Concat(parts, |parts|) + after, |before| + |Concat(parts, k)|, parts[k])
    ensures |Concat(parts, k + 1)| == |Concat(parts, k)| + |parts[k]| <= |Concat(parts, |parts|)|
  {
    ConcatGrows(parts, k + 1, |parts|);
    var all, upto := before + Concat(parts, |parts|) + after, before + Concat(parts, k);
    assert upto + parts[k] == before + Concat(parts, k + 1) <= all;
    assert all[|upto|..|upto| + |parts[k]|] == (upto + parts[k])[|upto|..|upto| + |parts[k]|];
  }

  lemma {:induction false} PartsOf(files: seq<File>, stamp: Stamp, i: nat)
    requires i < |files|
    ensures LocalParts(files, stamp)[2 * i] == Header(30, LocalFields(files[i], stamp), files[i].name)
    ensures LocalParts(files, stamp)[2 * i + 1] == files[i].data
    ensures Concat(LocalParts(files, stamp), 2 * i) == Concat(LocalParts(files[..i], stamp), 2 * i)
    ensures CentralParts(files, stamp)[i] ==
        Header(46, CentralFields(files[i], stamp, Offset(files[..i], stamp)), files[i].name)
    decreases |files|
  {
    hide CrcField, Put, Get, Header, LocalFields, CentralFields;
    var n := |files| - 1;
    var f := files[n];
    var more := [Header(30, LocalFields(f, stamp), f.name), f.data];
    assert LocalParts(files, stamp) == LocalParts(files[..n], stamp) + more;
    ConcatOfPrefix(LocalParts(files[..n], stamp), more, 2 * i);
    if i < n {
      assert files[..n][..i] == files[..i];
      PartsOf(files[..n], stamp, i);
    }
  }

  /** Where file i's two regions and its directory entry stand. */
  ghost predicate Laid(a: Bytes, f: File, stamp: Stamp, at: nat, next: nat, centralAt: nat, centralNext: nat) {
    && Holds(a, at, Header(30, LocalFields(f, stamp), f.name))
    && Holds(a, at + 30 + |f.name|, f.data)
    && next == at + 30 + |f.name| + |f.data|
    && Holds(a, centralAt, Header(46, CentralFields(f, stamp, at), f.name))
    && centralNext == centralAt + 46 + |f.name|
  }

  ghost function CentralAt(files: seq<File>, stamp: Stamp, i: nat): nat
    requires i <= |files|
  {
    Offset(files, stamp) + |Concat(CentralParts(files, stamp), i)|
  }

  lemma OffsetOf(files: seq<File>, stamp: Stamp, i: nat)
    requires i <= |files|
    ensures Offset(files[..i], stamp) == |Concat(LocalParts(files, stamp), 2 * i)| <= Offset(files, stamp)
  {
    if i < |files| { PartsOf(files, stamp, i); } else { assert files[..i] == files; }
    ConcatGrows(LocalParts(files, stamp), 2 * i, 2 * |files|);
  }

  /** The layout of a finished archive: local regions from 0 on, the directory right behind them, the end
      record last, nothing in between; and every 32-bit field is wide enough for its value. */
  lemma Layout(files: seq<File>, stamp: Stamp, a: Bytes)
    requires StoredZip(files, stamp) == Ok(a)
    ensures var locals, centrals := LocalParts(files, stamp), CentralParts(files, stamp);
            var end := Header(22, EndFields(|files|, |Concat(centrals, |files|)|, Offset(files, stamp)), []);
            && a == [] + Concat(locals, |locals|) + (Concat(centrals, |centrals|) + end)
            && a == Concat(locals, |locals|) + Concat(centrals, |centrals|) + end
            && Offset(files, stamp) == |Concat(locals, |locals|)| <= MAX32
            && CentralAt(files, stamp, |files|) == |a| - 22
            && CentralAt(files, stamp, 0) == Offset(files, stamp)
  {
    hide CrcField, Header, LocalFields, CentralFields, EndFields, LocalParts, CentralParts;
  }

  lemma LocalTiling(files: seq<File>, stamp: Stamp, after: Bytes, i: nat)
    requires i < |files|
    ensures var a, at := [] + Concat(LocalParts(files, stamp), 2 * |files|) + after, Offset(files[..i], stamp);
            && Holds(a, at, Header(30, LocalFields(files[i], stamp), files[i].name))
            && Holds(a, at + 30 + |files[i].name|, files[i].data)
            && Offset(files[..i + 1], stamp) == at + 30 + |files[i].name| + |files[i].data|
  {
    hide CrcField, Header, LocalFields, LocalParts, Holds, Concat, Offset;
    var locals := LocalParts(files, stamp);
    PartsOf(files, stamp, i);
    OffsetOf(files, stamp, i);
    OffsetOf(files, stamp, i + 1);
    PartHolds(locals, 2 * i, [], after);
    PartHolds(locals, 2 * i + 1, [], after);
  }

  lemma CentralTiling(files: seq<File>, stamp: Stamp, before: Bytes, after: Bytes, i: nat)
    requires i < |files| && |before| == Offset(files, stamp)
    ensures var a, f := before + Concat(CentralParts(files, stamp), |files|) + after, files[i];
            && Holds(a, CentralAt(files, stamp, i),
              Header(46, CentralFields(f, stamp, Offset(files[..i], stamp)), f.name))
            && CentralAt(files, stamp, i + 1) == CentralAt(files, stamp, i) + 46 + |f.name|
            && CentralAt(files, stamp, i + 1) <= CentralAt(files, stamp, |files|)
  {
    hide CrcField, Header, CentralFields, LocalParts, Offset, Holds;
    PartsOf(files, stamp, i);
    PartHolds(CentralParts(files, stamp), i, before, after);
  }

  /** No gap and no overlap: file i's header, bytes and directory entry stand where the offsets say, each local
      region ends where the next begins, and so does each entry. */
  lemma Tiling(files: seq<File>, stamp: Stamp, a: Bytes, i: nat)
    requires StoredZip(files, stamp) == Ok(a) && i < |files|
    ensures Laid(a, files[i], stamp, Offset(files[..i], stamp), Offset(files[..i + 1], stamp),
                 CentralAt(files, stamp, i), CentralAt(files, stamp, i + 1))
    ensures Offset(files[..i + 1], stamp) <= Offset(files, stamp) <= MAX32
    ensures CentralAt(files, stamp, i + 1) <= CentralAt(files, stamp, |files|) == |a| - 22
    ensures Offset(files[..0], stamp) == 0 && CentralAt(files, stamp, 0) == Offset(files, stamp)
  {
    hide CrcField, Header, LocalFields, CentralFields, EndFields, LocalParts, CentralParts, StoredZip, Holds, Concat;
    var locals, centrals := LocalParts(files, stamp), CentralParts(files, stamp);
    var end := Header(22, EndFields(|files|, |Concat(centrals, |files|)|, Offset(files, stamp)), []);
    Layout(files, stamp, a);
    OffsetOf(files, stamp, i + 1);
    LocalTiling(files, stamp, Concat(centrals, |centrals|) + end, i);
    CentralTiling(files, stamp, Concat(locals, |locals|), end, i);
    NoFiles(files, stamp);
  }

  lemma NoFiles(files: seq<File>, stamp: Stamp)
    ensures Offset(files[..0], stamp) == 0
    ensures CentralAt(files, stamp, 0) == Offset(files, stamp)
  {
  }

  // ------------------------------------------------------------------ the round trip

  /** The file's 16-bit fields are wide enough. */
  ghost predicate Fits(f: File, stamp: Stamp) {
    |f.name| < 0x1_0000 && stamp.date < 0x1_0000 && stamp.time < 0x1_0000
  }

  ghost predicate FieldsFit(files: seq<File>, stamp: Stamp) {
    |files| < 0x1_0000 && forall i :: 0 <= i < |files| ==> Fits(files[i], stamp)
  }

  lemma ReadsCentral(a: Bytes, at: nat, end: nat, f: File, stamp: Stamp, offset: nat, h: Bytes)
    requires end <= |a| && at + 46 + |f.name| <= end
    requires Holds(a, at, h) && CentralSays(h, f, stamp, offset)
    ensures ReadCentral(a, at, end) == Some(Central(EntryOf(f, stamp), 20, 0, 0, offset, at + 46 + |f.name|))
  {
    hide Get, BitSerial;
    FieldsOfPart(a, at, h);
  }

  lemma ReadsLocal(a: Bytes, at: nat, end: nat, f: File, stamp: Stamp, h: Bytes)
    requires end <= |a| && at + 30 + |f.name| + |f.data| <= end
    requires Holds(a, at, h) && LocalSays(h, f, stamp) && Holds(a, at + 30 + |f.name|, f.data)
    ensures ReadLocal(a, at, end, EntryOf(f, stamp)) == Some((f.data, at + 30 + |f.name| + |f.data|))
  {
    hide Get, BitSerial;
    FieldsOfPart(a, at, h);
  }

  ghost function CentralOf(files: seq<File>, stamp: Stamp, i: nat): Central
    requires i < |files|
  {
    Central(EntryOf(files[i], stamp), 20, 0, 0, Offset(files[..i], stamp), CentralAt(files, stamp, i + 1))
  }

  lemma ReadOne(files: seq<File>, stamp: Stamp, a: Bytes, i: nat)
    requires StoredZip(files, stamp) == Ok(a) && FieldsFit(files, stamp) && i < |files|
    ensures |a| >= 22 && Offset(files, stamp) <= |a|
    ensures ReadCentral(a, CentralAt(files, stamp, i), |a| - 22) == Some(CentralOf(files, stamp, i))
    ensures ReadLocal(a, Offset(files[..i], stamp), Offset(files, stamp), EntryOf(files[i], stamp))
            == Some((files[i].data, Offset(files[..i + 1], stamp)))
  {
    hide CrcField, Get, ReadCentral, ReadLocal, Header, LocalFields, CentralFields, EndFields, LocalSays, CentralSays,
      Concat, EntryOf;
    Tiling(files, stamp, a, i);
    var f, at := files[i], Offset(files[..i], stamp);
    LocalHeaderSays(f, stamp);
    CentralHeaderSays(f, stamp, at);
    var central := Header(46, CentralFields(f, stamp, at), f.name);
    ReadsCentral(a, CentralAt(files, stamp, i), |a| - 22, f, stamp, at, central);
    ReadsLocal(a, at, Offset(files, stamp), f, stamp, Header(30, LocalFields(f, stamp), f.name));
  }

  lemma {:induction false} ReadBack(files: seq<File>, stamp: Stamp, a: Bytes, i: nat)
    requires StoredZip(files, stamp) == Ok(a) && FieldsFit(files, stamp) && i <= |files|
    requires |a| >= 22 && Offset(files, stamp) <= |a| && CentralAt(files, stamp, |files|) == |a| - 22
    ensures ReadRecords(a, |files| - i, CentralAt(files, stamp, i), |a| - 22, Offset(files[..i], stamp),
        Offset(files, stamp))
            == Some(Contents(files, stamp)[i..])
    decreases |files| - i
  {
    hide BitSerial, ReadCentral, ReadLocal, Offset, CentralAt, StoredZip, FieldsFit;
    if i == |files| {
      assert files[..i] == files;
      assert Contents(files, stamp)[i..] == [];
    } else {
      ReadBack(files, stamp, a, i + 1);
      ReadOne(files, stamp, a, i);
      assert Contents(files, stamp)[i..] == [Contents(files, stamp)[i]] + Contents(files, stamp)[i + 1..];
    }
  }

  /** The 16-bit fields of an entry that was read are below 65536. */
  ghost predicate Bounded(entry: Entry) {
    |entry.name| < 0x1_0000 && entry.date < 0x1_0000 && entry.time < 0x1_0000
  }

  lemma CentralIsBounded(a: Bytes, at: nat, end: nat)
    requires end <= |a| && ReadCentral(a, at, end).Some?
    ensures Bounded(ReadCentral(a, at, end).value.entry)
  {
    hide Get;
    Ranges();
    GetBound(a, at + 12, 2);
    GetBound(a, at + 14, 2);
    GetBound(a, at + 28, 2);
  }

  /** A reader's answer has as many records as it was asked for, and all their entries are bounded. */
  lemma {:induction false} RecordsAreBounded(a: Bytes, count: nat, centralAt: nat, end: nat, localAt: nat, start: nat)
    requires end <= |a| && start <= |a|
    requires ReadRecords(a, count, centralAt, end, localAt, start).Some?
    ensures var r := ReadRecords(a, count, centralAt, end, localAt, start).value;
            |r| == count && forall i :: 0 <= i < |r| ==> Bounded(r[i].entry)
    decreases count
  {
    hide CrcField, Get, ReadCentral, ReadLocal, Bounded;
    if count > 0 {
      CentralIsBounded(a, centralAt, end);
      var c := ReadCentral(a, centralAt, end).value;
      var next := ReadLocal(a, localAt, start, c.entry).value.1;
      RecordsAreBounded(a, count - 1, c.next, end, next, start);
    }
  }

  /** Every field of the end record (section 4.3.16), at the place where a reader looks for it. */
  ghost predicate EndSays(a: Bytes, count: nat, centralAt: nat) {
    && |a| >= 22 && Get(a, |a| - 22, 4) == 0x06054b50
    && Get(a, |a| - 18, 2) == 0 && Get(a, |a| - 16, 2) == 0
    && (count < 0x1_0000 ==> Get(a, |a| - 14, 2) == count == Get(a, |a| - 12, 2))
    && centralAt <= |a| - 22 && Get(a, |a| - 10, 4) == |a| - 22 - centralAt
    && Get(a, |a| - 6, 4) == centralAt && Get(a, |a| - 2, 2) == 0
  }

  lemma EndHeaderSays(count: nat, centralSize: nat, offset: nat)
    requires centralSize <= MAX32 && offset <= MAX32
    ensures var h := Header(22, EndFields(count, centralSize, offset), []);
            && |h| == 22 && Get(h, 0, 4) == 0x06054b50 && Get(h, 4, 2) == 0 && Get(h, 6, 2) == 0
            && (count < 0x1_0000 ==> Get(h, 8, 2) == count == Get(h, 10, 2))
            && Get(h, 12, 4) == centralSize && Get(h, 16, 4) == offset && Get(h, 20, 2) == 0
  {
    hide Get, Put, Header;
    Ranges();
    var fields := EndFields(count, centralSize, offset);
    HeaderFields(22, fields, []);
    assert fields[0].at == 0 && fields[1].at == 8 && fields[2].at == 10 && fields[3].at == 12 && fields[4].at == 16;
  }

  lemma EndRecordReads(files: seq<File>, stamp: Stamp)
    requires StoredZip(files, stamp).Ok?
    ensures var a := StoredZip(files, stamp).value;
            EndSays(a, |files|, Offset(files, stamp)) && CentralAt(files, stamp, |files|) == |a| - 22
  {
    hide CrcField, Get, Header, EndFields;
    var a := StoredZip(files, stamp).value;
    var centralSize := |Concat(CentralParts(files, stamp), |files|)|;
    var end := Header(22, EndFields(|files|, centralSize, Offset(files, stamp)), []);
    EndHeaderSays(|files|, centralSize, Offset(files, stamp));
    assert Holds(a, |a| - 22, end);
    EndOfPart(a, end);
  }

  lemma EndOfPart(a: Bytes, end: Bytes)
    requires |a| >= 22 == |end| && Holds(a, |a| - 22, end)
    ensures Get(a, |a| - 22, 4) == Get(end, 0, 4)
    ensures Get(a, |a| - 18, 2) == Get(end, 4, 2) && Get(a, |a| - 16, 2) == Get(end, 6, 2)
    ensures Get(a, |a| - 14, 2) == Get(end, 8, 2) && Get(a, |a| - 12, 2) == Get(end, 10, 2)
    ensures Get(a, |a| - 10, 4) == Get(end, 12, 4) && Get(a, |a| - 6, 4) == Get(end, 16, 4)
    ensures Get(a, |a| - 2, 2) == Get(end, 20, 2)
  {
    hide Get;
    FieldsOfPart(a, |a| - 22, end);
  }

  lemma ReadableHasFittingFields(files: seq<File>, stamp: Stamp, a: Bytes)
    requires ReadArchive(a) == Some(Contents(files, stamp))
    ensures FieldsFit(files, stamp)
  {
    hide BitSerial, Get, ReadCentral, ReadLocal;
    var e := |a| - 22;
    Ranges();
    GetBound(a, e + 10, 2);
    RecordsAreBounded(a, Get(a, e + 10, 2), Get(a, e + 16, 4), e, 0, Get(a, e + 16, 4));
    forall i | 0 <= i < |files| ensures Fits(files[i], stamp) {
      assert Contents(files, stamp)[i].entry == EntryOf(files[i], stamp);
    }
  }

  /** When storedZip does not throw, the reader recovers every file's bytes and header fields in order exactly when
      the 16-bit fields can hold the file count, every name length and the two words of the time stamp. */
  lemma RoundTrip(files: seq<File>, stamp: Stamp)
    requires StoredZip(files, stamp).Ok?
    ensures ReadArchive(StoredZip(files, stamp).value) == Some(Contents(files, stamp)) <==> FieldsFit(files, stamp)
  {
    hide CrcField, Get, ReadCentral, ReadLocal, ReadRecords, StoredZip, Offset, CentralAt, Concat, FieldsFit;
    var a := StoredZip(files, stamp).value;
    EndRecordReads(files, stamp);
    NoFiles(files, stamp);
    if FieldsFit(files, stamp) {
      CountFits(files, stamp);
      ReadBack(files, stamp, a, 0);
      assert Contents(files, stamp)[0..] == Contents(files, stamp);
      assert files[..0] == [];
    }
    if ReadArchive(a) == Some(Contents(files, stamp)) { ReadableHasFittingFields(files, stamp, a); }
  }

  lemma CountFits(files: seq<File>, stamp: Stamp)
    requires FieldsFit(files, stamp)
    ensures |files| < 0x1_0000
  {
  }

  // ------------------------------------------------------------------ the time stamp

  /** What the clock shows, in local time. */
  datatype Clock = Clock(year: int, month: int, day: int, hour: int, minute: int, second: int)

  ghost predicate IsClock(c: Clock) {
    1 <= c.month <= 12 && 1 <= c.day <= 31 && 0 <= c.hour < 24 && 0 <= c.minute < 60 && 0 <= c.second < 60
  }

  function YearShown(c: Clock): int { if c.year < 1980 then 1980 else c.year }

  /** The shifted parts do not overlap, so joining them is adding them. */
  function ZipTimestamp(c: Clock): Stamp
    requires IsClock(c)
  {
    Stamp((YearShown(c) - 1980) * 512 + c.month * 32 + c.day, c.hour * 2048 + c.minute * 32 + c.second / 2)
  }

  /** The MS-DOS reading of the two words (section 4.4.6). */
  function ReadStamp(date: nat, time: nat): Clock {
    Clock(1980 + date / 512, date / 32 % 16, date % 32, time / 2048, time / 32 % 64, time % 32 * 2)
  }

  /** To two seconds; years before 1980 become 1980. */
  function Rounded(c: Clock): Clock {
    c.(year := YearShown(c), second := c.second - c.second % 2)
  }

  lemma DateParts(years: nat, month: nat, day: nat)
    requires month < 16 && day < 32
    ensures var date := years * 512 + month * 32 + day;
            date / 512 == years && date / 32 % 16 == month && date % 32 == day
  {
    var date := years * 512 + month * 32 + day;
    assert date / 32 == years * 16 + month;
  }

  lemma TimeParts(hour: nat, minute: nat, half: nat)
    requires minute < 64 && half < 32
    ensures var time := hour * 2048 + minute * 32 + half;
            time / 2048 == hour && time / 32 % 64 == minute && time % 32 == half
  {
    var time := hour * 2048 + minute * 32 + half;
    assert time / 32 == hour * 64 + minute;
  }

  lemma DateFits(c: Clock)
    requires IsClock(c)
    ensures ZipTimestamp(c).date < 0x1_0000 <==> c.year < 2108
    ensures ZipTimestamp(c).time < 0x1_0000
  {
  }

  /** Sixteen bits hold no year after 2107. */
  lemma LastYear(word: nat)
    requires word < 0x1_0000
    ensures 1980 + word / 512 <= 2107
  {
  }

  lemma StampReads(c: Clock)
    requires IsClock(c)
    ensures ReadStamp(ZipTimestamp(c).date, ZipTimestamp(c).time) == Rounded(c)
  {
    DateParts(YearShown(c) - 1980, c.month, c.day);
    TimeParts(c.hour, c.minute, c.second / 2);
  }

  /** The 16-bit words give the clock back, to two seconds, exactly when the year is below 2108. */
  lemma StampRoundTrip(c: Clock)
    requires IsClock(c)
    ensures ZipTimestamp(c).time < 0x1_0000
    ensures ZipTimestamp(c).date < 0x1_0000 <==> c.year < 2108
    ensures ReadStamp(ZipTimestamp(c).date % 0x1_0000, ZipTimestamp(c).time % 0x1_0000) == Rounded(c) <==> c.year < 2108
  {
    DateFits(c);
    StampReads(c);
    LastYear(ZipTimestamp(c).date % 0x1_0000);
    YearRead(ZipTimestamp(c).date % 0x1_0000, ZipTimestamp(c).time % 0x1_0000);
    SmallStays(ZipTimestamp(c).date);
    SmallStays(ZipTimestamp(c).time);
    hide ZipTimestamp, ReadStamp;
  }

  lemma YearRead(date: nat, time: nat)
    ensures ReadStamp(date, time).year == 1980 + date / 512
  {
  }

  lemma SmallStays(word: nat)
    ensures word < 0x1_0000 ==> word % 0x1_0000 == word
  {
  }

  lemma HeadersHoldStamp(f: File, stamp: Stamp, offset: nat)
    requires stamp.date < 0x1_0000 && stamp.time < 0x1_0000
    ensures var h := Header(30, LocalFields(f, stamp), f.name);
            Get(h, 10, 2) == stamp.time && Get(h, 12, 2) == stamp.date
    ensures var h := Header(46, CentralFields(f, stamp, offset), f.name);
            Get(h, 12, 2) == stamp.time && Get(h, 14, 2) == stamp.date
  {
    hide CrcField, Put, Get, Header;
    Ranges();
    var local, central := LocalFields(f, stamp), CentralFields(f, stamp, offset);
    HeaderFields(30, local, f.name);
    HeaderFields(46, central, f.name);
    assert local[4] == Field(10, 2, stamp.time) && local[5] == Field(12, 2, stamp.date);
    assert central[5] == Field(12, 2, stamp.time) && central[6] == Field(14, 2, stamp.date);
  }

  /** Before 2108, both headers of every file in the archive carry the time of packing, to two seconds. */
  lemma ArchiveCarriesClock(files: seq<File>, c: Clock, a: Bytes, i: nat)
    requires IsClock(c) && c.year < 2108 && StoredZip(files, ZipTimestamp(c)) == Ok(a) && i < |files|
    ensures var stamp := ZipTimestamp(c);
            var local, central := Offset(files[..i], stamp), CentralAt(files, stamp, i);
            && local + 14 <= |a| && central + 16 <= |a|
            && ReadStamp(Get(a, local + 12, 2), Get(a, local + 10, 2)) == Rounded(c)
            && ReadStamp(Get(a, central + 14, 2), Get(a, central + 12, 2)) == Rounded(c)
  {
    hide CrcField, Get, Header, LocalFields, CentralFields, EndFields, StoredZip, Offset, CentralAt, ZipTimestamp,
      ReadStamp, Rounded;
    var stamp := ZipTimestamp(c);
    var local, central := Offset(files[..i], stamp), CentralAt(files, stamp, i);
    StampRoundTrip(c);
    Tiling(files, stamp, a, i);
    HeadersHoldStamp(files[i], stamp, local);
    FieldsOfPart(a, local, Header(30, LocalFields(files[i], stamp), files[i].name));
    FieldsOfPart(a, central, Header(46, CentralFields(files[i], stamp, local), files[i].name));
  }

  /** An archive packed at clock time c reads back exactly when there are fewer than 65536 files, no name has 65536
      bytes, and, unless it is empty, the year is below 2108. */
  lemma PackedRoundTrip(files: seq<File>, c: Clock)
    requires IsClock(c) && StoredZip(files, ZipTimestamp(c)).Ok?
    ensures ReadArchive(StoredZip(files, ZipTimestamp(c)).value) == Some(Contents(files, ZipTimestamp(c)))
            <==> |files| < 0x1_0000 && (forall i :: 0 <= i < |files| ==> |files[i].name| < 0x1_0000)
                 && (files == [] || c.year < 2108)
  {
    hide StoredZip, ReadArchive, Contents, ZipTimestamp;
    RoundTrip(files, ZipTimestamp(c));
    DateFits(c);
    if files != [] && FieldsFit(files, ZipTimestamp(c)) { assert Fits(files[0], ZipTimestamp(c)); }
  }
}
