/** Reference descriptors: the part of IEEE Std 1003.1-2017 (System Interfaces: `read`, `pread`,
    `lseek`) that a read-only descriptor on an immutable file obeys. Every other module that speaks
    of bytes, counts or positions uses these definitions. */
module Posix {

  newtype Byte = x: int | 0 <= x < 256

  type Bytes = seq<Byte>

  const INT32_MIN: int := -0x8000_0000
  const INT32_MAX: int := 0x7fff_ffff

  const SEEK_SET: int := 0
  const SEEK_CUR: int := 1
  const SEEK_END: int := 2

  /** What a read-like call gives back: the count (or -1) and the bytes put in the buffer. */
  datatype IoResult = IoResult(ret: int, data: Bytes)

  const FAILED: IoResult := IoResult(-1, [])

  /** An open file description on an immutable file. */
  datatype Description = Description(content: Bytes, offset: nat)

  function Min(a: nat, b: nat): nat {
    if a < b then a else b
  }

  function Slice(content: Bytes, offset: nat, count: nat): Bytes {
    content[Min(offset, |content|)..Min(offset + count, |content|)]
  }

  function Pread(content: Bytes, count: nat, offset: int): IoResult {
    if offset < 0 then
      FAILED
    else
      var data := Slice(content, offset, count);
      IoResult(|data|, data)
  }

  function Read(d: Description, count: nat): (Description, IoResult) {
    var data := Slice(d.content, d.offset, count);
    (d.(offset := d.offset + |data|), IoResult(|data|, data))
  }

  /** The position `lseek` aims at; a negative one, or an unknown `whence`, is EINVAL. */
  function SeekTarget(d: Description, offset: int, whence: int): int {
    if whence == SEEK_SET then offset
    else if whence == SEEK_CUR then d.offset + offset
    else if whence == SEEK_END then |d.content| + offset
    else -1
  }

  function Lseek(d: Description, offset: int, whence: int): (Description, int) {
    var target := SeekTarget(d, offset, whence);
    if target < 0 then (d, -1) else (d.(offset := target), target)
  }

  predicate FitsInt32(x: int) {
    INT32_MIN <= x <= INT32_MAX
  }

  /** The value an `int32_t` field holds after being assigned x: two's-complement truncation. */
  function AsInt32(x: int): (r: int)
    ensures FitsInt32(r)
    ensures r == x <==> FitsInt32(x)
    ensures (x - r) % 0x1_0000_0000 == 0
  {
    (x + 0x8000_0000) % 0x1_0000_0000 - 0x8000_0000
  }

  // ---------------------------------------------------------------------------------------------
  // What a caller is promised
  // ---------------------------------------------------------------------------------------------

  /** The result holds the bytes of the content from the offset on, as many as asked for, or fewer because
      the content ends there. */
  predicate Gives(r: IoResult, content: Bytes, offset: nat, count: nat) {
    && r.ret == |r.data| <= count
    && (forall i | 0 <= i < |r.data| :: offset + i < |content| && r.data[i] == content[offset + i])
    && (|r.data| < count ==> |content| <= offset + |r.data|)
  }

  lemma PreadGives(content: Bytes, count: nat, offset: nat)
    ensures Gives(Pread(content, count, offset), content, offset, count)
  {
  }

  lemma ByteIsThere(r: IoResult, content: Bytes, offset: nat, count: nat, k: nat)
    requires Gives(r, content, offset, count) && k < |r.data|
    ensures offset + k < |content|
  {
    assert r.data[k] in r.data;
  }

  lemma GivesOnlyOne(r: IoResult, r': IoResult, content: Bytes, offset: nat, count: nat)
    requires Gives(r, content, offset, count) && Gives(r', content, offset, count)
    ensures r == r'
  {
    if |r.data| < |r'.data| {
      ByteIsThere(r', content, offset, count, |r.data|);
    } else if |r'.data| < |r.data| {
      ByteIsThere(r, content, offset, count, |r'.data|);
    } else {
      assert r.data == r'.data;
    }
  }

  /** A result is a pread's exactly when it holds those bytes; a negative offset fails. */
  lemma PreadExactly(content: Bytes, count: nat, offset: int, r: IoResult)
    ensures r == Pread(content, count, offset) <==>
      if offset < 0 then r.ret == -1 && r.data == [] else Gives(r, content, offset, count)
  {
    if 0 <= offset {
      PreadGives(content, count, offset);
      if Gives(r, content, offset, count) {
        GivesOnlyOne(r, Pread(content, count, offset), content, offset, count);
      }
    }
  }

  /** A read gives the bytes at its position and moves it by as many; two reads in a row give what one read
      of both counts would. */
  lemma ReadsInARow(d: Description, count: nat, more: nat)
    ensures
      var (d1, r1) := Read(d, count);
      var (d2, r2) := Read(d1, more);
      && Gives(r1, d.content, d.offset, count)
      && d1.content == d.content && d1.offset == d.offset + r1.ret
      && Gives(IoResult(r1.ret + r2.ret, r1.data + r2.data), d.content, d.offset, count + more)
  {
  }

  /** From the start (0), from the position (1) or from the end (2), as <unistd.h> numbers them; a negative
      target and any other `whence` are refused and move nothing. */
  predicate Sought(d: Description, offset: int, whence: int, d': Description, r: int) {
    && d'.content == d.content
    && (whence == 0 && 0 <= offset ==> r == d'.offset == offset)
    && (whence == 1 && 0 <= d.offset + offset ==> r == d'.offset && r - d.offset == offset)
    && (whence == 2 && 0 <= |d.content| + offset ==> r == d'.offset && r - |d.content| == offset)
    && (whence == 0 && offset < 0 ==> r == -1 && d' == d)
    && (whence == 1 && d.offset + offset < 0 ==> r == -1 && d' == d)
    && (whence == 2 && |d.content| + offset < 0 ==> r == -1 && d' == d)
    && (!(0 <= whence <= 2) ==> r == -1 && d' == d)
  }

  lemma LseekExactly(d: Description, offset: int, whence: int, d': Description, r: int)
    ensures (d', r) == Lseek(d, offset, whence) <==> Sought(d, offset, whence, d', r)
  {
  }

  /** Seeking by nothing tells the position, and every position can be gone back to. */
  lemma SeekTellsThePosition(d: Description, offset: int, whence: int)
    ensures Lseek(d, 0, SEEK_CUR) == (d, d.offset)
    ensures Lseek(Lseek(d, offset, whence).0, Lseek(d, 0, SEEK_CUR).1, SEEK_SET).0 == d
  {
  }

  /** k bytes before the end, a read finds exactly the last k bytes; at the end it finds nothing. */
  lemma SeekFromTheEnd(d: Description, k: nat, count: nat)
    requires k <= |d.content| && k <= count
    ensures
      var (d1, r) := Lseek(d, 0 - k, SEEK_END);
      var read := Read(d1, count).1;
      0 <= r && read.ret == k && read.data == d.content[|d.content| - k..]
  {
  }

  /** After a seek from the position by offset, a read gives what a pread at that distance gives. */
  lemma SeekIsRelative(d: Description, offset: int, count: nat)
    requires 0 <= d.offset + offset
    ensures Lseek(d, offset, SEEK_CUR).1 - d.offset == offset
    ensures Gives(Read(Lseek(d, offset, SEEK_CUR).0, count).1, d.content, d.offset + offset, count)
  {
  }
}
