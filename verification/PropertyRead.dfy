/**
 What the parser reads out of an arbitrary block, byte by byte (property.c): the
 counterpart, for blocks that no formatter wrote, of what `PropertyTree` says of
 formatted ones.
 */
module PropertyRead {
  import opened Dwords
  import opened PropertyTree
  import opened PropertyParse

  /** `b` are the bytes of the `n` dwords at `at`, the most significant byte of each first. */
  predicate ReadAt(s: seq<Dword>, at: nat, n: nat, b: seq<Byte>) {
    at + n <= |s| && |b| == 4 * n && forall j | 0 <= j < 4 * n :: b[j] == ByteOf(s[at + j / 4], 3 - j % 4)
  }

  lemma UnpackedByte(ws: seq<Dword>, j: nat)
    requires j < 4 * |ws|
    ensures UnpackAll(ws)[j] == ByteOf(ws[j / 4], 3 - j % 4)
  {
    PackedBytes(Unpack(ws[j / 4]));
  }

  lemma UnpackedRead(s: seq<Dword>, at: nat, n: nat)
    requires at + n <= |s|
    ensures ReadAt(s, at, n, UnpackAll(s[at..at + n]))
  {
    var b := UnpackAll(s[at..at + n]);
    forall j | 0 <= j < 4 * n ensures b[j] == ByteOf(s[at + j / 4], 3 - j % 4) {
      UnpackedByte(s[at..at + n], j);
    }
  }

  /** The key is the bytes of the entry's first two dwords up to the first NUL, or all eight. */
  predicate KeyRead(s: seq<Dword>, entry: nat, key: seq<Byte>) {
    && entry + 2 <= |s| && |key| <= 8
    && (forall j | 0 <= j < |key| :: key[j] == ByteOf(s[entry + j / 4], 3 - j % 4) && key[j] != 0)
    && (|key| < 8 ==> ByteOf(s[entry + |key| / 4], 3 - |key| % 4) == 0)
  }

  lemma CStringBytes(b: seq<Byte>, key: seq<Byte>)
    requires key == CString(b)
    ensures |key| <= |b| && (|key| < |b| ==> b[|key|] == 0)
    ensures forall j | 0 <= j < |key| :: key[j] == b[j] && key[j] != 0
  {
    forall j | 0 <= j < |key| ensures key[j] == b[j] && key[j] != 0 {
      assert key[j] in key;
    }
  }

  lemma KeyIsRead(s: seq<Dword>, entry: nat, b: seq<Byte>, key: seq<Byte>)
    requires ReadAt(s, entry, 2, b) && key == CString(b)
    ensures KeyRead(s, entry, key)
  {
    CStringBytes(b, key);
  }

  /** A text ends in the NUL the parser puts there; the bytes before it are the block's. */
  predicate TextReadAt(s: seq<Dword>, at: nat, n: nat, b: seq<Byte>) {
    && n > 0 && at + n <= |s| && |b| == 4 * n && b[4 * n - 1] == 0
    && forall j | 0 <= j < 4 * n - 1 :: b[j] == ByteOf(s[at + j / 4], 3 - j % 4)
  }

  /** What an entry of type `t` with `n` dwords at `value` holds. */
  predicate ValueRead(s: seq<Dword>, t: Byte, n: nat, value: Dword, v: Value) {
    match v
    case Directory(_) => t == 0x44
    case Data(b) => t == 0x64 && ReadAt(s, value, n, b)
    case Text(b) => t == 0x74 && TextReadAt(s, value, n, b)
    case Immediate(w) => t == 0x76 && w == value && n == 1
    case Unknown => t != 0x44 && t != 0x64 && t != 0x74 && t != 0x76
  }

  lemma DataIsRead(s: seq<Dword>, tag: Dword, value: Dword, depth: nat, v: Value)
    requires EntryType(tag) == 0x64 && ParseValue(s, tag, value, depth) == Parsed(v)
    ensures ValueRead(s, 0x64, EntryLength(tag), value, v)
  {
    UnpackedRead(s, value, EntryLength(tag));
  }

  lemma TextIsRead(s: seq<Dword>, tag: Dword, value: Dword, depth: nat, v: Value)
    requires EntryType(tag) == 0x74 && ParseValue(s, tag, value, depth) == Parsed(v)
    ensures ValueRead(s, 0x74, EntryLength(tag), value, v)
  {
    UnpackedRead(s, value, EntryLength(tag));
  }

  lemma DirectoryIsRead(s: seq<Dword>, tag: Dword, value: Dword, depth: nat, v: Value)
    requires EntryType(tag) == 0x44 && ParseValue(s, tag, value, depth) == Parsed(v)
    ensures v.Directory?
  {
  }

  lemma ValueIsRead(s: seq<Dword>, tag: Dword, value: Dword, depth: nat, v: Value)
    requires EntryValid(tag, value, |s|) && ParseValue(s, tag, value, depth) == Parsed(v)
    ensures ValueRead(s, tag / 0x100_0000, tag % 0x1_0000, value, v)
  {
    if EntryType(tag) == 0x64 {
      DataIsRead(s, tag, value, depth, v);
    } else if EntryType(tag) == 0x74 {
      TextIsRead(s, tag, value, depth, v);
    } else if EntryType(tag) == 0x44 {
      DirectoryIsRead(s, tag, value, depth, v);
    }
  }

  lemma PropertyParts(s: seq<Dword>, entry: nat, depth: nat, p: Property)
    requires ParseProperty(s, entry, depth) == Parsed(p)
    ensures entry + 4 <= |s| && EntryValid(s[entry + 2], s[entry + 3], |s|)
    ensures p.key == CString(UnpackAll(s[entry..entry + 2])) && p.length == EntryLength(s[entry + 2])
    ensures ParseValue(s, s[entry + 2], s[entry + 3], depth) == Parsed(p.value)
  {
  }

  /** Whatever the block, a parsed property is what its entry and the words it points to say. */
  lemma PropertyIsRead(s: seq<Dword>, entry: nat, depth: nat, p: Property)
    requires ParseProperty(s, entry, depth) == Parsed(p)
    ensures entry + 4 <= |s| && KeyRead(s, entry, p.key) && p.length == s[entry + 2] % 0x1_0000
    ensures ValueRead(s, s[entry + 2] / 0x100_0000, s[entry + 2] % 0x1_0000, s[entry + 3], p.value)
  {
    PropertyParts(s, entry, depth, p);
    UnpackedRead(s, entry, 2);
    KeyIsRead(s, entry, UnpackAll(s[entry..entry + 2]), p.key);
    ValueIsRead(s, s[entry + 2], s[entry + 3], depth, p.value);
  }
}
