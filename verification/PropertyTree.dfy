/**
 XDomain property directories: the tree, its size, and what it means for a
 block of dwords to hold a directory. Nothing here mentions the formatter or
 the parser; both are proved against `DirAt`.
 */
module PropertyTree {
  import opened Dwords

  const KEY_SIZE := 8
  const ROOTDIR_MAGIC: Dword := 0x55584401
  const ENTRY_LEN := 4
  const UUID_LEN := 4
  const ROOTDIR_HEADER_LEN := 2

  datatype Uuid = NoUuid | Uuid(w0: Dword, w1: Dword, w2: Dword, w3: Dword) {
    function Words(): (ws: seq<Dword>) {
      if NoUuid? then [] else [w0, w1, w2, w3]
    }
  }

  /** A directory without a UUID is a root directory. */
  datatype Dir = Dir(uuid: Uuid, props: seq<Property>)

  /**
   `length` is the property's own length field. It counts dwords for data and
   text, is 1 for an immediate value, and is not used for a directory.
   */
  datatype Property = Property(key: seq<Byte>, length: nat, value: Value)

  datatype Value =
    | Directory(dir: Dir)
    | Data(data: seq<Byte>)
    | Text(text: seq<Byte>)
    | Immediate(word: Dword)
    | Unknown

  function TypeCode(v: Value): (t: Byte) {
    match v
    case Directory(_) => 0x44
    case Data(_) => 0x64
    case Text(_) => 0x74
    case Immediate(_) => 0x76
    case Unknown => 0x00
  }

  // ----- the third dword of an entry: length (16), reserved (8), type (8)

  function EntryLength(w: Dword): (n: nat) { w % 0x1_0000 }
  function EntryType(w: Dword): (t: Byte) { w / 0x100_0000 }

  function SetType(w: Dword, t: Byte): (r: Dword)
    ensures EntryType(r) == t
    ensures EntryLength(r) == EntryLength(w)
  {
    (t as int) * 0x100_0000 + w % 0x100_0000
  }

  function SetLength(w: Dword, n: nat): (r: Dword)
    ensures EntryLength(r) == n % 0x1_0000
    ensures EntryType(r) == EntryType(w)
  {
    var high := w / 0x1_0000;
    var rest := high % 0x100 * 0x1_0000 + n % 0x1_0000;
    assert high / 0x100 == EntryType(w);
    high / 0x100 * 0x100_0000 + rest
  }

  // ----- sizes

  function HeaderLen(d: Dir): (n: nat) {
    if d.uuid.NoUuid? then ROOTDIR_HEADER_LEN else UUID_LEN
  }

  /** Header and entries, without leaf data and without children. */
  function DirLen(d: Dir): (n: nat) {
    HeaderLen(d) + ENTRY_LEN * |d.props|
  }

  function LeafLen(p: Property): (n: nat) {
    if p.value.Data? || p.value.Text? then p.length else 0
  }

  function PadLen(p: Property): (n: nat) {
    if p.value.Directory? then 1 else 0
  }

  function Leaves(ps: seq<Property>): (n: nat) {
    if ps == [] then 0 else Leaves(ps[..|ps| - 1]) + LeafLen(ps[|ps| - 1])
  }

  function Pads(ps: seq<Property>): (n: nat) {
    if ps == [] then 0 else Pads(ps[..|ps| - 1]) + PadLen(ps[|ps| - 1])
  }

  function SubLen(p: Property): (n: nat)
    decreases p, 0
  {
    if p.value.Directory? then Size(p.value.dir) else 0
  }

  function Subtrees(ps: seq<Property>): (n: nat)
    decreases ps, 0
  {
    if ps == [] then 0 else Subtrees(ps[..|ps| - 1]) + SubLen(ps[|ps| - 1])
  }

  /** Every dword the directory and all its descendants take. */
  function Size(d: Dir): (n: nat)
    decreases d, 1
  {
    DirLen(d) + Leaves(d.props) + Pads(d.props) + Subtrees(d.props)
  }

  // ----- positions of the parts of a directory placed at `off`

  function EntryPos(off: nat, d: Dir, k: nat): (n: nat) {
    off + HeaderLen(d) + ENTRY_LEN * k
  }

  function LeafPos(off: nat, d: Dir, k: nat): (n: nat)
    requires k <= |d.props|
  {
    off + DirLen(d) + Leaves(d.props[..k])
  }

  function SubPos(off: nat, d: Dir, k: nat): (n: nat)
    requires k <= |d.props|
  {
    off + DirLen(d) + Leaves(d.props) + Pads(d.props) + Subtrees(d.props[..k])
  }

  lemma PrefixStep(ps: seq<Property>, k: nat)
    requires k < |ps|
    ensures Leaves(ps[..k + 1]) == Leaves(ps[..k]) + LeafLen(ps[k])
    ensures Pads(ps[..k + 1]) == Pads(ps[..k]) + PadLen(ps[k])
    ensures Subtrees(ps[..k + 1]) == Subtrees(ps[..k]) + SubLen(ps[k])
  {
    assert ps[..k + 1][..k] == ps[..k];
  }

  lemma {:induction false} PrefixMonotone(ps: seq<Property>, j: nat, k: nat)
    requires j <= k <= |ps|
    ensures Leaves(ps[..j]) <= Leaves(ps[..k])
    ensures Pads(ps[..j]) <= Pads(ps[..k])
    ensures Subtrees(ps[..j]) <= Subtrees(ps[..k])
  {
    if j < k {
      PrefixMonotone(ps, j, k - 1);
      PrefixStep(ps, k - 1);
    }
  }

  /** Parts of property `j` end before the same parts of a later property `k` start. */
  lemma PartsOrdered(off: nat, d: Dir, j: nat, k: nat)
    requires j < k <= |d.props|
    ensures EntryPos(off, d, j) + ENTRY_LEN <= EntryPos(off, d, k)
    ensures LeafPos(off, d, j) + LeafLen(d.props[j]) <= LeafPos(off, d, k)
    ensures SubPos(off, d, j) + SubLen(d.props[j]) <= SubPos(off, d, k)
  {
    PrefixStep(d.props, j);
    PrefixMonotone(d.props, j + 1, k);
  }

  /** Where the parts of property `k` lie: entries, then leaves, padding, children. */
  lemma PartsInside(off: nat, d: Dir, k: nat)
    requires k < |d.props|
    ensures off < EntryPos(off, d, k)
    ensures EntryPos(off, d, k) + ENTRY_LEN <= off + DirLen(d) <= LeafPos(off, d, k)
    ensures LeafPos(off, d, k) + LeafLen(d.props[k]) <= off + DirLen(d) + Leaves(d.props)
    ensures off + DirLen(d) + Leaves(d.props) + Pads(d.props) <= SubPos(off, d, k)
    ensures SubPos(off, d, k) + SubLen(d.props[k]) <= off + Size(d)
  {
    PartsOrdered(off, d, k, |d.props|);
    assert d.props[..|d.props|] == d.props;
  }

  // ----- well-formed trees

  predicate KeyOk(key: seq<Byte>) {
    |key| <= KEY_SIZE && 0 !in key
  }

  /**
   The buffers match their length fields, every length fits the 16-bit length
   of an entry, text ends in NUL and children carry a UUID.
   */
  predicate PropertyOk(p: Property)
    decreases p, 0
  {
    && KeyOk(p.key)
    && match p.value
       case Directory(c) => c.uuid.Uuid? && DirLen(c) < 0x1_0000 && DirOk(c)
       case Data(b) => p.length < 0x1_0000 && |b| == 4 * p.length
       case Text(b) => 0 < p.length < 0x1_0000 && |b| == 4 * p.length && b[|b| - 1] == 0
       case Immediate(_) => p.length == 1
       case Unknown => true
  }

  predicate DirOk(d: Dir)
    decreases d, 1
  {
    forall k | 0 <= k < |d.props| :: PropertyOk(d.props[k])
  }

  // ----- the layout

  function PaddedKey(key: seq<Byte>): (b: seq<Byte>)
    requires |key| <= KEY_SIZE
    ensures |b| == KEY_SIZE
  {
    key + Zeros(KEY_SIZE - |key|)
  }

  predicate HeaderAt(s: seq<Dword>, off: nat, d: Dir)
    requires off + HeaderLen(d) <= |s|
  {
    if d.uuid.NoUuid? then
      s[off] == ROOTDIR_MAGIC && s[off + 1] == ENTRY_LEN * |d.props|
    else
      s[off..off + UUID_LEN] == d.uuid.Words()
  }

  /** The entry of `p` is at `entry`, its leaf data at `leaf`, its directory at `sub`. */
  predicate PropertyAt(s: seq<Dword>, entry: nat, leaf: nat, sub: nat, p: Property)
    requires PropertyOk(p)
    decreases p, 0
  {
    && entry + ENTRY_LEN <= |s|
    && leaf + LeafLen(p) <= |s|
    && s[entry..entry + 2] == PackAll(PaddedKey(p.key))
    && EntryType(s[entry + 2]) == TypeCode(p.value)
    && match p.value
       case Directory(c) =>
         EntryLength(s[entry + 2]) == DirLen(c) && s[entry + 3] == sub && DirAt(s, sub, c)
       case Data(b) =>
         EntryLength(s[entry + 2]) == p.length && s[entry + 3] == leaf && s[leaf..leaf + p.length] == PackAll(b)
       case Text(b) =>
         EntryLength(s[entry + 2]) == p.length && s[entry + 3] == leaf && s[leaf..leaf + p.length] == PackAll(b)
       case Immediate(w) =>
         EntryLength(s[entry + 2]) == p.length && s[entry + 3] == w
       case Unknown => true
  }

  /** The block holds directory `d`, with all its descendants, at `off`. */
  predicate DirAt(s: seq<Dword>, off: nat, d: Dir)
    requires DirOk(d)
    decreases d, 1
  {
    && off + Size(d) <= |s|
    && HeaderAt(s, off, d)
    && forall k | 0 <= k < |d.props| ::
         PropertyAt(s, EntryPos(off, d, k), LeafPos(off, d, k), SubPos(off, d, k), d.props[k])
  }

  predicate Agree(s: seq<Dword>, t: seq<Dword>, lo: nat, hi: nat)
    requires |s| == |t|
  {
    forall j | lo <= j < hi && j < |s| :: s[j] == t[j]
  }

  lemma SliceAgree(s: seq<Dword>, t: seq<Dword>, lo: nat, hi: nat)
    requires |s| == |t| && lo <= hi <= |s| && Agree(s, t, lo, hi)
    ensures s[lo..hi] == t[lo..hi]
  {
  }

  /** A property stays in place when only words outside its parts change. */
  lemma {:induction false} PropertyFrame(s: seq<Dword>, t: seq<Dword>, entry: nat, leaf: nat, sub: nat, p: Property)
    requires |s| == |t| && PropertyOk(p) && PropertyAt(s, entry, leaf, sub, p)
    requires Agree(s, t, entry, entry + ENTRY_LEN)
    requires Agree(s, t, leaf, leaf + LeafLen(p))
    requires Agree(s, t, sub, sub + SubLen(p))
    ensures PropertyAt(t, entry, leaf, sub, p)
    decreases p, 0
  {
    SliceAgree(s, t, entry, entry + 2);
    SliceAgree(s, t, leaf, leaf + LeafLen(p));
    if p.value.Directory? {
      DirFrame(s, t, sub, p.value.dir);
    }
  }

  /** The layout of a directory depends on its own `Size` words only. */
  lemma {:induction false} DirFrame(s: seq<Dword>, t: seq<Dword>, off: nat, d: Dir)
    requires |s| == |t| && DirOk(d) && DirAt(s, off, d)
    requires Agree(s, t, off, off + Size(d))
    ensures DirAt(t, off, d)
    decreases d, 1
  {
    SliceAgree(s, t, off, off + HeaderLen(d));
    forall k | 0 <= k < |d.props|
      ensures PropertyAt(t, EntryPos(off, d, k), LeafPos(off, d, k), SubPos(off, d, k), d.props[k])
    {
      PartsInside(off, d, k);
      PropertyFrame(s, t, EntryPos(off, d, k), LeafPos(off, d, k), SubPos(off, d, k), d.props[k]);
    }
  }

  // ----- padding words

  /** Word `j` is a padding word of the directory at `off` or of a descendant. */
  predicate IsPadding(d: Dir, off: nat, j: nat)
    decreases d, 1
  {
    || off + DirLen(d) + Leaves(d.props) <= j < off + DirLen(d) + Leaves(d.props) + Pads(d.props)
    || exists k | 0 <= k < |d.props| && d.props[k].value.Directory? ::
         IsPadding(d.props[k].value.dir, SubPos(off, d, k), j)
  }

  lemma {:induction false} PaddingInside(d: Dir, off: nat, j: nat)
    requires IsPadding(d, off, j)
    ensures off + DirLen(d) <= j < off + Size(d)
    decreases d
  {
    var own := off + DirLen(d) + Leaves(d.props);
    if !(own <= j < own + Pads(d.props)) {
      var k :| 0 <= k < |d.props| && d.props[k].value.Directory? &&
               IsPadding(d.props[k].value.dir, SubPos(off, d, k), j);
      PaddingInside(d.props[k].value.dir, SubPos(off, d, k), j);
      PartsInside(off, d, k);
    }
  }

  // ----- the layout byte by byte, as a peer on any host sees it

  /** `bytes` are in the words from `at` on, most significant byte of each word first. */
  predicate BytesAt(s: seq<Dword>, at: nat, bytes: seq<Byte>) {
    at + (|bytes| + 3) / 4 <= |s| && forall j | 0 <= j < |bytes| :: ByteOf(s[at + j / 4], 3 - j % 4) == bytes[j]
  }

  /**
   The entry at `entry` says what `p` is: eight bytes of key, zero after its end; the length in
   the low half of the third word and the type in its top byte; and in the fourth word the
   value itself, or where the data or the child directory starts.
   */
  predicate EntryOnWire(s: seq<Dword>, entry: nat, p: Property)
    decreases p, 0
  {
    && entry + 4 <= |s| && |p.key| <= 8
    && BytesAt(s, entry, p.key + Zeros(8 - |p.key|))
    && var length, code, at := s[entry + 2] % 0x1_0000, s[entry + 2] / 0x100_0000, s[entry + 3];
       match p.value
       case Directory(c) => code == 0x44 && length == 4 + 4 * |c.props| && TreeOnWire(s, at, c)
       case Data(b) => code == 0x64 && 4 * length == |b| && BytesAt(s, at, b)
       case Text(b) => code == 0x74 && 4 * length == |b| && BytesAt(s, at, b)
       case Immediate(w) => code == 0x76 && length == 1 && at == w
       case Unknown => code == 0
  }

  /** Two words of magic and length, or the four words of the UUID. */
  predicate HeaderOnWire(s: seq<Dword>, at: nat, d: Dir) {
    if d.uuid.NoUuid? then at + 2 <= |s| && s[at] == 0x5558_4401 && s[at + 1] == 4 * |d.props|
    else
      && at + 4 <= |s|
      && s[at] == d.uuid.w0 && s[at + 1] == d.uuid.w1 && s[at + 2] == d.uuid.w2 && s[at + 3] == d.uuid.w3
  }

  /** Four words for each property, one after the other. */
  predicate EntriesOnWire(s: seq<Dword>, at: nat, d: Dir)
    decreases d, 1
  {
    forall k | 0 <= k < |d.props| :: EntryOnWire(s, at + 4 * k, d.props[k])
  }

  predicate TreeOnWire(s: seq<Dword>, at: nat, d: Dir)
    decreases d, 2
  {
    HeaderOnWire(s, at, d) && EntriesOnWire(s, at + (if d.uuid.NoUuid? then 2 else 4), d)
  }

  lemma BytesOnWire(s: seq<Dword>, at: nat, bytes: seq<Byte>)
    requires |bytes| % 4 == 0 && at + |bytes| / 4 <= |s| && s[at..at + |bytes| / 4] == PackAll(bytes)
    ensures BytesAt(s, at, bytes)
  {
    forall j | 0 <= j < |bytes| ensures ByteOf(s[at + j / 4], 3 - j % 4) == bytes[j] {
      PackedByte(bytes, j);
      assert s[at..at + |bytes| / 4][j / 4] == s[at + j / 4];
    }
  }

  lemma {:induction false} PropertyOnWire(s: seq<Dword>, entry: nat, leaf: nat, sub: nat, p: Property)
    requires PropertyOk(p) && PropertyAt(s, entry, leaf, sub, p)
    ensures EntryOnWire(s, entry, p)
    decreases p, 0
  {
    BytesOnWire(s, entry, PaddedKey(p.key));
    match p.value {
      case Directory(c) => DirOnWire(s, sub, c);
      case Data(b) => BytesOnWire(s, leaf, b);
      case Text(b) => BytesOnWire(s, leaf, b);
      case _ =>
    }
  }

  lemma HeaderIsOnWire(s: seq<Dword>, off: nat, d: Dir)
    requires off + HeaderLen(d) <= |s| && HeaderAt(s, off, d)
    ensures HeaderOnWire(s, off, d)
  {
    if d.uuid.Uuid? {
      var words := s[off..off + UUID_LEN];
      assert words[0] == s[off] && words[1] == s[off + 1] && words[2] == s[off + 2] && words[3] == s[off + 3];
    }
  }

  lemma {:induction false} EntryIsOnWire(s: seq<Dword>, off: nat, d: Dir, k: nat)
    requires DirOk(d) && DirAt(s, off, d) && k < |d.props|
    ensures EntryOnWire(s, off + HeaderLen(d) + 4 * k, d.props[k])
    decreases d, 0
  {
    PropertyOnWire(s, EntryPos(off, d, k), LeafPos(off, d, k), SubPos(off, d, k), d.props[k]);
  }

  lemma {:induction false} EntriesAreOnWire(s: seq<Dword>, off: nat, d: Dir)
    requires DirOk(d) && DirAt(s, off, d)
    ensures EntriesOnWire(s, off + HeaderLen(d), d)
    decreases d, 1
  {
    forall k | 0 <= k < |d.props| ensures EntryOnWire(s, off + HeaderLen(d) + 4 * k, d.props[k]) {
      EntryIsOnWire(s, off, d, k);
    }
  }

  /** A block that holds a tree holds it byte by byte where a peer looks for it. */
  lemma {:induction false} DirOnWire(s: seq<Dword>, off: nat, d: Dir)
    requires DirOk(d) && DirAt(s, off, d)
    ensures TreeOnWire(s, off, d)
    decreases d, 2
  {
    HeaderIsOnWire(s, off, d);
    EntriesAreOnWire(s, off, d);
  }
}
