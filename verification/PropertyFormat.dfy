/**
 Formatting a property directory into a block (property.c). `block` is written
 in place while the leaf offset, the directory end and the entry advance.
 */
module PropertyFormat {
  import opened Dwords
  import opened PropertyTree

  const EINVAL := 22

  // ----- regions of a formatted block

  datatype Part = Header | Entry | Leaf | Padding

  datatype Region = Region(part: Part, at: nat, len: nat)

  function EntryRegions(d: Dir, off: nat, n: nat): (rs: seq<Region>)
    requires n <= |d.props|
  {
    if n == 0 then []
    else EntryRegions(d, off, n - 1) + [Region(Entry, EntryPos(off, d, n - 1), ENTRY_LEN)]
  }

  function LeafRegions(d: Dir, off: nat, n: nat): (rs: seq<Region>)
    requires n <= |d.props|
  {
    if n == 0 then []
    else LeafRegions(d, off, n - 1) + [Region(Leaf, LeafPos(off, d, n - 1), LeafLen(d.props[n - 1]))]
  }

  function ChildRegions(d: Dir, off: nat, n: nat): (rs: seq<Region>)
    requires n <= |d.props|
    decreases d, 0, n
  {
    if n == 0 then []
    else if d.props[n - 1].value.Directory? then
      ChildRegions(d, off, n - 1) + Regions(d.props[n - 1].value.dir, SubPos(off, d, n - 1))
    else ChildRegions(d, off, n - 1)
  }

  /** All regions of the directory at `off` and of its descendants. */
  function Regions(d: Dir, off: nat): (rs: seq<Region>)
    decreases d, 1, 0
  {
    [Region(Header, off, HeaderLen(d))]
    + EntryRegions(d, off, |d.props|)
    + LeafRegions(d, off, |d.props|)
    + [Region(Padding, off + DirLen(d) + Leaves(d.props), Pads(d.props))]
    + ChildRegions(d, off, |d.props|)
  }

  /** The regions follow each other without gap or overlap from `lo` to `hi`. */
  predicate Tile(rs: seq<Region>, lo: nat, hi: nat) {
    if rs == [] then lo == hi
    else rs[|rs| - 1].at + rs[|rs| - 1].len == hi && Tile(rs[..|rs| - 1], lo, rs[|rs| - 1].at)
  }

  lemma {:induction false} TileAppend(a: seq<Region>, b: seq<Region>, lo: nat, mid: nat, hi: nat)
    requires Tile(a, lo, mid) && Tile(b, mid, hi)
    ensures Tile(a + b, lo, hi)
    decreases b
  {
    if b == [] {
      assert a + b == a;
    } else {
      var n := |b| - 1;
      TileAppend(a, b[..n], lo, mid, b[n].at);
      assert (a + b)[..|a + b| - 1] == a + b[..n];
    }
  }

  lemma {:induction false} EntryRegionsTile(d: Dir, off: nat, n: nat)
    requires n <= |d.props|
    ensures Tile(EntryRegions(d, off, n), off + HeaderLen(d), EntryPos(off, d, n))
  {
    if n > 0 {
      EntryRegionsTile(d, off, n - 1);
      assert EntryRegions(d, off, n)[..n - 1] == EntryRegions(d, off, n - 1) by {
        EntryRegionsCount(d, off, n - 1);
      }
      EntryRegionsCount(d, off, n);
    }
  }

  lemma {:induction false} EntryRegionsCount(d: Dir, off: nat, n: nat)
    requires n <= |d.props|
    ensures |EntryRegions(d, off, n)| == n
  {
    if n > 0 {
      EntryRegionsCount(d, off, n - 1);
    }
  }

  lemma {:induction false} LeafRegionsTile(d: Dir, off: nat, n: nat)
    requires n <= |d.props|
    ensures Tile(LeafRegions(d, off, n), LeafPos(off, d, 0), LeafPos(off, d, n))
  {
    if n > 0 {
      LeafRegionsTile(d, off, n - 1);
      PrefixStep(d.props, n - 1);
      var last := [Region(Leaf, LeafPos(off, d, n - 1), LeafLen(d.props[n - 1]))];
      assert Tile(last, LeafPos(off, d, n - 1), LeafPos(off, d, n)) by { assert last[..0] == []; }
      TileAppend(LeafRegions(d, off, n - 1), last, LeafPos(off, d, 0), LeafPos(off, d, n - 1), LeafPos(off, d, n));
    }
  }

  /** Where the child of property `n`, if it has one, begins and ends. */
  lemma SubStep(d: Dir, off: nat, n: nat)
    requires n < |d.props|
    ensures SubPos(off, d, n + 1) == SubPos(off, d, n) + SubLen(d.props[n])
  {
    PrefixStep(d.props, n);
  }

  lemma {:induction false} ChildRegionsTile(d: Dir, off: nat, n: nat)
    requires n <= |d.props|
    ensures Tile(ChildRegions(d, off, n), SubPos(off, d, 0), SubPos(off, d, n))
    decreases d, 0, n
  {
    if n > 0 {
      ChildRegionsTile(d, off, n - 1);
      SubStep(d, off, n - 1);
      if d.props[n - 1].value.Directory? {
        var child := d.props[n - 1].value.dir;
        RegionsTile(child, SubPos(off, d, n - 1));
        TileAppend(ChildRegions(d, off, n - 1), Regions(child, SubPos(off, d, n - 1)),
                   SubPos(off, d, 0), SubPos(off, d, n - 1), SubPos(off, d, n));
      }
    }
  }

  /**
   Header, entries, leaf data, padding and child directories, at every depth,
   exactly partition the words from `off` to `off + Size(d)`.
   */
  lemma {:induction false} RegionsTile(d: Dir, off: nat)
    ensures Tile(Regions(d, off), off, off + Size(d))
    decreases d, 1, 0
  {
    var n := |d.props|;
    assert d.props[..n] == d.props;
    var h := [Region(Header, off, HeaderLen(d))];
    var pad := [Region(Padding, off + DirLen(d) + Leaves(d.props), Pads(d.props))];
    assert Tile(h, off, off + HeaderLen(d)) by { assert h[..0] == []; }
    assert Tile(pad, LeafPos(off, d, n), SubPos(off, d, 0)) by { assert pad[..0] == []; }
    EntryRegionsTile(d, off, n);
    LeafRegionsTile(d, off, n);
    ChildRegionsTile(d, off, n);
    var he := h + EntryRegions(d, off, n);
    TileAppend(h, EntryRegions(d, off, n), off, off + HeaderLen(d), off + DirLen(d));
    TileAppend(he, LeafRegions(d, off, n), off, off + DirLen(d), LeafPos(off, d, n));
    var hel := he + LeafRegions(d, off, n);
    TileAppend(hel, pad, off, LeafPos(off, d, n), SubPos(off, d, 0));
    TileAppend(hel + pad, ChildRegions(d, off, n), off, SubPos(off, d, 0), off + Size(d));
  }

  /** Tiling regions are inside the range and pairwise disjoint. */
  lemma {:induction false} TileDisjoint(rs: seq<Region>, lo: nat, hi: nat, i: nat, j: nat)
    requires Tile(rs, lo, hi) && i < j < |rs|
    ensures lo <= rs[i].at && rs[i].at + rs[i].len <= rs[j].at && rs[j].at + rs[j].len <= hi
    decreases rs
  {
    var n := |rs| - 1;
    TileInside(rs[..n], lo, rs[n].at, i);
    if j < n {
      TileDisjoint(rs[..n], lo, rs[n].at, i, j);
    }
  }

  lemma {:induction false} TileInside(rs: seq<Region>, lo: nat, hi: nat, i: nat)
    requires Tile(rs, lo, hi) && i < |rs|
    ensures lo <= rs[i].at && rs[i].at + rs[i].len <= hi
    decreases rs
  {
    var n := |rs| - 1;
    if i < n {
      TileInside(rs[..n], lo, rs[n].at, i);
    } else if n > 0 {
      TileInside(rs[..n], lo, rs[n].at, n - 1);
    }
  }

  // ----- the words the formatter leaves alone are the padding regions

  predicate InPadding(rs: seq<Region>, j: nat) {
    exists i | 0 <= i < |rs| :: rs[i].part == Padding && rs[i].at <= j < rs[i].at + rs[i].len
  }

  lemma InPaddingJoined(a: seq<Region>, b: seq<Region>, j: nat)
    ensures InPadding(a + b, j) <==> InPadding(a, j) || InPadding(b, j)
  {
    var c := a + b;
    if InPadding(a, j) {
      var i :| 0 <= i < |a| && a[i].part == Padding && a[i].at <= j < a[i].at + a[i].len;
      assert c[i] == a[i];
    }
    if InPadding(b, j) {
      var i :| 0 <= i < |b| && b[i].part == Padding && b[i].at <= j < b[i].at + b[i].len;
      assert c[|a| + i] == b[i];
    }
  }

  lemma {:induction false} NoPaddingInParts(d: Dir, off: nat, n: nat, j: nat)
    requires n <= |d.props|
    ensures !InPadding(EntryRegions(d, off, n), j) && !InPadding(LeafRegions(d, off, n), j)
  {
    if n > 0 {
      NoPaddingInParts(d, off, n - 1, j);
      InPaddingJoined(EntryRegions(d, off, n - 1), [Region(Entry, EntryPos(off, d, n - 1), ENTRY_LEN)], j);
      InPaddingJoined(LeafRegions(d, off, n - 1), [Region(Leaf, LeafPos(off, d, n - 1), LeafLen(d.props[n - 1]))], j);
    }
  }

  predicate ChildPadding(d: Dir, off: nat, n: nat, j: nat)
    requires n <= |d.props|
  {
    exists k | 0 <= k < n && d.props[k].value.Directory? :: IsPadding(d.props[k].value.dir, SubPos(off, d, k), j)
  }

  lemma {:induction false} ChildPaddingIsRegion(d: Dir, off: nat, n: nat, j: nat)
    requires n <= |d.props|
    ensures InPadding(ChildRegions(d, off, n), j) <==> ChildPadding(d, off, n, j)
    decreases d, 0, n
  {
    if n > 0 {
      ChildPaddingIsRegion(d, off, n - 1, j);
      var p := d.props[n - 1];
      if p.value.Directory? {
        PaddingIsRegion(p.value.dir, SubPos(off, d, n - 1), j);
        InPaddingJoined(ChildRegions(d, off, n - 1), Regions(p.value.dir, SubPos(off, d, n - 1)), j);
      }
      assert ChildPadding(d, off, n, j) <==>
        ChildPadding(d, off, n - 1, j) || (p.value.Directory? && IsPadding(p.value.dir, SubPos(off, d, n - 1), j));
    }
  }

  /** A word counts as padding exactly when it lies in a padding region of the directory or of a descendant. */
  lemma {:induction false} PaddingIsRegion(d: Dir, off: nat, j: nat)
    ensures IsPadding(d, off, j) <==> InPadding(Regions(d, off), j)
    decreases d, 1, 0
  {
    var n := |d.props|;
    var header := [Region(Header, off, HeaderLen(d))];
    var own := [Region(Padding, off + DirLen(d) + Leaves(d.props), Pads(d.props))];
    var entries, leaves := EntryRegions(d, off, n), LeafRegions(d, off, n);
    NoPaddingInParts(d, off, n, j);
    ChildPaddingIsRegion(d, off, n, j);
    InPaddingJoined(header, entries, j);
    InPaddingJoined(header + entries, leaves, j);
    InPaddingJoined(header + entries + leaves, own, j);
    InPaddingJoined(header + entries + leaves + own, ChildRegions(d, off, n), j);
    assert own[0].part == Padding;
  }

  // ----- the size query

  /** tb_property_dir_length(): `dataLen` is the caller's accumulator. */
  method DirLength(d: Dir, recurse: bool, dataLen: nat) returns (len: nat, total: nat)
    ensures total >= dataLen
    ensures recurse ==> len + (total - dataLen) == Size(d)
    ensures !recurse ==> len == DirLen(d) && total == dataLen + Leaves(d.props) + Pads(d.props)
    decreases d
  {
    len := if d.uuid.Uuid? then UUID_LEN else ROOTDIR_HEADER_LEN;
    total := dataLen;
    var i := 0;
    while i < |d.props|
      invariant i <= |d.props|
      invariant total >= dataLen
      invariant !recurse ==> len == HeaderLen(d) + ENTRY_LEN * i
      invariant !recurse ==> total == dataLen + Leaves(d.props[..i]) + Pads(d.props[..i])
      invariant len + total == dataLen + HeaderLen(d) + ENTRY_LEN * i + Leaves(d.props[..i]) + Pads(d.props[..i])
                               + (if recurse then Subtrees(d.props[..i]) else 0)
    {
      var p := d.props[i];
      len := len + ENTRY_LEN;
      match p.value {
        case Directory(child) =>
          if recurse {
            var childLen;
            childLen, total := DirLength(child, recurse, total);
            len := len + childLen;
          }
          total := total + 1;
        case Data(_) => total := total + p.length;
        case Text(_) => total := total + p.length;
        case _ =>
      }
      PrefixStep(d.props, i);
      i := i + 1;
    }
    assert d.props[..i] == d.props;
  }

  /** tb_property_format_dir() with a NULL block. */
  method BlockLength(d: Dir) returns (n: nat)
    ensures n == Size(d)
  {
    var len, data := DirLength(d, true, 0);
    n := len + data;
  }

  // ----- writing

  method WriteDwords(block: array<Dword>, at: nat, ws: seq<Dword>)
    requires at + |ws| <= block.Length
    modifies block
    ensures block[..] == Overlay(old(block[..]), at, ws)
  {
    var i := 0;
    while i < |ws|
      invariant i <= |ws|
      invariant forall j | 0 <= j < block.Length ::
                  block[j] == if at <= j < at + i then ws[j - at] else old(block[j])
    {
      block[at + i] := ws[i];
      i := i + 1;
    }
  }

  method WriteHeader(d: Dir, block: array<Dword>, start: nat, dirLen: nat)
    requires start + HeaderLen(d) <= block.Length
    requires dirLen == DirLen(d) && start + DirLen(d) < 0x1_0000_0000
    modifies block
    ensures HeaderAt(block[..], start, d)
    ensures forall j | 0 <= j < block.Length && !(start <= j < start + HeaderLen(d)) :: block[j] == old(block[j])
  {
    if d.uuid.Uuid? {
      WriteDwords(block, start, d.uuid.Words());
    } else {
      block[start] := ROOTDIR_MAGIC;
      block[start + 1] := dirLen - ROOTDIR_HEADER_LEN;
    }
  }

  /** The words property `p` may write, given where its parts go. */
  predicate Writes(p: Property, entry: nat, leaf: nat, sub: nat, j: nat) {
    || entry <= j < entry + ENTRY_LEN
    || leaf <= j < leaf + LeafLen(p)
    || (p.value.Directory? && sub <= j < sub + SubLen(p) && !IsPadding(p.value.dir, sub, j))
  }

  /** Key and type of `p` are in the entry. */
  predicate Keyed(s: seq<Dword>, entry: nat, p: Property)
    requires |p.key| <= KEY_SIZE
  {
    && entry + ENTRY_LEN <= |s|
    && s[entry..entry + 2] == PackAll(PaddedKey(p.key))
    && EntryType(s[entry + 2]) == TypeCode(p.value)
  }

  method WriteKey(p: Property, block: array<Dword>, entry: nat)
    requires |p.key| <= KEY_SIZE && entry + ENTRY_LEN <= block.Length
    modifies block
    ensures Keyed(block[..], entry, p)
    ensures forall j | 0 <= j < block.Length && !(entry <= j < entry + ENTRY_LEN) :: block[j] == old(block[j])
  {
    WriteDwords(block, entry, PackAll(PaddedKey(p.key)));
    ghost var s := block[..];
    block[entry + 2] := SetType(block[entry + 2], TypeCode(p.value));
    SliceAgree(s, block[..], entry, entry + 2);
  }

  method WriteValue(p: Property, block: array<Dword>, entry: nat, length: nat, value: Dword)
    requires |p.key| <= KEY_SIZE && Keyed(block[..], entry, p) && length < 0x1_0000
    modifies block
    ensures Keyed(block[..], entry, p)
    ensures EntryLength(block[entry + 2]) == length && block[entry + 3] == value
    ensures forall j | 0 <= j < block.Length && !(entry <= j < entry + ENTRY_LEN) :: block[j] == old(block[j])
  {
    ghost var s := block[..];
    block[entry + 2] := SetLength(block[entry + 2], length);
    block[entry + 3] := value;
    SliceAgree(s, block[..], entry, entry + 2);
  }

  method WriteLeaf(p: Property, bytes: seq<Byte>, block: array<Dword>, entry: nat, leaf: nat)
    requires PropertyOk(p) && (p.value == Data(bytes) || p.value == Text(bytes))
    requires entry + ENTRY_LEN <= leaf && leaf + p.length <= block.Length <= 0xFFFF_FFFF
    requires Keyed(block[..], entry, p)
    modifies block
    ensures forall sub: nat :: PropertyAt(block[..], entry, leaf, sub, p)
    ensures forall j | 0 <= j < block.Length && !Writes(p, entry, leaf, 0, j) :: block[j] == old(block[j])
  {
    ghost var keyed := block[..];
    WriteDwords(block, leaf, PackAll(bytes));
    ghost var s := block[..];
    SliceAgree(keyed, s, entry, entry + 2);
    assert s[leaf..leaf + p.length] == PackAll(bytes);
    WriteValue(p, block, entry, p.length, leaf);
    SliceAgree(s, block[..], leaf, leaf + p.length);
  }

  const INT_LIMIT := 0x8000_0000

  /** An end of a directory kept in a 32-bit int: large ends turn negative. */
  function AsInt(end: int): (r: int) {
    if INT_LIMIT <= end then end - 0x1_0000_0000 else end
  }

  /** A child directory fits if it ends inside the block and its end is a positive int. */
  predicate Fits(p: Property, sub: nat, blockLen: nat) {
    sub + SubLen(p) <= blockLen && (p.value.Directory? ==> sub + SubLen(p) < INT_LIMIT)
  }

  predicate HasChild(ps: seq<Property>) {
    exists k | 0 <= k < |ps| :: ps[k].value.Directory?
  }

  /** The tree fits below `blockLen`; with children, its end must be a positive int too. */
  predicate TreeFits(d: Dir, start: nat, blockLen: nat) {
    start + Size(d) <= blockLen && (HasChild(d.props) ==> start + Size(d) < INT_LIMIT)
  }

  /** The directory case of the formatter's switch; `next` is the end of the child as an int. */
  method FormatChild(p: Property, block: array<Dword>, entry: nat, leaf: nat, sub: nat, blockLen: nat) returns (next: int)
    requires PropertyOk(p) && p.value.Directory? && Keyed(block[..], entry, p)
    requires entry + ENTRY_LEN <= leaf <= sub <= blockLen <= block.Length <= 0xFFFF_FFFF
    modifies block
    ensures next >= 0 <==> Fits(p, sub, blockLen)
    ensures next >= 0 ==> next == sub + SubLen(p) && PropertyAt(block[..], entry, leaf, sub, p)
    ensures next < 0 && block.Length < INT_LIMIT ==> next == -EINVAL
    ensures forall j | 0 <= j < block.Length && !Writes(p, entry, leaf, sub, j) :: block[j] == old(block[j])
    decreases p, 0
  {
    var child := p.value.dir;
    ghost var keyed := block[..];
    var ret := FormatDir(child, block, sub, blockLen);
    next := AsInt(ret);
    if next < 0 {
      return;
    }
    ghost var formatted := block[..];
    var childLen, _ := DirLength(child, false, 0);
    SliceAgree(keyed, formatted, entry, entry + 2);
    WriteValue(p, block, entry, childLen, sub);
    DirFrame(formatted, block[..], sub, child);
  }

  /**
   One turn of the formatter's loop. On failure the child directory did not
   fit; `next` is the new directory end otherwise.
   */
  method FormatProperty(p: Property, block: array<Dword>, entry: nat, leaf: nat, sub: nat, blockLen: nat)
    returns (next: int)
    requires PropertyOk(p)
    requires entry + ENTRY_LEN <= leaf && leaf + LeafLen(p) <= sub <= blockLen <= block.Length <= 0xFFFF_FFFF
    modifies block
    ensures next >= 0 <==> Fits(p, sub, blockLen)
    ensures next >= 0 ==> next == sub + SubLen(p) && PropertyAt(block[..], entry, leaf, sub, p)
    ensures next < 0 && block.Length < INT_LIMIT ==> next == -EINVAL
    ensures forall j | 0 <= j < block.Length && !Writes(p, entry, leaf, sub, j) :: block[j] == old(block[j])
    decreases p, 1
  {
    WriteKey(p, block, entry);
    next := sub;
    match p.value {
      case Directory(_) => next := FormatChild(p, block, entry, leaf, sub, blockLen);
      case Data(bytes) => WriteLeaf(p, bytes, block, entry, leaf);
      case Text(bytes) => WriteLeaf(p, bytes, block, entry, leaf);
      case Immediate(word) => WriteValue(p, block, entry, p.length, word);
      case Unknown =>
    }
  }

  /** The first `n` properties of the directory at `start` are in place. */
  predicate Placed(s: seq<Dword>, d: Dir, start: nat, n: nat)
    requires DirOk(d) && n <= |d.props|
  {
    forall k | 0 <= k < n ::
      PropertyAt(s, EntryPos(start, d, k), LeafPos(start, d, k), SubPos(start, d, k), d.props[k])
  }

  /** Words outside the directory at `start`, and padding words inside it, are the same. */
  predicate Untouched(s: seq<Dword>, t: seq<Dword>, d: Dir, start: nat) {
    && |s| == |t|
    && forall j | 0 <= j < |s| && (!(start <= j < start + Size(d)) || IsPadding(d, start, j)) :: s[j] == t[j]
  }

  /** The formatter's loop invariant after `n` properties, from block `first` to block `s`. */
  predicate Progress(first: seq<Dword>, s: seq<Dword>, d: Dir, start: nat, n: nat)
    requires DirOk(d) && n <= |d.props|
  {
    && start + HeaderLen(d) <= |s|
    && HeaderAt(s, start, d)
    && Placed(s, d, start, n)
    && Untouched(first, s, d, start)
  }

  /** Where the children of the first `n` properties end, and whether that can be kept in an int. */
  predicate EndOk(d: Dir, start: nat, n: nat, dirEnd: nat)
    requires n <= |d.props|
  {
    dirEnd == SubPos(start, d, n) && (HasChild(d.props[..n]) ==> dirEnd < INT_LIMIT)
  }

  /** The three cursors of the loop before property `n`. */
  predicate Cursors(d: Dir, start: nat, n: nat, entry: nat, dataOffset: nat, dirEnd: nat)
    requires n <= |d.props|
  {
    entry == EntryPos(start, d, n) && dataOffset == LeafPos(start, d, n) && EndOk(d, start, n, dirEnd)
  }

  lemma EndStep(d: Dir, start: nat, i: nat, dirEnd: nat, blockLen: nat)
    requires i < |d.props| && EndOk(d, start, i, dirEnd)
    ensures LeafPos(start, d, i + 1) == LeafPos(start, d, i) + LeafLen(d.props[i])
    ensures Fits(d.props[i], dirEnd, blockLen) ==> EndOk(d, start, i + 1, dirEnd + SubLen(d.props[i]))
    ensures !Fits(d.props[i], dirEnd, blockLen) ==> !TreeFits(d, start, blockLen)
  {
    PrefixStep(d.props, i);
    PartsInside(start, d, i);
    var next := d.props[..i + 1];
    if HasChild(next) && !d.props[i].value.Directory? {
      var k :| 0 <= k < |next| && next[k].value.Directory?;
      assert d.props[..i][k].value.Directory?;
    }
  }

  /** One turn of the loop at property `i`; `first` is the block before the directory was begun. */
  method FormatTurn(d: Dir, block: array<Dword>, start: nat, i: nat, entry: nat, dataOffset: nat, dirEnd: nat,
                    blockLen: nat, ghost first: seq<Dword>)
    returns (next: int)
    requires DirOk(d) && i < |d.props| && dirEnd <= blockLen <= block.Length <= 0xFFFF_FFFF
    requires Cursors(d, start, i, entry, dataOffset, dirEnd) && Progress(first, block[..], d, start, i)
    modifies block
    ensures next >= 0 ==> Progress(first, block[..], d, start, i + 1) && next <= blockLen
    ensures next >= 0 ==> Cursors(d, start, i + 1, entry + 4, dataOffset + LeafLen(d.props[i]), next)
    ensures next < 0 ==> !TreeFits(d, start, blockLen) && Untouched(first, block[..], d, start)
    ensures next < 0 && block.Length < INT_LIMIT ==> next == -EINVAL
    decreases d, 1
  {
    ghost var s := block[..];
    PartsInside(start, d, i);
    EndStep(d, start, i, dirEnd, blockLen);
    next := FormatProperty(d.props[i], block, entry, dataOffset, dirEnd, blockLen);
    StepFrame(d, start, i, first, s, block[..]);
  }

  lemma CursorsStart(d: Dir, start: nat)
    ensures Cursors(d, start, 0, start + HeaderLen(d), start + DirLen(d), SubPos(start, d, 0))
  {
    assert d.props[..0] == [];
  }

  lemma WholeTree(d: Dir, start: nat, entry: nat, dataOffset: nat, dirEnd: nat, blockLen: nat)
    requires Cursors(d, start, |d.props|, entry, dataOffset, dirEnd) && dirEnd <= blockLen
    ensures dirEnd == start + Size(d) && TreeFits(d, start, blockLen)
  {
    assert d.props[..|d.props|] == d.props;
  }

  /** The loop of __tb_property_format_dir(), once the header is written. */
  method FormatEntries(d: Dir, block: array<Dword>, start: nat, blockLen: nat, ghost first: seq<Dword>) returns (end: int)
    requires DirOk(d) && SubPos(start, d, 0) <= blockLen <= block.Length <= 0xFFFF_FFFF
    requires Progress(first, block[..], d, start, 0)
    modifies block
    ensures end >= 0 <==> TreeFits(d, start, blockLen)
    ensures end >= 0 ==> end == start + Size(d) && Progress(first, block[..], d, start, |d.props|)
    ensures end < 0 && block.Length < INT_LIMIT ==> end == -EINVAL
    ensures Untouched(first, block[..], d, start)
    decreases d, 2
  {
    var dataOffset: nat := start + DirLen(d);
    var dirEnd: nat := dataOffset + Leaves(d.props) + Pads(d.props);
    var entry: nat := start + HeaderLen(d);
    var i := 0;
    CursorsStart(d, start);
    while i < |d.props|
      invariant i <= |d.props| && dirEnd <= blockLen
      invariant Cursors(d, start, i, entry, dataOffset, dirEnd)
      invariant Progress(first, block[..], d, start, i)
    {
      var next := FormatTurn(d, block, start, i, entry, dataOffset, dirEnd, blockLen, first);
      if next < 0 {
        return next;
      }
      dataOffset := dataOffset + LeafLen(d.props[i]);
      dirEnd := next;
      entry := entry + ENTRY_LEN;
      i := i + 1;
    }
    WholeTree(d, start, entry, dataOffset, dirEnd, blockLen);
    return dirEnd;
  }

  /**
   __tb_property_format_dir(). It succeeds exactly when the whole tree fits
   below `blockLen` and, if it has children, its end fits a 32-bit int; it returns
   the end of the tree, and leaves every word outside the tree and every padding
   word inside it untouched.
   */
  method FormatDir(d: Dir, block: array<Dword>, start: nat, blockLen: nat) returns (end: int)
    requires DirOk(d)
    requires blockLen <= block.Length <= 0xFFFF_FFFF
    modifies block
    ensures end >= 0 <==> TreeFits(d, start, blockLen)
    ensures end >= 0 ==> end == start + Size(d) && DirAt(block[..], start, d)
    ensures end < 0 && block.Length < INT_LIMIT ==> end == -EINVAL
    ensures Untouched(old(block[..]), block[..], d, start)
    decreases d, 3
  {
    var dirLen, dataLen := DirLength(d, false, 0);
    if start + dataLen + dirLen > blockLen {
      return -EINVAL;
    }
    WriteHeader(d, block, start, dirLen);
    HeaderFrame(d, start, old(block[..]), block[..]);
    end := FormatEntries(d, block, start, blockLen, old(block[..]));
  }

  lemma HeaderFrame(d: Dir, start: nat, s: seq<Dword>, t: seq<Dword>)
    requires |s| == |t|
    requires forall j | 0 <= j < |s| && !(start <= j < start + HeaderLen(d)) :: s[j] == t[j]
    ensures Untouched(s, t, d, start)
  {
    forall j: nat | IsPadding(d, start, j)
      ensures start + DirLen(d) <= j
    {
      PaddingInside(d, start, j);
    }
  }

  /** What one loop turn keeps: the header, earlier properties, padding and the outside. */
  lemma StepFrame(d: Dir, start: nat, i: nat, first: seq<Dword>, s: seq<Dword>, t: seq<Dword>)
    requires DirOk(d) && i < |d.props| && |s| == |t|
    requires start + DirLen(d) + Leaves(d.props) + Pads(d.props) <= |s|
    requires forall j | 0 <= j < |s| &&
                        !Writes(d.props[i], EntryPos(start, d, i), LeafPos(start, d, i), SubPos(start, d, i), j) ::
               s[j] == t[j]
    requires Progress(first, s, d, start, i)
    ensures Untouched(first, t, d, start)
    ensures PropertyAt(t, EntryPos(start, d, i), LeafPos(start, d, i), SubPos(start, d, i), d.props[i]) ==>
              Progress(first, t, d, start, i + 1)
  {
    PartsInside(start, d, i);
    SliceAgree(s, t, start, start + HeaderLen(d));
    forall k | 0 <= k < i
      ensures PropertyAt(t, EntryPos(start, d, k), LeafPos(start, d, k), SubPos(start, d, k), d.props[k])
    {
      PartsInside(start, d, k);
      PartsOrdered(start, d, k, i);
      PropertyFrame(s, t, EntryPos(start, d, k), LeafPos(start, d, k), SubPos(start, d, k), d.props[k]);
    }
    forall j | 0 <= j < |s| && (!(start <= j < start + Size(d)) || IsPadding(d, start, j))
      ensures s[j] == t[j]
    {
      if IsPadding(d, start, j) {
        PaddingNotWritten(d, start, i, j);
      }
    }
  }

  lemma PaddingNotWritten(d: Dir, start: nat, i: nat, j: nat)
    requires i < |d.props| && IsPadding(d, start, j)
    ensures !Writes(d.props[i], EntryPos(start, d, i), LeafPos(start, d, i), SubPos(start, d, i), j)
  {
    PartsInside(start, d, i);
    var own := start + DirLen(d) + Leaves(d.props);
    if !(own <= j < own + Pads(d.props)) {
      var k :| 0 <= k < |d.props| && d.props[k].value.Directory? &&
               IsPadding(d.props[k].value.dir, SubPos(start, d, k), j);
      PartsInside(start, d, k);
      PaddingInside(d.props[k].value.dir, SubPos(start, d, k), j);
      if k < i {
        PartsOrdered(start, d, k, i);
      } else if i < k {
        PartsOrdered(start, d, i, k);
      }
    }
  }

  /** tb_property_format_dir() with a block. */
  method FormatBlock(d: Dir, block: array<Dword>) returns (err: int)
    requires DirOk(d)
    requires block.Length <= 0xFFFF_FFFF
    modifies block
    ensures err == 0 <==> TreeFits(d, 0, block.Length)
    ensures err != 0 && block.Length < INT_LIMIT ==> err == -EINVAL
    ensures err == 0 ==> DirAt(block[..], 0, d) && TreeOnWire(block[..], 0, d)
    ensures Untouched(old(block[..]), block[..], d, 0)
  {
    var ret := FormatDir(d, block, 0, block.Length);
    err := if ret < 0 then ret else 0;
    if err == 0 {
      DirOnWire(block[..], 0, d);
    }
  }
}
