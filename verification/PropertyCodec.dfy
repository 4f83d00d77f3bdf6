/**
 The property codec as a whole (property.c): format then parse, re-formatting
 a parsed tree, and deep copies.
 */
module PropertyCodec {
  import opened Dwords
  import opened PropertyTree
  import opened PropertyFormat
  import opened PropertyParse

  /**
   A host formats its directory into a block and its peer parses that block.
   The exchange succeeds exactly when the block has the size the length query
   reports, which for a tree with children must fit a 32-bit int, and the peer
   then holds the same tree.
   */
  method Exchange(d: Dir, block: array<Dword>) returns (peer: Outcome<Dir>)
    requires DirOk(d) && d.uuid.NoUuid?
    requires block.Length < 0x1_0000_0000
    modifies block
    ensures peer.Parsed? <==> TreeFits(d, 0, block.Length)
    ensures peer.Parsed? ==> SameDir(peer.value, d) && DirOk(peer.value) && DirAt(block[..], 0, peer.value)
    ensures Untouched(old(block[..]), block[..], d, 0)
  {
    var err := FormatBlock(d, block);
    if err != 0 {
      return Rejected;
    }
    RoundTrip(block[..], d, Height(d));
    peer := RunParseBlock(block[..], Height(d));
    SameLayout(block[..], 0, peer.value, d);
  }

  // ----- trees that are the same have the same layout

  lemma {:induction false} SameSizes(a: seq<Property>, b: seq<Property>)
    requires SameList(a, b)
    ensures Leaves(a) == Leaves(b) && Pads(a) == Pads(b) && Subtrees(a) == Subtrees(b)
    decreases a, 0
  {
    if a != [] {
      var n := |a| - 1;
      assert SameProperty(a[n], b[n]);
      assert SameList(a[..n], b[..n]) by {
        forall k | 0 <= k < n ensures SameProperty(a[..n][k], b[..n][k]) {
          assert SameProperty(a[k], b[k]);
        }
      }
      SameSizes(a[..n], b[..n]);
      if a[n].value.Directory? {
        SameSize(a[n].value.dir, b[n].value.dir);
      }
    }
  }

  lemma {:induction false} SameSize(a: Dir, b: Dir)
    requires SameDir(a, b)
    ensures HeaderLen(a) == HeaderLen(b) && DirLen(a) == DirLen(b) && Size(a) == Size(b)
    decreases a, 1
  {
    SameSizes(a.props, b.props);
  }

  lemma {:induction false} SamePositions(off: nat, a: Dir, b: Dir, k: nat)
    requires SameDir(a, b) && k <= |a.props| == |b.props|
    ensures EntryPos(off, a, k) == EntryPos(off, b, k)
    ensures LeafPos(off, a, k) == LeafPos(off, b, k)
    ensures SubPos(off, a, k) == SubPos(off, b, k)
  {
    SameSizes(a.props, b.props);
    assert SameList(a.props[..k], b.props[..k]) by {
      forall j | 0 <= j < k ensures SameProperty(a.props[..k][j], b.props[..k][j]) {
        assert SameProperty(a.props[j], b.props[j]);
      }
    }
    SameSizes(a.props[..k], b.props[..k]);
  }

  lemma {:induction false} SamePlace(s: seq<Dword>, entry: nat, leaf: nat, sub: nat, a: Property, b: Property)
    requires SameProperty(a, b) && PropertyOk(b) && PropertyAt(s, entry, leaf, sub, b)
    ensures PropertyOk(a) && PropertyAt(s, entry, leaf, sub, a)
    decreases a, 0
  {
    if a.value.Directory? {
      SameSize(a.value.dir, b.value.dir);
      SameLayout(s, sub, a.value.dir, b.value.dir);
    }
  }

  /** A block that holds `b` holds every tree that is the same as `b`. */
  lemma {:induction false} SameLayout(s: seq<Dword>, off: nat, a: Dir, b: Dir)
    requires SameDir(a, b) && DirOk(b) && DirAt(s, off, b)
    ensures DirOk(a) && DirAt(s, off, a)
    decreases a, 1
  {
    SameSize(a, b);
    forall k | 0 <= k < |a.props|
      ensures PropertyOk(a.props[k])
      ensures PropertyAt(s, EntryPos(off, a, k), LeafPos(off, a, k), SubPos(off, a, k), a.props[k])
    {
      SamePositions(off, a, b, k);
      assert SameProperty(a.props[k], b.props[k]);
      SamePlace(s, EntryPos(off, b, k), LeafPos(off, b, k), SubPos(off, b, k), a.props[k], b.props[k]);
    }
  }

  /** A block holds at most one root directory at its start, up to derived fields. */
  lemma LayoutUnambiguous(s: seq<Dword>, a: Dir, b: Dir)
    requires |s| < 0x1_0000_0000 && a.uuid.NoUuid? && b.uuid.NoUuid?
    requires DirOk(a) && DirAt(s, 0, a) && DirOk(b) && DirAt(s, 0, b)
    ensures exists t: Dir :: SameDir(t, a) && SameDir(t, b)
  {
    var depth := Height(a) + Height(b);
    RoundTrip(s, a, depth);
    RoundTrip(s, b, depth);
    var t := ParseBlock(s, depth).value;
    assert SameDir(t, a) && SameDir(t, b);
  }

  // ----- deep copy

  /** kzalloc() then strcpy(): nothing after the first NUL is copied. */
  function CopiedText(b: seq<Byte>): (t: seq<Byte>)
    ensures |t| == |b|
  {
    var s := CString(b);
    s + Zeros(|b| - |s|)
  }

  function CopiedProperty(p: Property): (q: Property)
    decreases p, 0
  {
    match p.value
    case Directory(c) => Property(CString(p.key), p.length, Directory(CopiedDir(c)))
    case Text(b) => Property(CString(p.key), p.length, Text(CopiedText(b)))
    case v => Property(CString(p.key), p.length, v)
  }

  function CopiedList(ps: seq<Property>): (qs: seq<Property>)
    ensures |qs| == |ps|
    decreases ps, 0
  {
    if ps == [] then [] else CopiedList(ps[..|ps| - 1]) + [CopiedProperty(ps[|ps| - 1])]
  }

  function CopiedDir(d: Dir): (c: Dir)
    decreases d, 1
  {
    Dir(d.uuid, CopiedList(d.props))
  }

  /** tb_property_copy_dir() */
  method CopyDir(d: Dir) returns (c: Dir)
    ensures c == CopiedDir(d)
    decreases d
  {
    c := Dir(d.uuid, []);
    var i := 0;
    while i < |d.props|
      invariant i <= |d.props|
      invariant c == Dir(d.uuid, CopiedList(d.props[..i]))
    {
      var p := d.props[i];
      var value := p.value;
      match p.value {
        case Directory(child) =>
          var copy := CopyDir(child);
          value := Directory(copy);
        case Text(b) => value := Text(CopiedText(b));
        case _ =>
      }
      c := c.(props := c.props + [Property(CString(p.key), p.length, value)]);
      assert d.props[..i + 1][..i] == d.props[..i];
      i := i + 1;
    }
    assert d.props[..i] == d.props;
  }

  /** Text carries only NUL after its first NUL, everywhere in the tree. */
  predicate ZeroPadded(p: Property)
    decreases p, 0
  {
    match p.value
    case Directory(c) => AllZeroPadded(c)
    case Text(b) => forall i | |CString(b)| <= i < |b| :: b[i] == 0
    case _ => true
  }

  predicate AllZeroPadded(d: Dir)
    decreases d, 1
  {
    forall k | 0 <= k < |d.props| :: ZeroPadded(d.props[k])
  }

  lemma {:induction false} CopyAt(ps: seq<Property>, k: nat)
    requires k < |ps|
    ensures CopiedList(ps)[k] == CopiedProperty(ps[k])
  {
    if k < |ps| - 1 {
      CopyAt(ps[..|ps| - 1], k);
    }
  }

  lemma {:induction false} CopyPropertyExact(p: Property)
    requires PropertyOk(p)
    ensures CopiedProperty(p) == p <==> ZeroPadded(p)
    decreases p, 0
  {
    CStringUnique(p.key, p.key);
    match p.value {
      case Directory(c) => CopyExact(c);
      case Text(b) =>
        var s := CString(b);
        assert b == s + b[|s|..];
        if CopiedText(b) == b {
          forall i | |s| <= i < |b| ensures b[i] == 0 {
            assert b[i] == CopiedText(b)[i];
          }
        }
      case _ =>
    }
  }

  /**
   A deep copy is identical, so it formats to the same block, if and only if
   every text in the tree is zero-padded after its terminator.
   */
  lemma {:induction false} CopyExact(d: Dir)
    requires DirOk(d)
    ensures CopiedDir(d) == d <==> AllZeroPadded(d)
    decreases d, 1
  {
    forall k | 0 <= k < |d.props|
      ensures CopiedList(d.props)[k] == d.props[k] <==> ZeroPadded(d.props[k])
    {
      CopyAt(d.props, k);
      CopyPropertyExact(d.props[k]);
    }
    if AllZeroPadded(d) {
      assert CopiedList(d.props) == d.props;
    }
  }

  /** tb_property_add_text() produces zero-padded text. */
  function PaddedText(text: seq<Byte>): (b: seq<Byte>)
    ensures |b| % 4 == 0 && |b| > |text| && b[|b| - 1] == 0
  {
    text + Zeros(4 - |text| % 4)
  }

  /** What tb_property_add_text() stores survives copying, and reads back as the text it was given. */
  lemma AddedText(key: seq<Byte>, text: seq<Byte>)
    requires KeyOk(key) && 0 !in text && |PaddedText(text)| < 0x4_0000
    ensures var p := Property(key, |PaddedText(text)| / 4, Text(PaddedText(text)));
            PropertyOk(p) && CopiedProperty(p) == p && CString(p.value.text) == text
  {
    CStringUnique(PaddedText(text), text);
    var p := Property(key, |PaddedText(text)| / 4, Text(PaddedText(text)));
    CopyPropertyExact(p);
  }
}
