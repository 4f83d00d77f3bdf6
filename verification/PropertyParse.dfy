/**
 Parsing a property block back into a directory, and the round trips
 (property.c). `Undefined` is the outcome of a C run this model gives no
 meaning to: it reads past the block, or it recurses deeper than `depth`.
 */
module PropertyParse {
  import opened Dwords
  import opened PropertyTree

  datatype Outcome<+T> = Parsed(value: T) | Rejected | Undefined {
    function Map<U>(f: T -> U): (r: Outcome<U>) {
      match this
      case Parsed(v) => Parsed(f(v))
      case Rejected => Rejected
      case Undefined => Undefined
    }
  }

  /** tb_property_entry_valid(); `value + length` is a 32-bit sum in C. */
  predicate EntryValid(tag: Dword, value: Dword, blockLen: nat) {
    var length := EntryLength(tag);
    var t := EntryType(tag);
    if t == 0x44 || t == 0x64 || t == 0x74 then
      length <= blockLen && (value as int + length) % 0x1_0000_0000 <= blockLen
    else if t == 0x76 then length == 1
    else true
  }

  /** The text buffer after the parser forces its last byte to NUL. */
  function Terminated(b: seq<Byte>): (t: seq<Byte>)
    requires b != []
  {
    b[|b| - 1 := 0]
  }

  /** Number of entries; the content length is a size_t and wraps below zero. */
  function EntryCount(dirLen: nat, isRoot: bool): (n: nat) {
    var content := if isRoot then dirLen else if dirLen >= 4 then dirLen - 4 else 0x1_0000_0000_0000_0000 + dirLen - 4;
    content / ENTRY_LEN
  }

  /** The switch of tb_property_parse() on the type of an entry. */
  function ParseValue(s: seq<Dword>, tag: Dword, value: Dword, depth: nat): (r: Outcome<Value>)
    decreases depth, 0, 0
  {
    var length := EntryLength(tag);
    match EntryType(tag)
    case 0x44 =>
      if depth == 0 then Undefined
      else ParseDir(s, value, length, false, depth - 1).Map(dir => Directory(dir))
    case 0x64 =>
      if value as int + length > |s| then Undefined
      else Parsed(Data(UnpackAll(s[value..value as int + length])))
    case 0x74 =>
      if value as int + length > |s| || length == 0 then Undefined
      else Parsed(Text(Terminated(UnpackAll(s[value..value as int + length]))))
    case 0x76 => Parsed(Immediate(value))
    case _ => Parsed(Unknown)
  }

  /** tb_property_parse() */
  function ParseProperty(s: seq<Dword>, entry: nat, depth: nat): (r: Outcome<Property>)
    decreases depth, 1, 0
  {
    if entry + ENTRY_LEN > |s| then Undefined
    else
      var tag, value := s[entry + 2], s[entry + 3];
      if !EntryValid(tag, value, |s|) then Rejected
      else
        var key := CString(UnpackAll(s[entry..entry + 2]));
        ParseValue(s, tag, value, depth).Map(v => Property(key, EntryLength(tag), v))
  }

  /** Append to the property list; the first failure ends the parse. */
  function Snoc(ps: Outcome<seq<Property>>, p: Outcome<Property>): (r: Outcome<seq<Property>>) {
    match ps
    case Parsed(list) => p.Map(q => list + [q])
    case _ => ps
  }

  /** The first `n` entries at `at`. */
  function ParseEntries(s: seq<Dword>, at: nat, n: nat, depth: nat): (r: Outcome<seq<Property>>)
    ensures r.Parsed? ==> |r.value| == n
    decreases depth, 2, n
  {
    if n == 0 then Parsed([])
    else Snoc(ParseEntries(s, at, n - 1, depth), ParseProperty(s, at + ENTRY_LEN * (n - 1), depth))
  }

  /** Header words of a directory the parser keeps. */
  function ParseUuid(s: seq<Dword>, off: nat, isRoot: bool): (u: Uuid)
    requires isRoot || off + UUID_LEN <= |s|
  {
    if isRoot then NoUuid else Uuid(s[off], s[off + 1], s[off + 2], s[off + 3])
  }

  /** __tb_property_parse_dir() */
  function ParseDir(s: seq<Dword>, off: nat, dirLen: nat, isRoot: bool, depth: nat): (r: Outcome<Dir>)
    decreases depth, 3, 0
  {
    if !isRoot && off + UUID_LEN > |s| then Undefined
    else
      var at := off + if isRoot then ROOTDIR_HEADER_LEN else UUID_LEN;
      var uuid := ParseUuid(s, off, isRoot);
      ParseEntries(s, at, EntryCount(dirLen, isRoot), depth).Map(ps => Dir(uuid, ps))
  }

  /** tb_property_parse_dir() */
  function ParseBlock(s: seq<Dword>, depth: nat): (r: Outcome<Dir>) {
    if |s| < ROOTDIR_HEADER_LEN then Undefined
    else if s[0] != ROOTDIR_MAGIC then Rejected
    else if s[1] > |s| then Rejected
    else ParseDir(s, 0, s[1], true, depth)
  }

  // ----- the parser as it runs: a loop that appends to the property list

  method RunParseProperty(s: seq<Dword>, entry: nat, depth: nat) returns (r: Outcome<Property>)
    ensures r == ParseProperty(s, entry, depth)
    decreases depth, 0
  {
    if entry + ENTRY_LEN > |s| {
      return Undefined;
    }
    var tag, value := s[entry + 2], s[entry + 3];
    if !EntryValid(tag, value, |s|) {
      return Rejected;
    }
    var key := CString(UnpackAll(s[entry..entry + 2]));
    var v := Parsed(Unknown);
    var length := EntryLength(tag);
    match EntryType(tag) {
      case 0x44 =>
        v := Undefined;
        if depth > 0 {
          var dir := RunParseDir(s, value, length, false, depth - 1);
          v := dir.Map(d => Directory(d));
        }
      case 0x64 =>
        v := if value as int + length > |s| then Undefined
             else Parsed(Data(UnpackAll(s[value..value as int + length])));
      case 0x74 =>
        v := if value as int + length > |s| || length == 0 then Undefined
             else Parsed(Text(Terminated(UnpackAll(s[value..value as int + length]))));
      case 0x76 => v := Parsed(Immediate(value));
      case _ =>
    }
    return v.Map(w => Property(key, length, w));
  }

  method RunParseDir(s: seq<Dword>, off: nat, dirLen: nat, isRoot: bool, depth: nat) returns (r: Outcome<Dir>)
    ensures r == ParseDir(s, off, dirLen, isRoot, depth)
    decreases depth, 3
  {
    if !isRoot && off + UUID_LEN > |s| {
      return Undefined;
    }
    var uuid := ParseUuid(s, off, isRoot);
    var at := off + if isRoot then ROOTDIR_HEADER_LEN else UUID_LEN;
    var props := RunParseEntries(s, at, EntryCount(dirLen, isRoot), depth);
    return props.Map(ps => Dir(uuid, ps));
  }

  /** One turn of the entry loop. */
  method RunParseEntry(s: seq<Dword>, at: nat, i: nat, depth: nat, list: seq<Property>) returns (r: Outcome<seq<Property>>)
    requires ParseEntries(s, at, i, depth) == Parsed(list)
    ensures r == ParseEntries(s, at, i + 1, depth)
    decreases depth, 1
  {
    var property := RunParseProperty(s, at + ENTRY_LEN * i, depth);
    EntriesSnoc(s, at, i, depth);
    r := Snoc(Parsed(list), property);
  }

  method RunParseEntries(s: seq<Dword>, at: nat, n: nat, depth: nat) returns (r: Outcome<seq<Property>>)
    ensures r == ParseEntries(s, at, n, depth)
    decreases depth, 2
  {
    var list := [];
    var i := 0;
    while i < n
      invariant i <= n
      invariant ParseEntries(s, at, i, depth) == Parsed(list)
    {
      r := RunParseEntry(s, at, i, depth, list);
      if !r.Parsed? {
        FailureStops(s, at, i + 1, n, depth);
        return;
      }
      list := r.value;
      i := i + 1;
    }
    return Parsed(list);
  }

  method RunParseBlock(s: seq<Dword>, depth: nat) returns (r: Outcome<Dir>)
    ensures r == ParseBlock(s, depth)
    ensures |s| >= 2 && (s[0] != 0x5558_4401 || s[1] > |s|) ==> r == Rejected
    ensures r.Parsed? ==> |s| >= 2 && s[0] == 0x5558_4401 && s[1] <= |s| && |r.value.props| == s[1] / 4
    ensures r.Parsed? ==> forall k | 0 <= k < s[1] / 4 :: 6 + 4 * k <= |s| && !Malformed(s, 2 + 4 * k)
  {
    BlockOutcome(s, depth);
    if |s| < ROOTDIR_HEADER_LEN {
      return Undefined;
    }
    if s[0] != ROOTDIR_MAGIC || s[1] > |s| {
      return Rejected;
    }
    r := RunParseDir(s, 0, s[1], true, depth);
  }

  lemma EntriesSnoc(s: seq<Dword>, at: nat, i: nat, depth: nat)
    ensures ParseEntries(s, at, i + 1, depth)
            == Snoc(ParseEntries(s, at, i, depth), ParseProperty(s, at + ENTRY_LEN * i, depth))
  {
  }

  lemma {:induction false} FailureStops(s: seq<Dword>, at: nat, i: nat, n: nat, depth: nat)
    requires i <= n && !ParseEntries(s, at, i, depth).Parsed?
    ensures ParseEntries(s, at, n, depth) == ParseEntries(s, at, i, depth)
  {
    if i < n {
      FailureStops(s, at, i, n - 1, depth);
    }
  }

  // ----- what is rejected

  /**
   The entry names a range that does not end inside the block, or is an immediate value of a
   length other than 1. Its type is the highest byte of its third dword, its length the low half.
   */
  predicate Malformed(s: seq<Dword>, entry: nat)
    requires entry + 4 <= |s|
  {
    var t, length, value := s[entry + 2] / 0x100_0000, s[entry + 2] % 0x1_0000, s[entry + 3] as int;
    || (t == 0x76 && length != 1)
    || ((t == 0x44 || t == 0x64 || t == 0x74) && (length > |s| || (value + length) % 0x1_0000_0000 > |s|))
  }

  /** A malformed entry is rejected; any other is, only if it is a directory with something rejected inside. */
  lemma EntryRejected(s: seq<Dword>, entry: nat, depth: nat)
    requires entry + 4 <= |s|
    ensures ParseProperty(s, entry, depth).Rejected? <==>
            || Malformed(s, entry)
            || (&& s[entry + 2] / 0x100_0000 == 0x44 && depth > 0
                && ParseDir(s, s[entry + 3], s[entry + 2] % 0x1_0000, false, depth - 1).Rejected?)
  {
  }

  /** The parse of a list of entries is rejected at the first malformed one it comes to. */
  lemma MalformedStops(s: seq<Dword>, at: nat, k: nat, n: nat, depth: nat)
    requires k < n && at + 4 * k + 4 <= |s| && ParseEntries(s, at, k, depth).Parsed? && Malformed(s, at + 4 * k)
    ensures ParseEntries(s, at, n, depth) == Rejected
  {
    EntriesSnoc(s, at, k, depth);
    EntryRejected(s, at + 4 * k, depth);
    FailureStops(s, at, k + 1, n, depth);
  }

  lemma AcceptedEntry(s: seq<Dword>, entry: nat, depth: nat)
    requires ParseProperty(s, entry, depth).Parsed?
    ensures entry + 4 <= |s| && !Malformed(s, entry)
  {
    if entry + 4 <= |s| {
      EntryRejected(s, entry, depth);
    }
  }

  lemma AcceptedLast(s: seq<Dword>, at: nat, n: nat, depth: nat)
    requires ParseEntries(s, at, n + 1, depth).Parsed?
    ensures ParseEntries(s, at, n, depth).Parsed? && ParseProperty(s, at + 4 * n, depth).Parsed?
  {
    EntriesSnoc(s, at, n, depth);
  }

  lemma AcceptedPrefix(s: seq<Dword>, at: nat, k: nat, n: nat, depth: nat)
    requires ParseEntries(s, at, n, depth).Parsed? && k <= n
    ensures ParseEntries(s, at, k, depth).Parsed?
  {
    if !ParseEntries(s, at, k, depth).Parsed? {
      FailureStops(s, at, k, n, depth);
    }
  }

  /** Each of `n` entries was parsed. */
  predicate AllParsed(s: seq<Dword>, at: nat, n: nat, depth: nat) {
    forall k | 0 <= k < n :: ParseProperty(s, at + 4 * k, depth).Parsed?
  }

  lemma AcceptedParsed(s: seq<Dword>, at: nat, n: nat, depth: nat)
    requires ParseEntries(s, at, n, depth).Parsed?
    ensures AllParsed(s, at, n, depth)
  {
    forall k | 0 <= k < n ensures ParseProperty(s, at + 4 * k, depth).Parsed? {
      AcceptedPrefix(s, at, k + 1, n, depth);
      AcceptedLast(s, at, k, depth);
    }
  }

  /** A list of parsed entries is in the block and holds no malformed one. */
  lemma AcceptedEntries(s: seq<Dword>, at: nat, n: nat, depth: nat)
    requires AllParsed(s, at, n, depth)
    ensures forall k | 0 <= k < n :: at + 4 * k + 4 <= |s| && !Malformed(s, at + 4 * k)
  {
    forall k | 0 <= k < n ensures at + 4 * k + 4 <= |s| && !Malformed(s, at + 4 * k) {
      AcceptedEntry(s, at + 4 * k, depth);
    }
  }

  /** A wrong magic number or a length past the block is rejected; an accepted block has neither, nor a malformed entry. */
  lemma BlockOutcome(s: seq<Dword>, depth: nat)
    ensures |s| >= 2 && (s[0] != 0x5558_4401 || s[1] > |s|) ==> ParseBlock(s, depth) == Rejected
    ensures var r := ParseBlock(s, depth);
            r.Parsed? ==> |s| >= 2 && s[0] == 0x5558_4401 && s[1] <= |s| && |r.value.props| == s[1] / 4
    ensures ParseBlock(s, depth).Parsed? ==> forall k | 0 <= k < s[1] / 4 :: 6 + 4 * k <= |s| && !Malformed(s, 2 + 4 * k)
  {
    if ParseBlock(s, depth).Parsed? {
      AcceptedParsed(s, 2, s[1] / 4, depth);
      AcceptedEntries(s, 2, s[1] / 4, depth);
    }
  }

  // ----- the bound on the recursion does not matter once it is deep enough

  lemma {:induction false} DeeperProperty(s: seq<Dword>, entry: nat, depth: nat, deeper: nat)
    requires depth <= deeper && !ParseProperty(s, entry, depth).Undefined?
    ensures ParseProperty(s, entry, deeper) == ParseProperty(s, entry, depth)
    decreases depth, 1, 0
  {
    if depth > 0 && entry + ENTRY_LEN <= |s| && EntryType(s[entry + 2]) == 0x44
       && EntryValid(s[entry + 2], s[entry + 3], |s|) {
      DeeperDir(s, s[entry + 3], EntryLength(s[entry + 2]), false, depth - 1, deeper - 1);
    }
  }

  lemma {:induction false} DeeperEntries(s: seq<Dword>, at: nat, n: nat, depth: nat, deeper: nat)
    requires depth <= deeper && !ParseEntries(s, at, n, depth).Undefined?
    ensures ParseEntries(s, at, n, deeper) == ParseEntries(s, at, n, depth)
    decreases depth, 2, n
  {
    if n > 0 {
      DeeperEntries(s, at, n - 1, depth, deeper);
      if ParseEntries(s, at, n - 1, depth).Parsed? {
        DeeperProperty(s, at + ENTRY_LEN * (n - 1), depth, deeper);
      }
    }
  }

  /** A parse that is defined within `depth` has the same outcome at every larger bound. */
  lemma {:induction false} DeeperDir(s: seq<Dword>, off: nat, dirLen: nat, isRoot: bool, depth: nat, deeper: nat)
    requires depth <= deeper && !ParseDir(s, off, dirLen, isRoot, depth).Undefined?
    ensures ParseDir(s, off, dirLen, isRoot, deeper) == ParseDir(s, off, dirLen, isRoot, depth)
    decreases depth, 3, 0
  {
    var at := off + if isRoot then ROOTDIR_HEADER_LEN else UUID_LEN;
    DeeperEntries(s, at, EntryCount(dirLen, isRoot), depth, deeper);
  }

  // ----- trees that differ in derived fields only

  /**
   Equal up to what an entry does not carry: the length field of a directory
   property is derived from its child, that of an unknown property is whatever
   the block held.
   */
  predicate SameProperty(a: Property, b: Property)
    decreases a, 0
  {
    && a.key == b.key
    && match a.value
       case Directory(c) => b.value.Directory? && SameDir(c, b.value.dir)
       case Unknown => b.value.Unknown?
       case _ => a.length == b.length && a.value == b.value
  }

  predicate SameList(a: seq<Property>, b: seq<Property>)
    decreases a, 0
  {
    |a| == |b| && forall k | 0 <= k < |a| :: SameProperty(a[k], b[k])
  }

  predicate SameDir(a: Dir, b: Dir)
    decreases a, 1
  {
    a.uuid == b.uuid && SameList(a.props, b.props)
  }

  function PropertyHeight(p: Property): (n: nat)
    decreases p, 0
  {
    if p.value.Directory? then Height(p.value.dir) + 1 else 0
  }

  function MaxHeight(ps: seq<Property>): (n: nat)
    ensures forall k | 0 <= k < |ps| :: PropertyHeight(ps[k]) <= n
    decreases ps, 0
  {
    if ps == [] then 0
    else
      var m := MaxHeight(ps[..|ps| - 1]);
      var h := PropertyHeight(ps[|ps| - 1]);
      if m < h then h else m
  }

  /** Nesting depth of a tree. */
  function Height(d: Dir): (n: nat)
    decreases d, 1
  {
    MaxHeight(d.props)
  }

  // ----- parsing what is laid out

  lemma KeyRecovered(key: seq<Byte>, ws: seq<Dword>)
    requires KeyOk(key) && ws == PackAll(PaddedKey(key))
    ensures CString(UnpackAll(ws)) == key
  {
    UnpackOfPackAll(PaddedKey(key));
    CStringUnique(PaddedKey(key), key);
  }

  lemma TextRecovered(b: seq<Byte>)
    requires b != [] && |b| % 4 == 0 && b[|b| - 1] == 0
    ensures Terminated(UnpackAll(PackAll(b))) == b
  {
    UnpackOfPackAll(b);
  }

  /** An entry whose key and value are in place parses to them. */
  lemma PropertyParsed(s: seq<Dword>, entry: nat, key: seq<Byte>, v: Value, depth: nat)
    requires entry + ENTRY_LEN <= |s| && KeyOk(key) && s[entry..entry + 2] == PackAll(PaddedKey(key))
    requires EntryValid(s[entry + 2], s[entry + 3], |s|)
    requires ParseValue(s, s[entry + 2], s[entry + 3], depth) == Parsed(v)
    ensures ParseProperty(s, entry, depth) == Parsed(Property(key, EntryLength(s[entry + 2]), v))
  {
    KeyRecovered(key, s[entry..entry + 2]);
  }

  lemma RangeValid(tag: Dword, value: Dword, blockLen: nat)
    requires blockLen < 0x1_0000_0000 && value as int + EntryLength(tag) <= blockLen && EntryType(tag) != 0x76
    ensures EntryValid(tag, value, blockLen)
  {
  }

  lemma DataRoundTrip(s: seq<Dword>, entry: nat, leaf: nat, sub: nat, p: Property, depth: nat)
    requires |s| < 0x1_0000_0000 && PropertyOk(p) && p.value.Data? && PropertyAt(s, entry, leaf, sub, p)
    ensures Recovers(s, entry, depth, p)
  {
    RangeValid(s[entry + 2], s[entry + 3], |s|);
    UnpackOfPackAll(p.value.data);
    PropertyParsed(s, entry, p.key, p.value, depth);
  }

  lemma TextParsed(s: seq<Dword>, tag: Dword, value: Dword, text: seq<Byte>, depth: nat)
    requires EntryType(tag) == 0x74 && text != [] && |text| % 4 == 0 && text[|text| - 1] == 0
    requires EntryLength(tag) == |text| / 4 && value as int + |text| / 4 <= |s|
    requires s[value..value as int + |text| / 4] == PackAll(text)
    ensures ParseValue(s, tag, value, depth) == Parsed(Text(text))
  {
    TextRecovered(text);
  }

  lemma TextRoundTrip(s: seq<Dword>, entry: nat, leaf: nat, sub: nat, p: Property, depth: nat)
    requires |s| < 0x1_0000_0000 && PropertyOk(p) && p.value.Text? && PropertyAt(s, entry, leaf, sub, p)
    ensures Recovers(s, entry, depth, p)
  {
    RangeValid(s[entry + 2], s[entry + 3], |s|);
    TextParsed(s, s[entry + 2], s[entry + 3], p.value.text, depth);
    PropertyParsed(s, entry, p.key, p.value, depth);
  }

  lemma WordRoundTrip(s: seq<Dword>, entry: nat, leaf: nat, sub: nat, p: Property, depth: nat)
    requires |s| < 0x1_0000_0000 && PropertyOk(p) && PropertyAt(s, entry, leaf, sub, p)
    requires p.value.Immediate? || p.value.Unknown?
    ensures Recovers(s, entry, depth, p)
  {
    PropertyParsed(s, entry, p.key, p.value, depth);
  }

  /** An entry whose child directory reads back parses back to it. */
  lemma ChildRoundTrip(s: seq<Dword>, entry: nat, leaf: nat, sub: nat, p: Property, depth: nat)
    requires |s| < 0x1_0000_0000 && PropertyOk(p) && p.value.Directory? && PropertyAt(s, entry, leaf, sub, p)
    requires depth > 0 && ReadsBack(s, sub, p.value.dir, depth - 1)
    ensures Recovers(s, entry, depth, p)
  {
    var c := p.value.dir;
    RangeValid(s[entry + 2], s[entry + 3], |s|);
    PropertyParsed(s, entry, p.key, Directory(ParseDir(s, sub, DirLen(c), false, depth - 1).value), depth);
  }

  lemma {:induction false} PropertyRoundTrip(s: seq<Dword>, entry: nat, leaf: nat, sub: nat, p: Property, depth: nat)
    requires |s| < 0x1_0000_0000 && PropertyOk(p) && PropertyAt(s, entry, leaf, sub, p)
    requires depth >= PropertyHeight(p)
    ensures Recovers(s, entry, depth, p)
    decreases p, 0
  {
    match p.value {
      case Directory(c) =>
        DirRoundTrip(s, sub, c, depth - 1);
        ChildRoundTrip(s, entry, leaf, sub, p, depth);
      case Data(_) => DataRoundTrip(s, entry, leaf, sub, p, depth);
      case Text(_) => TextRoundTrip(s, entry, leaf, sub, p, depth);
      case _ => WordRoundTrip(s, entry, leaf, sub, p, depth);
    }
  }

  predicate Recovers(s: seq<Dword>, entry: nat, depth: nat, p: Property) {
    var r := ParseProperty(s, entry, depth);
    r.Parsed? && SameProperty(r.value, p)
  }

  predicate AllRecover(s: seq<Dword>, at: nat, depth: nat, ps: seq<Property>) {
    forall k | 0 <= k < |ps| :: Recovers(s, at + ENTRY_LEN * k, depth, ps[k])
  }

  predicate ReadsBack(s: seq<Dword>, off: nat, d: Dir, depth: nat) {
    var dirLen := if d.uuid.NoUuid? then DirLen(d) - ROOTDIR_HEADER_LEN else DirLen(d);
    var r := ParseDir(s, off, dirLen, d.uuid.NoUuid?, depth);
    r.Parsed? && SameDir(r.value, d)
  }

  lemma SameListStep(a: seq<Property>, b: seq<Property>, n: nat, p: Property)
    requires 0 < n <= |b| && SameList(a, b[..n - 1]) && SameProperty(p, b[n - 1])
    ensures SameList(a + [p], b[..n])
  {
    forall k | 0 <= k < n
      ensures SameProperty((a + [p])[k], b[..n][k])
    {
      if k < n - 1 {
        assert SameProperty(a[k], b[..n - 1][k]);
      }
    }
  }

  lemma {:induction false} EntriesRecovered(s: seq<Dword>, at: nat, n: nat, depth: nat, b: seq<Property>)
    requires n <= |b| && AllRecover(s, at, depth, b)
    ensures ParseEntries(s, at, n, depth).Parsed?
    ensures SameList(ParseEntries(s, at, n, depth).value, b[..n])
  {
    if n > 0 {
      EntriesRecovered(s, at, n - 1, depth, b);
      assert Recovers(s, at + ENTRY_LEN * (n - 1), depth, b[n - 1]);
      var ps, p := ParseEntries(s, at, n - 1, depth).value, ParseProperty(s, at + ENTRY_LEN * (n - 1), depth).value;
      SameListStep(ps, b, n, p);
      assert ParseEntries(s, at, n, depth) == Parsed(ps + [p]);
    }
  }

  lemma UuidRecovered(s: seq<Dword>, off: nat, d: Dir)
    requires off + HeaderLen(d) <= |s| && HeaderAt(s, off, d)
    ensures ParseUuid(s, off, d.uuid.NoUuid?) == d.uuid
  {
    if d.uuid.Uuid? {
      var words := s[off..off + UUID_LEN];
      assert words[0] == s[off] && words[1] == s[off + 1] && words[2] == s[off + 2] && words[3] == s[off + 3];
    }
  }

  lemma EntryCountOf(d: Dir)
    ensures EntryCount(if d.uuid.NoUuid? then ENTRY_LEN * |d.props| else DirLen(d), d.uuid.NoUuid?) == |d.props|
  {
  }

  /** The directory at `off` reads back as `d` when each of its entries does. */
  lemma DirAssembled(s: seq<Dword>, off: nat, d: Dir, depth: nat)
    requires off + HeaderLen(d) <= |s| && HeaderAt(s, off, d)
    requires AllRecover(s, off + HeaderLen(d), depth, d.props)
    ensures ReadsBack(s, off, d, depth)
  {
    var n := |d.props|;
    EntriesRecovered(s, off + HeaderLen(d), n, depth, d.props);
    assert d.props[..n] == d.props;
    UuidRecovered(s, off, d);
    EntryCountOf(d);
  }

  lemma {:induction false} EntryRoundTrip(s: seq<Dword>, off: nat, d: Dir, k: nat, depth: nat)
    requires |s| < 0x1_0000_0000 && DirOk(d) && DirAt(s, off, d)
    requires k < |d.props| && depth >= Height(d)
    ensures Recovers(s, off + HeaderLen(d) + ENTRY_LEN * k, depth, d.props[k])
    decreases d, 0
  {
    PropertyRoundTrip(s, EntryPos(off, d, k), LeafPos(off, d, k), SubPos(off, d, k), d.props[k], depth);
  }

  lemma {:induction false} EntriesRoundTrip(s: seq<Dword>, off: nat, d: Dir, depth: nat)
    requires |s| < 0x1_0000_0000 && DirOk(d) && DirAt(s, off, d) && depth >= Height(d)
    ensures AllRecover(s, off + HeaderLen(d), depth, d.props)
    decreases d, 1
  {
    forall k | 0 <= k < |d.props|
      ensures Recovers(s, off + HeaderLen(d) + ENTRY_LEN * k, depth, d.props[k])
    {
      EntryRoundTrip(s, off, d, k, depth);
    }
  }

  /** Whatever tree a block holds at `off`, parsing there gives that tree back. */
  lemma {:induction false} DirRoundTrip(s: seq<Dword>, off: nat, d: Dir, depth: nat)
    requires |s| < 0x1_0000_0000 && DirOk(d) && DirAt(s, off, d)
    requires depth >= Height(d)
    ensures ReadsBack(s, off, d, depth)
    decreases d, 2
  {
    EntriesRoundTrip(s, off, d, depth);
    DirAssembled(s, off, d, depth);
  }

  lemma RootHeader(s: seq<Dword>, d: Dir)
    requires DirOk(d) && d.uuid.NoUuid? && DirAt(s, 0, d)
    ensures |s| >= ROOTDIR_HEADER_LEN && s[0] == ROOTDIR_MAGIC && s[1] == DirLen(d) - ROOTDIR_HEADER_LEN && s[1] <= |s|
  {
  }

  /** Parsing a formatted block terminates and gives the formatted tree back. */
  lemma RoundTrip(s: seq<Dword>, d: Dir, depth: nat)
    requires |s| < 0x1_0000_0000 && DirOk(d) && d.uuid.NoUuid? && DirAt(s, 0, d)
    requires depth >= Height(d)
    ensures ParseBlock(s, depth).Parsed? && SameDir(ParseBlock(s, depth).value, d)
  {
    RootHeader(s, d);
    DirRoundTrip(s, 0, d, depth);
    assert ReadsBack(s, 0, d, depth);
  }
}
