/**
  Reading a header object from Python: `h[key]` (`hdrSubscript`, with the
  key resolved by `tagNumFromPyObject` and then the extension registry) and
  `h.keys()` (`hdrKeyList`).

  rpmlib's tag table and extension registry are inputs; so are
  `rpmPackageGetEntry` (the lookup in the header and its signature block)
  and each extension's compute function, both given as functions.
 */
module HeaderAccess {
  import opened CStrings
  import opened PyObjects
  import opened RpmTags

  newtype uint16 = x: int | 0 <= x < 0x1_0000
  newtype uint32 = x: int | 0 <= x < 0x1_0000_0000

  /**
    One header entry's value as rpmlib hands it out: a closed set of types,
    each a sequence of `count` items. Integers are raw two's-complement
    words; strings never contain NUL. `Other` is any type code the
    binding does not handle (`NULL`, `INT64`, `I18NSTRING`).
   */
  datatype EntryData =
    | Bin(bytes: seq<byte>)
    | Chars(c8: seq<byte>)
    | Int8s(i8: seq<byte>)
    | Int16s(i16: seq<uint16>)
    | Int32s(i32: seq<uint32>)
    | Str(strs: seq<string>)
    | StrArray(strs: seq<string>)
    | Other(code: int)
  {
    function TypeCode(): int
    {
      match this
      case Bin(_) => BIN_TYPE
      case Chars(_) => CHAR_TYPE
      case Int8s(_) => INT8_TYPE
      case Int16s(_) => INT16_TYPE
      case Int32s(_) => INT32_TYPE
      case Str(_) => STRING_TYPE
      case StrArray(_) => STRING_ARRAY_TYPE
      case Other(code) => code
    }

    /** The `count` rpmlib reports with the entry. */
    function Count(): nat
    {
      match this
      case Bin(b) => |b|
      case Chars(v) => |v|
      case Int8s(v) => |v|
      case Int16s(v) => |v|
      case Int32s(v) => |v|
      case Str(s) => |s|
      case StrArray(s) => |s|
      case Other(_) => 0
    }

    predicate IsNumeric()
    {
      Chars? || Int8s? || Int16s? || Int32s?
    }

    /** An `Other` entry really carries a type the binding does not handle. */
    predicate WellFormed()
    {
      Other? ==> code !in SupportedTypes
    }
  }

  // ---------------------------------------------------------------------
  // From raw words to Python integers: `char`, `short` and `int` are signed.

  function Signed8(b: byte): (r: int)
    ensures -0x80 <= r < 0x80
  {
    if b < 0x80 then b as int else b as int - 0x100
  }

  function Signed16(b: uint16): (r: int)
    ensures -0x8000 <= r < 0x8000
  {
    if b < 0x8000 then b as int else b as int - 0x1_0000
  }

  function Signed32(b: uint32): (r: int)
    ensures -0x8000_0000 <= r < 0x8000_0000
  {
    if b < 0x8000_0000 then b as int else b as int - 0x1_0000_0000
  }

  /** The Python integers a numeric entry becomes, in order. */
  function NumericValues(d: EntryData): (r: seq<int>)
    requires d.IsNumeric()
    ensures |r| == d.Count()
  {
    match d
    case Chars(v) => seq(|v|, i requires 0 <= i < |v| => Signed8(v[i]))
    case Int8s(v) => seq(|v|, i requires 0 <= i < |v| => Signed8(v[i]))
    case Int16s(v) => seq(|v|, i requires 0 <= i < |v| => Signed16(v[i]))
    case Int32s(v) => seq(|v|, i requires 0 <= i < |v| => Signed32(v[i]))
  }

  function IntList(xs: seq<int>): (r: PyValue)
    ensures r.PyList? && |r.items| == |xs|
  {
    PyList(seq(|xs|, i requires 0 <= i < |xs| => PyInt(xs[i])))
  }

  function StrList(ss: seq<string>): (r: PyValue)
    ensures r.PyList? && |r.items| == |ss|
  {
    PyList(seq(|ss|, i requires 0 <= i < |ss| => PyStr(ss[i])))
  }

  const UnsupportedType: PyError := TypeError("unsupported type in header")

  /**
    The Python value an entry becomes. Integers and strings are bare
    scalars exactly when the entry holds one item and the tag is not forced
    to an array; otherwise, like string arrays, they are lists of `count`
    items. Binary entries become a byte string of `count` bytes.
   */
  function Shape(d: EntryData, forceArray: bool): (r: Outcome<PyValue>)
    ensures d.Other? <==> r == Raise(UnsupportedType)
    ensures d.Bin? ==> r == Ok(PyBytes(d.bytes)) && |d.bytes| == d.Count()
    ensures d.StrArray? ==> r == Ok(StrList(d.strs))
    ensures d.Str? && (d.Count() != 1 || forceArray) ==> r == Ok(StrList(d.strs))
    ensures d.Str? && d.Count() == 1 && !forceArray ==> r == Ok(PyStr(d.strs[0]))
    ensures d.IsNumeric() && (d.Count() != 1 || forceArray) ==> r == Ok(IntList(NumericValues(d)))
    ensures d.IsNumeric() && d.Count() == 1 && !forceArray ==> r == Ok(PyInt(NumericValues(d)[0]))
  {
    match d
    case Bin(b) => Ok(PyBytes(b))
    case StrArray(ss) => Ok(StrList(ss))
    case Str(ss) => if |ss| != 1 || forceArray then Ok(StrList(ss)) else Ok(PyStr(ss[0]))
    case Other(_) => Raise(UnsupportedType)
    case _ =>
      var xs := NumericValues(d);
      if |xs| != 1 || forceArray then Ok(IntList(xs)) else Ok(PyInt(xs[0]))
  }

  // ---------------------------------------------------------------------
  // Shaping loses nothing: the entry can be read back from the Python value.

  function Unsigned8(x: int): byte
    requires -0x80 <= x < 0x80
  {
    (if x < 0 then x + 0x100 else x) as byte
  }

  function Unsigned16(x: int): uint16
    requires -0x8000 <= x < 0x8000
  {
    (if x < 0 then x + 0x1_0000 else x) as uint16
  }

  function Unsigned32(x: int): uint32
    requires -0x8000_0000 <= x < 0x8000_0000
  {
    (if x < 0 then x + 0x1_0000_0000 else x) as uint32
  }

  function IntsOf(items: seq<PyValue>): Option<seq<int>>
  {
    if |items| == 0 then Some([])
    else if !items[0].PyInt? then None
    else match IntsOf(items[1..])
      case None => None
      case Some(rest) => Some([items[0].i] + rest)
  }

  function StrsOf(items: seq<PyValue>): Option<seq<string>>
  {
    if |items| == 0 then Some([])
    else if !items[0].PyStr? then None
    else match StrsOf(items[1..])
      case None => None
      case Some(rest) => Some([items[0].s] + rest)
  }

  /** The integers a value of an integer type carries: one bare scalar or a list. */
  function IntsOfValue(v: PyValue): Option<seq<int>>
  {
    match v
    case PyInt(x) => Some([x])
    case PyList(items) => IntsOf(items)
    case _ => None
  }

  function StrsOfValue(v: PyValue): Option<seq<string>>
  {
    match v
    case PyStr(s) => Some([s])
    case PyList(items) => StrsOf(items)
    case _ => None
  }

  /** Rebuild an entry of type `code` from the Python value `hdrSubscript` gave for it. */
  function Unshape(code: int, v: PyValue): Option<EntryData>
  {
    if code == BIN_TYPE then (if v.PyBytes? then Some(Bin(v.bytes)) else None)
    else if code == STRING_ARRAY_TYPE then
      (if v.PyList? then match StrsOf(v.items) case None => None case Some(ss) => Some(StrArray(ss)) else None)
    else if code == STRING_TYPE then
      (match StrsOfValue(v) case None => None case Some(ss) => Some(Str(ss)))
    else if code in {CHAR_TYPE, INT8_TYPE, INT16_TYPE, INT32_TYPE} then
      match IntsOfValue(v)
      case None => None
      case Some(xs) =>
        if code == INT32_TYPE then (match Words32(xs) case None => None case Some(w) => Some(Int32s(w)))
        else if code == INT16_TYPE then (match Words16(xs) case None => None case Some(w) => Some(Int16s(w)))
        else if code == INT8_TYPE then (match Words8(xs) case None => None case Some(w) => Some(Int8s(w)))
        else (match Words8(xs) case None => None case Some(w) => Some(Chars(w)))
    else None
  }

  /** The raw 8-bit words behind signed values, when every value fits. */
  function Words8(xs: seq<int>): Option<seq<byte>>
  {
    if forall i :: 0 <= i < |xs| ==> -0x80 <= xs[i] < 0x80
    then Some(seq(|xs|, i requires 0 <= i < |xs| && -0x80 <= xs[i] < 0x80 => Unsigned8(xs[i])))
    else None
  }

  function Words16(xs: seq<int>): Option<seq<uint16>>
  {
    if forall i :: 0 <= i < |xs| ==> -0x8000 <= xs[i] < 0x8000
    then Some(seq(|xs|, i requires 0 <= i < |xs| && -0x8000 <= xs[i] < 0x8000 => Unsigned16(xs[i])))
    else None
  }

  function Words32(xs: seq<int>): Option<seq<uint32>>
  {
    if forall i :: 0 <= i < |xs| ==> -0x8000_0000 <= xs[i] < 0x8000_0000
    then Some(seq(|xs|, i requires 0 <= i < |xs| && -0x8000_0000 <= xs[i] < 0x8000_0000 => Unsigned32(xs[i])))
    else None
  }

  lemma Words8OfSigned(v: seq<byte>)
    ensures Words8(seq(|v|, i requires 0 <= i < |v| => Signed8(v[i]))) == Some(v)
  {
    var xs := seq(|v|, i requires 0 <= i < |v| => Signed8(v[i]));
    assert forall i :: 0 <= i < |v| ==> Unsigned8(xs[i]) == v[i];
    assert seq(|xs|, i requires 0 <= i < |xs| && -0x80 <= xs[i] < 0x80 => Unsigned8(xs[i])) == v;
  }

  lemma Words16OfSigned(v: seq<uint16>)
    ensures Words16(seq(|v|, i requires 0 <= i < |v| => Signed16(v[i]))) == Some(v)
  {
    var xs := seq(|v|, i requires 0 <= i < |v| => Signed16(v[i]));
    assert forall i :: 0 <= i < |v| ==> Unsigned16(xs[i]) == v[i];
    assert seq(|xs|, i requires 0 <= i < |xs| && -0x8000 <= xs[i] < 0x8000 => Unsigned16(xs[i])) == v;
  }

  lemma Words32OfSigned(v: seq<uint32>)
    ensures Words32(seq(|v|, i requires 0 <= i < |v| => Signed32(v[i]))) == Some(v)
  {
    var xs := seq(|v|, i requires 0 <= i < |v| => Signed32(v[i]));
    assert forall i :: 0 <= i < |v| ==> Unsigned32(xs[i]) == v[i];
    assert seq(|xs|, i requires 0 <= i < |xs| && -0x8000_0000 <= xs[i] < 0x8000_0000 => Unsigned32(xs[i])) == v;
  }

  lemma {:induction false} IntsOfIntList(xs: seq<int>)
    ensures IntsOf(IntList(xs).items) == Some(xs)
  {
    var items := IntList(xs).items;
    if |xs| > 0 {
      IntsOfIntList(xs[1..]);
      assert items[1..] == IntList(xs[1..]).items;
      assert items[0] == PyInt(xs[0]);
      assert xs == [xs[0]] + xs[1..];
    }
  }

  lemma {:induction false} StrsOfStrList(ss: seq<string>)
    ensures StrsOf(StrList(ss).items) == Some(ss)
  {
    var items := StrList(ss).items;
    if |ss| > 0 {
      StrsOfStrList(ss[1..]);
      assert items[1..] == StrList(ss[1..]).items;
      assert items[0] == PyStr(ss[0]);
      assert ss == [ss[0]] + ss[1..];
    }
  }

  lemma NumericRoundTrip(d: EntryData)
    requires d.IsNumeric()
    ensures Unshape(d.TypeCode(), IntList(NumericValues(d))) == Some(d)
  {
    IntsOfIntList(NumericValues(d));
    match d
    case Chars(v) => Words8OfSigned(v);
    case Int8s(v) => Words8OfSigned(v);
    case Int16s(v) => Words16OfSigned(v);
    case Int32s(v) => Words32OfSigned(v);
  }

  lemma NumericScalarRoundTrip(d: EntryData, forceArray: bool)
    requires d.IsNumeric()
    ensures Unshape(d.TypeCode(), Shape(d, forceArray).value) == Some(d)
  {
    var xs := NumericValues(d);
    NumericRoundTrip(d);
    if |xs| == 1 && !forceArray {
      IntsOfIntList(xs);
      assert xs == [xs[0]];
    }
  }

  /**
    Whatever the force-array flag, the value `hdrSubscript` builds for a
    supported entry determines the entry: reading it back with the entry's
    type gives the entry again (signs, counts and contents all survive).
   */
  lemma ShapeRoundTrip(d: EntryData, forceArray: bool)
    requires !d.Other?
    ensures Shape(d, forceArray).Ok?
    ensures Unshape(d.TypeCode(), Shape(d, forceArray).value) == Some(d)
  {
    match d
    case Bin(_) =>
    case StrArray(ss) =>
      StrsOfStrList(ss);
    case Str(ss) =>
      if |ss| != 1 || forceArray {
        StrsOfStrList(ss);
      } else {
        assert [ss[0]] == ss;
      }
    case Chars(_) => NumericScalarRoundTrip(d, forceArray);
    case Int8s(_) => NumericScalarRoundTrip(d, forceArray);
    case Int16s(_) => NumericScalarRoundTrip(d, forceArray);
    case Int32s(_) => NumericScalarRoundTrip(d, forceArray);
  }

  // ---------------------------------------------------------------------
  // Resolving a key

  /** One row of rpmlib's `rpmTagTable`: a name such as "RPMTAG_NAME" and its tag. */
  datatype TagEntry = TagEntry(name: string, value: int)

  /** One row of `rpmHeaderFormats`; `id` stands for its compute function. */
  datatype Extension = Extension(name: string, isTagExt: bool, id: int)

  /** The key object passed to `h[key]`: a Python int, a str, an extension handle, or anything else. */
  datatype PyKey = IntKey(i: int) | StrKey(s: string) | ExtKey(ext: Extension) | OtherKey

  /** Every name carries the seven-character "RPMTAG_" prefix the lookups skip. */
  predicate TableWellFormed(table: seq<TagEntry>)
  {
    forall i :: 0 <= i < |table| ==> |table[i].name| >= 7
  }

  predicate ExtsWellFormed(exts: seq<Extension>)
  {
    forall i :: 0 <= i < |exts| ==> |exts[i].name| >= 7
  }

  /** The name after its prefix equals the key ignoring case, as C sees the key. */
  predicate NameMatches(name: string, key: string)
    requires |name| >= 7
  {
    StrCaseCmp(name[7..], key) == 0
  }

  /** The index of the first table row at or after `from` whose name matches `key`. */
  function FindTag(table: seq<TagEntry>, key: string, from: nat): (r: Option<nat>)
    requires TableWellFormed(table) && from <= |table|
    ensures r.Some? ==> from <= r.value < |table| && NameMatches(table[r.value].name, key)
    ensures r.Some? ==> forall j :: from <= j < r.value ==> !NameMatches(table[j].name, key)
    ensures r.None? ==> forall j :: from <= j < |table| ==> !NameMatches(table[j].name, key)
    decreases |table| - from
  {
    if from == |table| then None
    else if NameMatches(table[from].name, key) then Some(from)
    else FindTag(table, key, from + 1)
  }

  /**
    `tagNumFromPyObject`: an integer is returned as it is; a string gives the
    value of the first table row whose name after "RPMTAG_" matches it
    ignoring case; everything else, and an unmatched string, gives -1.
   */
  function TagNum(table: seq<TagEntry>, key: PyKey): (r: int)
    requires TableWellFormed(table)
    ensures key.IntKey? ==> r == key.i
    ensures key.StrKey? ==>
              forall k :: 0 <= k < |table| && NameMatches(table[k].name, key.s) &&
                          (forall j :: 0 <= j < k ==> !NameMatches(table[j].name, key.s)) ==>
                            r == table[k].value
    ensures key.StrKey? && (forall j :: 0 <= j < |table| ==> !NameMatches(table[j].name, key.s)) ==> r == -1
    ensures key.ExtKey? || key.OtherKey? ==> r == -1
  {
    match key
    case IntKey(i) => i
    case StrKey(s) =>
      (match FindTag(table, s, 0)
       case Some(k) => table[k].value
       case None => -1)
    case _ => -1
  }

  predicate ExtMatches(e: Extension, key: string)
    requires |e.name| >= 7
  {
    e.isTagExt && StrCaseCmp(e.name[7..], key) == 0
  }

  /**
    The index of the extension the registry scan settles on among rows
    `from..`: the scan never stops early, so it is the LAST matching row.
   */
  function LastExtension(exts: seq<Extension>, key: string, from: nat): (r: Option<nat>)
    requires ExtsWellFormed(exts) && from <= |exts|
    ensures r.Some? ==> from <= r.value < |exts| && ExtMatches(exts[r.value], key)
    ensures r.Some? ==> forall j :: r.value < j < |exts| ==> !ExtMatches(exts[j], key)
    ensures r.None? ==> forall j :: from <= j < |exts| ==> !ExtMatches(exts[j], key)
    decreases |exts| - from
  {
    if from == |exts| then None
    else match LastExtension(exts, key, from + 1)
      case Some(k) => Some(k)
      case None => if ExtMatches(exts[from], key) then Some(from) else None
  }

  /** What a key resolves to. */
  datatype Resolution = ByTag(tag: int) | ByExt(ext: Extension) | Unresolved

  /**
    The key resolution at the head of `hdrSubscript`. The tag is stored in a
    32-bit `int`, so an integer key wraps; -1 means "no tag". Only a string
    key that names no tag goes on to the extension registry.
   */
  function Resolve(table: seq<TagEntry>, exts: seq<Extension>, key: PyKey): (r: Resolution)
    requires TableWellFormed(table) && ExtsWellFormed(exts)
    ensures key.ExtKey? ==> r == ByExt(key.ext)
    ensures key.OtherKey? ==> r == Unresolved
    ensures r.ByTag? ==> r.tag != -1 && r.tag == Int32(TagNum(table, key)) && !key.ExtKey?
    ensures r.ByExt? && !key.ExtKey? ==> key.StrKey? && r.ext in exts && Int32(TagNum(table, key)) == -1
    // An integer or string key whose tag, wrapped to 32 bits, is not -1 reads that tag.
    ensures (key.IntKey? || key.StrKey?) && Int32(TagNum(table, key)) != -1 ==> r == ByTag(Int32(TagNum(table, key)))
    // Otherwise an integer key is unknown, and a string key falls back to the last matching extension.
    ensures key.IntKey? && Int32(TagNum(table, key)) == -1 ==> r == Unresolved
    ensures key.StrKey? && Int32(TagNum(table, key)) == -1 ==>
              r == (match LastExtension(exts, key.s, 0)
                    case Some(k) => ByExt(exts[k])
                    case None => Unresolved)
  {
    if key.ExtKey? then ByExt(key.ext)
    else
      var tag := Int32(TagNum(table, key));
      if tag == -1 && key.StrKey? then
        match LastExtension(exts, key.s, 0)
        case Some(k) => ByExt(exts[k])
        case None => Unresolved
      else if tag == -1 then Unresolved
      else ByTag(tag)
  }

  const UnknownTag: PyError := KeyError("unknown header tag")

  /**
    `h[key]`. `getEntry` is rpmlib's lookup in the header and its signature
    block; `tagFunction` runs an extension on the header and yields `None`
    when the extension reports failure. The binding ignores that status and
    goes on to convert `type` and `data`, which were never set.
   */
  function HdrSubscript(table: seq<TagEntry>, exts: seq<Extension>, getEntry: int -> Option<EntryData>,
                        tagFunction: Extension -> Option<EntryData>, key: PyKey): (r: Outcome<PyValue>)
    requires TableWellFormed(table) && ExtsWellFormed(exts)
    ensures Resolve(table, exts, key).Unresolved? <==> r == Raise(UnknownTag)
    ensures Resolve(table, exts, key).ByTag? && getEntry(Resolve(table, exts, key).tag).None? <==> r == Ok(PyNone)
    ensures r.Undefined? <==> Resolve(table, exts, key).ByExt? && tagFunction(Resolve(table, exts, key).ext).None?
    ensures Resolve(table, exts, key).ByExt? && tagFunction(Resolve(table, exts, key).ext).Some? ==>
              r == Shape(tagFunction(Resolve(table, exts, key).ext).value, false)
    ensures Resolve(table, exts, key).ByTag? && getEntry(Resolve(table, exts, key).tag).Some? ==>
              r == Shape(getEntry(Resolve(table, exts, key).tag).value, Resolve(table, exts, key).tag in ForceArrayTags)
  {
    match Resolve(table, exts, key)
    case Unresolved => Raise(UnknownTag)
    case ByExt(e) =>
      (match tagFunction(e)
       case None => Undefined("extension failed: entry type and data read uninitialised")
       case Some(d) => Shape(d, false))
    case ByTag(tag) =>
      match getEntry(tag)
      case None => Ok(PyNone)
      case Some(d) => Shape(d, tag in ForceArrayTags)
  }

  /** `h[t]` with an integer tag in `int` range reads entry `t`: None when absent, its conversion otherwise. */
  lemma IntKeyReadsItsTag(table: seq<TagEntry>, exts: seq<Extension>, getEntry: int -> Option<EntryData>,
                          tagFunction: Extension -> Option<EntryData>, t: int)
    requires TableWellFormed(table) && ExtsWellFormed(exts)
    requires 0 <= t <= INT32_MAX
    ensures getEntry(t).None? ==> HdrSubscript(table, exts, getEntry, tagFunction, IntKey(t)) == Ok(PyNone)
    ensures getEntry(t).Some? ==>
              HdrSubscript(table, exts, getEntry, tagFunction, IntKey(t)) == Shape(getEntry(t).value, t in ForceArrayTags)
  {
  }

  /** A force-array tag never yields a bare integer or string, whatever its count. */
  lemma ForcedTagsNeverScalar(table: seq<TagEntry>, exts: seq<Extension>, getEntry: int -> Option<EntryData>,
                              tagFunction: Extension -> Option<EntryData>, tag: int)
    requires TableWellFormed(table) && ExtsWellFormed(exts)
    requires tag in ForceArrayTags
    ensures var r := HdrSubscript(table, exts, getEntry, tagFunction, IntKey(tag));
            r.Ok? ==> !r.value.PyInt? && !r.value.PyStr?
  {
  }

  /** An integer or string entry of count 1 under any other tag comes back as a bare scalar. */
  lemma SingleValueIsScalar(table: seq<TagEntry>, exts: seq<Extension>, getEntry: int -> Option<EntryData>,
                            tagFunction: Extension -> Option<EntryData>, tag: int)
    requires TableWellFormed(table) && ExtsWellFormed(exts)
    requires 0 <= tag <= INT32_MAX && tag !in ForceArrayTags
    requires getEntry(tag).Some? && (getEntry(tag).value.IsNumeric() || getEntry(tag).value.Str?)
    requires getEntry(tag).value.Count() == 1
    ensures var r := HdrSubscript(table, exts, getEntry, tagFunction, IntKey(tag));
            r.Ok? && (r.value.PyInt? || r.value.PyStr?)
  {
  }

  /**
    A name resolves through the tag table before the registry is consulted:
    the first row whose name after "RPMTAG_" matches wins, and an extension
    of the same name is never reached.
   */
  lemma NameResolvesToFirstTableRow(table: seq<TagEntry>, exts: seq<Extension>, name: string, k: nat)
    requires TableWellFormed(table) && ExtsWellFormed(exts)
    requires k < |table| && NameMatches(table[k].name, name)
    requires forall j :: 0 <= j < k ==> !NameMatches(table[j].name, name)
    requires 0 <= table[k].value <= INT32_MAX
    ensures Resolve(table, exts, StrKey(name)) == ByTag(table[k].value)
  {
  }

  /** With no table row for a name, the last registry row that matches it is the one used. */
  lemma NameFallsBackToLastExtension(table: seq<TagEntry>, exts: seq<Extension>, name: string, k: nat)
    requires TableWellFormed(table) && ExtsWellFormed(exts)
    requires forall j :: 0 <= j < |table| ==> !NameMatches(table[j].name, name)
    requires k < |exts| && ExtMatches(exts[k], name)
    requires forall j :: k < j < |exts| ==> !ExtMatches(exts[j], name)
    ensures Resolve(table, exts, StrKey(name)) == ByExt(exts[k])
  {
    var found := LastExtension(exts, name, 0);
    assert found.Some?;
  }

  // ---------------------------------------------------------------------
  // h.keys()

  datatype HeaderEntry = HeaderEntry(tag: int, data: EntryData)

  /** A stored entry `keys()` reports: not the locale table, and of a type the binding converts. */
  predicate Listed(e: HeaderEntry)
  {
    e.tag != HEADER_I18NTABLE && e.data.TypeCode() in SupportedTypes
  }

  /** `hdrKeyList`: the tags of the listed entries, in storage order. */
  function KeyList(h: seq<HeaderEntry>): (r: seq<int>)
    ensures |r| <= |h|
    ensures forall t :: t in r ==> exists i :: 0 <= i < |h| && h[i].tag == t && Listed(h[i])
    ensures forall i :: 0 <= i < |h| && Listed(h[i]) ==> h[i].tag in r
  {
    if |h| == 0 then []
    else
      var rest := KeyList(h[1..]);
      assert forall i :: 1 <= i < |h| ==> h[i] == h[1..][i - 1];
      if Listed(h[0]) then [h[0].tag] + rest else rest
  }

  /** The entry stored under `tag`, as a plain header lookup finds it. */
  function HeaderGet(h: seq<HeaderEntry>, tag: int): (r: Option<EntryData>)
    ensures r.Some? ==> exists i :: 0 <= i < |h| && h[i].tag == tag && h[i].data == r.value
    ensures r.None? ==> forall i :: 0 <= i < |h| ==> h[i].tag != tag
  {
    if |h| == 0 then None
    else if h[0].tag == tag then Some(h[0].data)
    else
      assert forall i :: 1 <= i < |h| ==> h[i] == h[1..][i - 1];
      HeaderGet(h[1..], tag)
  }

  /** rpmlib's header invariant: one entry per tag, tags non-negative 32-bit values, types honest. */
  predicate HeaderWellFormed(h: seq<HeaderEntry>)
  {
    && (forall i, j :: 0 <= i < j < |h| ==> h[i].tag != h[j].tag)
    && (forall i :: 0 <= i < |h| ==> 0 <= h[i].tag <= INT32_MAX && h[i].data.WellFormed())
  }

  /**
    Every tag `keys()` reports can be subscripted: the lookup through the
    integer key finds a stored entry and converts it without a type error.
   */
  lemma ListedKeysSubscript(table: seq<TagEntry>, exts: seq<Extension>, tagFunction: Extension -> Option<EntryData>,
                            h: seq<HeaderEntry>, t: int)
    requires TableWellFormed(table) && ExtsWellFormed(exts) && HeaderWellFormed(h)
    requires t in KeyList(h)
    ensures var r := HdrSubscript(table, exts, tag => HeaderGet(h, tag), tagFunction, IntKey(t));
            r.Ok? && r.value != PyNone
  {
    var i :| 0 <= i < |h| && h[i].tag == t && Listed(h[i]);
    var found := HeaderGet(h, t);
    assert found == Some(h[i].data);
    assert Resolve(table, exts, IntKey(t)) == ByTag(t);
    if Shape(h[i].data, t in ForceArrayTags).Ok? {
      ShapeRoundTrip(h[i].data, t in ForceArrayTags);
    }
  }
}
