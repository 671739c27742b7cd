/**
 * The map view of a compound tag.
 *
 * An `NbtCompound` holds the handle map of one compound tag and updates it in place.
 * Values handed to `put` are Java objects; `Value` keeps the distinctions the tag
 * conversion makes between them (a boxed primitive, a boolean, a map, a collection).
 * Converting a value to a tag builds a fresh tree, so a compound put into itself is
 * stored as a snapshot of what it held before.
 */
module Compound {
  import opened Tags
  import opened Numbers
  import NbtType

  /** A Java value on its way into (or out of) a compound. */
  datatype Value =
    | Prim(tag: Tag)
    | Bool(b: bool)
    | MapOf(m: map<Option<string>, Option<Value>>)
    | SeqOf(items: seq<Value>)

  /** `String.valueOf(key)`: the text a map key becomes; a null key becomes "null". */
  function KeyText(o: Option<string>): string
  {
    if o.Some? then o.value else "null"
  }

  /** The texts of the keys of a Java map. */
  function KeyTexts<V>(m: map<Option<string>, V>): set<string>
  {
    set o | o in m :: KeyText(o)
  }

  /**
   * The key of `m` whose value ends up under `k`: a string key takes precedence
   * over the null key, which also reads as "null".
   */
  function Source<V>(m: map<Option<string>, V>, k: string): (o: Option<string>)
    requires k in KeyTexts(m)
    ensures o in m && KeyText(o) == k
  {
    if Some(k) in m then Some(k) else None
  }

  /**
   * The tag `put` stores for a value: a map becomes a compound of its non-null
   * entries, a collection a list, a boolean a byte 1 or 0, a primitive its own tag.
   */
  function ToTag(v: Value): (t: Tag)
    ensures v.MapOf? ==> t.Compound?
    ensures v.SeqOf? ==> t.List? && |t.items| == |v.items|
    ensures v.Bool? ==> t == Byte(if v.b then 1 else 0)
  {
    match v
    case Prim(t) => t
    case Bool(b) => Byte(if b then 1 else 0)
    case MapOf(m) =>
      Compound(map k | k in KeyTexts(m) && m[Source(m, k)].Some? :: ToTag(m[Source(m, k)].value))
    case SeqOf(items) => List(seq(|items|, i requires 0 <= i < |items| => ToTag(items[i])))
  }

  /** `getValueOfTag`: a compound reads as a map, a list as a collection, anything else as itself. */
  function ValueOfTag(t: Tag): (v: Value)
    ensures t.Compound? <==> v.MapOf?
    ensures t.List? <==> v.SeqOf?
  {
    match t
    case Compound(e) =>
      var keys := set k | k in e :: Some(k);
      MapOf(map o | o in keys && o.Some? && o.value in e :: Some(ValueOfTag(e[o.value])))
    case List(items) => SeqOf(seq(|items|, i requires 0 <= i < |items| => ValueOfTag(items[i])))
    case _ => Prim(t)
  }

  /** The string keys of a Java map: `putAll` and `merge` skip the null key. */
  function Named(m: map<Option<string>, Option<Value>>): (r: set<string>)
    ensures forall k :: k in r <==> Some(k) in m
  {
    set o | o in m && o.Some? :: o.value
  }

  /**
   * The entries after `putAll` (`deep` false) or `merge` (`deep` true) has handled
   * the keys in `done`; each key is handled on its own, so the order does not matter.
   */
  function Overlay(e: map<string, Tag>, m: map<Option<string>, Option<Value>>, done: set<string>, deep: bool): (r: map<string, Tag>)
    requires done <= Named(m)
    decreases MapOf(m), 1
  {
    map k | k in e.Keys + done && At(e, m, done, k, deep).Some? :: At(e, m, done, k, deep).value
  }

  /** The entry under `k` once the keys in `done` are handled; a null value removes the key. */
  function At(e: map<string, Tag>, m: map<Option<string>, Option<Value>>, done: set<string>, k: string, deep: bool): (r: Option<Tag>)
    requires done <= Named(m)
    decreases MapOf(m), 0
  {
    if k in done then
      match m[Some(k)]
      case None => None
      case Some(v) => Some(Merged(if k in e then Some(e[k]) else None, v, deep))
    else if k in e then Some(e[k])
    else None
  }

  /**
   * What a handled key ends up holding: `merge` recurses when the existing entry is
   * a compound and the incoming value a map; otherwise the value is put as a copy.
   */
  function Merged(prior: Option<Tag>, v: Value, deep: bool): (t: Tag)
    decreases v, 2
  {
    if deep && prior.Some? && prior.value.Compound? && v.MapOf? then
      Compound(Overlay(prior.value.entries, v.m, Named(v.m), deep))
    else
      ToTag(v)
  }

  /** `Number.longValue()` of an integer tag; None for every other kind. */
  function IntegralValue(t: Tag): Option<int>
  {
    match t
    case Byte(n) => Some(n as int)
    case Short(n) => Some(n as int)
    case Int(n) => Some(n as int)
    case Long(n) => Some(n as int)
    case _ => None
  }

  /** What `getBoolean` decides; the truth of a floating-point value is not part of this model. */
  datatype Truth = Known(b: bool) | FloatNonZero(text: string)

  /**
   * What the integer getters return: an exact value, or the narrowing of the
   * floating-point number a text denotes (0 when it denotes none).
   */
  datatype Coerced = Exact(n: int) | ViaDouble(text: string)

  /** What `getString` returns: a known text, or Java's `toString` of the value. */
  datatype Shown = Text(s: string) | JavaText(tag: Tag)

  /** `(int) b` for each byte: the widening `getIntArray` performs. */
  function Widened(bytes: seq<i8>): (r: seq<i32>)
    ensures |r| == |bytes| && forall i :: 0 <= i < |bytes| ==> r[i] == bytes[i]
  {
    seq(|bytes|, i requires 0 <= i < |bytes| => bytes[i] as i32)
  }

  /** `(byte) n` for each int: the truncation `getByteArray` performs. */
  function Truncated(ints: seq<i32>): (r: seq<i8>)
    ensures |r| == |ints| && forall i :: 0 <= i < |ints| ==> r[i] == WrapByte(ints[i])
  {
    seq(|ints|, i requires 0 <= i < |ints| => WrapByte(ints[i]))
  }

  class NbtCompound {
    /** The handle map of the underlying compound tag. */
    var entries: map<string, Tag>

    /** `new NBTCompound()`: an empty compound. */
    constructor ()
      ensures entries == map[]
    {
      entries := map[];
    }

    /** A view of an existing compound tag. */
    constructor Of(e: map<string, Tag>)
      ensures entries == e
    {
      entries := e;
    }

    /** `new NBTCompound(map)`: every entry of the map put under the text of its key. */
    constructor FromMap(m: map<Option<string>, Option<Value>>)
      ensures entries == ToTag(MapOf(m)).entries
    {
      entries := ToTag(MapOf(m)).entries;
    }

    /** `get(key)`: the value held under a key, if any. */
    function Get(key: Option<string>): (r: Option<Value>)
      reads this
      ensures r.Some? <==> key.Some? && key.value in entries
      ensures r.Some? ==> ToTag(r.value) == entries[key.value]
    {
      if key.Some? && key.value in entries then
        CopyIsEqual(entries[key.value]);
        Some(ValueOfTag(entries[key.value]))
      else None
    }

    /**
     * `put(key, value)`: a null key changes nothing; a null value removes the key;
     * anything else is stored as a fresh tag. Returns the previous value.
     */
    method Put(key: Option<string>, value: Option<Value>) returns (prev: Option<Value>)
      modifies this
      ensures prev == old(Get(key))
      ensures key.None? ==> entries == old(entries) && prev.None?
      ensures key.Some? && value.None? ==> entries == old(entries) - {key.value}
      ensures key.Some? && value.Some? ==> entries == old(entries)[key.value := ToTag(value.value)]
    {
      if key.None? {
        return None;
      }
      if value.None? {
        prev := Remove(key);
        return;
      }
      var tag := ToTag(value.value);
      prev := Get(key);
      entries := entries[key.value := tag];
    }

    /** `remove(key)`: the key is absent afterwards; returns the previous value. */
    method Remove(key: Option<string>) returns (prev: Option<Value>)
      modifies this
      ensures prev == old(Get(key))
      ensures key.None? ==> entries == old(entries)
      ensures key.Some? ==> entries == old(entries) - {key.value}
    {
      prev := Get(key);
      if key.Some? {
        entries := entries - {key.value};
      }
    }

    /** `putAll(map)`: `put` for every entry with a non-null key. */
    method PutAll(m: map<Option<string>, Option<Value>>)
      modifies this
      ensures entries == Overlay(old(entries), m, Named(m), false)
    {
      ghost var e0 := entries;
      ghost var done: set<string> := {};
      var todo := Named(m);
      while todo != {}
        invariant todo !! done && todo + done == Named(m)
        invariant entries == Overlay(e0, m, done, false)
        decreases todo
      {
        var k :| k in todo;
        OverlayStep(e0, m, done, k, false);
        var prev := Put(Some(k), m[Some(k)]);
        todo := todo - {k};
        done := done + {k};
      }
    }

    /** `clear()`. */
    method Clear()
      modifies this
      ensures entries == map[]
    {
      entries := map[];
    }

    /**
     * `merge(map)`: missing keys are put, a map merged into an existing compound
     * recursively, and anything else overwrites (a null value removes).
     */
    method Merge(m: map<Option<string>, Option<Value>>)
      modifies this
      ensures entries == Overlay(old(entries), m, Named(m), true)
      decreases MapOf(m)
    {
      ghost var e0 := entries;
      ghost var done: set<string> := {};
      var todo := Named(m);
      while todo != {}
        invariant todo !! done && todo + done == Named(m)
        invariant entries == Overlay(e0, m, done, true)
        decreases todo
      {
        var k :| k in todo;
        OverlayStep(e0, m, done, k, true);
        var value := m[Some(k)];
        if k in entries && entries[k].Compound? && value.Some? && value.value.MapOf? {
          var inner := new NbtCompound.Of(entries[k].entries);
          inner.Merge(value.value.m);
          entries := entries[k := Compound(inner.entries)];
        } else {
          var prev := Put(Some(k), value);
        }
        todo := todo - {k};
        done := done + {k};
      }
    }

    /** `compound(key)`: the compound under the key, or a fresh empty one stored there. */
    method CompoundAt(key: string) returns (r: map<string, Tag>)
      modifies this
      ensures key in old(entries) && old(entries)[key].Compound? ==>
        entries == old(entries) && r == old(entries)[key].entries
      ensures !(key in old(entries) && old(entries)[key].Compound?) ==>
        entries == old(entries)[key := Compound(map[])] && r == map[]
    {
      if key in entries && entries[key].Compound? {
        return entries[key].entries;
      }
      entries := entries[key := Compound(map[])];
      r := map[];
    }

    /** `list(key)`: the list under the key, or a fresh empty one stored there. */
    method ListAt(key: string) returns (r: seq<Tag>)
      modifies this
      ensures key in old(entries) && old(entries)[key].List? ==>
        entries == old(entries) && r == old(entries)[key].items
      ensures !(key in old(entries) && old(entries)[key].List?) ==>
        entries == old(entries)[key := List([])] && r == []
    {
      if key in entries && entries[key].List? {
        return entries[key].items;
      }
      entries := entries[key := List([])];
      r := [];
    }

    /** `bind(key, compound or list)`: stores the tag itself; returns the previous value. */
    method Bind(key: string, value: Tag) returns (prev: Option<Value>)
      requires value.Compound? || value.List?
      modifies this
      ensures prev == old(Get(Some(key)))
      ensures entries == old(entries)[key := value]
    {
      prev := Get(Some(key));
      entries := entries[key := value];
    }

    /** `containsKey(key, type)`: a tag is stored under the key and its kind has that code. */
    function ContainsKind(key: Option<string>, code: i8): (r: bool)
      reads this
      ensures r ==> key.Some? && key.value in entries && code >= 0
    {
      key.Some? && key.value in entries && NbtType.Code(KindOf(Some(entries[key.value]))) == code
    }

    /**
     * `getBoolean(key)`: a number is true when non-zero; a string, int[] or byte[]
     * when non-empty; a list only when empty; a compound only when non-empty;
     * anything else (a long[], a missing key) is false.
     */
    function GetBoolean(key: string): (r: Truth)
      reads this
      ensures key !in entries ==> r == Known(false)
      ensures r.FloatNonZero? <==> key in entries && (entries[key].Float? || entries[key].Double?)
      ensures key in entries && IntegralValue(entries[key]).Some? ==>
        r == Known(IntegralValue(entries[key]).value != 0)
      ensures key in entries && entries[key].String? ==> r == Known(entries[key].str != [])
      ensures key in entries && entries[key].IntArray? ==> r == Known(entries[key].ints != [])
      ensures key in entries && entries[key].ByteArray? ==> r == Known(entries[key].bytes != [])
      ensures key in entries && entries[key].List? ==> r == Known(|entries[key].items| == 0)
      ensures key in entries && entries[key].Compound? ==> r == Known(|entries[key].entries| != 0)
      ensures key in entries && entries[key].LongArray? ==> r == Known(false)
    {
      if key !in entries then Known(false)
      else
        match entries[key]
        case Float(t) => FloatNonZero(t)
        case Double(t) => FloatNonZero(t)
        case Byte(n) => Known(n != 0)
        case Short(n) => Known(n != 0)
        case Int(n) => Known(n != 0)
        case Long(n) => Known(n != 0)
        case String(s) => Known(|s| != 0)
        case IntArray(a) => Known(|a| != 0)
        case ByteArray(a) => Known(|a| != 0)
        case List(items) => Known(|items| == 0)
        case Compound(e) => Known(|e| != 0)
        case LongArray(_) => Known(false)
    }

    /**
     * `getByte`, `getShort`, `getInt`, `getLong` (chosen by `k`): an integer is
     * narrowed, integer text is parsed as a long and narrowed, other text and
     * floating-point values go through a double; anything else gives 0.
     */
    function GetInteger(key: string, k: Kind): (r: Coerced)
      requires k in {BYTE, SHORT, INT, LONG}
      reads this
      ensures key !in entries ==> r == Exact(0)
      ensures r.Exact? ==> InRange(r.n, NbtType.Width(k))
      ensures key in entries && IntegralValue(entries[key]).Some? ==>
        r == Exact(Wrap(IntegralValue(entries[key]).value, NbtType.Width(k)))
      ensures key in entries && entries[key].String? && ParseLong(entries[key].str).Some? ==>
        r == Exact(Wrap(ParseLong(entries[key].str).value, NbtType.Width(k)))
      ensures key in entries && entries[key].String? && ParseLong(entries[key].str).None? ==>
        r == ViaDouble(entries[key].str)
      ensures key in entries && entries[key].Float? ==> r == ViaDouble(entries[key].ftext)
      ensures key in entries && entries[key].Double? ==> r == ViaDouble(entries[key].dtext)
      ensures key in entries && KindOf(Some(entries[key])) in {BYTEARRAY, INTARRAY, LONGARRAY, LIST, COMPOUND} ==>
        r == Exact(0)
    {
      var bits := NbtType.Width(k);
      if key !in entries then Exact(0)
      else
        match entries[key]
        case Byte(n) => Exact(Wrap(n, bits))
        case Short(n) => Exact(Wrap(n, bits))
        case Int(n) => Exact(Wrap(n, bits))
        case Long(n) => Exact(Wrap(n, bits))
        case Float(t) => ViaDouble(t)
        case Double(t) => ViaDouble(t)
        case String(s) =>
          (match ParseLong(s)
           case Some(n) => Exact(Wrap(n, bits))
           case None => ViaDouble(s))
        case _ => Exact(0)
    }

    /** `getString(key)`: "" for a missing key, the text of a string or an integer, else Java's rendering. */
    function GetString(key: string): (r: Shown)
      reads this
      ensures key !in entries ==> r == Text("")
      ensures key in entries && entries[key].String? ==> r == Text(entries[key].str)
    {
      if key !in entries then Text("")
      else
        match entries[key]
        case String(s) => Text(s)
        case Byte(n) => Text(ToDecimal(n))
        case Short(n) => Text(ToDecimal(n))
        case Int(n) => Text(ToDecimal(n))
        case Long(n) => Text(ToDecimal(n))
        case t => JavaText(t)
    }

    /** `getCompound(key)`: the entries of a compound stored there, null for any other kind. */
    function GetCompound(key: string): (r: Option<map<string, Tag>>)
      reads this
      ensures r.Some? <==> ContainsKind(Some(key), 10)
      ensures r.Some? ==> entries[key] == Compound(r.value)
    {
      if key in entries && entries[key].Compound? then Some(entries[key].entries) else None
    }

    /** `getList(key)`: the elements of a list stored there, null for any other kind. */
    function GetList(key: string): (r: Option<seq<Tag>>)
      reads this
      ensures r.Some? <==> ContainsKind(Some(key), 9)
      ensures r.Some? ==> entries[key] == List(r.value)
    {
      if key in entries && entries[key].List? then Some(entries[key].items) else None
    }

    /** The int[] `getIntArray` returns for what is stored under a key. */
    function IntsAt(key: string): seq<i32>
      reads this
    {
      if key !in entries then []
      else if entries[key].IntArray? then entries[key].ints
      else if entries[key].ByteArray? then Widened(entries[key].bytes)
      else []
    }

    /** The byte[] `getByteArray` returns for what is stored under a key. */
    function BytesAt(key: string): seq<i8>
      reads this
    {
      if key !in entries then []
      else if entries[key].ByteArray? then entries[key].bytes
      else if entries[key].IntArray? then Truncated(entries[key].ints)
      else []
    }

    /** `getIntArray(key)`: an int[] as stored, a byte[] widened element by element, else empty. */
    method GetIntArray(key: string) returns (r: array<i32>)
      ensures fresh(r)
      ensures r[..] == IntsAt(key)
    {
      if key in entries && entries[key].IntArray? {
        var ints := entries[key].ints;
        r := new i32[|ints|](i requires 0 <= i < |ints| => ints[i]);
        return;
      }
      if key in entries && entries[key].ByteArray? {
        var bytes := entries[key].bytes;
        r := new i32[|bytes|];
        for i := 0 to |bytes|
          invariant r[..i] == Widened(bytes)[..i]
        {
          r[i] := bytes[i] as i32;
        }
        return;
      }
      r := new i32[0];
    }

    /** `getByteArray(key)`: a byte[] as stored, an int[] truncated element by element, else empty. */
    method GetByteArray(key: string) returns (r: array<i8>)
      ensures fresh(r)
      ensures r[..] == BytesAt(key)
    {
      if key in entries && entries[key].ByteArray? {
        var bytes := entries[key].bytes;
        r := new i8[|bytes|](i requires 0 <= i < |bytes| => bytes[i]);
        return;
      }
      if key in entries && entries[key].IntArray? {
        var ints := entries[key].ints;
        r := new i8[|ints|];
        for i := 0 to |ints|
          invariant r[..i] == Truncated(ints)[..i]
        {
          r[i] := WrapByte(ints[i]);
        }
        return;
      }
      r := new i8[0];
    }
  }

  /** Reading a tag as a Java value and putting that value back gives an equal tree. */
  lemma {:induction false} CopyIsEqual(t: Tag)
    ensures ToTag(ValueOfTag(t)) == t
    decreases t
  {
    match t
    case Compound(e) =>
      var m := ValueOfTag(t).m;
      assert KeyTexts(m) == e.Keys by {
        forall k | k in e ensures k in KeyTexts(m) {
          ValuesOfEntries(e, k);
          assert KeyText(Some(k)) == k;
        }
      }
      forall k | k in e
        ensures ToTag(m[Source(m, k)].value) == e[k]
      {
        ValuesOfEntries(e, k);
        assert Source(m, k) == Some(k);
        CopyIsEqual(e[k]);
      }
    case List(items) =>
      forall i | 0 <= i < |items| ensures ToTag(ValueOfTag(items[i])) == items[i] {
        CopyIsEqual(items[i]);
      }
    case _ =>
  }

  /** The Java map a compound reads as: each entry under its own key, and no null key. */
  lemma {:induction false} ValuesOfEntries(e: map<string, Tag>, k: string)
    ensures var m := ValueOfTag(Compound(e)).m;
      None !in m && (Some(k) in m <==> k in e) && (k in e ==> m[Some(k)] == Some(ValueOfTag(e[k])))
  {
    var m := ValueOfTag(Compound(e)).m;
    if k in e {
      assert Some(k) in m;
    }
  }

  /**
   * Putting a compound into itself stores what it held before the put: the new
   * entry does not contain itself, and every other key is unchanged.
   */
  lemma {:induction false} SelfPutSnapshot(e: map<string, Tag>, key: string)
    ensures var after := e[key := ToTag(ValueOfTag(Compound(e)))];
      after[key] == Compound(e) && forall j :: j in e && j != key ==> after[j] == e[j]
  {
    CopyIsEqual(Compound(e));
  }

  /** The entry under one key once the keys in `done` are handled. */
  lemma {:induction false} OverlayMember(e: map<string, Tag>, m: map<Option<string>, Option<Value>>, done: set<string>, deep: bool, k: string)
    requires done <= Named(m)
    ensures var r := Overlay(e, m, done, deep);
      (k in r <==> At(e, m, done, k, deep).Some?) &&
      (k in r ==> r[k] == At(e, m, done, k, deep).value)
  {
  }

  /** The entries after handling one more key of the map. */
  lemma {:induction false} OverlayStep(e: map<string, Tag>, m: map<Option<string>, Option<Value>>, done: set<string>, k: string, deep: bool)
    requires done <= Named(m) && k in Named(m) && k !in done
    ensures var before := Overlay(e, m, done, deep);
      var prior := if k in e then Some(e[k]) else None;
      Overlay(e, m, done + {k}, deep) ==
        match m[Some(k)]
        case None => before - {k}
        case Some(v) => before[k := Merged(prior, v, deep)]
  {
    var before := Overlay(e, m, done, deep);
    var after := Overlay(e, m, done + {k}, deep);
    var prior := if k in e then Some(e[k]) else None;
    var expected := match m[Some(k)]
      case None => before - {k}
      case Some(v) => before[k := Merged(prior, v, deep)];
    forall j ensures (j in after <==> j in expected) && (j in after ==> after[j] == expected[j]) {
      OverlayMember(e, m, done, deep, j);
      OverlayMember(e, m, done + {k}, deep, j);
    }
  }

  /** The entry `putAll` or `merge` leaves under one key. */
  lemma {:induction false} OverlayAt(e: map<string, Tag>, m: map<Option<string>, Option<Value>>, deep: bool, k: string)
    ensures var r := Overlay(e, m, Named(m), deep);
      (k in r <==> At(e, m, Named(m), k, deep).Some?) &&
      (k in r ==> r[k] == At(e, m, Named(m), k, deep).value)
  {
    OverlayMember(e, m, Named(m), deep, k);
  }

  /** `merge` and `putAll` leave every key the map does not name as it was. */
  lemma {:induction false} MergeKeepsOthers(e: map<string, Tag>, m: map<Option<string>, Option<Value>>, deep: bool, k: string)
    requires Some(k) !in m
    ensures var r := Overlay(e, m, Named(m), deep);
      (k in r <==> k in e) && (k in e ==> r[k] == e[k])
  {
    OverlayAt(e, m, deep, k);
  }

  /**
   * Where `merge` does not find a compound meeting a map, it overwrites: a list is
   * replaced wholesale by the incoming value, and a null value removes the key.
   */
  lemma {:induction false} MergeOverwrites(e: map<string, Tag>, m: map<Option<string>, Option<Value>>, k: string)
    requires Some(k) in m
    requires !(k in e && e[k].Compound? && m[Some(k)].Some? && m[Some(k)].value.MapOf?)
    ensures var r := Overlay(e, m, Named(m), true);
      match m[Some(k)]
      case None => k !in r
      case Some(v) => k in r && r[k] == ToTag(v)
  {
    OverlayAt(e, m, true, k);
  }

  /** `merge` of a map into a compound under the same key merges recursively. */
  lemma {:induction false} MergeRecurses(e: map<string, Tag>, m: map<Option<string>, Option<Value>>, k: string)
    requires k in e && e[k].Compound? && Some(k) in m && m[Some(k)].Some? && m[Some(k)].value.MapOf?
    ensures var r := Overlay(e, m, Named(m), true);
      var inner := m[Some(k)].value.m;
      k in r && r[k] == Compound(Overlay(e[k].entries, inner, Named(inner), true))
  {
    OverlayAt(e, m, true, k);
  }

  /** `putAll` puts every named entry: the key holds a copy of its value, or is gone for a null value. */
  lemma {:induction false} PutAllPuts(e: map<string, Tag>, m: map<Option<string>, Option<Value>>, k: string)
    requires Some(k) in m
    ensures var r := Overlay(e, m, Named(m), false);
      match m[Some(k)]
      case None => k !in r
      case Some(v) => k in r && r[k] == ToTag(v)
  {
    OverlayAt(e, m, false, k);
  }

  /** Merging a compound with its own contents changes nothing. */
  lemma {:induction false} MergeSelf(e: map<string, Tag>)
    ensures var m := ValueOfTag(Compound(e)).m;
      Overlay(e, m, Named(m), true) == e
    decreases Compound(e)
  {
    var m := ValueOfTag(Compound(e)).m;
    var r := Overlay(e, m, Named(m), true);
    forall k ensures (k in r <==> k in e) && (k in e ==> r[k] == e[k]) {
      ValuesOfEntries(e, k);
      OverlayAt(e, m, true, k);
      if k in e {
        if e[k].Compound? {
          MergeSelf(e[k].entries);
        } else {
          CopyIsEqual(e[k]);
        }
      }
    }
  }

  /** `containsKey(key, type)` holds exactly for the code of the stored tag's kind. */
  lemma {:induction false} ContainsKindOfStored(c: NbtCompound, key: string, j: Kind)
    requires key in c.entries
    ensures c.ContainsKind(Some(key), NbtType.Code(j) as i8) <==> KindOf(Some(c.entries[key])) == j
  {
    if KindOf(Some(c.entries[key])) != j {
      NbtType.CodeInjective(KindOf(Some(c.entries[key])), j);
    }
  }

  /** A boolean put into a compound reads back as itself. */
  lemma {:induction false} BooleanRoundTrip(c: NbtCompound, key: string, b: bool)
    requires key in c.entries && c.entries[key] == ToTag(Bool(b))
    ensures c.GetBoolean(key) == Known(b)
    ensures c.GetInteger(key, BYTE) == Exact(if b then 1 else 0)
  {
    Pow2Values();
  }

  /** An integer put into a compound reads back truncated to the getter's width. */
  lemma {:induction false} IntegerRoundTrip(c: NbtCompound, key: string, k: Kind, n: i32)
    requires k in {BYTE, SHORT, INT, LONG}
    requires key in c.entries && c.entries[key] == ToTag(Prim(Int(n)))
    ensures c.GetInteger(key, k) == Exact(Wrap(n, NbtType.Width(k)))
    ensures k in {INT, LONG} ==> c.GetInteger(key, k) == Exact(n)
  {
    Pow2Values();
    NbtType.WidthRanges(n);
  }

  /** The text `getString` gives an integer parses back, through `getLong`, to the same value. */
  lemma {:induction false} StringOfIntegerRoundTrip(c: NbtCompound, d: NbtCompound, key: string, n: i64)
    requires key in c.entries && c.entries[key] == Long(n)
    requires key in d.entries && d.entries[key] == String(c.GetString(key).s)
    ensures d.GetInteger(key, LONG) == Exact(n)
  {
    LongTextParses(n);
  }

  /** The decimal text of a long parses back, as a long, to that long. */
  lemma {:induction false} LongTextParses(n: i64)
    ensures ParseLong(ToDecimal(n)) == Some(n as int)
    ensures Wrap(n, 64) == n
  {
    Pow2Values();
    ParseToDecimal(n, 64);
    assert InRange(n, 64);
  }

  /** A string read by `getString` is exactly what was put. */
  lemma {:induction false} StringRoundTrip(c: NbtCompound, key: string, s: string)
    requires key in c.entries && c.entries[key] == ToTag(Prim(String(s)))
    ensures c.GetString(key) == Text(s)
  {
  }

  /** Truncating a widened byte[] gives back the original bytes. */
  lemma {:induction false} WidenThenTruncate(bytes: seq<i8>)
    ensures Truncated(Widened(bytes)) == bytes
  {
    Pow2Values();
    forall i | 0 <= i < |bytes| ensures WrapByte(Widened(bytes)[i]) == bytes[i] {
      assert InRange(bytes[i], 8);
    }
  }

  /** `getByteArray` of an int[] made by `getIntArray` from a byte[] is that byte[]. */
  lemma {:induction false} ByteArrayRoundTrip(c: NbtCompound, d: NbtCompound, key: string)
    requires key in c.entries && c.entries[key].ByteArray?
    requires key in d.entries && d.entries[key] == IntArray(c.IntsAt(key))
    ensures d.BytesAt(key) == c.entries[key].bytes
  {
    WidenThenTruncate(c.entries[key].bytes);
  }
}
