/**
 * The tag tree: the thirteen NBT kinds and the values a tag of each kind holds.
 *
 * A Java `null` (an absent tag) is `None` wherever a value may be missing; the END
 * kind names that absence and has no tag value of its own.
 */
module Tags {

  datatype Option<+T> = None | Some(value: T)

  /** Success, or the message of the exception the Java code would throw. */
  datatype Result<+T> = Ok(value: T) | Err(msg: string)

  /** Java's fixed-width integers, as ranges of the unbounded integers. */
  type i8 = x: int | -0x80 <= x < 0x80
  type i16 = x: int | -0x8000 <= x < 0x8000
  type i32 = x: int | -0x8000_0000 <= x < 0x8000_0000
  type i64 = x: int | -0x8000_0000_0000_0000 <= x < 0x8000_0000_0000_0000

  /** The thirteen kinds, in the declaration order of the Java enum (which is also code order). */
  datatype Kind =
    | END | BYTE | SHORT | INT | LONG | FLOAT | DOUBLE | BYTEARRAY
    | STRING | LIST | COMPOUND | INTARRAY | LONGARRAY

  /**
   * One node of the tree. Float and Double keep the decimal literal they were read
   * from: their binary value is not part of this model.
   */
  datatype Tag =
    | Byte(b: i8)
    | Short(s: i16)
    | Int(i: i32)
    | Long(l: i64)
    | Float(ftext: string)
    | Double(dtext: string)
    | ByteArray(bytes: seq<i8>)
    | String(str: string)
    | List(items: seq<Tag>)
    | Compound(entries: map<string, Tag>)
    | IntArray(ints: seq<i32>)
    | LongArray(longs: seq<i64>)

  /** The kind of a stored tag; an absent tag has kind END. */
  function KindOf(t: Option<Tag>): (k: Kind)
    ensures k == END <==> t.None?
  {
    match t
    case None => END
    case Some(Byte(_)) => BYTE
    case Some(Short(_)) => SHORT
    case Some(Int(_)) => INT
    case Some(Long(_)) => LONG
    case Some(Float(_)) => FLOAT
    case Some(Double(_)) => DOUBLE
    case Some(ByteArray(_)) => BYTEARRAY
    case Some(String(_)) => STRING
    case Some(List(_)) => LIST
    case Some(Compound(_)) => COMPOUND
    case Some(IntArray(_)) => INTARRAY
    case Some(LongArray(_)) => LONGARRAY
  }

  /**
   * The element kind a list reports: the kind of its first element, END when empty.
   * (A list that was emptied after holding elements keeps no memory of them here.)
   */
  function ElementKind(items: seq<Tag>): (k: Kind)
    ensures k == END <==> items == []
  {
    if items == [] then END else KindOf(Some(items[0]))
  }
}
