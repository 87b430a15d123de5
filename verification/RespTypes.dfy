/** Bytes, RESP type codes, type mappings and decoded values
    (packages/client/lib/RESP/decoder.ts:8-68). */
module RespTypes {

  type Byte = b: int | 0 <= b < 256

  type Bytes = seq<Byte>

  const NULL: Byte := 95
  const BOOLEAN: Byte := 35
  const NUMBER: Byte := 58
  const BIG_NUMBER: Byte := 40
  const DOUBLE: Byte := 44
  const SIMPLE_STRING: Byte := 43
  const BLOB_STRING: Byte := 36
  const VERBATIM_STRING: Byte := 61
  const SIMPLE_ERROR: Byte := 45
  const BLOB_ERROR: Byte := 33
  const ARRAY: Byte := 42
  const SET: Byte := 126
  const MAP: Byte := 37
  const PUSH: Byte := 62

  const CR: Byte := 13
  const LF: Byte := 10
  const LOWER_T: Byte := 116
  const PLUS: Byte := 43
  const MINUS: Byte := 45
  const ZERO: Byte := 48
  const DOT: Byte := 46

  const CRLF: Bytes := [CR, LF]

  // The JavaScript types a RESP type can be mapped to.
  datatype StringType = AsString | AsBuffer
  datatype VerbatimType = VerbatimAsText(t: StringType) | VerbatimAsObject
  datatype SetType = SetAsSet | SetAsArray
  datatype MapType = MapAsMap | MapAsObject | MapAsArray

  datatype TypeMapping = TypeMapping(
    numberAsString: bool,
    bigNumberAsString: bool,
    doubleAsString: bool,
    simpleString: StringType,
    blobString: StringType,
    verbatim: VerbatimType,
    sets: SetType,
    maps: MapType)

  // Pushes are decoded with blob strings as Buffers and everything else by default.
  const PUSH_TYPE_MAPPING := TypeMapping(false, false, false, AsString, AsBuffer,
                                         VerbatimAsText(AsString), SetAsArray, MapAsObject)

  // A JavaScript double; a finite one is a sign (so that -0 exists) and a magnitude.
  datatype Double = PosInfinity | NegInfinity | NaN | Finite(negative: bool, magnitude: real)

  // `Text` is the UTF-8 decoding of those bytes, `Buffer` the bytes themselves. Sets, maps and
  // objects are kept as the insertions made into them, in order.
  datatype Value =
    | Null
    | Boolean(b: bool)
    | Number(n: int)
    | BigNumber(n: int)
    | DoubleValue(d: Double)
    | Text(bytes: Bytes)
    | Buffer(bytes: Bytes)
    | Verbatim(format: Bytes, bytes: Bytes)
    | SimpleError(message: Value)
    | BlobError(message: Value)
    | Array(items: seq<Value>)
    | SetObject(items: seq<Value>)
    | MapObject(pairs: seq<(Value, Value)>)
    | PlainObject(pairs: seq<(Value, Value)>)

  function StringOf(t: StringType, bytes: Bytes): Value {
    if t == AsBuffer then Buffer(bytes) else Text(bytes)
  }
}
