/** RESP2/RESP3 messages as a server prints them, and what the decoder must make of them. */
module RespPrinter {
  import opened Collections
  import opened RespTypes
  import opened Decimal
  import opened DecoderMachine

  datatype Message =
    | NullMessage
    | BooleanMessage(b: bool)
    | NumberMessage(n: int, plus: bool)  // with an explicit plus sign, if not negative
    | BigNumberMessage(n: int, plus: bool)
    | DoubleMessage(token: Bytes)
    | SimpleMessage(bytes: Bytes)
    | BlobMessage(bytes: Bytes)
    | VerbatimMessage(format: Bytes, bytes: Bytes)
    | SimpleErrorMessage(bytes: Bytes)
    | BlobErrorMessage(bytes: Bytes)
    | NullBlobMessage
    | NullArrayMessage
    | ArrayMessage(items: seq<Message>)
    | SetMessage(items: seq<Message>)
    | MapMessage(flat: seq<Message>)  // keys and values alternate

  ghost predicate WellFormed(m: Message) {
    match m
    case DoubleMessage(token) => CR !in token
    case SimpleMessage(bytes) => CR !in bytes
    case SimpleErrorMessage(bytes) => CR !in bytes
    case VerbatimMessage(format, _) => |format| == 3
    case ArrayMessage(items) => forall i :: 0 <= i < |items| ==> WellFormed(items[i])
    case SetMessage(items) => forall i :: 0 <= i < |items| ==> WellFormed(items[i])
    case MapMessage(flat) => |flat| % 2 == 0 && forall i :: 0 <= i < |flat| ==> WellFormed(flat[i])
    case _ => true
  }

  function TypeOf(m: Message): Byte {
    match m
    case NullMessage => NULL
    case BooleanMessage(_) => BOOLEAN
    case NumberMessage(_, _) => NUMBER
    case BigNumberMessage(_, _) => BIG_NUMBER
    case DoubleMessage(_) => DOUBLE
    case SimpleMessage(_) => SIMPLE_STRING
    case BlobMessage(_) => BLOB_STRING
    case VerbatimMessage(_, _) => VERBATIM_STRING
    case SimpleErrorMessage(_) => SIMPLE_ERROR
    case BlobErrorMessage(_) => BLOB_ERROR
    case NullBlobMessage => BLOB_STRING
    case NullArrayMessage => ARRAY
    case ArrayMessage(_) => ARRAY
    case SetMessage(_) => SET
    case MapMessage(_) => MAP
  }

  function Abs(n: int): nat { if n < 0 then -n else n }

  function PrintSign(n: int, plus: bool): Bytes {
    if n < 0 then [MINUS] else if plus then [PLUS] else []
  }

  function PrintInt(n: int, plus: bool): Bytes { PrintSign(n, plus) + PrintNat(Abs(n)) }

  function PrintLength(n: nat): Bytes { PrintNat(n) + CRLF }

  function PrintBlob(bytes: Bytes): Bytes { PrintLength(|bytes|) + (bytes + CRLF) }

  function PrintVerbatim(format: Bytes, bytes: Bytes): Bytes { format + ([58] + (bytes + CRLF)) }

  function PrintBody(m: Message): Bytes
    decreases m, 0
  {
    match m
    case NullMessage => CRLF
    case BooleanMessage(b) => [if b then LOWER_T else 102] + CRLF
    case NumberMessage(n, plus) => PrintInt(n, plus) + CRLF
    case BigNumberMessage(n, plus) => PrintInt(n, plus) + CRLF
    case DoubleMessage(token) => token + CRLF
    case SimpleMessage(bytes) => bytes + CRLF
    case BlobMessage(bytes) => PrintBlob(bytes)
    case VerbatimMessage(format, bytes) => PrintLength(|bytes| + 4) + PrintVerbatim(format, bytes)
    case SimpleErrorMessage(bytes) => bytes + CRLF
    case BlobErrorMessage(bytes) => PrintBlob(bytes)
    case NullBlobMessage => [MINUS, ZERO + 1] + CRLF
    case NullArrayMessage => [MINUS, ZERO + 1] + CRLF
    case ArrayMessage(items) => PrintLength(|items|) + PrintItems(items)
    case SetMessage(items) => PrintLength(|items|) + PrintItems(items)
    case MapMessage(flat) => PrintLength(|flat| / 2) + PrintItems(flat)
  }

  function Print(m: Message): Bytes
    decreases m, 1
  {
    [TypeOf(m)] + PrintBody(m)
  }

  function PrintItems(items: seq<Message>): Bytes
    decreases items
  {
    if items == [] then [] else Print(items[0]) + PrintItems(items[1..])
  }

  // A string as the mapping wants it.
  function Kept(t: StringType, bytes: Bytes): Value {
    match t
    case AsString => Text(bytes)
    case AsBuffer => Buffer(bytes)
  }

  /** The value a message stands for under a type mapping. */
  function ValueOf(parse: Parser, m: Message, tm: TypeMapping): Value
    decreases m, 1
  {
    match m
    case NullMessage => Null
    case BooleanMessage(b) => Boolean(b)
    case NumberMessage(n, plus) => if tm.numberAsString then Text(PrintInt(n, plus)) else Number(n)
    case BigNumberMessage(n, plus) => if tm.bigNumberAsString then Text(PrintInt(n, plus)) else BigNumber(n)
    case DoubleMessage(token) =>
      if tm.doubleAsString then Text(token) else DoubleValue(parse(token))
    case SimpleMessage(bytes) => Kept(tm.simpleString, bytes)
    case BlobMessage(bytes) => Kept(tm.blobString, bytes)
    case VerbatimMessage(format, bytes) =>
      if tm.verbatim.VerbatimAsObject? then Verbatim(format, bytes) else Kept(tm.verbatim.t, bytes)
    case SimpleErrorMessage(bytes) => SimpleError(Text(bytes))
    case BlobErrorMessage(bytes) => BlobError(Text(bytes))
    case NullBlobMessage => Null
    case NullArrayMessage => Null
    case ArrayMessage(items) => Array(ValuesOf(parse, items, tm))
    case SetMessage(items) =>
      if tm.sets.SetAsSet? then SetObject(ValuesOf(parse, items, tm)) else Array(ValuesOf(parse, items, tm))
    case MapMessage(flat) =>
      match tm.maps
      case MapAsMap => MapObject(EntriesOf(parse, flat, tm))
      case MapAsObject => PlainObject(EntriesOf(parse, flat, tm))
      case MapAsArray => Array(ValuesOf(parse, flat, tm))
  }

  // A key that is a string is one whatever the mapping says.
  function KeyOf(parse: Parser, m: Message, tm: TypeMapping): Value
    decreases m, 2
  {
    if m.SimpleMessage? || m.BlobMessage? then Text(m.bytes) else ValueOf(parse, m, tm)
  }

  function ValuesOf(parse: Parser, items: seq<Message>, tm: TypeMapping): seq<Value>
    decreases items
  {
    if items == [] then [] else [ValueOf(parse, items[0], tm)] + ValuesOf(parse, items[1..], tm)
  }

  function EntriesOf(parse: Parser, flat: seq<Message>, tm: TypeMapping): seq<(Value, Value)>
    decreases flat
  {
    if |flat| < 2 then []
    else [(KeyOf(parse, flat[0], tm), ValueOf(parse, flat[1], tm))] + EntriesOf(parse, flat[2..], tm)
  }

  // `s` is what the stream holds at `pos`.
  ghost predicate At(chunk: Bytes, pos: nat, s: Bytes) {
    pos + |s| <= |chunk| && chunk[pos..pos + |s|] == s
  }

  lemma AtSplit(chunk: Bytes, pos: nat, a: Bytes, b: Bytes)
    requires At(chunk, pos, a + b)
    ensures At(chunk, pos, a) && At(chunk, pos + |a|, b)
  {
    var whole := chunk[pos..pos + |a + b|];
    assert whole[..|a|] == a && whole[|a|..] == b;
    assert chunk[pos..pos + |a|] == whole[..|a|];
    assert chunk[pos + |a|..pos + |a| + |b|] == whole[|a|..];
  }

  lemma AtFirst(chunk: Bytes, pos: nat, s: Bytes)
    requires At(chunk, pos, s) && s != []
    ensures chunk[pos] == s[0] && At(chunk, pos + 1, s[1..])
  {
    AtSplit(chunk, pos, [s[0]], s[1..]) by {
      assert [s[0]] + s[1..] == s;
    }
    assert chunk[pos..pos + 1][0] == chunk[pos];
  }

  lemma {:induction false} RunDigits(parse: Parser, acc: int, digits: Bytes, chunk: Bytes, pos: nat)
    requires AllDigits(digits) && At(chunk, pos, digits + CRLF)
    ensures Run(parse, Unsigned(acc), chunk, pos)
         == Finished(Number(Accumulate(acc, digits)), pos + |digits| + 2)
    decreases |digits|
  {
    AtFirst(chunk, pos, digits + CRLF);
    if digits == [] {
      assert Feed(parse, Unsigned(acc), chunk[pos]) == Done(Number(acc), 1);
    } else {
      assert (digits + CRLF)[1..] == digits[1..] + CRLF;
      assert IsDigit(digits[0]);
      RunDigits(parse, acc * 10 + (digits[0] - ZERO), digits[1..], chunk, pos + 1);
    }
  }

  // A printed length reads back, and does not look like a RESP2 null.
  lemma RunLength(parse: Parser, frame: Frame, n: nat, chunk: Bytes, pos: nat)
    requires At(chunk, pos, PrintLength(n))
    ensures IsDigit(chunk[pos])
    ensures RunStep(parse, Wrap(frame, FeedUnsigned(0, chunk[pos])), chunk, pos + 1)
         == RunStep(parse, Resume(frame, Number(n)), chunk, pos + |PrintLength(n)|)
  {
    AtFirst(chunk, pos, PrintLength(n));
    RunDigits(parse, 0, PrintNat(n), chunk, pos);
    ReadPrintedNat(n);
    hide PrintNat, Accumulate, Wrap;
    RunWrap(parse, frame, FeedUnsigned(0, chunk[pos]), chunk, pos + 1);
    assert Run(parse, Unsigned(0), chunk, pos) == RunStep(parse, FeedUnsigned(0, chunk[pos]), chunk, pos + 1);
  }

  lemma RunPrintedLine(parse: Parser, bytes: Bytes, t: StringType, chunk: Bytes, pos: nat)
    requires At(chunk, pos, bytes + CRLF) && CR !in bytes
    ensures RunStep(parse, FeedLine([], t, chunk[pos]), chunk, pos + 1)
         == Finished(StringOf(t, bytes), pos + |bytes| + 2)
  {
    LineEnds(bytes, chunk, pos);
    RunLine(parse, [], t, chunk, pos, pos + |bytes|);
    assert [] + bytes == bytes;
    assert Run(parse, Line([], t), chunk, pos) == RunStep(parse, FeedLine([], t, chunk[pos]), chunk, pos + 1);
  }

  lemma LineEnds(bytes: Bytes, chunk: Bytes, pos: nat)
    requires At(chunk, pos, bytes + CRLF) && CR !in bytes
    ensures chunk[pos..pos + |bytes|] == bytes && NoCR(chunk, pos, pos + |bytes|) && chunk[pos + |bytes|] == CR
  {
    AtSplit(chunk, pos, bytes, CRLF);
    AtFirst(chunk, pos + |bytes|, CRLF);
    forall k | pos <= k < pos + |bytes| ensures chunk[k] != CR {
      assert chunk[k] == chunk[pos..pos + |bytes|][k - pos];
    }
  }

  lemma RunPrintedDouble(parse: Parser, token: Bytes, chunk: Bytes, pos: nat)
    requires At(chunk, pos, token + CRLF) && CR !in token
    ensures RunStep(parse, FeedDouble(parse, [], chunk[pos]), chunk, pos + 1)
         == Finished(DoubleValue(parse(token)), pos + |token| + 2)
  {
    LineEnds(token, chunk, pos);
    RunWholeDouble(parse, chunk, pos, pos + |token|);
    assert Run(parse, DoubleToken([]), chunk, pos) == RunStep(parse, FeedDouble(parse, [], chunk[pos]), chunk, pos + 1);
  }

  lemma RunPrintedCounted(parse: Parser, bytes: Bytes, after: nat, t: StringType, chunk: Bytes, pos: nat)
    requires At(chunk, pos, bytes) && pos + |bytes| < |chunk|
    ensures Run(parse, Counted(|bytes|, [], after, t), chunk, pos)
         == Finished(StringOf(t, bytes), pos + |bytes| + 1 + after)
  {
    RunCounted(parse, |bytes|, [], after, t, chunk, pos, pos + |bytes|);
    assert [] + bytes == bytes;
  }

  lemma BlobParts(bytes: Bytes, chunk: Bytes, pos: nat) returns (start: nat)
    requires At(chunk, pos, PrintBlob(bytes))
    ensures start == pos + |PrintLength(|bytes|)| && At(chunk, pos, PrintLength(|bytes|)) && At(chunk, start, bytes)
    ensures pos < start && start + |bytes| + 2 == pos + |PrintBlob(bytes)| <= |chunk|
  {
    start := pos + |PrintLength(|bytes|)|;
    hide PrintNat;
    AtSplit(chunk, pos, PrintLength(|bytes|), bytes + CRLF);
    AtSplit(chunk, start, bytes, CRLF);
  }

  lemma RunPrintedBlob(parse: Parser, bytes: Bytes, t: StringType, chunk: Bytes, pos: nat)
    requires At(chunk, pos, PrintBlob(bytes))
    ensures RunStep(parse, StartBlob(t, chunk[pos]), chunk, pos + 1)
         == Finished(StringOf(t, bytes), pos + |PrintBlob(bytes)|)
  {
    hide Run, Wrap, FeedUnsigned, PrintLength, PrintBlob, At;
    var start := BlobParts(bytes, chunk, pos);
    RunLength(parse, BlobLength(t), |bytes|, chunk, pos);
    RunPrintedCounted(parse, bytes, 1, t, chunk, start);
    assert RunStep(parse, StartBlob(t, chunk[pos]), chunk, pos + 1)
        == RunStep(parse, Resume(BlobLength(t), Number(|bytes|)), chunk, start);
  }

  lemma RunPrintedVerbatim(parse: Parser, format: Bytes, bytes: Bytes, vt: VerbatimType, chunk: Bytes, pos: nat)
    requires |format| == 3 && At(chunk, pos, PrintLength(|bytes| + 4) + PrintVerbatim(format, bytes))
    ensures RunStep(parse, Wrap(VerbatimLength(vt), FeedUnsigned(0, chunk[pos])), chunk, pos + 1)
         == Finished(if vt.VerbatimAsObject? then Verbatim(format, bytes) else StringOf(vt.t, bytes),
                     pos + |PrintLength(|bytes| + 4) + PrintVerbatim(format, bytes)|)
  {
    hide Wrap, FeedUnsigned, PrintNat;
    var start := pos + |PrintLength(|bytes| + 4)|;
    AtSplit(chunk, pos, PrintLength(|bytes| + 4), PrintVerbatim(format, bytes));
    RunLength(parse, VerbatimLength(vt), |bytes| + 4, chunk, pos);
    RunPrintedVerbatimText(parse, format, bytes, vt, chunk, start);
  }

  lemma RunPrintedVerbatimText(parse: Parser, format: Bytes, bytes: Bytes, vt: VerbatimType, chunk: Bytes, pos: nat)
    requires |format| == 3 && At(chunk, pos, PrintVerbatim(format, bytes))
    ensures RunStep(parse, Resume(VerbatimLength(vt), Number(|bytes| + 4)), chunk, pos)
         == Finished(if vt.VerbatimAsObject? then Verbatim(format, bytes) else StringOf(vt.t, bytes),
                     pos + |PrintVerbatim(format, bytes)|)
  {
    AtSplit(chunk, pos, format, [58] + (bytes + CRLF));
    AtSplit(chunk, pos + 3, [58], bytes + CRLF);
    AtSplit(chunk, pos + 4, bytes, CRLF);
    if vt.VerbatimAsObject? {
      RunIn(parse, VerbatimFormat(|bytes|), Counted(3, [], 0, AsString), chunk, pos);
      RunPrintedCounted(parse, format, 0, AsString, chunk, pos);
      RunIn(parse, VerbatimText(format), Counted(|bytes|, [], 1, AsString), chunk, pos + 4);
      RunPrintedCounted(parse, bytes, 1, AsString, chunk, pos + 4);
    } else {
      RunPrintedCounted(parse, bytes, 1, vt.t, chunk, pos + 4);
    }
  }

  lemma RunPrintedInt(parse: Parser, n: int, plus: bool, asString: bool, big: bool, chunk: Bytes, pos: nat)
    requires At(chunk, pos, PrintInt(n, plus) + CRLF)
    ensures RunStep(parse, StartNumber(asString, big, chunk[pos]), chunk, pos + 1)
         == Finished(if asString then Text(PrintInt(n, plus)) else if big then BigNumber(n) else Number(n),
                     pos + |PrintInt(n, plus)| + 2)
  {
    if asString {
      var digits := PrintNat(Abs(n));
      assert CR !in PrintInt(n, plus) by { assert forall i :: 0 <= i < |digits| ==> IsDigit(digits[i]); }
      RunPrintedLine(parse, PrintInt(n, plus), AsString, chunk, pos);
    } else {
      RunPrintedSigned(parse, n, plus, big, chunk, pos);
    }
  }

  // Digits behind a sign.
  lemma RunSignedDigits(parse: Parser, digits: Bytes, big: bool, chunk: Bytes, pos: nat)
    requires pos < |chunk| && (chunk[pos] == PLUS || chunk[pos] == MINUS)
    requires AllDigits(digits) && At(chunk, pos + 1, digits + CRLF)
    ensures RunStep(parse, StartNumber(false, big, chunk[pos]), chunk, pos + 1)
         == RunStep(parse, Resume(Signed(chunk[pos] == MINUS, big), Number(Accumulate(0, digits))), chunk,
                    pos + 1 + |digits| + 2)
  {
    RunIn(parse, Signed(chunk[pos] == MINUS, big), Unsigned(0), chunk, pos + 1);
    hide Feed, Resume, Accumulate, At, AllDigits;
    RunDigits(parse, 0, digits, chunk, pos + 1);
  }

  lemma RunPrintedSigned(parse: Parser, n: int, plus: bool, big: bool, chunk: Bytes, pos: nat)
    requires At(chunk, pos, PrintInt(n, plus) + CRLF)
    ensures RunStep(parse, StartNumber(false, big, chunk[pos]), chunk, pos + 1)
         == Finished(if big then BigNumber(n) else Number(n), pos + |PrintInt(n, plus)| + 2)
  {
    hide Feed, PrintNat, Run, Wrap, FeedUnsigned, Accumulate;
    var sign, digits := PrintSign(n, plus), PrintNat(Abs(n));
    AtFirst(chunk, pos, PrintInt(n, plus) + CRLF);
    assert PrintInt(n, plus) + CRLF == sign + (digits + CRLF);
    AtSplit(chunk, pos, sign, digits + CRLF);
    if sign == [] {
      RunLength(parse, Signed(false, big), n, chunk, pos);
    } else {
      assert chunk[pos] == sign[0] && |sign| == 1;
      ReadPrintedNat(Abs(n));
      RunSignedDigits(parse, digits, big, chunk, pos);
    }
  }

  predicate IsCollection(m: Message) { m.ArrayMessage? || m.SetMessage? || m.MapMessage? }

  // What decoding `m` from the byte after its type byte must come to.
  ghost predicate Decodes(parse: Parser, m: Message, tm: TypeMapping, chunk: Bytes, pos: nat) {
    pos < |chunk| &&
    RunStep(parse, Start(parse, TypeOf(m), tm, chunk[pos]), chunk, pos + 1)
      == Finished(ValueOf(parse, m, tm), pos + |PrintBody(m)|)
  }

  lemma RunPrintedFixed(parse: Parser, m: Message, tm: TypeMapping, chunk: Bytes, pos: nat)
    requires m.NullMessage? || m.BooleanMessage? || m.NullBlobMessage? || m.NullArrayMessage?
    requires At(chunk, pos, PrintBody(m))
    ensures Decodes(parse, m, tm, chunk, pos)
  {
    hide Run;
    AtFirst(chunk, pos, PrintBody(m));
  }

  lemma RunPrintedError(parse: Parser, m: Message, tm: TypeMapping, chunk: Bytes, pos: nat)
    requires WellFormed(m) && (m.SimpleErrorMessage? || m.BlobErrorMessage?) && At(chunk, pos, PrintBody(m))
    ensures Decodes(parse, m, tm, chunk, pos)
  {
    hide Run, Wrap, FeedLine, StartBlob, PrintNat;
    AtFirst(chunk, pos, PrintBody(m));
    if m.SimpleErrorMessage? {
      RunPrintedLine(parse, m.bytes, AsString, chunk, pos);
      RunWrap(parse, ErrorMessage(false), FeedLine([], AsString, chunk[pos]), chunk, pos + 1);
    } else {
      RunPrintedBlob(parse, m.bytes, AsString, chunk, pos);
      RunWrap(parse, ErrorMessage(true), StartBlob(AsString, chunk[pos]), chunk, pos + 1);
    }
  }

  lemma RunPrintedScalar(parse: Parser, m: Message, tm: TypeMapping, chunk: Bytes, pos: nat)
    requires WellFormed(m) && !IsCollection(m) && At(chunk, pos, PrintBody(m))
    ensures Decodes(parse, m, tm, chunk, pos)
  {
    hide RunStep, Wrap, FeedUnsigned, FeedLine, FeedDouble, StartBlob, StartNumber, PrintNat, PrintInt,
         Run, At;
    AtFirst(chunk, pos, PrintBody(m));
    match m
    case NumberMessage(n, plus) => RunPrintedInt(parse, n, plus, tm.numberAsString, false, chunk, pos);
    case BigNumberMessage(n, plus) => RunPrintedInt(parse, n, plus, tm.bigNumberAsString, true, chunk, pos);
    case DoubleMessage(token) =>
      if tm.doubleAsString {
        RunPrintedLine(parse, token, AsString, chunk, pos);
      } else {
        RunPrintedDouble(parse, token, chunk, pos);
      }
    case SimpleMessage(bytes) => RunPrintedLine(parse, bytes, tm.simpleString, chunk, pos);
    case BlobMessage(bytes) => RunPrintedBlob(parse, bytes, tm.blobString, chunk, pos);
    case VerbatimMessage(format, bytes) => RunPrintedVerbatim(parse, format, bytes, tm.verbatim, chunk, pos);
    case SimpleErrorMessage(_) => RunPrintedError(parse, m, tm, chunk, pos);
    case BlobErrorMessage(_) => RunPrintedError(parse, m, tm, chunk, pos);
    case _ => RunPrintedFixed(parse, m, tm, chunk, pos);
  }

  /** A value decodes to what it stands for, from its type byte on, and consumes exactly its bytes. */
  lemma {:induction false} RunPrinted(parse: Parser, m: Message, tm: TypeMapping, chunk: Bytes, pos: nat)
    requires WellFormed(m) && At(chunk, pos, PrintBody(m))
    ensures Decodes(parse, m, tm, chunk, pos)
    decreases m, 2
  {
    match m
    case ArrayMessage(items) => RunPrintedArray(parse, m, tm, chunk, pos);
    case SetMessage(items) => RunPrintedSet(parse, m, tm, chunk, pos);
    case MapMessage(flat) => RunPrintedMap(parse, m, tm, chunk, pos);
    case _ => RunPrintedScalar(parse, m, tm, chunk, pos);
  }

  // The length is read; the elements start at `start`.
  lemma RunPrintedLength(parse: Parser, frame: Frame, n: nat, items: seq<Message>, chunk: Bytes, pos: nat)
    returns (start: nat)
    requires At(chunk, pos, PrintLength(n) + PrintItems(items))
    ensures start == pos + |PrintLength(n)| && At(chunk, start, PrintItems(items))
    ensures pos < |chunk| && chunk[pos] != MINUS
    ensures RunStep(parse, Wrap(frame, FeedUnsigned(0, chunk[pos])), chunk, pos + 1)
         == RunStep(parse, Resume(frame, Number(n)), chunk, start)
  {
    AtSplit(chunk, pos, PrintLength(n), PrintItems(items));
    RunLength(parse, frame, n, chunk, pos);
    start := pos + |PrintLength(n)|;
  }

  lemma RunPrintedArray(parse: Parser, m: Message, tm: TypeMapping, chunk: Bytes, pos: nat)
    requires WellFormed(m) && m.ArrayMessage? && At(chunk, pos, PrintBody(m))
    ensures Decodes(parse, m, tm, chunk, pos)
    decreases m, 1
  {
    hide Run, Wrap, FeedUnsigned, PrintNat;
    var start := RunPrintedLength(parse, ArrayLength(tm), |m.items|, m.items, chunk, pos);
    RunPrintedItems(parse, m.items, [], tm, chunk, start);
    assert [] + ValuesOf(parse, m.items, tm) == ValuesOf(parse, m.items, tm);
  }

  lemma RunPrintedSet(parse: Parser, m: Message, tm: TypeMapping, chunk: Bytes, pos: nat)
    requires WellFormed(m) && m.SetMessage? && At(chunk, pos, PrintBody(m))
    ensures Decodes(parse, m, tm, chunk, pos)
    decreases m, 1
  {
    hide Run, Wrap, FeedUnsigned, PrintNat;
    var start := RunPrintedLength(parse, SetLength(tm), |m.items|, m.items, chunk, pos);
    if tm.sets.SetAsSet? {
      RunPrintedSetItems(parse, m.items, [], tm, chunk, start);
    } else {
      RunPrintedItems(parse, m.items, [], tm, chunk, start);
    }
    assert [] + ValuesOf(parse, m.items, tm) == ValuesOf(parse, m.items, tm);
  }

  lemma RunPrintedMap(parse: Parser, m: Message, tm: TypeMapping, chunk: Bytes, pos: nat)
    requires WellFormed(m) && m.MapMessage? && At(chunk, pos, PrintBody(m))
    ensures Decodes(parse, m, tm, chunk, pos)
    decreases m, 1
  {
    hide Run, RunStep, Wrap, FeedUnsigned, PrintNat;
    var start := RunPrintedLength(parse, MapLength(tm), |m.flat| / 2, m.flat, chunk, pos);
    match tm.maps {
      case MapAsMap => RunPrintedEntries(parse, ToMap, m.flat, [], tm, chunk, start);
      case MapAsObject => RunPrintedEntries(parse, ToObject, m.flat, [], tm, chunk, start);
      case MapAsArray => RunPrintedItems(parse, m.flat, [], tm, chunk, start);
    }
    assert [] + ValuesOf(parse, m.flat, tm) == ValuesOf(parse, m.flat, tm);
    assert [] + EntriesOf(parse, m.flat, tm) == EntriesOf(parse, m.flat, tm);
  }

  // A whole nested value, type byte included.
  lemma RunPrintedNested(parse: Parser, m: Message, tm: TypeMapping, chunk: Bytes, pos: nat)
    requires WellFormed(m) && At(chunk, pos, Print(m))
    ensures Run(parse, Nested(tm), chunk, pos) == Finished(ValueOf(parse, m, tm), pos + |Print(m)|)
    decreases m, 3
  {
    AtFirst(chunk, pos, Print(m));
    assert Print(m)[1..] == PrintBody(m);
    RunNested(parse, tm, chunk, pos);
    RunPrinted(parse, m, tm, chunk, pos + 1);
    RunTypeValue(parse, TypeOf(m), tm, chunk, pos + 1);
  }

  lemma RunPrintedKey(parse: Parser, m: Message, tm: TypeMapping, chunk: Bytes, pos: nat)
    requires WellFormed(m) && At(chunk, pos, Print(m))
    ensures chunk[pos] == TypeOf(m)
    ensures Run(parse, KeyValue(TypeOf(m), tm), chunk, pos + 1) == Finished(KeyOf(parse, m, tm), pos + |Print(m)|)
    decreases m, 3
  {
    hide Run, FeedLine, PrintNat;
    AtFirst(chunk, pos, Print(m));
    assert Print(m)[1..] == PrintBody(m);
    RunPrinted(parse, m, tm, chunk, pos + 1);
    RunKeyValue(parse, TypeOf(m), tm, chunk, pos + 1);
    if m.SimpleMessage? {
      RunPrintedLine(parse, m.bytes, AsString, chunk, pos + 1);
    } else if m.BlobMessage? {
      RunPrintedBlob(parse, m.bytes, AsString, chunk, pos + 1);
    }
  }

  lemma {:induction false} RunPrintedItems(parse: Parser, items: seq<Message>, done: seq<Value>, tm: TypeMapping,
                                           chunk: Bytes, pos: nat)
    requires (forall i :: 0 <= i < |items| ==> WellFormed(items[i])) && At(chunk, pos, PrintItems(items))
    ensures RunStep(parse, AfterItems(done, |items|, tm), chunk, pos)
         == Finished(Array(done + ValuesOf(parse, items, tm)), pos + |PrintItems(items)|)
    decreases items
  {
    hide Feed, Print, ValueOf;
    if items == [] {
      assert done + [] == done;
    } else {
      AtSplit(chunk, pos, Print(items[0]), PrintItems(items[1..]));
      RunPrintedNested(parse, items[0], tm, chunk, pos);
      RunItems(parse, done, |items| - 1, tm, chunk, pos);
      var v := ValueOf(parse, items[0], tm);
      RunPrintedItems(parse, items[1..], done + [v], tm, chunk, pos + |Print(items[0])|);
      ConcatAssociates(done, [v], ValuesOf(parse, items[1..], tm));
    }
  }

  lemma {:induction false} RunPrintedSetItems(parse: Parser, items: seq<Message>, done: seq<Value>, tm: TypeMapping,
                                         chunk: Bytes, pos: nat)
    requires (forall i :: 0 <= i < |items| ==> WellFormed(items[i])) && At(chunk, pos, PrintItems(items))
    ensures RunStep(parse, AfterSetItems(done, |items|, tm), chunk, pos)
         == Finished(SetObject(done + ValuesOf(parse, items, tm)), pos + |PrintItems(items)|)
    decreases items
  {
    hide Feed, Print, ValueOf;
    if items == [] {
      assert done + [] == done;
    } else {
      AtSplit(chunk, pos, Print(items[0]), PrintItems(items[1..]));
      RunPrintedNested(parse, items[0], tm, chunk, pos);
      RunSetItems(parse, done, |items| - 1, tm, chunk, pos);
      var v := ValueOf(parse, items[0], tm);
      RunPrintedSetItems(parse, items[1..], done + [v], tm, chunk, pos + |Print(items[0])|);
      ConcatAssociates(done, [v], ValuesOf(parse, items[1..], tm));
    }
  }

  // The first entry of `flat`.
  lemma RunPrintedEntry(parse: Parser, kind: PairKind, flat: seq<Message>, done: seq<(Value, Value)>, rest: nat,
                        tm: TypeMapping, chunk: Bytes, pos: nat)
    requires |flat| >= 2 && WellFormed(flat[0]) && WellFormed(flat[1])
    requires At(chunk, pos, Print(flat[0])) && At(chunk, pos + |Print(flat[0])|, Print(flat[1]))
    ensures Run(parse, MapEntries(kind, done, rest, tm), chunk, pos)
         == RunStep(parse, AfterEntries(kind, done + [(KeyOf(parse, flat[0], tm), ValueOf(parse, flat[1], tm))], rest, tm),
                    chunk, pos + |Print(flat[0])| + |Print(flat[1])|)
    decreases flat, 0
  {
    hide Feed, Start, StartKey, Print, ValueOf, KeyOf;
    var mid := pos + |Print(flat[0])|;
    RunPrintedKey(parse, flat[0], tm, chunk, pos);
    RunEntries(parse, kind, done, rest, tm, chunk, pos);
    RunPrintedNested(parse, flat[1], tm, chunk, mid);
    RunIn(parse, MapValue(kind, done, rest, KeyOf(parse, flat[0], tm), tm), Nested(tm), chunk, mid);
  }

  lemma AtTwoItems(chunk: Bytes, pos: nat, flat: seq<Message>)
    requires |flat| >= 2 && At(chunk, pos, PrintItems(flat))
    ensures At(chunk, pos, Print(flat[0])) && At(chunk, pos + |Print(flat[0])|, Print(flat[1]))
    ensures At(chunk, pos + |Print(flat[0])| + |Print(flat[1])|, PrintItems(flat[2..]))
    ensures |PrintItems(flat)| == |Print(flat[0])| + |Print(flat[1])| + |PrintItems(flat[2..])|
  {
    assert flat[1..][1..] == flat[2..];
    AtSplit(chunk, pos, Print(flat[0]), PrintItems(flat[1..]));
    AtSplit(chunk, pos + |Print(flat[0])|, Print(flat[1]), PrintItems(flat[2..]));
  }

  lemma {:induction false} RunPrintedEntries(parse: Parser, kind: PairKind, flat: seq<Message>,
                                             done: seq<(Value, Value)>, tm: TypeMapping, chunk: Bytes, pos: nat)
    requires |flat| % 2 == 0 && (forall i :: 0 <= i < |flat| ==> WellFormed(flat[i]))
    requires At(chunk, pos, PrintItems(flat))
    ensures RunStep(parse, AfterEntries(kind, done, |flat| / 2, tm), chunk, pos)
         == Finished(Pairs(kind, done + EntriesOf(parse, flat, tm)), pos + |PrintItems(flat)|)
    decreases flat, 1
  {
    hide Feed, Print, ValueOf, KeyOf, Run, WellFormed;
    if flat == [] {
      assert done + [] == done;
    } else {
      AtTwoItems(chunk, pos, flat);
      RunPrintedEntry(parse, kind, flat, done, |flat| / 2 - 1, tm, chunk, pos);
      var entry := (KeyOf(parse, flat[0], tm), ValueOf(parse, flat[1], tm));
      RunPrintedEntries(parse, kind, flat[2..], done + [entry], tm, chunk, pos + |Print(flat[0])| + |Print(flat[1])|);
      ConcatAssociates(done, [entry], EntriesOf(parse, flat[2..], tm));
    }
  }

  // What a server sends: replies and pushes.
  datatype Sent = Answer(m: Message) | PushOf(items: seq<Message>)

  ghost predicate SentWellFormed(s: Sent) {
    match s
    case Answer(m) => WellFormed(m)
    case PushOf(items) => WellFormed(ArrayMessage(items))
  }

  function PrintSent(s: Sent): Bytes {
    match s
    case Answer(m) => Print(m)
    case PushOf(items) => [PUSH] + PrintBody(ArrayMessage(items))
  }

  function PrintStream(stream: seq<Sent>): Bytes {
    if stream == [] then [] else PrintSent(stream[0]) + PrintStream(stream[1..])
  }

  // No mapping at all: everything as JavaScript has it, sets and maps as the RESP3 defaults.
  const DEFAULT_TYPE_MAPPING := TypeMapping(false, false, false, AsString, AsString,
                                            VerbatimAsText(AsString), SetAsArray, MapAsObject)

  /** The call a message must lead to, as the n-th one. */
  function EventOf(host: Host, n: nat, s: Sent): Event {
    match s
    case Answer(m) =>
      var v := ValueOf(host.parse, m, host.mappingAt(n));
      if m.SimpleErrorMessage? || m.BlobErrorMessage? then ErrorReply(v) else Reply(v)
    case PushOf(items) => Push(ValueOf(host.parse, ArrayMessage(items), DEFAULT_TYPE_MAPPING.(blobString := AsBuffer)))
  }

  function EventsOf(host: Host, n: nat, stream: seq<Sent>): seq<Event>
    decreases |stream|
  {
    if stream == [] then [] else [EventOf(host, n, stream[0])] + EventsOf(host, n + 1, stream[1..])
  }

  lemma ConsumeSent(host: Host, log: seq<Event>, s: Sent, bytes: Bytes, pos: nat)
    requires SentWellFormed(s) && At(bytes, pos, PrintSent(s))
    ensures Consume(host, Idle, log, bytes, pos)
         == Consume(host, Idle, log + [EventOf(host, |log|, s)], bytes, pos + |PrintSent(s)|)
  {
    var body, typ := SentBody(s), SentType(s);
    var tm := MappingFor(host, typ, |log|);
    SentIs(host, |log|, s);
    hide Consume, Run, RunStep, Start, EventOf, PrintSent, SentBody, SentType, PrintBody, ValueOf;
    AtSplit(bytes, pos, [typ], PrintBody(body));
    AtFirst(bytes, pos, [typ]);
    AtFirst(bytes, pos + 1, PrintBody(body));
    RunPrinted(host.parse, body, tm, bytes, pos + 1);
    RunTypeValue(host.parse, BodyType(typ), tm, bytes, pos + 1);
    ConsumeBody(host, typ, log, bytes, pos + 1);
    ConsumeTypeByte(host, typ, log, bytes, pos);
  }

  function SentBody(s: Sent): Message { if s.Answer? then s.m else ArrayMessage(s.items) }

  function SentType(s: Sent): Byte { if s.Answer? then TypeOf(s.m) else PUSH }

  // The type byte decides on the handler, the mapping, and what follows.
  lemma SentIs(host: Host, n: nat, s: Sent)
    requires SentWellFormed(s)
    ensures PrintSent(s) == [SentType(s)] + PrintBody(SentBody(s)) && PrintBody(SentBody(s)) != []
    ensures WellFormed(SentBody(s)) && BodyType(SentType(s)) == TypeOf(SentBody(s))
    ensures EventOf(host, n, s)
         == Deliver(HandlerOf(SentType(s)), ValueOf(host.parse, SentBody(s), MappingFor(host, SentType(s), n)))
  {
    hide ValueOf, PrintNat, PrintItems;
  }

  lemma {:induction false} ConsumeStream(host: Host, log: seq<Event>, stream: seq<Sent>, bytes: Bytes, pos: nat)
    requires forall i :: 0 <= i < |stream| ==> SentWellFormed(stream[i])
    requires At(bytes, pos, PrintStream(stream)) && pos + |PrintStream(stream)| == |bytes|
    ensures Consume(host, Idle, log, bytes, pos) == State(Idle, 0, log + EventsOf(host, |log|, stream))
    decreases |stream|
  {
    hide OneByte, SentWellFormed, EventOf, PrintSent;
    if stream == [] {
      assert log + [] == log;
    } else {
      AtSplit(bytes, pos, PrintSent(stream[0]), PrintStream(stream[1..]));
      ConsumeSent(host, log, stream[0], bytes, pos);
      var log' := log + [EventOf(host, |log|, stream[0])];
      ConsumeStream(host, log', stream[1..], bytes, pos + |PrintSent(stream[0])|);
      ConcatAssociates(log, [EventOf(host, |log|, stream[0])], EventsOf(host, |log'|, stream[1..]));
    }
  }

  /** The decoder undoes the printer: however the bytes of well-formed messages are cut, their
      values are reported once each, in order, and nothing is left pending. */
  lemma ParserUndoesPrinter(host: Host, log: seq<Event>, stream: seq<Sent>, chunks: seq<Bytes>)
    requires forall i :: 0 <= i < |stream| ==> SentWellFormed(stream[i])
    requires Flatten(chunks) == PrintStream(stream)
    ensures ConsumeChunks(host, State(Idle, 0, log), chunks)
         == State(Idle, 0, log + EventsOf(host, |log|, stream))
  {
    ChunkingDoesNotMatter(host, State(Idle, 0, log), chunks);
    ConsumeStream(host, log, stream, PrintStream(stream), 0);
  }

  function Codes(s: string): seq<int> { seq(|s|, i requires 0 <= i < |s| => s[i] as int) }

  /** The bytes are those that the RESP3 specification names. */
  lemma BytesOfTheProtocol()
    ensures [NULL, BOOLEAN, NUMBER, BIG_NUMBER, DOUBLE, SIMPLE_STRING, BLOB_STRING] == Codes("_#:(,+$")
    ensures [VERBATIM_STRING, SIMPLE_ERROR, BLOB_ERROR, ARRAY, SET, MAP, PUSH] == Codes("=-!*~%>")
    ensures CRLF == Codes("\r\n") && [LOWER_T, PLUS, MINUS, ZERO, DOT] == Codes("t+-0.")
  {
  }
}
