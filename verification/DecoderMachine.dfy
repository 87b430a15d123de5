/** The reference for the decoder: a machine that reads one byte at a time.

    A value being decoded is a `Cont`, the defunctionalised form of the closures that
    packages/client/lib/RESP/decoder.ts binds when a chunk ends: closures that behave alike are one
    constructor, and a closure that waits for another one is `In(frame, inner)`. `Feed` says what
    one byte does to it. There are no chunks, no cursor and no loops here. */
module DecoderMachine {
  import opened RespTypes

  // What a double token stands for.
  type Parser = Bytes -> Double

  datatype PairKind = ToMap | ToObject

  // What remains to be done once the inner value is complete; a collection lacks the element being
  // decoded and `rest` more.
  datatype Frame =
    | Signed(negative: bool, big: bool)
    | BlobLength(t: StringType)
    | VerbatimLength(v: VerbatimType)
    | VerbatimFormat(length: nat)
    | VerbatimText(format: Bytes)
    | ErrorMessage(blob: bool)
    | ArrayLength(tm: TypeMapping)
    | ArrayItem(items: seq<Value>, rest: nat, tm: TypeMapping)
    | SetLength(tm: TypeMapping)
    | SetItem(items: seq<Value>, rest: nat, tm: TypeMapping)
    | MapLength(tm: TypeMapping)
    | MapKey(kind: PairKind, pairs: seq<(Value, Value)>, rest: nat, tm: TypeMapping)
    | MapValue(kind: PairKind, pairs: seq<(Value, Value)>, rest: nat, key: Value, tm: TypeMapping)

  datatype Cont =
    | Unsigned(n: int)
    | DoubleToken(token: Bytes)
    | Line(acc: Bytes, t: StringType)
    | Counted(remaining: nat, acc: Bytes, after: nat, t: StringType)  // `after` the byte that ends it
    | TypeValue(typ: Byte, tm: TypeMapping)
    | KeyValue(typ: Byte, tm: TypeMapping)
    | Nested(tm: TypeMapping)
    | ArrayItems(items: seq<Value>, rest: nat, tm: TypeMapping)
    | SetItems(items: seq<Value>, rest: nat, tm: TypeMapping)
    | MapEntries(kind: PairKind, pairs: seq<(Value, Value)>, rest: nat, tm: TypeMapping)
    | In(frame: Frame, inner: Cont)

  // After one byte: a value, or a continuation; either way `skip` more bytes go unread.
  datatype Step = Done(v: Value, skip: nat) | More(k: Cont, skip: nat) | Throw

  function Skipping(step: Step, n: nat): Step {
    match step
    case Done(v, s) => Done(v, s + n)
    case More(k, s) => More(k, s + n)
    case Throw => Throw
  }

  function Pairs(kind: PairKind, pairs: seq<(Value, Value)>): Value {
    if kind == ToMap then MapObject(pairs) else PlainObject(pairs)
  }

  // Collections return as soon as their last element is in, and otherwise wait for the next one.
  function AfterItems(items: seq<Value>, remaining: nat, tm: TypeMapping): Step {
    if remaining == 0 then Done(Array(items), 0) else More(ArrayItems(items, remaining - 1, tm), 0)
  }

  function AfterSetItems(items: seq<Value>, remaining: nat, tm: TypeMapping): Step {
    if remaining == 0 then Done(SetObject(items), 0) else More(SetItems(items, remaining - 1, tm), 0)
  }

  function AfterEntries(kind: PairKind, pairs: seq<(Value, Value)>, remaining: nat, tm: TypeMapping): Step {
    if remaining == 0 then Done(Pairs(kind, pairs), 0) else More(MapEntries(kind, pairs, remaining - 1, tm), 0)
  }

  /** The inner value `v` of `frame` is complete. A negative length is malformed input. */
  function Resume(frame: Frame, v: Value): Step {
    match frame
    case Signed(negative, big) =>
      if !v.Number? then Throw
      else
        var n := if negative then -v.n else v.n;
        Done(if big then BigNumber(n) else Number(n), 0)
    case BlobLength(t) =>
      if !v.Number? || v.n < 0 then Throw else More(Counted(v.n, [], 1, t), 0)
    case VerbatimLength(vt) =>
      if !v.Number? || v.n < 4 then Throw
      else if vt.VerbatimAsObject? then More(In(VerbatimFormat(v.n - 4), Counted(3, [], 0, AsString)), 0)
      else More(Counted(v.n - 4, [], 1, vt.t), 4)
    case VerbatimFormat(length) =>
      if !v.Text? then Throw else More(In(VerbatimText(v.bytes), Counted(length, [], 1, AsString)), 0)
    case VerbatimText(format) =>
      if !v.Text? then Throw else Done(Verbatim(format, v.bytes), 0)
    case ErrorMessage(blob) =>
      Done(if blob then BlobError(v) else SimpleError(v), 0)
    case ArrayLength(tm) =>
      if !v.Number? || v.n < 0 then Throw else AfterItems([], v.n, tm)
    case ArrayItem(items, rest, tm) =>
      AfterItems(items + [v], rest, tm)
    case SetLength(tm) =>
      if !v.Number? || v.n < 0 then Throw
      else if tm.sets.SetAsArray? then AfterItems([], v.n, tm)
      else AfterSetItems([], v.n, tm)
    case SetItem(items, rest, tm) =>
      AfterSetItems(items + [v], rest, tm)
    case MapLength(tm) =>
      if !v.Number? || v.n < 0 then Throw
      else (match tm.maps
            case MapAsMap => AfterEntries(ToMap, [], v.n, tm)
            case MapAsObject => AfterEntries(ToObject, [], v.n, tm)
            case MapAsArray => AfterItems([], 2 * v.n, tm))
    case MapKey(kind, pairs, rest, tm) =>
      More(In(MapValue(kind, pairs, rest, v, tm), Nested(tm)), 0)
    case MapValue(kind, pairs, rest, key, tm) =>
      AfterEntries(kind, pairs + [(key, v)], rest, tm)
  }

  function Wrap(frame: Frame, step: Step): Step {
    match step
    case Done(v, skip) => Skipping(Resume(frame, v), skip)
    case More(k, skip) => More(In(frame, k), skip)
    case Throw => Throw
  }

  function FeedUnsigned(n: int, b: Byte): Step {
    if b == CR then Done(Number(n), 1) else More(Unsigned(n * 10 + (b - ZERO)), 0)
  }

  function FeedLine(acc: Bytes, t: StringType, b: Byte): Step {
    if b == CR then Done(StringOf(t, acc), 1) else More(Line(acc + [b], t), 0)
  }

  function FeedDouble(parse: Parser, token: Bytes, b: Byte): Step {
    if b == CR then Done(DoubleValue(parse(token)), 1) else More(DoubleToken(token + [b]), 0)
  }

  // A number is read as a line when it is to be kept as a string.
  function StartNumber(asString: bool, big: bool, b: Byte): Step {
    if asString then FeedLine([], AsString, b)
    else if b == PLUS || b == MINUS then More(In(Signed(b == MINUS, big), Unsigned(0)), 0)
    else Wrap(Signed(false, big), FeedUnsigned(0, b))
  }

  // RESP2 nulls are `$-1` and `*-1`.
  function StartBlob(t: StringType, b: Byte): Step {
    if b == MINUS then Done(Null, 3) else Wrap(BlobLength(t), FeedUnsigned(0, b))
  }

  /** The first byte after a type byte. */
  function Start(parse: Parser, typ: Byte, tm: TypeMapping, b: Byte): Step {
    if typ == NULL then Done(Null, 1)
    else if typ == BOOLEAN then Done(Boolean(b == LOWER_T), 2)
    else if typ == NUMBER then StartNumber(tm.numberAsString, false, b)
    else if typ == BIG_NUMBER then StartNumber(tm.bigNumberAsString, true, b)
    else if typ == DOUBLE then if tm.doubleAsString then FeedLine([], AsString, b) else FeedDouble(parse, [], b)
    else if typ == SIMPLE_STRING then FeedLine([], tm.simpleString, b)
    else if typ == BLOB_STRING then StartBlob(tm.blobString, b)
    else if typ == VERBATIM_STRING then Wrap(VerbatimLength(tm.verbatim), FeedUnsigned(0, b))
    else if typ == SIMPLE_ERROR then Wrap(ErrorMessage(false), FeedLine([], AsString, b))
    else if typ == BLOB_ERROR then Wrap(ErrorMessage(true), StartBlob(AsString, b))
    else if typ == ARRAY then if b == MINUS then Done(Null, 3) else Wrap(ArrayLength(tm), FeedUnsigned(0, b))
    else if typ == SET then Wrap(SetLength(tm), FeedUnsigned(0, b))
    else if typ == MAP then Wrap(MapLength(tm), FeedUnsigned(0, b))
    else Throw
  }

  // Map keys that are strings are decoded as strings, never as Buffers.
  function StartKey(parse: Parser, typ: Byte, tm: TypeMapping, b: Byte): Step {
    if typ == SIMPLE_STRING then FeedLine([], AsString, b)
    else if typ == BLOB_STRING then StartBlob(AsString, b)
    else Start(parse, typ, tm, b)
  }

  function Feed(parse: Parser, k: Cont, b: Byte): Step {
    match k
    case Unsigned(n) => FeedUnsigned(n, b)
    case DoubleToken(token) => FeedDouble(parse, token, b)
    case Line(acc, t) => FeedLine(acc, t, b)
    case Counted(remaining, acc, after, t) =>
      if remaining == 0 then Done(StringOf(t, acc), after)
      else More(Counted(remaining - 1, acc + [b], after, t), 0)
    case TypeValue(typ, tm) => Start(parse, typ, tm, b)
    case KeyValue(typ, tm) => StartKey(parse, typ, tm, b)
    case Nested(tm) => More(TypeValue(b, tm), 0)
    case ArrayItems(items, rest, tm) => More(In(ArrayItem(items, rest, tm), TypeValue(b, tm)), 0)
    case SetItems(items, rest, tm) => More(In(SetItem(items, rest, tm), TypeValue(b, tm)), 0)
    case MapEntries(kind, pairs, rest, tm) => More(In(MapKey(kind, pairs, rest, tm), KeyValue(b, tm)), 0)
    case In(frame, inner) => Wrap(frame, Feed(parse, inner, b))
  }

  // The outcome of feeding `chunk[pos..]` to one value; a cursor may lie beyond the chunk.
  datatype Ran = Finished(v: Value, cursor: nat) | Suspended(k: Cont, cursor: nat) | Thrown

  function Run(parse: Parser, k: Cont, chunk: Bytes, pos: nat): (ran: Ran)
    ensures ran.Finished? ==> ran.cursor > pos
    ensures ran.Suspended? ==> ran.cursor >= pos && ran.cursor >= |chunk|
    decreases if pos < |chunk| then |chunk| - pos else 0, 0
  {
    if pos >= |chunk| then Suspended(k, pos)
    else RunStep(parse, Feed(parse, k, chunk[pos]), chunk, pos + 1)
  }

  function RunStep(parse: Parser, step: Step, chunk: Bytes, pos: nat): (ran: Ran)
    ensures ran.Finished? ==> ran.cursor >= pos
    ensures ran.Suspended? ==> ran.cursor >= pos && ran.cursor >= |chunk|
    decreases if pos < |chunk| then |chunk| - pos else 0, 1
  {
    match step
    case Done(v, skip) => Finished(v, pos + skip)
    case More(k, skip) => Run(parse, k, chunk, pos + skip)
    case Throw => Thrown
  }

  // What becomes of `In(frame, k)` when its inner value got as far as `inner`.
  function Through(parse: Parser, frame: Frame, inner: Ran, chunk: Bytes): Ran {
    match inner
    case Suspended(k, cursor) => Suspended(In(frame, k), cursor)
    case Finished(v, cursor) => RunStep(parse, Resume(frame, v), chunk, cursor)
    case Thrown => Thrown
  }

  /** Running a frame is running what it waits for, then resuming it where that stopped. */
  lemma {:induction false} RunIn(parse: Parser, frame: Frame, k: Cont, chunk: Bytes, pos: nat)
    ensures Run(parse, In(frame, k), chunk, pos) == Through(parse, frame, Run(parse, k, chunk, pos), chunk)
    decreases if pos < |chunk| then |chunk| - pos else 0, 0
  {
    if pos < |chunk| {
      RunWrap(parse, frame, Feed(parse, k, chunk[pos]), chunk, pos + 1);
    }
  }

  lemma {:induction false} RunWrap(parse: Parser, frame: Frame, step: Step, chunk: Bytes, pos: nat)
    ensures RunStep(parse, Wrap(frame, step), chunk, pos)
         == Through(parse, frame, RunStep(parse, step, chunk, pos), chunk)
    decreases if pos < |chunk| then |chunk| - pos else 0, 1
  {
    match step
    case More(k, skip) => RunIn(parse, frame, k, chunk, pos + skip);
    case _ =>
  }

  predicate NoCR(chunk: Bytes, i: nat, j: nat)
    requires i <= j <= |chunk|
  {
    forall k :: i <= k < j ==> chunk[k] != CR
  }

  // A closure that scans for `\r` absorbs whatever is before it.
  lemma {:induction false} RunLine(parse: Parser, acc: Bytes, t: StringType, chunk: Bytes, i: nat, j: nat)
    requires i <= j <= |chunk| && NoCR(chunk, i, j) && (j < |chunk| ==> chunk[j] == CR)
    ensures Run(parse, Line(acc, t), chunk, i) ==
            if j == |chunk| then Suspended(Line(acc + chunk[i..j], t), j)
            else Finished(StringOf(t, acc + chunk[i..j]), j + 2)
    decreases j - i
  {
    if i == j {
      assert acc + chunk[i..j] == acc;
    } else {
      RunLine(parse, acc + [chunk[i]], t, chunk, i + 1, j);
      assert acc + [chunk[i]] + chunk[i + 1..j] == acc + chunk[i..j];
    }
  }

  lemma {:induction false} RunDouble(parse: Parser, token: Bytes, chunk: Bytes, i: nat, j: nat)
    requires i <= j <= |chunk| && NoCR(chunk, i, j) && (j < |chunk| ==> chunk[j] == CR)
    ensures Run(parse, DoubleToken(token), chunk, i) ==
            if j == |chunk| then Suspended(DoubleToken(token + chunk[i..j]), j)
            else Finished(DoubleValue(parse(token + chunk[i..j])), j + 2)
    decreases j - i
  {
    if i == j {
      assert token + chunk[i..j] == token;
    } else {
      RunDouble(parse, token + [chunk[i]], chunk, i + 1, j);
      assert token + [chunk[i]] + chunk[i + 1..j] == token + chunk[i..j];
    }
  }

  // A counted string is complete only when the byte after it is there.
  lemma {:induction false} RunCounted(parse: Parser, remaining: nat, acc: Bytes, after: nat, t: StringType,
                                      chunk: Bytes, i: nat, j: nat)
    requires i <= j <= |chunk| && j - i <= remaining && (j < |chunk| ==> j - i == remaining)
    ensures Run(parse, Counted(remaining, acc, after, t), chunk, i) ==
            if j == |chunk| then Suspended(Counted(remaining - (j - i), acc + chunk[i..j], after, t), j)
            else Finished(StringOf(t, acc + chunk[i..j]), j + 1 + after)
    decreases j - i
  {
    if i == j {
      assert acc + chunk[i..j] == acc;
    } else {
      RunCounted(parse, remaining - 1, acc + [chunk[i]], after, t, chunk, i + 1, j);
      assert acc + [chunk[i]] + chunk[i + 1..j] == acc + chunk[i..j];
    }
  }

  lemma RunWholeDouble(parse: Parser, chunk: Bytes, i: nat, j: nat)
    requires i <= j <= |chunk| && NoCR(chunk, i, j) && (j < |chunk| ==> chunk[j] == CR)
    ensures Run(parse, DoubleToken([]), chunk, i) ==
            if j == |chunk| then Suspended(DoubleToken(chunk[i..]), j)
            else Finished(DoubleValue(parse(chunk[i..j])), j + 2)
  {
    RunDouble(parse, [], chunk, i, j);
    assert [] + chunk[i..j] == chunk[i..j];
    assert chunk[i..] == chunk[i..|chunk|];
  }

  // A value starts at the byte after its type byte.
  lemma RunTypeValue(parse: Parser, typ: Byte, tm: TypeMapping, chunk: Bytes, pos: nat)
    requires pos < |chunk|
    ensures Run(parse, TypeValue(typ, tm), chunk, pos) == RunStep(parse, Start(parse, typ, tm, chunk[pos]), chunk, pos + 1)
  {
  }

  lemma RunKeyValue(parse: Parser, typ: Byte, tm: TypeMapping, chunk: Bytes, pos: nat)
    requires pos < |chunk|
    ensures Run(parse, KeyValue(typ, tm), chunk, pos) == RunStep(parse, StartKey(parse, typ, tm, chunk[pos]), chunk, pos + 1)
  {
  }

  // Collections: the next element, then the rest.
  lemma RunNested(parse: Parser, tm: TypeMapping, chunk: Bytes, pos: nat)
    requires pos < |chunk|
    ensures Run(parse, Nested(tm), chunk, pos) == Run(parse, TypeValue(chunk[pos], tm), chunk, pos + 1)
  {
  }

  lemma RunItems(parse: Parser, items: seq<Value>, rest: nat, tm: TypeMapping, chunk: Bytes, pos: nat)
    requires pos < |chunk|
    ensures Run(parse, ArrayItems(items, rest, tm), chunk, pos)
         == Through(parse, ArrayItem(items, rest, tm), Run(parse, Nested(tm), chunk, pos), chunk)
  {
    RunIn(parse, ArrayItem(items, rest, tm), TypeValue(chunk[pos], tm), chunk, pos + 1);
  }

  lemma RunSetItems(parse: Parser, items: seq<Value>, rest: nat, tm: TypeMapping, chunk: Bytes, pos: nat)
    requires pos < |chunk|
    ensures Run(parse, SetItems(items, rest, tm), chunk, pos)
         == Through(parse, SetItem(items, rest, tm), Run(parse, Nested(tm), chunk, pos), chunk)
  {
    RunIn(parse, SetItem(items, rest, tm), TypeValue(chunk[pos], tm), chunk, pos + 1);
  }

  lemma RunEntries(parse: Parser, kind: PairKind, pairs: seq<(Value, Value)>, rest: nat, tm: TypeMapping,
                   chunk: Bytes, pos: nat)
    requires pos < |chunk|
    ensures Run(parse, MapEntries(kind, pairs, rest, tm), chunk, pos)
         == Through(parse, MapKey(kind, pairs, rest, tm), Run(parse, KeyValue(chunk[pos], tm), chunk, pos + 1), chunk)
  {
    RunIn(parse, MapKey(kind, pairs, rest, tm), KeyValue(chunk[pos], tm), chunk, pos + 1);
  }

  // The handler a top-level value goes to.
  datatype Event = Reply(v: Value) | ErrorReply(v: Value) | Push(v: Value)

  datatype Handler = OnReply | OnErrorReply | OnPush

  function Deliver(cb: Handler, v: Value): Event {
    match cb
    case OnReply => Reply(v)
    case OnErrorReply => ErrorReply(v)
    case OnPush => Push(v)
  }

  datatype Next = Idle | AwaitBody(typ: Byte) | InValue(cb: Handler, k: Cont) | Dead

  // `skip` bytes are still owed to the last value; `log` is the calls made so far.
  datatype State = State(next: Next, skip: nat, log: seq<Event>)

  function HandlerOf(typ: Byte): Handler {
    if typ == SIMPLE_ERROR || typ == BLOB_ERROR then OnErrorReply
    else if typ == PUSH then OnPush
    else OnReply
  }

  /** The host a decoder runs in: how it reads doubles, and the type mapping in force once `n` calls
      have been made (the queue changes it with every reply). */
  datatype Host = Host(parse: Parser, mappingAt: nat -> TypeMapping)

  function BodyType(typ: Byte): Byte { if typ == PUSH then ARRAY else typ }

  function MappingFor(host: Host, typ: Byte, calls: nat): TypeMapping {
    if typ == PUSH then PUSH_TYPE_MAPPING else host.mappingAt(calls)
  }

  function Act(cb: Handler, step: Step, log: seq<Event>): State {
    match step
    case Done(v, skip) => State(Idle, skip, log + [Deliver(cb, v)])
    case More(k, skip) => State(InValue(cb, k), skip, log)
    case Throw => State(Dead, 0, log)
  }

  function OneByte(host: Host, next: Next, log: seq<Event>, b: Byte): State {
    match next
    case Idle => State(AwaitBody(b), 0, log)
    case AwaitBody(typ) =>
      Act(HandlerOf(typ), Feed(host.parse, TypeValue(BodyType(typ), MappingFor(host, typ, |log|)), b), log)
    case InValue(cb, k) => Act(cb, Feed(host.parse, k, b), log)
    case Dead => State(Dead, 0, log)
  }

  /** The machine over a whole stream, from position `pos` on. */
  function Consume(host: Host, next: Next, log: seq<Event>, bytes: Bytes, pos: nat): State
    decreases |bytes| - pos
  {
    if pos >= |bytes| then State(next, pos - |bytes|, log)
    else
      var s := OneByte(host, next, log, bytes[pos]);
      Consume(host, s.next, s.log, bytes, pos + 1 + s.skip)
  }

  // What the machine does once the value in progress got as far as `ran`.
  function ConsumeRan(host: Host, cb: Handler, ran: Ran, log: seq<Event>, bytes: Bytes): State {
    match ran
    case Finished(v, cursor) => Consume(host, Idle, log + [Deliver(cb, v)], bytes, cursor)
    case Suspended(k, cursor) => Consume(host, InValue(cb, k), log, bytes, cursor)
    case Thrown => State(Dead, 0, log)
  }

  lemma {:induction false} ConsumeDead(host: Host, log: seq<Event>, bytes: Bytes, pos: nat)
    requires pos <= |bytes|
    ensures Consume(host, Dead, log, bytes, pos) == State(Dead, 0, log)
    decreases |bytes| - pos
  {
    if pos < |bytes| { ConsumeDead(host, log, bytes, pos + 1); }
  }

  /** A value in progress can be run to its end before the machine goes on. */
  lemma {:induction false} ConsumeValue(host: Host, cb: Handler, k: Cont, log: seq<Event>, bytes: Bytes, pos: nat)
    ensures Consume(host, InValue(cb, k), log, bytes, pos)
         == ConsumeRan(host, cb, Run(host.parse, k, bytes, pos), log, bytes)
    decreases |bytes| - pos
  {
    hide Feed;
    if pos < |bytes| {
      match Feed(host.parse, k, bytes[pos])
      case Done(v, skip) =>
      case More(k', skip) => ConsumeValue(host, cb, k', log, bytes, pos + 1 + skip);
      case Throw => ConsumeDead(host, log, bytes, pos + 1);
    }
  }

  // Once its first byte is there, a top-level value is run like any other.
  lemma ConsumeBody(host: Host, typ: Byte, log: seq<Event>, bytes: Bytes, pos: nat)
    requires pos < |bytes|
    ensures Consume(host, AwaitBody(typ), log, bytes, pos) ==
            ConsumeRan(host, HandlerOf(typ),
                       Run(host.parse, TypeValue(BodyType(typ), MappingFor(host, typ, |log|)), bytes, pos), log, bytes)
  {
    hide Feed;
    var cb, k := HandlerOf(typ), TypeValue(BodyType(typ), MappingFor(host, typ, |log|));
    assert OneByte(host, AwaitBody(typ), log, bytes[pos]) == OneByte(host, InValue(cb, k), log, bytes[pos]);
    ConsumeAlike(host, AwaitBody(typ), InValue(cb, k), log, bytes, pos);
    ConsumeValue(host, cb, k, log, bytes, pos);
  }

  lemma ConsumeTypeByte(host: Host, typ: Byte, log: seq<Event>, bytes: Bytes, pos: nat)
    requires pos < |bytes| && bytes[pos] == typ
    ensures Consume(host, Idle, log, bytes, pos) == Consume(host, AwaitBody(typ), log, bytes, pos + 1)
  {
    hide Feed;
  }

  lemma ConsumeAlike(host: Host, next: Next, next': Next, log: seq<Event>, bytes: Bytes, pos: nat)
    requires pos < |bytes| && OneByte(host, next, log, bytes[pos]) == OneByte(host, next', log, bytes[pos])
    ensures Consume(host, next, log, bytes, pos) == Consume(host, next', log, bytes, pos)
  {
    hide OneByte;
  }

  /** The machine does not see where its input is cut: this is why chunking cannot matter. */
  lemma {:induction false} ConsumeSplit(host: Host, next: Next, log: seq<Event>, a: Bytes, b: Bytes, pos: nat)
    ensures var mid := Consume(host, next, log, a, pos);
            Consume(host, next, log, a + b, pos) == Consume(host, mid.next, mid.log, b, mid.skip)
    decreases |a| - pos
  {
    hide OneByte;
    if pos >= |a| {
      ConsumeShift(host, next, log, a, b, pos);
    } else {
      assert (a + b)[pos] == a[pos];
      var s := OneByte(host, next, log, a[pos]);
      ConsumeSplit(host, s.next, s.log, a, b, pos + 1 + s.skip);
    }
  }

  lemma {:induction false} ConsumeShift(host: Host, next: Next, log: seq<Event>, a: Bytes, b: Bytes, pos: nat)
    requires pos >= |a|
    ensures Consume(host, next, log, a + b, pos) == Consume(host, next, log, b, pos - |a|)
    decreases |a| + |b| - pos
  {
    hide OneByte;
    if pos < |a| + |b| {
      assert (a + b)[pos] == b[pos - |a|];
      var s := OneByte(host, next, log, b[pos - |a|]);
      ConsumeShift(host, s.next, s.log, a, b, pos + 1 + s.skip);
    }
  }

  // Dying happens at a byte, and owes nothing.
  lemma {:induction false} ConsumeDies(host: Host, next: Next, log: seq<Event>, bytes: Bytes, pos: nat)
    requires next != Dead && Consume(host, next, log, bytes, pos).next == Dead
    ensures Consume(host, next, log, bytes, pos).skip == 0
    decreases |bytes| - pos
  {
    if pos < |bytes| {
      var s := OneByte(host, next, log, bytes[pos]);
      if s.next == Dead {
        assert s.skip == 0;
        ConsumeDead(host, s.log, bytes, pos + 1);
      } else {
        ConsumeDies(host, s.next, s.log, bytes, pos + 1 + s.skip);
      }
    }
  }

  function Flatten(chunks: seq<Bytes>): Bytes {
    if chunks == [] then [] else chunks[0] + Flatten(chunks[1..])
  }

  function ConsumeChunks(host: Host, s: State, chunks: seq<Bytes>): State
    decreases |chunks|
  {
    if chunks == [] then s
    else ConsumeChunks(host, Consume(host, s.next, s.log, chunks[0], s.skip), chunks[1..])
  }

  /** Cutting a stream into chunks anywhere, empty and one-byte chunks included, changes nothing. */
  lemma {:induction false} ChunkingDoesNotMatter(host: Host, s: State, chunks: seq<Bytes>)
    ensures ConsumeChunks(host, s, chunks) == Consume(host, s.next, s.log, Flatten(chunks), s.skip)
    decreases |chunks|
  {
    if chunks != [] {
      ChunkingDoesNotMatter(host, Consume(host, s.next, s.log, chunks[0], s.skip), chunks[1..]);
      ConsumeSplit(host, s.next, s.log, chunks[0], Flatten(chunks[1..]), s.skip);
    }
  }
}
