/** The incremental decoder (packages/client/lib/RESP/decoder.ts:79-1149): a cursor, a pending
    continuation, and one method for each pair of `#decode*` and `#continueDecode*` that share
    their loop. Every method is proved to compute exactly what the byte machine does. */
module Decoder {
  import opened RespTypes
  import opened Decimal
  import opened DecoderMachine

  // A decoded value, a closure that waits for more input, or an exception.
  datatype Result = Val(v: Value) | Fn(k: Cont) | Threw

  function Observe(r: Result, cursor: nat): Ran {
    match r
    case Val(v) => Finished(v, cursor)
    case Fn(k) => Suspended(k, cursor)
    case Threw => Thrown
  }

  datatype Outcome = Stop | Continue | Exception

  // Where the decoder stands, having to get to `expected` with what is left of `chunk`.
  ghost predicate OnCourse(host: Host, expected: State, outcome: Outcome, next: Next, log: seq<Event>, chunk: Bytes,
                           cursor: nat) {
    match outcome
    case Continue => next == Idle && expected == Consume(host, Idle, log, chunk, cursor)
    case Stop => next != Dead && cursor >= |chunk| && expected == State(next, cursor - |chunk|, log)
    case Exception => expected == State(Dead, 0, log)
  }

  // Bytes left in the chunk, the first component of every termination measure.
  function Left(chunk: Bytes, cursor: nat): nat {
    if cursor < |chunk| then |chunk| - cursor else 0
  }

  lemma ConsumedAll(host: Host, next: Next, log: seq<Event>, chunk: Bytes, cursor: nat)
    requires cursor >= |chunk|
    ensures Consume(host, next, log, chunk, cursor) == State(next, cursor - |chunk|, log)
  {
  }

  class Decoder {
    const arith: Arithmetic
    const mappingAt: nat -> TypeMapping
    const host: Host := Host(ParserOf(arith), mappingAt)
    var cursor: nat
    var next: Next
    // the calls made to onReply, onErrorReply and onPush, in order
    var log: seq<Event>

    constructor (arith: Arithmetic, mappingAt: nat -> TypeMapping)
      ensures this.arith == arith && this.mappingAt == mappingAt && cursor == 0 && next == Idle && log == []
    {
      this.arith, this.mappingAt := arith, mappingAt;
      cursor, next, log := 0, Idle, [];
    }

    method Reset()
      modifies this`cursor, this`next
      ensures cursor == 0 && next == Idle
    {
      cursor, next := 0, Idle;
    }

    /** Feeds one chunk: the machine's steps on its bytes, or an exception exactly where the machine dies. */
    method Write(chunk: Bytes) returns (ok: bool)
      requires next != Dead
      modifies this
      ensures var s := Consume(host, old(next), old(log), chunk, old(cursor));
              ok == (s.next != Dead) && log == s.log && (ok ==> next == s.next && cursor == s.skip)
    {
      if cursor >= |chunk| {
        cursor := cursor - |chunk|;
        return true;
      }
      hide OneByte, Consume;
      if next != Idle {
        var outcome := CallNext(chunk);
        if outcome == Exception { return false; }
        if outcome == Stop || cursor >= |chunk| {
          ConsumedAll(host, next, log, chunk, cursor);
          cursor := cursor - |chunk|;
          return true;
        }
      }
      ok := DecodeValues(chunk);
      if ok { cursor := cursor - |chunk|; }
    }

    // The loop over type bytes; it ends at or beyond the end of the chunk, or with an exception.
    method DecodeValues(chunk: Bytes) returns (ok: bool)
      requires next == Idle && cursor < |chunk|
      modifies this
      ensures var s := Consume(host, Idle, old(log), chunk, old(cursor));
              ok == (s.next != Dead) && log == s.log && (ok ==> next == s.next && cursor == |chunk| + s.skip)
    {
      hide OneByte, Consume;
      ghost var final := Consume(host, Idle, log, chunk, cursor);
      while cursor < |chunk|
        invariant next == Idle && final == Consume(host, Idle, log, chunk, cursor)
        decreases Left(chunk, cursor)
      {
        var typ := chunk[cursor];
        ConsumeTypeByte(host, typ, log, chunk, cursor);
        cursor := cursor + 1;
        if cursor == |chunk| {
          next := AwaitBody(typ);
          break;
        }
        var outcome := DecodeTypeValue(typ, chunk);
        if outcome == Exception { return false; }
        if outcome == Stop { return true; }
      }
      ConsumedAll(host, next, log, chunk, cursor);
      return true;
    }

    /** Chunks in any number and of any size: what the machine does on the uncut stream, up to the
        first exception. */
    method WriteAll(chunks: seq<Bytes>) returns (ok: bool)
      requires next != Dead
      modifies this
      ensures var s := Consume(host, old(next), old(log), Flatten(chunks), old(cursor));
              ok == (s.next != Dead) && log == s.log && (ok ==> next == s.next && cursor == s.skip)
    {
      ghost var final := Consume(host, next, log, Flatten(chunks), cursor);
      var i := 0;
      while i < |chunks|
        invariant i <= |chunks| && next != Dead
        invariant final == Consume(host, next, log, Flatten(chunks[i..]), cursor)
      {
        assert Flatten(chunks[i..]) == chunks[i] + Flatten(chunks[i + 1..]) by {
          assert chunks[i..][1..] == chunks[i + 1..];
        }
        ConsumeSplit(host, next, log, chunks[i], Flatten(chunks[i + 1..]), cursor);
        ghost var mid := Consume(host, next, log, chunks[i], cursor);
        if mid.next == Dead {
          ConsumeDies(host, next, log, chunks[i], cursor);
          ConsumeDead(host, mid.log, Flatten(chunks[i + 1..]), 0);
        }
        ok := Write(chunks[i]);
        if !ok { return; }
        i := i + 1;
      }
      return true;
    }

    // Calls the pending continuation.
    method CallNext(chunk: Bytes) returns (outcome: Outcome)
      requires next.AwaitBody? || next.InValue?
      requires cursor < |chunk|
      modifies this
      ensures OnCourse(host, Consume(host, old(next), old(log), chunk, old(cursor)), outcome, next, log, chunk, cursor)
      ensures outcome != Exception ==> cursor > old(cursor)
    {
      hide Run, OneByte;
      var pending := next;
      next := Idle;
      match pending {
        case AwaitBody(typ) =>
          outcome := DecodeTypeValue(typ, chunk);
        case InValue(cb, k) =>
          ConsumeValue(host, cb, k, log, chunk, cursor);
          var r := Call(k, chunk);
          outcome := HandleDecodedValue(cb, r);
      }
    }

    method DecodeTypeValue(typ: Byte, chunk: Bytes) returns (outcome: Outcome)
      requires next == Idle && cursor < |chunk|
      modifies this
      ensures OnCourse(host, Consume(host, AwaitBody(typ), old(log), chunk, old(cursor)), outcome, next, log, chunk, cursor)
      ensures outcome != Exception ==> cursor > old(cursor)
    {
      hide Run, OneByte;
      var tm := if typ == PUSH then PUSH_TYPE_MAPPING else mappingAt(|log|);
      ConsumeBody(host, typ, log, chunk, cursor);
      var r := DecodeNestedTypeValue(BodyType(typ), tm, chunk);
      outcome := HandleDecodedValue(HandlerOf(typ), r);
    }

    method HandleDecodedValue(cb: Handler, r: Result) returns (outcome: Outcome)
      requires next == Idle
      modifies this`next, this`log
      ensures match r
              case Fn(k) => outcome == Stop && next == InValue(cb, k) && log == old(log)
              case Val(v) => outcome == Continue && next == Idle && log == old(log) + [Deliver(cb, v)]
              case Threw => outcome == Exception && log == old(log)
    {
      match r {
        case Fn(k) =>
          next := InValue(cb, k);
          outcome := Stop;
        case Val(v) =>
          log := log + [Deliver(cb, v)];
          outcome := Continue;
        case Threw =>
          outcome := Exception;
      }
    }

    method DecodeUnsignedNumber(number: int, chunk: Bytes) returns (r: Result)
      requires cursor < |chunk|
      modifies this`cursor
      ensures Observe(r, cursor) == Run(host.parse, Unsigned(number), chunk, old(cursor))
      ensures r.Val? ==> r.v.Number?
    {
      var n, i := number, cursor;
      while i < |chunk|
        invariant cursor <= i <= |chunk|
        invariant Run(host.parse, Unsigned(number), chunk, cursor) == Run(host.parse, Unsigned(n), chunk, i)
      {
        var byte := chunk[i];
        if byte == CR {
          cursor := i + 2;
          return Val(Number(n));
        }
        n := n * 10 + (byte - ZERO);
        i := i + 1;
      }
      cursor := i;
      return Fn(Unsigned(n));
    }

    method FindCRLF(chunk: Bytes, from: nat) returns (index: int)
      requires from < |chunk|
      modifies this`cursor
      ensures index == -1 ==> cursor == |chunk| && NoCR(chunk, from, |chunk|)
      ensures index != -1 ==> from <= index < |chunk| && chunk[index] == CR && NoCR(chunk, from, index)
      ensures index != -1 ==> cursor == index + 2
    {
      index := from;
      while chunk[index] != CR
        invariant from <= index < |chunk| && NoCR(chunk, from, index)
        decreases |chunk| - index
      {
        index := index + 1;
        if index == |chunk| {
          cursor := |chunk|;
          return -1;
        }
      }
      cursor := index + 2;
    }

    method DecodeSimpleString(acc: Bytes, t: StringType, chunk: Bytes) returns (r: Result)
      requires cursor < |chunk|
      modifies this`cursor
      ensures Observe(r, cursor) == Run(host.parse, Line(acc, t), chunk, old(cursor))
    {
      var start := cursor;
      var index := FindCRLF(chunk, start);
      if index == -1 {
        RunLine(host.parse, acc, t, chunk, start, |chunk|);
        assert chunk[start..] == chunk[start..|chunk|];
        return Fn(Line(acc + chunk[start..], t));
      }
      RunLine(host.parse, acc, t, chunk, start, index);
      return Val(StringOf(t, acc + chunk[start..index]));
    }

    // Splits fall back to the slow parse of the whole token.
    method ContinueDecodeDouble(token: Bytes, chunk: Bytes) returns (r: Result)
      requires cursor < |chunk|
      modifies this`cursor
      ensures Observe(r, cursor) == Run(host.parse, DoubleToken(token), chunk, old(cursor))
    {
      var start := cursor;
      var index := FindCRLF(chunk, start);
      if index == -1 {
        RunDouble(host.parse, token, chunk, start, |chunk|);
        assert chunk[start..] == chunk[start..|chunk|];
        return Fn(DoubleToken(token + chunk[start..]));
      }
      RunDouble(host.parse, token, chunk, start, index);
      return Val(DoubleValue(SlowParseDouble(arith, token + chunk[start..index])));
    }

    // The token has a shape the fast path does not take.
    method GiveUpOnDouble(chunk: Bytes, start: nat, i: nat) returns (r: Result)
      requires start <= i < |chunk| && NoCR(chunk, start, i)
      modifies this`cursor
      ensures Observe(r, cursor) == Run(host.parse, DoubleToken([]), chunk, start)
    {
      var index := FindCRLF(chunk, i);
      var end := if index == -1 then |chunk| else index;
      RunWholeDouble(host.parse, chunk, start, end);
      if index == -1 { return Fn(DoubleToken(chunk[start..])); }
      return Val(DoubleValue(SlowParseDouble(arith, chunk[start..index])));
    }

    // The token ends at `i`.
    method FinishDouble(chunk: Bytes, start: nat, i: nat, ghost bodyStart: nat, c: Counters) returns (r: Result)
      requires start <= bodyStart <= i < |chunk| && NoCR(chunk, start, i) && chunk[i] == CR
      requires bodyStart == start + |Sign(chunk[start..])|
      requires Accepted(arith, chunk, bodyStart, i) && c == Scan(arith, chunk, bodyStart, i)
      modifies this`cursor
      ensures Observe(r, cursor) == Run(host.parse, DoubleToken([]), chunk, start)
    {
      RunWholeDouble(host.parse, chunk, start, i);
      cursor := i + 2;
      if c.digits == 0 || c.fractionDigits >= POWERS_OF_10_LENGTH {
        return Val(DoubleValue(SlowParseDouble(arith, chunk[start..i])));
      }
      FastPathIsExact(arith, chunk, start, bodyStart, i);
      return Val(DoubleValue(FastDouble(arith, chunk[start] == MINUS, c)));
    }

    /** The fast path. Its counters are doubles: every operation on them rounds. */
    method DecodeDouble(chunk: Bytes) returns (r: Result)
      requires cursor < |chunk|
      modifies this`cursor
      ensures Observe(r, cursor) == Run(host.parse, DoubleToken([]), chunk, old(cursor))
    {
      hide Run;
      var start := cursor;
      var i := start;
      if chunk[i] == MINUS || chunk[i] == PLUS { i := i + 1; }
      ghost var bodyStart := i;
      var c := Counters(0.0, 0, -1);
      while i < |chunk|
        invariant cursor == start && bodyStart <= i <= |chunk| && NoCR(chunk, start, i)
        invariant Accepted(arith, chunk, bodyStart, i) && c == Scan(arith, chunk, bodyStart, i)
      {
        var byte := chunk[i];
        if byte == CR {
          r := FinishDouble(chunk, start, i, bodyStart, c);
          return;
        }
        if byte == DOT && c.fractionDigits == -1 {
          c := c.(fractionDigits := 0);
        } else {
          var digit := byte - ZERO;
          if digit < 0 || digit > 9 || c.significand > MAX_SIGNIFICAND_BEFORE_DIGIT as real {
            r := GiveUpOnDouble(chunk, start, i);
            return;
          }
          c := Counters(arith.round(arith.round(c.significand * 10.0) + digit as real), c.digits + 1,
                        if c.fractionDigits == -1 then -1 else c.fractionDigits + 1);
        }
        i := i + 1;
      }
      RunWholeDouble(host.parse, chunk, start, |chunk|);
      cursor := i;
      return Fn(DoubleToken(chunk[start..]));
    }

    // Ends one byte late: a string is complete when the byte after it is there.
    method DecodeStringWithLength(length: nat, acc: Bytes, after: nat, t: StringType, chunk: Bytes) returns (r: Result)
      requires cursor <= |chunk|
      modifies this`cursor
      ensures Observe(r, cursor) == Run(host.parse, Counted(length, acc, after, t), chunk, old(cursor))
    {
      var start := cursor;
      var end := start + length;
      if end >= |chunk| {
        var slice := chunk[start..];
        RunCounted(host.parse, length, acc, after, t, chunk, start, |chunk|);
        assert slice == chunk[start..|chunk|];
        cursor := |chunk|;
        return Fn(Counted(length - |slice|, acc + slice, after, t));
      }
      RunCounted(host.parse, length, acc, after, t, chunk, start, end);
      cursor := end + 1 + after;
      return Val(StringOf(t, acc + chunk[start..end]));
    }

    method DecodeNumber(asString: bool, big: bool, chunk: Bytes) returns (r: Result)
      requires cursor < |chunk|
      modifies this`cursor
      ensures Observe(r, cursor)
           == RunStep(host.parse, StartNumber(asString, big, chunk[old(cursor)]), chunk, old(cursor) + 1)
      decreases Left(chunk, cursor), 0
    {
      if asString {
        r := DecodeSimpleString([], AsString, chunk);
        return;
      }
      var sign := chunk[cursor];
      var frame := Signed(sign == MINUS, big);
      if sign == PLUS || sign == MINUS {
        cursor := cursor + 1;
        if cursor == |chunk| { return Fn(In(frame, Unsigned(0))); }
      }
      RunIn(host.parse, frame, Unsigned(0), chunk, cursor);
      var number := DecodeUnsignedNumber(0, chunk);
      r := Enter(frame, number, chunk);
    }

    method DecodeBlobString(t: StringType, chunk: Bytes) returns (r: Result)
      requires cursor < |chunk|
      modifies this`cursor
      ensures Observe(r, cursor) == RunStep(host.parse, StartBlob(t, chunk[old(cursor)]), chunk, old(cursor) + 1)
      decreases Left(chunk, cursor), 0
    {
      if chunk[cursor] == MINUS {
        cursor := cursor + 4;
        return Val(Null);
      }
      RunIn(host.parse, BlobLength(t), Unsigned(0), chunk, cursor);
      var length := DecodeUnsignedNumber(0, chunk);
      r := Enter(BlobLength(t), length, chunk);
    }

    // Verbatim strings, arrays, sets and maps: an unsigned length, then the rest.
    method DecodeWithLength(frame: Frame, chunk: Bytes) returns (r: Result)
      requires cursor < |chunk|
      modifies this`cursor
      ensures Observe(r, cursor)
           == RunStep(host.parse, Wrap(frame, FeedUnsigned(0, chunk[old(cursor)])), chunk, old(cursor) + 1)
      decreases Left(chunk, cursor), 0
    {
      RunIn(host.parse, frame, Unsigned(0), chunk, cursor);
      var length := DecodeUnsignedNumber(0, chunk);
      r := Enter(frame, length, chunk);
    }

    method DecodeNestedTypeValue(typ: Byte, tm: TypeMapping, chunk: Bytes) returns (r: Result)
      requires cursor < |chunk|
      modifies this`cursor
      ensures Observe(r, cursor) == Run(host.parse, TypeValue(typ, tm), chunk, old(cursor))
      decreases Left(chunk, cursor), 1
    {
      if typ == NULL {
        cursor := cursor + 2;
        r := Val(Null);
      } else if typ == BOOLEAN {
        r := Val(Boolean(chunk[cursor] == LOWER_T));
        cursor := cursor + 3;
      } else if typ == NUMBER {
        r := DecodeNumber(tm.numberAsString, false, chunk);
      } else if typ == BIG_NUMBER {
        r := DecodeNumber(tm.bigNumberAsString, true, chunk);
      } else if typ == DOUBLE {
        if tm.doubleAsString {
          r := DecodeSimpleString([], AsString, chunk);
        } else {
          r := DecodeDouble(chunk);
        }
      } else if typ == SIMPLE_STRING {
        r := DecodeSimpleString([], tm.simpleString, chunk);
      } else if typ == BLOB_STRING {
        r := DecodeBlobString(tm.blobString, chunk);
      } else if typ == VERBATIM_STRING {
        r := DecodeWithLength(VerbatimLength(tm.verbatim), chunk);
      } else if typ == SIMPLE_ERROR {
        RunIn(host.parse, ErrorMessage(false), Line([], AsString), chunk, cursor);
        var message := DecodeSimpleString([], AsString, chunk);
        r := Enter(ErrorMessage(false), message, chunk);
      } else if typ == BLOB_ERROR {
        RunWrap(host.parse, ErrorMessage(true), StartBlob(AsString, chunk[cursor]), chunk, cursor + 1);
        var message := DecodeBlobString(AsString, chunk);
        r := Enter(ErrorMessage(true), message, chunk);
      } else if typ == ARRAY {
        if chunk[cursor] == MINUS {
          cursor := cursor + 4;
          r := Val(Null);
        } else {
          r := DecodeWithLength(ArrayLength(tm), chunk);
        }
      } else if typ == SET {
        r := DecodeWithLength(SetLength(tm), chunk);
      } else if typ == MAP {
        r := DecodeWithLength(MapLength(tm), chunk);
      } else {
        r := Threw;
      }
    }

    method DecodeMapKeyValue(typ: Byte, tm: TypeMapping, chunk: Bytes) returns (r: Result)
      requires cursor < |chunk|
      modifies this`cursor
      ensures Observe(r, cursor) == Run(host.parse, KeyValue(typ, tm), chunk, old(cursor))
      decreases Left(chunk, cursor), 2
    {
      if typ == SIMPLE_STRING {
        r := DecodeSimpleString([], AsString, chunk);
      } else if typ == BLOB_STRING {
        r := DecodeBlobString(AsString, chunk);
      } else {
        r := DecodeNestedTypeValue(typ, tm, chunk);
      }
    }

    method DecodeNestedType(tm: TypeMapping, chunk: Bytes) returns (r: Result)
      requires cursor < |chunk|
      modifies this`cursor
      ensures Observe(r, cursor) == Run(host.parse, Nested(tm), chunk, old(cursor))
      decreases Left(chunk, cursor), 3
    {
      RunNested(host.parse, tm, chunk, cursor);
      var typ := chunk[cursor];
      cursor := cursor + 1;
      if cursor == |chunk| { return Fn(TypeValue(typ, tm)); }
      r := DecodeNestedTypeValue(typ, tm, chunk);
    }

    method DecodeMapKey(tm: TypeMapping, chunk: Bytes) returns (r: Result)
      requires cursor < |chunk|
      modifies this`cursor
      ensures Observe(r, cursor) == Run(host.parse, KeyValue(chunk[old(cursor)], tm), chunk, old(cursor) + 1)
      decreases Left(chunk, cursor), 3
    {
      var typ := chunk[cursor];
      cursor := cursor + 1;
      if cursor == |chunk| { return Fn(KeyValue(typ, tm)); }
      r := DecodeMapKeyValue(typ, tm, chunk);
    }

    method DecodeArrayItems(filled: seq<Value>, missing: nat, tm: TypeMapping, chunk: Bytes) returns (r: Result)
      modifies this`cursor
      ensures Observe(r, cursor) == RunStep(host.parse, AfterItems(filled, missing, tm), chunk, old(cursor))
      decreases Left(chunk, cursor), 4
    {
      hide Feed;
      var items, remaining := filled, missing;
      while remaining > 0
        invariant cursor >= old(cursor)
        invariant RunStep(host.parse, AfterItems(filled, missing, tm), chunk, old(cursor))
               == RunStep(host.parse, AfterItems(items, remaining, tm), chunk, cursor)
      {
        if cursor >= |chunk| { return Fn(ArrayItems(items, remaining - 1, tm)); }
        RunItems(host.parse, items, remaining - 1, tm, chunk, cursor);
        var item := DecodeNestedType(tm, chunk);
        match item {
          case Fn(k) => return Fn(In(ArrayItem(items, remaining - 1, tm), k));
          case Threw => return Threw;
          case Val(v) => items, remaining := items + [v], remaining - 1;
        }
      }
      return Val(Array(items));
    }

    method DecodeSetAsSet(added: seq<Value>, count: nat, tm: TypeMapping, chunk: Bytes) returns (r: Result)
      modifies this`cursor
      ensures Observe(r, cursor) == RunStep(host.parse, AfterSetItems(added, count, tm), chunk, old(cursor))
      decreases Left(chunk, cursor), 4
    {
      hide Feed;
      var items, remaining := added, count;
      while remaining > 0
        invariant cursor >= old(cursor)
        invariant RunStep(host.parse, AfterSetItems(added, count, tm), chunk, old(cursor))
               == RunStep(host.parse, AfterSetItems(items, remaining, tm), chunk, cursor)
      {
        if cursor >= |chunk| { return Fn(SetItems(items, remaining - 1, tm)); }
        RunSetItems(host.parse, items, remaining - 1, tm, chunk, cursor);
        var item := DecodeNestedType(tm, chunk);
        match item {
          case Fn(k) => return Fn(In(SetItem(items, remaining - 1, tm), k));
          case Threw => return Threw;
          case Val(v) => items, remaining := items + [v], remaining - 1;
        }
      }
      return Val(SetObject(items));
    }

    // `#decodeMapAsMap` and `#decodeMapAsObject`.
    method DecodeMapEntries(kind: PairKind, entries: seq<(Value, Value)>, count: nat, tm: TypeMapping, chunk: Bytes)
      returns (r: Result)
      modifies this`cursor
      ensures Observe(r, cursor) == RunStep(host.parse, AfterEntries(kind, entries, count, tm), chunk, old(cursor))
      decreases Left(chunk, cursor), 4
    {
      hide Feed;
      var pairs, remaining := entries, count;
      while remaining > 0
        invariant cursor >= old(cursor)
        invariant RunStep(host.parse, AfterEntries(kind, entries, count, tm), chunk, old(cursor))
               == RunStep(host.parse, AfterEntries(kind, pairs, remaining, tm), chunk, cursor)
      {
        if cursor >= |chunk| { return Fn(MapEntries(kind, pairs, remaining - 1, tm)); }
        RunEntries(host.parse, kind, pairs, remaining - 1, tm, chunk, cursor);
        var key := DecodeMapKey(tm, chunk);
        match key {
          case Fn(k) => return Fn(In(MapKey(kind, pairs, remaining - 1, tm), k));
          case Threw => return Threw;
          case Val(_) =>
        }
        var frame := MapValue(kind, pairs, remaining - 1, key.v, tm);
        RunIn(host.parse, frame, Nested(tm), chunk, cursor);
        if cursor >= |chunk| { return Fn(In(frame, Nested(tm))); }
        var value := DecodeNestedType(tm, chunk);
        match value {
          case Fn(k) => return Fn(In(frame, k));
          case Threw => return Threw;
          case Val(v) => pairs, remaining := pairs + [(key.v, v)], remaining - 1;
        }
      }
      return Val(Pairs(kind, pairs));
    }

    /** The inner value of `frame` is there: the code after the inner call of each `#continueDecode*`. */
    method Return(frame: Frame, v: Value, chunk: Bytes) returns (r: Result)
      modifies this`cursor
      ensures Observe(r, cursor) == RunStep(host.parse, Resume(frame, v), chunk, old(cursor))
      decreases Left(chunk, cursor), 5
    {
      hide Feed;
      match frame {
        case Signed(negative, big) =>
          if !v.Number? { return Threw; }
          var n := if negative then -v.n else v.n;
          return Val(if big then BigNumber(n) else Number(n));
        case BlobLength(t) =>
          if !v.Number? || v.n < 0 { return Threw; }
          if cursor >= |chunk| { return Fn(Counted(v.n, [], 1, t)); }
          r := DecodeStringWithLength(v.n, [], 1, t, chunk);
        case VerbatimLength(vt) =>
          if !v.Number? || v.n < 4 { return Threw; }
          if vt.VerbatimAsObject? {
            if cursor >= |chunk| { return Fn(In(VerbatimFormat(v.n - 4), Counted(3, [], 0, AsString))); }
            RunIn(host.parse, VerbatimFormat(v.n - 4), Counted(3, [], 0, AsString), chunk, cursor);
            var format := DecodeStringWithLength(3, [], 0, AsString, chunk);
            r := Enter(VerbatimFormat(v.n - 4), format, chunk);
          } else {
            cursor := cursor + 4;
            if cursor >= |chunk| { return Fn(Counted(v.n - 4, [], 1, vt.t)); }
            r := DecodeStringWithLength(v.n - 4, [], 1, vt.t, chunk);
          }
        case VerbatimFormat(length) =>
          if !v.Text? { return Threw; }
          RunIn(host.parse, VerbatimText(v.bytes), Counted(length, [], 1, AsString), chunk, cursor);
          if cursor >= |chunk| { return Fn(In(VerbatimText(v.bytes), Counted(length, [], 1, AsString))); }
          var text := DecodeStringWithLength(length, [], 1, AsString, chunk);
          r := Enter(VerbatimText(v.bytes), text, chunk);
        case VerbatimText(format) =>
          if !v.Text? { return Threw; }
          return Val(Verbatim(format, v.bytes));
        case ErrorMessage(blob) =>
          return Val(if blob then BlobError(v) else SimpleError(v));
        case ArrayLength(tm) =>
          if !v.Number? || v.n < 0 { return Threw; }
          r := DecodeArrayItems([], v.n, tm, chunk);
        case ArrayItem(items, rest, tm) =>
          r := DecodeArrayItems(items + [v], rest, tm, chunk);
        case SetLength(tm) =>
          if !v.Number? || v.n < 0 { return Threw; }
          if tm.sets.SetAsSet? {
            r := DecodeSetAsSet([], v.n, tm, chunk);
          } else {
            r := DecodeArrayItems([], v.n, tm, chunk);
          }
        case SetItem(items, rest, tm) =>
          r := DecodeSetAsSet(items + [v], rest, tm, chunk);
        case MapLength(tm) =>
          if !v.Number? || v.n < 0 { return Threw; }
          match tm.maps {
            case MapAsMap => r := DecodeMapEntries(ToMap, [], v.n, tm, chunk);
            case MapAsArray => r := DecodeArrayItems([], 2 * v.n, tm, chunk);
            case MapAsObject => r := DecodeMapEntries(ToObject, [], v.n, tm, chunk);
          }
        case MapKey(kind, pairs, rest, tm) =>
          var value := MapValue(kind, pairs, rest, v, tm);
          RunIn(host.parse, value, Nested(tm), chunk, cursor);
          if cursor >= |chunk| { return Fn(In(value, Nested(tm))); }
          var inner := DecodeNestedType(tm, chunk);
          r := Enter(value, inner, chunk);
        case MapValue(kind, pairs, rest, key, tm) =>
          r := DecodeMapEntries(kind, pairs + [(key, v)], rest, tm, chunk);
      }
    }

    // Rebinds the closure that waits, or goes on with the value.
    method Enter(frame: Frame, inner: Result, chunk: Bytes) returns (r: Result)
      modifies this`cursor
      ensures Observe(r, cursor) == Through(host.parse, frame, Observe(inner, old(cursor)), chunk)
      decreases if inner.Val? then Left(chunk, cursor) else 0, 6
    {
      match inner {
        case Fn(k) => return Fn(In(frame, k));
        case Threw => return Threw;
        case Val(v) => r := Return(frame, v, chunk);
      }
    }

    /** Applies a closure to the next chunk. */
    method Call(k: Cont, chunk: Bytes) returns (r: Result)
      requires cursor < |chunk|
      modifies this`cursor
      ensures Observe(r, cursor) == Run(host.parse, k, chunk, old(cursor))
      decreases Left(chunk, cursor), 7, k
    {
      hide Feed;
      match k {
        case Unsigned(n) => r := DecodeUnsignedNumber(n, chunk);
        case DoubleToken(token) => r := ContinueDecodeDouble(token, chunk);
        case Line(acc, t) => r := DecodeSimpleString(acc, t, chunk);
        case Counted(remaining, acc, after, t) => r := DecodeStringWithLength(remaining, acc, after, t, chunk);
        case TypeValue(typ, tm) => r := DecodeNestedTypeValue(typ, tm, chunk);
        case KeyValue(typ, tm) => r := DecodeMapKeyValue(typ, tm, chunk);
        case Nested(tm) => r := DecodeNestedType(tm, chunk);
        case ArrayItems(items, rest, tm) => r := DecodeArrayItems(items, rest + 1, tm, chunk);
        case SetItems(items, rest, tm) => r := DecodeSetAsSet(items, rest + 1, tm, chunk);
        case MapEntries(kind, pairs, rest, tm) => r := DecodeMapEntries(kind, pairs, rest + 1, tm, chunk);
        case In(frame, inner) =>
          RunIn(host.parse, frame, inner, chunk, cursor);
          var value := Call(inner, chunk);
          r := Enter(frame, value, chunk);
      }
    }
  }
}
