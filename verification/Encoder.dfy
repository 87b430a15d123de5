/** `encodeCommand` (packages/client/lib/RESP/encoder.ts) and its round trip through the decoder. */
module Encoder {
  import opened Collections
  import opened RespTypes
  import opened Decimal
  import opened DecoderMachine
  import opened RespPrinter

  // A JavaScript string is a sequence of UTF-16 code units.
  type Unit = u: int | 0 <= u < 0x1_0000

  predicate IsHigh(u: Unit) { 0xD800 <= u < 0xDC00 }

  predicate IsLow(u: Unit) { 0xDC00 <= u < 0xE000 }

  function CodePoint(high: int, low: int): int { 0x1_0000 + (high - 0xD800) * 0x400 + (low - 0xDC00) }

  // How a string goes to the wire; a lone surrogate becomes U+FFFD.
  function Utf8(s: seq<Unit>): Bytes {
    if s == [] then []
    else if IsHigh(s[0]) && |s| > 1 && IsLow(s[1]) then
      Utf8Char(CodePoint(s[0], s[1])) + Utf8(s[2..])
    else if IsHigh(s[0]) || IsLow(s[0]) then Utf8Char(0xFFFD) + Utf8(s[1..])
    else Utf8Char(s[0]) + Utf8(s[1..])
  }

  function Utf8Char(c: nat): Bytes
    requires c < 0x11_0000
  {
    if c < 0x80 then [c]
    else if c < 0x800 then [0xC0 + c / 0x40, 0x80 + c % 0x40]
    else if c < 0x1_0000 then [0xE0 + c / 0x1000, 0x80 + c / 0x40 % 0x40, 0x80 + c % 0x40]
    else [0xF0 + c / 0x4_0000, 0x80 + c / 0x1000 % 0x40, 0x80 + c / 0x40 % 0x40, 0x80 + c % 0x40]
  }

  // An argument: a string, a Buffer, or something that is neither.
  datatype Arg = Str(s: seq<Unit>) | Buf(bytes: Bytes) | Other

  datatype Encoded = Parts(parts: seq<Arg>) | TypeError(index: nat)

  function BytesOf(arg: Arg): Bytes {
    match arg
    case Str(s) => Utf8(s)
    case Buf(bytes) => bytes
    case Other => []
  }

  function Wire(parts: seq<Arg>): Bytes {
    if parts == [] then [] else Wire(parts[..|parts| - 1]) + BytesOf(parts[|parts| - 1])
  }

  predicate IsAscii(s: Bytes) { forall i :: 0 <= i < |s| ==> s[i] < 0x80 }

  lemma {:induction false} Utf8Ascii(s: Bytes)
    requires IsAscii(s)
    ensures Utf8(s) == s
    decreases |s|
  {
    if s != [] {
      Utf8Ascii(s[1..]);
      assert s == [s[0]] + s[1..];
    }
  }

  // Two strings that do not meet inside a surrogate pair encode separately.
  lemma {:induction false} Utf8Append(a: seq<Unit>, b: seq<Unit>)
    requires a == [] || b == [] || !IsHigh(a[|a| - 1]) || !IsLow(b[0])
    ensures Utf8(a + b) == Utf8(a) + Utf8(b)
    decreases |a|
  {
    if a == [] {
      assert a + b == b;
    } else if b == [] {
      assert a + b == a;
    } else {
      Utf8First(a);
      Utf8First(a + b);
      FirstOfBoth(a, b);
      hide Utf8, FirstChar;
      if Paired(a) {
        Utf8Append(a[2..], b);
        ConcatAssociates(FirstChar(a), Utf8(a[2..]), Utf8(b));
      } else {
        Utf8Append(a[1..], b);
        ConcatAssociates(FirstChar(a), Utf8(a[1..]), Utf8(b));
      }
    }
  }

  // The first two units are one character.
  predicate Paired(s: seq<Unit>) { |s| > 1 && IsHigh(s[0]) && IsLow(s[1]) }

  // The bytes of the first character.
  function FirstChar(s: seq<Unit>): Bytes
    requires s != []
  {
    if Paired(s) then Utf8Char(CodePoint(s[0], s[1]))
    else Utf8Char(if IsHigh(s[0]) || IsLow(s[0]) then 0xFFFD else s[0])
  }

  lemma Utf8First(s: seq<Unit>)
    requires s != []
    ensures Utf8(s) == FirstChar(s) + if Paired(s) then Utf8(s[2..]) else Utf8(s[1..])
  {
  }

  lemma FirstOfBoth(a: seq<Unit>, b: seq<Unit>)
    requires a != [] && b != [] && (!IsHigh(a[|a| - 1]) || !IsLow(b[0]))
    ensures Paired(a + b) == Paired(a) && FirstChar(a + b) == FirstChar(a)
    ensures (a + b)[1..] == a[1..] + b && (Paired(a) ==> (a + b)[2..] == a[2..] + b)
  {
  }

  function BlobsOf(args: seq<Arg>): seq<Message> {
    seq(|args|, i requires 0 <= i < |args| => BlobMessage(BytesOf(args[i])))
  }

  function CommandMessage(args: seq<Arg>): Message { ArrayMessage(BlobsOf(args)) }

  lemma {:induction false} PrintItemsSnoc(items: seq<Message>, m: Message)
    ensures PrintItems(items + [m]) == PrintItems(items) + Print(m)
    decreases |items|
  {
    if items == [] {
      assert [m][1..] == [];
    } else {
      assert (items + [m])[1..] == items[1..] + [m];
      PrintItemsSnoc(items[1..], m);
    }
  }

  // What is on the wire after the first `i` arguments.
  ghost function Header(args: seq<Arg>, i: nat): Bytes
    requires i <= |args|
  {
    [ARRAY] + PrintLength(|args|) + PrintItems(BlobsOf(args[..i]))
  }

  lemma HeaderNext(args: seq<Arg>, i: nat)
    requires i < |args|
    ensures Header(args, i + 1) == Header(args, i) + Print(BlobMessage(BytesOf(args[i])))
  {
    assert BlobsOf(args[..i + 1]) == BlobsOf(args[..i]) + [BlobMessage(BytesOf(args[i]))];
    PrintItemsSnoc(BlobsOf(args[..i]), BlobMessage(BytesOf(args[i])));
  }

  // The line in front of a blob or of the whole command.
  function LengthLine(typ: Byte, n: nat): Bytes { [typ] + PrintLength(n) }

  lemma LengthLineIsAscii(typ: Byte, n: nat)
    requires typ < 0x80
    ensures IsAscii(LengthLine(typ, n)) && EndsLine(LengthLine(typ, n))
  {
    var digits := PrintNat(n);
    assert forall i :: 0 <= i < |digits| ==> IsDigit(digits[i]);
  }

  lemma PrintedBlob(bytes: Bytes)
    ensures Print(BlobMessage(bytes)) == LengthLine(BLOB_STRING, |bytes|) + bytes + CRLF
  {
  }

  lemma WireSnoc(parts: seq<Arg>, part: Arg)
    ensures Wire(parts + [part]) == Wire(parts) + BytesOf(part)
  {
    assert (parts + [part])[..|parts|] == parts;
  }

  // A string that ends in a line feed takes more text without joining surrogates.
  predicate EndsLine(s: seq<Unit>) { s != [] && s[|s| - 1] == LF }

  lemma AppendLine(strings: seq<Unit>, line: Bytes)
    requires EndsLine(strings) && IsAscii(line) && EndsLine(line)
    ensures EndsLine(strings + line) && Utf8(strings + line) == Utf8(strings) + line
  {
    Utf8Append(strings, line);
    Utf8Ascii(line);
  }

  lemma AppendText(strings: seq<Unit>, line: Bytes, arg: seq<Unit>)
    requires EndsLine(strings) && IsAscii(line) && EndsLine(line)
    ensures EndsLine(strings + line + arg + CRLF)
    ensures Utf8(strings + line + arg + CRLF) == Utf8(strings) + (line + Utf8(arg) + CRLF)
  {
    hide Utf8;
    AppendLine(strings, line);
    Utf8Append(strings + line, arg);
    Utf8Append(strings + line + arg, CRLF);
    Utf8Ascii(CRLF);
  }

  /** Throws on the first argument that is neither a string nor a Buffer; otherwise the parts,
      written one after the other, are the RESP array of the arguments. */
  method EncodeCommand(args: seq<Arg>) returns (r: Encoded)
    ensures match r
            case TypeError(k) => k < |args| && args[k].Other? && forall i :: 0 <= i < k ==> !args[i].Other?
            case Parts(parts) =>
               Wire(parts) == Print(CommandMessage(args)) && forall i :: 0 <= i < |args| ==> !args[i].Other?
  {
    hide Utf8, Wire, Print, PrintItems, PrintNat, LengthLine;
    var toWrite: seq<Arg> := [];
    var strings: seq<Unit> := LengthLine(ARRAY, |args|);
    StartCommand(args);
    var i := 0;
    while i < |args|
      invariant i <= |args| && EndsLine(strings) && forall j :: 0 <= j < i ==> !args[j].Other?
      invariant Wire(toWrite) + Utf8(strings) == Header(args, i)
    {
      HeaderNext(args, i);
      match args[i] {
        case Str(arg) =>
          PushString(toWrite, strings, arg);
          strings := strings + LengthLine(BLOB_STRING, |Utf8(arg)|) + arg + CRLF;
        case Buf(arg) =>
          PushBuffer(toWrite, strings, arg);
          toWrite := toWrite + [Str(strings + LengthLine(BLOB_STRING, |arg|))] + [Buf(arg)];
          strings := CRLF;
        case Other =>
          return TypeError(i);
      }
      i := i + 1;
    }
    assert args[..i] == args;
    FinishCommand(args);
    WireSnoc(toWrite, Str(strings));
    return Parts(toWrite + [Str(strings)]);
  }

  lemma StartCommand(args: seq<Arg>)
    ensures EndsLine(LengthLine(ARRAY, |args|))
    ensures Wire([]) + Utf8(LengthLine(ARRAY, |args|)) == Header(args, 0)
  {
    LengthLineIsAscii(ARRAY, |args|);
    Utf8Ascii(LengthLine(ARRAY, |args|));
  }

  lemma FinishCommand(args: seq<Arg>)
    ensures Header(args, |args|) == Print(CommandMessage(args))
  {
    assert args[..|args|] == args;
    assert |BlobsOf(args)| == |args|;
  }

  lemma PushString(parts: seq<Arg>, strings: seq<Unit>, arg: seq<Unit>)
    requires EndsLine(strings)
    ensures EndsLine(strings + LengthLine(BLOB_STRING, |Utf8(arg)|) + arg + CRLF)
    ensures Wire(parts) + Utf8(strings + LengthLine(BLOB_STRING, |Utf8(arg)|) + arg + CRLF)
         == Wire(parts) + Utf8(strings) + Print(BlobMessage(Utf8(arg)))
  {
    hide LengthLine, Utf8, Print, Wire;
    LengthLineIsAscii(BLOB_STRING, |Utf8(arg)|);
    AppendText(strings, LengthLine(BLOB_STRING, |Utf8(arg)|), arg);
    PrintedBlob(Utf8(arg));
  }

  lemma PushBuffer(parts: seq<Arg>, strings: seq<Unit>, arg: Bytes)
    requires EndsLine(strings)
    ensures Wire(parts + [Str(strings + LengthLine(BLOB_STRING, |arg|))] + [Buf(arg)]) + Utf8(CRLF)
         == Wire(parts) + Utf8(strings) + Print(BlobMessage(arg))
  {
    hide LengthLine, Utf8, Print, Wire;
    var line := LengthLine(BLOB_STRING, |arg|);
    LengthLineIsAscii(BLOB_STRING, |arg|);
    AppendLine(strings, line);
    WireSnoc(parts, Str(strings + line));
    WireSnoc(parts + [Str(strings + line)], Buf(arg));
    Utf8Ascii(CRLF);
    PrintedBlob(arg);
  }

  lemma {:induction false} ValuesOfBlobs(parse: Parser, args: seq<Arg>, tm: TypeMapping)
    ensures ValuesOf(parse, BlobsOf(args), tm)
         == seq(|args|, i requires 0 <= i < |args| => Kept(tm.blobString, BytesOf(args[i])))
    decreases |args|
  {
    if args != [] {
      assert BlobsOf(args)[1..] == BlobsOf(args[1..]);
      ValuesOfBlobs(parse, args[1..], tm);
    }
  }

  /** Encode, then decode in any chunks: exactly one reply, the array of the arguments' bytes. */
  lemma DecodeUndoesEncode(host: Host, log: seq<Event>, args: seq<Arg>, parts: seq<Arg>, chunks: seq<Bytes>)
    requires Wire(parts) == Print(CommandMessage(args)) && Flatten(chunks) == Wire(parts)
    ensures var strings := seq(|args|, i requires 0 <= i < |args| =>
                                 Kept(host.mappingAt(|log|).blobString, BytesOf(args[i])));
            ConsumeChunks(host, State(Idle, 0, log), chunks) == State(Idle, 0, log + [Reply(Array(strings))])
  {
    var stream := [Answer(CommandMessage(args))];
    assert stream[1..] == [];
    assert forall i :: 0 <= i < |args| ==> WellFormed(BlobsOf(args)[i]);
    assert PrintStream(stream) == Print(CommandMessage(args)) + [];
    ParserUndoesPrinter(host, log, stream, chunks);
    ValuesOfBlobs(host.parse, args, host.mappingAt(|log|));
    assert EventsOf(host, |log|, stream) == [EventOf(host, |log|, stream[0])];
  }

}
