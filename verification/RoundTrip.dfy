/** The encoder and the decoder together: what is written is what is read
    (packages/client/lib/RESP/encoder.ts, packages/client/lib/RESP/decoder.ts:100-131). */
module RoundTrip {
  import opened RespTypes
  import opened DecoderMachine
  import opened RespPrinter
  import opened Decimal
  import opened Encoder
  import opened Doubles
  import D = Decoder

  /** A stream of well-formed messages, in any chunks: each is reported once, in order, and the decoder
      is ready for the next. */
  method Receive(decoder: D.Decoder, ghost stream: seq<Sent>, chunks: seq<Bytes>) returns (ok: bool)
    requires decoder.next == Idle && decoder.cursor == 0
    requires (forall i :: 0 <= i < |stream| ==> SentWellFormed(stream[i])) && Flatten(chunks) == PrintStream(stream)
    modifies decoder
    ensures ok && decoder.next == Idle && decoder.cursor == 0
    ensures decoder.log == old(decoder.log) + EventsOf(decoder.host, |old(decoder.log)|, stream)
  {
    ConsumeStream(decoder.host, decoder.log, stream, PrintStream(stream), 0);
    ok := decoder.WriteAll(chunks);
  }

  // The reply that the arguments come back as.
  ghost function Echo(decoder: D.Decoder, calls: nat, args: seq<Arg>): Event {
    var tm := decoder.host.mappingAt(calls);
    Reply(Array(seq(|args|, i requires 0 <= i < |args| => Kept(tm.blobString, BytesOf(args[i])))))
  }

  /** An encoded command in any chunks: exactly one reply, the array of the arguments' bytes. */
  method ReceiveCommand(decoder: D.Decoder, args: seq<Arg>, parts: seq<Arg>, chunks: seq<Bytes>) returns (ok: bool)
    requires decoder.next == Idle && decoder.cursor == 0
    requires Wire(parts) == Print(CommandMessage(args)) && Flatten(chunks) == Wire(parts)
    modifies decoder
    ensures ok && decoder.next == Idle && decoder.cursor == 0
    ensures decoder.log == old(decoder.log) + [Echo(decoder, |old(decoder.log)|, args)]
  {
    DecodeUndoesEncode(decoder.host, decoder.log, args, parts, chunks);
    ChunkingDoesNotMatter(decoder.host, State(Idle, 0, decoder.log), chunks);
    ok := decoder.WriteAll(chunks);
  }

  /** Encodes a command and hands each part to the decoder. */
  method SendAndReceive(decoder: D.Decoder, args: seq<Arg>) returns (encoded: Encoded)
    requires decoder.next == Idle && decoder.cursor == 0
    modifies decoder
    ensures encoded.TypeError? <==> exists i :: 0 <= i < |args| && args[i].Other?
    ensures decoder.next == Idle && decoder.cursor == 0
    ensures decoder.log == old(decoder.log) +
              if encoded.TypeError? then [] else [Echo(decoder, |old(decoder.log)|, args)]
  {
    encoded := EncodeCommand(args);
    if encoded.Parts? {
      var parts := encoded.parts;
      var chunks := seq(|parts|, i requires 0 <= i < |parts| => BytesOf(parts[i]));
      ChunksOfParts(parts, chunks);
      var _ := ReceiveCommand(decoder, args, parts, chunks);
    }
  }

  /** A double as the server prints it, in any chunks: exactly the double that is meant, or its text. */
  method ReceiveDouble(decoder: D.Decoder, ghost p: Printed, chunks: seq<Bytes>) returns (ok: bool)
    requires decoder.next == Idle && decoder.cursor == 0
    requires Flatten(chunks) == [Code(',')] + Token(p) + [Code('\r'), Code('\n')]
    modifies decoder
    ensures ok && decoder.next == Idle && decoder.cursor == 0
    ensures decoder.log == old(decoder.log) + [Reply(
      if decoder.mappingAt(|old(decoder.log)|).doubleAsString then Text(Token(p))
      else DoubleValue(Meant(decoder.arith, p)))]
  {
    NoLineEnds(p);
    PrintedIsRead(decoder.arith, p);
    ghost var m := DoubleMessage(Token(p));
    StreamOfOne(decoder.host, |decoder.log|, Answer(m));
    PrintedDouble(Token(p));
    hide PrintStream, EventsOf, Token, Meant, SlowParseDouble, Print, Flatten;
    ok := Receive(decoder, [Answer(m)], chunks);
  }

  lemma StreamOfOne(host: Host, n: nat, sent: Sent)
    ensures PrintStream([sent]) == PrintSent(sent) && EventsOf(host, n, [sent]) == [EventOf(host, n, sent)]
  {
    hide PrintSent, EventOf;
    assert [sent][1..] == [];
    assert PrintSent(sent) + [] == PrintSent(sent);
  }

  lemma PrintedDouble(token: Bytes)
    ensures Print(DoubleMessage(token)) == [Code(',')] + token + [Code('\r'), Code('\n')]
  {
  }

  lemma NoLineEnds(p: Printed)
    ensures CR !in Token(p)
  {
    if p.Scaled? {
      var whole, fraction := PrintNat(FirstDigits(p.n, p.k)), LastDigits(p.n, p.k);
      assert forall b <- whole :: IsDigit(b);
      assert forall b <- fraction :: IsDigit(b);
      hide PrintNat, LastDigits, FirstDigits;
    }
  }

  lemma {:induction false} FlattenSnoc(chunks: seq<Bytes>, last: Bytes)
    ensures Flatten(chunks + [last]) == Flatten(chunks) + last
  {
    if chunks == [] {
      assert [] + [last] == [last] && [last][1..] == [] && last + [] == last && [] + last == last;
    } else {
      assert (chunks + [last])[1..] == chunks[1..] + [last];
      FlattenSnoc(chunks[1..], last);
      assert chunks[0] + (Flatten(chunks[1..]) + last) == chunks[0] + Flatten(chunks[1..]) + last;
    }
  }

  lemma {:induction false} ChunksOfParts(parts: seq<Arg>, chunks: seq<Bytes>)
    requires |chunks| == |parts| && forall i :: 0 <= i < |parts| ==> chunks[i] == BytesOf(parts[i])
    ensures Flatten(chunks) == Wire(parts)
    decreases |parts|
  {
    if parts != [] {
      var k := |parts| - 1;
      ChunksOfParts(parts[..k], chunks[..k]);
      FlattenSnoc(chunks[..k], chunks[k]);
      assert chunks == chunks[..k] + [chunks[k]];
    }
  }
}
