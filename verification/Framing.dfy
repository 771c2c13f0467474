/**
Newline framing over a byte stream: what the messages of a stream are, independently of how the stream is cut into
chunks, and how that undoes the simulator's encoder.
*/
module Framing {
  type Byte = b: nat | b < 256

  type Text = seq<Byte>

  const NEWLINE: Byte := 10

  predicate NoNewline(t: Text) {
    forall i :: 0 <= i < |t| ==> t[i] != NEWLINE
  }

  /** The unfinished last piece of a stream. */
  function Rest(stream: Text): (r: Text)
    ensures NoNewline(r)
  {
    if stream == [] || stream[|stream| - 1] == NEWLINE then []
    else Rest(stream[..|stream| - 1]) + [stream[|stream| - 1]]
  }

  /** The newline-terminated pieces of a stream, without their newlines. */
  function Lines(stream: Text): (lines: seq<Text>)
    ensures forall i :: 0 <= i < |lines| ==> NoNewline(lines[i])
  {
    if stream == [] then []
    else if stream[|stream| - 1] == NEWLINE then Lines(stream[..|stream| - 1]) + [Rest(stream[..|stream| - 1])]
    else Lines(stream[..|stream| - 1])
  }

  function NonEmpty(lines: seq<Text>): seq<Text> {
    if lines == [] then []
    else NonEmpty(lines[..|lines| - 1]) + if lines[|lines| - 1] == [] then [] else [lines[|lines| - 1]]
  }

  /** The messages of a stream: empty lines are skipped. */
  function Messages(stream: Text): seq<Text> {
    NonEmpty(Lines(stream))
  }

  /** The encoder: each message followed by a newline. */
  function Encode(messages: seq<Text>): Text {
    if messages == [] then [] else Encode(messages[..|messages| - 1]) + messages[|messages| - 1] + [NEWLINE]
  }

  // ---------------------------------------------------------------- cutting the stream

  /** What is read later continues the unfinished piece, and touches nothing else. */
  lemma {:induction false} Resume(a: Text, b: Text)
    ensures Lines(a + b) == Lines(a) + Lines(Rest(a) + b)
    ensures Rest(a + b) == Rest(Rest(a) + b)
  {
    if b == [] {
      assert a + b == a && Rest(a) + b == Rest(a);
      Unbroken(Rest(a));
    } else {
      var n := |b| - 1;
      assert (a + b)[..|a| + n] == a + b[..n] && (Rest(a) + b)[..|Rest(a)| + n] == Rest(a) + b[..n];
      Resume(a, b[..n]);
    }
  }

  lemma {:induction false} Unbroken(t: Text)
    requires NoNewline(t)
    ensures Lines(t) == [] && Rest(t) == t
  {
    if t != [] {
      Unbroken(t[..|t| - 1]);
      assert t == t[..|t| - 1] + [t[|t| - 1]];
    }
  }

  lemma OneLine(t: Text)
    requires NoNewline(t)
    ensures Lines(t + [NEWLINE]) == [t] && Rest(t + [NEWLINE]) == []
  {
    assert (t + [NEWLINE])[..|t|] == t;
    Unbroken(t);
  }

  /** Cutting off the first line, as the receiver does. */
  lemma FirstLine(stream: Text, k: nat)
    requires k < |stream| && stream[k] == NEWLINE && NoNewline(stream[..k])
    ensures Lines(stream) == [stream[..k]] + Lines(stream[k + 1..])
    ensures Rest(stream) == Rest(stream[k + 1..])
  {
    hide Lines, Rest;
    var line, later := stream[..k] + [NEWLINE], stream[k + 1..];
    OneLine(stream[..k]);
    Resume(line, later);
    assert line + later == stream && [] + later == later;
  }

  lemma {:induction false} NonEmptyConcat(a: seq<Text>, b: seq<Text>)
    ensures NonEmpty(a + b) == NonEmpty(a) + NonEmpty(b)
  {
    if b == [] {
      assert a + b == a;
    } else {
      NonEmptyConcat(a, b[..|b| - 1]);
      assert (a + b)[..|a| + |b| - 1] == a + b[..|b| - 1];
    }
  }

  // ---------------------------------------------------------------- lines and the encoder are inverse

  /** Lines and rest put together again give the stream. */
  lemma {:induction false} LinesRebuildTheStream(stream: Text)
    ensures Encode(Lines(stream)) + Rest(stream) == stream
  {
    if stream != [] {
      var n := |stream| - 1;
      LinesRebuildTheStream(stream[..n]);
      assert stream == stream[..n] + [stream[n]];
    }
  }

  /** Nothing else does: newline-free pieces that make up the stream are its lines, and what follows is its rest. */
  lemma {:induction false} LinesAreUnique(pieces: seq<Text>, rest: Text)
    requires NoNewline(rest) && forall i :: 0 <= i < |pieces| ==> NoNewline(pieces[i])
    ensures Lines(Encode(pieces) + rest) == pieces && Rest(Encode(pieces) + rest) == rest
  {
    var stream := Encode(pieces);
    if pieces != [] {
      var n := |pieces| - 1;
      LinesAreUnique(pieces[..n], pieces[n]);
      assert stream[..|stream| - 1] == Encode(pieces[..n]) + pieces[n];
    }
    assert Lines(stream) == pieces && Rest(stream) == [];
    Resume(stream, rest);
    Unbroken(rest);
    assert [] + rest == rest;
  }

  lemma {:induction false} NoneEmpty(messages: seq<Text>)
    requires forall i :: 0 <= i < |messages| ==> messages[i] != []
    ensures NonEmpty(messages) == messages
  {
    if messages != [] {
      NoneEmpty(messages[..|messages| - 1]);
    }
  }

  /** Newline-free nonempty messages come out exactly as sent, followed by what is still on its way. */
  lemma SentMessagesArrive(messages: seq<Text>, rest: Text)
    requires NoNewline(rest)
    requires forall i :: 0 <= i < |messages| ==> NoNewline(messages[i]) && messages[i] != []
    ensures Messages(Encode(messages) + rest) == messages && Rest(Encode(messages) + rest) == rest
  {
    LinesAreUnique(messages, rest);
    NoneEmpty(messages);
  }

  /** A message on the wire is its bytes and a line feed, byte 10. */
  lemma EncodedMessage(messages: seq<Text>, message: Text)
    ensures Encode(messages + [message]) == Encode(messages) + message + [10]
  {
    assert (messages + [message])[..|messages|] == messages;
  }

  /** Skipping drops the empty lines and nothing else. */
  lemma {:induction false} NonEmptyDropsOnlyEmpty(lines: seq<Text>)
    ensures multiset(NonEmpty(lines)) == multiset(lines)[[] := 0]
  {
    if lines != [] {
      var n := |lines| - 1;
      NonEmptyDropsOnlyEmpty(lines[..n]);
      assert lines == lines[..n] + [lines[n]];
      assert multiset(lines) == multiset(lines[..n]) + multiset{lines[n]};
    }
  }

  // ---------------------------------------------------------------- the receiver

  /** `std::string::find`; `None` of its results is written as the length. */
  method FindNewline(data: Text) returns (k: nat)
    ensures k <= |data| && NoNewline(data[..k])
    ensures k < |data| ==> data[k] == NEWLINE
  {
    k := 0;
    while k < |data| && data[k] != NEWLINE
      invariant k <= |data| && NoNewline(data[..k])
    {
      k := k + 1;
    }
  }

  function Kept(line: Text): seq<Text> {
    if line == [] then [] else [line]
  }

  lemma FirstMessage(data: Text, k: nat)
    requires k < |data| && data[k] == NEWLINE && NoNewline(data[..k])
    ensures Messages(data) == Kept(data[..k]) + Messages(data[k + 1..])
  {
    FirstLine(data, k);
    var first := [data[..k]];
    NonEmptyConcat(first, Lines(data[k + 1..]));
    assert first[..0] == [];
    assert NonEmpty(first) == Kept(data[..k]);
  }

  /** One step of the inner receive loop, seen from the whole stream. */
  lemma CutLine(data: Text, k: nat, handled: seq<Text>, stream: Text)
    requires k < |data| && data[k] == NEWLINE && NoNewline(data[..k])
    requires handled + Messages(data) == Messages(stream) && Rest(data) == Rest(stream)
    ensures handled + Kept(data[..k]) + Messages(data[k + 1..]) == Messages(stream)
    ensures Rest(data[k + 1..]) == Rest(stream)
  {
    hide Lines, Rest, Messages, Kept;
    FirstMessage(data, k);
    FirstLine(data, k);
  }

  /** Appending a chunk to the pending bytes, seen from the whole stream. */
  lemma AppendChunk(received: Text, chunk: Text)
    ensures Messages(received) + Messages(Rest(received) + chunk) == Messages(received + chunk)
    ensures Rest(Rest(received) + chunk) == Rest(received + chunk)
  {
    Resume(received, chunk);
    NonEmptyConcat(Lines(received), Lines(Rest(received) + chunk));
  }

  /** Without a newline nothing is complete. */
  lemma NothingComplete(data: Text)
    requires NoNewline(data)
    ensures Messages(data) == [] && Rest(data) == data
  {
    Unbroken(data);
  }
}
