/** Line reassembly of the demo chat (chat/chat.py): a byte stream cut at arbitrary places
    is split back into newline-terminated lines. */
module Chat {
  import opened Ip
  import opened Utf8

  const NEWLINE: Byte := 10

  function Flatten(chunks: seq<Bytes>): Bytes {
    if chunks == [] then [] else Flatten(chunks[..|chunks|-1]) + chunks[|chunks|-1]
  }

  /** What recv_loop still reads: everything before the empty chunk of a disconnect. */
  function UntilDisconnect(chunks: seq<Bytes>): (read: seq<Bytes>)
    ensures forall i :: 0 <= i < |read| ==> read[i] != []
  {
    if chunks == [] || chunks[0] == [] then [] else [chunks[0]] + UntilDisconnect(chunks[1..])
  }

  /** Lines each closed by a newline. */
  function Terminated(lines: seq<Bytes>): Bytes {
    if lines == [] then [] else Terminated(lines[..|lines|-1]) + lines[|lines|-1] + [NEWLINE]
  }

  ghost predicate NewlineFree(text: Bytes) {
    NEWLINE !in text
  }

  ghost predicate AllNewlineFree(lines: seq<Bytes>) {
    forall i :: 0 <= i < |lines| ==> NewlineFree(lines[i])
  }

  /** The one way of reading a stream as lines: newline-free lines, each closed by a newline,
      then a newline-free leftover. */
  ghost predicate Reads(stream: Bytes, lines: seq<Bytes>, leftover: Bytes) {
    stream == Terminated(lines) + leftover && AllNewlineFree(lines) && NewlineFree(leftover)
  }

  method IndexOfNewline(buf: Bytes) returns (i: nat)
    requires NEWLINE in buf
    ensures i < |buf| && buf[i] == NEWLINE && NewlineFree(buf[..i])
  {
    i := 0;
    while buf[i] != NEWLINE
      invariant i < |buf| && NewlineFree(buf[..i])
      invariant NEWLINE in buf[i..]
      decreases |buf| - i
    {
      i := i + 1;
    }
  }

  lemma {:induction false} CutLine(lines: seq<Bytes>, buf: Bytes, i: nat)
    requires i < |buf| && buf[i] == NEWLINE
    ensures Terminated(lines + [buf[..i]]) + buf[i+1..] == Terminated(lines) + buf
  {
    assert (lines + [buf[..i]])[..|lines|] == lines;
    assert buf == buf[..i] + [NEWLINE] + buf[i+1..];
  }

  lemma {:induction false} ReadChunk(read: seq<Bytes>, chunks: seq<Bytes>, k: nat)
    requires k < |chunks| && chunks[k] != []
    ensures Flatten(read + [chunks[k]]) == Flatten(read) + chunks[k]
    ensures read + UntilDisconnect(chunks[k..]) == (read + [chunks[k]]) + UntilDisconnect(chunks[k+1..])
  {
    assert (read + [chunks[k]])[..|read|] == read;
    assert chunks[k..][1..] == chunks[k+1..];
  }

  /** recv_loop: append each chunk to the buffer, then cut off complete lines. */
  method RecvLoop(chunks: seq<Bytes>) returns (lines: seq<Bytes>, buf: Bytes)
    ensures Reads(Flatten(UntilDisconnect(chunks)), lines, buf)
  {
    lines, buf := [], [];
    ghost var read: seq<Bytes> := [];
    var k := 0;
    assert chunks[0..] == chunks && read + UntilDisconnect(chunks) == UntilDisconnect(chunks);
    while k < |chunks|
      invariant k <= |chunks|
      invariant UntilDisconnect(chunks) == read + UntilDisconnect(chunks[k..])
      invariant Reads(Flatten(read), lines, buf)
    {
      var data := chunks[k];
      if data == [] {
        break;
      }
      ReadChunk(read, chunks, k);
      read := read + [data];
      assert Terminated(lines) + (buf + data) == Terminated(lines) + buf + data;
      buf := buf + data;
      while NEWLINE in buf
        invariant Terminated(lines) + buf == Flatten(read) && AllNewlineFree(lines)
        decreases |buf|
      {
        var i := IndexOfNewline(buf);
        CutLine(lines, buf, i);
        lines, buf := lines + [buf[..i]], buf[i+1..];
      }
      k := k + 1;
    }
    assert read + [] == read;
  }

  lemma {:induction false} NewlinePosition(text: Bytes, rest: Bytes, text': Bytes, rest': Bytes)
    requires NewlineFree(text) && NewlineFree(text')
    requires text + [NEWLINE] + rest == text' + [NEWLINE] + rest'
    ensures text == text' && rest == rest'
  {
    var s := text + [NEWLINE] + rest;
    forall i | 0 <= i < |text| ensures s[i] != NEWLINE { assert s[i] == text[i]; }
    forall i | 0 <= i < |text'| ensures s[i] != NEWLINE { assert s[i] == text'[i]; }
    assert s[|text|] == NEWLINE && s[|text'|] == NEWLINE;
    assert text == s[..|text|] && text' == s[..|text'|];
    assert rest == s[|text|+1..] && rest' == s[|text'|+1..];
  }

  lemma {:induction false} TerminatedFront(lines: seq<Bytes>)
    requires lines != []
    ensures Terminated(lines) == lines[0] + [NEWLINE] + Terminated(lines[1..])
  {
    var n := |lines| - 1;
    if n == 0 {
      assert lines[..0] == [] && lines[1..] == [];
    } else {
      TerminatedFront(lines[..n]);
      assert lines[..n][1..] == lines[1..][..n-1];
      assert lines[1..][n-1] == lines[n];
      calc {
        Terminated(lines);
        Terminated(lines[..n]) + lines[n] + [NEWLINE];
        lines[0] + [NEWLINE] + Terminated(lines[1..][..n-1]) + lines[n] + [NEWLINE];
        lines[0] + [NEWLINE] + (Terminated(lines[1..][..n-1]) + lines[n] + [NEWLINE]);
      }
    }
  }

  lemma {:induction false} TerminatedHasNewline(lines: seq<Bytes>, leftover: Bytes)
    requires lines != []
    ensures NEWLINE in Terminated(lines) + leftover
  {
    assert (Terminated(lines) + leftover)[|Terminated(lines)| - 1] == NEWLINE;
  }

  /** A stream reads in one way only: with RecvLoop's contract, however the same stream is cut
      into chunks, the lines and the leftover are the same. */
  lemma {:induction false} ReadsUnique(stream: Bytes, lines: seq<Bytes>, rest: Bytes, lines': seq<Bytes>, rest': Bytes)
    requires Reads(stream, lines, rest) && Reads(stream, lines', rest')
    ensures lines == lines' && rest == rest'
    decreases |lines|
  {
    if lines == [] || lines' == [] {
      assert Terminated([]) + rest == rest && Terminated([]) + rest' == rest';
      if lines != [] { TerminatedHasNewline(lines, rest); }
      if lines' != [] { TerminatedHasNewline(lines', rest'); }
    } else {
      TerminatedFront(lines);
      TerminatedFront(lines');
      var tail, tail' := Terminated(lines[1..]) + rest, Terminated(lines'[1..]) + rest';
      assert stream == lines[0] + [NEWLINE] + tail;
      assert stream == lines'[0] + [NEWLINE] + tail';
      NewlinePosition(lines[0], tail, lines'[0], tail');
      ReadsUnique(tail, lines[1..], rest, lines'[1..], rest');
      assert lines == [lines[0]] + lines[1..] && lines' == [lines'[0]] + lines'[1..];
    }
  }

  // ---------- what send_loop puts on the wire ----------

  lemma {:induction false} EncodeNewlineFree(text: seq<Scalar>)
    requires 10 !in text
    ensures NewlineFree(EncodeText(text))
  {
    if text != [] {
      EncodeNewlineFree(text[..|text|-1]);
    }
  }

  /** send_loop: each input line plus a newline, encoded, sent in turn. */
  method SendLoop(inputs: seq<seq<Scalar>>) returns (wire: Bytes)
    ensures wire == Terminated(seq(|inputs|, i requires 0 <= i < |inputs| => EncodeText(inputs[i])))
  {
    wire := [];
    ghost var encoded := seq(|inputs|, i requires 0 <= i < |inputs| => EncodeText(inputs[i]));
    for k := 0 to |inputs|
      invariant wire == Terminated(encoded[..k])
    {
      EncodeConcat(inputs[k], [10]);
      assert EncodeText([10]) == [NEWLINE] by {
        assert [10][..0] == [];
      }
      assert encoded[..k+1][..k] == encoded[..k];
      wire := wire + EncodeText(inputs[k] + [10]);
    }
    assert encoded[..|inputs|] == encoded;
  }

  /** Whatever the network does to the cuts, newline-free texts come out as the very lines
      that went in: each line encodes its input and no other text, and nothing is left over. */
  method Conversation(inputs: seq<seq<Scalar>>, chunks: seq<Bytes>) returns (wire: Bytes, lines: seq<Bytes>, rest: Bytes)
    requires forall i :: 0 <= i < |inputs| ==> 10 !in inputs[i]
    ensures Flatten(UntilDisconnect(chunks)) == wire ==>
              && rest == [] && |lines| == |inputs|
              && forall i, text :: 0 <= i < |inputs| ==> (lines[i] == EncodeText(text) <==> text == inputs[i])
  {
    wire := SendLoop(inputs);
    lines, rest := RecvLoop(chunks);
    ghost var encoded := seq(|inputs|, i requires 0 <= i < |inputs| => EncodeText(inputs[i]));
    forall i | 0 <= i < |inputs| ensures NewlineFree(encoded[i]) {
      EncodeNewlineFree(inputs[i]);
    }
    if Flatten(UntilDisconnect(chunks)) == wire {
      assert wire + [] == wire;
      ReadsUnique(wire, lines, rest, encoded, []);
      forall i, text | 0 <= i < |inputs| ensures lines[i] == EncodeText(text) <==> text == inputs[i] {
        if EncodeText(text) == EncodeText(inputs[i]) { EncodeInjective(text, inputs[i]); }
      }
    }
  }
}
