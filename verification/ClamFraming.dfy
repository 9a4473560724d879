/** The length-prefixed frames in which a file is sent to the virus scanner. */
module ClamFraming {
  import opened Options

  type Byte = x: int | 0 <= x < 256

  const CHUNK_BYTES: nat := 1024 * 1024

  /** `struct.pack("!I", n)`. */
  function Length(n: nat): seq<Byte>
    requires n < 0x1_0000_0000
  {
    [n / 0x100_0000, n / 0x1_0000 % 0x100, n / 0x100 % 0x100, n % 0x100]
  }

  function LengthValue(s: seq<Byte>): nat
    requires |s| >= 4
  {
    s[0] as int * 0x100_0000 + s[1] as int * 0x1_0000 + s[2] as int * 0x100 + s[3] as int
  }

  lemma BytesOf(n: nat)
    ensures n / 0x100_0000 * 0x100_0000 + n / 0x1_0000 % 0x100 * 0x1_0000 + n / 0x100 % 0x100 * 0x100 + n % 0x100 == n
  {
    assert n == n / 0x100 * 0x100 + n % 0x100;
    assert n / 0x100 == n / 0x1_0000 * 0x100 + n / 0x100 % 0x100;
    assert n / 0x1_0000 == n / 0x100_0000 * 0x100 + n / 0x1_0000 % 0x100;
  }

  lemma LengthRoundTrip(n: nat, rest: seq<Byte>)
    requires n < 0x1_0000_0000
    ensures LengthValue(Length(n) + rest) == n
  {
    var s := Length(n) + rest;
    assert s[0] == n / 0x100_0000 && s[1] == n / 0x1_0000 % 0x100 && s[2] == n / 0x100 % 0x100 && s[3] == n % 0x100;
    BytesOf(n);
  }

  /** Most significant byte first: appending a byte to the number appends it to the bytes. */
  lemma LengthIsBigEndian(n: nat, b: Byte)
    requires n < 0x100_0000
    ensures Length(0) == [0, 0, 0, 0]
    ensures Length(n * 0x100 + b) == Length(n)[1..] + [b]
  {
    var m := n * 0x100 + b;
    assert m / 0x100 == n && m % 0x100 == b;
    assert m / 0x1_0000 == n / 0x100 && m / 0x100_0000 == n / 0x1_0000;
    assert n / 0x1_0000 < 0x100;
  }

  /** The frames of a list of chunks, without the final zero length. */
  function Frames(chunks: seq<seq<Byte>>): seq<Byte>
    requires forall i :: 0 <= i < |chunks| ==> |chunks[i]| < 0x1_0000_0000
  {
    if chunks == [] then [] else Length(|chunks[0]|) + chunks[0] + Frames(chunks[1..])
  }

  /** The receiving side: frames up to the first zero length, giving the content and what follows. */
  function Receive(s: seq<Byte>): (r: Option<(seq<Byte>, seq<Byte>)>)
    decreases |s|
  {
    if |s| < 4 then None
    else
      var n, body := LengthValue(s), s[4..];
      if n == 0 then Some(([], body))
      else if |body| < n then None
      else match Receive(body[n..])
        case None => None
        case Some((content, rest)) => Some((body[..n] + content, rest))
  }

  ghost predicate AreChunks(chunks: seq<seq<Byte>>) {
    forall i :: 0 <= i < |chunks| ==> 1 <= |chunks[i]| <= CHUNK_BYTES
  }

  lemma {:induction false} FramesSnoc(chunks: seq<seq<Byte>>, chunk: seq<Byte>)
    requires AreChunks(chunks) && 1 <= |chunk| <= CHUNK_BYTES
    ensures AreChunks(chunks + [chunk])
    ensures Frames(chunks + [chunk]) == Frames(chunks) + Length(|chunk|) + chunk
  {
    if chunks == [] {
      assert (chunks + [chunk])[1..] == [];
    } else {
      assert (chunks + [chunk])[1..] == chunks[1..] + [chunk];
      FramesSnoc(chunks[1..], chunk);
    }
  }

  lemma FrameReceived(chunk: seq<Byte>, s: seq<Byte>)
    requires 1 <= |chunk| <= CHUNK_BYTES
    ensures Receive(Length(|chunk|) + chunk + s) ==
            match Receive(s) case None => None case Some((content, rest)) => Some((chunk + content, rest))
  {
    var all := Length(|chunk|) + chunk + s;
    LengthRoundTrip(|chunk|, chunk + s);
    assert all == Length(|chunk|) + (chunk + s);
    assert all[4..] == chunk + s;
    assert (chunk + s)[|chunk|..] == s && (chunk + s)[..|chunk|] == chunk;
  }

  function Whole(chunks: seq<seq<Byte>>): seq<Byte> {
    if chunks == [] then [] else chunks[0] + Whole(chunks[1..])
  }

  /** However the file is cut into non-empty chunks, the receiver gets its bytes and stops at the end. */
  lemma {:induction false} ReceiveFrames(chunks: seq<seq<Byte>>, rest: seq<Byte>)
    requires AreChunks(chunks)
    ensures Receive(Frames(chunks) + (Length(0) + rest)) == Some((Whole(chunks), rest))
  {
    if chunks == [] {
      LengthRoundTrip(0, rest);
      assert Frames(chunks) + (Length(0) + rest) == Length(0) + rest;
      assert (Length(0) + rest)[4..] == rest;
    } else {
      var tail := Frames(chunks[1..]) + (Length(0) + rest);
      assert Frames(chunks) + (Length(0) + rest) == Length(|chunks[0]|) + chunks[0] + tail;
      FrameReceived(chunks[0], tail);
      ReceiveFrames(chunks[1..], rest);
    }
  }

  lemma SplitExtends(s: seq<Byte>, more: seq<Byte>, n: nat)
    requires n <= |s|
    ensures (s + more)[n..] == s[n..] + more && (s + more)[..n] == s[..n]
  {
  }

  /** More bytes after a complete transmission do not change what was received. */
  lemma {:induction false} ReceiveExtends(s: seq<Byte>, more: seq<Byte>)
    requires Receive(s).Some?
    ensures Receive(s + more) == Some((Receive(s).value.0, Receive(s).value.1 + more))
    decreases |s|
  {
    var n, body := LengthValue(s), s[4..];
    SplitExtends(s, more, 4);
    if n > 0 {
      ReceiveExtends(body[n..], more);
      SplitExtends(body, more, n);
    }
  }

  /** A transmission cut short is never taken for a complete one. */
  lemma TruncationIsNoticed(sent: seq<Byte>, missing: seq<Byte>, content: seq<Byte>)
    requires Receive(sent + missing) == Some((content, [])) && missing != []
    ensures Receive(sent) == None
  {
    if Receive(sent).Some? {
      ReceiveExtends(sent, missing);
    }
  }

  lemma {:induction false} WholeSnoc(chunks: seq<seq<Byte>>, chunk: seq<Byte>)
    ensures Whole(chunks + [chunk]) == Whole(chunks) + chunk
  {
    if chunks == [] {
      assert (chunks + [chunk])[1..] == [];
    } else {
      assert (chunks + [chunk])[1..] == chunks[1..] + [chunk];
      WholeSnoc(chunks[1..], chunk);
    }
  }

  /** Sends a file after the command; `sent` is everything written to the connection after it. */
  method Scan(file: seq<Byte>) returns (sent: seq<Byte>)
    ensures Receive(sent) == Some((file, []))
    ensures forall n :: 0 <= n < |sent| ==> Receive(sent[..n]) == None
  {
    sent := [];
    var read := 0;
    ghost var chunks: seq<seq<Byte>> := [];
    while read < |file|
      invariant read <= |file| && AreChunks(chunks)
      invariant sent == Frames(chunks) && Whole(chunks) == file[..read]
    {
      var upto := if read + CHUNK_BYTES <= |file| then read + CHUNK_BYTES else |file|;
      var chunk := file[read..upto];
      FramesSnoc(chunks, chunk);
      WholeSnoc(chunks, chunk);
      assert file[..upto] == file[..read] + chunk;
      sent := sent + Length(|chunk|) + chunk;
      chunks := chunks + [chunk];
      read := upto;
    }
    ReceiveFrames(chunks, []);
    assert Length(0) + [] == Length(0) && file[..read] == file;
    sent := sent + Length(0);
    forall n | 0 <= n < |sent| ensures Receive(sent[..n]) == None {
      assert sent[..n] + sent[n..] == sent;
      TruncationIsNoticed(sent[..n], sent[n..], file);
    }
  }
}
