/** The live-answer buffer kept in Redis: a content string and an epoch counter.

    The producer compares a BYTE count (`STRLEN`) with a limit stated in characters and then slices
    the token by CHARACTERS, so the size bound mixes the two units. */
module StreamBuffer {
  import opened PythonText

  const STREAM_MAX_CHARS: nat := 100_000

  /** Bytes taken by one character in UTF-8 (section 3 of RFC 3629). */
  function Utf8Width(c: char): (n: nat)
    ensures 1 <= n <= 4
  {
    var code := c as int;
    if code < 0x80 then 1 else if code < 0x800 then 2 else if code < 0x1_0000 then 3 else 4
  }

  /** What `STRLEN` reports for a stored string. */
  function ByteLength(s: string): (n: nat)
    ensures |s| <= n <= 4 * |s|
  {
    if s == "" then 0 else Utf8Width(s[0]) + ByteLength(s[1..])
  }

  lemma {:induction false} ByteLengthConcat(a: string, b: string)
    ensures ByteLength(a + b) == ByteLength(a) + ByteLength(b)
  {
    if a == "" {
      assert a + b == b;
    } else {
      assert (a + b)[1..] == a[1..] + b;
      ByteLengthConcat(a[1..], b);
    }
  }

  function Remaining(content: string): int {
    STREAM_MAX_CHARS - ByteLength(content)
  }

  /** Python's `token[:remaining]` for a positive bound. */
  function Sliced(token: string, remaining: int): (r: string)
    requires 0 < remaining
    ensures r <= token && |r| <= remaining && (r == token || |r| == remaining)
  {
    if |token| <= remaining then token else token[..remaining]
  }

  function Appended(content: string, token: string): string {
    if token == "" || Remaining(content) <= 0 then content
    else content + Sliced(token, Remaining(content))
  }

  datatype Stored = Stored(content: string, epoch: nat)

  datatype Write = Append(token: string) | Reset

  function Written(s: Stored, w: Write): Stored {
    match w
    case Append(token) => s.(content := Appended(s.content, token))
    case Reset => Stored("", s.epoch + 1)
  }

  /** The store after a producer issued `writes` on a freshly initialised stream. */
  function Replay(writes: seq<Write>): Stored {
    if writes == [] then Stored("", 0)
    else Written(Replay(writes[..|writes| - 1]), writes[|writes| - 1])
  }

  /** Everything the producer sent since its last reset, unbounded. */
  function Sent(writes: seq<Write>): string {
    if writes == [] then ""
    else
      match writes[|writes| - 1]
      case Append(token) => Sent(writes[..|writes| - 1]) + token
      case Reset => ""
  }

  /** `content` is what the bounded buffer may hold when `sent` was sent. */
  ghost predicate Buffers(content: string, sent: string) {
    && content <= sent
    && |content| <= STREAM_MAX_CHARS
    && ByteLength(content) <= 4 * STREAM_MAX_CHARS
    && (content == sent || ByteLength(content) >= STREAM_MAX_CHARS)
  }

  lemma AppendBuffers(content: string, sent: string, token: string)
    requires Buffers(content, sent)
    ensures Buffers(Appended(content, token), sent + token)
  {
    if token == "" {
      assert sent + token == sent;
    } else if Remaining(content) <= 0 {
      assert content <= sent + token;
    } else {
      var piece := Sliced(token, Remaining(content));
      ByteLengthConcat(content, piece);
      assert sent == content;
    }
  }

  /** The buffer is always a prefix of what was sent since the last reset, cut only once at least
      100,000 bytes are stored, and never exceeds 100,000 characters or 400,000 bytes. */
  lemma {:induction false} ContentIsBoundedPrefix(writes: seq<Write>)
    ensures Buffers(Replay(writes).content, Sent(writes))
  {
    if writes != [] {
      var before := writes[..|writes| - 1];
      ContentIsBoundedPrefix(before);
      match writes[|writes| - 1]
      case Append(token) => AppendBuffers(Replay(before).content, Sent(before), token);
      case Reset =>
    }
  }

  ghost predicate OneByte(s: string) {
    forall i :: 0 <= i < |s| ==> Utf8Width(s[i]) == 1
  }

  lemma {:induction false} OneByteLength(s: string)
    requires OneByte(s)
    ensures ByteLength(s) == |s|
  {
    if s != "" {
      OneByteLength(s[1..]);
    }
  }

  function Limited(s: string): string {
    if |s| <= STREAM_MAX_CHARS then s else s[..STREAM_MAX_CHARS]
  }

  lemma {:induction false} PrefixIsNoLonger(a: string, b: string)
    requires a <= b
    ensures ByteLength(a) <= ByteLength(b)
  {
    ByteLengthConcat(a, b[|a|..]);
    assert a + b[|a|..] == b;
  }

  /** What is kept of `s` depends on how it was cut into tokens. */
  ghost predicate ChunkingMatters(s: string) {
    exists one: seq<Write>, two: seq<Write> ::
      Sent(one) == s && Sent(two) == s && Replay(one).content != Replay(two).content
  }

  /** The byte limit is already reached before the last of the characters the limit allows. */
  predicate FullEarly(s: string) {
    s != "" && ByteLength(Limited(s)[..|Limited(s)| - 1]) >= STREAM_MAX_CHARS
  }

  ghost predicate Keeps(writes: seq<Write>, s: string) {
    Sent(writes) == s ==> Replay(writes).content == Limited(s)
  }

  ghost predicate AlwaysLimited(s: string) {
    forall writes :: Keeps(writes, s)
  }

  /** Unless the buffer is full early, exactly the first 100,000 characters are kept. */
  lemma KeptIsLimited(writes: seq<Write>)
    requires !FullEarly(Sent(writes))
    ensures Replay(writes).content == Limited(Sent(writes))
  {
    var s, content := Sent(writes), Replay(writes).content;
    ContentIsBoundedPrefix(writes);
    assert content <= Limited(s);
    if content != Limited(s) {
      PrefixIsNoLonger(content, Limited(s)[..|Limited(s)| - 1]);
    }
  }

  lemma TwoTokens(a: string, b: string)
    ensures Sent([Append(a), Append(b)]) == a + b
    ensures Replay([Append(a), Append(b)]).content == Appended(Appended("", a), b)
  {
    var two := [Append(a), Append(b)];
    assert two[..1] == [Append(a)] && [Append(a)][..0] == [];
    assert Sent([Append(a)]) == "" + a == a;
    assert Replay([Append(a)]).content == Appended("", a);
  }

  lemma OneToken(s: string)
    ensures Sent([Append(s)]) == s && Replay([Append(s)]).content == Limited(s)
  {
    assert [Append(s)][..0] == [];
    assert Sent([Append(s)]) == "" + s == s;
    assert Appended("", s) == if s == "" then "" else "" + Sliced(s, STREAM_MAX_CHARS);
  }

  lemma FullHeadKeepsNoTail(head: string, tail: string)
    requires |head| <= STREAM_MAX_CHARS <= ByteLength(head)
    ensures Replay([Append(head), Append(tail)]).content == head
  {
    TwoTokens(head, tail);
    OneToken(head);
    assert [Append(head)][..0] == [];
  }

  lemma SplitLoses(s: string, head: string, tail: string)
    requires head + tail == s && |head| < |Limited(s)| && ByteLength(head) >= STREAM_MAX_CHARS
    ensures ChunkingMatters(s)
  {
    OneToken(s);
    TwoTokens(head, tail);
    FullHeadKeepsNoTail(head, tail);
    assert Sent([Append(s)]) == s && Sent([Append(head), Append(tail)]) == s;
  }

  lemma LimitedHead(s: string, n: nat)
    requires n <= |Limited(s)|
    ensures n <= |s| && s[..n] == Limited(s)[..n] && s[..n] + s[n..] == s
  {
  }

  /** One token keeps the first 100,000 characters; the cut before the last of them keeps less. */
  lemma EarlyCutLoses(s: string)
    requires FullEarly(s)
    ensures ChunkingMatters(s)
  {
    var n := |Limited(s)| - 1;
    LimitedHead(s, n);
    SplitLoses(s, s[..n], s[n..]);
  }

  /** The exact texts for which the tokens matter; for all others the limit is the first 100,000
      characters, however the text was cut. */
  lemma ChunkingMattersExactly(s: string)
    ensures ChunkingMatters(s) <==> FullEarly(s)
    ensures AlwaysLimited(s) <==> !FullEarly(s)
  {
    if FullEarly(s) {
      EarlyCutLoses(s);
      var one, two :| Sent(one) == s && Sent(two) == s && Replay(one).content != Replay(two).content;
      assert !(Keeps(one, s) && Keeps(two, s));
    } else {
      forall writes ensures Keeps(writes, s) {
        if Sent(writes) == s {
          KeptIsLimited(writes);
        }
      }
      forall one, two | Sent(one) == s && Sent(two) == s ensures Replay(one).content == Replay(two).content {
        assert Keeps(one, s) && Keeps(two, s);
      }
    }
  }

  /** For one-byte text the limit is exactly the first 100,000 characters, however it was chunked. */
  lemma OneByteTextIsLimitedExactly(writes: seq<Write>)
    requires OneByte(Sent(writes))
    ensures Replay(writes).content == Limited(Sent(writes))
  {
    var s := Sent(writes);
    if s != "" {
      OneByteLength(Limited(s)[..|Limited(s)| - 1]);
    }
    KeptIsLimited(writes);
  }

  /** A wide character (the letter "e" with an acute accent takes two bytes). */
  const WIDE: char := '\U{00E9}'
  const EMOJI: char := '\U{1F600}'

  lemma {:induction false} UniformLength(c: char, n: nat)
    ensures ByteLength(seq(n, _ => c)) == n * Utf8Width(c)
  {
    if n > 0 {
      assert seq(n, _ => c)[1..] == seq(n - 1, _ => c);
      UniformLength(c, n - 1);
    }
  }

  /** The byte bound is reached: one token of four-byte characters stores 400,000 bytes. */
  lemma ByteBoundIsTight()
    ensures var writes := [Append(seq(STREAM_MAX_CHARS, _ => EMOJI))];
            ByteLength(Replay(writes).content) == 4 * STREAM_MAX_CHARS
  {
    var token := seq(STREAM_MAX_CHARS, _ => EMOJI);
    assert [Append(token)][..0] == [];
    assert Replay([Append(token)]) == Written(Replay([]), Append(token));
    assert Appended("", token) == "" + token == token;
    UniformLength(EMOJI, STREAM_MAX_CHARS);
  }

  /** Two-byte text of more than half the limit is such a text. */
  lemma ChunkingMattersForWideText()
    ensures ChunkingMatters(seq(60_000, _ => WIDE))
  {
    var s := seq(60_000, _ => WIDE);
    assert Limited(s)[..|Limited(s)| - 1] == seq(59_999, _ => WIDE);
    UniformLength(WIDE, 59_999);
    EarlyCutLoses(s);
  }

  lemma NextToken(start: string, tokens: seq<string>, i: nat)
    requires i < |tokens|
    ensures start + Join(tokens[..i]) + tokens[i] == start + Join(tokens[..i + 1])
  {
    assert tokens[..i + 1][..i] == tokens[..i];
  }

  /** The two Redis keys of one generation. A missing key reads as "" or 0, so a discarded stream
      is indistinguishable from a freshly initialised one. */
  class StreamStore {
    var content: string
    var epoch: nat

    ghost function State(): Stored
      reads this
    {
      Stored(content, epoch)
    }

    constructor ()
      ensures State() == Stored("", 0)
    {
      content, epoch := "", 0;
    }

    /** `STRLEN` in one round trip, `APPEND` in the next. */
    method AppendToken(token: string)
      modifies this
      ensures State() == Written(old(State()), Append(token))
    {
      if token == "" {
        return;
      }
      var currentLength := ByteLength(content);
      var remaining := STREAM_MAX_CHARS - currentLength;
      if remaining <= 0 {
        return;
      }
      content := content + Sliced(token, remaining);
    }

    method ResetStream()
      modifies this
      ensures State() == Written(old(State()), Reset)
    {
      epoch := epoch + 1;
      content := "";
    }

    method Discard()
      modifies this
      ensures State() == Stored("", 0)
    {
      content, epoch := "", 0;
    }

    /** One producer draining a token source; a later reader sees a bounded prefix of it. */
    method AppendAll(tokens: seq<string>)
      requires Buffers(content, content)
      modifies this
      ensures epoch == old(epoch)
      ensures Buffers(content, old(content) + Join(tokens))
    {
      assert old(content) + Join(tokens[..0]) == content;
      for i := 0 to |tokens|
        invariant epoch == old(epoch)
        invariant Buffers(content, old(content) + Join(tokens[..i]))
      {
        AppendBuffers(content, old(content) + Join(tokens[..i]), tokens[i]);
        NextToken(old(content), tokens, i);
        AppendToken(tokens[i]);
      }
      assert tokens[..|tokens|] == tokens;
    }
  }
}
