/** The text whose digest identifies a source snapshot: one `path NUL hash NUL size newline` record per file. */
module SnapshotPreimage {
  import opened Options
  import opened PythonText

  // ---------------------------------------------------------------- decimal sizes

  predicate IsDecimal(s: string) {
    s != "" && (forall i :: 0 <= i < |s| ==> IsDigit(s[i])) && (|s| > 1 ==> s[0] != '0')
  }

  function Value(s: string): nat
    requires forall i :: 0 <= i < |s| ==> IsDigit(s[i])
  {
    if s == "" then 0 else 10 * Value(s[..|s| - 1]) + DigitValue(s[|s| - 1])
  }

  lemma {:induction false} DecimalRoundTrip(n: nat)
    ensures IsDecimal(Decimal(n)) && Value(Decimal(n)) == n
    ensures n > 0 ==> Decimal(n)[0] != '0'
  {
    if n >= 10 {
      DecimalRoundTrip(n / 10);
      assert Decimal(n)[..|Decimal(n)| - 1] == Decimal(n / 10);
    } else {
      assert Decimal(n)[..0] == "";
    }
  }

  lemma {:induction false} ValuePositive(s: string)
    requires IsDecimal(s) && s[0] != '0'
    ensures Value(s) > 0
  {
    if |s| > 1 {
      ValuePositive(s[..|s| - 1]);
    } else {
      assert s[..0] == "";
    }
  }

  lemma {:induction false} ValueRoundTrip(s: string)
    requires IsDecimal(s)
    ensures Decimal(Value(s)) == s
  {
    var n := |s| - 1;
    if n == 0 {
      assert s[..0] == "" && s == [s[0]];
    } else {
      ValueRoundTrip(s[..n]);
      ValuePositive(s[..n]);
      var d := DigitValue(s[n]);
      assert Value(s) / 10 == Value(s[..n]) && Value(s) % 10 == d;
      assert s == s[..n] + [s[n]];
    }
  }

  // ---------------------------------------------------------------- records

  datatype Record = Record(path: string, hash: string, size: nat)

  const NUL: char := '\0'
  const NEWLINE: char := '\n'

  predicate IsHash(s: string) {
    |s| == 64 && forall i :: 0 <= i < 64 ==> IsDigit(s[i]) || 'a' <= s[i] <= 'f'
  }

  /** A path may hold any character but NUL, line breaks included. */
  predicate IsRecord(r: Record) {
    NUL !in r.path && IsHash(r.hash)
  }

  predicate AreRecords(records: seq<Record>) {
    forall i :: 0 <= i < |records| ==> IsRecord(records[i])
  }

  function EncodeRecord(r: Record): string {
    r.path + [NUL] + r.hash + [NUL] + Decimal(r.size) + [NEWLINE]
  }

  function Encode(records: seq<Record>): string {
    if records == [] then "" else EncodeRecord(records[0]) + Encode(records[1..])
  }

  lemma Associative(a: string, b: string, c: string)
    ensures a + (b + c) == a + b + c
  {
  }

  lemma {:induction false} EncodeAppend(a: seq<Record>, b: seq<Record>)
    ensures Encode(a + b) == Encode(a) + Encode(b)
  {
    if a == [] {
      assert a + b == b;
    } else {
      EncodeAppend(a[1..], b);
      assert (a + b)[1..] == a[1..] + b;
      Associative(EncodeRecord(a[0]), Encode(a[1..]), Encode(b));
    }
  }

  /** The loop that feeds the digest record by record and lists the records. */
  method Snapshot(files: seq<Record>) returns (fed: string, records: seq<Record>)
    ensures fed == Encode(records) && records == files
  {
    fed, records := "", [];
    for i := 0 to |files|
      invariant records == files[..i] && fed == Encode(records)
    {
      EncodeAppend(records, [files[i]]);
      assert [files[i]][1..] == [];
      fed := fed + EncodeRecord(files[i]);
      records := records + [files[i]];
    }
  }

  // ---------------------------------------------------------------- reading the text back

  /** The text before the first `c` and the text after it. */
  function Cut(s: string, c: char): (r: Option<(string, string)>)
    ensures r.Some? ==> s == r.value.0 + [c] + r.value.1 && c !in r.value.0
    ensures r.None? ==> c !in s
  {
    if s == "" then None
    else if s[0] == c then Some(("", s[1..]))
    else match Cut(s[1..], c)
      case None => None
      case Some((before, after)) => Some(([s[0]] + before, after))
  }

  lemma {:induction false} CutAt(before: string, c: char, after: string)
    requires c !in before
    ensures Cut(before + [c] + after, c) == Some((before, after))
  {
    var s := before + [c] + after;
    if before == "" {
      assert s[1..] == after;
    } else {
      CutAt(before[1..], c, after);
      assert s[1..] == before[1..] + [c] + after;
      assert before == [before[0]] + before[1..];
    }
  }

  function ParseRecord(s: string): (r: Option<(Record, string)>)
    ensures r.Some? ==> |r.value.1| < |s|
  {
    match Cut(s, NUL)
    case None => None
    case Some((path, afterPath)) =>
      match Cut(afterPath, NUL)
      case None => None
      case Some((hash, afterHash)) =>
        match Cut(afterHash, NEWLINE)
        case None => None
        case Some((size, rest)) =>
          if IsHash(hash) && IsDecimal(size) then Some((Record(path, hash, Value(size)), rest)) else None
  }

  function Parse(s: string): Option<seq<Record>>
    decreases |s|
  {
    if s == "" then Some([])
    else match ParseRecord(s)
      case None => None
      case Some((record, rest)) =>
        match Parse(rest)
        case None => None
        case Some(records) => Some([record] + records)
  }

  lemma RecordRoundTrip(r: Record, rest: string)
    requires IsRecord(r)
    ensures ParseRecord(EncodeRecord(r) + rest) == Some((r, rest))
  {
    DecimalRoundTrip(r.size);
    var afterHash := Decimal(r.size) + [NEWLINE] + rest;
    var afterPath := r.hash + [NUL] + afterHash;
    assert EncodeRecord(r) + rest == r.path + [NUL] + afterPath;
    CutAt(r.path, NUL, afterPath);
    CutAt(r.hash, NUL, afterHash);
    CutAt(Decimal(r.size), NEWLINE, rest);
  }

  lemma RecordReadsBack(s: string)
    requires ParseRecord(s).Some?
    ensures var (record, rest) := ParseRecord(s).value; IsRecord(record) && EncodeRecord(record) + rest == s
  {
    var (path, afterPath) := Cut(s, NUL).value;
    var (hash, afterHash) := Cut(afterPath, NUL).value;
    var (size, rest) := Cut(afterHash, NEWLINE).value;
    ValueRoundTrip(size);
    assert s == path + [NUL] + (hash + [NUL] + (size + [NEWLINE] + rest));
  }

  lemma ParseFirst(s: string, record: Record, rest: string)
    requires ParseRecord(s) == Some((record, rest)) && Parse(rest).Some?
    ensures Parse(s) == Some([record] + Parse(rest).value)
  {
  }

  /** Every list of records is read back from its text. */
  lemma {:induction false} ParseEncode(records: seq<Record>)
    requires AreRecords(records)
    ensures Parse(Encode(records)) == Some(records)
  {
    if records != [] {
      RecordRoundTrip(records[0], Encode(records[1..]));
      ParseEncode(records[1..]);
      ParseFirst(Encode(records), records[0], Encode(records[1..]));
      assert records == [records[0]] + records[1..];
    }
  }

  /** Every text that can be read is the text of what was read. */
  lemma {:induction false} EncodeParse(s: string)
    requires Parse(s).Some?
    ensures AreRecords(Parse(s).value) && Encode(Parse(s).value) == s
    decreases |s|
  {
    if s != "" {
      var (record, rest) := ParseRecord(s).value;
      RecordReadsBack(s);
      EncodeParse(rest);
      assert ([record] + Parse(rest).value)[1..] == Parse(rest).value;
    }
  }

  /** Different lists of files never share a preimage; none is even the beginning of another, unless the
      lists are. */
  lemma {:induction false} PreimageIsUnambiguous(a: seq<Record>, b: seq<Record>)
    requires AreRecords(a) && AreRecords(b)
    ensures Encode(a) == Encode(b) <==> a == b
    ensures Encode(a) <= Encode(b) <==> a <= b
  {
    ParseEncode(a);
    ParseEncode(b);
    if a <= b {
      EncodeAppend(a, b[|a|..]);
      assert a + b[|a|..] == b;
    }
    if Encode(a) <= Encode(b) {
      PrefixParses(a, b);
    }
  }

  lemma {:induction false} PrefixParses(a: seq<Record>, b: seq<Record>)
    requires AreRecords(a) && AreRecords(b) && Encode(a) <= Encode(b)
    ensures a <= b
  {
    if a != [] {
      var more := Encode(b)[|Encode(a)|..];
      assert Encode(b) == EncodeRecord(a[0]) + (Encode(a[1..]) + more);
      RecordRoundTrip(a[0], Encode(a[1..]) + more);
      if b != [] {
        RecordRoundTrip(b[0], Encode(b[1..]));
        PrefixParses(a[1..], b[1..]);
        assert a == [a[0]] + a[1..] && b == [b[0]] + b[1..];
      }
    }
  }

  /** Where the fields of a record stand in its text. */
  lemma RecordLayout(r: Record)
    requires IsRecord(r)
    ensures var s, p := EncodeRecord(r), |r.path|;
            && |s| == p + 67 + |Decimal(r.size)|
            && s[..p] == r.path && s[p] == '\0' && s[p + 1..p + 65] == r.hash && s[p + 65] == '\0'
            && s[p + 66..|s| - 1] == Decimal(r.size) && s[|s| - 1] == '\n'
  {
  }

  /** NUL in a path is what the format cannot bear: one file can then look like any two. */
  lemma NulInPathIsAmbiguous(a: Record, b: Record)
    requires IsRecord(a) && IsRecord(b)
    ensures Encode([a, b]) == Encode([Record(EncodeRecord(a) + b.path, b.hash, b.size)])
  {
    var joined := Record(EncodeRecord(a) + b.path, b.hash, b.size);
    assert [a, b][1..] == [b] && [b][1..] == [] && [joined][1..] == [];
    assert EncodeRecord(a) + EncodeRecord(b) == EncodeRecord(joined);
  }
}
