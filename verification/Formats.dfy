/** The bytes of the three formats, spelt out, and the limits their readers set. */
module Formats {
  import opened ByteStrings
  import opened Clock
  import opened Numbers
  import opened Protocol
  import opened ReplyCodec
  import opened Resp
  import opened SnapshotCodec
  import opened SnapshotEntries
  import opened SnapshotFile
  import opened Values
  import opened Wire

  const EOL: Bytes := [13 as char, 10 as char]

  /** A request, as the client sends it and the log keeps it: the number of its parts, then each with its length. */
  lemma RequestLaidOut(a: Bytes, b: Bytes)
    ensures WriteArray([a, b]) ==
            "*2" + EOL + ("$" + FormatInt(|a|) + EOL + a + EOL) + ("$" + FormatInt(|b|) + EOL + b + EOL)
  {
    hide FormatInt;
    SmallNumber(2);
    assert [a, b][..1] == [a] && [a][..0] == [];
    assert WriteAll(WriteBulk, [a]) == [] + WriteBulk(a) == WriteBulk(a);
    assert WriteAll(WriteBulk, [a, b]) == WriteBulk(a) + WriteBulk(b);
    assert CRLF == EOL && ['*'] + [50 as char] == "*2";
  }

  /** Every kind of reply. */
  lemma ReplyLaidOut(msg: Bytes, n: int)
    ensures Encoded(Status(msg)) == "+" + msg + EOL && Encoded(Error(msg)) == "-" + msg + EOL
    ensures Encoded(Int(n)) == ":" + FormatInt(n) + EOL
    ensures Encoded(Bulk(msg)) == "$" + FormatInt(|msg|) + EOL + msg + EOL
    ensures Encoded(NullBulk) == "$-1" + EOL && Encoded(NullArray) == "*-1" + EOL
  {
    hide FormatInt;
    assert CRLF == EOL;
  }

  /** An array: the number of its elements, then each in order. */
  lemma ArrayLaidOut(rs: seq<Reply>, r: Reply)
    ensures Encoded(Array(rs)) == "*" + FormatInt(|rs|) + EOL + EncodedAll(rs)
    ensures EncodedAll([]) == [] && EncodedAll(rs + [r]) == EncodedAll(rs) + Encoded(r)
  {
    hide FormatInt;
    assert CRLF == EOL;
    assert (rs + [r])[..|rs|] == rs;
  }

  /** What the parsers and the reader of snapshots take at most. */
  lemma LimitsAre(part: Bytes, parts: seq<Bytes>, field: Chunk)
    ensures FitsBulk(part) <==> |part| <= 536_870_912
    ensures WithinLimits(parts) <==> 1 <= |parts| <= 1_048_576 && forall i :: 0 <= i < |parts| ==> |parts[i]| <= 536_870_912
    ensures Proper(BulkText(part), 512) <==> |part| <= 536_870_912
    ensures !Proper(NilBulk, 513)
    ensures FitsField(field) <==> |field| <= 67_108_864
    ensures FitsList(parts) <==> |parts| <= 1_048_576 && forall i :: 0 <= i < |parts| ==> |parts[i]| <= 67_108_864
  {
    assert WithinLimits(parts) ==> forall i :: 0 <= i < |parts| ==> FitsBulk(parts[i]);
  }

  /** Lengths and counts in a snapshot: eight bytes, the least significant first. */
  lemma {:induction false} LittleAt(n: nat, k: nat, i: nat)
    requires i < k
    ensures Pow256(i) > 0 && Little(n, k)[i] as int == n / Pow256(i) % 256
    decreases i
  {
    if i > 0 {
      LittleAt(n / 256, k - 1, i - 1);
      DivideByProduct(n, 256, Pow256(i - 1));
    }
  }

  /** A signed integer is there in two's complement. */
  lemma SignedAt(n: int, i: nat)
    requires FitsInt64(n) && i < 8
    ensures var m := if n < 0 then n + 0x1_0000_0000_0000_0000 else n;
            Pow256(i) > 0 && I64(n)[i] as int == m / Pow256(i) % 256
  {
    LittleAt(if n < 0 then n + TWO_64 else n, 8, i);
  }

  /** A deadline is nanoseconds since 1970, and 0 where there is none. */
  lemma DeadlineAs(t: Time)
    ensures NanosOf(-62_135_596_800 * 1_000_000_000) == 0
    ensures 0 < t < TWO_63 ==> NanosOf(t) == t && TimeOf(t) == t
    ensures TimeOf(0) == -62_135_596_800 * 1_000_000_000
  {
  }

  /** A snapshot's header, and an entry of each kind: its mark, its deadline, its key and its value. */
  lemma SnapshotLaidOut(key: Chunk, nanos: int, v: Chunk, w: Chunk)
    requires FitsInt64(nanos)
    ensures MAGIC == "LLAVERO" + [1 as char] && WriteRaws([]) == MAGIC + U64(0)
    ensures WriteRaw(RawOfKind('S', key, nanos, Single(v))) == ['S'] + I64(nanos) + (U64(|key|) + key) + (U64(|v|) + v)
    ensures WriteRaw(RawOfKind('L', key, nanos, Listed([v, w]))) ==
            ['L'] + I64(nanos) + (U64(|key|) + key) + (U64(2) + ((U64(|v|) + v) + (U64(|w|) + w)))
    ensures WriteRaw(RawOfKind('T', key, nanos, Listed([v]))) == ['T'] + I64(nanos) + (U64(|key|) + key) + (U64(1) + (U64(|v|) + v))
    ensures WriteRaw(RawOfKind('H', key, nanos, Paired([(v, w)]))) ==
            ['H'] + I64(nanos) + (U64(|key|) + key) + (U64(1) + ((U64(|v|) + v) + (U64(|w|) + w)))
  {
    hide U64, I64;
    assert [v, w][..1] == [v] && [v][..0] == [] && [(v, w)][..0] == [];
    assert WriteAll(WriteChunk, [v]) == [] + WriteChunk(v) == WriteChunk(v);
    assert WriteAll(WriteChunk, [v, w]) == WriteChunk(v) + WriteChunk(w);
    assert WriteAll(WritePair, [(v, w)]) == [] + WritePair((v, w)) == WritePair((v, w));
    assert MAGIC + (U64(0) + []) == MAGIC + U64(0);
  }

  /** An entry with one of the four marks and a body to match. */
  function RawOfKind(kind: byte, key: Chunk, nanos: int, body: Body): Raw
    requires FitsInt64(nanos)
    requires match body
      case Single(_) => kind == 'S'
      case Listed(items) => (kind == 'L' || kind == 'T') && |items| < 3
      case Paired(pairs) => kind == 'H' && |pairs| < 3
  {
    RawEntry(kind, nanos, key, body)
  }

  /** The marks stand for the four kinds of value. */
  lemma MarksMean(e: SnapshotEntry)
    ensures e.kind == 'S' ==> ValueOf(e) == Some(StrV(e.value))
    ensures e.kind == 'L' ==> ValueOf(e) == Some(ListV(e.list))
    ensures e.kind == 'H' ==> ValueOf(e) == Some(HashV(e.hash))
    ensures e.kind == 'T' ==> ValueOf(e) == Some(SetV(set m | m in e.members))
    ensures e.kind !in {'S', 'L', 'H', 'T'} ==> ValueOf(e) == None
  {
  }

  /** A mark, a number and the end of the line. */
  function Header(mark: byte, n: int): Bytes {
    [mark] + FormatInt(n) + EOL
  }

  lemma MarkedNumber(mark: byte, n: int, more: Bytes)
    requires mark != LF && mark != CR
    ensures var p := Line(Header(mark, n) + more);
            p.Ok? && p.rest == more && p.value != [] && p.value[0] == mark &&
            ParseInt(p.value[1..]) == if FitsInt64(n) then Some(n) else None
  {
    hide FormatInt, ParseInt, Line;
    assert EOL == CRLF;
    FormatIntClean(n);
    ParseFormatAny(n);
    MarkedLine(mark, FormatInt(n), more);
  }

  /** A request of no parts, or of too many, is refused at its header; so is a part of a length that cannot be. */
  lemma HeadersRefused(n: int, more: Bytes)
    ensures n < 1 || n > 1_048_576 ==> ParseCommand(Header('*', n) + more) == Err(Malformed)
    ensures n < 0 || n > 536_870_912 ==> Bulked(Header('$', n) + more) == Err(Malformed)
  {
    hide Header, ParseInt, Line;
    MarkedNumber('*', n, more);
    MarkedNumber('$', n, more);
  }

  /** After a part come CR and LF: any other two bytes are refused. */
  lemma EndChecked(part: Bytes, end: Bytes, more: Bytes)
    requires |part| <= 536_870_912 && |end| == 2
    ensures Bulked(Header('$', |part|) + (part + end + more)) == if end == EOL then Ok(part, more) else Err(Malformed)
  {
    hide Header, ParseInt, Line;
    var rest := part + end + more;
    MarkedNumber('$', |part|, rest);
    assert rest[..|part|] == part && rest[|part|..] == end + more;
    assert (end + more)[..2] == end && (end + more)[2..] == more;
  }

  /** The client takes any negative length for nothing, as long as it is an integer of 64 bits. */
  lemma ClientNothing(n: int, more: Bytes, depth: nat)
    requires n < 0 && depth <= 512
    ensures ReadReply(Header('$', n) + more, depth) == if n >= -0x8000_0000_0000_0000 then Ok(NilBulk, more) else Err(Malformed)
    ensures ReadReply(Header('*', n) + more, depth) == if n >= -0x8000_0000_0000_0000 then Ok(NilArray, more) else Err(Malformed)
  {
    hide Header, ParseInt, Line, ReadReplies;
    MarkedNumber('$', n, more);
    MarkedNumber('*', n, more);
  }

  /** The client does not look at the two bytes after a text. */
  lemma ClientSkipsEnd(part: Bytes, end: Bytes, more: Bytes, depth: nat)
    requires depth <= 512 && |part| <= 536_870_912 && |end| == 2
    ensures ReadReply(Header('$', |part|) + (part + end + more), depth) == Ok(BulkText(part), more)
  {
    hide Header, ParseInt, Line, ReadReplies;
    var rest := part + end + more;
    MarkedNumber('$', |part|, rest);
    assert rest[..|part|] == part && rest[|part|..] == end + more;
    assert (end + more)[2..] == more;
  }

  function Returns(k: nat): Bytes {
    seq(k, i => 13 as char)
  }

  /** A line ends at its LF, with or without CRs before it. */
  lemma LineEnds(text: Bytes, k: nat, more: Bytes)
    requires OneLine(text)
    ensures Line(text + Returns(k) + [10 as char] + more) == Ok(text, more)
  {
    hide TrimEol;
    var line := text + Returns(k) + [10 as char];
    var s := line + more;
    FirstLfIs(s, |text| + k);
    assert s[..|line|] == line && s[|line|..] == more;
    assert line[..|line| - 1] == text + Returns(k);
    TrimLast(line);
    ReturnsTrimmed(text, k);
  }

  lemma {:induction false} ReturnsTrimmed(text: Bytes, k: nat)
    requires OneLine(text)
    ensures TrimEol(text + Returns(k)) == text
  {
    hide TrimEol;
    if k == 0 {
      assert text + Returns(0) == text;
      TrimNothing(text);
    } else {
      var line := text + Returns(k);
      assert line[..|line| - 1] == text + Returns(k - 1);
      TrimLast(line);
      ReturnsTrimmed(text, k - 1);
    }
  }
}
