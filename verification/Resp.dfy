/** RESP2 requests: how the server parses a command, and how the log and the command line client write one. */
module Resp {
  import opened ByteStrings
  import opened Numbers
  import opened Protocol
  import opened Wire

  const MAX_ARGS: int := 1024 * 1024
  const MAX_BULK: int := 512 * 1024 * 1024

  /** `readBulkCRLF`: $len, the bytes, and a CRLF that is checked. */
  function Bulked(s: Bytes): (p: Parsed<Bytes>)
    ensures p.Ok? ==> |p.rest| < |s|
  {
    var header := Line(s);
    if header.Err? then Err(header.fault)
    else
      var line := header.value;
      if line == [] || line[0] != '$' then Err(Malformed)
      else
        var n := ParseInt(line[1..]);
        if n.None? || n.value < 0 || n.value > MAX_BULK then Err(Malformed)
        else
          var body := Block(header.rest, n.value);
          if body.Err? then Err(body.fault)
          else
            var end := Block(body.rest, 2);
            if end.Err? then Err(end.fault)
            else if end.value != CRLF then Err(Malformed)
            else Ok(body.value, end.rest)
  }

  predicate IsSpace(c: byte) {
    c == ' ' || '\t' <= c <= '\r'
  }

  function WordEnd(s: Bytes): (i: nat)
    ensures i <= |s|
    ensures s != [] && !IsSpace(s[0]) ==> i > 0
  {
    if s == [] || IsSpace(s[0]) then 0 else 1 + WordEnd(s[1..])
  }

  /** `strings.Fields` on ASCII text. */
  function Words(s: Bytes): seq<Bytes>
    decreases |s|
  {
    if s == [] then []
    else if IsSpace(s[0]) then Words(s[1..])
    else [s[..WordEnd(s)]] + Words(s[WordEnd(s)..])
  }

  /** `parseInline` */
  function Inline(line: Bytes): Option<Command> {
    if line == [] || line[0] in {'$', '+', '-', ':'} then None
    else
      var words := Words(line);
      if words == [] then None else Some(Command(Upper(words[0]), words[1..]))
  }

  /** The parts announced by an array header. */
  function ArrayParts(s: Bytes, count: Option<int>): (p: Parsed<Command>)
    ensures p.Ok? ==> |p.rest| <= |s|
  {
    if count.None? || count.value < 1 || count.value > MAX_ARGS then Err(Malformed)
    else
      RepeatShrinks(Bulked, s, count.value);
      var parts := Repeat(Bulked, s, count.value);
      if parts.Err? then Err(parts.fault)
      else Ok(Command(Upper(parts.value[0]), parts.value[1..]), parts.rest)
  }

  /** `RESP.Parse` */
  function ParseCommand(s: Bytes): (p: Parsed<Command>)
    ensures p.Ok? ==> |p.rest| < |s|
  {
    var header := Line(s);
    if header.Err? then Err(header.fault)
    else
      var line := header.value;
      if line == [] || line[0] != '*' then
        var cmd := Inline(line);
        if cmd.None? then Err(Malformed) else Ok(cmd.value, header.rest)
      else ArrayParts(header.rest, ParseInt(line[1..]))
  }

  method ReadBulk(reader: Reader) returns (r: Result<Bytes>)
    modifies reader
    ensures reader.Follows(Bulked(old(reader.unread)), r)
  {
    var header := reader.ReadLine();
    if header.Failure? { return Failure(header.fault); }
    var line := header.value;
    if line == [] || line[0] != '$' { return Failure(Malformed); }
    var n := ParseInt(line[1..]);
    if n.None? || n.value < 0 || n.value > MAX_BULK { return Failure(Malformed); }
    var body := reader.ReadFull(n.value);
    if body.Failure? { return Failure(body.fault); }
    var end := reader.ReadFull(2);
    if end.Failure? { return Failure(end.fault); }
    if end.value != CRLF { return Failure(Malformed); }
    r := body;
  }

  method Parse(reader: Reader) returns (r: Result<Command>)
    modifies reader
    ensures reader.Follows(ParseCommand(old(reader.unread)), r)
  {
    hide Line, Bulked, ParseInt, Inline, Upper;
    var header := reader.ReadLine();
    if header.Failure? { return Failure(header.fault); }
    var line := header.value;
    if line == [] || line[0] != '*' {
      var cmd := Inline(line);
      return if cmd.None? then Failure(Malformed) else Success(cmd.value);
    }
    var n := ParseInt(line[1..]);
    if n.None? || n.value < 1 || n.value > MAX_ARGS { return Failure(Malformed); }
    var parts := ReadParts(reader, n.value);
    if parts.Failure? { return Failure(parts.fault); }
    r := Success(Command(Upper(parts.value[0]), parts.value[1..]));
  }

  /** The loop of `Parse` over the parts announced. */
  method ReadParts(reader: Reader, n: nat) returns (r: Result<seq<Bytes>>)
    modifies reader
    ensures reader.Follows(Repeat(Bulked, old(reader.unread), n), r)
    ensures r.Success? ==> |r.value| == n
  {
    hide Bulked;
    ghost var body := reader.unread;
    var parts: seq<Bytes> := [];
    for i := 0 to n
      invariant Repeat(Bulked, body, i) == Ok(parts, reader.unread)
    {
      var part := ReadBulk(reader);
      if part.Failure? {
        RepeatFault(Bulked, body, i + 1, n);
        return Failure(part.fault);
      }
      parts := parts + [part.value];
    }
    r := Success(parts);
  }

  lemma BulkedExtends(s: Bytes, more: Bytes)
    requires !Starved(Bulked(s))
    ensures Bulked(s + more) == Extended(Bulked(s), more)
  {
    LineExtends(s, more);
    var header := Line(s);
    var line := header.value;
    if line != [] && line[0] == '$' {
      var n := ParseInt(line[1..]);
      if n.Some? && 0 <= n.value <= MAX_BULK {
        BlockExtends(header.rest, n.value, more);
        BlockExtends(Block(header.rest, n.value).rest, 2, more);
      }
    }
  }

  lemma BulkedDecisive()
    ensures Decisive(Bulked)
  {
    forall s: Bytes, more: Bytes | !Starved(Bulked(s))
      ensures Bulked(s + more) == Extended(Bulked(s), more)
    {
      BulkedExtends(s, more);
    }
  }

  lemma ArrayPartsExtends(s: Bytes, count: Option<int>, more: Bytes)
    requires !Starved(ArrayParts(s, count))
    ensures ArrayParts(s + more, count) == Extended(ArrayParts(s, count), more)
  {
    if count.Some? && 1 <= count.value <= MAX_ARGS {
      BulkedDecisive();
      RepeatExtends(Bulked, s, count.value, more);
    }
  }

  /** The parser never changes its mind: a verdict reached on some bytes stands whatever follows them. */
  lemma ParseExtends(s: Bytes, more: Bytes)
    requires !Starved(ParseCommand(s))
    ensures ParseCommand(s + more) == Extended(ParseCommand(s), more)
  {
    LineExtends(s, more);
    var header := Line(s);
    if header.value != [] && header.value[0] == '*' {
      ArrayPartsExtends(header.rest, ParseInt(header.value[1..]), more);
    }
  }

  lemma ParseDecisive()
    ensures Decisive(ParseCommand)
  {
    forall s: Bytes, more: Bytes | !Starved(ParseCommand(s))
      ensures ParseCommand(s + more) == Extended(ParseCommand(s), more)
    {
      ParseExtends(s, more);
    }
  }

  function WriteBulk(part: Bytes): Bytes {
    ['$'] + FormatInt(|part|) + CRLF + part + CRLF
  }

  /** The client's `writeCommand`, and the body of the log's `EncodeCommand`. */
  function WriteArray(parts: seq<Bytes>): Bytes {
    ['*'] + FormatInt(|parts|) + CRLF + WriteAll(WriteBulk, parts)
  }

  method WritePart(w: Writer, part: Bytes)
    modifies w
    ensures w.out == old(w.out) + WriteBulk(part)
  {
    w.Write(['$'] + FormatInt(|part|) + CRLF);
    w.Write(part);
    w.Write(CRLF);
  }

  method WriteEach(w: Writer, parts: seq<Bytes>)
    modifies w
    ensures w.out == old(w.out) + WriteAll(WriteBulk, parts)
  {
    for i := 0 to |parts|
      invariant w.out == old(w.out) + WriteAll(WriteBulk, parts[..i])
    {
      WritePart(w, parts[i]);
      WriteAllStep(WriteBulk, parts, i, old(w.out));
    }
    assert parts[..|parts|] == parts;
  }

  /** The client's `writeCommand`; the log writes a command's upper-cased name and arguments in the same way. */
  method WriteCommand(w: Writer, parts: seq<Bytes>)
    modifies w
    ensures w.out == old(w.out) + if parts == [] then [] else WriteArray(parts)
  {
    hide FormatInt, WriteAll, WriteBulk;
    if |parts| == 0 { return; }
    w.Write(['*'] + FormatInt(|parts|) + CRLF);
    WriteEach(w, parts);
  }

  predicate FitsBulk(part: Bytes) {
    |part| <= MAX_BULK
  }

  predicate WithinLimits(parts: seq<Bytes>) {
    1 <= |parts| <= MAX_ARGS && All(FitsBulk, parts)
  }

  /** A length line, and the number it carries. */
  lemma HeaderLine(mark: byte, n: nat, more: Bytes)
    requires mark != LF && mark != CR
    ensures var p := Line([mark] + FormatInt(n) + CRLF + more);
            p.Ok? && p.rest == more && p.value != [] && p.value[0] == mark &&
            ParseInt(p.value[1..]) == if FitsInt64(n) then Some(n) else None
  {
    FormatIntClean(n);
    ParseFormatAny(n);
    MarkedLine(mark, FormatInt(n), more);
  }

  lemma MarkedLine(mark: byte, text: Bytes, more: Bytes)
    requires mark != LF && mark != CR && LF !in text && CR !in text
    ensures Line([mark] + text + CRLF + more) == Ok([mark] + text, more) && ([mark] + text)[1..] == text
  {
    LineOf([mark] + text, more);
  }

  lemma BodyBack(part: Bytes, more: Bytes)
    ensures Block(part + CRLF + more, |part|) == Ok(part, CRLF + more)
    ensures Block(CRLF + more, 2) == Ok(CRLF, more)
  {
    assert (part + CRLF + more)[..|part|] == part && (part + CRLF + more)[|part|..] == CRLF + more;
    assert (CRLF + more)[..2] == CRLF && (CRLF + more)[2..] == more;
  }

  lemma BulkShape(part: Bytes, more: Bytes)
    ensures WriteBulk(part) + more == ['$'] + FormatInt(|part|) + CRLF + (part + CRLF + more)
  {
  }

  /** A bulk within the limit reads back; a longer one is refused. */
  lemma BulkBack(part: Bytes, more: Bytes)
    ensures Bulked(WriteBulk(part) + more) == if FitsBulk(part) then Ok(part, more) else Err(Malformed)
  {
    BulkShape(part, more);
    HeaderLine('$', |part|, part + CRLF + more);
    BodyBack(part, more);
  }

  lemma BulkedUndoes()
    ensures Undoes(Bulked, WriteBulk, FitsBulk)
  {
    forall part: Bytes, more: Bytes
      ensures Bulked(WriteBulk(part) + more) == if FitsBulk(part) then Ok(part, more) else Err(Malformed)
    {
      BulkBack(part, more);
    }
  }

  lemma ArrayPartsBack(parts: seq<Bytes>, more: Bytes)
    requires parts != []
    ensures ArrayParts(WriteAll(WriteBulk, parts) + more, if FitsInt64(|parts|) then Some(|parts|) else None) ==
            if WithinLimits(parts) then Ok(Command(Upper(parts[0]), parts[1..]), more) else Err(Malformed)
  {
    BulkedUndoes();
    RepeatBack(Bulked, WriteBulk, FitsBulk, parts, more);
  }

  /** The header line of an array, and everything after it. */
  lemma ArrayHeader(parts: seq<Bytes>, more: Bytes)
    ensures var p := Line(WriteArray(parts) + more);
            p.Ok? && p.rest == WriteAll(WriteBulk, parts) + more && p.value != [] && p.value[0] == '*' &&
            ParseInt(p.value[1..]) == if FitsInt64(|parts|) then Some(|parts|) else None
  {
    Regroup(['*'], FormatInt(|parts|), CRLF, WriteAll(WriteBulk, parts), more);
    HeaderLine('*', |parts|, WriteAll(WriteBulk, parts) + more);
  }

  /**
   What the client writes, the server reads: the same words, the first one in upper case, and nothing of what
   follows. It does so exactly within the limits, and refuses everything beyond them.
   */
  lemma CommandBack(parts: seq<Bytes>, more: Bytes)
    requires parts != []
    ensures ParseCommand(WriteArray(parts) + more) ==
            if WithinLimits(parts) then Ok(Command(Upper(parts[0]), parts[1..]), more) else Err(Malformed)
  {
    ArrayHeader(parts, more);
    ArrayPartsBack(parts, more);
  }

  lemma BulkedFits(s: Bytes)
    ensures Bulked(s).Ok? ==> FitsBulk(Bulked(s).value)
  {
  }

  lemma {:induction false} PartsFitBulk(s: Bytes, n: nat)
    ensures Repeat(Bulked, s, n).Ok? ==> All(FitsBulk, Repeat(Bulked, s, n).value)
    decreases n
  {
    hide Bulked, FitsBulk;
    if n > 0 {
      PartsFitBulk(s, n - 1);
      var front := Repeat(Bulked, s, n - 1);
      if front.Ok? {
        BulkedFits(front.rest);
      }
    }
  }

  /** A command that came as an array is within the parser's limits. */
  lemma ArrayCommandFits(s: Bytes)
    requires ParseCommand(s).Ok? && Line(s).value != [] && Line(s).value[0] == '*'
    ensures var c := ParseCommand(s).value; WithinLimits([c.name] + c.args)
  {
    var body, n := Line(s).rest, ParseInt(Line(s).value[1..]).value;
    PartsFitBulk(body, n);
    var parts := Repeat(Bulked, body, n).value;
    var c := ParseCommand(s).value;
    assert c.name == Upper(parts[0]) && |c.name| == |parts[0]|;
    forall i | 0 <= i < |[c.name] + c.args|
      ensures FitsBulk(([c.name] + c.args)[i])
    {
      assert FitsBulk(parts[i]);
    }
  }

  lemma {:induction false} OneWord(w: Bytes)
    requires forall i :: 0 <= i < |w| ==> !IsSpace(w[i])
    ensures WordEnd(w) == |w| && (w != [] ==> Words(w) == [w])
    decreases |w|
  {
    if w != [] {
      OneWord(w[1..]);
      assert w[..|w|] == w && w[|w|..] == [];
    }
  }

  lemma FirstWord(name: Bytes, w: Bytes)
    requires name != [] && w != [] && forall i :: 0 <= i < |name| ==> !IsSpace(name[i])
    requires forall i :: 0 <= i < |w| ==> !IsSpace(w[i])
    ensures Words(name + [' '] + w) == [name, w]
  {
    var line := name + [' '] + w;
    WordStops(name, [' '] + w);
    assert line == name + ([' '] + w);
    assert line[..|name|] == name && line[|name|..] == [' '] + w;
    assert ([' '] + w)[1..] == w;
    OneWord(w);
    assert Words(line) == [name] + Words([' '] + w);
    assert Words([' '] + w) == Words(w);
  }

  lemma {:induction false} WordStops(name: Bytes, rest: Bytes)
    requires forall i :: 0 <= i < |name| ==> !IsSpace(name[i])
    requires rest != [] && IsSpace(rest[0])
    ensures WordEnd(name + rest) == |name|
    decreases |name|
  {
    if name == [] {
      assert name + rest == rest;
    } else {
      WordStops(name[1..], rest);
      assert (name + rest)[1..] == name[1..] + rest;
    }
  }

  /** An inline command may exceed them: a line is read whatever its length. */
  lemma InlineUnlimited(w: Bytes, more: Bytes)
    requires w != [] && forall i :: 0 <= i < |w| ==> !IsSpace(w[i])
    ensures ParseCommand("DEL" + [' '] + w + CRLF + more) == Ok(Command("DEL", [w]), more)
  {
    var line := "DEL" + [' '] + w;
    forall i | 0 <= i < |line|
      ensures line[i] != LF
    {
      assert i >= 4 ==> line[i] == w[i - 4];
    }
    assert line[|line| - 1] == w[|w| - 1];
    LineOf(line, more);
    FirstWord("DEL", w);
    assert Upper("DEL") == "DEL" && ["DEL", w][1..] == [w];
  }
}
