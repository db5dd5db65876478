/** Replies across two programs: how the server writes one, and how the command line client reads it. */
module ReplyCodec {
  import opened ByteStrings
  import opened Clock
  import opened Commands
  import opened Numbers
  import opened Protocol
  import opened Resp
  import opened Wire

  const MAX_DEPTH: nat := 512

  /** A reply as the client holds it; an integer stays text. */
  datatype ClientReply =
    | StatusText(text: Bytes)
    | ErrorText(text: Bytes)
    | IntText(text: Bytes)
    | BulkText(text: Bytes)
    | NilBulk
    | Items(items: seq<ClientReply>)
    | NilArray

  /** The bytes of a reply. */
  function Encoded(r: Reply): (s: Bytes) {
    match r
    case Status(msg) => ['+'] + msg + CRLF
    case Error(msg) => ['-'] + msg + CRLF
    case Int(n) => [':'] + FormatInt(n) + CRLF
    case Bulk(value) => WriteBulk(value)
    case NullBulk => "$-1" + CRLF
    case Array(elems) => ['*'] + FormatInt(|elems|) + CRLF + EncodedAll(elems)
    case NullArray => "*-1" + CRLF
  }

  function EncodedAll(rs: seq<Reply>): Bytes {
    if rs == [] then [] else EncodedAll(rs[..|rs| - 1]) + Encoded(rs[|rs| - 1])
  }

  /** What the client is meant to see of a reply. */
  function Seen(r: Reply): ClientReply {
    match r
    case Status(msg) => StatusText(msg)
    case Error(msg) => ErrorText(msg)
    case Int(n) => IntText(FormatInt(n))
    case Bulk(value) => BulkText(value)
    case NullBulk => NilBulk
    case Array(elems) => Items(SeenAll(elems))
    case NullArray => NilArray
  }

  function SeenAll(rs: seq<Reply>): (cs: seq<ClientReply>)
    ensures |cs| == |rs|
  {
    if rs == [] then [] else SeenAll(rs[..|rs| - 1]) + [Seen(rs[|rs| - 1])]
  }

  /** The body of a bulk; the two bytes after it are skipped unread. */
  function BulkBody(s: Bytes, n: int): Parsed<ClientReply> {
    if n < 0 then Ok(NilBulk, s)
    else if n > MAX_BULK then Err(Malformed)
    else
      var body := Block(s, n);
      if body.Err? then Err(body.fault)
      else if |body.rest| < 2 then Err(Eof)
      else Ok(BulkText(body.value), body.rest[2..])
  }

  /** `readReplyDepth` */
  function ReadReply(s: Bytes, depth: nat): Parsed<ClientReply>
    requires depth <= MAX_DEPTH + 1
    decreases MAX_DEPTH + 1 - depth, 0, 0
  {
    if depth > MAX_DEPTH then Err(Malformed)
    else
      var header := Line(s);
      if header.Err? then Err(header.fault)
      else if header.value == [] then Err(Malformed)
      else
        var mark, text := header.value[0], header.value[1..];
        if mark == '+' then Ok(StatusText(text), header.rest)
        else if mark == '-' then Ok(ErrorText(text), header.rest)
        else if mark == ':' then Ok(IntText(text), header.rest)
        else if mark == '$' then
          var n := ParseInt(text);
          if n.None? then Err(Malformed) else BulkBody(header.rest, n.value)
        else if mark == '*' then
          var n := ParseInt(text);
          if n.None? then Err(Malformed)
          else if n.value < 0 then Ok(NilArray, header.rest)
          else
            var items := ReadReplies(header.rest, n.value, depth + 1);
            if items.Err? then Err(items.fault) else Ok(Items(items.value), items.rest)
        else Err(Malformed)
  }

  /** The elements of an array, one level deeper. */
  function ReadReplies(s: Bytes, n: nat, depth: nat): (p: Parsed<seq<ClientReply>>)
    requires depth <= MAX_DEPTH + 1
    ensures p.Ok? ==> |p.value| == n
    decreases MAX_DEPTH + 1 - depth, 1, n
  {
    if n == 0 then Ok([], s)
    else
      var front := ReadReplies(s, n - 1, depth);
      if front.Err? then Err(front.fault)
      else
        var last := ReadReply(front.rest, depth);
        if last.Err? then Err(last.fault) else Ok(front.value + [last.value], last.rest)
  }

  lemma {:induction false} RepliesFault(s: Bytes, i: nat, n: nat, depth: nat)
    requires depth <= MAX_DEPTH + 1 && i <= n && ReadReplies(s, i, depth).Err?
    ensures ReadReplies(s, n, depth) == ReadReplies(s, i, depth)
    decreases n
  {
    if i < n {
      RepliesFault(s, i, n - 1, depth);
    }
  }

  method ReadReplyDepth(reader: Reader, depth: nat) returns (r: Result<ClientReply>)
    requires depth <= MAX_DEPTH + 1
    modifies reader
    ensures reader.Follows(ReadReply(old(reader.unread), depth), r)
    decreases MAX_DEPTH + 1 - depth, 0
  {
    hide Line, ParseInt, BulkBody, ReadReplies;
    if depth > MAX_DEPTH { return Failure(Malformed); }
    var header := reader.ReadLine();
    if header.Failure? { return Failure(header.fault); }
    var line := header.value;
    if line == [] { return Failure(Malformed); }
    if line[0] == '+' { return Success(StatusText(line[1..])); }
    if line[0] == '-' { return Success(ErrorText(line[1..])); }
    if line[0] == ':' { return Success(IntText(line[1..])); }
    if line[0] != '$' && line[0] != '*' { return Failure(Malformed); }
    var n := ParseInt(line[1..]);
    if n.None? { return Failure(Malformed); }
    if line[0] == '$' {
      r := ReadBody(reader, n.value);
      return;
    }
    if n.value < 0 { return Success(NilArray); }
    var items := ReadItems(reader, n.value, depth + 1);
    r := if items.Failure? then Failure(items.fault) else Success(Items(items.value));
  }

  method ReadItems(reader: Reader, n: nat, depth: nat) returns (r: Result<seq<ClientReply>>)
    requires depth <= MAX_DEPTH + 1
    modifies reader
    ensures reader.Follows(ReadReplies(old(reader.unread), n, depth), r)
    decreases MAX_DEPTH + 1 - depth, 1
  {
    hide ReadReply;
    ghost var start := reader.unread;
    var items: seq<ClientReply> := [];
    for i := 0 to n
      invariant ReadReplies(start, i, depth) == Ok(items, reader.unread)
    {
      var item := ReadReplyDepth(reader, depth);
      if item.Failure? {
        RepliesFault(start, i + 1, n, depth);
        return Failure(item.fault);
      }
      items := items + [item.value];
    }
    r := Success(items);
  }

  method ReadBody(reader: Reader, n: int) returns (r: Result<ClientReply>)
    modifies reader
    ensures reader.Follows(BulkBody(old(reader.unread), n), r)
  {
    if n < 0 { return Success(NilBulk); }
    if n > MAX_BULK { return Failure(Malformed); }
    var body := reader.ReadFull(n);
    if body.Failure? { return Failure(body.fault); }
    if |reader.unread| < 2 { return Failure(Eof); }
    var end := reader.ReadFull(2);
    r := Success(BulkText(body.value));
  }

  /** `RESP.Encode` */
  method Encode(w: Writer, r: Reply)
    modifies w
    ensures w.out == old(w.out) + Encoded(r)
    decreases r
  {
    hide FormatInt, WriteBulk, EncodedAll;
    match r
    case Status(msg) => w.Write(['+'] + msg + CRLF);
    case Error(msg) => w.Write(['-'] + msg + CRLF);
    case Int(n) => w.Write([':'] + FormatInt(n) + CRLF);
    case Bulk(value) => WritePart(w, value);
    case NullBulk => w.Write("$-1" + CRLF);
    case NullArray => w.Write("*-1" + CRLF);
    case Array(elems) =>
      w.Write(['*'] + FormatInt(|elems|) + CRLF);
      EncodeElements(w, elems);
  }

  method EncodeElements(w: Writer, elems: seq<Reply>)
    modifies w
    ensures w.out == old(w.out) + EncodedAll(elems)
    decreases elems
  {
    hide Encoded;
    for i := 0 to |elems|
      invariant w.out == old(w.out) + EncodedAll(elems[..i])
    {
      assert elems[..i + 1][..i] == elems[..i];
      Encode(w, elems[i]);
    }
    assert elems[..|elems|] == elems;
  }

  /** What the client can hold at a depth: texts of one line, bulks within its limit, and no deeper nesting. */
  predicate Proper(c: ClientReply, depth: nat) {
    depth <= MAX_DEPTH &&
    match c
    case StatusText(text) => OneLine(text)
    case ErrorText(text) => OneLine(text)
    case IntText(text) => OneLine(text)
    case BulkText(text) => |text| <= MAX_BULK
    case NilBulk => true
    case NilArray => true
    case Items(items) => |items| <= MAX_INT64 && forall i :: 0 <= i < |items| ==> Proper(items[i], depth + 1)
  }

  lemma TextOfLine(line: Bytes)
    requires OneLine(line) && line != []
    ensures OneLine(line[1..])
  {
  }

  /** Whatever bytes it is given, the client only ever returns what it can hold. */
  lemma {:induction false} ReadsProper(s: Bytes, depth: nat)
    requires depth <= MAX_DEPTH + 1
    ensures var p := ReadReply(s, depth); p.Ok? ==> Proper(p.value, depth)
    decreases MAX_DEPTH + 1 - depth, 0, 0
  {
    hide ParseInt, OneLine;
    var header := Line(s);
    if depth <= MAX_DEPTH && header.Ok? && header.value != [] {
      LineIsOneLine(s);
      TextOfLine(header.value);
      var n := ParseInt(header.value[1..]);
      if header.value[0] == '*' && n.Some? && n.value >= 0 {
        ReadsAllProper(header.rest, n.value, depth + 1);
      }
    }
  }

  lemma {:induction false} ReadsAllProper(s: Bytes, n: nat, depth: nat)
    requires depth <= MAX_DEPTH + 1
    ensures var p := ReadReplies(s, n, depth);
            p.Ok? ==> forall i :: 0 <= i < |p.value| ==> Proper(p.value[i], depth)
    decreases MAX_DEPTH + 1 - depth, 1, n
  {
    if n > 0 {
      ReadsAllProper(s, n - 1, depth);
      var front := ReadReplies(s, n - 1, depth);
      if front.Ok? {
        ReadsProper(front.rest, depth);
      }
    }
  }

  /** A line of one text, read back. */
  lemma LineBack(mark: byte, text: Bytes, more: Bytes)
    requires mark != CR && mark != LF && OneLine(text)
    ensures Line([mark] + text + CRLF + more) == Ok([mark] + text, more) && ([mark] + text)[1..] == text
  {
    LineOf([mark] + text, more);
  }

  lemma BulkReplyBack(value: Bytes, depth: nat, more: Bytes)
    requires depth <= MAX_DEPTH && |value| <= MAX_BULK
    ensures ReadReply(WriteBulk(value) + more, depth) == Ok(BulkText(value), more)
  {
    BulkShape(value, more);
    HeaderLine('$', |value|, value + CRLF + more);
    BodyBack(value, more);
    assert (CRLF + more)[2..] == more;
  }

  lemma NilsBack(depth: nat, more: Bytes)
    requires depth <= MAX_DEPTH
    ensures ReadReply("$-1" + CRLF + more, depth) == Ok(NilBulk, more)
    ensures ReadReply("*-1" + CRLF + more, depth) == Ok(NilArray, more)
  {
    assert FormatInt(-1) == "-1";
    ParseFormat(-1);
    assert ['$'] + "-1" == "$-1" && ['*'] + "-1" == "*-1";
    LineBack('$', "-1", more);
    LineBack('*', "-1", more);
  }

  lemma {:induction false} ReplyBack(r: Reply, depth: nat, more: Bytes)
    requires Proper(Seen(r), depth)
    ensures ReadReply(Encoded(r) + more, depth) == Ok(Seen(r), more)
    decreases r
  {
    hide Line, ParseInt, FormatInt, BulkBody, WriteBulk, EncodedAll, ReadReplies, OneLine;
    match r
    case Status(msg) => LineBack('+', msg, more);
    case Error(msg) => LineBack('-', msg, more);
    case Int(n) => LineBack(':', FormatInt(n), more);
    case Bulk(value) => BulkReplyBack(value, depth, more);
    case NullBulk => NilsBack(depth, more);
    case NullArray => NilsBack(depth, more);
    case Array(elems) =>
      var body := EncodedAll(elems);
      Regroup(['*'], FormatInt(|elems|), CRLF, body, more);
      HeaderLine('*', |elems|, body + more);
      RepliesBack(elems, depth + 1, more);
  }

  lemma {:induction false} RepliesBack(rs: seq<Reply>, depth: nat, more: Bytes)
    requires depth <= MAX_DEPTH + 1 && forall i :: 0 <= i < |rs| ==> Proper(SeenAll(rs)[i], depth)
    ensures ReadReplies(EncodedAll(rs) + more, |rs|, depth) == Ok(SeenAll(rs), more)
    decreases rs
  {
    hide Encoded, ReadReply, Proper, Seen;
    if rs == [] {
      assert EncodedAll(rs) + more == more;
    } else {
      var n := |rs| - 1;
      var front, last := rs[..n], rs[n];
      assert EncodedAll(rs) + more == EncodedAll(front) + (Encoded(last) + more);
      assert SeenAll(rs)[n] == Seen(last);
      assert forall i :: 0 <= i < n ==> SeenAll(front)[i] == SeenAll(rs)[i];
      RepliesBack(front, depth, Encoded(last) + more);
      ReplyBack(last, depth, more);
    }
  }

  /**
   Server to client. Whatever follows it, a reply is read as what it says, and nothing more is consumed, exactly when
   its texts are one line each, its bulks are within the client's limit and it nests no deeper than the client goes.
   */
  lemma ReplyReadsBack(r: Reply, depth: nat, more: Bytes)
    requires depth <= MAX_DEPTH
    ensures ReadReply(Encoded(r) + more, depth) == Ok(Seen(r), more) <==> Proper(Seen(r), depth)
  {
    hide ReadReply, Encoded, Seen, Proper;
    ReadsProper(Encoded(r) + more, depth);
    if Proper(Seen(r), depth) {
      ReplyBack(r, depth, more);
    }
  }

  /**
   The name of an unknown command is quoted in its error as it came. The client reads that error back exactly when the
   name has no line feed and does not end in a carriage return; otherwise it is misled.
   */
  lemma UnknownNameMisleads(cmd: Command, now: Time, more: Bytes)
    requires VerbOf(cmd).None?
    ensures PlanOf(cmd, now).Immediate?
    ensures var r := PlanOf(cmd, now).reply; ReadReply(Encoded(r) + more, 0) == Ok(Seen(r), more) <==> OneLine(cmd.name)
  {
    hide VerbNamed, VerbPlan, ReadReply, Encoded, Text;
    var r := PlanOf(cmd, now).reply;
    var prefix := Text("ERR comando desconocido: ");
    assert r == Error(prefix + cmd.name);
    PrefixIsOneLine();
    QuotedOneLine(prefix, cmd.name);
    assert Seen(r) == ErrorText(prefix + cmd.name);
    ReplyReadsBack(r, 0, more);
  }

  lemma PrefixIsOneLine()
    ensures OneLine(Text("ERR comando desconocido: "))
  {
  }

  lemma QuotedOneLine(prefix: Bytes, name: Bytes)
    requires OneLine(prefix)
    ensures OneLine(prefix + name) <==> OneLine(name)
  {
    if name == [] {
      assert prefix + name == prefix;
    } else {
      assert (prefix + name)[|prefix + name| - 1] == name[|name| - 1];
      assert (prefix + name)[|prefix|..] == name;
      assert LF in name ==> LF in prefix + name;
    }
  }
}
