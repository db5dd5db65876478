/** Reading lines and blocks of bytes from a stream, as `bufio.Reader` and `io.ReadFull` do. */
module Wire {
  import opened ByteStrings

  /** The stream ended before the read began, in the middle of it, or its bytes are not what the format asks for. */
  datatype Fault = Eof | UnexpectedEof | Malformed

  /** What a read makes of the bytes ahead: a value and the bytes left, or a fault. */
  datatype Parsed<+T> = Ok(value: T, rest: Bytes) | Err(fault: Fault)

  datatype Result<+T> = Success(value: T) | Failure(fault: Fault)

  /** The read ran out of bytes; more of them could still change its mind. */
  predicate Starved<T>(p: Parsed<T>) {
    p.Err? && !p.fault.Malformed?
  }

  /** The same read with `more` bytes after the ones it was shown. */
  function Extended<T>(p: Parsed<T>, more: Bytes): Parsed<T> {
    match p
    case Ok(v, rest) => Ok(v, rest + more)
    case Err(f) => Err(f)
  }

  function FirstLf(s: Bytes): (i: nat)
    ensures i <= |s|
    ensures i < |s| ==> s[i] == LF
    ensures forall j :: 0 <= j < i ==> s[j] != LF
  {
    if s == [] || s[0] == LF then 0 else 1 + FirstLf(s[1..])
  }

  lemma FirstLfIs(s: Bytes, i: nat)
    requires i < |s| && s[i] == LF && forall j :: 0 <= j < i ==> s[j] != LF
    ensures FirstLf(s) == i
  {
  }

  /** `strings.TrimRight(line, "\r\n")` */
  function TrimEol(s: Bytes): (r: Bytes)
    ensures r <= s
    ensures r == [] || (r[|r| - 1] != CR && r[|r| - 1] != LF)
  {
    if s != [] && (s[|s| - 1] == CR || s[|s| - 1] == LF) then TrimEol(s[..|s| - 1]) else s
  }

  /** A line up to the first LF, without its terminator. */
  function Line(s: Bytes): (p: Parsed<Bytes>)
    ensures p.Ok? ==> |p.rest| < |s|
    ensures p.Err? ==> p.fault.Eof?
  {
    var i := FirstLf(s);
    if i == |s| then Err(Eof) else Ok(TrimEol(s[..i + 1]), s[i + 1..])
  }

  /** Exactly `n` bytes. */
  function Block(s: Bytes, n: nat): (p: Parsed<Bytes>)
    ensures p.Ok? ==> |p.rest| == |s| - n
  {
    if |s| < n then Err(if s == [] then Eof else UnexpectedEof) else Ok(s[..n], s[n..])
  }

  lemma LineExtends(s: Bytes, more: Bytes)
    requires !Starved(Line(s))
    ensures Line(s + more) == Extended(Line(s), more)
  {
    var i := FirstLf(s);
    FirstLfIs(s + more, i);
    assert (s + more)[..i + 1] == s[..i + 1];
    assert (s + more)[i + 1..] == s[i + 1..] + more;
  }

  lemma BlockExtends(s: Bytes, n: nat, more: Bytes)
    requires !Starved(Block(s, n))
    ensures Block(s + more, n) == Extended(Block(s, n), more)
  {
    assert (s + more)[..n] == s[..n];
    assert (s + more)[n..] == s[n..] + more;
  }

  /** A text is safe on a line when it has no LF and does not end in CR. */
  predicate OneLine(text: Bytes) {
    LF !in text && (text == [] || text[|text| - 1] != CR)
  }

  lemma LineOf(text: Bytes, more: Bytes)
    requires OneLine(text)
    ensures Line(text + CRLF + more) == Ok(text, more)
  {
    var s := text + CRLF + more;
    FirstLfIs(s, |text| + 1);
    assert s[..|text| + 2] == text + CRLF;
    TrimCrlf(text);
    assert s[|text| + 2..] == more;
  }

  lemma TrimLast(s: Bytes)
    requires s != [] && (s[|s| - 1] == CR || s[|s| - 1] == LF)
    ensures TrimEol(s) == TrimEol(s[..|s| - 1])
  {
  }

  lemma TrimNothing(s: Bytes)
    requires s == [] || (s[|s| - 1] != CR && s[|s| - 1] != LF)
    ensures TrimEol(s) == s
  {
  }

  lemma TrimCrlf(text: Bytes)
    requires text == [] || (text[|text| - 1] != CR && text[|text| - 1] != LF)
    ensures TrimEol(text + CRLF) == text
  {
    hide TrimEol;
    var line, half := text + CRLF, text + [CR];
    assert line[..|line| - 1] == half && half[..|half| - 1] == text;
    TrimLast(line);
    TrimLast(half);
    TrimNothing(text);
  }

  /** A line that is read never has what a safe text may not have. */
  lemma LineIsOneLine(s: Bytes)
    requires Line(s).Ok?
    ensures OneLine(Line(s).value)
  {
    var i := FirstLf(s);
    var line := TrimEol(s[..i + 1]);
    forall j | 0 <= j < |line|
      ensures line[j] != LF
    {
      assert line[j] == s[j] && (j < i || j == |line| - 1);
    }
  }

  /** The same read `n` times over. */
  function Repeat<T>(read: Bytes -> Parsed<T>, s: Bytes, n: nat): (p: Parsed<seq<T>>)
    ensures p.Ok? ==> |p.value| == n
    decreases n
  {
    if n == 0 then Ok([], s)
    else
      var front := Repeat(read, s, n - 1);
      if front.Err? then Err(front.fault)
      else
        var last := read(front.rest);
        if last.Err? then Err(last.fault) else Ok(front.value + [last.value], last.rest)
  }

  /** A fault in an early read is the fault of all of them. */
  lemma {:induction false} RepeatFault<T>(read: Bytes -> Parsed<T>, s: Bytes, i: nat, n: nat)
    requires i <= n && Repeat(read, s, i).Err?
    ensures Repeat(read, s, n) == Repeat(read, s, i)
    decreases n
  {
    if i < n {
      RepeatFault(read, s, i, n - 1);
    }
  }

  ghost predicate Decisive<T>(read: Bytes -> Parsed<T>) {
    forall s: Bytes, more: Bytes :: !Starved(read(s)) ==> read(s + more) == Extended(read(s), more)
  }

  lemma {:induction false} RepeatExtends<T>(read: Bytes -> Parsed<T>, s: Bytes, n: nat, more: Bytes)
    requires Decisive(read) && !Starved(Repeat(read, s, n))
    ensures Repeat(read, s + more, n) == Extended(Repeat(read, s, n), more)
    decreases n
  {
    if n > 0 {
      RepeatExtends(read, s, n - 1, more);
    }
  }

  ghost predicate Shrinking<T>(read: Bytes -> Parsed<T>) {
    forall s: Bytes :: read(s).Ok? ==> |read(s).rest| <= |s|
  }

  lemma {:induction false} RepeatShrinks<T>(read: Bytes -> Parsed<T>, s: Bytes, n: nat)
    requires Shrinking(read)
    ensures Repeat(read, s, n).Ok? ==> |Repeat(read, s, n).rest| <= |s|
    decreases n
  {
    if n > 0 {
      RepeatShrinks(read, s, n - 1);
    }
  }

  function WriteAll<T>(write: T -> Bytes, items: seq<T>): Bytes {
    if items == [] then [] else WriteAll(write, items[..|items| - 1]) + write(items[|items| - 1])
  }

  /** Writing the items one by one. */
  lemma WriteAllStep<T>(write: T -> Bytes, items: seq<T>, i: nat, before: Bytes)
    requires i < |items|
    ensures before + WriteAll(write, items[..i]) + write(items[i]) == before + WriteAll(write, items[..i + 1])
  {
    assert items[..i + 1][..i] == items[..i];
  }

  /** `read` undoes `write` on the items it accepts, and refuses the others. */
  ghost predicate Undoes<T(!new)>(read: Bytes -> Parsed<T>, write: T -> Bytes, accepts: T -> bool) {
    forall item: T, more: Bytes ::
      read(write(item) + more) == if accepts(item) then Ok(item, more) else Err(Malformed)
  }

  predicate All<T>(accepts: T -> bool, items: seq<T>) {
    forall i :: 0 <= i < |items| ==> accepts(items[i])
  }

  lemma {:induction false} RepeatBack<T(!new)>(
    read: Bytes -> Parsed<T>, write: T -> Bytes, accepts: T -> bool, items: seq<T>, more: Bytes)
    requires Undoes(read, write, accepts)
    ensures Repeat(read, WriteAll(write, items) + more, |items|) ==
            if All(accepts, items) then Ok(items, more) else Err(Malformed)
    decreases |items|
  {
    if items == [] {
      assert WriteAll(write, items) + more == more;
    } else {
      var front, last := items[..|items| - 1], items[|items| - 1];
      assert WriteAll(write, items) + more == WriteAll(write, front) + (write(last) + more);
      RepeatBack(read, write, accepts, front, write(last) + more);
      assert items == front + [last];
      assert All(accepts, items) <==> All(accepts, front) && accepts(last);
    }
  }

  /**
   Why reading record after record stopped: at the end or a torn record, at bytes that are no record, at an unwanted
   record, or in a panic over one.
   */
  datatype Verdict = Clean | Corrupt | Refused | Crashed

  ghost predicate Consuming<T>(read: Bytes -> Parsed<T>) {
    forall s: Bytes :: read(s).Ok? ==> |read(s).rest| < |s|
  }

  /** The records read, and why the reading stopped. */
  datatype Drained<T> = Drained(items: seq<T>, verdict: Verdict)

  function After<T>(front: seq<T>, d: Drained<T>): Drained<T> {
    Drained(front + d.items, d.verdict)
  }

  lemma AfterAfter<T>(a: seq<T>, b: seq<T>, d: Drained<T>)
    ensures After(a, After(b, d)) == After(a + b, d)
    ensures After([], d) == d
  {
    assert a + (b + d.items) == a + b + d.items;
    assert [] + d.items == d.items;
  }

  /** Records read and judged clean until the first that is not, or until the bytes give out. */
  function Drain<T>(read: Bytes -> Parsed<T>, judge: T -> Verdict, s: Bytes): Drained<T>
    requires Consuming(read)
    decreases |s|
  {
    match read(s)
    case Err(f) => Drained([], if f.Malformed? then Corrupt else Clean)
    case Ok(item, rest) => if !judge(item).Clean? then Drained([], judge(item)) else After([item], Drain(read, judge, rest))
  }

  /** Items that are accepted and that `read` gives back from what `write` made of them, whatever follows. */
  ghost predicate Kept<T(!new)>(read: Bytes -> Parsed<T>, judge: T -> Verdict, write: T -> Bytes, item: T) {
    judge(item).Clean? && forall more: Bytes :: read(write(item) + more) == Ok(item, more)
  }

  ghost predicate AllKept<T(!new)>(read: Bytes -> Parsed<T>, judge: T -> Verdict, write: T -> Bytes, items: seq<T>) {
    forall i :: 0 <= i < |items| ==> Kept(read, judge, write, items[i])
  }

  /** Whole records all come back, in order, and then whatever follows them. */
  lemma {:induction false} DrainWhole<T(!new)>(
    read: Bytes -> Parsed<T>, judge: T -> Verdict, write: T -> Bytes, items: seq<T>, more: Bytes)
    requires Consuming(read) && AllKept(read, judge, write, items)
    ensures Drain(read, judge, WriteAll(write, items) + more) == After(items, Drain(read, judge, more))
    decreases |items|
  {
    var rest := Drain(read, judge, more);
    if items == [] {
      assert WriteAll(write, items) + more == more;
      AfterAfter([], [], rest);
    } else {
      var front, last := items[..|items| - 1], items[|items| - 1];
      assert WriteAll(write, items) + more == WriteAll(write, front) + (write(last) + more);
      DrainWhole(read, judge, write, front, write(last) + more);
      assert Kept(read, judge, write, last);
      AfterAfter(front, [last], rest);
      assert items == front + [last];
    }
  }

  /** A record cut short is no record: the reader runs out of bytes and stops there. */
  lemma DrainTorn<T(!new)>(read: Bytes -> Parsed<T>, judge: T -> Verdict, write: T -> Bytes, item: T, torn: Bytes)
    requires Consuming(read) && Decisive(read) && Kept(read, judge, write, item) && torn < write(item)
    ensures Drain(read, judge, torn) == Drained([], Clean)
  {
    var tail := write(item)[|torn|..];
    assert torn + tail == write(item) == write(item) + [];
    assert !Starved(read(torn)) ==> read(torn + tail) == Extended(read(torn), tail);
  }

  /** How many records lie wholly within the first `k` bytes. */
  function Whole<T>(write: T -> Bytes, items: seq<T>, k: nat): (j: nat)
    ensures j <= |items|
    ensures |WriteAll(write, items[..j])| <= k
    ensures j < |items| ==> k < |WriteAll(write, items[..j + 1])|
    decreases |items|
  {
    assert items[..|items|] == items;
    if items == [] || |WriteAll(write, items)| <= k then |items|
    else
      var front := items[..|items| - 1];
      var j := Whole(write, front, k);
      assert front[..j] == items[..j] && (j < |front| ==> front[..j + 1] == items[..j + 1]);
      j
  }

  lemma {:induction false} WritePrefix<T>(write: T -> Bytes, items: seq<T>, j: nat)
    requires j <= |items|
    ensures WriteAll(write, items[..j]) <= WriteAll(write, items)
    decreases |items|
  {
    if j == |items| {
      assert items[..j] == items;
    } else {
      var front := items[..|items| - 1];
      WritePrefix(write, front, j);
      assert front[..j] == items[..j];
    }
  }

  /** The bytes before a cut: whole records, then a piece of the next one. */
  lemma CutAt<T>(write: T -> Bytes, items: seq<T>, k: nat) returns (torn: Bytes)
    requires k <= |WriteAll(write, items)|
    ensures var j := Whole(write, items, k);
            WriteAll(write, items)[..k] == WriteAll(write, items[..j]) + torn &&
            (if j == |items| then torn == [] else torn < write(items[j]))
  {
    var j := Whole(write, items, k);
    var done := WriteAll(write, items[..j]);
    if j == |items| {
      assert items[..j] == items;
      torn := [];
    } else {
      WritePrefix(write, items, j + 1);
      assert items[..j + 1][..j] == items[..j];
      assert WriteAll(write, items[..j + 1]) == done + write(items[j]);
      torn := write(items[j])[..k - |done|];
      assert WriteAll(write, items)[..k] == WriteAll(write, items[..j + 1])[..k] == done + torn;
    }
  }

  /** A file of records cut at any byte gives back exactly the records wholly before the cut. */
  lemma DrainCut<T(!new)>(read: Bytes -> Parsed<T>, judge: T -> Verdict, write: T -> Bytes, items: seq<T>, k: nat)
    requires Consuming(read) && Decisive(read) && AllKept(read, judge, write, items)
    requires k <= |WriteAll(write, items)| && read([]) == Err(Eof)
    ensures Drain(read, judge, WriteAll(write, items)[..k]) == Drained(items[..Whole(write, items, k)], Clean)
  {
    var j := Whole(write, items, k);
    var torn := CutAt(write, items, k);
    DrainWhole(read, judge, write, items[..j], torn);
    if j < |items| {
      assert Kept(read, judge, write, items[j]);
      DrainTorn(read, judge, write, items[j], torn);
    }
    assert items[..j] + [] == items[..j];
  }

  /** The unread bytes of a stream. */
  class Reader {
    var unread: Bytes

    constructor (bytes: Bytes)
      ensures unread == bytes
    {
      unread := bytes;
    }

    ghost predicate Follows<T>(p: Parsed<T>, r: Result<T>)
      reads this
    {
      match p
      case Ok(v, rest) => r == Success(v) && unread == rest
      case Err(f) => r == Failure(f)
    }

    method ReadLine() returns (r: Result<Bytes>)
      modifies this
      ensures Follows(Line(old(unread)), r)
    {
      var i := 0;
      while i < |unread| && unread[i] != LF
        invariant 0 <= i <= |unread|
        invariant forall j :: 0 <= j < i ==> unread[j] != LF
      {
        i := i + 1;
      }
      if i == |unread| {
        assert FirstLf(unread) == |unread|;
        return Failure(Eof);
      }
      FirstLfIs(unread, i);
      r := Success(TrimEol(unread[..i + 1]));
      unread := unread[i + 1..];
    }

    method ReadFull(n: nat) returns (r: Result<Bytes>)
      modifies this
      ensures Follows(Block(old(unread), n), r)
    {
      if |unread| < n {
        return Failure(if unread == [] then Eof else UnexpectedEof);
      }
      r := Success(unread[..n]);
      unread := unread[n..];
    }
  }

  /** An output stream. */
  class Writer {
    var out: Bytes

    constructor ()
      ensures out == []
    {
      out := [];
    }

    method Write(bytes: Bytes)
      modifies this
      ensures out == old(out) + bytes
    {
      out := out + bytes;
    }
  }
}
