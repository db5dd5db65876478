/**
 What becomes of a log that is appended to after a torn record. A record can be torn in its header, in the length line,
 the bytes or the terminator of a part, or between two of them, and each has its own outcome.
 */
module Tears {
  import opened Aof
  import opened ByteStrings
  import opened Numbers
  import opened Protocol
  import opened Resp
  import opened Wire

  function Header(parts: seq<Bytes>): Bytes {
    ['*'] + FormatInt(|parts|) + CRLF
  }

  function LengthLine(part: Bytes): Bytes {
    ['$'] + FormatInt(|part|) + CRLF
  }

  /** After some bytes of the header, or after some whole parts and some bytes of the next one. */
  datatype Tear = InHeader(p: nat) | InPart(i: nat, p: nat)

  predicate TearOf(parts: seq<Bytes>, t: Tear) {
    match t
    case InHeader(p) => 0 < p < |Header(parts)|
    case InPart(i, p) => i < |parts| && p < |WriteBulk(parts[i])|
  }

  /** The bytes left of a torn record. */
  function TornAt(parts: seq<Bytes>, t: Tear): Bytes
    requires TearOf(parts, t)
  {
    match t
    case InHeader(p) => Header(parts)[..p]
    case InPart(i, p) => TornBetween(parts, i) + WriteBulk(parts[i])[..p]
  }

  /** The tear lies before the last byte of a part and after its length line. */
  predicate InBody(parts: seq<Bytes>, t: Tear)
    requires TearOf(parts, t)
  {
    t.InPart? && |LengthLine(parts[t.i])| <= t.p < |LengthLine(parts[t.i])| + |parts[t.i]|
  }

  /** Every cut within a record is one of these tears. */
  lemma EveryTear(parts: seq<Bytes>, k: nat) returns (t: Tear)
    requires 0 < k < |WriteArray(parts)|
    ensures TearOf(parts, t) && WriteArray(parts)[..k] == TornAt(parts, t)
  {
    hide FormatInt, WriteBulk, WriteAll;
    var header, body := Header(parts), WriteAll(WriteBulk, parts);
    assert WriteArray(parts) == header + body;
    if k < |header| {
      t := InHeader(k);
      assert WriteArray(parts)[..k] == header[..k];
    } else {
      var rest := k - |header|;
      assert WriteArray(parts)[..k] == header + body[..rest];
      t := TearInParts(parts, rest);
    }
  }

  lemma TearInParts(parts: seq<Bytes>, k: nat) returns (t: Tear)
    requires k < |WriteAll(WriteBulk, parts)|
    ensures TearOf(parts, t) && Header(parts) + WriteAll(WriteBulk, parts)[..k] == TornAt(parts, t)
  {
    hide FormatInt, WriteBulk;
    var i := Whole(WriteBulk, parts, k);
    var torn := CutAt(WriteBulk, parts, k);
    assert parts[..|parts|] == parts;
    assert i < |parts|;
    t := InPart(i, |torn|);
    assert WriteBulk(parts[i])[..|torn|] == torn;
    assert Header(parts) + (WriteAll(WriteBulk, parts[..i]) + torn) == TornBetween(parts, i) + torn;
  }

  lemma NotANumber(s: Bytes, i: nat)
    requires i < |s| && s[i] == '*'
    ensures ParseInt(s).None?
  {
    var digits := if s[0] == '-' || s[0] == '+' then s[1..] else s;
    assert s[0] != '*' && (s[0] == '-' || s[0] == '+') ==> digits[i - 1] == '*';
  }

  /** The start of every record: a star, and the rest of its header line. */
  lemma RecordStart(cmd: Command, more: Bytes) returns (tail: Bytes)
    ensures EncodeCommand(cmd) + more == ['*'] + FormatInt(|cmd.args| + 1) + CRLF + tail
    ensures |EncodeCommand(cmd)| >= 2 && EncodeCommand(cmd)[0] == '*'
  {
    var parts := [Upper(cmd.name)] + cmd.args;
    var count := FormatInt(|cmd.args| + 1);
    tail := WriteAll(WriteBulk, parts) + more;
    Regroup(['*'], count, CRLF, WriteAll(WriteBulk, parts), more);
    assert EncodeCommand(cmd) + more == ['*'] + count + CRLF + tail;
  }

  /** A line torn before its end swallows the next record's header line, and what it carries is no number. */
  lemma TornLine(mark: byte, text: Bytes, later: Command, more: Bytes)
    requires mark != CR && mark != LF && LF !in text
    ensures var p := Line([mark] + text + (EncodeCommand(later) + more));
            p.Ok? && p.value != [] && p.value[0] == mark && ParseInt(p.value[1..]).None?
  {
    hide FormatInt, EncodeCommand, Line, ParseInt;
    var count := FormatInt(|later.args| + 1);
    var tail := RecordStart(later, more);
    FormatIntClean(|later.args| + 1);
    var line := [mark] + text + ['*'] + count;
    assert [mark] + text + (['*'] + count + CRLF + tail) == line + CRLF + tail;
    assert FormatInt(|later.args| + 1) != [] by { FormatNotEmpty(|later.args| + 1); }
    assert line[|line| - 1] == count[|count| - 1];
    LineOf(line, tail);
    assert line[1..][|text|] == '*';
    NotANumber(line[1..], |text|);
  }

  lemma FormatNotEmpty(n: nat)
    ensures FormatInt(n) != []
  {
  }

  /** A proper prefix of a marked line, but for the mark. */
  lemma LinePrefix(mark: byte, n: nat, p: nat)
    requires mark != LF && 0 < p < |[mark] + FormatInt(n) + CRLF|
    ensures var torn := ([mark] + FormatInt(n) + CRLF)[..p];
            torn == [mark] + torn[1..] && LF !in torn[1..]
  {
    FormatIntClean(n);
    var line := [mark] + FormatInt(n) + CRLF;
    var torn := line[..p];
    forall j | 0 <= j < |torn[1..]|
      ensures torn[1..][j] != LF
    {
      assert torn[1..][j] == line[j + 1];
    }
  }

  lemma HeaderTear(parts: seq<Bytes>, p: nat, later: Command, more: Bytes)
    requires 0 < p < |Header(parts)|
    ensures ParseCommand(Header(parts)[..p] + (EncodeCommand(later) + more)) == Err(Malformed)
  {
    hide Line, ParseInt, FormatInt, EncodeCommand;
    LinePrefix('*', |parts|, p);
    TornLine('*', Header(parts)[..p][1..], later, more);
  }

  lemma LengthTear(part: Bytes, p: nat, later: Command, more: Bytes)
    requires 0 < p < |LengthLine(part)|
    ensures Bulked(LengthLine(part)[..p] + (EncodeCommand(later) + more)) == Err(Malformed)
  {
    hide Line, ParseInt, FormatInt, EncodeCommand;
    LinePrefix('$', |part|, p);
    TornLine('$', LengthLine(part)[..p][1..], later, more);
  }

  /** What a part is read as when all but some of its bytes, or of its terminator, come from what follows. */
  lemma BodyTear(part: Bytes, taken: nat, next: Bytes)
    requires FitsBulk(part) && taken <= |part|
    ensures var missing := |part| - taken;
            var p := Bulked(LengthLine(part) + (part[..taken] + next));
            if |next| < missing + 2 then Starved(p)
            else if next[missing..missing + 2] != CRLF then p == Err(Malformed)
            else p == Ok(part[..taken] + next[..missing], next[missing + 2..])
  {
    hide Line, ParseInt, FormatInt;
    var missing, body := |part| - taken, part[..taken] + next;
    HeaderLine('$', |part|, body);
    if |next| >= missing {
      assert body[..|part|] == part[..taken] + next[..missing] && body[|part|..] == next[missing..];
      if |next| >= missing + 2 {
        assert next[missing..][..2] == next[missing..missing + 2] && next[missing..][2..] == next[missing + 2..];
      }
    }
  }

  lemma EndTear(part: Bytes, q: nat, later: Command, more: Bytes)
    requires FitsBulk(part) && q < 2
    ensures Bulked(LengthLine(part) + (part + (CRLF[..q] + (EncodeCommand(later) + more)))) == Err(Malformed)
  {
    hide Bulked, EncodeCommand;
    var _ := RecordStart(later, more);
    var next := CRLF[..q] + (EncodeCommand(later) + more);
    assert part[..|part|] == part;
    BodyTear(part, |part|, next);
    assert next[q] == '*';
    assert next[0..2][q] == '*';
  }

  lemma {:induction false} RepeatOn<T>(read: Bytes -> Parsed<T>, s: Bytes, a: nat, b: nat)
    requires Repeat(read, s, a).Ok?
    ensures var front := Repeat(read, s, a);
            var back := Repeat(read, front.rest, b);
            Repeat(read, s, a + b) == if back.Err? then Err(back.fault) else Ok(front.value + back.value, back.rest)
    decreases b
  {
    if b > 0 {
      RepeatOn(read, s, a, b - 1);
      var front, back := Repeat(read, s, a), Repeat(read, Repeat(read, s, a).rest, b - 1);
      if back.Ok? && read(back.rest).Ok? {
        assert front.value + back.value + [read(back.rest).value] == front.value + (back.value + [read(back.rest).value]);
      }
    } else {
      assert Repeat(read, s, a).value + [] == Repeat(read, s, a).value;
    }
  }

  /** The record is read part by part; what follows the whole parts decides the rest. */
  lemma PartsThen(parts: seq<Bytes>, i: nat, rest: Bytes)
    requires WithinLimits(parts) && i < |parts|
    ensures var back := Repeat(Bulked, rest, |parts| - i);
            ParseCommand(TornBetween(parts, i) + rest) ==
            if back.Err? then Err(back.fault)
            else Ok(Command(Upper((parts[..i] + back.value)[0]), (parts[..i] + back.value)[1..]), back.rest)
  {
    hide Line, ParseInt, FormatInt, Bulked, WriteBulk, FitsBulk;
    var whole := WriteAll(WriteBulk, parts[..i]);
    Regroup(['*'], FormatInt(|parts|), CRLF, whole, rest);
    HeaderLine('*', |parts|, whole + rest);
    BulkedUndoes();
    RepeatBack(Bulked, WriteBulk, FitsBulk, parts[..i], rest);
    assert All(FitsBulk, parts[..i]);
    RepeatOn(Bulked, whole + rest, i, |parts| - i);
  }

  lemma FirstPartFails(rest: Bytes, n: nat)
    requires n >= 1 && Bulked(rest).Err?
    ensures Repeat(Bulked, rest, n) == Err(Bulked(rest).fault)
  {
    hide Bulked;
    assert Repeat(Bulked, rest, 0) == Ok([], rest);
    assert Repeat(Bulked, rest, 1) == Err(Bulked(rest).fault);
    RepeatFault(Bulked, rest, 1, n);
  }

  lemma PartFails(parts: seq<Bytes>, i: nat, rest: Bytes)
    requires WithinLimits(parts) && i < |parts| && Bulked(rest).Err?
    ensures ParseCommand(TornBetween(parts, i) + rest) == Err(Bulked(rest).fault)
  {
    hide Bulked, ParseCommand, TornBetween;
    PartsThen(parts, i, rest);
    FirstPartFails(rest, |parts| - i);
  }

  /** How a prefix of a part splits. */
  lemma PartPrefix(part: Bytes, p: nat)
    requires p <= |WriteBulk(part)|
    ensures var line := LengthLine(part);
            WriteBulk(part)[..p] ==
            if p <= |line| then line[..p]
            else if p <= |line| + |part| then line + part[..p - |line|]
            else line + (part + CRLF[..p - |line| - |part|])
  {
    hide FormatInt;
    var line := LengthLine(part);
    assert WriteBulk(part) == line + part + CRLF;
  }

  lemma PartTear(parts: seq<Bytes>, t: Tear, later: Command, more: Bytes)
    requires WithinLimits(parts) && TearOf(parts, t) && t.InPart? && !InBody(parts, t)
    ensures Bulked(WriteBulk(parts[t.i])[..t.p] + (EncodeCommand(later) + more)) == Err(Malformed)
  {
    hide Bulked, EncodeCommand, FormatInt, WriteBulk, LengthLine;
    var part, p, next := parts[t.i], t.p, EncodeCommand(later) + more;
    var line := LengthLine(part);
    PartPrefix(part, p);
    LineOfBulk(part);
    OneFits(parts, t.i);
    if p == 0 {
      assert line[..0] + next == next;
      NoBulkHere(later, more);
    } else if p < |line| {
      LengthTear(part, p, later, more);
    } else {
      var q := p - |line| - |part|;
      EndTear(part, q, later, more);
      TornEnd(line, part, q, next);
    }
  }

  lemma TornEnd(line: Bytes, part: Bytes, q: nat, next: Bytes)
    requires q < 2
    ensures line + (part + CRLF[..q]) + next == line + (part + (CRLF[..q] + next))
    ensures q == 0 ==> line + part[..|part|] == line + (part + CRLF[..q]) && (part == [] ==> line == line + (part + CRLF[..q]))
  {
    assert part[..|part|] == part;
    assert q == 0 ==> part + CRLF[..q] == part;
  }

  lemma ReplayStops(before: seq<Command>, s: Bytes, fault: Fault)
    requires AllRecorded(before) && ParseCommand(s) == Err(fault)
    ensures ReplayLog(EncodeLog(before) + s) == Drained(before, if fault.Malformed? then Corrupt else Clean)
  {
    hide ParseCommand, Recorded, EncodeLog;
    ReplayWhole(before, s);
    ReplayStep(s);
    assert before + [] == before;
  }

  /**
   Outside the bytes of a part, whatever was torn, appending after it makes the next replay fail right there: nothing
   written since the tear is applied.
   */
  lemma TearCorrupts(before: seq<Command>, parts: seq<Bytes>, t: Tear, later: Command, more: Bytes)
    requires AllRecorded(before) && WithinLimits(parts) && TearOf(parts, t) && !InBody(parts, t)
    ensures ReplayLog(EncodeLog(before) + (TornAt(parts, t) + (EncodeCommand(later) + more))) == Drained(before, Corrupt)
  {
    hide ParseCommand, Recorded, EncodeLog, EncodeCommand, Bulked, WriteBulk, WithinLimits, InBody, FormatInt, ReplayLog;
    var next := EncodeCommand(later) + more;
    if t.InHeader? {
      HeaderTear(parts, t.p, later, more);
    } else {
      var torn := WriteBulk(parts[t.i])[..t.p];
      PartTear(parts, t, later, more);
      PartFails(parts, t.i, torn + next);
      assert TornAt(parts, t) + next == TornBetween(parts, t.i) + (torn + next);
    }
    ReplayStops(before, TornAt(parts, t) + next, Malformed);
  }

  /**
   Within the bytes of a part, the missing ones are taken from what follows. If that ends too soon, the replay stops
   without an error and drops all that was written since; if no terminator lies where one is due, it fails there;
   otherwise it goes on with a part nobody wrote, and with parts of later records.
   */
  lemma TearSwallows(before: seq<Command>, parts: seq<Bytes>, t: Tear, next: Bytes)
    requires AllRecorded(before) && WithinLimits(parts) && TearOf(parts, t) && InBody(parts, t)
    ensures var part := parts[t.i];
            var taken := t.p - |LengthLine(part)|;
            var missing := |part| - taken;
            var replayed := ReplayLog(EncodeLog(before) + (TornAt(parts, t) + next));
            if |next| < missing + 2 then replayed == Drained(before, Clean)
            else if next[missing..missing + 2] != CRLF then replayed == Drained(before, Corrupt)
            else replayed == After(before, AfterSwallowing(parts, t.i, part[..taken] + next[..missing], next[missing + 2..]))
  {
    hide ParseCommand, Recorded, EncodeLog, Bulked, FormatInt, ReplayLog, WriteBulk, WithinLimits, AfterSwallowing, TornBetween;
    var part := parts[t.i];
    var line := LengthLine(part);
    var taken := t.p - |line|;
    var torn := WriteBulk(part)[..t.p];
    var rest := torn + next;
    LineFits(part);
    PartPrefix(part, t.p);
    OneFits(parts, t.i);
    assert rest == line + (part[..taken] + next) by { if t.p == |line| { assert line[..t.p] == line && part[..0] == []; } }
    BodyTear(part, taken, next);
    assert TornAt(parts, t) + next == TornBetween(parts, t.i) + rest;
    if Bulked(rest).Err? {
      PartFails(parts, t.i, rest);
      ReplayStops(before, TornAt(parts, t) + next, Bulked(rest).fault);
    } else {
      SwallowedReplay(before, parts, t.i, rest);
    }
  }

  lemma SwallowedReplay(before: seq<Command>, parts: seq<Bytes>, i: nat, rest: Bytes)
    requires AllRecorded(before) && WithinLimits(parts) && i < |parts| && Bulked(rest).Ok?
    ensures ReplayLog(EncodeLog(before) + (TornBetween(parts, i) + rest)) ==
            After(before, AfterSwallowing(parts, i, Bulked(rest).value, Bulked(rest).rest))
  {
    hide ParseCommand, Recorded, EncodeLog, Bulked, ReplayLog, WithinLimits, TornBetween, Judged, Upper;
    SwallowedParse(parts, i, rest);
    ReplayWhole(before, TornBetween(parts, i) + rest);
    ReplayStep(TornBetween(parts, i) + rest);
  }

  lemma LineFits(part: Bytes)
    ensures |LengthLine(part)| <= |WriteBulk(part)|
  {
  }

  lemma OneFits(parts: seq<Bytes>, i: nat)
    requires WithinLimits(parts) && i < |parts|
    ensures FitsBulk(parts[i])
  {
  }

  /** The replay of a command pieced together from whole parts, a swallowed one and what comes next. */
  function AfterSwallowing(parts: seq<Bytes>, i: nat, glued: Bytes, rest: Bytes): Drained<Command>
    requires i < |parts|
  {
    var back := Repeat(Bulked, rest, |parts| - i - 1);
    if back.Err? then Drained([], if back.fault.Malformed? then Corrupt else Clean)
    else
      var all := parts[..i] + [glued] + back.value;
      var cmd := Command(Upper(all[0]), all[1..]);
      if !Judged(cmd).Clean? then Drained([], Judged(cmd)) else After([cmd], ReplayLog(back.rest))
  }

  lemma SwallowedParse(parts: seq<Bytes>, i: nat, rest: Bytes)
    requires WithinLimits(parts) && i < |parts| && Bulked(rest).Ok?
    ensures var back := Repeat(Bulked, Bulked(rest).rest, |parts| - i - 1);
            var all := parts[..i] + [Bulked(rest).value] + if back.Ok? then back.value else [];
            ParseCommand(TornBetween(parts, i) + rest) ==
            if back.Err? then Err(back.fault) else Ok(Command(Upper(all[0]), all[1..]), back.rest)
  {
    hide Bulked, ParseCommand, TornBetween, WithinLimits;
    PartsThen(parts, i, rest);
    var one := Bulked(rest);
    assert Repeat(Bulked, rest, 0) == Ok([], rest);
    assert [] + [one.value] == [one.value];
    assert Repeat(Bulked, rest, 1) == Ok([one.value], one.rest);
    RepeatOn(Bulked, rest, 1, |parts| - i - 1);
    var back := Repeat(Bulked, one.rest, |parts| - i - 1);
    if back.Ok? {
      assert parts[..i] + ([one.value] + back.value) == parts[..i] + [one.value] + back.value;
    }
  }

  /** The record of one part, in full. */
  lemma RecordOfOne(name: Bytes)
    ensures WriteArray([name]) == "*1" + CRLF + WriteBulk(name)
  {
    hide WriteBulk;
    assert FormatInt(1) == "1";
    assert [name][..0] == [];
    assert WriteAll(WriteBulk, [name]) == [] + WriteBulk(name);
    assert ['*'] + "1" + CRLF + WriteBulk(name) == "*1" + CRLF + WriteBulk(name);
  }

  /**
   A command nobody sent. A SET is torn two bytes before the end of its key, and a FLUSHALL is logged after it: the next
   start flushes nothing, and sets a key that was never named to the value FLUSHALL, without an error.
   */
  lemma InventedCommand(before: seq<Command>, key: Bytes, val: Bytes)
    requires AllRecorded(before) && 2 <= |key| <= MAX_BULK && FitsBulk(val)
    ensures var parts := ["SET", key, val];
            var t := InPart(1, |LengthLine(key)| + |key| - 2);
            TearOf(parts, t) &&
            ReplayLog(EncodeLog(before) + (TornAt(parts, t) + EncodeCommand(Command("FLUSHALL", [])))) ==
            Drained(before + [Command("SET", [key[..|key| - 2] + "*1", "FLUSHALL"])], Clean)
  {
    hide ParseCommand, Recorded, EncodeLog, FormatInt, Bulked, ReplayLog, LengthLine, WriteBulk, TornBetween, VerbNamed;
    var parts, t := ["SET", key, val], InPart(1, |LengthLine(key)| + |key| - 2);
    LineOfBulk(key);
    SetWithin(key, val);
    var bulk := WriteBulk("FLUSHALL");
    var next := "*1" + CRLF + bulk;
    FlushRecord();
    assert next[..2] == "*1" && next[2..4] == CRLF && next[4..] == bulk;
    TearSwallows(before, parts, t, next);
    var glued := key[..|key| - 2] + "*1";
    var cmd := Command("SET", [glued, "FLUSHALL"]);
    FlushPartBack(bulk);
    var all := parts[..1] + [glued] + ["FLUSHALL"];
    assert all == ["SET", glued, "FLUSHALL"];
    SetJudged(glued, "FLUSHALL");
    NothingLeft();
    assert [cmd] + [] == [cmd];
  }

  lemma LineOfBulk(part: Bytes)
    ensures |WriteBulk(part)| == |LengthLine(part)| + |part| + 2
  {
  }

  lemma SetWithin(key: Bytes, val: Bytes)
    requires FitsBulk(key) && FitsBulk(val)
    ensures WithinLimits(["SET", key, val])
  {
  }

  lemma FlushRecord()
    ensures EncodeCommand(Command("FLUSHALL", [])) == "*1" + CRLF + WriteBulk("FLUSHALL")
  {
    NamesAgree(FLUSHALL);
    assert ["FLUSHALL"] + [] == ["FLUSHALL"];
    RecordOfOne("FLUSHALL");
  }

  lemma FlushPartBack(bulk: Bytes)
    requires bulk == WriteBulk("FLUSHALL")
    ensures Repeat(Bulked, bulk, 1) == Ok(["FLUSHALL"], [])
  {
    hide Bulked, WriteBulk;
    BulkBack("FLUSHALL", []);
    assert bulk + [] == bulk;
    assert Repeat(Bulked, bulk, 0) == Ok([], bulk);
    assert [] + ["FLUSHALL"] == ["FLUSHALL"];
  }

  lemma SetJudged(key: Bytes, val: Bytes)
    ensures Judged(Command("SET", [key, val])).Clean? && Upper("SET") == "SET"
  {
    NamesAgree(SET);
  }

  lemma NothingLeft()
    ensures ReplayLog([]) == Drained([], Clean)
  {
    ReplayStep([]);
  }
}
