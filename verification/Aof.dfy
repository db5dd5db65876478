/** The append-only file as bytes: what is written to it, and what any prefix of it gives back. */
module Aof {
  import opened ByteStrings
  import opened Clock
  import opened Commands
  import opened LogNormal
  import opened Numbers
  import opened Protocol
  import opened Replay
  import opened Resp
  import opened Wire

  function EncodeCommand(cmd: Command): Bytes {
    WriteArray([Upper(cmd.name)] + cmd.args)
  }

  function EncodeLog(cmds: seq<Command>): Bytes {
    WriteAll(EncodeCommand, cmds)
  }

  /** `replayAOFCommand` applies only commands that could have been logged, and panics where normalising does. */
  function Judged(cmd: Command): Verdict {
    match AofCommand(cmd, 0)
    case Logged(_) => Clean
    case NotLogged => Refused
    case Panics => Crashed
  }

  /** `ReplayAOF`: the commands applied, in order, and why it stopped. */
  function ReplayLog(s: Bytes): Drained<Command> {
    Drain(ParseCommand, Judged, s)
  }

  /** How the file system takes one record: whole, or with an error after some of its bytes, or all when only the sync failed. */
  datatype Disk = Works | Fails(kept: nat, err: Bytes)

  function Surviving(record: Bytes, disk: Disk): Bytes {
    if disk.Works? || disk.kept >= |record| then record else record[..disk.kept]
  }

  class AppendOnlyFile {
    var file: Bytes

    /** The file is opened for append with whatever it holds. */
    constructor (bytes: Bytes)
      ensures file == bytes
    {
      file := bytes;
    }

    /** `Append`: the record is encoded whole and then written. */
    method Append(cmd: Command, disk: Disk) returns (err: Option<Bytes>)
      modifies this
      ensures err == if disk.Works? then None else Some(disk.err)
      ensures file == old(file) + Surviving(EncodeCommand(cmd), disk)
    {
      hide FormatInt, WriteBulk, WriteArray;
      var buf := new Writer();
      WriteCommand(buf, [Upper(cmd.name)] + cmd.args);
      file := file + Surviving(buf.out, disk);
      err := if disk.Works? then None else Some(disk.err);
    }
  }

  lemma ReplayStep(s: Bytes)
    ensures var p := ParseCommand(s);
            ReplayLog(s) ==
              if p.Err? then Drained([], if p.fault.Malformed? then Corrupt else Clean)
              else if !Judged(p.value).Clean? then Drained([], Judged(p.value))
              else After([p.value], ReplayLog(p.rest))
  {
  }

  /** A record the replay gives back and applies: its name in upper case, within the parser's limits, and loggable. */
  predicate Recorded(cmd: Command) {
    Upper(cmd.name) == cmd.name && WithinLimits([cmd.name] + cmd.args) && Judged(cmd).Clean?
  }

  /** What the server writes is in logged form already. */
  predicate Normal(cmd: Command) {
    AofCommand(cmd, 0) == Logged(cmd)
  }

  predicate AllRecorded(cmds: seq<Command>) {
    forall i :: 0 <= i < |cmds| ==> Recorded(cmds[i])
  }

  /** Whatever the server logs has the form it can read back. */
  lemma LoggedIsRecorded(cmd: Command, now: Time)
    requires AofCommand(cmd, now).Logged?
    ensures var c := AofCommand(cmd, now).cmd; Normal(c) && (WithinLimits([c.name] + c.args) ==> Recorded(c))
  {
    Idempotent(cmd, now, 0);
    var v := VerbOf(cmd).value;
    NamesAgree(v);
    NamesAgree(PEXPIREAT);
    NamesAgree(SET);
  }

  lemma NameFits(v: Verb)
    ensures |NameOf(v)| <= 9
  {
  }

  lemma TextFits(n: int)
    requires FitsInt64(n)
    ensures FitsBulk(FormatInt(n))
  {
    FormatIntLength(n);
  }

  lemma PartsFit(name: Bytes, args: seq<Bytes>)
    ensures WithinLimits([name] + args) <==> FitsBulk(name) && |args| < MAX_ARGS && All(FitsBulk, args)
  {
    var parts := [name] + args;
    if WithinLimits(parts) {
      assert FitsBulk(parts[0]);
      forall i | 0 <= i < |args|
        ensures FitsBulk(args[i])
      {
        assert FitsBulk(parts[i + 1]);
      }
    }
  }

  lemma LoggedArgs(cmd: Command, at: Time)
    requires AofCommand(cmd, at).Logged? && All(FitsBulk, cmd.args)
    ensures var c := AofCommand(cmd, at).cmd;
            FitsBulk(c.name) && |c.args| == |cmd.args| && All(FitsBulk, c.args)
  {
    hide ParseInt, FormatInt, FitsBulk, VerbNamed, NameOf, UnitOf, Wrap64;
    var c := AofCommand(cmd, at).cmd;
    if VerbOf(cmd) == Some(EXPIRE) {
      TextFits(ToMillis(at + Seconds(ParseInt(cmd.args[1]).value)));
      FitsName(PEXPIREAT);
    } else {
      FitsName(VerbOf(cmd).value);
      if VerbOf(cmd) == Some(SET) && |cmd.args| > 2 {
        var opts := cmd.args[2..];
        MillisAreNumbers(UnitOf(opts[0]).value, ParseInt(opts[1]).value, at);
        TextFits(ExpiryMillis(opts, at).value);
        PxatFits();
      }
    }
  }

  lemma FitsName(v: Verb)
    ensures FitsBulk(NameOf(v))
  {
    NameFits(v);
  }

  lemma PxatFits()
    ensures FitsBulk("PXAT")
  {
  }

  /** A command the parser accepted is logged within the limits the parser sets: the server can read its own log. */
  lemma ReadsItsOwnLog(cmd: Command, at: Time)
    requires AofCommand(cmd, at).Logged? && WithinLimits([cmd.name] + cmd.args)
    ensures Recorded(AofCommand(cmd, at).cmd)
  {
    hide AofCommand, WithinLimits, Recorded;
    var c := AofCommand(cmd, at).cmd;
    PartsFit(cmd.name, cmd.args);
    LoggedArgs(cmd, at);
    PartsFit(c.name, c.args);
    LoggedIsRecorded(cmd, at);
  }

  lemma RecordBack(cmd: Command, more: Bytes)
    requires Recorded(cmd)
    ensures ParseCommand(EncodeCommand(cmd) + more) == Ok(cmd, more)
  {
    var parts := [cmd.name] + cmd.args;
    CommandBack(parts, more);
    assert parts[1..] == cmd.args;
  }

  lemma RecordKept(cmd: Command)
    requires Recorded(cmd)
    ensures Kept(ParseCommand, Judged, EncodeCommand, cmd)
  {
    forall more: Bytes
      ensures ParseCommand(EncodeCommand(cmd) + more) == Ok(cmd, more)
    {
      RecordBack(cmd, more);
    }
  }

  lemma RecordsKept(cmds: seq<Command>)
    requires AllRecorded(cmds)
    ensures AllKept(ParseCommand, Judged, EncodeCommand, cmds)
  {
    forall i | 0 <= i < |cmds|
      ensures Kept(ParseCommand, Judged, EncodeCommand, cmds[i])
    {
      RecordKept(cmds[i]);
    }
  }

  /**
   Torn-log recovery: whatever byte a crash cut the log at, the replay applies exactly the commands wholly before
   the cut, in order, and reports no error.
   */
  lemma TornLog(cmds: seq<Command>, k: nat)
    requires AllRecorded(cmds) && k <= |EncodeLog(cmds)|
    ensures ReplayLog(EncodeLog(cmds)[..k]) == Drained(cmds[..Whole(EncodeCommand, cmds, k)], Clean)
  {
    RecordsKept(cmds);
    ParseDecisive();
    DrainCut(ParseCommand, Judged, EncodeCommand, cmds, k);
  }

  /** Records appended after a cut at a record boundary are all recovered. */
  lemma AppendAtBoundary(before: seq<Command>, later: seq<Command>, k: nat)
    requires AllRecorded(before) && AllRecorded(later) && k <= |EncodeLog(later)|
    ensures ReplayLog(EncodeLog(before) + EncodeLog(later)[..k]) ==
            Drained(before + later[..Whole(EncodeCommand, later, k)], Clean)
  {
    RecordsKept(before);
    DrainWhole(ParseCommand, Judged, EncodeCommand, before, EncodeLog(later)[..k]);
    TornLog(later, k);
  }

  /** The bytes of a record torn between two of its parts. */
  function TornBetween(parts: seq<Bytes>, i: nat): Bytes
    requires i < |parts|
  {
    ['*'] + FormatInt(|parts|) + CRLF + WriteAll(WriteBulk, parts[..i])
  }

  /**
   The file is reopened for append without cutting a torn tail. If the tear fell between two parts of a record, the
   next record starts where a length was due: the following replay fails and everything written since is lost.
   */
  lemma AppendAfterTear(before: seq<Command>, parts: seq<Bytes>, i: nat, later: Command, more: Bytes)
    requires AllRecorded(before) && WithinLimits(parts) && i < |parts|
    ensures ReplayLog(EncodeLog(before) + (TornBetween(parts, i) + (EncodeCommand(later) + more))) == Drained(before, Corrupt)
  {
    var rest := TornBetween(parts, i) + (EncodeCommand(later) + more);
    TornBroken(parts, i, later, more);
    ReplayWhole(before, rest);
    assert before + [] == before;
  }

  lemma ReplayWhole(cmds: seq<Command>, more: Bytes)
    requires AllRecorded(cmds)
    ensures ReplayLog(EncodeLog(cmds) + more) == After(cmds, ReplayLog(more))
  {
    RecordsKept(cmds);
    DrainWhole(ParseCommand, Judged, EncodeCommand, cmds, more);
  }

  lemma TornBroken(parts: seq<Bytes>, i: nat, later: Command, more: Bytes)
    requires WithinLimits(parts) && i < |parts|
    ensures ParseCommand(TornBetween(parts, i) + (EncodeCommand(later) + more)) == Err(Malformed)
  {
    var next := EncodeCommand(later) + more;
    Regroup(['*'], FormatInt(|parts|), CRLF, WriteAll(WriteBulk, parts[..i]), next);
    HeaderLine('*', |parts|, WriteAll(WriteBulk, parts[..i]) + next);
    TornParts(parts, i, later, more);
  }

  lemma TornParts(parts: seq<Bytes>, i: nat, later: Command, more: Bytes)
    requires WithinLimits(parts) && i < |parts|
    ensures ArrayParts(WriteAll(WriteBulk, parts[..i]) + (EncodeCommand(later) + more), Some(|parts|)) == Err(Malformed)
  {
    var next := EncodeCommand(later) + more;
    var s := WriteAll(WriteBulk, parts[..i]) + next;
    BulkedUndoes();
    RepeatBack(Bulked, WriteBulk, FitsBulk, parts[..i], next);
    assert All(FitsBulk, parts[..i]);
    NoBulkHere(later, more);
    assert Repeat(Bulked, s, i + 1) == Err(Malformed);
    RepeatFault(Bulked, s, i + 1, |parts|);
  }

  lemma NoBulkHere(later: Command, more: Bytes)
    ensures Bulked(EncodeCommand(later) + more) == Err(Malformed)
  {
    ArrayHeader([Upper(later.name)] + later.args, more);
  }

  /**
   Crash recovery. Take the history up to the last command wholly in the surviving bytes. The replay reads exactly
   those commands, and the store it builds shadows the live store of that moment.
   */
  lemma CrashRecovery(log: seq<Command>, k: nat, acts: seq<Act>, items: seq<Item>, planned: seq<Time>, ts: seq<Time>,
                      now: Time, slack: nat)
    requires AllRecorded(log) && k <= |EncodeLog(log)|
    requires Replayable(map[], acts, items, planned, ts, now, slack) && LogOf(items) == log[..Whole(EncodeCommand, log, k)]
    ensures var recovered := ReplayLog(EncodeLog(log)[..k]);
            recovered == Drained(LogOf(items), Clean) &&
            Shadows(LiveRun(map[], acts), ReplayRun(map[], ReplayPrims(recovered.items, planned), ts), LastOf(ts, now), slack)
  {
    TornLog(log, k);
    ReplaySimulation(map[], acts, items, planned, ts, now, slack);
  }

  /**
   A record the server cannot read back. An inline DEL of a key longer than the parser's limit for bulks is accepted and
   logged, and the replay of its record fails there.
   */
  lemma InlineKeyUnreadable(w: Bytes, at: Time, before: seq<Command>, more: Bytes)
    requires |w| > MAX_BULK && (forall i :: 0 <= i < |w| ==> !IsSpace(w[i])) && AllRecorded(before)
    ensures ParseCommand("DEL" + [' '] + w + CRLF) == Ok(Command("DEL", [w]), [])
    ensures AofCommand(Command("DEL", [w]), at) == Logged(Command("DEL", [w]))
    ensures ReplayLog(EncodeLog(before) + (EncodeCommand(Command("DEL", [w])) + more)) == Drained(before, Corrupt)
  {
    hide ParseCommand, AofCommand, Recorded;
    InlineUnlimited(w, []);
    assert "DEL" + [' '] + w + CRLF + [] == "DEL" + [' '] + w + CRLF;
    DelLogged(w, at);
    var cmd := Command("DEL", [w]);
    var parts := ["DEL"] + [w];
    NamesAgree(DEL);
    assert !FitsBulk(parts[1]);
    CommandBack(parts, more);
    assert EncodeCommand(cmd) == WriteArray(parts);
    ReplayWhole(before, EncodeCommand(cmd) + more);
    assert before + [] == before;
  }

  lemma DelLogged(w: Bytes, at: Time)
    ensures AofCommand(Command("DEL", [w]), at) == Logged(Command("DEL", [w]))
  {
    NamesAgree(DEL);
  }
}
