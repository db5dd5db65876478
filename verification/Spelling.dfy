/** Letters of either case: what a client may write for a command's name or an option, and what it is taken for. */
module Spelling {
  import opened ByteStrings
  import opened Commands
  import opened Numbers
  import opened Protocol
  import opened Resp
  import opened Wire

  /** A spelling of a word of capital letters: each letter as it is, or 32 further on, its small form. */
  predicate Spells(s: Bytes, word: Bytes) {
    |s| == |word| && forall i :: 0 <= i < |s| ==> s[i] == word[i] || s[i] as int == word[i] as int + 32
  }

  predicate Capitals(word: Bytes) {
    forall i :: 0 <= i < |word| ==> 'A' <= word[i] <= 'Z'
  }

  /** Upper-casing takes all spellings of a word to it, and nothing else. */
  lemma SpelledAlike(s: Bytes, word: Bytes)
    requires Capitals(word)
    ensures Upper(s) == word <==> Spells(s, word)
  {
    if Spells(s, word) {
      assert forall i :: 0 <= i < |s| ==> UpperByte(s[i]) == word[i];
    } else if |s| == |word| {
      var i :| 0 <= i < |s| && s[i] != word[i] && s[i] as int != word[i] as int + 32;
      assert UpperByte(s[i]) != word[i];
      assert Upper(s)[i] == UpperByte(s[i]);
    }
  }

  lemma NamesAreCapitals(v: Verb)
    ensures Capitals(NameOf(v))
  {
    hide VerbNamed;
  }

  lemma NamedOnly(name: Bytes, v: Verb)
    requires VerbNamed(name) == Some(v)
    ensures name == NameOf(v)
  {
  }

  /** The dispatcher knows a command by every spelling of its name, and by nothing else. */
  lemma VerbSpelled(cmd: Command, v: Verb)
    ensures VerbOf(cmd) == Some(v) <==> Spells(cmd.name, NameOf(v))
  {
    hide VerbNamed, NameOf, Upper, Spells, Capitals;
    NamesAreCapitals(v);
    SpelledAlike(cmd.name, NameOf(v));
    NamesAreKnown(v);
    if VerbOf(cmd) == Some(v) {
      NamedOnly(Upper(cmd.name), v);
    }
  }

  /** An array whose first word spells a name is that command, whatever follows. */
  lemma SpelledParses(s: Bytes, v: Verb, args: seq<Bytes>, more: Bytes)
    requires Spells(s, NameOf(v)) && WithinLimits([s] + args)
    ensures ParseCommand(WriteArray([s] + args) + more) == Ok(Command(NameOf(v), args), more)
  {
    hide VerbNamed, NameOf, Upper, Spells, Capitals, WithinLimits, ParseCommand;
    NamesAreCapitals(v);
    SpelledAlike(s, NameOf(v));
    CommandBack([s] + args, more);
    assert ([s] + args)[0] == s && ([s] + args)[1..] == args;
  }

  /** The name of any other command: its small letters become capitals, and every other byte stays. */
  lemma NameParsed(parts: seq<Bytes>, more: Bytes)
    requires WithinLimits(parts)
    ensures var p := ParseCommand(WriteArray(parts) + more);
            p.Ok? && p.rest == more && p.value.args == parts[1..] && |p.value.name| == |parts[0]| &&
            forall i :: 0 <= i < |parts[0]| ==>
              var c := parts[0][i];
              p.value.name[i] as int == if 97 <= c as int <= 122 then c as int - 32 else c as int
  {
    hide ParseCommand, WriteArray;
    CommandBack(parts, more);
  }

  /** The four options of SET, each by every spelling of it and by nothing else. */
  lemma OptionSpelled(option: Bytes)
    ensures UnitOf(option) == Some(EX) <==> Spells(option, "EX")
    ensures UnitOf(option) == Some(PX) <==> Spells(option, "PX")
    ensures UnitOf(option) == Some(EXAT) <==> Spells(option, "EXAT")
    ensures UnitOf(option) == Some(PXAT) <==> Spells(option, "PXAT")
  {
    hide Upper, Spells;
    SpelledAlike(option, "EX");
    SpelledAlike(option, "PX");
    SpelledAlike(option, "EXAT");
    SpelledAlike(option, "PXAT");
  }

  predicate Blank(s: Bytes) {
    forall i :: 0 <= i < |s| ==> s[i] as int == 32 || 9 <= s[i] as int <= 13
  }

  predicate Word(s: Bytes) {
    s != [] && forall i :: 0 <= i < |s| ==> s[i] as int != 32 && !(9 <= s[i] as int <= 13)
  }

  /** Words on one line, each after its gap; only the first gap may be empty. */
  predicate Spaced(words: seq<Bytes>, gaps: seq<Bytes>) {
    |gaps| == |words| && forall i :: 0 <= i < |words| ==> Word(words[i]) && Blank(gaps[i]) && (i > 0 ==> gaps[i] != [])
  }

  function Spread(words: seq<Bytes>, gaps: seq<Bytes>): Bytes
    requires |gaps| == |words|
  {
    if words == [] then [] else gaps[0] + words[0] + Spread(words[1..], gaps[1..])
  }

  lemma {:induction false} GapSkipped(gap: Bytes, rest: Bytes)
    requires Blank(gap)
    ensures Words(gap + rest) == Words(rest)
    decreases |gap|
  {
    if gap == [] {
      assert gap + rest == rest;
    } else {
      GapSkipped(gap[1..], rest);
      assert (gap + rest)[1..] == gap[1..] + rest;
    }
  }

  lemma WordTaken(w: Bytes, rest: Bytes)
    requires Word(w) && (rest == [] || Blank(rest[..1]))
    ensures Words(w + rest) == [w] + Words(rest)
  {
    if rest == [] {
      OneWord(w);
      assert w + rest == w;
    } else {
      WordStops(w, rest);
      assert (w + rest)[..|w|] == w && (w + rest)[|w|..] == rest;
    }
  }

  /** Whatever blanks lie between them, the words of a line are found. */
  lemma {:induction false} WordsFound(words: seq<Bytes>, gaps: seq<Bytes>, tail: Bytes)
    requires Spaced(words, gaps) && Blank(tail)
    ensures Words(Spread(words, gaps) + tail) == words
    decreases |words|
  {
    hide Words;
    if words == [] {
      GapSkipped(tail, []);
      assert tail + [] == tail == Spread(words, gaps) + tail;
      NoWords();
    } else {
      var rest := Spread(words[1..], gaps[1..]) + tail;
      WordsFound(words[1..], gaps[1..], tail);
      assert Spread(words, gaps) + tail == gaps[0] + (words[0] + rest);
      GapSkipped(gaps[0], words[0] + rest);
      assert rest == [] || Blank(rest[..1]) by {
        if |words| > 1 {
          assert gaps[1..][0] == gaps[1] && rest[..1] == gaps[1][..1];
        } else if tail != [] {
          assert rest == tail;
        }
      }
      WordTaken(words[0], rest);
    }
  }

  lemma NoWords()
    ensures Words([]) == []
  {
  }

  /** An inline command, in any spelling and with any blanks between its words, is the command its words make. */
  lemma InlineParses(words: seq<Bytes>, gaps: seq<Bytes>, tail: Bytes, v: Verb, more: Bytes)
    requires words != [] && Spaced(words, gaps) && Blank(tail) && Spells(words[0], NameOf(v))
    requires OneLine(Spread(words, gaps) + tail)
    ensures ParseCommand(Spread(words, gaps) + tail + CRLF + more) == Ok(Command(NameOf(v), words[1..]), more)
  {
    hide VerbNamed, NameOf, Upper, Words, OneLine, Line;
    var line := Spread(words, gaps) + tail;
    NamesAreCapitals(v);
    SpelledAlike(words[0], NameOf(v));
    WordsFound(words, gaps, tail);
    LineOf(line, more);
    assert line[0] == if gaps[0] == [] then words[0][0] else gaps[0][0];
  }

  /** A line of blanks is no command. */
  lemma BlankLineRefused(line: Bytes, more: Bytes)
    requires Blank(line) && OneLine(line)
    ensures ParseCommand(line + CRLF + more) == Err(Malformed)
  {
    hide OneLine, Line, Words;
    WordsFound([], [], line);
    assert Spread([], []) + line == line;
    LineOf(line, more);
  }
}
