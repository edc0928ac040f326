// The console: keystrokes edit a line in place, the line is cut into arguments in place, and the
// first argument selects a command.
module Console {
  import opened Words
  import opened Libc
  import opened Tokens

  const CMD_BUF_SIZE: nat := 512
  const BS: byte := 8
  const LF: byte := 10
  const CR: byte := 13
  const CTRL_U: byte := 0x15
  const ESC: byte := 0x1b

  // ---- The editor on values ----

  predicate Printable(key: byte) { 32 <= key <= 126 }

  predicate AllPrintable(text: seq<byte>) { forall i :: 0 <= i < |text| ==> Printable(text[i]) }

  // The line being typed, and what the lines submitted so far have led to
  datatype Editor = Editor(line: seq<byte>, log: seq<Outcome>)

  function Submit(e: Editor, names: seq<seq<byte>>): Editor {
    Editor([], if e.line == [] then e.log else e.log + [Meaning(e.line, names)])
  }

  // One keystroke. A 256th character wraps the 8-bit index to zero and so empties the line.
  function Press(e: Editor, key: byte, names: seq<seq<byte>>): Editor {
    if key == BS && e.line != [] then e.(line := e.line[..|e.line| - 1])
    else if key == CR || key == LF then Submit(e, names)
    else if key == ESC || key == CTRL_U then e.(line := [])
    else if Printable(key) then e.(line := if |e.line| == 255 then [] else e.line + [key])
    else e
  }

  function PressAll(e: Editor, keys: seq<byte>, names: seq<seq<byte>>): Editor {
    if keys == [] then e else Press(PressAll(e, keys[..|keys| - 1], names), keys[|keys| - 1], names)
  }

  // What the keys do: backspace, return and line feed, escape and Ctrl-U, space to tilde, any other
  lemma Keys(e: Editor, key: byte, names: seq<seq<byte>>)
    requires |e.line| <= 255
    ensures key == 8 && e.line != [] ==> Press(e, key, names) == Editor(e.line[..|e.line| - 1], e.log)
    ensures (key == 13 || key == 10) && e.line == [] ==> Press(e, key, names) == e
    ensures (key == 13 || key == 10) && e.line != [] ==>
      Press(e, key, names) == Editor([], e.log + [Meaning(e.line, names)])
    ensures key == 0x1b || key == 0x15 ==> Press(e, key, names) == Editor([], e.log)
    ensures ' ' as int <= key <= '~' as int && |e.line| < 255 ==>
      Press(e, key, names) == Editor(e.line + [key], e.log)
    ensures key !in {10, 13, 0x15, 0x1b} && !(' ' as int <= key <= '~' as int) && (key != 8 || e.line == []) ==>
      Press(e, key, names) == e
  {
  }

  ghost predicate Sound(e: Editor) {
    |e.line| <= 255 && AllPrintable(e.line)
  }

  lemma PressSound(e: Editor, key: byte, names: seq<seq<byte>>)
    requires Sound(e)
    ensures Sound(Press(e, key, names))
  {
  }

  // After any keystrokes the line is at most 255 printable characters.
  lemma {:induction false} AlwaysSound(e: Editor, keys: seq<byte>, names: seq<seq<byte>>)
    requires Sound(e)
    ensures Sound(PressAll(e, keys, names))
  {
    if keys != [] {
      AlwaysSound(e, keys[..|keys| - 1], names);
      PressSound(PressAll(e, keys[..|keys| - 1], names), keys[|keys| - 1], names);
    }
  }

  // Backspace undoes a character unless the character emptied a full line.
  lemma BackspaceUndoes(e: Editor, key: byte, names: seq<seq<byte>>)
    requires Sound(e) && Printable(key)
    ensures Press(Press(e, key, names), BS, names) == e <==> |e.line| < 255
  {
  }

  // The last n mod 256 of n characters
  function Remainder(text: seq<byte>): seq<byte> {
    text[|text| - |text| % 256..]
  }

  lemma RemainderSnoc(text: seq<byte>, c: byte)
    ensures Remainder(text + [c]) == if |Remainder(text)| == 255 then [] else Remainder(text) + [c]
  {
    var n := |text|;
    if n % 256 == 255 {
      assert (n + 1) % 256 == 0;
    } else {
      assert (n + 1) % 256 == n % 256 + 1;
    }
  }

  lemma OneTyped(e: Editor, c: byte, names: seq<seq<byte>>)
    requires Printable(c)
    ensures Press(e, c, names) == e.(line := if |e.line| == 255 then [] else e.line + [c])
  {
  }

  lemma RemainderShort(text: seq<byte>)
    requires |text| < 256
    ensures Remainder(text) == text
  {
    assert text[0..] == text;
  }

  // Of n characters typed onto an empty line the last n mod 256 remain.
  lemma {:induction false} TypedText(e: Editor, text: seq<byte>, names: seq<seq<byte>>)
    requires e.line == [] && AllPrintable(text)
    ensures PressAll(e, text, names) == e.(line := Remainder(text))
  {
    if text != [] {
      var n := |text| - 1;
      TypedText(e, text[..n], names);
      RemainderSnoc(text[..n], text[n]);
      OneTyped(e.(line := Remainder(text[..n])), text[n], names);
      assert text[..n] + [text[n]] == text;
    }
  }

  lemma {:induction false} PressAppend(e: Editor, keys: seq<byte>, key: byte, names: seq<seq<byte>>)
    ensures PressAll(e, keys + [key], names) == Press(PressAll(e, keys, names), key, names)
  {
    assert (keys + [key])[..|keys|] == keys;
  }

  // A line of fewer than 256 characters, typed and entered, is interpreted as typed.
  lemma TypedLineRuns(e: Editor, text: seq<byte>, names: seq<seq<byte>>)
    requires e.line == [] && AllPrintable(text) && 0 < |text| < 256
    ensures PressAll(e, text + [CR], names) == Editor([], e.log + [Meaning(text, names)])
  {
    PressAppend(e, text, CR, names);
    TypedText(e, text, names);
    RemainderShort(text);
  }

  // Typing up to eight words with spaces between them, and return, runs the first command of that name
  // with exactly those words.
  lemma TypedCommandRuns(e: Editor, words: seq<seq<byte>>, entry: nat, names: seq<seq<byte>>)
    requires e.line == [] && AreWords(words) && 1 <= |words| <= MAX_ARGS
    requires |Spaced(words)| < 256 && AllPrintable(Spaced(words))
    requires entry < |names| && names[entry] == words[0] && forall j :: 0 <= j < entry ==> names[j] != words[0]
    ensures PressAll(e, Spaced(words) + [CR], names) == Editor([], e.log + [Outcome.Run(entry, words)])
  {
    var text := Spaced(words);
    SpacedMeans(words, entry, names);
    TypedLineRuns(e, text, names);
  }

  // The buffer after a keystroke that does not submit the line
  function Edited(m: seq<byte>, idx: nat, key: byte): (r: seq<byte>)
    requires idx <= 255 && |m| == CMD_BUF_SIZE
    ensures |r| == |m|
  {
    if key == BS && idx != 0 then m[idx - 1 := 0]
    else if key == ESC || key == CTRL_U then m[0 := 0]
    else if Printable(key) then m[idx := key][(idx + 1) % 256 := 0]
    else m
  }

  // ---- The tokenizer in place ----

  // Word t of a line stands at a, and is over by p or ends at p.
  predicate WordAt(line: seq<byte>, a: nat, t: seq<byte>, p: nat) {
    && p <= |line| && a + |t| <= p && line[a..a + |t|] == t && SPACE !in t
    && (a + |t| < p ==> line[a + |t|] == SPACE)
  }

  // The buffer after the first p characters of the line have been scanned
  predicate Scanned(buf: seq<byte>, line: seq<byte>, p: nat) {
    && p <= |line| < |buf| && buf[|line|] == 0
    && forall i :: 0 <= i < |line| ==> buf[i] == if i < p && line[i] == SPACE then 0 else line[i]
  }

  lemma WordGoesOn(line: seq<byte>, a: nat, t: seq<byte>, p: nat)
    requires p < |line| && WordAt(line, a, t, p)
    ensures a + |t| < p || line[p] == SPACE ==> WordAt(line, a, t, p + 1)
    ensures a + |t| == p && line[p] != SPACE ==> WordAt(line, a, t + [line[p]], p + 1)
  {
  }

  // What the scan reads and writes at p
  lemma ScanStep(was: seq<byte>, line: seq<byte>, p: nat)
    requires Scanned(was, line, 0) && p <= |line|
    ensures Blanks(was, line, 0) == was && (p == |line| ==> Scanned(Blanks(was, line, p), line, p))
    ensures Blanks(was, line, p)[p] == if p == |line| then 0 else line[p]
    ensures p < |line| ==>
      Blanks(was, line, p + 1) == if line[p] == SPACE then Blanks(was, line, p)[p := 0] else Blanks(was, line, p)
  {
  }

  // The words of the first p characters stand where args say; all but the last are over, and the
  // last is over just when the scan is looking for a new one.
  predicate ArgsAt(line: seq<byte>, args: seq<nat>, p: nat, bFindArg: bool) {
    p <= |line| &&
    var t := Split(line[..p]);
    && |args| == |t| && bFindArg == EndsWord(line[..p])
    && (!bFindArg ==> |args| > 0)
    && forall i :: 0 <= i < |args| ==>
         && WordAt(line, args[i], t[i], p)
         && (if !bFindArg && i == |args| - 1 then args[i] + |t[i]| == p else args[i] + |t[i]| < p)
  }

  lemma ArgsAtSpace(line: seq<byte>, args: seq<nat>, p: nat, bFindArg: bool)
    requires ArgsAt(line, args, p, bFindArg) && p < |line| && line[p] == SPACE
    ensures ArgsAt(line, args, p + 1, true)
  {
    var t := Split(line[..p]);
    SplitSnoc(line[..p], line[p]);
    assert line[..p + 1] == line[..p] + [line[p]];
    forall i | 0 <= i < |args| ensures WordAt(line, args[i], t[i], p + 1) {
      WordGoesOn(line, args[i], t[i], p);
    }
  }

  lemma ArgsAtStart(line: seq<byte>, args: seq<nat>, p: nat)
    requires ArgsAt(line, args, p, true) && p < |line| && line[p] != SPACE
    ensures ArgsAt(line, args + [p], p + 1, false)
  {
    var t := Split(line[..p]);
    SplitSnoc(line[..p], line[p]);
    assert line[..p + 1] == line[..p] + [line[p]];
    assert Split(line[..p + 1]) == t + [[line[p]]];
    assert line[p..p + 1] == [line[p]];
    forall i | 0 <= i < |args| ensures WordAt(line, args[i], t[i], p + 1) && args[i] + |t[i]| < p {
      WordGoesOn(line, args[i], t[i], p);
    }
  }

  lemma ArgsAtExtend(line: seq<byte>, args: seq<nat>, p: nat)
    requires ArgsAt(line, args, p, false) && p < |line| && line[p] != SPACE
    ensures ArgsAt(line, args, p + 1, false)
  {
    var t := Split(line[..p]);
    SplitSnoc(line[..p], line[p]);
    assert line[..p + 1] == line[..p] + [line[p]];
    forall i | 0 <= i < |args| ensures WordAt(line, args[i], Split(line[..p + 1])[i], p + 1) {
      WordGoesOn(line, args[i], t[i], p);
    }
  }

  // The starts of the words are where the words stand.
  lemma {:induction false} WordsAtStarts(line: seq<byte>, p: nat)
    requires p <= |line|
    ensures ArgsAt(line, StartsTo(line, p), p, WordMayStart(line, p))
  {
    if p > 0 {
      WordsAtStarts(line, p - 1);
      var args := StartsTo(line, p - 1);
      if line[p - 1] == SPACE {
        ArgsAtSpace(line, args, p - 1, WordMayStart(line, p - 1));
      } else if WordMayStart(line, p - 1) {
        ArgsAtStart(line, args, p - 1);
      } else {
        ArgsAtExtend(line, args, p - 1);
      }
    }
  }

  lemma WordHeld(buf: seq<byte>, line: seq<byte>, a: nat, t: seq<byte>)
    requires NoNul(line) && Scanned(buf, line, |line|) && WordAt(line, a, t, |line|)
    ensures Holds(buf, a, t)
  {
    forall i | 0 <= i < |t| ensures buf[a + i] == t[i] && t[i] != 0 {
      assert t[i] == line[a..a + |t|][i] == line[a + i];
      assert t[i] in t;
    }
    assert buf[a..a + |t|] == t;
  }

  lemma AllHeld(buf: seq<byte>, line: seq<byte>)
    requires NoNul(line) && Scanned(buf, line, |line|)
    ensures |Starts(line)| == |Split(line)|
    ensures forall i :: 0 <= i < |Split(line)| ==> Holds(buf, Starts(line)[i], Split(line)[i])
  {
    WordsAtStarts(line, |line|);
    assert line[..|line|] == line;
    forall i | 0 <= i < |Split(line)| ensures Holds(buf, Starts(line)[i], Split(line)[i]) {
      WordHeld(buf, line, Starts(line)[i], Split(line)[i]);
    }
  }

  // Word i of the line is the word at start i.
  lemma WordAtStart(line: seq<byte>, i: nat)
    requires i < |Starts(line)|
    ensures |Split(line)| == |Starts(line)| && WordFrom(line, Starts(line)[i]) == Split(line)[i]
  {
    WordsAtStarts(line, |line|);
    assert line[..|line|] == line;
    WordFromIs(line, Starts(line)[i], Split(line)[i]);
  }

  // ---- What a parsed line leaves behind ----

  const CMDLINE_BAD_CMD := -1
  const CMDLINE_TOO_MANY_ARGS := -2

  function Arguments(m: seq<byte>, argv: seq<nat>): (t: seq<seq<byte>>) {
    seq(|argv|, i requires 0 <= i < |argv| => CString(m, argv[i]))
  }

  lemma ArgumentsHeld(m: seq<byte>, argv: seq<nat>, t: seq<seq<byte>>)
    requires |argv| == |t| && forall i :: 0 <= i < |t| ==> Holds(m, argv[i], t[i])
    ensures Arguments(m, argv) == t
  {
    forall i | 0 <= i < |t| ensures CString(m, argv[i]) == t[i] {
      CStringHeld(m, argv[i], t[i]);
    }
  }

  // The outcome of a line from the status and the strings its command is handed
  function Ended(status: int, m: seq<byte>, argv: seq<nat>): Outcome {
    if status == CMDLINE_TOO_MANY_ARGS then TooManyArgs
    else if status < 0 then BadCmd
    else Outcome.Run(status, Arguments(m, argv))
  }

  lemma LineScanned(buf: seq<byte>, line: seq<byte>)
    requires |line| < |buf| && buf[..|line|] == line && buf[|line|] == 0
    requires AllPrintable(line)
    ensures NoNul(line) && Scanned(buf, line, 0)
  {
    forall i | 0 <= i < |line| ensures buf[i] == line[i] {
      assert buf[..|line|][i] == buf[i];
    }
  }

  // The word at a stands there as a C string once the line has been scanned.
  lemma WordFromHeld(buf: seq<byte>, line: seq<byte>, a: nat)
    requires NoNul(line) && Scanned(buf, line, 0) && a <= |line|
    requires Stop(line) == |line| || a + |WordFrom(line, a)| < Stop(line)
    ensures Holds(Blanked(buf, line), a, WordFrom(line, a))
  {
    var m, w := Blanked(buf, line), WordFrom(line, a);
    forall i | 0 <= i < |w| ensures m[a + i] == w[i] && w[i] != 0 {
      assert line[a + i] == line[a..a + |w|][i] == w[i];
      assert w[i] in w;
    }
    assert m[a..a + |w|] == w;
  }

  class Terminal {
    const cmdBuf: array<byte>
    const argv: array<nat>
    var cmdBufIdx: nat
    // the command table: where the names are, and (history) what they are
    const tableMem: array<byte>
    const table: seq<nat>
    ghost const names: seq<seq<byte>>
    var log: seq<Outcome>

    constructor (tableMem: array<byte>, table: seq<nat>, ghost names: seq<seq<byte>>)
      requires |table| == |names| && forall i :: 0 <= i < |table| ==> Holds(tableMem[..], table[i], names[i])
      ensures Valid() && Abstract() == Editor([], []) && this.names == names
      ensures fresh(cmdBuf) && fresh(argv) && cmdBuf[..] == seq<byte>(CMD_BUF_SIZE, i => 0) && argv[1] == 0
    {
      cmdBuf := new byte[CMD_BUF_SIZE](i => 0);
      argv := new nat[MAX_ARGS + 1](i => 0);
      cmdBufIdx := 0;
      this.tableMem, this.table, this.names, this.log := tableMem, table, names, [];
      new;
      assert cmdBuf[..0] == [];
    }

    ghost predicate TableValid()
      reads tableMem
    {
      |table| == |names| && forall i :: 0 <= i < |table| ==> Holds(tableMem[..], table[i], names[i])
    }

    // CmdBufIdx characters, all printable, and a NUL
    ghost predicate Valid()
      reads this, cmdBuf, tableMem
    {
      && TableValid() && cmdBuf != tableMem
      && cmdBuf.Length == 512 && argv.Length == 9
      && cmdBufIdx <= 255 && cmdBuf[cmdBufIdx] == 0
      && Sound(Editor(cmdBuf[..cmdBufIdx], log))
    }

    ghost function Abstract(): Editor
      requires Valid()
      reads this, cmdBuf, tableMem
    {
      Editor(cmdBuf[..cmdBufIdx], log)
    }

    // The scanning loop of CmdLineParse: spaces become NULs, argv points at the words.
    method Scan(ghost line: seq<byte>) returns (ok: bool, argc: nat)
      requires cmdBuf.Length == CMD_BUF_SIZE && argv.Length == MAX_ARGS + 1
      requires NoNul(line) && Scanned(cmdBuf[..], line, 0)
      modifies cmdBuf, argv
      ensures ok <==> |Split(line)| <= MAX_ARGS
      ensures ok ==> argc == |Split(line)| && forall i :: 0 <= i < argc ==> Holds(cmdBuf[..], argv[i], Split(line)[i])
      ensures cmdBuf[..] == Blanked(old(cmdBuf[..]), line) && argv[1] == Second(line, old(argv[1]))
    {
      var bFindArg, pcChar := true, 0;
      argc := 0;
      ScanStep(cmdBuf[..], line, 0);
      while cmdBuf[pcChar] != 0
        invariant pcChar <= |line| && cmdBuf[..] == Blanks(old(cmdBuf[..]), line, pcChar) && argc <= MAX_ARGS
        invariant argv[..argc] == StartsTo(line, pcChar) && bFindArg == WordMayStart(line, pcChar)
        invariant argc < 2 ==> argv[1] == old(argv[1])
        decreases |line| - pcChar
      {
        ScanStep(old(cmdBuf[..]), line, pcChar);
        assert pcChar < |line|;
        if cmdBuf[pcChar] == SPACE {
          cmdBuf[pcChar] := 0;
          bFindArg := true;
        } else {
          if bFindArg {
            if argc < MAX_ARGS {
              argv[argc] := pcChar;
              argc := argc + 1;
              bFindArg := false;
            } else {
              NinthWord(line, pcChar);
              return false, argc;
            }
          }
        }
        pcChar := pcChar + 1;
      }
      ScanStep(old(cmdBuf[..]), line, pcChar);
      AllHeld(cmdBuf[..], line);
      ok := true;
    }

    // The dispatch loop of CmdLineParse: the first table entry named w, which stands at argv[0].
    method Lookup(ghost w: seq<byte>) returns (entry: int)
      requires TableValid() && argv.Length > 0 && Holds(cmdBuf[..], argv[0], w)
      ensures entry == if FirstIndex(names, w) < |names| then FirstIndex(names, w) else CMDLINE_BAD_CMD
    {
      var i := 0;
      while i < |table|
        invariant i <= |table| && forall j :: 0 <= j < i ==> names[j] != w
      {
        var r := StrCmp(cmdBuf, argv[0], tableMem, table[i], w, names[i]);
        if r == 0 { return i; }
        i := i + 1;
      }
      return CMDLINE_BAD_CMD;
    }

    // A negative status is an error code, any other the table entry whose function gets argc and argv.
    method CmdLineParse(ghost line: seq<byte>) returns (status: int, argc: nat)
      requires TableValid() && cmdBuf != tableMem && cmdBuf.Length == CMD_BUF_SIZE && argv.Length == MAX_ARGS + 1
      requires NoNul(line) && Scanned(cmdBuf[..], line, 0)
      modifies cmdBuf, argv
      ensures argc <= MAX_ARGS && Ended(status, cmdBuf[..], argv[..argc]) == Meaning(line, names)
      ensures status >= -2 && (status == -2 <==> |Split(line)| > 8)
      ensures status == -1 <==> |Split(line)| <= 8 && (Split(line) == [] || Split(line)[0] !in names)
      ensures status >= 0 ==>
        argc == |Split(line)| && forall i :: 0 <= i < argc ==> Holds(cmdBuf[..], argv[i], Split(line)[i])
      ensures cmdBuf[..] == Blanked(old(cmdBuf[..]), line) && argv[1] == Second(line, old(argv[1]))
    {
      var ok;
      ok, argc := Scan(line);
      if !ok { return CMDLINE_TOO_MANY_ARGS, 0; }
      if argc > 0 {
        status := Lookup(Split(line)[0]);
        ArgumentsHeld(cmdBuf[..], argv[..argc], Split(line));
      } else {
        status := CMDLINE_BAD_CMD;
      }
    }

    // The branches of char_collect that edit the line. CmdBufIdx is an unsigned char.
    method Edit(key: byte)
      requires Valid() && key != CR && key != LF
      modifies `cmdBufIdx, cmdBuf
      ensures Valid() && Abstract() == Press(old(Abstract()), key, names)
      ensures cmdBuf[..] == Edited(old(cmdBuf[..]), old(cmdBufIdx), key)
    {
      if key == BS && cmdBufIdx != 0 {
        cmdBufIdx := cmdBufIdx - 1;
        cmdBuf[cmdBufIdx] := 0;
      } else if key == ESC || key == CTRL_U {
        while cmdBufIdx > 0
          modifies `cmdBufIdx
        {
          cmdBufIdx := cmdBufIdx - 1;
        }
        cmdBuf[0] := 0;
      } else if ' ' as int <= key && key <= '~' as int && cmdBufIdx < CMD_BUF_SIZE - 1 {
        cmdBuf[cmdBufIdx] := key;
        cmdBufIdx := (cmdBufIdx + 1) % 256;
        cmdBuf[cmdBufIdx] := 0;
      }
      PressSound(old(Abstract()), key, names);
      assert cmdBuf[..cmdBufIdx] == Press(old(Abstract()), key, names).line;
    }
  }
}
