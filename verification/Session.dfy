// A session at the console: keystrokes edit the command buffer, and return runs cd, rm or another command
// on the arguments that stand in it. What an earlier line left in argv[1] is part of the state.
module Session {
  import opened Words
  import opened Libc
  import opened Tokens
  import opened Console
  import opened Paths
  import opened Commands

  // ---- A session on values ----

  // The command buffer, the length of the line in it, argv[1] with 0 for the null pointer, the working
  // directory, and (history) the outcome and the effect of every line
  datatype Desk = Desk(mem: seq<byte>, idx: nat, arg1: nat, cwd: seq<byte>, log: seq<Outcome>, effects: seq<Effect>)

  const START := Desk(seq<byte>(CMD_BUF_SIZE, i => 0), 0, 0, ROOT, [], [])

  // What the commands are: their names, their functions, and the answers of the world
  datatype Setting = Setting(names: seq<seq<byte>>, fns: seq<Fn>, w: World)

  predicate Steady(d: Desk) {
    && |d.mem| == CMD_BUF_SIZE && d.idx <= 255 && d.mem[d.idx] == 0 && AllPrintable(d.mem[..d.idx])
    && (d.arg1 == 0 || 2 <= d.arg1 <= 255) && d.mem[CMD_BUF_SIZE - 1] == 0
  }

  function EditorOf(d: Desk): Editor
    requires Steady(d)
  {
    Editor(d.mem[..d.idx], d.log)
  }

  // The string at argv[1] once the line has been scanned
  function ArgumentOne(d: Desk, w: World): seq<byte>
    requires Steady(d)
  {
    var line := d.mem[..d.idx];
    var a := Second(line, d.arg1);
    if a == 0 then w.atNull else CString(Blanked(d.mem, line), a)
  }

  // Return on a line that is not empty
  function Entered(d: Desk, s: Setting): Desk
    requires Steady(d)
  {
    var line := d.mem[..d.idx];
    var o := Meaning(line, s.names);
    var e := Performed(d.cwd, o, s.fns, s.w, ArgumentOne(d, s.w));
    Desk(Blanked(d.mem, line)[0 := 0], 0, Second(line, d.arg1), e.cwd, d.log + [o], d.effects + [e])
  }

  function PressDesk(d: Desk, key: byte, s: Setting): Desk
    requires Steady(d)
  {
    if key == CR || key == LF then if d.idx == 0 then d else Entered(d, s)
    else d.(mem := Edited(d.mem, d.idx, key), idx := |Press(EditorOf(d), key, s.names).line|)
  }

  lemma EnteredSteady(d: Desk, s: Setting)
    requires Steady(d)
    ensures Steady(Entered(d, s)) && EditorOf(Entered(d, s)) == Editor([], d.log + [Meaning(d.mem[..d.idx], s.names)])
  {
    var line := d.mem[..d.idx];
    SecondIsPositive(line, |line|);
  }

  // One keystroke does to the line and the log what it does to the editor.
  lemma PressSteady(d: Desk, key: byte, s: Setting)
    requires Steady(d)
    ensures Steady(PressDesk(d, key, s)) && EditorOf(PressDesk(d, key, s)) == Press(EditorOf(d), key, s.names)
  {
    if key == CR || key == LF {
      EnteredSteady(d, s);
    } else {
      var e := PressDesk(d, key, s);
      assert e.mem[..e.idx] == Press(EditorOf(d), key, s.names).line;
    }
  }

  function PressAllDesk(d: Desk, keys: seq<byte>, s: Setting): (r: Desk)
    requires Steady(d)
    ensures Steady(r)
  {
    if keys == [] then d
    else
      var before := PressAllDesk(d, keys[..|keys| - 1], s);
      PressSteady(before, keys[|keys| - 1], s);
      PressDesk(before, keys[|keys| - 1], s)
  }

  // Every run of keystrokes does to the line and the log what it does to the editor.
  lemma {:induction false} RunEdits(d: Desk, keys: seq<byte>, s: Setting)
    requires Steady(d)
    ensures EditorOf(PressAllDesk(d, keys, s)) == PressAll(EditorOf(d), keys, s.names)
  {
    if keys != [] {
      RunEdits(d, keys[..|keys| - 1], s);
      PressSteady(PressAllDesk(d, keys[..|keys| - 1], s), keys[|keys| - 1], s);
    }
  }

  // No byte from 256 on is ever written.
  lemma {:induction false} UpperHalfKept(d: Desk, keys: seq<byte>, s: Setting)
    requires Steady(d)
    ensures PressAllDesk(d, keys, s).mem[256..] == d.mem[256..]
  {
    if keys != [] {
      UpperHalfKept(d, keys[..|keys| - 1], s);
      PressKeepsUpper(PressAllDesk(d, keys[..|keys| - 1], s), keys[|keys| - 1], s);
    }
  }

  lemma PressKeepsUpper(d: Desk, key: byte, s: Setting)
    requires Steady(d)
    ensures PressDesk(d, key, s).mem[256..] == d.mem[256..]
  {
  }

  lemma PressDeskAppend(d: Desk, keys: seq<byte>, key: byte, s: Setting)
    requires Steady(d)
    ensures PressAllDesk(d, keys + [key], s) == PressDesk(PressAllDesk(d, keys, s), key, s)
  {
    assert (keys + [key])[..|keys|] == keys;
  }

  lemma {:induction false} PressDeskConcat(d: Desk, first: seq<byte>, rest: seq<byte>, s: Setting)
    requires Steady(d)
    ensures PressAllDesk(d, first + rest, s) == PressAllDesk(PressAllDesk(d, first, s), rest, s)
  {
    if rest == [] {
      assert first + rest == first;
    } else {
      var n := |rest| - 1;
      var init, key := rest[..n], rest[n];
      PressDeskConcat(d, first, init, s);
      PressDeskAppend(d, first + init, key, s);
      PressDeskAppend(PressAllDesk(d, first, s), init, key, s);
      assert rest == init + [key];
      assert first + rest == (first + init) + [key];
    }
  }

  // ---- Where the lines decide ----

  predicate NoneStale(log: seq<Outcome>, fns: seq<Fn>) {
    forall i :: 0 <= i < |log| ==> !OneWordFileCommand(log[i], fns)
  }

  // As long as no line was a file command of one word, the effects are those of the lines.
  predicate Told(d: Desk, cwd: seq<byte>, s: Setting) {
    NoneStale(d.log, s.fns) ==> d.effects == EffectsOf(cwd, d.log, s.fns, s.w) && d.cwd == CwdAfter(cwd, d.effects)
  }

  lemma EnteredTold(d: Desk, cwd: seq<byte>, s: Setting)
    requires Steady(d) && Told(d, cwd, s)
    ensures Told(Entered(d, s), cwd, s)
  {
    var e := Entered(d, s);
    var o := Meaning(d.mem[..d.idx], s.names);
    assert e.log[..|d.log|] == d.log && e.log[|d.log|] == o;
    if NoneStale(e.log, s.fns) {
      assert NoneStale(d.log, s.fns) && !OneWordFileCommand(o, s.fns);
    }
  }

  lemma {:induction false} ToldAlways(d: Desk, keys: seq<byte>, cwd: seq<byte>, s: Setting)
    requires Steady(d) && Told(d, cwd, s)
    ensures Told(PressAllDesk(d, keys, s), cwd, s)
  {
    if keys != [] {
      var before := PressAllDesk(d, keys[..|keys| - 1], s);
      ToldAlways(d, keys[..|keys| - 1], cwd, s);
      EnteredTold(before, cwd, s);
    }
  }

  // From the start on, over every run of keystrokes: what the file system is asked and the working
  // directory follow from the lines the editor has submitted, unless one was a file command of one word.
  lemma LinesDecide(keys: seq<byte>, s: Setting)
    ensures var d := PressAllDesk(START, keys, s);
      var log := PressAll(Editor([], []), keys, s.names).log;
      NoneStale(log, s.fns) ==> d.effects == EffectsOf(ROOT, log, s.fns, s.w) && d.cwd == CwdAfter(ROOT, d.effects)
  {
    RunEdits(START, keys, s);
    assert EditorOf(START) == Editor([], []);
    ToldAlways(START, keys, ROOT, s);
  }

  // ---- What an earlier line leaves to a later one ----

  // Memory with a C string at its start
  function Written(m: seq<byte>, text: seq<byte>): (r: seq<byte>)
    requires |text| < |m|
    ensures |r| == |m| && r[..|text|] == text && r[|text|] == 0
  {
    text + [0] + m[|text| + 1..]
  }

  lemma WrittenSnoc(m: seq<byte>, text: seq<byte>, c: byte)
    requires |text| + 1 < |m|
    ensures Written(m, text + [c]) == Written(m, text)[|text| := c][|text| + 1 := 0]
  {
  }

  // Typing a line of fewer than 256 characters onto an empty line
  lemma {:induction false} Typing(d: Desk, text: seq<byte>, s: Setting)
    requires Steady(d) && d.idx == 0 && AllPrintable(text) && |text| < 256
    ensures PressAllDesk(d, text, s) == d.(mem := Written(d.mem, text), idx := |text|)
  {
    if text == [] {
      assert Written(d.mem, []) == d.mem;
    } else {
      var init, key := text[..|text| - 1], text[|text| - 1];
      assert text == init + [key];
      Typing(d, init, s);
      OneMoreTyped(PressAllDesk(d, init, s), key, s);
      WrittenSnoc(d.mem, init, key);
    }
  }

  lemma OneMoreTyped(d: Desk, key: byte, s: Setting)
    requires Steady(d) && Printable(key) && d.idx < 255
    ensures PressDesk(d, key, s) == d.(mem := d.mem[d.idx := key][d.idx + 1 := 0], idx := d.idx + 1)
  {
  }

  lemma TypedAndEntered(d: Desk, text: seq<byte>, s: Setting)
    requires Steady(d) && d.idx == 0 && AllPrintable(text) && 0 < |text| < 256
    ensures var typed := d.(mem := Written(d.mem, text), idx := |text|);
      && Steady(typed) && Scanned(typed.mem, text, 0) && NoNul(text)
      && PressAllDesk(d, text + [CR], s) == Entered(typed, s)
  {
    Typing(d, text, s);
    PressDeskAppend(d, text, CR, s);
    LineScanned(Written(d.mem, text), text);
  }

  // A line of two words or more leaves argv[1] at its second word, and the word in place.
  lemma SecondWordStays(d: Desk, text: seq<byte>, s: Setting)
    requires Steady(d) && d.idx == 0 && AllPrintable(text) && |text| < 256 && |Starts(text)| >= 2
    ensures var a := Starts(text)[1];
      var after := PressAllDesk(d, text + [CR], s);
      && Steady(after) && after.idx == 0 && after.arg1 == a && a >= 2 && Holds(after.mem, a, WordFrom(text, a))
  {
    TypedAndEntered(d, text, s);
    var a, m := Starts(text)[1], Written(d.mem, text);
    SecondIsPositive(text, |text|);
    WordOver(text, 1);
    WordFromHeld(m, text, a);
    HoldsAbove(Blanked(m, text), [0], a, WordFrom(text, a));
  }

  // A string is still held where only what lies before it was overwritten.
  lemma HoldsAbove(m: seq<byte>, front: seq<byte>, a: nat, w: seq<byte>)
    requires Holds(m, a, w) && |front| <= a
    ensures Holds(front + m[|front|..], a, w) && (|front| == 1 ==> Holds(m[0 := front[0]], a, w))
  {
    var n := front + m[|front|..];
    assert n[a..a + |w|] == m[a..a + |w|];
    if |front| == 1 { assert m[0 := front[0]] == n; }
  }

  // What a later line of one word finds at argv[1]: the second word of the first line, or what the
  // second line has put in its place.
  function LeftOver(first: seq<byte>, second: seq<byte>): seq<byte>
    requires |Starts(first)| >= 2
  {
    var a := Starts(first)[1];
    if |second| < a then WordFrom(first, a) else WordFrom(second, a)
  }

  lemma StringAtOne(m: seq<byte>, first: seq<byte>, second: seq<byte>)
    requires |Starts(first)| >= 2 && |Starts(second)| < 2 && |second| < |m|
    requires Holds(m, Starts(first)[1], WordFrom(first, Starts(first)[1]))
    requires NoNul(second) && Scanned(Written(m, second), second, 0)
    ensures CString(Blanked(Written(m, second), second), Starts(first)[1]) == LeftOver(first, second)
  {
    var a, r := Starts(first)[1], Blanked(Written(m, second), second);
    if |second| < a {
      var front := r[..|second| + 1];
      HoldsAbove(m, front, a, WordFrom(first, a));
      assert r == front + m[|front|..];
    } else {
      WordFromHeld(Written(m, second), second, a);
    }
    CStringHeld(r, a, LeftOver(first, second));
  }

  // The effect of a line of at most one word after a line of at least two
  lemma TwoLines(d: Desk, first: seq<byte>, second: seq<byte>, s: Setting)
    requires Steady(d) && d.idx == 0 && AllPrintable(first) && |first| < 256 && |Starts(first)| >= 2
    requires AllPrintable(second) && 0 < |second| < 256 && |Starts(second)| < 2
    ensures var one := PressAllDesk(d, first + [CR], s);
      PressAllDesk(d, first + [CR] + (second + [CR]), s).effects
      == one.effects + [Performed(one.cwd, Meaning(second, s.names), s.fns, s.w, LeftOver(first, second))]
  {
    var one := PressAllDesk(d, first + [CR], s);
    PressDeskConcat(d, first + [CR], second + [CR], s);
    SecondWordStays(d, first, s);
    TypedAndEntered(one, second, s);
    StringAtOne(one.mem, first, second);
  }

  // While argv[1] is the null pointer, a line of at most one word finds what is at address 0.
  lemma NullArgument(d: Desk, line: seq<byte>, s: Setting)
    requires Steady(d) && d.idx == 0 && d.arg1 == 0
    requires AllPrintable(line) && 0 < |line| < 256 && |Starts(line)| < 2
    ensures PressAllDesk(d, line + [CR], s).effects
      == d.effects + [Performed(d.cwd, Meaning(line, s.names), s.fns, s.w, s.w.atNull)]
  {
    TypedAndEntered(d, line, s);
  }

  lemma AsManyStarts(line: seq<byte>)
    ensures |Starts(line)| == |Split(line)|
  {
    StartsOfWords(line, |line|);
    assert line[..|line|] == line;
  }

  lemma CatLine(x: seq<byte>)
    requires x != [] && SPACE !in x
    ensures |Starts(Line("cat", x))| == 2 && Starts(Line("cat", x))[1] == 4 && WordFrom(Line("cat", x), 4) == x
    ensures Meaning(Line("cat", x), CommandNames()) == Outcome.Run(8, [Bytes("cat"), x])
  {
    var line := Line("cat", x);
    CatMeans(x);
    AsManyStarts(line);
    var a := Starts(line)[1];
    SecondIsPositive(line, |line|);
    StartsAre(line, |line|, 1);
    assert forall i :: 4 <= i < |line| ==> line[i] == x[i - 4];
    WordAtStart(line, 1);
  }

  // A line that needs no argument from elsewhere does what it says.
  lemma OneLine(d: Desk, text: seq<byte>, s: Setting, e: Effect)
    requires Steady(d) && d.idx == 0 && AllPrintable(text) && 0 < |text| < 256
    requires forall stale :: Performed(d.cwd, Meaning(text, s.names), s.fns, s.w, stale) == e
    ensures var one := PressAllDesk(d, text + [CR], s); one.cwd == e.cwd && one.effects == d.effects + [e]
  {
    TypedAndEntered(d, text, s);
  }

  lemma CatPerformed(cwd: seq<byte>, x: seq<byte>, w: World, stale: seq<byte>)
    requires x != [] && SPACE !in x
    ensures Performed(cwd, Meaning(Line("cat", x), CommandNames()), CommandFns(), w, stale)
      == Effect(w.other(8, [Bytes("cat"), x]), cwd, Nothing)
  {
    CatMeans(x);
    assert CommandFns()[8] == Other;
  }

  lemma CatRuns(d: Desk, x: seq<byte>, s: Setting)
    requires Steady(d) && d.idx == 0 && x != [] && SPACE !in x && AllPrintable(x) && |x| + 4 < 256
    requires s.names == CommandNames() && s.fns == CommandFns()
    ensures var one := PressAllDesk(d, Line("cat", x) + [CR], s);
      one.cwd == d.cwd && one.effects == d.effects + [Effect(s.w.other(8, [Bytes("cat"), x]), d.cwd, Nothing)]
  {
    CatIsPrintable(x);
    forall stale ensures Performed(d.cwd, Meaning(Line("cat", x), s.names), s.fns, s.w, stale)
      == Effect(s.w.other(8, [Bytes("cat"), x]), d.cwd, Nothing)
    {
      CatPerformed(d.cwd, x, s.w, stale);
    }
    OneLine(d, Line("cat", x), s, Effect(s.w.other(8, [Bytes("cat"), x]), d.cwd, Nothing));
  }

  lemma CatIsPrintable(x: seq<byte>)
    requires AllPrintable(x)
    ensures AllPrintable(Line("cat", x)) && AllPrintable(Bytes("rm"))
  {
  }

  lemma RmRuns(cwd: seq<byte>, w: World, stale: seq<byte>)
    ensures Performed(cwd, Meaning(Bytes("rm"), CommandNames()), CommandFns(), w, stale) == RmEffect(cwd, stale, w)
    ensures |Starts(Bytes("rm"))| == 1
  {
    RmAlone();
    AsManyStarts(Bytes("rm"));
    RunsFileCommand(cwd, Meaning(Bytes("rm"), CommandNames()), w, stale);
  }

  // The lines "cat x" and "rm": the second asks for x to be deleted.
  lemma CatThenRm(d: Desk, x: seq<byte>, s: Setting)
    requires Steady(d) && d.idx == 0 && x != [] && SPACE !in x && AllPrintable(x) && |x| + 4 < 256
    requires s.names == CommandNames() && s.fns == CommandFns()
    ensures PressAllDesk(d, Line("cat", x) + [CR] + (Bytes("rm") + [CR]), s).effects
      == d.effects + [Effect(s.w.other(8, [Bytes("cat"), x]), d.cwd, Nothing)] + [RmEffect(d.cwd, x, s.w)]
  {
    CatLine(x);
    CatIsPrintable(x);
    CatRuns(d, x, s);
    RmRuns(d.cwd, s.w, x);
    TwoLines(d, Line("cat", x), Bytes("rm"), s);
  }

  // ---- The session in place ----

  // argv[1] is the second word if there is one, and in any case a C string.
  lemma ArgumentHeld(d: Desk, s: Setting)
    requires Steady(d) && NoNul(d.mem[..d.idx]) && Scanned(d.mem, d.mem[..d.idx], 0)
    ensures var line := d.mem[..d.idx];
      var a := Second(line, d.arg1);
      && (a == 0 || 2 <= a <= 255)
      && (a != 0 ==> Holds(Blanked(d.mem, line), a, ArgumentOne(d, s.w)))
    ensures var o := Meaning(d.mem[..d.idx], s.names);
      o.Run? ==> FileArg(o, ArgumentOne(d, s.w)) == ArgumentOne(d, s.w)
  {
    var line := d.mem[..d.idx];
    var a := Second(line, d.arg1);
    SecondIsPositive(line, |line|);
    AsManyStarts(line);
    if a != 0 { HeldAnywhere(Blanked(d.mem, line), a); }
    if |Starts(line)| >= 2 {
      WordOver(line, 1);
      WordAtStart(line, 1);
      WordFromHeld(d.mem, line, a);
      CStringHeld(Blanked(d.mem, line), a, WordFrom(line, a));
    }
  }

  class Session {
    const t: Terminal
    const shell: Shell
    const rom: array<byte>  // memory from address 0 on
    const behind: nat -> byte  // memory behind the command buffer
    const fns: seq<Fn>
    const w: World
    ghost var cwd: seq<byte>
    var effects: seq<Effect>

    constructor (tableMem: array<byte>, table: seq<nat>, ghost names: seq<seq<byte>>, fns: seq<Fn>, w: World,
                 rom: array<byte>, behind: nat -> byte)
      requires |table| == |names| && forall i :: 0 <= i < |table| ==> Holds(tableMem[..], table[i], names[i])
      requires rom.Length >= PATH_BUF_SIZE && Holds(rom[..], 0, w.atNull)
      ensures Valid() && Value() == START && Given() == Setting(names, fns, w)
    {
      this.t := new Terminal(tableMem, table, names);
      this.shell := new Shell();
      this.rom, this.behind, this.fns, this.w, this.cwd, this.effects := rom, behind, fns, w, ROOT, [];
      new;
    }

    ghost function Given(): Setting
    {
      Setting(t.names, fns, w)
    }

    ghost predicate Apart() {
      t.cmdBuf != rom && t.cmdBuf != t.tableMem && shell.Apart({t.cmdBuf, t.tableMem, rom})
    }

    ghost predicate Valid()
      reads this, t, t.cmdBuf, t.argv, t.tableMem, rom
      reads shell.cwdBuf, shell.tmpBufPath, shell.slash, shell.dots
    {
      && Apart() && t.Valid() && shell.Valid(cwd) && rom.Length >= PATH_BUF_SIZE && Holds(rom[..], 0, w.atNull)
      && Steady(Value())
    }

    ghost function Value(): Desk
      requires t.argv.Length == MAX_ARGS + 1
      reads this, t, t.cmdBuf, t.argv
    {
      Desk(t.cmdBuf[..], t.cmdBufIdx, t.argv[1], cwd, t.log, effects)
    }

    // The call of Cmd_cd or Cmd_rm with argv
    method Call(fn: Fn, ghost arg: seq<byte>)
      returns (code: int, asked: Request, ghost inside: bool, ghost below: bool)
      requires Apart() && shell.Valid(cwd) && fn != Other
      requires t.cmdBuf.Length == CMD_BUF_SIZE && t.argv.Length == MAX_ARGS + 1 && rom.Length >= PATH_BUF_SIZE
      requires t.argv[1] == 0 ==> Holds(rom[..], 0, arg)
      requires t.argv[1] != 0 ==> t.argv[1] >= 2 && Holds(t.cmdBuf[..], t.argv[1], arg)
      modifies shell.cwdBuf, shell.tmpBufPath, `cwd
      ensures shell.Valid(cwd)
      ensures Effect(code, cwd, asked) == if fn == Cd then CdEffect(old(cwd), arg, w) else RmEffect(old(cwd), arg, w)
      ensures inside <==> asked == Nothing || !Absolute(arg) || t.argv[1] == 0
      ensures below <==> fn == Cd && old(cwd) == [] && arg == UP
    {
      var m := if t.argv[1] == 0 then rom else t.cmdBuf;
      var path;
      if fn == Cd {
        path, code, inside, below := shell.CmdCd(m, t.argv[1], behind, w.opendir, cwd, arg);
        cwd := AfterCd(cwd, arg, code);
        asked := if path.Some? then OpenDir(path.value) else Nothing;
      } else {
        path, code, inside := shell.CmdRm(m, t.argv[1], behind, w.unlink, cwd, arg);
        below := false;
        asked := if path.Some? then Unlink(path.value) else Nothing;
      }
    }

    // CmdLineParse, with the commands it calls. A path copied out of the command buffer is always read past
    // the end of that buffer, which makes no difference to the effect.
    method CmdLineParse() returns (outcome: Outcome, code: int, asked: Request, ghost inside: bool, ghost below: bool)
      requires Valid()
      modifies t.cmdBuf, t.argv, shell.cwdBuf, shell.tmpBufPath, `cwd
      ensures shell.Valid(cwd) && t.TableValid()
      ensures var d := old(Value());
        && t.cmdBuf[..] == Blanked(d.mem, d.mem[..d.idx]) && t.argv[1] == Second(d.mem[..d.idx], d.arg1)
        && outcome == Meaning(d.mem[..d.idx], t.names)
        && (|Split(d.mem[..d.idx])| > 8 ==> code == -2 && asked == Nothing && cwd == d.cwd)
        && (|Split(d.mem[..d.idx])| <= 8 && (Split(d.mem[..d.idx]) == [] || Split(d.mem[..d.idx])[0] !in t.names) ==>
              code == -1 && asked == Nothing && cwd == d.cwd)
        && Effect(code, cwd, asked) == Performed(d.cwd, outcome, fns, w, ArgumentOne(d, w))
        && (inside <==> !CopiesPath(d.cwd, outcome, fns, ArgumentOne(d, w)) || t.argv[1] == 0)
        && (below <==> SearchesBelow(d.cwd, outcome, fns, ArgumentOne(d, w)))
    {
      ghost var d := Value();
      ghost var line := d.mem[..d.idx];
      LineScanned(d.mem, line);
      ArgumentHeld(d, Given());
      var status, argc := t.CmdLineParse(line);
      outcome := Ended(status, t.cmdBuf[..], t.argv[..argc]);
      asked, inside, below := Nothing, true, false;
      if status < 0 {
        code := status;
      } else if status < |fns| && fns[status] != Other {
        code, asked, inside, below := Call(fns[status], ArgumentOne(d, w));
      } else {
        code := w.other(status, Arguments(t.cmdBuf[..], t.argv[..argc]));
      }
    }

    method CmdLineProcess()
      requires Valid()
      modifies t`log, t.cmdBuf, t.argv, shell.cwdBuf, shell.tmpBufPath, `cwd, `effects
      ensures shell.Valid(cwd) && t.TableValid()
      ensures Value().(idx := 0) == PressDesk(old(Value()), CR, Given())
    {
      if t.cmdBuf[0] != 0 {
        var outcome, code, asked;
        ghost var inside, below;
        outcome, code, asked, inside, below := CmdLineParse();
        CStringHeld(shell.cwdBuf[..], 0, cwd);
        t.log := t.log + [outcome];
        effects := effects + [Effect(code, CString(shell.cwdBuf[..], 0), asked)];
      }
      t.cmdBuf[0] := 0;
    }

    // char_collect
    method CharCollect(key: byte)
      requires Valid()
      modifies t, t.cmdBuf, t.argv, shell.cwdBuf, shell.tmpBufPath, `cwd, `effects
      ensures Valid() && Value() == PressDesk(old(Value()), key, Given())
    {
      ghost var d := Value();
      PressSteady(d, key, Given());
      if key == CR || key == LF {
        CmdLineProcess();
        t.cmdBufIdx := 0;
        t.cmdBuf[t.cmdBufIdx] := 0;
      } else {
        t.Edit(key);
      }
    }

    // Every run of keystrokes does to the machine what it does to the session on values.
    method Run(keys: seq<byte>)
      requires Valid()
      modifies t, t.cmdBuf, t.argv, shell.cwdBuf, shell.tmpBufPath, `cwd, `effects
      ensures Valid() && Value() == PressAllDesk(old(Value()), keys, Given())
      ensures t.cmdBuf[256..] == old(t.cmdBuf[256..])
    {
      assert keys[..0] == [];
      for k := 0 to |keys|
        invariant Valid() && Value() == PressAllDesk(old(Value()), keys[..k], Given())
      {
        CharCollect(keys[k]);
        PressDeskAppend(old(Value()), keys[..k], keys[k], Given());
        assert keys[..k + 1] == keys[..k] + [keys[k]];
      }
      assert keys[..|keys|] == keys;
      UpperHalfKept(old(Value()), keys, Given());
      assert t.cmdBuf[256..] == t.cmdBuf[..][256..];
    }
  }
}
