// What a command line does: the effect of cd and rm on the working directory and what they ask of the
// file system.
module Commands {
  import opened Words
  import opened Libc
  import opened Tokens
  import opened Console
  import opened Paths

  function Bytes(s: string): (b: seq<byte>)
    ensures |b| == |s| && forall i :: 0 <= i < |s| ==> b[i] == s[i] as int % 256
  {
    seq<byte>(|s|, i requires 0 <= i < |s| => s[i] as int % 256)
  }

  // The characters with a meaning in command lines and paths
  lemma Characters()
    ensures [SPACE] == Bytes(" ") && [SLASH] == Bytes("/") == ROOT && UP == Bytes("..") && DOT == Bytes(".")
  {
  }

  // The functions of the command table this model executes
  datatype Fn = Cd | Rm | Other

  // What the world answers: the file system, the return code of any other command, and the C string at
  // address 0, where a null pointer points
  datatype World = World(opendir: seq<byte> -> int, unlink: seq<byte> -> int,
                         other: (nat, seq<seq<byte>>) -> int, atNull: seq<byte>)

  datatype Request = Nothing | OpenDir(path: seq<byte>) | Unlink(path: seq<byte>)

  // The return code of CmdLineParse, the working directory afterwards, and the request to the file system
  datatype Effect = Effect(code: int, cwd: seq<byte>, asked: Request)

  function CdEffect(cwd: seq<byte>, arg: seq<byte>, w: World): Effect {
    match CdTarget(cwd, arg)
    case None => Effect(FR_OK, cwd, Nothing)
    case Some(t) => Effect(w.opendir(t), AfterCd(cwd, arg, w.opendir(t)), OpenDir(t))
  }

  function RmEffect(cwd: seq<byte>, arg: seq<byte>, w: World): Effect {
    match RmTarget(cwd, arg)
    case None => Effect(FR_OK, cwd, Nothing)
    case Some(t) => Effect(w.unlink(t), cwd, Unlink(t))
  }

  function Called(o: Outcome, fns: seq<Fn>): Fn {
    if o.Run? && o.entry < |fns| then fns[o.entry] else Other
  }

  // The argument of a file command: cd and rm read argv[1] without looking at argc, so a line of one word
  // leaves them what argv[1] pointed to before.
  function FileArg(o: Outcome, stale: seq<byte>): seq<byte>
    requires o.Run?
  {
    if |o.args| >= 2 then o.args[1] else stale
  }

  function Performed(cwd: seq<byte>, o: Outcome, fns: seq<Fn>, w: World, stale: seq<byte>): Effect {
    match o
    case TooManyArgs => Effect(CMDLINE_TOO_MANY_ARGS, cwd, Nothing)
    case BadCmd => Effect(CMDLINE_BAD_CMD, cwd, Nothing)
    case Run(entry, args) =>
      match Called(o, fns)
      case Other => Effect(w.other(entry, args), cwd, Nothing)
      case Cd => CdEffect(cwd, FileArg(o, stale), w)
      case Rm => RmEffect(cwd, FileArg(o, stale), w)
  }

  predicate OneWordFileCommand(o: Outcome, fns: seq<Fn>) {
    Called(o, fns) != Other && |o.args| < 2
  }

  ghost predicate AllTheSame(cwd: seq<byte>, o: Outcome, fns: seq<Fn>, w: World) {
    forall x, y :: Performed(cwd, o, fns, w, x) == Performed(cwd, o, fns, w, y)
  }

  // The effect of a line depends on that line alone, and not on what an earlier line left in argv[1], just
  // when the line is not a file command of one word.
  lemma LineAloneDecides(cwd: seq<byte>, o: Outcome, fns: seq<Fn>)
    ensures (forall w :: AllTheSame(cwd, o, fns, w)) <==> !OneWordFileCommand(o, fns)
  {
    if OneWordFileCommand(o, fns) {
      var w := World(path => FR_OK, path => FR_OK, (entry, args) => FR_OK, []);
      TwoArguments(cwd, w);
      var a, b := [SLASH, 97], [SLASH, 98];
      assert Performed(cwd, o, fns, w, a) != Performed(cwd, o, fns, w, b);
      assert !AllTheSame(cwd, o, fns, w);
    }
  }

  lemma TwoArguments(cwd: seq<byte>, w: World)
    ensures CdEffect(cwd, [SLASH, 97], w) != CdEffect(cwd, [SLASH, 98], w)
    ensures RmEffect(cwd, [SLASH, 97], w) != RmEffect(cwd, [SLASH, 98], w)
  {
    var a, b := [SLASH, 97], [SLASH, 98];
    assert a[1] != b[1];
  }

  // The commands that copy an absolute path out of the memory of their argument
  predicate CopiesPath(cwd: seq<byte>, o: Outcome, fns: seq<Fn>, stale: seq<byte>) {
    && Called(o, fns) != Other && Absolute(FileArg(o, stale))
    && (if Called(o, fns) == Cd then CdTarget(cwd, FileArg(o, stale)).Some?
        else RmTarget(cwd, FileArg(o, stale)).Some?)
  }

  // cd .. at the empty path, which searches below the scratch buffer
  predicate SearchesBelow(cwd: seq<byte>, o: Outcome, fns: seq<Fn>, stale: seq<byte>) {
    Called(o, fns) == Cd && cwd == [] && FileArg(o, stale) == UP
  }

  // The effects of lines one after another, for lines that are no file commands of one word
  function EffectsOf(cwd: seq<byte>, log: seq<Outcome>, fns: seq<Fn>, w: World): (e: seq<Effect>)
    ensures |e| == |log|
  {
    if log == [] then []
    else
      var e := EffectsOf(cwd, log[..|log| - 1], fns, w);
      e + [Performed(CwdAfter(cwd, e), log[|log| - 1], fns, w, [])]
  }

  function CwdAfter(cwd: seq<byte>, e: seq<Effect>): seq<byte> {
    if e == [] then cwd else e[|e| - 1].cwd
  }

  // ---- The command table ----

  function CommandNames(): (n: seq<seq<byte>>)
    ensures |n| == 13
  {
    [ Bytes("help"), Bytes("h"), Bytes("?"), Bytes("ls"), Bytes("chdir"), Bytes("mkdir"), Bytes("cd"),
      Bytes("pwd"), Bytes("cat"), Bytes("rm"), Bytes("udptx"), Bytes("udplog"), Bytes("udplog0") ]
  }

  function CommandFns(): seq<Fn> {
    [Other, Other, Other, Other, Cd, Other, Cd, Other, Other, Rm, Other, Other, Other]
  }

  function Line(command: string, arg: seq<byte>): seq<byte> { Bytes(command + " ") + arg }

  lemma LineMeans(command: string, arg: seq<byte>, entry: nat)
    requires arg != [] && SPACE !in arg && Bytes(command) != [] && SPACE !in Bytes(command)
    requires entry < 13 && CommandNames()[entry] == Bytes(command)
    requires forall j :: 0 <= j < entry ==> CommandNames()[j] != Bytes(command)
    ensures Meaning(Line(command, arg), CommandNames()) == Outcome.Run(entry, [Bytes(command), arg])
  {
    var words := [Bytes(command), arg];
    assert words[1..] == [arg];
    assert Bytes(command + " ") == Bytes(command) + [SPACE];
    assert Spaced(words) == Line(command, arg);
    SpacedMeans(words, entry, CommandNames());
  }

  lemma CdMeans(arg: seq<byte>)
    requires arg != [] && SPACE !in arg
    ensures Meaning(Line("cd", arg), CommandNames()) == Outcome.Run(6, [Bytes("cd"), arg])
  {
    var cd := Bytes("cd");
    assert cd[0] == 99 && cd[1] == 100;
    assert CommandNames()[4][1] == 104;
    assert CommandNames()[2][0] == 63 && CommandNames()[3][0] == 108 && CommandNames()[5][0] == 109;
    LineMeans("cd", arg, 6);
  }

  lemma ChdirMeans(arg: seq<byte>)
    requires arg != [] && SPACE !in arg
    ensures Meaning(Line("chdir", arg), CommandNames()) == Outcome.Run(4, [Bytes("chdir"), arg])
  {
    var chdir, n := Bytes("chdir"), CommandNames();
    assert chdir[0] == 99 && n[0][0] == 104 && n[1][0] == 104 && n[2][0] == 63 && n[3][0] == 108;
    LineMeans("chdir", arg, 4);
  }

  lemma RmEntry()
    ensures CommandNames()[9] == Bytes("rm") && SPACE !in Bytes("rm")
    ensures forall j :: 0 <= j < 9 ==> CommandNames()[j] != Bytes("rm")
  {
    var rm := Bytes("rm");
    assert rm[0] == 114 && rm[1] == 109;
    var n := CommandNames();
    assert n[3][0] == 108 && n[4][0] == 99 && n[5][0] == 109 && n[6][0] == 99;
    assert n[2][0] == 63 && n[7][0] == 112 && n[8][0] == 99;
  }

  lemma RmMeans(arg: seq<byte>)
    requires arg != [] && SPACE !in arg
    ensures Meaning(Line("rm", arg), CommandNames()) == Outcome.Run(9, [Bytes("rm"), arg])
  {
    RmEntry();
    LineMeans("rm", arg, 9);
  }

  lemma RmAlone()
    ensures Meaning(Bytes("rm"), CommandNames()) == Outcome.Run(9, [Bytes("rm")])
    ensures OneWordFileCommand(Meaning(Bytes("rm"), CommandNames()), CommandFns())
  {
    RmEntry();
    assert Spaced([Bytes("rm")]) == Bytes("rm");
    SpacedMeans([Bytes("rm")], 9, CommandNames());
  }

  lemma CatMeans(arg: seq<byte>)
    requires arg != [] && SPACE !in arg
    ensures Meaning(Line("cat", arg), CommandNames()) == Outcome.Run(8, [Bytes("cat"), arg])
  {
    var cat := Bytes("cat");
    assert cat[0] == 99 && cat[1] == 97;
    var n := CommandNames();
    assert n[4][1] == 104 && n[6][1] == 100;
    assert n[2][0] == 63 && n[3][0] == 108 && n[5][0] == 109 && n[7][0] == 112;
    LineMeans("cat", arg, 8);
  }

  lemma RunsFileCommand(cwd: seq<byte>, o: Outcome, w: World, stale: seq<byte>)
    requires o.Run? && (o.entry == 4 || o.entry == 6 || o.entry == 9)
    ensures var arg := FileArg(o, stale);
      && Performed(cwd, o, CommandFns(), w, stale)
         == (if o.entry == 9 then RmEffect(cwd, arg, w) else CdEffect(cwd, arg, w))
      && (o.entry != 9 ==> (CopiesPath(cwd, o, CommandFns(), stale) <==> Absolute(arg) && CdTarget(cwd, arg).Some?))
  {
    assert CommandFns()[4] == CommandFns()[6] == Cd && CommandFns()[9] == Rm;
  }

  // The lines "cd arg" and "chdir arg" have the same effect, and no other line of the table changes the directory
  // or asks for anything, but "rm arg".
  lemma ChdirIsCd(cwd: seq<byte>, arg: seq<byte>, w: World, stale: seq<byte>)
    requires arg != [] && SPACE !in arg
    ensures Performed(cwd, Meaning(Line("chdir", arg), CommandNames()), CommandFns(), w, stale)
      == Performed(cwd, Meaning(Line("cd", arg), CommandNames()), CommandFns(), w, stale)
      == CdEffect(cwd, arg, w)
    ensures forall o: Outcome, s :: o.Run? && o.entry !in {4, 6, 9} ==>
      Performed(cwd, o, CommandFns(), w, s) == Effect(w.other(o.entry, o.args), cwd, Nothing)
  {
    ChdirMeans(arg);
    CdMeans(arg);
    RunsFileCommand(cwd, Meaning(Line("chdir", arg), CommandNames()), w, stale);
    RunsFileCommand(cwd, Meaning(Line("cd", arg), CommandNames()), w, stale);
    forall o: Outcome, s | o.Run? && o.entry !in {4, 6, 9}
      ensures Performed(cwd, o, CommandFns(), w, s) == Effect(w.other(o.entry, o.args), cwd, Nothing)
    {
      OtherEntries(o.entry);
    }
  }

  lemma OtherEntries(i: nat)
    ensures i < |CommandFns()| && i !in {4, 6, 9} ==> CommandFns()[i] == Other
  {
  }

  // The line "cd name" and then the line "cd .." lead back, if the file system opens both directories.
  lemma CdLinesRoundTrip(c: seq<seq<byte>>, n: seq<byte>, w: World, stale: seq<byte>)
    requires Names(c) && ValidArg(Down(n)) && SPACE !in n && |Render(c)| + |n| + 2 <= PATH_BUF_SIZE
    requires w.opendir(Render(c)) == FR_OK == w.opendir(Render(c + [n]))
    ensures Performed(Render(c), Meaning(Line("cd", n), CommandNames()), CommandFns(), w, stale)
      == Effect(FR_OK, Render(c + [n]), OpenDir(Render(c + [n])))
    ensures Performed(Render(c + [n]), Meaning(Line("cd", UP), CommandNames()), CommandFns(), w, stale)
      == Effect(FR_OK, Render(c), OpenDir(Render(c)))
  {
    CdMeans(n);
    CdMeans(UP);
    RunsFileCommand(Render(c), Meaning(Line("cd", n), CommandNames()), w, stale);
    RunsFileCommand(Render(c + [n]), Meaning(Line("cd", UP), CommandNames()), w, stale);
    CdRoundTrip(c, n);
    NotAbsolute(n);
    DownRendered(Render(c), c, n);
    UpRendered(c, n);
  }

  lemma NeverEmpty(c: seq<seq<byte>>)
    ensures Render(c) != []
  {
  }

  // The line "rm path" asks for nothing just when the path is the working directory or an ancestor,
  // the root excepted unless it is the working directory; otherwise it asks for exactly that path.
  lemma RmLineGuarded(c: seq<seq<byte>>, a: seq<seq<byte>>, w: World, stale: seq<byte>)
    requires Names(c) && Names(a) && SPACE !in Render(a) && |Render(a)| < PATH_BUF_SIZE
    ensures Performed(Render(c), Meaning(Line("rm", Render(a)), CommandNames()), CommandFns(), w, stale).asked
      == if a <= c && (a == [] ==> c == []) then Nothing else Unlink(Render(a))
  {
    NeverEmpty(a);
    RmMeans(Render(a));
    RunsFileCommand(Render(c), Meaning(Line("rm", Render(a)), CommandNames()), w, stale);
    RmGuard(c, a);
  }

  // A line that makes the console read past its buffer
  lemma AbsolutePathIsCopied(cwd: seq<byte>, w: World, stale: seq<byte>)
    ensures CopiesPath(cwd, Meaning(Line("cd", ROOT), CommandNames()), CommandFns(), stale)
  {
    CdMeans(ROOT);
    RunsFileCommand(cwd, Meaning(Line("cd", ROOT), CommandNames()), w, stale);
  }
}
