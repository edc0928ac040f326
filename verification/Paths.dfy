// Paths: cd and rm work on C strings; here they are held to lists of directory names.
module Paths {
  import opened Words
  import opened Libc

  const PATH_BUF_SIZE: nat := 512
  const SLASH: byte := 47
  const UP: seq<byte> := [46, 46]
  const ROOT: seq<byte> := [47]
  const FR_OK := 0

  // ---- Canonical paths ----

  predicate Name(n: seq<byte>) { n != [] && NoNul(n) && SLASH !in n }

  predicate Names(c: seq<seq<byte>>) { forall i :: 0 <= i < |c| ==> Name(c[i]) }

  // /a/b for [a, b]
  function Tail(c: seq<seq<byte>>): seq<byte> {
    if c == [] then [] else [SLASH] + c[0] + Tail(c[1..])
  }

  function Render(c: seq<seq<byte>>): seq<byte> {
    if c == [] then ROOT else Tail(c)
  }

  lemma {:induction false} TailSnoc(c: seq<seq<byte>>, n: seq<byte>)
    ensures Tail(c + [n]) == Tail(c) + [SLASH] + n
  {
    if c == [] {
      assert (c + [n])[1..] == [];
    } else {
      TailSnoc(c[1..], n);
      assert (c + [n])[1..] == c[1..] + [n];
    }
  }

  lemma {:induction false} TailIsString(c: seq<seq<byte>>)
    requires Names(c)
    ensures NoNul(Tail(c)) && (c != [] ==> |Tail(c)| >= 2 && Tail(c)[0] == SLASH)
  {
    if c != [] {
      TailIsString(c[1..]);
    }
  }

  // ---- cd on strings ----

  // Where the search for the last separator stops: at a slash, or at index 1
  function BackUp(path: seq<byte>, k: nat): (j: nat)
    requires k < |path|
    ensures j <= k && (k >= 1 ==> j >= 1)
  {
    if path[k] != SLASH && k > 1 then BackUp(path, k - 1) else k
  }

  // The path with arg appended
  function Joined(cwd: seq<byte>, arg: seq<byte>): seq<byte> {
    if cwd == ROOT then cwd + arg else cwd + [SLASH] + arg
  }

  predicate Absolute(arg: seq<byte>) { arg != [] && arg[0] == SLASH }

  // The directory cd tries to open, None if the path is too long for the buffer
  function CdTarget(cwd: seq<byte>, arg: seq<byte>): Option<seq<byte>> {
    if Absolute(arg) then if |arg| + 1 > PATH_BUF_SIZE then None else Some(arg)
    else if arg == UP then Some(if cwd == [] then [] else cwd[..BackUp(cwd, |cwd| - 1)])
    else if |cwd| + |arg| + 2 > PATH_BUF_SIZE then None
    else Some(Joined(cwd, arg))
  }

  // The working directory after cd, when opening a directory gives code
  function AfterCd(cwd: seq<byte>, arg: seq<byte>, code: int): seq<byte> {
    var t := CdTarget(cwd, arg);
    if t.Some? && code == FR_OK then t.value else cwd
  }

  predicate Proper(cwd: seq<byte>) { Absolute(cwd) && NoNul(cwd) && |cwd| < PATH_BUF_SIZE }

  // cd keeps the working directory an absolute path that fits its buffer, but for .. at the root.
  lemma CdKeepsProper(cwd: seq<byte>, arg: seq<byte>, code: int)
    requires Proper(cwd) && NoNul(arg)
    ensures Proper(AfterCd(cwd, arg, code)) <==> !(cwd == ROOT && arg == UP && code == FR_OK)
    ensures AfterCd(ROOT, UP, FR_OK) == []
  {
    assert cwd == [cwd[0]] || |cwd| > 1;
  }

  // ---- cd on lists of names ----

  datatype Arg = Up | Down(name: seq<byte>) | To(dir: seq<seq<byte>>)

  predicate ValidArg(a: Arg) {
    match a
    case Up => true
    case Down(n) => Name(n) && n != UP
    case To(c) => Names(c)
  }

  function Text(a: Arg): seq<byte> {
    match a
    case Up => UP
    case Down(n) => n
    case To(c) => Render(c)
  }

  function Goes(c: seq<seq<byte>>, a: Arg): seq<seq<byte>> {
    match a
    case Up => if c == [] then [] else c[..|c| - 1]
    case Down(n) => c + [n]
    case To(d) => d
  }

  // The empty path, which .. at the root leaves behind, stands for the root.
  predicate Denotes(path: seq<byte>, c: seq<seq<byte>>) {
    Names(c) && (path == Render(c) || (path == [] && c == []))
  }

  lemma {:induction false} BackUpStops(path: seq<byte>, k: nat, j: nat)
    requires 1 <= j <= k < |path| && (path[j] == SLASH || j == 1)
    requires forall i :: j < i <= k ==> path[i] != SLASH
    ensures BackUp(path, k) == j
  {
    if k > j {
      BackUpStops(path, k - 1, j);
    }
  }

  // .. takes the last name off.
  lemma UpRendered(c: seq<seq<byte>>, n: seq<byte>)
    requires Names(c) && Name(n)
    ensures CdTarget(Render(c + [n]), UP) == Some(Render(c))
  {
    var path := Render(c + [n]);
    TailSnoc(c, n);
    TailIsString(c);
    var j := if c == [] then 1 else |Tail(c)|;
    assert path == Tail(c) + [SLASH] + n;
    BackUpStops(path, |path| - 1, j);
    assert path[..j] == Render(c);
  }

  lemma DownRendered(path: seq<byte>, c: seq<seq<byte>>, n: seq<byte>)
    requires Denotes(path, c) && Name(n)
    ensures Joined(path, n) == Render(c + [n])
  {
    TailSnoc(c, n);
    TailIsString(c);
    assert ROOT + n == [] + [SLASH] + n;
  }

  lemma NotAbsolute(n: seq<byte>)
    requires Name(n)
    ensures !Absolute(n) && !Absolute(UP)
  {
    assert n[0] in n;
  }

  lemma UpRefines(path: seq<byte>, c: seq<seq<byte>>)
    requires Denotes(path, c)
    ensures CdTarget(path, UP).Some? && Denotes(CdTarget(path, UP).value, Goes(c, Up))
  {
    if c == [] {
      assert CdTarget(ROOT, UP) == Some([]);
    } else {
      assert c == c[..|c| - 1] + [c[|c| - 1]];
      UpRendered(c[..|c| - 1], c[|c| - 1]);
    }
  }

  // cd on strings is cd on lists of names.
  lemma CdRefines(path: seq<byte>, c: seq<seq<byte>>, a: Arg)
    requires Denotes(path, c) && ValidArg(a)
    ensures CdTarget(path, Text(a)).Some? ==> Denotes(CdTarget(path, Text(a)).value, Goes(c, a))
    ensures CdTarget(path, Text(a)).None? <==>
      (a.Down? && |path| + |a.name| + 2 > PATH_BUF_SIZE) || (a.To? && |Render(a.dir)| + 1 > PATH_BUF_SIZE)
  {
    match a {
      case Up =>
        UpRefines(path, c);
      case Down(n) =>
        NotAbsolute(n);
        DownRendered(path, c, n);
      case To(d) =>
        TailIsString(d);
    }
  }

  datatype Attempt = Attempt(arg: Arg, code: int)

  // The working directory after a run of cd commands
  function CdAll(path: seq<byte>, run: seq<Attempt>): seq<byte>
    decreases |run|
  {
    if run == [] then path
    else CdAll(AfterCd(path, Text(run[0].arg), run[0].code), run[1..])
  }

  // The same on lists of names: an attempt counts if the path fits and the directory opens.
  function GoesAll(path: seq<byte>, c: seq<seq<byte>>, run: seq<Attempt>): seq<seq<byte>>
    decreases |run|
  {
    if run == [] then c
    else
      var a := run[0];
      var taken := a.code == FR_OK && CdTarget(path, Text(a.arg)).Some?;
      GoesAll(AfterCd(path, Text(a.arg), a.code), if taken then Goes(c, a.arg) else c, run[1..])
  }

  // Over every run of cd commands the string names the directory the accepted steps lead to.
  lemma {:induction false} CdRunRefines(path: seq<byte>, c: seq<seq<byte>>, run: seq<Attempt>)
    requires Denotes(path, c) && forall i :: 0 <= i < |run| ==> ValidArg(run[i].arg)
    ensures Denotes(CdAll(path, run), GoesAll(path, c, run))
    decreases |run|
  {
    if run != [] {
      var a := run[0];
      CdRefines(path, c, a.arg);
      var taken := a.code == FR_OK && CdTarget(path, Text(a.arg)).Some?;
      CdRunRefines(AfterCd(path, Text(a.arg), a.code), if taken then Goes(c, a.arg) else c, run[1..]);
    }
  }

  // cd name and then cd .. lead back.
  lemma CdRoundTrip(c: seq<seq<byte>>, n: seq<byte>)
    requires Names(c) && ValidArg(Down(n)) && |Render(c)| + |n| + 2 <= PATH_BUF_SIZE
    ensures AfterCd(Render(c), n, 0) == Render(c + [n])
    ensures AfterCd(Render(c + [n]), UP, 0) == Render(c)
    ensures forall code :: code != 0 ==> AfterCd(Render(c), n, code) == Render(c)
  {
    NotAbsolute(n);
    DownRendered(Render(c), c, n);
    UpRendered(c, n);
  }

  // ---- rm ----

  // s is t, or t goes on with a slash after s.
  predicate Bounded(s: seq<byte>, t: seq<byte>) {
    s <= t && (|s| == |t| || t[|s|] == SLASH)
  }

  // What rm asks the file system to delete, None if it refuses
  function RmTarget(cwd: seq<byte>, arg: seq<byte>): Option<seq<byte>> {
    if Absolute(arg) then if |arg| + 1 > PATH_BUF_SIZE || Bounded(arg, cwd) then None else Some(arg)
    else if |cwd| + |arg| + 2 > PATH_BUF_SIZE then None
    else Some(Joined(cwd, arg))
  }

  lemma Clash(m: seq<byte>, s: seq<byte>, n: seq<byte>, t: seq<byte>)
    requires Name(m) && Name(n) && (s == [] || s[0] == SLASH) && (t == [] || t[0] == SLASH) && |m| != |n|
    ensures !Bounded([SLASH] + m + s, [SLASH] + n + t)
  {
    var u, v := [SLASH] + m + s, [SLASH] + n + t;
    if |m| < |n| {
      assert v[1 + |m|] == n[|m|] && n[|m|] in n;
    } else {
      assert u[1 + |n|] == m[|n|] && m[|n|] in m;
    }
  }

  lemma SameFirst(m: seq<byte>, s: seq<byte>, n: seq<byte>, t: seq<byte>)
    requires Name(m) && Name(n) && (s == [] || s[0] == SLASH) && (t == [] || t[0] == SLASH)
    requires Bounded([SLASH] + m + s, [SLASH] + n + t)
    ensures m == n
  {
    if |m| != |n| { Clash(m, s, n, t); }
    assert m == ([SLASH] + m + s)[1..1 + |m|] && n == ([SLASH] + n + t)[1..1 + |n|];
  }

  // A textual prefix that ends at a separator is a prefix by names.
  lemma {:induction false} PrefixByNames(a: seq<seq<byte>>, c: seq<seq<byte>>)
    requires Names(a) && Names(c)
    ensures Bounded(Tail(a), Tail(c)) <==> a <= c
  {
    TailIsString(a);
    TailIsString(c);
    if a != [] && c != [] {
      PrefixByNames(a[1..], c[1..]);
      TailIsString(a[1..]);
      TailIsString(c[1..]);
      if Bounded(Tail(a), Tail(c)) {
        SameFirst(a[0], Tail(a[1..]), c[0], Tail(c[1..]));
      }
      if a[0] == c[0] {
        StripFirst([SLASH] + a[0], Tail(a[1..]), Tail(c[1..]));
        StripName(a, c);
      }
    }
  }

  lemma StripFirst(w: seq<byte>, s: seq<byte>, t: seq<byte>)
    ensures Bounded(w + s, w + t) <==> Bounded(s, t)
  {
    assert (w + s)[|w|..] == s && (w + t)[|w|..] == t;
    if w + s <= w + t {
      assert s == (w + t)[|w|..|w| + |s|] == t[..|s|];
    }
  }

  lemma StripName(a: seq<seq<byte>>, c: seq<seq<byte>>)
    requires a != [] && c != [] && a[0] == c[0]
    ensures a <= c <==> a[1..] <= c[1..]
  {
    assert a == [a[0]] + a[1..] && c == [c[0]] + c[1..];
  }

  // rm refuses an absolute path just when it is the working directory or one of its ancestors,
  // except that the root is refused only from the root itself.
  lemma RmGuard(c: seq<seq<byte>>, a: seq<seq<byte>>)
    requires Names(c) && Names(a) && |Render(a)| < PATH_BUF_SIZE
    ensures RmTarget(Render(c), Render(a)).None? <==> a <= c && (a == [] ==> c == [])
    ensures RmTarget(Render(c), Render(a)).Some? ==> RmTarget(Render(c), Render(a)).value == Render(a)
  {
    TailIsString(a);
    TailIsString(c);
    if a != [] {
      PrefixByNames(a, c);
    } else if c != [] {
      assert Tail(c)[1] == c[0][0] && c[0][0] in c[0];
    }
  }

  // a/b for [a, b]
  function Relative(names: seq<seq<byte>>): seq<byte>
    requires names != []
  {
    names[0] + Tail(names[1..])
  }

  lemma {:induction false} TailAppend(c: seq<seq<byte>>, d: seq<seq<byte>>)
    ensures Tail(c + d) == Tail(c) + Tail(d)
  {
    if c == [] {
      assert c + d == d;
    } else {
      TailAppend(c[1..], d);
      assert (c + d)[1..] == c[1..] + d;
    }
  }

  // An argument of several names leads down by all of them, through both commands.
  lemma RelativeLeadsDown(c: seq<seq<byte>>, names: seq<seq<byte>>)
    requires Names(c) && Names(names) && names != []
    ensures var arg, fits := Relative(names), |Render(c)| + |Relative(names)| + 2 <= 512;
      && (arg != UP ==> CdTarget(Render(c), arg) == if fits then Some(Render(c + names)) else None)
      && RmTarget(Render(c), arg) == (if fits then Some(Render(c + names)) else None)
  {
    TailAppend(c, names);
    TailIsString(c);
    NotAbsolute(names[0]);
    assert Tail(names) == [SLASH] + Relative(names);
    assert Relative(names)[0] == names[0][0];
    assert Joined(Render(c), Relative(names)) == Render(c + names);
  }

  const DOT: seq<byte> := [46]

  // The directory a list of names leads to when . and .. are followed
  function Resolve(c: seq<seq<byte>>): seq<seq<byte>> {
    if c == [] then []
    else
      var r, n := Resolve(c[..|c| - 1]), c[|c| - 1];
      if n == UP then (if r == [] then [] else r[..|r| - 1]) else if n == DOT then r else r + [n]
  }

  // A single name is never refused. It leads to the working directory or an ancestor, which given as an
  // absolute path would be refused, exactly if it is . or ..
  lemma RmRelative(c: seq<seq<byte>>, n: seq<byte>)
    requires Names(c) && Name(n) && |Render(c)| + |n| + 2 <= PATH_BUF_SIZE
    ensures RmTarget(Render(c), n) == Some(Render(c + [n]))
    ensures Resolve(c + [n]) <= Resolve(c) <==> n == UP || n == DOT
  {
    NotAbsolute(n);
    DownRendered(Render(c), c, n);
    assert (c + [n])[..|c|] == c;
  }

  // ---- The commands in place ----

  lemma StringPlaced(was: seq<byte>, s: seq<byte>)
    requires |s| < |was| && NoNul(s)
    ensures Holds(Splice(was, 0, s + [0]), 0, s)
  {
    var r := Splice(was, 0, s + [0]);
    assert r[0..|s| + 1] == s + [0];
    assert r[0..|s|] == r[0..|s| + 1][..|s|] && r[|s|] == r[0..|s| + 1][|s|];
  }

  lemma LastByteKept(was: seq<byte>, q: nat, s: seq<byte>)
    requires q + |s| < |was| && was[|was| - 1] == 0
    ensures Splice(was, q, s + [0])[|was| - 1] == 0
  {
    var r := Splice(was, q, s + [0]);
    assert r[q..q + |s| + 1][|s|] == 0;
  }

  lemma SpanPlaced(was: seq<byte>, m: seq<byte>, behind: nat -> byte, p: nat, arg: seq<byte>)
    requires |was| == PATH_BUF_SIZE && was[PATH_BUF_SIZE - 1] == 0 && Holds(m, p, arg) && |arg| < PATH_BUF_SIZE
    ensures var r := Splice(was, 0, Span(m, behind, p, PATH_BUF_SIZE - 1));
      r[PATH_BUF_SIZE - 1] == 0 && Holds(r, 0, arg)
  {
    var span := Span(m, behind, p, PATH_BUF_SIZE - 1);
    var r := Splice(was, 0, span);
    forall i | 0 <= i <= |arg| ensures r[i] == if i < |arg| then arg[i] else 0 {
      At(m, p, arg, i);
      if i < PATH_BUF_SIZE - 1 {
        assert r[0..PATH_BUF_SIZE - 1][i] == span[i];
      }
    }
    assert r[0..|arg|] == arg;
  }

  class Shell {
    const cwdBuf: array<byte>
    const tmpBufPath: array<byte>
    const slash: array<byte>  // the literal "/"
    const dots: array<byte>   // the literal ".."

    constructor ()
      ensures Valid(ROOT) && fresh(cwdBuf) && fresh(tmpBufPath) && fresh(slash) && fresh(dots)
    {
      cwdBuf := new byte[PATH_BUF_SIZE](i => if i == 0 then SLASH else 0);
      tmpBufPath := new byte[PATH_BUF_SIZE](i => 0);
      slash := new byte[2](i => if i == 0 then SLASH else 0);
      dots := new byte[3](i => if i < 2 then 46 else 0);
    }

    // The working directory is the C string cwd. The last byte of the scratch buffer stays NUL.
    ghost predicate Valid(cwd: seq<byte>)
      reads cwdBuf, tmpBufPath, slash, dots
    {
      && cwdBuf.Length == 512 == tmpBufPath.Length && Holds(cwdBuf[..], 0, cwd)
      && tmpBufPath[PATH_BUF_SIZE - 1] == 0
      && Holds(slash[..], 0, ROOT) && Holds(dots[..], 0, UP)
      && cwdBuf != tmpBufPath && slash != tmpBufPath && dots != tmpBufPath && slash != cwdBuf && dots != cwdBuf
    }

    ghost predicate Apart(others: set<array<byte>>) {
      cwdBuf !in others && tmpBufPath !in others && slash !in others && dots !in others
    }

    // Another string, in memory of its own
    ghost predicate Argument(m: array<byte>, p: nat, arg: seq<byte>)
      reads m
    {
      m != cwdBuf && m != tmpBufPath && Holds(m[..], p, arg)
    }

    method CopyCwd(ghost cwd: seq<byte>)
      requires Valid(cwd)
      modifies tmpBufPath
      ensures Valid(cwd) && Holds(tmpBufPath[..], 0, cwd)
    {
      StrCpy(tmpBufPath, 0, cwdBuf, 0, cwd);
      StringPlaced(old(tmpBufPath[..]), cwd);
      LastByteKept(old(tmpBufPath[..]), 0, cwd);
    }

    // strncpy of all but the last byte of the scratch buffer. What lies behind the memory of the argument
    // may be read, but does not matter.
    method CopyArg(m: array<byte>, p: nat, behind: nat -> byte, ghost cwd: seq<byte>, ghost arg: seq<byte>)
      returns (ghost inside: bool)
      requires Valid(cwd) && Argument(m, p, arg) && |arg| < PATH_BUF_SIZE
      modifies tmpBufPath
      ensures Valid(cwd) && Holds(tmpBufPath[..], 0, arg)
      ensures inside <==> p + PATH_BUF_SIZE - 1 <= m.Length
    {
      ghost var span := Span(m[..], behind, p, PATH_BUF_SIZE - 1);
      inside := StrNCpy(tmpBufPath, 0, m, p, behind, PATH_BUF_SIZE - 1);
      SpanPlaced(old(tmpBufPath[..]), m[..], behind, p, arg);
    }

    method AppendArg(m: array<byte>, p: nat, ghost cwd: seq<byte>, ghost arg: seq<byte>)
      requires Valid(cwd) && Argument(m, p, arg) && Holds(tmpBufPath[..], 0, cwd) && |cwd| + |arg| + 2 <= PATH_BUF_SIZE
      modifies tmpBufPath
      ensures Valid(cwd) && Holds(tmpBufPath[..], 0, Joined(cwd, arg))
    {
      ghost var head := cwd;
      var r := StrCmp(tmpBufPath, 0, slash, 0, cwd, ROOT);
      if r != 0 {
        ghost var was := tmpBufPath[..];
        StrCat(tmpBufPath, 0, slash, 0, cwd, ROOT);
        LastByteKept(was, |cwd|, ROOT);
        head := cwd + ROOT;
      }
      ghost var was := tmpBufPath[..];
      StrCat(tmpBufPath, 0, m, p, head, arg);
      LastByteKept(was, |head|, arg);
    }

    // At the empty path the search and the NUL it ends with lie below the scratch buffer, in memory that
    // is not modelled.
    method DropLast(ghost cwd: seq<byte>) returns (ghost below: bool)
      requires Valid(cwd) && Holds(tmpBufPath[..], 0, cwd)
      modifies tmpBufPath
      ensures Valid(cwd) && Holds(tmpBufPath[..], 0, if cwd == [] then [] else cwd[..BackUp(cwd, |cwd| - 1)])
      ensures below <==> cwd == []
    {
      var uIdx := StrLen(tmpBufPath, 0, cwd);
      if uIdx == 0 { return true; }
      below := false;
      uIdx := uIdx - 1;
      while tmpBufPath[uIdx] != SLASH && uIdx > 1
        invariant 0 <= uIdx < |cwd| && BackUp(cwd, uIdx) == BackUp(cwd, |cwd| - 1)
        modifies {}
        decreases uIdx
      {
        At(tmpBufPath[..], 0, cwd, uIdx);
        uIdx := uIdx - 1;
      }
      At(tmpBufPath[..], 0, cwd, uIdx);
      assert tmpBufPath[..uIdx] == tmpBufPath[..][0..|cwd|][..uIdx] == cwd[..uIdx];
      tmpBufPath[uIdx] := 0;
    }

    // The part of Cmd_cd that builds the path; ok is false where it reports the path as too long.
    method CdPath(m: array<byte>, p: nat, behind: nat -> byte, ghost cwd: seq<byte>, ghost arg: seq<byte>)
      returns (ok: bool, ghost inside: bool, ghost below: bool)
      requires Valid(cwd) && Argument(m, p, arg)
      modifies tmpBufPath
      ensures Valid(cwd) && ok == CdTarget(cwd, arg).Some?
      ensures ok ==> Holds(tmpBufPath[..], 0, CdTarget(cwd, arg).value)
      ensures inside <==> (ok && Absolute(arg) ==> p + PATH_BUF_SIZE - 1 <= m.Length)
      ensures below <==> cwd == [] && arg == UP
    {
      inside, below := true, false;
      CopyCwd(cwd);
      At(m[..], p, arg, 0);
      var len := StrLen(m, p, arg);
      if m[p] == SLASH {
        if len + 1 > PATH_BUF_SIZE { return false, true, false; }
        inside := CopyArg(m, p, behind, cwd, arg);
      } else {
        var r := StrCmp(m, p, dots, 0, arg, UP);
        if r == 0 {
          below := DropLast(cwd);
        } else {
          var n := StrLen(tmpBufPath, 0, cwd);
          if n + len + 2 > PATH_BUF_SIZE { return false, true, false; }
          AppendArg(m, p, cwd, arg);
        }
      }
      ok := true;
    }

    // strncpy of the whole scratch buffer
    method KeepPath(behind: nat -> byte, ghost cwd: seq<byte>, ghost path: seq<byte>)
      requires Valid(cwd) && Holds(tmpBufPath[..], 0, path)
      modifies cwdBuf
      ensures Valid(path)
    {
      ghost var within := StrNCpy(cwdBuf, 0, tmpBufPath, 0, behind, PATH_BUF_SIZE);
      assert cwdBuf[..] == tmpBufPath[..];
    }

    // Cmd_cd. The file system is asked for a path and answers. An absolute path is copied past the end of
    // the memory it stands in unless 511 bytes of that memory are left.
    method CmdCd(m: array<byte>, p: nat, behind: nat -> byte, openDir: seq<byte> -> int,
                 ghost cwd: seq<byte>, ghost arg: seq<byte>)
      returns (asked: Option<seq<byte>>, fresult: int, ghost inside: bool, ghost below: bool)
      requires Valid(cwd) && Argument(m, p, arg)
      modifies cwdBuf, tmpBufPath
      ensures asked == CdTarget(cwd, arg)
      ensures fresult == if asked.Some? then openDir(asked.value) else 0
      ensures Valid(AfterCd(cwd, arg, fresult))
      ensures inside <==> (asked.Some? && Absolute(arg) ==> p + PATH_BUF_SIZE - 1 <= m.Length)
      ensures below <==> cwd == [] && arg == UP
    {
      var ok;
      ok, inside, below := CdPath(m, p, behind, cwd, arg);
      if !ok { return None, FR_OK, inside, below; }
      CStringHeld(tmpBufPath[..], 0, CdTarget(cwd, arg).value);
      asked := Some(CString(tmpBufPath[..], 0));
      fresult := openDir(asked.value);
      if fresult == FR_OK { KeepPath(behind, cwd, asked.value); }
    }

    // The refusal of Cmd_rm: the absolute path arg reaches into the working directory.
    method Guards(m: array<byte>, p: nat, ghost cwd: seq<byte>, ghost arg: seq<byte>) returns (refuse: bool)
      requires Valid(cwd) && Argument(m, p, arg)
      ensures refuse <==> Bounded(arg, cwd)
    {
      var len := StrLen(m, p, arg);
      var n := StrLen(cwdBuf, 0, cwd);
      if n < len { return false; }
      var r := StrNCmp(cwdBuf, 0, m, p, len, cwd, arg);
      At(cwdBuf[..], 0, cwd, len);
      refuse := r == 0 && (cwdBuf[len] == SLASH || cwdBuf[len] == 0);
    }

    // Cmd_rm, up to what it asks the file system to delete
    method CmdRm(m: array<byte>, p: nat, behind: nat -> byte, unlink: seq<byte> -> int,
                 ghost cwd: seq<byte>, ghost arg: seq<byte>)
      returns (asked: Option<seq<byte>>, fresult: int, ghost inside: bool)
      requires Valid(cwd) && Argument(m, p, arg)
      modifies tmpBufPath
      ensures Valid(cwd) && asked == RmTarget(cwd, arg)
      ensures fresult == if asked.Some? then unlink(asked.value) else 0
      ensures inside <==> (asked.Some? && Absolute(arg) ==> p + PATH_BUF_SIZE - 1 <= m.Length)
    {
      inside := true;
      At(m[..], p, arg, 0);
      var len := StrLen(m, p, arg);
      if m[p] == SLASH {
        if len + 1 > PATH_BUF_SIZE { return None, FR_OK, true; }
        var refuse := Guards(m, p, cwd, arg);
        if refuse { return None, FR_OK, true; }
        inside := CopyArg(m, p, behind, cwd, arg);
      } else {
        CopyCwd(cwd);
        var n := StrLen(tmpBufPath, 0, cwd);
        if n + len + 2 > PATH_BUF_SIZE { return None, FR_OK, true; }
        AppendArg(m, p, cwd, arg);
      }
      CStringHeld(tmpBufPath[..], 0, RmTarget(cwd, arg).value);
      asked := Some(CString(tmpBufPath[..], 0));
      fresult := unlink(asked.value);
    }
  }
}
