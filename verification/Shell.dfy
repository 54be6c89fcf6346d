/** The command parser of apps/sh.c. A C string is modelled by the characters before its NUL: the
    source's es is the length, and reading *es gives NUL. */
module Shell {
  const MAXARGS := 10
  const O_RDONLY := 0
  const O_WRONLY_CREATE := 0x201 // O_WRONLY | O_CREATE
  const NUL := '\0'

  predicate Space(c: char) {
    c == ' ' || c == '\t' || c == '\r' || c == '\n' || c == '\U{B}'
  }

  predicate Symbol(c: char) {
    c == '<' || c == '|' || c == '>' || c == '&' || c == ';' || c == '(' || c == ')'
  }

  predicate WordChar(c: char) {
    !Space(c) && !Symbol(c)
  }

  // ---- commands, with their words as positions in the input ----

  /** A word: from q up to but not including eq. */
  datatype Span = Span(q: nat, eq: nat)

  datatype Redirection = Redirection(file: Span, mode: int, fd: int)

  datatype Cmd =
    | Exec(args: seq<Span>)
    | Redir(cmd: Cmd, to: Redirection)
    | Pipe(left: Cmd, right: Cmd)
    | List(left: Cmd, right: Cmd)
    | Back(cmd: Cmd)

  datatype Parse = Parsed(cmd: Cmd, pos: nat) | Panics(why: string)

  datatype Redirs = Found(rs: seq<Redirection>, pos: nat) | NoFile

  function Wrap(cmd: Cmd, rs: seq<Redirection>): Cmd {
    if rs == [] then cmd else Redir(Wrap(cmd, rs[..|rs| - 1]), rs[|rs| - 1])
  }

  /** A span is a whole word of s: word characters up to a character that is none, or the end. */
  ghost predicate Tidy(s: string, w: Span) {
    && w.q < w.eq <= |s| && (forall k :: w.q <= k < w.eq ==> WordChar(s[k]))
    && (w.eq < |s| ==> !WordChar(s[w.eq]))
  }

  ghost predicate TidySpans(s: string, ws: seq<Span>) {
    forall i :: 0 <= i < |ws| ==> Tidy(s, ws[i])
  }

  /** A redirection is input from a file or output to one. */
  ghost predicate TidyRedir(s: string, to: Redirection) {
    Tidy(s, to.file) && ((to.mode == O_RDONLY && to.fd == 0) || (to.mode == O_WRONLY_CREATE && to.fd == 1))
  }

  ghost predicate TidyRedirs(s: string, rs: seq<Redirection>) {
    forall i :: 0 <= i < |rs| ==> TidyRedir(s, rs[i])
  }

  /** All words of a command are words of s. */
  ghost predicate TidyCmd(s: string, cmd: Cmd) {
    match cmd
    case Exec(args) => TidySpans(s, args) && |args| < MAXARGS
    case Redir(c, to) => TidyCmd(s, c) && TidyRedir(s, to)
    case Pipe(l, r) => TidyCmd(s, l) && TidyCmd(s, r)
    case List(l, r) => TidyCmd(s, l) && TidyCmd(s, r)
    case Back(c) => TidyCmd(s, c)
  }

  lemma {:induction false} TidyWrap(s: string, cmd: Cmd, rs: seq<Redirection>)
    requires TidyCmd(s, cmd) && TidyRedirs(s, rs)
    ensures TidyCmd(s, Wrap(cmd, rs))
  {
    if rs != [] {
      TidyWrap(s, cmd, rs[..|rs| - 1]);
    }
  }

  // ---- what the parser computes ----

  function Skip(s: string, p: nat): (r: nat)
    requires p <= |s|
    ensures p <= r <= |s| && (r < |s| ==> !Space(s[r])) && (p < |s| && !Space(s[p]) ==> r == p)
    decreases |s| - p
  {
    if p < |s| && Space(s[p]) then Skip(s, p + 1) else p
  }

  function WordEnd(s: string, p: nat): (r: nat)
    requires p <= |s|
    ensures p <= r <= |s| && (r < |s| ==> !WordChar(s[r])) && forall k :: p <= k < r ==> WordChar(s[k])
    decreases |s| - p
  {
    if p < |s| && WordChar(s[p]) then WordEnd(s, p + 1) else p
  }

  /** What gettoken returns: its result, the token's span and the new position. */
  datatype Token = Token(kind: char, q: nat, eq: nat, next: nat)

  function GetToken(s: string, p: nat): (t: Token)
    requires p <= |s|
    ensures p <= t.q <= t.eq <= t.next <= |s|
    ensures t.kind == NUL <== t.q == |s|
    ensures t.q < |s| ==> t.q < t.eq
    ensures t.kind == 'a' ==>
              t.q < t.eq && (forall k :: t.q <= k < t.eq ==> WordChar(s[k])) && (t.eq < |s| ==> !WordChar(s[t.eq]))
  {
    var q := Skip(s, p);
    if q == |s| then Token(NUL, q, q, q)
    else if s[q] == '>' then
      if q + 1 < |s|
         && s[q + 1] == '>' then Token('+', q, q + 2, Skip(s, q + 2)) else Token('>', q, q + 1, Skip(s, q + 1))
    else if Symbol(s[q]) then Token(s[q], q, q + 1, Skip(s, q + 1))
    else Token('a', q, WordEnd(s, q), Skip(s, WordEnd(s, q)))
  }

  predicate Peeks(s: string, p: nat, toks: string)
    requires p <= |s|
  {
    var q := Skip(s, p);
    q < |s| && s[q] in toks
  }

  /** parseredirs (sh.c:434-461); > and >> mean the same to it. */
  function RedirsAt(rs: seq<Redirection>, s: string, p: nat): (r: Redirs)
    requires p <= |s|
    ensures r.Found? ==> p <= r.pos <= |s|
    decreases |s| - p
  {
    if !Peeks(s, p, "<>") then Found(rs, Skip(s, p))
    else
      var t := GetToken(s, p);
      var f := GetToken(s, t.next);
      if f.kind != 'a' then NoFile
      else
        var to := if t.kind == '<' then Redirection(Span(f.q, f.eq), O_RDONLY, 0)
            else Redirection(Span(f.q, f.eq), O_WRONLY_CREATE, 1);
        RedirsAt(rs + [to], s, f.next)
  }

  const NO_FILE := "missing file for redirection"

  /** The loop of parseexec (sh.c:500-522). */
  function ArgsAt(args: seq<Span>, rs: seq<Redirection>, s: string, p: nat): (r: Parse)
    requires p <= |s|
    ensures r.Parsed? ==> p <= r.pos <= |s|
    decreases |s| - p
  {
    var q := Skip(s, p);
    if Peeks(s, p, "|)&;") then Parsed(Wrap(Exec(args), rs), q)
    else
      var t := GetToken(s, q);
      if t.kind == NUL then Parsed(Wrap(Exec(args), rs), t.next)
      else if t.kind != 'a' then Panics("syntax")
      else if |args| + 1 >= MAXARGS then Panics("too many args")
      else
        match RedirsAt(rs, s, t.next)
        case NoFile => Panics(NO_FILE)
        case Found(rs', p') => ArgsAt(args + [Span(t.q, t.eq)], rs', s, p')
  }

  /** parseexec (sh.c:484-523). */
  function ExecAt(s: string, p: nat): (r: Parse)
    requires p <= |s|
    ensures r.Parsed? ==> p <= r.pos <= |s|
    decreases |s| - p, 1
  {
    if Peeks(s, p, "(") then BlockAt(s, Skip(s, p))
    else
      match RedirsAt([], s, p)
      case NoFile => Panics(NO_FILE)
      case Found(rs, p') => ArgsAt([], rs, s, p')
  }

  /** parseblock (sh.c:464-481), with the opening parenthesis at p. */
  function BlockAt(s: string, p: nat): (r: Parse)
    requires p < |s| && s[p] == '('
    ensures r.Parsed? ==> p <= r.pos <= |s|
    decreases |s| - p, 0
  {
    var t := GetToken(s, p);
    match LineAt(s, t.next)
    case Panics(why) => Panics(why)
    case Parsed(cmd, p') =>
      if !Peeks(s, p', ")") then Panics("syntax - missing )")
      else
        match RedirsAt([], s, GetToken(s, p').next)
        case NoFile => Panics(NO_FILE)
        case Found(rs, p'') => Parsed(Wrap(cmd, rs), p'')
  }

  /** parsepipe (sh.c:420-431). */
  function PipeAt(s: string, p: nat): (r: Parse)
    requires p <= |s|
    ensures r.Parsed? ==> p <= r.pos <= |s|
    decreases |s| - p, 2
  {
    match ExecAt(s, p)
    case Panics(why) => Panics(why)
    case Parsed(left, p') =>
      if !Peeks(s, p', "|") then Parsed(left, Skip(s, p'))
      else
        match PipeAt(s, GetToken(s, p').next)
        case Panics(why) => Panics(why)
        case Parsed(right, p'') => Parsed(Pipe(left, right), p'')
  }

  /** The loop of parseline over & (sh.c:406-409). */
  function BacksAt(cmd: Cmd, s: string, p: nat): (r: (Cmd, nat))
    requires p <= |s|
    ensures p <= r.1 <= |s|
    decreases |s| - p
  {
    if Peeks(s, p, "&") then BacksAt(Back(cmd), s, GetToken(s, p).next) else (cmd, Skip(s, p))
  }

  /** parseline (sh.c:401-417). */
  function LineAt(s: string, p: nat): (r: Parse)
    requires p <= |s|
    ensures r.Parsed? ==> p <= r.pos <= |s|
    decreases |s| - p, 3
  {
    match PipeAt(s, p)
    case Panics(why) => Panics(why)
    case Parsed(first, p1) =>
      var (cmd, p2) := BacksAt(first, s, p1);
      if !Peeks(s, p2, ";") then Parsed(cmd, Skip(s, p2))
      else
        match LineAt(s, GetToken(s, p2).next)
        case Panics(why) => Panics(why)
        case Parsed(rest, p3) => Parsed(List(cmd, rest), p3)
  }

  /** parsecmd (sh.c:383-395), before nulterminate. */
  function ParseCmd(s: string): Parse {
    match LineAt(s, 0)
    case Panics(why) => Panics(why)
    case Parsed(cmd, p) => if Skip(s, p) != |s| then Panics("syntax") else Parsed(cmd, |s|)
  }

  // ---- every word the parser finds is a whole word of the input ----

  lemma {:induction false} RedirsTidy(rs: seq<Redirection>, s: string, p: nat)
    requires p <= |s| && TidyRedirs(s, rs)
    ensures var r := RedirsAt(rs, s, p); r.Found? ==> TidyRedirs(s, r.rs)
    decreases |s| - p
  {
    if Peeks(s, p, "<>") {
      var t := GetToken(s, p);
      var f := GetToken(s, t.next);
      if f.kind == 'a' {
        var to := if t.kind == '<' then Redirection(Span(f.q, f.eq), O_RDONLY, 0)
            else Redirection(Span(f.q, f.eq), O_WRONLY_CREATE, 1);
        RedirsTidy(rs + [to], s, f.next);
      }
    }
  }

  lemma {:induction false} ArgsTidy(args: seq<Span>, rs: seq<Redirection>, s: string, p: nat)
    requires p <= |s| && TidySpans(s, args) && |args| < MAXARGS && TidyRedirs(s, rs)
    ensures var r := ArgsAt(args, rs, s, p); r.Parsed? ==> TidyCmd(s, r.cmd)
    decreases |s| - p
  {
    TidyWrap(s, Exec(args), rs);
    if !Peeks(s, p, "|)&;") {
      var t := GetToken(s, Skip(s, p));
      if t.kind == 'a' && |args| + 1 < MAXARGS {
        RedirsTidy(rs, s, t.next);
        var r := RedirsAt(rs, s, t.next);
        if r.Found? {
          ArgsTidy(args + [Span(t.q, t.eq)], r.rs, s, r.pos);
        }
      }
    }
  }

  lemma {:induction false} ExecTidy(s: string, p: nat)
    requires p <= |s|
    ensures var r := ExecAt(s, p); r.Parsed? ==> TidyCmd(s, r.cmd)
    decreases |s| - p, 1
  {
    if Peeks(s, p, "(") {
      BlockTidy(s, Skip(s, p));
    } else {
      RedirsTidy([], s, p);
      var r := RedirsAt([], s, p);
      if r.Found? {
        ArgsTidy([], r.rs, s, r.pos);
      }
    }
  }

  lemma {:induction false} BlockTidy(s: string, p: nat)
    requires p < |s| && s[p] == '('
    ensures var r := BlockAt(s, p); r.Parsed? ==> TidyCmd(s, r.cmd)
    decreases |s| - p, 0
  {
    var t := GetToken(s, p);
    LineTidy(s, t.next);
    var r := LineAt(s, t.next);
    if r.Parsed? {
      RedirsTidy([], s, GetToken(s, r.pos).next);
      var rs := RedirsAt([], s, GetToken(s, r.pos).next);
      if rs.Found? {
        TidyWrap(s, r.cmd, rs.rs);
      }
    }
  }

  lemma {:induction false} PipeTidy(s: string, p: nat)
    requires p <= |s|
    ensures var r := PipeAt(s, p); r.Parsed? ==> TidyCmd(s, r.cmd)
    decreases |s| - p, 2
  {
    ExecTidy(s, p);
    var r := ExecAt(s, p);
    if r.Parsed? && Peeks(s, r.pos, "|") {
      PipeTidy(s, GetToken(s, r.pos).next);
    }
  }

  lemma {:induction false} BacksTidy(cmd: Cmd, s: string, p: nat)
    requires p <= |s| && TidyCmd(s, cmd)
    ensures TidyCmd(s, BacksAt(cmd, s, p).0)
    decreases |s| - p
  {
    if Peeks(s, p, "&") {
      BacksTidy(Back(cmd), s, GetToken(s, p).next);
    }
  }

  lemma {:induction false} LineTidy(s: string, p: nat)
    requires p <= |s|
    ensures var r := LineAt(s, p); r.Parsed? ==> TidyCmd(s, r.cmd)
    decreases |s| - p, 3
  {
    PipeTidy(s, p);
    var r := PipeAt(s, p);
    if r.Parsed? {
      BacksTidy(r.cmd, s, r.pos);
      var p2 := BacksAt(r.cmd, s, r.pos).1;
      if Peeks(s, p2, ";") {
        LineTidy(s, GetToken(s, p2).next);
      }
    }
  }

  // ---- nulterminate (sh.c:527-574) ----

  predicate InBuffer(b: seq<char>, cmd: Cmd) {
    match cmd
    case Exec(args) => forall i :: 0 <= i < |args| ==> args[i].eq < |b|
    case Redir(c, to) => InBuffer(b, c) && to.file.eq < |b|
    case Pipe(l, r) => InBuffer(b, l) && InBuffer(b, r)
    case List(l, r) => InBuffer(b, l) && InBuffer(b, r)
    case Back(c) => InBuffer(b, c)
  }

  /** The positions that get a NUL. */
  function Ends(cmd: Cmd): set<nat> {
    match cmd
    case Exec(args) => set i | 0 <= i < |args| :: args[i].eq
    case Redir(c, to) => Ends(c) + {to.file.eq}
    case Pipe(l, r) => Ends(l) + Ends(r)
    case List(l, r) => Ends(l) + Ends(r)
    case Back(c) => Ends(c)
  }

  function Terminated(b: seq<char>, ends: set<nat>): (r: seq<char>)
    ensures |r| == |b| && forall k :: 0 <= k < |b| ==> r[k] == if k in ends then NUL else b[k]
  {
    seq(|b|, k requires 0 <= k < |b| => if k in ends then NUL else b[k])
  }

  method Nulterminate(cmd: Cmd, buf: array<char>)
    requires InBuffer(buf[..], cmd)
    modifies buf
    ensures buf[..] == Terminated(old(buf[..]), Ends(cmd))
    decreases cmd
  {
    match cmd {
      case Exec(args) =>
        var i := 0;
        while i < |args|
          invariant 0 <= i <= |args| && InBuffer(buf[..], cmd)
          invariant forall k :: 0 <= k < buf.Length ==>
                      buf[k] == if k in Ends(Exec(args[..i])) then NUL else old(buf[k])
        {
          ExecEnds(args, i);
          buf[args[i].eq] := NUL;
          i := i + 1;
        }
        assert args[..i] == args;
      case Redir(c, to) =>
        Nulterminate(c, buf);
        buf[to.file.eq] := NUL;
      case Pipe(l, r) =>
        Nulterminate(l, buf);
        SameLength(old(buf[..]), buf[..], r);
        Nulterminate(r, buf);
      case List(l, r) =>
        Nulterminate(l, buf);
        SameLength(old(buf[..]), buf[..], r);
        Nulterminate(r, buf);
      case Back(c) =>
        Nulterminate(c, buf);
    }
  }

  lemma {:induction false} ExecEnds(args: seq<Span>, i: nat)
    requires i < |args|
    ensures Ends(Exec(args[..i + 1])) == Ends(Exec(args[..i])) + {args[i].eq}
  {
    var a, b := args[..i], args[..i + 1];
    forall e | e in Ends(Exec(b))
      ensures e in Ends(Exec(a)) + {args[i].eq}
    {
      var j :| 0 <= j < |b| && b[j].eq == e;
      assert j < i ==> a[j].eq == e;
    }
    forall e | e in Ends(Exec(a)) + {args[i].eq}
      ensures e in Ends(Exec(b))
    {
      if e in Ends(Exec(a)) {
        var j :| 0 <= j < |a| && a[j].eq == e;
        assert b[j].eq == e;
      } else {
        assert b[i].eq == e;
      }
    }
  }

  lemma {:induction false} SameLength(a: seq<char>, b: seq<char>, cmd: Cmd)
    requires |a| == |b| && InBuffer(a, cmd)
    ensures InBuffer(b, cmd)
  {
    match cmd
    case Exec(args) =>
    case Redir(c, to) => SameLength(a, b, c);
    case Pipe(l, r) => SameLength(a, b, l); SameLength(a, b, r);
    case List(l, r) => SameLength(a, b, l); SameLength(a, b, r);
    case Back(c) => SameLength(a, b, c);
  }

  // ---- the command that a parse denotes ----

  /** A command with its words as text; out says which kind of redirection. */
  datatype Tree =
    | TExec(words: seq<string>)
    | TRedir(cmd: Tree, file: string, mode: int, fd: int)
    | TPipe(left: Tree, right: Tree)
    | TList(left: Tree, right: Tree)
    | TBack(cmd: Tree)

  function Text(s: string, w: Span): string {
    if w.q <= w.eq <= |s| then s[w.q..w.eq] else ""
  }

  function Texts(s: string, ws: seq<Span>): (r: seq<string>)
    ensures |r| == |ws| && forall i :: 0 <= i < |ws| ==> r[i] == Text(s, ws[i])
  {
    seq(|ws|, i requires 0 <= i < |ws| => Text(s, ws[i]))
  }

  /** The tree with the text of each span. */
  function TreeOf(s: string, cmd: Cmd): Tree {
    match cmd
    case Exec(args) => TExec(Texts(s, args))
    case Redir(c, to) => TRedir(TreeOf(s, c), Text(s, to.file), to.mode, to.fd)
    case Pipe(l, r) => TPipe(TreeOf(s, l), TreeOf(s, r))
    case List(l, r) => TList(TreeOf(s, l), TreeOf(s, r))
    case Back(c) => TBack(TreeOf(s, c))
  }

  /** The C string that starts at position q of a buffer. */
  function CString(b: seq<char>, q: nat): string
    decreases |b| - q
  {
    if q < |b| && b[q] != NUL then [b[q]] + CString(b, q + 1) else ""
  }

  function CStrings(b: seq<char>, ws: seq<Span>): (r: seq<string>)
    ensures |r| == |ws| && forall i :: 0 <= i < |ws| ==> r[i] == CString(b, ws[i].q)
  {
    seq(|ws|, i requires 0 <= i < |ws| => CString(b, ws[i].q))
  }

  /** The tree as runcmd sees it: only the start of each word is used. */
  function CTreeOf(b: seq<char>, cmd: Cmd): Tree {
    match cmd
    case Exec(args) => TExec(CStrings(b, args))
    case Redir(c, to) => TRedir(CTreeOf(b, c), CString(b, to.file.q), to.mode, to.fd)
    case Pipe(l, r) => TPipe(CTreeOf(b, l), CTreeOf(b, r))
    case List(l, r) => TList(CTreeOf(b, l), CTreeOf(b, r))
    case Back(c) => TBack(CTreeOf(b, c))
  }

  /** Every NUL that nulterminate writes lands after a word, never inside one. */
  ghost predicate Separators(s: string, ends: set<nat>) {
    forall e :: e in ends ==> e <= |s| && (e < |s| ==> !WordChar(s[e]))
  }

  lemma {:induction false} EndsSeparate(s: string, cmd: Cmd)
    requires TidyCmd(s, cmd)
    ensures Separators(s, Ends(cmd)) && forall b: seq<char> :: |b| == |s| + 1 ==> InBuffer(b, cmd)
  {
    match cmd
    case Exec(args) =>
    case Redir(c, to) => EndsSeparate(s, c);
    case Pipe(l, r) => EndsSeparate(s, l); EndsSeparate(s, r);
    case List(l, r) => EndsSeparate(s, l); EndsSeparate(s, r);
    case Back(c) => EndsSeparate(s, c);
  }

  ghost predicate NulFree(s: string) {
    forall k :: 0 <= k < |s| ==> s[k] != NUL
  }

  lemma {:induction false} WordReadsBack(s: string, ends: set<nat>, w: Span, k: nat)
    requires NulFree(s) && Tidy(s, w) && Separators(s, ends) && w.eq in ends && w.q <= k <= w.eq
    ensures CString(Terminated(s + [NUL], ends), k) == s[k..w.eq]
    decreases w.eq - k
  {
    var b := Terminated(s + [NUL], ends);
    if k < w.eq {
      WordReadsBack(s, ends, w, k + 1);
      assert b[k] == s[k] && s[k..w.eq] == [s[k]] + s[k + 1..w.eq];
    } else {
      assert b[k] == NUL;
    }
  }

  /** After nulterminate every argument and file name reads back, as a C string, as exactly its word. */
  lemma {:induction false} TreeReadsBack(s: string, cmd: Cmd, ends: set<nat>)
    requires NulFree(s) && TidyCmd(s, cmd) && Separators(s, ends) && Ends(cmd) <= ends
    ensures CTreeOf(Terminated(s + [NUL], ends), cmd) == TreeOf(s, cmd)
  {
    var b := Terminated(s + [NUL], ends);
    match cmd
    case Exec(args) =>
      forall i | 0 <= i < |args|
        ensures CString(b, args[i].q) == Text(s, args[i])
      {
        assert args[i].eq in Ends(cmd);
        WordReadsBack(s, ends, args[i], args[i].q);
      }
      assert CStrings(b, args) == Texts(s, args);
    case Redir(c, to) =>
      TreeReadsBack(s, c, ends);
      WordReadsBack(s, ends, to.file, to.file.q);
    case Pipe(l, r) =>
      TreeReadsBack(s, l, ends);
      TreeReadsBack(s, r, ends);
    case List(l, r) =>
      TreeReadsBack(s, l, ends);
      TreeReadsBack(s, r, ends);
    case Back(c) =>
      TreeReadsBack(s, c, ends);
  }

  /** For every input that parses: what nulterminate leaves behind, read as C strings, is the parsed
      command. */
  lemma {:induction false} NulterminateIsFaithful(s: string)
    requires NulFree(s) && ParseCmd(s).Parsed?
    ensures var cmd := ParseCmd(s).cmd;
            && InBuffer(s + [NUL], cmd) && TidyCmd(s, cmd)
            && CTreeOf(Terminated(s + [NUL], Ends(cmd)), cmd) == TreeOf(s, cmd)
  {
    LineTidy(s, 0);
    var cmd := ParseCmd(s).cmd;
    EndsSeparate(s, cmd);
    assert |s + [NUL]| == |s| + 1;
    TreeReadsBack(s, cmd, Ends(cmd));
  }

  // ---- printing, with every operand in parentheses ----

  ghost predicate ValidWord(w: string) {
    w != "" && forall k :: 0 <= k < |w| ==> WordChar(w[k]) && w[k] != NUL
  }

  ghost predicate ValidTree(t: Tree) {
    match t
    case TExec(words) => |words| < MAXARGS && forall i :: 0 <= i < |words| ==> ValidWord(words[i])
    case TRedir(c, file, mode, fd) =>
      ValidTree(c) && ValidWord(file) && ((mode == O_RDONLY && fd == 0) || (mode == O_WRONLY_CREATE && fd == 1))
    case TPipe(l, r) => ValidTree(l) && ValidTree(r)
    case TList(l, r) => ValidTree(l) && ValidTree(r)
    case TBack(c) => ValidTree(c)
  }

  function PrintWords(words: seq<string>): string {
    if words == [] then "" else words[0] + " " + PrintWords(words[1..])
  }

  function Parens(t: Tree): string
    decreases t, 1
  {
    "(" + Print(t) + ")"
  }

  function Print(t: Tree): string
    decreases t, 0
  {
    match t
    case TExec(words) => PrintWords(words)
    case TRedir(c, file, mode, fd) => Parens(c) + (if fd == 0 then "<" else ">") + file
    case TPipe(l, r) => Parens(l) + "|" + Parens(r)
    case TList(l, r) => Parens(l) + ";" + Parens(r)
    case TBack(c) => Parens(c) + "&"
  }

  // ---- the parser reads printed text ----

  /** Text w stands at position p of s. */
  ghost predicate Here(s: string, p: nat, w: string) {
    p + |w| <= |s| && s[p..p + |w|] == w
  }

  lemma {:induction false} HereSplit(s: string, p: nat, a: string, b: string)
    requires Here(s, p, a + b)
    ensures Here(s, p, a) && Here(s, p + |a|, b)
  {
    assert s[p..p + |a|] == (a + b)[..|a|];
    assert s[p + |a|..p + |a| + |b|] == (a + b)[|a|..];
  }

  lemma {:induction false} HereChar(s: string, p: nat, c: char)
    requires Here(s, p, [c])
    ensures p < |s| && s[p] == c
  {
    assert s[p] == s[p..p + 1][0];
  }

  /** Position e is the end of the input or a closing parenthesis. */
  ghost predicate Closes(s: string, e: nat) {
    e <= |s| && (e < |s| ==> s[e] == ')')
  }

  lemma {:induction false} WordEndIs(s: string, p: nat, e: nat)
    requires p <= e <= |s| && (forall k :: p <= k < e ==> WordChar(s[k])) && (e < |s| ==> !WordChar(s[e]))
    ensures WordEnd(s, p) == e
    decreases e - p
  {
    if p < e {
      WordEndIs(s, p + 1, e);
    }
  }

  lemma {:induction false} WordToken(s: string, p: nat, w: string)
    requires Here(s, p, w) && ValidWord(w) && (p + |w| < |s| ==> !WordChar(s[p + |w|]))
    ensures GetToken(s, p) == Token('a', p, p + |w|, Skip(s, p + |w|)) && Text(s, Span(p, p + |w|)) == w
  {
    assert s[p] == w[0];
    forall k | p <= k < p + |w|
      ensures WordChar(s[k])
    {
      assert s[k] == w[k - p];
    }
    WordEndIs(s, p, p + |w|);
  }

  lemma {:induction false} SkipOne(s: string, p: nat)
    requires p < |s| && Space(s[p]) && (p + 1 < |s| ==> !Space(s[p + 1]))
    ensures Skip(s, p) == p + 1
  {
    assert Skip(s, p) == Skip(s, p + 1);
  }

  /** No redirection where a word, a closing parenthesis or the end stands. */
  lemma {:induction false} NoRedirs(rs: seq<Redirection>, s: string, p: nat)
    requires p <= |s| && (p < |s| ==> !Space(s[p]) && s[p] != '<' && s[p] != '>')
    ensures RedirsAt(rs, s, p) == Found(rs, p)
  {
  }

  /** What stands where printed words begin. */
  lemma {:induction false} WordsStart(s: string, p: nat, words: seq<string>)
    requires Here(s, p, PrintWords(words)) && Closes(s, p + |PrintWords(words)|)
    requires forall i :: 0 <= i < |words| ==> ValidWord(words[i])
    ensures p < |s| ==> !Space(s[p]) && s[p] != '<' && s[p] != '>' && s[p] != '('
    ensures p <= |s| && (words == [] ==> Closes(s, p)) && (words != [] ==> p < |s| && WordChar(s[p]) && s[p] != NUL)
  {
    if words != [] {
      var w := words[0];
      assert ValidWord(w);
      assert PrintWords(words) == w + (" " + PrintWords(words[1..]));
      HereSplit(s, p, w, " " + PrintWords(words[1..]));
      assert s[p] == w[0];
    }
  }

  lemma {:induction false} ArgsStep(s: string, p: nat, done: seq<Span>, e: nat, p1: nat)
    requires p < |s| && !Space(s[p]) && WordChar(s[p]) && e <= |s| && p1 <= |s| && |done| + 1 < MAXARGS
    requires GetToken(s, p) == Token('a', p, e, p1) && RedirsAt([], s, p1) == Found([], p1)
    ensures ArgsAt(done, [], s, p) == ArgsAt(done + [Span(p, e)], [], s, p1)
  {
    assert Skip(s, p) == p;
    assert !Peeks(s, p, "|)&;");
  }

  lemma {:induction false} WordsNone(s: string, p: nat, done: seq<Span>, words: seq<string>)
    requires words == [] && Here(s, p, PrintWords(words)) && Closes(s, p + |PrintWords(words)|)
    ensures ArgsAt(done, [], s, p) == Parsed(Exec(done), p + |PrintWords(words)|)
  {
    if p < |s| {
      assert Peeks(s, p, "|)&;");
    }
  }

  lemma {:induction false} WordsSplit(s: string, p: nat, words: seq<string>)
    requires Here(s, p, PrintWords(words)) && Closes(s, p + |PrintWords(words)|) && words != []
    requires forall i :: 0 <= i < |words| ==> ValidWord(words[i])
    ensures var w, rest := words[0], words[1..];
            var p1 := p + |w| + 1;
            && p1 <= |s| && s[p + |w|] == ' ' && p + |PrintWords(words)| == p1 + |PrintWords(rest)| && ValidWord(w)
            && Here(s, p, w) && Here(s, p1, PrintWords(rest)) && Closes(s, p1 + |PrintWords(rest)|)
            && forall i :: 0 <= i < |rest| ==> ValidWord(rest[i])
  {
    var w, rest := words[0], words[1..];
    assert PrintWords(words) == w + (" " + PrintWords(rest));
    hide PrintWords, ValidWord, WordChar;
    HereSplit(s, p, w, " " + PrintWords(rest));
    HereSplit(s, p + |w|, " ", PrintWords(rest));
    HereChar(s, p + |w|, ' ');
    forall i | 0 <= i < |rest|
      ensures ValidWord(rest[i])
    {
      assert rest[i] == words[i + 1];
    }
  }

  /** The first printed word, as the parser meets it. */
  lemma {:induction false} WordsFirst(s: string, p: nat, words: seq<string>)
    requires Here(s, p, PrintWords(words)) && Closes(s, p + |PrintWords(words)|) && words != []
    requires forall i :: 0 <= i < |words| ==> ValidWord(words[i])
    ensures var w := words[0];
            var p1 := p + |w| + 1;
            && p < |s| && !Space(s[p]) && WordChar(s[p]) && p1 <= |s|
            && GetToken(s, p) == Token('a', p, p + |w|, p1) && Text(s, Span(p, p + |w|)) == w
            && RedirsAt([], s, p1) == Found([], p1)
  {
    hide PrintWords, Here, GetToken, RedirsAt, ValidWord, Closes, Text;
    var w := words[0];
    WordsSplit(s, p, words);
    WordsStart(s, p, words);
    WordsStart(s, p + |w| + 1, words[1..]);
    WordToken(s, p, w);
    SkipOne(s, p + |w|);
    NoRedirs([], s, p + |w| + 1);
  }

  lemma {:induction false} TextsCons(s: string, w: Span, ws: seq<Span>, words: seq<string>)
    requires words != [] && Text(s, w) == words[0] && Texts(s, ws) == words[1..]
    ensures Texts(s, [w] + ws) == words
  {
    hide Text;
    assert words == [words[0]] + words[1..];
  }

  lemma {:induction false} WordsParse(s: string, p: nat, done: seq<Span>, words: seq<string>) returns (ws: seq<Span>)
    requires Here(s, p, PrintWords(words)) && Closes(s, p + |PrintWords(words)|)
    requires |done| + |words| < MAXARGS && forall i :: 0 <= i < |words| ==> ValidWord(words[i])
    ensures ArgsAt(done, [], s, p) == Parsed(Exec(done + ws), p + |PrintWords(words)|) && Texts(s, ws) == words
    decreases |words|
  {
    hide *;
    if words == [] {
      ws := [];
      assert done + ws == done;
      WordsNone(s, p, done, words);
    } else {
      var me := Span(p, p + |words[0]|);
      WordsSplit(s, p, words);
      WordsFirst(s, p, words);
      ArgsStep(s, p, done, me.eq, me.eq + 1);
      var more := WordsParse(s, me.eq + 1, done + [me], words[1..]);
      ws := [me] + more;
      TextsCons(s, me, more, words);
      assert done + [me] + more == done + ws;
    }
  }

  lemma {:induction false} SymbolToken(s: string, p: nat)
    requires p < |s| && Symbol(s[p]) && s[p] != '>' && (p + 1 < |s| ==> !Space(s[p + 1]))
    ensures GetToken(s, p) == Token(s[p], p, p + 1, p + 1) && Skip(s, p) == p
  {
  }

  lemma {:induction false} ParensSplit(s: string, p: nat, t: Tree)
    requires Here(s, p, Parens(t))
    ensures var e := p + |Parens(t)|;
            && e <= |s| && p + 1 + |Print(t)| == e - 1 && s[p] == '(' && s[e - 1] == ')'
            && Here(s, p + 1, Print(t)) && Closes(s, e - 1)
  {
    assert Parens(t) == "(" + (Print(t) + ")");
    hide Print;
    HereSplit(s, p, "(", Print(t) + ")");
    HereSplit(s, p + 1, Print(t), ")");
    HereChar(s, p, '(');
    HereChar(s, p + 1 + |Print(t)|, ')');
  }

  /** Printed text never begins with white space. */
  lemma {:induction false} PrintStart(s: string, p: nat, t: Tree)
    requires ValidTree(t) && Here(s, p, Print(t)) && Closes(s, p + |Print(t)|)
    ensures p <= |s| && (p < |s| ==> !Space(s[p]))
  {
    match t
    case TExec(words) => WordsStart(s, p, words);
    case TRedir(c, file, mode, fd) => FirstParen(s, p, Print(t), c, Print(t)[|Parens(c)|..]);
    case TPipe(l, r) => FirstParen(s, p, Print(t), l, Print(t)[|Parens(l)|..]);
    case TList(l, r) => FirstParen(s, p, Print(t), l, Print(t)[|Parens(l)|..]);
    case TBack(c) => FirstParen(s, p, Print(t), c, Print(t)[|Parens(c)|..]);
  }

  lemma {:induction false} FirstParen(s: string, p: nat, w: string, t: Tree, rest: string)
    requires Here(s, p, w) && w == Parens(t) + rest
    ensures p < |s| && s[p] == '(' && Here(s, p, Parens(t)) && Here(s, p + |Parens(t)|, rest)
  {
    HereSplit(s, p, Parens(t), rest);
    ParensSplit(s, p, t);
  }

  /** parseblock on a printed command: what is left is the redirections behind it. */
  lemma {:induction false} BlockHead(s: string, p: nat, t: Tree) returns (c: Cmd)
    requires ValidTree(t) && Here(s, p, Parens(t)) && (p + |Parens(t)| < |s| ==> !Space(s[p + |Parens(t)|]))
    ensures TreeOf(s, c) == t && p + |Parens(t)| <= |s|
    ensures ExecAt(s, p) == match RedirsAt([], s, p + |Parens(t)|)
                            case NoFile => Panics(NO_FILE)
                            case Found(rs, q) => Parsed(Wrap(c, rs), q)
    decreases t, 4
  {
    hide Print, Parens, GetToken, LineAt, RedirsAt, Here, ValidTree, TreeOf, Closes;
    var e := p + |Parens(t)|;
    ParensSplit(s, p, t);
    PrintStart(s, p + 1, t);
    c := TreeParse(s, p + 1, t);
    SymbolToken(s, p);
    SymbolToken(s, e - 1);
    BlockUnfold(s, p, e, c);
  }

  lemma {:induction false} BlockUnfold(s: string, p: nat, e: nat, c: Cmd)
    requires p < e - 1 < |s| && s[p] == '(' && s[e - 1] == ')' && Skip(s, p) == p
    requires GetToken(s, p) == Token('(', p, p + 1, p + 1) && GetToken(s, e - 1) == Token(')', e - 1, e, e)
    requires LineAt(s, p + 1) == Parsed(c, e - 1)
    ensures ExecAt(s, p) == match RedirsAt([], s, e)
                            case NoFile => Panics(NO_FILE)
                            case Found(rs, q) => Parsed(Wrap(c, rs), q)
  {
    hide GetToken, LineAt, RedirsAt;
    assert Peeks(s, p, "(");
    assert Peeks(s, e - 1, ")");
  }

  /** A printed operand in parentheses, with no redirection behind it. */
  lemma {:induction false} ParensParse(s: string, p: nat, t: Tree) returns (c: Cmd)
    requires ValidTree(t) && Here(s, p, Parens(t))
    requires var e := p + |Parens(t)|; e < |s| ==> !Space(s[e]) && s[e] != '<' && s[e] != '>'
    ensures TreeOf(s, c) == t && p + |Parens(t)| <= |s| && ExecAt(s, p) == Parsed(c, p + |Parens(t)|)
    decreases t, 5
  {
    hide Print, Parens, GetToken, LineAt, RedirsAt, ExecAt, Here, ValidTree, TreeOf;
    c := BlockHead(s, p, t);
    NoRedirs([], s, p + |Parens(t)|);
    assert Wrap(c, []) == c;
  }

  lemma {:induction false} PipeEnds(s: string, p: nat, c: Cmd, e: nat)
    requires p <= |s| && e <= |s| && ExecAt(s, p) == Parsed(c, e) && (e < |s| ==> !Space(s[e]) && s[e] != '|')
    ensures PipeAt(s, p) == Parsed(c, e)
  {
    hide ExecAt;
    assert Skip(s, e) == e;
  }

  lemma {:induction false} LineEnds(s: string, p: nat, c: Cmd, e: nat)
    requires p <= |s| && PipeAt(s, p) == Parsed(c, e) && Closes(s, e)
    ensures LineAt(s, p) == Parsed(c, e)
  {
    hide PipeAt;
    assert Skip(s, e) == e;
  }

  lemma {:induction false} RedirStep(s: string, p: nat, e: nat, to: Redirection)
    requires p + 1 < e <= |s| && !Space(s[p]) && (s[p] == '<' || s[p] == '>')
             && GetToken(s, p) == Token(s[p], p, p + 1, p + 1)
    requires GetToken(s, p + 1) == Token('a', p + 1, e, e) && to.file == Span(p + 1, e)
    requires if s[p] == '<' then to.mode == O_RDONLY && to.fd == 0 else to.mode == O_WRONLY_CREATE && to.fd == 1
    ensures RedirsAt([], s, p) == RedirsAt([to], s, e)
  {
    hide GetToken;
    assert Peeks(s, p, "<>");
    assert [] + [to] == [to];
  }

  lemma {:induction false} OneRedir(s: string, p: nat, file: string, mode: int, fd: int)
    requires p < |s| && s[p] == (if fd == 0 then '<' else '>') && Here(s, p + 1, file) && ValidWord(file)
             && Closes(s, p + 1 + |file|)
    requires (mode == O_RDONLY && fd == 0) || (mode == O_WRONLY_CREATE && fd == 1)
    ensures var e := p + 1 + |file|;
            RedirsAt([], s, p) == Found([Redirection(Span(p + 1, e), mode, fd)], e) && Text(s, Span(p + 1, e)) == file
  {
    var e := p + 1 + |file|;
    assert s[p + 1] == file[0] && WordChar(s[p + 1]);
    assert GetToken(s, p) == Token(s[p], p, p + 1, p + 1);
    WordToken(s, p + 1, file);
    assert Skip(s, e) == e;
    var to := Redirection(Span(p + 1, e), mode, fd);
    hide GetToken, Here, ValidWord, WordChar, Text, WordEnd;
    NoRedirs([to], s, e);
    RedirStep(s, p, e, to);
  }

  /** The parser reads back what was printed, wherever it stands. */
  lemma {:induction false} TreeParse(s: string, p: nat, t: Tree) returns (c: Cmd)
    requires ValidTree(t) && Here(s, p, Print(t)) && Closes(s, p + |Print(t)|)
    ensures LineAt(s, p) == Parsed(c, p + |Print(t)|) && TreeOf(s, c) == t
    decreases t, 3
  {
    match t
    case TExec(words) => c := ExecParse(s, p, words);
    case TRedir(b, file, mode, fd) => c := RedirParse(s, p, b, file, mode, fd);
    case TPipe(l, r) => c := PipeParse(s, p, l, r);
    case TList(l, r) => c := ListParse(s, p, l, r);
    case TBack(b) => c := BackParse(s, p, b);
  }

  lemma {:induction false} ExecParse(s: string, p: nat, words: seq<string>) returns (c: Cmd)
    requires ValidTree(TExec(words)) && Here(s, p, PrintWords(words)) && Closes(s, p + |PrintWords(words)|)
    ensures LineAt(s, p) == Parsed(c, p + |PrintWords(words)|) && TreeOf(s, c) == TExec(words)
    decreases TExec(words), 2
  {
    hide PrintWords, Here, ArgsAt, RedirsAt, GetToken, Texts, LineAt, PipeAt, Closes;
    var e := p + |PrintWords(words)|;
    WordsStart(s, p, words);
    var ws := WordsParse(s, p, [], words);
    assert [] + ws == ws;
    c := Exec(ws);
    NoRedirs([], s, p);
    assert Skip(s, p) == p && !Peeks(s, p, "(");
    assert ExecAt(s, p) == Parsed(c, e);
    ClosesFacts(s, e);
    PipeEnds(s, p, c, e);
    LineEnds(s, p, c, e);
  }

  lemma {:induction false} ClosesFacts(s: string, e: nat)
    requires Closes(s, e)
    ensures e <= |s| && (e < |s| ==> !Space(s[e]) && s[e] != '|' && s[e] != '<' && s[e] != '>')
  {
  }

  lemma {:induction false} RedirFacts(b: Tree, file: string, mode: int, fd: int)
    requires ValidTree(TRedir(b, file, mode, fd))
    ensures ValidTree(b) && ValidWord(file) && ((mode == O_RDONLY && fd == 0) || (mode == O_WRONLY_CREATE && fd == 1))
    ensures Print(TRedir(b, file, mode, fd)) == Parens(b) + ([if fd == 0 then '<' else '>'] + file)
  {
    hide Parens;
  }

  lemma {:induction false} RedirParse(s: string, p: nat, b: Tree, file: string, mode: int, fd: int) returns (c: Cmd)
    requires ValidTree(TRedir(b, file, mode, fd))
    requires var w := Print(TRedir(b, file, mode, fd)); Here(s, p, w) && Closes(s, p + |w|)
    ensures LineAt(s, p) == Parsed(c, p + |Print(TRedir(b, file, mode, fd))|)
            && TreeOf(s, c) == TRedir(b, file, mode, fd)
    decreases TRedir(b, file, mode, fd), 2
  {
    hide *;
    var t := TRedir(b, file, mode, fd);
    RedirFacts(b, file, mode, fd);
    RedirSplit(s, p, Print(t), b, if fd == 0 then '<' else '>', file);
    var e1, e := p + |Parens(b)|, p + |Print(t)|;
    Operators();
    var inner := BlockHead(s, p, b);
    OneRedir(s, e1, file, mode, fd);
    var to := Redirection(Span(e1 + 1, e), mode, fd);
    c := Redir(inner, to);
    WrapOne(inner, to);
    PipeEnds(s, p, c, e);
    LineEnds(s, p, c, e);
    TreeOfParts(s, inner, inner, to);
  }

  /** TreeOf, constructor by constructor. */
  lemma {:induction false} TreeOfParts(s: string, l: Cmd, r: Cmd, to: Redirection)
    ensures TreeOf(s, Redir(l, to)) == TRedir(TreeOf(s, l), Text(s, to.file), to.mode, to.fd)
    ensures TreeOf(s, Pipe(l, r)) == TPipe(TreeOf(s, l), TreeOf(s, r))
    ensures TreeOf(s, List(l, r)) == TList(TreeOf(s, l), TreeOf(s, r))
    ensures TreeOf(s, Back(l)) == TBack(TreeOf(s, l))
  {
  }

  lemma {:induction false} WrapOne(c: Cmd, to: Redirection)
    ensures Wrap(c, [to]) == Redir(c, to)
  {
    assert [to][..0] == [];
    assert Wrap(c, []) == c;
  }

  lemma {:induction false} RedirSplit(s: string, p: nat, w: string, b: Tree, op: char, file: string)
    requires Here(s, p, w) && w == Parens(b) + ([op] + file) && Closes(s, p + |w|)
    ensures var e1, e := p + |Parens(b)|, p + |w|;
            && e1 < |s| && s[e1] == op && e == e1 + 1 + |file| && e <= |s|
            && Here(s, p, Parens(b)) && Here(s, e1 + 1, file)
            && (e < |s| ==> !Space(s[e]) && s[e] != '|' && s[e] != '<' && s[e] != '>')
  {
    hide Parens, Print;
    FirstParen(s, p, w, b, [op] + file);
    var e1 := p + |Parens(b)|;
    HereSplit(s, e1, [op], file);
    HereChar(s, e1, op);
    ClosesFacts(s, p + |w|);
  }

  /** Two operands in parentheses with an operator between them. */
  lemma {:induction false} OperandsSplit(s: string, p: nat, w: string, l: Tree, op: char, r: Tree)
    requires Here(s, p, w) && w == Parens(l) + ([op] + Parens(r)) && Closes(s, p + |w|)
    ensures var e1, e := p + |Parens(l)|, p + |w|;
            && e1 < |s| && s[e1] == op && e1 + 1 < |s| && s[e1 + 1] == '(' && e == e1 + 1 + |Parens(r)| && e <= |s|
            && Here(s, p, Parens(l)) && Here(s, e1 + 1, Parens(r))
            && (e < |s| ==> !Space(s[e]) && s[e] != '|' && s[e] != '<' && s[e] != '>')
  {
    hide Parens, Print;
    FirstParen(s, p, w, l, [op] + Parens(r));
    var e1 := p + |Parens(l)|;
    HereSplit(s, e1, [op], Parens(r));
    HereChar(s, e1, op);
    ParensSplit(s, e1 + 1, r);
    ClosesFacts(s, p + |w|);
  }

  lemma {:induction false} PairFacts(l: Tree, r: Tree)
    ensures ValidTree(TPipe(l, r)) ==> ValidTree(l) && ValidTree(r)
    ensures ValidTree(TList(l, r)) ==> ValidTree(l) && ValidTree(r)
    ensures ValidTree(TBack(l)) ==> ValidTree(l)
    ensures Print(TPipe(l, r)) == Parens(l) + (['|'] + Parens(r))
    ensures Print(TList(l, r)) == Parens(l) + ([';'] + Parens(r))
    ensures Print(TBack(l)) == Parens(l) + ['&']
  {
    hide Parens;
  }

  lemma {:induction false} PipeParse(s: string, p: nat, l: Tree, r: Tree) returns (c: Cmd)
    requires ValidTree(TPipe(l, r))
    requires var w := Print(TPipe(l, r)); Here(s, p, w) && Closes(s, p + |w|)
    ensures LineAt(s, p) == Parsed(c, p + |Print(TPipe(l, r))|) && TreeOf(s, c) == TPipe(l, r)
    decreases TPipe(l, r), 2
  {
    hide *;
    PairFacts(l, r);
    OperandsSplit(s, p, Print(TPipe(l, r)), l, '|', r);
    var e1, e := p + |Parens(l)|, p + |Print(TPipe(l, r))|;
    Operators();
    var left := ParensParse(s, p, l);
    var right := ParensParse(s, e1 + 1, r);
    PipeEnds(s, e1 + 1, right, e);
    SymbolToken(s, e1);
    PipeJoins(s, p, left, e1, right, e);
    c := Pipe(left, right);
    LineEnds(s, p, c, e);
    TreeOfParts(s, left, right, Redirection(Span(0, 0), 0, 0));
  }

  lemma {:induction false} Operators()
    ensures Symbol('|') && Symbol(';') && Symbol('&') && Symbol('(') && Symbol(')')
    ensures !Space('|') && !Space(';') && !Space('&') && !Space('(') && !Space(')') && !Space('<') && !Space('>')
  {
  }

  lemma {:induction false} PipeJoins(s: string, p: nat, left: Cmd, e1: nat, right: Cmd, e: nat)
    requires p <= e1 < |s| && s[e1] == '|' && ExecAt(s, p) == Parsed(left, e1)
    requires GetToken(s, e1) == Token('|', e1, e1 + 1, e1 + 1) && PipeAt(s, e1 + 1) == Parsed(right, e)
    ensures PipeAt(s, p) == Parsed(Pipe(left, right), e)
  {
    hide ExecAt, GetToken;
    assert Peeks(s, e1, "|");
  }

  lemma {:induction false} ListParse(s: string, p: nat, l: Tree, r: Tree) returns (c: Cmd)
    requires ValidTree(TList(l, r))
    requires var w := Print(TList(l, r)); Here(s, p, w) && Closes(s, p + |w|)
    ensures LineAt(s, p) == Parsed(c, p + |Print(TList(l, r))|) && TreeOf(s, c) == TList(l, r)
    decreases TList(l, r), 2
  {
    hide *;
    PairFacts(l, r);
    OperandsSplit(s, p, Print(TList(l, r)), l, ';', r);
    var e1, e := p + |Parens(l)|, p + |Print(TList(l, r))|;
    Operators();
    var left := ParensParse(s, p, l);
    PipeEnds(s, p, left, e1);
    var right := ParensParse(s, e1 + 1, r);
    PipeEnds(s, e1 + 1, right, e);
    LineEnds(s, e1 + 1, right, e);
    SymbolToken(s, e1);
    ListJoins(s, p, left, e1, right, e);
    c := List(left, right);
    TreeOfParts(s, left, right, Redirection(Span(0, 0), 0, 0));
  }

  lemma {:induction false} ListJoins(s: string, p: nat, left: Cmd, e1: nat, right: Cmd, e: nat)
    requires p <= e1 < |s| && s[e1] == ';' && PipeAt(s, p) == Parsed(left, e1)
    requires GetToken(s, e1) == Token(';', e1, e1 + 1, e1 + 1) && LineAt(s, e1 + 1) == Parsed(right, e)
    ensures LineAt(s, p) == Parsed(List(left, right), e)
  {
    hide PipeAt, GetToken;
    assert BacksAt(left, s, e1) == (left, e1);
    assert Peeks(s, e1, ";");
  }

  lemma {:induction false} BackSplit(s: string, p: nat, w: string, t: Tree)
    requires Here(s, p, w) && w == Parens(t) + ['&'] && Closes(s, p + |w|)
    ensures var e1 := p + |Parens(t)|;
            && e1 < |s| && s[e1] == '&' && p + |w| == e1 + 1 && Here(s, p, Parens(t))
            && (e1 + 1 < |s| ==> !Space(s[e1 + 1]))
  {
    hide Parens, Print;
    FirstParen(s, p, w, t, ['&']);
    HereChar(s, p + |Parens(t)|, '&');
    ClosesFacts(s, p + |w|);
  }

  lemma {:induction false} BackParse(s: string, p: nat, b: Tree) returns (c: Cmd)
    requires ValidTree(TBack(b))
    requires var w := Print(TBack(b)); Here(s, p, w) && Closes(s, p + |w|)
    ensures LineAt(s, p) == Parsed(c, p + |Print(TBack(b))|) && TreeOf(s, c) == TBack(b)
    decreases TBack(b), 2
  {
    hide *;
    PairFacts(b, b);
    BackSplit(s, p, Print(TBack(b)), b);
    var e1 := p + |Parens(b)|;
    Operators();
    var inner := ParensParse(s, p, b);
    PipeEnds(s, p, inner, e1);
    SymbolToken(s, e1);
    BackJoins(s, p, inner, e1);
    c := Back(inner);
    TreeOfParts(s, inner, inner, Redirection(Span(0, 0), 0, 0));
  }

  lemma {:induction false} BackJoins(s: string, p: nat, inner: Cmd, e1: nat)
    requires p <= e1 < |s| && s[e1] == '&' && PipeAt(s, p) == Parsed(inner, e1) && Closes(s, e1 + 1)
    requires GetToken(s, e1) == Token('&', e1, e1 + 1, e1 + 1)
    ensures LineAt(s, p) == Parsed(Back(inner), e1 + 1)
  {
    hide PipeAt, GetToken;
    assert Peeks(s, e1, "&");
    assert BacksAt(Back(inner), s, e1 + 1) == (Back(inner), e1 + 1);
    assert BacksAt(inner, s, e1) == (Back(inner), e1 + 1);
  }

  /** Printing and parsing again gives the same command. */
  lemma {:induction false} RoundTrip(t: Tree)
    requires ValidTree(t)
    ensures ParseCmd(Print(t)).Parsed? && TreeOf(Print(t), ParseCmd(Print(t)).cmd) == t
  {
    var s := Print(t);
    assert s[0..0 + |s|] == s;
    var c := TreeParse(s, 0, t);
  }

  lemma {:induction false} PrintNulFree(t: Tree)
    requires ValidTree(t)
    ensures NulFree(Print(t))
  {
    match t
    case TExec(words) => WordsNulFree(words);
    case TRedir(c, file, mode, fd) => PrintNulFree(c);
    case TPipe(l, r) => PrintNulFree(l); PrintNulFree(r);
    case TList(l, r) => PrintNulFree(l); PrintNulFree(r);
    case TBack(c) => PrintNulFree(c);
  }

  lemma {:induction false} WordsNulFree(words: seq<string>)
    requires forall i :: 0 <= i < |words| ==> ValidWord(words[i])
    ensures NulFree(PrintWords(words))
  {
    if words != [] {
      assert forall i :: 0 <= i < |words[1..]| ==> words[1..][i] == words[i + 1];
      WordsNulFree(words[1..]);
      assert ValidWord(words[0]);
    }
  }

  /** And so does parsing, terminating the words in place and reading them as C strings. */
  lemma {:induction false} RoundTripInMemory(t: Tree)
    requires ValidTree(t)
    ensures var s := Print(t);
            && ParseCmd(s).Parsed?
            && CTreeOf(Terminated(s + [NUL], Ends(ParseCmd(s).cmd)), ParseCmd(s).cmd) == t
  {
    hide ParseCmd, Print, ValidTree, NulFree, CTreeOf, TreeOf, Terminated, Ends;
    RoundTrip(t);
    PrintNulFree(t);
    NulterminateIsFaithful(Print(t));
  }

  /** Whatever parses denotes a valid tree. */
  lemma {:induction false} ParsedIsValid(s: string, cmd: Cmd)
    requires NulFree(s) && TidyCmd(s, cmd)
    ensures ValidTree(TreeOf(s, cmd))
  {
    match cmd
    case Exec(args) =>
      forall i | 0 <= i < |args|
        ensures ValidWord(Texts(s, args)[i])
      {
        assert Tidy(s, args[i]);
        SpanIsWord(s, args[i]);
      }
    case Redir(c, to) =>
      ParsedIsValid(s, c);
      SpanIsWord(s, to.file);
    case Pipe(l, r) =>
      ParsedIsValid(s, l);
      ParsedIsValid(s, r);
    case List(l, r) =>
      ParsedIsValid(s, l);
      ParsedIsValid(s, r);
    case Back(c) =>
      ParsedIsValid(s, c);
  }

  lemma {:induction false} SpanIsWord(s: string, w: Span)
    requires NulFree(s) && Tidy(s, w)
    ensures ValidWord(Text(s, w))
  {
    forall k | 0 <= k < |Text(s, w)|
      ensures WordChar(Text(s, w)[k]) && Text(s, w)[k] != NUL
    {
      assert Text(s, w)[k] == s[w.q + k];
    }
  }

  /** So for every input that parses, printing the command and parsing that gives the same command. */
  lemma {:induction false} ParsePrintParse(s: string)
    requires NulFree(s) && ParseCmd(s).Parsed?
    ensures var t := TreeOf(s, ParseCmd(s).cmd);
            ParseCmd(Print(t)).Parsed? && TreeOf(Print(t), ParseCmd(Print(t)).cmd) == t
  {
    LineTidy(s, 0);
    var cmd := ParseCmd(s).cmd;
    assert TidyCmd(s, cmd);
    hide ParseCmd, Print, ValidTree, TreeOf, TidyCmd;
    ParsedIsValid(s, cmd);
    RoundTrip(TreeOf(s, cmd));
  }

  // ---- the parser itself: a cursor that its functions advance ----

  class Parser {
    const s: string
    var pos: nat

    ghost predicate Valid()
      reads this
    {
      pos <= |s|
    }

    constructor (text: string)
      ensures s == text && pos == 0 && Valid()
    {
      s, pos := text, 0;
    }

    method SkipSpace()
      requires Valid()
      modifies this`pos
      ensures Valid() && pos == Skip(s, old(pos))
    {
      while pos < |s| && Space(s[pos])
        invariant pos <= |s| && Skip(s, pos) == Skip(s, old(pos))
      {
        pos := pos + 1;
      }
    }

    /** gettoken (sh.c:302-361). */
    method GetTok() returns (kind: char, q: nat, eq: nat)
      requires Valid()
      modifies this`pos
      ensures Valid() && Token(kind, q, eq, pos) == GetToken(s, old(pos))
    {
      SkipSpace();
      q := pos;
      if pos == |s| {
        kind := NUL;
      } else if s[pos] == '>' {
        kind := '>';
        pos := pos + 1;
        if pos < |s| && s[pos] == '>' {
          kind := '+';
          pos := pos + 1;
        }
      } else if Symbol(s[pos]) {
        kind := s[pos];
        pos := pos + 1;
      } else {
        kind := 'a';
        while pos < |s| && !Space(s[pos]) && !Symbol(s[pos])
          invariant q <= pos <= |s| && WordEnd(s, pos) == WordEnd(s, q)
        {
          pos := pos + 1;
        }
      }
      eq := pos;
      SkipSpace();
    }

    /** peek (sh.c:364-375). */
    method Peek(toks: string) returns (found: bool)
      requires Valid()
      modifies this`pos
      ensures Valid() && pos == Skip(s, old(pos)) && found == Peeks(s, old(pos), toks)
    {
      SkipSpace();
      found := pos < |s| && s[pos] in toks;
    }

    /** parseredirs (sh.c:434-461), collecting the redirections in order. */
    method ParseRedirs(before: seq<Redirection>) returns (r: Redirs)
      requires Valid()
      modifies this`pos
      ensures Valid() && r == RedirsAt(before, s, old(pos)) && (r.Found? ==> r.pos == pos)
    {
      hide GetToken;
      var rs := before;
      var more := Peek("<>");
      PeekAgain(s, old(pos), "<>");
      RedirsSkip(rs, s, old(pos));
      while more
        invariant Valid() && more == Peeks(s, pos, "<>") && pos == Skip(s, pos)
        invariant RedirsAt(rs, s, pos) == RedirsAt(before, s, old(pos))
        decreases |s| - pos
      {
        ghost var p0 := pos;
        var tok, q, eq := GetTok();
        var kind;
        kind, q, eq := GetTok();
        if kind != 'a' {
          return NoFile;
        }
        var to := if tok == '<' then Redirection(Span(q, eq), O_RDONLY, 0)
            else Redirection(Span(q, eq), O_WRONLY_CREATE, 1);
        assert RedirsAt(rs, s, p0) == RedirsAt(rs + [to], s, pos);
        rs := rs + [to];
        ghost var p1 := pos;
        more := Peek("<>");
        PeekAgain(s, p1, "<>");
        RedirsSkip(rs, s, p1);
      }
      r := Found(rs, pos);
    }

    /** The loop of parseexec over the arguments (sh.c:500-522). */
    method ParseArgs(before: seq<Redirection>) returns (r: Parse)
      requires Valid()
      modifies this`pos
      ensures Valid() && r == ArgsAt([], before, s, old(pos)) && (r.Parsed? ==> r.pos == pos)
    {
      hide GetToken, RedirsAt;
      var args, rs := [], before;
      var done := Peek("|)&;");
      PeekAgain(s, old(pos), "|)&;");
      ArgsSkip(args, rs, s, old(pos));
      while !done
        invariant Valid() && done == Peeks(s, pos, "|)&;") && pos == Skip(s, pos)
        invariant ArgsAt(args, rs, s, pos) == ArgsAt([], before, s, old(pos))
        decreases |s| - pos
      {
        ghost var p0 := pos;
        var tok, q, eq := GetTok();
        if tok == NUL {
          return Parsed(Wrap(Exec(args), rs), pos);
        }
        if tok != 'a' {
          return Panics("syntax");
        }
        if |args| + 1 >= MAXARGS {
          return Panics("too many args");
        }
        var more := ParseRedirs(rs);
        if more.NoFile? {
          return Panics(NO_FILE);
        }
        assert ArgsAt(args, rs, s, p0) == ArgsAt(args + [Span(q, eq)], more.rs, s, pos);
        args, rs := args + [Span(q, eq)], more.rs;
        ghost var p1 := pos;
        done := Peek("|)&;");
        PeekAgain(s, p1, "|)&;");
        ArgsSkip(args, rs, s, p1);
      }
      r := Parsed(Wrap(Exec(args), rs), pos);
    }

    /** parseexec (sh.c:484-523). */
    method ParseExec() returns (r: Parse)
      requires Valid()
      modifies this`pos
      ensures Valid() && r == ExecAt(s, old(pos)) && (r.Parsed? ==> r.pos == pos)
      decreases |s| - pos, 1
    {
      hide GetToken, RedirsAt, ArgsAt, BlockAt;
      var block := Peek("(");
      if block {
        r := ParseBlock();
        return;
      }
      RedirsSkip([], s, old(pos));
      var rs := ParseRedirs([]);
      if rs.NoFile? {
        return Panics(NO_FILE);
      }
      r := ParseArgs(rs.rs);
    }

    /** parseblock (sh.c:464-481); its first test cannot fail, since parseexec has made it. */
    method ParseBlock() returns (r: Parse)
      requires Valid() && pos < |s| && s[pos] == '('
      modifies this`pos
      ensures Valid() && r == BlockAt(s, old(pos)) && (r.Parsed? ==> r.pos == pos)
      decreases |s| - pos, 0
    {
      hide GetToken, RedirsAt, LineAt;
      var tok, q, eq := GetTok();
      r := ParseLine();
      if r.Panics? {
        return;
      }
      PeekAgain(s, pos, ")");
      var closed := Peek(")");
      if !closed {
        return Panics("syntax - missing )");
      }
      tok, q, eq := GetTok();
      var rs := ParseRedirs([]);
      if rs.NoFile? {
        return Panics(NO_FILE);
      }
      r := Parsed(Wrap(r.cmd, rs.rs), pos);
    }

    /** parsepipe (sh.c:420-431). */
    method ParsePipe() returns (r: Parse)
      requires Valid()
      modifies this`pos
      ensures Valid() && r == PipeAt(s, old(pos)) && (r.Parsed? ==> r.pos == pos)
      decreases |s| - pos, 2
    {
      hide GetToken, ExecAt;
      r := ParseExec();
      if r.Panics? {
        return;
      }
      PeekAgain(s, pos, "|");
      var pipe := Peek("|");
      if !pipe {
        return Parsed(r.cmd, pos);
      }
      var left := r.cmd;
      var tok, q, eq := GetTok();
      r := ParsePipe();
      if r.Parsed? {
        r := Parsed(Pipe(left, r.cmd), pos);
      }
    }

    /** parseline (sh.c:401-417). */
    method ParseLine() returns (r: Parse)
      requires Valid()
      modifies this`pos
      ensures Valid() && r == LineAt(s, old(pos)) && (r.Parsed? ==> r.pos == pos)
      decreases |s| - pos, 3
    {
      hide GetToken, PipeAt;
      r := ParsePipe();
      if r.Panics? {
        return;
      }
      var cmd := r.cmd;
      ghost var p1 := pos;
      var back := Peek("&");
      PeekAgain(s, p1, "&");
      BacksSkip(cmd, s, p1);
      while back
        invariant Valid() && old(pos) <= pos && back == Peeks(s, pos, "&") && pos == Skip(s, pos)
        invariant BacksAt(cmd, s, pos) == BacksAt(r.cmd, s, p1)
        decreases |s| - pos
      {
        var tok, q, eq := GetTok();
        cmd := Back(cmd);
        ghost var p2 := pos;
        back := Peek("&");
        PeekAgain(s, p2, "&");
        BacksSkip(cmd, s, p2);
      }
      assert BacksAt(r.cmd, s, p1) == (cmd, pos);
      PeekAgain(s, pos, ";");
      var list := Peek(";");
      if !list {
        return Parsed(cmd, pos);
      }
      var tok, q, eq := GetTok();
      r := ParseLine();
      if r.Parsed? {
        r := Parsed(List(cmd, r.cmd), pos);
      }
    }

    /** parsecmd (sh.c:383-398), before the words are terminated. */
    method Parse() returns (r: Parse)
      requires pos == 0
      modifies this`pos
      ensures r == ParseCmd(s)
    {
      hide LineAt;
      r := ParseLine();
      if r.Panics? {
        return;
      }
      var ignored := Peek("");
      if pos != |s| {
        return Panics("syntax");
      }
      r := Parsed(r.cmd, pos);
    }
  }

  lemma {:induction false} ArgsSkip(args: seq<Span>, rs: seq<Redirection>, s: string, p: nat)
    requires p <= |s|
    ensures ArgsAt(args, rs, s, Skip(s, p)) == ArgsAt(args, rs, s, p)
  {
    PeekAgain(s, p, "|)&;");
  }

  lemma {:induction false} BacksSkip(cmd: Cmd, s: string, p: nat)
    requires p <= |s|
    ensures BacksAt(cmd, s, Skip(s, p)) == BacksAt(cmd, s, p)
  {
    PeekAgain(s, p, "&");
  }

  /** Skipping white space twice changes nothing. */
  lemma {:induction false} PeekAgain(s: string, p: nat, toks: string)
    requires p <= |s|
    ensures Skip(s, Skip(s, p)) == Skip(s, p) && Peeks(s, Skip(s, p), toks) == Peeks(s, p, toks)
    ensures GetToken(s, Skip(s, p)) == GetToken(s, p)
  {
  }

  lemma {:induction false} RedirsSkip(rs: seq<Redirection>, s: string, p: nat)
    requires p <= |s|
    ensures RedirsAt(rs, s, Skip(s, p)) == RedirsAt(rs, s, p)
  {
    PeekAgain(s, p, "<>");
  }
}
