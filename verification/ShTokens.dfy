/** What the tokens of a line are, in characters, and what a command tree keeps of them. */
module ShTokens {
  import opened ShGrammar
  import opened Sh

  // ---- Tokens and characters ----

  predicate InWord(c: char) { !White(c) && !Symbol(c) }

  /** Token t is line[q..eq], as long as it can be. */
  predicate TokenIs(line: seq<char>, es: nat, t: Tok, q: nat, eq: nat)
    requires Text(line, es)
  {
    && q < eq <= es
    && match t
       case Word(a, b) =>
         && a == q && b == eq && (forall k :: q <= k < eq ==> InWord(line[k])) && (eq < es ==> !InWord(line[eq]))
       case Sym(c) =>
         if c == '+' then line[q..eq] == ">>"
         else if c == '>' then line[q..eq] == ">" && line[eq] != '>'
         else c in "<|&;()" && line[q..eq] == [c]
  }

  predicate Blank(line: seq<char>, i: nat, j: nat)
    requires i <= j <= |line|
  {
    forall k :: i <= k < j ==> White(line[k])
  }

  /** From position i on the line is made up of the tokens, in order, and whitespace between them. */
  ghost predicate Covers(line: seq<char>, es: nat, i: nat, ts: Toks)
    requires Text(line, es) && i <= es
    decreases ts
  {
    match ts
    case Nil => Blank(line, i, es)
    case Cons(t, rest) =>
      exists q, eq ::
        i <= q < eq <= es && Blank(line, i, q) && TokenIs(line, es, t, q, eq) && Covers(line, es, eq, rest)
  }

  lemma {:induction false} SkipBlank(line: seq<char>, es: nat, i: nat)
    requires Text(line, es) && i <= es
    ensures Blank(line, i, Skip(line, es, i))
    decreases es - i
  {
    if i < es && White(line[i]) {
      SkipBlank(line, es, i + 1);
    }
  }

  lemma {:induction false} SkipIs(line: seq<char>, es: nat, i: nat, q: nat)
    requires Text(line, es) && i <= q <= es && Blank(line, i, q) && !White(line[q])
    ensures Skip(line, es, i) == q
    decreases es - i
  {
    if i < q {
      SkipIs(line, es, i + 1, q);
    }
  }

  lemma {:induction false} WordEndIs(line: seq<char>, es: nat, i: nat, eq: nat)
    requires Text(line, es) && i <= eq <= es && (forall k :: i <= k < eq ==> InWord(line[k]))
    requires eq < es ==> !InWord(line[eq])
    ensures WordEnd(line, es, i) == eq
    decreases es - i
  {
    if i < eq {
      WordEndIs(line, es, i + 1, eq);
    }
  }

  /** gettoken's token is the one that is there. */
  lemma LexedExactly(line: seq<char>, es: nat, t: Tok, q: nat, eq: nat)
    requires Text(line, es) && q < es && !White(line[q]) && q < eq <= es
    ensures TokenIs(line, es, t, q, eq) <==> t == TokOf(Lexed(line, es, q).0, q, eq) && eq == Lexed(line, es, q).1
  {
    LexedMeans(line, es, q);
    if InWord(line[q]) && t.Word? && TokenIs(line, es, t, q, eq) {
      WordEndIs(line, es, q, eq);
    }
  }

  lemma {:induction false} CoversTokens(line: seq<char>, es: nat, i: nat)
    requires Text(line, es) && i <= es
    ensures Covers(line, es, i, Tokens(line, es, i))
    decreases es - i
  {
    hide Lexed, Skip, TokenIs;
    var q := Skip(line, es, i);
    SkipBlank(line, es, i);
    LexedMeans(line, es, q);
    var (kind, eq) := Lexed(line, es, q);
    if kind != '\0' {
      LexedExactly(line, es, TokOf(kind, q, eq), q, eq);
      CoversTokens(line, es, eq);
      assert Blank(line, i, q) && TokenIs(line, es, TokOf(kind, q, eq), q, eq);
    }
  }

  lemma Starts(line: seq<char>, es: nat, t: Tok, q: nat, eq: nat)
    requires Text(line, es) && TokenIs(line, es, t, q, eq)
    ensures !White(line[q])
  {
    assert t.Sym? ==> line[q] == line[q..eq][0];
  }

  lemma {:induction false} OnlyTokens(line: seq<char>, es: nat, i: nat, ts: Toks)
    requires Text(line, es) && i <= es && Covers(line, es, i, ts)
    ensures ts == Tokens(line, es, i)
    decreases ts
  {
    hide Lexed, Skip, TokenIs;
    if ts.Nil? {
      SkipIs(line, es, i, es);
      LexedMeans(line, es, es);
    } else {
      var q, eq :| i <= q < eq <= es && Blank(line, i, q) && TokenIs(line, es, ts.head, q, eq)
                   && Covers(line, es, eq, ts.tail);
      Starts(line, es, ts.head, q, eq);
      SkipIs(line, es, i, q);
      LexedMeans(line, es, q);
      LexedExactly(line, es, ts.head, q, eq);
      OnlyTokens(line, es, eq, ts.tail);
    }
  }

  /** The tokens of a line cover it, with whitespace between them, and no other tokens do. */
  lemma TokensExactly(line: seq<char>, es: nat, i: nat, ts: Toks)
    requires Text(line, es) && i <= es
    ensures Covers(line, es, i, ts) <==> ts == Tokens(line, es, i)
  {
    CoversTokens(line, es, i);
    if Covers(line, es, i, ts) {
      OnlyTokens(line, es, i, ts);
    }
  }

  // ---- Tokens and commands ----

  /** A redirection of a command: the file, the mode of open, and the descriptor. */
  datatype Entry = Entry(file: Span, mode: nat, fd: nat)

  /** The operators with a file after them, in the order of the tokens. */
  function RedirsIn(ts: Toks): seq<Entry>
  {
    if ts.Nil? then []
    else if ts.head.Sym? && ts.tail.Cons? && ts.tail.head.Word? && ts.head.c in "<>+" then
      var file := Span(ts.tail.head.q, ts.tail.head.eq);
      [if ts.head.c == '<' then Entry(file, 0, 0)
       else if ts.head.c == '>' then Entry(file, 0x1 + 0x200 + 0x400, 1)
       else Entry(file, 0x1 + 0x200, 1)] + RedirsIn(ts.tail.tail)
    else RedirsIn(ts.tail)
  }

  /** The words that are no files, in order. */
  function WordsIn(ts: Toks): seq<Span>
  {
    if ts.Nil? then []
    else if ts.head.Word? then [Span(ts.head.q, ts.head.eq)] + WordsIn(ts.tail)
    else if ts.tail.Cons? && ts.tail.head.Word? && ts.head.c in "<>+" then WordsIn(ts.tail.tail)
    else WordsIn(ts.tail)
  }

  /** The symbols that join commands, in order. */
  function JoinsIn(ts: Toks): seq<char>
  {
    if ts.Nil? then []
    else (if ts.head.Sym? && ts.head.c in "|;&" then [ts.head.c] else []) + JoinsIn(ts.tail)
  }

  /** The same of a command: its redirections, the innermost first; its arguments; its joins. */
  function RedirsOf(cmd: Cmd): seq<Entry>
  {
    match cmd
    case ExecCmd(_) => []
    case RedirCmd(c, file, mode, fd) => RedirsOf(c) + [Entry(file, mode, fd)]
    case PipeCmd(l, r) => RedirsOf(l) + RedirsOf(r)
    case ListCmd(l, r) => RedirsOf(l) + RedirsOf(r)
    case BackCmd(c) => RedirsOf(c)
  }

  function WordsOf(cmd: Cmd): seq<Span>
  {
    match cmd
    case ExecCmd(argv) => argv
    case RedirCmd(c, _, _, _) => WordsOf(c)
    case PipeCmd(l, r) => WordsOf(l) + WordsOf(r)
    case ListCmd(l, r) => WordsOf(l) + WordsOf(r)
    case BackCmd(c) => WordsOf(c)
  }

  function JoinsOf(cmd: Cmd): seq<char>
  {
    match cmd
    case ExecCmd(_) => []
    case RedirCmd(c, _, _, _) => JoinsOf(c)
    case PipeCmd(l, r) => JoinsOf(l) + ['|'] + JoinsOf(r)
    case ListCmd(l, r) => JoinsOf(l) + [';'] + JoinsOf(r)
    case BackCmd(c) => JoinsOf(c) + ['&']
  }

  /** The tokens ts are those of a command followed by rest. */
  predicate Keeps(ts: Toks, cmd: Cmd, rest: Toks)
  {
    && RedirsIn(ts) == RedirsOf(cmd) + RedirsIn(rest) && WordsIn(ts) == WordsOf(cmd) + WordsIn(rest)
    && JoinsIn(ts) == JoinsOf(cmd) + JoinsIn(rest)
  }

  function EntryOf(r: Redir): Entry { Entry(Span(r.q, r.eq), ModeOf(r.op), FdOf(r.op)) }

  function Entries(rs: seq<Redir>): seq<Entry> { seq(|rs|, k requires 0 <= k < |rs| => EntryOf(rs[k])) }

  lemma Assoc<T>(a: seq<T>, b: seq<T>, c: seq<T>)
    ensures a + (b + c) == (a + b) + c
  {
  }

  lemma RedirKeeps(r: Redir, ts: Toks)
    requires IsRedir(Sym(r.op))
    ensures var t := Cons(Sym(r.op), Cons(Word(r.q, r.eq), ts));
      RedirsIn(t) == [EntryOf(r)] + RedirsIn(ts) && WordsIn(t) == WordsIn(ts) && JoinsIn(t) == JoinsIn(ts)
  {
    assert JoinsIn(Cons(Word(r.q, r.eq), ts)) == JoinsIn(ts);
  }

  lemma EntriesFirst(rs: seq<Redir>)
    requires rs != []
    ensures Entries(rs) == [EntryOf(rs[0])] + Entries(rs[1..])
  {
  }

  lemma {:induction false} OfRedirsKeeps(rs: seq<Redir>, rest: Toks)
    requires RedirsOk(rs)
    ensures RedirsIn(OfRedirs(rs, rest)) == Entries(rs) + RedirsIn(rest)
    ensures WordsIn(OfRedirs(rs, rest)) == WordsIn(rest) && JoinsIn(OfRedirs(rs, rest)) == JoinsIn(rest)
  {
    hide RedirsIn, WordsIn, JoinsIn, EntryOf;
    if rs == [] {
      assert Entries(rs) == [] && [] + RedirsIn(rest) == RedirsIn(rest);
    } else {
      OfRedirsKeeps(rs[1..], rest);
      RedirKeeps(rs[0], OfRedirs(rs[1..], rest));
      EntriesFirst(rs);
      Assoc([EntryOf(rs[0])], Entries(rs[1..]), RedirsIn(rest));
    }
  }

  lemma {:induction false} AllRedirsFirst(args: seq<Arg>)
    requires args != []
    ensures AllRedirs(args) == args[0].redirs + AllRedirs(args[1..])
  {
    var n := |args| - 1;
    if n > 0 {
      AllRedirsFirst(args[..n]);
      assert args[..n][1..] == args[1..][..n - 1] && args[1..][n - 1] == args[n];
    }
  }

  lemma EntriesJoin(rs: seq<Redir>, more: seq<Redir>)
    ensures Entries(rs + more) == Entries(rs) + Entries(more)
  {
  }

  lemma WordsFirst(args: seq<Arg>)
    requires args != []
    ensures Words(args) == [Span(args[0].q, args[0].eq)] + Words(args[1..])
  {
  }

  lemma WordKeeps(q: nat, eq: nat, ts: Toks)
    ensures RedirsIn(Cons(Word(q, eq), ts)) == RedirsIn(ts) && JoinsIn(Cons(Word(q, eq), ts)) == JoinsIn(ts)
    ensures WordsIn(Cons(Word(q, eq), ts)) == [Span(q, eq)] + WordsIn(ts)
  {
    assert JoinsIn(Cons(Word(q, eq), ts)) == [] + JoinsIn(ts);
  }

  lemma SymKeeps(c: char, ts: Toks)
    requires c !in "<>+"
    ensures RedirsIn(Cons(Sym(c), ts)) == RedirsIn(ts) && WordsIn(Cons(Sym(c), ts)) == WordsIn(ts)
    ensures JoinsIn(Cons(Sym(c), ts)) == (if c in "|;&" then [c] else []) + JoinsIn(ts)
  {
  }

  lemma {:induction false} OfArgsKeeps(args: seq<Arg>, rest: Toks)
    requires ArgsOk(args)
    ensures RedirsIn(OfArgs(args, rest)) == Entries(AllRedirs(args)) + RedirsIn(rest)
    ensures WordsIn(OfArgs(args, rest)) == Words(args) + WordsIn(rest) && JoinsIn(OfArgs(args, rest)) == JoinsIn(rest)
  {
    hide RedirsIn, WordsIn, JoinsIn, Entries, Words, AllRedirs, OfRedirs;
    if args == [] {
      NoArgs(args);
      assert [] + RedirsIn(rest) == RedirsIn(rest) && [] + WordsIn(rest) == WordsIn(rest);
    } else {
      var a, more := args[0], OfArgs(args[1..], rest);
      assert RedirsOk(a.redirs);
      OfArgsKeeps(args[1..], rest);
      OfRedirsKeeps(a.redirs, more);
      WordKeeps(a.q, a.eq, OfRedirs(a.redirs, more));
      AllRedirsFirst(args);
      EntriesJoin(a.redirs, AllRedirs(args[1..]));
      WordsFirst(args);
      Assoc(Entries(a.redirs), Entries(AllRedirs(args[1..])), RedirsIn(rest));
      Assoc([Span(a.q, a.eq)], Words(args[1..]), WordsIn(rest));
    }
  }

  lemma NoArgs(args: seq<Arg>)
    requires args == []
    ensures Entries(AllRedirs(args)) == [] && Words(args) == []
  {
  }

  lemma {:induction false} WrapKeeps(cmd: Cmd, rs: seq<Redir>)
    ensures RedirsOf(Wrap(cmd, rs)) == RedirsOf(cmd) + Entries(rs)
    ensures WordsOf(Wrap(cmd, rs)) == WordsOf(cmd) && JoinsOf(Wrap(cmd, rs)) == JoinsOf(cmd)
    decreases |rs|
  {
    if rs == [] {
      assert Entries(rs) == [];
    } else {
      WrapKeeps(cmd, rs[..|rs| - 1]);
      assert Entries(rs) == Entries(rs[..|rs| - 1]) + [EntryOf(rs[|rs| - 1])];
    }
  }

  /** Tokens of a command, then a symbol that joins or none, then tokens of another command. */
  lemma KeepsJoin(ts: Toks, l: Cmd, mid: Toks, r: Cmd, rest: Toks, c: char)
    requires Keeps(ts, l, Cons(Sym(c), mid)) && Keeps(mid, r, rest) && c in "|;"
    ensures Keeps(ts, if c == '|' then PipeCmd(l, r) else ListCmd(l, r), rest)
  {
    hide RedirsIn, WordsIn, JoinsIn;
    SymKeeps(c, mid);
    Assoc(RedirsOf(l), RedirsOf(r), RedirsIn(rest));
    Assoc(WordsOf(l), WordsOf(r), WordsIn(rest));
    Assoc([c], JoinsOf(r), JoinsIn(rest));
    Assoc(JoinsOf(l), [c] + JoinsOf(r), JoinsIn(rest));
    Assoc(JoinsOf(l), [c], JoinsOf(r));
  }

  lemma {:induction false} ExecKeeps(e: Exec, rest: Toks)
    requires ExecOk(e)
    ensures Keeps(OfExec(e, rest), ExecMeans(e), rest)
    decreases e, 0
  {
    hide RedirsIn, WordsIn, JoinsIn, Entries, Words, AllRedirs, OfRedirs, OfArgs, Wrap, OfLine, LineMeans;
    match e
    case Simple(rs, args) =>
      OfArgsKeeps(args, rest);
      OfRedirsKeeps(rs, OfArgs(args, rest));
      WrapKeeps(ExecCmd(Words(args)), rs + AllRedirs(args));
      EntriesJoin(rs, AllRedirs(args));
      Assoc(Entries(rs), Entries(AllRedirs(args)), RedirsIn(rest));
      assert [] + Entries(rs + AllRedirs(args)) == Entries(rs + AllRedirs(args));
      assert [] + JoinsIn(rest) == JoinsIn(rest);
    case Block(line, rs) =>
      var close := Cons(Sym(')'), OfRedirs(rs, rest));
      OfRedirsKeeps(rs, rest);
      SymKeeps(')', OfRedirs(rs, rest));
      LineKeeps(line, close);
      SymKeeps('(', OfLine(line, close));
      WrapKeeps(LineMeans(line), rs);
      Assoc(RedirsOf(LineMeans(line)), Entries(rs), RedirsIn(rest));
      assert [] + JoinsIn(OfRedirs(rs, rest)) == JoinsIn(OfRedirs(rs, rest));
      assert [] + JoinsIn(OfLine(line, close)) == JoinsIn(OfLine(line, close));
  }

  lemma {:induction false} PipeKeeps(p: Pipe, rest: Toks)
    requires PipeOk(p)
    ensures Keeps(OfPipe(p, rest), PipeMeans(p), rest)
    decreases p, 0
  {
    hide Keeps, OfExec, ExecMeans, ExecOk;
    match p
    case Last(e) => ExecKeeps(e, rest);
    case More(e, next) =>
      PipeKeeps(next, rest);
      ExecKeeps(e, Cons(Sym('|'), OfPipe(next, rest)));
      KeepsJoin(OfPipe(p, rest), ExecMeans(e), OfPipe(next, rest), PipeMeans(next), rest, '|');
  }

  lemma {:induction false} AmpsKeep(ts: Toks, cmd: Cmd, n: nat, rest: Toks)
    requires Keeps(ts, cmd, Amps(n, rest))
    ensures Keeps(ts, Backed(cmd, n), rest)
    decreases n
  {
    hide RedirsIn, WordsIn, JoinsIn;
    if n > 0 {
      AmpsEnd(n - 1, rest);
      SymKeeps('&', rest);
      AmpsKeep(ts, cmd, n - 1, Cons(Sym('&'), rest));
      Assoc(JoinsOf(Backed(cmd, n - 1)), ['&'], JoinsIn(rest));
    }
  }

  lemma {:induction false} AmpsEnd(n: nat, rest: Toks)
    ensures Amps(n + 1, rest) == Amps(n, Cons(Sym('&'), rest))
  {
    if n > 0 {
      AmpsEnd(n - 1, rest);
    }
  }

  lemma {:induction false} LineKeeps(l: Line, rest: Toks)
    requires LineOk(l)
    ensures Keeps(OfLine(l, rest), LineMeans(l), rest)
    decreases l, 0
  {
    hide Keeps, OfPipe, PipeMeans, PipeOk, Amps, Backed;
    match l
    case End(p, n) =>
      PipeKeeps(p, Amps(n, rest));
      AmpsKeep(OfLine(l, rest), PipeMeans(p), n, rest);
    case Then(p, n, next) =>
      var more := Cons(Sym(';'), OfLine(next, rest));
      LineKeeps(next, rest);
      PipeKeeps(p, Amps(n, more));
      AmpsKeep(OfLine(l, rest), PipeMeans(p), n, more);
      KeepsJoin(OfLine(l, rest), Backed(PipeMeans(p), n), OfLine(next, rest), LineMeans(next), rest, ';');
  }

  /** Nothing of a line is lost or moved: its command has the redirections, the arguments and the joins of
      its tokens, in order. So its append redirections are exactly its ">>" tokens. */
  lemma TreeKeepsTokens(l: Line)
    requires LineOk(l)
    ensures var ts, cmd := OfLine(l, Nil), LineMeans(l);
      RedirsOf(cmd) == RedirsIn(ts) && WordsOf(cmd) == WordsIn(ts) && JoinsOf(cmd) == JoinsIn(ts)
  {
    LineKeeps(l, Nil);
  }
}
