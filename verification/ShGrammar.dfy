/** The shell's command language: its grammar, a parser by recursive descent over tokens, and the two
    are the same. */
module ShGrammar {

  /** A symbol ('+' for ">>"), or a word at line[q..eq]. */
  datatype Tok = Sym(c: char) | Word(q: nat, eq: nat)

  datatype Toks = Nil | Cons(head: Tok, tail: Toks)

  const MAXARGS: nat := 10

  // ---- The grammar ----

  /** "<", ">" or ">>" and a file name. */
  datatype Redir = Redir(op: char, q: nat, eq: nat)

  /** A word and the redirections that follow it. */
  datatype Arg = Arg(q: nat, eq: nat, redirs: seq<Redir>)

  /** exec: redirections and words, or "(" line ")" and redirections. */
  datatype Exec = Simple(redirs: seq<Redir>, args: seq<Arg>) | Block(line: Line, redirs: seq<Redir>)

  /** pipe: exec, or exec "|" pipe. */
  datatype Pipe = Last(exec: Exec) | More(exec: Exec, next: Pipe)

  /** line: pipe and any number of "&", then perhaps ";" line. */
  datatype Line = End(pipe: Pipe, backs: nat) | Then(pipe: Pipe, backs: nat, next: Line)

  predicate IsRedir(t: Tok) { t == Sym('<') || t == Sym('>') || t == Sym('+') }

  predicate EndsArgs(t: Tok) { t == Sym('|') || t == Sym(')') || t == Sym('&') || t == Sym(';') }

  /** The tokens that a phrase stands for, followed by others. */
  function OfRedirs(rs: seq<Redir>, rest: Toks): Toks
  {
    if rs == [] then rest else Cons(Sym(rs[0].op), Cons(Word(rs[0].q, rs[0].eq), OfRedirs(rs[1..], rest)))
  }

  function OfArgs(args: seq<Arg>, rest: Toks): Toks
  {
    if args == [] then rest else Cons(Word(args[0].q, args[0].eq), OfRedirs(args[0].redirs, OfArgs(args[1..], rest)))
  }

  function OfExec(e: Exec, rest: Toks): Toks
    decreases e
  {
    match e
    case Simple(rs, args) => OfRedirs(rs, OfArgs(args, rest))
    case Block(line, rs) => Cons(Sym('('), OfLine(line, Cons(Sym(')'), OfRedirs(rs, rest))))
  }

  function OfPipe(p: Pipe, rest: Toks): Toks
    decreases p
  {
    match p
    case Last(e) => OfExec(e, rest)
    case More(e, next) => OfExec(e, Cons(Sym('|'), OfPipe(next, rest)))
  }

  function Amps(n: nat, rest: Toks): Toks { if n == 0 then rest else Cons(Sym('&'), Amps(n - 1, rest)) }

  function OfLine(l: Line, rest: Toks): Toks
    decreases l
  {
    match l
    case End(p, n) => OfPipe(p, Amps(n, rest))
    case Then(p, n, next) => OfPipe(p, Amps(n, Cons(Sym(';'), OfLine(next, rest))))
  }

  /** Redirections use one of the three operators. */
  predicate RedirsOk(rs: seq<Redir>) { forall k :: 0 <= k < |rs| ==> IsRedir(Sym(rs[k].op)) }

  predicate ArgsOk(args: seq<Arg>) { forall k :: 0 <= k < |args| ==> RedirsOk(args[k].redirs) }

  /** Phrases of the language: fewer than MAXARGS words in each command. */
  predicate ExecOk(e: Exec)
    decreases e
  {
    && RedirsOk(e.redirs)
    && match e
       case Simple(_, args) => ArgsOk(args) && |args| < MAXARGS
       case Block(line, _) => LineOk(line)
  }

  predicate PipeOk(p: Pipe)
    decreases p
  {
    ExecOk(p.exec) && (p.More? ==> PipeOk(p.next))
  }

  predicate LineOk(l: Line)
    decreases l
  {
    PipeOk(l.pipe) && (l.Then? ==> LineOk(l.next))
  }

  // ---- The parser over tokens ----

  datatype Result<T> = Panic | Got(phrase: T, rest: Toks)

  predicate At(ts: Toks, c: char) { ts.Cons? && ts.head == Sym(c) }

  predicate AtRedir(ts: Toks) { ts.Cons? && IsRedir(ts.head) }

  /** What may follow the words of a command. */
  predicate AfterArgs(ts: Toks) { ts.Cons? ==> EndsArgs(ts.head) }

  function Length(ts: Toks): nat { if ts.Nil? then 0 else 1 + Length(ts.tail) }

  /** parseredirs. */
  function Redirs(ts: Toks): (r: Result<seq<Redir>>)
    ensures r.Got? ==> Length(r.rest) <= Length(ts)
  {
    if !AtRedir(ts) then Got([], ts)
    else if ts.tail.Nil? || !ts.tail.head.Word? then Panic
    else
      match Redirs(ts.tail.tail)
      case Panic => Panic
      case Got(rs, rest) => Got([Redir(ts.head.c, ts.tail.head.q, ts.tail.head.eq)] + rs, rest)
  }

  /** The loop of parseexec, after n words. */
  function Args(ts: Toks, n: nat): (r: Result<seq<Arg>>)
    ensures r.Got? ==> Length(r.rest) <= Length(ts)
    decreases Length(ts)
  {
    if AfterArgs(ts) then Got([], ts)
    else if !ts.head.Word? || n + 1 >= MAXARGS then Panic
    else
      match Redirs(ts.tail)
      case Panic => Panic
      case Got(rs, rest) =>
        match Args(rest, n + 1)
        case Panic => Panic
        case Got(args, rest') => Got([Arg(ts.head.q, ts.head.eq, rs)] + args, rest')
  }

  /** parseexec and parseblock. */
  function ExecOf(ts: Toks): (r: Result<Exec>)
    ensures r.Got? ==> Length(r.rest) <= Length(ts)
    decreases Length(ts), 0
  {
    if At(ts, '(') then
      match LineOf(ts.tail)
      case Panic => Panic
      case Got(line, rest) =>
        if !At(rest, ')') then Panic
        else
          match Redirs(rest.tail)
          case Panic => Panic
          case Got(rs, rest') => Got(Block(line, rs), rest')
    else
      match Redirs(ts)
      case Panic => Panic
      case Got(rs, rest) =>
        match Args(rest, 0)
        case Panic => Panic
        case Got(args, rest') => Got(Simple(rs, args), rest')
  }

  /** parsepipe. */
  function PipeOf(ts: Toks): (r: Result<Pipe>)
    ensures r.Got? ==> Length(r.rest) <= Length(ts)
    decreases Length(ts), 1
  {
    match ExecOf(ts)
    case Panic => Panic
    case Got(e, rest) =>
      if !At(rest, '|') then Got(Last(e), rest)
      else
        match PipeOf(rest.tail)
        case Panic => Panic
        case Got(next, rest') => Got(More(e, next), rest')
  }

  /** How many "&" the tokens begin with, and what follows them. */
  function AmpsAt(ts: Toks): nat { if At(ts, '&') then 1 + AmpsAt(ts.tail) else 0 }

  function PastAmps(ts: Toks): (r: Toks)
    ensures Length(r) <= Length(ts)
  {
    if At(ts, '&') then PastAmps(ts.tail) else ts
  }

  /** parseline. */
  function LineOf(ts: Toks): (r: Result<Line>)
    ensures r.Got? ==> Length(r.rest) <= Length(ts)
    decreases Length(ts), 2
  {
    match PipeOf(ts)
    case Panic => Panic
    case Got(p, rest) =>
      if !At(PastAmps(rest), ';') then Got(End(p, AmpsAt(rest)), PastAmps(rest))
      else
        match LineOf(PastAmps(rest).tail)
        case Panic => Panic
        case Got(next, rest') => Got(Then(p, AmpsAt(rest), next), rest')
  }

  // ---- What is parsed is a phrase of the language ----

  lemma {:induction false} RedirsSound(ts: Toks)
    requires Redirs(ts).Got?
    ensures var r := Redirs(ts); ts == OfRedirs(r.phrase, r.rest) && RedirsOk(r.phrase) && !AtRedir(r.rest)
  {
    if AtRedir(ts) {
      RedirsSound(ts.tail.tail);
      assert Redirs(ts).phrase[1..] == Redirs(ts.tail.tail).phrase;
    }
  }

  lemma {:induction false} ArgsSound(ts: Toks, n: nat)
    requires Args(ts, n).Got? && n < MAXARGS
    ensures var r := Args(ts, n);
      ts == OfArgs(r.phrase, r.rest) && ArgsOk(r.phrase) && n + |r.phrase| < MAXARGS && AfterArgs(r.rest)
    decreases Length(ts)
  {
    if !AfterArgs(ts) {
      RedirsSound(ts.tail);
      var rest := Redirs(ts.tail).rest;
      ArgsSound(rest, n + 1);
      assert Args(ts, n).phrase[1..] == Args(rest, n + 1).phrase;
    }
  }

  lemma {:induction false} ExecSound(ts: Toks)
    requires ExecOf(ts).Got?
    ensures ts == OfExec(ExecOf(ts).phrase, ExecOf(ts).rest) && ExecOk(ExecOf(ts).phrase)
    decreases Length(ts), 0
  {
    if At(ts, '(') {
      LineSound(ts.tail);
      RedirsSound(LineOf(ts.tail).rest.tail);
    } else {
      RedirsSound(ts);
      ArgsSound(Redirs(ts).rest, 0);
    }
  }

  lemma {:induction false} PipeSound(ts: Toks)
    requires PipeOf(ts).Got?
    ensures ts == OfPipe(PipeOf(ts).phrase, PipeOf(ts).rest) && PipeOk(PipeOf(ts).phrase)
    decreases Length(ts), 1
  {
    ExecSound(ts);
    var e := ExecOf(ts);
    if At(e.rest, '|') {
      PipeSound(e.rest.tail);
    }
  }

  lemma {:induction false} AmpsSplit(ts: Toks)
    ensures ts == Amps(AmpsAt(ts), PastAmps(ts))
  {
    if At(ts, '&') {
      AmpsSplit(ts.tail);
    }
  }

  lemma {:induction false} LineSound(ts: Toks)
    requires LineOf(ts).Got?
    ensures ts == OfLine(LineOf(ts).phrase, LineOf(ts).rest) && LineOk(LineOf(ts).phrase)
    decreases Length(ts), 2
  {
    PipeSound(ts);
    var rest := PipeOf(ts).rest;
    AmpsSplit(rest);
    if At(PastAmps(rest), ';') {
      LineSound(PastAmps(rest).tail);
    }
  }

  // ---- Every phrase of the language is parsed ----

  lemma {:induction false} RedirsComplete(rs: seq<Redir>, rest: Toks)
    requires RedirsOk(rs) && !AtRedir(rest)
    ensures Redirs(OfRedirs(rs, rest)) == Got(rs, rest)
  {
    if rs != [] {
      RedirsComplete(rs[1..], rest);
      assert rs == [rs[0]] + rs[1..];
    }
  }

  lemma {:induction false} ArgsComplete(args: seq<Arg>, n: nat, rest: Toks)
    requires ArgsOk(args) && n + |args| < MAXARGS && AfterArgs(rest)
    ensures Args(OfArgs(args, rest), n) == Got(args, rest) && !AtRedir(OfArgs(args, rest))
    ensures !At(OfArgs(args, rest), '(')
  {
    if args != [] {
      ArgsComplete(args[1..], n + 1, rest);
      RedirsComplete(args[0].redirs, OfArgs(args[1..], rest));
      assert args == [args[0]] + args[1..];
    }
  }

  lemma {:induction false} ExecComplete(e: Exec, rest: Toks)
    requires ExecOk(e) && AfterArgs(rest)
    ensures ExecOf(OfExec(e, rest)) == Got(e, rest)
    decreases e
  {
    match e
    case Simple(rs, args) =>
      ArgsComplete(args, 0, rest);
      RedirsComplete(rs, OfArgs(args, rest));
    case Block(line, rs) =>
      LineComplete(line, Cons(Sym(')'), OfRedirs(rs, rest)));
      RedirsComplete(rs, rest);
  }

  lemma {:induction false} PipeComplete(p: Pipe, rest: Toks)
    requires PipeOk(p) && AfterArgs(rest) && !At(rest, '|')
    ensures PipeOf(OfPipe(p, rest)) == Got(p, rest)
    decreases p
  {
    match p
    case Last(e) => ExecComplete(e, rest);
    case More(e, next) =>
      ExecComplete(e, Cons(Sym('|'), OfPipe(next, rest)));
      PipeComplete(next, rest);
  }

  lemma {:induction false} AmpsCount(n: nat, rest: Toks)
    requires !At(rest, '&')
    ensures AmpsAt(Amps(n, rest)) == n && PastAmps(Amps(n, rest)) == rest
    ensures AfterArgs(rest) && !At(rest, '|') ==> AfterArgs(Amps(n, rest)) && !At(Amps(n, rest), '|')
  {
    if n > 0 {
      AmpsCount(n - 1, rest);
    }
  }

  lemma {:induction false} LineComplete(l: Line, rest: Toks)
    requires LineOk(l) && (rest.Cons? ==> At(rest, ')'))
    ensures LineOf(OfLine(l, rest)) == Got(l, rest)
    decreases l
  {
    match l
    case End(p, n) =>
      AmpsCount(n, rest);
      PipeComplete(p, Amps(n, rest));
    case Then(p, n, next) =>
      var tail := Cons(Sym(';'), OfLine(next, rest));
      AmpsCount(n, tail);
      PipeComplete(p, Amps(n, tail));
      LineComplete(next, rest);
  }

  /** The parser takes exactly the token sequences of the language, and finds their phrase; so no
      sequence stands for two. */
  lemma ParsesExactly(ts: Toks, l: Line)
    ensures LineOf(ts) == Got(l, Nil) <==> LineOk(l) && OfLine(l, Nil) == ts
  {
    if LineOf(ts) == Got(l, Nil) {
      LineSound(ts);
    }
    if LineOk(l) && OfLine(l, Nil) == ts {
      LineComplete(l, Nil);
    }
  }
}
