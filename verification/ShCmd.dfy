/** parsecmd and nulterminate of sh.c: which lines are accepted, and what the argument and file
    pointers read as afterwards. */
module ShCmd {
  import opened Blocks
  import opened ShGrammar
  import opened Sh
  import opened ShTokens

  /** A token's text: word characters up to a character that is none. */
  predicate WordAt(line: seq<char>, es: nat, s: Span)
  {
    && s.q < s.eq <= es < |line| && !InWord(line[s.eq])
    && forall k :: s.q <= k < s.eq ==> InWord(line[k])
  }

  predicate InWord(c: char) { c != '\0' && !White(c) && !Symbol(c) }

  /** All the pointers of a command are those of words. */
  predicate CmdOk(line: seq<char>, es: nat, cmd: Cmd)
  {
    match cmd
    case ExecCmd(argv) => forall k :: 0 <= k < |argv| ==> WordAt(line, es, argv[k])
    case RedirCmd(c, file, _, _) => CmdOk(line, es, c) && WordAt(line, es, file)
    case PipeCmd(l, r) => CmdOk(line, es, l) && CmdOk(line, es, r)
    case ListCmd(l, r) => CmdOk(line, es, l) && CmdOk(line, es, r)
    case BackCmd(c) => CmdOk(line, es, c)
  }

  /** The places that nulterminate writes to. */
  function Ends(cmd: Cmd): set<nat>
  {
    match cmd
    case ExecCmd(argv) => set s <- argv :: s.eq
    case RedirCmd(c, file, _, _) => Ends(c) + {file.eq}
    case PipeCmd(l, r) => Ends(l) + Ends(r)
    case ListCmd(l, r) => Ends(l) + Ends(r)
    case BackCmd(c) => Ends(c)
  }

  /** All the pointers of a command. */
  function Spans(cmd: Cmd): set<Span>
  {
    match cmd
    case ExecCmd(argv) => set s <- argv
    case RedirCmd(c, file, _, _) => Spans(c) + {file}
    case PipeCmd(l, r) => Spans(l) + Spans(r)
    case ListCmd(l, r) => Spans(l) + Spans(r)
    case BackCmd(c) => Spans(c)
  }

  // ---- The pointers of a parsed command are words of the line ----

  predicate Proper(line: seq<char>, es: nat, ts: Toks)
  {
    ts.Cons? ==> (ts.head.Word? ==> WordAt(line, es, Span(ts.head.q, ts.head.eq))) && Proper(line, es, ts.tail)
  }

  lemma {:induction false} WordEnds(line: seq<char>, es: nat, i: nat)
    requires Text(line, es) && i <= es
    ensures var e := WordEnd(line, es, i); !InWord(line[e]) && forall k :: i <= k < e ==> InWord(line[k])
    decreases es - i
  {
    if i < es && !White(line[i]) && !Symbol(line[i]) {
      WordEnds(line, es, i + 1);
    }
  }

  lemma {:induction false} TokensProper(line: seq<char>, es: nat, i: nat)
    requires Text(line, es) && i <= es
    ensures Proper(line, es, Tokens(line, es, i))
    decreases es - i
  {
    var q := Skip(line, es, i);
    var (kind, eq) := Lexed(line, es, q);
    if kind != '\0' {
      WordEnds(line, es, q);
      TokensProper(line, es, eq);
    }
  }

  ghost predicate RedirsProper(line: seq<char>, es: nat, rs: seq<Redir>)
  {
    forall k :: 0 <= k < |rs| ==> WordAt(line, es, Span(rs[k].q, rs[k].eq))
  }

  lemma {:induction false} OfRedirsProper(line: seq<char>, es: nat, rs: seq<Redir>, rest: Toks)
    requires Proper(line, es, OfRedirs(rs, rest))
    ensures Proper(line, es, rest) && RedirsProper(line, es, rs)
  {
    if rs != [] {
      OfRedirsProper(line, es, rs[1..], rest);
      forall k | 0 <= k < |rs| ensures WordAt(line, es, Span(rs[k].q, rs[k].eq)) {
        if k > 0 { assert rs[1..][k - 1] == rs[k]; }
      }
    }
  }

  ghost predicate ArgsProper(line: seq<char>, es: nat, args: seq<Arg>)
  {
    forall k :: 0 <= k < |args| ==>
      WordAt(line, es, Span(args[k].q, args[k].eq)) && RedirsProper(line, es, args[k].redirs)
  }

  lemma {:induction false} OfArgsProper(line: seq<char>, es: nat, args: seq<Arg>, rest: Toks)
    requires Proper(line, es, OfArgs(args, rest))
    ensures Proper(line, es, rest) && ArgsProper(line, es, args)
  {
    if args != [] {
      OfRedirsProper(line, es, args[0].redirs, OfArgs(args[1..], rest));
      OfArgsProper(line, es, args[1..], rest);
      forall k | 0 <= k < |args|
        ensures WordAt(line, es, Span(args[k].q, args[k].eq)) && RedirsProper(line, es, args[k].redirs)
      {
        if k > 0 { assert args[1..][k - 1] == args[k]; }
      }
    }
  }

  lemma {:induction false} AllRedirsProper(line: seq<char>, es: nat, args: seq<Arg>)
    requires ArgsProper(line, es, args)
    ensures RedirsProper(line, es, AllRedirs(args))
  {
    if args != [] {
      AllRedirsProper(line, es, args[..|args| - 1]);
    }
  }

  lemma {:induction false} WrapOk(line: seq<char>, es: nat, cmd: Cmd, rs: seq<Redir>)
    requires CmdOk(line, es, cmd) && RedirsProper(line, es, rs)
    ensures CmdOk(line, es, Wrap(cmd, rs))
  {
    if rs != [] {
      WrapOk(line, es, cmd, rs[..|rs| - 1]);
    }
  }

  lemma {:induction false} ExecProper(line: seq<char>, es: nat, e: Exec, rest: Toks)
    requires Proper(line, es, OfExec(e, rest))
    ensures Proper(line, es, rest) && CmdOk(line, es, ExecMeans(e))
    decreases e
  {
    match e
    case Simple(rs, args) =>
      OfRedirsProper(line, es, rs, OfArgs(args, rest));
      OfArgsProper(line, es, args, rest);
      AllRedirsProper(line, es, args);
      WrapOk(line, es, ExecCmd(Words(args)), rs + AllRedirs(args));
    case Block(l, rs) =>
      LineProper(line, es, l, Cons(Sym(')'), OfRedirs(rs, rest)));
      OfRedirsProper(line, es, rs, rest);
      WrapOk(line, es, LineMeans(l), rs);
  }

  lemma {:induction false} PipeProper(line: seq<char>, es: nat, p: Pipe, rest: Toks)
    requires Proper(line, es, OfPipe(p, rest))
    ensures Proper(line, es, rest) && CmdOk(line, es, PipeMeans(p))
    decreases p
  {
    match p
    case Last(e) => ExecProper(line, es, e, rest);
    case More(e, next) =>
      ExecProper(line, es, e, Cons(Sym('|'), OfPipe(next, rest)));
      PipeProper(line, es, next, rest);
  }

  lemma {:induction false} AmpsProper(line: seq<char>, es: nat, n: nat, rest: Toks, cmd: Cmd)
    requires Proper(line, es, Amps(n, rest)) && CmdOk(line, es, cmd)
    ensures Proper(line, es, rest) && CmdOk(line, es, Backed(cmd, n))
  {
    if n > 0 {
      AmpsProper(line, es, n - 1, rest, cmd);
    }
  }

  lemma {:induction false} LineProper(line: seq<char>, es: nat, l: Line, rest: Toks)
    requires Proper(line, es, OfLine(l, rest))
    ensures Proper(line, es, rest) && CmdOk(line, es, LineMeans(l))
    decreases l
  {
    match l
    case End(p, n) =>
      PipeProper(line, es, p, Amps(n, rest));
      AmpsProper(line, es, n, rest, PipeMeans(p));
    case Then(p, n, next) =>
      PipeProper(line, es, p, Amps(n, Cons(Sym(';'), OfLine(next, rest))));
      AmpsProper(line, es, n, Cons(Sym(';'), OfLine(next, rest)), PipeMeans(p));
      LineProper(line, es, next, rest);
  }

  // ---- nulterminate ----

  /** The buffer with a NUL at each of the places. */
  ghost predicate Cut(before: seq<char>, after: seq<char>, places: set<nat>)
  {
    |after| == |before| && forall k :: 0 <= k < |before| ==> after[k] == if k in places then '\0' else before[k]
  }

  predicate Inside(n: nat, cmd: Cmd) { forall e <- Ends(cmd) :: e < n }

  method NulTerminate(nodes: seq<Node>, k: nat, buf: array<char>)
    requires Nodes(nodes) && k < |nodes| && Inside(buf.Length, Tree(nodes, k))
    modifies buf
    ensures Cut(old(buf[..]), buf[..], Ends(Tree(nodes, k)))
    decreases k
  {
    match nodes[k]
    case ExecNode(argv) =>
      var i := 0;
      while i < |argv|
        invariant i <= |argv| && Cut(old(buf[..]), buf[..], set s <- argv[..i] :: s.eq)
      {
        assert argv[i] in argv && argv[i].eq in Ends(Tree(nodes, k));
        buf[argv[i].eq] := '\0';
        assert argv[..i + 1] == argv[..i] + [argv[i]];
        i := i + 1;
      }
      assert argv[..i] == argv;
    case RedirNode(c, file, mode, fd) =>
      assert Ends(Tree(nodes, c)) <= Ends(Tree(nodes, k));
      NulTerminate(nodes, c, buf);
      buf[file.eq] := '\0';
    case PipeNode(l, r) =>
      assert Ends(Tree(nodes, l)) <= Ends(Tree(nodes, k)) && Ends(Tree(nodes, r)) <= Ends(Tree(nodes, k));
      NulTerminate(nodes, l, buf);
      NulTerminate(nodes, r, buf);
    case ListNode(l, r) =>
      assert Ends(Tree(nodes, l)) <= Ends(Tree(nodes, k)) && Ends(Tree(nodes, r)) <= Ends(Tree(nodes, k));
      NulTerminate(nodes, l, buf);
      NulTerminate(nodes, r, buf);
    case BackNode(c) =>
      assert Ends(Tree(nodes, c)) <= Ends(Tree(nodes, k));
      NulTerminate(nodes, c, buf);
  }

  lemma {:induction false} EndsOk(line: seq<char>, es: nat, cmd: Cmd, e: nat)
    requires CmdOk(line, es, cmd) && e in Ends(cmd)
    ensures e <= es < |line| && !InWord(line[e])
  {
    match cmd
    case ExecCmd(argv) =>
      var s :| s in argv && s.eq == e;
    case RedirCmd(c, file, mode, fd) => if e != file.eq { EndsOk(line, es, c, e); }
    case PipeCmd(l, r) => if e in Ends(l) { EndsOk(line, es, l, e); } else { EndsOk(line, es, r, e); }
    case ListCmd(l, r) => if e in Ends(l) { EndsOk(line, es, l, e); } else { EndsOk(line, es, r, e); }
    case BackCmd(c) => EndsOk(line, es, c, e);
  }

  lemma {:induction false} SpansOk(line: seq<char>, es: nat, cmd: Cmd, s: Span)
    requires CmdOk(line, es, cmd) && s in Spans(cmd)
    ensures WordAt(line, es, s) && s.eq in Ends(cmd)
  {
    match cmd
    case ExecCmd(argv) =>
    case RedirCmd(c, file, mode, fd) => if s in Spans(c) { SpansOk(line, es, c, s); }
    case PipeCmd(l, r) => if s in Spans(l) { SpansOk(line, es, l, s); } else { SpansOk(line, es, r, s); }
    case ListCmd(l, r) => if s in Spans(l) { SpansOk(line, es, l, s); } else { SpansOk(line, es, r, s); }
    case BackCmd(c) => SpansOk(line, es, c, s);
  }

  /** A pointer of the command reads as the word's text: a C string that ends where the word does. */
  ghost predicate ReadsAs(before: seq<char>, after: seq<char>, s: Span)
  {
    && s.q < s.eq < |before| == |after| && after[s.eq] == '\0'
    && forall k :: s.q <= k < s.eq ==> after[k] == before[k] != '\0'
  }

  /** No NUL lands inside another token. */
  lemma CutReads(line: seq<char>, es: nat, cmd: Cmd, after: seq<char>, s: Span)
    requires CmdOk(line, es, cmd) && Cut(line, after, Ends(cmd)) && s in Spans(cmd)
    ensures ReadsAs(line, after, s)
  {
    SpansOk(line, es, cmd, s);
    forall k | s.q <= k < s.eq ensures k !in Ends(cmd) {
      if k in Ends(cmd) { EndsOk(line, es, cmd, k); }
    }
  }

  /** The line is one of the language: a phrase stands for its tokens. */
  ghost predicate Legal(line: seq<char>, es: nat, l: Line)
    requires Text(line, es)
  {
    LineOk(l) && OfLine(l, Nil) == Tokens(line, es, 0)
  }

  /** parsecmd; !ok is a panic. It accepts exactly the lines of the language, and then every pointer of
      the command reads as its token, and the command keeps all that the tokens of the line say. */
  method ParseCmd(buf: array<char>) returns (ok: bool, nodes: seq<Node>, root: nat)
    requires '\0' in buf[..]
    modifies buf
    ensures var es := Strlen(old(buf[..])); Text(old(buf[..]), es) && (ok <==> exists l :: Legal(old(buf[..]), es, l))
    ensures !ok ==> buf[..] == old(buf[..])
    ensures ok ==> Nodes(nodes) && root < |nodes|
    ensures ok ==> forall s <- Spans(Tree(nodes, root)) :: ReadsAs(old(buf[..]), buf[..], s)
    ensures ok ==> forall l :: Legal(old(buf[..]), Strlen(old(buf[..])), l) ==> Tree(nodes, root) == LineMeans(l)
    ensures ok ==> Cut(old(buf[..]), buf[..], Ends(Tree(nodes, root)))
    ensures ok ==> forall ts :: Covers(old(buf[..]), Strlen(old(buf[..])), 0, ts) ==> Keeps(ts, Tree(nodes, root), Nil)
  {
    nodes, root := [], 0;
    var line := buf[..];
    var es := 0;
    while line[es] != '\0'
      invariant es < |line| && forall k :: 0 <= k < es ==> line[k] != '\0'
      invariant '\0' in line
      decreases |line| - es
    {
      if es + 1 == |line| { assert false; }
      es := es + 1;
    }
    StrlenIs(line, es);
    var p := new Parser(line, es);
    ghost var ts := p.Rest();
    var cmd := p.ParseLine();
    LegalParses(line, es);
    if cmd.None? {
      return false, nodes, root;
    }
    var more := p.Peek("");
    if p.pos != es {
      return false, nodes, root;
    }
    nodes, root := p.nodes, cmd.value;
    ghost var l := LineOf(ts).phrase;
    assert Legal(line, es, l);
    TokensProper(line, es, 0);
    LineProper(line, es, l, Nil);
    forall e | e in Ends(LineMeans(l)) ensures e < buf.Length { EndsOk(line, es, LineMeans(l), e); }
    AllKept(line, es, l);
    NulTerminate(nodes, root, buf);
    forall s | s in Spans(LineMeans(l)) ensures ReadsAs(line, buf[..], s) {
      CutReads(line, es, LineMeans(l), buf[..], s);
    }
    ok := true;
  }

  /** Whatever tokens cover the line, the command keeps their redirections, arguments and joins. */
  lemma AllKept(line: seq<char>, es: nat, l: Line)
    requires Text(line, es) && Legal(line, es, l)
    ensures forall ts :: Covers(line, es, 0, ts) ==> Keeps(ts, LineMeans(l), Nil)
  {
    hide Covers, Keeps, LineMeans, Tokens, LineOk;
    LineKeeps(l, Nil);
    forall ts | Covers(line, es, 0, ts) ensures Keeps(ts, LineMeans(l), Nil) {
      OnlyTokens(line, es, 0, ts);
    }
  }

  function Strlen(line: seq<char>): nat
  {
    if line == [] || line[0] == '\0' then 0 else 1 + Strlen(line[1..])
  }

  lemma {:induction false} StrlenIs(line: seq<char>, es: nat)
    requires Text(line, es)
    ensures Strlen(line) == es
  {
    if es > 0 {
      StrlenIs(line[1..], es - 1);
    }
  }

  lemma LegalParses(line: seq<char>, es: nat)
    requires Text(line, es)
    ensures var r := LineOf(Tokens(line, es, 0));
      && ((exists l :: Legal(line, es, l)) <==> r.Got? && r.rest == Nil)
      && (r.Got? && r.rest == Nil ==> Legal(line, es, r.phrase))
      && forall l :: Legal(line, es, l) ==> r == Got(l, Nil)
  {
    var r := LineOf(Tokens(line, es, 0));
    forall l ensures Legal(line, es, l) <==> r == Got(l, Nil) {
      ParsesExactly(Tokens(line, es, 0), l);
    }
  }
}
