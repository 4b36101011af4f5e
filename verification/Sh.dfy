/** sh.c's parser: the lexer, the mutually recursive parsers over one cursor and a growing heap of
    command nodes, and nulterminate over the line buffer. */
module Sh {
  import opened Blocks
  import opened ShGrammar

  // ---- Tokens of a line ----

  /** A C string of length es in a buffer. */
  predicate Text(line: seq<char>, es: nat)
  {
    es < |line| && line[es] == '\0' && forall k :: 0 <= k < es ==> line[k] != '\0'
  }

  predicate White(c: char) { c in [' ', '\t', '\r', '\n', '\U{0B}'] }

  predicate Symbol(c: char) { c in "<|>&;()" }

  function Skip(line: seq<char>, es: nat, i: nat): (q: nat)
    requires Text(line, es) && i <= es
    ensures i <= q <= es && !White(line[q])
    decreases es - i
  {
    if i < es && White(line[i]) then Skip(line, es, i + 1) else i
  }

  function WordEnd(line: seq<char>, es: nat, i: nat): (q: nat)
    requires Text(line, es) && i <= es
    ensures i <= q <= es && (q < es ==> White(line[q]) || Symbol(line[q]))
    decreases es - i
  {
    if i < es && !White(line[i]) && !Symbol(line[i]) then WordEnd(line, es, i + 1) else i
  }

  /** gettoken's result and end for a token that begins at q: 0 for the end of the line, 'a' for a
      word, '+' for ">>". */
  function Lexed(line: seq<char>, es: nat, q: nat): (r: (char, nat))
    requires Text(line, es) && q <= es && !White(line[q])
    ensures r.1 <= es && (q < es ==> q < r.1 && r.0 != '\0') && (q == es ==> r == ('\0', es))
  {
    if line[q] == '\0' then ('\0', q)
    else if line[q] == '>' then (if line[q + 1] == '>' then ('+', q + 2) else ('>', q + 1))
    else if Symbol(line[q]) then (line[q], q + 1)
    else ('a', WordEnd(line, es, q))
  }

  function TokOf(kind: char, q: nat, eq: nat): Tok { if kind == 'a' then Word(q, eq) else Sym(kind) }

  /** The tokens from position i on. */
  function Tokens(line: seq<char>, es: nat, i: nat): Toks
    requires Text(line, es) && i <= es
    decreases es - i
  {
    var q := Skip(line, es, i);
    var (kind, eq) := Lexed(line, es, q);
    if kind == '\0' then Nil else Cons(TokOf(kind, q, eq), Tokens(line, es, eq))
  }

  /** What Lexed says of the characters. */
  lemma LexedMeans(line: seq<char>, es: nat, q: nat)
    requires Text(line, es) && q <= es && !White(line[q])
    ensures var (kind, eq) := Lexed(line, es, q);
      && (kind == '\0' <==> q == es)
      && (kind == '+' <==> q < es && line[q] == '>' && line[q + 1] == '>')
      && (kind == '>' <==> q < es && line[q] == '>' && line[q + 1] != '>')
      && (forall c :: c in ['<', '|', '&', ';', '(', ')'] ==> (kind == c <==> line[q] == c))
      && (kind == 'a' <==> line[q] !in ['\0', '<', '|', '>', '&', ';', '(', ')'])
      && (kind == '\0' ==> eq == q) && (kind == '+' ==> eq == q + 2)
      && (kind in ['<', '|', '>', '&', ';', '(', ')'] ==> eq == q + 1)
      && (kind == 'a' ==> q < eq && (eq == es || White(line[eq]) || Symbol(line[eq]))
                          && forall k :: q <= k < eq ==> !White(line[k]) && !Symbol(line[k]))
  {
    WordChars(line, es, q);
  }

  lemma {:induction false} WordChars(line: seq<char>, es: nat, i: nat)
    requires Text(line, es) && i <= es
    ensures forall k :: i <= k < WordEnd(line, es, i) ==> !White(line[k]) && !Symbol(line[k])
    decreases es - i
  {
    if i < es && !White(line[i]) && !Symbol(line[i]) {
      WordChars(line, es, i + 1);
    }
  }

  /** The first token from position q on, where one begins. */
  lemma TokensAt(line: seq<char>, es: nat, q: nat)
    requires Text(line, es) && q <= es && !White(line[q])
    ensures var (kind, eq) := Lexed(line, es, q);
      Tokens(line, es, q) == if kind == '\0' then Nil else Cons(TokOf(kind, q, eq), Tokens(line, es, eq))
  {
  }

  lemma SkipTwice(line: seq<char>, es: nat, i: nat)
    requires Text(line, es) && i <= es
    ensures Skip(line, es, Skip(line, es, i)) == Skip(line, es, i)
    ensures Tokens(line, es, Skip(line, es, i)) == Tokens(line, es, i)
  {
  }

  // ---- Commands ----

  /** q and eq: the characters line[q..eq]. */
  datatype Span = Span(q: nat, eq: nat)

  datatype Cmd =
    | ExecCmd(argv: seq<Span>)
    | RedirCmd(cmd: Cmd, file: Span, mode: nat, fd: nat)
    | PipeCmd(left: Cmd, right: Cmd)
    | ListCmd(left: Cmd, right: Cmd)
    | BackCmd(cmd: Cmd)

  const O_RDONLY: nat := 0
  const O_WRONLY: nat := 1
  const O_CREATE: nat := 0x200
  const O_TRUNC: nat := 0x400

  function ModeOf(op: char): nat
  {
    if op == '<' then O_RDONLY else if op == '>' then O_WRONLY + O_CREATE + O_TRUNC else O_WRONLY + O_CREATE
  }

  function FdOf(op: char): nat { if op == '<' then 0 else 1 }

  /** A command with redirections, the first one innermost. */
  function Wrap(cmd: Cmd, rs: seq<Redir>): Cmd
  {
    if rs == [] then cmd
    else
      var r := rs[|rs| - 1];
      RedirCmd(Wrap(cmd, rs[..|rs| - 1]), Span(r.q, r.eq), ModeOf(r.op), FdOf(r.op))
  }

  function Words(args: seq<Arg>): seq<Span> { seq(|args|, i requires 0 <= i < |args| => Span(args[i].q, args[i].eq)) }

  function AllRedirs(args: seq<Arg>): seq<Redir>
  {
    if args == [] then [] else AllRedirs(args[..|args| - 1]) + args[|args| - 1].redirs
  }

  function Backed(cmd: Cmd, n: nat): Cmd { if n == 0 then cmd else BackCmd(Backed(cmd, n - 1)) }

  /** The command that a phrase stands for. */
  function ExecMeans(e: Exec): Cmd
    decreases e
  {
    match e
    case Simple(rs, args) => Wrap(ExecCmd(Words(args)), rs + AllRedirs(args))
    case Block(line, rs) => Wrap(LineMeans(line), rs)
  }

  function PipeMeans(p: Pipe): Cmd
    decreases p
  {
    if p.Last? then ExecMeans(p.exec) else PipeCmd(ExecMeans(p.exec), PipeMeans(p.next))
  }

  function LineMeans(l: Line): Cmd
    decreases l
  {
    var c := Backed(PipeMeans(l.pipe), l.backs);
    if l.End? then c else ListCmd(c, LineMeans(l.next))
  }

  // ---- The heap of nodes ----

  /** A node as malloc'd: its children are nodes made before it. */
  datatype Node =
    | ExecNode(argv: seq<Span>)
    | RedirNode(cmd: nat, file: Span, mode: nat, fd: nat)
    | PipeNode(left: nat, right: nat)
    | ListNode(left: nat, right: nat)
    | BackNode(cmd: nat)

  predicate NodeOk(node: Node, k: nat)
  {
    match node
    case ExecNode(_) => true
    case RedirNode(c, _, _, _) => c < k
    case PipeNode(l, r) => l < k && r < k
    case ListNode(l, r) => l < k && r < k
    case BackNode(c) => c < k
  }

  predicate Nodes(nodes: seq<Node>) { forall k {:trigger nodes[k]} :: 0 <= k < |nodes| ==> NodeOk(nodes[k], k) }

  /** The command at node k. */
  function Tree(nodes: seq<Node>, k: nat): Cmd
    requires Nodes(nodes) && k < |nodes|
    decreases k
  {
    match nodes[k]
    case ExecNode(argv) => ExecCmd(argv)
    case RedirNode(c, file, mode, fd) => RedirCmd(Tree(nodes, c), file, mode, fd)
    case PipeNode(l, r) => PipeCmd(Tree(nodes, l), Tree(nodes, r))
    case ListNode(l, r) => ListCmd(Tree(nodes, l), Tree(nodes, r))
    case BackNode(c) => BackCmd(Tree(nodes, c))
  }

  /** nodes' has the nodes of `nodes`, and perhaps more. */
  predicate Extends(nodes: seq<Node>, nodes': seq<Node>)
  {
    |nodes| <= |nodes'| && forall k :: 0 <= k < |nodes| ==> nodes'[k] == nodes[k]
  }

  predicate ExtendsBut(nodes: seq<Node>, nodes': seq<Node>, e: nat)
  {
    |nodes| <= |nodes'| && forall k :: 0 <= k < |nodes| && k != e ==> nodes'[k] == nodes[k]
  }

  lemma {:induction false} TreeKept(nodes: seq<Node>, nodes': seq<Node>, k: nat)
    requires Nodes(nodes) && Nodes(nodes') && Extends(nodes, nodes') && k < |nodes|
    ensures Tree(nodes', k) == Tree(nodes, k)
    decreases k
  {
    match nodes[k]
    case ExecNode(argv) =>
    case RedirNode(c, file, mode, fd) => TreeKept(nodes, nodes', c);
    case PipeNode(l, r) => TreeKept(nodes, nodes', l); TreeKept(nodes, nodes', r);
    case ListNode(l, r) => TreeKept(nodes, nodes', l); TreeKept(nodes, nodes', r);
    case BackNode(c) => TreeKept(nodes, nodes', c);
  }

  /** From node r one comes to node e through nodes for the redirections rs. */
  predicate Chain(nodes: seq<Node>, r: nat, e: nat, rs: seq<Redir>)
  {
    if rs == [] then r == e
    else
      var d := rs[|rs| - 1];
      && e < r < |nodes| && nodes[r].RedirNode? && nodes[r].cmd < r
      && nodes[r] == RedirNode(nodes[r].cmd, Span(d.q, d.eq), ModeOf(d.op), FdOf(d.op))
      && Chain(nodes, nodes[r].cmd, e, rs[..|rs| - 1])
  }

  lemma {:induction false} ChainTree(nodes: seq<Node>, r: nat, e: nat, rs: seq<Redir>)
    requires Nodes(nodes) && Chain(nodes, r, e, rs) && e < |nodes|
    ensures e <= r < |nodes| && Tree(nodes, r) == Wrap(Tree(nodes, e), rs)
  {
    if rs != [] {
      ChainTree(nodes, nodes[r].cmd, e, rs[..|rs| - 1]);
    }
  }

  /** A chain stays one when nodes are added and node e itself is filled in. */
  lemma {:induction false} ChainKept(nodes: seq<Node>, nodes': seq<Node>, r: nat, e: nat, rs: seq<Redir>)
    requires Chain(nodes, r, e, rs) && |nodes| <= |nodes'| && forall k :: e < k < |nodes| ==> nodes'[k] == nodes[k]
    ensures Chain(nodes', r, e, rs)
  {
    if rs != [] {
      ChainKept(nodes, nodes', nodes[r].cmd, e, rs[..|rs| - 1]);
    }
  }

  lemma {:induction false} ChainJoin(nodes: seq<Node>, r: nat, m: nat, e: nat, rs: seq<Redir>, more: seq<Redir>)
    requires Chain(nodes, m, e, rs) && Chain(nodes, r, m, more) && e <= m
    ensures Chain(nodes, r, e, rs + more)
  {
    if more == [] {
      assert rs + more == rs;
    } else {
      ChainJoin(nodes, nodes[r].cmd, m, e, rs, more[..|more| - 1]);
      assert (rs + more)[..|rs + more| - 1] == rs + more[..|more| - 1];
    }
  }

  /** Phrases collected so far, before those that the parser still finds. */
  function Onto<T>(xs: seq<T>, r: Result<seq<T>>): Result<seq<T>>
  {
    if r.Panic? then Panic else Got(xs + r.phrase, r.rest)
  }

  // ---- The parser ----

  class Parser {
    const line: seq<char>
    const es: nat
    var pos: nat
    var nodes: seq<Node>

    ghost predicate Valid()
      reads this
    {
      Text(line, es) && pos <= es && Nodes(nodes)
    }

    /** The tokens still to be read. */
    ghost function Rest(): Toks
      requires Valid()
      reads this
    {
      Tokens(line, es, pos)
    }

    constructor (line: seq<char>, es: nat)
      requires Text(line, es)
      ensures Valid() && this.line == line && this.es == es && pos == 0 && nodes == []
    {
      this.line, this.es, this.pos, this.nodes := line, es, 0, [];
    }

    /** The loops over whitespace in gettoken and peek. */
    method SkipWhite()
      requires Valid()
      modifies this`pos
      ensures Valid() && pos == Skip(line, es, old(pos)) && Rest() == old(Rest())
      ensures old(pos) <= pos && (forall k :: old(pos) <= k < pos ==> White(line[k])) && !White(line[pos])
    {
      while pos < es && White(line[pos])
        invariant old(pos) <= pos <= es && Skip(line, es, pos) == Skip(line, es, old(pos))
        invariant forall k :: old(pos) <= k < pos ==> White(line[k])
        decreases es - pos
      {
        pos := pos + 1;
      }
      SkipTwice(line, es, old(pos));
    }

    /** gettoken's switch. */
    method Lex() returns (kind: char, eq: nat)
      requires Valid() && !White(line[pos])
      ensures (kind, eq) == Lexed(line, es, pos)
    {
      var s := pos;
      kind := line[s];
      if kind == '\0' {
      } else if kind in "|();&<" {
        s := s + 1;
      } else if kind == '>' {
        s := s + 1;
        if line[s] == '>' {
          kind := '+';
          s := s + 1;
        }
      } else {
        kind := 'a';
        while s < es && !White(line[s]) && !Symbol(line[s])
          invariant pos <= s <= es && WordEnd(line, es, s) == WordEnd(line, es, pos)
        {
          s := s + 1;
        }
      }
      eq := s;
    }

    /** gettoken: kind is 0 at the end of the line, 'a' for a word, '+' for ">>", and else the symbol
        itself; the token is line[q..eq], with only whitespace before and after it. */
    method GetToken() returns (kind: char, q: nat, eq: nat)
      requires Valid()
      modifies this`pos
      ensures Valid() && old(pos) <= q <= eq <= pos
      ensures forall k :: old(pos) <= k < q || eq <= k < pos ==> line[k] in [' ', '\t', '\r', '\n', '\U{0B}']
      ensures line[q] !in [' ', '\t', '\r', '\n', '\U{0B}'] && line[pos] !in [' ', '\t', '\r', '\n', '\U{0B}']
      ensures kind == '\0' <==> q == es
      ensures kind == '+' <==> q < es && line[q] == '>' && line[q + 1] == '>'
      ensures kind == '>' <==> q < es && line[q] == '>' && line[q + 1] != '>'
      ensures forall c :: c in ['<', '|', '&', ';', '(', ')'] ==> (kind == c <==> line[q] == c)
      ensures kind == 'a' <==> line[q] !in ['\0', '<', '|', '>', '&', ';', '(', ')']
      ensures kind == '\0' ==> eq == q
      ensures kind == '+' ==> eq == q + 2
      ensures kind in ['<', '|', '>', '&', ';', '(', ')'] ==> eq == q + 1
      ensures kind == 'a' ==>
        && q < eq && (eq == es || line[eq] in [' ', '\t', '\r', '\n', '\U{0B}', '<', '|', '>', '&', ';', '(', ')'])
        && forall k :: q <= k < eq ==>
             line[k] !in [' ', '\t', '\r', '\n', '\U{0B}', '<', '|', '>', '&', ';', '(', ')']
      ensures old(Rest()).Nil? ==> kind == '\0' && Rest() == Nil
      ensures old(Rest()).Cons? ==> kind != '\0' && old(pos) < pos && old(Rest()) == Cons(TokOf(kind, q, eq), Rest())
    {
      hide Tokens, Skip, Lexed;
      SkipWhite();
      q := pos;
      TokensAt(line, es, q);
      LexedMeans(line, es, q);
      kind, eq := Lex();
      pos := eq;
      SkipWhite();
    }

    method Peek(toks: seq<char>) returns (r: bool)
      requires Valid()
      modifies this`pos
      ensures Valid() && old(pos) <= pos && Rest() == old(Rest())
      ensures Rest().Nil? <==> pos == es
      ensures toks == "<>" ==> (r <==> AtRedir(Rest()))
      ensures toks == "|)&;" ==> (r || pos == es <==> AfterArgs(Rest()))
      ensures |toks| == 1 && toks[0] in "|)(;&" ==> (r <==> At(Rest(), toks[0]))
    {
      SkipWhite();
      r := line[pos] != '\0' && line[pos] in toks;
      ghost var c := line[pos];
      assert c in "<>" <==> c == '<' || c == '>';
      assert c in "|)&;" <==> c == '|' || c == ')' || c == '&' || c == ';';
    }

    method NewNode(node: Node) returns (k: nat)
      requires Valid() && NodeOk(node, |nodes|)
      modifies this`nodes
      ensures Valid() && k == |old(nodes)| && nodes == old(nodes) + [node] && Extends(old(nodes), nodes)
    {
      k := |nodes|;
      nodes := nodes + [node];
    }

    /** One redirection; None is a panic. */
    method ParseRedir(at: nat, ghost e: nat, ghost rs: seq<Redir>) returns (r: Option<nat>, ghost d: Redir)
      requires Valid() && e <= at < |nodes| && Chain(nodes, at, e, rs) && AtRedir(Rest())
      modifies this`pos, this`nodes
      ensures Valid() && old(pos) < pos && Extends(old(nodes), nodes)
      ensures r.None? ==> Redirs(old(Rest())).Panic?
      ensures r.Some? ==> e <= r.value < |nodes| && Chain(nodes, r.value, e, rs + [d])
                          && Redirs(old(Rest())) == Onto([d], Redirs(Rest()))
    {
      ghost var nodes0 := nodes;
      var tok, q0, eq0 := GetToken();
      var kind, q, eq := GetToken();
      d := Redir(tok, q, eq);
      if kind != 'a' {
        return None, d;
      }
      var k;
      if tok == '<' {
        k := NewNode(RedirNode(at, Span(q, eq), O_RDONLY, 0));
      } else if tok == '>' {
        k := NewNode(RedirNode(at, Span(q, eq), O_WRONLY + O_CREATE + O_TRUNC, 1));
      } else {
        k := NewNode(RedirNode(at, Span(q, eq), O_WRONLY + O_CREATE, 1));
      }
      ChainMore(nodes0, nodes, k, e, rs, d);
      r := Some(k);
    }

    /** parseredirs; None is a panic. */
    method ParseRedirs(cmd: nat) returns (r: Option<nat>)
      requires Valid() && cmd < |nodes|
      modifies this`pos, this`nodes
      ensures Valid() && old(pos) <= pos && Extends(old(nodes), nodes) && (r.None? <==> Redirs(old(Rest())).Panic?)
      ensures r.Some? ==> r.value < |nodes| && Redirs(old(Rest())).rest == Rest()
                          && Chain(nodes, r.value, cmd, Redirs(old(Rest())).phrase)
    {
      ghost var ts, rs: seq<Redir> := Rest(), [];
      OntoNone(Redirs(ts));
      r := Some(cmd);
      var more := Peek("<>");
      while more
        invariant Valid() && old(pos) <= pos && Extends(old(nodes), nodes) && r.Some? && cmd <= r.value < |nodes|
        invariant Redirs(ts) == Onto(rs, Redirs(Rest())) && Chain(nodes, r.value, cmd, rs)
        invariant more <==> AtRedir(Rest())
        decreases es - pos
      {
        hide Redirs, Chain;
        ghost var d;
        r, d := ParseRedir(r.value, cmd, rs);
        if r.None? {
          return;
        }
        OntoTwice(rs, d, Redirs(Rest()));
        rs := rs + [d];
        more := Peek("<>");
      }
      assert rs + [] == rs;
    }

    /** Where parseexec's loop stands: node e has the words, and r leads to it through all redirections
        so far. */
    ghost predicate Gathered(e: nat, r: nat, args: seq<Arg>, rs: seq<Redir>)
      reads this
    {
      && Valid() && e <= r < |nodes| && |args| < MAXARGS
      && nodes[e] == ExecNode(Words(args)) && Chain(nodes, r, e, rs + AllRedirs(args))
    }

    /** A word and the redirections after it; None is a panic. */
    method ParseArg(e: nat, at: nat, ghost args: seq<Arg>, ghost rs: seq<Redir>) returns (r: Option<nat>, ghost a: Arg)
      requires Gathered(e, at, args, rs) && !AfterArgs(Rest())
      modifies this`pos, this`nodes
      ensures Valid() && old(pos) < pos
      ensures ExtendsBut(old(nodes), nodes, e)
      ensures r.None? ==> Args(old(Rest()), |args|).Panic?
      ensures r.Some? ==> Gathered(e, r.value, args + [a], rs)
      ensures r.Some? ==> Args(old(Rest()), |args|) == Onto([a], Args(Rest(), |args| + 1))
    {
      a := Arg(0, 0, []);
      ghost var ts, nodes0 := Rest(), nodes;
      var kind, q, eq := GetToken();
      if kind != 'a' {
        return None, a;
      }
      hide Chain, Tokens;
      var argv := nodes[e].argv + [Span(q, eq)];
      nodes := nodes[e := ExecNode(argv)];
      if |argv| >= MAXARGS {
        return None, a;
      }
      ghost var ts1, nodes1 := Rest(), nodes;
      r := ParseRedirs(at);
      if r.None? {
        return;
      }
      a := Arg(q, eq, Redirs(ts1).phrase);
      GatherMore(nodes0, nodes, e, at, r.value, args, rs, a);
    }

    /** The loop of parseexec; at the end of the line gettoken returns 0. None is a panic. */
    method ParseArgs(e: nat, at: nat, ghost rs: seq<Redir>) returns (r: Option<nat>)
      requires Gathered(e, at, [], rs)
      modifies this`pos, this`nodes
      ensures Valid() && old(pos) <= pos
      ensures ExtendsBut(old(nodes), nodes, e)
      ensures r.None? <==> Args(old(Rest()), 0).Panic?
      ensures r.Some? ==> var got := Args(old(Rest()), 0); got.rest == Rest() && Gathered(e, r.value, got.phrase, rs)
    {
      ghost var ts, args: seq<Arg> := Rest(), [];
      OntoNone(Args(ts, 0));
      r := Some(at);
      var stop := Peek("|)&;");
      assert Gathered(e, at, [], rs);
      while !stop && pos < es
        invariant Valid() && r.Some? && Gathered(e, r.value, args, rs) && old(pos) <= pos
        invariant ExtendsBut(old(nodes), nodes, e)
        invariant Args(ts, 0) == Onto(args, Args(Rest(), |args|)) && (AfterArgs(Rest()) <==> stop || pos == es)
        decreases es - pos
      {
        hide Args, Gathered;
        ghost var a;
        r, a := ParseArg(e, r.value, args, rs);
        if r.None? {
          return;
        }
        OntoTwice(args, a, Args(Rest(), |args| + 1));
        args := args + [a];
        stop := Peek("|)&;");
        assert Gathered(e, r.value, args, rs);
      }
      assert args + [] == args;
    }

    /** parseexec where no block begins; None is a panic. */
    method ParseSimple() returns (r: Option<nat>)
      requires Valid() && !At(Rest(), '(')
      modifies this`pos, this`nodes
      ensures Valid() && old(pos) <= pos && Extends(old(nodes), nodes) && (r.None? <==> ExecOf(old(Rest())).Panic?)
      ensures r.Some? ==> var e := ExecOf(old(Rest()));
        r.value < |nodes| && Tree(nodes, r.value) == ExecMeans(e.phrase) && Rest() == e.rest
    {
      var e := NewNode(ExecNode([]));
      ghost var ts := Rest();
      r := ParseRedirs(e);
      if r.None? {
        return;
      }
      ghost var rs, ts1 := Redirs(ts).phrase, Rest();
      assert rs + AllRedirs([]) == rs;
      ChainUp(nodes, r.value, e, rs);
      r := ParseArgs(e, r.value, rs);
      if r.Some? {
        ChainTree(nodes, r.value, e, rs + AllRedirs(Args(ts1, 0).phrase));
      }
    }

    /** Node r is the command of a phrase, and all nodes made before are as they were. */
    ghost predicate Made(before: seq<Node>, r: nat, cmd: Cmd)
      reads this
    {
      Valid() && Extends(before, nodes) && r < |nodes| && Tree(nodes, r) == cmd
    }

    /** parseblock, where a block begins; None is a panic. */
    method ParseBlock() returns (r: Option<nat>)
      requires Valid() && At(Rest(), '(')
      modifies this`pos, this`nodes
      ensures Valid() && old(pos) <= pos && Extends(old(nodes), nodes) && (r.None? <==> ExecOf(old(Rest())).Panic?)
      ensures r.Some? ==> var e := ExecOf(old(Rest()));
        Made(old(nodes), r.value, ExecMeans(e.phrase)) && Rest() == e.rest
      decreases es - pos, 0
    {
      var kind, q, eq := GetToken();
      r := ParseLine();
      if r.None? {
        return;
      }
      var more := Peek(")");
      if !more {
        return None;
      }
      kind, q, eq := GetToken();
      ghost var nodes1, ts, cmd := nodes, Rest(), r.value;
      r := ParseRedirs(r.value);
      if r.Some? {
        TreeKept(nodes1, nodes, cmd);
        ChainTree(nodes, r.value, cmd, Redirs(ts).phrase);
      }
    }

    /** parseexec; None is a panic. */
    method ParseExec() returns (r: Option<nat>)
      requires Valid()
      modifies this`pos, this`nodes
      ensures Valid() && old(pos) <= pos && Extends(old(nodes), nodes) && (r.None? <==> ExecOf(old(Rest())).Panic?)
      ensures r.Some? ==> var e := ExecOf(old(Rest()));
        Made(old(nodes), r.value, ExecMeans(e.phrase)) && Rest() == e.rest
      decreases es - pos, 1
    {
      var block := Peek("(");
      if block {
        r := ParseBlock();
      } else {
        r := ParseSimple();
      }
    }

    /** parsepipe; None is a panic. */
    method ParsePipe() returns (r: Option<nat>)
      requires Valid()
      modifies this`pos, this`nodes
      ensures Valid() && old(pos) <= pos && Extends(old(nodes), nodes) && (r.None? <==> PipeOf(old(Rest())).Panic?)
      ensures r.Some? ==> var p := PipeOf(old(Rest()));
        Made(old(nodes), r.value, PipeMeans(p.phrase)) && Rest() == p.rest
      decreases es - pos, 2
    {
      r := ParseExec();
      if r.None? {
        return;
      }
      var more := Peek("|");
      if more {
        ghost var nodes1, left := nodes, r.value;
        var kind, q, eq := GetToken();
        var next := ParsePipe();
        if next.None? {
          return None;
        }
        ghost var nodes2 := nodes;
        var k := NewNode(PipeNode(r.value, next.value));
        TreeKept(nodes1, nodes, left);
        TreeKept(nodes2, nodes, next.value);
        r := Some(k);
      }
    }

    /** parseline's loop: the command in the background as often as there is a "&". */
    method ParseBacks(cmd: nat) returns (r: nat)
      requires Valid() && cmd < |nodes|
      modifies this`pos, this`nodes
      ensures Valid() && old(pos) <= pos && Rest() == PastAmps(old(Rest()))
      ensures Made(old(nodes), r, Backed(Tree(old(nodes), cmd), AmpsAt(old(Rest()))))
    {
      hide Tokens;
      ghost var n, ts, t := 0, Rest(), Tree(nodes, cmd);
      r := cmd;
      var more := Peek("&");
      while more
        invariant Valid() && old(pos) <= pos && Made(old(nodes), r, Backed(t, n)) && (more <==> At(Rest(), '&'))
        invariant AmpsAt(ts) == n + AmpsAt(Rest()) && PastAmps(ts) == PastAmps(Rest())
        decreases es - pos
      {
        var kind, q, eq := GetToken();
        ghost var nodes0, cmd0 := nodes, r;
        r := NewNode(BackNode(r));
        TreeKept(nodes0, nodes, cmd0);
        n := n + 1;
        more := Peek("&");
      }
    }

    /** parseline; None is a panic. */
    method ParseLine() returns (r: Option<nat>)
      requires Valid()
      modifies this`pos, this`nodes
      ensures Valid() && old(pos) <= pos && Extends(old(nodes), nodes) && (r.None? <==> LineOf(old(Rest())).Panic?)
      ensures r.Some? ==> var l := LineOf(old(Rest()));
        Made(old(nodes), r.value, LineMeans(l.phrase)) && Rest() == l.rest
      decreases es - pos, 3
    {
      r := ParsePipe();
      if r.None? {
        return;
      }
      var cmd := ParseBacks(r.value);
      r := Some(cmd);
      var more := Peek(";");
      if more {
        ghost var nodes1 := nodes;
        var kind, q, eq := GetToken();
        var next := ParseLine();
        if next.None? {
          return None;
        }
        ghost var nodes2 := nodes;
        var k := NewNode(ListNode(cmd, next.value));
        TreeKept(nodes1, nodes, cmd);
        TreeKept(nodes2, nodes, next.value);
        r := Some(k);
      }
    }
  }

  lemma WordsMore(args: seq<Arg>, a: Arg)
    ensures Words(args + [a]) == Words(args) + [Span(a.q, a.eq)]
  {
  }

  lemma RedirsMore(rs: seq<Redir>, args: seq<Arg>, a: Arg)
    ensures rs + AllRedirs(args + [a]) == (rs + AllRedirs(args)) + a.redirs
  {
    var all := args + [a];
    assert all[..|all| - 1] == args && all[|all| - 1] == a;
    var xs, ys := AllRedirs(args), a.redirs;
    assert AllRedirs(all) == xs + ys;
    assert rs + (xs + ys) == (rs + xs) + ys;
  }

  lemma GatherMore(nodes: seq<Node>, nodes': seq<Node>, e: nat, at: nat, r: nat, args: seq<Arg>, rs: seq<Redir>, a: Arg)
    requires e <= at && Chain(nodes, at, e, rs + AllRedirs(args)) && ExtendsBut(nodes, nodes', e)
    requires Chain(nodes', r, at, a.redirs)
    ensures Chain(nodes', r, e, rs + AllRedirs(args + [a])) && e <= r
    ensures Words(args + [a]) == Words(args) + [Span(a.q, a.eq)]
  {
    hide Chain, AllRedirs, Words;
    ChainKept(nodes, nodes', at, e, rs + AllRedirs(args));
    ChainJoin(nodes', r, at, e, rs + AllRedirs(args), a.redirs);
    RedirsMore(rs, args, a);
    WordsMore(args, a);
    ChainUp(nodes', r, at, a.redirs);
  }

  lemma {:induction false} ChainUp(nodes: seq<Node>, r: nat, e: nat, rs: seq<Redir>)
    requires Chain(nodes, r, e, rs)
    ensures e <= r
  {
  }

  lemma OntoNone<T>(r: Result<seq<T>>)
    ensures Onto([], r) == r
  {
    if r.Got? { assert [] + r.phrase == r.phrase; }
  }

  lemma OntoTwice<T>(xs: seq<T>, x: T, r: Result<seq<T>>)
    ensures Onto(xs, Onto([x], r)) == Onto(xs + [x], r)
  {
    if r.Got? { assert xs + ([x] + r.phrase) == (xs + [x]) + r.phrase; }
  }

  lemma ChainMore(nodes: seq<Node>, nodes': seq<Node>, r: nat, e: nat, rs: seq<Redir>, d: Redir)
    requires r == |nodes| < |nodes'| && Extends(nodes, nodes') && nodes'[r].RedirNode?
    requires Chain(nodes, nodes'[r].cmd, e, rs) && e <= nodes'[r].cmd < r
    requires nodes'[r] == RedirNode(nodes'[r].cmd, Span(d.q, d.eq), ModeOf(d.op), FdOf(d.op))
    ensures Chain(nodes', r, e, rs + [d])
  {
    ChainKept(nodes, nodes', nodes'[r].cmd, e, rs);
    assert (rs + [d])[..|rs + [d]| - 1] == rs;
  }
}
