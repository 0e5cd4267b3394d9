/** The syntax of command lines as a relation between trees and tokens, without reference to how
    they are parsed, and the parser (sh.c) measured against it. */
module ShellSyntax {

  import opened ShellGrammar

  // ----- which tokens stand for which tree

  /** line ::= backs | backs ';' line */
  ghost predicate Line(c: Cmd, ts: seq<Token>)
    decreases |ts|, 4
  {
    || Backs(c, ts)
    || (c.List? && exists k: nat ::
      k < |ts| && ts[k] == Sym(';') && Backs(c.left, ts[..k]) && Line(c.right, ts[k + 1..]))
  }

  /** backs ::= piped | backs '&' */
  ghost predicate Backs(c: Cmd, ts: seq<Token>)
    decreases |ts|, 3
  {
    || Piped(c, ts)
    || (c.Back? && ts != [] && ts[|ts| - 1] == Sym('&') && Backs(c.cmd, ts[..|ts| - 1]))
  }

  /** piped ::= simple | simple '|' piped */
  ghost predicate Piped(c: Cmd, ts: seq<Token>)
    decreases |ts|, 2
  {
    || Simple(c, ts)
    || (c.Pipe? && exists k: nat ::
      k < |ts| && ts[k] == Sym('|') && Simple(c.left, ts[..k]) && Piped(c.right, ts[k + 1..]))
  }

  /** simple ::= block | plain */
  ghost predicate Simple(c: Cmd, ts: seq<Token>)
    decreases |ts|, 1
  {
    Block(c, ts) || Plain(c, ts)
  }

  /** block ::= '(' line ')' | block redirection */
  ghost predicate Block(c: Cmd, ts: seq<Token>)
    decreases |ts|, 0
  {
    && |ts| >= 2
    && (|| (ts[0] == Sym('(') && ts[|ts| - 1] == Sym(')') && Line(c, ts[1..|ts| - 1]))
        || (c.Redir? && ProperRedir(c.redir) && ts[|ts| - 2..] == [Sym(c.redir.op), c.redir.file] &&
          Block(c.cmd, ts[..|ts| - 2])))
  }

  /** plain: fewer than MAXARGS words, with redirections anywhere before, between and after them. */
  ghost predicate Plain(c: Cmd, ts: seq<Token>) {
    exists argv: seq<Token>, rs: seq<Redirection> ::
      |argv| < MAXARGS && c == Wrap(Exec(argv), rs) && Mixed(argv, rs, ts)
  }

  /** The words argv and the redirections rs, both in order, mixed in any way. */
  ghost predicate Mixed(argv: seq<Token>, rs: seq<Redirection>, ts: seq<Token>)
    decreases |ts|
  {
    if ts == [] then argv == [] && rs == []
    else if ts[0].Word? then argv != [] && argv[0] == ts[0] && Mixed(argv[1..], rs, ts[1..])
    else
      && |ts| >= 2 && rs != [] && ProperRedir(rs[0]) && ts[..2] == [Sym(rs[0].op), rs[0].file]
      && Mixed(argv, rs[1..], ts[2..])
  }

  // ----- mixed words and redirections

  lemma {:induction false} MixedConcat(argv: seq<Token>, rs: seq<Redirection>, ts: seq<Token>,
                                       argv': seq<Token>, rs': seq<Redirection>, ts': seq<Token>)
    requires Mixed(argv, rs, ts) && Mixed(argv', rs', ts')
    ensures Mixed(argv + argv', rs + rs', ts + ts')
    decreases |ts|
  {
    hide ProperRedir;
    if ts == [] {
      assert argv + argv' == argv' && rs + rs' == rs' && ts + ts' == ts';
    } else if ts[0].Word? {
      MixedConcat(argv[1..], rs, ts[1..], argv', rs', ts');
      assert (argv + argv')[1..] == argv[1..] + argv' && (ts + ts')[1..] == ts[1..] + ts';
    } else {
      MixedConcat(argv, rs[1..], ts[2..], argv', rs', ts');
      assert (rs + rs')[1..] == rs[1..] + rs' && (ts + ts')[2..] == ts[2..] + ts' && (ts + ts')[..2] == ts[..2];
    }
  }

  lemma MixedRedir(r: Redirection)
    requires ProperRedir(r)
    ensures Mixed([], [r], [Sym(r.op), r.file])
  {
    var ts := [Sym(r.op), r.file];
    assert ts[..2] == ts && ts[2..] == [] && [r][1..] == [];
  }

  /** A word, redirections, and more. */
  lemma MixedStep(w: Token, qs: seq<Redirection>, ts: seq<Token>, argv: seq<Token>, rs: seq<Redirection>,
                  us: seq<Token>)
    requires w.Word? && Mixed([], qs, ts) && Mixed(argv, rs, us)
    ensures Mixed([w] + argv, qs + rs, [w] + ts + us)
  {
    var vs := [w] + ts + us;
    assert vs[1..] == ts + us && ([w] + argv)[1..] == argv && [] + argv == argv;
    MixedConcat([], qs, ts, argv, rs, us);
  }

  lemma {:induction false} MixedLast(rs: seq<Redirection>, ts: seq<Token>)
    requires Mixed([], rs, ts) && rs != []
    ensures var r := rs[|rs| - 1];
            && |ts| >= 2 && ProperRedir(r) && ts[|ts| - 2..] == [Sym(r.op), r.file]
            && Mixed([], rs[..|rs| - 1], ts[..|ts| - 2])
    decreases |ts|
  {
    if |rs| == 1 {
      assert rs[1..] == [] && ts[2..] == [] && rs[..0] == [] && ts[..0] == [];
    } else {
      MixedLast(rs[1..], ts[2..]);
      var us := ts[..|ts| - 2];
      assert us[..2] == ts[..2] && us[2..] == ts[2..][..|ts| - 4] && rs[..|rs| - 1][1..] == rs[1..][..|rs| - 2];
      assert ts[|ts| - 2..] == ts[2..][|ts| - 4..];
    }
  }

  // ----- the parser accepts what is in the relation

  predicate Follows(ts: seq<Token>, toks: string) {
    ts == [] || Next(ts, toks)
  }

  lemma NextIs(x: char, rest: seq<Token>)
    ensures ([Sym(x)] + rest)[1..] == rest
    ensures Follows([Sym(x)] + rest, [x]) && Next([Sym(x)] + rest, [x])
    ensures x == '|' ==> Follows([Sym(x)] + rest, "|)&;")
    ensures x == ';' || x == '&' ==> Follows([Sym(x)] + rest, ")&;")
  {
  }

  lemma {:induction false} RedirsTaken(acc: seq<Redirection>, rs: seq<Redirection>, ts: seq<Token>, rest: seq<Token>)
    requires Mixed([], rs, ts) && !Next(rest, "<>+")
    ensures ParseRedirs(acc, ts + rest) == Redirs(acc + rs, rest)
    decreases |ts|
  {
    if ts == [] {
      assert ts + rest == rest && acc + rs == acc;
    } else {
      assert (ts + rest)[..2] == ts[..2] && (ts + rest)[2..] == ts[2..] + rest;
      RedirsTaken(acc + [rs[0]], rs[1..], ts[2..], rest);
      assert acc + [rs[0]] + rs[1..] == acc + rs;
    }
  }

  /** The rest of parseexec, from a call of parseredirs on. */
  function ParseOn(args: seq<Token>, rs: seq<Redirection>, ts: seq<Token>): (r: Result) {
    match ParseRedirs(rs, ts)
    case NoFile => Err(MissingFile)
    case Redirs(rs', ts') => ParseArgs(args, rs', ts')
  }

  lemma OnEnd(args: seq<Token>, rs: seq<Redirection>, ts: seq<Token>)
    requires Follows(ts, "|)&;")
    ensures ParseOn(args, rs, ts) == Ok(Wrap(Exec(args), rs), ts)
  {
    hide Wrap;
  }

  lemma OnWord(args: seq<Token>, rs: seq<Redirection>, ts: seq<Token>)
    requires ts != [] && ts[0].Word? && |args| + 1 < MAXARGS
    ensures ParseOn(args, rs, ts) == ParseOn(args + [ts[0]], rs, ts[1..])
  {
    hide Wrap;
  }

  lemma OnRedir(args: seq<Token>, rs: seq<Redirection>, ts: seq<Token>, r: Redirection)
    requires |ts| >= 2 && ProperRedir(r) && ts[..2] == [Sym(r.op), r.file]
    ensures ParseOn(args, rs, ts) == ParseOn(args, rs + [r], ts[2..])
  {
    hide ParseArgs;
    assert ts[0] == ts[..2][0] && ts[1] == ts[..2][1];
  }

  lemma {:induction false} MixedTaken(args: seq<Token>, acc: seq<Redirection>, argv: seq<Token>, rs: seq<Redirection>,
                                      ts: seq<Token>, rest: seq<Token>)
    requires Mixed(argv, rs, ts) && |args| + |argv| < MAXARGS && Follows(rest, "|)&;")
    ensures ParseOn(args, acc, ts + rest) == Ok(Wrap(Exec(args + argv), acc + rs), rest)
    decreases |ts|
  {
    hide Wrap, ParseOn, Follows;
    if ts == [] {
      assert ts + rest == rest && acc + rs == acc && args + argv == args;
      OnEnd(args, acc, rest);
    } else if ts[0].Word? {
      OnWord(args, acc, ts + rest);
      assert (ts + rest)[1..] == ts[1..] + rest;
      MixedTaken(args + [argv[0]], acc, argv[1..], rs, ts[1..], rest);
      assert args + [argv[0]] + argv[1..] == args + argv;
    } else {
      assert (ts + rest)[..2] == ts[..2] && (ts + rest)[2..] == ts[2..] + rest;
      OnRedir(args, acc, ts + rest, rs[0]);
      MixedTaken(args, acc + [rs[0]], argv, rs[1..], ts[2..], rest);
      assert acc + [rs[0]] + rs[1..] == acc + rs;
    }
  }

  lemma PlainTaken(c: Cmd, ts: seq<Token>, rest: seq<Token>)
    requires Plain(c, ts) && Follows(rest, "|)&;")
    ensures ParseExec(ts + rest) == Ok(c, rest)
  {
    var argv: seq<Token>, rs: seq<Redirection> :| |argv| < MAXARGS && c == Wrap(Exec(argv), rs) && Mixed(argv, rs, ts);
    MixedTaken([], [], argv, rs, ts, rest);
    assert [] + argv == argv && [] + rs == rs;
    assert ts == [] ==> ts + rest == rest;
    hide ParseArgs, ParseRedirs, ParseBlock;
    assert !Next(ts + rest, "(");
    assert ParseExec(ts + rest) == ParseOn([], [], ts + rest);
  }

  /** A block is a line in parentheses and the redirections behind it. */
  lemma {:induction false} BlockShape(c: Cmd, ts: seq<Token>) returns (d: Cmd, k: nat, rs: seq<Redirection>)
    requires Block(c, ts)
    ensures 2 <= k <= |ts| && ts[0] == Sym('(') && ts[k - 1] == Sym(')') && Line(d, ts[1..k - 1])
    ensures Mixed([], rs, ts[k..]) && c == Wrap(d, rs)
    decreases |ts|
  {
    hide Line;
    if ts[0] == Sym('(') && ts[|ts| - 1] == Sym(')') && Line(c, ts[1..|ts| - 1]) {
      d, k, rs := c, |ts|, [];
    } else {
      var us, r, qs := ts[..|ts| - 2], c.redir, [];
      d, k, qs := BlockShape(c.cmd, us);
      rs := qs + [r];
      assert us[1..k - 1] == ts[1..k - 1];
      MixedRedir(r);
      var none: seq<Token> := [];
      MixedConcat([], qs, us[k..], [], [r], [Sym(r.op), r.file]);
      assert none + none == none && us[k..] + [Sym(r.op), r.file] == ts[k..];
      assert rs[..|rs| - 1] == qs;
    }
  }

  lemma BlockMore(c: Cmd, r: Redirection, ts: seq<Token>)
    requires |ts| >= 2 && ProperRedir(r) && ts[|ts| - 2..] == [Sym(r.op), r.file] && Block(c, ts[..|ts| - 2])
    ensures Block(Redir(c, r), ts)
  {
    hide Line;
  }

  lemma LastTwo(ts: seq<Token>, k: nat)
    requires 2 <= k <= |ts| - 2
    ensures ts[k..][|ts| - k - 2..] == ts[|ts| - 2..] && ts[k..][..|ts| - k - 2] == ts[..|ts| - 2][k..]
    ensures ts[..|ts| - 2][1..k - 1] == ts[1..k - 1]
  {
  }

  lemma {:induction false} BlockOf(d: Cmd, k: nat, rs: seq<Redirection>, ts: seq<Token>)
    requires 2 <= k <= |ts| && ts[0] == Sym('(') && ts[k - 1] == Sym(')') && Line(d, ts[1..k - 1])
    requires Mixed([], rs, ts[k..])
    ensures Block(Wrap(d, rs), ts)
    decreases |ts|
  {
    hide Line;
    if rs == [] {
      assert ts[k..] == [];
    } else {
      hide Block, Mixed;
      var n := |rs| - 1;
      MixedLast(rs, ts[k..]);
      LastTwo(ts, k);
      BlockOf(d, k, rs[..n], ts[..|ts| - 2]);
      BlockMore(Wrap(d, rs[..n]), rs[n], ts);
    }
  }

  lemma {:induction false} BlockTaken(c: Cmd, ts: seq<Token>, rest: seq<Token>)
    requires Block(c, ts) && Follows(rest, "|)&;")
    ensures ParseExec(ts + rest) == Ok(c, rest)
    decreases |ts|, 0
  {
    hide Line, Mixed, ParseLine, ParseRedirs, Wrap;
    var d, k, rs := BlockShape(c, ts);
    var a, after := ts[1..k - 1], [Sym(')')] + (ts[k..] + rest);
    NextIs(')', ts[k..] + rest);
    LineTaken(d, a, after);
    assert (ts + rest)[1..] == a + after;
    RedirsTaken([], rs, ts[k..], rest);
    assert [] + rs == rs;
    assert Next(ts + rest, "(") && ParseExec(ts + rest) == ParseBlock(ts + rest);
  }

  lemma {:induction false} SimpleTaken(c: Cmd, ts: seq<Token>, rest: seq<Token>)
    requires Simple(c, ts) && Follows(rest, "|)&;")
    ensures ParseExec(ts + rest) == Ok(c, rest)
    decreases |ts|, 1
  {
    hide Plain, ParseExec;
    if Plain(c, ts) {
      PlainTaken(c, ts, rest);
    } else {
      BlockTaken(c, ts, rest);
    }
  }

  /** parsepipe after its parseexec has answered. */
  lemma PipeAfter(ts: seq<Token>, c: Cmd, rest: seq<Token>)
    requires ParseExec(ts) == Ok(c, rest)
    ensures !Next(rest, "|") ==> ParsePipe(ts) == Ok(c, rest)
    ensures Next(rest, "|") && ParsePipe(rest[1..]).Ok? ==>
              ParsePipe(ts) == Ok(Pipe(c, ParsePipe(rest[1..]).cmd), ParsePipe(rest[1..]).rest)
  {
    hide ParseExec;
  }

  lemma Infix(ts: seq<Token>, k: nat, rest: seq<Token>)
    requires k < |ts| && ts[k].Sym?
    ensures ts + rest == ts[..k] + ([Sym(ts[k].c)] + (ts[k + 1..] + rest))
  {
  }

  lemma {:induction false} PipedTaken(c: Cmd, ts: seq<Token>, rest: seq<Token>)
    requires Piped(c, ts) && Follows(rest, ")&;")
    ensures ParsePipe(ts + rest) == Ok(c, rest)
    decreases |ts|, 2
  {
    assert Follows(rest, "|)&;") && !Next(rest, "|");
    hide ParseExec, ParsePipe, Next, Follows, Simple;
    if Simple(c, ts) {
      SimpleTaken(c, ts, rest);
      PipeAfter(ts + rest, c, rest);
    } else {
      var k: nat :| k < |ts| && ts[k] == Sym('|') && Simple(c.left, ts[..k]) && Piped(c.right, ts[k + 1..]);
      var after := [Sym('|')] + (ts[k + 1..] + rest);
      NextIs('|', ts[k + 1..] + rest);
      Infix(ts, k, rest);
      SimpleTaken(c.left, ts[..k], after);
      PipedTaken(c.right, ts[k + 1..], rest);
      PipeAfter(ts + rest, c.left, after);
    }
  }

  lemma {:induction false} BacksTaken(c: Cmd, ts: seq<Token>, rest: seq<Token>)
    requires Backs(c, ts) && Follows(rest, ")&;")
    ensures var p := ParsePipe(ts + rest); p.Ok? && ParseBacks(p.cmd, p.rest) == ParseBacks(c, rest)
    decreases |ts|, 3
  {
    hide ParsePipe, Piped;
    if Piped(c, ts) {
      PipedTaken(c, ts, rest);
    } else {
      var k, after := |ts| - 1, [Sym('&')] + rest;
      assert ts + rest == ts[..k] + after && after[1..] == rest;
      BacksTaken(c.cmd, ts[..k], after);
    }
  }

  /** parseline after its '&' loop. */
  lemma LineAfter(ts: seq<Token>, c: Cmd, rest: seq<Token>)
    requires var p := ParsePipe(ts); p.Ok? && ParseBacks(p.cmd, p.rest) == Backed(c, rest)
    ensures !Next(rest, ";") ==> ParseLine(ts) == Ok(c, rest)
    ensures Next(rest, ";") && ParseLine(rest[1..]).Ok? ==>
              ParseLine(ts) == Ok(List(c, ParseLine(rest[1..]).cmd), ParseLine(rest[1..]).rest)
  {
    hide ParsePipe;
  }

  lemma {:induction false} LineTaken(c: Cmd, ts: seq<Token>, rest: seq<Token>)
    requires Line(c, ts) && Follows(rest, ")")
    ensures ParseLine(ts + rest) == Ok(c, rest)
    decreases |ts|, 4
  {
    assert Follows(rest, ")&;") && !Next(rest, ";") && ParseBacks(c, rest) == Backed(c, rest);
    hide ParsePipe, ParseLine, Backs, Follows;
    if Backs(c, ts) {
      hide Next, ParseBacks;
      BacksTaken(c, ts, rest);
      LineAfter(ts + rest, c, rest);
    } else {
      var k: nat :| k < |ts| && ts[k] == Sym(';') && Backs(c.left, ts[..k]) && Line(c.right, ts[k + 1..]);
      var after := [Sym(';')] + (ts[k + 1..] + rest);
      NextIs(';', ts[k + 1..] + rest);
      Infix(ts, k, rest);
      BacksTaken(c.left, ts[..k], after);
      assert ParseBacks(c.left, after) == Backed(c.left, after);
      hide Next, ParseBacks;
      LineTaken(c.right, ts[k + 1..], rest);
      LineAfter(ts + rest, c.left, after);
    }
  }

  // ----- what the parser accepts is in the relation

  /** How many tokens were taken to leave rest. */
  ghost predicate Takes(ts: seq<Token>, n: nat, rest: seq<Token>) {
    n <= |ts| && rest == ts[n..]
  }

  lemma {:induction false} RedirsRead(acc: seq<Redirection>, ts: seq<Token>) returns (n: nat, rs: seq<Redirection>)
    requires ParseRedirs(acc, ts).Redirs?
    ensures var r := ParseRedirs(acc, ts); Takes(ts, n, r.rest) && r.rs == acc + rs && Mixed([], rs, ts[..n])
    decreases |ts|
  {
    if !Next(ts, "<>+") {
      n, rs := 0, [];
      assert acc + rs == acc;
    } else {
      var r := Redirection(ts[0].c, ts[1]);
      var m, qs := RedirsRead(acc + [r], ts[2..]);
      n, rs := m + 2, [r] + qs;
      assert acc + [r] + qs == acc + rs;
      MixedRedir(r);
      var none: seq<Token> := [];
      MixedConcat([], [r], [Sym(r.op), r.file], [], qs, ts[2..][..m]);
      assert none + none == none && ts[..n] == [Sym(r.op), r.file] + ts[2..][..m];
    }
  }

  lemma ArgsStep(args: seq<Token>, acc: seq<Redirection>, ts: seq<Token>)
    requires ParseArgs(args, acc, ts).Ok? && ts != [] && !Next(ts, "|)&;")
    ensures ts[0].Word? && |args| + 1 < MAXARGS
    ensures var p := ParseRedirs(acc, ts[1..]);
            p.Redirs? && ParseArgs(args, acc, ts) == ParseArgs(args + [ts[0]], p.rs, p.rest)
  {
    hide ParseRedirs, Wrap;
  }

  /** n tokens have been read as argv and rs, behind args and acc. */
  ghost predicate HasRead(args: seq<Token>, acc: seq<Redirection>, ts: seq<Token>, r: Result,
                          n: nat, argv: seq<Token>, rs: seq<Redirection>) {
    && r.Ok? && Takes(ts, n, r.rest) && r.cmd == Wrap(Exec(args + argv), acc + rs)
    && |args| + |argv| < MAXARGS && Mixed(argv, rs, ts[..n])
  }

  lemma HasReadMore(args: seq<Token>, acc: seq<Redirection>, ts: seq<Token>, r: Result, m: nat, qs: seq<Redirection>,
                    k: nat, ws: seq<Token>, ps: seq<Redirection>)
    requires 1 + m <= |ts| && ts[0].Word? && Mixed([], qs, ts[1..][..m])
    requires HasRead(args + [ts[0]], acc + qs, ts[1..][m..], r, k, ws, ps)
    ensures HasRead(args, acc, ts, r, 1 + m + k, [ts[0]] + ws, qs + ps)
  {
    hide Mixed, Wrap;
    var w := ts[0];
    MixedStep(w, qs, ts[1..][..m], ws, ps, ts[1..][m..][..k]);
    assert args + [w] + ws == args + ([w] + ws) && acc + qs + ps == acc + (qs + ps);
    assert ts[..1 + m + k] == [w] + ts[1..][..m] + ts[1..][m..][..k] && ts[1..][m..][k..] == ts[1 + m + k..];
  }

  lemma ArgsEnd(args: seq<Token>, acc: seq<Redirection>, ts: seq<Token>)
    requires |args| < MAXARGS && Follows(ts, "|)&;")
    ensures HasRead(args, acc, ts, ParseArgs(args, acc, ts), 0, [], [])
  {
    hide Wrap;
    assert args + [] == args && acc + [] == acc;
  }

  lemma {:induction false} ArgsRead(args: seq<Token>, acc: seq<Redirection>, ts: seq<Token>)
    returns (n: nat, argv: seq<Token>, rs: seq<Redirection>)
    requires ParseArgs(args, acc, ts).Ok? && |args| < MAXARGS
    ensures HasRead(args, acc, ts, ParseArgs(args, acc, ts), n, argv, rs)
    decreases |ts|
  {
    hide Wrap, ParseRedirs, Next, ParseArgs, Mixed, HasRead;
    if ts == [] || Next(ts, "|)&;") {
      n, argv, rs := 0, [], [];
      ArgsEnd(args, acc, ts);
    } else {
      ArgsStep(args, acc, ts);
      var p := ParseRedirs(acc, ts[1..]);
      var m, qs := RedirsRead(acc, ts[1..]);
      var k, ws, ps := ArgsRead(args + [ts[0]], p.rs, p.rest);
      HasReadMore(args, acc, ts, ParseArgs(args, acc, ts), m, qs, k, ws, ps);
      n, argv, rs := 1 + m + k, [ts[0]] + ws, qs + ps;
    }
  }

  lemma PlainRead(ts: seq<Token>) returns (n: nat)
    requires !Next(ts, "(") && ParseExec(ts).Ok?
    ensures Takes(ts, n, ParseExec(ts).rest) && Plain(ParseExec(ts).cmd, ts[..n])
  {
    hide ParseRedirs, ParseArgs, Wrap;
    var p := ParseRedirs([], ts);
    var m, qs := RedirsRead([], ts);
    var k, argv, ps := ArgsRead([], p.rs, p.rest);
    n := m + k;
    assert [] + qs == qs && [] + argv == argv;
    MixedConcat([], qs, ts[..m], argv, ps, p.rest[..k]);
    assert ts[..n] == ts[..m] + p.rest[..k];
    assert Mixed(argv, qs + ps, ts[..n]);
  }

  /** Where the parts of a block end. */
  lemma BlockEnds(ts: seq<Token>, m: nat, k: nat)
    requires m + 2 + k <= |ts| && ts[0] == Sym('(') && ts[m + 1] == Sym(')')
    ensures var us := ts[..m + 2 + k];
            us[0] == Sym('(') && us[m + 1] == Sym(')') && us[1..m + 1] == ts[1..][..m] &&
              us[m + 2..] == ts[1..][m..][1..][..k]
  {
  }

  lemma {:induction false} BlockRead(ts: seq<Token>) returns (n: nat)
    requires Next(ts, "(") && ParseBlock(ts).Ok?
    ensures Takes(ts, n, ParseBlock(ts).rest) && Block(ParseBlock(ts).cmd, ts[..n])
    decreases |ts|, 0
  {
    hide ParseLine, ParseRedirs, Line, Block, Wrap, Mixed;
    var l := ParseLine(ts[1..]);
    var m := LineRead(ts[1..]);
    var k, rs := RedirsRead([], l.rest[1..]);
    assert [] + rs == rs;
    n := m + 2 + k;
    BlockEnds(ts, m, k);
    BlockOf(l.cmd, m + 2, rs, ts[..n]);
  }

  lemma {:induction false} SimpleRead(ts: seq<Token>) returns (n: nat)
    requires ParseExec(ts).Ok?
    ensures Takes(ts, n, ParseExec(ts).rest) && Simple(ParseExec(ts).cmd, ts[..n])
    decreases |ts|, 1
  {
    hide ParseBlock, Block, Plain, ParseArgs, ParseRedirs;
    if Next(ts, "(") {
      n := BlockRead(ts);
    } else {
      n := PlainRead(ts);
    }
  }

  lemma {:induction false} PipedRead(ts: seq<Token>) returns (n: nat)
    requires ParsePipe(ts).Ok?
    ensures Takes(ts, n, ParsePipe(ts).rest) && Piped(ParsePipe(ts).cmd, ts[..n])
    decreases |ts|, 2
  {
    hide ParseExec, Simple;
    n := SimpleRead(ts);
    var r := ParseExec(ts);
    if Next(r.rest, "|") {
      var k := n;
      var m := PipedRead(r.rest[1..]);
      n := k + 1 + m;
      assert ts[..n][..k] == ts[..k] && ts[..n][k + 1..] == r.rest[1..][..m];
    }
  }

  lemma {:induction false} BacksRead(c: Cmd, ts: seq<Token>, k: nat) returns (n: nat)
    requires k <= |ts| && Backs(c, ts[..k])
    ensures var b := ParseBacks(c, ts[k..]); k <= n && Takes(ts, n, b.rest) && Backs(b.cmd, ts[..n])
    decreases |ts| - k
  {
    if Next(ts[k..], "&") {
      assert ts[..k + 1][..k] == ts[..k] && ts[k..][1..] == ts[k + 1..];
      n := BacksRead(Back(c), ts, k + 1);
    } else {
      n := k;
    }
  }

  lemma {:induction false} LineRead(ts: seq<Token>) returns (n: nat)
    requires ParseLine(ts).Ok?
    ensures Takes(ts, n, ParseLine(ts).rest) && Line(ParseLine(ts).cmd, ts[..n])
    decreases |ts|, 4
  {
    hide ParsePipe, Piped, Backs;
    var p := ParsePipe(ts);
    var j := PipedRead(ts);
    assert Backs(p.cmd, ts[..j]) by { PipedBacks(p.cmd, ts[..j]); }
    var k := BacksRead(p.cmd, ts, j);
    var b := ParseBacks(p.cmd, p.rest);
    n := k;
    if Next(b.rest, ";") {
      var m := LineRead(b.rest[1..]);
      n := k + 1 + m;
      assert ts[..n][..k] == ts[..k] && ts[..n][k + 1..] == b.rest[1..][..m];
    }
  }

  lemma PipedBacks(c: Cmd, ts: seq<Token>)
    requires Piped(c, ts)
    ensures Backs(c, ts)
  {
  }

  /** The parser succeeds with a tree exactly on the lines that stand for it. */
  lemma ParseIff(c: Cmd, ts: seq<Token>)
    ensures Parse(ts) == Ok(c, []) <==> Line(c, ts)
  {
    hide ParseLine, Line;
    if Line(c, ts) {
      LineTaken(c, ts, []);
      assert ts + [] == ts;
    }
    if Parse(ts) == Ok(c, []) {
      var n := LineRead(ts);
      assert ts[..n] == ts;
    }
  }

  /** No line stands for two trees. */
  lemma Unambiguous(c: Cmd, d: Cmd, ts: seq<Token>)
    requires Line(c, ts) && Line(d, ts)
    ensures c == d
  {
    ParseIff(c, ts);
    ParseIff(d, ts);
  }

  // ----- printing a tree

  /** The grammar level that builds this kind of tree: line, '&' loop, pipe, exec. */
  function Level(c: Cmd): (k: nat)
    ensures k < 4
  {
    match c
    case List(_, _) => 0
    case Back(_) => 1
    case Pipe(_, _) => 2
    case _ => 3
  }

  function Climb(c: Cmd, k: nat): (n: nat)
    requires k < 4
  {
    (Level(c) + 4 - k) % 4
  }

  /** Print at level k, in parentheses where the tree belongs to an earlier level. */
  function Print(c: Cmd, k: nat): (ts: seq<Token>)
    requires k < 4
    decreases c, Climb(c, k)
  {
    if Level(c) != k then
      if k < 3 then Print(c, k + 1) else [Sym('(')] + Print(c, 0) + [Sym(')')]
    else
      match c
      case List(l, r) => Print(l, 1) + [Sym(';')] + Print(r, 0)
      case Back(d) => Print(d, 1) + [Sym('&')]
      case Pipe(l, r) => Print(l, 3) + [Sym('|')] + Print(r, 2)
      case Exec(argv) => argv
      case Redir(d, r) => Print(d, 3) + [Sym(r.op), r.file]
  }

  ghost predicate At(k: nat, c: Cmd, ts: seq<Token>)
    requires k < 4
  {
    match k
    case 0 => Line(c, ts)
    case 1 => Backs(c, ts)
    case 2 => Piped(c, ts)
    case _ => Simple(c, ts)
  }

  lemma {:induction false} WordsMixed(argv: seq<Token>)
    requires forall i | 0 <= i < |argv| :: argv[i].Word?
    ensures Mixed(argv, [], argv)
  {
    if argv != [] {
      WordsMixed(argv[1..]);
    }
  }

  lemma PlainMore(c: Cmd, r: Redirection, ts: seq<Token>)
    requires Plain(c, ts) && ProperRedir(r)
    ensures Plain(Redir(c, r), ts + [Sym(r.op), r.file])
  {
    hide Mixed;
    var argv: seq<Token>, rs: seq<Redirection> :| |argv| < MAXARGS && c == Wrap(Exec(argv), rs) && Mixed(argv, rs, ts);
    MixedRedir(r);
    MixedConcat(argv, rs, ts, [], [r], [Sym(r.op), r.file]);
    var qs := rs + [r];
    assert argv + [] == argv && qs[..|qs| - 1] == rs;
    assert Redir(c, r) == Wrap(Exec(argv), qs);
  }

  lemma RedirSimple(c: Cmd, ts: seq<Token>, r: Redirection)
    requires Simple(c, ts) && ProperRedir(r)
    ensures Simple(Redir(c, r), ts + [Sym(r.op), r.file])
  {
    hide Block, Plain;
    if Block(c, ts) {
      var us := ts + [Sym(r.op), r.file];
      assert us[|us| - 2..] == [Sym(r.op), r.file] && us[..|us| - 2] == ts;
      BlockMore(c, r, us);
    } else {
      PlainMore(c, r, ts);
    }
  }

  /** A printed tree is a line for it. */
  lemma {:induction false} Printed(c: Cmd, k: nat)
    requires Proper(c) && k < 4
    ensures At(k, c, Print(c, k))
    decreases c, Climb(c, k)
  {
    if Level(c) == k {
      match c
      case List(l, r) => Printed(l, 1); Printed(r, 0); ListHere(l, Print(l, 1), r, Print(r, 0));
      case Back(d) => Printed(d, 1); BackHere(d, Print(d, 1));
      case Pipe(l, r) => Printed(l, 3); Printed(r, 2); PipeHere(l, Print(l, 3), r, Print(r, 2));
      case Exec(argv) => ExecHere(argv);
      case Redir(d, r) => Printed(d, 3); RedirSimple(d, Print(d, 3), r);
    } else if k < 3 {
      Printed(c, k + 1);
    } else {
      Printed(c, 0);
      BlockHere(c, Print(c, 0));
    }
  }

  lemma ExecHere(argv: seq<Token>)
    requires Proper(Exec(argv))
    ensures Simple(Exec(argv), argv)
  {
    WordsMixed(argv);
    assert Exec(argv) == Wrap(Exec(argv), []);
  }

  lemma BlockHere(c: Cmd, a: seq<Token>)
    requires Line(c, a)
    ensures Simple(c, [Sym('(')] + a + [Sym(')')])
  {
    hide Line;
    var ts := [Sym('(')] + a + [Sym(')')];
    assert ts[1..|ts| - 1] == a;
  }

  lemma ListHere(l: Cmd, a: seq<Token>, r: Cmd, b: seq<Token>)
    requires Backs(l, a) && Line(r, b)
    ensures Line(List(l, r), a + [Sym(';')] + b)
  {
    hide Backs;
    var ts := a + [Sym(';')] + b;
    assert ts[|a|] == Sym(';') && ts[..|a|] == a && ts[|a| + 1..] == b;
  }

  lemma BackHere(d: Cmd, a: seq<Token>)
    requires Backs(d, a)
    ensures Backs(Back(d), a + [Sym('&')])
  {
    hide Piped;
    assert (a + [Sym('&')])[..|a|] == a;
  }

  lemma PipeHere(l: Cmd, a: seq<Token>, r: Cmd, b: seq<Token>)
    requires Simple(l, a) && Piped(r, b)
    ensures Piped(Pipe(l, r), a + [Sym('|')] + b)
  {
    hide Simple;
    var ts := a + [Sym('|')] + b;
    assert ts[|a|] == Sym('|') && ts[..|a|] == a && ts[|a| + 1..] == b;
  }

  /** Every proper tree, printed, parses back to itself. */
  lemma ParsePrint(c: Cmd)
    requires Proper(c)
    ensures Parse(Print(c, 0)) == Ok(c, [])
  {
    Printed(c, 0);
    ParseIff(c, Print(c, 0));
  }

  /** The trees the parser can return are exactly the proper ones. */
  lemma ParseImage(c: Cmd)
    ensures Proper(c) <==> exists ts :: Parse(ts) == Ok(c, [])
  {
    if Proper(c) {
      ParsePrint(c);
    }
    forall ts | Parse(ts) == Ok(c, []) ensures Proper(c) {
      LineProper(ts);
    }
  }
}
