/** The shell's command language (sh.c) over tokens: the recursive-descent parser as functions, the words
    it records, and the trees it can return. */
module ShellGrammar {

  const MAXARGS: nat := 10

  /** A token: a one-character symbol ('+' for ">>") or the word at buf[q..eq]. */
  datatype Token = Sym(c: char) | Word(q: nat, eq: nat)

  datatype Redirection = Redirection(op: char, file: Token)

  /** The command tree; argv and file names are word tokens. */
  datatype Cmd =
    | Exec(argv: seq<Token>)
    | Redir(cmd: Cmd, redir: Redirection)
    | Pipe(left: Cmd, right: Cmd)
    | List(left: Cmd, right: Cmd)
    | Back(cmd: Cmd)

  /** The shell's panics. */
  datatype Error = MissingFile | MissingParen | Syntax | TooManyArgs | Leftovers

  datatype Result = Ok(cmd: Cmd, rest: seq<Token>) | Err(e: Error)
  datatype Redirs = Redirs(rs: seq<Redirection>, rest: seq<Token>) | NoFile
  datatype Backed = Backed(cmd: Cmd, rest: seq<Token>)

  /** peek: is the next token one of these symbols? */
  predicate Next(ts: seq<Token>, toks: string) {
    ts != [] && ts[0].Sym? && ts[0].c in toks
  }

  function Wrap(c: Cmd, rs: seq<Redirection>): (r: Cmd) {
    if rs == [] then c else Redir(Wrap(c, rs[..|rs| - 1]), rs[|rs| - 1])
  }

  /** parseredirs, collecting the redirections in order. */
  function ParseRedirs(rs: seq<Redirection>, ts: seq<Token>): (r: Redirs)
    ensures r.Redirs? ==> |r.rest| <= |ts|
    decreases |ts|
  {
    if !Next(ts, "<>+") then Redirs(rs, ts)
    else if |ts| < 2 || !ts[1].Word? then NoFile
    else ParseRedirs(rs + [Redirection(ts[0].c, ts[1])], ts[2..])
  }

  /** parseexec's loop over the arguments. */
  function ParseArgs(args: seq<Token>, rs: seq<Redirection>, ts: seq<Token>): (r: Result)
    ensures r.Ok? ==> |r.rest| <= |ts|
    decreases |ts|
  {
    if ts == [] || Next(ts, "|)&;") then Ok(Wrap(Exec(args), rs), ts)
    else if !ts[0].Word? then Err(Syntax)
    else if |args| + 1 >= MAXARGS then Err(TooManyArgs)
    else match ParseRedirs(rs, ts[1..])
      case NoFile => Err(MissingFile)
      case Redirs(rs', ts') => ParseArgs(args + [ts[0]], rs', ts')
  }

  function ParseBlock(ts: seq<Token>): (r: Result)
    requires Next(ts, "(")
    ensures r.Ok? ==> |r.rest| <= |ts|
    decreases |ts|, 0
  {
    match ParseLine(ts[1..])
    case Err(e) => Err(e)
    case Ok(c, rest) =>
      if !Next(rest, ")") then Err(MissingParen)
      else match ParseRedirs([], rest[1..])
        case NoFile => Err(MissingFile)
        case Redirs(rs, rest') => Ok(Wrap(c, rs), rest')
  }

  function ParseExec(ts: seq<Token>): (r: Result)
    ensures r.Ok? ==> |r.rest| <= |ts|
    decreases |ts|, 1
  {
    if Next(ts, "(") then ParseBlock(ts)
    else match ParseRedirs([], ts)
      case NoFile => Err(MissingFile)
      case Redirs(rs, ts') => ParseArgs([], rs, ts')
  }

  function ParsePipe(ts: seq<Token>): (r: Result)
    ensures r.Ok? ==> |r.rest| <= |ts|
    decreases |ts|, 2
  {
    match ParseExec(ts)
    case Err(e) => Err(e)
    case Ok(c, rest) =>
      if !Next(rest, "|") then Ok(c, rest)
      else match ParsePipe(rest[1..])
        case Err(e) => Err(e)
        case Ok(d, rest') => Ok(Pipe(c, d), rest')
  }

  /** parseline's loop over '&'. */
  function ParseBacks(c: Cmd, ts: seq<Token>): (r: Backed)
    ensures |r.rest| <= |ts|
    decreases |ts|
  {
    if Next(ts, "&") then ParseBacks(Back(c), ts[1..]) else Backed(c, ts)
  }

  function ParseLine(ts: seq<Token>): (r: Result)
    ensures r.Ok? ==> |r.rest| <= |ts|
    decreases |ts|, 3
  {
    match ParsePipe(ts)
    case Err(e) => Err(e)
    case Ok(c, rest) =>
      var b := ParseBacks(c, rest);
      if !Next(b.rest, ";") then Ok(b.cmd, b.rest)
      else match ParseLine(b.rest[1..])
        case Err(e) => Err(e)
        case Ok(d, rest') => Ok(List(b.cmd, d), rest')
  }

  /** parsecmd: the whole line must be used up. */
  function Parse(ts: seq<Token>): (r: Result)
    ensures r.Ok? ==> r.rest == []
  {
    match ParseLine(ts)
    case Err(e) => Err(e)
    case Ok(c, rest) => if rest == [] then Ok(c, []) else Err(Leftovers)
  }

  // ----- every word is recorded exactly once

  function WordsIn(ts: seq<Token>): (m: multiset<Token>) {
    if ts == [] then multiset{} else (if ts[0].Word? then multiset{ts[0]} else multiset{}) + WordsIn(ts[1..])
  }

  function FilesIn(rs: seq<Redirection>): (m: multiset<Token>) {
    if rs == [] then multiset{} else FilesIn(rs[..|rs| - 1]) + multiset{rs[|rs| - 1].file}
  }

  /** The words a tree points to: arguments and file names. */
  function Recorded(c: Cmd): (m: multiset<Token>) {
    match c
    case Exec(argv) => multiset(argv)
    case Redir(d, r) => Recorded(d) + multiset{r.file}
    case Pipe(l, r) => Recorded(l) + Recorded(r)
    case List(l, r) => Recorded(l) + Recorded(r)
    case Back(d) => Recorded(d)
  }

  lemma {:induction false} WrapRecords(c: Cmd, rs: seq<Redirection>)
    ensures Recorded(Wrap(c, rs)) == Recorded(c) + FilesIn(rs)
  {
    if rs != [] {
      WrapRecords(c, rs[..|rs| - 1]);
    }
  }

  lemma {:induction false} RedirsRecord(rs: seq<Redirection>, ts: seq<Token>)
    ensures var r := ParseRedirs(rs, ts); r.Redirs? ==> FilesIn(rs) + WordsIn(ts) == FilesIn(r.rs) + WordsIn(r.rest)
    decreases |ts|
  {
    if Next(ts, "<>+") && |ts| >= 2 && ts[1].Word? {
      var rs' := rs + [Redirection(ts[0].c, ts[1])];
      assert rs'[..|rs'| - 1] == rs;
      assert ts[1..][1..] == ts[2..];
      assert WordsIn(ts[1..]) == multiset{ts[1]} + WordsIn(ts[2..]);
      RedirsRecord(rs', ts[2..]);
    }
  }

  lemma Regroup(a: multiset<Token>, w: multiset<Token>, f: multiset<Token>, x: multiset<Token>, g: multiset<Token>,
                y: multiset<Token>)
    requires f + x == g + y
    ensures a + f + (w + x) == a + w + g + y
  {
    assert a + f + (w + x) == a + w + (f + x);
  }

  lemma {:induction false} ArgsRecord(args: seq<Token>, rs: seq<Redirection>, ts: seq<Token>)
    ensures var r := ParseArgs(args, rs, ts); r.Ok? ==>
              multiset(args) + FilesIn(rs) + WordsIn(ts) == Recorded(r.cmd) + WordsIn(r.rest)
    decreases |ts|
  {
    if ts == [] || Next(ts, "|)&;") {
      WrapRecords(Exec(args), rs);
    } else if ts[0].Word? && |args| + 1 < MAXARGS {
      RedirsRecord(rs, ts[1..]);
      var r := ParseRedirs(rs, ts[1..]);
      if r.Redirs? {
        ArgsRecord(args + [ts[0]], r.rs, r.rest);
        hide Recorded, FilesIn, ParseRedirs;
        Regroup(multiset(args), multiset{ts[0]}, FilesIn(rs), WordsIn(ts[1..]), FilesIn(r.rs), WordsIn(r.rest));
        assert multiset(args + [ts[0]]) == multiset(args) + multiset{ts[0]};
      }
    }
  }

  ghost predicate Records(ts: seq<Token>, r: Result) {
    r.Ok? ==> WordsIn(ts) == Recorded(r.cmd) + WordsIn(r.rest)
  }

  lemma {:induction false} BlockRecords(ts: seq<Token>)
    requires Next(ts, "(")
    ensures Records(ts, ParseBlock(ts))
    decreases |ts|, 0
  {
    LineRecords(ts[1..]);
    var l := ParseLine(ts[1..]);
    if l.Ok? && Next(l.rest, ")") {
      RedirsRecord([], l.rest[1..]);
      var rs := ParseRedirs([], l.rest[1..]);
      if rs.Redirs? {
        WrapRecords(l.cmd, rs.rs);
      }
    }
  }

  lemma {:induction false} ExecRecords(ts: seq<Token>)
    ensures Records(ts, ParseExec(ts))
    decreases |ts|, 1
  {
    if Next(ts, "(") {
      BlockRecords(ts);
    } else {
      RedirsRecord([], ts);
      var rs := ParseRedirs([], ts);
      if rs.Redirs? {
        ArgsRecord([], rs.rs, rs.rest);
        var none: seq<Token> := [];
        assert FilesIn([]) + WordsIn(ts) == WordsIn(ts);
        assert multiset(none) + FilesIn(rs.rs) == FilesIn(rs.rs);
      }
    }
  }

  lemma {:induction false} PipeRecords(ts: seq<Token>)
    ensures Records(ts, ParsePipe(ts))
    decreases |ts|, 2
  {
    ExecRecords(ts);
    var r := ParseExec(ts);
    if r.Ok? && Next(r.rest, "|") {
      PipeRecords(r.rest[1..]);
    }
  }

  lemma {:induction false} BacksRecord(c: Cmd, ts: seq<Token>)
    ensures var b := ParseBacks(c, ts); Recorded(c) + WordsIn(ts) == Recorded(b.cmd) + WordsIn(b.rest)
    decreases |ts|
  {
    if Next(ts, "&") {
      BacksRecord(Back(c), ts[1..]);
    }
  }

  /** Arguments and file names of the tree, with the words not yet read, are the words of the input. */
  lemma {:induction false} LineRecords(ts: seq<Token>)
    ensures Records(ts, ParseLine(ts))
    decreases |ts|, 3
  {
    PipeRecords(ts);
    var r := ParsePipe(ts);
    if r.Ok? {
      BacksRecord(r.cmd, r.rest);
      var b := ParseBacks(r.cmd, r.rest);
      if Next(b.rest, ";") {
        LineRecords(b.rest[1..]);
      }
    }
  }

  lemma ParseRecords(ts: seq<Token>)
    ensures var r := Parse(ts); r.Ok? ==> Recorded(r.cmd) == WordsIn(ts)
  {
    LineRecords(ts);
  }

  // ----- the trees that come out

  /** Trees the shell can hold: words where words belong, at most MAXARGS - 1 arguments. */
  ghost predicate Proper(c: Cmd) {
    match c
    case Exec(argv) => |argv| < MAXARGS && forall i | 0 <= i < |argv| :: argv[i].Word?
    case Redir(d, r) => Proper(d) && ProperRedir(r)
    case Pipe(l, r) => Proper(l) && Proper(r)
    case List(l, r) => Proper(l) && Proper(r)
    case Back(d) => Proper(d)
  }

  ghost predicate ProperRedir(r: Redirection) {
    r.op in "<>+" && r.file.Word?
  }

  ghost predicate ProperRedirs(rs: seq<Redirection>) {
    forall i | 0 <= i < |rs| :: ProperRedir(rs[i])
  }

  lemma {:induction false} WrapProper(c: Cmd, rs: seq<Redirection>)
    requires Proper(c) && ProperRedirs(rs)
    ensures Proper(Wrap(c, rs))
  {
    if rs != [] {
      WrapProper(c, rs[..|rs| - 1]);
    }
  }

  lemma {:induction false} RedirsProper(rs: seq<Redirection>, ts: seq<Token>)
    requires ProperRedirs(rs)
    ensures var r := ParseRedirs(rs, ts); r.Redirs? ==> ProperRedirs(r.rs)
    decreases |ts|
  {
    if Next(ts, "<>+") && |ts| >= 2 && ts[1].Word? {
      RedirsProper(rs + [Redirection(ts[0].c, ts[1])], ts[2..]);
    }
  }

  lemma {:induction false} ArgsProper(args: seq<Token>, rs: seq<Redirection>, ts: seq<Token>)
    requires Proper(Exec(args)) && ProperRedirs(rs)
    ensures var r := ParseArgs(args, rs, ts); r.Ok? ==> Proper(r.cmd)
    decreases |ts|
  {
    if ts == [] || Next(ts, "|)&;") {
      WrapProper(Exec(args), rs);
    } else if ts[0].Word? && |args| + 1 < MAXARGS {
      RedirsProper(rs, ts[1..]);
      var r := ParseRedirs(rs, ts[1..]);
      if r.Redirs? {
        ArgsProper(args + [ts[0]], r.rs, r.rest);
      }
    }
  }

  lemma {:induction false} ExecProper(ts: seq<Token>)
    ensures var r := ParseExec(ts); r.Ok? ==> Proper(r.cmd)
    decreases |ts|, 1
  {
    hide ParseLine, ParseRedirs, ParseArgs, Wrap;
    if Next(ts, "(") {
      LineProper(ts[1..]);
      var l := ParseLine(ts[1..]);
      if l.Ok? && Next(l.rest, ")") {
        RedirsProper([], l.rest[1..]);
        var rs := ParseRedirs([], l.rest[1..]);
        if rs.Redirs? {
          WrapProper(l.cmd, rs.rs);
        }
      }
    } else {
      RedirsProper([], ts);
      var rs := ParseRedirs([], ts);
      if rs.Redirs? {
        ArgsProper([], rs.rs, rs.rest);
      }
    }
  }

  lemma {:induction false} PipeProper(ts: seq<Token>)
    ensures var r := ParsePipe(ts); r.Ok? ==> Proper(r.cmd)
    decreases |ts|, 2
  {
    ExecProper(ts);
    var r := ParseExec(ts);
    if r.Ok? && Next(r.rest, "|") {
      PipeProper(r.rest[1..]);
    }
  }

  lemma {:induction false} BacksProper(c: Cmd, ts: seq<Token>)
    requires Proper(c)
    ensures Proper(ParseBacks(c, ts).cmd)
    decreases |ts|
  {
    if Next(ts, "&") {
      BacksProper(Back(c), ts[1..]);
    }
  }

  lemma {:induction false} LineProper(ts: seq<Token>)
    ensures var r := ParseLine(ts); r.Ok? ==> Proper(r.cmd)
    decreases |ts|, 3
  {
    PipeProper(ts);
    var r := ParsePipe(ts);
    if r.Ok? {
      BacksProper(r.cmd, r.rest);
      var b := ParseBacks(r.cmd, r.rest);
      if Next(b.rest, ";") {
        LineProper(b.rest[1..]);
      }
    }
  }
}
