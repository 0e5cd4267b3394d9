/** What the shell's panics mean (sh.c): each is raised only on a line that has the fault it names. */
module ShellErrors {

  import opened ShellGrammar

  ghost predicate Redirects(tok: Token) {
    tok in [Sym('<'), Sym('>'), Sym('+')]
  }

  /** The fault that a panic names is in the line. */
  ghost predicate Faulty(e: Error, ts: seq<Token>) {
    match e
    case MissingFile => exists k: nat :: NoFileAt(ts, k)
    case MissingParen => Sym('(') in ts
    case Syntax => exists k: nat :: k < |ts| && ts[k].Sym? && !Redirects(ts[k]) && ts[k].c !in "|)&;"
    case TooManyArgs => |WordsIn(ts)| >= MAXARGS
    case Leftovers => Loose(ts)
  }

  /** Something can be left over: behind a closing parenthesis, or behind '&' without ';' between. */
  ghost predicate Loose(ts: seq<Token>) {
    Sym(')') in ts || exists k: nat :: BehindBack(ts, k)
  }

  ghost predicate BehindBack(ts: seq<Token>, k: nat) {
    k + 1 < |ts| && ts[k] == Sym('&') && ts[k + 1] !in [Sym('&'), Sym(';')]
  }

  lemma LooseMore(rest: seq<Token>, ts: seq<Token>)
    requires Suffix(rest, ts) && Loose(rest)
    ensures Loose(ts)
  {
    var n := |ts| - |rest|;
    assert forall k: nat | k < |rest| :: rest[k] == ts[n + k];
    if k: nat :| BehindBack(rest, k) {
      assert BehindBack(ts, n + k);
    }
  }

  /** A redirection with no file name behind it. */
  ghost predicate NoFileAt(ts: seq<Token>, k: nat) {
    k < |ts| && Redirects(ts[k]) && (k + 1 == |ts| || ts[k + 1].Sym?)
  }

  ghost predicate Suffix(rest: seq<Token>, ts: seq<Token>) {
    |rest| <= |ts| && rest == ts[|ts| - |rest|..]
  }

  lemma SuffixTrans(a: seq<Token>, b: seq<Token>, c: seq<Token>)
    requires Suffix(a, b) && Suffix(b, c)
    ensures Suffix(a, c)
  {
  }

  lemma SuffixRest(ts: seq<Token>, k: nat)
    requires k <= |ts|
    ensures Suffix(ts[k..], ts)
  {
  }

  lemma {:induction false} WordsGrow(ts: seq<Token>, k: nat)
    requires k <= |ts|
    ensures |WordsIn(ts[k..])| <= |WordsIn(ts)|
    decreases k
  {
    if k > 0 {
      WordsGrow(ts[1..], k - 1);
      assert ts[1..][k - 1..] == ts[k..];
    }
  }

  /** A fault of the rest is one of the line. */
  lemma FaultyMore(e: Error, rest: seq<Token>, ts: seq<Token>)
    requires Suffix(rest, ts) && Faulty(e, rest)
    ensures Faulty(e, ts)
  {
    var n := |ts| - |rest|;
    assert forall k: nat | k < |rest| :: rest[k] == ts[n + k];
    match e
    case MissingFile =>
      var k: nat :| NoFileAt(rest, k);
      assert NoFileAt(ts, n + k);
    case Syntax =>
      var k: nat :| k < |rest| && rest[k].Sym? && !Redirects(rest[k]) && rest[k].c !in "|)&;";
      assert ts[n + k] == rest[k];
    case TooManyArgs => WordsGrow(ts, n);
    case Leftovers => LooseMore(rest, ts);
    case MissingParen =>
  }

  lemma {:induction false} RedirsFault(rs: seq<Redirection>, ts: seq<Token>)
    ensures match ParseRedirs(rs, ts)
            case NoFile => Faulty(MissingFile, ts)
            case Redirs(_, rest) => Suffix(rest, ts) && !Next(rest, "<>+")
    decreases |ts|
  {
    if Next(ts, "<>+") {
      if |ts| < 2 || !ts[1].Word? {
        assert NoFileAt(ts, 0);
      } else {
        RedirsFault(rs + [Redirection(ts[0].c, ts[1])], ts[2..]);
        SuffixRest(ts, 2);
        var r := ParseRedirs(rs, ts);
        if r.NoFile? {
          FaultyMore(MissingFile, ts[2..], ts);
        } else {
          SuffixTrans(r.rest, ts[2..], ts);
        }
      }
    }
  }

  /** What the loop's answer tells after n arguments, which stand before ts in the line. */
  ghost predicate ArgsTold(n: nat, r: Result, ts: seq<Token>) {
    match r
    case Err(TooManyArgs) => n + |WordsIn(ts)| >= MAXARGS
    case Err(e) => (e == Syntax || e == MissingFile) && Faulty(e, ts)
    case Ok(_, rest) => Suffix(rest, ts) && (rest == [] || Next(rest, "|)&;"))
  }

  lemma {:induction false} ArgsFault(args: seq<Token>, rs: seq<Redirection>, ts: seq<Token>)
    requires !Next(ts, "<>+")
    ensures ArgsTold(|args|, ParseArgs(args, rs, ts), ts)
    decreases |ts|
  {
    hide Faulty, Suffix, WordsIn, ParseRedirs;
    if ts == [] || Next(ts, "|)&;") {
      SuffixRest(ts, 0);
      assert ts[0..] == ts;
    } else if !ts[0].Word? {
      StrayFault(ts);
    } else if |args| + 1 >= MAXARGS {
      WordFirst(ts);
    } else {
      hide ArgsTold;
      RedirsFault(rs, ts[1..]);
      SuffixRest(ts, 1);
      match ParseRedirs(rs, ts[1..])
      case NoFile =>
        FaultyMore(MissingFile, ts[1..], ts);
        FileTold(|args|, ts);
      case Redirs(rs', ts') =>
        ArgsFault(args + [ts[0]], rs', ts');
        ArgsMore(|args|, ParseArgs(args + [ts[0]], rs', ts'), ts', ts);
    }
  }

  lemma FileTold(n: nat, ts: seq<Token>)
    requires Faulty(MissingFile, ts)
    ensures ArgsTold(n, Err(MissingFile), ts)
  {
  }

  lemma WordFirst(ts: seq<Token>)
    requires ts != [] && ts[0].Word?
    ensures |WordsIn(ts)| == 1 + |WordsIn(ts[1..])|
  {
  }

  lemma ArgsMore(n: nat, r: Result, rest: seq<Token>, ts: seq<Token>)
    requires ts != [] && ts[0].Word? && Suffix(rest, ts[1..]) && ArgsTold(n + 1, r, rest)
    ensures ArgsTold(n, r, ts)
  {
    hide Faulty, WordsIn;
    SuffixRest(ts, 1);
    SuffixTrans(rest, ts[1..], ts);
    if r.Ok? {
      SuffixTrans(r.rest, rest, ts);
    } else if r.e != TooManyArgs {
      FaultyMore(r.e, rest, ts);
    } else {
      WordFirst(ts);
      WordsGrow(ts[1..], |ts[1..]| - |rest|);
    }
  }

  lemma StrayFault(ts: seq<Token>)
    requires ts != [] && ts[0].Sym? && !Next(ts, "<>+") && !Next(ts, "|)&;")
    ensures Faulty(Syntax, ts)
  {
    assert !Redirects(ts[0]);
  }

  /** What an answer tells of the line: a fault, or where the rest of it starts. */
  ghost predicate Told(r: Result, ts: seq<Token>, stops: string) {
    match r
    case Err(e) => e != Leftovers && Faulty(e, ts)
    case Ok(_, rest) => Suffix(rest, ts) && (rest == [] || Next(rest, stops) || Loose(ts))
  }

  lemma ToldMore(r: Result, rest: seq<Token>, ts: seq<Token>, stops: string)
    requires Told(r, rest, stops) && Suffix(rest, ts)
    ensures Told(r, ts, stops)
  {
    if r.Err? {
      FaultyMore(r.e, rest, ts);
    } else {
      SuffixTrans(r.rest, rest, ts);
      if Loose(rest) {
        LooseMore(rest, ts);
      }
    }
  }

  lemma {:induction false} BlockFault(ts: seq<Token>)
    requires Next(ts, "(")
    ensures Told(ParseBlock(ts), ts, "|)&;")
    decreases |ts|, 0
  {
    hide Faulty;
    LineFault(ts[1..]);
    SuffixRest(ts, 1);
    var r := ParseLine(ts[1..]);
    if r.Err? {
      FaultyMore(r.e, ts[1..], ts);
    } else {
      SuffixTrans(r.rest, ts[1..], ts);
      if !Next(r.rest, ")") {
        Opened(ts);
      } else {
        assert r.rest[0] in r.rest && r.rest[0] == Sym(')');
        assert Loose(ts);
        RedirsFault([], r.rest[1..]);
        SuffixRest(r.rest, 1);
        SuffixTrans(r.rest[1..], r.rest, ts);
        match ParseRedirs([], r.rest[1..])
        case NoFile => FaultyMore(MissingFile, r.rest[1..], ts);
        case Redirs(_, rest) => SuffixTrans(rest, r.rest[1..], ts);
      }
    }
  }

  lemma Opened(ts: seq<Token>)
    requires Next(ts, "(")
    ensures Faulty(MissingParen, ts)
  {
    assert ts[0] == Sym('(');
  }

  lemma ArgsAlone(r: Result, ts: seq<Token>)
    requires ArgsTold(0, r, ts)
    ensures Told(r, ts, "|)&;")
  {
    hide Suffix, Next, WordsIn;
  }

  lemma {:induction false} ExecFault(ts: seq<Token>)
    ensures Told(ParseExec(ts), ts, "|)&;")
    decreases |ts|, 1
  {
    hide Faulty, Suffix, ParseRedirs, ParseArgs, ParseBlock, ArgsTold;
    if Next(ts, "(") {
      BlockFault(ts);
    } else {
      RedirsFault([], ts);
      match ParseRedirs([], ts)
      case NoFile =>
      case Redirs(rs, rest) =>
        ArgsFault([], rs, rest);
        ArgsAlone(ParseArgs([], rs, rest), rest);
        ToldMore(ParseArgs([], rs, rest), rest, ts, "|)&;");
    }
  }

  lemma {:induction false} PipeFault(ts: seq<Token>)
    ensures Told(ParsePipe(ts), ts, ")&;")
    decreases |ts|, 2
  {
    hide Faulty;
    ExecFault(ts);
    var r := ParseExec(ts);
    if r.Ok? && Next(r.rest, "|") {
      PipeFault(r.rest[1..]);
      SuffixRest(r.rest, 1);
      SuffixTrans(r.rest[1..], r.rest, ts);
      var p := ParsePipe(r.rest[1..]);
      ToldMore(p, r.rest[1..], ts, ")&;");
    }
  }

  lemma {:induction false} BacksRest(c: Cmd, ts: seq<Token>)
    ensures var rest := ParseBacks(c, ts).rest;
            && Suffix(rest, ts) && !Next(rest, "&")
            && (rest == ts || rest == [] || Next(rest, ";") || Loose(ts))
    decreases |ts|
  {
    hide Suffix, Loose;
    SuffixRest(ts, 0);
    assert ts[0..] == ts;
    if Next(ts, "&") {
      BacksRest(Back(c), ts[1..]);
      SuffixRest(ts, 1);
      var rest := ParseBacks(c, ts).rest;
      SuffixTrans(rest, ts[1..], ts);
      if Loose(ts[1..]) {
        LooseMore(ts[1..], ts);
      } else if rest != [] && !Next(rest, ";") {
        BackLoose(ts);
      }
    }
  }

  lemma BackLoose(ts: seq<Token>)
    requires Next(ts, "&") && |ts| > 1 && !Next(ts[1..], "&") && !Next(ts[1..], ";")
    ensures Loose(ts)
  {
    assert ts[1..][0] == ts[1];
    assert BehindBack(ts, 0);
  }

  lemma {:induction false} LineFault(ts: seq<Token>)
    ensures Told(ParseLine(ts), ts, ")")
    decreases |ts|, 3
  {
    hide Faulty, Loose, Suffix;
    PipeFault(ts);
    var r := ParsePipe(ts);
    if r.Ok? {
      BacksRest(r.cmd, r.rest);
      var b := ParseBacks(r.cmd, r.rest);
      SuffixTrans(b.rest, r.rest, ts);
      if Loose(r.rest) {
        LooseMore(r.rest, ts);
      }
      if Next(b.rest, ";") {
        SuffixRest(b.rest, 1);
        SuffixTrans(b.rest[1..], b.rest, ts);
        LineFault(b.rest[1..]);
        ToldMore(ParseLine(b.rest[1..]), b.rest[1..], ts, ")");
      }
    }
  }

  /** A panic names a fault that the line has. */
  lemma ErrorMeans(ts: seq<Token>)
    ensures var r := Parse(ts); r.Err? ==> Faulty(r.e, ts)
  {
    LineFault(ts);
    var r := ParseLine(ts);
    if r.Ok? && r.rest != [] && Next(r.rest, ")") {
      assert r.rest[0] == Sym(')') && r.rest[0] in r.rest;
    }
  }
}
