/** The shell's scanner, parser and in-place string termination (sh.c) on the input buffer. */
module Shell {

  import opened ShellGrammar
  import opened ShellTokens
  import ShellSyntax

  // ----- C strings

  /** The C string that starts at q. */
  function StringAt(b: seq<char>, q: nat): (r: seq<char>)
    decreases |b| - q
  {
    if q >= |b| || b[q] == '\0' then [] else [b[q]] + StringAt(b, q + 1)
  }

  lemma {:induction false} StringIs(b: seq<char>, q: nat, e: nat)
    requires q <= e < |b| && b[e] == '\0' && forall k | q <= k < e :: b[k] != '\0'
    ensures StringAt(b, q) == b[q..e]
    decreases e - q
  {
    if q < e {
      StringIs(b, q + 1, e);
      assert b[q..e] == [b[q]] + b[q + 1..e];
    }
  }

  /** Where nulterminate writes. */
  function Ends(c: Cmd): (es: set<nat>) {
    match c
    case Exec(argv) => set w | w in argv && w.Word? :: w.eq
    case Redir(d, r) => Ends(d) + (if r.file.Word? then {r.file.eq} else {})
    case Pipe(l, r) => Ends(l) + Ends(r)
    case List(l, r) => Ends(l) + Ends(r)
    case Back(d) => Ends(d)
  }

  lemma {:induction false} EndsRecorded(c: Cmd, e: nat)
    requires e in Ends(c)
    ensures exists w :: w in Recorded(c) && w.Word? && w.eq == e
  {
    match c
    case Exec(argv) =>
      var w :| w in argv && w.Word? && w.eq == e;
      assert w in multiset(argv);
    case Redir(d, r) =>
      if e in Ends(d) { EndsRecorded(d, e); } else { assert r.file in Recorded(c); }
    case Pipe(l, r) => if e in Ends(l) { EndsRecorded(l, e); } else { EndsRecorded(r, e); }
    case List(l, r) => if e in Ends(l) { EndsRecorded(l, e); } else { EndsRecorded(r, e); }
    case Back(d) => EndsRecorded(d, e);
  }

  lemma {:induction false} RecordedEnds(c: Cmd, w: Token)
    requires w in Recorded(c) && w.Word?
    ensures w.eq in Ends(c)
  {
    match c
    case Exec(argv) => assert w in argv;
    case Redir(d, r) => if w in Recorded(d) { RecordedEnds(d, w); }
    case Pipe(l, r) => if w in Recorded(l) { RecordedEnds(l, w); } else { RecordedEnds(r, w); }
    case List(l, r) => if w in Recorded(l) { RecordedEnds(l, w); } else { RecordedEnds(r, w); }
    case Back(d) => RecordedEnds(d, w);
  }

  /** b after NULs have been written at the given places. */
  ghost predicate Cut(b: seq<char>, es: set<nat>, r: seq<char>) {
    |r| == |b| && forall k: nat | k < |b| :: r[k] == if k in es then '\0' else b[k]
  }

  ghost predicate Buffer(b: seq<char>, n: nat) {
    n < |b| && b[n] == '\0' && forall k | 0 <= k < n :: b[k] != '\0'
  }

  /** After termination every recorded word reads back whole: no terminator lands inside one. */
  lemma WordsSurvive(b: seq<char>, n: nat, c: Cmd, r: seq<char>, w: Token)
    requires Buffer(b, n) && Recorded(c) == WordsIn(Lex(b[..n], 0)) && Cut(b, Ends(c), r) && w in Recorded(c)
    ensures w.Word? && w.q < w.eq <= n && StringAt(r, w.q) == b[w.q..w.eq]
  {
    var t := b[..n];
    LexRuns(t, 0, w);
    RecordedEnds(c, w);
    forall k | w.q <= k < w.eq ensures k !in Ends(c) {
      if k in Ends(c) {
        EndsRecorded(c, k);
        var v :| v in Recorded(c) && v.Word? && v.eq == k;
        LexRuns(t, 0, v);
      }
    }
    StringIs(r, w.q, w.eq);
    assert r[w.q..w.eq] == b[w.q..w.eq];
  }

  lemma AllSurvive(b: seq<char>, n: nat, c: Cmd, r: seq<char>)
    requires Buffer(b, n) && Recorded(c) == WordsIn(Lex(b[..n], 0)) && Cut(b, Ends(c), r)
    ensures forall w | w in Recorded(c) :: w.Word? && w.q < w.eq <= n && StringAt(r, w.q) == b[..n][w.q..w.eq]
  {
    forall w | w in Recorded(c) ensures w.Word? && w.q < w.eq <= n && StringAt(r, w.q) == b[..n][w.q..w.eq] {
      WordsSurvive(b, n, c, r, w);
    }
  }

  /** The line is made of tokens that stand for the tree. */
  ghost predicate Stands(t: seq<char>, c: Cmd) {
    exists ts: seq<Token> :: Spells(t, 0, ts) && ShellSyntax.Line(c, ts)
  }

  lemma StandsIff(t: seq<char>)
    ensures forall c :: Stands(t, c) <==> Parse(Lex(t, 0)) == Ok(c, [])
  {
    hide Lex, Parse, ShellSyntax.Line, Spells;
    LexIff(t, 0, Lex(t, 0));
    forall c ensures Stands(t, c) <==> Parse(Lex(t, 0)) == Ok(c, []) {
      ShellSyntax.ParseIff(c, Lex(t, 0));
      if ts: seq<Token> :| Spells(t, 0, ts) && ShellSyntax.Line(c, ts) {
        LexIff(t, 0, ts);
      }
    }
  }

  datatype Parsed = Parsed(cmd: Cmd) | Panic(e: Error)

  /** A method's answer agrees with the grammar's. */
  ghost predicate Agrees(t: seq<char>, s: nat, p: Parsed, r: Result) {
    s <= |t| && match r
                case Ok(c, rest) => p == Parsed(c) && Lex(t, s) == rest
                case Err(e) => p == Panic(e)
  }

  /** The character gettoken returns for a token. */
  function Kind(tok: Token): (c: char) {
    if tok.Word? then 'a' else tok.c
  }

  /** The character peek looks at. */
  predicate Starts(ts: seq<Token>, toks: string) {
    ts != [] && ts[0].Sym? && (if ts[0].c == '+' then '>' else ts[0].c) in toks
  }

  lemma LexAt(t: seq<char>, i: nat)
    requires i <= |t|
    ensures var s := Skip(t, i);
            && Lex(t, i) == Lex(t, s)
            && (s == |t| ==> Lex(t, i) == [])
            && (s < |t| ==> Lex(t, i) == [LexOne(t, s).tok] + Lex(t, LexOne(t, s).next))
  {
    SkipFrom(t, i, Skip(t, i));
  }

  lemma NextFirst(ts: seq<Token>, syms: string)
    requires Next(ts, syms)
    ensures ts != [] && ts[0].Sym? && ts[0].c in syms
  {
  }

  /** Every terminator falls inside the buffer. */
  lemma EndsInside(b: seq<char>, n: nat, c: Cmd)
    requires Buffer(b, n) && Recorded(c) == WordsIn(Lex(b[..n], 0))
    ensures forall e | e in Ends(c) :: e <= n
  {
    forall e | e in Ends(c) ensures e <= n {
      EndsRecorded(c, e);
      var w :| w in Recorded(c) && w.Word? && w.eq == e;
      LexRuns(b[..n], 0, w);
    }
  }

  /** peek's test on characters is the grammar's test on tokens. */
  lemma StartsNext(ts: seq<Token>)
    ensures Starts(ts, "<>") == Next(ts, "<>+") && Starts(ts, "&") == Next(ts, "&") && Starts(ts, ";") == Next(ts, ";")
    ensures Starts(ts, "|") == Next(ts, "|") && Starts(ts, "(") == Next(ts, "(") && Starts(ts, ")") == Next(ts, ")")
    ensures Starts(ts, "|)&;") == Next(ts, "|)&;")
  {
  }

  class Line {
    const buf: array<char>
    const n: nat

    constructor (buf: array<char>, n: nat)
      ensures this.buf == buf && this.n == n
    {
      this.buf, this.n := buf, n;
    }

    ghost predicate Valid()
      reads buf
    {
      n < buf.Length && Buffer(buf[..], n)
    }

    ghost function Text(): (t: seq<char>)
      requires n < buf.Length
      reads buf
    {
      buf[..n]
    }

    method SkipSpace(s0: nat) returns (s: nat)
      requires Valid() && s0 <= n
      ensures s == Skip(Text(), s0)
    {
      s := s0;
      while s < n && IsSpace(buf[s])
        invariant s0 <= s <= n && Skip(Text(), s0) == Skip(Text(), s)
      {
        s := s + 1;
      }
    }

    method Peek(s0: nat, toks: string) returns (b: bool, s: nat)
      requires Valid() && s0 <= n && forall c | c in toks :: IsSymbol(c)
      ensures s0 <= s <= n && Lex(Text(), s) == Lex(Text(), s0) && b == Starts(Lex(Text(), s0), toks)
      ensures s == n <==> Lex(Text(), s0) == []
    {
      s := SkipSpace(s0);
      LexAt(Text(), s0);
      b := buf[s] != '\0' && buf[s] in toks;
    }

    method GetToken(s0: nat) returns (ret: char, s: nat, q: nat, eq: nat)
      requires Valid() && s0 <= n
      ensures s0 <= s <= n
      ensures Lex(Text(), s0) == [] ==> ret == '\0' && Lex(Text(), s) == []
      ensures Lex(Text(), s0) != [] ==>
                var tok := Lex(Text(), s0)[0];
                && s0 < s && Lex(Text(), s) == Lex(Text(), s0)[1..] && ret == Kind(tok) && ret != '\0'
                && (tok.Word? ==> tok == Word(q, eq)) && (ret == 'a' ==> tok.Word?)
      ensures if ret == '\0' then Blank(Text(), s0, n)
              else TokenAt(Text(), s0, q, eq, if ret == 'a' then Word(q, eq) else Sym(ret)) && Blank(Text(), eq, s)
    {
      hide Skip, LexOne, Lex, IsSpace, TokenAt, Blank;
      s := SkipSpace(s0);
      LexAt(Text(), s0);
      q := s;
      ret := buf[s];
      SkipBlank(Text(), s0);
      if s < n {
        LexOneIs(Text(), s0, s);
        ret, s := ScanToken(s);
      }
      eq := s;
      s := SkipSpace(s);
      LexAt(Text(), eq);
      SkipBlank(Text(), eq);
    }

    /** gettoken's switch. */
    method ScanToken(s0: nat) returns (ret: char, s: nat)
      requires Valid() && s0 < n && !IsSpace(Text()[s0])
      ensures s == LexOne(Text(), s0).next && ret == Kind(LexOne(Text(), s0).tok) && ret != '\0'
      ensures ret == 'a' ==> LexOne(Text(), s0).tok.Word?
    {
      s, ret := s0, buf[s0];
      if ret == '>' {
        s := s + 1;
        if buf[s] == '>' {
          ret := '+';
          s := s + 1;
        }
      } else if IsSymbol(ret) {
        s := s + 1;
      } else {
        ret := 'a';
        s := ScanWord(s + 1);
      }
    }

    method ScanWord(s0: nat) returns (s: nat)
      requires Valid() && s0 <= n
      ensures s == WordEnd(Text(), s0)
    {
      s := s0;
      while s < n && !IsSpace(buf[s]) && !IsSymbol(buf[s])
        invariant s0 <= s <= n && WordEnd(Text(), s0) == WordEnd(Text(), s)
      {
        s := s + 1;
      }
    }

    /** Peek in the grammar's terms. */
    method Sees(s0: nat, toks: string, ghost syms: string) returns (b: bool, s: nat)
      requires Valid() && s0 <= n && toks in ["<>", "&", ";", "|", "(", ")", "|)&;"] && syms == if toks == "<>" then
               "<>+" else toks
      ensures s0 <= s <= n && Lex(Text(), s) == Lex(Text(), s0) && b == Next(Lex(Text(), s0), syms)
    {
      StartsNext(Lex(Text(), s0));
      b, s := Peek(s0, toks);
    }

    /** A symbol that has been seen is consumed. */
    method Accept(s0: nat) returns (c: char, s: nat)
      requires Valid() && s0 <= n && Lex(Text(), s0) != [] && Lex(Text(), s0)[0].Sym?
      ensures s0 < s <= n && Lex(Text(), s) == Lex(Text(), s0)[1..] && c == Lex(Text(), s0)[0].c
    {
      var q, eq;
      c, s, q, eq := GetToken(s0);
    }

    method ParseRedirs(rs0: seq<Redirection>, s0: nat) returns (ok: bool, rs: seq<Redirection>, s: nat)
      requires Valid() && s0 <= n
      ensures s0 <= s <= n
      ensures var r := ShellGrammar.ParseRedirs(rs0, Lex(Text(), s0));
              ok == r.Redirs? && (ok ==> r == Redirs(rs, Lex(Text(), s)))
    {
      hide Lex, Buffer, Next;
      rs := rs0;
      var b;
      b, s := Sees(s0, "<>", "<>+");
      while b
        invariant s0 <= s <= n && b == Next(Lex(Text(), s), "<>+")
        invariant ShellGrammar.ParseRedirs(rs0, Lex(Text(), s0)) == ShellGrammar.ParseRedirs(rs, Lex(Text(), s))
        decreases n - s
      {
        ghost var ts := Lex(Text(), s);
        NextFirst(ts, "<>+");
        var tok, ret, q, eq;
        tok, s := Accept(s);
        ret, s, q, eq := GetToken(s);
        if ret != 'a' {
          return false, rs, s;
        }
        assert ts[1..][1..] == ts[2..];
        rs := rs + [Redirection(tok, Word(q, eq))];
        b, s := Sees(s, "<>", "<>+");
      }
      ok := true;
    }

    method ParseBlock(s0: nat) returns (p: Parsed, s: nat)
      requires Valid() && s0 <= n && Next(Lex(Text(), s0), "(")
      ensures s0 <= s <= n && Agrees(Text(), s, p, ShellGrammar.ParseBlock(Lex(Text(), s0)))
      decreases n - s0, 0
    {
      hide Lex, Buffer, Next, ShellGrammar.ParseLine, ShellGrammar.ParseRedirs;
      NextFirst(Lex(Text(), s0), "(");
      var c, b, ok, rs;
      c, s := Accept(s0);
      p, s := ParseLine(s);
      if p.Panic? {
        return;
      }
      b, s := Sees(s, ")", ")");
      if !b {
        p := Panic(MissingParen);
        return;
      }
      NextFirst(Lex(Text(), s), ")");
      c, s := Accept(s);
      ok, rs, s := ParseRedirs([], s);
      p := if ok then Parsed(Wrap(p.cmd, rs)) else Panic(MissingFile);
    }

    method ParseExec(s0: nat) returns (p: Parsed, s: nat)
      requires Valid() && s0 <= n
      ensures s0 <= s <= n && Agrees(Text(), s, p, ShellGrammar.ParseExec(Lex(Text(), s0)))
      decreases n - s0, 1
    {
      hide Lex, Buffer, Next, ShellGrammar.ParseBlock, ShellGrammar.ParseRedirs;
      var b, ok, rs;
      b, s := Sees(s0, "(", "(");
      if b {
        p, s := ParseBlock(s);
        return;
      }
      ok, rs, s := ParseRedirs([], s);
      if !ok {
        p := Panic(MissingFile);
        return;
      }
      p, s := ParseArgs(rs, s);
    }

    /** parseexec's loop. */
    method ParseArgs(rs0: seq<Redirection>, s0: nat) returns (p: Parsed, s: nat)
      requires Valid() && s0 <= n
      ensures s0 <= s <= n && Agrees(Text(), s, p, ShellGrammar.ParseArgs([], rs0, Lex(Text(), s0)))
    {
      hide Lex, Buffer, Next, ShellGrammar.ParseRedirs;
      var args: seq<Token>, rs, b := [], rs0, false;
      b, s := Sees(s0, "|)&;", "|)&;");
      while !b
        invariant s0 <= s <= n && b == Next(Lex(Text(), s), "|)&;")
        invariant ShellGrammar.ParseArgs([], rs0, Lex(Text(), s0)) == ShellGrammar.ParseArgs(args, rs, Lex(Text(), s))
        decreases n - s
      {
        var tok, s', q, eq, ok;
        tok, s', q, eq := GetToken(s);
        if tok == '\0' {
          break;
        }
        if tok != 'a' {
          return Panic(Syntax), s';
        }
        if |args| + 1 >= MAXARGS {
          return Panic(TooManyArgs), s';
        }
        ghost var was := rs;
        ok, rs, s' := ParseRedirs(rs, s');
        if !ok {
          return Panic(MissingFile), s';
        }
        args := args + [Word(q, eq)];
        b, s := Sees(s', "|)&;", "|)&;");
      }
      p := Parsed(Wrap(Exec(args), rs));
    }

    method ParsePipe(s0: nat) returns (p: Parsed, s: nat)
      requires Valid() && s0 <= n
      ensures s0 <= s <= n && Agrees(Text(), s, p, ShellGrammar.ParsePipe(Lex(Text(), s0)))
      decreases n - s0, 2
    {
      hide Lex, Buffer, Next, ShellGrammar.ParseExec;
      var b, c, r;
      p, s := ParseExec(s0);
      if p.Panic? {
        return;
      }
      b, s := Sees(s, "|", "|");
      if b {
        NextFirst(Lex(Text(), s), "|");
        c, s := Accept(s);
        r, s := ParsePipe(s);
        p := if r.Panic? then r else Parsed(Pipe(p.cmd, r.cmd));
      }
    }

    method ParseLine(s0: nat) returns (p: Parsed, s: nat)
      requires Valid() && s0 <= n
      ensures s0 <= s <= n && Agrees(Text(), s, p, ShellGrammar.ParseLine(Lex(Text(), s0)))
      decreases n - s0, 3
    {
      hide Lex, Buffer, Next, ShellGrammar.ParsePipe;
      var b, c, r, cmd;
      p, s := ParsePipe(s0);
      if p.Panic? {
        return;
      }
      cmd, s := ParseBacks(p.cmd, s);
      p := Parsed(cmd);
      b, s := Sees(s, ";", ";");
      if b {
        NextFirst(Lex(Text(), s), ";");
        c, s := Accept(s);
        r, s := ParseLine(s);
        p := if r.Panic? then r else Parsed(List(cmd, r.cmd));
      }
    }

    /** parseline's loop. */
    method ParseBacks(cmd0: Cmd, s0: nat) returns (cmd: Cmd, s: nat)
      requires Valid() && s0 <= n
      ensures s0 <= s <= n && Backed(cmd, Lex(Text(), s)) == ShellGrammar.ParseBacks(cmd0, Lex(Text(), s0))
    {
      hide Lex, Buffer, Next;
      var b, c;
      cmd := cmd0;
      b, s := Sees(s0, "&", "&");
      while b
        invariant s0 <= s <= n && b == Next(Lex(Text(), s), "&")
        invariant ShellGrammar.ParseBacks(cmd0, Lex(Text(), s0)) == ShellGrammar.ParseBacks(cmd, Lex(Text(), s))
        decreases n - s
      {
        NextFirst(Lex(Text(), s), "&");
        c, s := Accept(s);
        cmd := Back(cmd);
        b, s := Sees(s, "&", "&");
      }
    }

    method NulTerminate(cmd: Cmd)
      requires forall e | e in Ends(cmd) :: e < buf.Length
      requires Proper(cmd)
      modifies buf
      ensures Cut(old(buf[..]), Ends(cmd), buf[..])
      decreases cmd
    {
      match cmd
      case Exec(argv) =>
        var i := 0;
        while i < |argv|
          invariant i <= |argv| && Cut(old(buf[..]), Ends(Exec(argv[..i])), buf[..])
        {
          assert argv[i].eq in Ends(cmd);
          assert argv[..i + 1] == argv[..i] + [argv[i]];
          assert Ends(Exec(argv[..i + 1])) == Ends(Exec(argv[..i])) + {argv[i].eq};
          buf[argv[i].eq] := '\0';
          i := i + 1;
        }
        assert argv[..|argv|] == argv;
      case Redir(d, r) =>
        assert Ends(cmd) == Ends(d) + {r.file.eq};
        NulTerminate(d);
        buf[r.file.eq] := '\0';
      case Pipe(l, r) =>
        assert Ends(cmd) == Ends(l) + Ends(r);
        NulTerminate(l);
        NulTerminate(r);
      case List(l, r) =>
        assert Ends(cmd) == Ends(l) + Ends(r);
        NulTerminate(l);
        NulTerminate(r);
      case Back(d) =>
        assert Ends(cmd) == Ends(d);
        NulTerminate(d);
    }

    /** parsecmd: a tree exactly if the line is made of tokens that stand for it in the syntax, and in it every
        argument and file name reads, as a C string in the terminated buffer, as the word in the line. */
    method ParseCmd() returns (p: Parsed)
      requires Valid()
      modifies buf
      ensures match Parse(Lex(old(Text()), 0))
              case Err(e) => p == Panic(e) && buf[..] == old(buf[..])
              case Ok(c, rest) =>
                && p == Parsed(c) && Recorded(c) == WordsIn(Lex(old(Text()), 0))
                && forall w | w in Recorded(c) ::
                     w.Word? && w.q < w.eq <= n && StringAt(buf[..], w.q) == old(Text())[w.q..w.eq]
      ensures p.Parsed? ==> Stands(old(Text()), p.cmd)
      ensures p.Panic? ==> forall c :: !Stands(old(Text()), c)
    {
      var b, s;
      ghost var was := buf[..];
      StandsIff(Text());
      p, s := ParseLine(0);
      hide Lex, ShellGrammar.ParseLine, Stands;
      if p.Panic? {
        return;
      }
      b, s := Peek(s, "");
      if s != n {
        return Panic(Leftovers);
      }
      ParseRecords(Lex(Text(), 0));
      LineProper(Lex(Text(), 0));
      EndsInside(was, n, p.cmd);
      hide Buffer, Cut, Recorded, WordsIn, Ends;
      NulTerminate(p.cmd);
      AllSurvive(was, n, p.cmd, buf[..]);
    }
  }
}
