/** The shell's tokens (gettoken in sh.c): what a line of characters is made of, as a relation, and the scanner
    as functions. */
module ShellTokens {

  import opened ShellGrammar

  predicate IsSpace(c: char) {
    c == ' ' || c == '\t' || c == '\r' || c == '\n' || c == '\U{000B}'
  }

  predicate IsSymbol(c: char) {
    c == '<' || c == '|' || c == '>' || c == '&' || c == ';' || c == '(' || c == ')'
  }

  predicate IsWord(c: char) {
    !IsSpace(c) && !IsSymbol(c)
  }

  // ----- what the tokens of a line are

  function Skip(t: seq<char>, i: nat): (r: nat)
    requires i <= |t|
    ensures i <= r <= |t| && (forall k | i <= k < r :: IsSpace(t[k])) && (r < |t| ==> !IsSpace(t[r]))
    decreases |t| - i
  {
    if i < |t| && IsSpace(t[i]) then Skip(t, i + 1) else i
  }

  function WordEnd(t: seq<char>, i: nat): (r: nat)
    requires i <= |t|
    ensures i <= r <= |t| && (forall k | i <= k < r :: IsWord(t[k])) && (r < |t| ==> !IsWord(t[r]))
    decreases |t| - i
  {
    if i < |t| && IsWord(t[i]) then WordEnd(t, i + 1) else i
  }

  /** A recorded word is a maximal run of word characters. */
  ghost predicate IsRun(t: seq<char>, w: Token) {
    && w.Word? && w.q < w.eq <= |t|
    && (forall k | w.q <= k < w.eq :: IsWord(t[k])) && (w.eq < |t| ==> !IsWord(t[w.eq]))
  }

  datatype Lexeme = Lexeme(tok: Token, next: nat)

  /** The token at s, which is no space, and where it ends. */
  function LexOne(t: seq<char>, s: nat): (r: Lexeme)
    requires s < |t| && !IsSpace(t[s])
    ensures s < r.next <= |t| && (r.tok.Word? ==> IsRun(t, r.tok) && r.tok == Word(s, r.next))
  {
    if t[s] == '>' && s + 1 < |t| && t[s + 1] == '>' then Lexeme(Sym('+'), s + 2)
    else if IsSymbol(t[s]) then Lexeme(Sym(t[s]), s + 1)
    else
      var e := WordEnd(t, s + 1);
      Lexeme(Word(s, e), e)
  }

  function Lex(t: seq<char>, i: nat): (ts: seq<Token>)
    requires i <= |t|
    decreases |t| - i
  {
    var s := Skip(t, i);
    if s == |t| then []
    else
      var l := LexOne(t, s);
      [l.tok] + Lex(t, l.next)
  }

  lemma {:induction false} SkipFrom(t: seq<char>, i: nat, j: nat)
    requires i <= j <= |t| && forall k | i <= k < j :: IsSpace(t[k])
    ensures Skip(t, i) == Skip(t, j) && Lex(t, i) == Lex(t, j)
    decreases j - i
  {
    hide IsSpace, LexOne;
    if i < j {
      SkipFrom(t, i + 1, j);
    }
  }

  lemma {:induction false} LexRuns(t: seq<char>, i: nat, w: Token)
    requires i <= |t| && w in WordsIn(Lex(t, i))
    ensures IsRun(t, w)
    decreases |t| - i
  {
    hide LexOne, IsRun, Skip, IsSpace;
    var s := Skip(t, i);
    if s < |t| {
      var l := LexOne(t, s);
      assert Lex(t, i)[1..] == Lex(t, l.next);
      if !l.tok.Word? || w != l.tok {
        LexRuns(t, l.next, w);
      }
    }
  }

  // ----- what a line is made of, without reference to how it is scanned

  /** A character of a word: neither white space nor a symbol. */
  ghost predicate Letter(c: char) {
    c !in " \t\r\n\U{000B}" && c !in "<|>&;()"
  }

  ghost predicate Blank(t: seq<char>, i: nat, j: nat) {
    i <= j <= |t| && forall k: nat | i <= k < j :: t[k] in " \t\r\n\U{000B}"
  }

  /** After white space from i on, the token is t[j..e]. Two '>' are one token, and a word is as long as can be. */
  ghost predicate TokenAt(t: seq<char>, i: nat, j: nat, e: nat, tok: Token) {
    && Blank(t, i, j) && j < e <= |t|
    && match tok
       case Word(q, eq) =>
         && q == j && eq == e && (forall k: nat | j <= k < e :: Letter(t[k])) && (e < |t| ==> !Letter(t[e]))
       case Sym(c) =>
         if c == '+' then t[j..e] == ">>"
         else c in "<|>&;()" && t[j..e] == [c] && !(c == '>' && e < |t| && t[e] == '>')
  }

  /** From i on, t is these tokens in order, with nothing but white space between them and at the end. */
  ghost predicate Spells(t: seq<char>, i: nat, ts: seq<Token>)
    decreases |ts|
  {
    if ts == [] then Blank(t, i, |t|)
    else exists j: nat, e: nat :: TokenAt(t, i, j, e, ts[0]) && Spells(t, e, ts[1..])
  }

  lemma LexOneIs(t: seq<char>, i: nat, s: nat)
    requires i <= s < |t| && !IsSpace(t[s]) && forall k | i <= k < s :: IsSpace(t[k])
    ensures TokenAt(t, i, s, LexOne(t, s).next, LexOne(t, s).tok)
  {
  }

  lemma TokenIs(t: seq<char>, i: nat, j: nat, e: nat, tok: Token)
    requires i <= |t| && TokenAt(t, i, j, e, tok)
    ensures Skip(t, i) == j && !IsSpace(t[j]) && LexOne(t, j) == Lexeme(tok, e)
  {
    assert t[j] == t[j..e][0];
    SkipIs(t, i, j);
    if tok.Sym? && tok.c == '+' {
      assert t[j + 1] == t[j..e][1];
    }
  }

  lemma SkipIs(t: seq<char>, i: nat, j: nat)
    requires i <= j < |t| && Blank(t, i, j) && !IsSpace(t[j])
    ensures Skip(t, i) == j
  {
  }

  /** The scanner finds exactly the tokens that the line is made of. */
  lemma {:induction false} LexIff(t: seq<char>, i: nat, ts: seq<Token>)
    requires i <= |t|
    ensures Lex(t, i) == ts <==> Spells(t, i, ts)
    decreases |t| - i
  {
    hide LexOne, IsSpace, Skip, TokenAt;
    var s := Skip(t, i);
    SkipBlank(t, i);
    if s == |t| {
      if ts != [] && Spells(t, i, ts) {
        var j: nat, e: nat :| TokenAt(t, i, j, e, ts[0]) && Spells(t, e, ts[1..]);
        TokenIs(t, i, j, e, ts[0]);
        assert false;
      }
    } else {
      var l := LexOne(t, s);
      LexOneIs(t, i, s);
      LexIff(t, l.next, if ts == [] then [] else ts[1..]);
      if ts != [] && Spells(t, i, ts) {
        var j: nat, e: nat :| TokenAt(t, i, j, e, ts[0]) && Spells(t, e, ts[1..]);
        TokenIs(t, i, j, e, ts[0]);
        assert ts == [ts[0]] + ts[1..];
      }
      if Lex(t, i) == ts {
        assert ts[0] == l.tok && ts[1..] == Lex(t, l.next);
        assert TokenAt(t, i, s, l.next, ts[0]) && Spells(t, l.next, ts[1..]);
      }
    }
  }

  lemma SkipBlank(t: seq<char>, i: nat)
    requires i <= |t|
    ensures Blank(t, i, Skip(t, i)) && (Skip(t, i) < |t| ==> !Blank(t, i, |t|))
  {
  }

  // ----- a line written out

  /** A symbol ('+' for ">>") or a word, as text. */
  datatype Piece = Symbol(c: char) | Text(w: string)

  ghost predicate Writable(p: Piece) {
    match p
    case Symbol(c) => c in "<|>&;()+"
    case Text(w) => w != [] && forall k: nat | k < |w| :: Letter(w[k])
  }

  ghost function Glyph(p: Piece): (g: string) {
    match p
    case Symbol(c) => if c == '+' then ">>" else [c]
    case Text(w) => w
  }

  /** The pieces with a space after each. */
  ghost function Written(ps: seq<Piece>): (t: string) {
    if ps == [] then [] else Glyph(ps[0]) + " " + Written(ps[1..])
  }

  /** Their tokens, when the line starts at position i. */
  ghost function TokensOf(ps: seq<Piece>, i: nat): (ts: seq<Token>) {
    if ps == [] then [] else [TokenOf(ps[0], i)] + TokensOf(ps[1..], i + |Glyph(ps[0])| + 1)
  }

  /** Whatever is written out, word by word and symbol by symbol, is read back as it was. */
  lemma LexWritten(ps: seq<Piece>)
    requires forall p | p in ps :: Writable(p)
    ensures Lex(Written(ps), 0) == TokensOf(ps, 0)
  {
    WrittenSpells([], ps);
    assert [] + Written(ps) == Written(ps);
    LexIff(Written(ps), 0, TokensOf(ps, 0));
  }

  ghost function TokenOf(p: Piece, i: nat): (tok: Token) {
    if p.Text? then Word(i, i + |Glyph(p)|) else Sym(p.c)
  }

  lemma PieceAt(t: string, i: nat, p: Piece)
    requires Writable(p) && i + |Glyph(p)| < |t| && t[i..i + |Glyph(p)|] == Glyph(p) && t[i + |Glyph(p)|] == ' '
    ensures TokenAt(t, i, i, i + |Glyph(p)|, TokenOf(p, i))
  {
    var g := Glyph(p);
    assert forall k: nat | i <= k < i + |g| :: t[k] == t[i..i + |g|][k - i];
  }

  /** The same after other text. */
  lemma {:induction false} WrittenSpells(a: string, ps: seq<Piece>)
    requires forall p | p in ps :: Writable(p)
    ensures Spells(a + Written(ps), |a|, TokensOf(ps, |a|))
    decreases |ps|
  {
    hide TokenAt, Writable, Glyph, Spells, TokenOf;
    if ps == [] {
      assert a + Written(ps) == a;
      SpellsNothing(a);
    } else {
      var g := Glyph(ps[0]);
      var b, e := a + g + " ", |a| + |g|;
      var t := b + Written(ps[1..]);
      WrittenSpells(b, ps[1..]);
      Between(a, g, Written(ps[1..]));
      PieceAt(t, |a|, ps[0]);
      SpellsLater(t, e, TokensOf(ps[1..], e + 1));
      var ts := TokensOf(ps, |a|);
      assert ts[0] == TokenOf(ps[0], |a|) && ts[1..] == TokensOf(ps[1..], e + 1);
      SpellsCons(t, |a|, |a|, e, ts);
    }
  }

  lemma Between(a: string, g: string, w: string)
    ensures var t, e := a + g + " " + w, |a| + |g|; a + (g + " " + w) == t && t[|a|..e] == g && t[e] == ' '
  {
  }

  lemma SpellsNothing(t: seq<char>)
    ensures Spells(t, |t|, [])
  {
  }

  lemma SpellsCons(t: seq<char>, i: nat, j: nat, e: nat, ts: seq<Token>)
    requires ts != [] && TokenAt(t, i, j, e, ts[0]) && Spells(t, e, ts[1..])
    ensures Spells(t, i, ts)
  {
    hide TokenAt;
  }

  /** A space before the rest. */
  lemma SpellsLater(t: seq<char>, e: nat, ts: seq<Token>)
    requires e < |t| && t[e] == ' ' && Spells(t, e + 1, ts)
    ensures Spells(t, e, ts)
  {
    if ts != [] {
      var j: nat, f: nat :| TokenAt(t, e + 1, j, f, ts[0]) && Spells(t, f, ts[1..]);
      assert TokenAt(t, e, j, f, ts[0]);
    }
  }
}
