/** The regular-expression matcher of grep.c against the language of its patterns. Strings are
    the characters before the terminating NUL. */
module Grep {

  /** One pattern element: a character (or '.'), possibly starred. */
  datatype Item = One(c: char) | Star(c: char)

  /** The elements of a pattern; a final '$' is the end anchor, not an element. */
  function Items(re: string): (items: seq<Item>)
    decreases |re|
  {
    if re == "" || re == "$" then []
    else if |re| > 1 && re[1] == '*' then [Star(re[0])] + Items(re[2..])
    else [One(re[0])] + Items(re[1..])
  }

  /** Does the pattern end in the anchor? */
  function Anchored(re: string): (b: bool)
    decreases |re|
  {
    if re == "" then false
    else if re == "$" then true
    else if |re| > 1 && re[1] == '*' then Anchored(re[2..])
    else Anchored(re[1..])
  }

  predicate Fits(c: char, x: char) {
    c == '.' || c == x
  }

  ghost predicate AllFit(c: char, s: string) {
    forall i | 0 <= i < |s| :: Fits(c, s[i])
  }

  /** s is a word of the language of the items. */
  ghost predicate Word(items: seq<Item>, s: string)
    decreases |items|
  {
    if items == [] then s == ""
    else if items[0].One? then s != "" && Fits(items[0].c, s[0]) && Word(items[1..], s[1..])
    else exists j: nat :: j <= |s| && AllFit(items[0].c, s[..j]) && Word(items[1..], s[j..])
  }

  ghost predicate PrefixWord(items: seq<Item>, anchored: bool, text: string, k: nat) {
    k <= |text| && Word(items, text[..k]) && (anchored ==> k == |text|)
  }

  /** Some prefix of the text, the whole of it if the pattern is anchored, is a word of the pattern. */
  ghost predicate Found(re: string, text: string) {
    exists k: nat :: PrefixWord(Items(re), Anchored(re), text, k)
  }

  /** c occurs j times in a row and the rest of the pattern is found after that. */
  ghost predicate FoundAfter(c: char, re: string, text: string, j: nat) {
    j <= |text| && AllFit(c, text[..j]) && Found(re, text[j..])
  }

  lemma FoundOne(re: string, text: string)
    requires re != "" && re != "$" && !(|re| > 1 && re[1] == '*')
    ensures Found(re, text) <==> text != "" && Fits(re[0], text[0]) && Found(re[1..], text[1..])
  {
    var items, rest, a := Items(re), Items(re[1..]), Anchored(re);
    assert items[0] == One(re[0]) && items[1..] == rest && a == Anchored(re[1..]);
    if Found(re, text) {
      var k: nat :| PrefixWord(items, a, text, k);
      assert text[..k][1..] == text[1..][..k - 1];
      assert PrefixWord(rest, a, text[1..], k - 1);
    }
    if text != "" && Fits(re[0], text[0]) && Found(re[1..], text[1..]) {
      var k: nat :| PrefixWord(rest, a, text[1..], k);
      assert text[..k + 1][1..] == text[1..][..k];
      assert PrefixWord(items, a, text, k + 1);
    }
  }

  lemma FoundStar(re: string, text: string)
    requires |re| > 1 && re[1] == '*'
    ensures Found(re, text) <==> exists j: nat :: FoundAfter(re[0], re[2..], text, j)
  {
    var items, rest, a := Items(re), Items(re[2..]), Anchored(re);
    assert items[0] == Star(re[0]) && items[1..] == rest && a == Anchored(re[2..]);
    if Found(re, text) {
      var k: nat :| PrefixWord(items, a, text, k);
      var s := text[..k];
      var j: nat :| j <= |s| && AllFit(re[0], s[..j]) && Word(rest, s[j..]);
      assert s[..j] == text[..j] && s[j..] == text[j..][..k - j];
      assert PrefixWord(rest, a, text[j..], k - j);
      assert FoundAfter(re[0], re[2..], text, j);
    }
    if exists j: nat :: FoundAfter(re[0], re[2..], text, j) {
      var j: nat :| FoundAfter(re[0], re[2..], text, j);
      var k: nat :| PrefixWord(rest, a, text[j..], k);
      var s := text[..j + k];
      assert s[..j] == text[..j] && s[j..] == text[j..][..k];
      assert PrefixWord(items, a, text, j + k);
    }
  }

  lemma FoundEnd(text: string)
    ensures Found("", text) && (Found("$", text) <==> text == "")
  {
    assert text[..0] == "";
    assert PrefixWord(Items(""), Anchored(""), text, 0);
    if text == "" {
      assert PrefixWord(Items("$"), Anchored("$"), text, 0);
    }
  }

  // ----- what simple patterns mean

  /** A character that stands for itself wherever it is in a pattern. */
  ghost predicate Plain(c: char) {
    c != '.' && c != '*' && c != '$'
  }

  /** A pattern of plain characters starts exactly the texts that start with it. */
  lemma {:induction false} PlainFound(re: string, text: string)
    requires forall i | 0 <= i < |re| :: Plain(re[i])
    ensures Found(re, text) <==> re <= text
    decreases |re|
  {
    if re == "" {
      FoundEnd(text);
    } else {
      assert Plain(re[0]) && (|re| > 1 ==> Plain(re[1]));
      FoundOne(re, text);
      if text != "" {
        PlainFound(re[1..], text[1..]);
        assert re <= text <==> re[0] == text[0] && re[1..] <= text[1..];
      }
    }
  }

  /** With '$' after it, it is the whole text. */
  lemma {:induction false} PlainAnchored(re: string, text: string)
    requires forall i | 0 <= i < |re| :: Plain(re[i])
    ensures Found(re + "$", text) <==> text == re
    decreases |re|
  {
    var p := re + "$";
    if re == "" {
      assert p == "$";
      FoundEnd(text);
    } else {
      assert p[0] == re[0] && p[1..] == re[1..] + "$" && |p| > 1 && p != "$";
      assert p[1] != '*' by {
        assert |re| > 1 ==> p[1] == re[1];
      }
      FoundOne(p, text);
      if text != "" {
        PlainAnchored(re[1..], text[1..]);
        assert text == re <==> text[0] == re[0] && text[1..] == re[1..];
      }
    }
  }

  /** n dots start exactly the texts of at least n characters. */
  lemma {:induction false} DotsFound(n: nat, text: string)
    ensures Found(seq(n, _ => '.'), text) <==> |text| >= n
  {
    var re: string := seq(n, _ => '.');
    if n == 0 {
      assert re == "";
      FoundEnd(text);
    } else {
      assert re[0] == '.' && re[1..] == seq(n - 1, _ => '.') && (|re| > 1 ==> re[1] == '.');
      FoundOne(re, text);
      if text != "" {
        DotsFound(n - 1, text[1..]);
      }
    }
  }

  /** c*d, with c and d plain: some c, perhaps none, and then d. */
  lemma PlainStar(c: char, d: char, text: string)
    requires Plain(c) && Plain(d)
    ensures Found([c, '*', d], text) <==>
              exists j: nat :: j < |text| && text[j] == d && forall i: nat | i < j :: text[i] == c
  {
    var re := [c, '*', d];
    FoundStar(re, text);
    assert re[2..] == [d];
    forall j: nat ensures FoundAfter(c, [d], text, j) <==>
        j < |text| && text[j] == d && forall i: nat | i < j :: text[i] == c
    {
      if j <= |text| {
        PlainFound([d], text[j..]);
        assert [d] <= text[j..] <==> j < |text| && text[j..][0] == d;
        assert forall i: nat | i < j :: text[..j][i] == text[i];
      }
    }
  }

  // ----- the matcher

  /** matchhere: does a word of the pattern start the text? */
  method MatchHere(re: string, text: string) returns (b: bool)
    ensures b <==> Found(re, text)
    decreases |re|, 0
  {
    if re == "" {
      FoundEnd(text);
      return true;
    }
    if |re| > 1 && re[1] == '*' {
      FoundStar(re, text);
      b := MatchStar(re[0], re[2..], text);
      return;
    }
    if re == "$" {
      FoundEnd(text);
      return text == "";
    }
    FoundOne(re, text);
    if text != "" && (re[0] == '.' || re[0] == text[0]) {
      b := MatchHere(re[1..], text[1..]);
      return;
    }
    return false;
  }

  lemma StarStops(c: char, text: string, i: nat, j: nat)
    requires i < j <= |text| && !Fits(c, text[i])
    ensures !AllFit(c, text[..j])
  {
    assert text[..j][i] == text[i];
  }

  /** matchstar: c any number of times, then the pattern. */
  method MatchStar(c: char, re: string, text: string) returns (b: bool)
    ensures b <==> exists j: nat :: FoundAfter(c, re, text, j)
    decreases |re|, 1
  {
    var i := 0;
    while true
      invariant i <= |text| && AllFit(c, text[..i])
      invariant forall j: nat | j < i :: !FoundAfter(c, re, text, j)
      decreases |text| - i
    {
      b := MatchHere(re, text[i..]);
      if b {
        assert FoundAfter(c, re, text, i);
        return;
      }
      if !(i < |text| && (text[i] == c || c == '.')) {
        forall j: nat | i < j ensures !FoundAfter(c, re, text, j) {
          if j <= |text| {
            StarStops(c, text, i, j);
          }
        }
        return false;
      }
      i := i + 1;
    }
  }

  /** match: the pattern anywhere in the text, or at its start after '^'. */
  method Match(re: string, text: string) returns (b: bool)
    ensures re != "" && re[0] == '^' ==> (b <==> Found(re[1..], text))
    ensures !(re != "" && re[0] == '^') ==> (b <==> exists i: nat :: i <= |text| && Found(re, text[i..]))
  {
    if re != "" && re[0] == '^' {
      b := MatchHere(re[1..], text);
      return;
    }
    var i := 0;
    while true
      invariant i <= |text| && forall j: nat | j < i :: !Found(re, text[j..])
      decreases |text| - i
    {
      b := MatchHere(re, text[i..]);
      if b {
        return;
      }
      if i == |text| {
        return;
      }
      i := i + 1;
    }
  }
}
