/** Substring search and replacement, as the standard string methods do them. */
module Text {
  import opened Protocol

  predicate OccursAt(s: string, i: nat, pat: string) {
    i + |pat| <= |s| && s[i..i + |pat|] == pat
  }

  /** The first occurrence of a pattern. */
  function Find(s: string, pat: string): (r: Option<nat>)
    ensures r.Some? ==> r.value + |pat| <= |s|
  {
    if |s| < |pat| then None
    else if s[..|pat|] == pat then Some(0)
    else
      assert s != "";
      match Find(s[1..], pat)
      case None => None
      case Some(i) => Some(i + 1)
  }

  lemma {:induction false} FindIsFirst(s: string, pat: string)
    ensures Find(s, pat).None? ==> forall i: nat :: !OccursAt(s, i, pat)
    ensures Find(s, pat).Some? ==> OccursAt(s, Find(s, pat).value, pat)
    ensures Find(s, pat).Some? ==> forall i: nat :: i < Find(s, pat).value ==> !OccursAt(s, i, pat)
  {
    if |s| >= |pat| && s[..|pat|] != pat {
      OccursInTail(s, pat);
      FindIsFirst(s[1..], pat);
    }
  }

  lemma OccursInTail(s: string, pat: string)
    requires |s| >= |pat| && s[..|pat|] != pat
    ensures s != "" && forall i: nat :: OccursAt(s, i, pat) ==> i > 0 && OccursAt(s[1..], i - 1, pat)
    ensures forall i: nat :: OccursAt(s[1..], i, pat) ==> OccursAt(s, i + 1, pat)
  {
    forall i: nat | OccursAt(s, i, pat) ensures i > 0 && OccursAt(s[1..], i - 1, pat) {
      assert i > 0;
      assert s[1..][i - 1..i - 1 + |pat|] == s[i..i + |pat|];
    }
    forall i: nat | OccursAt(s[1..], i, pat) ensures OccursAt(s, i + 1, pat) {
      assert s[1..][i..i + |pat|] == s[i + 1..i + 1 + |pat|];
    }
  }

  /** Every non-overlapping occurrence of a pattern, left to right, replaced. */
  function Replace(s: string, pat: string, to: string): string
    requires pat != ""
    decreases |s|
  {
    if |s| < |pat| then s
    else if s[..|pat|] == pat then to + Replace(s[|pat|..], pat, to)
    else [s[0]] + Replace(s[1..], pat, to)
  }

  /** The text at position `i` already differs from the pattern, whatever follows the text. */
  predicate DiffersAt(s: string, i: nat, pat: string) {
    exists k: nat :: k < |pat| && i + k < |s| && s[i + k] != pat[k]
  }

  /** No occurrence of the pattern can start in this text, whatever follows it. */
  predicate Skips(s: string, pat: string) {
    forall i: nat :: i < |s| ==> DiffersAt(s, i, pat)
  }

  lemma SkipsTail(s: string, pat: string)
    requires Skips(s, pat) && s != ""
    ensures Skips(s[1..], pat)
  {
    forall i: nat | i < |s| - 1 ensures DiffersAt(s[1..], i, pat) {
      assert DiffersAt(s, i + 1, pat);
      var k: nat :| k < |pat| && i + 1 + k < |s| && s[i + 1 + k] != pat[k];
      assert s[1..][i + k] != pat[k];
    }
  }

  lemma SkipsConcat(a: string, b: string, pat: string)
    requires Skips(a, pat) && Skips(b, pat)
    ensures Skips(a + b, pat)
  {
    forall i: nat | i < |a + b| ensures DiffersAt(a + b, i, pat) {
      if i < |a| {
        assert DiffersAt(a, i, pat);
        var k: nat :| k < |pat| && i + k < |a| && a[i + k] != pat[k];
        assert (a + b)[i + k] != pat[k];
      } else {
        assert DiffersAt(b, i - |a|, pat);
        var k: nat :| k < |pat| && i - |a| + k < |b| && b[i - |a| + k] != pat[k];
        assert (a + b)[i + k] != pat[k];
      }
    }
  }

  /** Skipped text is skipped by the search. */
  lemma {:induction false} FindSkips(a: string, rest: string, pat: string)
    requires Skips(a, pat) && pat != ""
    ensures Find(a + rest, pat) == match Find(rest, pat) case None => None case Some(i) => Some(|a| + i)
  {
    if a == "" {
      assert a + rest == rest;
    } else {
      assert DiffersAt(a, 0, pat);
      var k: nat :| k < |pat| && k < |a| && a[k] != pat[k];
      assert (a + rest)[k] != pat[k];
      assert (a + rest)[1..] == a[1..] + rest;
      SkipsTail(a, pat);
      FindSkips(a[1..], rest, pat);
    }
  }

  /** Text up to the pattern is skipped, and the pattern is there. */
  lemma FindHere(s: string, a: string, pat: string, rest: string)
    requires Skips(a, pat) && pat != "" && s == a + pat + rest
    ensures Find(s, pat) == Some(|a|)
    ensures s[..|a|] == a && s[|a|..] == pat + rest && s[|a| + |pat|..] == rest
  {
    var tail := pat + rest;
    FindAtOnce(pat, rest);
    assert s == a + tail;
    FindSkips(a, tail, pat);
  }

  lemma FindAtOnce(pat: string, rest: string)
    ensures Find(pat + rest, pat) == Some(0)
  {
    assert (pat + rest)[..|pat|] == pat;
  }

  /** Skipped text is kept by replacement. */
  lemma {:induction false} ReplaceSkips(a: string, rest: string, pat: string, to: string)
    requires Skips(a, pat) && pat != ""
    ensures Replace(a + rest, pat, to) == a + Replace(rest, pat, to)
  {
    if a == "" {
      assert a + rest == rest;
    } else {
      var more, done := a[1..] + rest, Replace(rest, pat, to);
      SkipsTail(a, pat);
      ReplaceSkips(a[1..], rest, pat, to);
      ReplaceKeeps(a, rest, pat, to);
      assert [a[0]] + (a[1..] + done) == a + done;
    }
  }

  lemma ReplaceKeeps(a: string, rest: string, pat: string, to: string)
    requires pat != "" && a != "" && DiffersAt(a, 0, pat)
    ensures Replace(a + rest, pat, to) == [a[0]] + Replace(a[1..] + rest, pat, to)
  {
    var s := a + rest;
    var k: nat :| k < |pat| && 0 + k < |a| && a[0 + k] != pat[k];
    assert s[k] != pat[k] && s[0] == a[0];
    assert s[1..] == a[1..] + rest;
  }

  lemma ReplaceHere(pat: string, rest: string, to: string)
    requires pat != ""
    ensures Replace(pat + rest, pat, to) == to + Replace(rest, pat, to)
  {
    assert (pat + rest)[..|pat|] == pat && (pat + rest)[|pat|..] == rest;
  }

  function Concat(lines: seq<string>): string {
    if lines == [] then "" else lines[0] + Concat(lines[1..])
  }

  lemma {:induction false} ConcatAppend(a: seq<string>, b: seq<string>)
    ensures Concat(a + b) == Concat(a) + Concat(b)
  {
    if a == [] {
      assert a + b == b;
    } else {
      assert (a + b)[1..] == a[1..] + b;
      ConcatAppend(a[1..], b);
    }
  }

  lemma {:induction false} ConcatSkips(lines: seq<string>, pat: string)
    requires forall l <- lines :: Skips(l, pat)
    ensures Skips(Concat(lines), pat)
  {
    if lines != [] {
      ConcatSkips(lines[1..], pat);
      SkipsConcat(lines[0], Concat(lines[1..]), pat);
    }
  }

  /** Unicode white space. */
  predicate IsWhiteSpace(c: char) {
    var n := c as int;
    9 <= n <= 13 || n == 0x20 || n == 0x85 || n == 0xA0 || n == 0x1680 || 0x2000 <= n <= 0x200A ||
    n == 0x2028 || n == 0x2029 || n == 0x202F || n == 0x205F || n == 0x3000
  }

  /** The 25 characters with that property. */
  lemma WhiteSpaceCharacters(c: char)
    ensures IsWhiteSpace(c) <==> c as int in {
      0x0009, 0x000A, 0x000B, 0x000C, 0x000D, 0x0020, 0x0085, 0x00A0, 0x1680, 0x2000, 0x2001, 0x2002, 0x2003,
      0x2004, 0x2005, 0x2006, 0x2007, 0x2008, 0x2009, 0x200A, 0x2028, 0x2029, 0x202F, 0x205F, 0x3000 }
  {
  }

  predicate IsBlank(s: string) {
    forall c <- s :: IsWhiteSpace(c)
  }

  /** The first run of characters that are not white space. */
  function FirstToken(s: string): string {
    if s == "" then ""
    else if IsWhiteSpace(s[0]) then FirstToken(s[1..])
    else TakeWord(s)
  }

  function TakeWord(s: string): string {
    if s == "" || IsWhiteSpace(s[0]) then "" else [s[0]] + TakeWord(s[1..])
  }

  predicate IsWord(s: string) {
    forall c <- s :: !IsWhiteSpace(c)
  }

  lemma {:induction false} FirstTokenHere(lead: string, word: string, rest: string)
    requires IsBlank(lead) && IsWord(word) && word != "" && (rest == "" || IsWhiteSpace(rest[0]))
    ensures FirstToken(lead + word + rest) == word
  {
    var s := lead + word + rest;
    if lead == "" {
      assert s == word + rest;
      assert word[0] in word && s[0] == word[0];
      TakeWordHere(word, rest);
    } else {
      assert lead[0] in lead && s[0] == lead[0];
      assert s[1..] == lead[1..] + word + rest;
      assert forall c <- lead[1..] :: c in lead;
      FirstTokenHere(lead[1..], word, rest);
    }
  }

  lemma {:induction false} TakeWordHere(word: string, rest: string)
    requires IsWord(word) && (rest == "" || IsWhiteSpace(rest[0]))
    ensures TakeWord(word + rest) == word
  {
    if word == "" {
      assert word + rest == rest;
    } else {
      assert word[0] in word;
      assert (word + rest)[1..] == word[1..] + rest;
      assert forall c <- word[1..] :: c in word;
      TakeWordHere(word[1..], rest);
      assert word == [word[0]] + word[1..];
    }
  }

  /** Everything after the first word. */
  function AfterWord(s: string): string {
    if s == "" then ""
    else if IsWhiteSpace(s[0]) then AfterWord(s[1..])
    else DropWord(s)
  }

  function DropWord(s: string): string {
    if s == "" || IsWhiteSpace(s[0]) then s else DropWord(s[1..])
  }

  lemma {:induction false} AfterWordHere(lead: string, word: string, rest: string)
    requires IsBlank(lead) && IsWord(word) && word != "" && (rest == "" || IsWhiteSpace(rest[0]))
    ensures AfterWord(lead + word + rest) == rest
  {
    var s := lead + word + rest;
    if lead == "" {
      assert s == word + rest;
      assert word[0] in word && s[0] == word[0];
      DropWordHere(word, rest);
    } else {
      assert lead[0] in lead && s[0] == lead[0];
      assert s[1..] == lead[1..] + word + rest;
      assert forall c <- lead[1..] :: c in lead;
      AfterWordHere(lead[1..], word, rest);
    }
  }

  lemma {:induction false} DropWordHere(word: string, rest: string)
    requires IsWord(word) && (rest == "" || IsWhiteSpace(rest[0]))
    ensures DropWord(word + rest) == rest
  {
    if word == "" {
      assert word + rest == rest;
    } else {
      assert word[0] in word;
      assert (word + rest)[1..] == word[1..] + rest;
      assert forall c <- word[1..] :: c in word;
      DropWordHere(word[1..], rest);
    }
  }
}
