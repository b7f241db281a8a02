/**
 * The two pieces of Rust's string library the simulator relies on:
 * `str::lines` (splitting a text into lines) and `str::split_whitespace`
 * (splitting a line into tokens). Both are modelled as pure functions over
 * `string`, each with a round trip that says what it undoes.
 */
module Text {

  /** ASCII whitespace, as `char::is_whitespace` sees it on ASCII input. */
  predicate IsSpace(c: char) {
    c == ' ' || c == '\t' || c == '\n' || c == '\r' || c == '\U{B}' || c == '\U{C}'
  }

  /** A token as `split_whitespace` yields it: non-empty, no whitespace inside. */
  predicate IsToken(w: string) {
    |w| > 0 && forall i :: 0 <= i < |w| ==> !IsSpace(w[i])
  }

  /** A text made of whitespace only (possibly empty). */
  predicate IsBlank(s: string) {
    forall i :: 0 <= i < |s| ==> IsSpace(s[i])
  }

  // ---------------------------------------------------------------------------
  // split_whitespace

  /** Drops the leading whitespace of `s`. */
  function SkipSpace(s: string): (r: string)
    ensures |r| <= |s|
    ensures r != [] ==> !IsSpace(r[0])
  {
    if s != [] && IsSpace(s[0]) then SkipSpace(s[1..]) else s
  }

  /** What `SkipSpace` drops is whitespace, and what it keeps is the rest of `s`. */
  lemma {:induction false} SkipSpaceDropsBlank(s: string)
    ensures var r := SkipSpace(s); r == s[|s| - |r|..] && IsBlank(s[..|s| - |r|])
  {
    if s != [] && IsSpace(s[0]) {
      SkipSpaceDropsBlank(s[1..]);
    }
  }

  /** The length of the run of non-whitespace characters that starts `s`. */
  function WordLength(s: string): (n: nat)
    ensures n <= |s|
    ensures s != [] && !IsSpace(s[0]) ==> n > 0
  {
    if s == [] || IsSpace(s[0]) then 0 else 1 + WordLength(s[1..])
  }

  /** `WordLength` stops at the first whitespace character. */
  lemma {:induction false} WordLengthStopsAtSpace(s: string)
    ensures var n := WordLength(s);
      (forall i :: 0 <= i < n ==> !IsSpace(s[i])) && (n < |s| ==> IsSpace(s[n]))
  {
    if s != [] && !IsSpace(s[0]) {
      WordLengthStopsAtSpace(s[1..]);
    }
  }

  /** `s.split_whitespace()`: the maximal runs of non-whitespace characters, in order. */
  function Words(s: string): (ws: seq<string>)
    decreases |s|
  {
    var t := SkipSpace(s);
    if t == [] then []
    else
      var n := WordLength(t);
      [t[..n]] + Words(t[n..])
  }

  /** The tokens, each followed by one space: a text `Words` splits back into them. */
  function Unwords(ws: seq<string>): string {
    if ws == [] then [] else ws[0] + " " + Unwords(ws[1..])
  }

  /** Every piece `split_whitespace` produces is a token. */
  lemma {:induction false} WordsAreTokens(s: string)
    ensures forall w :: w in Words(s) ==> IsToken(w)
    decreases |s|
  {
    var t := SkipSpace(s);
    if t != [] {
      var n := WordLength(t);
      WordLengthStopsAtSpace(t);
      WordsAreTokens(t[n..]);
      assert Words(s) == [t[..n]] + Words(t[n..]);
    }
  }

  /** A text has no tokens exactly when it is whitespace only. */
  lemma {:induction false} NoWordsIffBlank(s: string)
    ensures Words(s) == [] <==> IsBlank(s)
  {
    var t := SkipSpace(s);
    SkipSpaceDropsBlank(s);
    if t == [] {
      assert s[..|s|] == s;
    } else {
      assert !IsSpace(s[|s| - |t|]);
    }
  }

  lemma {:induction false} WordLengthOfToken(w: string, rest: string)
    requires IsToken(w)
    ensures WordLength(w + " " + rest) == |w|
    decreases |w|
  {
    if |w| > 1 {
      assert (w + " " + rest)[1..] == w[1..] + " " + rest;
      WordLengthOfToken(w[1..], rest);
    } else {
      assert (w + " " + rest)[1..] == " " + rest;
    }
  }

  /** Skipping whitespace passes over any whitespace prefix. */
  lemma {:induction false} SkipSpaceOverBlank(ws: string, rest: string)
    requires IsBlank(ws)
    ensures SkipSpace(ws + rest) == SkipSpace(rest)
    decreases |ws|
  {
    if ws != [] {
      assert (ws + rest)[0] == ws[0];
      assert (ws + rest)[1..] == ws[1..] + rest;
      SkipSpaceOverBlank(ws[1..], rest);
    } else {
      assert ws + rest == rest;
    }
  }

  /** Leading whitespace, of any kind and length, does not change the tokens. */
  lemma LeadingSpaceIgnored(ws: string, rest: string)
    requires IsBlank(ws)
    ensures Words(ws + rest) == Words(rest)
  {
    SkipSpaceOverBlank(ws, rest);
  }

  /** A line with tokens starts with whitespace or with its first token. */
  lemma FirstWordStartsLine(s: string)
    requires Words(s) != []
    ensures s != [] && (IsSpace(s[0]) || Words(s)[0][0] == s[0])
  {
  }

  /** Round trip: `split_whitespace` recovers any token list joined by spaces. */
  lemma {:induction false} WordsUnwords(ws: seq<string>)
    requires forall w :: w in ws ==> IsToken(w)
    ensures Words(Unwords(ws)) == ws
  {
    if ws != [] {
      var w, rest := ws[0], Unwords(ws[1..]);
      assert w in ws;
      var s := w + " " + rest;
      assert Unwords(ws) == s;
      assert s[0] == w[0];
      WordLengthOfToken(w, rest);
      assert s[..|w|] == w;
      assert s[|w|..] == " " + rest;
      LeadingSpaceIgnored(" ", rest);
      WordsUnwords(ws[1..]);
    }
  }

  /** A token is one run of non-whitespace characters when whitespace or the end follows it. */
  lemma {:induction false} WordLengthBeforeSpace(w: string, rest: string)
    requires IsToken(w)
    requires rest == [] || IsSpace(rest[0])
    ensures WordLength(w + rest) == |w|
    decreases |w|
  {
    if |w| > 1 {
      assert (w + rest)[1..] == w[1..] + rest;
      WordLengthBeforeSpace(w[1..], rest);
    } else {
      assert (w + rest)[1..] == rest;
    }
  }

  /**
   * The tokens with arbitrary whitespace around them: `seps[i]` comes before
   * `ws[i]`, and `seps[|ws|]` ends the text.
   */
  function Join(seps: seq<string>, ws: seq<string>): string
    requires |seps| == |ws| + 1
  {
    if ws == [] then seps[0] else seps[0] + ws[0] + Join(seps[1..], ws[1..])
  }

  /**
   * `split_whitespace` recovers the tokens of any line, whatever whitespace
   * stands before, between (at least one character) and after them.
   */
  lemma {:induction false} WordsJoin(seps: seq<string>, ws: seq<string>)
    requires |seps| == |ws| + 1
    requires forall i :: 0 <= i < |seps| ==> IsBlank(seps[i])
    requires forall i :: 0 < i < |ws| ==> seps[i] != []
    requires forall w :: w in ws ==> IsToken(w)
    ensures Words(Join(seps, ws)) == ws
  {
    if ws == [] {
      NoWordsIffBlank(seps[0]);
    } else {
      var w, rest := ws[0], Join(seps[1..], ws[1..]);
      assert w in ws;
      assert Join(seps, ws) == seps[0] + (w + rest);
      LeadingSpaceIgnored(seps[0], w + rest);
      assert rest == [] || IsSpace(rest[0]) by {
        if |ws| > 1 {
          assert seps[1] != [];
          assert rest == seps[1] + (ws[1] + Join(seps[2..], ws[2..]));
          assert rest[0] == seps[1][0];
        } else {
          assert rest == seps[1];
        }
      }
      var s := w + rest;
      assert s[0] == w[0];
      WordLengthBeforeSpace(w, rest);
      assert s[..|w|] == w;
      assert s[|w|..] == rest;
      WordsJoin(seps[1..], ws[1..]);
    }
  }

  // ---------------------------------------------------------------------------
  // lines

  /** The index of the first line feed of `s`, or `|s|` when there is none. */
  function LineLength(s: string): (n: nat)
    ensures n <= |s|
  {
    if s == [] || s[0] == '\n' then 0 else 1 + LineLength(s[1..])
  }

  /** `LineLength` stops at the first line feed. */
  lemma {:induction false} LineLengthStopsAtFeed(s: string)
    ensures var n := LineLength(s); NoFeed(s[..n]) && (n < |s| ==> s[n] == '\n')
  {
    if s != [] && s[0] != '\n' {
      LineLengthStopsAtFeed(s[1..]);
      assert s[..LineLength(s)] == [s[0]] + s[1..][..LineLength(s[1..])];
    }
  }

  /** Removes one carriage return at the end of a line that a line feed ended. */
  function StripCr(l: string): string {
    if l != [] && l[|l| - 1] == '\r' then l[..|l| - 1] else l
  }

  /**
   * `s.lines()`: the pieces between line feeds; a `"\r\n"` ending loses its
   * carriage return, the final line needs no terminator, and a text that
   * ends with a line feed has no empty last line.
   */
  function Lines(s: string): (ls: seq<string>)
    decreases |s|
  {
    if s == [] then []
    else
      var n := LineLength(s);
      if n == |s| then [s] else [StripCr(s[..n])] + Lines(s[n + 1..])
  }

  /** A piece of text without a line feed. */
  predicate NoFeed(l: string) {
    forall i :: 0 <= i < |l| ==> l[i] != '\n'
  }

  /** A line as `lines` can yield it from a text written with `"\n"` endings. */
  predicate IsLine(l: string) {
    NoFeed(l) && (l == [] || l[|l| - 1] != '\r')
  }

  /** The lines, each terminated by a line feed. */
  function Unlines(ls: seq<string>): string {
    if ls == [] then [] else ls[0] + "\n" + Unlines(ls[1..])
  }

  /** No line that `lines` yields contains a line feed. */
  lemma {:induction false} LinesHaveNoFeed(s: string)
    ensures forall l :: l in Lines(s) ==> NoFeed(l)
    decreases |s|
  {
    if s != [] {
      var n := LineLength(s);
      LineLengthStopsAtFeed(s);
      assert s[..|s|] == s;
      if n < |s| {
        LinesHaveNoFeed(s[n + 1..]);
        assert Lines(s) == [StripCr(s[..n])] + Lines(s[n + 1..]);
      }
    }
  }

  lemma {:induction false} LineLengthOfLine(l: string, rest: string)
    requires NoFeed(l)
    ensures LineLength(l + "\n" + rest) == |l|
    decreases |l|
  {
    if l != [] {
      assert (l + "\n" + rest)[1..] == l[1..] + "\n" + rest;
      LineLengthOfLine(l[1..], rest);
    }
  }

  /** Round trip: `lines` recovers any list of lines written with `"\n"` endings. */
  lemma {:induction false} LinesUnlines(ls: seq<string>)
    requires forall l :: l in ls ==> IsLine(l)
    ensures Lines(Unlines(ls)) == ls
  {
    if ls != [] {
      var l, rest := ls[0], Unlines(ls[1..]);
      assert l in ls;
      var s := l + "\n" + rest;
      assert Unlines(ls) == s;
      LineLengthOfLine(l, rest);
      assert s[..|l|] == l;
      assert s[|l| + 1..] == rest;
      LinesUnlines(ls[1..]);
    }
  }

  /** A piece of text without a line feed is one run up to the end or the feed. */
  lemma {:induction false} LineLengthNoFeed(l: string)
    requires NoFeed(l)
    ensures LineLength(l) == |l|
  {
    if l != [] {
      LineLengthNoFeed(l[1..]);
    }
  }

  /** A line ended by `"\n"` is split off whole. */
  lemma LinesConsLf(l: string, rest: string)
    requires IsLine(l)
    ensures Lines(l + "\n" + rest) == [l] + Lines(rest)
  {
    var s := l + "\n" + rest;
    LineLengthOfLine(l, rest);
    assert s[..|l|] == l;
    assert s[|l| + 1..] == rest;
  }

  /** A line ended by `"\r\n"` is split off without its carriage return. */
  lemma LinesConsCrlf(l: string, rest: string)
    requires NoFeed(l)
    ensures Lines(l + "\r\n" + rest) == [l] + Lines(rest)
  {
    var lc := l + "\r";
    assert NoFeed(lc) by {
      assert forall i :: 0 <= i < |l| ==> lc[i] == l[i];
    }
    var s := lc + "\n" + rest;
    assert l + "\r\n" + rest == s;
    LineLengthOfLine(lc, rest);
    assert s[..|lc|] == lc;
    assert lc[..|lc| - 1] == l;
    assert s[|lc| + 1..] == rest;
  }

  /** The lines, `ls[i]` ended by `ends[i]`. */
  function UnlinesWith(ls: seq<string>, ends: seq<string>): string
    requires |ends| == |ls|
  {
    if ls == [] then [] else ls[0] + ends[0] + UnlinesWith(ls[1..], ends[1..])
  }

  /**
   * Round trip with mixed endings: `lines` recovers any list of lines each
   * ended by `"\n"` or `"\r\n"`, where a non-empty last line may also have no
   * ending at all.
   */
  lemma {:induction false} LinesUnlinesWith(ls: seq<string>, ends: seq<string>)
    requires |ends| == |ls|
    requires forall l :: l in ls ==> IsLine(l)
    requires forall i :: 0 <= i < |ends| ==>
      ends[i] == "\n" || ends[i] == "\r\n" || (i == |ends| - 1 && ends[i] == "" && ls[i] != [])
    ensures Lines(UnlinesWith(ls, ends)) == ls
  {
    if ls != [] {
      var l, rest := ls[0], UnlinesWith(ls[1..], ends[1..]);
      assert l in ls;
      assert UnlinesWith(ls, ends) == l + ends[0] + rest;
      if ends[0] == "\n" {
        LinesConsLf(l, rest);
      } else if ends[0] == "\r\n" {
        LinesConsCrlf(l, rest);
      } else {
        assert |ls| == 1 && rest == [];
        assert l + ends[0] + rest == l;
        LineLengthNoFeed(l);
      }
      LinesUnlinesWith(ls[1..], ends[1..]);
    }
  }

  /** Tokens joined by spaces make one line. */
  lemma {:induction false} UnwordsIsLine(ws: seq<string>)
    requires forall w :: w in ws ==> IsToken(w)
    ensures IsLine(Unwords(ws))
  {
    if ws != [] {
      assert ws[0] in ws;
      UnwordsIsLine(ws[1..]);
      var s := Unwords(ws);
      assert s == ws[0] + " " + Unwords(ws[1..]);
      forall i | 0 <= i < |s| ensures s[i] != '\n' {
        if i < |ws[0]| {
          assert s[i] == ws[0][i];
        } else if i > |ws[0]| {
          assert s[i] == Unwords(ws[1..])[i - |ws[0]| - 1];
        }
      }
    }
  }
}
