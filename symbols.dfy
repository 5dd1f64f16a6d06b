/**
 * Symbol normalisation (`Trader.normalizeSymbol`): the broker and the local
 * contract table spell some symbols differently, so every symbol-based lookup
 * first strips trailing 'd' characters, turns spaces into '-' and removes
 * every ".T" market suffix, in that order, with Python's `str.rstrip` and
 * `str.replace`.
 */
module Symbols {

  /** Python `s.rstrip([c])`: drop every trailing `c`. */
  function RStrip(s: string, c: char): (r: string)
    ensures |r| <= |s| && r == s[..|r|]
    ensures r == [] || r[|r| - 1] != c
    ensures forall i :: |r| <= i < |s| ==> s[i] == c
  {
    if s != [] && s[|s| - 1] == c then RStrip(s[..|s| - 1], c) else s
  }

  /** `pat` occurs in `s` starting at index `i`. */
  predicate OccursAt(s: string, pat: string, i: int) {
    0 <= i && i + |pat| <= |s| && s[i..i + |pat|] == pat
  }

  /**
   * Python `s.replace(pat, rep)` for a non-empty `pat`: scanning from the
   * left, every occurrence that does not overlap an earlier replaced one is
   * replaced.
   */
  function Replace(s: string, pat: string, rep: string): string
    requires |pat| > 0
  {
    if |pat| <= |s| && s[..|pat|] == pat then rep + Replace(s[|pat|..], pat, rep)
    else if s == [] then []
    else [s[0]] + Replace(s[1..], pat, rep)
  }

  /** The symbol under which the trader files and looks up an instrument. */
  function NormalizeSymbol(symbol: string): string {
    Replace(Replace(RStrip(symbol, 'd'), " ", "-"), ".T", "")
  }

  lemma {:induction false} ReplaceNotLonger(s: string, pat: string, rep: string)
    requires |pat| > 0 && |rep| <= |pat|
    ensures |Replace(s, pat, rep)| <= |s|
  {
    if |pat| <= |s| && s[..|pat|] == pat {
      ReplaceNotLonger(s[|pat|..], pat, rep);
    } else if s != [] {
      ReplaceNotLonger(s[1..], pat, rep);
    }
  }

  /** Replacing the one-character pattern `[c]` by text without `c` leaves no `c`. */
  lemma {:induction false} ReplaceRemovesChar(s: string, c: char, rep: string)
    requires c !in rep
    ensures c !in Replace(s, [c], rep)
  {
    if 1 <= |s| && s[..1] == [c] {
      ReplaceRemovesChar(s[1..], c, rep);
    } else if s != [] {
      assert s[0] != c by { assert s[..1] == [s[0]]; }
      ReplaceRemovesChar(s[1..], c, rep);
    }
  }

  /** A character found neither in `s` nor in `rep` is not in the result. */
  lemma {:induction false} ReplaceKeepsAbsent(s: string, pat: string, rep: string, c: char)
    requires |pat| > 0 && c !in s && c !in rep
    ensures c !in Replace(s, pat, rep)
  {
    if |pat| <= |s| && s[..|pat|] == pat {
      assert forall x :: x in s[|pat|..] ==> x in s;
      ReplaceKeepsAbsent(s[|pat|..], pat, rep, c);
    } else if s != [] {
      assert forall x :: x in s[1..] ==> x in s;
      ReplaceKeepsAbsent(s[1..], pat, rep, c);
    }
  }

  /** Where `pat` does not occur, `replace` changes nothing. */
  lemma {:induction false} ReplaceAbsent(s: string, pat: string, rep: string)
    requires |pat| > 0
    requires forall i :: !OccursAt(s, pat, i)
    ensures Replace(s, pat, rep) == s
  {
    assert !OccursAt(s, pat, 0);
    if s != [] {
      forall i ensures !OccursAt(s[1..], pat, i) {
        if OccursAt(s[1..], pat, i) {
          assert s[1..][i..i + |pat|] == s[i + 1..i + 1 + |pat|];
          assert OccursAt(s, pat, i + 1);
        }
      }
      ReplaceAbsent(s[1..], pat, rep);
      assert s == [s[0]] + s[1..];
    }
  }

  /** A normalised symbol holds no space. */
  lemma NormalizeHasNoSpace(symbol: string)
    ensures ' ' !in NormalizeSymbol(symbol)
  {
    var hyphenated := Replace(RStrip(symbol, 'd'), " ", "-");
    ReplaceRemovesChar(RStrip(symbol, 'd'), ' ', "-");
    ReplaceKeepsAbsent(hyphenated, ".T", "", ' ');
  }

  /** Normalisation never makes a symbol longer. */
  lemma NormalizeNotLonger(symbol: string)
    ensures |NormalizeSymbol(symbol)| <= |symbol|
  {
    var stripped := RStrip(symbol, 'd');
    ReplaceNotLonger(stripped, " ", "-");
    ReplaceNotLonger(Replace(stripped, " ", "-"), ".T", "");
  }

  /** A symbol with no trailing 'd', no space and no ".T" is its own normal form. */
  lemma NormalizeUnchanged(symbol: string)
    requires symbol == [] || symbol[|symbol| - 1] != 'd'
    requires ' ' !in symbol
    requires forall i :: !OccursAt(symbol, ".T", i)
    ensures NormalizeSymbol(symbol) == symbol
  {
    assert RStrip(symbol, 'd') == symbol;
    forall i ensures !OccursAt(symbol, " ", i) {
      if 0 <= i < |symbol| {
        assert symbol[i..i + 1] == [symbol[i]];
      }
    }
    ReplaceAbsent(symbol, " ", "-");
    ReplaceAbsent(symbol, ".T", "");
  }

  /** Example: the hyphen pass leaves "BRK.T" alone. */
  lemma TokyoHyphenPass()
    ensures Replace("BRK.T", " ", "-") == "BRK.T"
  {
    assert Replace("", " ", "-") == "";
    assert Replace("T", " ", "-") == "T";
    assert Replace(".T", " ", "-") == ".T";
    assert Replace("K.T", " ", "-") == "K.T";
    assert Replace("RK.T", " ", "-") == "RK.T";
  }

  /** Example: the suffix pass turns "BRK.T" into "BRK". */
  lemma TokyoSuffixPass()
    ensures Replace("BRK.T", ".T", "") == "BRK"
  {
    assert Replace(".T", ".T", "") == "";
    assert Replace("K.T", ".T", "") == "K";
    assert Replace("RK.T", ".T", "") == "RK";
  }

  /** Example: the market suffix ".T" is removed, "BRK.T" giving "BRK". */
  lemma NormalizeTokyoSuffix()
    ensures NormalizeSymbol("BRK.T") == "BRK"
  {
    assert RStrip("BRK.T", 'd') == "BRK.T";
    TokyoHyphenPass();
    TokyoSuffixPass();
  }

  /** Example: the hyphen pass turns "FOO D" into "FOO-D". */
  lemma ClassShareHyphenPass()
    ensures Replace("FOO D", " ", "-") == "FOO-D"
  {
    assert Replace("D", " ", "-") == "D";
    assert Replace(" D", " ", "-") == "-D";
    assert Replace("O D", " ", "-") == "O-D";
    assert Replace("OO D", " ", "-") == "OO-D";
  }

  /** Example: the suffix pass leaves "FOO-D" alone. */
  lemma ClassShareSuffixPass()
    ensures Replace("FOO-D", ".T", "") == "FOO-D"
  {
    assert Replace("D", ".T", "") == "D";
    assert Replace("-D", ".T", "") == "-D";
    assert Replace("O-D", ".T", "") == "O-D";
    assert Replace("OO-D", ".T", "") == "OO-D";
  }

  /** Example: a class-share space becomes a hyphen, "FOO D" giving "FOO-D". */
  lemma NormalizeClassShare()
    ensures NormalizeSymbol("FOO D") == "FOO-D"
  {
    assert RStrip("FOO D", 'd') == "FOO D";
    ClassShareHyphenPass();
    ClassShareSuffixPass();
  }

  /** Example: of the passes over "ad.T", only the suffix pass changes it, to "ad". */
  lemma SuffixExposesD()
    ensures RStrip("ad.T", 'd') == "ad.T"
    ensures Replace("ad.T", " ", "-") == "ad.T"
    ensures Replace("ad.T", ".T", "") == "ad"
  {
    assert Replace("T", " ", "-") == "T";
    assert Replace(".T", " ", "-") == ".T";
    assert Replace("d.T", " ", "-") == "d.T";
    assert Replace(".T", ".T", "") == "";
    assert Replace("d.T", ".T", "") == "d";
  }

  /**
   * Normalisation is not idempotent: removing ".T" can expose a trailing 'd'
   * that a second pass strips.
   */
  lemma NormalizeNotIdempotent()
    ensures NormalizeSymbol("ad.T") == "ad"
    ensures NormalizeSymbol("ad") == "a"
    ensures NormalizeSymbol(NormalizeSymbol("ad.T")) != NormalizeSymbol("ad.T")
  {
    SuffixExposesD();
    assert RStrip("ad", 'd') == "a" by {
      assert "ad"[..1] == "a";
    }
    assert Replace("a", " ", "-") == "a";
    assert Replace("a", ".T", "") == "a";
  }
}
