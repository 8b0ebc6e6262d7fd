/** The string operations of Python 2 that the pipeline's parsers rely on:
    `line[:-1]`, `str.split()` with no argument, and `int(s)` in base ten. */
module Text {
  import opened Wrappers

  /** Python 2's whitespace for byte strings: space, \t, \n, \v, \f, \r. */
  predicate IsSpace(c: char) {
    c == ' ' || c == '\t' || c == '\n' || c == '\r' || c == '\U{000B}' || c == '\U{000C}'
  }

  predicate IsDigit(c: char) { '0' <= c <= '9' }

  /** A word as `str.split()` produces it: non-empty, no whitespace. */
  predicate IsWord(w: string) {
    w != [] && forall i :: 0 <= i < |w| ==> !IsSpace(w[i])
  }

  /** `line[:-1]`: drops the last character; the empty string stays empty. */
  function DropLast(line: string): (r: string)
    ensures line == [] ==> r == []
    ensures line != [] ==> r + [line[|line| - 1]] == line
  {
    if line == [] then [] else line[..|line| - 1]
  }

  /** The longest prefix of `s` without whitespace. */
  function TakeWord(s: string): (w: string)
    ensures |w| <= |s| && w == s[..|w|]
    ensures forall i :: 0 <= i < |w| ==> !IsSpace(w[i])
    ensures |w| == |s| || IsSpace(s[|w|])
  {
    if s == [] || IsSpace(s[0]) then [] else [s[0]] + TakeWord(s[1..])
  }

  /** `s.split()`: the maximal runs of non-whitespace characters, in order. */
  function Words(s: string): (ws: seq<string>)
    ensures forall k :: 0 <= k < |ws| ==> IsWord(ws[k])
    ensures ws == [] <==> AllSpace(s)
    decreases |s|
  {
    if s == [] then []
    else if IsSpace(s[0]) then
      assert forall i :: 1 <= i < |s| ==> s[1..][i - 1] == s[i];
      Words(s[1..])
    else
      var w := TakeWord(s);
      [w] + Words(s[|w|..])
  }

  /** `s` consists of whitespace only (the empty string does). */
  predicate AllSpace(s: string) {
    forall i :: 0 <= i < |s| ==> IsSpace(s[i])
  }

  /** Words `ws` with the separators `seps` around and between them:
      `seps[0] + ws[0] + seps[1] + ... + ws[n-1] + seps[n]`. */
  function Interleave(seps: seq<string>, ws: seq<string>): (s: string)
    requires |seps| == |ws| + 1
  {
    if ws == [] then seps[0] else seps[0] + ws[0] + Interleave(seps[1..], ws[1..])
  }

  /** Leading whitespace is skipped. */
  lemma {:induction false} WordsSkipsSpace(pre: string, s: string)
    requires AllSpace(pre)
    ensures Words(pre + s) == Words(s)
    decreases |pre|
  {
    if pre != [] {
      var t := pre + s;
      assert t != [] && t[0] == pre[0] && IsSpace(t[0]);
      assert t[1..] == pre[1..] + s;
      assert Words(t) == Words(t[1..]);
      WordsSkipsSpace(pre[1..], s);
    } else {
      assert pre + s == s;
    }
  }

  /** A word followed by nothing or by whitespace is the next word split
      off. */
  lemma WordsOfWordThen(w: string, post: string)
    requires IsWord(w)
    requires post == [] || IsSpace(post[0])
    ensures Words(w + post) == [w] + Words(post)
  {
    TakeWordOfWord(w, post);
    assert (w + post)[0] == w[0];
    assert (w + post)[|w|..] == post;
  }

  /** `str.split()` gives back the words of any text made of words and
      whitespace separators: the separators before the first and after the
      last word may be empty, those between two words may not. */
  lemma {:induction false} WordsOfInterleave(seps: seq<string>, ws: seq<string>)
    requires |seps| == |ws| + 1
    requires forall k :: 0 <= k < |seps| ==> AllSpace(seps[k])
    requires forall k :: 0 < k < |ws| ==> seps[k] != []
    requires forall k :: 0 <= k < |ws| ==> IsWord(ws[k])
    ensures Words(Interleave(seps, ws)) == ws
  {
    if ws != [] {
      var rest := Interleave(seps[1..], ws[1..]);
      assert seps[0] + ws[0] + rest == seps[0] + (ws[0] + rest);
      WordsSkipsSpace(seps[0], ws[0] + rest);
      if seps[1] != [] {
        assert rest[0] == seps[1][0];
      } else if |ws| > 1 {
        assert false;
      }
      WordsOfWordThen(ws[0], rest);
      forall k | 0 <= k < |seps| - 1 ensures AllSpace(seps[1..][k]) {
        assert seps[1..][k] == seps[k + 1];
      }
      WordsOfInterleave(seps[1..], ws[1..]);
    }
  }

  /** `" ".join(ws)`. */
  function Unwords(ws: seq<string>): string {
    if ws == [] then []
    else if |ws| == 1 then ws[0]
    else ws[0] + " " + Unwords(ws[1..])
  }

  lemma {:induction false} TakeWordOfWord(w: string, tail: string)
    requires IsWord(w)
    requires tail == [] || IsSpace(tail[0])
    ensures TakeWord(w + tail) == w
    decreases |w|
  {
    var s := w + tail;
    assert s[0] == w[0];
    if |w| > 1 {
      assert s[1..] == w[1..] + tail;
      TakeWordOfWord(w[1..], tail);
    } else {
      assert s[1..] == tail;
    }
  }

  /** Splitting a space-joined list of words gives the words back. */
  lemma {:induction false} WordsOfUnwords(ws: seq<string>)
    requires forall k :: 0 <= k < |ws| ==> IsWord(ws[k])
    ensures Words(Unwords(ws)) == ws
  {
    if ws == [] {
    } else if |ws| == 1 {
      var w := ws[0];
      assert w + [] == w;
      TakeWordOfWord(w, []);
      assert w[|w|..] == [];
    } else {
      var w, rest := ws[0], Unwords(ws[1..]);
      var s := w + " " + rest;
      assert s == w + (" " + rest);
      TakeWordOfWord(w, " " + rest);
      assert s[|w|..] == " " + rest;
      assert (" " + rest)[1..] == rest;
      WordsOfUnwords(ws[1..]);
    }
  }

  /** Leading and trailing whitespace removed, as `int()` does before parsing. */
  function Strip(s: string): (r: string)
    ensures |r| <= |s|
    ensures r != [] ==> !IsSpace(r[0]) && !IsSpace(r[|r| - 1])
    decreases |s|
  {
    if s == [] then []
    else if IsSpace(s[0]) then Strip(s[1..])
    else if IsSpace(s[|s| - 1]) then Strip(s[..|s| - 1])
    else s
  }

  function DigitValue(c: char): (d: nat)
    requires IsDigit(c)
    ensures d < 10
  {
    (c - '0') as nat
  }

  function DigitChar(d: nat): (c: char)
    requires d < 10
    ensures IsDigit(c) && DigitValue(c) == d
  {
    '0' + d as char
  }

  predicate AllDigits(s: string) {
    forall i :: 0 <= i < |s| ==> IsDigit(s[i])
  }

  /** The value of a string of decimal digits, most significant first. */
  function DigitsValue(s: string): nat
    requires AllDigits(s)
  {
    if s == [] then 0 else DigitsValue(s[..|s| - 1]) * 10 + DigitValue(s[|s| - 1])
  }

  /** Python 2's `int(s)` in base ten: surrounding whitespace, an optional
      sign, whitespace again (`PyOS_strtoul` skips it after the sign), then
      one or more decimal digits. `None` stands for the `ValueError`. */
  function ParseInt(s: string): (r: Option<int>)
    ensures s != [] && AllDigits(s) ==> r == Some(DigitsValue(s))
  {
    StripOfDigits(s);
    var t := Strip(s);
    var neg := t != [] && t[0] == '-';
    var body := if t != [] && (t[0] == '-' || t[0] == '+') then Strip(t[1..]) else t;
    if body == [] || !AllDigits(body) then None
    else if neg then Some(0 - DigitsValue(body))
    else Some(DigitsValue(body))
  }

  /** The decimal rendering of a natural number, as `str(n)` gives it. */
  function Decimal(n: nat): (s: string)
    ensures s != [] && AllDigits(s)
  {
    if n < 10 then [DigitChar(n)] else Decimal(n / 10) + [DigitChar(n % 10)]
  }

  /** `str(n)` for any integer. */
  function Show(n: int): string {
    if n < 0 then "-" + Decimal(-n) else Decimal(n)
  }

  lemma {:induction false} DigitsValueOfDecimal(n: nat)
    ensures DigitsValue(Decimal(n)) == n
  {
    var s := Decimal(n);
    if n >= 10 {
      assert s[..|s| - 1] == Decimal(n / 10);
      DigitsValueOfDecimal(n / 10);
    }
  }

  lemma StripOfDigits(s: string)
    ensures s != [] && AllDigits(s) ==> Strip(s) == s
  {
    if s != [] && AllDigits(s) {
      StripOfTrimmed(s);
    }
  }

  lemma StripOfTrimmed(s: string)
    requires s != [] && !IsSpace(s[0]) && !IsSpace(s[|s| - 1])
    ensures Strip(s) == s
  {
  }

  /** `int(str(n)) == n`: every rendered ordinal parses back to itself. */
  lemma ParseIntOfShow(n: int)
    ensures ParseInt(Show(n)) == Some(n)
  {
    var m: nat := if n < 0 then -n else n;
    var d := Decimal(m);
    DigitsValueOfDecimal(m);
    assert !IsSpace(d[0]) && !IsSpace(d[|d| - 1]);
    if n < 0 {
      var s := "-" + d;
      assert s[|s| - 1] == d[|d| - 1];
      StripOfTrimmed(s);
      assert s[1..] == d;
      StripOfTrimmed(d);
    } else {
      StripOfTrimmed(d);
    }
  }

  /** Whitespace before a trimmed string is stripped. */
  lemma {:induction false} StripLeadingSpace(sp: string, d: string)
    requires AllSpace(sp)
    requires d != [] && !IsSpace(d[0]) && !IsSpace(d[|d| - 1])
    ensures Strip(sp + d) == d
    decreases |sp|
  {
    if sp == [] {
      assert sp + d == d;
      StripOfTrimmed(d);
    } else {
      var s := sp + d;
      assert s[0] == sp[0] && s[1..] == sp[1..] + d;
      StripLeadingSpace(sp[1..], d);
    }
  }

  /** Whitespace may follow the sign: `int("-" + spaces + str(n))` is `-n`,
      so `int("- 5")` is -5. */
  lemma SpaceAfterSign(sp: string, n: nat)
    requires AllSpace(sp)
    ensures ParseInt("-" + sp + Decimal(n)) == Some(-(n as int))
  {
    var d := Decimal(n);
    var s := "-" + sp + d;
    SignThenSpace(sp, d);
    ParseIntNegative(s, d);
    DigitsValueOfDecimal(n);
  }

  /** A minus sign, then whitespace, then a trimmed word: the sign stays put
      and what follows it strips to the word. */
  lemma SignThenSpace(sp: string, d: string)
    requires AllSpace(sp)
    requires d != [] && !IsSpace(d[0]) && !IsSpace(d[|d| - 1])
    ensures var s := "-" + sp + d;
            s != [] && Strip(s) == s && s[0] == '-' && Strip(s[1..]) == d
  {
    var s := "-" + sp + d;
    assert s == "-" + (sp + d);
    assert s[1..] == sp + d;
    NegativeTrimmed(sp + d);
    StripLeadingSpace(sp, d);
  }

  lemma NegativeTrimmed(rest: string)
    requires rest != [] && !IsSpace(rest[|rest| - 1])
    ensures Strip("-" + rest) == "-" + rest
  {
    var s := "-" + rest;
    assert s[0] == '-' && s[|s| - 1] == rest[|rest| - 1];
    StripOfTrimmed(s);
  }

  /** A trimmed string made of `-`, optional whitespace and digits `d` is
      `-d`. */
  lemma ParseIntNegative(s: string, d: string)
    requires s != [] && Strip(s) == s && s[0] == '-' && Strip(s[1..]) == d
    requires d != [] && AllDigits(d)
    ensures ParseInt(s) == Some(-(DigitsValue(d) as int))
  {
  }

  lemma MinusSpaceFive()
    ensures ParseInt("- 5") == Some(-5)
  {
    SpaceAfterSign(" ", 5);
    assert "-" + " " + Decimal(5) == "- 5";
  }
}
