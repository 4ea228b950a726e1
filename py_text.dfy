/**
 * The parts of Python's `str` that the knowledge-base script relies on:
 * whitespace as `str.isspace` defines it (the same class is matched by the
 * regular expression `\s`, split on by `str.split()` and removed by
 * `str.strip()`), splitting into words, joining with single spaces, stripping,
 * and `str(n)` for a non-negative integer.
 */
module PyText {

  /** `c.isspace()` in Python 3: the Unicode whitespace characters. */
  predicate IsSpace(c: char) {
    ('\t' <= c <= '\r') || ('\U{1C}' <= c <= '\U{1F}') || c == ' '
    || c == '\U{85}' || c == '\U{A0}' || c == '\U{1680}'
    || ('\U{2000}' <= c <= '\U{200A}') || c == '\U{2028}' || c == '\U{2029}'
    || c == '\U{202F}' || c == '\U{205F}' || c == '\U{3000}'
  }

  predicate NoSpace(s: string) {
    forall i :: 0 <= i < |s| ==> !IsSpace(s[i])
  }

  /** What `str.split()` can return as one element: non-empty, no whitespace. */
  predicate IsWord(w: string) {
    |w| > 0 && NoSpace(w)
  }

  predicate AllWords(ws: seq<string>) {
    forall i :: 0 <= i < |ws| ==> IsWord(ws[i])
  }

  /**
   * The form in which `clean_text` leaves a string: no whitespace at either
   * end, and inside only single ASCII spaces.
   */
  predicate IsClean(s: string) {
    && (|s| > 0 ==> !IsSpace(s[0]) && !IsSpace(s[|s| - 1]))
    && (forall i :: 0 <= i < |s| && IsSpace(s[i]) ==> s[i] == ' ')
    && (forall i :: 0 <= i < |s| - 1 && s[i] == ' ' ==> s[i + 1] != ' ')
  }

  /** `s.lstrip()`: the string from its first non-whitespace character on. */
  function StripLeft(s: string): (r: string)
    ensures |r| <= |s|
    ensures |r| > 0 ==> !IsSpace(r[0])
  {
    if |s| > 0 && IsSpace(s[0]) then StripLeft(s[1..]) else s
  }

  /** `lstrip` removes a prefix of `s` that is all whitespace, and nothing else. */
  lemma {:induction false} StripLeftDropsSpace(s: string)
    ensures StripLeft(s) == s[|s| - |StripLeft(s)|..]
    ensures forall i :: 0 <= i < |s| - |StripLeft(s)| ==> IsSpace(s[i])
  {
    if |s| > 0 && IsSpace(s[0]) {
      StripLeftDropsSpace(s[1..]);
    }
  }

  /** `s.rstrip()`: drops the trailing whitespace and nothing else. */
  function StripRight(s: string): (r: string)
    ensures |r| <= |s| && r == s[..|r|]
    ensures forall i :: |r| <= i < |s| ==> IsSpace(s[i])
    ensures |r| > 0 ==> !IsSpace(r[|r| - 1])
  {
    if |s| > 0 && IsSpace(s[|s| - 1]) then StripRight(s[..|s| - 1]) else s
  }

  /** `s.strip()`. */
  function Strip(s: string): string {
    StripRight(StripLeft(s))
  }

  /** `re.sub(r"\s+", " ", s)`: every maximal run of whitespace becomes one space. */
  function Collapse(s: string): string
    decreases |s|
  {
    if |s| == 0 then ""
    else if IsSpace(s[0]) then " " + Collapse(StripLeft(s[1..]))
    else var k := WordEnd(s); s[..k] + Collapse(s[k..])
  }

  /** Length of the longest whitespace-free prefix of `t`. */
  function WordEnd(t: string): (k: nat)
    ensures k <= |t| && NoSpace(t[..k])
    ensures k < |t| ==> IsSpace(t[k])
  {
    if |t| == 0 || IsSpace(t[0]) then 0 else 1 + WordEnd(t[1..])
  }

  /** `s.split()`: the maximal whitespace-free pieces of `s`, in order. */
  function Words(s: string): seq<string>
    decreases |s|
  {
    var t := StripLeft(s);
    if |t| == 0 then []
    else
      var k := WordEnd(t);
      [t[..k]] + Words(t[k..])
  }

  /** Every piece `str.split()` returns is a word. */
  lemma {:induction false} WordsAreWords(s: string)
    ensures AllWords(Words(s))
    decreases |s|
  {
    var t := StripLeft(s);
    if |t| > 0 {
      var k := WordEnd(t);
      WordsAreWords(t[k..]);
      assert IsWord(t[..k]);
    }
  }

  /** `" ".join(ws)`. */
  function Join(ws: seq<string>): string {
    if |ws| == 0 then ""
    else if |ws| == 1 then ws[0]
    else ws[0] + " " + Join(ws[1..])
  }

  // ----- splitting and joining are inverse on words -----

  lemma {:induction false} WordEndOfWord(w: string, r: string)
    requires NoSpace(w)
    requires |r| == 0 || IsSpace(r[0])
    ensures WordEnd(w + r) == |w|
  {
    if |w| > 0 {
      assert (w + r)[1..] == w[1..] + r;
      WordEndOfWord(w[1..], r);
    } else {
      assert w + r == r;
    }
  }

  /** A non-empty join of words begins and ends with a word character. */
  lemma {:induction false} JoinEnds(ws: seq<string>)
    requires AllWords(ws) && |ws| > 0
    ensures |Join(ws)| > 0
    ensures !IsSpace(Join(ws)[0]) && Join(ws)[0] == ws[0][0]
    ensures !IsSpace(Join(ws)[|Join(ws)| - 1])
  {
    if |ws| > 1 {
      JoinEnds(ws[1..]);
    }
  }

  /** Splitting a word followed by the rest of a string. */
  lemma WordsOfWordThen(w: string, r: string)
    requires IsWord(w)
    requires |r| == 0 || IsSpace(r[0])
    ensures Words(w + r) == [w] + Words(r)
  {
    var s := w + r;
    WordEndOfWord(w, r);
    assert StripLeft(s) == s by {
      assert s[0] == w[0];
    }
    assert s[..|w|] == w;
    assert s[|w|..] == r;
  }

  lemma WordsSkipSpace(u: string)
    requires |u| == 0 || !IsSpace(u[0])
    ensures Words(" " + u) == Words(u)
  {
    assert (" " + u)[1..] == u;
    assert StripLeft(" " + u) == StripLeft(u);
  }

  /** `" ".join(ws).split() == ws` for a list of words. */
  lemma {:induction false} WordsOfJoin(ws: seq<string>)
    requires AllWords(ws)
    ensures Words(Join(ws)) == ws
  {
    if |ws| == 1 {
      assert IsWord(ws[0]);
      WordsOfWordThen(ws[0], "");
      assert ws[0] + "" == ws[0];
    } else if |ws| > 1 {
      var w, rest := ws[0], Join(ws[1..]);
      assert Join(ws) == w + (" " + rest);
      assert Words(Join(ws)) == [w] + Words(" " + rest) by {
        assert IsWord(w);
        WordsOfWordThen(w, " " + rest);
      }
      assert Words(" " + rest) == ws[1..] by {
        JoinEnds(ws[1..]);
        WordsSkipSpace(rest);
        WordsOfJoin(ws[1..]);
      }
      assert ws == [w] + ws[1..];
    }
  }

  /** A join of words has the shape `clean_text` promises. */
  lemma {:induction false} JoinIsClean(ws: seq<string>)
    requires AllWords(ws)
    ensures IsClean(Join(ws))
  {
    if |ws| == 1 {
      assert IsWord(ws[0]);
    } else if |ws| > 1 {
      var w, rest := ws[0], Join(ws[1..]);
      assert IsWord(w);
      JoinIsClean(ws[1..]);
      JoinEnds(ws[1..]);
      var s := w + " " + rest;
      forall i | 0 <= i < |s| && IsSpace(s[i]) ensures s[i] == ' ' {
        if i > |w| { assert s[i] == rest[i - |w| - 1]; }
      }
      forall i | 0 <= i < |s| - 1 && s[i] == ' ' ensures s[i + 1] != ' ' {
        if i > |w| { assert s[i] == rest[i - |w| - 1]; }
      }
    }
  }

  // ----- clean_text is " ".join(s.split()) -----

  lemma {:induction false} StripRightAppend(a: string, b: string)
    requires exists i :: 0 <= i < |b| && !IsSpace(b[i])
    ensures StripRight(a + b) == a + StripRight(b)
    decreases |b|
  {
    var j :| 0 <= j < |b| && !IsSpace(b[j]);
    if IsSpace(b[|b| - 1]) {
      assert j < |b| - 1;
      var b' := b[..|b| - 1];
      assert b'[j] == b[j];
      StripRightAppend(a, b');
      assert (a + b)[..|a + b| - 1] == a + b';
    }
  }

  /** Collapsing a string that begins with a word character gives one again. */
  lemma CollapseFirst(t: string)
    requires |t| > 0 && !IsSpace(t[0])
    ensures |Collapse(t)| > 0 && Collapse(t)[0] == t[0]
  {
  }

  lemma JoinCons(w: string, us: seq<string>)
    requires |us| > 0
    ensures Join([w] + us) == w + " " + Join(us)
  {
    assert ([w] + us)[1..] == us;
  }

  lemma WordsStartingWithWord(u: string)
    requires |u| > 0 && !IsSpace(u[0])
    ensures |Words(u)| > 0
  {
    assert StripLeft(u) == u;
  }

  lemma StripRightWordSpace(w: string, c: string)
    requires |c| > 0 && !IsSpace(c[0])
    ensures StripRight(w + " " + c) == w + " " + StripRight(c)
  {
    StripRightAppend(w + " ", c);
  }

  /** A string that starts with a word: that word, then the collapsed and split remainder. */
  lemma LeadingWord(t: string)
    requires |t| > 0 && !IsSpace(t[0])
    ensures Collapse(t) == t[..WordEnd(t)] + Collapse(t[WordEnd(t)..])
    ensures Words(t) == [t[..WordEnd(t)]] + Words(t[WordEnd(t)..])
  {
    assert StripLeft(t) == t;
  }

  /** A string that starts with whitespace: one space, then the rest past the whitespace run. */
  lemma LeadingSpace(rest: string)
    requires |rest| > 0 && IsSpace(rest[0])
    ensures Collapse(rest) == " " + Collapse(StripLeft(rest[1..]))
    ensures Words(rest) == Words(StripLeft(rest[1..]))
  {
    var u := StripLeft(rest[1..]);
    assert StripLeft(rest) == u;
    assert StripLeft(u) == u;
  }

  /** Takes the first word off a string that starts with one. */
  lemma SplitFirstWord(t: string) returns (w: string, u: string, more: bool)
    requires |t| > 0 && !IsSpace(t[0])
    ensures |u| < |t| && (|u| == 0 || !IsSpace(u[0]))
    ensures more ==> |u| > 0 && Collapse(t) == w + " " + Collapse(u) && Words(t) == [w] + Words(u)
    ensures !more ==> StripRight(Collapse(t)) == w && Words(t) == [w]
  {
    var k := WordEnd(t);
    w := t[..k];
    if k == |t| {
      u, more := "", false;
      OnlyWord(t);
    } else {
      u := StripLeft(t[k..][1..]);
      more := |u| > 0;
      if more {
        WordThenMore(t);
      } else {
        WordThenBlank(t);
      }
    }
  }

  /** A string that is one word. */
  lemma OnlyWord(t: string)
    requires |t| > 0 && !IsSpace(t[0]) && WordEnd(t) == |t|
    ensures StripRight(Collapse(t)) == t[..WordEnd(t)] && Words(t) == [t[..WordEnd(t)]]
  {
    LeadingWord(t);
    var w := t[..WordEnd(t)];
    assert t[WordEnd(t)..] == "";
    assert StripRight(w) == w;
  }

  /** A word followed by nothing but whitespace. */
  lemma WordThenBlank(t: string)
    requires |t| > 0 && !IsSpace(t[0]) && WordEnd(t) < |t|
    requires StripLeft(t[WordEnd(t)..][1..]) == ""
    ensures StripRight(Collapse(t)) == t[..WordEnd(t)] && Words(t) == [t[..WordEnd(t)]]
  {
    LeadingWord(t);
    var rest := t[WordEnd(t)..];
    LeadingSpace(rest);
    var w := t[..WordEnd(t)];
    assert Collapse(t) == w + " ";
    assert StripRight(w + " ") == w by {
      assert (w + " ")[..|w|] == w;
    }
  }

  /** A word, whitespace, and then more text. */
  lemma WordThenMore(t: string)
    requires |t| > 0 && !IsSpace(t[0]) && WordEnd(t) < |t|
    requires StripLeft(t[WordEnd(t)..][1..]) != ""
    ensures var w, u := t[..WordEnd(t)], StripLeft(t[WordEnd(t)..][1..]);
      Collapse(t) == w + " " + Collapse(u) && Words(t) == [w] + Words(u)
  {
    LeadingWord(t);
    var rest := t[WordEnd(t)..];
    LeadingSpace(rest);
    var w, u := t[..WordEnd(t)], StripLeft(rest[1..]);
    assert w + (" " + Collapse(u)) == w + " " + Collapse(u);
  }

  /** `StripRight(Collapse(t))` for `t` without leading whitespace is the join of its words. */
  lemma {:induction false} CollapseStripJoin(t: string)
    requires |t| == 0 || !IsSpace(t[0])
    ensures StripRight(Collapse(t)) == Join(Words(t))
    decreases |t|
  {
    if |t| > 0 {
      var w, u, more := SplitFirstWord(t);
      if more {
        CollapseFirst(u);
        StripRightWordSpace(w, Collapse(u));
        CollapseStripJoin(u);
        WordsStartingWithWord(u);
        JoinCons(w, Words(u));
      }
    }
  }

  lemma StripLeftCollapse(s: string)
    ensures StripLeft(Collapse(s)) == Collapse(StripLeft(s))
  {
    if |s| > 0 && IsSpace(s[0]) {
      var t := StripLeft(s[1..]);
      assert StripLeft(s) == t;
      assert (" " + Collapse(t))[1..] == Collapse(t);
      if |t| > 0 {
        CollapseFirst(t);
      }
    } else if |s| > 0 {
      CollapseFirst(s);
    }
  }

  /** `re.sub(r"\s+", " ", s).strip() == " ".join(s.split())`. */
  lemma CleanIsJoinOfWords(s: string)
    ensures Strip(Collapse(s)) == Join(Words(s))
  {
    StripLeftCollapse(s);
    var t := StripLeft(s);
    CollapseStripJoin(t);
    assert StripLeft(t) == t;
    assert Words(s) == Words(t);
  }

  // ----- str(n) -----

  function DigitChar(d: nat): char
    requires d < 10
  {
    "0123456789"[d]
  }

  function DigitValue(c: char): nat {
    if '0' <= c <= '9' then (c as int - '0' as int) as nat else 0
  }

  /** `str(n)` for a non-negative integer: its decimal digits, most significant first. */
  function Decimal(n: nat): (s: string)
    ensures |s| > 0
    ensures forall i :: 0 <= i < |s| ==> '0' <= s[i] <= '9'
    decreases n
  {
    if n < 10 then [DigitChar(n)] else Decimal(n / 10) + [DigitChar(n % 10)]
  }

  /** `int(s)` for a string of decimal digits. */
  function ParseDecimal(s: string): nat
    decreases |s|
  {
    if |s| == 0 then 0 else 10 * ParseDecimal(s[..|s| - 1]) + DigitValue(s[|s| - 1])
  }

  /** `int(str(n)) == n`, so distinct numbers have distinct decimal renderings. */
  lemma {:induction false} ParseDecimalOfDecimal(n: nat)
    ensures ParseDecimal(Decimal(n)) == n
    decreases n
  {
    if n >= 10 {
      ParseDecimalOfDecimal(n / 10);
      var s := Decimal(n);
      assert s[..|s| - 1] == Decimal(n / 10);
    }
  }

  lemma DecimalInjective(m: nat, n: nat)
    requires Decimal(m) == Decimal(n)
    ensures m == n
  {
    ParseDecimalOfDecimal(m);
    ParseDecimalOfDecimal(n);
  }
}
