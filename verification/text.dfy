/** Character-level text handling shared by the crawlers: Python's notion of
    whitespace, str.strip(), the `re.sub(r'\s+', ' ', ...)` collapse that
    `clean_text` applies, whitespace removal, substring search and the decimal
    rendering used in ship labels. */
module Text {

  /** Python's str.isspace(). For str patterns, `\s` in `re` and the
      argument-less str.strip() / str.split() use this same set. */
  predicate IsSpace(c: char)
  {
    c == ' ' || ('\t' <= c <= '\r') || ('\U{1c}' <= c <= '\U{1f}')
    || c == '\U{85}' || c == '\U{a0}' || c == '\U{1680}'
    || ('\U{2000}' <= c <= '\U{200a}') || c == '\U{2028}' || c == '\U{2029}'
    || c == '\U{202f}' || c == '\U{205f}' || c == '\U{3000}'
  }

  predicate NoSpace(s: string)
  {
    forall i :: 0 <= i < |s| ==> !IsSpace(s[i])
  }

  /** The shape `clean_text` promises: no whitespace at either end, the only
      whitespace character is ' ', and never two whitespace characters in a row. */
  predicate Normalized(s: string)
  {
    && (s != [] ==> !IsSpace(s[0]) && !IsSpace(s[|s| - 1]))
    && (forall i :: 0 <= i < |s| && IsSpace(s[i]) ==> s[i] == ' ')
    && (forall i :: 0 <= i < |s| - 1 ==> !(IsSpace(s[i]) && IsSpace(s[i + 1])))
  }

  /** Leading-whitespace removal (the left half of str.strip()). */
  function LStrip(s: string): (r: string)
    ensures |r| <= |s| && r == s[|s| - |r|..]
    ensures forall i :: 0 <= i < |s| - |r| ==> IsSpace(s[i])
    ensures r == [] || !IsSpace(r[0])
    ensures s != [] && IsSpace(s[0]) ==> |r| < |s|
  {
    if s != [] && IsSpace(s[0]) then LStrip(s[1..]) else s
  }

  /** Trailing-whitespace removal (the right half of str.strip()). */
  function RStrip(s: string): (r: string)
    ensures |r| <= |s| && r == s[..|r|]
    ensures forall i :: |r| <= i < |s| ==> IsSpace(s[i])
    ensures r == [] || !IsSpace(r[|r| - 1])
  {
    if s != [] && IsSpace(s[|s| - 1]) then RStrip(s[..|s| - 1]) else s
  }

  /** str.strip() with no argument. */
  function Strip(s: string): string
  {
    RStrip(LStrip(s))
  }

  /** A stripped string has nothing left to strip. */
  lemma StripIdempotent(s: string)
    ensures Strip(Strip(s)) == Strip(s)
  {
    var l := LStrip(s);
    var r := RStrip(l);
    if r != [] {
      assert r[0] == l[0];
    }
  }

  /** `re.sub(r'\s+', ' ', s)`: every maximal whitespace run becomes one ' '. */
  function Collapse(s: string): string
    decreases |s|
  {
    if s == [] then []
    else if IsSpace(s[0]) then " " + Collapse(LStrip(s))
    else [s[0]] + Collapse(s[1..])
  }

  /** `clean_text`: the empty (falsy) string gives '', anything else is
      stripped and has its whitespace runs collapsed. */
  function CleanText(s: string): string
  {
    if s == "" then "" else Collapse(Strip(s))
  }

  /** `re.sub(r'\s+', '', s)`: all whitespace removed. */
  function RemoveSpaces(s: string): (r: string)
    ensures NoSpace(r) && |r| <= |s|
  {
    if s == [] then []
    else if IsSpace(s[0]) then RemoveSpaces(s[1..])
    else [s[0]] + RemoveSpaces(s[1..])
  }

  // ---------------------------------------------------------------------------
  // Reference definition: `' '.join(s.split())`, the word view of a string.

  /** The longest whitespace-free prefix. */
  function TakeWord(s: string): (w: string)
    ensures |w| <= |s| && w == s[..|w|] && NoSpace(w)
    ensures |w| < |s| ==> IsSpace(s[|w|])
    ensures s != [] && !IsSpace(s[0]) ==> w != []
  {
    if s == [] || IsSpace(s[0]) then [] else [s[0]] + TakeWord(s[1..])
  }

  /** str.split() with no argument. */
  function Words(s: string): (ws: seq<string>)
    ensures forall k :: 0 <= k < |ws| ==> ws[k] != [] && NoSpace(ws[k])
    decreases |s|
  {
    if s == [] then []
    else if IsSpace(s[0]) then Words(s[1..])
    else
      var w := TakeWord(s);
      [w] + Words(s[|w|..])
  }

  /** `' '.join(ws)`. */
  function Join(ws: seq<string>): string
  {
    if ws == [] then "" else if |ws| == 1 then ws[0] else ws[0] + " " + Join(ws[1..])
  }

  /** Concatenation of all words. */
  function Concat(ws: seq<string>): string
  {
    if ws == [] then "" else ws[0] + Concat(ws[1..])
  }

  predicate ProperWords(ws: seq<string>)
  {
    forall k :: 0 <= k < |ws| ==> ws[k] != [] && NoSpace(ws[k])
  }

  // ---------------------------------------------------------------------------
  // Lemmas relating clean_text to the word view.

  lemma {:induction false} WordsLStrip(s: string)
    ensures Words(LStrip(s)) == Words(s)
    decreases |s|
  {
    if s != [] && IsSpace(s[0]) {
      WordsLStrip(s[1..]);
    }
  }

  lemma {:induction false} TakeWordSpaceSuffix(s: string, t: string)
    requires t == [] || IsSpace(t[0])
    ensures TakeWord(s + t) == TakeWord(s)
    decreases |s|
  {
    if s != [] && !IsSpace(s[0]) {
      assert (s + t)[1..] == s[1..] + t;
      TakeWordSpaceSuffix(s[1..], t);
    }
  }

  lemma {:induction false} WordsOfSpaces(t: string)
    requires forall i :: 0 <= i < |t| ==> IsSpace(t[i])
    ensures Words(t) == []
    decreases |t|
  {
    if t != [] {
      WordsOfSpaces(t[1..]);
    }
  }

  /** Trailing whitespace adds no word. */
  lemma {:induction false} WordsSpaceSuffix(s: string, t: string)
    requires forall i :: 0 <= i < |t| ==> IsSpace(t[i])
    ensures Words(s + t) == Words(s)
    decreases |s|
  {
    if s == [] {
      assert s + t == t;
      WordsOfSpaces(t);
    } else if IsSpace(s[0]) {
      assert (s + t)[1..] == s[1..] + t;
      WordsSpaceSuffix(s[1..], t);
    } else {
      TakeWordSpaceSuffix(s, t);
      var w := TakeWord(s);
      assert (s + t)[|w|..] == s[|w|..] + t;
      WordsSpaceSuffix(s[|w|..], t);
    }
  }

  /** Cutting off a whitespace tail keeps the words. */
  lemma WordsSpaceTail(u: string, n: nat)
    requires n <= |u|
    requires forall i :: n <= i < |u| ==> IsSpace(u[i])
    ensures Words(u[..n]) == Words(u)
  {
    var r := u[..n];
    var t := u[n..];
    assert u == r + t;
    forall i | 0 <= i < |t|
      ensures IsSpace(t[i])
    {
      assert t[i] == u[n + i];
    }
    WordsSpaceSuffix(r, t);
  }

  lemma WordsStrip(s: string)
    ensures Words(Strip(s)) == Words(s)
  {
    var u := LStrip(s);
    WordsSpaceTail(u, |RStrip(u)|);
    WordsLStrip(s);
  }

  /** A whitespace-free prefix passes through the collapse unchanged. */
  lemma {:induction false} CollapseWord(w: string, r: string)
    requires NoSpace(w)
    ensures Collapse(w + r) == w + Collapse(r)
    decreases |w|
  {
    if w != [] {
      var t := w[1..];
      assert (w + r)[0] == w[0] && !IsSpace(w[0]);
      assert (w + r)[1..] == t + r;
      CollapseWord(t, r);
      assert w == [w[0]] + t;
    } else {
      assert w + r == r;
    }
  }

  /** On a string without edge whitespace, the collapse is the word join. */
  lemma {:induction false} CollapseIsJoin(u: string)
    requires u == [] || (!IsSpace(u[0]) && !IsSpace(u[|u| - 1]))
    ensures Collapse(u) == Join(Words(u))
    decreases |u|
  {
    if u != [] {
      var w := TakeWord(u);
      var rest := u[|w|..];
      assert u == w + rest;
      CollapseWord(w, rest);
      assert Words(u) == [w] + Words(rest);
      if rest == [] {
        assert Words(rest) == [];
      } else {
        var u' := LStrip(rest);
        AfterWord(u, w, rest, u');
        CollapseIsJoin(u');
        JoinCons(w, Words(u'));
      }
    }
  }

  /** What follows the first word of an edge-trimmed string: a whitespace run
      and another edge-trimmed, non-empty string with the same words. */
  lemma AfterWord(u: string, w: string, rest: string, u': string)
    requires u != [] && !IsSpace(u[0]) && !IsSpace(u[|u| - 1])
    requires w == TakeWord(u) && rest == u[|w|..] && rest != [] && u' == LStrip(rest)
    ensures Collapse(rest) == " " + Collapse(u')
    ensures Words(rest) == Words(u') && Words(u') != []
    ensures !IsSpace(u'[0]) && !IsSpace(u'[|u'| - 1]) && |u'| < |u|
  {
    assert IsSpace(rest[0]);
    WordsLStrip(rest);
    assert rest[|rest| - 1] == u[|u| - 1];
    assert u' != [];
    assert u'[|u'| - 1] == u[|u| - 1];
    WordsHasNonSpace(u', 0);
  }

  lemma JoinCons(w: string, ws: seq<string>)
    requires ws != []
    ensures Join([w] + ws) == w + " " + Join(ws)
  {
    assert ([w] + ws)[1..] == ws;
  }

  /** `clean_text(s) == ' '.join(s.split())` for every string. */
  lemma CleanTextIsSplitJoin(s: string)
    ensures CleanText(s) == Join(Words(s))
  {
    if s != "" {
      var u := Strip(s);
      assert u == [] || (!IsSpace(u[0]) && !IsSpace(u[|u| - 1])) by {
        if u != [] {
          var l := LStrip(s);
          assert u == l[..|u|];
          assert !IsSpace(l[0]);
        }
      }
      CollapseIsJoin(u);
      WordsStrip(s);
    }
  }

  lemma {:induction false} JoinNormalized(ws: seq<string>)
    requires ProperWords(ws)
    ensures Normalized(Join(ws))
    ensures Join(ws) != [] <==> ws != []
    decreases |ws|
  {
    if |ws| > 1 {
      JoinNormalized(ws[1..]);
      var j := Join(ws[1..]);
      var r := ws[0] + " " + j;
      forall i | 0 <= i < |r| - 1
        ensures !(IsSpace(r[i]) && IsSpace(r[i + 1]))
      {
        if i < |ws[0]| - 1 {
        } else if i == |ws[0]| - 1 {
        } else if i == |ws[0]| {
          assert r[i + 1] == j[0];
        } else {
          assert r[i] == j[i - |ws[0]| - 1];
          assert r[i + 1] == j[i + 1 - |ws[0]| - 1];
        }
      }
      forall i | 0 <= i < |r| && IsSpace(r[i])
        ensures r[i] == ' '
      {
        if i > |ws[0]| {
          assert r[i] == j[i - |ws[0]| - 1];
        }
      }
    }
  }

  /** The result of `clean_text` is always in normal form. */
  lemma CleanTextNormalized(s: string)
    ensures Normalized(CleanText(s))
    ensures CleanText(s) == "" <==> forall i :: 0 <= i < |s| ==> IsSpace(s[i])
  {
    CleanTextIsSplitJoin(s);
    JoinNormalized(Words(s));
    if forall i :: 0 <= i < |s| ==> IsSpace(s[i]) {
      WordsOfSpaces(s);
    } else {
      var k :| 0 <= k < |s| && !IsSpace(s[k]);
      WordsHasNonSpace(s, k);
    }
  }

  /** Some character is not whitespace. */
  predicate HasContent(s: string)
  {
    exists i :: 0 <= i < |s| && !IsSpace(s[i])
  }

  /** str.strip() leaves a string in normal form unchanged. */
  lemma StripOfNormalized(s: string)
    requires Normalized(s)
    ensures Strip(s) == s
  {
  }

  /** `clean_text(s).strip()` is non-empty exactly when s has a character
      that is not whitespace. */
  lemma CleanTextNonEmpty(s: string)
    ensures Strip(CleanText(s)) != "" <==> HasContent(s)
  {
    CleanTextNormalized(s);
    StripOfNormalized(CleanText(s));
  }

  lemma {:induction false} WordsHasNonSpace(s: string, k: nat)
    requires k < |s| && !IsSpace(s[k])
    ensures Words(s) != []
    decreases |s|
  {
    if IsSpace(s[0]) {
      WordsHasNonSpace(s[1..], k - 1);
    }
  }

  lemma {:induction false} RemoveSpacesAppend(a: string, b: string)
    ensures RemoveSpaces(a + b) == RemoveSpaces(a) + RemoveSpaces(b)
    decreases |a|
  {
    if a != [] {
      assert (a + b)[1..] == a[1..] + b;
      RemoveSpacesAppend(a[1..], b);
    } else {
      assert a + b == b;
    }
  }

  lemma {:induction false} RemoveSpacesOfWord(w: string)
    requires NoSpace(w)
    ensures RemoveSpaces(w) == w
    decreases |w|
  {
    if w != [] {
      RemoveSpacesOfWord(w[1..]);
    }
  }

  lemma {:induction false} RemoveSpacesOfSpaces(t: string)
    requires forall i :: 0 <= i < |t| ==> IsSpace(t[i])
    ensures RemoveSpaces(t) == []
    decreases |t|
  {
    if t != [] {
      RemoveSpacesOfSpaces(t[1..]);
    }
  }

  lemma {:induction false} RemoveSpacesIsConcatWords(s: string)
    ensures RemoveSpaces(s) == Concat(Words(s))
    decreases |s|
  {
    if s != [] {
      if IsSpace(s[0]) {
        RemoveSpacesIsConcatWords(s[1..]);
      } else {
        var w := TakeWord(s);
        assert s == w + s[|w|..];
        RemoveSpacesAppend(w, s[|w|..]);
        RemoveSpacesOfWord(w);
        RemoveSpacesIsConcatWords(s[|w|..]);
        assert ([w] + Words(s[|w|..]))[1..] == Words(s[|w|..]);
      }
    }
  }

  lemma {:induction false} RemoveSpacesOfJoin(ws: seq<string>)
    requires ProperWords(ws)
    ensures RemoveSpaces(Join(ws)) == Concat(ws)
    decreases |ws|
  {
    if |ws| == 1 {
      RemoveSpacesOfWord(ws[0]);
      assert Concat(ws) == ws[0] + Concat([]);
    } else if |ws| > 1 {
      RemoveSpacesOfJoin(ws[1..]);
      RemoveSpacesAppend(ws[0] + " ", Join(ws[1..]));
      RemoveSpacesAppend(ws[0], " ");
      RemoveSpacesOfWord(ws[0]);
      RemoveSpacesOfSpaces(" ");
    }
  }

  /** `clean_text` only touches whitespace: every other character survives, in order. */
  lemma CleanTextKeepsContent(s: string)
    ensures RemoveSpaces(CleanText(s)) == RemoveSpaces(s)
  {
    CleanTextIsSplitJoin(s);
    RemoveSpacesOfJoin(Words(s));
    RemoveSpacesIsConcatWords(s);
  }

  lemma {:induction false} WordsOfJoin(ws: seq<string>)
    requires ProperWords(ws)
    ensures Words(Join(ws)) == ws
    decreases |ws|
  {
    if |ws| == 1 {
      WordsOfWord(ws[0], "");
      assert ws[0] + "" == ws[0];
    } else if |ws| > 1 {
      var j := Join(ws[1..]);
      WordsOfJoin(ws[1..]);
      WordsOfWord(ws[0], " " + j);
      assert ws[0] + " " + j == ws[0] + (" " + j);
      assert (" " + j)[1..] == j;
    }
  }

  lemma {:induction false} WordsOfWord(w: string, t: string)
    requires w != [] && NoSpace(w)
    requires t == [] || IsSpace(t[0])
    ensures Words(w + t) == [w] + Words(t)
  {
    TakeWordSpaceSuffix(w, t);
    TakeWordOfWord(w);
    assert (w + t)[|w|..] == t;
  }

  lemma {:induction false} TakeWordOfWord(w: string)
    requires NoSpace(w)
    ensures TakeWord(w) == w
    decreases |w|
  {
    if w != [] {
      TakeWordOfWord(w[1..]);
    }
  }

  /** Cleaning an already clean string changes nothing. */
  lemma CleanTextIdempotent(s: string)
    ensures CleanText(CleanText(s)) == CleanText(s)
  {
    CleanTextIsSplitJoin(s);
    CleanTextIsSplitJoin(CleanText(s));
    WordsOfJoin(Words(s));
  }

  // ---------------------------------------------------------------------------
  // Substrings and decimal rendering.

  /** Python's `needle in haystack` for strings. */
  predicate Contains(haystack: string, needle: string)
  {
    exists k :: 0 <= k <= |haystack| - |needle| && OccursAt(haystack, needle, k)
  }

  predicate OccursAt(haystack: string, needle: string, k: int)
  {
    0 <= k <= |haystack| - |needle| && haystack[k..k + |needle|] == needle
  }

  function DigitChar(d: nat): char
    requires d < 10
  {
    "0123456789"[d]
  }

  /** f"{n}" for a non-negative integer. */
  function Decimal(n: nat): (r: string)
    ensures r != [] && forall i :: 0 <= i < |r| ==> '0' <= r[i] <= '9'
  {
    if n < 10 then [DigitChar(n)] else Decimal(n / 10) + [DigitChar(n % 10)]
  }

  function DigitValue(c: char): nat
  {
    if '0' <= c <= '9' then (c as int - '0' as int) as nat else 0
  }

  /** int(s) for a string of decimal digits. */
  function DigitsValue(s: string): nat
  {
    if s == [] then 0 else DigitsValue(s[..|s| - 1]) * 10 + DigitValue(s[|s| - 1])
  }

  /** Rendering a number in decimal and reading it back gives the number. */
  lemma {:induction false} DecimalRoundTrip(n: nat)
    ensures DigitsValue(Decimal(n)) == n
    decreases n
  {
    if n >= 10 {
      DecimalRoundTrip(n / 10);
      var r := Decimal(n);
      assert r[..|r| - 1] == Decimal(n / 10);
    }
  }

  /** Distinct numbers render to distinct labels under any common prefix. */
  lemma LabelsDistinct(prefix: string, m: nat, n: nat)
    requires m != n
    ensures prefix + Decimal(m) != prefix + Decimal(n)
  {
    DecimalRoundTrip(m);
    DecimalRoundTrip(n);
    assert (prefix + Decimal(m))[|prefix|..] == Decimal(m);
    assert (prefix + Decimal(n))[|prefix|..] == Decimal(n);
  }
}
