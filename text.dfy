/**
 * String helpers the statement builders rely on: separator joining (StatementBuilder's
 * appendExceptFirst), decimal rendering of integers (StringBuilder.append(int/long)),
 * Java's String.trim and the comma-or-whitespace split used for primary-key specs.
 */
module Text {
  import opened Wrappers

  // ---------------------------------------------------------------- joining

  /** The items separated by `sep`: what appendExceptFirst(sep) + append(item) builds. */
  function Join(sep: string, xs: seq<string>): string
  {
    if |xs| == 0 then "" else if |xs| == 1 then xs[0] else xs[0] + sep + Join(sep, xs[1..])
  }

  /** Appending one more item to a joined list: the step a builder loop takes. */
  lemma {:induction false} JoinSnoc(sep: string, xs: seq<string>, x: string)
    ensures Join(sep, xs + [x]) == if xs == [] then x else Join(sep, xs) + sep + x
  {
    if |xs| == 0 {
      assert xs + [x] == [x];
    } else if |xs| == 1 {
      assert xs + [x] == [xs[0], x];
      assert [xs[0], x][1..] == [x];
    } else {
      assert (xs + [x])[1..] == xs[1..] + [x];
      JoinSnoc(sep, xs[1..], x);
    }
  }

  /** `n` copies of `s`. */
  function Repeat(s: string, n: nat): (r: seq<string>)
    ensures |r| == n && forall k :: 0 <= k < n ==> r[k] == s
  {
    if n == 0 then [] else Repeat(s, n - 1) + [s]
  }

  /** The "?, ?, ..., ?" list of a parameterised statement with `n` parameters. */
  function Placeholders(n: nat): string
  {
    Join(", ", Repeat("?", n))
  }

  /** One more placeholder: a separator unless the list was empty, then '?'. */
  lemma PlaceholdersStep(i: nat)
    ensures Placeholders(i + 1) == (if i > 0 then Placeholders(i) + ", " else Placeholders(i)) + "?"
  {
    assert Repeat("?", i + 1) == Repeat("?", i) + ["?"];
    JoinSnoc(", ", Repeat("?", i), "?");
  }

  /** Number of occurrences of `c` in `s`. */
  function Occurrences(s: string, c: char): nat
  {
    if s == [] then 0 else Occurrences(s[..|s| - 1], c) + (if s[|s| - 1] == c then 1 else 0)
  }

  lemma {:induction false} OccurrencesAppend(a: string, b: string, c: char)
    ensures Occurrences(a + b, c) == Occurrences(a, c) + Occurrences(b, c)
  {
    if b == [] {
      assert a + b == a;
    } else {
      assert (a + b)[..|a + b| - 1] == a + b[..|b| - 1];
      OccurrencesAppend(a, b[..|b| - 1], c);
    }
  }

  /** A placeholder list for `n` parameters holds exactly `n` question marks. */
  lemma {:induction false} PlaceholderCount(n: nat)
    ensures Occurrences(Placeholders(n), '?') == n
  {
    if n > 0 {
      PlaceholderCount(n - 1);
      JoinSnoc(", ", Repeat("?", n - 1), "?");
      if n > 1 {
        OccurrencesAppend(Placeholders(n - 1), ", ", '?');
        OccurrencesAppend(Placeholders(n - 1) + ", ", "?", '?');
        assert Occurrences(", ", '?') == 0 by {
          assert ", "[..1] == ",";
          assert ","[..0] == "";
        }
      }
      assert Occurrences("?", '?') == 1 by { assert "?"[..0] == ""; }
    }
  }

  // ---------------------------------------------------------------- integers

  predicate IsDigit(c: char) { '0' <= c <= '9' }

  function DigitChar(d: nat): (c: char)
    requires d < 10
    ensures IsDigit(c) && c as int - '0' as int == d
  {
    ('0' as int + d) as char
  }

  /** Decimal rendering of a natural number, most significant digit first. */
  function NatToString(n: nat): (r: string)
    ensures |r| > 0 && forall k :: 0 <= k < |r| ==> IsDigit(r[k])
    decreases n
  {
    if n < 10 then [DigitChar(n)] else NatToString(n / 10) + [DigitChar(n % 10)]
  }

  function DigitValue(c: char): nat
    requires IsDigit(c)
  {
    c as int - '0' as int
  }

  /** Reads back a string of decimal digits. */
  function ParseNat(s: string): nat
    requires forall k :: 0 <= k < |s| ==> IsDigit(s[k])
  {
    if s == [] then 0 else ParseNat(s[..|s| - 1]) * 10 + DigitValue(s[|s| - 1])
  }

  /** The decimal rendering loses nothing: it can be read back. */
  lemma {:induction false} ParseNatToString(n: nat)
    ensures ParseNat(NatToString(n)) == n
    decreases n
  {
    var s := NatToString(n);
    if n >= 10 {
      ParseNatToString(n / 10);
      assert s[..|s| - 1] == NatToString(n / 10);
    } else {
      assert s[..|s| - 1] == [];
    }
  }

  /** Distinct numbers have distinct renderings. */
  lemma NatToStringInjective(m: nat, n: nat)
    requires NatToString(m) == NatToString(n)
    ensures m == n
  {
    ParseNatToString(m);
    ParseNatToString(n);
  }

  /** Decimal rendering of an int, with a leading '-' when negative (Java's Long.toString). */
  function IntToString(i: int): (r: string)
    ensures |r| > 0
  {
    if i < 0 then "-" + NatToString(-i) else NatToString(i)
  }

  /** Reads back an optionally signed decimal; None for anything else. */
  function ParseInt(s: string): Option<int>
  {
    if |s| > 1 && s[0] == '-' && (forall k :: 1 <= k < |s| ==> IsDigit(s[k])) then
      var magnitude: int := ParseNat(s[1..]);
      Some(-magnitude)
    else if |s| > 0 && forall k :: 0 <= k < |s| ==> IsDigit(s[k]) then
      Some(ParseNat(s))
    else
      None
  }

  lemma ParseIntToString(i: int)
    ensures ParseInt(IntToString(i)) == Some(i)
  {
    var s := IntToString(i);
    if i < 0 {
      assert s[1..] == NatToString(-i);
      ParseNatToString(-i);
    } else {
      ParseNatToString(i);
    }
  }

  // ---------------------------------------------------------------- prefixes and suffixes

  predicate StartsWith(s: string, p: string)
  {
    |p| <= |s| && s[..|p|] == p
  }

  predicate EndsWith(s: string, p: string)
  {
    |p| <= |s| && s[|s| - |p|..] == p
  }

  lemma EndsWithAppend(a: string, b: string)
    ensures EndsWith(a + b, b)
  {
    assert (a + b)[|a + b| - |b|..] == b;
  }

  /** The last three parts of a left-nested concatenation form one of its suffixes. */
  lemma EndsWithLastThree(x: string, a: string, p: string, c: string)
    ensures EndsWith(x + a + p + c, a + p + c)
  {
    assert x + a + p + c == x + (a + p + c);
    EndsWithAppend(x, a + p + c);
  }

  // ---------------------------------------------------------------- Java trim

  /** The characters String.trim() removes: every char up to U+0020. */
  predicate IsTrimmed(c: char) { c <= ' ' }

  function TrimStart(s: string): string
  {
    if |s| > 0 && IsTrimmed(s[0]) then TrimStart(s[1..]) else s
  }

  function TrimEnd(s: string): string
  {
    if |s| > 0 && IsTrimmed(s[|s| - 1]) then TrimEnd(s[..|s| - 1]) else s
  }

  lemma {:induction false} TrimStartIsSuffix(s: string)
    ensures |TrimStart(s)| <= |s| && TrimStart(s) == s[|s| - |TrimStart(s)|..]
    ensures TrimStart(s) == [] || !IsTrimmed(TrimStart(s)[0])
  {
    if |s| > 0 && IsTrimmed(s[0]) {
      TrimStartIsSuffix(s[1..]);
    }
  }

  lemma {:induction false} TrimEndIsPrefix(s: string)
    ensures |TrimEnd(s)| <= |s| && TrimEnd(s) == s[..|TrimEnd(s)|]
    ensures TrimEnd(s) == [] || !IsTrimmed(TrimEnd(s)[|TrimEnd(s)| - 1])
  {
    if |s| > 0 && IsTrimmed(s[|s| - 1]) {
      TrimEndIsPrefix(s[..|s| - 1]);
    }
  }

  /** Java's String.trim(): strip leading and trailing characters up to U+0020. */
  function JavaTrim(s: string): string
  {
    TrimEnd(TrimStart(s))
  }

  /** What trim keeps is a contiguous part of the input with no blank at either end. */
  lemma JavaTrimIsInfix(s: string)
    ensures exists i, j :: 0 <= i <= j <= |s| && JavaTrim(s) == s[i..j]
    ensures JavaTrim(s) == [] || (!IsTrimmed(JavaTrim(s)[0]) && !IsTrimmed(JavaTrim(s)[|JavaTrim(s)| - 1]))
  {
    var t := TrimStart(s);
    var r := TrimEnd(t);
    TrimStartIsSuffix(s);
    TrimEndIsPrefix(t);
    assert r == s[|s| - |t|..][..|r|];
    assert r == s[|s| - |t|..|s| - |t| + |r|];
    if r != [] {
      assert r[0] == t[0];
    }
  }

  /** Trimming a string with non-blank ends followed by blanks gives back that string. */
  lemma {:induction false} JavaTrimTrailing(s: string, blanks: string)
    requires |s| > 0 && !IsTrimmed(s[0]) && !IsTrimmed(s[|s| - 1])
    requires forall k :: 0 <= k < |blanks| ==> IsTrimmed(blanks[k])
    ensures JavaTrim(s + blanks) == s
  {
    assert TrimStart(s + blanks) == s + blanks;
    TrimEndBlanks(s, blanks);
  }

  lemma {:induction false} TrimEndBlanks(s: string, blanks: string)
    requires |s| > 0 && !IsTrimmed(s[|s| - 1])
    requires forall k :: 0 <= k < |blanks| ==> IsTrimmed(blanks[k])
    ensures TrimEnd(s + blanks) == s
    decreases |blanks|
  {
    if blanks == [] {
      assert s + blanks == s;
    } else {
      var u := s + blanks;
      assert u[..|u| - 1] == s + blanks[..|blanks| - 1];
      TrimEndBlanks(s, blanks[..|blanks| - 1]);
    }
  }

  // ---------------------------------------------------------------- splitting

  /** The characters matched by the regular expression "(,|\\s)": a comma or Java's \s class. */
  predicate IsSeparator(c: char)
  {
    c == ',' || c == ' ' || c == '\t' || c == '\n' || c == '\U{0B}' || c == '\U{0C}' || c == '\r'
  }

  predicate HasNoSeparator(s: string)
  {
    forall k :: 0 <= k < |s| ==> !IsSeparator(s[k])
  }

  /**
   * The pieces between separator characters, as String.split yields them before it drops
   * trailing empty pieces (empty pieces are removed later anyway).
   */
  function SplitAtSeparators(s: string): (r: seq<string>)
    ensures |r| >= 1
    ensures forall k :: 0 <= k < |r| ==> HasNoSeparator(r[k])
  {
    if s == [] then [""]
    else
      var rest := SplitAtSeparators(s[1..]);
      if IsSeparator(s[0]) then [""] + rest else [[s[0]] + rest[0]] + rest[1..]
  }

  /** The pieces, trimmed, that are not blank: the loop body of TableDefinition.getColumns. */
  function NonBlankPieces(pieces: seq<string>): seq<string>
  {
    if pieces == [] then []
    else
      var t := JavaTrim(pieces[0]);
      (if |t| > 0 then [t] else []) + NonBlankPieces(pieces[1..])
  }

  /** Concatenation regrouped, kept apart from the surrounding string facts. */
  lemma ConcatAssoc<T>(a: seq<T>, b: seq<T>, c: seq<T>)
    ensures (a + b) + c == a + (b + c)
  {
  }

  lemma {:induction false} NonBlankPiecesAppend(a: seq<string>, b: seq<string>)
    ensures NonBlankPieces(a + b) == NonBlankPieces(a) + NonBlankPieces(b)
  {
    if a != [] {
      assert (a + b)[0] == a[0];
      assert (a + b)[1..] == a[1..] + b;
      NonBlankPiecesAppend(a[1..], b);
      var t := JavaTrim(a[0]);
      var head: seq<string> := if |t| > 0 then [t] else [];
      ConcatAssoc(head, NonBlankPieces(a[1..]), NonBlankPieces(b));
    } else {
      assert a + b == b;
    }
  }

  /** A separator-free word in front of `t` is glued to the first piece of `t`. */
  lemma {:induction false} SplitWord(w: string, t: string)
    requires HasNoSeparator(w)
    ensures SplitAtSeparators(w + t) ==
            [w + SplitAtSeparators(t)[0]] + SplitAtSeparators(t)[1..]
  {
    if w != [] {
      assert (w + t)[1..] == w[1..] + t;
      assert (w + t)[0] == w[0];
      SplitWord(w[1..], t);
      var rest := SplitAtSeparators(w[1..] + t);
      assert rest[0] == w[1..] + SplitAtSeparators(t)[0];
      assert rest[1..] == SplitAtSeparators(t)[1..];
      assert SplitAtSeparators(w + t) == [[w[0]] + rest[0]] + rest[1..];
      assert [w[0]] + (w[1..] + SplitAtSeparators(t)[0]) == w + SplitAtSeparators(t)[0];
    } else {
      assert w + t == t;
      var r := SplitAtSeparators(t);
      assert r == [r[0]] + r[1..];
      assert w + r[0] == r[0];
    }
  }

  /** Separator characters in front of `t` open empty pieces. */
  lemma {:induction false} SplitSeparators(d: string, t: string)
    requires forall k :: 0 <= k < |d| ==> IsSeparator(d[k])
    ensures SplitAtSeparators(d + t) == Repeat("", |d|) + SplitAtSeparators(t)
  {
    if d != [] {
      assert (d + t)[1..] == d[1..] + t;
      assert IsSeparator((d + t)[0]);
      SplitSeparators(d[1..], t);
      RepeatCons("", |d| - 1);
      ConsAssoc("", Repeat("", |d| - 1), SplitAtSeparators(t));
    } else {
      assert d + t == t;
    }
  }

  /** Repeat also grows at the front. */
  lemma RepeatCons(s: string, n: nat)
    ensures Repeat(s, n + 1) == [s] + Repeat(s, n)
  {
    assert forall k :: 0 <= k < n + 1 ==> Repeat(s, n + 1)[k] == ([s] + Repeat(s, n))[k];
  }

  lemma ConsAssoc<T>(x: T, a: seq<T>, b: seq<T>)
    ensures [x] + (a + b) == ([x] + a) + b
  {
  }

  lemma {:induction false} NonBlankEmpties(n: nat)
    ensures NonBlankPieces(Repeat("", n)) == []
  {
    if n > 0 {
      assert Repeat("", n) == [""] + Repeat("", n - 1);
      assert Repeat("", n)[1..] == Repeat("", n - 1);
      NonBlankEmpties(n - 1);
    }
  }

  /** A word that the primary-key split returns unchanged: non-empty, nothing blank, no comma. */
  predicate IsPlainWord(w: string)
  {
    |w| > 0 && forall k :: 0 <= k < |w| ==> !IsTrimmed(w[k]) && w[k] != ','
  }

  lemma PlainWordIsKept(w: string)
    requires IsPlainWord(w)
    ensures HasNoSeparator(w) && JavaTrim(w) == w
  {
    assert TrimStart(w) == w;
  }

  /** A separator-free word, then a run of separators: the word, then one empty piece per extra separator. */
  lemma SplitWordSeparators(w: string, sep: string, j: string)
    requires HasNoSeparator(w)
    requires |sep| > 0 && forall k :: 0 <= k < |sep| ==> IsSeparator(sep[k])
    ensures SplitAtSeparators(w + sep + j) == [w] + (Repeat("", |sep| - 1) + SplitAtSeparators(j))
  {
    var tail := Repeat("", |sep| - 1) + SplitAtSeparators(j);
    SplitSeparators(sep, j);
    var empties := Repeat("", |sep|);
    var rest := SplitAtSeparators(sep + j);
    assert rest[0] == empties[0] == "";
    assert rest[1..] == empties[1..] + SplitAtSeparators(j);
    assert empties[1..] == Repeat("", |sep| - 1);
    assert w + sep + j == w + (sep + j);
    SplitWord(w, sep + j);
    assert w + rest[0] == w;
  }

  /** Empty pieces after a plain word are dropped. */
  lemma NonBlankAfterWord(w: string, n: nat, t: seq<string>)
    requires IsPlainWord(w)
    ensures NonBlankPieces([w] + (Repeat("", n) + t)) == [w] + NonBlankPieces(t)
  {
    PlainWordIsKept(w);
    NonBlankPiecesAppend([w], Repeat("", n) + t);
    NonBlankPiecesAppend(Repeat("", n), t);
    NonBlankEmpties(n);
    assert NonBlankPieces([w]) == [w];
  }

  /** A run made only of separator characters (possibly empty). */
  predicate AllSeparators(s: string)
  {
    forall k :: 0 <= k < |s| ==> IsSeparator(s[k])
  }

  /** Each word followed by its own gap: ws[0] + gaps[0] + ws[1] + gaps[1] + ... */
  function Spaced(ws: seq<string>, gaps: seq<string>): string
    requires |gaps| == |ws|
  {
    if ws == [] then "" else ws[0] + gaps[0] + Spaced(ws[1..], gaps[1..])
  }

  /** Separators in front of a text only open empty pieces, which the filter drops. */
  lemma LeadingSeparatorsDropped(lead: string, t: string)
    requires AllSeparators(lead)
    ensures NonBlankPieces(SplitAtSeparators(lead + t)) == NonBlankPieces(SplitAtSeparators(t))
  {
    SplitSeparators(lead, t);
    NonBlankPiecesAppend(Repeat("", |lead|), SplitAtSeparators(t));
    NonBlankEmpties(|lead|);
  }

  /**
   * Plain words, each followed by its own run of separators (every run but the last
   * non-empty), split back to exactly those words, in order.
   */
  lemma {:induction false} SplitSpaced(ws: seq<string>, gaps: seq<string>)
    requires |gaps| == |ws| > 0
    requires forall k :: 0 <= k < |ws| ==> IsPlainWord(ws[k]) && AllSeparators(gaps[k])
    requires forall k :: 0 <= k < |ws| - 1 ==> |gaps[k]| > 0
    ensures NonBlankPieces(SplitAtSeparators(Spaced(ws, gaps))) == ws
  {
    var w, g := ws[0], gaps[0];
    var rest := Spaced(ws[1..], gaps[1..]);
    PlainWordIsKept(w);
    if |ws| > 1 {
      SplitSpaced(ws[1..], gaps[1..]);
    } else {
      assert NonBlankPieces(SplitAtSeparators(rest)) == NonBlankPieces([""]) == [];
    }
    if |g| > 0 {
      SplitWordSeparators(w, g, rest);
      NonBlankAfterWord(w, |g| - 1, SplitAtSeparators(rest));
    } else {
      assert Spaced(ws, gaps) == w by {
        assert w + g + rest == w;
      }
      SplitWord(w, "");
      assert w + "" == w;
      assert NonBlankPieces([w]) == [w];
    }
    assert ws == [w] + ws[1..];
  }

  /** A uniform join is the spaced form with `sep` in every gap but the last, which is empty. */
  lemma {:induction false} JoinIsSpaced(sep: string, ws: seq<string>)
    requires |ws| > 0
    ensures Join(sep, ws) == Spaced(ws, Repeat(sep, |ws| - 1) + [""])
  {
    var gaps := Repeat(sep, |ws| - 1) + [""];
    if |ws| == 1 {
      assert gaps == [""];
      assert ws[0] + "" + "" == ws[0];
    } else {
      JoinIsSpaced(sep, ws[1..]);
      assert gaps[1..] == Repeat(sep, |ws| - 2) + [""];
      assert gaps[0] == sep;
    }
  }

  /** Nothing but characters trim removes. */
  predicate AllTrimmed(s: string)
  {
    forall k :: 0 <= k < |s| ==> IsTrimmed(s[k])
  }

  lemma {:induction false} TrimStartEmpty(s: string)
    ensures TrimStart(s) == [] <==> AllTrimmed(s)
  {
    if |s| > 0 {
      TrimStartEmpty(s[1..]);
      if IsTrimmed(s[0]) {
        assert AllTrimmed(s) <==> AllTrimmed(s[1..]) by {
          assert forall k :: 0 < k < |s| ==> s[k] == s[1..][k - 1];
        }
      }
    }
  }

  lemma {:induction false} TrimEndKeepsFirst(s: string)
    requires |s| > 0 && !IsTrimmed(s[0])
    ensures TrimEnd(s) != []
  {
    if IsTrimmed(s[|s| - 1]) {
      TrimEndKeepsFirst(s[..|s| - 1]);
    }
  }

  /** trim gives the empty string exactly when every character is at most U+0020. */
  lemma JavaTrimEmpty(s: string)
    ensures JavaTrim(s) == [] <==> AllTrimmed(s)
  {
    TrimStartEmpty(s);
    TrimStartIsSuffix(s);
    if TrimStart(s) != [] {
      TrimEndKeepsFirst(TrimStart(s));
    }
  }

  lemma {:induction false} NonBlankPiecesEmpty(pieces: seq<string>)
    ensures NonBlankPieces(pieces) == [] <==> AllBlankPieces(pieces)
  {
    if pieces != [] {
      NonBlankPiecesEmpty(pieces[1..]);
      JavaTrimEmpty(pieces[0]);
      assert pieces == [pieces[0]] + pieces[1..];
      AllBlankPiecesCons(pieces[0], pieces[1..]);
    }
  }

  /** A comma or a character trim removes: what a spec that yields no column consists of. */
  predicate IsBlankOrComma(c: char)
  {
    c == ',' || IsTrimmed(c)
  }

  /** Every piece consists of blanks only. */
  predicate AllBlankPieces(pieces: seq<string>)
  {
    forall i :: 0 <= i < |pieces| ==> AllTrimmed(pieces[i])
  }

  predicate AllBlankOrComma(s: string)
  {
    forall k :: 0 <= k < |s| ==> IsBlankOrComma(s[k])
  }

  lemma AllTrimmedCons(c: char, t: string)
    ensures AllTrimmed([c] + t) <==> IsTrimmed(c) && AllTrimmed(t)
  {
    assert ([c] + t)[0] == c;
    assert forall j :: 0 <= j < |t| ==> ([c] + t)[j + 1] == t[j];
  }

  lemma AllBlankOrCommaCons(s: string)
    requires s != []
    ensures AllBlankOrComma(s) <==> IsBlankOrComma(s[0]) && AllBlankOrComma(s[1..])
  {
    assert forall k :: 0 < k < |s| ==> s[k] == s[1..][k - 1];
  }

  lemma AllBlankPiecesCons(p: string, rest: seq<string>)
    ensures AllBlankPieces([p] + rest) <==> AllTrimmed(p) && AllBlankPieces(rest)
  {
    assert ([p] + rest)[0] == p;
    assert forall j :: 0 <= j < |rest| ==> ([p] + rest)[j + 1] == rest[j];
  }

  lemma {:induction false} SplitPiecesBlank(s: string)
    ensures AllBlankPieces(SplitAtSeparators(s)) <==> AllBlankOrComma(s)
  {
    if s != [] {
      var rest := SplitAtSeparators(s[1..]);
      SplitPiecesBlank(s[1..]);
      AllBlankOrCommaCons(s);
      assert rest == [rest[0]] + rest[1..];
      AllBlankPiecesCons(rest[0], rest[1..]);
      if IsSeparator(s[0]) {
        assert SplitAtSeparators(s) == [""] + rest;
        AllBlankPiecesCons("", rest);
      } else {
        assert SplitAtSeparators(s) == [[s[0]] + rest[0]] + rest[1..];
        AllBlankPiecesCons([s[0]] + rest[0], rest[1..]);
        AllTrimmedCons(s[0], rest[0]);
      }
    }
  }

  /** No piece survives the split and the filter exactly when the text is only commas and blanks. */
  lemma NoPiecesIffBlank(s: string)
    ensures NonBlankPieces(SplitAtSeparators(s)) == [] <==> AllBlankOrComma(s)
  {
    NonBlankPiecesEmpty(SplitAtSeparators(s));
    SplitPiecesBlank(s);
  }

  /** Every piece the split keeps is non-empty, separator-free and already trimmed. */
  lemma {:induction false} NonBlankPiecesArePlain(pieces: seq<string>)
    requires forall k :: 0 <= k < |pieces| ==> HasNoSeparator(pieces[k])
    ensures forall k :: 0 <= k < |NonBlankPieces(pieces)| ==>
              var p := NonBlankPieces(pieces)[k];
              |p| > 0 && HasNoSeparator(p) && JavaTrim(p) == p
  {
    if pieces != [] {
      NonBlankPiecesArePlain(pieces[1..]);
      var t := JavaTrim(pieces[0]);
      JavaTrimIsInfix(pieces[0]);
      if |t| > 0 {
        assert TrimStart(t) == t;
        assert TrimEnd(t) == t;
      }
      assert NonBlankPieces(pieces) == (if |t| > 0 then [t] else []) + NonBlankPieces(pieces[1..]);
    }
  }

  // ---------------------------------------------------------------- case folding

  function LowerAscii(c: char): char
  {
    if 'A' <= c <= 'Z' then (c as int + 32) as char else c
  }

  /** String.equalsIgnoreCase, restricted to the folding of ASCII letters. */
  predicate EqualsIgnoreCase(a: string, b: string)
  {
    |a| == |b| && forall k :: 0 <= k < |a| ==> LowerAscii(a[k]) == LowerAscii(b[k])
  }
}
