/** Python `str` operations the modelled code relies on: `split`, `join`,
    whitespace `split()`, decimal rendering of integers and `int(...)` parsing. */
module Text {
  import opened Wrappers

  // ---------------------------------------------------------------------------
  // str.split(sep) for a one-character separator, and sep.join(parts)
  // ---------------------------------------------------------------------------

  /** `s.split(sep)`: the pieces between separators, empty pieces kept. */
  function Split(s: string, sep: char): (parts: seq<string>)
    ensures |parts| >= 1
    decreases |s|
  {
    if s == [] then [[]]
    else
      var rest := Split(s[1..], sep);
      if s[0] == sep then [[]] + rest
      else [[s[0]] + rest[0]] + rest[1..]
  }

  /** `sep.join(parts)`. */
  function Join(parts: seq<string>, sep: char): string
  {
    if parts == [] then []
    else if |parts| == 1 then parts[0]
    else parts[0] + [sep] + Join(parts[1..], sep)
  }

  /** Index of the first occurrence of `c` in `s`. */
  function IndexOf(s: string, c: char): (i: nat)
    requires c in s
    ensures i < |s| && s[i] == c && c !in s[..i]
  {
    if s[0] == c then 0
    else
      assert c in s[1..] by { var k :| 0 <= k < |s| && s[k] == c; assert s[1..][k - 1] == c; }
      var j := IndexOf(s[1..], c);
      assert s[..j + 1] == [s[0]] + s[1..][..j];
      j + 1
  }

  /** Joining the pieces of a split gives the text back, and no piece holds the separator. */
  lemma {:induction false} SplitJoin(s: string, sep: char)
    ensures Join(Split(s, sep), sep) == s
    ensures forall p :: p in Split(s, sep) ==> sep !in p
    decreases |s|
  {
    if s != [] {
      SplitJoin(s[1..], sep);
      var rest := Split(s[1..], sep);
      if s[0] == sep {
        assert ([[]] + rest)[1..] == rest;
        assert s == [sep] + s[1..];
      } else {
        var parts := [[s[0]] + rest[0]] + rest[1..];
        if |rest| == 1 {
          assert s == [s[0]] + s[1..];
        } else {
          assert parts[1..] == rest[1..];
          assert Join(rest, sep) == rest[0] + [sep] + Join(rest[1..], sep);
          assert s == [s[0]] + s[1..];
        }
        forall p | p in parts ensures sep !in p {
          if p == parts[0] {
            assert sep !in rest[0];
          } else {
            assert p in rest[1..];
          }
        }
      }
    }
  }

  /** Splitting a text that starts with a separator-free piece. */
  lemma {:induction false} SplitAfterPiece(p: string, t: string, sep: char)
    requires sep !in p
    ensures Split(p + t, sep) == [p + Split(t, sep)[0]] + Split(t, sep)[1..]
    decreases |p|
  {
    var parts := Split(t, sep);
    if p == [] {
      assert p + t == t;
      assert parts == [parts[0]] + parts[1..];
      assert p + parts[0] == parts[0];
    } else {
      var q := p + t;
      assert q[0] == p[0] && p[0] != sep;
      assert q[1..] == p[1..] + t;
      assert sep !in p[1..];
      SplitAfterPiece(p[1..], t, sep);
      var rest := Split(q[1..], sep);
      assert Split(q, sep) == [[q[0]] + rest[0]] + rest[1..];
      assert [p[0]] + (p[1..] + parts[0]) == p + parts[0];
    }
  }

  /** Splitting undoes joining separator-free pieces. */
  lemma {:induction false} JoinSplit(parts: seq<string>, sep: char)
    requires |parts| >= 1
    requires forall p :: p in parts ==> sep !in p
    ensures Split(Join(parts, sep), sep) == parts
    decreases |parts|
  {
    if |parts| == 1 {
      SplitAfterPiece(parts[0], [], sep);
      assert parts[0] + [] == parts[0];
    } else {
      var tail := Join(parts[1..], sep);
      assert forall p :: p in parts[1..] ==> p in parts;
      JoinSplit(parts[1..], sep);
      SplitAfterPiece(parts[0], [sep] + tail, sep);
      assert ([sep] + tail)[1..] == tail;
      assert Split([sep] + tail, sep) == [[]] + Split(tail, sep);
      assert Join(parts, sep) == parts[0] + [sep] + tail;
      assert parts[0] + [] == parts[0];
      assert ([[]] + Split(tail, sep))[1..] == Split(tail, sep);
      assert Split(parts[0] + ([sep] + tail), sep) == [parts[0]] + Split(tail, sep);
      assert parts[0] + [sep] + tail == parts[0] + ([sep] + tail);
      assert Split(Join(parts, sep), sep) == [parts[0]] + Split(tail, sep);
      assert parts == [parts[0]] + parts[1..];
    }
  }

  /** A split yields a second piece exactly when the separator occurs. */
  lemma {:induction false} SplitHasSecond(s: string, sep: char)
    ensures |Split(s, sep)| >= 2 <==> sep in s
    decreases |s|
  {
    if s != [] {
      SplitHasSecond(s[1..], sep);
      assert sep in s <==> s[0] == sep || sep in s[1..];
    }
  }

  /** Without the separator, a split is the text itself. */
  lemma SplitWithoutSep(s: string, sep: char)
    requires sep !in s
    ensures Split(s, sep) == [s]
  {
    SplitHasSecond(s, sep);
    SplitJoin(s, sep);
  }

  /** With the separator present, the first piece ends at its first occurrence
      and the other pieces are the split of what follows it. */
  lemma {:induction false} SplitAtFirst(s: string, sep: char)
    requires sep in s
    ensures Split(s, sep)[0] == s[..IndexOf(s, sep)]
    ensures Split(s, sep)[1..] == Split(s[IndexOf(s, sep) + 1..], sep)
    decreases |s|
  {
    if s[0] != sep {
      assert sep in s[1..] by { var k :| 0 <= k < |s| && s[k] == sep; assert s[1..][k - 1] == sep; }
      SplitAtFirst(s[1..], sep);
      assert s[1..][IndexOf(s[1..], sep) + 1..] == s[IndexOf(s, sep) + 1..];
    }
  }

  // ---------------------------------------------------------------------------
  // str.split() with no argument: runs of whitespace separate words
  // ---------------------------------------------------------------------------

  /** Characters Python's `str.isspace` accepts. */
  predicate IsSpace(c: char)
  {
    || c == ' ' || ('\t' <= c <= '\r') || ('\U{1C}' <= c <= '\U{1F}')
    || c == '\U{85}' || c == '\U{A0}' || c == '\U{1680}' || ('\U{2000}' <= c <= '\U{200A}')
    || c == '\U{2028}' || c == '\U{2029}' || c == '\U{202F}' || c == '\U{205F}' || c == '\U{3000}'
  }

  /** Length of the leading run of non-space characters. */
  function WordLength(s: string): (n: nat)
    ensures n <= |s|
    ensures forall i :: 0 <= i < n ==> !IsSpace(s[i])
    ensures n < |s| ==> IsSpace(s[n])
  {
    if s == [] || IsSpace(s[0]) then 0 else 1 + WordLength(s[1..])
  }

  /** `s.split()`: the maximal non-whitespace runs, in order. */
  function Words(s: string): seq<string>
    decreases |s|
  {
    if s == [] then []
    else if IsSpace(s[0]) then Words(s[1..])
    else
      var n := WordLength(s);
      [s[..n]] + Words(s[n..])
  }

  /** The characters of `s` that are not whitespace, in order. */
  function NonSpace(s: string): string
  {
    if s == [] then [] else (if IsSpace(s[0]) then [] else [s[0]]) + NonSpace(s[1..])
  }

  /** Concatenation of a sequence of strings. */
  function Concat(ws: seq<string>): string
  {
    if ws == [] then [] else ws[0] + Concat(ws[1..])
  }

  lemma {:induction false} NonSpaceAppend(a: string, b: string)
    ensures NonSpace(a + b) == NonSpace(a) + NonSpace(b)
    decreases |a|
  {
    if a == [] {
      assert a + b == b;
    } else {
      NonSpaceAppend(a[1..], b);
      var x := if IsSpace(a[0]) then [] else [a[0]];
      assert (a + b)[0] == a[0];
      assert (a + b)[1..] == a[1..] + b;
      assert NonSpace(a + b) == x + NonSpace(a[1..] + b);
      assert x + (NonSpace(a[1..]) + NonSpace(b)) == (x + NonSpace(a[1..])) + NonSpace(b);
    }
  }

  lemma {:induction false} NonSpaceOfWord(w: string)
    requires forall i :: 0 <= i < |w| ==> !IsSpace(w[i])
    ensures NonSpace(w) == w
    decreases |w|
  {
    if w != [] {
      NonSpaceOfWord(w[1..]);
      assert w == [w[0]] + w[1..];
    }
  }

  /** A word: non-empty and free of whitespace. */
  predicate IsWord(w: string)
  {
    w != [] && forall i :: 0 <= i < |w| ==> !IsSpace(w[i])
  }

  /** Whitespace splitting keeps every non-space character, in order. */
  lemma {:induction false} WordsKeepText(s: string)
    ensures Concat(Words(s)) == NonSpace(s)
    decreases |s|
  {
    if s != [] {
      if IsSpace(s[0]) {
        WordsKeepText(s[1..]);
      } else {
        var n := WordLength(s);
        var w, tail := s[..n], s[n..];
        WordsKeepText(tail);
        assert s == w + tail;
        NonSpaceAppend(w, tail);
        NonSpaceOfWord(w);
        assert Words(s) == [w] + Words(tail);
        assert ([w] + Words(tail))[1..] == Words(tail);
      }
    }
  }

  /** Whitespace splitting yields only non-empty words free of whitespace. */
  lemma {:induction false} WordsAreWords(s: string)
    ensures forall w :: w in Words(s) ==> IsWord(w)
    decreases |s|
  {
    if s != [] {
      if IsSpace(s[0]) {
        WordsAreWords(s[1..]);
      } else {
        var n := WordLength(s);
        WordsAreWords(s[n..]);
        assert IsWord(s[..n]);
      }
    }
  }

  // ---------------------------------------------------------------------------
  // Decimal digits: str(n) for n >= 0 and the value of a digit string
  // ---------------------------------------------------------------------------

  predicate IsDigit(c: char) { '0' <= c <= '9' }

  predicate AllDigits(s: string) { forall i :: 0 <= i < |s| ==> IsDigit(s[i]) }

  function DigitChar(d: nat): char
    requires d < 10
  {
    (d + '0' as int) as char
  }

  /** `str(n)` for a non-negative integer: decimal, no leading zero. */
  function NatToString(n: nat): (s: string)
    ensures |s| >= 1 && AllDigits(s)
    ensures s[0] == '0' ==> n == 0 && s == "0"
    decreases n
  {
    if n < 10 then [DigitChar(n)] else NatToString(n / 10) + [DigitChar(n % 10)]
  }

  /** The value of a string of ASCII decimal digits. */
  function DigitsValue(s: string): nat
    requires AllDigits(s)
  {
    if s == [] then 0 else DigitsValue(s[..|s| - 1]) * 10 + (s[|s| - 1] as int - '0' as int)
  }

  /** Reading back the rendering of a number gives the number. */
  lemma {:induction false} DigitsOfNat(n: nat)
    ensures DigitsValue(NatToString(n)) == n
    decreases n
  {
    var s := NatToString(n);
    if n >= 10 {
      DigitsOfNat(n / 10);
      assert s[..|s| - 1] == NatToString(n / 10);
    }
  }

  /** The rendering of `n` is the only digit string without a superfluous
      leading zero whose value is `n`. */
  lemma {:induction false} NatOfDigits(s: string)
    requires AllDigits(s) && s != []
    requires s[0] == '0' ==> s == "0"
    ensures NatToString(DigitsValue(s)) == s
    decreases |s|
  {
    var v := DigitsValue(s);
    if |s| == 1 {
      assert s[..0] == [];
      assert v == DigitsValue(s[..0]) * 10 + (s[0] as int - '0' as int);
      assert s == [s[0]];
    } else {
      var init := s[..|s| - 1];
      assert init[0] == s[0];
      NatOfDigits(init);
      var d := s[|s| - 1] as int - '0' as int;
      assert init[0] != '0';
      assert v / 10 == DigitsValue(init) && v % 10 == d;
      assert s == init + [s[|s| - 1]];
    }
  }

  // ---------------------------------------------------------------------------
  // int(text) for a base-10 string
  // ---------------------------------------------------------------------------

  /** The whitespace `int` skips around a number: the ASCII characters space,
      tab, line feed, vertical tab, form feed and carriage return, and every
      non-ASCII character `str.isspace` accepts (which `int` first turns into a
      space). The ASCII separators `\x1c`..`\x1f` are not among them. */
  predicate IntSpace(c: char)
  {
    c == ' ' || ('\t' <= c <= '\r') || (c >= '\U{80}' && IsSpace(c))
  }

  /** `s` without the leading and trailing whitespace `int` skips. */
  function Strip(s: string): (t: string)
    ensures |t| <= |s|
    ensures t != [] ==> !IntSpace(t[0]) && !IntSpace(t[|t| - 1])
    decreases |s|
  {
    if s == [] then []
    else if IntSpace(s[0]) then Strip(s[1..])
    else if IntSpace(s[|s| - 1]) then Strip(s[..|s| - 1])
    else s
  }

  /** Digits with single underscores between them, as `int` accepts. */
  predicate UnderscoredDigits(s: string)
  {
    && s != []
    && IsDigit(s[0]) && IsDigit(s[|s| - 1])
    && (forall i :: 0 <= i < |s| ==> IsDigit(s[i]) || s[i] == '_')
    && (forall i :: 0 <= i < |s| - 1 ==> !(s[i] == '_' && s[i + 1] == '_'))
  }

  function RemoveUnderscores(s: string): (t: string)
    requires forall i :: 0 <= i < |s| ==> IsDigit(s[i]) || s[i] == '_'
    ensures AllDigits(t)
  {
    if s == [] then [] else (if s[0] == '_' then [] else [s[0]]) + RemoveUnderscores(s[1..])
  }

  /** `int(s)` on a string: surrounding whitespace, an optional sign and
      decimal digits possibly grouped by underscores; anything else is `None`
      (Python raises `ValueError`). */
  function ParseInt(s: string): Option<int>
  {
    var t := Strip(s);
    if t == [] then None
    else
      var negative := t[0] == '-';
      var body := if t[0] == '-' || t[0] == '+' then t[1..] else t;
      if UnderscoredDigits(body) then
        var magnitude: int := DigitsValue(RemoveUnderscores(body));
        Some(if negative then -magnitude else magnitude)
      else None
  }

  lemma {:induction false} RemoveUnderscoresOfDigits(s: string)
    requires AllDigits(s)
    ensures RemoveUnderscores(s) == s
    decreases |s|
  {
    if s != [] {
      RemoveUnderscoresOfDigits(s[1..]);
      assert s == [s[0]] + s[1..];
    }
  }

  /** `int` reads a text as it reads the text stripped. */
  lemma StripThenParse(s: string)
    ensures Strip(Strip(s)) == Strip(s)
    ensures ParseInt(Strip(s)) == ParseInt(s)
  {
  }

  /** The digits `80` read as eighty. */
  lemma Eighty()
    ensures ParseInt("80") == Some(80)
  {
    assert UnderscoredDigits("80");
    assert RemoveUnderscores("80") == "80" by { RemoveUnderscoresOfDigits("80"); }
    assert DigitsValue("80") == 80 by {
      assert "80"[..1] == "8";
      assert "8"[..0] == "";
    }
  }

  /** `int` skips tab, space and line breaks around a number. */
  lemma BlanksSkipped()
    ensures ParseInt("\t 80\r\n") == Some(80)
  {
    var blanks := "\t 80\r\n";
    assert Strip(blanks) == "80" by {
      assert blanks[1..] == " 80\r\n";
      assert " 80\r\n"[1..] == "80\r\n";
      assert "80\r\n"[..3] == "80\r";
      assert "80\r"[..2] == "80";
    }
    StripThenParse(blanks);
    Eighty();
  }

  /** `int` skips non-ASCII spaces around a number. */
  lemma WideSpacesSkipped()
    ensures ParseInt("\U{A0}80\U{3000}") == Some(80)
  {
    var wide := "\U{A0}80\U{3000}";
    assert Strip(wide) == "80" by {
      assert wide[1..] == "80\U{3000}";
      assert "80\U{3000}"[..2] == "80";
    }
    StripThenParse(wide);
    Eighty();
  }

  /** An ASCII separator such as `\x1c` before a number makes `int` raise,
      though `str.isspace` holds of it. */
  lemma SeparatorRejected()
    ensures ParseInt("\U{1C}80") == None && IsSpace('\U{1C}')
  {
    assert Strip("\U{1C}80") == "\U{1C}80";
  }

  /** `int(str(n)) == n` for every non-negative `n`. */
  lemma ParseIntOfNat(n: nat)
    ensures ParseInt(NatToString(n)) == Some(n)
  {
    var s := NatToString(n);
    assert Strip(s) == s by {
      assert !IntSpace(s[0]) && !IntSpace(s[|s| - 1]);
    }
    RemoveUnderscoresOfDigits(s);
    DigitsOfNat(n);
  }
}
