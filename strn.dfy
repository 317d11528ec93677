/**
 * strn.c: bounded string writing and the command-line help formatter.
 *
 * Text is a C string: a `string` whose characters past its end read as NUL
 * (At), so a NUL inside the text ends it just as the end does. A buffer of
 * n bytes holds at most n - 1 characters and a terminating NUL.
 *
 * The help formatter breaks its text into tokens (NextToken, with the
 * backslash escapes "\\", "\ " and "\>n") and lays them out word by word
 * (Render), wrapping before a word that would overrun the row. The methods
 * ParseNextToken and Vsnhiprintf do the same work the C code does, with its
 * loops, flags and moving buffer position, and are proved to produce what
 * the functions describe.
 */
module Strn {
  import opened Errors

  // ---------------------------------------------------------------------
  // Characters and bounded writes
  // ---------------------------------------------------------------------

  /** The character at i, or NUL past the end of the text. */
  function At(s: string, i: nat): char
  {
    if i < |s| then s[i] else '\0'
  }

  /** C's isspace in the "C" locale. */
  predicate IsSpace(c: char)
  {
    c == ' ' || c == '\t' || c == '\n' || c == '\r' || c == '\U{000B}' || c == '\U{000C}'
  }

  /** C's isdigit. */
  predicate IsDigit(c: char)
  {
    '0' <= c <= '9'
  }

  function DigitValue(c: char): (d: nat)
    requires IsDigit(c)
    ensures d <= 9
  {
    (c as int) - ('0' as int)
  }

  function Min(a: int, b: int): int
  {
    if a <= b then a else b
  }

  /** n blanks: what "%*s" prints for an empty string and width n. */
  function Spaces(n: nat): (r: string)
    ensures |r| == n && forall j :: 0 <= j < n ==> r[j] == ' '
  {
    seq(n, _ => ' ')
  }

  /**
   * What PST_snprintf writes into a buffer of n bytes: the formatted text
   * cut to n - 1 characters, and nothing at all when n is 0.
   */
  function Fit(piece: string, n: nat): (r: string)
    ensures r <= piece
    ensures |r| == if n == 0 then 0 else Min(|piece|, n - 1)
  {
    if n == 0 then [] else if |piece| < n then piece else piece[..n - 1]
  }

  /** The text of a C string: everything before its first NUL. */
  function CString(s: string): (r: string)
    ensures r <= s && '\0' !in r
    ensures |r| < |s| ==> s[|r|] == '\0'
  {
    if |s| == 0 || s[0] == '\0' then [] else [s[0]] + CString(s[1..])
  }

  /**
   * PST_snprintf on the n bytes of buf from at: the characters that fit,
   * then a NUL; returns the number of characters written (not the NUL).
   */
  method Snprintf(buf: array<char>, at: nat, n: nat, piece: string) returns (c: nat)
    requires at + n <= buf.Length
    modifies buf
    ensures c == |Fit(piece, n)|
    ensures n > 0 ==> buf[at..at + c] == Fit(piece, n) && buf[at + c] == '\0'
    ensures forall j :: 0 <= j < buf.Length && !(at <= j <= at + c && n > 0) ==> buf[j] == old(buf[j])
  {
    var text := Fit(piece, n);
    c := |text|;
    if n == 0 {
      return;
    }
    var k := 0;
    while k < c
      invariant 0 <= k <= c
      invariant buf[at..at + k] == text[..k]
      invariant forall j :: 0 <= j < buf.Length && !(at <= j < at + k) ==> buf[j] == old(buf[j])
    {
      buf[at + k] := text[k];
      k := k + 1;
    }
    buf[at + c] := '\0';
    assert buf[at..at + c] == text[..c];
  }

  /**
   * PST_strncpy: with a destination, a source and n > 0, the first n - 1
   * bytes of the destination receive the source's text padded with NULs (as
   * strncpy does) and byte n - 1 becomes NUL; returns false (the C NULL)
   * without writing anything otherwise.
   */
  method Strncpy(dest: array?<char>, source: Option<string>, n: nat) returns (ok: bool)
    requires dest != null ==> n <= dest.Length
    modifies dest
    ensures ok <==> dest != null && source.Some? && n > 0
    ensures !ok ==> dest == null || unchanged(dest)
    ensures ok ==> dest[..n] == Padded(CString(source.value), n - 1) + ['\0']
    ensures ok ==> dest[n..] == old(dest[n..])
  {
    if dest == null || source.None? || n == 0 {
      return false;
    }
    var text := CString(source.value);
    ghost var padded := Padded(text, n - 1);
    var k := 0;
    while k < n - 1
      invariant 0 <= k <= n - 1
      invariant forall j :: 0 <= j < k ==> dest[j] == padded[j]
      invariant forall j :: k <= j < dest.Length ==> dest[j] == old(dest[j])
    {
      dest[k] := if k < |text| then text[k] else '\0';
      k := k + 1;
    }
    dest[n - 1] := '\0';
    ok := true;
    assert dest[..n] == padded + ['\0'];
  }

  /** The first m characters of text, padded with NULs up to m. */
  function Padded(text: string, m: nat): (r: string)
    ensures |r| == m
    ensures forall j :: 0 <= j < m ==> r[j] == if j < |text| then text[j] else '\0'
  {
    seq(m, j requires 0 <= j => if j < |text| then text[j] else '\0')
  }

  /**
   * Reading back what Strncpy wrote gives the source's text, cut to n - 1
   * characters: the copy is always a terminated string.
   */
  lemma {:induction false} CopyReadsBack(source: string, n: nat)
    requires n > 0
    ensures var text := CString(source);
      CString(Padded(text, n - 1) + ['\0']) == text[..Min(|text|, n - 1)]
  {
    var text := CString(source);
    var p := Padded(text, n - 1) + ['\0'];
    var m := Min(|text|, n - 1);
    CStringAt(p, m);
    assert p[..m] == text[..m];
  }

  /** A string without a NUL reads whole. */
  lemma {:induction false} CStringWhole(s: string)
    requires '\0' !in s
    ensures CString(s) == s
    decreases |s|
  {
    if |s| > 0 {
      assert s[0] in s;
      assert '\0' !in s[1..] by {
        forall j | 0 <= j < |s| - 1 ensures s[1..][j] != '\0' {
          assert s[1..][j] == s[j + 1];
        }
      }
      CStringWhole(s[1..]);
      assert [s[0]] + s[1..] == s;
    }
  }

  /** A string whose first NUL is at m reads as its first m characters. */
  lemma {:induction false} CStringAt(s: string, m: nat)
    requires m < |s| && s[m] == '\0' && '\0' !in s[..m]
    ensures CString(s) == s[..m]
    decreases m
  {
    if m > 0 {
      assert s[0] in s[..m];
      assert s[1..][..m - 1] == s[1..m];
      assert '\0' !in s[1..][..m - 1] by {
        forall j | 0 <= j < m - 1 ensures s[1..][j] != '\0' {
          assert s[1..][j] == s[..m][j + 1];
        }
      }
      CStringAt(s[1..], m - 1);
    }
  }

  // ---------------------------------------------------------------------
  // The tokenizer (parseNextToken)
  // ---------------------------------------------------------------------

  /** The size of the word buffer PST_vsnhiprintf hands to the tokenizer. */
  const WordCap: nat := 1024

  /**
   * A token: its text, an indentation change (-1 when the token is not one)
   * and where parsing goes on (None: the text is finished, or a parse error
   * stopped it).
   */
  datatype Scan = Scan(word: string, offs: int, next: Option<nat>)

  /** The tokenizer's flags: after '\', inside "\>n", and the number read so far with its sign. */
  datatype Mode = Mode(escaped: bool, indenting: bool, amount: int, sign: int)

  const Plain := Mode(false, false, -1, 1)

  /** What a parse error leaves in the word: "<Parse error: '\c'>". */
  function ErrorText(c: char): string
  {
    "<Parse error: '\\" + [c] + "'>"
  }

  /** The first position from p that is not a blank other than a newline. */
  function Skip(s: string, p: nat): (q: nat)
    requires p <= |s|
    ensures p <= q <= |s|
    ensures q < |s| ==> !IsSpace(s[q]) || s[q] == '\n'
    decreases |s| - p
  {
    if p < |s| && IsSpace(s[p]) && s[p] != '\n' then Skip(s, p + 1) else p
  }

  /** The flags agree with the word: an indentation change starts empty and stays empty. */
  predicate Coherent(w: string, m: Mode, i: nat)
  {
    |w| + (if m.escaped then 1 else 0) <= i
    && (m.indenting ==> i >= 2 && w == [] && !m.escaped && m.amount >= 0 && (m.sign == 1 || m.sign == -1))
    && (!m.indenting ==> m.amount == -1 && m.sign == 1)
  }

  /** The token ends: the word so far, the indentation change, and where to go on. */
  function Finish(at: nat, w: string, m: Mode): Scan
  {
    Scan(w, m.sign * m.amount, Some(at))
  }

  /**
   * The token loop from the i-th character after q, with the word w read so
   * far and the flags m. It stops at NUL, at an unescaped blank and when the
   * word buffer is full; "\\" and "\ " (or any other escaped blank) add that
   * character; "\>" either ends a non-empty word before it or starts an
   * indentation change; any other escape is a parse error.
   */
  function Collect(s: string, q: nat, i: nat, w: string, m: Mode): (r: Scan)
    requires q + i <= |s| && Coherent(w, m, i)
    requires i == 0 ==> q < |s| && !IsSpace(s[q]) && s[q] != '\0'
    ensures |r.word| < WordCap || i >= WordCap
    ensures r.next.Some? ==> q < r.next.value <= |s|
    ensures r.offs != -1 ==> r.word == []
    decreases |s| - (q + i)
  {
    var c := At(s, q + i);
    if c == '\0' || (IsSpace(c) && !m.escaped) || i >= WordCap - 1 then Finish(q + i, w, m)
    else if !m.escaped && !m.indenting && c == '\\' then Collect(s, q, i + 1, w, m.(escaped := true))
    else if m.escaped then
      if c != '\\' && !IsSpace(c) && c != '>' then Scan(w + Fit(ErrorText(c), WordCap - |w|), -1, None)
      else if c == '>' then
        if |w| > 0 then Finish(q + i - 1, w, m.(escaped := false))
        else Collect(s, q, i + 1, w, m.(escaped := false, indenting := true, amount := 0))
      else Collect(s, q, i + 1, w + [c], m.(escaped := false))
    else if m.indenting then
      if IsDigit(c) then Collect(s, q, i + 1, w, m.(amount := m.amount * 10 + DigitValue(c)))
      else if m.amount == 0 && c == '-' then Collect(s, q, i + 1, w, m.(sign := -1))
      else Finish(q + i, w, m)
    else Collect(s, q, i + 1, w + [c], m)
  }

  /**
   * parseNextToken on the text from p: blanks other than newlines are
   * skipped; at the end of the text there is no token and parsing is over;
   * a newline is a token of its own; otherwise the token loop runs.
   */
  function NextToken(s: string, p: nat): (r: Scan)
    requires p <= |s|
    ensures |r.word| < WordCap
    ensures r.next.Some? ==> p < r.next.value <= |s|
    ensures r.offs != -1 ==> r.word == []
  {
    var q := Skip(s, p);
    var c := At(s, q);
    if c == '\0' then Scan([], -1, None)
    else if c == '\n' then Scan("\n", -1, Some(q + 1))
    else Collect(s, q, 0, [], Plain)
  }

  /** The tokens of the text from p on, in the order parseNextToken returns them. */
  function Tokens(s: string, p: nat): seq<Scan>
    requires p <= |s|
    decreases |s| - p
  {
    var t := NextToken(s, p);
    if t.next.None? then [t] else [t] + Tokens(s, t.next.value)
  }

  /**
   * parseNextToken: skips blanks, then walks the text character by character
   * with the escape and indentation flags, collecting the word.
   */
  method ParseNextToken(s: string, p: nat) returns (word: string, offs: int, next: Option<nat>)
    requires p <= |s|
    ensures Scan(word, offs, next) == NextToken(s, p)
  {
    var q := p;
    while q < |s| && IsSpace(s[q]) && s[q] != '\n'
      invariant p <= q <= |s|
      invariant Skip(s, p) == Skip(s, q)
    {
      q := q + 1;
    }
    if At(s, q) == '\0' {
      return [], -1, None;
    }
    if s[q] == '\n' {
      return "\n", -1, Some(q + 1);
    }
    word, offs, next := CollectWord(s, q);
  }

  /** The token loop of parseNextToken, from the first character that is not blank. */
  method CollectWord(s: string, q: nat) returns (word: string, offs: int, next: Option<nat>)
    requires q < |s| && !IsSpace(s[q]) && s[q] != '\0'
    ensures Scan(word, offs, next) == Collect(s, q, 0, [], Plain)
  {
    word := [];
    var i := 0;
    var escaped, indenting, amount, sign := false, false, -1, 1;
    var at := q;
    while true
      invariant q + i <= |s| && Coherent(word, Mode(escaped, indenting, amount, sign), i)
      invariant Collect(s, q, i, word, Mode(escaped, indenting, amount, sign)) == Collect(s, q, 0, [], Plain)
      decreases |s| - (q + i)
    {
      ghost var m, w := Mode(escaped, indenting, amount, sign), word;
      var c := At(s, q + i);
      if c == '\0' || (IsSpace(c) && !escaped) || i >= WordCap - 1 {
        at := q + i;
        assert Collect(s, q, i, w, m) == Finish(at, w, m);
        break;
      }
      if !escaped && !indenting && c == '\\' {
        escaped := true;
      } else if escaped {
        if c != '\\' && !IsSpace(c) && c != '>' {
          word := word + Fit(ErrorText(c), WordCap - |word|);
          return word, -1, None;
        }
        escaped := false;
        if c == '>' {
          if |word| > 0 {
            // the "\>" starts the next token
            at := q + i - 1;
            assert Collect(s, q, i, w, m) == Finish(at, w, m.(escaped := false));
            break;
          }
          indenting, amount := true, 0;
        } else {
          word := word + [c];
        }
      } else if indenting {
        if IsDigit(c) {
          amount := amount * 10 + DigitValue(c);
        } else if amount == 0 && c == '-' {
          sign := -1;
        } else {
          at := q + i;
          assert Collect(s, q, i, w, m) == Finish(at, w, m);
          break;
        }
      } else {
        word := word + [c];
      }
      assert Collect(s, q, i, w, m) == Collect(s, q, i + 1, word, Mode(escaped, indenting, amount, sign));
      i := i + 1;
    }
    offs, next := sign * amount, Some(at);
  }

  // Properties of the tokenizer

  /** A character that goes into a word as it is. */
  predicate PlainChar(c: char)
  {
    c != '\0' && !IsSpace(c) && c != '\\'
  }

  /** Skip stops at the first character that is not a blank other than a newline. */
  lemma {:induction false} SkipTo(s: string, p: nat, q: nat)
    requires p <= q <= |s|
    requires forall j :: p <= j < q ==> IsSpace(s[j]) && s[j] != '\n'
    requires q < |s| ==> !IsSpace(s[q]) || s[q] == '\n'
    ensures Skip(s, p) == q
    decreases q - p
  {
    if p < q {
      SkipTo(s, p + 1, q);
    }
  }

  /** Skip passes over blanks other than newlines only. */
  lemma {:induction false} SkipBlanks(s: string, p: nat)
    requires p <= |s|
    ensures forall j :: p <= j < Skip(s, p) ==> IsSpace(s[j]) && s[j] != '\n'
    decreases |s| - p
  {
    if p < |s| && IsSpace(s[p]) && s[p] != '\n' {
      SkipBlanks(s, p + 1);
    }
  }

  /**
   * There is no token, and parsing is over, exactly when nothing but blanks
   * other than newlines is left (a parse error also ends parsing, but leaves
   * its message in the word).
   */
  lemma EndOfText(s: string, p: nat)
    requires p <= |s|
    ensures var r := NextToken(s, p);
      r.next.None? && r.word == [] <==> At(s, Skip(s, p)) == '\0'
  {
    var q := Skip(s, p);
    if At(s, q) != '\0' && s[q] != '\n' {
      CollectEnds(s, q, 0, [], Plain);
    }
  }

  /** The token loop ends with no way on only after a parse error, whose message it keeps. */
  lemma {:induction false} CollectEnds(s: string, q: nat, i: nat, w: string, m: Mode)
    requires q + i <= |s| && Coherent(w, m, i)
    requires i == 0 ==> q < |s| && !IsSpace(s[q]) && s[q] != '\0'
    ensures var r := Collect(s, q, i, w, m); r.next.None? ==> |r.word| > |w|
    decreases |s| - (q + i)
  {
    var c := At(s, q + i);
    if c == '\0' || (IsSpace(c) && !m.escaped) || i >= WordCap - 1 {
    } else if !m.escaped && !m.indenting && c == '\\' {
      CollectEnds(s, q, i + 1, w, m.(escaped := true));
    } else if m.escaped {
      if c != '\\' && !IsSpace(c) && c != '>' {
        assert |w| < WordCap - 1;
      } else if c == '>' {
        if |w| == 0 {
          CollectEnds(s, q, i + 1, w, m.(escaped := false, indenting := true, amount := 0));
        }
      } else {
        CollectEnds(s, q, i + 1, w + [c], m.(escaped := false));
      }
    } else if m.indenting {
      if IsDigit(c) {
        CollectEnds(s, q, i + 1, w, m.(amount := m.amount * 10 + DigitValue(c)));
      } else if m.amount == 0 && c == '-' {
        CollectEnds(s, q, i + 1, w, m.(sign := -1));
      }
    } else {
      CollectEnds(s, q, i + 1, w + [c], m);
    }
  }

  /** Plain characters go into the word one by one. */
  lemma {:induction false} CollectPlain(s: string, q: nat, i: nat, k: nat)
    requires i <= k < WordCap && q + k <= |s| && 0 < k && PlainChar(s[q])
    requires forall j :: q + i <= j < q + k ==> PlainChar(s[j])
    ensures Collect(s, q, i, s[q..q + i], Plain) == Collect(s, q, k, s[q..q + k], Plain)
    decreases k - i
  {
    if i < k {
      var w, c := s[q..q + i], s[q + i];
      assert At(s, q + i) == c && PlainChar(c) && i < WordCap - 1;
      assert Collect(s, q, i, w, Plain) == Collect(s, q, i + 1, w + [c], Plain);
      assert w + [c] == s[q..q + i + 1];
      CollectPlain(s, q, i + 1, k);
    }
  }

  /** A token that is neither the end nor a newline is the token loop's, from the first character after the blanks. */
  lemma WordStart(s: string, p: nat, q: nat)
    requires p <= q < |s| && !IsSpace(s[q]) && s[q] != '\0'
    requires forall j :: p <= j < q ==> IsSpace(s[j]) && s[j] != '\n'
    ensures NextToken(s, p) == Collect(s, q, 0, [], Plain)
  {
    SkipTo(s, p, q);
    assert At(s, q) == s[q] && s[q] != '\n';
  }

  /** After the blanks, the token loop takes a run of plain characters into the word. */
  lemma PlainRun(s: string, p: nat, q: nat, k: nat)
    requires p <= q && q + k <= |s| && k < WordCap
    requires q < |s| && !IsSpace(s[q]) && s[q] != '\0'
    requires forall j :: p <= j < q ==> IsSpace(s[j]) && s[j] != '\n'
    requires forall j :: q <= j < q + k ==> PlainChar(s[j])
    ensures NextToken(s, p) == Collect(s, q, k, s[q..q + k], Plain)
  {
    var w: string := s[q..q + k];
    var empty: string := s[q..q + 0];
    assert empty == [];
    if k > 0 {
      assert PlainChar(s[q]);
      CollectPlain(s, q, 0, k);
    }
    assert Collect(s, q, 0, empty, Plain) == Collect(s, q, k, w, Plain);
    WordStart(s, p, q);
  }

  /**
   * A run of plain characters after the blanks is one word; it ends at the
   * next blank or at the end of the text, or after 1023 characters, where
   * the word buffer is full and the rest of the run makes the next token.
   */
  lemma PlainWord(s: string, p: nat, q: nat, k: nat)
    requires p <= q && q + k <= |s| && 0 < k < WordCap
    requires forall j :: p <= j < q ==> IsSpace(s[j]) && s[j] != '\n'
    requires forall j :: q <= j < q + k ==> PlainChar(s[j])
    requires k == WordCap - 1 || At(s, q + k) == '\0' || IsSpace(At(s, q + k))
    ensures NextToken(s, p) == Scan(s[q..q + k], -1, Some(q + k))
  {
    PlainRun(s, p, q, k);
    assert Collect(s, q, k, s[q..q + k], Plain) == Finish(q + k, s[q..q + k], Plain);
  }

  /** "\\" and "\ " (a backslash before any blank) put that character into the word. */
  lemma EscapedChar(s: string, q: nat, i: nat, w: string)
    requires q + i + 2 <= |s| && i + 1 < WordCap - 1 && Coherent(w, Plain, i)
    requires i == 0 ==> !IsSpace(s[q]) && s[q] != '\0'
    requires s[q + i] == '\\' && (s[q + i + 1] == '\\' || IsSpace(s[q + i + 1]))
    ensures Collect(s, q, i, w, Plain) == Collect(s, q, i + 2, w + [s[q + i + 1]], Plain)
  {
  }

  /**
   * A backslash before any other character than a backslash, a blank or
   * '>' is a parse error: the word gets the error message and parsing stops.
   */
  lemma ParseError(s: string, p: nat, q: nat, k: nat)
    requires p <= q && q + k + 2 <= |s| && k + 1 < WordCap - 1
    requires forall j :: p <= j < q ==> IsSpace(s[j]) && s[j] != '\n'
    requires forall j :: q <= j < q + k ==> PlainChar(s[j])
    requires s[q + k] == '\\'
    requires var c := s[q + k + 1]; c != '\0' && c != '\\' && !IsSpace(c) && c != '>'
    ensures NextToken(s, p) == Scan(s[q..q + k] + Fit(ErrorText(s[q + k + 1]), WordCap - k), -1, None)
  {
    var w, c := s[q..q + k], s[q + k + 1];
    assert |w| == k && At(s, q + k) == '\\' && At(s, q + k + 1) == c;
    PlainRun(s, p, q, k);
    var e := Plain.(escaped := true);
    assert Collect(s, q, k, w, Plain) == Collect(s, q, k + 1, w, e);
    assert Collect(s, q, k + 1, w, e) == Scan(w + Fit(ErrorText(c), WordCap - k), -1, None);
  }

  /** "\>" right after a word ends the word; the "\>" starts the next token. */
  lemma WordBeforeIndent(s: string, p: nat, q: nat, k: nat)
    requires p <= q && q + k + 2 <= |s| && 0 < k && k + 1 < WordCap - 1
    requires forall j :: p <= j < q ==> IsSpace(s[j]) && s[j] != '\n'
    requires forall j :: q <= j < q + k ==> PlainChar(s[j])
    requires s[q + k] == '\\' && s[q + k + 1] == '>'
    ensures NextToken(s, p) == Scan(s[q..q + k], -1, Some(q + k))
  {
    PlainRun(s, p, q, k);
    var w := s[q..q + k];
    var e := Plain.(escaped := true);
    assert Collect(s, q, k, w, Plain) == Collect(s, q, k + 1, w, e);
    assert Collect(s, q, k + 1, w, e) == Finish(q + k, w, Plain);
  }

  /** The number a run of digits spells, read after the value a. */
  function Number(a: int, ds: string): (r: int)
    requires forall j :: 0 <= j < |ds| ==> IsDigit(ds[j])
    ensures a >= 0 ==> r >= 0
    decreases |ds|
  {
    if |ds| == 0 then a else Number(a * 10 + DigitValue(ds[0]), ds[1..])
  }

  /** Digits after "\>" accumulate into the indentation change. */
  lemma {:induction false} CollectDigits(s: string, q: nat, i: nat, k: nat, m: Mode)
    requires m.indenting && Coherent([], m, i) && i <= k < WordCap && q + k <= |s|
    requires forall j :: q + i <= j < q + k ==> IsDigit(s[j])
    ensures Collect(s, q, i, [], m) == Collect(s, q, k, [], m.(amount := Number(m.amount, s[q + i..q + k])))
    decreases k - i
  {
    if i < k {
      var m' := m.(amount := m.amount * 10 + DigitValue(s[q + i]));
      CollectDigits(s, q, i + 1, k, m');
      assert s[q + i..q + k][1..] == s[q + i + 1..q + k];
    }
  }

  /** "\>" (and a '-' after it) opens an indentation change with nothing read yet. */
  lemma IndentStart(s: string, q: nat, negative: bool)
    requires q + 2 + (if negative then 1 else 0) <= |s|
    requires s[q] == '\\' && s[q + 1] == '>' && (negative ==> s[q + 2] == '-')
    ensures Collect(s, q, 0, [], Plain)
         == Collect(s, q, 2 + (if negative then 1 else 0), [], Mode(false, true, 0, if negative then -1 else 1))
  {
    var n := Mode(false, true, 0, 1);
    assert Collect(s, q, 0, [], Plain) == Collect(s, q, 1, [], Plain.(escaped := true));
    assert Collect(s, q, 1, [], Plain.(escaped := true)) == Collect(s, q, 2, [], n);
    if negative {
      assert Collect(s, q, 2, [], n) == Collect(s, q, 3, [], n.(sign := -1));
    }
  }

  /**
   * "\>" followed by an optional '-' and digits is an indentation change by
   * that signed number ("\>" alone is 0); it ends at the first character
   * that is neither a digit nor '-'.
   */
  lemma IndentChange(s: string, p: nat, q: nat, negative: bool, k: nat)
    requires var d := q + 2 + (if negative then 1 else 0);
      p <= q && d + k <= |s| && d - q + k < WordCap
      && (forall j :: p <= j < q ==> IsSpace(s[j]) && s[j] != '\n')
      && s[q] == '\\' && s[q + 1] == '>' && (negative ==> s[q + 2] == '-')
      && (forall j :: d <= j < d + k ==> IsDigit(s[j]))
      && !IsDigit(At(s, d + k)) && At(s, d + k) != '-'
    ensures var d := q + 2 + (if negative then 1 else 0);
      NextToken(s, p) == Scan([], (if negative then -1 else 1) * Number(0, s[d..d + k]), Some(d + k))
  {
    var d := q + 2 + (if negative then 1 else 0);
    var m := Mode(false, true, 0, if negative then -1 else 1);
    IndentOpen(s, p, q, negative);
    CollectDigits(s, q, d - q, d - q + k, m);
    IndentEnd(s, q, d - q + k, m.(amount := Number(0, s[d..d + k])));
  }

  /** After blanks, "\>" (and a '-' after it) makes a token that collects an indentation change. */
  lemma IndentOpen(s: string, p: nat, q: nat, negative: bool)
    requires p <= q && q + 2 + (if negative then 1 else 0) <= |s|
    requires forall j :: p <= j < q ==> IsSpace(s[j]) && s[j] != '\n'
    requires s[q] == '\\' && s[q + 1] == '>' && (negative ==> s[q + 2] == '-')
    ensures NextToken(s, p)
         == Collect(s, q, 2 + (if negative then 1 else 0), [], Mode(false, true, 0, if negative then -1 else 1))
  {
    SkipTo(s, p, q);
    IndentStart(s, q, negative);
  }

  /** An indentation change ends at a character that is neither a digit nor '-'. */
  lemma IndentEnd(s: string, q: nat, i: nat, m: Mode)
    requires q + i <= |s| && m.indenting && Coherent([], m, i)
    requires !IsDigit(At(s, q + i)) && At(s, q + i) != '-'
    ensures Collect(s, q, i, [], m) == Finish(q + i, [], m)
  {
  }

  // ---------------------------------------------------------------------
  // The help formatter (PST_vsnhiprintf)
  // ---------------------------------------------------------------------

  /** The row length and the indentation the text is laid out at (headerLen in CO mode). */
  datatype Frame = Frame(rowLen: nat, indent: nat)

  /**
   * Where the layout stands: the text so far, the length of the current row,
   * whether the next word needs a blank before it, and the indentation offset
   * the last "\>n" asked for.
   */
  datatype Pen = Pen(out: string, row: int, space: bool, ioffs: int)

  /** The indentation, with its offset, stays inside the row. */
  predicate Steady(f: Frame, pen: Pen)
  {
    f.indent < f.rowLen && 0 <= f.indent + pen.ioffs < f.rowLen
  }

  /**
   * The offset an indentation change asks for, clamped so that the
   * indentation lands between column 0 and the last column of the row.
   */
  function Clamp(indent: nat, rowLen: nat, offs: int): (r: int)
    requires indent < rowLen
    ensures 0 <= indent + r < rowLen
    ensures 0 <= indent + offs < rowLen ==> r == offs
    ensures indent + offs < 0 ==> indent + r == 0
    ensures indent + offs >= rowLen ==> indent + r == rowLen - 1
  {
    if indent + offs < 0 then -(indent as int)
    else if indent + offs >= rowLen then rowLen - 1 - indent
    else offs
  }

  /**
   * One token that is not the last. An indentation change only records its
   * offset. A newline token drops the blank before the next word and, unless
   * the text ends right after it, forces a line break (the word is then
   * dropped, but its length still counts in the fitting test).
   */
  function Place(desc: string, f: Frame, pen: Pen, t: Scan): (r: Pen)
    requires t.next.Some? && Steady(f, pen)
    ensures Steady(f, r) && pen.out <= r.out
  {
    if t.offs != -1 then pen.(ioffs := Clamp(f.indent, f.rowLen, t.offs))
    else
      var newline := |t.word| > 0 && t.word[0] == '\n';
      var cut := newline && At(desc, t.next.value) != '\0';
      var row := if cut then f.rowLen + 1 else pen.row;
      Lay(f, pen.(row := row, space := pen.space && !newline), if cut then [] else t.word, |t.word|)
  }

  /**
   * A word whose length counts as len goes on the current row (after a blank
   * when one is needed) if it fits in rowLen, and otherwise on a new line at
   * the indentation plus offset; an empty word on a new line needs no blank
   * after it.
   */
  function Lay(f: Frame, pen: Pen, word: string, len: nat): (r: Pen)
    requires Steady(f, pen)
    ensures Steady(f, r) && pen.out <= r.out && r.ioffs == pen.ioffs
  {
    if pen.row + len + (if pen.space then 1 else 0) > f.rowLen then
      var piece := "\n" + Spaces(f.indent + pen.ioffs) + word;
      Pen(pen.out + piece, |piece| - 1, pen.space || word != [], pen.ioffs)
    else
      var piece := (if pen.space then " " else "") + word;
      Pen(pen.out + piece, pen.row + |piece|, true, pen.ioffs)
  }

  /** A word that fits goes on the current row, after a blank when one is needed. */
  lemma LayFits(f: Frame, pen: Pen, word: string, len: nat)
    requires Steady(f, pen) && pen.row + len + (if pen.space then 1 else 0) <= f.rowLen
    ensures var gap := if pen.space then " " else "";
      Lay(f, pen, word, len) == Pen(pen.out + (gap + word), pen.row + |gap| + |word|, true, pen.ioffs)
  {
  }

  /** A word that does not fit goes on a new row, at the indentation plus offset. */
  lemma LayWraps(f: Frame, pen: Pen, word: string, len: nat)
    requires Steady(f, pen) && pen.row + len + (if pen.space then 1 else 0) > f.rowLen
    ensures var lead := f.indent + pen.ioffs;
      Lay(f, pen, word, len)
      == Pen(pen.out + ("\n" + Spaces(lead) + word), lead + |word|, pen.space || word != [], pen.ioffs)
  {
  }

  /** The layout of a list of tokens of desc; the word of the token that closes it (a parse error) is appended as it is. */
  function Flow(desc: string, ts: seq<Scan>, f: Frame, pen: Pen): (r: string)
    requires Steady(f, pen)
    ensures pen.out <= r
    decreases |ts|
  {
    if ts == [] then pen.out
    else if ts[0].next.None? then pen.out + ts[0].word
    else Flow(desc, ts[1..], f, Place(desc, f, pen, ts[0]))
  }

  /** The arguments PST_vsnhiprintf refuses, returning 0 and writing nothing. */
  predicate Refused(hasBuf: bool, bufLen: nat, indent: nat, headerLen: nat, rowLen: nat,
                    name: Option<string>, txt: Option<string>)
  {
    !hasBuf || bufLen == 0 || txt.None? || indent >= rowLen
    || (name.Some? && (indent >= headerLen || headerLen >= rowLen))
  }

  /** The first part of the name line: indentation, the name, and padding up to the header. */
  function Lead(indent: nat, headerLen: nat, name: string): string
  {
    var pad := headerLen - indent - |name| - 3;
    Spaces(indent) + name + Spaces(if pad < 0 then 0 else pad)
  }

  /** The delimiter, on the name line or, after a line break, at the header. */
  function Delimit(lead: string, headerLen: nat, delimiter: char): string
  {
    if headerLen >= 3 && |lead| > headerLen - 3 then "\n" + Spaces(headerLen - 3) + " " + [delimiter] + " "
    else " " + [delimiter] + " "
  }

  /**
   * Where the description starts. In CO mode (a parameter name is given) the
   * line holds the indentation, the name, padding and the delimiter; when the
   * name reaches past headerLen - 3 the delimiter moves to a new line, and
   * the description is indented at headerLen. In RT mode only the
   * indentation is printed.
   */
  function Head(rowLen: nat, indent: nat, headerLen: nat, name: Option<string>, delimiter: char): (r: (Frame, Pen))
    requires !Refused(true, 1, indent, headerLen, rowLen, name, Some([]))
    ensures Steady(r.0, r.1) && r.1.ioffs == 0 && !r.1.space
  {
    match name
    case Some(n) =>
      var lead := Lead(indent, headerLen, CString(n));
      var tail := Delimit(lead, headerLen, delimiter);
      var row := if tail[0] == '\n' then |tail| - 1 else |lead| + |tail|;
      (Frame(rowLen, headerLen), Pen(lead + tail, row, false, 0))
    case None =>
      (Frame(rowLen, indent), Pen(Spaces(indent), indent, false, 0))
  }

  /** With a header of at least three columns, the description of a named parameter starts at column headerLen. */
  lemma HeadColumn(rowLen: nat, indent: nat, headerLen: nat, name: string, delimiter: char)
    requires !Refused(true, 1, indent, headerLen, rowLen, Some(name), Some([])) && headerLen >= 3
    ensures var lead := Lead(indent, headerLen, CString(name));
      Head(rowLen, indent, headerLen, Some(name), delimiter)
      == (Frame(rowLen, headerLen), Pen(lead + Delimit(lead, headerLen, delimiter), headerLen, false, 0))
  {
  }

  /** The whole help text with an unbounded buffer. */
  function Render(desc: string, indent: nat, headerLen: nat, rowLen: nat, name: Option<string>, delimiter: char): string
    requires !Refused(true, 1, indent, headerLen, rowLen, name, Some([]))
  {
    var (f, pen) := Head(rowLen, indent, headerLen, name, delimiter);
    Flow(desc, Tokens(desc, 0), f, pen)
  }

  /**
   * What PST_vsnhiprintf leaves in a buffer of bufLen bytes: the text is
   * first formatted into bufLen bytes, laid out, and the layout is cut to
   * bufLen - 1 characters.
   */
  function Help(bufLen: nat, indent: nat, headerLen: nat, rowLen: nat, name: Option<string>, delimiter: char, txt: string)
    : (r: string)
    requires !Refused(true, bufLen, indent, headerLen, rowLen, name, Some(txt))
    ensures |r| < bufLen
  {
    var full := Render(Fit(txt, bufLen), indent, headerLen, rowLen, name, delimiter);
    full[..Min(|full|, bufLen - 1)]
  }

  // The layout token by token

  /** A short text in a roomy buffer comes out whole. */
  lemma HelpWhole(bufLen: nat, indent: nat, headerLen: nat, rowLen: nat, name: Option<string>, delimiter: char,
                  txt: string)
    requires !Refused(true, bufLen, indent, headerLen, rowLen, name, Some(txt)) && |txt| < bufLen
    ensures var full := Render(txt, indent, headerLen, rowLen, name, delimiter);
      |full| < bufLen ==> Help(bufLen, indent, headerLen, rowLen, name, delimiter, txt) == full
  {
    assert Fit(txt, bufLen) == txt;
  }

  /** A plain word after blanks is a token of its own. */
  lemma TokensWord(desc: string, p: nat, q: nat, k: nat)
    requires p <= q && q + k <= |desc| && 0 < k < WordCap
    requires forall j :: p <= j < q ==> IsSpace(desc[j]) && desc[j] != '\n'
    requires forall j :: q <= j < q + k ==> PlainChar(desc[j])
    requires k == WordCap - 1 || At(desc, q + k) == '\0' || IsSpace(At(desc, q + k))
    ensures Tokens(desc, p) == [Scan(desc[q..q + k], -1, Some(q + k))] + Tokens(desc, q + k)
  {
    PlainWord(desc, p, q, k);
  }

  /** A word followed by "\>" is a token of its own; the "\>" starts the next token. */
  lemma TokensWordBeforeIndent(desc: string, p: nat, q: nat, k: nat)
    requires p <= q && q + k + 2 <= |desc| && 0 < k && k + 1 < WordCap - 1
    requires forall j :: p <= j < q ==> IsSpace(desc[j]) && desc[j] != '\n'
    requires forall j :: q <= j < q + k ==> PlainChar(desc[j])
    requires desc[q + k] == '\\' && desc[q + k + 1] == '>'
    ensures Tokens(desc, p) == [Scan(desc[q..q + k], -1, Some(q + k))] + Tokens(desc, q + k)
  {
    WordBeforeIndent(desc, p, q, k);
  }

  /** "\>n" (or "\>-n") after blanks is a token that carries the offset n and no word. */
  lemma TokensIndent(desc: string, p: nat, q: nat, negative: bool, k: nat)
    requires var d := q + 2 + (if negative then 1 else 0);
      p <= q && d + k <= |desc| && d - q + k < WordCap
      && (forall j :: p <= j < q ==> IsSpace(desc[j]) && desc[j] != '\n')
      && desc[q] == '\\' && desc[q + 1] == '>' && (negative ==> desc[q + 2] == '-')
      && (forall j :: d <= j < d + k ==> IsDigit(desc[j]))
      && !IsDigit(At(desc, d + k)) && At(desc, d + k) != '-'
    ensures var d := q + 2 + (if negative then 1 else 0);
      var n := (if negative then -1 else 1) * Number(0, desc[d..d + k]);
      Tokens(desc, p) == [Scan([], n, Some(d + k))] + Tokens(desc, d + k)
  {
    IndentChange(desc, p, q, negative, k);
  }

  /** A newline after blanks is a token of its own. */
  lemma TokensNewline(desc: string, p: nat, q: nat)
    requires p <= q < |desc| && desc[q] == '\n'
    requires forall j :: p <= j < q ==> IsSpace(desc[j]) && desc[j] != '\n'
    ensures Tokens(desc, p) == [Scan("\n", -1, Some(q + 1))] + Tokens(desc, q + 1)
  {
    SkipTo(desc, p, q);
    assert NextToken(desc, p) == Scan("\n", -1, Some(q + 1));
  }

  /** Blanks up to the end of the text leave only the closing token, with no word. */
  lemma TokensEnd(desc: string, p: nat)
    requires p <= |desc|
    requires forall j :: p <= j < |desc| ==> IsSpace(desc[j]) && desc[j] != '\n'
    ensures Tokens(desc, p) == [Scan([], -1, None)]
  {
    SkipTo(desc, p, |desc|);
    assert NextToken(desc, p) == Scan([], -1, None);
  }

  /** A parse error closes the token list: its word is what was read of the word and the message. */
  lemma TokensError(desc: string, p: nat, q: nat, k: nat)
    requires p <= q && q + k + 2 <= |desc| && k + 1 < WordCap - 1
    requires forall j :: p <= j < q ==> IsSpace(desc[j]) && desc[j] != '\n'
    requires forall j :: q <= j < q + k ==> PlainChar(desc[j])
    requires desc[q + k] == '\\'
    requires var c := desc[q + k + 1]; c != '\0' && c != '\\' && !IsSpace(c) && c != '>'
    ensures Tokens(desc, p) == [Scan(desc[q..q + k] + Fit(ErrorText(desc[q + k + 1]), WordCap - k), -1, None)]
  {
    ParseError(desc, p, q, k);
  }

  /** Every token list ends with the token after which parsing is over, and only there. */
  lemma {:induction false} TokensClose(desc: string, p: nat)
    requires p <= |desc|
    ensures var ts := Tokens(desc, p);
      ts != [] && ts[|ts| - 1].next.None?
      && forall i :: 0 <= i < |ts| - 1 ==> ts[i].next.Some? && p < ts[i].next.value <= |desc|
    decreases |desc| - p
  {
    var t := NextToken(desc, p);
    if t.next.Some? {
      var rest := Tokens(desc, t.next.value);
      TokensClose(desc, t.next.value);
      assert Tokens(desc, p) == [t] + rest;
      forall i | 0 <= i < |rest| - 1
        ensures ([t] + rest)[i + 1] == rest[i]
      {
      }
    }
  }

  /** A word token is laid out on its own (see Lay). */
  lemma FlowWord(desc: string, w: string, n: nat, ts: seq<Scan>, f: Frame, pen: Pen)
    requires Steady(f, pen) && (w == [] || w[0] != '\n')
    ensures Flow(desc, [Scan(w, -1, Some(n))] + ts, f, pen) == Flow(desc, ts, f, Lay(f, pen, w, |w|))
  {
    var t := Scan(w, -1, Some(n));
    assert ([t] + ts)[1..] == ts;
    assert pen.(row := pen.row, space := pen.space) == pen;
    assert Place(desc, f, pen, t) == Lay(f, pen, w, |w|);
  }

  /**
   * An offset token changes the indentation offset, clamped into the row; it
   * writes nothing. (An offset of exactly -1 is the parser's "no change" mark:
   * such a token is laid out as an empty word.)
   */
  lemma FlowIndent(desc: string, m: int, n: nat, ts: seq<Scan>, f: Frame, pen: Pen)
    requires Steady(f, pen) && m != -1
    ensures Flow(desc, [Scan([], m, Some(n))] + ts, f, pen)
      == Flow(desc, ts, f, pen.(ioffs := Clamp(f.indent, f.rowLen, m)))
  {
    assert ([Scan([], m, Some(n))] + ts)[1..] == ts;
  }

  /**
   * A newline token drops the pending blank; unless the text ends right
   * after it, it breaks the line (the line break is laid out as an empty
   * word on a new line); at the very end it is written as it is if it fits.
   */
  lemma FlowNewline(desc: string, n: nat, ts: seq<Scan>, f: Frame, pen: Pen)
    requires Steady(f, pen)
    ensures Flow(desc, [Scan("\n", -1, Some(n))] + ts, f, pen) == Flow(desc, ts, f,
      if At(desc, n) != '\0' then Lay(f, pen.(row := f.rowLen + 1, space := false), [], 1)
      else Lay(f, pen.(space := false), "\n", 1))
  {
    var t := Scan("\n", -1, Some(n));
    assert ([t] + ts)[1..] == ts;
    var cut := At(desc, n) != '\0';
    assert Place(desc, f, pen, t)
      == Lay(f, pen.(row := if cut then f.rowLen + 1 else pen.row, space := false), if cut then [] else "\n", 1);
  }

  /** The closing token ends the layout: its word (empty, or a parse error) follows the text so far. */
  lemma FlowLast(desc: string, t: Scan, ts: seq<Scan>, f: Frame, pen: Pen)
    requires Steady(f, pen) && t.next.None?
    ensures Flow(desc, [t] + ts, f, pen) == pen.out + t.word
  {
    assert ([t] + ts)[0] == t;
  }

  // Plain text: the greedy fill of its words

  /** Text without escapes, NULs or newlines. */
  predicate PlainText(s: string)
  {
    forall j :: 0 <= j < |s| ==> s[j] != '\\' && s[j] != '\0' && s[j] != '\n'
  }

  /**
   * The end of the run of non-blanks at q, counted from q: it stops at a
   * blank, at the end of the text, or when the word buffer is full.
   */
  function RunEnd(s: string, q: nat, k: nat): (r: nat)
    requires q + k <= |s| && k <= WordCap - 1
    ensures k <= r <= WordCap - 1 && q + r <= |s|
    ensures q + r == |s| || r == WordCap - 1 || IsSpace(s[q + r])
    decreases |s| - (q + k)
  {
    if q + k == |s| || k == WordCap - 1 || IsSpace(s[q + k]) then k else RunEnd(s, q, k + 1)
  }

  /** RunEnd passes over characters that are not blanks only. */
  lemma {:induction false} RunEndRun(s: string, q: nat, k: nat)
    requires q + k <= |s| && k <= WordCap - 1
    ensures forall j :: q + k <= j < q + RunEnd(s, q, k) ==> !IsSpace(s[j])
    decreases |s| - (q + k)
  {
    if !(q + k == |s| || k == WordCap - 1 || IsSpace(s[q + k])) {
      RunEndRun(s, q, k + 1);
    }
  }

  /** The words of the text from p on, as the parser cuts them. */
  function Words(s: string, p: nat): (r: seq<string>)
    requires p <= |s|
    decreases |s| - p
  {
    var q := Skip(s, p);
    if q == |s| || s[q] == '\n' then []
    else
      var k := RunEnd(s, q, 1);
      [s[q..q + k]] + Words(s, q + k)
  }

  /** Each word laid out after the other. */
  function Fill(ws: seq<string>, f: Frame, pen: Pen): (r: string)
    requires Steady(f, pen)
    ensures pen.out <= r
    decreases |ws|
  {
    if ws == [] then pen.out
    else
      var w := ws[0];
      Fill(ws[1..], f, Lay(f, pen, w, |w|))
  }

  /** The length of the last row of s: the characters after its last newline. */
  function Column(s: string): (r: nat)
    ensures r <= |s|
  {
    if s == [] then 0
    else if s[|s| - 1] == '\n' then 0
    else Column(s[..|s| - 1]) + 1
  }

  /** Every row s gets from position `from` on is at most cap characters long. */
  predicate RowsWithin(s: string, from: nat, cap: nat)
  {
    forall j :: from <= j <= |s| ==> Column(s[..j]) <= cap
  }

  /** Text without a newline lengthens the last row by its own length. */
  lemma {:induction false} ColumnAppend(s: string, t: string)
    requires '\n' !in t
    ensures Column(s + t) == Column(s) + |t|
    decreases |t|
  {
    if t == [] {
      assert s + t == s;
    } else {
      var u := t[..|t| - 1];
      assert (s + t)[..|s + t| - 1] == s + u;
      assert (s + t)[|s + t| - 1] == t[|t| - 1] && t[|t| - 1] in t;
      assert '\n' !in u by {
        forall c | c in u ensures c != '\n' { assert c in t; }
      }
      ColumnAppend(s, u);
    }
  }

  /** After a newline, the last row is what follows it. */
  lemma ColumnAfterBreak(s: string, t: string)
    requires '\n' !in t
    ensures Column(s + ("\n" + t)) == |t|
  {
    assert s + ("\n" + t) == (s + "\n") + t;
    assert Column(s + "\n") == 0;
    ColumnAppend(s + "\n", t);
  }

  /** A prefix of a text without a newline has none either. */
  lemma NoBreakPrefix(t: string, k: nat)
    requires '\n' !in t && k <= |t|
    ensures '\n' !in t[..k]
  {
    forall c | c in t[..k] ensures c != '\n' { assert c in t; }
  }

  /** The rows Lay writes on a fitting word stay within the row. */
  lemma LayFitsRows(f: Frame, pen: Pen, w: string, cap: nat)
    requires Steady(f, pen) && '\n' !in w && pen.row == Column(pen.out) && f.rowLen <= cap
    requires pen.row + |w| + (if pen.space then 1 else 0) <= f.rowLen
    ensures var r := Lay(f, pen, w, |w|); r.row == Column(r.out) && RowsWithin(r.out, |pen.out|, cap)
  {
    var piece := (if pen.space then " " else "") + w;
    assert '\n' !in piece;
    var r := Lay(f, pen, w, |w|);
    assert r.out == pen.out + piece;
    forall j | |pen.out| <= j <= |r.out|
      ensures Column(r.out[..j]) <= cap
    {
      var k := j - |pen.out|;
      assert r.out[..j] == pen.out + piece[..k];
      NoBreakPrefix(piece, k);
      ColumnAppend(pen.out, piece[..k]);
    }
    ColumnAppend(pen.out, piece);
  }

  /** The rows Lay writes on a wrapped word hold the indentation and that word. */
  lemma LayWrapsRows(f: Frame, pen: Pen, w: string, cap: nat)
    requires Steady(f, pen) && '\n' !in w && Column(pen.out) <= cap
    requires f.indent + pen.ioffs + |w| <= cap
    requires pen.row + |w| + (if pen.space then 1 else 0) > f.rowLen
    ensures var r := Lay(f, pen, w, |w|); r.row == Column(r.out) && RowsWithin(r.out, |pen.out|, cap)
  {
    var rest := Spaces(f.indent + pen.ioffs) + w;
    assert '\n' !in rest by {
      forall c | c in rest ensures c != '\n' {
        var i :| 0 <= i < |rest| && rest[i] == c;
        if i >= f.indent + pen.ioffs { assert c == w[i - (f.indent + pen.ioffs)]; assert c in w; }
      }
    }
    var r := Lay(f, pen, w, |w|);
    assert r.out == pen.out + ("\n" + rest);
    forall j | |pen.out| <= j <= |r.out|
      ensures Column(r.out[..j]) <= cap
    {
      if j == |pen.out| {
        assert r.out[..j] == pen.out;
      } else {
        var k := j - |pen.out| - 1;
        assert r.out[..j] == pen.out + ("\n" + rest[..k]);
        NoBreakPrefix(rest, k);
        ColumnAfterBreak(pen.out, rest[..k]);
      }
    }
    ColumnAfterBreak(pen.out, rest);
  }

  /** Either way, Lay keeps the rows of a word within cap. */
  lemma LayRows(f: Frame, pen: Pen, w: string, cap: nat)
    requires Steady(f, pen) && '\n' !in w && pen.row == Column(pen.out) && Column(pen.out) <= cap
    requires f.rowLen <= cap && f.indent + pen.ioffs + |w| <= cap
    ensures var r := Lay(f, pen, w, |w|);
      r.row == Column(r.out) && Column(r.out) <= cap && RowsWithin(r.out, |pen.out|, cap)
  {
    if pen.row + |w| + (if pen.space then 1 else 0) <= f.rowLen {
      LayFitsRows(f, pen, w, cap);
    } else {
      LayWrapsRows(f, pen, w, cap);
    }
    var out := Lay(f, pen, w, |w|).out;
    assert out[..|out|] == out;
  }

  /** Rows within cap before and after a point of a longer text are rows within cap from the start. */
  lemma RowsJoin(a: string, b: string, from: nat, cap: nat)
    requires a <= b && from <= |a| && RowsWithin(a, from, cap) && RowsWithin(b, |a|, cap)
    ensures RowsWithin(b, from, cap)
  {
    forall j | from <= j <= |a|
      ensures Column(b[..j]) <= cap
    {
      assert b[..j] == a[..j];
    }
  }

  /**
   * The width promise of the layout: no row of a fill is longer than cap when
   * cap is at least rowLen and at least the indentation plus the longest word,
   * so a row overruns rowLen only when it holds the indentation and one word
   * that alone is too long.
   */
  lemma {:induction false} FillRows(ws: seq<string>, f: Frame, pen: Pen, cap: nat)
    requires Steady(f, pen) && pen.row == Column(pen.out) && Column(pen.out) <= cap && f.rowLen <= cap
    requires forall i :: 0 <= i < |ws| ==> '\n' !in ws[i] && f.indent + pen.ioffs + |ws[i]| <= cap
    ensures RowsWithin(Fill(ws, f, pen), |pen.out|, cap)
    decreases |ws|
  {
    if ws == [] {
      assert Fill(ws, f, pen) == pen.out;
      assert pen.out[..|pen.out|] == pen.out;
    } else {
      var next := Lay(f, pen, ws[0], |ws[0]|);
      LayRows(f, pen, ws[0], cap);
      assert forall i :: 0 <= i < |ws[1..]| ==> ws[1..][i] == ws[i + 1];
      FillRows(ws[1..], f, next, cap);
      assert Fill(ws, f, pen) == Fill(ws[1..], f, next);
      RowsJoin(next.out, Fill(ws[1..], f, next), |pen.out|, cap);
    }
  }

  /** The last row of s: the characters after its last newline. */
  function LastRow(s: string): (r: string)
    ensures |r| == Column(s)
  {
    s[|s| - Column(s)..]
  }

  /** A row made of the indentation and then no blank: the indentation and (the start of) one word. */
  predicate OneWordRow(row: string, lead: nat)
  {
    lead <= |row| && row[..lead] == Spaces(lead) && ' ' !in row[lead..]
  }

  /** The last row of s is at most rowLen long, or holds the indentation and one word. */
  predicate RowFits(s: string, rowLen: nat, lead: nat)
  {
    Column(s) <= rowLen || OneWordRow(LastRow(s), lead)
  }

  /** Every row s gets from position `from` on fits. */
  predicate RowsFit(s: string, from: nat, rowLen: nat, lead: nat)
  {
    forall j {:trigger RowFits(s[..j], rowLen, lead)} :: from <= j <= |s| ==> RowFits(s[..j], rowLen, lead)
  }

  /** After a newline, the last row is what follows it. */
  lemma LastRowAfterBreak(s: string, t: string)
    requires '\n' !in t
    ensures LastRow(s + ("\n" + t)) == t
  {
    ColumnAfterBreak(s, t);
    var u := s + ("\n" + t);
    assert u[|u| - |t|..] == t;
  }

  /** A prefix of a text without a blank has none either. */
  lemma NoBlankPrefix(t: string, k: nat)
    requires ' ' !in t && k <= |t|
    ensures ' ' !in t[..k]
  {
    forall c | c in t[..k] ensures c != ' ' { assert c in t; }
  }

  /** The indentation followed by a word holds no newline. */
  lemma IndentedNoBreak(lead: nat, w: string)
    requires '\n' !in w
    ensures '\n' !in Spaces(lead) + w
  {
    var rest := Spaces(lead) + w;
    forall c | c in rest ensures c != '\n' {
      var i :| 0 <= i < |rest| && rest[i] == c;
      if i >= lead { assert c == w[i - lead]; assert c in w; }
    }
  }

  /** Any start of a new row that holds the indentation and one word is short, or is that one word. */
  lemma WrappedRowShape(out: string, lead: nat, w: string, k: nat, rowLen: nat)
    requires '\n' !in w && ' ' !in w && lead < rowLen && k <= lead + |w|
    ensures var u := out + ("\n" + (Spaces(lead) + w)[..k]);
      RowFits(u, rowLen, lead)
  {
    var rest := Spaces(lead) + w;
    IndentedNoBreak(lead, w);
    NoBreakPrefix(rest, k);
    ColumnAfterBreak(out, rest[..k]);
    LastRowAfterBreak(out, rest[..k]);
    if k > rowLen {
      assert rest[..k][..lead] == Spaces(lead);
      assert rest[..k][lead..] == w[..k - lead];
      NoBlankPrefix(w, k - lead);
    }
  }

  /** A word that does not fit starts a row that holds the indentation and that word only. */
  lemma LayWrapsShape(f: Frame, pen: Pen, w: string)
    requires Steady(f, pen) && '\n' !in w && ' ' !in w
    requires RowFits(pen.out, f.rowLen, f.indent + pen.ioffs)
    requires pen.row + |w| + (if pen.space then 1 else 0) > f.rowLen
    ensures var r := Lay(f, pen, w, |w|);
      r.row == Column(r.out) && RowsFit(r.out, |pen.out|, f.rowLen, f.indent + pen.ioffs)
  {
    var lead := f.indent + pen.ioffs;
    var rest := Spaces(lead) + w;
    var r := Lay(f, pen, w, |w|);
    assert r.out == pen.out + ("\n" + rest);
    forall j | |pen.out| <= j <= |r.out|
      ensures RowFits(r.out[..j], f.rowLen, lead)
    {
      if j == |pen.out| {
        assert r.out[..j] == pen.out;
      } else {
        var k := j - |pen.out| - 1;
        assert r.out[..j] == pen.out + ("\n" + rest[..k]);
        WrappedRowShape(pen.out, lead, w, k, f.rowLen);
      }
    }
    IndentedNoBreak(lead, w);
    ColumnAfterBreak(pen.out, rest);
  }

  /** Either way, Lay keeps every row within the row length or down to the indentation and one word. */
  lemma LayShape(f: Frame, pen: Pen, w: string)
    requires Steady(f, pen) && '\n' !in w && ' ' !in w && pen.row == Column(pen.out)
    requires RowFits(pen.out, f.rowLen, f.indent + pen.ioffs)
    ensures var r := Lay(f, pen, w, |w|);
      r.row == Column(r.out) && RowsFit(r.out, |pen.out|, f.rowLen, f.indent + pen.ioffs)
  {
    if pen.row + |w| + (if pen.space then 1 else 0) <= f.rowLen {
      LayFitsRows(f, pen, w, f.rowLen);
    } else {
      LayWrapsShape(f, pen, w);
    }
  }

  /** Where rows fit, the last row fits. */
  lemma RowsFitEnd(s: string, from: nat, rowLen: nat, lead: nat)
    requires from <= |s| && RowsFit(s, from, rowLen, lead)
    ensures RowFits(s, rowLen, lead)
  {
    assert s[..|s|] == s;
  }

  /** Rows that fit before and after a point of a longer text fit from the start. */
  lemma RowsFitJoin(a: string, b: string, from: nat, rowLen: nat, lead: nat)
    requires a <= b && from <= |a| && RowsFit(a, from, rowLen, lead) && RowsFit(b, |a|, rowLen, lead)
    ensures RowsFit(b, from, rowLen, lead)
  {
    forall j | from <= j <= |a|
      ensures RowFits(b[..j], rowLen, lead)
    {
      assert b[..j] == a[..j];
    }
  }

  /**
   * The width promise of the layout, as the header of strn.h draws it: every
   * row of a fill is at most rowLen long, except a row that holds the
   * indentation and a single word too long for any row.
   */
  lemma {:induction false} FillShape(ws: seq<string>, f: Frame, pen: Pen, lead: nat)
    requires Steady(f, pen) && lead == f.indent + pen.ioffs && pen.row == Column(pen.out) && Unbroken(ws)
    requires RowFits(pen.out, f.rowLen, lead)
    ensures RowsFit(Fill(ws, f, pen), |pen.out|, f.rowLen, lead)
    decreases |ws|
  {
    if ws == [] {
      RowsFitHere(pen.out, f.rowLen, lead);
    } else {
      var next := FillStep(ws, f, pen, lead);
      FillShape(ws[1..], f, next, lead);
      RowsFitJoin(next.out, Fill(ws[1..], f, next), |pen.out|, f.rowLen, lead);
    }
  }

  /** The pen after the first word of a fill, with what the width promise needs of it. */
  lemma FillStep(ws: seq<string>, f: Frame, pen: Pen, lead: nat) returns (next: Pen)
    requires ws != [] && Steady(f, pen) && lead == f.indent + pen.ioffs && pen.row == Column(pen.out) && Unbroken(ws)
    requires RowFits(pen.out, f.rowLen, lead)
    ensures Steady(f, next) && lead == f.indent + next.ioffs && next.row == Column(next.out) && Unbroken(ws[1..])
    ensures RowFits(next.out, f.rowLen, lead)
    ensures Fill(ws, f, pen) == Fill(ws[1..], f, next)
    ensures |pen.out| <= |next.out| && RowsFit(next.out, |pen.out|, f.rowLen, lead)
  {
    var w := ws[0];
    assert '\n' !in w && ' ' !in w && Unbroken(ws[1..]);
    next := LayStep(f, pen, w, lead);
    FillCons(ws, f, pen);
  }

  /** The pen after one word stands at the end of a row that fits, and every row it added fits. */
  lemma LayStep(f: Frame, pen: Pen, w: string, lead: nat) returns (next: Pen)
    requires Steady(f, pen) && lead == f.indent + pen.ioffs && pen.row == Column(pen.out)
    requires '\n' !in w && ' ' !in w && RowFits(pen.out, f.rowLen, lead)
    ensures next == Lay(f, pen, w, |w|)
    ensures Steady(f, next) && lead == f.indent + next.ioffs && next.row == Column(next.out)
    ensures RowFits(next.out, f.rowLen, lead)
    ensures |pen.out| <= |next.out| && RowsFit(next.out, |pen.out|, f.rowLen, lead)
  {
    next := Lay(f, pen, w, |w|);
    LayShape(f, pen, w);
    RowsFitEnd(next.out, |pen.out|, f.rowLen, lead);
  }

  /** A fill lays its first word and fills the rest from there. */
  lemma FillCons(ws: seq<string>, f: Frame, pen: Pen)
    requires ws != [] && Steady(f, pen)
    ensures Fill(ws, f, pen) == Fill(ws[1..], f, Lay(f, pen, ws[0], |ws[0]|))
  {
  }

  /** A text whose last row fits has rows that fit from its end. */
  lemma RowsFitHere(s: string, rowLen: nat, lead: nat)
    requires RowFits(s, rowLen, lead)
    ensures RowsFit(s, |s|, rowLen, lead)
  {
    assert s[..|s|] == s;
  }

  /** Words that hold neither a blank nor a newline. */
  predicate Unbroken(ws: seq<string>)
    decreases |ws|
  {
    ws == [] || ('\n' !in ws[0] && ' ' !in ws[0] && Unbroken(ws[1..]))
  }

  /** A token list that holds one word token per word, in order, and then the closing token. */
  predicate WordsThenEnd(ts: seq<Scan>, ws: seq<string>)
    decreases |ws|
  {
    if ws == [] then ts == [Scan([], -1, None)]
    else
      ts != [] && ts[0].offs == -1 && ts[0].next.Some? && ts[0].word == ws[0]
      && (ws[0] == [] || ws[0][0] != '\n') && WordsThenEnd(ts[1..], ws[1..])
  }

  /** Word tokens are laid out as the greedy fill of their words. */
  lemma {:induction false} FlowFill(desc: string, ts: seq<Scan>, ws: seq<string>, f: Frame, pen: Pen)
    requires Steady(f, pen) && WordsThenEnd(ts, ws)
    ensures Flow(desc, ts, f, pen) == Fill(ws, f, pen)
    decreases |ws|
  {
    if ws == [] {
      FlowLast(desc, ts[0], [], f, pen);
      assert pen.out + [] == pen.out;
    } else {
      var t, rest := ts[0], ts[1..];
      assert ts == [t] + rest;
      FlowWord(desc, t.word, t.next.value, rest, f, pen);
      FlowFill(desc, rest, ws[1..], f, Lay(f, pen, ws[0], |ws[0]|));
    }
  }

  /** Plain text is cut into its words, each a token of its own, and nothing else. */
  lemma {:induction false} PlainTokens(desc: string, p: nat)
    requires PlainText(desc) && p <= |desc|
    ensures WordsThenEnd(Tokens(desc, p), Words(desc, p))
    decreases |desc| - p
  {
    var q := Skip(desc, p);
    if q == |desc| {
      SkipBlanks(desc, p);
      TokensEnd(desc, p);
      assert Words(desc, p) == [];
    } else {
      var k := PlainTokensStep(desc, p);
      PlainTokens(desc, q + k);
    }
  }

  /** The step of PlainTokens: a word token in front of the tokens of the rest. */
  lemma PlainTokensStep(desc: string, p: nat) returns (k: nat)
    requires PlainText(desc) && p <= |desc| && Skip(desc, p) < |desc|
    ensures Skip(desc, p) + k <= |desc| && 0 < k
    ensures var q := Skip(desc, p);
      WordsThenEnd(Tokens(desc, q + k), Words(desc, q + k)) ==> WordsThenEnd(Tokens(desc, p), Words(desc, p))
  {
    var q := Skip(desc, p);
    k := PlainStep(desc, p);
    SkipBlanks(desc, p);
    TokensWord(desc, p, q, k);
    var w := desc[q..q + k];
    WordsThenEndCons(Scan(w, -1, Some(q + k)), Tokens(desc, q + k), w, Words(desc, q + k), Tokens(desc, p), Words(desc, p));
  }

  /** A word token in front of word tokens for the rest of the words. */
  lemma WordsThenEndCons(t: Scan, ts: seq<Scan>, w: string, ws: seq<string>, allTs: seq<Scan>, allWs: seq<string>)
    requires t.offs == -1 && t.next.Some? && t.word == w && (w == [] || w[0] != '\n')
    requires allTs == [t] + ts && allWs == [w] + ws
    ensures WordsThenEnd(ts, ws) ==> WordsThenEnd(allTs, allWs)
  {
    assert allWs[1..] == ws;
    assert allTs[1..] == ts;
  }

  /** One word of plain text: a run of plain characters that the parser takes as one word, and the first of the words. */
  lemma PlainStep(desc: string, p: nat) returns (k: nat)
    requires PlainText(desc) && p <= |desc| && Skip(desc, p) < |desc|
    ensures var q := Skip(desc, p);
      q + k <= |desc| && 0 < k < WordCap
      && (forall j :: q <= j < q + k ==> PlainChar(desc[j]))
      && (k == WordCap - 1 || At(desc, q + k) == '\0' || IsSpace(At(desc, q + k)))
      && Words(desc, p) == [desc[q..q + k]] + Words(desc, q + k)
  {
    var q := Skip(desc, p);
    assert desc[q] != '\n' && !IsSpace(desc[q]);
    k := RunEnd(desc, q, 1);
    RunEndRun(desc, q, 1);
    NonBlankRun(desc, q, k);
    WordsStep(desc, p);
  }

  /** The first word of the text from p runs from the first non-blank to the end of its run. */
  lemma WordsStep(desc: string, p: nat)
    requires p <= |desc| && Skip(desc, p) < |desc| && desc[Skip(desc, p)] != '\n'
    ensures var q := Skip(desc, p);
      var k := RunEnd(desc, q, 1);
      Words(desc, p) == [desc[q..q + k]] + Words(desc, q + k)
  {
  }

  /** In plain text a run of non-blanks holds only plain characters. */
  lemma NonBlankRun(desc: string, q: nat, k: nat)
    requires PlainText(desc) && q + k <= |desc|
    requires forall j :: q <= j < q + k ==> !IsSpace(desc[j])
    ensures forall j :: q <= j < q + k ==> PlainChar(desc[j])
  {
  }

  /**
   * The words of the text from p, given the first: blanks up to q, then k
   * characters that are not blanks, up to a blank, the end of the text or a
   * full word buffer.
   */
  lemma WordAt(desc: string, p: nat, q: nat, k: nat)
    requires p <= q && q + k <= |desc| && 0 < k < WordCap
    requires forall j :: p <= j < q ==> IsSpace(desc[j]) && desc[j] != '\n'
    requires forall j :: q <= j < q + k ==> !IsSpace(desc[j])
    requires q + k == |desc| || k == WordCap - 1 || IsSpace(desc[q + k])
    ensures Words(desc, p) == [desc[q..q + k]] + Words(desc, q + k)
  {
    SkipTo(desc, p, q);
    RunEndAt(desc, q, 1, k);
    WordsStep(desc, p);
  }

  /** The run of non-blanks ends at the first blank, at the end of the text, or when the word buffer is full. */
  lemma {:induction false} RunEndAt(s: string, q: nat, k: nat, r: nat)
    requires q + r <= |s| && k <= r < WordCap
    requires forall j :: q + k <= j < q + r ==> !IsSpace(s[j])
    requires q + r == |s| || r == WordCap - 1 || IsSpace(s[q + r])
    ensures RunEnd(s, q, k) == r
    decreases r - k
  {
    if k < r {
      RunEndAt(s, q, k + 1, r);
    }
  }

  /** Only blanks other than newlines are left: there are no more words. */
  lemma WordsEnd(desc: string, p: nat)
    requires p <= |desc|
    requires forall j :: p <= j < |desc| ==> IsSpace(desc[j]) && desc[j] != '\n'
    ensures Words(desc, p) == []
  {
    SkipTo(desc, p, |desc|);
  }

  /** On plain text the layout is the greedy fill of the text's words. */
  lemma FlowPlain(desc: string, f: Frame, pen: Pen)
    requires PlainText(desc) && Steady(f, pen)
    ensures Flow(desc, Tokens(desc, 0), f, pen) == Fill(Words(desc, 0), f, pen)
  {
    PlainTokens(desc, 0);
    FlowFill(desc, Tokens(desc, 0), Words(desc, 0), f, pen);
  }

  // Texts made of words

  /** A word the parser keeps whole: plain characters only, and short enough for the word buffer. */
  predicate Word(w: string)
  {
    0 < |w| < WordCap && forall j :: 0 <= j < |w| ==> PlainChar(w[j])
  }

  /** The words, one blank between each two. */
  function Join(ws: seq<string>): string
  {
    if ws == [] then []
    else if |ws| == 1 then ws[0]
    else ws[0] + " " + Join(ws[1..])
  }

  /** Joined words hold no escapes, NULs or newlines. */
  lemma {:induction false} JoinedPlain(ws: seq<string>)
    requires forall i :: 0 <= i < |ws| ==> Word(ws[i])
    ensures PlainText(Join(ws))
    decreases |ws|
  {
    if |ws| > 1 {
      JoinedPlain(ws[1..]);
      var w, rest := ws[0], Join(ws[1..]);
      assert Word(w);
      forall j | 0 <= j < |w + " " + rest|
        ensures var c := (w + " " + rest)[j]; c != '\\' && c != '\0' && c != '\n'
      {
        if j > |w| {
          assert (w + " " + rest)[j] == rest[j - |w| - 1];
        }
      }
    } else if |ws| == 1 {
      assert Word(ws[0]);
    }
  }

  /** From p on, s holds the words ws, one blank between each two, and nothing after them. */
  predicate JoinedAt(s: string, p: nat, ws: seq<string>)
    decreases |ws|
  {
    if ws == [] then p == |s|
    else
      var e := p + |ws[0]|;
      e <= |s| && s[p..e] == ws[0]
      && if |ws| == 1 then e == |s| else e < |s| && s[e] == ' ' && JoinedAt(s, e + 1, ws[1..])
  }

  /** Join puts the words one blank apart, and nothing else. */
  lemma {:induction false} JoinIsJoined(a: string, ws: seq<string>)
    ensures JoinedAt(a + Join(ws), |a|, ws)
    decreases |ws|
  {
    var s := a + Join(ws);
    if ws != [] {
      var w := ws[0];
      if |ws| == 1 {
        assert s == a + w;
        assert s[|a|..|a| + |w|] == w;
      } else {
        var a' := a + w + " ";
        assert s == a' + Join(ws[1..]);
        assert s[|a|..|a| + |w|] == w;
        assert s[|a| + |w|] == ' ';
        JoinIsJoined(a', ws[1..]);
      }
    }
  }

  /** The tokenizer gives back the words that were joined. */
  lemma {:induction false} JoinedWords(s: string, p: nat, ws: seq<string>)
    requires (forall i :: 0 <= i < |ws| ==> Word(ws[i])) && JoinedAt(s, p, ws)
    ensures Words(s, p) == ws
    decreases |ws|
  {
    if ws == [] {
      WordsEnd(s, p);
    } else if |ws| == 1 {
      JoinedLast(s, p, ws);
    } else {
      var e := JoinedNext(s, p, ws);
      JoinedWords(s, e, ws[1..]);
    }
  }

  /** The last of the joined words is the last word of the text. */
  lemma JoinedLast(s: string, p: nat, ws: seq<string>)
    requires (forall i :: 0 <= i < |ws| ==> Word(ws[i])) && JoinedAt(s, p, ws) && |ws| == 1
    ensures Words(s, p) == ws
  {
    var w := ws[0];
    assert Word(w);
    WordHere(s, p, w);
    WordsEnd(s, p + |w|);
    assert ws == [w] + [];
  }

  /** Past the first of several joined words and its blank, the rest are joined words. */
  lemma JoinedNext(s: string, p: nat, ws: seq<string>) returns (e: nat)
    requires (forall i :: 0 <= i < |ws| ==> Word(ws[i])) && JoinedAt(s, p, ws) && |ws| > 1
    ensures e == p + |ws[0]| + 1 <= |s| && JoinedAt(s, e, ws[1..])
    ensures forall i :: 0 <= i < |ws| - 1 ==> Word(ws[1..][i])
    ensures Words(s, e) == ws[1..] ==> Words(s, p) == ws
  {
    var w, rest := ws[0], ws[1..];
    var end := JoinedFirst(s, p, ws);
    e := end + 1;
    assert s[end] == ' ' && IsSpace(s[end]);
    WordHere(s, p, w);
    NextBlank(s, end);
    assert Words(s, p) == [w] + Words(s, e);
    ConsBack(Words(s, p), w, Words(s, e), ws);
  }

  /** A list that is w in front of the rest of ws, where ws starts with w, is ws. */
  lemma ConsBack(x: seq<string>, w: string, y: seq<string>, ws: seq<string>)
    requires x == [w] + y && ws != [] && ws[0] == w
    ensures y == ws[1..] ==> x == ws
  {
    if y == ws[1..] {
      assert ws == [ws[0]] + ws[1..];
    }
  }

  /** The first of the joined words, and where the rest start. */
  lemma JoinedFirst(s: string, p: nat, ws: seq<string>) returns (e: nat)
    requires (forall i :: 0 <= i < |ws| ==> Word(ws[i])) && JoinedAt(s, p, ws) && ws != []
    ensures e == p + |ws[0]| && Word(ws[0]) && e <= |s| && s[p..e] == ws[0]
    ensures |ws| == 1 ==> e == |s|
    ensures |ws| > 1 ==>
      e < |s| && s[e] == ' ' && JoinedAt(s, e + 1, ws[1..]) && forall i :: 0 <= i < |ws| - 1 ==> Word(ws[1..][i])
  {
    e := p + |ws[0]|;
    assert Word(ws[0]);
    if |ws| > 1 {
      forall i | 0 <= i < |ws| - 1
        ensures Word(ws[1..][i])
      {
        assert ws[1..][i] == ws[i + 1];
      }
    }
  }

  /** A word at p that ends at a blank or at the end of the text is the first of the words from p. */
  lemma WordHere(s: string, p: nat, w: string)
    requires Word(w) && p + |w| <= |s| && s[p..p + |w|] == w
    requires p + |w| == |s| || IsSpace(s[p + |w|])
    ensures Words(s, p) == [w] + Words(s, p + |w|)
  {
    forall j | p <= j < p + |w|
      ensures !IsSpace(s[j])
    {
      assert s[j] == w[j - p] && PlainChar(w[j - p]);
    }
    var rest := Words(s, p + |w|);
    WordAt(s, p, p, |w|);
    assert Words(s, p) == [s[p..p + |w|]] + rest;
  }

  /** A blank other than a newline does not change the words that follow it. */
  lemma NextBlank(s: string, p: nat)
    requires p < |s| && IsSpace(s[p]) && s[p] != '\n'
    ensures Words(s, p) == Words(s, p + 1)
  {
    assert Skip(s, p) == Skip(s, p + 1);
  }

  /** Words joined by blanks are laid out as their greedy fill. */
  lemma FlowJoined(ws: seq<string>, f: Frame, pen: Pen)
    requires (forall i :: 0 <= i < |ws| ==> Word(ws[i])) && Steady(f, pen)
    ensures var desc := Join(ws); Flow(desc, Tokens(desc, 0), f, pen) == Fill(ws, f, pen)
  {
    var desc := Join(ws);
    JoinedPlain(ws);
    JoinIsJoined([], ws);
    assert [] + desc == desc;
    JoinedWords(desc, 0, ws);
    FlowPlain(desc, f, pen);
  }

  /**
   * The width bound for a text of words: when every word fits after the
   * indentation within cap, and cap is at least the row length, no row the
   * layout adds is longer than cap.
   */
  lemma JoinedRows(ws: seq<string>, f: Frame, pen: Pen, cap: nat)
    requires (forall i :: 0 <= i < |ws| ==> Word(ws[i])) && Steady(f, pen)
    requires pen.row == Column(pen.out) && Column(pen.out) <= cap && f.rowLen <= cap
    requires forall i :: 0 <= i < |ws| ==> f.indent + pen.ioffs + |ws[i]| <= cap
    ensures var desc := Join(ws); RowsWithin(Flow(desc, Tokens(desc, 0), f, pen), |pen.out|, cap)
  {
    FlowJoined(ws, f, pen);
    forall i | 0 <= i < |ws|
      ensures '\n' !in ws[i]
    {
      forall j | 0 <= j < |ws[i]| ensures ws[i][j] != '\n' { assert PlainChar(ws[i][j]); }
    }
    FillRows(ws, f, pen, cap);
  }

  /**
   * The width promise for a text of words: laid out from a pen at the end of
   * a row that fits, no row is longer than rowLen, except that a word too long
   * for the row after the indentation is placed on a row of its own, which it
   * alone overruns.
   */
  lemma JoinedShape(ws: seq<string>, f: Frame, pen: Pen)
    requires (forall i :: 0 <= i < |ws| ==> Word(ws[i])) && Steady(f, pen)
    requires pen.row == Column(pen.out) && RowFits(pen.out, f.rowLen, f.indent + pen.ioffs)
    ensures var desc := Join(ws); RowsFit(Flow(desc, Tokens(desc, 0), f, pen), |pen.out|, f.rowLen, f.indent + pen.ioffs)
  {
    WordsUnbroken(ws);
    FillShape(ws, f, pen, f.indent + pen.ioffs);
    FlowJoined(ws, f, pen);
  }

  /** Words hold neither blanks nor newlines. */
  lemma {:induction false} WordsUnbroken(ws: seq<string>)
    requires forall i :: 0 <= i < |ws| ==> Word(ws[i])
    ensures Unbroken(ws)
    decreases |ws|
  {
    if ws != [] {
      var w := ws[0];
      assert Word(w);
      forall j | 0 <= j < |w| ensures w[j] != '\n' && w[j] != ' ' { assert PlainChar(w[j]); }
      assert forall i :: 0 <= i < |ws[1..]| ==> ws[1..][i] == ws[i + 1];
      WordsUnbroken(ws[1..]);
    }
  }

  // The formatter as the C code runs it

  /** The buffer holds what fits of the text out, and past that only the bytes it had (and the final NUL). */
  ghost predicate Holds(buf: array<char>, bufLen: nat, count: nat, out: string, orig: seq<char>)
    reads buf
  {
    0 < bufLen <= buf.Length && |orig| == buf.Length
    && count == Min(|out|, bufLen - 1) && buf[..count] == out[..count]
    && buf[bufLen - 1] == '\0'
    && forall j :: count < j < buf.Length && j != bufLen - 1 ==> buf[j] == orig[j]
  }

  /**
   * The C state agrees with the layout: the buffer holds what fits of it, the
   * text is NUL-terminated, the indentation offset is the layout's, and so
   * are the row length and the pending blank as long as nothing has been cut
   * off.
   */
  ghost predicate Sync(buf: array<char>, bufLen: nat, count: nat, row: int, space: bool, ioffs: int, pen: Pen,
                       orig: seq<char>)
    reads buf
  {
    Holds(buf, bufLen, count, pen.out, orig) && buf[count] == '\0' && ioffs == pen.ioffs
    && (|pen.out| < bufLen - 1 ==> row == pen.row && space == pen.space)
  }

  /** Writing what fits of the next piece keeps the buffer a prefix of the layout. */
  lemma Appended(out: string, piece: string, cap: nat, b: string)
    requires |b| == Min(|out|, cap) && b == out[..|b|]
    ensures var c := Fit(piece, cap + 1 - |b|);
      |b + c| == Min(|out + piece|, cap) && b + c == (out + piece)[..|b + c|]
      && (|out + piece| < cap ==> c == piece)
  {
    var c := Fit(piece, cap + 1 - |b|);
    if |out| < cap {
      assert b == out;
      assert b + c == (out + piece)[..|b + c|];
    }
  }

  /** Once the buffer is full, whatever the layout appends no longer shows in it. */
  lemma HoldsFull(buf: array<char>, bufLen: nat, count: nat, out: string, x: string, y: string, orig: seq<char>)
    requires |out| >= bufLen - 1 && Holds(buf, bufLen, count, out + x, orig)
    ensures Holds(buf, bufLen, count, out + y, orig)
  {
    assert (out + x)[..count] == out[..count] == (out + y)[..count];
  }

  /** A PST_snprintf call of the formatter: the next piece of the layout, cut to what fits. */
  method Append(buf: array<char>, bufLen: nat, count: nat, piece: string, ghost out: string, ghost orig: seq<char>)
    returns (c: nat)
    requires Holds(buf, bufLen, count, out, orig)
    modifies buf
    ensures Holds(buf, bufLen, count + c, out + piece, orig) && buf[count + c] == '\0'
    ensures |out + piece| < bufLen - 1 ==> c == |piece|
  {
    ghost var b := buf[..count];
    Appended(out, piece, bufLen - 1, b);
    c := Snprintf(buf, count, bufLen - count, piece);
    assert buf[..count] == b;
    assert buf[..count + c] == b + Fit(piece, bufLen - count) by {
      assert buf[..count + c] == buf[..count] + buf[count..count + c];
    }
    assert buf[bufLen - 1] == '\0';
    forall j | count + c < j < buf.Length && j != bufLen - 1
      ensures buf[j] == orig[j]
    {
      assert buf[j] == old(buf[j]);
    }
  }

  /** The header part of PST_vsnhiprintf. */
  method WriteHead(buf: array<char>, bufLen: nat, indent: nat, headerLen: nat, rowLen: nat, name: Option<string>,
                   delimiter: char, ghost orig: seq<char>)
    returns (count: nat, row: int, space: bool, ioffs: int, base: nat)
    requires !Refused(true, bufLen, indent, headerLen, rowLen, name, Some([]))
    requires Holds(buf, bufLen, 0, [], orig)
    modifies buf
    ensures var (f, pen) := Head(rowLen, indent, headerLen, name, delimiter);
      base == f.indent && Sync(buf, bufLen, count, row, space, ioffs, pen, orig)
  {
    ioffs, space := 0, false;
    if name.Some? {
      count, row := WriteName(buf, bufLen, indent, headerLen, CString(name.value), delimiter, orig);
      base := headerLen;
    } else {
      var c := Append(buf, bufLen, 0, Spaces(indent), [], orig);
      assert [] + Spaces(indent) == Spaces(indent);
      row := c;
      count := c;
      base := indent;
    }
  }

  /** The CO-mode header: the name line, and the delimiter on it or on a line of its own. */
  method WriteName(buf: array<char>, bufLen: nat, indent: nat, headerLen: nat, text: string, delimiter: char,
                   ghost orig: seq<char>)
    returns (count: nat, row: int)
    requires Holds(buf, bufLen, 0, [], orig)
    modifies buf
    ensures var lead := Lead(indent, headerLen, text);
      var tail := Delimit(lead, headerLen, delimiter);
      var r := if tail[0] == '\n' then |tail| - 1 else |lead| + |tail|;
      Sync(buf, bufLen, count, row, false, 0, Pen(lead + tail, r, false, 0), orig)
  {
    var calculated := headerLen - indent - |text| - 3;
    if calculated < 0 {
      calculated := 0;
    }
    var lead := Spaces(indent) + text + Spaces(calculated);
    assert lead == Lead(indent, headerLen, text);
    var c := Append(buf, bufLen, 0, lead, [], orig);
    assert [] + lead == lead;
    count, row := WriteDelimiter(buf, bufLen, c, headerLen, delimiter, lead, orig);
  }

  /** The delimiter after the name: on the same row, or on a new row when the name reaches the delimiter column. */
  method WriteDelimiter(buf: array<char>, bufLen: nat, count0: nat, headerLen: nat, delimiter: char,
                        ghost lead: string, ghost orig: seq<char>)
    returns (count: nat, row: int)
    requires Holds(buf, bufLen, count0, lead, orig) && buf[count0] == '\0'
    modifies buf
    ensures var tail := Delimit(lead, headerLen, delimiter);
      var r := if tail[0] == '\n' then |tail| - 1 else |lead| + |tail|;
      Sync(buf, bufLen, count, row, false, 0, Pen(lead + tail, r, false, 0), orig)
  {
    var c: nat;
    count := count0;
    row := count;
    var tail: string;
    if headerLen >= 3 && row > headerLen - 3 {
      tail := "\n" + Spaces(headerLen - 3) + " " + [delimiter] + " ";
      c := Append(buf, bufLen, count, tail, lead, orig);
      count := count + c;
      row := c as int - 1;
    } else {
      tail := " " + [delimiter] + " ";
      c := Append(buf, bufLen, count, tail, lead, orig);
      row := row + c;
      count := count + c;
    }
    ghost var spec := Delimit(lead, headerLen, delimiter);
    ghost var r := if spec[0] == '\n' then |spec| - 1 else |lead| + |spec|;
    if |lead| < bufLen - 1 {
      assert tail == spec;
    }
    Synced(buf, bufLen, count, row, false, 0, Pen(lead, 0, false, 0), tail, Pen(lead + spec, r, false, 0), orig);
  }

  /** One pass of the formatter's loop for a token that is not the last. */
  method PlaceToken(buf: array<char>, bufLen: nat, desc: string, f: Frame, count: nat, row: int, space: bool,
                    ioffs: int, t: Scan, ghost pen: Pen, ghost orig: seq<char>)
    returns (count': nat, row': int, space': bool, ioffs': int)
    requires t.next.Some? && Steady(f, pen) && Sync(buf, bufLen, count, row, space, ioffs, pen, orig)
    modifies buf
    ensures Sync(buf, bufLen, count', row', space', ioffs', Place(desc, f, pen, t), orig)
  {
    if t.offs != -1 {
      count', row', space' := count, row, space;
      ioffs' := t.offs;
      if f.indent + ioffs' < 0 {
        ioffs' := -(f.indent as int);
      } else if f.indent + ioffs' >= f.rowLen {
        ioffs' := f.rowLen - 1 - f.indent;
      }
      assert ioffs' == Clamp(f.indent, f.rowLen, t.offs);
      return;
    }
    count', row', space' := PlaceWord(buf, bufLen, desc, f, count, row, space, ioffs, t, pen, orig);
    ioffs' := ioffs;
  }

  /** A word (or a newline) of the loop: on the current row, or after a line break. */
  method PlaceWord(buf: array<char>, bufLen: nat, desc: string, f: Frame, count: nat, row: int, space: bool,
                   ioffs: int, t: Scan, ghost pen: Pen, ghost orig: seq<char>)
    returns (count': nat, row': int, space': bool)
    requires t.next.Some? && t.offs == -1 && Steady(f, pen) && Sync(buf, bufLen, count, row, space, ioffs, pen, orig)
    modifies buf
    ensures Sync(buf, bufLen, count', row', space', ioffs, Place(desc, f, pen, t), orig)
  {
    row', space' := row, space;
    var word := t.word;
    if |word| > 0 && word[0] == '\n' {
      space' := false;
      if At(desc, t.next.value) != '\0' {
        row' := f.rowLen + 1;
        word := [];
      }
    }
    ghost var pre := pen.(row := row', space := space');
    ghost var next := Place(desc, f, pen, t);
    count', row', space' := LayWord(buf, bufLen, f, count, row', space', ioffs, word, |t.word|, pre, orig);
    if |pen.out| < bufLen - 1 {
      assert next == Lay(f, pre, word, |t.word|);
    } else {
      SyncFull(buf, bufLen, count', row', space', ioffs, Lay(f, pre, word, |t.word|), next, orig);
    }
  }

  /** The word (or the line break) of one pass of the loop, written at the end of the buffer. */
  method LayWord(buf: array<char>, bufLen: nat, f: Frame, count: nat, row: int, space: bool, ioffs: int,
                 word: string, len: nat, ghost pen: Pen, ghost orig: seq<char>)
    returns (count': nat, row': int, space': bool)
    requires Steady(f, pen) && Holds(buf, bufLen, count, pen.out, orig) && buf[count] == '\0'
    requires ioffs == pen.ioffs && row == pen.row && space == pen.space
    modifies buf
    ensures Sync(buf, bufLen, count', row', space', ioffs, Lay(f, pen, word, len), orig)
  {
    var c: nat;
    var piece: string;
    if row + len + (if space then 1 else 0) > f.rowLen {
      piece := "\n" + Spaces(f.indent + ioffs) + word;
      c := Append(buf, bufLen, count, piece, pen.out, orig);
      count' := count + c;
      row' := c as int - 1;
      space' := space || word != [];
    } else {
      piece := (if space then " " else "") + word;
      c := Append(buf, bufLen, count, piece, pen.out, orig);
      space' := true;
      row' := row + c;
      count' := count + c;
    }
    Synced(buf, bufLen, count', row', space', ioffs, pen, piece, Lay(f, pen, word, len), orig);
  }

  /** Once the buffer is full, the C state agrees with every layout that extends what was written. */
  lemma SyncFull(buf: array<char>, bufLen: nat, count: nat, row: int, space: bool, ioffs: int, a: Pen, b: Pen,
                 orig: seq<char>)
    requires Sync(buf, bufLen, count, row, space, ioffs, a, orig) && |a.out| >= bufLen - 1
    requires |b.out| >= bufLen - 1 && a.out[..bufLen - 1] == b.out[..bufLen - 1] && b.ioffs == ioffs
    ensures Sync(buf, bufLen, count, row, space, ioffs, b, orig)
  {
  }

  /** After a write: the C state agrees with the next pen of the layout. */
  lemma Synced(buf: array<char>, bufLen: nat, count: nat, row: int, space: bool, ioffs: int, pen: Pen, piece: string,
               next: Pen, orig: seq<char>)
    requires Holds(buf, bufLen, count, pen.out + piece, orig) && buf[count] == '\0'
    requires next.ioffs == ioffs && pen.out <= next.out
    requires |pen.out| < bufLen - 1 ==> next.out == pen.out + piece
    requires |next.out| < bufLen - 1 ==> row == next.row && space == next.space
    ensures Sync(buf, bufLen, count, row, space, ioffs, next, orig)
  {
    if |pen.out| >= bufLen - 1 {
      HoldsFull(buf, bufLen, count, pen.out, piece, next.out[|pen.out|..], orig);
      assert pen.out + next.out[|pen.out|..] == next.out;
    }
  }

  /**
   * PST_vsnhiprintf with the text already formatted: the refused arguments
   * give 0 and leave the buffer alone; otherwise the buffer receives the
   * first bufLen - 1 characters of the layout and a NUL after them, byte
   * bufLen - 1 becomes NUL, and the count of characters written is returned.
   */
  method Vsnhiprintf(buf: array?<char>, bufLen: nat, indent: nat, headerLen: nat, rowLen: nat,
                     name: Option<string>, delimiter: char, txt: Option<string>) returns (count: nat)
    requires buf != null ==> bufLen <= buf.Length
    modifies buf
    ensures Refused(buf != null, bufLen, indent, headerLen, rowLen, name, txt) ==>
      count == 0 && (buf != null ==> unchanged(buf))
    ensures !Refused(buf != null, bufLen, indent, headerLen, rowLen, name, txt) ==>
      var r := Help(bufLen, indent, headerLen, rowLen, name, delimiter, txt.value);
      count == |r| && buf[..count] == r && buf[count] == '\0' && buf[bufLen - 1] == '\0'
      && forall j :: count < j < buf.Length && j != bufLen - 1 ==> buf[j] == old(buf[j])
  {
    if buf == null || bufLen == 0 || txt.None? || indent >= rowLen
       || (name.Some? && (indent >= headerLen || headerLen >= rowLen)) {
      return 0;
    }
    ghost var orig := buf[..];
    var desc := Fit(txt.value, bufLen);
    buf[bufLen - 1] := '\0';
    ghost var head := Head(rowLen, indent, headerLen, name, delimiter);
    ghost var f, pen := head.0, head.1;
    ghost var full := Render(desc, indent, headerLen, rowLen, name, delimiter);
    var row: int, space: bool, ioffs: int, base: nat;
    count, row, space, ioffs, base := WriteHead(buf, bufLen, indent, headerLen, rowLen, name, delimiter, orig);
    count := Layout(buf, bufLen, desc, rowLen, base, count, row, space, ioffs, pen, orig);
    assert Help(bufLen, indent, headerLen, rowLen, name, delimiter, txt.value) == full[..count];
  }

  /** The loop of PST_vsnhiprintf: every token of the description, placed after the header. */
  method Layout(buf: array<char>, bufLen: nat, desc: string, rowLen: nat, base: nat, count0: nat, row0: int,
                space0: bool, ioffs0: int, ghost pen0: Pen, ghost orig: seq<char>) returns (count: nat)
    requires Steady(Frame(rowLen, base), pen0) && Sync(buf, bufLen, count0, row0, space0, ioffs0, pen0, orig)
    modifies buf
    ensures Holds(buf, bufLen, count, Flow(desc, Tokens(desc, 0), Frame(rowLen, base), pen0), orig) && buf[count] == '\0'
  {
    ghost var f := Frame(rowLen, base);
    ghost var full := Flow(desc, Tokens(desc, 0), f, pen0);
    ghost var pen := pen0;
    var row, space, ioffs := row0, space0, ioffs0;
    count := count0;
    var p: nat := 0;
    while true
      invariant p <= |desc| && Steady(f, pen)
      invariant Flow(desc, Tokens(desc, p), f, pen) == full
      invariant Sync(buf, bufLen, count, row, space, ioffs, pen, orig)
      decreases |desc| - p
    {
      var word, offs, next := ParseNextToken(desc, p);
      var t := Scan(word, offs, next);
      if next.None? {
        assert Tokens(desc, p) == [t];
        FlowLast(desc, t, [], f, pen);
        if |word| != 0 {
          var c := Append(buf, bufLen, count, word, pen.out, orig);
          count := count + c;
        } else {
          assert pen.out + word == pen.out;
        }
        return;
      }
      ghost var rest := Tokens(desc, next.value);
      assert Tokens(desc, p) == [t] + rest;
      assert ([t] + rest)[1..] == rest;
      count, row, space, ioffs := PlaceToken(buf, bufLen, desc, Frame(rowLen, base), count, row, space, ioffs, t, pen, orig);
      pen := Place(desc, f, pen, t);
      p := next.value;
    }
  }

  /** PST_snhiprintf: the same, with the row length given first. */
  method Snhiprintf(buf: array?<char>, bufLen: nat, rowLen: nat, indent: nat, headerLen: nat,
                    name: Option<string>, delimiter: char, txt: Option<string>) returns (count: nat)
    requires buf != null ==> bufLen <= buf.Length
    modifies buf
    ensures Refused(buf != null, bufLen, indent, headerLen, rowLen, name, txt) ==>
      count == 0 && (buf != null ==> unchanged(buf))
    ensures !Refused(buf != null, bufLen, indent, headerLen, rowLen, name, txt) ==>
      var r := Help(bufLen, indent, headerLen, rowLen, name, delimiter, txt.value);
      count == |r| && buf[..count] == r && buf[count] == '\0' && buf[bufLen - 1] == '\0'
      && forall j :: count < j < buf.Length && j != bufLen - 1 ==> buf[j] == old(buf[j])
  {
    count := Vsnhiprintf(buf, bufLen, indent, headerLen, rowLen, name, delimiter, txt);
  }
}
