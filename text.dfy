/** The JavaScript string operations the canvas and its nodes rely on:
    `trim`, `split` on one character, filtering out blank lines, and the
    decimal rendering of the id counter inside a template string. */
module Text {
  import opened Wrappers

  /** The code points `String.prototype.trim` strips: ECMAScript's
      WhiteSpace (tab, vertical tab, form feed, space, no-break space, byte
      order mark and the Unicode space separators) and LineTerminator
      (line feed, carriage return, line and paragraph separators). */
  predicate IsWhitespace(c: char) {
    || c == '\t' || c == '\n' || c == '\U{B}' || c == '\U{C}' || c == '\r'
    || c == ' ' || c == '\U{A0}' || c == '\U{1680}'
    || ('\U{2000}' <= c <= '\U{200A}')
    || c == '\U{2028}' || c == '\U{2029}' || c == '\U{202F}' || c == '\U{205F}'
    || c == '\U{3000}' || c == '\U{FEFF}'
  }

  /** Every character is whitespace (the empty string included). */
  predicate IsBlank(s: string) {
    forall i :: 0 <= i < |s| ==> IsWhitespace(s[i])
  }

  /** Drops leading whitespace: the result is the suffix of `s` that starts
      at its first non-whitespace character. */
  function TrimStart(s: string): (r: string)
    ensures |r| <= |s| && r == s[|s| - |r|..]
    ensures r == [] || !IsWhitespace(r[0])
    ensures IsBlank(s[..|s| - |r|])
  {
    if s != [] && IsWhitespace(s[0]) then
      var r := TrimStart(s[1..]);
      assert s[..|s| - |r|] == [s[0]] + s[1..][..|s| - 1 - |r|];
      r
    else
      s
  }

  /** Drops trailing whitespace: the result is the prefix of `s` that ends
      at its last non-whitespace character. */
  function TrimEnd(s: string): (r: string)
    ensures |r| <= |s| && r == s[..|r|]
    ensures r == [] || !IsWhitespace(r[|r| - 1])
    ensures IsBlank(s[|r|..])
  {
    if s != [] && IsWhitespace(s[|s| - 1]) then
      var r := TrimEnd(s[..|s| - 1]);
      assert s[|r|..] == s[..|s| - 1][|r|..] + [s[|s| - 1]];
      r
    else
      s
  }

  /** JavaScript's `s.trim()`: what is left of `s` once its leading and
      its trailing whitespace are dropped. */
  function Trim(s: string): (r: string)
    ensures |r| <= |s|
    ensures r == [] || (!IsWhitespace(r[0]) && !IsWhitespace(r[|r| - 1]))
  {
    TrimEndsNonBlank(s);
    TrimEnd(TrimStart(s))
  }

  /** The trimmed string starts and ends with a non-whitespace character. */
  lemma TrimEndsNonBlank(s: string)
    ensures var r := TrimEnd(TrimStart(s)); r == [] || (!IsWhitespace(r[0]) && !IsWhitespace(r[|r| - 1]))
  {
    var t := TrimStart(s);
    if TrimEnd(t) != [] {
      assert TrimEnd(t)[0] == t[0];
    }
  }

  /** `!s.trim()` holds exactly for the strings made only of whitespace. */
  lemma TrimEmptyIffBlank(s: string)
    ensures Trim(s) == [] <==> IsBlank(s)
  {
    var t := TrimStart(s);
    assert t != [] ==> t[0] == s[|s| - |t|] && !IsBlank(t);
    assert s[..|s|] == s;
    assert t[0..] == t;
  }

  /** First position of `c` in `s`, as `s.indexOf(c)` (None for -1). */
  function IndexOf(s: string, c: char): (r: Option<nat>)
    ensures r.Some? ==> r.value < |s| && s[r.value] == c && c !in s[..r.value]
    ensures r.None? ==> c !in s
  {
    if s == [] then None
    else if s[0] == c then Some(0)
    else
      match IndexOf(s[1..], c)
      case None => None
      case Some(k) =>
        assert s[..k + 1] == [s[0]] + s[1..][..k];
        Some(k + 1)
  }

  /** The first occurrence of `c` is right after a prefix without it. */
  lemma {:induction false} IndexOfAfter(a: string, c: char, b: string)
    requires c !in a
    ensures IndexOf(a + [c] + b, c) == Some(|a|)
  {
    if a == [] {
      assert a + [c] + b == [c] + b;
    } else {
      IndexOfAfter(a[1..], c, b);
      assert (a + [c] + b)[1..] == a[1..] + [c] + b;
    }
  }

  /** JavaScript's `s.split(sep)` for a one-character separator: the
      maximal runs between separators, always at least one (possibly empty)
      segment. */
  function Split(s: string, sep: char): (r: seq<string>)
    ensures |r| >= 1
  {
    if s == [] then [""]
    else
      var rest := Split(s[1..], sep);
      if s[0] == sep then [""] + rest
      else [[s[0]] + rest[0]] + rest[1..]
  }

  /** No segment contains the separator. */
  lemma {:induction false} SegmentsHaveNoSeparator(s: string, sep: char)
    ensures forall i :: 0 <= i < |Split(s, sep)| ==> sep !in Split(s, sep)[i]
  {
    if s != [] {
      SegmentsHaveNoSeparator(s[1..], sep);
      var rest := Split(s[1..], sep);
      if s[0] != sep {
        assert sep !in [s[0]] + rest[0];
      }
    }
  }

  /** Joining segments with the separator in between (what JavaScript's
      `parts.join(sep)` does). The canvas never joins; this is the reference
      definition against which `Split` is proved to be an exact inverse. */
  function Join(parts: seq<string>, sep: char): string {
    if parts == [] then ""
    else if |parts| == 1 then parts[0]
    else parts[0] + [sep] + Join(parts[1..], sep)
  }

  lemma {:induction false} JoinConsHead(c: char, parts: seq<string>, sep: char)
    requires |parts| >= 1
    ensures Join([[c] + parts[0]] + parts[1..], sep) == [c] + Join(parts, sep)
  {
    var q := [[c] + parts[0]] + parts[1..];
    assert q[1..] == parts[1..];
  }

  /** Joining the segments back with the separator gives the original
      string. */
  lemma {:induction false} JoinSplit(s: string, sep: char)
    ensures Join(Split(s, sep), sep) == s
  {
    if s != [] {
      var rest := Split(s[1..], sep);
      JoinSplit(s[1..], sep);
      if s[0] == sep {
        assert ([""] + rest)[1..] == rest;
        assert s == [sep] + s[1..];
      } else {
        JoinConsHead(s[0], rest, sep);
        assert s == [s[0]] + s[1..];
      }
    }
  }

  lemma {:induction false} SplitNoSeparator(a: string, sep: char)
    requires sep !in a
    ensures Split(a, sep) == [a]
  {
    if a != [] {
      SplitNoSeparator(a[1..], sep);
      assert [a[0]] + a[1..] == a;
    }
  }

  /** One step of `Split`, for a string given as its first character and
      the rest. */
  lemma SplitCons(c: char, u: string, sep: char)
    ensures Split([c] + u, sep) ==
      if c == sep then [""] + Split(u, sep) else [[c] + Split(u, sep)[0]] + Split(u, sep)[1..]
  {
    assert ([c] + u)[0] == c && ([c] + u)[1..] == u;
  }

  /** Splitting at a separator splits the two sides independently. */
  lemma {:induction false} SplitConcat(a: string, t: string, sep: char)
    ensures Split(a + [sep] + t, sep) == Split(a, sep) + Split(t, sep)
  {
    if a == [] {
      assert a + [sep] + t == [sep] + t;
      SplitCons(sep, t, sep);
    } else {
      SplitConcat(a[1..], t, sep);
      SplitConcatStep(a[0], a[1..], t, sep);
      assert [a[0]] + a[1..] == a;
      assert [a[0]] + (a[1..] + [sep] + t) == a + [sep] + t;
    }
  }

  lemma AppendAssoc<T>(x: seq<T>, y: seq<T>, z: seq<T>)
    ensures x + (y + z) == (x + y) + z
  {
  }

  /** The inductive step of `SplitConcat`: one more character in front. */
  lemma SplitConcatStep(c: char, rest: string, t: string, sep: char)
    requires Split(rest + [sep] + t, sep) == Split(rest, sep) + Split(t, sep)
    ensures Split([c] + (rest + [sep] + t), sep) == Split([c] + rest, sep) + Split(t, sep)
  {
    var u := rest + [sep] + t;
    var parts, more := Split(rest, sep), Split(t, sep);
    SplitCons(c, u, sep);
    SplitCons(c, rest, sep);
    if c == sep {
      assert Split([c] + u, sep) == [""] + (parts + more);
      assert Split([c] + rest, sep) == [""] + parts;
      AppendAssoc([""], parts, more);
    } else {
      assert (parts + more)[0] == parts[0] && (parts + more)[1..] == parts[1..] + more;
      assert Split([c] + u, sep) == [[c] + parts[0]] + (parts[1..] + more);
      assert Split([c] + rest, sep) == [[c] + parts[0]] + parts[1..];
      AppendAssoc([[c] + parts[0]], parts[1..], more);
    }
  }

  /** Splitting a join of separator-free segments gives the segments back. */
  lemma {:induction false} SplitJoin(parts: seq<string>, sep: char)
    requires |parts| >= 1
    requires forall i :: 0 <= i < |parts| ==> sep !in parts[i]
    ensures Split(Join(parts, sep), sep) == parts
  {
    if |parts| == 1 {
      SplitNoSeparator(parts[0], sep);
    } else {
      SplitJoin(parts[1..], sep);
      SplitNoSeparator(parts[0], sep);
      SplitConcat(parts[0], Join(parts[1..], sep), sep);
      assert [parts[0]] + parts[1..] == parts;
    }
  }

  /** `parts.filter(line => line.trim())`: the segments that contain a
      non-whitespace character, in their original order. */
  function NonBlank(parts: seq<string>): (r: seq<string>)
    ensures |r| <= |parts|
    ensures forall i :: 0 <= i < |r| ==> !IsBlank(r[i]) && r[i] in parts
  {
    if parts == [] then []
    else if KeepLine(parts[0]) then [parts[0]] + NonBlank(parts[1..])
    else NonBlank(parts[1..])
  }

  /** The filter's test `line.trim()`: truthy exactly when the trimmed line
      is not empty, that is, when the line is not blank. */
  predicate KeepLine(line: string)
    ensures KeepLine(line) <==> !IsBlank(line)
  {
    TrimEmptyIffBlank(line);
    Trim(line) != []
  }

  /** Filtering distributes over concatenation, so the order of the kept
      segments is that of the input. */
  lemma {:induction false} NonBlankAppend(a: seq<string>, b: seq<string>)
    ensures NonBlank(a + b) == NonBlank(a) + NonBlank(b)
  {
    if a == [] {
      assert a + b == b;
    } else {
      var t := a[1..] + b;
      assert a + b == [a[0]] + t;
      assert (a + b)[0] == a[0] && (a + b)[1..] == t;
      NonBlankAppend(a[1..], b);
      if KeepLine(a[0]) {
        AppendAssoc([a[0]], NonBlank(a[1..]), NonBlank(b));
      }
    }
  }

  /** No non-blank segment is lost. */
  lemma {:induction false} NonBlankKeeps(parts: seq<string>, p: string)
    requires p in parts && !IsBlank(p)
    ensures p in NonBlank(parts)
  {
    if parts[0] != p {
      NonBlankKeeps(parts[1..], p);
    }
  }

  /** A list without blank segments is left as it is. */
  lemma {:induction false} NonBlankIdentity(parts: seq<string>)
    requires forall i :: 0 <= i < |parts| ==> !IsBlank(parts[i])
    ensures NonBlank(parts) == parts
  {
    if parts != [] {
      NonBlankIdentity(parts[1..]);
    }
  }

  predicate IsDigit(c: char) {
    '0' <= c <= '9'
  }

  predicate AllDigits(s: string) {
    forall i :: 0 <= i < |s| ==> IsDigit(s[i])
  }

  function DigitChar(d: nat): (c: char)
    requires d < 10
    ensures IsDigit(c) && c as int - '0' as int == d
  {
    ('0' as int + d) as char
  }

  function DigitValue(c: char): nat
    requires IsDigit(c)
  {
    c as int - '0' as int
  }

  /** The decimal digits of `n`, as a number is rendered inside a template
      string. */
  function Decimal(n: nat): (r: string)
    ensures |r| >= 1 && AllDigits(r)
  {
    if n < 10 then [DigitChar(n)] else Decimal(n / 10) + [DigitChar(n % 10)]
  }

  /** The number a string of decimal digits denotes. */
  function ParseDecimal(s: string): nat
    requires AllDigits(s)
  {
    if s == [] then 0 else ParseDecimal(s[..|s| - 1]) * 10 + DigitValue(s[|s| - 1])
  }

  /** Reading back the rendering of a counter value gives that value. */
  lemma {:induction false} DecimalRoundTrip(n: nat)
    ensures ParseDecimal(Decimal(n)) == n
  {
    if n >= 10 {
      DecimalRoundTrip(n / 10);
      var s := Decimal(n);
      assert s[..|s| - 1] == Decimal(n / 10);
    }
  }
}
