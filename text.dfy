/** The string operations the launchers use: Python's `str.startswith`,
    `str.endswith`, `str.split(c)`, `c.join(...)`, `str.strip()` and the
    decimal rendering of an `int` inside an f-string. */
module Text {

  predicate StartsWith(s: string, prefix: string)
  {
    |prefix| <= |s| && s[..|prefix|] == prefix
  }

  predicate EndsWith(s: string, suffix: string)
  {
    |suffix| <= |s| && s[|s| - |suffix|..] == suffix
  }

  /** Number of occurrences of `c` in `s`. */
  function Count(s: string, c: char): nat
  {
    if s == [] then 0 else (if s[0] == c then 1 else 0) + Count(s[1..], c)
  }

  /** `s.split(sep)` for a one-character separator: every separator ends a
      piece, so there is always one more piece than separators and empty
      pieces are kept. */
  function Split(s: string, sep: char): (parts: seq<string>)
    ensures |parts| == Count(s, sep) + 1
    ensures forall p | p in parts :: sep !in p
  {
    if s == [] then [""]
    else
      var rest := Split(s[1..], sep);
      if s[0] == sep then [""] + rest
      else [[s[0]] + rest[0]] + rest[1..]
  }

  /** `sep.join(parts)`. */
  function Join(parts: seq<string>, sep: char): string
  {
    if parts == [] then ""
    else if |parts| == 1 then parts[0]
    else parts[0] + [sep] + Join(parts[1..], sep)
  }

  lemma JoinSnoc(parts: seq<string>, last: string, sep: char)
    requires parts != []
    ensures Join(parts + [last], sep) == Join(parts, sep) + [sep] + last
    decreases |parts|
  {
    if |parts| == 1 {
      assert parts + [last] == [parts[0], last];
      assert [last][1..] == [];
    } else {
      assert (parts + [last])[1..] == parts[1..] + [last];
      JoinSnoc(parts[1..], last, sep);
    }
  }

  /** Joining the pieces of a split gives back the original string. */
  lemma {:induction false} JoinSplit(s: string, sep: char)
    ensures Join(Split(s, sep), sep) == s
  {
    if s != [] {
      var rest := Split(s[1..], sep);
      JoinSplit(s[1..], sep);
      if s[0] == sep {
        assert ([""] + rest)[1..] == rest;
        assert s == [sep] + s[1..];
      } else {
        var parts := [[s[0]] + rest[0]] + rest[1..];
        if |rest| == 1 {
          assert Join(rest, sep) == rest[0];
        } else {
          assert parts[1..] == rest[1..];
          assert Join(rest, sep) == rest[0] + [sep] + Join(rest[1..], sep);
        }
        assert s == [s[0]] + s[1..];
      }
    }
  }

  lemma {:induction false} SplitWithoutSeparator(s: string, sep: char)
    requires sep !in s
    ensures Split(s, sep) == [s]
  {
    if s != [] {
      assert sep !in s[1..];
      SplitWithoutSeparator(s[1..], sep);
      assert s == [s[0]] + s[1..];
    }
  }

  /** A separator splits a string into the pieces of what stands before it
      followed by the pieces of what stands after it. */
  lemma {:induction false} SplitAtSeparator(a: string, b: string, sep: char)
    ensures Split(a + [sep] + b, sep) == Split(a, sep) + Split(b, sep)
  {
    if a == [] {
      assert a + [sep] + b == [sep] + b;
      assert ([sep] + b)[1..] == b;
    } else {
      assert (a + [sep] + b)[1..] == a[1..] + [sep] + b;
      SplitAtSeparator(a[1..], b, sep);
    }
  }

  /** Splitting a join gives back the pieces when no piece holds the separator. */
  lemma {:induction false} SplitJoin(parts: seq<string>, sep: char)
    requires parts != []
    requires forall p | p in parts :: sep !in p
    ensures Split(Join(parts, sep), sep) == parts
  {
    if |parts| == 1 {
      SplitWithoutSeparator(parts[0], sep);
    } else {
      SplitJoin(parts[1..], sep);
      SplitAtSeparator(parts[0], Join(parts[1..], sep), sep);
      SplitWithoutSeparator(parts[0], sep);
      assert parts == [parts[0]] + parts[1..];
    }
  }

  /** The last piece of a split is what follows the last separator, and the
      other pieces join to what precedes it. */
  lemma SplitAtLastSeparator(s: string, p: nat, sep: char)
    requires p < |s| && s[p] == sep && sep !in s[p + 1..]
    ensures var parts := Split(s, sep);
      parts[|parts| - 1] == s[p + 1..] && Join(parts[..|parts| - 1], sep) == s[..p]
  {
    assert s == s[..p] + [sep] + s[p + 1..];
    SplitAtSeparator(s[..p], s[p + 1..], sep);
    SplitWithoutSeparator(s[p + 1..], sep);
    var parts := Split(s, sep);
    assert parts[..|parts| - 1] == Split(s[..p], sep);
    JoinSplit(s[..p], sep);
  }

  /** The text of a file written line by line: every line ends in a newline. */
  function Unlines(lines: seq<string>): string
  {
    if lines == [] then "" else lines[0] + "\n" + Unlines(lines[1..])
  }

  lemma {:induction false} UnlinesAppend(a: seq<string>, b: seq<string>)
    ensures Unlines(a + b) == Unlines(a) + Unlines(b)
  {
    if a == [] {
      assert a + b == b;
    } else {
      assert (a + b)[1..] == a[1..] + b;
      UnlinesAppend(a[1..], b);
    }
  }

  /** Reading back a file written line by line gives its lines, then the
      empty piece after the final newline. */
  lemma {:induction false} SplitUnlines(lines: seq<string>)
    requires forall l | l in lines :: '\n' !in l
    ensures Split(Unlines(lines), '\n') == lines + [""]
  {
    if lines != [] {
      SplitUnlines(lines[1..]);
      SplitAtSeparator(lines[0], Unlines(lines[1..]), '\n');
      SplitWithoutSeparator(lines[0], '\n');
      assert lines == [lines[0]] + lines[1..];
    }
  }

  /** Text written line by line is the lines joined by newlines, plus the
      final newline. */
  lemma {:induction false} UnlinesJoin(lines: seq<string>)
    requires lines != []
    ensures Unlines(lines) == Join(lines, '\n') + "\n"
  {
    if |lines| > 1 {
      UnlinesJoin(lines[1..]);
    }
  }

  /** The characters `str.strip()` removes: the ASCII whitespace of Python's
      `str.isspace`. */
  predicate IsSpace(c: char)
  {
    c == ' ' || ('\t' <= c <= '\r') || ('\U{1c}' <= c <= '\U{1f}')
  }

  /** The number of whitespace characters `s` starts with. */
  function LeadingSpace(s: string): (n: nat)
    ensures n <= |s| && (n == |s| || !IsSpace(s[n]))
    ensures forall k | 0 <= k < n :: IsSpace(s[k])
  {
    if s != [] && IsSpace(s[0]) then
      var n := LeadingSpace(s[1..]);
      assert forall k | 1 <= k < n + 1 :: s[k] == s[1..][k - 1];
      n + 1
    else 0
  }

  /** Where the whitespace `s` ends with begins. */
  function TrailingSpace(s: string): (n: nat)
    ensures n <= |s| && (n == 0 || !IsSpace(s[n - 1]))
    ensures forall k | n <= k < |s| :: IsSpace(s[k])
  {
    if s != [] && IsSpace(s[|s| - 1]) then TrailingSpace(s[..|s| - 1]) else |s|
  }

  /** `s.strip()`: `s` without its leading and trailing whitespace. */
  function Strip(s: string): string
  {
    var rest := s[LeadingSpace(s)..];
    rest[..TrailingSpace(rest)]
  }

  /** What strip keeps is a slice of the input, and what it drops on either
      side is whitespace only. */
  lemma StripIsTrimmedSlice(s: string)
    ensures var r, i := Strip(s), LeadingSpace(s);
      i + |r| <= |s| && r == s[i..i + |r|]
      && (forall k | 0 <= k < i :: IsSpace(s[k]))
      && (forall k | i + |r| <= k < |s| :: IsSpace(s[k]))
  {
    var i := LeadingSpace(s);
    var rest := s[i..];
    var j := TrailingSpace(rest);
    assert Strip(s) == s[i..i + j];
    forall k | i + j <= k < |s| ensures IsSpace(s[k]) {
      assert s[k] == rest[k - i];
    }
  }

  /** What strip keeps neither starts nor ends with whitespace. */
  lemma StripEnds(s: string)
    ensures Strip(s) == [] || (!IsSpace(Strip(s)[0]) && !IsSpace(Strip(s)[|Strip(s)| - 1]))
  {
    var rest := s[LeadingSpace(s)..];
    var r := Strip(s);
    if r != [] {
      assert r[0] == rest[0];
    }
  }

  /** A line of whitespace only strips to the empty string. */
  lemma StripAllSpace(s: string)
    requires forall k | 0 <= k < |s| :: IsSpace(s[k])
    ensures Strip(s) == ""
  {
  }

  /** Stripping twice is stripping once. */
  lemma StripIdempotent(s: string)
    ensures Strip(Strip(s)) == Strip(s)
  {
    var r := Strip(s);
    StripEnds(s);
    assert LeadingSpace(r) == 0;
    assert TrailingSpace(r) == |r|;
  }

  function DigitChar(d: nat): (c: char)
    requires d < 10
  {
    "0123456789"[d]
  }

  /** Decimal rendering of a natural number, as `f"{n}"`. */
  function NatToString(n: nat): (s: string)
    ensures s != []
    ensures forall c | c in s :: '0' <= c <= '9'
  {
    if n < 10 then [DigitChar(n)] else NatToString(n / 10) + [DigitChar(n % 10)]
  }

  /** Decimal rendering of an integer, as `f"{i}"`: a minus sign for negatives. */
  function IntToString(i: int): (s: string)
    ensures s != []
    ensures forall c | c in s :: c == '-' || '0' <= c <= '9'
  {
    if i < 0 then "-" + NatToString(-i) else NatToString(i)
  }

  /** Value of a string of decimal digits. */
  function DecimalValue(s: string): nat
    requires forall c | c in s :: '0' <= c <= '9'
  {
    if s == [] then 0
    else
      var init, last := s[..|s| - 1], s[|s| - 1];
      assert forall c | c in init :: c in s;
      assert last in s;
      DecimalValue(init) * 10 + (last as int - '0' as int)
  }

  /** Reading back the rendering of a number gives the number. */
  lemma {:induction false} DecimalRoundTrip(n: nat)
    ensures DecimalValue(NatToString(n)) == n
  {
    var s := NatToString(n);
    if n >= 10 {
      DecimalRoundTrip(n / 10);
      assert s[..|s| - 1] == NatToString(n / 10);
    }
    assert "0123456789"[n % 10] as int - '0' as int == n % 10;
  }
}
