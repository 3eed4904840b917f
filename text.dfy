/**
  String operations that the `show` command applies to problem text:
  character removal (`String.prototype.replace` with a character class and
  the `g` flag), the collapsing of newline runs, `split('\n')` / `join(sep)`,
  and the decimal rendering of safe integers (`%d` and `number + ""`).
 */
module Text {

  /** `s` with every character in `cs` deleted; the others keep their order. */
  function Remove(s: string, cs: set<char>): (r: string)
    ensures |r| <= |s|
    ensures forall i :: 0 <= i < |r| ==> r[i] !in cs
    ensures forall c :: c in r ==> c in s
  {
    if s == [] then []
    else if s[0] in cs then Remove(s[1..], cs)
    else [s[0]] + Remove(s[1..], cs)
  }

  /** Every character outside `cs` occurs in `Remove(s, cs)` as often as in `s`. */
  lemma {:induction false} RemoveCounts(s: string, cs: set<char>)
    ensures forall c :: c !in cs ==> multiset(Remove(s, cs))[c] == multiset(s)[c]
  {
    if s != [] {
      RemoveCounts(s[1..], cs);
      assert s == [s[0]] + s[1..];
    }
  }

  lemma {:induction false} RemoveAppend(a: string, b: string, cs: set<char>)
    ensures Remove(a + b, cs) == Remove(a, cs) + Remove(b, cs)
  {
    if a == [] {
      assert a + b == b;
    } else {
      assert (a + b)[0] == a[0] && (a + b)[1..] == a[1..] + b;
      RemoveAppend(a[1..], b, cs);
    }
  }

  /** Removing characters that do not occur changes nothing. */
  lemma {:induction false} RemoveAbsent(s: string, cs: set<char>)
    requires forall i :: 0 <= i < |s| ==> s[i] !in cs
    ensures Remove(s, cs) == s
  {
    if s != [] {
      RemoveAbsent(s[1..], cs);
    }
  }

  /** Two removals in a row are one removal of both sets. */
  lemma {:induction false} RemoveRemove(s: string, cs: set<char>, ds: set<char>)
    ensures Remove(Remove(s, cs), ds) == Remove(s, cs + ds)
  {
    if s != [] {
      RemoveRemove(s[1..], cs, ds);
    }
  }

  /** No two adjacent newlines, i.e. no blank line. */
  predicate NoBlankLines(s: string) {
    forall i :: 0 <= i < |s| - 1 ==> !(s[i] == '\n' && s[i + 1] == '\n')
  }

  /**
    Every maximal run of newlines replaced by a single newline: a newline is
    dropped exactly when the next character is a newline too.
   */
  function Collapse(s: string): (r: string)
    ensures |r| <= |s|
    ensures |s| > 0 ==> |r| > 0 && r[0] == s[0]
    ensures forall c :: c in r ==> c in s
    ensures NoBlankLines(r)
  {
    if |s| == 0 then s
    else if |s| >= 2 && s[0] == '\n' && s[1] == '\n' then Collapse(s[1..])
    else [s[0]] + Collapse(s[1..])
  }

  /** Collapsing keeps every character other than a newline, in order. */
  lemma {:induction false} CollapseKeepsText(s: string)
    ensures Remove(Collapse(s), {'\n'}) == Remove(s, {'\n'})
  {
    if |s| > 0 {
      CollapseKeepsText(s[1..]);
      if !(|s| >= 2 && s[0] == '\n' && s[1] == '\n') {
        RemoveAppend([s[0]], Collapse(s[1..]), {'\n'});
      }
    }
  }

  /** A line break survives collapsing exactly when the input has one. */
  lemma {:induction false} CollapseKeepsBreaks(s: string)
    ensures '\n' in Collapse(s) <==> '\n' in s
  {
    if |s| > 0 {
      CollapseKeepsBreaks(s[1..]);
      if |s| >= 2 && s[0] == '\n' && s[1] == '\n' {
        assert s[1..][0] == '\n';
      }
    }
  }

  /**
    A run of newlines shrinks in place: two adjacent newlines collapse like
    one, wherever they stand. With `CollapseIdle` this pins `Collapse` down:
    every maximal run of newlines becomes a single newline at its position.
   */
  lemma {:induction false} CollapseShrinksRun(x: string, y: string)
    ensures Collapse(x + "\n\n" + y) == Collapse(x + "\n" + y)
  {
    if x == [] {
      assert x + "\n\n" + y == "\n\n" + y;
      assert x + "\n" + y == "\n" + y;
      assert ("\n\n" + y)[1..] == "\n" + y;
    } else {
      CollapseShrinksRun(x[1..], y);
      assert (x + "\n\n" + y)[1..] == x[1..] + "\n\n" + y;
      assert (x + "\n" + y)[1..] == x[1..] + "\n" + y;
      assert (x + "\n\n" + y)[0] == x[0] == (x + "\n" + y)[0];
      if |x| == 1 {
        assert (x + "\n\n" + y)[1] == '\n' == (x + "\n" + y)[1];
      } else {
        assert (x + "\n\n" + y)[1] == x[1] == (x + "\n" + y)[1];
      }
    }
  }

  /** Text without blank lines is left alone. */
  lemma {:induction false} CollapseIdle(s: string)
    requires NoBlankLines(s)
    ensures Collapse(s) == s
  {
    if |s| > 0 {
      assert NoBlankLines(s[1..]) by {
        forall i | 0 <= i < |s[1..]| - 1
          ensures !(s[1..][i] == '\n' && s[1..][i + 1] == '\n')
        {
          assert s[1..][i] == s[i + 1] && s[1..][i + 1] == s[i + 2];
        }
      }
      CollapseIdle(s[1..]);
    }
  }

  /** No carriage return and no blank line. */
  predicate Normal(s: string) {
    '\r' !in s && NoBlankLines(s)
  }

  /**
    The description clean-up: remove every `\r`, then replace every run of
    two or more newlines by one.
   */
  function Normalize(desc: string): (r: string)
    ensures Normal(r)
  {
    Collapse(Remove(desc, {'\r'}))
  }

  /** Apart from newlines, the normalised text has exactly the characters of the input other than `\r`, in their order. */
  lemma NormalizeKeepsText(desc: string)
    ensures Remove(Normalize(desc), {'\n'}) == Remove(desc, {'\r', '\n'})
  {
    CollapseKeepsText(Remove(desc, {'\r'}));
    RemoveRemove(desc, {'\r'}, {'\n'});
    assert {'\r'} + {'\n'} == {'\r', '\n'};
  }

  /** A blank line in the description, wherever it stands, cleans up to a single line break there. */
  lemma NormalizeShrinksRun(x: string, y: string)
    ensures Normalize(x + "\n\n" + y) == Normalize(x + "\n" + y)
  {
    var x', y' := Remove(x, {'\r'}), Remove(y, {'\r'});
    RemoveAppend(x + "\n\n", y, {'\r'});
    RemoveAppend(x, "\n\n", {'\r'});
    RemoveAppend(x + "\n", y, {'\r'});
    RemoveAppend(x, "\n", {'\r'});
    RemoveAbsent("\n\n", {'\r'});
    RemoveAbsent("\n", {'\r'});
    CollapseShrinksRun(x', y');
  }

  /**
    A carriage return, wherever it stands, is dropped before newline runs are
    collapsed: `a\r\nb` cleans up to `a\nb`, like `a\nb` itself.
   */
  lemma NormalizeDropsCR(x: string, y: string)
    ensures Normalize(x + "\r" + y) == Normalize(x + y)
  {
    RemoveAppend(x + "\r", y, {'\r'});
    RemoveAppend(x, "\r", {'\r'});
    RemoveAppend(x, y, {'\r'});
    assert Remove("\r", {'\r'}) == "";
    assert Remove(x + "\r", {'\r'}) == Remove(x, {'\r'}) + "";
    assert Remove(x + "\r" + y, {'\r'}) == Remove(x + y, {'\r'});
  }

  /** Normalising twice is normalising once. */
  lemma NormalizeIdempotent(desc: string)
    ensures Normalize(Normalize(desc)) == Normalize(desc)
  {
    NormalizeFixesNormal(Normalize(desc));
  }

  /** A text is left unchanged by normalisation exactly when it is already normal. */
  lemma NormalizeFixedPoint(s: string)
    ensures Normalize(s) == s <==> Normal(s)
  {
    if Normal(s) {
      NormalizeFixesNormal(s);
    }
  }

  lemma NormalizeFixesNormal(s: string)
    requires Normal(s)
    ensures Normalize(s) == s
  {
    assert forall i :: 0 <= i < |s| ==> s[i] != '\r';
    RemoveAbsent(s, {'\r'});
    CollapseIdle(s);
  }

  /** `s.split('\n')`: the lines of `s`; never empty, and `""` gives `[""]`. */
  function SplitLines(s: string): (lines: seq<string>)
    ensures |lines| >= 1
    ensures forall i :: 0 <= i < |lines| ==> '\n' !in lines[i]
  {
    if s == [] then [""]
    else if s[0] == '\n' then [""] + SplitLines(s[1..])
    else
      var rest := SplitLines(s[1..]);
      [[s[0]] + rest[0]] + rest[1..]
  }

  /** `parts.join(sep)`. */
  function Join(parts: seq<string>, sep: string): (r: string)
    ensures |parts| >= 2 ==> parts[0] + sep <= r
    ensures |parts| >= 1 ==> parts[0] <= r
  {
    if |parts| == 0 then ""
    else if |parts| == 1 then parts[0]
    else parts[0] + sep + Join(parts[1..], sep)
  }

  /** Splitting at a line break splits the line lists. */
  lemma {:induction false} SplitAround(a: string, b: string)
    requires '\n' !in a
    ensures SplitLines(a + "\n" + b) == [a] + SplitLines(b)
  {
    if a == [] {
      assert a + "\n" + b == "\n" + b;
      assert ("\n" + b)[1..] == b;
    } else {
      assert (a + "\n" + b)[1..] == a[1..] + "\n" + b;
      SplitAround(a[1..], b);
      assert [a[0]] + a[1..] == a;
    }
  }

  /** A string without a line break is one line. */
  lemma {:induction false} SplitSingle(a: string)
    requires '\n' !in a
    ensures SplitLines(a) == [a]
  {
    if a != [] {
      SplitSingle(a[1..]);
      assert [a[0]] + a[1..] == a;
    }
  }

  /** Joining the lines with `\n` gives back the text. */
  lemma {:induction false} JoinSplit(s: string)
    ensures Join(SplitLines(s), "\n") == s
  {
    if s != [] {
      JoinSplit(s[1..]);
      var rest := SplitLines(s[1..]);
      if s[0] == '\n' {
        assert SplitLines(s) == [""] + rest;
        assert ([""] + rest)[1..] == rest;
      } else {
        var lines := [[s[0]] + rest[0]] + rest[1..];
        if |rest| > 1 {
          assert lines[1..] == rest[1..];
          assert Join(rest, "\n") == rest[0] + "\n" + Join(rest[1..], "\n");
        }
      }
    }
  }

  /** Splitting lines joined with `\n` gives back the lines. */
  lemma {:induction false} SplitJoin(lines: seq<string>)
    requires |lines| >= 1
    requires forall i :: 0 <= i < |lines| ==> '\n' !in lines[i]
    ensures SplitLines(Join(lines, "\n")) == lines
  {
    if |lines| == 1 {
      SplitSingle(lines[0]);
    } else {
      SplitJoin(lines[1..]);
      SplitAround(lines[0], Join(lines[1..], "\n"));
      assert [lines[0]] + lines[1..] == lines;
    }
  }

  /** Every line prefixed with `pre`. */
  function Prefixed(lines: seq<string>, pre: string): (r: seq<string>)
    ensures |r| == |lines|
    ensures forall i :: 0 <= i < |r| ==> r[i] == pre + lines[i]
  {
    if lines == [] then [] else [pre + lines[0]] + Prefixed(lines[1..], pre)
  }

  lemma PrefixedCons(lines: seq<string>, pre: string)
    requires |lines| >= 1
    ensures Prefixed(lines, pre) == [pre + lines[0]] + Prefixed(lines[1..], pre)
  {
  }

  /**
    `first + lines.join('\n' + pre)` is the text whose first line is
    `first + lines[0]` and whose every other line is `pre + lines[i]`.
   */
  lemma {:induction false} JoinPrefixed(first: string, pre: string, lines: seq<string>)
    requires |lines| >= 1
    decreases |lines|
    ensures first + Join(lines, "\n" + pre) == Join([first + lines[0]] + Prefixed(lines[1..], pre), "\n")
  {
    if |lines| > 1 {
      var sep := "\n" + pre;
      var rest := Join(lines[1..], sep);
      var tail := Prefixed(lines[1..], pre);
      var all := [first + lines[0]] + tail;
      calc {
        first + Join(lines, sep);
        first + (lines[0] + sep + rest);
        { JoinRegroup(first, lines[0], pre, rest); }
        (first + lines[0]) + "\n" + (pre + rest);
        { JoinPrefixed(pre, pre, lines[1..]);
          assert [pre + lines[1..][0]] + Prefixed(lines[1..][1..], pre) == tail; }
        (first + lines[0]) + "\n" + Join(tail, "\n");
        { assert all[0] == first + lines[0] && all[1..] == tail; }
        Join(all, "\n");
      }
    }
  }

  lemma JoinRegroup(first: string, line: string, pre: string, rest: string)
    ensures first + (line + ("\n" + pre) + rest) == (first + line) + "\n" + (pre + rest)
  {
  }

  /** As `JoinPrefixed`, read back line by line. */
  lemma CommentedLines(first: string, pre: string, s: string)
    requires '\n' !in first && '\n' !in pre
    ensures SplitLines(first + Join(SplitLines(s), "\n" + pre))
         == [first + SplitLines(s)[0]] + Prefixed(SplitLines(s)[1..], pre)
  {
    var lines := SplitLines(s);
    JoinPrefixed(first, pre, lines);
    var out := [first + lines[0]] + Prefixed(lines[1..], pre);
    forall i | 0 <= i < |out| ensures '\n' !in out[i] {
      if i > 0 {
        assert out[i] == pre + lines[i];
        assert lines[i] == out[i][|pre|..];
      } else {
        assert lines[0] == out[0][|first|..];
      }
    }
    SplitJoin(out);
  }

  /** The parts one after another. */
  function Concat(parts: seq<string>): string
  {
    if parts == [] then "" else parts[0] + Concat(parts[1..])
  }

  lemma {:induction false} ConcatSplit(parts: seq<string>, k: nat)
    requires k <= |parts|
    ensures Concat(parts) == Concat(parts[..k]) + Concat(parts[k..])
  {
    if k == 0 {
      assert parts[..0] == [] && parts[0..] == parts;
    } else {
      ConcatSplit(parts[1..], k - 1);
      assert parts[1..][..k - 1] == parts[..k][1..];
      assert parts[1..][k - 1..] == parts[k..];
    }
  }

  lemma ConcatSnoc(parts: seq<string>, x: string)
    ensures Concat(parts + [x]) == Concat(parts) + x
  {
    ConcatSplit(parts + [x], |parts|);
    assert (parts + [x])[..|parts|] == parts;
    assert (parts + [x])[|parts|..] == [x];
  }

  function DigitChar(d: nat): (c: char)
    requires d < 10
    ensures '0' <= c <= '9'
    ensures c as int - '0' as int == d
  {
    ('0' as int + d) as char
  }

  /** The decimal digits of `n`, most significant first, without leading zeros. */
  function Digits(n: nat): (r: string)
    ensures |r| >= 1
    ensures forall i :: 0 <= i < |r| ==> '0' <= r[i] <= '9'
    ensures |r| > 1 ==> r[0] != '0'
  {
    if n < 10 then [DigitChar(n)] else Digits(n / 10) + [DigitChar(n % 10)]
  }

  /** The value of a string of decimal digits. */
  function DigitsValue(s: string): int
  {
    if s == [] then 0 else DigitsValue(s[..|s| - 1]) * 10 + (s[|s| - 1] as int - '0' as int)
  }

  lemma {:induction false} DigitsRoundTrip(n: nat)
    ensures DigitsValue(Digits(n)) == n
  {
    if n >= 10 {
      DigitsRoundTrip(n / 10);
      var r := Digits(n / 10) + [DigitChar(n % 10)];
      assert r[..|r| - 1] == Digits(n / 10);
      assert r[|r| - 1] as int - '0' as int == n % 10;
      assert DigitsValue(r) == DigitsValue(Digits(n / 10)) * 10 + n % 10;
    } else {
      assert [DigitChar(n)][..0] == [];
    }
  }

  /**
    An optional minus sign and the decimal digits: how `%d` and `number + ""`
    render an integer-valued number whose magnitude is below 2^53, the
    range in which JavaScript numbers hold integers exactly and print
    without exponent.
   */
  function Decimal(n: int): (r: string)
    ensures |r| >= 1
    ensures forall i :: 0 <= i < |r| ==> ('0' <= r[i] <= '9') || (i == 0 && r[i] == '-')
    ensures r[0] == '-' <==> n < 0
  {
    if n < 0 then "-" + Digits(-n) else Digits(n)
  }

  lemma DigitsInjective(m: nat, n: nat)
    requires Digits(m) == Digits(n)
    ensures m == n
  {
    DigitsRoundTrip(m);
    DigitsRoundTrip(n);
  }

  lemma NegativeDigits(n: int)
    requires n < 0
    ensures Decimal(n)[1..] == Digits(-n)
  {
    assert ("-" + Digits(-n))[1..] == Digits(-n);
  }

  /** The rendering of an integer determines it. */
  lemma DecimalInjective(m: int, n: int)
    requires Decimal(m) == Decimal(n)
    ensures m == n
  {
    assert Decimal(m)[0] == Decimal(n)[0];
    if m < 0 {
      NegativeDigits(m);
      NegativeDigits(n);
      DigitsInjective(-m, -n);
    } else {
      DigitsInjective(m, n);
    }
  }
}
