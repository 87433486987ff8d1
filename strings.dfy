/** String operations shared by the printer, the differ and the lexer: the
    handful of JavaScript string built-ins the source relies on, each written
    out so that its exact behaviour (first match only, every match, ...) is
    visible. Strings are sequences of `char`. */
module StringOps {

  /** A value that may be absent (`undefined`, `null` or "no match"). */
  datatype Option<T> = None | Some(value: T)

  const Backspace: char := '\U{8}'
  const Tab: char := '\t'
  const Newline: char := '\n'
  const VerticalTab: char := '\U{B}'
  const FormFeed: char := '\U{C}'
  const CarriageReturn: char := '\r'

  /** Number of occurrences of `c` in `s`. */
  function CountChar(s: string, c: char): (n: nat)
    ensures n <= |s|
    ensures n == 0 <==> c !in s
  {
    if s == [] then 0 else (if s[0] == c then 1 else 0) + CountChar(s[1..], c)
  }

  lemma {:induction false} CountCharAppend(a: string, b: string, c: char)
    ensures CountChar(a + b, c) == CountChar(a, c) + CountChar(b, c)
  {
    if a == [] {
      assert a + b == b;
    } else {
      assert (a + b)[1..] == a[1..] + b;
      CountCharAppend(a[1..], b, c);
    }
  }

  /** Number of line feeds in `s`: how far the printer's line counter moves. */
  function NewlineCount(s: string): nat
  {
    CountChar(s, Newline)
  }

  /** Position of the first `c` in `s`, or `|s|` when there is none. */
  function IndexOf(s: string, c: char): (i: nat)
    ensures i <= |s|
    ensures i < |s| ==> s[i] == c
    ensures c !in s[..i]
    ensures i == |s| <==> c !in s
  {
    if s == [] then 0
    else if s[0] == c then 0
    else
      var j := IndexOf(s[1..], c);
      assert s[..j + 1] == [s[0]] + s[1..][..j];
      1 + j
  }

  /** JavaScript `s.replace(c, rep)` with a one-character string pattern. */
  function ReplaceFirst(s: string, c: char, rep: string): string
  {
    if s == [] then []
    else if s[0] == c then rep + s[1..]
    else [s[0]] + ReplaceFirst(s[1..], c, rep)
  }

  /** Only the FIRST occurrence of `c` is replaced. */
  lemma ReplaceFirstSpec(s: string, c: char, rep: string)
    ensures var i := IndexOf(s, c);
      ReplaceFirst(s, c, rep) == if i == |s| then s else s[..i] + rep + s[i + 1..]
  {
    var i := IndexOf(s, c);
    if i == |s| {
      ReplaceFirstAbsent(s, c, rep);
    } else {
      assert s == s[..i] + [c] + s[i + 1..];
      ReplaceFirstAt(s[..i], s[i + 1..], c, rep);
    }
  }

  /** Without an occurrence nothing is replaced. */
  lemma {:induction false} ReplaceFirstAbsent(s: string, c: char, rep: string)
    requires c !in s
    ensures ReplaceFirst(s, c, rep) == s
  {
    if s != [] {
      ReplaceFirstAbsent(s[1..], c, rep);
    }
  }

  /** The first occurrence, after a prefix `p` free of `c`, becomes `rep`;
      what follows it is left alone. */
  lemma {:induction false} ReplaceFirstAt(p: string, q: string, c: char, rep: string)
    requires c !in p
    ensures ReplaceFirst(p + [c] + q, c, rep) == p + rep + q
  {
    var s := p + [c] + q;
    if p == [] {
      assert s == [c] + q;
    } else {
      assert s[1..] == p[1..] + [c] + q;
      ReplaceFirstAt(p[1..], q, c, rep);
      assert [p[0]] + (p[1..] + rep + q) == p + rep + q;
    }
  }

  /** JavaScript `s.replace(/c/g, rep)`: every occurrence is replaced. */
  function ReplaceAll(s: string, c: char, rep: string): (r: string)
    ensures c !in rep ==> c !in r
    ensures c !in s ==> r == s
  {
    if s == [] then []
    else if s[0] == c then rep + ReplaceAll(s[1..], c, rep)
    else [s[0]] + ReplaceAll(s[1..], c, rep)
  }

  /** Each occurrence of `c` turns into `rep`; every other character stays. */
  lemma {:induction false} ReplaceAllLength(s: string, c: char, rep: string)
    ensures |ReplaceAll(s, c, rep)| == |s| + CountChar(s, c) * (|rep| - 1)
  {
    if s != [] {
      ReplaceAllLength(s[1..], c, rep);
      var n, k := CountChar(s[1..], c), |rep| - 1;
      if s[0] == c {
        assert (n + 1) * k == n * k + k;
      }
    }
  }

  /** Concatenation of all segments, in order (the source's `forEach` that
      appends each stack segment to an accumulator). */
  function Concat(segs: seq<string>): string
  {
    if segs == [] then "" else Concat(segs[..|segs| - 1]) + segs[|segs| - 1]
  }

  /** Pushing a segment appends it to the concatenation. */
  lemma ConcatSnoc(segs: seq<string>, a: string)
    ensures Concat(segs + [a]) == Concat(segs) + a
  {
    assert (segs + [a])[..|segs|] == segs;
  }

  /** Decimal digit for `d < 10`. */
  function Digit(d: nat): (c: char)
    requires d < 10
    ensures '0' <= c <= '9'
  {
    "0123456789"[d]
  }

  /** JavaScript's rendering of a non-negative integer (`"" + n`): decimal,
      no leading zero. */
  function NatToString(n: nat): string
  {
    if n < 10 then [Digit(n)] else NatToString(n / 10) + [Digit(n % 10)]
  }

  /** The rendering is a non-empty run of decimal digits without a leading
      zero. */
  lemma {:induction false} NatToStringDigits(n: nat)
    ensures |NatToString(n)| >= 1
    ensures forall i :: 0 <= i < |NatToString(n)| ==> '0' <= NatToString(n)[i] <= '9'
    ensures |NatToString(n)| > 1 ==> NatToString(n)[0] != '0'
  {
    if n >= 10 {
      NatToStringDigits(n / 10);
    }
  }

  lemma DigitInjective(x: nat, y: nat)
    requires x < 10 && y < 10 && Digit(x) == Digit(y)
    ensures x == y
  {
  }

  /** A single digit renders a number below 10, and only such a number. */
  lemma NatToStringLength(n: nat)
    ensures |NatToString(n)| == 1 <==> n < 10
  {
    if n >= 10 {
      NatToStringDigits(n / 10);
    }
  }

  /** Distinct numbers render differently, so the index properties of a
      string are distinct names. */
  lemma {:induction false} NatToStringInjective(a: nat, b: nat)
    ensures NatToString(a) == NatToString(b) ==> a == b
  {
    var sa, sb := NatToString(a), NatToString(b);
    NatToStringLength(a);
    NatToStringLength(b);
    if sa == sb {
      if a < 10 {
        DigitInjective(a, b);
      } else {
        assert sa[..|sa| - 1] == NatToString(a / 10) && sb[..|sb| - 1] == NatToString(b / 10);
        NatToStringInjective(a / 10, b / 10);
        assert sa[|sa| - 1] == Digit(a % 10) && sb[|sb| - 1] == Digit(b % 10);
        DigitInjective(a % 10, b % 10);
      }
    }
  }

  /** Strict code-point (lexicographic) order on strings. */
  predicate CodePointLess(a: string, b: string)
  {
    if a == [] then b != []
    else if b == [] then false
    else a[0] < b[0] || (a[0] == b[0] && CodePointLess(a[1..], b[1..]))
  }

  lemma {:induction false} CodePointLessIrreflexive(a: string)
    ensures !CodePointLess(a, a)
  {
    if a != [] { CodePointLessIrreflexive(a[1..]); }
  }

  lemma {:induction false} CodePointLessTrans(a: string, b: string, c: string)
    requires CodePointLess(a, b) && CodePointLess(b, c)
    ensures CodePointLess(a, c)
  {
    if a != [] && b != [] && c != [] && a[0] == b[0] && b[0] == c[0] {
      CodePointLessTrans(a[1..], b[1..], c[1..]);
    }
  }

  lemma {:induction false} CodePointLessTotal(a: string, b: string)
    requires a != b
    ensures CodePointLess(a, b) || CodePointLess(b, a)
  {
    if a != [] && b != [] && a[0] == b[0] {
      assert a == [a[0]] + a[1..] && b == [b[0]] + b[1..];
      CodePointLessTotal(a[1..], b[1..]);
    }
  }
}
