/** `number_grouped`: a reverse / insert / reverse pipeline over characters, and the base-1000 notation it computes. */
module NumberGrouping {
  import opened Int64

  // ---- Decimal text ----

  function Digit(d: nat): char
    requires d < 10
  {
    ('0' as int + d) as char
  }

  predicate IsDigit(c: char) {
    '0' <= c <= '9'
  }

  function Digits(n: nat): (s: string)
    ensures |s| > 0 && forall i :: 0 <= i < |s| ==> IsDigit(s[i])
  {
    if n < 10 then [Digit(n)] else Digits(n / 10) + [Digit(n % 10)]
  }

  /** Go's `%d`. */
  function Decimal(v: int): string {
    if v < 0 then "-" + Digits(-v) else Digits(v)
  }

  function Parse(s: string): nat
    requires forall i :: 0 <= i < |s| ==> IsDigit(s[i])
  {
    if s == "" then 0
    else
      assert IsDigit(s[|s| - 1]);
      10 * Parse(s[..|s| - 1]) + (s[|s| - 1] as int - '0' as int)
  }

  lemma {:induction false} ParseDigits(n: nat)
    ensures Parse(Digits(n)) == n
  {
    if n >= 10 {
      ParseDigits(n / 10);
      assert Digits(n)[..|Digits(n)| - 1] == Digits(n / 10);
    }
  }

  // ---- Grouping from the right ----

  /** s with sep after every character that has a positive multiple of three characters behind it. */
  function Grouped(s: string, sep: string): string {
    if |s| <= 1 then s
    else [s[0]] + Gap(|s| - 1, sep) + Grouped(s[1..], sep)
  }

  /** What stands between a character and the n characters behind it. */
  function Gap(n: nat, sep: string): string {
    if n % 3 == 0 then sep else ""
  }

  /** The same notation in arithmetic: base-1000 digits, padded, with sep between them. */
  function BaseThousand(v: nat, sep: string): string {
    if v < 1000 then Digits(v) else BaseThousand(v / 1000, sep) + sep + Padded(v % 1000)
  }

  /** Three digits with leading zeros. */
  function Padded(v: nat): string
    requires v < 1000
  {
    [Digit(v / 100), Digit(v / 10 % 10), Digit(v % 10)]
  }

  lemma {:induction false} GroupedBack(a: string, b: string, sep: string)
    requires |a| > 0 && |b| == 3
    ensures Grouped(a + b, sep) == Grouped(a, sep) + sep + b
  {
    if |a| == 1 {
      GroupOfThree(b, sep);
      GroupedTail(a, b, sep);
      assert a[1..] + b == b;
      assert a == [a[0]];
    } else {
      GroupedBack(a[1..], b, sep);
      GroupedTail(a, b, sep);
      Regroup([a[0]] + Gap(|a| - 1, sep), Grouped(a[1..], sep), sep, b);
    }
  }

  lemma GroupedTail(a: string, b: string, sep: string)
    requires |a| > 0 && |b| == 3
    ensures Grouped(a + b, sep) == [a[0]] + Gap(|a| - 1, sep) + Grouped(a[1..] + b, sep)
  {
    assert (a + b)[1..] == a[1..] + b;
    assert (a + b)[0] == a[0];
  }

  lemma Regroup(a: string, b: string, c: string, d: string)
    ensures a + (b + c + d) == a + b + c + d
  {
  }

  lemma GroupOfThree(b: string, sep: string)
    requires |b| == 3
    ensures Grouped(b, sep) == b
  {
    assert Grouped(b[1..][1..], sep) == [b[2]];
    assert Grouped(b[1..], sep) == [b[1]] + "" + [b[2]];
    assert b == [b[0]] + "" + ([b[1]] + "" + [b[2]]);
  }

  /** Decimal digits past the thousands are a number of thousands and three padded digits. */
  lemma DigitsSplit(v: nat)
    requires v >= 1000
    ensures Digits(v) == Digits(v / 1000) + Padded(v % 1000)
  {
    Thousands(v);
    assert Digits(v / 100) == Digits(v / 1000) + [Digit(v / 100 % 10)];
    assert Digits(v / 10) == Digits(v / 100) + [Digit(v / 10 % 10)];
    assert Digits(v) == Digits(v / 10) + [Digit(v % 10)];
  }

  lemma Thousands(v: nat)
    ensures v / 10 / 10 == v / 100 && v / 100 / 10 == v / 1000
    ensures v % 1000 / 100 == v / 100 % 10 && v % 1000 / 10 % 10 == v / 10 % 10 && v % 1000 % 10 == v % 10
  {
  }

  /** Grouping the characters of a number is writing it in base 1000. */
  lemma {:induction false} GroupedIsBaseThousand(v: nat, sep: string)
    ensures Grouped(Digits(v), sep) == BaseThousand(v, sep)
  {
    if v < 1000 {
      ShortGroup(v, sep);
    } else {
      GroupedIsBaseThousand(v / 1000, sep);
      DigitsSplit(v);
      GroupedBack(Digits(v / 1000), Padded(v % 1000), sep);
    }
  }

  lemma ShortGroup(v: nat, sep: string)
    requires v < 1000
    ensures Grouped(Digits(v), sep) == Digits(v)
  {
    DigitCount(v, 3);
    var s := Digits(v);
    if |s| == 3 {
      GroupOfThree(s, sep);
    } else if |s| == 2 {
      assert Grouped(s[1..], sep) == [s[1]];
      assert s == [s[0]] + "" + [s[1]];
    }
  }

  function Pow10(k: nat): nat {
    if k == 0 then 1 else 10 * Pow10(k - 1)
  }

  lemma {:induction false} DigitCount(v: nat, k: nat)
    requires k > 0
    ensures |Digits(v)| <= k <==> v < Pow10(k)
  {
    if k == 1 {
      assert Pow10(1) == 10;
    } else if v < 10 {
      PowGrows(k);
    } else {
      DigitCount(v / 10, k - 1);
    }
  }

  lemma {:induction false} PowGrows(k: nat)
    requires k > 0
    ensures Pow10(k) >= 10
  {
    if k > 1 {
      PowGrows(k - 1);
    } else {
      assert Pow10(1) == 10;
    }
  }

  // ---- The pipeline ----

  /** `strings.Split(s, "")`. */
  function Explode(s: string): seq<string> {
    seq(|s|, i requires 0 <= i < |s| => [s[i]])
  }

  /** `strings.Join(pieces, "")`. */
  function Join(pieces: seq<string>): string {
    if pieces == [] then "" else Join(pieces[..|pieces| - 1]) + pieces[|pieces| - 1]
  }

  function Reversed<T>(s: seq<T>): seq<T> {
    if s == [] then [] else Reversed(s[1..]) + [s[0]]
  }

  method ReverseStringArray(pieces: seq<string>) returns (out: seq<string>)
    ensures out == Reversed(pieces)
  {
    out := [];
    var i := |pieces| - 1;
    while i >= 0
      invariant -1 <= i < |pieces|
      invariant out == Reversed(pieces[i + 1..])
    {
      assert pieces[i..][1..] == pieces[i + 1..];
      out := out + [pieces[i]];
      i := i - 1;
    }
    assert pieces[0..] == pieces;
  }

  lemma {:induction false} ReversedConcat<T>(a: seq<T>, b: seq<T>)
    ensures Reversed(a + b) == Reversed(b) + Reversed(a)
  {
    if a == [] {
      assert a + b == b;
    } else {
      ReversedConcat(a[1..], b);
      assert (a + b)[1..] == a[1..] + b;
    }
  }

  lemma {:induction false} ReversedTwice<T>(s: seq<T>)
    ensures Reversed(Reversed(s)) == s
  {
    if s != [] {
      ReversedTwice(s[1..]);
      ReversedConcat(Reversed(s[1..]), [s[0]]);
      assert [s[0]][1..] == [];
      assert s == [s[0]] + s[1..];
    }
  }

  lemma {:induction false} JoinReversed(s: string)
    ensures Join(Reversed(Explode(s))) == Reversed(s)
  {
    if s != "" {
      JoinReversed(s[1..]);
      assert Explode(s)[1..] == Explode(s[1..]);
      var r := Reversed(Explode(s));
      assert r[..|r| - 1] == Reversed(Explode(s[1..]));
    }
  }

  lemma ReversedAt(s: string, i: nat)
    requires i < |s|
    ensures |Reversed(Explode(s))| == |s|
    ensures Reversed(Explode(s))[i] == [s[|s| - 1 - i]]
  {
    ReversedIndex(Explode(s), i);
  }

  lemma {:induction false} ReversedIndex<T>(s: seq<T>, i: nat)
    requires i < |s|
    ensures |Reversed(s)| == |s| && Reversed(s)[i] == s[|s| - 1 - i]
  {
    if |s| > 1 {
      ReversedIndex(s[1..], if i < |s| - 1 then i else 0);
    }
  }

  /** The insertion loop of `number_grouped`: pieces are the characters of s, last one first. */
  method InsertSeparators(pieces: seq<string>, sep: string, ghost s: string) returns (s2: string)
    requires |pieces| == |s| && forall i :: 0 <= i < |s| ==> pieces[i] == [s[|s| - 1 - i]]
    ensures s2 == Reversed(Grouped(s, Reversed(sep)))
  {
    s2 := "";
    var i := 0;
    ghost var j := |s|;
    while i < |pieces|
      invariant i <= |pieces| && j == |s| - i
      invariant s2 == Reversed(Grouped(s[j..], Reversed(sep)))
    {
      j := j - 1;
      GroupedFront(s, j, sep);
      if i != 0 && i % 3 == 0 {
        s2 := s2 + sep;
      }
      s2 := s2 + pieces[i];
      i := i + 1;
    }
  }

  /** `number_grouped`. The separator's own characters come out in reverse. */
  method NumberGrouped(val: int64, sep: string) returns (text: string)
    ensures text == Grouped(Decimal(val), Reversed(sep))
  {
    var s := Decimal(val);
    var pieces2 := ReverseStringArray(Explode(s));
    PiecesReversed(s);
    var s2 := InsertSeparators(pieces2, sep, s);
    var pieces4 := ReverseStringArray(Explode(s2));
    text := Join(pieces4);
    JoinBack(Grouped(s, Reversed(sep)));
  }

  lemma PiecesReversed(s: string)
    ensures var pieces := Reversed(Explode(s));
            |pieces| == |s| && forall i :: 0 <= i < |s| ==> pieces[i] == [s[|s| - 1 - i]]
  {
    forall i | 0 <= i < |s| ensures |Reversed(Explode(s))| == |s| && Reversed(Explode(s))[i] == [s[|s| - 1 - i]] {
      ReversedAt(s, i);
    }
    if s != "" {
      ReversedAt(s, 0);
    }
  }

  lemma JoinBack(t: string)
    ensures Join(Reversed(Explode(Reversed(t)))) == t
  {
    JoinReversed(Reversed(t));
    ReversedTwice(t);
  }

  /** One turn of the insertion loop, seen from the far end of the text. */
  lemma GroupedFront(s: string, j: nat, sep: string)
    requires j < |s|
    ensures var i := |s| - 1 - j;
            Reversed(Grouped(s[j..], Reversed(sep))) ==
            Reversed(Grouped(s[j + 1..], Reversed(sep))) + (if i == 0 then "" else Gap(i, sep)) + [s[j]]
  {
    var t := s[j..];
    assert t[1..] == s[j + 1..] && t[0] == s[j];
    ReversedOne(s[j]);
    if |t| > 1 {
      ReversedGap(t[0], Gap(|t| - 1, Reversed(sep)), Grouped(t[1..], Reversed(sep)));
      ReversedTwice(sep);
    } else {
      assert t[1..] == "" && t == [s[j]];
    }
  }

  lemma ReversedOne(c: char)
    ensures Reversed([c]) == [c]
  {
  }

  lemma ReversedGap(c: char, gap: string, rest: string)
    ensures Reversed([c] + gap + rest) == Reversed(rest) + Reversed(gap) + [c]
  {
    ReversedOne(c);
    ReversedConcat([c] + gap, rest);
    ReversedConcat([c], gap);
  }

  // ---- What the text says ----

  function Strip(s: string, c: char): string {
    if s == "" then "" else Kept(s[0], c) + Strip(s[1..], c)
  }

  function Kept(x: char, c: char): string {
    if x == c then "" else [x]
  }

  lemma {:induction false} StripConcat(a: string, b: string, c: char)
    ensures Strip(a + b, c) == Strip(a, c) + Strip(b, c)
  {
    if a == "" {
      assert a + b == b;
    } else {
      StripConcat(a[1..], b, c);
      StripHead(a, b, c);
      Assoc(Kept(a[0], c), Strip(a[1..], c), Strip(b, c));
    }
  }

  lemma StripHead(a: string, b: string, c: char)
    requires a != ""
    ensures Strip(a + b, c) == Kept(a[0], c) + Strip(a[1..] + b, c)
  {
    assert (a + b)[1..] == a[1..] + b;
    assert (a + b)[0] == a[0];
  }

  lemma Assoc(a: string, b: string, c: string)
    ensures a + (b + c) == a + b + c
  {
  }

  lemma {:induction false} StripGrouped(s: string, c: char)
    requires c !in s
    ensures Strip(Grouped(s, [c]), c) == s
  {
    if s == "" {
    } else if |s| == 1 {
      assert Strip(s[1..], c) == "";
    } else {
      StripGrouped(s[1..], c);
      var gap := Gap(|s| - 1, [c]);
      StripConcat([s[0]] + gap, Grouped(s[1..], [c]), c);
      StripConcat([s[0]], gap, c);
      assert [s[0]][1..] == "" && [c][1..] == "";
      assert Strip(gap, c) == "" && Strip([s[0]], c) == [s[0]];
    }
  }

  lemma {:induction false} GroupedLength(s: string, sep: string)
    requires |s| > 0
    ensures |Grouped(s, sep)| == |s| + (|s| - 1) / 3 * |sep|
  {
    if |s| > 1 {
      GroupedLength(s[1..], sep);
      var n := |s| - 1;
      assert n / 3 == (n - 1) / 3 + if n % 3 == 0 then 1 else 0;
    }
  }

  /** The text of a non-negative number: base 1000, readable back, and as wide as a report column allows exactly
      below a million million. */
  lemma {:induction false} GroupedNumber(v: nat, sep: char)
    requires !IsDigit(sep)
    ensures var text, d := Grouped(Decimal(v), Reversed([sep])), |Digits(v)|;
            && text == BaseThousand(v, [sep])
            && Strip(text, sep) == Digits(v)
            && Parse(Strip(text, sep)) == v
            && |text| == d + (d - 1) / 3
            && (|text| <= 15 <==> v < 1_000_000_000_000)
  {
    assert Reversed([sep]) == [sep] by {
      assert [sep][1..] == [];
    }
    GroupedIsBaseThousand(v, [sep]);
    StripGrouped(Digits(v), sep);
    ParseDigits(v);
    GroupedLength(Digits(v), [sep]);
    DigitCount(v, 12);
    PowTwelve();
  }

  /** The reversed separator shows in every number of a thousand or more, unless it reads the same from behind. */
  lemma GroupedReversed(v: nat, sep: string)
    ensures Grouped(Decimal(v), Reversed(sep)) == BaseThousand(v, sep) <==> v < 1000 || Reversed(sep) == sep
  {
    GroupedIsBaseThousand(v, Reversed(sep));
    if v >= 1000 && Grouped(Decimal(v), Reversed(sep)) == BaseThousand(v, sep) {
      ReversedLength(sep);
      SameSuffix(
        BaseThousand(v / 1000, Reversed(sep)), Reversed(sep), BaseThousand(v / 1000, sep), sep, Padded(v % 1000));
    }
  }

  lemma {:induction false} ReversedLength<T>(s: seq<T>)
    ensures |Reversed(s)| == |s|
  {
    if s != [] {
      ReversedLength(s[1..]);
    }
  }

  lemma SameSuffix(a: string, x: string, b: string, y: string, p: string)
    requires |x| == |y| && a + x + p == b + y + p
    ensures x == y
  {
    var t := a + x + p;
    assert |a| == |b|;
    assert t[|a|..|a| + |x|] == x && t[|b|..|b| + |y|] == y;
  }

  lemma PowTwelve()
    ensures Pow10(12) == 1_000_000_000_000
  {
  }

  /** A minus sign counts as one more digit, so a separator follows it when the digits come in full groups. */
  lemma GroupedNegative(v: int, sep: string)
    requires v < 0
    ensures Grouped(Decimal(v), sep) ==
            "-" + (if |Digits(-v)| % 3 == 0 then sep else "") + BaseThousand(-v, sep)
  {
    assert Decimal(v)[1..] == Digits(-v);
    GroupedIsBaseThousand(-v, sep);
  }
}
