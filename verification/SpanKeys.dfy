/** Keys of the learners map: a bare span name, or `name(variant)`. */
module SpanKeys {
  import opened Options

  function SpanKeyForm(name: string, variant: string): (key: string)
    ensures variant == "" ==> key == name
    ensures variant != "" ==> |key| > |name| && name + "(" <= key
  {
    if variant != "" then name + "(" + variant + ")" else name
  }

  /** Position of the first c in s, or |s| when there is none. */
  function FirstOf(c: char, s: string): (i: nat)
    ensures i <= |s|
    ensures forall j :: 0 <= j < i ==> s[j] != c
    ensures i < |s| ==> s[i] == c
  {
    if s == "" then 0 else if s[0] == c then 0 else 1 + FirstOf(c, s[1..])
  }

  /** The inverse reading of a key: split at the first '(', and drop the ')' that must close it. */
  function ParseSpanKey(key: string): Option<(string, string)> {
    var i := FirstOf('(', key);
    if i == |key| then Some((key, ""))
    else if i + 1 < |key| && key[|key| - 1] == ')' then Some((key[..i], key[i + 1..|key| - 1]))
    else None
  }

  /** The parser inverts the printer exactly for the names that hold no '('. */
  lemma KeyRoundTrip(name: string, variant: string)
    ensures ParseSpanKey(SpanKeyForm(name, variant)) == Some((name, variant)) <==> '(' !in name
  {
    var key := SpanKeyForm(name, variant);
    var i := FirstOf('(', key);
    assert key[..|name|] == name;
    assert forall j :: 0 <= j < |name| ==> key[j] == name[j];
    if '(' in name {
      assert i < |name|;
    } else if variant != "" {
      assert key[|name|] == '(' && i == |name|;
      assert key[|name| + 1..|key| - 1] == variant;
    }
  }

  /** Distinct (name, variant) pairs have distinct keys as long as no name holds a '('. */
  lemma KeysDistinct(n1: string, v1: string, n2: string, v2: string)
    requires '(' !in n1 && '(' !in n2
    requires SpanKeyForm(n1, v1) == SpanKeyForm(n2, v2)
    ensures n1 == n2 && v1 == v2
  {
    KeyRoundTrip(n1, v1);
    KeyRoundTrip(n2, v2);
  }

  /** (n1, v1) and (n2, v2) are different and have the same key. */
  predicate Collide(n1: string, v1: string, n2: string, v2: string) {
    (n1, v1) != (n2, v2) && SpanKeyForm(n1, v1) == SpanKeyForm(n2, v2)
  }

  /** Two names can collide, for some variants, exactly when one of them begins with the other and a '('. */
  lemma KeysCollide(n1: string, n2: string)
    ensures (exists v1, v2 :: Collide(n1, v1, n2, v2)) <==> n1 + "(" <= n2 || n2 + "(" <= n1
  {
    if n1 + "(" <= n2 {
      var v := CollidingVariant(n1, n2);
      assert Collide(n1, v, n2, "x");
    } else if n2 + "(" <= n1 {
      var v := CollidingVariant(n2, n1);
      assert Collide(n1, "x", n2, v);
    }
    if exists v1, v2 :: Collide(n1, v1, n2, v2) {
      var v1, v2 :| Collide(n1, v1, n2, v2);
      var key := SpanKeyForm(n1, v1);
      assert key[..|n1|] == n1 && key[..|n2|] == n2;
      if n1 == n2 {
        SameNameKeys(n1, v1, v2);
      } else if |n1| < |n2| {
        LongerName(n1, v1, n2, key);
      } else {
        assert |n2| < |n1|;
        LongerName(n2, v2, n1, key);
      }
    }
  }

  lemma SameNameKeys(n: string, v1: string, v2: string)
    requires SpanKeyForm(n, v1) == SpanKeyForm(n, v2)
    ensures v1 == v2
  {
    var k1, k2 := SpanKeyForm(n, v1), SpanKeyForm(n, v2);
    assert v1 != "" ==> k1[|n| + 1..|k1| - 1] == v1;
    assert v2 != "" ==> k2[|n| + 1..|k2| - 1] == v2;
  }

  lemma LongerName(n: string, v: string, longer: string, key: string)
    requires key == SpanKeyForm(n, v) && |n| < |longer| <= |key| && key[..|longer|] == longer
    ensures n + "(" <= longer
  {
  }

  lemma CollidingVariant(n: string, longer: string) returns (v: string)
    requires n + "(" <= longer
    ensures v != "" && SpanKeyForm(n, v) == SpanKeyForm(longer, "x")
  {
    v := longer[|n| + 1..] + "(x";
    assert longer == n + "(" + longer[|n| + 1..];
    assert n + "(" + (longer[|n| + 1..] + "(x") + ")" == longer + "(" + "x" + ")";
  }

  /** The names an application can use without ever meeting a built-in span or a variant key. */
  predicate AppName(name: string) {
    '(' !in name && !("LL." <= name)
  }

  lemma AppVariantKey(name: string, variant: string)
    requires AppName(name) && variant != ""
    ensures !("LL." <= SpanKeyForm(name, variant)) && '(' in SpanKeyForm(name, variant)
  {
    var key := SpanKeyForm(name, variant);
    assert key[|name|] == '(';
    assert forall j :: 0 <= j < |name| ==> key[j] == name[j];
    assert |name| >= 3 ==> name[..3] != "LL.";
  }
}
