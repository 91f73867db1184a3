/** Text helpers shared by the modules: prefixes, suffixes, decimal numerals and counting. */
module Text {
  predicate StartsWith(s: string, prefix: string) {
    prefix <= s
  }

  predicate EndsWith(s: string, suffix: string) {
    |suffix| <= |s| && s[|s| - |suffix|..] == suffix
  }

  /** The decimal numeral of a number, as string interpolation prints it. */
  function Decimal(n: nat): (s: string)
    ensures |s| > 0
    ensures forall c | c in s :: '0' <= c <= '9'
  {
    if n < 10 then ["0123456789"[n]]
    else Decimal(n / 10) + ["0123456789"[n % 10]]
  }

  /** How often a character occurs in a text. */
  function Count(s: string, c: char): nat {
    if s == "" then 0 else (if s[0] == c then 1 else 0) + Count(s[1..], c)
  }

  lemma {:induction false} CountConcat(a: string, b: string, c: char)
    ensures Count(a + b, c) == Count(a, c) + Count(b, c)
  {
    if a == "" {
      assert a + b == b;
    } else {
      assert (a + b)[1..] == a[1..] + b;
      CountConcat(a[1..], b, c);
    }
  }

  lemma {:induction false} CountAbsent(s: string, c: char)
    ensures c !in s <==> Count(s, c) == 0
  {
    if s != "" {
      assert s == [s[0]] + s[1..];
      CountAbsent(s[1..], c);
    }
  }

  /** The pieces between the occurrences of a character. */
  function Split(s: string, c: char): (parts: seq<string>)
    ensures |parts| > 0
  {
    if s == "" then [""]
    else
      var rest := Split(s[1..], c);
      if s[0] == c then [""] + rest else [[s[0]] + rest[0]] + rest[1..]
  }

  lemma {:induction false} SplitFirst(a: string, c: char, rest: string)
    requires c !in a
    ensures Split(a + [c] + rest, c) == [a] + Split(rest, c)
  {
    var s := a + [c] + rest;
    if a == "" {
      assert s == [c] + rest && s[1..] == rest;
    } else {
      assert a[0] in a && s[1..] == a[1..] + [c] + rest;
      SplitFirst(a[1..], c, rest);
      assert [a[0]] + a[1..] == a;
    }
  }

  lemma {:induction false} SplitNone(a: string, c: char)
    requires c !in a
    ensures Split(a, c) == [a]
  {
    if a != "" {
      assert a[0] in a;
      SplitNone(a[1..], c);
      assert [a[0]] + a[1..] == a;
    }
  }

  // ---------- texts in order, as sorted() has them

  predicate Less(a: string, b: string) {
    b != "" && (a == "" || a[0] < b[0] || (a[0] == b[0] && Less(a[1..], b[1..])))
  }

  lemma {:induction false} LessTotal(a: string, b: string)
    ensures a == b || Less(a, b) || Less(b, a)
  {
    if a != "" && b != "" && a[0] == b[0] {
      LessTotal(a[1..], b[1..]);
      assert a == [a[0]] + a[1..] && b == [b[0]] + b[1..];
    }
  }

  lemma {:induction false} LessTransitive(a: string, b: string, c: string)
    requires Less(a, b) && Less(b, c)
    ensures Less(a, c)
  {
    if a != "" && a[0] == b[0] && b[0] == c[0] { LessTransitive(a[1..], b[1..], c[1..]); }
  }

  lemma {:induction false} LessIrreflexive(a: string)
    ensures !Less(a, a)
  {
    if a != "" { LessIrreflexive(a[1..]); }
  }

  predicate LeastOf(texts: set<string>, m: string) {
    m in texts && forall t | t in texts :: t == m || Less(m, t)
  }

  lemma {:induction false} HasLeast(texts: set<string>)
    requires texts != {}
    ensures exists m :: LeastOf(texts, m)
  {
    var a :| a in texts;
    if texts == {a} {
      assert LeastOf(texts, a);
    } else {
      HasLeast(texts - {a});
      var m :| LeastOf(texts - {a}, m);
      LessTotal(a, m);
      var least := if Less(m, a) then m else a;
      forall t | t in texts ensures t == least || Less(least, t) {
        assert t == a || t in texts - {a};
        if least == a && t != a && t != m { LessTransitive(a, m, t); }
      }
      assert LeastOf(texts, least);
    }
  }

  lemma {:induction false} OneLeast(texts: set<string>, m: string, n: string)
    requires LeastOf(texts, m) && LeastOf(texts, n)
    ensures m == n
  {
    if m != n {
      LessTransitive(m, n, m);
      LessIrreflexive(m);
    }
  }

  function Least(texts: set<string>): (m: string)
    requires texts != {}
    ensures LeastOf(texts, m)
  {
    HasLeast(texts);
    assert forall m, n | LeastOf(texts, m) && LeastOf(texts, n) :: m == n by {
      forall m, n | LeastOf(texts, m) && LeastOf(texts, n) ensures m == n { OneLeast(texts, m, n); }
    }
    var m :| m in texts && LeastOf(texts, m);
    m
  }

  predicate Ascending(list: seq<string>) {
    forall i, j | 0 <= i < j < |list| :: Less(list[i], list[j])
  }

  function Sorted(texts: set<string>): (list: seq<string>)
    ensures forall t :: t in list <==> t in texts
    ensures Ascending(list)
    decreases |texts|
  {
    if texts == {} then []
    else
      var m := Least(texts);
      [m] + Sorted(texts - {m})
  }
}
