/** Organization slugs: `slugify`, after normalization and lower-casing, and `slugWithSuffix`. */
module Slug {
  import opened Common

  const MAX_LENGTH: nat := 63

  predicate Alnum(c: char) {
    'a' <= c <= 'z' || '0' <= c <= '9'
  }

  // ---------------------------------------------------------------- the code

  /** Every run of other characters becomes one hyphen; `inRun` says that the hyphen has been written. */
  function Collapse(s: string, inRun: bool): string
    decreases |s|
  {
    if s == [] then []
    else if Alnum(s[0]) then [s[0]] + Collapse(s[1..], false)
    else (if inRun then [] else ['-']) + Collapse(s[1..], true)
  }

  function TrimStart(s: string): string
    decreases |s|
  {
    if s != [] && s[0] == '-' then TrimStart(s[1..]) else s
  }

  function TrimEnd(s: string): string
    decreases |s|
  {
    if s != [] && s[|s| - 1] == '-' then TrimEnd(s[..|s| - 1]) else s
  }

  function Slugify(name: string): string {
    var slug := TrimEnd(TrimStart(Collapse(name, false)));
    if slug == [] then "organization" else slug
  }

  function Digit(n: nat): char
    requires n < 10
  {
    '0' + n as char
  }

  function Decimal(n: nat): string {
    if n < 10 then [Digit(n)] else Decimal(n / 10) + [Digit(n % 10)]
  }

  function SuffixText(n: nat): string {
    if n == 1 then [] else ['-'] + Decimal(n)
  }

  function WithSuffix(base: string, n: nat): string
    requires 1 <= n <= 100
  {
    DecimalBound(n);
    TrimEnd(base[..Min(|base|, MAX_LENGTH - |SuffixText(n)|)]) + SuffixText(n)
  }

  // ---------------------------------------------------------------- what a slug is

  /** Lowercase alphanumeric groups joined by single hyphens. */
  predicate Groups(s: string) {
    s != [] && Collapsed(s) && s[0] != '-' && s[|s| - 1] != '-'
  }

  /** The letters and digits, in order. */
  function Letters(s: string): string
    decreases |s|
  {
    if s == [] then [] else (if Alnum(s[0]) then [s[0]] else []) + Letters(s[1..])
  }

  /** Letters, digits and single hyphens. */
  predicate Collapsed(s: string) {
    && (forall i :: 0 <= i < |s| ==> Alnum(s[i]) || s[i] == '-')
    && (forall i :: 0 <= i < |s| - 1 && s[i] == '-' ==> s[i + 1] != '-')
  }

  // ---------------------------------------------------------------- slugify

  lemma {:induction false} CollapseShape(s: string, inRun: bool)
    ensures var r := Collapse(s, inRun);
            Collapsed(r) && (inRun && r != [] ==> r[0] != '-') && Letters(r) == Letters(s)
    decreases |s|
  {
    if s != [] {
      var next := Collapse(s[1..], !Alnum(s[0]));
      CollapseShape(s[1..], !Alnum(s[0]));
      var r := Collapse(s, inRun);
      if Alnum(s[0]) || !inRun {
        assert r[1..] == next;
        assert Alnum(r[0]) <==> Alnum(s[0]);
        forall i | 0 <= i < |r| ensures Alnum(r[i]) || r[i] == '-' {
          if i > 0 { assert r[i] == next[i - 1]; }
        }
        forall i | 0 <= i < |r| - 1 && r[i] == '-' ensures r[i + 1] != '-' {
          assert r[i + 1] == next[i];
          if i > 0 { assert r[i] == next[i - 1]; }
        }
      } else {
        assert r == next;
      }
    }
  }

  lemma {:induction false} TrimStartShape(s: string)
    requires Collapsed(s)
    ensures var r := TrimStart(s); Collapsed(r) && (r != [] ==> r[0] != '-') && Letters(r) == Letters(s)
    decreases |s|
  {
  }

  lemma Associate(a: string, b: string, c: string)
    ensures (a + b) + c == a + (b + c)
  {
  }

  function Letter(c: char): string {
    if Alnum(c) then [c] else []
  }

  lemma LettersStep(s: string)
    requires s != []
    ensures Letters(s) == Letter(s[0]) + Letters(s[1..])
  {
  }

  lemma {:induction false} LettersConcat(a: string, b: string)
    ensures Letters(a + b) == Letters(a) + Letters(b)
    decreases |a|
  {
    if a == [] {
      assert a + b == b;
    } else {
      var ab, rest := a + b, a[1..];
      assert ab[0] == a[0] && ab[1..] == rest + b;
      LettersStep(ab);
      LettersStep(a);
      LettersConcat(rest, b);
      Associate(Letter(a[0]), Letters(rest), Letters(b));
    }
  }

  /** Trimming the end takes a prefix; it empties only what consists of hyphens. */
  lemma {:induction false} TrimEndShape(s: string)
    ensures var r := TrimEnd(s);
            r <= s && (r != [] ==> r[|r| - 1] != '-') && Letters(r) == Letters(s)
            && (r == [] ==> forall i :: 0 <= i < |s| ==> s[i] == '-')
    decreases |s|
  {
    if s != [] && s[|s| - 1] == '-' {
      TrimEndShape(s[..|s| - 1]);
      LettersConcat(s[..|s| - 1], ['-']);
      assert s == s[..|s| - 1] + ['-'] && Letters(['-']) == [];
    }
  }

  /**
    The slug of every name is well formed; it keeps the name's letters and digits in order, and the
    fallback is used exactly for names without any.
  */
  lemma SlugifyIsSlug(name: string)
    ensures Groups(Slugify(name))
    ensures Letters(name) != [] ==> Letters(Slugify(name)) == Letters(name)
    ensures Letters(name) == [] ==> Slugify(name) == "organization"
  {
    CollapseShape(name, false);
    TrimStartShape(Collapse(name, false));
    var t := TrimStart(Collapse(name, false));
    TrimEndShape(t);
    var slug := TrimEnd(t);
    if slug != [] {
      assert slug[0] == t[0] && Alnum(slug[0]);
      assert Letters(slug)[0] == slug[0];
    }
  }

  lemma {:induction false} CollapseKeeps(s: string)
    requires Collapsed(s)
    ensures Collapse(s, false) == s
    ensures s != [] && s[0] != '-' ==> Collapse(s, true) == s
    decreases |s|
  {
    if s != [] {
      CollapseKeeps(s[1..]);
      if s[0] == '-' && |s| > 1 { assert s[1..][0] != '-'; }
      if |s| == 1 { assert Collapse(s[1..], true) == []; }
    }
  }

  /** A well-formed slug is its own slug. */
  lemma SlugifyIdempotent(slug: string)
    requires Groups(slug)
    ensures Slugify(slug) == slug
  {
    CollapseKeeps(slug);
  }

  // ---------------------------------------------------------------- words

  lemma {:induction false} CollapseConcat(a: string, b: string, inRun: bool)
    requires a != []
    ensures Collapse(a + b, inRun) == Collapse(a, inRun) + Collapse(b, !Alnum(a[|a| - 1]))
    decreases |a|
  {
    assert (a + b)[1..] == a[1..] + b && (a + b)[0] == a[0];
    if |a| == 1 {
      assert a[1..] + b == b && Collapse(a[1..], !Alnum(a[0])) == [];
    } else {
      CollapseConcat(a[1..], b, !Alnum(a[0]));
      Associate(First(a[0], inRun), Collapse(a[1..], !Alnum(a[0])), Collapse(b, !Alnum(a[|a| - 1])));
    }
  }

  /** What a character adds to the collapsed text. */
  function First(c: char, inRun: bool): string {
    if Alnum(c) then [c] else if inRun then [] else ['-']
  }

  lemma {:induction false} CollapseRun(sep: string)
    requires forall i :: 0 <= i < |sep| ==> !Alnum(sep[i])
    ensures Collapse(sep, true) == [] && (sep != [] ==> Collapse(sep, false) == ['-'])
  {
    if sep != [] { CollapseRun(sep[1..]); }
  }

  lemma {:induction false} TrimStartConcat(a: string, b: string)
    requires a != [] && a[|a| - 1] != '-'
    ensures TrimStart(a + b) == TrimStart(a) + b
    decreases |a|
  {
    if a[0] == '-' {
      assert (a + b)[1..] == a[1..] + b;
      TrimStartConcat(a[1..], b);
    }
  }

  lemma {:induction false} TrimEndConcat(a: string, b: string)
    requires b != [] && b[0] != '-'
    ensures TrimEnd(a + b) == a + TrimEnd(b)
    decreases |b|
  {
    if b[|b| - 1] == '-' {
      assert (a + b)[..|a + b| - 1] == a + b[..|b| - 1];
      TrimEndConcat(a, b[..|b| - 1]);
    }
  }

  lemma {:induction false} TrimStartEnd(a: string)
    requires a != [] && a[|a| - 1] != '-'
    ensures var r := TrimStart(a); r != [] && r[|r| - 1] == a[|a| - 1] && TrimEnd(r) == r
    decreases |a|
  {
    if a[0] == '-' { TrimStartEnd(a[1..]); }
  }

  lemma CollapseEnds(a: string)
    requires a != []
    ensures Alnum(a[|a| - 1]) ==> var r := Collapse(a, false); r != [] && r[|r| - 1] == a[|a| - 1]
    ensures Alnum(a[0]) ==> var r := Collapse(a, false); r != [] && r[0] == a[0]
  {
    if Alnum(a[|a| - 1]) && |a| > 1 {
      var init, last := a[..|a| - 1], [a[|a| - 1]];
      CollapseConcat(init, last, false);
      assert a == init + last;
    }
  }

  lemma {:induction false} TrimKeepsFirst(b: string)
    requires b != [] && b[0] != '-'
    ensures TrimStart(b) == b && TrimEnd(b) != []
    decreases |b|
  {
    if b[|b| - 1] == '-' { TrimKeepsFirst(b[..|b| - 1]); }
  }

  lemma CollapseWords(x: string, sep: string, y: string)
    requires x != [] && Alnum(x[|x| - 1]) && y != [] && Alnum(y[0])
    requires sep != [] && forall i :: 0 <= i < |sep| ==> !Alnum(sep[i])
    ensures Collapse(x + (sep + y), false) == Collapse(x, false) + (['-'] + Collapse(y, false))
  {
    CollapseConcat(x, sep + y, false);
    CollapseConcat(sep, y, false);
    CollapseRun(sep);
    assert Collapse(y, true) == Collapse(y, false);
  }

  lemma TrimWords(cx: string, cy: string)
    requires cx != [] && cx[|cx| - 1] != '-' && cy != [] && cy[0] != '-'
    ensures TrimEnd(TrimStart(cx + (['-'] + cy))) == TrimStart(cx) + (['-'] + TrimEnd(cy))
  {
    TrimStartConcat(cx, ['-'] + cy);
    Associate(TrimStart(cx), ['-'], cy);
    TrimEndConcat(TrimStart(cx) + ['-'], cy);
    Associate(TrimStart(cx), ['-'], TrimEnd(cy));
  }

  /** Whatever separates two words, the slug joins theirs with one hyphen. */
  lemma WordsAreJoined(x: string, sep: string, y: string)
    requires x != [] && Alnum(x[|x| - 1]) && y != [] && Alnum(y[0])
    requires sep != [] && forall i :: 0 <= i < |sep| ==> !Alnum(sep[i])
    ensures Slugify(x + (sep + y)) == Slugify(x) + (['-'] + Slugify(y))
  {
    var cx, cy := Collapse(x, false), Collapse(y, false);
    CollapseWords(x, sep, y);
    CollapseEnds(x);
    CollapseEnds(y);
    TrimStartEnd(cx);
    TrimKeepsFirst(cy);
    TrimWords(cx, cy);
  }

  // ---------------------------------------------------------------- suffixes

  lemma DecimalBound(n: nat)
    requires n <= 100
    ensures 1 <= |Decimal(n)| <= 3
    ensures forall i :: 0 <= i < |Decimal(n)| ==> Alnum(Decimal(n)[i])
  {
  }

  lemma {:induction false} DecimalInjective(m: nat, n: nat)
    requires Decimal(m) == Decimal(n)
    ensures m == n
  {
    var a, b := Decimal(m), Decimal(n);
    assert a[|a| - 1] == b[|b| - 1];
    assert m % 10 == n % 10;
    if m >= 10 && n >= 10 {
      assert a[..|a| - 1] == Decimal(m / 10) && b[..|b| - 1] == Decimal(n / 10);
      DecimalInjective(m / 10, n / 10);
    } else {
      DecimalNonempty(m / 10);
      DecimalNonempty(n / 10);
    }
  }

  lemma DecimalNonempty(n: nat)
    ensures |Decimal(n)| >= 1
  {
  }

  /** Cutting a slug anywhere after its start and trimming hyphens leaves a slug. */
  lemma CutIsSlug(base: string, n: nat)
    requires Groups(base) && 0 < n <= |base|
    ensures Groups(TrimEnd(base[..n])) && |TrimEnd(base[..n])| <= n
  {
  }

  lemma JoinIsSlug(head: string, tail: string)
    requires Groups(head) && Groups(tail)
    ensures Groups(head + (['-'] + tail))
  {
  }

  /** For every base slug and every suffix tried, the slug is well formed and fits the column. */
  lemma WithSuffixIsSlug(base: string, n: nat)
    requires Groups(base) && 1 <= n <= 100
    ensures Groups(WithSuffix(base, n)) && 1 <= |WithSuffix(base, n)| <= MAX_LENGTH
  {
    DecimalBound(n);
    var cut := Min(|base|, MAX_LENGTH - |SuffixText(n)|);
    CutIsSlug(base, cut);
    if n == 1 {
      assert WithSuffix(base, n) == TrimEnd(base[..cut]);
    } else {
      JoinIsSlug(TrimEnd(base[..cut]), Decimal(n));
    }
  }

  /** What follows the last hyphen. */
  function LastGroup(s: string): string
    decreases |s|
  {
    if s == [] || s[|s| - 1] == '-' then [] else LastGroup(s[..|s| - 1]) + [s[|s| - 1]]
  }

  lemma {:induction false} LastGroupOf(head: string, tail: string)
    requires forall i :: 0 <= i < |tail| ==> tail[i] != '-'
    ensures LastGroup(head + ['-'] + tail) == tail
    decreases |tail|
  {
    var s := head + ['-'] + tail;
    if tail == [] {
      assert s[|s| - 1] == '-';
    } else {
      var init := tail[..|tail| - 1];
      assert s[..|s| - 1] == head + ['-'] + init;
      LastGroupOf(head, init);
    }
  }

  /** The slugs for suffixes 2 to 100 are pairwise distinct: the last group of each is its number. */
  lemma SuffixesDiffer(base: string, m: nat, n: nat)
    requires 2 <= m <= 100 && 2 <= n <= 100 && m != n
    ensures WithSuffix(base, m) != WithSuffix(base, n)
  {
    SuffixIsLastGroup(base, m);
    SuffixIsLastGroup(base, n);
    if WithSuffix(base, m) == WithSuffix(base, n) { DecimalInjective(m, n); }
  }

  lemma SuffixIsLastGroup(base: string, n: nat)
    requires 2 <= n <= 100
    ensures LastGroup(WithSuffix(base, n)) == Decimal(n)
  {
    DecimalBound(n);
    var head := TrimEnd(base[..Min(|base|, MAX_LENGTH - |SuffixText(n)|)]);
    assert WithSuffix(base, n) == head + ['-'] + Decimal(n);
    LastGroupOf(head, Decimal(n));
  }

  /** The number that decimal digits spell. */
  function ValueOf(digits: string): int
    decreases |digits|
  {
    if digits == [] then 0 else 10 * ValueOf(digits[..|digits| - 1]) + (digits[|digits| - 1] as int - '0' as int)
  }

  lemma {:induction false} DecimalSpells(n: nat)
    ensures ValueOf(Decimal(n)) == n
  {
    var d := Decimal(n);
    if n < 10 {
      assert d[..|d| - 1] == [] && d[0] as int == '0' as int + n;
    } else {
      DecimalSpells(n / 10);
      assert d[..|d| - 1] == Decimal(n / 10);
    }
  }

  lemma {:induction false} TrimEndIsPrefix(s: string) returns (k: nat)
    ensures k <= |s| && TrimEnd(s) == s[..k] && forall j :: k <= j < |s| ==> s[j] == '-'
    decreases |s|
  {
    if s != [] && s[|s| - 1] == '-' {
      k := TrimEndIsPrefix(s[..|s| - 1]);
      assert s[..|s| - 1][..k] == s[..k];
      forall j | k <= j < |s| ensures s[j] == '-' {
        if j < |s| - 1 { assert s[..|s| - 1][j] == '-'; }
      }
    } else {
      k := |s|;
    }
  }

  /**
    A slug for suffix `n` is a beginning of the base, as long as fits and apart from hyphens at the cut,
    then a hyphen and the number; the first one has no number.
  */
  lemma SuffixIsAppended(base: string, n: nat) returns (k: nat, digits: string)
    requires 1 <= n <= 100
    ensures k <= |base| && WithSuffix(base, n) == base[..k] + (if n == 1 then [] else ['-'] + digits) && ValueOf(digits) == n
    ensures forall j :: k <= j < |base| && j < 63 - (if n == 1 then 0 else 1 + |digits|) ==> base[j] == '-'
  {
    digits := Decimal(n);
    DecimalSpells(n);
    DecimalBound(n);
    var cut := Min(|base|, MAX_LENGTH - |SuffixText(n)|);
    k := TrimEndIsPrefix(base[..cut]);
    assert base[..cut][..k] == base[..k];
    forall j | k <= j < |base| && j < 63 - (if n == 1 then 0 else 1 + |digits|) ensures base[j] == '-' {
      assert base[..cut][j] == '-';
    }
  }
}
