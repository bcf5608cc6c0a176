/**
 * `sortPages` of the store: a stable sort of a page list by directory,
 * then `order` (1000 when missing), then basename. String comparison is
 * plain lexicographic order on code points.
 */
module PageSort {
  import opened Outcomes
  import opened Resources

  /** The order given to a page that has no `order` of its own. */
  const DefaultOrder: int := 1000

  // ---------------------------------------------------------------------
  // Lexicographic order on strings

  /** `a` sorts before or equal to `b`, character by character. */
  predicate StrLe(a: string, b: string)
  {
    |a| == 0 || (|b| > 0 && (a[0] < b[0] || (a[0] == b[0] && StrLe(a[1..], b[1..]))))
  }

  lemma {:induction false} StrLeRefl(a: string)
    ensures StrLe(a, a)
  {
    if |a| > 0 { StrLeRefl(a[1..]); }
  }

  lemma {:induction false} StrLeTotal(a: string, b: string)
    ensures StrLe(a, b) || StrLe(b, a)
  {
    if |a| > 0 && |b| > 0 && a[0] == b[0] { StrLeTotal(a[1..], b[1..]); }
  }

  lemma {:induction false} StrLeAntisymmetric(a: string, b: string)
    requires StrLe(a, b) && StrLe(b, a)
    ensures a == b
  {
    if |a| > 0 && |b| > 0 {
      StrLeAntisymmetric(a[1..], b[1..]);
      assert a == [a[0]] + a[1..] && b == [b[0]] + b[1..];
    }
  }

  lemma {:induction false} StrLeTransitive(a: string, b: string, c: string)
    requires StrLe(a, b) && StrLe(b, c)
    ensures StrLe(a, c)
  {
    if |a| > 0 && |b| > 0 && |c| > 0 && a[0] == b[0] == c[0] {
      StrLeTransitive(a[1..], b[1..], c[1..]);
    }
  }

  // ---------------------------------------------------------------------
  // The sort key

  /**
   * Splits a url at its last '/': the directory part before it (`''` when
   * there is no '/') and the basename after it.
   */
  function SplitUrl(url: string): (r: (string, string))
    ensures '/' !in r.1
    ensures '/' in url ==> url == r.0 + "/" + r.1
    ensures '/' !in url ==> r.0 == "" && r.1 == url
  {
    if |url| == 0 then ("", "")
    else if url[|url| - 1] == '/' then (url[..|url| - 1], "")
    else
      var (dir, base) := SplitUrl(url[..|url| - 1]);
      assert url == url[..|url| - 1] + [url[|url| - 1]];
      (dir, base + [url[|url| - 1]])
  }

  datatype SortKey = SortKey(dir: string, order: int, base: string)

  /** The key `sortPages` computes for a page. */
  function KeyOf(p: Page): SortKey
  {
    var (dir, base) := SplitUrl(p.url);
    SortKey(dir, if p.order.Some? then p.order.value else DefaultOrder, base)
  }

  /** The comparator: directory first, then order, then basename. */
  predicate KeyLe(a: SortKey, b: SortKey)
  {
    if a.dir != b.dir then StrLe(a.dir, b.dir)
    else if a.order != b.order then a.order < b.order
    else StrLe(a.base, b.base)
  }

  lemma KeyLeRefl(a: SortKey)
    ensures KeyLe(a, a)
  {
    StrLeRefl(a.base);
  }

  lemma KeyLeTotal(a: SortKey, b: SortKey)
    ensures KeyLe(a, b) || KeyLe(b, a)
  {
    StrLeTotal(a.dir, b.dir);
    StrLeTotal(a.base, b.base);
  }

  lemma KeyLeTransitive(a: SortKey, b: SortKey, c: SortKey)
    requires KeyLe(a, b) && KeyLe(b, c)
    ensures KeyLe(a, c)
  {
    if a.dir != b.dir && b.dir != c.dir {
      StrLeTransitive(a.dir, b.dir, c.dir);
      if a.dir == c.dir { StrLeAntisymmetric(a.dir, b.dir); }
    } else if a.dir == b.dir && b.dir == c.dir && a.order == b.order && b.order == c.order {
      StrLeTransitive(a.base, b.base, c.base);
    }
  }

  // ---------------------------------------------------------------------
  // The sort

  /** Non-decreasing under the key. */
  predicate Ordered(s: seq<Page>)
  {
    forall i, j :: 0 <= i < j < |s| ==> KeyLe(KeyOf(s[i]), KeyOf(s[j]))
  }

  /** Inserts `p` before the first element whose key is not below its own. */
  function Insert(p: Page, s: seq<Page>): (r: seq<Page>)
    ensures multiset(r) == multiset(s) + multiset{p}
  {
    if s == [] then [p]
    else if KeyLe(KeyOf(p), KeyOf(s[0])) then [p] + s
    else
      assert s == [s[0]] + s[1..];
      [s[0]] + Insert(p, s[1..])
  }

  /** `sortPages`: the pages of a list in key order, ties in input order. */
  function SortPages(s: seq<Page>): (r: seq<Page>)
    ensures multiset(r) == multiset(s)
    ensures |r| == |s|
  {
    if s == [] then []
    else
      assert s == [s[0]] + s[1..];
      Insert(s[0], SortPages(s[1..]))
  }

  /** Every page of `s` has a key at or above `k`. */
  predicate AllAbove(k: SortKey, s: seq<Page>)
  {
    forall j :: 0 <= j < |s| ==> KeyLe(k, KeyOf(s[j]))
  }

  lemma OrderedCons(p: Page, s: seq<Page>)
    requires AllAbove(KeyOf(p), s) && Ordered(s)
    ensures Ordered([p] + s)
  {
    var r := [p] + s;
    forall j | 0 < j < |r| ensures KeyLe(KeyOf(r[0]), KeyOf(r[j])) {
      assert r[0] == p && r[j] == s[j - 1];
    }
    forall i, j | 0 < i < j < |r| ensures KeyLe(KeyOf(r[i]), KeyOf(r[j])) {
      assert r[i] == s[i - 1] && r[j] == s[j - 1];
    }
  }

  lemma AllAboveTail(k: SortKey, s: seq<Page>)
    requires AllAbove(k, s) && s != []
    ensures AllAbove(k, s[1..])
  {
    forall j | 0 <= j < |s[1..]| ensures KeyLe(k, KeyOf(s[1..][j])) {
      assert s[1..][j] == s[j + 1];
    }
  }

  lemma AllAboveCons(k: SortKey, p: Page, s: seq<Page>)
    requires AllAbove(k, s) && KeyLe(k, KeyOf(p))
    ensures AllAbove(k, [p] + s)
  {
    var r := [p] + s;
    forall j | 0 <= j < |r| ensures KeyLe(k, KeyOf(r[j])) {
      if j == 0 { assert r[0] == p; } else { assert r[j] == s[j - 1]; }
    }
  }

  lemma {:induction false} InsertAllAbove(k: SortKey, p: Page, s: seq<Page>)
    requires AllAbove(k, s) && KeyLe(k, KeyOf(p))
    ensures AllAbove(k, Insert(p, s))
  {
    if s == [] {
      AllAboveCons(k, p, s);
      assert Insert(p, s) == [p] + s;
    } else if KeyLe(KeyOf(p), KeyOf(s[0])) {
      AllAboveCons(k, p, s);
      assert Insert(p, s) == [p] + s;
    } else {
      AllAboveTail(k, s);
      InsertAllAbove(k, p, s[1..]);
      assert KeyLe(k, KeyOf(s[0]));
      AllAboveCons(k, s[0], Insert(p, s[1..]));
      assert Insert(p, s) == [s[0]] + Insert(p, s[1..]);
    }
  }

  lemma {:induction false} InsertOrdered(p: Page, s: seq<Page>)
    requires Ordered(s)
    ensures Ordered(Insert(p, s))
  {
    if s == [] {
    } else if KeyLe(KeyOf(p), KeyOf(s[0])) {
      forall j | 0 <= j < |s| ensures KeyLe(KeyOf(p), KeyOf(s[j])) {
        if j > 0 { KeyLeTransitive(KeyOf(p), KeyOf(s[0]), KeyOf(s[j])); }
      }
      OrderedCons(p, s);
    } else {
      InsertOrdered(p, s[1..]);
      KeyLeTotal(KeyOf(p), KeyOf(s[0]));
      assert AllAbove(KeyOf(s[0]), s[1..]) by {
        forall j | 0 <= j < |s[1..]| ensures KeyLe(KeyOf(s[0]), KeyOf(s[1..][j])) {
          assert s[1..][j] == s[j + 1];
        }
      }
      InsertAllAbove(KeyOf(s[0]), p, s[1..]);
      OrderedCons(s[0], Insert(p, s[1..]));
    }
  }

  /** The output of `sortPages` is non-decreasing under the key. */
  lemma {:induction false} SortPagesOrdered(s: seq<Page>)
    ensures Ordered(SortPages(s))
  {
    if s != [] {
      SortPagesOrdered(s[1..]);
      InsertOrdered(s[0], SortPages(s[1..]));
    }
  }

  /** The pages of `s` whose key is `k`, in the order they occur. */
  function WithKey(s: seq<Page>, k: SortKey): seq<Page>
  {
    if s == [] then [] else (if KeyOf(s[0]) == k then [s[0]] else []) + WithKey(s[1..], k)
  }

  lemma {:induction false} InsertWithKey(p: Page, s: seq<Page>, k: SortKey)
    ensures WithKey(Insert(p, s), k) == if KeyOf(p) == k then [p] + WithKey(s, k) else WithKey(s, k)
  {
    if s == [] {
    } else if KeyLe(KeyOf(p), KeyOf(s[0])) {
      assert ([p] + s)[1..] == s;
    } else {
      KeyLeRefl(KeyOf(p));
      InsertWithKey(p, s[1..], k);
      assert ([s[0]] + Insert(p, s[1..]))[1..] == Insert(p, s[1..]);
    }
  }

  /** Stability: pages with equal keys keep their relative input order. */
  lemma {:induction false} SortPagesStable(s: seq<Page>, k: SortKey)
    ensures WithKey(SortPages(s), k) == WithKey(s, k)
  {
    if s != [] {
      SortPagesStable(s[1..], k);
      InsertWithKey(s[0], SortPages(s[1..]), k);
    }
  }

  /** Sorting an ordered list changes nothing, so sorting twice is sorting once. */
  lemma {:induction false} SortPagesOfOrdered(s: seq<Page>)
    requires Ordered(s)
    ensures SortPages(s) == s
  {
    if s != [] {
      assert Ordered(s[1..]) by {
        forall i, j | 0 <= i < j < |s[1..]| ensures KeyLe(KeyOf(s[1..][i]), KeyOf(s[1..][j])) {
          assert s[1..][i] == s[i + 1] && s[1..][j] == s[j + 1];
        }
      }
      SortPagesOfOrdered(s[1..]);
      if |s| > 1 { assert KeyLe(KeyOf(s[0]), KeyOf(s[1])); }
      assert [s[0]] + s[1..] == s;
    }
  }

  lemma SortPagesIdempotent(s: seq<Page>)
    ensures SortPages(SortPages(s)) == SortPages(s)
  {
    SortPagesOrdered(s);
    SortPagesOfOrdered(SortPages(s));
  }
}
