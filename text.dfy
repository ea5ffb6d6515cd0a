/**
 * String helpers the Go code takes from its standard library, restricted to
 * what the bridge uses: ASCII digit tests and lower-casing, `strings.Split`
 * and `strings.SplitN(s, sep, 2)` on a one-character separator,
 * `strings.TrimPrefix`, and the byte-wise ordering that `sort.Strings` uses.
 */
module Text {
  import opened Wrappers

  /** `unicode.IsDigit` applied to one byte of a string accepts exactly '0'..'9'. */
  predicate IsDigit(c: char)
  {
    '0' <= c <= '9'
  }

  function LowerChar(c: char): char
  {
    if 'A' <= c <= 'Z' then (c as int + 32) as char else c
  }

  /** `strings.ToLower`, restricted to ASCII letters. */
  function Lower(s: string): (r: string)
    ensures |r| == |s|
    ensures forall i :: 0 <= i < |s| ==> r[i] == LowerChar(s[i])
    ensures forall i :: 0 <= i < |r| ==> !('A' <= r[i] <= 'Z')
    ensures forall i :: 0 <= i < |s| && !('A' <= s[i] <= 'Z') ==> r[i] == s[i]
    ensures forall i :: 0 <= i < |s| && 'A' <= s[i] <= 'Z' ==> r[i] as int - s[i] as int == 'a' as int - 'A' as int
  {
    seq(|s|, i requires 0 <= i < |s| => LowerChar(s[i]))
  }

  // ---------------------------------------------------------------------
  // strings.Split with a one-character separator
  // ---------------------------------------------------------------------

  /** Number of occurrences of `c` in `s`. */
  function Count(s: string, c: char): nat
  {
    if s == [] then 0 else (if s[0] == c then 1 else 0) + Count(s[1..], c)
  }

  /** The inverse of `Split`: the parts glued back together with `c` between them. */
  function Join(parts: seq<string>, c: char): string
    requires |parts| >= 1
  {
    if |parts| == 1 then parts[0] else parts[0] + [c] + Join(parts[1..], c)
  }

  /**
   * `strings.Split(s, string(c))`: the maximal pieces of `s` between
   * occurrences of `c`; the empty string splits into one empty piece.
   */
  function Split(s: string, c: char): (r: seq<string>)
    ensures |r| >= 1
  {
    if s == [] then [""]
    else
      var rest := Split(s[1..], c);
      if s[0] == c then [""] + rest
      else [[s[0]] + rest[0]] + rest[1..]
  }

  /**
   * Split and Join are inverse: the pieces glue back to the input, there is
   * one more piece than separators, and no piece holds a separator.
   */
  lemma {:induction false} SplitJoin(s: string, c: char)
    ensures |Split(s, c)| == Count(s, c) + 1
    ensures forall i :: 0 <= i < |Split(s, c)| ==> c !in Split(s, c)[i]
    ensures Join(Split(s, c), c) == s
  {
    if s != [] {
      SplitJoin(s[1..], c);
      var rest := Split(s[1..], c);
      if s[0] == c {
        assert Split(s, c)[1..] == rest;
      } else {
        var r := Split(s, c);
        assert r[1..] == rest[1..];
        if |rest| > 1 {
          assert rest[1..][..] == rest[1..];
        }
      }
      assert s == [s[0]] + s[1..];
    }
  }

  lemma {:induction false} CountZero(s: string, c: char)
    ensures Count(s, c) == 0 <==> c !in s
  {
    if s != [] {
      CountZero(s[1..], c);
      assert s == [s[0]] + s[1..];
    }
  }

  lemma {:induction false} CountAppend(a: string, b: string, c: char)
    ensures Count(a + b, c) == Count(a, c) + Count(b, c)
  {
    if a == [] {
      assert a + b == b;
    } else {
      assert (a + b)[0] == a[0] && (a + b)[1..] == a[1..] + b;
      CountAppend(a[1..], b, c);
    }
  }

  /** Splitting a string with no separator gives that string alone. */
  lemma SplitNoSeparator(s: string, c: char)
    requires c !in s
    ensures Split(s, c) == [s]
  {
    SplitJoin(s, c);
    CountZero(s, c);
  }

  /** Splitting `p + [c] + q`, where neither side holds `c`, gives exactly `[p, q]`. */
  lemma SplitOneSeparator(p: string, q: string, c: char)
    requires c !in p && c !in q
    ensures Split(p + [c] + q, c) == [p, q]
  {
    var s := p + [c] + q;
    SplitJoin(s, c);
    CountZero(p, c);
    CountZero(q, c);
    CountAppend(p + [c], q, c);
    CountAppend(p, [c], c);
    assert Count([c], c) == 1 by { assert [c][1..] == []; }
    var r := Split(s, c);
    assert |r| == 2;
    assert Join(r, c) == r[0] + [c] + r[1];
    CutJoin(r[0], r[1], c);
    CutJoin(p, q, c);
  }

  /**
   * A string splits into exactly two pieces iff it holds exactly one
   * separator; the pieces are then the text on either side of it.
   */
  lemma SplitTwo(s: string, c: char)
    requires |Split(s, c)| == 2
    ensures s == Split(s, c)[0] + [c] + Split(s, c)[1]
  {
    var r := Split(s, c);
    SplitJoin(s, c);
    assert Join(r[1..], c) == r[1];
  }

  // ---------------------------------------------------------------------
  // strings.SplitN(s, sep, 2) and strings.TrimPrefix
  // ---------------------------------------------------------------------

  /**
   * `strings.SplitN(s, string(c), 2)` when it yields two parts: the text
   * before the first `c` and the text after it; None when `c` is absent.
   */
  function Cut(s: string, c: char): (r: Option<(string, string)>)
    ensures r.None? <==> c !in s
    ensures r.Some? ==> c !in r.value.0 && s == r.value.0 + [c] + r.value.1
  {
    if s == [] then None
    else if s[0] == c then
      assert s == [] + [c] + s[1..];
      Some(("", s[1..]))
    else
      match Cut(s[1..], c)
      case None => None
      case Some((k, v)) =>
        assert s == [s[0]] + s[1..];
        Some(([s[0]] + k, v))
  }

  /** Cutting `x + [c] + y`, where `x` holds no `c`, gives back `x` and `y`. */
  lemma {:induction false} CutJoin(x: string, y: string, c: char)
    requires c !in x
    ensures Cut(x + [c] + y, c) == Some((x, y))
  {
    var s := x + [c] + y;
    if x == [] {
      assert s[0] == c && s[1..] == y;
    } else {
      assert s[0] == x[0] && s[1..] == x[1..] + [c] + y;
      CutJoin(x[1..], y, c);
      assert [x[0]] + x[1..] == x;
    }
  }

  /** `strings.TrimPrefix`. */
  function TrimPrefix(s: string, prefix: string): (r: string)
    ensures |prefix| <= |s| && s[..|prefix|] == prefix ==> s == prefix + r
    ensures !(|prefix| <= |s| && s[..|prefix|] == prefix) ==> r == s
  {
    if |prefix| <= |s| && s[..|prefix|] == prefix then s[|prefix|..] else s
  }

  // ---------------------------------------------------------------------
  // The ordering of sort.Strings and sorted map keys
  // ---------------------------------------------------------------------

  /**
   * Strict lexicographic order on strings, comparing characters by code
   * point (for UTF-8 text this is the byte order Go compares by).
   */
  predicate Less(a: string, b: string)
  {
    if |b| == 0 then false
    else if |a| == 0 then true
    else if a[0] != b[0] then a[0] < b[0]
    else Less(a[1..], b[1..])
  }

  lemma {:induction false} LessIrreflexive(a: string)
    ensures !Less(a, a)
  {
    if |a| > 0 { LessIrreflexive(a[1..]); }
  }

  lemma {:induction false} LessAsymmetric(a: string, b: string)
    ensures !(Less(a, b) && Less(b, a))
  {
    if |a| > 0 && |b| > 0 && a[0] == b[0] { LessAsymmetric(a[1..], b[1..]); }
  }

  lemma {:induction false} LessTransitive(a: string, b: string, c: string)
    requires Less(a, b) && Less(b, c)
    ensures Less(a, c)
  {
    if |a| > 0 && a[0] == b[0] && b[0] == c[0] { LessTransitive(a[1..], b[1..], c[1..]); }
  }

  lemma {:induction false} LessTotal(a: string, b: string)
    ensures a == b || Less(a, b) || Less(b, a)
  {
    if |a| > 0 && |b| > 0 && a[0] == b[0] {
      LessTotal(a[1..], b[1..]);
      if a[1..] == b[1..] {
        assert a == [a[0]] + a[1..] && b == [b[0]] + b[1..];
      }
    }
  }

  lemma LessAsymmetricAll()
    ensures forall a, b :: Less(a, b) ==> !Less(b, a)
  {
    forall a, b ensures Less(a, b) ==> !Less(b, a) { LessAsymmetric(a, b); }
  }

  /** `k` is the smallest element of `keys`. */
  predicate IsLeast(k: string, keys: set<string>)
  {
    k in keys && forall j :: j in keys && j != k ==> Less(k, j)
  }

  /** Every finite non-empty set of strings has a least element. */
  lemma LeastExists(keys: set<string>)
    requires keys != {}
    ensures exists k :: IsLeast(k, keys)
    decreases |keys|
  {
    var x :| x in keys;
    if keys == {x} {
      assert IsLeast(x, keys);
    } else {
      LeastExists(keys - {x});
      var m :| IsLeast(m, keys - {x});
      LessTotal(x, m);
      if Less(x, m) {
        forall j | j in keys && j != x
          ensures Less(x, j)
        {
          if j != m { LessTransitive(x, m, j); }
        }
        assert IsLeast(x, keys);
      } else {
        assert IsLeast(m, keys);
      }
    }
  }

  /** There is only one least element. */
  lemma LeastUnique(k: string, k': string, keys: set<string>)
    requires IsLeast(k, keys) && IsLeast(k', keys)
    ensures k == k'
  {
    if k != k' { LessAsymmetric(k, k'); }
  }

  /**
   * The keys of a map in ascending order, as the Go code collects a map's
   * keys and runs `sort.Strings` on them.
   */
  function SortedKeys(keys: set<string>): (r: seq<string>)
    ensures forall i, j :: 0 <= i < j < |r| ==> Less(r[i], r[j])
    ensures forall k :: k in keys <==> k in r
    ensures |r| == |keys|
    decreases |keys|
  {
    if keys == {} then []
    else
      LeastExists(keys);
      LessAsymmetricAll();
      var k :| IsLeast(k, keys);
      var rest := SortedKeys(keys - {k});
      assert forall j :: j in rest ==> Less(k, j);
      [k] + rest
  }

  /** The sorted enumeration starts with the least key, followed by the sorted rest. */
  lemma SortedKeysLeastFirst(keys: set<string>, k: string)
    requires IsLeast(k, keys)
    ensures SortedKeys(keys) == [k] + SortedKeys(keys - {k})
  {
    LeastExists(keys);
    LessAsymmetricAll();
    var k' :| IsLeast(k', keys);
    LeastUnique(k, k', keys);
  }
}
