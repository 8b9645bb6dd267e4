/** The handful of Python `str` and `list` operations the modelled code relies on. */
module Strings {

  /** `s.startswith(prefix)` */
  predicate StartsWith(s: string, prefix: string) {
    prefix <= s
  }

  /** `s.endswith(suffix)` */
  predicate EndsWith(s: string, suffix: string) {
    |suffix| <= |s| && s[|s| - |suffix|..] == suffix
  }

  /** Python's `<` on `str`: lexicographic by code point, a proper prefix sorts first. */
  predicate Less(a: string, b: string) {
    if b == [] then false
    else if a == [] then true
    else if a[0] != b[0] then a[0] < b[0]
    else Less(a[1..], b[1..])
  }

  lemma {:induction false} LessIrreflexive(a: string)
    ensures !Less(a, a)
  {
    if a != [] {
      LessIrreflexive(a[1..]);
    }
  }

  lemma {:induction false} LessTransitive(a: string, b: string, c: string)
    requires Less(a, b) && Less(b, c)
    ensures Less(a, c)
  {
    if a != [] && a[0] == b[0] && b[0] == c[0] {
      LessTransitive(a[1..], b[1..], c[1..]);
    }
  }

  /** Two different strings are ordered one way or the other. */
  lemma {:induction false} LessTotal(a: string, b: string)
    requires a != b
    ensures Less(a, b) || Less(b, a)
  {
    if a != [] && b != [] && a[0] == b[0] {
      assert a == [a[0]] + a[1..] && b == [b[0]] + b[1..];
      LessTotal(a[1..], b[1..]);
    }
  }

  lemma LessAsymmetric(a: string, b: string)
    requires Less(a, b)
    ensures !Less(b, a)
  {
    if Less(b, a) {
      LessTransitive(a, b, a);
      LessIrreflexive(a);
    }
  }

  predicate NoDuplicates<T(==)>(xs: seq<T>) {
    forall i, j :: 0 <= i < j < |xs| ==> xs[i] != xs[j]
  }

  /** `list(set(xs))`. Python leaves the order of the result unspecified; this model fixes
      first-occurrence order, and nothing stated about its callers depends on that choice. */
  function Dedup(xs: seq<string>): (r: seq<string>)
    ensures forall x :: x in r <==> x in xs
    ensures NoDuplicates(r)
    ensures |r| <= |xs|
  {
    if xs == [] then []
    else
      var d := Dedup(xs[..|xs| - 1]);
      var x := xs[|xs| - 1];
      assert forall y :: y in xs <==> y in xs[..|xs| - 1] || y == x by {
        assert xs == xs[..|xs| - 1] + [x];
      }
      if x in d then d else d + [x]
  }

  /** Does "::" occur in `s`? */
  predicate HasScopeSeparator(s: string) {
    exists i :: 0 <= i < |s| - 1 && s[i] == ':' && s[i + 1] == ':'
  }

  /** `s.split("::")[0]`: the part of `s` before the first "::", or all of `s` when there is none. */
  function BeforeScopeSeparator(s: string): (r: string)
    ensures r <= s
    ensures !HasScopeSeparator(r)
    ensures |r| < |s| ==> |r| + 2 <= |s| && s[|r|] == ':' && s[|r| + 1] == ':'
    ensures !HasScopeSeparator(s) ==> r == s
    ensures forall i :: 0 <= i < |r| && i + 1 < |s| ==> !(s[i] == ':' && s[i + 1] == ':')
  {
    if |s| < 2 then s
    else if s[0] == ':' && s[1] == ':' then ""
    else
      var rest := BeforeScopeSeparator(s[1..]);
      assert forall i :: 1 <= i < |s| ==> s[1..][i - 1] == s[i];
      assert !HasScopeSeparator([s[0]] + rest) by {
        if rest != [] {
          assert rest[0] == s[1];
        }
        assert forall i :: 0 <= i < |rest| ==> ([s[0]] + rest)[i + 1] == rest[i];
      }
      assert !HasScopeSeparator(s[1..]) ==> !HasScopeSeparator(s) by {
        if HasScopeSeparator(s) {
          var i :| 0 <= i < |s| - 1 && s[i] == ':' && s[i + 1] == ':';
          assert i != 0;
          assert s[1..][i - 1] == ':' && s[1..][i] == ':';
        }
      }
      assert s == [s[0]] + s[1..];
      [s[0]] + rest
  }
}
