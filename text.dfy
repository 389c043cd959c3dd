/** String helpers with the semantics of the Rust and Python standard library calls the system makes. */
module Text {

  /** `pat` occurs in `t` starting at index `i`. */
  predicate OccursAt(t: string, pat: string, i: int)
  {
    0 <= i && i + |pat| <= |t| && t[i..i + |pat|] == pat
  }

  /** Substring test: Python's `pat in t`, SQL's `t LIKE '%pat%'` read literally. */
  predicate Contains(t: string, pat: string): (r: bool)
    ensures r ==> |pat| <= |t|
    ensures |t| == |pat| ==> (r <==> t == pat)
    decreases |t|
  {
    (|pat| <= |t| && t[..|pat|] == pat) || (t != [] && Contains(t[1..], pat))
  }

  lemma {:induction false} ContainsIff(t: string, pat: string)
    ensures Contains(t, pat) <==> exists i :: OccursAt(t, pat, i)
    decreases |t|
  {
    if t != [] {
      ContainsIff(t[1..], pat);
      if |pat| <= |t| && t[..|pat|] == pat {
        assert OccursAt(t, pat, 0);
      }
      if exists i :: OccursAt(t[1..], pat, i) {
        var i :| OccursAt(t[1..], pat, i);
        assert t[i + 1..i + 1 + |pat|] == t[1..][i..i + |pat|];
        assert OccursAt(t, pat, i + 1);
      }
      if exists i :: OccursAt(t, pat, i) {
        var i :| OccursAt(t, pat, i);
        if i > 0 {
          assert t[1..][i - 1..i - 1 + |pat|] == t[i..i + |pat|];
          assert OccursAt(t[1..], pat, i - 1);
        }
      }
    } else {
      if exists i :: OccursAt(t, pat, i) {
        var i :| OccursAt(t, pat, i);
        assert |pat| == 0 && t[..0] == pat;
      }
      if pat == [] {
        assert OccursAt(t, pat, 0);
      }
    }
  }

  /** A text contains its own prefixes. */
  lemma ContainsPrefix(pat: string, rest: string)
    ensures Contains(pat + rest, pat)
  {
    assert (pat + rest)[..|pat|] == pat;
  }

  /** Whatever a text contains, it still contains with text added on either side. */
  lemma ContainsInfix(a: string, m: string, b: string, pat: string)
    requires Contains(m, pat)
    ensures Contains(a + m + b, pat)
  {
    ContainsIff(m, pat);
    var k :| OccursAt(m, pat, k);
    assert (a + m + b)[|a| + k..|a| + k + |pat|] == m[k..k + |pat|];
    assert OccursAt(a + m + b, pat, |a| + k);
    ContainsIff(a + m + b, pat);
  }

  /**
   * Rust's `str::replace(pat, rep)`: every non-overlapping occurrence of a
   * non-empty `pat`, scanned left to right, is replaced by `rep`.
   */
  function ReplaceAll(s: string, pat: string, rep: string): (r: string)
    requires |pat| > 0
    ensures |rep| == |pat| ==> |r| == |s|
    ensures rep == pat ==> r == s
    decreases |s|
  {
    if |s| < |pat| then s
    else if s[..|pat|] == pat then rep + ReplaceAll(s[|pat|..], pat, rep)
    else [s[0]] + ReplaceAll(s[1..], pat, rep)
  }

  /** Text that does not contain the first character of `pat` is left alone. */
  lemma {:induction false} ReplaceAllAbsent(s: string, pat: string, rep: string)
    requires |pat| > 0 && pat[0] !in s
    ensures ReplaceAll(s, pat, rep) == s
    decreases |s|
  {
    if |s| >= |pat| {
      assert s[..|pat|][0] == s[0];
      ReplaceAllAbsent(s[1..], pat, rep);
      assert [s[0]] + s[1..] == s;
    }
  }

  /** The first occurrence is replaced, and scanning resumes after it. */
  lemma {:induction false} ReplaceAllFirst(a: string, pat: string, rep: string, b: string)
    requires |pat| > 0 && pat[0] !in a
    ensures ReplaceAll(a + pat + b, pat, rep) == a + rep + ReplaceAll(b, pat, rep)
    decreases |a|
  {
    var s := a + pat + b;
    if a == [] {
      assert s == pat + b;
      assert s[..|pat|] == pat;
      assert s[|pat|..] == b;
    } else {
      assert s[..|pat|][0] == a[0];
      assert s[1..] == a[1..] + pat + b;
      ReplaceAllFirst(a[1..], pat, rep, b);
      assert [a[0]] + (a[1..] + rep + ReplaceAll(b, pat, rep)) == a + rep + ReplaceAll(b, pat, rep);
    }
  }

  /** Replacing one character by another, character by character. */
  lemma {:induction false} ReplaceAllChar(s: string, p: char, q: char)
    ensures |ReplaceAll(s, [p], [q])| == |s|
    ensures forall i :: 0 <= i < |s| ==> ReplaceAll(s, [p], [q])[i] == (if s[i] == p then q else s[i])
    decreases |s|
  {
    if |s| >= 1 {
      ReplaceAllChar(s[1..], p, q);
      var r := ReplaceAll(s, [p], [q]);
      var t := ReplaceAll(s[1..], [p], [q]);
      assert s[..1] == [s[0]];
      assert s[1..] == s[|[p]|..];
      assert r == [if s[0] == p then q else s[0]] + t;
    }
  }

  /**
   * Rust's `str::split(sep)` for a single-character separator: the pieces
   * between separators, empty pieces included; the empty string gives `[""]`.
   */
  function Split(s: string, sep: char): (r: seq<string>)
    ensures |r| >= 1
    ensures forall i :: 0 <= i < |r| ==> sep !in r[i]
    decreases |s|
  {
    if s == [] then [""]
    else
      var rest := Split(s[1..], sep);
      if s[0] == sep then [""] + rest
      else [[s[0]] + rest[0]] + rest[1..]
  }

  /** The inverse of `Split`: the pieces glued back together with the separator. */
  function Join(parts: seq<string>, sep: char): string
    requires |parts| >= 1
    decreases |parts|
  {
    if |parts| == 1 then parts[0] else parts[0] + [sep] + Join(parts[1..], sep)
  }

  lemma {:induction false} JoinSplit(s: string, sep: char)
    ensures Join(Split(s, sep), sep) == s
    decreases |s|
  {
    if s != [] {
      JoinSplit(s[1..], sep);
      var rest := Split(s[1..], sep);
      if s[0] == sep {
        assert ([""] + rest)[1..] == rest;
      } else {
        var r := [[s[0]] + rest[0]] + rest[1..];
        if |rest| == 1 {
          assert Join(r, sep) == [s[0]] + rest[0];
        } else {
          assert r[1..] == rest[1..];
          assert Join(rest, sep) == rest[0] + [sep] + Join(rest[1..], sep);
        }
        assert [s[0]] + s[1..] == s;
      }
    }
  }

  lemma {:induction false} SplitPrefix(a: string, s: string, sep: char)
    requires sep !in a
    ensures Split(a + s, sep) == [a + Split(s, sep)[0]] + Split(s, sep)[1..]
    decreases |a|
  {
    if a == [] {
      var r := Split(s, sep);
      assert a + s == s;
      assert a + r[0] == r[0];
      assert r == [r[0]] + r[1..];
    } else {
      assert (a + s)[0] == a[0];
      assert (a + s)[1..] == a[1..] + s;
      SplitPrefix(a[1..], s, sep);
      assert [a[0]] + (a[1..] + Split(s, sep)[0]) == a + Split(s, sep)[0];
    }
  }

  lemma {:induction false} SplitJoin(parts: seq<string>, sep: char)
    requires |parts| >= 1
    requires forall i :: 0 <= i < |parts| ==> sep !in parts[i]
    ensures Split(Join(parts, sep), sep) == parts
    decreases |parts|
  {
    if |parts| == 1 {
      SplitPrefix(parts[0], "", sep);
      assert parts[0] + "" == parts[0];
    } else {
      var j := Join(parts[1..], sep);
      SplitJoin(parts[1..], sep);
      assert parts[0] + [sep] + j == parts[0] + ([sep] + j);
      SplitPrefix(parts[0], [sep] + j, sep);
      assert ([sep] + j)[1..] == j;
      assert Split([sep] + j, sep) == [""] + parts[1..];
      assert parts[0] + "" == parts[0];
    }
  }

  function DigitChar(d: int): char
    requires 0 <= d < 10
  {
    ('0' as int + d) as char
  }

  /** Python's `str(n)` / Rust's `n.to_string()` for a non-negative integer. */
  function NatToString(n: nat): (r: string)
    ensures |r| >= 1
    ensures forall i :: 0 <= i < |r| ==> '0' <= r[i] <= '9'
  {
    if n < 10 then [DigitChar(n)] else NatToString(n / 10) + [DigitChar(n % 10)]
  }

  function ParseNat(s: string): nat
    requires forall i :: 0 <= i < |s| ==> '0' <= s[i] <= '9'
    decreases |s|
  {
    if s == [] then 0 else 10 * ParseNat(s[..|s| - 1]) + (s[|s| - 1] as int - '0' as int)
  }

  lemma {:induction false} ParseNatToString(n: nat)
    ensures ParseNat(NatToString(n)) == n
  {
    var r := NatToString(n);
    if n >= 10 {
      ParseNatToString(n / 10);
      assert r[..|r| - 1] == NatToString(n / 10);
      assert r[|r| - 1] as int - '0' as int == n % 10;
      assert ParseNat(r) == 10 * (n / 10) + n % 10;
    } else {
      assert r[..0] == [];
    }
  }
}
