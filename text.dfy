/** String helpers shared by the path and tool modules: Python's `str.split`,
    `str.join`, `str.strip`, `startswith`, the `in` substring test and `str(int)`. */
module Text {

  datatype Option<+T> = None | Some(value: T)

  /** `s.startswith(prefix)` */
  predicate StartsWith(s: string, prefix: string) {
    |prefix| <= |s| && s[..|prefix|] == prefix
  }

  /** `s.endswith(suffix)` */
  predicate EndsWith(s: string, suffix: string) {
    |suffix| <= |s| && s[|s| - |suffix|..] == suffix
  }

  /** `sub` occurs in `s` starting at index `i`. */
  predicate OccursAt(s: string, sub: string, i: nat) {
    i + |sub| <= |s| && s[i..i + |sub|] == sub
  }

  /** `sub in s` */
  predicate Contains(s: string, sub: string) {
    exists i :: 0 <= i <= |s| && OccursAt(s, sub, i)
  }

  /** `s.split(sep)`: always at least one piece, and no piece holds `sep`. */
  function Split(s: string, sep: char): (r: seq<string>)
    ensures |r| >= 1
    ensures forall i :: 0 <= i < |r| ==> sep !in r[i]
    decreases |s|
  {
    if |s| == 0 then [""]
    else
      var rest := Split(s[1..], sep);
      if s[0] == sep then [""] + rest else [[s[0]] + rest[0]] + rest[1..]
  }

  /** `sep.join(parts)` */
  function Join(parts: seq<string>, sep: char): string {
    if |parts| == 0 then ""
    else if |parts| == 1 then parts[0]
    else parts[0] + [sep] + Join(parts[1..], sep)
  }

  /** `s.lstrip(c)` */
  function TrimStart(s: string, c: char): (r: string)
    ensures |r| == 0 || r[0] != c
    decreases |s|
  {
    if |s| > 0 && s[0] == c then TrimStart(s[1..], c) else s
  }

  /** `s.rstrip(c)` */
  function TrimEnd(s: string, c: char): (r: string)
    ensures |r| == 0 || r[|r| - 1] != c
    decreases |s|
  {
    if |s| > 0 && s[|s| - 1] == c then TrimEnd(s[..|s| - 1], c) else s
  }

  /** `s.strip(c)`: removes every leading and every trailing `c`. */
  function Strip(s: string, c: char): (r: string)
    ensures |r| == 0 || (r[0] != c && r[|r| - 1] != c)
  {
    var t := TrimStart(s, c);
    var r := TrimEnd(t, c);
    TrimEndKeepsStart(t, c);
    r
  }

  /** `lstrip` removes a run of `c` from the front and nothing else. */
  lemma {:induction false} TrimStartSlice(s: string, c: char)
    ensures var r := TrimStart(s, c);
            && |r| <= |s| && r == s[|s| - |r|..]
            && forall k :: 0 <= k < |s| - |r| ==> s[k] == c
    decreases |s|
  {
    if |s| > 0 && s[0] == c {
      TrimStartSlice(s[1..], c);
    }
  }

  /** `rstrip` removes a run of `c` from the back and nothing else. */
  lemma {:induction false} TrimEndSlice(s: string, c: char)
    ensures var r := TrimEnd(s, c);
            && |r| <= |s| && r == s[..|r|]
            && forall k :: |r| <= k < |s| ==> s[k] == c
    decreases |s|
  {
    if |s| > 0 && s[|s| - 1] == c {
      TrimEndSlice(s[..|s| - 1], c);
    }
  }

  /** `strip` keeps a contiguous piece of `s`: everything before it and
      everything after it is `c`. */
  lemma StripSlice(s: string, c: char)
    ensures var r := Strip(s, c);
            var i := |s| - |TrimStart(s, c)|;
            && 0 <= i && i + |r| <= |s| && r == s[i..i + |r|]
            && (forall k :: 0 <= k < i ==> s[k] == c)
            && (forall k :: i + |r| <= k < |s| ==> s[k] == c)
  {
    var t := TrimStart(s, c);
    TrimStartSlice(s, c);
    TrimEndSlice(t, c);
    var r := TrimEnd(t, c);
    var i := |s| - |t|;
    assert r == t[..|r|];
    assert t == s[i..];
    assert forall k :: i + |r| <= k < |s| ==> s[k] == t[k - i];
  }

  lemma {:induction false} TrimEndKeepsStart(s: string, c: char)
    requires |s| == 0 || s[0] != c
    ensures var r := TrimEnd(s, c); |r| == 0 || r[0] != c
    decreases |s|
  {
    if |s| > 0 && s[|s| - 1] == c {
      TrimEndKeepsStart(s[..|s| - 1], c);
    }
  }

  function DigitChar(d: nat): char
    requires d < 10
  {
    ('0' as int + d) as char
  }

  /** `str(n)` for a natural number: its decimal digits, most significant first. */
  function NatToString(n: nat): (r: string)
    ensures |r| >= 1
    ensures forall i :: 0 <= i < |r| ==> '0' <= r[i] <= '9'
    ensures n > 0 ==> r[0] != '0'
    decreases n
  {
    if n < 10 then [DigitChar(n)] else NatToString(n / 10) + [DigitChar(n % 10)]
  }

  /** `str(i)` for an integer: a minus sign before the digits of a negative number. */
  function IntToString(i: int): (r: string)
    ensures i < 0 <==> (|r| > 0 && r[0] == '-')
  {
    if i < 0 then "-" + NatToString(-i) else NatToString(i)
  }

  /** The decimal value of a string of digits: the inverse of `NatToString`. */
  function DecimalValue(s: string): int
    decreases |s|
  {
    if |s| == 0 then 0
    else DecimalValue(s[..|s| - 1]) * 10 + (s[|s| - 1] as int - '0' as int)
  }

  lemma {:induction false} DecimalRoundTrip(n: nat)
    ensures DecimalValue(NatToString(n)) == n
    decreases n
  {
    if n >= 10 {
      DecimalRoundTrip(n / 10);
      var r := NatToString(n);
      assert r[..|r| - 1] == NatToString(n / 10);
    }
  }

  /** A piece of `s.split(sep)` is `s` itself exactly when `sep` does not occur in `s`. */
  lemma {:induction false} SplitWithoutSep(s: string, sep: char)
    requires sep !in s
    ensures Split(s, sep) == [s]
    decreases |s|
  {
    if |s| > 0 {
      SplitWithoutSep(s[1..], sep);
      assert [s[0]] + s[1..] == s;
    }
  }

  /** How a leading character extends the split of the rest. */
  lemma SplitCons(c: char, s: string, sep: char)
    ensures var rest := Split(s, sep);
            Split([c] + s, sep) == if c == sep then [""] + rest else [[c] + rest[0]] + rest[1..]
  {
    assert ([c] + s)[1..] == s;
  }

  /** Splitting at a separator: the pieces of `a + sep + b` are those of `a` then those of `b`. */
  lemma {:induction false} SplitConcat(a: string, b: string, sep: char)
    ensures Split(a + [sep] + b, sep) == Split(a, sep) + Split(b, sep)
    decreases |a|
  {
    if |a| == 0 {
      assert a + [sep] + b == [sep] + b;
      SplitCons(sep, b, sep);
      assert Split(a, sep) == [""];
    } else {
      SplitConcat(a[1..], b, sep);
      SplitConcatStep(a, b, sep);
    }
  }

  /** One step of `SplitConcat`: from the rest of `a` to `a`. */
  lemma SplitConcatStep(a: string, b: string, sep: char)
    requires |a| > 0
    requires Split(a[1..] + [sep] + b, sep) == Split(a[1..], sep) + Split(b, sep)
    ensures Split(a + [sep] + b, sep) == Split(a, sep) + Split(b, sep)
  {
    var whole := a + [sep] + b;
    assert whole[0] == a[0];
    assert whole[1..] == a[1..] + [sep] + b;
    SplitSame(whole, a, Split(b, sep), sep);
  }

  /** Two strings with the same first character, where the rest of the one
      splits into the rest of the other's pieces followed by `tail`. */
  lemma SplitSame(s: string, t: string, tail: seq<string>, sep: char)
    requires |s| > 0 && |t| > 0 && s[0] == t[0]
    requires Split(s[1..], sep) == Split(t[1..], sep) + tail
    ensures Split(s, sep) == Split(t, sep) + tail
  {
    var rt := Split(t[1..], sep);
    if s[0] == sep {
      ConsAppend("", rt, tail);
    } else {
      DropAppend(rt, tail);
      ConsAppend([t[0]] + rt[0], rt[1..], tail);
    }
  }

  lemma ConcatAssoc<T>(x: seq<T>, y: seq<T>, z: seq<T>)
    ensures x + (y + z) == (x + y) + z
  {
  }

  lemma NotInAppend<T>(x: T, s: seq<T>, t: seq<T>)
    requires x !in s && x !in t
    ensures x !in s + t
  {
  }

  lemma ConsAppend<T>(x: T, y: seq<T>, z: seq<T>)
    ensures [x] + (y + z) == ([x] + y) + z
  {
  }

  lemma DropAppend<T>(y: seq<T>, z: seq<T>)
    requires |y| > 0
    ensures (y + z)[0] == y[0] && (y + z)[1..] == y[1..] + z
  {
  }

  lemma SplitLast<T>(xs: seq<T>)
    requires xs != []
    ensures xs == xs[..|xs| - 1] + [xs[|xs| - 1]]
  {
  }

  /** Joining two non-empty lists of pieces puts one separator between them. */
  lemma {:induction false} JoinAppend(a: seq<string>, b: seq<string>, sep: char)
    requires |a| > 0 && |b| > 0
    ensures Join(a + b, sep) == Join(a, sep) + [sep] + Join(b, sep)
    decreases |a|
  {
    if |a| == 1 {
      assert (a + b)[1..] == b;
    } else {
      assert (a + b)[1..] == a[1..] + b;
      JoinAppend(a[1..], b, sep);
    }
  }

  /** `(sep.join(parts)).split(sep) == parts` when no piece holds the separator. */
  lemma {:induction false} SplitJoin(parts: seq<string>, sep: char)
    requires |parts| > 0
    requires forall i :: 0 <= i < |parts| ==> sep !in parts[i]
    ensures Split(Join(parts, sep), sep) == parts
    decreases |parts|
  {
    if |parts| == 1 {
      SplitWithoutSep(parts[0], sep);
    } else {
      var tail := Join(parts[1..], sep);
      SplitJoin(parts[1..], sep);
      SplitWithoutSep(parts[0], sep);
      SplitConcat(parts[0], tail, sep);
      assert Join(parts, sep) == parts[0] + [sep] + tail;
      assert [parts[0]] + parts[1..] == parts;
    }
  }

  /** Every piece occurs in the joined string. */
  lemma {:induction false} JoinContainsPart(parts: seq<string>, sep: char, k: nat)
    requires k < |parts|
    ensures Contains(Join(parts, sep), parts[k])
    decreases |parts|
  {
    var j := Join(parts, sep);
    if |parts| == 1 || k == 0 {
      assert OccursAt(j, parts[0], 0);
    } else {
      JoinContainsPart(parts[1..], sep, k - 1);
      var rest := Join(parts[1..], sep);
      var i :| 0 <= i <= |rest| && OccursAt(rest, parts[k], i);
      var off := |parts[0]| + 1;
      assert j == parts[0] + [sep] + rest;
      assert j[off + i..off + i + |parts[k]|] == rest[i..i + |parts[k]|];
      assert OccursAt(j, parts[k], off + i);
    }
  }

  /** A substring of a part of a larger string is a substring of the whole. */
  lemma ContainsInfix(s: string, t: string, u: string, sub: string)
    requires Contains(t, sub)
    ensures Contains(s + t + u, sub)
  {
    var i :| 0 <= i <= |t| && OccursAt(t, sub, i);
    assert (s + t + u)[|s| + i..|s| + i + |sub|] == t[i..i + |sub|];
    assert OccursAt(s + t + u, sub, |s| + i);
  }

  /** A common prefix can be dropped from both sides of `startswith`. */
  lemma StartsWithCancel(pre: string, a: string, b: string)
    requires StartsWith(pre + a, pre + b)
    ensures StartsWith(a, b)
  {
    forall i | 0 <= i < |b|
      ensures a[i] == b[i]
    {
      assert (pre + a)[|pre| + i] == (pre + b)[|pre| + i];
    }
  }

  /** Text appended after a prefix keeps it. */
  lemma StartsWithExtend(s: string, t: string, pre: string)
    requires StartsWith(s, pre)
    ensures StartsWith(s + t, pre)
  {
    assert (s + t)[..|pre|] == s[..|pre|];
  }

  lemma StartsWithAppend(s: string, t: string)
    ensures StartsWith(s + t, s)
  {
    assert (s + t)[..|s|] == s;
  }

  /** A substring stays a substring when text is appended. */
  lemma ContainsExtend(t: string, u: string, sub: string)
    requires Contains(t, sub)
    ensures Contains(t + u, sub)
  {
    var i :| 0 <= i <= |t| && OccursAt(t, sub, i);
    assert (t + u)[i..i + |sub|] == t[i..i + |sub|];
    assert OccursAt(t + u, sub, i);
  }

  /** Containment is transitive. */
  lemma ContainsTrans(s: string, t: string, sub: string)
    requires Contains(s, t) && Contains(t, sub)
    ensures Contains(s, sub)
  {
    var i :| 0 <= i <= |s| && OccursAt(s, t, i);
    var j :| 0 <= j <= |t| && OccursAt(t, sub, j);
    assert s[i..i + |t|] == t;
    forall k | 0 <= k < |sub|
      ensures s[i + j + k] == sub[k]
    {
      assert s[i + j + k] == s[i..i + |t|][j + k];
      assert t[j..j + |sub|][k] == t[j + k];
    }
    assert s[i + j..i + j + |sub|] == sub;
    assert OccursAt(s, sub, i + j);
  }

  /** Stripping a character that does not occur changes nothing. */
  lemma StripWithout(s: string, c: char)
    requires c !in s
    ensures Strip(s, c) == s
  {
    if |s| > 0 {
      assert s[0] in s;
      assert s[|s| - 1] in s;
    }
  }

  /** A character that is not in `s` is in none of its pieces. */
  lemma {:induction false} SplitAvoids(s: string, sep: char, c: char)
    requires c !in s
    ensures forall i :: 0 <= i < |Split(s, sep)| ==> c !in Split(s, sep)[i]
    decreases |s|
  {
    if |s| > 0 {
      assert forall k :: 0 <= k < |s[1..]| ==> s[1..][k] == s[k + 1];
      SplitAvoids(s[1..], sep, c);
      var rest := Split(s[1..], sep);
      if s[0] != sep {
        assert c !in [s[0]] + rest[0];
        assert Split(s, sep) == [[s[0]] + rest[0]] + rest[1..];
      }
    }
  }

  /** A character that is neither the separator nor in any piece is not in the join. */
  lemma {:induction false} JoinAvoids(parts: seq<string>, sep: char, c: char)
    requires c != sep && forall i :: 0 <= i < |parts| ==> c !in parts[i]
    ensures c !in Join(parts, sep)
    decreases |parts|
  {
    if |parts| > 1 {
      JoinAvoids(parts[1..], sep, c);
      assert c !in parts[0];
    }
  }

  /** A joined list of pieces starts with its first piece. */
  lemma {:induction false} JoinStartsWithFirst(parts: seq<string>, sep: char)
    ensures |parts| > 0 ==> StartsWith(Join(parts, sep), parts[0])
  {
    if |parts| > 1 {
      assert Join(parts, sep) == parts[0] + ([sep] + Join(parts[1..], sep));
    }
  }
}
