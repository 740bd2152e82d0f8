/**
 * The Python string operations the translation relies on: `sep.join`, `str.split`
 * with a one-character separator, `str.strip()` and `str.rsplit(sep, 1)[0]`.
 */
module PyStr {
  import opened Wrappers

  /** `sep.join(parts)`. */
  function Join(parts: seq<string>, sep: string): string {
    if |parts| == 0 then ""
    else if |parts| == 1 then parts[0]
    else parts[0] + sep + Join(parts[1..], sep)
  }

  /** `s.split(c)`: the pieces between the occurrences of `c`; there is always at least one. */
  function Split(s: string, c: char): (parts: seq<string>)
    ensures |parts| >= 1
    ensures forall i :: 0 <= i < |parts| ==> c !in parts[i]
  {
    if |s| == 0 then [""]
    else
      var rest := Split(s[1..], c);
      if s[0] == c then [""] + rest
      else [[s[0]] + rest[0]] + rest[1..]
  }

  /** The number of occurrences of `c` in `s`. */
  function Count(s: string, c: char): nat {
    if |s| == 0 then 0 else (if s[0] == c then 1 else 0) + Count(s[1..], c)
  }

  lemma JoinCons(p: string, q: string, rest: seq<string>, sep: string)
    ensures Join([p + q] + rest, sep) == p + Join([q] + rest, sep)
  {
    if |rest| > 0 {
      assert ([p + q] + rest)[1..] == rest;
      assert ([q] + rest)[1..] == rest;
    }
  }

  /** Joining the pieces with the separator gives back the string. */
  lemma {:induction false} JoinSplit(s: string, c: char)
    ensures Join(Split(s, c), [c]) == s
  {
    if |s| > 0 {
      var rest := Split(s[1..], c);
      JoinSplit(s[1..], c);
      if s[0] == c {
        assert ([""] + rest)[1..] == rest;
      } else {
        assert rest == [rest[0]] + rest[1..];
        JoinCons([s[0]], rest[0], rest[1..], [c]);
      }
    }
  }

  /** A prefix free of the separator is glued onto the first piece of what follows it. */
  lemma {:induction false} SplitPrefix(a: string, b: string, c: char)
    requires c !in a
    ensures Split(a + b, c) == [a + Split(b, c)[0]] + Split(b, c)[1..]
  {
    if |a| > 0 {
      var sb := Split(b, c);
      assert (a + b)[0] == a[0] != c;
      assert (a + b)[1..] == a[1..] + b;
      SplitPrefix(a[1..], b, c);
      var r := Split(a[1..] + b, c);
      assert r[0] == a[1..] + sb[0] && r[1..] == sb[1..];
      assert [a[0]] + (a[1..] + sb[0]) == a + sb[0];
    } else {
      var rest := Split(b, c);
      assert a + b == b;
      assert a + rest[0] == rest[0];
      assert rest == [rest[0]] + rest[1..];
    }
  }

  /** Splitting a join of separator-free pieces gives back the pieces. */
  lemma {:induction false} SplitJoin(parts: seq<string>, c: char)
    requires |parts| >= 1
    requires forall i :: 0 <= i < |parts| ==> c !in parts[i]
    ensures Split(Join(parts, [c]), c) == parts
  {
    if |parts| == 1 {
      SplitPrefix(parts[0], "", c);
      assert Split("", c) == [""];
      assert parts[0] + "" == parts[0];
    } else {
      var tail := Join(parts[1..], [c]);
      SplitJoin(parts[1..], c);
      assert Join(parts, [c]) == parts[0] + ([c] + tail);
      SplitPrefix(parts[0], [c] + tail, c);
      assert ([c] + tail)[1..] == tail;
      assert Split([c] + tail, c) == [""] + parts[1..];
      assert parts[0] + "" == parts[0];
      assert parts == [parts[0]] + parts[1..];
    }
  }

  /** There is one piece more than there are separators. */
  lemma {:induction false} SplitCount(s: string, c: char)
    ensures |Split(s, c)| == Count(s, c) + 1
  {
    if |s| > 0 {
      SplitCount(s[1..], c);
    }
  }

  /** `str.isspace()` for one character: the characters Python's `str.strip()` removes. */
  predicate IsSpace(ch: char) {
    var n := ch as int;
    n == 0x20 || 0x09 <= n <= 0x0D || 0x1C <= n <= 0x1F || n == 0x85 || n == 0xA0
    || n == 0x1680 || 0x2000 <= n <= 0x200A || n == 0x2028 || n == 0x2029
    || n == 0x202F || n == 0x205F || n == 0x3000
  }

  predicate AllSpace(s: string) {
    forall i :: 0 <= i < |s| ==> IsSpace(s[i])
  }

  /** `s.lstrip()`: what follows the leading whitespace. */
  function LStrip(s: string): (r: string)
    ensures |r| <= |s| && r == s[|s| - |r|..]
    ensures AllSpace(s[..|s| - |r|])
    ensures |r| > 0 ==> !IsSpace(r[0])
  {
    if |s| > 0 && IsSpace(s[0]) then
      var t := s[1..];
      var r := LStrip(t);
      var n := |s| - |r|;
      assert t[|t| - |r|..] == s[n..];
      assert AllSpace(s[..n]) by {
        forall i | 0 <= i < n
          ensures IsSpace(s[i])
        {
          if i > 0 {
            assert s[i] == t[..|t| - |r|][i - 1];
          }
        }
      }
      r
    else s
  }

  /** `s.rstrip()`: what precedes the trailing whitespace. */
  function RStrip(s: string): (r: string)
    ensures |r| <= |s| && r == s[..|r|]
    ensures AllSpace(s[|r|..])
    ensures |r| > 0 ==> !IsSpace(r[|r| - 1])
  {
    if |s| > 0 && IsSpace(s[|s| - 1]) then
      var t := s[..|s| - 1];
      var r := RStrip(t);
      assert t[..|r|] == s[..|r|];
      var trail := s[|r|..];
      assert AllSpace(trail) by {
        forall i | 0 <= i < |trail|
          ensures IsSpace(trail[i])
        {
          if i < |trail| - 1 {
            assert trail[i] == s[|r| + i] == t[|r| + i] == t[|r|..][i];
          } else {
            assert trail[i] == s[|s| - 1];
          }
        }
      }
      r
    else s
  }

  /** `s.strip()`. */
  function Strip(s: string): string {
    RStrip(LStrip(s))
  }

  lemma LeadingSpace(s: string) returns (lead: string)
    ensures AllSpace(lead) && s == lead + LStrip(s)
  {
    var l := LStrip(s);
    lead := s[..|s| - |l|];
    assert s == lead + l;
  }

  lemma TrailingSpace(s: string) returns (trail: string)
    ensures AllSpace(trail) && s == RStrip(s) + trail
  {
    var r := RStrip(s);
    trail := s[|r|..];
    assert s == r + trail;
  }

  /**
   * Strip removes exactly the surrounding whitespace: `s` is the whitespace `lead`,
   * then the result, then the whitespace `trail`.
   */
  lemma StripSpec(s: string) returns (lead: string, trail: string)
    ensures AllSpace(lead) && AllSpace(trail) && s == lead + Strip(s) + trail
  {
    var l := LStrip(s);
    var r := RStrip(l);
    lead := LeadingSpace(s);
    trail := TrailingSpace(l);
    assert Strip(s) == r;
    assert s == lead + l && l == r + trail;
    SeqAssoc(lead, r, trail);
  }

  lemma SeqAssoc(a: string, b: string, c: string)
    ensures a + (b + c) == a + b + c
  {
  }

  /** The result of strip neither starts nor ends with whitespace. */
  lemma StripEnds(s: string)
    ensures var r := Strip(s); |r| > 0 ==> !IsSpace(r[0]) && !IsSpace(r[|r| - 1])
  {
    var l := LStrip(s);
    var r := RStrip(l);
    if |r| > 0 {
      assert r[0] == l[0];
    }
  }

  /** Stripping twice is stripping once. */
  lemma StripIdempotent(s: string)
    ensures Strip(Strip(s)) == Strip(s)
  {
    var r := Strip(s);
    StripEnds(s);
    assert LStrip(r) == r;
    assert RStrip(r) == r;
  }

  /** Leading whitespace is what `lstrip()` removes, whatever follows it. */
  lemma {:induction false} LStripPadded(pre: string, rest: string)
    requires AllSpace(pre)
    ensures LStrip(pre + rest) == LStrip(rest)
  {
    if |pre| > 0 {
      assert (pre + rest)[1..] == pre[1..] + rest;
      LStripPadded(pre[1..], rest);
    } else {
      assert pre + rest == rest;
    }
  }

  /** Trailing whitespace is what `rstrip()` removes, whatever precedes it. */
  lemma {:induction false} RStripPadded(rest: string, post: string)
    requires AllSpace(post)
    ensures RStrip(rest + post) == RStrip(rest)
  {
    if |post| > 0 {
      var n := |rest + post|;
      assert (rest + post)[n - 1] == post[|post| - 1];
      assert (rest + post)[..n - 1] == rest + post[..|post| - 1];
      RStripPadded(rest, post[..|post| - 1]);
    } else {
      assert rest + post == rest;
    }
  }

  /**
   * Strip undoes whitespace padding: a string that neither starts nor ends with
   * whitespace, padded on both sides with whitespace, strips back to itself.
   */
  lemma StripPadded(pre: string, w: string, post: string)
    requires AllSpace(pre) && AllSpace(post)
    requires |w| > 0 ==> !IsSpace(w[0]) && !IsSpace(w[|w| - 1])
    ensures Strip(pre + w + post) == w
  {
    SeqAssoc(pre, w, post);
    LStripPadded(pre, w + post);
    if |w| > 0 {
      assert (w + post)[0] == w[0];
      assert LStrip(w + post) == w + post;
      RStripPadded(w, post);
      assert RStrip(w) == w;
    } else {
      assert w + post == post + "";
      LStripPadded(post, "");
    }
  }

  /** The position of the last `c` in `s`, if any. */
  function LastIndex(s: string, c: char): (r: Option<nat>)
    ensures r.Some? ==> r.value < |s| && s[r.value] == c && c !in s[r.value + 1..]
    ensures r.None? ==> c !in s
  {
    if |s| == 0 then None
    else if s[|s| - 1] == c then Some(|s| - 1)
    else
      var r := LastIndex(s[..|s| - 1], c);
      assert s == s[..|s| - 1] + [s[|s| - 1]];
      assert r.Some? ==> s[r.value + 1..] == s[..|s| - 1][r.value + 1..] + [s[|s| - 1]];
      r
  }

  /** `s.rsplit(c, 1)[0]`: the text before the last `c`, or all of `s` when there is none. */
  function RSplitHead(s: string, c: char): string {
    match LastIndex(s, c)
    case None => s
    case Some(i) => s[..i]
  }

  /**
   * `h` is the head of `s` exactly when `s` has no `c` and is `h`, or `s` is `h`,
   * a `c`, and a tail free of `c`.
   */
  lemma RSplitHeadSpec(s: string, c: char, h: string)
    ensures RSplitHead(s, c) == h <==>
      (c !in s && h == s) || (exists t :: c !in t && s == h + [c] + t)
  {
    match LastIndex(s, c)
    case None =>
      forall t | c !in t
        ensures s != h + [c] + t
      {
        assert (h + [c] + t)[|h|] == c;
      }
    case Some(i) =>
      var t := s[i + 1..];
      assert s == s[..i] + [c] + t;
      if exists t' :: c !in t' && s == h + [c] + t' {
        var t' :| c !in t' && s == h + [c] + t';
        assert s[|h|] == c;
        assert forall m :: i < m < |s| ==> s[m] != c by {
          forall m | i < m < |s|
            ensures s[m] != c
          {
            assert s[m] == t[m - i - 1];
          }
        }
        assert |h| <= i;
        assert forall m :: |h| < m < |s| ==> s[m] != c by {
          forall m | |h| < m < |s|
            ensures s[m] != c
          {
            assert s[m] == t'[m - |h| - 1];
          }
        }
        assert i <= |h|;
        assert h == s[..i];
      }
  }
}
