/** String vocabulary shared by the components: ASCII lower-casing, the
    whitespace trim of JavaScript's `String.prototype.trim`, substring search,
    the decimal rendering of a natural number, and splitting and joining. */
module Text {
  import opened Seqs

  /** ASCII lower-casing of one character; every other character is kept. */
  function Lower(c: char): char
  {
    if 'A' <= c <= 'Z' then (c as int + 32) as char else c
  }

  function LowerStr(s: string): (r: string)
    ensures |r| == |s|
    ensures forall i :: 0 <= i < |s| ==> r[i] == Lower(s[i])
  {
    seq(|s|, i requires 0 <= i < |s| => Lower(s[i]))
  }

  /** The ASCII white-space and line-terminator characters that `trim` removes. */
  predicate IsSpace(c: char)
  {
    c == ' ' || c == '\t' || c == '\n' || c == '\r' || c == '\U{B}' || c == '\U{C}'
  }

  predicate AllSpace(s: string)
  {
    forall i :: 0 <= i < |s| ==> IsSpace(s[i])
  }

  /** The end of the run of white space that starts at `i`. */
  function SpaceRunEnd(s: string, i: nat): (n: nat)
    requires i <= |s|
    ensures i <= n <= |s|
    ensures forall j :: i <= j < n ==> IsSpace(s[j])
    ensures n < |s| ==> !IsSpace(s[n])
    decreases |s| - i
  {
    if i < |s| && IsSpace(s[i]) then SpaceRunEnd(s, i + 1) else i
  }

  /** The start of the run of white space that ends just before `e`. */
  function SpaceRunStart(s: string, e: nat): (n: nat)
    requires e <= |s|
    ensures n <= e
    ensures forall j :: n <= j < e ==> IsSpace(s[j])
    ensures n > 0 ==> !IsSpace(s[n - 1])
    decreases e
  {
    if e > 0 && IsSpace(s[e - 1]) then SpaceRunStart(s, e - 1) else e
  }

  /** `s` without its leading white space. */
  function TrimStart(s: string): (r: string)
    ensures |r| <= |s| && r == s[|s| - |r|..]
    ensures r == [] || !IsSpace(r[0])
    ensures AllSpace(s[..|s| - |r|])
  {
    s[SpaceRunEnd(s, 0)..]
  }

  /** `s` without its trailing white space. */
  function TrimEnd(s: string): (r: string)
    ensures |r| <= |s| && r == s[..|r|]
    ensures r == [] || !IsSpace(r[|r| - 1])
    ensures AllSpace(s[|r|..])
  {
    s[..SpaceRunStart(s, |s|)]
  }

  /** `s` without leading and trailing white space: empty exactly when `s`
      is all white space, and otherwise starting and ending with a
      non-space character. */
  function Trim(s: string): (r: string)
    ensures r == [] || (!IsSpace(r[0]) && !IsSpace(r[|r| - 1]))
    ensures r == [] <==> AllSpace(s)
  {
    var t := TrimStart(s);
    assert t != [] ==> t[0] == s[|s| - |t|];
    assert TrimEnd(t) == [] ==> t == [] && s[..|s| - |t|] == s;
    TrimEnd(t)
  }

  /** What `Trim` keeps is the contiguous part of `s` after its leading
      white space, and what it drops at the end is white space too. */
  lemma TrimIsInfix(s: string)
    ensures var k, r := |s| - |TrimStart(s)|, Trim(s);
      k + |r| <= |s| && r == s[k..k + |r|] && AllSpace(s[..k]) && AllSpace(s[k + |r|..])
  {
    var t := TrimStart(s);
    InfixOfParts(s, t, TrimEnd(t));
  }

  /** A prefix `r` of a suffix `t` of `s`, with white space dropped on both sides. */
  lemma InfixOfParts(s: string, t: string, r: string)
    requires |t| <= |s| && t == s[|s| - |t|..] && AllSpace(s[..|s| - |t|])
    requires |r| <= |t| && r == t[..|r|] && AllSpace(t[|r|..])
    ensures var k := |s| - |t|;
      k + |r| <= |s| && r == s[k..k + |r|] && AllSpace(s[..k]) && AllSpace(s[k + |r|..])
  {
    var k := |s| - |t|;
    assert s[k..][..|r|] == s[k..k + |r|] && s[k..][|r|..] == s[k + |r|..];
  }

  /** Trimming twice is the same as trimming once. */
  lemma TrimIdempotent(s: string)
    ensures Trim(Trim(s)) == Trim(s)
  {
    var r := Trim(s);
    if r != [] {
      assert TrimStart(r) == r;
      assert TrimEnd(r) == r;
    }
  }

  /** `sub` occurs in `s` starting at position `i`. */
  predicate OccursAt(s: string, sub: string, i: int)
  {
    0 <= i <= |s| - |sub| && s[i..i + |sub|] == sub
  }

  /** `sub` occurs in `s` as a contiguous part (`includes` in JavaScript, `in` in Python). */
  predicate Contains(s: string, sub: string)
  {
    exists i :: 0 <= i <= |s| - |sub| && OccursAt(s, sub, i)
  }

  /** Every string contains the empty string. */
  lemma ContainsEmpty(s: string)
    ensures Contains(s, "")
  {
    assert OccursAt(s, "", 0);
  }

  function Digit(d: nat): (c: char)
    requires d < 10
    ensures '0' <= c <= '9'
  {
    "0123456789"[d]
  }

  /** The decimal rendering of `n`, as Python's `str` and JavaScript's
      template literals produce it. */
  function NatToString(n: nat): (r: string)
    ensures |r| > 0
    ensures forall i :: 0 <= i < |r| ==> '0' <= r[i] <= '9'
    ensures n < 10 <==> |r| == 1
    ensures r[|r| - 1] == Digit(n % 10)
  {
    if n < 10 then [Digit(n)] else NatToString(n / 10) + [Digit(n % 10)]
  }

  /** Distinct numbers have distinct decimal renderings. */
  lemma {:induction false} NatToStringInjective(a: nat, b: nat)
    requires NatToString(a) == NatToString(b)
    ensures a == b
  {
    var s := NatToString(a);
    DigitInjective(a % 10, b % 10);
    if a >= 10 {
      assert b >= 10;
      assert NatToString(a / 10) == s[..|s| - 1] == NatToString(b / 10);
      NatToStringInjective(a / 10, b / 10);
      assert a == 10 * (a / 10) + a % 10;
      assert b == 10 * (b / 10) + b % 10;
    }
  }

  lemma DigitInjective(a: nat, b: nat)
    requires a < 10 && b < 10 && Digit(a) == Digit(b)
    ensures a == b
  {
  }

  /** `s` with every `from` replaced by `to` (Python's `str.replace` on one character). */
  function ReplaceChar(s: string, from: char, to: char): (r: string)
    ensures |r| == |s|
    ensures forall i :: 0 <= i < |s| ==> r[i] == if s[i] == from then to else s[i]
  {
    seq(|s|, i requires 0 <= i < |s| => if s[i] == from then to else s[i])
  }

  /** Position of the first `c` in `s`. */
  function IndexOf(s: string, c: char): (r: Option<nat>)
    ensures r.None? <==> c !in s
    ensures r.Some? ==> r.value < |s| && s[r.value] == c && c !in s[..r.value]
  {
    if s == [] then None
    else if s[0] == c then Some(0)
    else
      var rest := IndexOf(s[1..], c);
      if rest.None? then None
      else
        assert s[..rest.value + 1] == [s[0]] + s[1..][..rest.value];
        Some(rest.value + 1)
  }

  /** Position of the last occurrence of the non-empty `pat` in `s`. */
  function LastIndexOf(s: string, pat: string): (r: Option<nat>)
    requires pat != []
    ensures r.None? ==> forall j :: !OccursAt(s, pat, j)
    ensures r.Some? ==> OccursAt(s, pat, r.value)
    ensures r.Some? ==> forall j :: r.value < j ==> !OccursAt(s, pat, j)
    decreases |s|
  {
    if |s| < |pat| then None
    else if s[|s| - |pat|..] == pat then Some(|s| - |pat|)
    else
      var init := s[..|s| - 1];
      var r := LastIndexOf(init, pat);
      assert forall j :: OccursAt(s, pat, j) ==> OccursAt(init, pat, j) by {
        forall j | OccursAt(s, pat, j) ensures OccursAt(init, pat, j) {
          assert j + |pat| <= |init|;
          assert s[j..j + |pat|] == init[j..j + |pat|];
        }
      }
      r
  }

  /** The parts of `s` between the occurrences of `sep`, as Python's
      `str.split(sep)` returns them: one more part than there are separators. */
  function Split(s: string, sep: char): (r: seq<string>)
    ensures |r| > 0
    ensures forall i :: 0 <= i < |r| ==> sep !in r[i]
    decreases |s|
  {
    if s == [] then [""]
    else
      var prev := Split(s[..|s| - 1], sep);
      var last := s[|s| - 1];
      if last == sep then prev + [""]
      else prev[..|prev| - 1] + [prev[|prev| - 1] + [last]]
  }

  /** The parts joined with `sep` between consecutive parts (Python's
      `sep.join(parts)`, JavaScript's `parts.join(sep)`). */
  function Join(parts: seq<string>, sep: string): (r: string)
    ensures |parts| == 1 ==> r == parts[0]
    decreases |parts|
  {
    if |parts| == 0 then ""
    else if |parts| == 1 then parts[0]
    else Join(parts[..|parts| - 1], sep) + sep + parts[|parts| - 1]
  }

  lemma JoinSnoc(parts: seq<string>, p: string, sep: string)
    requires parts != []
    ensures Join(parts + [p], sep) == Join(parts, sep) + sep + p
  {
    assert (parts + [p])[..|parts|] == parts;
  }

  /** With two parts or more, the joined string starts with the first part
      and a separator. */
  lemma {:induction false} JoinStart(parts: seq<string>, sep: string)
    requires |parts| >= 2
    ensures var j := Join(parts, sep);
      |j| >= |parts[0]| + |sep| && j[..|parts[0]| + |sep|] == parts[0] + sep
    decreases |parts|
  {
    var init := parts[..|parts| - 1];
    if |parts| > 2 {
      JoinStart(init, sep);
      var j0 := Join(init, sep);
      assert Join(parts, sep)[..|parts[0]| + |sep|] == j0[..|parts[0]| + |sep|];
    }
  }

  /** Extending the last part extends the joined string. */
  lemma JoinExtendLast(parts: seq<string>, x: string, sep: string)
    requires parts != []
    ensures Join(parts[..|parts| - 1] + [parts[|parts| - 1] + x], sep) == Join(parts, sep) + x
  {
    var init := parts[..|parts| - 1];
    if |parts| > 1 {
      assert (init + [parts[|parts| - 1] + x])[..|init|] == init;
    }
  }

  /** Joining the parts of a split gives back the string. */
  lemma {:induction false} JoinSplit(s: string, sep: char)
    ensures Join(Split(s, sep), [sep]) == s
    decreases |s|
  {
    if s != [] {
      var init, last := s[..|s| - 1], s[|s| - 1];
      var prev := Split(init, sep);
      JoinSplit(init, sep);
      assert s == init + [last];
      if last == sep {
        JoinSnoc(prev, "", [sep]);
      } else {
        JoinExtendLast(prev, [last], [sep]);
      }
    }
  }

  /** A string without `sep` splits into itself alone. */
  lemma {:induction false} SplitWithoutSep(p: string, sep: char)
    requires sep !in p
    ensures Split(p, sep) == [p]
    decreases |p|
  {
    if p != [] {
      SplitWithoutSep(p[..|p| - 1], sep);
      assert p[..|p| - 1] + [p[|p| - 1]] == p;
    }
  }

  /** Splitting `a`, a separator and a separator-free `p` adds `p` as a last part. */
  lemma {:induction false} SplitAfterSep(a: string, p: string, sep: char)
    requires sep !in p
    ensures Split(a + [sep] + p, sep) == Split(a, sep) + [p]
    decreases |p|
  {
    var s := a + [sep] + p;
    if p == [] {
      assert s[..|s| - 1] == a;
    } else {
      var pinit := p[..|p| - 1];
      SplitAfterSep(a, pinit, sep);
      assert s[..|s| - 1] == a + [sep] + pinit;
      assert pinit + [p[|p| - 1]] == p;
    }
  }

  /** Splitting the join of separator-free parts gives back the parts. */
  lemma {:induction false} SplitJoin(parts: seq<string>, sep: char)
    requires parts != []
    requires forall i :: 0 <= i < |parts| ==> sep !in parts[i]
    ensures Split(Join(parts, [sep]), sep) == parts
    decreases |parts|
  {
    if |parts| == 1 {
      SplitWithoutSep(parts[0], sep);
    } else {
      var init, last := parts[..|parts| - 1], parts[|parts| - 1];
      SplitJoin(init, sep);
      SplitAfterSep(Join(init, [sep]), last, sep);
      assert init + [last] == parts;
    }
  }
}
