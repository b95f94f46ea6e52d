/** The handful of Python string operations the tool relies on: substring
    search (`in`, `re.search` on a literal), `str.replace`, `str.split("\n")`,
    slicing, `os.path.basename` and the `\d*` digit run. */
module Text {
  import opened Results

  /** `lit` occurs in `s` starting at index `i`. */
  predicate StartsAt(s: string, i: nat, lit: string) {
    i + |lit| <= |s| && s[i..i + |lit|] == lit
  }

  /** Python's `lit in s`. */
  predicate Contains(s: string, lit: string) {
    exists i: nat :: i <= |s| && StartsAt(s, i, lit)
  }

  /** The first index at or after `from` where `lit` occurs, if any. */
  function Find(s: string, lit: string, from: nat): (r: Option<nat>)
    requires from <= |s|
    ensures r.Some? ==> from <= r.value <= |s| && StartsAt(s, r.value, lit)
    decreases |s| - from
  {
    if StartsAt(s, from, lit) then Some(from)
    else if from == |s| then None
    else Find(s, lit, from + 1)
  }

  /** What `Find` finds is the first occurrence, and it finds one whenever
      there is one. */
  lemma {:induction false} FindFirst(s: string, lit: string, from: nat)
    requires from <= |s|
    ensures Find(s, lit, from).Some? ==> forall k: nat :: from <= k < Find(s, lit, from).value ==> !StartsAt(s, k, lit)
    ensures Find(s, lit, from).None? ==> forall k: nat :: from <= k <= |s| ==> !StartsAt(s, k, lit)
    decreases |s| - from
  {
    if !StartsAt(s, from, lit) && from < |s| {
      FindFirst(s, lit, from + 1);
    }
  }

  /** `Find` from the start answers `Contains`, in both directions. */
  lemma FindContains(s: string, lit: string)
    ensures Find(s, lit, 0).Some? <==> Contains(s, lit)
  {
    FindFirst(s, lit, 0);
    if Contains(s, lit) {
      var i: nat :| i <= |s| && StartsAt(s, i, lit);
    }
  }

  predicate IsDigit(c: char) {
    '0' <= c <= '9'
  }

  /** The longest prefix of `s` made of ASCII digits: what a greedy `\d*` captures. */
  function Digits(s: string): string {
    if |s| == 0 || !IsDigit(s[0]) then ""
    else [s[0]] + Digits(s[1..])
  }

  /** `Digits` is a prefix, all digits, and stops only at a non-digit or the end. */
  lemma {:induction false} DigitsRun(s: string)
    ensures Digits(s) <= s
    ensures forall k :: 0 <= k < |Digits(s)| ==> IsDigit(Digits(s)[k])
    ensures |Digits(s)| == |s| || !IsDigit(s[|Digits(s)|])
  {
    if |s| > 0 && IsDigit(s[0]) {
      DigitsRun(s[1..]);
    }
  }

  /** Python's slice `s[n:]`, which is empty when `s` is shorter than `n`. */
  function DropPrefix(s: string, n: nat): (r: string)
    ensures |s| <= n ==> r == ""
    ensures n < |s| ==> |r| == |s| - n && r == s[|s| - |r|..]
  {
    if |s| <= n then "" else s[n..]
  }

  /** Python's `s.replace(pat, rep)`: every non-overlapping occurrence of
      `pat`, scanning left to right, is replaced by `rep`. A replacement of
      the same length keeps the length, and replacing a text by itself
      changes nothing. */
  function ReplaceAll(s: string, pat: string, rep: string): (r: string)
    requires |pat| > 0
    ensures |rep| == |pat| ==> |r| == |s|
    ensures rep == pat ==> r == s
    decreases |s|
  {
    if |s| < |pat| then s
    else if s[..|pat|] == pat then rep + ReplaceAll(s[|pat|..], pat, rep)
    else [s[0]] + ReplaceAll(s[1..], pat, rep)
  }

  /** A string without an occurrence of `pat` is left as it is. */
  lemma {:induction false} ReplaceAbsent(s: string, pat: string, rep: string)
    requires |pat| > 0
    requires !Contains(s, pat)
    ensures ReplaceAll(s, pat, rep) == s
    decreases |s|
  {
    if |s| < |pat| {
    } else {
      assert !StartsAt(s, 0, pat);
      assert s[..|pat|] != pat;
      var t := s[1..];
      assert !Contains(t, pat) by {
        if Contains(t, pat) {
          var i: nat :| i <= |t| && StartsAt(t, i, pat);
          assert s[i + 1..i + 1 + |pat|] == t[i..i + |pat|];
          assert StartsAt(s, i + 1, pat);
        }
      }
      ReplaceAbsent(t, pat, rep);
    }
  }

  /** Dropping the first character shifts every occurrence one place left. */
  lemma StartsAtTail(s: string, k: nat, lit: string)
    requires |s| > 0
    ensures StartsAt(s[1..], k, lit) <==> StartsAt(s, k + 1, lit)
  {
    if k + 1 + |lit| <= |s| {
      assert s[1..][k..k + |lit|] == s[k + 1..k + 1 + |lit|];
    }
  }

  /** Where `pat` does not start, `str.replace` keeps the first character. */
  lemma ReplaceSkip(s: string, pat: string, rep: string)
    requires |pat| > 0 && |s| > 0 && !StartsAt(s, 0, pat)
    ensures ReplaceAll(s, pat, rep) == [s[0]] + ReplaceAll(s[1..], pat, rep)
  {
    if |pat| <= |s| {
      assert s[0..|pat|] == s[..|pat|];
    }
  }

  /** Where `pat` starts, `str.replace` puts `rep` in its place. */
  lemma ReplaceHere(s: string, pat: string, rep: string)
    requires |pat| > 0 && StartsAt(s, 0, pat)
    ensures ReplaceAll(s, pat, rep) == rep + ReplaceAll(s[|pat|..], pat, rep)
  {
    assert s[..|pat|] == s[0..|pat|];
  }

  /** No occurrence before `i` in `s` means none before `i - 1` in its tail. */
  lemma MissesTail(s: string, pat: string, i: nat)
    requires |s| > 0 && 0 < i
    requires forall k: nat :: k < i ==> !StartsAt(s, k, pat)
    ensures forall k: nat :: k < i - 1 ==> !StartsAt(s[1..], k, pat)
  {
    forall k: nat | k < i - 1
      ensures !StartsAt(s[1..], k, pat)
    {
      StartsAtTail(s, k, pat);
    }
  }

  /** `pat` starts at none of the first `i` positions of `s`, stated one
      position at a time so that induction on `i` needs no quantifier. */
  predicate Clear(s: string, pat: string, i: nat)
    decreases i
  {
    i == 0 || (|s| > 0 && !StartsAt(s, 0, pat) && Clear(s[1..], pat, i - 1))
  }

  /** The quantified form of "no occurrence before `i`" gives `Clear`. */
  lemma {:induction false} ClearFromMisses(s: string, pat: string, i: nat)
    requires i <= |s|
    requires forall k: nat :: k < i ==> !StartsAt(s, k, pat)
    ensures Clear(s, pat, i)
    decreases i
  {
    if i > 0 {
      assert !StartsAt(s, 0, pat);
      MissesTail(s, pat, i);
      ClearFromMisses(s[1..], pat, i - 1);
    }
  }

  /** The equation `ReplaceAtFirst` proves: `str.replace` on `s` is the text
      before `i`, then `rep`, then the replacement of the rest after `pat`. */
  predicate SplitsAt(s: string, pat: string, rep: string, i: nat)
    requires |pat| > 0 && i + |pat| <= |s|
  {
    ReplaceAll(s, pat, rep) == s[..i] + rep + ReplaceAll(s[i + |pat|..], pat, rep)
  }

  /** The equation for the tail of `s` gives the one for `s` when `s` does
      not start with `pat`. */
  lemma SplitsAtSkip(s: string, pat: string, rep: string, i: nat)
    requires |pat| > 0 && 0 < i && i + |pat| <= |s| && !StartsAt(s, 0, pat)
    requires SplitsAt(s[1..], pat, rep, i - 1)
    ensures SplitsAt(s, pat, rep, i)
  {
    ReplaceAfterSkip(s, pat, rep, i);
    ConsBoth(ReplaceAll(s, pat, rep), s[..i] + rep + ReplaceAll(s[i + |pat|..], pat, rep), s[0],
      ReplaceAll(s[1..], pat, rep),
      s[1..][..i - 1] + rep + ReplaceAll(s[1..][i - 1 + |pat|..], pat, rep));
  }

  /** `ReplaceAtFirst` by induction on `i`, with `Clear` as the hypothesis. */
  lemma {:induction false} ReplaceAtClear(s: string, pat: string, rep: string, i: nat)
    requires |pat| > 0 && StartsAt(s, i, pat) && Clear(s, pat, i)
    ensures SplitsAt(s, pat, rep, i)
    decreases i
  {
    if i == 0 {
      ReplaceHere(s, pat, rep);
      assert s[..0] + rep == rep;
    } else {
      StartsAtTail(s, i - 1, pat);
      ReplaceAtClear(s[1..], pat, rep, i - 1);
      SplitsAtSkip(s, pat, rep, i);
    }
  }

  /** `str.replace` replaces the first occurrence of `pat` by `rep` and goes
      on scanning right after it. With `ReplaceAbsent` this determines the
      result on every input. */
  lemma ReplaceAtFirst(s: string, pat: string, rep: string, i: nat)
    requires |pat| > 0 && StartsAt(s, i, pat)
    requires forall k: nat :: k < i ==> !StartsAt(s, k, pat)
    ensures ReplaceAll(s, pat, rep) == s[..i] + rep + ReplaceAll(s[i + |pat|..], pat, rep)
  {
    ClearFromMisses(s, pat, i);
    ReplaceAtClear(s, pat, rep, i);
  }

  /** One step of `ReplaceAtFirst`: when `s` does not start with `pat`,
      both sides of its equation are `s[0]` followed by the same sides for
      the tail of `s`. */
  lemma ReplaceAfterSkip(s: string, pat: string, rep: string, i: nat)
    requires |pat| > 0 && 0 < i && i + |pat| <= |s| && !StartsAt(s, 0, pat)
    ensures ReplaceAll(s, pat, rep) == [s[0]] + ReplaceAll(s[1..], pat, rep)
    ensures s[..i] + rep + ReplaceAll(s[i + |pat|..], pat, rep)
         == [s[0]] + (s[1..][..i - 1] + rep + ReplaceAll(s[1..][i - 1 + |pat|..], pat, rep))
  {
    var rest := ReplaceAll(s[i + |pat|..], pat, rep);
    ReplaceSkip(s, pat, rep);
    assert s[1..][i - 1 + |pat|..] == s[i + |pat|..];
    Regroup(s, i, rep, rest);
  }

  /** Equal tails behind the same character give equal texts. */
  lemma ConsBoth(a: string, b: string, c: char, u: string, v: string)
    requires u == v && a == [c] + u && b == [c] + v
    ensures a == b
  {
  }

  /** `s[0]` put back in front of a split tail gives the split of `s`. */
  lemma Regroup(s: string, i: nat, rep: string, rest: string)
    requires 0 < i <= |s|
    ensures [s[0]] + (s[1..][..i - 1] + rep + rest) == s[..i] + rep + rest
  {
    assert s[..i] == [s[0]] + s[1..][..i - 1];
  }

  /** A text without the first character of `lit` does not contain `lit`. */
  lemma MissingLead(s: string, lit: string)
    requires |lit| > 0 && lit[0] !in s
    ensures !Contains(s, lit)
  {
    forall i: nat | i <= |s|
      ensures !StartsAt(s, i, lit)
    {
      if i + |lit| <= |s| {
        assert s[i..i + |lit|][0] == s[i];
      }
    }
  }

  /** One occurrence of `pat`, with text around it that cannot start
      another, is replaced by `rep` and nothing else changes. */
  lemma ReplaceOnce(a: string, pat: string, b: string, rep: string)
    requires |pat| > 0 && pat[0] !in a && pat[0] !in b
    ensures ReplaceAll(a + pat + b, pat, rep) == a + rep + b
  {
    var s := a + pat + b;
    assert s[|a|..|a| + |pat|] == pat;
    forall k: nat | k < |a|
      ensures !StartsAt(s, k, pat)
    {
      assert s[k] == a[k];
      if k + |pat| <= |s| {
        assert s[k..k + |pat|][0] == s[k];
      }
    }
    ReplaceAtFirst(s, pat, rep, |a|);
    assert s[..|a|] == a;
    assert s[|a| + |pat|..] == b;
    MissingLead(b, pat);
    ReplaceAbsent(b, pat, rep);
  }

  /** Index of the first line break in `s`, or `|s|` when there is none. */
  function LineEnd(s: string): (r: nat)
    ensures r <= |s|
    ensures r < |s| ==> s[r] == '\n'
    ensures '\n' !in s[..r]
  {
    if |s| == 0 || s[0] == '\n' then 0 else 1 + LineEnd(s[1..])
  }

  /** Python's `s.split("\n")`: at least one piece, none holding a line
      break; `JoinSplit` shows that joining them gives the text back. */
  function Split(s: string): (r: seq<string>)
    ensures |r| >= 1
    ensures forall i :: 0 <= i < |r| ==> '\n' !in r[i]
    decreases |s|
  {
    if LineEnd(s) == |s| then [s] else [s[..LineEnd(s)]] + Split(s[LineEnd(s) + 1..])
  }

  /** Python's `"\n".join(lines)`. */
  function Join(lines: seq<string>): string
  {
    if |lines| == 0 then ""
    else if |lines| == 1 then lines[0]
    else lines[0] + "\n" + Join(lines[1..])
  }

  lemma {:induction false} JoinCons(first: string, rest: seq<string>)
    requires |rest| >= 1
    ensures Join([first] + rest) == first + "\n" + Join(rest)
  {
    assert ([first] + rest)[1..] == rest;
  }

  lemma {:induction false} SplitStep(s: string)
    requires LineEnd(s) < |s|
    ensures Split(s) == [s[..LineEnd(s)]] + Split(s[LineEnd(s) + 1..])
  {
  }

  lemma {:induction false} BreakAt(s: string, e: nat)
    requires e < |s| && s[e] == '\n'
    ensures s == s[..e] + "\n" + s[e + 1..]
  {
    assert s == s[..e] + [s[e]] + s[e + 1..];
  }

  /** Splitting at line breaks and joining again gives back the text. */
  lemma {:induction false} JoinSplit(s: string)
    ensures Join(Split(s)) == s
    decreases |s|
  {
    var e := LineEnd(s);
    if e < |s| {
      var head, rest := s[..e], s[e + 1..];
      calc {
        Join(Split(s));
      == { SplitStep(s); }
        Join([head] + Split(rest));
      == { JoinCons(head, Split(rest)); }
        head + "\n" + Join(Split(rest));
      == { JoinSplit(rest); }
        head + "\n" + rest;
      == { BreakAt(s, e); }
        s;
      }
    }
  }

  /** Python's `"".join(pieces)`. */
  function Concat(pieces: seq<string>): string
  {
    if |pieces| == 0 then "" else pieces[0] + Concat(pieces[1..])
  }

  lemma {:induction false} ConcatAppend(pieces: seq<string>, last: string)
    ensures Concat(pieces + [last]) == Concat(pieces) + last
    decreases |pieces|
  {
    if |pieces| == 0 {
      assert pieces + [last] == [last];
    } else {
      assert (pieces + [last])[1..] == pieces[1..] + [last];
      ConcatAppend(pieces[1..], last);
    }
  }

  /** `os.path.basename`: everything after the last `/`. */
  function Basename(path: string): (r: string)
    ensures '/' !in r
    ensures |r| <= |path| && r == path[|path| - |r|..]
    ensures |r| == |path| || path[|path| - |r| - 1] == '/'
    decreases |path|
  {
    if |path| == 0 then ""
    else if path[|path| - 1] == '/' then ""
    else Basename(path[..|path| - 1]) + [path[|path| - 1]]
  }

  lemma AppendAssoc(a: string, b: string, c: string)
    ensures (a + b) + c == a + (b + c)
  {
  }

  /** The directory a path names its file in: everything before the last
      `/`, or "" when there is none. */
  function Dirname(path: string): (r: string)
    ensures '/' in path ==> path == r + "/" + Basename(path)
    ensures '/' !in path ==> r == ""
  {
    var name := Basename(path);
    if |name| == |path| then
      assert '/' !in path;
      ""
    else
      var r := path[..|path| - |name| - 1];
      assert path == r + [path[|path| - |name| - 1]] + path[|path| - |name|..];
      r
  }

  /** A directory joined with a plain file name gives that directory back. */
  lemma DirnameJoin(dir: string, name: string)
    requires '/' !in name
    ensures Dirname(dir + "/" + name) == dir
  {
    var p := dir + "/" + name;
    assert p[|dir|] == '/';
    assert p[|dir| + 1..] == name;
  }
}
