/** The few Python built-ins the server relies on: values as they come out of
    JSON or yt-dlp, truthiness, dict.get with a default, str.replace and
    os.path.basename. */
module Py {

  /** A Python value as far as the server inspects it. Lists and nested
      dicts only pass through the server unchanged and are not represented. */
  datatype PyVal = PyNone | PyBool(b: bool) | PyInt(i: int) | PyStr(s: string)

  type Dict = map<string, PyVal>

  /** Python truthiness: None, False, 0 and "" are falsy. */
  predicate Truthy(v: PyVal) {
    match v
    case PyNone => false
    case PyBool(b) => b
    case PyInt(i) => i != 0
    case PyStr(s) => s != []
  }

  /** d.get(key, default). */
  function Get(d: Dict, key: string, default: PyVal): PyVal {
    if key in d then d[key] else default
  }

  /** `pat` starts at position i of s. */
  predicate OccursAt(s: string, pat: string, i: nat) {
    i + |pat| <= |s| && s[i..i + |pat|] == pat
  }

  /** No occurrence of pat starts before position n of s. */
  predicate NoOccurrenceBefore(s: string, pat: string, n: nat) {
    forall i: nat :: i < n ==> !OccursAt(s, pat, i)
  }

  /** s.replace("", new): new before every character and at the end. */
  function InsertAround(s: string, repl: string): (r: string)
    ensures |r| == |s| + (|s| + 1) * |repl|
  {
    if s == [] then repl else repl + [s[0]] + InsertAround(s[1..], repl)
  }

  /** i * w, counted out as i additions of w. */
  function Offset(i: nat, w: nat): nat {
    if i == 0 then 0 else Offset(i - 1, w) + w
  }

  lemma {:induction false} OffsetIsProduct(i: nat, w: nat)
    ensures Offset(i, w) == i * w
  {
    if i > 0 {
      OffsetIsProduct(i - 1, w);
      assert (i - 1) * w + w == i * w;
    }
  }

  /** Gap i of InsertAround(s, repl) holds repl, followed by s[i]; gaps are
      |repl| + 1 characters apart. */
  lemma {:induction false} GapAt(s: string, repl: string, i: nat)
    requires i < |s|
    ensures var r := InsertAround(s, repl); var w := |repl| + 1;
      && Offset(i + 1, w) <= |r|
      && r[Offset(i, w) .. Offset(i, w) + |repl|] == repl
      && r[Offset(i, w) + |repl|] == s[i]
    decreases i
  {
    var r := InsertAround(s, repl);
    var w := |repl| + 1;
    var t := InsertAround(s[1..], repl);
    assert r == repl + [s[0]] + t;
    if i == 0 {
      assert Offset(1, w) == w;
    } else {
      GapAt(s[1..], repl, i - 1);
      assert Offset(i, w) == Offset(i - 1, w) + w;
      assert Offset(i + 1, w) == Offset(i, w) + w;
      assert r[Offset(i, w) .. Offset(i, w) + |repl|] == t[Offset(i - 1, w) .. Offset(i - 1, w) + |repl|];
      assert r[Offset(i, w) + |repl|] == t[Offset(i - 1, w) + |repl|];
    }
  }

  /** Replacing the empty pattern puts a copy of repl in the gap before each
      character of s: gap i starts at i * (|repl| + 1) and is followed by s[i]. */
  lemma InsertAroundGap(s: string, repl: string, i: nat)
    requires i < |s|
    ensures var r := InsertAround(s, repl);
      && (i + 1) * (|repl| + 1) <= |r|
      && r[i * (|repl| + 1) .. i * (|repl| + 1) + |repl|] == repl
      && r[i * (|repl| + 1) + |repl|] == s[i]
  {
    GapAt(s, repl, i);
    OffsetIsProduct(i, |repl| + 1);
    OffsetIsProduct(i + 1, |repl| + 1);
  }

  /** The last gap, after the final character, holds repl as well. */
  lemma {:induction false} InsertAroundEnd(s: string, repl: string)
    ensures var r := InsertAround(s, repl); r[|r| - |repl|..] == repl
    decreases |s|
  {
    if s != [] {
      InsertAroundEnd(s[1..], repl);
      var t := InsertAround(s[1..], repl);
      assert InsertAround(s, repl)[|InsertAround(s, repl)| - |repl|..] == t[|t| - |repl|..];
    }
  }

  /** s.replace(pat, new) for a non-empty pat: the occurrences are found from
      left to right and do not overlap. */
  function ReplaceNonEmpty(s: string, pat: string, repl: string): string
    requires pat != []
    decreases |s|
  {
    if |s| < |pat| then s
    else if s[..|pat|] == pat then repl + ReplaceNonEmpty(s[|pat|..], pat, repl)
    else [s[0]] + ReplaceNonEmpty(s[1..], pat, repl)
  }

  /** Python's str.replace(pat, new) with no count: every occurrence. */
  function Replace(s: string, pat: string, repl: string): string {
    if pat == [] then InsertAround(s, repl) else ReplaceNonEmpty(s, pat, repl)
  }

  /** The first occurrence is replaced and the scan resumes after it. */
  lemma {:induction false} ReplaceFirstOccurrence(a: string, pat: string, repl: string, b: string)
    requires pat != [] && NoOccurrenceBefore(a + pat + b, pat, |a|)
    ensures Replace(a + pat + b, pat, repl) == a + repl + Replace(b, pat, repl)
    decreases |a|
  {
    var s := a + pat + b;
    if a == [] {
      assert s == pat + b && s[..|pat|] == pat && s[|pat|..] == b;
    } else {
      assert !OccursAt(s, pat, 0);
      assert s[..|pat|] != pat;
      var t := s[1..];
      assert t == a[1..] + pat + b;
      forall i: nat | i < |a[1..]|
        ensures !OccursAt(t, pat, i)
      {
        assert !OccursAt(s, pat, i + 1);
        if i + |pat| <= |t| {
          assert t[i..i + |pat|] == s[i + 1..i + 1 + |pat|];
        }
      }
      ReplaceFirstOccurrence(a[1..], pat, repl, b);
      assert [a[0]] + (a[1..] + repl + Replace(b, pat, repl)) == a + repl + Replace(b, pat, repl);
    }
  }

  /** A string without any occurrence comes back unchanged. */
  lemma {:induction false} ReplaceAbsent(s: string, pat: string, repl: string)
    requires pat != [] && NoOccurrenceBefore(s, pat, |s|)
    ensures Replace(s, pat, repl) == s
    decreases |s|
  {
    if |s| >= |pat| {
      assert !OccursAt(s, pat, 0);
      var t := s[1..];
      forall i: nat | i < |t|
        ensures !OccursAt(t, pat, i)
      {
        assert !OccursAt(s, pat, i + 1);
        if i + |pat| <= |t| {
          assert t[i..i + |pat|] == s[i + 1..i + 1 + |pat|];
        }
      }
      ReplaceAbsent(t, pat, repl);
      assert [s[0]] + t == s;
    }
  }

  /** When pat occurs only as the suffix, exactly that suffix is replaced. */
  lemma ReplaceSuffixOnly(stem: string, pat: string, repl: string)
    requires pat != [] && NoOccurrenceBefore(stem + pat, pat, |stem|)
    ensures Replace(stem + pat, pat, repl) == stem + repl
  {
    assert stem + pat == stem + pat + [];
    ReplaceFirstOccurrence(stem, pat, repl, []);
  }

  /** Every occurrence is replaced, not only a trailing extension. */
  lemma ReplaceEveryOccurrence()
    ensures Replace("webm.webm", "webm", "mp4") == "mp4.mp4"
  {
    var s: string := "webm.webm";
    assert s[..4] == "webm";
    assert s[4..] == ".webm";
    assert s[4..][..4][0] == '.';
    assert s[4..][1..] == "webm";
    assert ReplaceNonEmpty(s[4..][1..], "webm", "mp4") == "mp4" by {
      assert s[4..][1..][..4] == "webm" && s[4..][1..][4..] == [];
    }
  }

  /** os.path.basename for POSIX paths: everything after the last '/'. */
  function Basename(p: string): (r: string)
    ensures |r| <= |p| && r == p[|p| - |r|..]
    ensures '/' !in r
    ensures |r| < |p| ==> p[|p| - |r| - 1] == '/'
  {
    if p == [] || p[|p| - 1] == '/' then [] else Basename(p[..|p| - 1]) + [p[|p| - 1]]
  }

  /** A name joined under a directory is recovered by basename. */
  lemma {:induction false} BasenameOfJoin(dir: string, name: string)
    requires '/' !in name
    ensures Basename(dir + "/" + name) == name
    decreases |name|
  {
    var p := dir + "/" + name;
    if name != [] {
      var last := name[|name| - 1];
      assert p[|p| - 1] == last && last != '/';
      assert p[..|p| - 1] == dir + "/" + name[..|name| - 1];
      BasenameOfJoin(dir, name[..|name| - 1]);
      assert name[..|name| - 1] + [last] == name;
    }
  }
}
