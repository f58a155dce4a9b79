/**
 * The canonical song id: `normalizeString` and `getSongID`. The songs route and
 * the update route each carry a copy of the same replace chain; both copies are
 * modelled by the one definition here.
 */
module SongId {
  import opened Strings

  /** Characters that survive `replace(/[^a-z0-9\s,-]/g, "")`. */
  predicate Kept(c: char) {
    'a' <= c <= 'z' || '0' <= c <= '9' || IsSpace(c) || c == ',' || c == '-'
  }

  /** Characters an id is made of. */
  predicate IdChar(c: char) {
    'a' <= c <= 'z' || '0' <= c <= '9' || c == '-'
  }

  predicate IsComma(c: char) {
    c == ','
  }

  /** `replace(/[^a-z0-9\s,-]/g, "")`: drop every character that is not kept. */
  function RemoveDisallowed(s: string): (r: string)
    ensures forall c | c in r :: Kept(c) && c in s
  {
    if s == [] then ""
    else if Kept(s[0]) then [s[0]] + RemoveDisallowed(s[1..])
    else RemoveDisallowed(s[1..])
  }

  /**
   * `replace(/X+/g, "-")` where X is the class `inRun`: every maximal run of
   * class characters becomes a single "-". `afterRun` says whether the text
   * before `s` ended inside a run.
   */
  function CollapseRuns(s: string, inRun: char -> bool, afterRun: bool): (r: string)
    ensures forall c | c in r :: c == '-' || (c in s && !inRun(c))
    ensures |r| <= |s|
  {
    if s == [] then ""
    else if inRun(s[0]) then (if afterRun then "" else "-") + CollapseRuns(s[1..], inRun, true)
    else [s[0]] + CollapseRuns(s[1..], inRun, false)
  }

  /** `normalizeString`: lower-case, drop disallowed characters, then turn white-space runs and comma runs into "-". */
  function Normalize(s: string): (r: string)
    ensures forall c | c in r :: IdChar(c)
  {
    var kept := RemoveDisallowed(Lower(s));
    var dashed := CollapseRuns(kept, IsSpace, false);
    CollapseRuns(dashed, IsComma, false)
  }

  /** `getSongID`: the normalised "artist-title" text. */
  function GetSongId(artist: string, title: string): (id: string)
    ensures forall c | c in id :: IdChar(c)
  {
    Normalize(artist + "-" + title)
  }

  lemma LowerWithoutCapitals(s: string)
    requires forall c | c in s :: !('A' <= c <= 'Z')
    ensures Lower(s) == s
  {
    assert forall i | 0 <= i < |s| :: s[i] in s;
  }

  lemma {:induction false} RemoveDisallowedOfKept(s: string)
    requires forall c | c in s :: Kept(c)
    ensures RemoveDisallowed(s) == s
  {
    if s != [] {
      assert s[0] in s;
      RemoveDisallowedOfKept(s[1..]);
      assert [s[0]] + s[1..] == s;
    }
  }

  /** A text without class characters is left alone. */
  lemma {:induction false} CollapseRunsWithoutRuns(s: string, inRun: char -> bool, afterRun: bool)
    requires forall c | c in s :: !inRun(c)
    ensures CollapseRuns(s, inRun, afterRun) == s
  {
    if s != [] {
      assert s[0] in s;
      CollapseRunsWithoutRuns(s[1..], inRun, false);
      assert [s[0]] + s[1..] == s;
    }
  }

  /** An id is already normal: normalising twice is normalising once. */
  lemma NormalizeIdempotent(s: string)
    ensures Normalize(Normalize(s)) == Normalize(s)
  {
    var t := Normalize(s);
    LowerWithoutCapitals(t);
    RemoveDisallowedOfKept(t);
    CollapseRunsWithoutRuns(t, IsSpace, false);
    CollapseRunsWithoutRuns(t, IsComma, false);
  }

  /** Texts that agree up to letter case get the same id. */
  lemma SameIdIgnoringCase(a: string, b: string)
    requires |a| == |b| && forall i | 0 <= i < |a| :: LowerChar(a[i]) == LowerChar(b[i])
    ensures Normalize(a) == Normalize(b)
  {
    assert Lower(a) == Lower(b);
  }

  /** Whether the text `s`, read after `afterRun`, ends inside a run. */
  function EndsInRun(s: string, inRun: char -> bool, afterRun: bool): bool {
    if s == [] then afterRun else inRun(s[|s| - 1])
  }

  lemma {:induction false} CollapseRunsAppend(x: string, y: string, inRun: char -> bool, afterRun: bool)
    ensures CollapseRuns(x + y, inRun, afterRun)
         == CollapseRuns(x, inRun, afterRun) + CollapseRuns(y, inRun, EndsInRun(x, inRun, afterRun))
  {
    if x == [] {
      assert x + y == y;
    } else {
      assert (x + y)[0] == x[0];
      assert (x + y)[1..] == x[1..] + y;
      CollapseRunsAppend(x[1..], y, inRun, inRun(x[0]));
      if x[1..] != [] {
        assert x[1..][|x[1..]| - 1] == x[|x| - 1];
      }
    }
  }

  lemma {:induction false} CollapseWholeRun(run: string, inRun: char -> bool, afterRun: bool)
    requires run != [] && forall c | c in run :: inRun(c)
    ensures CollapseRuns(run, inRun, afterRun) == (if afterRun then "" else "-")
  {
    assert run[0] in run;
    if |run| > 1 {
      CollapseWholeRun(run[1..], inRun, true);
    }
  }

  /**
   * Each maximal run of class characters becomes exactly one "-", whatever
   * surrounds it.
   */
  lemma RunBecomesOneHyphen(a: string, run: string, b: string, inRun: char -> bool)
    requires run != [] && forall c | c in run :: inRun(c)
    requires a == [] || !inRun(a[|a| - 1])
    requires b == [] || !inRun(b[0])
    ensures CollapseRuns(a + run + b, inRun, false)
         == CollapseRuns(a, inRun, false) + "-" + CollapseRuns(b, inRun, false)
  {
    CollapseRunsAppend(a, run + b, inRun, false);
    assert a + run + b == a + (run + b);
    CollapseRunsAppend(run, b, inRun, false);
    CollapseWholeRun(run, inRun, false);
  }

  // The four stages of Normalize on "a - b", one lemma each so that each is
  // evaluated on its own.
  lemma ExampleLower() ensures Lower("a - b") == "a - b" { }
  lemma ExampleKept() ensures RemoveDisallowed("a - b") == "a - b" { }
  lemma ExampleSpaces() ensures CollapseRuns("a - b", IsSpace, false) == "a---b" { }
  lemma ExampleCommas() ensures CollapseRuns("a---b", IsComma, false) == "a---b" { }

  /** Existing hyphens are kept and not merged: "a - b" gives "a---b". */
  lemma HyphensAreNotMerged()
    ensures Normalize("a - b") == "a---b"
  {
    var s := "a - b";
    ExampleLower();
    ExampleKept();
    ExampleSpaces();
    ExampleCommas();
    calc {
      Normalize(s);
      CollapseRuns(CollapseRuns(RemoveDisallowed(Lower(s)), IsSpace, false), IsComma, false);
    }
  }
}
