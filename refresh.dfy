/**
 * The cache refresh server action: revalidates the site's cache tags and
 * paths, optionally the pages of the most recent news articles, or the tags
 * and paths it is given. Revalidations are modelled as the list of effects
 * the action requests; the recent-news query's answer is an input.
 */
module Refresh {
  import opened Wrappers
  import opened Strings

  const SiteTags: seq<string> := ["pages", "sponsors", "team", "events", "twitch", "slides", "navigation", "social"]
  const SitePaths: seq<string> := ["/sponsoren", "/sitemap.xml", "/articles", "/team", "/events", "/"]
  const NewsPathPrefix: string := "/nieuwsberichten"
  const RecentNewsFlag: string := "recent-news="
  const DefaultRecentNews: int := 3

  /** A revalidation the action asks for. */
  datatype Effect = RevalidateTag(tag: string) | RevalidatePath(path: string) | RevalidateRecentNews(count: int)

  /** `refreshTags.find(t => t.startsWith("recent-news="))`. */
  function FindRecentNewsArg(tags: seq<string>): (r: Option<string>)
    ensures r.None? <==> forall i | 0 <= i < |tags| :: !StartsWith(tags[i], RecentNewsFlag)
    ensures r.Some? ==> exists i | 0 <= i < |tags| :: tags[i] == r.value
                          && (forall j | 0 <= j < i :: !StartsWith(tags[j], RecentNewsFlag))
    ensures r.Some? ==> StartsWith(r.value, RecentNewsFlag)
  {
    if tags == [] then None
    else if StartsWith(tags[0], RecentNewsFlag) then Some(tags[0])
    else
      var r := FindRecentNewsArg(tags[1..]);
      if r.Some? then
        var i :| 0 <= i < |tags[1..]| && tags[1..][i] == r.value
                 && (forall j | 0 <= j < i :: !StartsWith(tags[1..][j], RecentNewsFlag));
        assert tags[i + 1] == r.value;
        r
      else r
  }

  /** The length of the longest run of decimal digits at the front of `s`. */
  function DigitPrefixLength(s: string): (n: nat)
    ensures n <= |s|
    ensures forall i | 0 <= i < n :: IsDigit(s[i])
    ensures n < |s| ==> !IsDigit(s[n])
    decreases |s|
  {
    if s != [] && IsDigit(s[0]) then 1 + DigitPrefixLength(s[1..]) else 0
  }

  /**
   * `Number.parseInt(s, 10)`: leading white space skipped, an optional sign,
   * then the longest run of digits; `None` (NaN) when there is no digit.
   */
  function ParseInt(s: string): (r: Option<int>)
  {
    var t := TrimStart(s);
    var negative := t != [] && t[0] == '-';
    var rest := if t != [] && (t[0] == '-' || t[0] == '+') then t[1..] else t;
    var n := DigitPrefixLength(rest);
    if n == 0 then None
    else
      var v: int := DigitsValue(rest[..n]);
      Some(if negative then -v else v)
  }

  lemma {:induction false} AllDigitsPrefix(s: string)
    requires forall i | 0 <= i < |s| :: IsDigit(s[i])
    ensures DigitPrefixLength(s) == |s|
    decreases |s|
  {
    if s != [] {
      AllDigitsPrefix(s[1..]);
    }
  }

  /** A run of digits parses to its value. */
  lemma ParseIntOfDigits(s: string)
    requires s != [] && forall i | 0 <= i < |s| :: IsDigit(s[i])
    ensures forall c | c in s :: IsDigit(c)
    ensures ParseInt(s) == Some(DigitsValue(s))
  {
    TrimStartOfDigit(s);
    ParseIntUnsigned(s);
    AllDigitsPrefix(s);
    assert s[..|s|] == s;
  }

  /** Text that starts with a digit parses as its leading run of digits, with no sign. */
  lemma ParseIntUnsigned(t: string)
    requires t != [] && IsDigit(t[0]) && TrimStart(t) == t
    ensures DigitPrefixLength(t) >= 1
    ensures ParseInt(t) == Some(DigitsValue(t[..DigitPrefixLength(t)]))
  {
    assert t[0] != '-' && t[0] != '+';
  }

  /** Text that starts with a digit has no leading white space to skip. */
  lemma TrimStartOfDigit(s: string)
    requires s != [] && IsDigit(s[0])
    ensures TrimStart(s) == s
  {
  }

  /** Parsing reads back what decimal rendering writes. */
  lemma ParseIntOfDecimal(n: nat)
    ensures ParseInt(NatToString(n)) == Some(n)
  {
    var s := NatToString(n);
    forall i | 0 <= i < |s| ensures IsDigit(s[i]) {
      assert s[i] in s;
    }
    ParseIntOfDigits(s);
    NatToStringRoundTrip(n);
  }

  /** The text after the flag, up to a further `=`: `arg.split("=")[1]`. */
  function CountText(arg: string): (r: string)
    requires StartsWith(arg, RecentNewsFlag)
    ensures |Split(arg, "=")| >= 2 && r == Split(arg, "=")[1]
    ensures r == Split(arg[|RecentNewsFlag|..], "=")[0]
  {
    assert OccursAt(arg, "=", 11) by { assert arg[11..12] == arg[..12][11..12]; }
    forall j | 0 <= j < 11 ensures !OccursAt(arg, "=", j) {
      assert arg[j] == RecentNewsFlag[j];
      assert arg[j..j + 1] == [arg[j]];
    }
    SplitAtFirst(arg, "=", 11);
    Split(arg, "=")[1]
  }

  /** The count of recent news to refresh: `null` without the flag, else the parsed number, 3 for NaN or 0. */
  function RecentNewsCount(tags: seq<string>): (r: Option<int>)
    ensures r.None? <==> forall i | 0 <= i < |tags| :: !StartsWith(tags[i], RecentNewsFlag)
    ensures r.Some? ==> r.value != 0
    ensures r.Some? ==>
              var p := ParseInt(CountText(FindRecentNewsArg(tags).value));
              r.value == if p.None? || p.value == 0 then DefaultRecentNews else p.value
  {
    var arg := FindRecentNewsArg(tags);
    if arg.None? then None
    else
      var p := ParseInt(CountText(arg.value));
      Some(if p.None? || p.value == 0 then DefaultRecentNews else p.value)
  }

  /** `filter(t => t !== arg)`: every copy of `arg` removed, the rest in order. */
  function Without(tags: seq<string>, arg: string): (r: seq<string>)
    ensures forall t | t in r :: t in tags && t != arg
    ensures forall t | t in tags && t != arg :: t in r
    ensures |r| <= |tags|
  {
    if tags == [] then []
    else (if tags[0] != arg then [tags[0]] else []) + Without(tags[1..], arg)
  }

  /** `tagsOrPaths`: the arguments without the recent-news flag that was found. */
  function TagsOrPaths(tags: seq<string>): (r: seq<string>)
    ensures FindRecentNewsArg(tags).None? ==> r == tags
    ensures FindRecentNewsArg(tags).Some? ==> r == Without(tags, FindRecentNewsArg(tags).value)
  {
    var arg := FindRecentNewsArg(tags);
    if arg.Some? && arg.value != "" then Without(tags, arg.value) else tags
  }

  /** Only the first recent-news flag is read; a later, different one is passed on as a cache tag. */
  lemma LaterFlagBecomesTag(first: string, later: string)
    requires StartsWith(first, RecentNewsFlag) && StartsWith(later, RecentNewsFlag) && first != later
    ensures FindRecentNewsArg([first, later]) == Some(first)
    ensures TagsOrPaths([first, later]) == [later]
    ensures Action([first, later])[1] == RevalidateTag(later)
  {
    var tags := [first, later];
    assert Without(tags, first) == [] + Without(tags[1..], first);
    assert tags[1..][1..] == [];
    assert !StartsWith(later, "/") by { assert later[0] == RecentNewsFlag[0]; }
  }

  /** The dispatch: an item starting with `/` is a path, anything else a tag. */
  function Dispatch(item: string): (e: Effect)
    ensures e.RevalidatePath? <==> StartsWith(item, "/")
    ensures e == RevalidatePath(item) || e == RevalidateTag(item)
  {
    if StartsWith(item, "/") then RevalidatePath(item) else RevalidateTag(item)
  }

  /** `revalidateMainSite`: every site tag, then every site path. */
  function MainSite(): (r: seq<Effect>)
    ensures |r| == |SiteTags| + |SitePaths|
    ensures forall i | 0 <= i < |SiteTags| :: r[i] == RevalidateTag(SiteTags[i])
    ensures forall i | 0 <= i < |SitePaths| :: r[|SiteTags| + i] == RevalidatePath(SitePaths[i])
  {
    seq(|SiteTags|, i requires 0 <= i < |SiteTags| => RevalidateTag(SiteTags[i]))
    + seq(|SitePaths|, i requires 0 <= i < |SitePaths| => RevalidatePath(SitePaths[i]))
  }

  /** `action`. */
  function Action(tags: seq<string>): (r: seq<Effect>)
    ensures tags == [] ==> r == MainSite() + [RevalidateRecentNews(DefaultRecentNews)]
    ensures tags != [] ==>
              var offset := if RecentNewsCount(tags).Some? then 1 else 0;
              |r| == offset + |TagsOrPaths(tags)|
              && forall i | 0 <= i < |TagsOrPaths(tags)| ::
                   (r[offset + i] == RevalidatePath(TagsOrPaths(tags)[i]) <==> StartsWith(TagsOrPaths(tags)[i], "/"))
                   && (r[offset + i] == RevalidateTag(TagsOrPaths(tags)[i]) <==> !StartsWith(TagsOrPaths(tags)[i], "/"))
    ensures tags != [] && RecentNewsCount(tags).Some? ==> r[0] == RevalidateRecentNews(RecentNewsCount(tags).value)
  {
    if tags == [] then MainSite() + [RevalidateRecentNews(DefaultRecentNews)]
    else
      var count := RecentNewsCount(tags);
      var items := TagsOrPaths(tags);
      (if count.Some? then [RevalidateRecentNews(count.value)] else [])
      + seq(|items|, i requires 0 <= i < |items| => Dispatch(items[i]))
  }

  /** The recent-news refresh is requested exactly when there are no arguments or one of them is the flag. */
  lemma RecentNewsRequested(tags: seq<string>)
    ensures (exists k | 0 <= k < |Action(tags)| :: Action(tags)[k].RevalidateRecentNews?)
            <==> tags == [] || exists i | 0 <= i < |tags| :: StartsWith(tags[i], RecentNewsFlag)
  {
    var r := Action(tags);
    if tags == [] {
      assert r[|r| - 1].RevalidateRecentNews?;
    } else if RecentNewsCount(tags).Some? {
      assert r[0].RevalidateRecentNews?;
    } else {
      forall k | 0 <= k < |r| ensures !r[k].RevalidateRecentNews? {
        assert r[k] == Dispatch(TagsOrPaths(tags)[k]);
      }
    }
  }

  /** The slugs kept by `filter(Boolean)`: the present, non-empty ones, in their order. */
  function TruthySlugs(slugs: seq<Option<string>>): (r: seq<string>)
    ensures forall s :: s in r <==> Some(s) in slugs && s != ""
    ensures |r| <= |slugs|
  {
    if slugs == [] then []
    else
      var rest := TruthySlugs(slugs[1..]);
      assert forall s :: Some(s) in slugs <==> Some(s) == slugs[0] || Some(s) in slugs[1..];
      if slugs[0].Some? && slugs[0].value != "" then [slugs[0].value] + rest else rest
  }

  /** Filtering keeps order: the truthy slugs of two runs of answers are those of each run, one after the other. */
  lemma {:induction false} TruthySlugsAppend(a: seq<Option<string>>, b: seq<Option<string>>)
    ensures TruthySlugs(a + b) == TruthySlugs(a) + TruthySlugs(b)
    decreases |a|
  {
    if a == [] {
      assert a + b == b;
    } else {
      assert (a + b)[0] == a[0] && (a + b)[1..] == a[1..] + b;
      TruthySlugsAppend(a[1..], b);
      if a[0].Some? && a[0].value != "" {
        assert TruthySlugs(a + b) == [a[0].value] + (TruthySlugs(a[1..]) + TruthySlugs(b));
      }
    }
  }

  /** The news path of a slug determines the slug. */
  lemma NewsPathInjective(s: string, t: string)
    requires NewsPathPrefix + "/" + s == NewsPathPrefix + "/" + t
    ensures s == t
  {
    var n := |NewsPathPrefix + "/"|;
    assert s == (NewsPathPrefix + "/" + s)[n..];
    assert t == (NewsPathPrefix + "/" + t)[n..];
  }

  /**
   * The paths of the recent articles: one `revalidatePath` under the news
   * prefix per truthy slug of the query's answer, in the answer's order.
   */
  function NewsPaths(slugs: seq<Option<string>>): (r: seq<Effect>)
    ensures |r| == |TruthySlugs(slugs)|
    ensures forall e | e in r :: e.RevalidatePath? && StartsWith(e.path, NewsPathPrefix + "/")
    ensures forall s :: (Some(s) in slugs && s != "") <==> RevalidatePath(NewsPathPrefix + "/" + s) in r
  {
    var t := TruthySlugs(slugs);
    var r := seq(|t|, i requires 0 <= i < |t| => RevalidatePath(NewsPathPrefix + "/" + t[i]));
    assert forall i | 0 <= i < |t| :: r[i].path[..|NewsPathPrefix + "/"|] == NewsPathPrefix + "/";
    forall s | RevalidatePath(NewsPathPrefix + "/" + s) in r
      ensures s in t
    {
      var i :| 0 <= i < |r| && r[i] == RevalidatePath(NewsPathPrefix + "/" + s);
      NewsPathInjective(s, t[i]);
    }
    forall s | s in t
      ensures RevalidatePath(NewsPathPrefix + "/" + s) in r
    {
      var i :| 0 <= i < |t| && t[i] == s;
      assert r[i] == RevalidatePath(NewsPathPrefix + "/" + s);
    }
    r
  }

  /** The news paths of two runs of answers are those of each run, one after the other. */
  lemma NewsPathsAppend(a: seq<Option<string>>, b: seq<Option<string>>)
    ensures NewsPaths(a + b) == NewsPaths(a) + NewsPaths(b)
  {
    TruthySlugsAppend(a, b);
  }
}
