/**
 * The sidebar's `formatPath`: the last non-empty segment of a path, which
 * the sidebar compares with a link's own last segment.
 */
module Sidebar {
  import opened Strings

  /** Keeping the non-empty parts keeps none only when every part is empty. */
  lemma {:induction false} NoneKeptOnlyWhenAllEmpty(parts: seq<string>)
    ensures NonEmpty(parts) == [] <==> forall i | 0 <= i < |parts| :: parts[i] == ""
    decreases |parts|
  {
    if parts != [] {
      NoneKeptOnlyWhenAllEmpty(parts[1..]);
      assert forall i | 1 <= i < |parts| :: parts[i] == parts[1..][i - 1];
    }
  }

  /** The last part kept is a part after which only empty parts follow. */
  lemma {:induction false} LastKeptIsLastNonEmpty(parts: seq<string>)
    requires NonEmpty(parts) != []
    ensures exists i | 0 <= i < |parts| ::
              parts[i] == NonEmpty(parts)[|NonEmpty(parts)| - 1] && forall j | i < j < |parts| :: parts[j] == ""
    decreases |parts|
  {
    var rest := parts[1..];
    if NonEmpty(rest) != [] {
      LastKeptIsLastNonEmpty(rest);
      var i :| 0 <= i < |rest| && rest[i] == NonEmpty(rest)[|NonEmpty(rest)| - 1]
               && forall j | i < j < |rest| :: rest[j] == "";
      assert NonEmpty(parts)[|NonEmpty(parts)| - 1] == NonEmpty(rest)[|NonEmpty(rest)| - 1];
      assert forall j | i + 1 < j < |parts| :: parts[j] == rest[j - 1];
      assert parts[i + 1] == rest[i];
    } else {
      NoneKeptOnlyWhenAllEmpty(rest);
      assert NonEmpty(parts) == [parts[0]];
      assert forall j | 0 < j < |parts| :: parts[j] == rest[j - 1];
    }
  }

  /** `formatPath`: `""` for an empty path, else the last non-empty `/`-separated segment, or `""` if none. */
  function FormatPath(p: string): (r: string)
    ensures '/' !in r
    ensures r == "" <==> forall i | 0 <= i < |Split(p, "/")| :: Split(p, "/")[i] == ""
    ensures r != "" ==> r in Split(p, "/")
    ensures r != "" ==> exists i | 0 <= i < |Split(p, "/")| ::
              Split(p, "/")[i] == r && forall j | i < j < |Split(p, "/")| :: Split(p, "/")[j] == ""
  {
    if p == "" then ""
    else
      var segments := NonEmpty(Split(p, "/"));
      NoneKeptOnlyWhenAllEmpty(Split(p, "/"));
      if |segments| > 0 then
        var r := segments[|segments| - 1];
        assert r in segments;
        LastKeptIsLastNonEmpty(Split(p, "/"));
        SplitPartsAvoidSeparator(p, '/');
        r
      else ""
  }

  /** A formatted path is its own format: formatting twice is formatting once. */
  lemma FormatPathIdempotent(p: string)
    ensures FormatPath(FormatPath(p)) == FormatPath(p)
  {
    var r := FormatPath(p);
    if r != "" {
      forall j ensures !OccursAt(r, "/", j) {
        if 0 <= j && j + 1 <= |r| {
          assert r[j..j + 1] == [r[j]];
        }
      }
      SplitWithoutSeparator(r, "/");
      assert NonEmpty([r]) == [r] + NonEmpty([]);
    }
  }

  /** `n` slashes. */
  function Slashes(n: nat): (s: string)
    ensures |s| == n && forall i | 0 <= i < n :: s[i] == '/'
  {
    seq(n, _ => '/')
  }

  /** Splitting slashes at `/` gives only empty parts. */
  lemma {:induction false} SlashesSplitEmpty(n: nat)
    ensures forall part | part in Split(Slashes(n), "/") :: part == ""
  {
    var p := Slashes(n);
    if n > 0 {
      assert p[..1] == "/";
      assert p[1..] == Slashes(n - 1);
      SlashesSplitEmpty(n - 1);
    }
  }

  /** A path of slashes only, such as the root `/`, formats to the empty segment. */
  lemma RootFormatsEmpty(n: nat)
    ensures FormatPath(Slashes(n)) == ""
  {
    SlashesSplitEmpty(n);
  }
}
