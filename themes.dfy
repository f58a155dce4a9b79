/**
 * The site's themes: the Carnaval Radio theme and the Oktoberfest Radio
 * theme, chosen by slug with Carnaval Radio as the default.
 */
module Themes {
  import opened Wrappers

  /** A theme, by its slug and display name; its colours are not modelled. */
  datatype Theme = Theme(slug: string, name: string)

  const CarnavalRadio: Theme := Theme("carnaval", "Carnaval Radio")
  const OktoberfestRadio: Theme := Theme("oktoberfest", "Oktoberfest Radio")
  const AllThemes: seq<Theme> := [CarnavalRadio, OktoberfestRadio]

  /** `themes.find(theme => theme.slug === slug)`: the first theme with the slug. */
  function Find(themes: seq<Theme>, slug: string): (r: Option<Theme>)
    ensures r.None? <==> forall i | 0 <= i < |themes| :: themes[i].slug != slug
    ensures r.Some? ==> exists i | 0 <= i < |themes| :: themes[i] == r.value
                          && (forall j | 0 <= j < i :: themes[j].slug != slug)
    ensures r.Some? ==> r.value.slug == slug
  {
    if themes == [] then None
    else if themes[0].slug == slug then Some(themes[0])
    else
      var r := Find(themes[1..], slug);
      if r.Some? then
        var i :| 0 <= i < |themes[1..]| && themes[1..][i] == r.value
                 && (forall j | 0 <= j < i :: themes[1..][j].slug != slug);
        assert themes[i + 1] == r.value;
        r
      else r
  }

  /** `getThemeOrDefault`: a missing or empty slug means `carnaval`; an unknown one gives the first theme. */
  function GetThemeOrDefault(slug: Option<string>): (t: Theme)
    ensures t in AllThemes
    ensures slug.None? || slug.value == "" ==> t == CarnavalRadio
    ensures slug.Some? && slug.value != "" && (exists i | 0 <= i < |AllThemes| :: AllThemes[i].slug == slug.value)
            ==> t.slug == slug.value
    ensures slug.Some? && (forall i | 0 <= i < |AllThemes| :: AllThemes[i].slug != slug.value) ==> t == CarnavalRadio
  {
    var selected := if slug.None? || slug.value == "" then "carnaval" else slug.value;
    var found := Find(AllThemes, selected);
    if found.Some? then found.value else AllThemes[0]
  }

  /** Each theme is chosen by its own slug, so the slugs name the themes one to one. */
  lemma ThemeBySlug(t: Theme)
    requires t in AllThemes
    ensures GetThemeOrDefault(Some(t.slug)) == t
  {
  }
}
