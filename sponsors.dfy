/**
 * `fetchSponsors`: joins every sponsor with the sponsor types whose id is
 * its type id, giving each pair a sort key from the type's order and the
 * sponsor's display priority. The GraphQL query's answer is an input.
 */
module Sponsors {
  import opened Wrappers

  /** A sponsor type, as the query's `sponsorTypes` are renamed to. */
  datatype SponsorType = SponsorType(id: string, name: string, showOnHomePage: bool, order: int, logoSize: string)

  /** The logo's image data. */
  datatype Logo = Logo(width: int, height: int, url: string)

  /**
   * A sponsor of the query: `logo` is `None` when it has no logo data, and
   * `typeId` is `None` when its `Type.data` is `null` (no type assigned).
   */
  datatype SponsorData = SponsorData(id: string, name: string, link: string, logo: Option<Logo>, typeId: Option<string>,
                                     displayPriority: Option<int>)

  /** A sponsor of the result: one sponsor paired with one type. */
  datatype Sponsor = Sponsor(id: string, name: string, link: string, logo: Option<Logo>, typeId: string,
                             showOnHomePage: bool, order: int)

  const TypeWeight: int := 10000
  const DefaultPriority: int := 1000

  /** What reading `Type.data.id` of a sponsor without type data throws. */
  const NoTypeError: string := "Cannot read properties of null (reading 'id')"

  /** The comparison `st.Id == x.attributes.Type.data.id` for a sponsor with type data. */
  predicate Matches(x: SponsorData, st: SponsorType) {
    x.typeId == Some(st.id)
  }

  /** Some sponsor has no type data. */
  predicate SomeTypeless(sponsors: seq<SponsorData>) {
    exists i | 0 <= i < |sponsors| :: sponsors[i].typeId.None?
  }

  /**
   * The entry for a sponsor and its type: the type's visibility and the key
   * `order * 10000 + (priority ?? 1000)`. Its type id is the type's, which
   * is the sponsor's own whenever the two are paired.
   */
  function Pair(x: SponsorData, st: SponsorType): (s: Sponsor)
    ensures s.id == x.id && s.name == x.name && s.link == x.link && s.logo == x.logo && s.typeId == st.id
    ensures Matches(x, st) ==> Some(s.typeId) == x.typeId
    ensures s.showOnHomePage == st.showOnHomePage
    ensures s.order == st.order * TypeWeight + x.displayPriority.GetOr(DefaultPriority)
  {
    Sponsor(x.id, x.name, x.link, x.logo, st.id, st.showOnHomePage,
            st.order * TypeWeight + x.displayPriority.GetOr(DefaultPriority))
  }

  /** The entries of one sponsor: one per type with its type id, in the types' order. */
  function PairsOf(x: SponsorData, types: seq<SponsorType>): (r: seq<Sponsor>)
    ensures |r| <= |types|
    ensures x.typeId.None? ==> r == []
    ensures forall e | e in r :: exists j | 0 <= j < |types| :: Matches(x, types[j]) && e == Pair(x, types[j])
    ensures forall j | 0 <= j < |types| && Matches(x, types[j]) :: Pair(x, types[j]) in r
    decreases |types|
  {
    if types == [] then []
    else
      var init := types[..|types| - 1];
      var st := types[|types| - 1];
      assert forall j | 0 <= j < |init| :: init[j] == types[j];
      PairsOf(x, init) + (if Matches(x, st) then [Pair(x, st)] else [])
  }

  /** A sponsor whose type id matches no type (or that has none) is dropped. */
  lemma UnmatchedSponsorDropped(x: SponsorData, types: seq<SponsorType>)
    requires forall j | 0 <= j < |types| :: !Matches(x, types[j])
    ensures PairsOf(x, types) == []
  {
    if PairsOf(x, types) != [] {
      assert PairsOf(x, types)[0] in PairsOf(x, types);
    }
  }

  /** The join: the entries of each sponsor in turn, sponsors first, then types. */
  function Joined(sponsors: seq<SponsorData>, types: seq<SponsorType>): (r: seq<Sponsor>)
    decreases |sponsors|
  {
    if sponsors == [] then []
    else Joined(sponsors[..|sponsors| - 1], types) + PairsOf(sponsors[|sponsors| - 1], types)
  }

  /** Adding one sponsor at the end adds its entries at the end. */
  lemma JoinedSnoc(sponsors: seq<SponsorData>, x: SponsorData, types: seq<SponsorType>)
    ensures Joined(sponsors + [x], types) == Joined(sponsors, types) + PairsOf(x, types)
  {
    assert (sponsors + [x])[..|sponsors|] == sponsors;
  }

  /** The join of two runs of sponsors is the first run's entries followed by the second's. */
  lemma {:induction false} JoinedAppend(a: seq<SponsorData>, b: seq<SponsorData>, types: seq<SponsorType>)
    ensures Joined(a + b, types) == Joined(a, types) + Joined(b, types)
    decreases |b|
  {
    if b == [] {
      assert a + b == a;
    } else {
      var init, last := b[..|b| - 1], b[|b| - 1];
      assert b == init + [last];
      assert a + b == (a + init) + [last];
      var pairs := PairsOf(last, types);
      calc {
        Joined(a + b, types);
        Joined((a + init) + [last], types);
        { JoinedSnoc(a + init, last, types); }
        Joined(a + init, types) + pairs;
        { JoinedAppend(a, init, types); }
        Joined(a, types) + Joined(init, types) + pairs;
        { JoinedSnoc(init, last, types); }
        Joined(a, types) + Joined(b, types);
      }
    }
  }

  /** Every entry of the join is a sponsor paired with a type whose id is its type id. */
  lemma {:induction false} JoinedOnlyMatches(sponsors: seq<SponsorData>, types: seq<SponsorType>, e: Sponsor)
    requires e in Joined(sponsors, types)
    ensures exists i, j | 0 <= i < |sponsors| && 0 <= j < |types| ::
              Matches(sponsors[i], types[j]) && e == Pair(sponsors[i], types[j])
    decreases |sponsors|
  {
    var init := sponsors[..|sponsors| - 1];
    var last := sponsors[|sponsors| - 1];
    if e in Joined(init, types) {
      JoinedOnlyMatches(init, types, e);
      var i, j :| 0 <= i < |init| && 0 <= j < |types| && Matches(init[i], types[j]) && e == Pair(init[i], types[j]);
      assert sponsors[i] == init[i];
    } else {
      assert e in PairsOf(last, types);
      var j :| 0 <= j < |types| && Matches(last, types[j]) && e == Pair(last, types[j]);
      assert Matches(sponsors[|sponsors| - 1], types[j]) && e == Pair(sponsors[|sponsors| - 1], types[j]);
    }
  }

  /** Every sponsor paired with every type whose id is its type id appears in the join. */
  lemma {:induction false} JoinedAllMatches(sponsors: seq<SponsorData>, types: seq<SponsorType>, i: nat, j: nat)
    requires i < |sponsors| && j < |types| && Matches(sponsors[i], types[j])
    ensures Pair(sponsors[i], types[j]) in Joined(sponsors, types)
    decreases |sponsors|
  {
    var init := sponsors[..|sponsors| - 1];
    if i < |init| {
      assert sponsors[i] == init[i];
      JoinedAllMatches(init, types, i, j);
    }
  }

  /**
   * The inner `map` for one sponsor: appends its entry for each type of its
   * id to `acc`. Comparing a type with a sponsor that has no type data
   * throws, which happens as soon as there is a type to compare with.
   */
  method AddPairs(acc: seq<Sponsor>, x: SponsorData, types: seq<SponsorType>) returns (r: Result<seq<Sponsor>>)
    ensures r.Err? <==> types != [] && x.typeId.None?
    ensures r.Err? ==> r == Err(NoTypeError)
    ensures r.Ok? ==> r.value == acc + PairsOf(x, types)
  {
    var all := acc;
    for j := 0 to |types|
      invariant all == acc + PairsOf(x, types[..j])
      invariant j > 0 ==> x.typeId.Some?
    {
      var st := types[j];
      if x.typeId.None? {
        return Err(NoTypeError);
      }
      assert types[..j + 1][..j] == types[..j];
      if x.typeId.value == st.id {
        all := all + [Pair(x, st)];
      }
    }
    assert types[..|types|] == types;
    return Ok(all);
  }

  /**
   * The nested `map`s that grow `sponsorsAll` one matching pair at a time;
   * the fetch fails when a sponsor without type data meets at least one type.
   */
  method FetchSponsors(sponsors: seq<SponsorData>, types: seq<SponsorType>) returns (all: Result<seq<Sponsor>>)
    ensures all.Err? <==> types != [] && SomeTypeless(sponsors)
    ensures all.Err? ==> all == Err(NoTypeError)
    ensures all.Ok? ==> all.value == Joined(sponsors, types)
  {
    var acc: seq<Sponsor> := [];
    for i := 0 to |sponsors|
      invariant acc == Joined(sponsors[..i], types)
      invariant types != [] ==> forall k | 0 <= k < i :: sponsors[k].typeId.Some?
    {
      var next := AddPairs(acc, sponsors[i], types);
      if next.Err? {
        return next;
      }
      acc := next.value;
      assert sponsors[..i + 1][..i] == sponsors[..i];
    }
    assert sponsors[..|sponsors|] == sponsors;
    return Ok(acc);
  }

  /**
   * Sorting by the key groups sponsors by their type's order: with display
   * priorities from 0 up to 9999, a type of lower order always sorts first.
   */
  lemma OrderGroupsByType(x: SponsorData, st: SponsorType, y: SponsorData, su: SponsorType)
    requires st.order < su.order
    requires 0 <= x.displayPriority.GetOr(DefaultPriority) < TypeWeight
    requires 0 <= y.displayPriority.GetOr(DefaultPriority) < TypeWeight
    ensures Pair(x, st).order < Pair(y, su).order
  {
  }
}
