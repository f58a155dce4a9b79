/**
 * The player's Redux slice: the state of the radio player and its four
 * reducers, each of which updates the state in place.
 */
module PlayerSlice {
  import opened Wrappers

  const Idle: string := "IDLE"

  /** The payload of `setCastState`; `castPlayerState` is `None` when it is undefined. */
  datatype CastPayload = CastPayload(isCastAvailable: bool, isCasting: bool, isConnecting: bool,
                                     castPlayerState: Option<string>)

  class PlayerState {
    var songTitle: string
    var songUrl: string
    var isPlaying: bool
    var muted: bool
    var isCastAvailable: bool
    var isCasting: bool
    var isConnecting: bool
    var castPlayerState: string

    /** The slice's initial state: nothing playing, not muted, no cast device, cast player idle. */
    constructor ()
      ensures songTitle == "" && songUrl == ""
      ensures !isPlaying && !muted
      ensures !isCastAvailable && !isCasting && !isConnecting
      ensures castPlayerState == Idle
    {
      songTitle := "";
      songUrl := "";
      isPlaying := false;
      muted := false;
      isCastAvailable := false;
      isCasting := false;
      isConnecting := false;
      castPlayerState := Idle;
    }

    /** `setMuted`: flips `muted`, nothing else. */
    method SetMuted()
      modifies this
      ensures muted == !old(muted)
      ensures songTitle == old(songTitle) && songUrl == old(songUrl) && isPlaying == old(isPlaying)
      ensures isCastAvailable == old(isCastAvailable) && isCasting == old(isCasting)
      ensures isConnecting == old(isConnecting) && castPlayerState == old(castPlayerState)
    {
      muted := !muted;
    }

    /** `setsSongTitle`: replaces the title, nothing else. */
    method SetSongTitle(title: string)
      modifies this
      ensures songTitle == title
      ensures songUrl == old(songUrl) && isPlaying == old(isPlaying) && muted == old(muted)
      ensures isCastAvailable == old(isCastAvailable) && isCasting == old(isCasting)
      ensures isConnecting == old(isConnecting) && castPlayerState == old(castPlayerState)
    {
      songTitle := title;
    }

    /** `setPlay`: flips `isPlaying`, nothing else. */
    method SetPlay()
      modifies this
      ensures isPlaying == !old(isPlaying)
      ensures songTitle == old(songTitle) && songUrl == old(songUrl) && muted == old(muted)
      ensures isCastAvailable == old(isCastAvailable) && isCasting == old(isCasting)
      ensures isConnecting == old(isConnecting) && castPlayerState == old(castPlayerState)
    {
      isPlaying := !isPlaying;
    }

    /** `setCastState`: takes the three cast flags, and the cast player state only when the payload has one. */
    method SetCastState(payload: CastPayload)
      modifies this
      ensures isCastAvailable == payload.isCastAvailable
      ensures isCasting == payload.isCasting
      ensures isConnecting == payload.isConnecting
      ensures castPlayerState == payload.castPlayerState.GetOr(old(castPlayerState))
      ensures songTitle == old(songTitle) && songUrl == old(songUrl)
      ensures isPlaying == old(isPlaying) && muted == old(muted)
    {
      isCastAvailable := payload.isCastAvailable;
      isCasting := payload.isCasting;
      isConnecting := payload.isConnecting;
      if payload.castPlayerState.Some? {
        castPlayerState := payload.castPlayerState.value;
      }
    }

    /** Two `setMuted`s and two `setPlay`s, in any order, leave the state as it was. */
    method ToggleTwice()
      modifies this
      ensures muted == old(muted) && isPlaying == old(isPlaying)
      ensures songTitle == old(songTitle) && songUrl == old(songUrl)
      ensures isCastAvailable == old(isCastAvailable) && isCasting == old(isCasting)
      ensures isConnecting == old(isConnecting) && castPlayerState == old(castPlayerState)
    {
      SetMuted();
      SetPlay();
      SetMuted();
      SetPlay();
    }

    /** A cast update without a player state keeps the last one known. */
    method CastUpdateKeepsPlayerState(first: CastPayload, second: CastPayload)
      requires second.castPlayerState.None?
      modifies this
      ensures castPlayerState == first.castPlayerState.GetOr(old(castPlayerState))
      ensures isCasting == second.isCasting
    {
      SetCastState(first);
      SetCastState(second);
    }
  }

  /** An action of the slice, as dispatched to its reducer. */
  datatype Action = Mute | Title(title: string) | Play | Cast(payload: CastPayload)

  /**
   * The reducer over a run of actions: no reducer ever sets `songUrl`, and
   * the title is the one the last `setsSongTitle` carried.
   */
  method Dispatch(state: PlayerState, actions: seq<Action>)
    modifies state
    ensures state.songUrl == old(state.songUrl)
    ensures state.songTitle == (if exists i | 0 <= i < |actions| :: actions[i].Title?
                                then LastTitle(actions) else old(state.songTitle))
  {
    for k := 0 to |actions|
      invariant state.songUrl == old(state.songUrl)
      invariant state.songTitle == (if exists i | 0 <= i < k :: actions[i].Title?
                                    then LastTitle(actions[..k]) else old(state.songTitle))
    {
      assert actions[..k + 1][..k] == actions[..k];
      match actions[k]
      case Mute => state.SetMuted();
      case Title(t) => state.SetSongTitle(t);
      case Play => state.SetPlay();
      case Cast(p) => state.SetCastState(p);
    }
    assert actions[..|actions|] == actions;
  }

  /** The title of the last `setsSongTitle` among the actions. */
  function LastTitle(actions: seq<Action>): (t: string)
    requires exists i | 0 <= i < |actions| :: actions[i].Title?
    ensures exists i | 0 <= i < |actions| :: actions[i] == Title(t)
                && forall j | i < j < |actions| :: !actions[j].Title?
  {
    var n := |actions| - 1;
    if actions[n].Title? then actions[n].title
    else
      var i :| 0 <= i < |actions| && actions[i].Title?;
      assert i < n;
      assert actions[..n][i] == actions[i];
      var t := LastTitle(actions[..n]);
      var j :| 0 <= j < n && actions[..n][j] == Title(t) && forall m | j < m < n :: !actions[..n][m].Title?;
      assert actions[j] == Title(t);
      t
  }
}
