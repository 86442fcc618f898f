/** The simulcast configuration of a local video track (camera or
    screencast): whether simulcast is on and which quality encodings are
    currently sent, and the pure part of `toggleTrackEncoding`. */
module Simulcast {
  import opened Common

  /** The three simulcast qualities: low, medium, high. */
  datatype TrackEncoding = L | M | H

  datatype SimulcastConfig = SimulcastConfig(enabled: bool, activeEncodings: seq<TrackEncoding>)

  /** The camera track starts with simulcast on and all three encodings. */
  const InitialVideoConfig := SimulcastConfig(true, [L, M, H])

  /** The screencast track starts with simulcast off and no encodings. */
  const InitialScreencastConfig := SimulcastConfig(false, [])

  /** The configuration published after toggling `e`: an active encoding is
      removed (every occurrence), an inactive one is appended, and the
      result always says simulcast is enabled. */
  function Toggle(c: SimulcastConfig, e: TrackEncoding): (r: SimulcastConfig)
    ensures r.enabled
    ensures forall x :: x in r.activeEncodings <==> (x in c.activeEncodings <==> x != e)
    ensures e !in c.activeEncodings ==> r.activeEncodings[..|r.activeEncodings| - 1] == c.activeEncodings
    ensures NoDuplicates(c.activeEncodings) ==> NoDuplicates(r.activeEncodings)
  {
    if e in c.activeEncodings then
      SimulcastConfig(true, Without(c.activeEncodings, e))
    else
      var added := c.activeEncodings + [e];
      assert NoDuplicates(c.activeEncodings) ==> NoDuplicates(added);
      SimulcastConfig(true, added)
  }

  /** Toggling the same encoding twice restores the set of active encodings;
      when the encoding was inactive, it restores the very sequence. */
  lemma ToggleTwice(c: SimulcastConfig, e: TrackEncoding)
    ensures Toggle(Toggle(c, e), e).enabled
    ensures forall x :: x in Toggle(Toggle(c, e), e).activeEncodings <==> x in c.activeEncodings
    ensures e !in c.activeEncodings ==> Toggle(Toggle(c, e), e).activeEncodings == c.activeEncodings
  {
    if e !in c.activeEncodings {
      WithoutAppended(c.activeEncodings, e);
    }
  }
}
