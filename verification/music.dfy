/** The music player: a fixed playlist, the index of the current track, a
    play flag and a progress position. The audio element itself is not
    modelled; `hasAudio` records whether it is mounted. */
module Music {

  datatype Track = Track(id: nat, title: string, artist: string, url: string)

  /** The playlist. */
  function Tracks(): (ts: seq<Track>)
    ensures |ts| == 3
  {
    [
      Track(1, "Chill Vibes", "Lofi Artist", "https://www.soundjay.com/misc/sounds/coffee-shop-ambience.mp3"),
      Track(2, "Focus Flow", "Study Beats", "https://www.soundjay.com/misc/sounds/rain-on-tent.mp3"),
      Track(3, "Peaceful Moments", "Ambient Master", "https://www.soundjay.com/misc/sounds/forest-birds.mp3")
    ]
  }

  datatype Player = Player(current: nat, playing: bool, progress: real, hasAudio: bool)

  /** The current index names a track of the playlist. */
  predicate Valid(p: Player) {
    p.current < |Tracks()|
  }

  /** On mount: the first track, stopped, at the start. */
  function Initial(hasAudio: bool): (p: Player)
    ensures Valid(p) && p.current == 0 && !p.playing && p.progress == 0.0
  {
    Player(0, false, 0.0, hasAudio)
  }

  /** The next button: on to the following track, wrapping from the last to
      the first, with progress back at zero. The operands are never negative,
      so JavaScript's `%` and Dafny's agree. */
  function Next(p: Player): (r: Player)
    ensures Valid(r)
    ensures Valid(p) ==> r.current == if p.current + 1 < |Tracks()| then p.current + 1 else 0
    ensures r.progress == 0.0 && r.playing == p.playing && r.hasAudio == p.hasAudio
  {
    p.(current := (p.current + 1) % |Tracks()|, progress := 0.0)
  }

  /** The previous button: back to the preceding track, wrapping from the
      first to the last, with progress back at zero. */
  function Prev(p: Player): (r: Player)
    ensures Valid(r)
    ensures Valid(p) ==> r.current == if p.current > 0 then p.current - 1 else |Tracks()| - 1
    ensures r.progress == 0.0 && r.playing == p.playing && r.hasAudio == p.hasAudio
  {
    p.(current := (p.current - 1 + |Tracks()|) % |Tracks()|, progress := 0.0)
  }

  /** The play/pause button: flips the play flag, but only while an audio
      element is mounted. */
  function TogglePlay(p: Player): (r: Player)
    ensures !p.hasAudio ==> r == p
    ensures p.hasAudio ==> r == p.(playing := !p.playing)
    ensures r.current == p.current && r.progress == p.progress
  {
    if p.hasAudio then p.(playing := !p.playing) else p
  }

  /** The audio element's `ended` event. */
  function Ended(p: Player): (r: Player)
    ensures r == Next(p)
    ensures Valid(p) && p.current + 1 == |Tracks()| ==> r.current == 0
  {
    Next(p)
  }

  /** Previous undoes next, and next undoes previous. */
  lemma NextPrevInverse(p: Player)
    requires Valid(p)
    ensures Prev(Next(p)).current == p.current
    ensures Next(Prev(p)).current == p.current
  {
  }

  /** `k` presses of next. */
  function NextN(p: Player, k: nat): Player
    decreases k
  {
    if k == 0 then p else NextN(Next(p), k - 1)
  }

  /** `k` presses of next move `k` places round the playlist. */
  lemma {:induction false} NextNMoves(p: Player, k: nat)
    requires Valid(p)
    ensures NextN(p, k).current == (p.current + k) % |Tracks()|
    decreases k
  {
    if k > 0 {
      NextNMoves(Next(p), k - 1);
      ModAddOne(p.current, k - 1);
    }
  }

  /** Wrapping after one step and then moving `k` more is moving `k + 1`. */
  lemma ModAddOne(i: nat, k: nat)
    requires i < |Tracks()|
    ensures ((i + 1) % |Tracks()| + k) % |Tracks()| == (i + 1 + k) % |Tracks()|
  {
  }

  /** As many presses of next as there are tracks come back to the start. */
  lemma FullRound(p: Player)
    requires Valid(p)
    ensures NextN(p, |Tracks()|).current == p.current
  {
    NextNMoves(p, |Tracks()|);
  }

  datatype Control = NextButton | PrevButton | PlayButton | TrackEnded

  function Apply(p: Player, c: Control): Player {
    match c
    case NextButton => Next(p)
    case PrevButton => Prev(p)
    case PlayButton => TogglePlay(p)
    case TrackEnded => Ended(p)
  }

  function ApplyAll(p: Player, cs: seq<Control>): Player
    decreases |cs|
  {
    if |cs| == 0 then p else ApplyAll(Apply(p, cs[0]), cs[1..])
  }

  /** No sequence of controls takes the index outside the playlist. */
  lemma {:induction false} ControlsKeepValid(p: Player, cs: seq<Control>)
    requires Valid(p)
    ensures Valid(ApplyAll(p, cs))
    decreases |cs|
  {
    if |cs| > 0 {
      ControlsKeepValid(Apply(p, cs[0]), cs[1..]);
    }
  }
}
