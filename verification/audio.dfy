/** The audio manager: three named sound handles and a global mute flag.
    A handle stands for a browser audio element, reduced to the fields the
    manager reads or writes. Whether the browser accepts a `play()` request
    is not under the manager's control and is a parameter. */
module Audio {

  /** An audio element: playback position, paused flag, muted flag, looping
      flag and volume. */
  datatype Handle = Handle(currentTime: real, paused: bool, muted: bool, loop: bool, volume: real)

  /** A freshly created element: at the start, paused, not muted, not
      looping, full volume. */
  const Fresh := Handle(0.0, true, false, false, 1.0)

  datatype Manager = Manager(sounds: map<string, Handle>, isMuted: bool)

  /** How the browser settles a `play()` request. */
  datatype PlayOutcome = Played | Rejected

  const Hover: string := "hover"
  const Click: string := "click"
  const Bgm: string := "bgm"

  /** A new manager: exactly the three sounds, only the music looping, the
      music at 0.3, hover at 0.2, click at 0.3, and nothing muted. */
  function New(): (m: Manager)
    ensures m.sounds.Keys == {Hover, Click, Bgm}
    ensures !m.isMuted && Consistent(m)
    ensures forall n :: n in m.sounds ==> (m.sounds[n].loop <==> n == Bgm)
    ensures m.sounds[Bgm].volume == 0.3 && m.sounds[Hover].volume == 0.2 && m.sounds[Click].volume == 0.3
    ensures forall n :: n in m.sounds ==> m.sounds[n].paused && m.sounds[n].currentTime == 0.0
  {
    Manager(map[Hover := Fresh.(volume := 0.2),
                Click := Fresh.(volume := 0.3),
                Bgm := Fresh.(loop := true, volume := 0.3)],
            false)
  }

  /** Every handle's muted flag agrees with the manager's. */
  predicate Consistent(m: Manager)
  {
    forall n :: n in m.sounds ==> m.sounds[n].muted == m.isMuted
  }

  /** The element after `play()`: playing if the browser accepts it,
      otherwise as it was. */
  function Play(h: Handle, o: PlayOutcome): Handle
  {
    match o
    case Played => h.(paused := false)
    case Rejected => h
  }

  /** Plays a known sound unless muted. Effects restart from the beginning;
      the music resumes where it was. A rejected request is swallowed: the
      call completes and only the rewind remains. */
  function PlaySound(m: Manager, name: string, o: PlayOutcome): (r: Manager)
    ensures m.isMuted || name !in m.sounds ==> r == m
    ensures r.isMuted == m.isMuted && r.sounds.Keys == m.sounds.Keys
    ensures forall n :: n in m.sounds && n != name ==> r.sounds[n] == m.sounds[n]
    ensures !m.isMuted && name in m.sounds ==>
      r.sounds[name].currentTime == (if name == Bgm then m.sounds[name].currentTime else 0.0)
      && r.sounds[name].paused == (o == Rejected && m.sounds[name].paused)
      && r.sounds[name].muted == m.sounds[name].muted
      && r.sounds[name].loop == m.sounds[name].loop
      && r.sounds[name].volume == m.sounds[name].volume
  {
    if !m.isMuted && name in m.sounds then
      var h := m.sounds[name];
      var rewound := if name != Bgm then h.(currentTime := 0.0) else h;
      m.(sounds := m.sounds[name := Play(rewound, o)])
    else m
  }

  /** Pauses a known sound and rewinds it; an unknown name changes nothing.
      The mute flag does not matter. */
  function StopSound(m: Manager, name: string): (r: Manager)
    ensures name !in m.sounds ==> r == m
    ensures r.isMuted == m.isMuted && r.sounds.Keys == m.sounds.Keys
    ensures forall n :: n in m.sounds && n != name ==> r.sounds[n] == m.sounds[n]
    ensures name in m.sounds ==>
      r.sounds[name] == m.sounds[name].(paused := true, currentTime := 0.0)
  {
    if name in m.sounds then
      m.(sounds := m.sounds[name := m.sounds[name].(paused := true).(currentTime := 0.0)])
    else m
  }

  /** Starts the music: when not muted and the music exists, it plays from
      where it was and no other sound is touched. */
  function StartBgm(m: Manager, o: PlayOutcome): (r: Manager)
    ensures m.isMuted || Bgm !in m.sounds ==> r == m
    ensures r.isMuted == m.isMuted && r.sounds.Keys == m.sounds.Keys
    ensures forall n :: n in m.sounds && n != Bgm ==> r.sounds[n] == m.sounds[n]
    ensures !m.isMuted && Bgm in m.sounds ==>
      r.sounds[Bgm] == m.sounds[Bgm].(paused := o == Rejected && m.sounds[Bgm].paused)
  {
    PlaySound(m, Bgm, o)
  }

  /** Flips the mute flag, copies it onto every handle and returns it. */
  function ToggleMute(m: Manager): (r: (Manager, bool))
    ensures r.1 == !m.isMuted && r.0.isMuted == r.1
    ensures r.0.sounds.Keys == m.sounds.Keys
    ensures Consistent(r.0)
    ensures forall n :: n in m.sounds ==> r.0.sounds[n] == m.sounds[n].(muted := r.1)
  {
    var muted := !m.isMuted;
    (Manager(map n | n in m.sounds :: m.sounds[n].(muted := muted), muted), muted)
  }

  // ---------------------------------------------------------------------
  // Properties across calls

  /** Toggling twice restores the flag and, when the handles agreed with
      it, the whole manager. */
  lemma ToggleTwice(m: Manager)
    ensures ToggleMute(ToggleMute(m).0).1 == m.isMuted
    ensures Consistent(m) ==> ToggleMute(ToggleMute(m).0).0 == m
  {
    var r := ToggleMute(ToggleMute(m).0).0;
    if Consistent(m) {
      assert r.sounds.Keys == m.sounds.Keys;
      forall n | n in m.sounds
        ensures r.sounds[n] == m.sounds[n]
      {
      }
      assert r.sounds == m.sounds;
    }
  }

  /** Every operation keeps the handles in agreement with the flag. */
  lemma OperationsKeepConsistent(m: Manager, name: string, o: PlayOutcome)
    requires Consistent(m)
    ensures Consistent(PlaySound(m, name, o))
    ensures Consistent(StopSound(m, name))
    ensures Consistent(StartBgm(m, o))
    ensures Consistent(ToggleMute(m).0)
  {
  }

  /** A rejected request and an accepted one leave the same manager except
      for the requested sound's paused flag. */
  lemma RejectionSwallowed(m: Manager, name: string)
    ensures PlaySound(m, name, Rejected).isMuted == PlaySound(m, name, Played).isMuted
    ensures PlaySound(m, name, Rejected).sounds.Keys == PlaySound(m, name, Played).sounds.Keys
    ensures forall n :: n in m.sounds ==>
      PlaySound(m, name, Rejected).sounds[n]
        == PlaySound(m, name, Played).sounds[n].(paused := PlaySound(m, name, Rejected).sounds[n].paused)
  {
  }

  /** Stopping a sound undoes whatever playing it did, and stopping twice
      is stopping once. */
  lemma StopAfterPlay(m: Manager, name: string, o: PlayOutcome)
    ensures StopSound(PlaySound(m, name, o), name) == StopSound(m, name)
    ensures StopSound(StopSound(m, name), name) == StopSound(m, name)
  {
    var a := StopSound(PlaySound(m, name, o), name);
    var b := StopSound(m, name);
    assert a.sounds.Keys == b.sounds.Keys;
    forall n | n in a.sounds
      ensures a.sounds[n] == b.sounds[n]
    {
    }
    assert a.sounds == b.sounds;
    var c := StopSound(b, name);
    assert c.sounds.Keys == b.sounds.Keys;
    forall n | n in c.sounds
      ensures c.sounds[n] == b.sounds[n]
    {
    }
    assert c.sounds == b.sounds;
  }

  /** The music is never rewound by playing: every play call leaves its
      position where it was. */
  lemma MusicNeverRewound(m: Manager, name: string, o: PlayOutcome)
    requires Bgm in m.sounds
    ensures PlaySound(m, name, o).sounds[Bgm].currentTime == m.sounds[Bgm].currentTime
  {
  }

  /** Toggling mute touches nothing but the muted flags: positions, paused
      flags, looping and volumes are as they were. */
  lemma ToggleKeepsPlayback(m: Manager)
    ensures forall n :: n in m.sounds ==>
      var h := ToggleMute(m).0.sounds[n];
      h.currentTime == m.sounds[n].currentTime && h.paused == m.sounds[n].paused
      && h.loop == m.sounds[n].loop && h.volume == m.sounds[n].volume
  {
  }
}
