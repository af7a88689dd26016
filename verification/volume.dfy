/** The `volume` command. */
module Volume {
  import opened MusicTypes

  /** The largest volume, in percent, the command accepts. */
  const MaxVolume := 200

  datatype VolumeReply =
    | CurrentVolume(percent: int)  // no value given: the stored volume is reported
    | TooLoud                      // the value is over the maximum
    | VolumeSet(percent: int)      // stored and applied to the running player
    | Stored                       // stored silently; nothing is playing

  /** With no value the stored volume is reported; a value over 200 is refused
      and changes nothing; any other value, negative ones included, is stored,
      and announced only when a track is playing. */
  function SetVolume(s: VoiceState, value: Option<int>): (o: Outcome<VolumeReply>)
    // Only the volume can change, and only to the requested value.
    ensures o.state == s.(volume := o.state.volume)
    ensures o.state.volume != s.volume ==> value == Some(o.state.volume)
    ensures value.None? ==> o.reply == CurrentVolume(s.volume) && o.state == s
    ensures value.Some? ==> (o.reply == TooLoud <==> value.value > MaxVolume)
    ensures o.reply == TooLoud ==> o.state == s
    ensures value.Some? && value.value <= MaxVolume ==> o.state.volume == value.value
    ensures o.reply.VolumeSet? <==> value.Some? && value.value <= MaxVolume && IsPlaying(s)
    ensures o.reply.VolumeSet? ==> o.reply.percent == value.value
    ensures value.Some? && value.value <= MaxVolume && !IsPlaying(s) ==> o.reply == Stored
  {
    match value
    case None => Outcome(s, CurrentVolume(s.volume))
    case Some(v) =>
      if v > MaxVolume then Outcome(s, TooLoud)
      else
        var t := s.(volume := v);
        Outcome(t, if IsPlaying(s) then VolumeSet(v) else Stored)
  }

  /** 201 is refused; 200, 0 and -5 are all stored. */
  lemma SetVolumeBoundary(s: VoiceState)
    ensures SetVolume(s, Some(201)).reply == TooLoud && SetVolume(s, Some(201)).state == s
    ensures SetVolume(s, Some(200)).state.volume == 200
    ensures SetVolume(s, Some(0)).state.volume == 0
    ensures SetVolume(s, Some(-5)).state.volume == -5
  {
  }

  /** The stored volume never exceeds the maximum once it starts within it. */
  lemma SetVolumeKeepsBound(s: VoiceState, value: Option<int>)
    requires s.volume <= MaxVolume
    ensures SetVolume(s, value).state.volume <= MaxVolume
  {
  }
}
