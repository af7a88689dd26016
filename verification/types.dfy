/** The per-guild state of the music cog, reduced to the values its command
    handlers decide on: the voice channel the bot holds, the track the audio
    worker is on, the queue behind it, the skip-vote tally and the volume. */
module MusicTypes {

  datatype Option<T> = None | Some(value: T)

  type UserId = nat
  type ChannelId = nat
  type GuildId = nat

  /** One queued request: who asked for it and how long it lasts, in whole seconds. */
  datatype Entry = Entry(requester: UserId, duration: int)

  /** The entry the audio worker has taken off the queue. `active` holds while
      its player exists and has not finished: it is false while the entry is
      still downloading, and again once the player ends or a skip stops it. */
  datatype Current = Current(entry: Entry, active: bool)

  datatype VoiceState = VoiceState(
    voice: Option<ChannelId>,
    current: Option<Current>,
    songs: seq<Entry>,
    requiredSkips: int,
    skipVotes: set<UserId>,
    volume: int)

  /** Volume, in percent, of a freshly created guild state. */
  const DefaultVolume := 50

  /** The state a guild gets on first use: not connected, nothing queued,
      no votes, a skip quota of zero. */
  function NewVoiceState(): (s: VoiceState)
    ensures s.voice.None? && s.current.None? && s.songs == []
    ensures s.skipVotes == {} && s.requiredSkips == 0 && s.volume == DefaultVolume
    ensures !IsPlaying(s)
  {
    VoiceState(None, None, [], 0, {}, DefaultVolume)
  }

  /** Connected, with a current entry whose player is running. Without a
      voice client, without a current entry, or while the current entry has
      no running player (still downloading, ended, or stopped), nothing plays. */
  predicate IsPlaying(s: VoiceState)
    ensures IsPlaying(s) ==> s.voice.Some? && s.current.Some?
    ensures s.current.Some? && !s.current.value.active ==> !IsPlaying(s)
  {
    s.voice.Some? && s.current.Some? && s.current.value.active
  }

  /** A state change together with the reply the command sends back. */
  datatype Outcome<R> = Outcome(state: VoiceState, reply: R)
}
