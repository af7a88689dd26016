/** The cog's map from guild id to guild state, and the commands that
    create, connect, replace or drop an entry of it. */
module Registry {
  import opened MusicTypes
  import opened PlayInput
  import Lifecycle

  type Music = map<GuildId, VoiceState>

  datatype Lookup = Lookup(music: Music, state: VoiceState)

  /** The guild's state, created with the defaults on first use. */
  function GetVoiceState(m: Music, g: GuildId): (l: Lookup)
    ensures g in l.music && l.music[g] == l.state
    ensures l.music.Keys == m.Keys + {g}
    ensures forall h :: h in m ==> l.music[h] == m[h]
    ensures g !in m ==> l.state == NewVoiceState()
  {
    if g in m then Lookup(m, m[g]) else Lookup(m[g := NewVoiceState()], NewVoiceState())
  }

  /** Looking a guild up a second time finds what the first lookup left. */
  lemma GetVoiceStateIdempotent(m: Music, g: GuildId)
    ensures GetVoiceState(GetVoiceState(m, g).music, g) == GetVoiceState(m, g)
  {
  }

  datatype Teardown = Teardown(music: Music, disconnect: Option<ChannelId>)

  /** The `stop` command: the guild's state is dropped (after stopping its
      player and cancelling its worker) and its voice client, if any, is
      disconnected. Every other guild is untouched. */
  function Stop(m: Music, g: GuildId): (t: Teardown)
    ensures g !in t.music
    ensures t.music.Keys == m.Keys - {g}
    ensures forall h :: h in t.music ==> t.music[h] == m[h]
    ensures t.disconnect.Some? ==> g in m && m[g].voice == t.disconnect
    ensures g in m && m[g].voice.Some? ==> t.disconnect == m[g].voice
  {
    var l := GetVoiceState(m, g);
    Teardown(l.music - {g}, l.state.voice)
  }

  /** After `stop` the guild starts over from the defaults. */
  lemma StopThenGetIsFresh(m: Music, g: GuildId)
    ensures GetVoiceState(Stop(m, g).music, g).state == NewVoiceState()
  {
  }

  datatype JoinAction =
    | Connect               // no voice client in the guild: join
    | Reuse                 // the client is already in the channel: keep it
    | Reconnect(from: ChannelId)  // the client is elsewhere: disconnect, then join

  datatype Join = Join(music: Music, action: JoinAction)

  /** Makes the bot hold a voice client in `channel`, given the channel of
      the guild's existing client as the platform reports it. */
  function CreateVoiceClient(m: Music, g: GuildId, platform: Option<ChannelId>, channel: ChannelId): (j: Join)
    ensures g in j.music && j.music[g].voice == Some(channel)
    ensures j.music[g] == GetVoiceState(m, g).state.(voice := Some(channel))
    ensures j.music.Keys == m.Keys + {g}
    ensures forall h :: h in m && h != g ==> j.music[h] == m[h]
    ensures j.action == Connect <==> platform.None?
    ensures j.action == Reuse <==> platform == Some(channel)
    ensures j.action.Reconnect? <==> platform.Some? && platform.value != channel
    ensures j.action.Reconnect? ==> j.action.from == platform.value
  {
    var l := GetVoiceState(m, g);
    var joined := l.music[g := l.state.(voice := Some(channel))];
    match platform
    case None => Join(joined, Connect)
    case Some(c) => if c == channel then Join(joined, Reuse) else Join(joined, Reconnect(c))
  }

  /** Joining the channel the bot is already in reuses the client and changes nothing. */
  lemma CreateVoiceClientIdempotent(m: Music, g: GuildId, platform: Option<ChannelId>, channel: ChannelId)
    ensures var j := CreateVoiceClient(m, g, platform, channel);
      && CreateVoiceClient(j.music, g, Some(channel), channel) == Join(j.music, Reuse)
  {
  }

  /** Joining a channel has the same effect on the guild map as delivering
      the `Connected` event of the guild's life cycle. */
  lemma CreateVoiceClientIsConnected(m: Music, g: GuildId, platform: Option<ChannelId>, channel: ChannelId)
    ensures CreateVoiceClient(m, g, platform, channel).music == Dispatch(m, g, Lifecycle.Connected(channel))
  {
  }

  datatype PlayReply =
    | SourceRefused      // the query names SoundCloud
    | NotInVoiceChannel  // not connected, and the requester is in no voice channel
    | QueueFull
    | NotInOurChannel    // the requester is not in the bot's channel
    | Resolve(query: string)  // the cleaned query goes to the resolver

  datatype PlayRequest = PlayRequest(music: Music, reply: PlayReply)

  /** The checks `play` makes before handing a query to the resolver, in the
      code's order: the SoundCloud refusal (before the guild state is even
      looked up), joining the requester's channel when not connected, the
      full queue, the requester being in the bot's channel, then the clean-up. */
  function Play(m: Music, g: GuildId, song: string, author: Option<ChannelId>, platform: Option<ChannelId>, full: bool): (p: PlayRequest)
    ensures RefusedSource(song) <==> p.reply == SourceRefused
    ensures p.reply == SourceRefused ==> p.music == m
    ensures p.reply != SourceRefused ==> g in p.music && p.music.Keys == m.Keys + {g}
    ensures p.reply != SourceRefused ==> forall h :: h in m && h != g ==> p.music[h] == m[h]
    ensures p.reply != SourceRefused ==>
      var before := GetVoiceState(m, g).state;
      && p.music[g] == before.(voice := p.music[g].voice)
      && (before.voice.Some? ==> p.music[g].voice == before.voice)
      && (before.voice.None? && author.Some? ==> p.music[g].voice == author)
      && (p.reply == NotInVoiceChannel <==> before.voice.None? && author.None?)
      && (p.reply == NotInVoiceChannel ==> p.music[g] == before)
      && (p.reply.Resolve? <==> author.Some? && !full && (before.voice.None? || before.voice == author))
    ensures p.reply == QueueFull <==> !RefusedSource(song) && (GetVoiceState(m, g).state.voice.Some? || author.Some?) && full
    ensures p.reply == NotInOurChannel <==>
      && !RefusedSource(song) && !full
      && GetVoiceState(m, g).state.voice.Some? && GetVoiceState(m, g).state.voice != author
    ensures p.reply.Resolve? ==>
      && author.Some? && p.music[g].voice == author
      && p.reply.query == Sanitize(song)
      && Clean(p.reply.query)
  {
    if RefusedSource(song) then PlayRequest(m, SourceRefused)
    else
      var l := GetVoiceState(m, g);
      if l.state.voice.None? && author.None? then PlayRequest(l.music, NotInVoiceChannel)
      else
        var music := if l.state.voice.None? then CreateVoiceClient(l.music, g, platform, author.value).music else l.music;
        if full then PlayRequest(music, QueueFull)
        else if music[g].voice != author then PlayRequest(music, NotInOurChannel)
        else PlayRequest(music, Resolve(Sanitize(song)))
  }

  /** A guild event as a command handler delivers it: the state is looked up
      (and created if need be), then changed. */
  function Dispatch(m: Music, g: GuildId, e: Lifecycle.Event): (r: Music)
    ensures g in r && r.Keys == m.Keys + {g}
    ensures forall h :: h in m && h != g ==> r[h] == m[h]
    ensures r[g] == Lifecycle.Apply(GetVoiceState(m, g).state, e)
    ensures g !in m ==> r[g] == Lifecycle.Apply(NewVoiceState(), e)
  {
    var l := GetVoiceState(m, g);
    l.music[g := Lifecycle.Apply(l.state, e)]
  }

  predicate AllConsistent(m: Music) {
    forall g :: g in m ==> Lifecycle.Consistent(m[g])
  }

  /** Looking up, dispatching an event to, or dropping a guild keeps every
      guild state consistent. */
  lemma LookupDispatchStopPreserveConsistent(m: Music, g: GuildId, e: Lifecycle.Event)
    requires AllConsistent(m)
    ensures AllConsistent(GetVoiceState(m, g).music)
    ensures AllConsistent(Dispatch(m, g, e))
    ensures AllConsistent(Stop(m, g).music)
  {
  }

  /** Joining a channel keeps every guild state consistent. */
  lemma CreateVoiceClientPreservesConsistent(m: Music, g: GuildId, platform: Option<ChannelId>, channel: ChannelId)
    requires AllConsistent(m)
    ensures AllConsistent(CreateVoiceClient(m, g, platform, channel).music)
  {
  }

  /** The checks of `play` keep every guild state consistent. */
  lemma PlayPreservesConsistent(m: Music, g: GuildId, song: string, author: Option<ChannelId>, platform: Option<ChannelId>, full: bool)
    requires AllConsistent(m)
    ensures AllConsistent(Play(m, g, song, author, platform, full).music)
  {
  }
}
