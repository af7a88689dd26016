# Bonfire music cog — a Dafny model of its decision logic

Bonfire is a Discord bot. Its music cog (`cogs/music.py`) keeps one
`VoiceState` per guild. A `VoiceState` holds:

- the bot's voice client;
- the entry now playing;
- a `Playlist` queue of requested entries;
- the set of users who voted to skip, and the number of votes a skip needs;
- the volume.

The `Music` cog maps guild ids to these states and implements the chat
commands. This project models that decision logic as pure functions over an
immutable guild state (`MusicTypes.VoiceState`), with the Discord calls, the
asyncio worker and the ffmpeg player taken out:

- `SkipVotes`: the skip quota `ceil((members + 1) / 3)`, which is recomputed
  when voice membership changes. Also the `skip` vote command, `modskip`, the
  executed skip that clears the votes, and the audio worker's step to the
  next track, which clears them again.
- `Eta`: the `eta` command, with the code's exact branch order. A corrected
  version stands beside it (see Findings).
- `Volume`: the `volume` command. It refuses values over 200 and has no lower bound.
- `PlayInput`: the text handling of `play`:
  - removing `<`, `>`, `[` and `]` from the query;
  - refusing queries that contain `soundcloud.com`;
  - cutting upstream error text of 2000 characters or more.
- `Registry`: the guild-id → state map:
  - lazy creation (`get_voice_state`);
  - `stop`, which drops the entry;
  - the three-way join decision of `create_voice_client`;
  - the checks `play` makes before it hands a query to the resolver.
- `Lifecycle`: the events a guild state sees, including the worker taking
  an entry, its player starting once downloaded, and the player ending. It
  proves an invariant that every sequence of events keeps. It also proves
  that every track starts with no votes and that accepted requests are played
  first in, first out.

Values that come from outside the cog are inputs to the model:

- the member count of the bot's channel;
- the channel the platform reports for the guild's voice client;
- the requester's voice channel;
- the current entry's remaining seconds, which the code reads from the clock;
- the queue's `full` flag, because the `Playlist` class is not part of this model.

## Model

| member | source | states |
|---|---|---|
| SkipVotes.RequiredSkips | cogs/music.py:176-177 | the quota is the least q with 3q ≥ members + 1, i.e. ceil((members+1)/3) |
| SkipVotes.RequiredSkipsExamples | cogs/music.py:176-177 | 2 members need 1 vote, 5 need 2, 8 need 3 |
| SkipVotes.OnVoiceStateUpdate | cogs/music.py:169-177 | only the quota can change; it is recomputed from the member count exactly when the bot is connected and the update's old or new channel is the bot's channel |
| SkipVotes.ExecuteSkip | cogs/music.py:53-58 | an executed skip empties the vote set and leaves nothing playing; queue, quota, volume, connection and current entry are kept |
| SkipVotes.Skip | cogs/music.py:448-478 | not playing: nothing changes. The requester always skips. A repeat voter gets "already voted" and nothing changes. A new voter passes the vote exactly when the grown tally reaches the quota, which empties the votes. Otherwise the set grows by exactly that voter and the reply carries total < required |
| SkipVotes.FirstVoteOnFreshQuotaPasses | cogs/music.py:468-476 | with the initial quota of 0, a new non-requester vote always skips and empties the set |
| SkipVotes.ModSkip | cogs/music.py:480-490 | a moderator skip happens exactly when something plays; it empties the votes and stops the player, keeping the connection, the current entry, the queue, the quota and the volume |
| SkipVotes.NextTrack | cogs/music.py:66-78 | each worker turn clears the votes, then takes the oldest queued entry as current, without a running player yet, and leaves the rest queued in order; an empty queue leaves no current entry; nothing plays afterwards |
| SkipVotes.StartPlayer | cogs/music.py:80-98 | once the download is there the current entry's player is created on the voice client and runs: afterwards the guild is playing exactly when it is connected and has a current entry; without a voice client or a current entry nothing changes; only the active flag ever changes |
| SkipVotes.PlayerFinished | cogs/music.py:42-47 | a player that reached its end leaves nothing playing, with the entry still current and nothing else changed |
| SkipVotes.VoteWithoutRunningPlayerIsRefused | cogs/music.py:456-459 | while the new entry downloads, and after a player ends on its own, a vote gets "not playing" and changes nothing |
| SkipVotes.VotesWhileStoppedAreInert | cogs/music.py:456-459 | once nothing plays, any run of votes leaves the state unchanged |
| SkipVotes.VotesBelowQuotaAccumulate | cogs/music.py:467-476 | a run of non-requester votes whose union with the standing votes stays below the quota keeps the track playing and leaves exactly that union as the vote set |
| SkipVotes.VotesReachingQuotaSkip | cogs/music.py:467-476 | a run of non-requester votes that adds a new voter and whose union with the standing votes reaches the quota ends with the track skipped and no votes |
| Eta.FirstRequestBy | cogs/music.py:407-411 | the index where the loop stops: every earlier entry has another requester, and the entry there (if any) is the author's |
| Eta.Walk | cogs/music.py:403-411 | the loop yields the remaining time plus the durations of the entries before the author's first entry, and "found" exactly when the author has an entry |
| Eta.Eta | cogs/music.py:393-422 | not playing first, then the empty queue, then "next up" exactly when the walked sum equals the current entry's full duration, then "not queued" exactly when the author has no entry, else the walked sum |
| Eta.IntendedEta | cogs/music.py:413-422 | corrected ETA: "next up" exactly when the author's entry heads the queue, "not queued" exactly when the author has none, else the remaining time plus the durations of the entries ahead |
| Eta.EtaAgreesAwayFromDuration | cogs/music.py:413-421 | when the walked sum is not the current duration, the code agrees with the corrected ETA, except that an author at the head of the queue gets the remaining seconds |
| Eta.EtaWorkedExample | cogs/music.py:397-422 | 30 s left, queue [40 s by X, 20 s by Y]: Y waits 70 s, Z is not queued, and X is told 30 s, where the corrected ETA says "next up" |
| Eta.EtaFalseNextUp | cogs/music.py:416-418 | inputs where the code says "next up" to an author with another entry ahead, and to an author with nothing queued |
| Eta.MinutesSeconds | cogs/music.py:422 | the printed split satisfies m*60 + s == t with 0 ≤ s < 60 |
| Volume.SetVolume | cogs/music.py:328-343 | no value: the stored volume is reported. Over 200: refused, state unchanged. Any other value, negatives included, is stored; it is announced exactly while playing, and otherwise the reply is the silent "stored". Nothing else changes |
| Volume.SetVolumeBoundary | cogs/music.py:336-339 | 201 is refused; 200, 0 and -5 are stored |
| Volume.SetVolumeKeepsBound | cogs/music.py:336-339 | a stored volume within 200 stays within 200 |
| PlayInput.Sanitize | cogs/music.py:286 | the cleaned query contains none of `<>[]`, has every other character as often as the input, and is no longer |
| PlayInput.SanitizeIsSubsequence | cogs/music.py:286 | the cleaned query is an order-preserving subsequence of the input |
| PlayInput.SanitizeKeepsCleanQuery | cogs/music.py:286 | a query with none of `<>[]` is unchanged |
| PlayInput.SanitizeIdempotent | cogs/music.py:286 | cleaning twice equals cleaning once |
| PlayInput.Contains | cogs/music.py:257 | the substring test holds exactly when the pattern occurs as a contiguous run |
| PlayInput.TruncateError | cogs/music.py:319-321 | the result is under 2000 characters. Shorter text is unchanged. Longer text becomes its first 1996 characters followed by `...` |
| PlayInput.TruncateErrorIdempotent | cogs/music.py:319-321 | a cut message is never cut again |
| Lifecycle.NewVoiceStateConsistent | cogs/music.py:18-35 | a fresh guild state is consistent |
| Lifecycle.ApplyPreservesConsistent | cogs/music.py:53-101 | every event keeps the state consistent: volume ≤ 200, quota ≥ 0, no votes without a current entry, the current requester never among the votes |
| Lifecycle.RunPreservesConsistent | cogs/music.py:53-101 | every sequence of events keeps a consistent state consistent |
| Lifecycle.EveryTrackStartsWithoutVotes | cogs/music.py:66-73 | whatever came before, the worker's move to the next track leaves no votes |
| Lifecycle.Apply | cogs/music.py:53-101 | each field changes only under the events that may change it: the connection only on a join, the queue only on an accept or a worker turn, the volume only by `volume`, the quota only on a voice update, the votes only by a skip or a worker turn; playback begins only when a player starts or the bot joins |
| Lifecycle.WorkerPlaysInQueueOrder | cogs/music.py:66-98 | after k whole tracks (take, start, end), the k-th queued entry is the one just played and the entries behind it are still queued in order |
| Lifecycle.QueueIsFirstInFirstOut | cogs/music.py:66-98 | accepted requests queue up in order, and the k-th whole track the worker plays is the k-th accepted request |
| MusicTypes.NewVoiceState | cogs/music.py:18-35 | a new guild state is unconnected, with no current entry, an empty queue, no votes, a quota of 0 and volume 50, and is not playing |
| MusicTypes.IsPlaying | cogs/music.py:37-47 | playing requires a voice client and a current entry; a current entry without a running player (downloading, ended, stopped) is not playing |
| Registry.Dispatch | cogs/music.py:169-177 | a command handler's lookup-then-change: the guild's state (a fresh one if missing) gets the event's effect, the guild is added to the map, and every other guild is untouched |
| Registry.GetVoiceState | cogs/music.py:116-127 | the guild's state is returned, created with the defaults when missing. Only that guild's key is added; every other entry is unchanged |
| Registry.GetVoiceStateIdempotent | cogs/music.py:116-127 | a second lookup finds what the first left and changes nothing |
| Registry.Stop | cogs/music.py:361-382 | the guild's entry is removed and every other entry kept; its voice client, if any, is the one disconnected |
| Registry.StopThenGetIsFresh | cogs/music.py:361-382 | after `stop`, the next lookup yields a fresh default state |
| Registry.CreateVoiceClient | cogs/music.py:129-145 | always ends holding the requested channel, with the guild's other fields and other guilds untouched. The action is connect with no client, reuse when the client is in the channel, and disconnect-then-join otherwise |
| Registry.CreateVoiceClientIdempotent | cogs/music.py:129-145 | joining the channel already held reuses the client and changes nothing |
| Registry.CreateVoiceClientIsConnected | cogs/music.py:129-145 | joining changes the guild map exactly as delivering the life cycle's `Connected` event does |
| Registry.Play | cogs/music.py:246-286 | `soundcloud.com` is refused before any state is created. Otherwise the bot joins the requester's channel when not connected, and only the voice field changes. A requester in no voice channel, with the bot not connected, gets "not in a voice channel" and the guild state is left as looked up. "Queue full" comes exactly when a connection exists or can be made and the queue is full, before the channel test; "not in our channel" exactly when the queue is not full and an existing connection is elsewhere. The query reaches the resolver exactly when the requester is in a channel, the queue is not full and the bot is (now) in that channel. The query passed on is the cleaned one |
| Registry.LookupDispatchStopPreserveConsistent | cogs/music.py:116-127 | lookup, event dispatch and `stop` keep every guild state consistent |
| Registry.CreateVoiceClientPreservesConsistent | cogs/music.py:129-145 | joining keeps every guild state consistent |
| Registry.PlayPreservesConsistent | cogs/music.py:246-286 | the checks of `play` keep every guild state consistent |

## Left out

- SkipVotes.RequiredSkips: computes the ceiling exactly on integers. The code divides in floating point before `math.ceil`, which is exact for any realistic member count.
- Eta.Eta: the current entry's remaining time comes from `time.time()`, so the model takes it as an input. Durations are whole seconds, and the remaining time is also taken in whole seconds, so the exact-equality inputs of `Eta.EtaFalseNextUp` rely on integer arithmetic. The `round` of a float count before printing is not modelled.
- Registry.Play: takes the bot's own channel (`server.me.voice.voice_channel`) to be the channel held in the guild state. It stops where the query is handed to `Playlist.add_entry`.
- Registry.Play: the connect time-outs and closed connections in `summon`/`join`, and the `remove_voice_client` clean-up after them, are platform failures and are not modelled.
- The `Playlist` class (queue capacity, `full`, `add_entry`, `get_next_entry`) is not part of this model. `full` is an input. An accepted request is taken to be appended at the back. An empty queue is taken to yield no entry, as the `None` loop at music.py:76-78 implies.
- The search path after `WrongEntryTypeError` (music.py:290-312) is not modelled; it depends on the external resolver. The error-text extraction `split("\n\n")[1]` and the dropping of the first word are also left out; they depend on youtube-dl's message format.
- The asyncio side is not modelled: the worker's event, its one-second polling, `call_soon_threadsafe`, task cancellation in `stop` and `__unload`, and `os.remove` of the played file. The worker's turn is split into taking the next entry (`Lifecycle.TrackDone`) and starting its player once the download is there (`Lifecycle.PlayerStarted`); a player ending on its own is `Lifecycle.PlayerEnded`. A skip stopping the player is followed by the worker's next turn.
- `player.volume = value / 100` is a float gain on the ffmpeg player. Only the stored percentage is modelled.
- `is_playing` is modelled as: connected, with a current entry whose player runs. An entry still downloading has no player yet (the code's `AttributeError`) and reads as "not playing"; so does a player that has ended.
- `progress`, `queue`, `queuelength`, `playing`, `pause` and `resume` only format text or drive the ffmpeg player. Their time split is covered by `Eta.MinutesSeconds`.
- `join`'s "not a voice channel" error is not modelled: channels are plain ids here. `summon`'s "Ready to play" message is not modelled either.
- The model keeps two quirks of the code rather than what a reader might expect. The volume setter has no lower bound. The "next up" test of `eta` compares against the current entry's full duration, not its remaining time.
- `cogs/statsupdate.py` is not part of this model.

## Findings

| source | as written | input that shows it | evidently intended | confidence | as-written member | corrected member |
|---|---|---|---|---|---|---|
| cogs/music.py:416-418 | "next up" is reported when the walked sum equals `current.duration`, tested before "not in queue" | 30 s left of a 200 s track, queue [40 s by X, 20 s by Y]: X gets a 30 s wait. With a 70 s track, Y gets "next up" though X is ahead. With a 90 s track, Z, who has nothing queued, gets "next up" | the comment says the test detects that nothing was added to the count: "next up" when the author's entry heads the queue, and "not queued" for an author with no entry | medium; not executed | Eta.EtaFalseNextUp | Eta.IntendedEta |
