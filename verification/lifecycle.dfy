/** The events a guild state goes through, and the consistency it keeps
    across all of them. */
module Lifecycle {
  import opened MusicTypes
  import SkipVotes
  import Volume

  datatype Event =
    | SkipCmd(voter: UserId)
    | ModSkipCmd
    | VolumeCmd(value: Option<int>)
    | VoiceUpdate(before: Option<ChannelId>, after: Option<ChannelId>, members: nat)
    | Enqueued(entry: Entry)         // the resolver accepted a request
    | TrackDone                      // the player ended or was stopped; the worker takes the next entry
    | PlayerStarted                  // the current entry's download is there; its player starts
    | PlayerEnded                    // the current entry's player reached its end on its own
    | Connected(channel: ChannelId)  // the bot now holds a voice client in `channel`

  /** The effect of one event on the guild state. Each field is changed only
      by the events that the code lets change it. */
  function Apply(s: VoiceState, e: Event): (t: VoiceState)
    ensures t.voice != s.voice ==> e.Connected?
    ensures t.songs != s.songs ==> e.Enqueued? || e.TrackDone?
    ensures t.volume != s.volume ==> e.VolumeCmd?
    ensures t.requiredSkips != s.requiredSkips ==> e.VoiceUpdate?
    ensures t.skipVotes != s.skipVotes ==> e.SkipCmd? || e.ModSkipCmd? || e.TrackDone?
    ensures t.current != s.current ==> e.SkipCmd? || e.ModSkipCmd? || e.TrackDone? || e.PlayerStarted? || e.PlayerEnded?
    ensures IsPlaying(t) && !IsPlaying(s) ==> e.PlayerStarted? || e.Connected?
  {
    match e
    case SkipCmd(voter) => SkipVotes.Skip(s, voter).state
    case ModSkipCmd => SkipVotes.ModSkip(s).state
    case VolumeCmd(value) => Volume.SetVolume(s, value).state
    case VoiceUpdate(before, after, members) => SkipVotes.OnVoiceStateUpdate(s, before, after, members)
    case Enqueued(entry) => s.(songs := s.songs + [entry])
    case TrackDone => SkipVotes.NextTrack(s)
    case PlayerStarted => SkipVotes.StartPlayer(s)
    case PlayerEnded => SkipVotes.PlayerFinished(s)
    case Connected(channel) => s.(voice := Some(channel))
  }

  /** What holds of every guild state: the volume is within the maximum,
      the quota is not negative, there are no votes without a current entry,
      and the current entry's requester never sits among the votes. */
  predicate Consistent(s: VoiceState) {
    && s.volume <= Volume.MaxVolume
    && s.requiredSkips >= 0
    && (s.current.None? ==> s.skipVotes == {})
    && (s.current.Some? ==> s.current.value.entry.requester !in s.skipVotes)
  }

  lemma NewVoiceStateConsistent()
    ensures Consistent(NewVoiceState())
  {
  }

  lemma ApplyPreservesConsistent(s: VoiceState, e: Event)
    requires Consistent(s)
    ensures Consistent(Apply(s, e))
  {
  }

  function Run(s: VoiceState, events: seq<Event>): VoiceState
    decreases |events|
  {
    if events == [] then s else Run(Apply(s, events[0]), events[1..])
  }

  /** Every sequence of events keeps a consistent state consistent. */
  lemma {:induction false} RunPreservesConsistent(s: VoiceState, events: seq<Event>)
    requires Consistent(s)
    ensures Consistent(Run(s, events))
    decreases |events|
  {
    if events != [] {
      ApplyPreservesConsistent(s, events[0]);
      RunPreservesConsistent(Apply(s, events[0]), events[1..]);
    }
  }

  /** Whatever happened before, the track the worker moves to starts with no votes. */
  lemma {:induction false} EveryTrackStartsWithoutVotes(s: VoiceState, events: seq<Event>)
    ensures Run(s, events + [TrackDone]).skipVotes == {}
    decreases |events|
  {
    if events == [] {
      assert events + [TrackDone] == [TrackDone];
    } else {
      assert (events + [TrackDone])[1..] == events[1..] + [TrackDone];
      EveryTrackStartsWithoutVotes(Apply(s, events[0]), events[1..]);
    }
  }

  /** Running two event sequences one after the other is running their concatenation. */
  lemma {:induction false} RunConcat(s: VoiceState, a: seq<Event>, b: seq<Event>)
    ensures Run(s, a + b) == Run(Run(s, a), b)
    decreases |a|
  {
    if a == [] {
      assert a + b == b;
    } else {
      assert (a + b)[1..] == a[1..] + b;
      RunConcat(Apply(s, a[0]), a[1..], b);
    }
  }

  /** One whole track: the worker takes the next entry, its player starts,
      and it plays to its end. */
  const Cycle: seq<Event> := [TrackDone, PlayerStarted, PlayerEnded]

  /** `k` whole tracks in a row. */
  function Turns(k: nat): (events: seq<Event>)
    ensures |events| == 3 * k
  {
    if k == 0 then [] else Cycle + Turns(k - 1)
  }

  /** After `k` whole tracks the `k`-th queued entry is the one that just
      played and the entries behind it are still queued in order. */
  lemma {:induction false} WorkerPlaysInQueueOrder(s: VoiceState, k: nat)
    requires 1 <= k <= |s.songs|
    ensures Run(s, Turns(k)).current == Some(Current(s.songs[k - 1], false))
    ensures Run(s, Turns(k)).songs == s.songs[k..]
    decreases k
  {
    RunConcat(s, Cycle, Turns(k - 1));
    var next := Run(s, Cycle);
    assert next.songs == s.songs[1..];
    assert next.current == Some(Current(s.songs[0], false));
    if k > 1 {
      WorkerPlaysInQueueOrder(next, k - 1);
    } else {
      assert Turns(0) == [];
    }
  }

  /** Requests are played in the order they were accepted: after a run of
      acceptances onto an idle guild, the `k`-th whole track the worker plays
      is the `k`-th accepted request. */
  lemma QueueIsFirstInFirstOut(s: VoiceState, entries: seq<Entry>, k: nat)
    requires s.songs == []
    requires 1 <= k <= |entries|
    ensures Run(s, Accepts(entries)).songs == entries
    ensures Run(Run(s, Accepts(entries)), Turns(k)).current == Some(Current(entries[k - 1], false))
    ensures Run(Run(s, Accepts(entries)), Turns(k)).songs == entries[k..]
  {
    AcceptsAppend(s, entries);
    WorkerPlaysInQueueOrder(Run(s, Accepts(entries)), k);
  }

  function Accepts(entries: seq<Entry>): (events: seq<Event>)
    ensures |events| == |entries|
    ensures forall i :: 0 <= i < |entries| ==> events[i] == Enqueued(entries[i])
  {
    seq(|entries|, i requires 0 <= i < |entries| => Enqueued(entries[i]))
  }

  lemma {:induction false} AcceptsAppend(s: VoiceState, entries: seq<Entry>)
    ensures Run(s, Accepts(entries)).songs == s.songs + entries
    decreases |entries|
  {
    if entries == [] {
      assert s.songs + entries == s.songs;
    } else {
      assert Accepts(entries)[1..] == Accepts(entries[1..]);
      AcceptsAppend(Apply(s, Enqueued(entries[0])), entries[1..]);
      assert s.songs + [entries[0]] + entries[1..] == s.songs + entries;
    }
  }
}
