/** The skip-vote state machine: the quota derived from channel occupancy,
    the vote command, the moderator skip and the per-track reset. */
module SkipVotes {
  import opened MusicTypes

  /** Votes needed to skip in a voice channel of `members` members:
      the ceiling of (members + 1) / 3, i.e. the least q with 3q >= members + 1. */
  function RequiredSkips(members: nat): (q: nat)
    ensures 3 * q >= members + 1
    ensures 3 * (q - 1) < members + 1
  {
    (members + 3) / 3
  }

  lemma RequiredSkipsExamples()
    ensures RequiredSkips(2) == 1 && RequiredSkips(5) == 2 && RequiredSkips(8) == 3
  {
  }

  /** The voice-state listener: when the update touches the bot's own channel
      (as the channel left or the channel joined), the quota is recomputed
      from that channel's member count; otherwise nothing changes. */
  function OnVoiceStateUpdate(s: VoiceState, before: Option<ChannelId>, after: Option<ChannelId>, members: nat): (t: VoiceState)
    ensures t.(requiredSkips := s.requiredSkips) == s
    ensures (s.voice.None? || (before != s.voice && after != s.voice)) ==> t == s
    ensures s.voice.Some? && (before == s.voice || after == s.voice) ==> t.requiredSkips == RequiredSkips(members)
  {
    if s.voice.None? then s
    else if s.voice != before && s.voice != after then s
    else s.(requiredSkips := RequiredSkips(members))
  }

  /** An executed skip: the votes are cleared and a running player is
      stopped; the queue, quota, volume and connection are untouched. */
  function ExecuteSkip(s: VoiceState): (t: VoiceState)
    ensures t.skipVotes == {}
    ensures !IsPlaying(t)
    ensures t.voice == s.voice && t.songs == s.songs
    ensures t.requiredSkips == s.requiredSkips && t.volume == s.volume
    ensures t.current.Some? <==> s.current.Some?
    ensures s.current.Some? ==> t.current.value.entry == s.current.value.entry
  {
    var cleared := s.(skipVotes := {});
    if IsPlaying(s) then cleared.(current := Some(s.current.value.(active := false)))
    else cleared
  }

  datatype SkipReply =
    | NotPlaying
    | RequesterSkipped
    | VotePassed
    | VoteAdded(total: nat, required: int)
    | AlreadyVoted

  predicate Skipped(r: SkipReply) {
    r.RequesterSkipped? || r.VotePassed?
  }

  /** The `skip` command. The requester of the current entry always skips;
      anyone else votes once, and the vote that brings the tally to the quota
      skips. */
  function Skip(s: VoiceState, voter: UserId): (o: Outcome<SkipReply>)
    // Nothing but the votes and the running flag of the player ever changes.
    ensures o.state.voice == s.voice && o.state.songs == s.songs
    ensures o.state.requiredSkips == s.requiredSkips && o.state.volume == s.volume
    ensures !IsPlaying(s) <==> o.reply.NotPlaying?
    ensures o.reply.NotPlaying? || o.reply.AlreadyVoted? ==> o.state == s
    // The requester forces the skip, whatever the tally.
    ensures IsPlaying(s) && voter == s.current.value.entry.requester <==> o.reply.RequesterSkipped?
    // A repeat vote changes nothing.
    ensures o.reply.AlreadyVoted? <==> IsPlaying(s) && voter != s.current.value.entry.requester && voter in s.skipVotes
    // A new vote passes exactly when the grown tally reaches the quota ...
    ensures o.reply.VotePassed? <==>
      IsPlaying(s) && voter != s.current.value.entry.requester && voter !in s.skipVotes
      && |s.skipVotes + {voter}| >= s.requiredSkips
    // ... and an executed skip empties the votes and stops the player.
    ensures Skipped(o.reply) ==> o.state.skipVotes == {} && !IsPlaying(o.state)
    ensures Skipped(o.reply) ==> s.current.Some? && o.state.current == Some(s.current.value.(active := false))
    // Otherwise the tally grows by exactly the new voter and stays below the quota.
    ensures o.reply.VoteAdded? ==>
      && voter !in s.skipVotes
      && o.state == s.(skipVotes := s.skipVotes + {voter})
      && o.reply.total == |o.state.skipVotes| == |s.skipVotes| + 1
      && o.reply.required == s.requiredSkips
      && o.reply.total < o.reply.required
  {
    if !IsPlaying(s) then Outcome(s, NotPlaying)
    else if voter == s.current.value.entry.requester then Outcome(ExecuteSkip(s), RequesterSkipped)
    else if voter !in s.skipVotes then
      var votes := s.skipVotes + {voter};
      var total := |votes|;
      if total >= s.requiredSkips then Outcome(ExecuteSkip(s), VotePassed)
      else Outcome(s.(skipVotes := votes), VoteAdded(total, s.requiredSkips))
    else Outcome(s, AlreadyVoted)
  }

  /** The quota starts at zero, so before any voice update the first vote
      of a non-requester always passes. */
  lemma FirstVoteOnFreshQuotaPasses(s: VoiceState, voter: UserId)
    requires IsPlaying(s) && s.requiredSkips == 0
    requires voter != s.current.value.entry.requester
    requires voter !in s.skipVotes
    ensures Skip(s, voter).reply == VotePassed
    ensures Skip(s, voter).state.skipVotes == {}
  {
  }

  datatype ModSkipReply = ModNotPlaying | ModSkipped

  /** The moderator's `modskip`: skips unconditionally while something plays. */
  function ModSkip(s: VoiceState): (o: Outcome<ModSkipReply>)
    ensures o.reply == ModSkipped <==> IsPlaying(s)
    ensures o.reply == ModNotPlaying ==> o.state == s
    ensures o.reply == ModSkipped ==> o.state.skipVotes == {} && !IsPlaying(o.state)
    ensures o.reply == ModSkipped ==> o.state.voice == s.voice && o.state.current == Some(s.current.value.(active := false))
    ensures o.state.songs == s.songs && o.state.volume == s.volume && o.state.requiredSkips == s.requiredSkips
  {
    if !IsPlaying(s) then Outcome(s, ModNotPlaying)
    else Outcome(ExecuteSkip(s), ModSkipped)
  }

  /** The start of a turn of the audio worker: the votes of the last track
      are cleared, then the oldest queued entry becomes current; with an empty
      queue there is no current entry. The new entry has no player yet (it may
      still be downloading), so nothing plays until `StartPlayer`. */
  function NextTrack(s: VoiceState): (t: VoiceState)
    ensures t.skipVotes == {}
    ensures !IsPlaying(t)
    ensures s.songs == [] ==> t.current.None? && t.songs == []
    ensures s.songs != [] ==> t.current == Some(Current(s.songs[0], false)) && [s.songs[0]] + t.songs == s.songs
    ensures t.voice == s.voice && t.requiredSkips == s.requiredSkips && t.volume == s.volume
  {
    var cleared := s.(skipVotes := {});
    if s.songs == [] then cleared.(current := None)
    else cleared.(current := Some(Current(s.songs[0], false)), songs := s.songs[1..])
  }

  /** The rest of the worker's turn: once the current entry's download is
      there, its player is created on the voice client and started. Without
      a current entry, or without a voice client to create it on, nothing
      happens. */
  function StartPlayer(s: VoiceState): (t: VoiceState)
    ensures s.current.None? || s.voice.None? ==> t == s
    ensures s.current.Some? && s.voice.Some? ==> t.current == Some(s.current.value.(active := true))
    ensures t == s.(current := t.current)
    ensures IsPlaying(t) <==> s.current.Some? && s.voice.Some?
  {
    match s.current
    case None => s
    case Some(c) => if s.voice.None? then s else s.(current := Some(c.(active := true)))
  }

  /** The current entry's player reaches its end on its own: from then on
      nothing plays, though the entry stays current until the worker's next
      turn. */
  function PlayerFinished(s: VoiceState): (t: VoiceState)
    ensures !IsPlaying(t)
    ensures t == s.(current := t.current)
    ensures s.current.None? ==> t == s
    ensures s.current.Some? ==> t.current == Some(s.current.value.(active := false))
  {
    match s.current
    case None => s
    case Some(c) => s.(current := Some(c.(active := false)))
  }

  /** Between the worker taking an entry and its player starting, and after a
      player ends on its own, a `skip` is answered "not playing" and changes nothing. */
  lemma VoteWithoutRunningPlayerIsRefused(s: VoiceState, voter: UserId)
    ensures Skip(NextTrack(s), voter) == Outcome(NextTrack(s), NotPlaying)
    ensures Skip(PlayerFinished(s), voter) == Outcome(PlayerFinished(s), NotPlaying)
  {
  }

  /** A run of `skip` commands, one per voter, against the same state. */
  function CastVotes(s: VoiceState, voters: seq<UserId>): VoiceState
    decreases |voters|
  {
    if voters == [] then s else CastVotes(Skip(s, voters[0]).state, voters[1..])
  }

  function Voters(voters: seq<UserId>): set<UserId> {
    set i | 0 <= i < |voters| :: voters[i]
  }

  predicate NoneIsRequester(s: VoiceState, voters: seq<UserId>)
    requires s.current.Some?
  {
    forall i :: 0 <= i < |voters| ==> voters[i] != s.current.value.entry.requester
  }

  lemma VotersCons(voters: seq<UserId>)
    requires voters != []
    ensures Voters(voters) == {voters[0]} + Voters(voters[1..])
  {
  }

  /** Once nothing plays, further votes are all answered "not playing". */
  lemma {:induction false} VotesWhileStoppedAreInert(s: VoiceState, voters: seq<UserId>)
    requires !IsPlaying(s)
    ensures CastVotes(s, voters) == s
    decreases |voters|
  {
    if voters != [] {
      VotesWhileStoppedAreInert(s, voters[1..]);
    }
  }

  /** Distinct non-requester voters whose union with the standing votes stays
      below the quota only accumulate: the track keeps playing and the vote
      set is exactly the union. */
  lemma {:induction false} VotesBelowQuotaAccumulate(s: VoiceState, voters: seq<UserId>)
    requires IsPlaying(s)
    requires NoneIsRequester(s, voters)
    requires |s.skipVotes + Voters(voters)| < s.requiredSkips
    ensures IsPlaying(CastVotes(s, voters))
    ensures CastVotes(s, voters) == s.(skipVotes := s.skipVotes + Voters(voters))
    decreases |voters|
  {
    if voters == [] {
      assert Voters(voters) == {};
      assert s.skipVotes + Voters(voters) == s.skipVotes;
    } else {
      var v := voters[0];
      VotersCons(voters);
      var next := Skip(s, v).state;
      assert s.skipVotes + {v} <= s.skipVotes + Voters(voters);
      SubsetCardinality(s.skipVotes + {v}, s.skipVotes + Voters(voters));
      assert next == s.(skipVotes := s.skipVotes + {v});
      assert next.skipVotes + Voters(voters[1..]) == s.skipVotes + Voters(voters);
      assert NoneIsRequester(next, voters[1..]) by {
        forall i | 0 <= i < |voters[1..]|
          ensures voters[1..][i] != next.current.value.entry.requester
        {
          assert voters[1..][i] == voters[i + 1];
        }
      }
      VotesBelowQuotaAccumulate(next, voters[1..]);
    }
  }

  /** If some voter is new and the union of standing and new voters reaches
      the quota, the run of votes skips the track and leaves no votes behind. */
  lemma {:induction false} VotesReachingQuotaSkip(s: VoiceState, voters: seq<UserId>)
    requires IsPlaying(s)
    requires NoneIsRequester(s, voters)
    requires !(Voters(voters) <= s.skipVotes)
    requires |s.skipVotes + Voters(voters)| >= s.requiredSkips
    ensures !IsPlaying(CastVotes(s, voters))
    ensures CastVotes(s, voters).skipVotes == {}
    decreases |voters|
  {
    if voters == [] {
      assert false;
    } else {
      var v := voters[0];
      VotersCons(voters);
      var o := Skip(s, v);
      var rest := voters[1..];
      if v in s.skipVotes {
        assert o.state == s;
        assert s.skipVotes + Voters(rest) == s.skipVotes + Voters(voters);
        assert NoneIsRequester(s, rest) by {
          forall i | 0 <= i < |rest| ensures rest[i] != s.current.value.entry.requester {
            assert rest[i] == voters[i + 1];
          }
        }
        VotesReachingQuotaSkip(s, rest);
      } else if |s.skipVotes + {v}| >= s.requiredSkips {
        assert o.reply == VotePassed;
        VotesWhileStoppedAreInert(o.state, rest);
      } else {
        var next := o.state;
        assert next.skipVotes == s.skipVotes + {v};
        assert next.skipVotes + Voters(rest) == s.skipVotes + Voters(voters);
        NewVoterInGrownUnion(Voters(rest), next.skipVotes);
        assert NoneIsRequester(next, rest) by {
          forall i | 0 <= i < |rest| ensures rest[i] != next.current.value.entry.requester {
            assert rest[i] == voters[i + 1];
          }
        }
        VotesReachingQuotaSkip(next, rest);
      }
    }
  }

  /** A union larger than `b` holds something from `a` that is not in `b`. */
  lemma NewVoterInGrownUnion<T>(a: set<T>, b: set<T>)
    requires |b + a| > |b|
    ensures !(a <= b)
  {
    assert a <= b ==> b + a == b;
  }

  lemma SubsetCardinality<T>(a: set<T>, b: set<T>)
    requires a <= b
    ensures |a| <= |b|
  {
    assert b == a + (b - a);
  }
}
