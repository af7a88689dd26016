/** The `eta` command: how long until the author's next queued entry starts. */
module Eta {
  import opened MusicTypes

  datatype EtaReply =
    | NotPlaying
    | EmptyQueue
    | NextUp
    | NotQueued
    | Wait(seconds: int)

  /** Summed duration of a run of entries. */
  function TotalDuration(entries: seq<Entry>): int
    decreases |entries|
  {
    if entries == [] then 0 else entries[0].duration + TotalDuration(entries[1..])
  }

  /** Position of the author's first entry in the queue, or the queue's
      length when the author has none. */
  function FirstRequestBy(queue: seq<Entry>, author: UserId): (k: nat)
    ensures k <= |queue|
    ensures forall i :: 0 <= i < k ==> queue[i].requester != author
    ensures k < |queue| ==> queue[k].requester == author
    decreases |queue|
  {
    if queue == [] then 0
    else if queue[0].requester == author then 0
    else 1 + FirstRequestBy(queue[1..], author)
  }

  /** The loop over the queue: from `count`, adds each entry's duration until
      an entry of the author's is met. Yields the sum and whether one was met. */
  function Walk(queue: seq<Entry>, author: UserId, count: int): (w: (int, bool))
    ensures w.0 == count + TotalDuration(queue[..FirstRequestBy(queue, author)])
    ensures w.1 <==> exists i :: 0 <= i < |queue| && queue[i].requester == author
    decreases |queue|
  {
    if queue == [] then (count, false)
    else if queue[0].requester == author then
      assert queue[..0] == [];
      (count, true)
    else
      var k := FirstRequestBy(queue, author);
      assert queue[..k][1..] == queue[1..][..k - 1];
      var w := Walk(queue[1..], author, count + queue[0].duration);
      assert w.1 ==> exists i :: 0 <= i < |queue| && queue[i].requester == author by {
        if w.1 {
          var j :| 0 <= j < |queue[1..]| && queue[1..][j].requester == author;
          assert queue[j + 1].requester == author;
        }
      }
      assert (exists i :: 0 <= i < |queue| && queue[i].requester == author) ==> w.1 by {
        if exists i :: 0 <= i < |queue| && queue[i].requester == author {
          var i :| 0 <= i < |queue| && queue[i].requester == author;
          assert i != 0;
          assert queue[1..][i - 1].requester == author;
        }
      }
      w
  }

  /** The reply of `eta` as the code decides it, given the current entry's
      remaining seconds (read from the clock): the empty queue is reported
      first, then "next up" when the walked sum equals the current entry's
      full duration, then "not queued", and only then the wait. */
  function Eta(s: VoiceState, author: UserId, remaining: int): (r: EtaReply)
    ensures !IsPlaying(s) <==> r == NotPlaying
    ensures IsPlaying(s) ==> (s.songs == [] <==> r == EmptyQueue)
    ensures IsPlaying(s) && s.songs != [] ==>
      var k := FirstRequestBy(s.songs, author);
      var wait := remaining + TotalDuration(s.songs[..k]);
      && (r == NextUp <==> wait == s.current.value.entry.duration)
      && (r == NotQueued <==> wait != s.current.value.entry.duration && k == |s.songs|)
      && (r.Wait? <==> wait != s.current.value.entry.duration && k < |s.songs|)
      && (r.Wait? ==> r.seconds == wait)
  {
    if !IsPlaying(s) then NotPlaying
    else if |s.songs| == 0 then EmptyQueue
    else
      var (count, found) := Walk(s.songs, author, remaining);
      if count == s.current.value.entry.duration then NextUp
      else if !found then NotQueued
      else Wait(count)
  }

  /** The reply the comments of the code describe: "next up" exactly when the
      author's entry heads the queue, "not queued" exactly when the author has
      no entry, and otherwise the remaining seconds plus the durations ahead. */
  function IntendedEta(s: VoiceState, author: UserId, remaining: int): (r: EtaReply)
    ensures !IsPlaying(s) <==> r == NotPlaying
    ensures IsPlaying(s) ==> (s.songs == [] <==> r == EmptyQueue)
    ensures IsPlaying(s) && s.songs != [] ==>
      && (r == NextUp <==> s.songs[0].requester == author)
      && (r == NotQueued <==> forall i :: 0 <= i < |s.songs| ==> s.songs[i].requester != author)
      && (r.Wait? ==> (exists k :: && 0 < k < |s.songs| && s.songs[k].requester == author
                                   && (forall i :: 0 <= i < k ==> s.songs[i].requester != author)
                                   && r.seconds == remaining + TotalDuration(s.songs[..k])))
  {
    if !IsPlaying(s) then NotPlaying
    else if |s.songs| == 0 then EmptyQueue
    else
      var k := FirstRequestBy(s.songs, author);
      if k == |s.songs| then NotQueued
      else if k == 0 then NextUp
      else Wait(remaining + TotalDuration(s.songs[..k]))
  }

  /** Whenever the walked sum differs from the current entry's duration, the
      code's reply agrees with the intended one except that an author at the
      head of the queue is told the remaining seconds instead of "next up". */
  lemma EtaAgreesAwayFromDuration(s: VoiceState, author: UserId, remaining: int)
    requires IsPlaying(s) && s.songs != []
    requires remaining + TotalDuration(s.songs[..FirstRequestBy(s.songs, author)]) != s.current.value.entry.duration
    ensures s.songs[0].requester == author ==> Eta(s, author, remaining) == Wait(remaining)
    ensures s.songs[0].requester != author ==> Eta(s, author, remaining) == IntendedEta(s, author, remaining)
  {
  }

  /** The worked example with 30 seconds left of a 200-second track and the
      queue [A: 40 s by user 1, B: 20 s by user 2]. */
  lemma EtaWorkedExample()
    ensures var s := VoiceState(Some(7), Some(Current(Entry(9, 200), true)), [Entry(1, 40), Entry(2, 20)], 1, {}, 50);
      && Eta(s, 2, 30) == Wait(70)
      && Eta(s, 3, 30) == NotQueued
      && Eta(s, 1, 30) == Wait(30)
      && IntendedEta(s, 1, 30) == NextUp
  {
  }

  /** When the walked sum happens to equal the current entry's duration, the
      code says "next up" to an author who has another request ahead of theirs
      and to an author who has nothing queued at all. */
  lemma EtaFalseNextUp()
    ensures var s := VoiceState(Some(7), Some(Current(Entry(9, 70), true)), [Entry(1, 40), Entry(2, 20)], 1, {}, 50);
      && Eta(s, 2, 30) == NextUp && IntendedEta(s, 2, 30) == Wait(70)
    ensures var s := VoiceState(Some(7), Some(Current(Entry(9, 90), true)), [Entry(1, 40), Entry(2, 20)], 1, {}, 50);
      && Eta(s, 3, 30) == NextUp && IntendedEta(s, 3, 30) == NotQueued
  {
  }

  /** The minutes-and-seconds split used to print a wait or a position:
      Python's floor `divmod` by 60, which agrees with Dafny's division for a
      positive divisor. */
  function MinutesSeconds(t: int): (ms: (int, int))
    ensures ms.0 * 60 + ms.1 == t
    ensures 0 <= ms.1 < 60
  {
    (t / 60, t % 60)
  }
}
