/**
 * The /skip command of src/commands/music/skip.ts: the bound on how many
 * songs may be skipped, the vote rule for members who are neither DJ nor
 * moderator, and removeFromQueue, which drops songs from the front of the
 * player's queue before the player skips to the next song or, when nothing
 * is left, is destroyed.
 *
 * The amount is a Discord number option, so it can be fractional: the loop
 * of removeFromQueue compares a whole counter with amount - 1 and so runs
 * ceil(amount - 1) times.
 */
module SkipCommand {
  import opened Text

  /** A queued song. */
  datatype Track = Track(title: string, uri: string)

  /** The player's queue of upcoming songs (the current song is not in
      it). */
  class Queue {
    var tracks: seq<Track>

    constructor (tracks: seq<Track>)
      ensures this.tracks == tracks
    {
      this.tracks := tracks;
    }

    /** queue.size */
    function Size(): nat
      reads this
    {
      |tracks|
    }

    /** queue.remove(position), at a position that holds a song. */
    method Remove(position: nat)
      requires position < |tracks|
      modifies this
      ensures tracks == old(tracks[..position] + tracks[position + 1..])
    {
      tracks := tracks[..position] + tracks[position + 1..];
    }
  }

  /** The least whole number not below x (Math.ceil). */
  function Ceil(x: real): (r: int)
    ensures (r - 1) as real < x <= r as real
  {
    if x.Floor as real == x then x.Floor else x.Floor + 1
  }

  /** A whole counter i is below x exactly when it is below ceil(x). */
  lemma BelowCeil(i: int, x: real)
    ensures i as real < x <==> i < Ceil(x)
  {
  }

  /** How many passes removeFromQueue's loop makes: none for an amount
      below 2, otherwise one for each whole number below amount - 1. */
  function Removals(amount: real): (n: nat)
    ensures amount < 2.0 ==> n == 0
    ensures amount >= 2.0 ==> (n - 1) as real < amount - 1.0 <= n as real
  {
    if amount >= 2.0 then Ceil(amount - 1.0) else 0
  }

  /** A whole amount k of 2 or more makes k - 1 passes. */
  lemma RemovalsWhole(k: int)
    requires k >= 2
    ensures Removals(k as real) == k - 1
  {
  }

  /** The queue after removeFromQueue: the first Removals(amount) songs
      gone, or all of them when there are fewer; the rest in their order. */
  function AfterRemoval(tracks: seq<Track>, amount: real): (r: seq<Track>)
    ensures |r| == if Removals(amount) < |tracks| then |tracks| - Removals(amount) else 0
    ensures r == tracks[|tracks| - |r|..]
  {
    if Removals(amount) < |tracks| then tracks[Removals(amount)..] else []
  }

  /** An amount below 2 changes nothing. */
  lemma AfterRemovalSmallAmount(tracks: seq<Track>, amount: real)
    requires amount < 2.0
    ensures AfterRemoval(tracks, amount) == tracks
  {
  }

  /** removeFromQueue(queue, amount): removes the song at position 0 once
      per pass, when the queue is not empty. */
  method RemoveFromQueue(queue: Queue, amount: real)
    modifies queue
    ensures queue.tracks == AfterRemoval(old(queue.tracks), amount)
  {
    if amount >= 2.0 {
      var removals := amount - 1.0;
      var i := 0;
      while (i as real) < removals
        invariant 0 <= i <= Removals(amount)
        invariant queue.tracks == old(queue.tracks)[if i < |old(queue.tracks)| then i else |old(queue.tracks)|..]
        decreases Removals(amount) - i
      {
        BelowCeil(i, removals);
        if queue.Size() > 0 {
          queue.Remove(0);
        }
        i := i + 1;
      }
      BelowCeil(i, removals);
    }
  }

  /** The amount asked for is rejected when it exceeds the songs queued plus
      the one playing. */
  predicate TooMany(amount: real, queueSize: nat, playing: bool) {
    amount > (queueSize + if playing then 1 else 0) as real
  }

  /** An accepted whole amount of 2 or more removes exactly amount - 1
      songs, whether or not a song is playing. */
  lemma AcceptedAmountRemovesExactly(tracks: seq<Track>, k: int, playing: bool)
    requires k >= 2 && !TooMany(k as real, |tracks|, playing)
    ensures |AfterRemoval(tracks, k as real)| == |tracks| - (k - 1)
  {
    RemovalsWhole(k);
  }

  /** A member of the voice channel. */
  datatype ChannelMember = ChannelMember(id: string, isBot: bool)

  /** The members of the channel that are neither this bot nor any other
      bot. */
  function HumanListeners(members: seq<ChannelMember>, selfId: string): (humans: seq<ChannelMember>)
    ensures forall m :: m in humans <==> m in members && m.id != selfId && !m.isBot
    ensures |humans| <= |members|
  {
    if members == [] then []
    else if members[0].id != selfId && !members[0].isBot then [members[0]] + HumanListeners(members[1..], selfId)
    else HumanListeners(members[1..], selfId)
  }

  /** A skip goes to a vote unless the member has the DJ role or may
      moderate members, or at most two humans are listening. */
  predicate NeedsVote(isDj: bool, canModerate: bool, humans: nat) {
    !(isDj || canModerate || humans <= 2)
  }

  /** Math.ceil(humans / 2): the fewest votes that make at least half. */
  function VotesNeeded(humans: nat): (v: nat)
    ensures 2 * v >= humans && (v == 0 || 2 * (v - 1) < humans)
  {
    (humans + 1) / 2
  }

  /** A vote needs a strict majority of an odd number of listeners and
      exactly half of an even number, and never more votes than
      listeners. */
  lemma VotesNeededHalf(humans: nat)
    ensures humans % 2 == 1 ==> 2 * VotesNeeded(humans) == humans + 1
    ensures humans % 2 == 0 ==> 2 * VotesNeeded(humans) == humans
    ensures VotesNeeded(humans) <= humans
  {
  }

  /** How the command ends. */
  datatype Outcome =
    | Rejected(message: string)  // too many songs asked for
    | NotEnoughVotes             // the vote failed; nothing changes
    | LeftCall                   // the queue ran empty: player.destroy()
    | Skipped                    // player.skip(0)

  /** The reply to a rejected amount. */
  function TooManyMessage(queueSize: nat): string {
    "You cannot skip more songs than the queue has (" + NatToString(queueSize) + " song(s))."
  }

  /** The command after its voice-channel and player checks: amount is the
      option's value if given, playing tells whether a song is playing,
      members are the voice channel's members, and votes the votes collected
      when a vote is held. */
  method Skip(queue: Queue, playing: bool, amountOption: Option<real>, isDj: bool, canModerate: bool,
              members: seq<ChannelMember>, selfId: string, votes: nat)
    returns (outcome: Outcome)
    modifies queue
    ensures var amount := if amountOption.Some? then amountOption.value else 1.0;
            var humans := |HumanListeners(members, selfId)|;
            if TooMany(amount, |old(queue.tracks)|, playing) then
              outcome == Rejected(TooManyMessage(|old(queue.tracks)|)) && queue.tracks == old(queue.tracks)
            else if NeedsVote(isDj, canModerate, humans) && votes < VotesNeeded(humans) then
              outcome == NotEnoughVotes && queue.tracks == old(queue.tracks)
            else
              queue.tracks == AfterRemoval(old(queue.tracks), amount)
              && (outcome == LeftCall <==> queue.tracks == [])
              && (outcome == Skipped <==> queue.tracks != [])
  {
    var amount := if amountOption.Some? then amountOption.value else 1.0;
    if TooMany(amount, queue.Size(), playing) {
      return Rejected(TooManyMessage(queue.Size()));
    }
    var humans := HumanListeners(members, selfId);
    if NeedsVote(isDj, canModerate, |humans|) && votes < VotesNeeded(|humans|) {
      return NotEnoughVotes;
    }
    RemoveFromQueue(queue, amount);
    if queue.Size() == 0 {
      return LeftCall;
    }
    return Skipped;
  }
}
