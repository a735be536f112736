/**
  Heartbeat scheduling of one connection (transport/ws/connection.go, schedulePing and
  bumpNextPing).  One scheduler runs the rounds; pongs arrive at any moment, also between
  two atomic operations of a round.
  */
module Ping {
  import opened Spacing

  class PingTimer {
    const interval: int
    var nextPingAt: int
    var closed: bool
    var clock: int               // the current time
    ghost var pings: seq<int>    // times of the rounds whose ping was queued
    ghost var pushed: seq<int>   // when each of them was queued, some time into its round
    ghost var held: seq<int>     // every value that nextPingAt has had
    ghost var moves: nat         // how often somebody else touched the connection

    ghost predicate Valid()
      reads this
    {
      && clock >= 0 && nextPingAt >= 0 && held != [] && held[|held| - 1] == nextPingAt
      && (pings != [] ==> interval > 0 && pings[|pings| - 1] <= clock
                          && nextPingAt >= pings[|pings| - 1] + interval)
      && Spaced(pings, interval)
      && |pushed| == |pings| && forall i :: 0 <= i < |pings| ==> pings[i] <= pushed[i] <= clock
    }

    constructor (interval: int, now: nat)
      ensures Valid() && this.interval == interval && pings == [] && !closed && nextPingAt == 0 && clock == now
    {
      this.interval := interval;
      nextPingAt, closed := 0, false;
      clock, pings, pushed, held, moves := now, [], [], [0], 0;
    }

    /** A value that pongs between times `from` and `to` can leave in nextPingAt. */
    ghost predicate Bumped(from: int, to: int, value: int) {
      interval > 0 && from + interval <= value <= to + interval
    }

    /** Time passes, pongs arrive, somebody may close the connection; no ping is queued. */
    method Interfere()
      requires Valid()
      modifies this
      ensures Valid() && pings == old(pings) && pushed == old(pushed) && clock >= old(clock)
      ensures old(closed) ==> closed
      ensures nextPingAt == old(nextPingAt) || Bumped(old(clock), clock, nextPingAt)
      ensures old(held) <= held
      ensures moves >= old(moves)
      ensures moves == old(moves) ==> nextPingAt == old(nextPingAt) && closed == old(closed)
    {
    }

    /** bumpNextPing: a pong pushes the next ping one interval away from now. */
    method BumpNextPing(passed: nat)
      requires Valid()
      modifies this
      ensures Valid() && pings == old(pings) && pushed == old(pushed) && clock == old(clock) + passed && closed == old(closed)
      ensures nextPingAt == if interval > 0 then clock + interval else old(nextPingAt)
    {
      clock := clock + passed;
      if interval <= 0 {
        return;
      }
      nextPingAt := clock + interval;
      held := held + [nextPingAt];
    }

    method CompareAndSwap(expected: int, value: int) returns (swapped: bool)
      requires clock >= 0
      modifies this`nextPingAt, this`held
      ensures held == if swapped then old(held) + [value] else old(held)
      ensures swapped == (old(nextPingAt) == expected)
      ensures nextPingAt == if swapped then value else old(nextPingAt)
    {
      swapped := nextPingAt == expected;
      if swapped {
        nextPingAt := value;
        held := held + [value];
      }
    }

    /** nextPingAt had this value at some moment from position `from` of its history on. */
    ghost predicate Held(from: int, value: int)
      reads this`held
    {
      exists i :: 0 <= i < |held| && from <= i && held[i] == value
    }

    /** nextPingAt.Load(), some time later. */
    method Load() returns (value: int)
      requires Valid()
      modifies this
      ensures Valid() && pings == old(pings) && pushed == old(pushed) && clock >= old(clock) && moves >= old(moves)
      ensures value == nextPingAt && (value == old(nextPingAt) || Bumped(old(clock), clock, value))
      ensures old(closed) ==> closed
      ensures moves == old(moves) ==> value == old(nextPingAt) && closed == old(closed)
      ensures old(held) <= held && Held(|old(held)| - 1, value)
    {
      Interfere();
      value := nextPingAt;
      assert held[|held| - 1] == value;
    }

    /** Storing the first deadline, unless a pong is there first. */
    method FirstDeadline(first: int) returns (deadline: int)
      requires Valid() && first > 0 && nextPingAt == 0 && interval > 0
      modifies this
      ensures Valid() && pings == old(pings) && pushed == old(pushed) && clock >= old(clock) && moves >= old(moves)
      ensures old(closed) ==> closed
      ensures deadline == first || Bumped(old(clock), clock, deadline)
      ensures moves == old(moves) ==> deadline == nextPingAt == first && closed == old(closed)
      ensures old(held) <= held && Held(|old(held)| - 1, deadline)
    {
      Interfere();
      deadline := first;
      var swapped := CompareAndSwap(0, deadline);
      if swapped {
        assert held[|held| - 1] == deadline;
      } else {
        deadline := Load();
      }
    }

    /**
      The deadline a round acts on: the stored one, or one interval from now if there is none;
      when a pong comes first, also when that makes the swap fail, the one the pong set.  In
      every case it is a value that nextPingAt held during the call.
      */
    method Deadline(now: nat) returns (deadline: int)
      requires Valid() && now <= clock && interval > 0
      modifies this
      ensures Valid() && pings == old(pings) && pushed == old(pushed) && clock >= old(clock) && moves >= old(moves)
      ensures old(closed) ==> closed
      ensures old(held) <= held && Held(|old(held)| - 1, deadline)
      ensures deadline == (if old(nextPingAt) == 0 then now + interval else old(nextPingAt))
              || Bumped(old(clock), clock, deadline)
      ensures moves == old(moves) ==>
                closed == old(closed) && deadline == nextPingAt == (if old(nextPingAt) == 0 then now + interval else old(nextPingAt))
    {
      deadline := Load();
      if deadline == 0 {
        deadline := FirstDeadline(now + interval);
        Interfere();
      }
    }

    /** The push: a full queue gives the slot back. */
    method Push(now: nat, deadline: int, room: bool) returns (queued: bool)
      requires Valid() && interval > 0 && deadline >= 0
      requires nextPingAt >= now + interval
      requires pings != [] ==> pings[|pings| - 1] + interval <= deadline <= now && now <= clock
      requires pings == [] ==> now <= clock
      modifies this
      ensures Valid() && clock == old(clock) && queued == room && moves == old(moves) && closed == old(closed)
      ensures pings == if queued then old(pings) + [now] else old(pings)
      ensures pushed == if queued then old(pushed) + [clock] else old(pushed)
      ensures nextPingAt == if !queued && old(nextPingAt) == now + interval then deadline else old(nextPingAt)
    {
      if room {
        SpacedAppend(pings, interval, now);
        pings, pushed := pings + [now], pushed + [clock];
        return true;
      }
      var _ := CompareAndSwap(now + interval, deadline);
      return false;
    }

    /**
      One round for this connection, started at time `now`; `room` is whether the send queue
      has space when the round gets there.  A ping is queued only when the round of the previous
      one is at least one interval old, and a round that finds the queue full leaves no trace.
      A round that nobody disturbs queues its ping exactly when it is due.
      */
    method SchedulePing(now: int, room: bool) returns (queued: bool)
      requires Valid() && 0 <= now <= clock
      requires pings != [] ==> pings[|pings| - 1] <= now
      modifies this
      ensures Valid() && clock >= old(clock)
      ensures pings == if queued then old(pings) + [now] else old(pings)
      ensures pushed == if queued then old(pushed) + [clock] else old(pushed)
      ensures queued ==> room && interval > 0 && !old(closed)
      ensures queued && old(pings) != [] ==> old(pings)[|old(pings)| - 1] + interval <= now
      ensures moves == old(moves) ==>
                (queued <==> room && interval > 0 && !old(closed) && old(nextPingAt) != 0 && old(nextPingAt) <= now)
      ensures moves == old(moves) ==>
                nextPingAt == if queued || (interval > 0 && !old(closed) && old(nextPingAt) == 0) then now + interval
                              else old(nextPingAt)
    {
      if interval <= 0 || closed {
        return false;
      }
      var deadline := Deadline(now);
      if now < deadline {
        return false;
      }
      var mine := CompareAndSwap(deadline, now + interval);
      if !mine {
        return false;
      }
      // from here until the push, only pongs move nextPingAt, and only later
      assert pings != [] ==> pings[|pings| - 1] + interval <= deadline <= now;
      Interfere();
      assert nextPingAt >= now + interval;
      queued := Push(now, deadline, room);
    }
  }

  /** However rounds and pongs interleave, the rounds of n + 1 queued pings span at least n intervals. */
  lemma PingsInSpan(timer: PingTimer, i: nat, j: nat)
    requires timer.Valid() && i <= j < |timer.pings|
    ensures timer.interval > 0 && (j - i) * timer.interval <= timer.pings[j] - timer.pings[i]
  {
    Distance(timer.pings, timer.interval, i, j);
  }

  /** The pings themselves can be closer, by as much as the earlier one was queued late in its round. */
  lemma QueuedApart(timer: PingTimer, i: nat, j: nat)
    requires timer.Valid() && i <= j < |timer.pings|
    ensures timer.pushed[i] >= timer.pings[i]
    ensures timer.pushed[j] - timer.pushed[i] >= (j - i) * timer.interval - (timer.pushed[i] - timer.pings[i])
  {
    PingsInSpan(timer, i, j);
  }
}
