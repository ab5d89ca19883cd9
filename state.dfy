/**
 * The spin cooldown and history state of backend/state.py.
 *
 * The source keeps two module globals, `last_spin` and `history`; here they are the
 * fields of one SpinState object. Timestamps are integer microsecond ticks (the
 * resolution of Python's datetime) and the current time is passed in as `now`
 * instead of being read from the clock.
 */
module State {
  import opened Options

  const Second: int := 1_000_000
  const Minute: int := 60 * Second
  /** The fixed cooldown between two spins: one hour. */
  const Cooldown: int := 3600 * Second
  /** `register_spin`'s default duration, in minutes. */
  const DefaultMinutes: int := 2

  /**
   * A stored `ends_at`: absent or empty, present but not a parseable timestamp, or a
   * timestamp.
   */
  datatype EndsAt = Missing | Unparsable | At(t: int)

  /** One history record `{member, time, ends_at}`. */
  datatype Entry = Entry(member: string, time: int, endsAt: EndsAt)

  /** `can_spin`'s rule: never spun, or at least one hour since the last spin. */
  function CooldownOver(lastSpin: Option<int>, now: int): (ok: bool)
    ensures lastSpin.None? ==> ok
    ensures lastSpin.Some? ==> (ok <==> now >= lastSpin.value + Cooldown)
    ensures lastSpin == Some(now) ==> !ok
  {
    match lastSpin
    case None => true
    case Some(last) => now - last >= Cooldown
  }

  /** The record `register_spin(member, minutes)` appends when called at `now`. */
  function SpinEntry(member: string, now: int, minutes: int): (e: Entry)
    ensures e.member == member && e.time == now
    ensures e.endsAt.At? && e.endsAt.t - e.time == minutes * Minute
    ensures minutes > 0 ==> e.endsAt.t > e.time
  {
    Entry(member, now, At(now + minutes * Minute))
  }

  /** Entries appear in order of their `time`. */
  ghost predicate Chronological(h: seq<Entry>) {
    forall i, j :: 0 <= i < j < |h| ==> h[i].time <= h[j].time
  }

  /** Consecutive entries are at least one cooldown apart. */
  ghost predicate SpacedByCooldown(h: seq<Entry>) {
    forall i :: 0 < i < |h| ==> h[i].time - h[i - 1].time >= Cooldown
  }

  class SpinState {
    var lastSpin: Option<int>
    var history: seq<Entry>

    /** `last_spin` is the time of the latest record, and absent exactly when there is none. */
    ghost predicate Valid()
      reads this
    {
      (history == [] <==> lastSpin.None?) &&
      (history != [] ==> lastSpin == Some(history[|history| - 1].time))
    }

    /** The state at import time: never spun, empty history. */
    constructor ()
      ensures Valid()
      ensures lastSpin == None && history == []
    {
      lastSpin := None;
      history := [];
    }

    /**
     * `can_spin()` at time `now`: in a valid state, allowed exactly when the history
     * is empty or its latest record is at least one hour old.
     */
    function CanSpin(now: int): (ok: bool)
      reads this
      ensures lastSpin.None? ==> ok
      ensures Valid() ==> (ok <==> history == [] || now - history[|history| - 1].time >= Cooldown)
    {
      CooldownOver(lastSpin, now)
    }

    /** `register_spin(member_name, minutes)` at time `now`. */
    method RegisterSpin(memberName: string, now: int, minutes: int := DefaultMinutes)
      modifies this
      ensures Valid()
      ensures lastSpin == Some(now)
      ensures forall t :: CanSpin(t) <==> t >= now + Cooldown
      ensures history == old(history) + [SpinEntry(memberName, now, minutes)]
      ensures Chronological(old(history)) && (old(history) == [] || old(history)[|old(history)| - 1].time <= now)
              ==> Chronological(history)
    {
      var entry := SpinEntry(memberName, now, minutes);
      if Chronological(history) && (history == [] || history[|history| - 1].time <= now) {
        AppendKeepsChronological(history, entry);
      }
      lastSpin := Some(now);
      history := history + [entry];
    }
  }

  /** With no prior spin, spinning is allowed at any time. */
  lemma NeverSpunMaySpin(now: int)
    ensures CooldownOver(None, now)
  {
  }

  /** After a spin, spinning is allowed again exactly from one hour later on. */
  lemma CooldownWindow(last: int, now: int)
    ensures CooldownOver(Some(last), now) <==> now >= last + Cooldown
    ensures now < last + Cooldown ==> !CooldownOver(Some(last), now)
    ensures CooldownOver(Some(last), last + Cooldown)
  {
  }

  lemma AppendKeepsChronological(h: seq<Entry>, e: Entry)
    requires Chronological(h)
    requires h == [] || h[|h| - 1].time <= e.time
    ensures Chronological(h + [e])
  {
  }

  /** Any two records of a history whose neighbours are a cooldown apart are a cooldown apart. */
  lemma {:induction false} SpacedEntriesFarApart(h: seq<Entry>, i: int, j: int)
    requires SpacedByCooldown(h)
    requires 0 <= i < j < |h|
    ensures h[j].time - h[i].time >= Cooldown
    decreases j
  {
    if i < j - 1 {
      SpacedEntriesFarApart(h, i, j - 1);
    }
  }

  /** A history spaced by the cooldown is strictly chronological. */
  lemma SpacedIsChronological(h: seq<Entry>)
    requires SpacedByCooldown(h)
    ensures Chronological(h)
  {
    forall i, j | 0 <= i < j < |h| ensures h[i].time <= h[j].time {
      SpacedEntriesFarApart(h, i, j);
    }
  }

  /** In a spaced history, no one-hour window `[t, t + Cooldown)` holds two records. */
  lemma AtMostOneSpinPerWindow(h: seq<Entry>, i: int, j: int, t: int)
    requires SpacedByCooldown(h)
    requires 0 <= i < |h| && 0 <= j < |h|
    requires t <= h[i].time < t + Cooldown && t <= h[j].time < t + Cooldown
    ensures i == j
  {
    if i < j {
      SpacedEntriesFarApart(h, i, j);
    } else if j < i {
      SpacedEntriesFarApart(h, j, i);
    }
  }
}
