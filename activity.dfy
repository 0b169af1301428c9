/** The `activity` table: the last time each member was seen. Times are
    integer microseconds since the epoch; a stored time is an instant in
    UTC. A number given as a time goes through `datetime.fromtimestamp`,
    which yields the wall-clock time of the host (`localOffset`
    microseconds ahead of UTC) with no time zone attached. */
module Activity {
  import opened Wrappers

  /** `datetime(1, 1, 1)` and the last microsecond of year 9999, in
      microseconds since the epoch: the range of `datetime`. */
  const MinWall: int := -62135596800000000
  const MaxWall: int := 253402300799999999

  const Second: int := 1000000
  const Millisecond: int := 1000
  const Day: int := 86400 * Second

  /** A time as callers give it: a number of seconds, a `datetime` (its
      wall-clock time and its UTC offset, `None` when it has no time zone),
      or nothing. */
  datatype Stamp = Seconds(n: int) | Moment(wall: int, offset: Option<int>) | Missing

  datatype TimeError = OutOfRange

  /** `datetime.fromtimestamp`: the host's wall-clock time for `micros`
      after the epoch, or a `ValueError`. It raises for a wall time outside
      the years 1 to 9999, and also on the first day of year 1: to detect a
      fold it converts the time one day earlier too, which lands in year 0. */
  function FromTimestamp(micros: int, localOffset: int): (r: Option<int>)
    ensures r.Some? <==> MinWall + Day <= micros + localOffset <= MaxWall
    ensures r.Some? ==> r.value - localOffset == micros
  {
    if MinWall + Day <= micros + localOffset <= MaxWall then Some(micros + localOffset) else None
  }

  /** The time `update` stores: a number is read as seconds, and as
      milliseconds when `fromtimestamp` rejects it as seconds; a missing
      time is `now`; a time without a time zone is taken as UTC. */
  function Normalize(stamp: Stamp, now: int, localOffset: int): (r: Result<int, TimeError>)
    ensures stamp.Missing? ==> r == Ok(now)
    ensures stamp.Moment? ==> r == Ok(stamp.wall - stamp.offset.GetOr(0))
    ensures stamp.Seconds? && FromTimestamp(stamp.n * Second, localOffset).Some? ==>
      r == Ok(stamp.n * Second + localOffset)
    ensures stamp.Seconds? && FromTimestamp(stamp.n * Second, localOffset).None? ==>
      (r.Ok? <==> FromTimestamp(stamp.n * Millisecond, localOffset).Some?)
      && (r.Ok? ==> r.value == stamp.n * Millisecond + localOffset)
  {
    match stamp
    case Seconds(n) =>
      (match FromTimestamp(n * Second, localOffset)
       case Some(wall) => Ok(wall)
       case None =>
         match FromTimestamp(n * Millisecond, localOffset)
         case Some(wall) => Ok(wall)
         case None => Err(OutOfRange))
    case Moment(wall, offset) => Ok(wall - offset.GetOr(0))
    case Missing => Ok(now)
  }

  /** The time `add` stores: a number is read as seconds only. */
  function AddNormalize(stamp: Stamp, now: int, localOffset: int): (r: Result<int, TimeError>)
    ensures stamp.Seconds? ==>
      (r.Ok? <==> FromTimestamp(stamp.n * Second, localOffset).Some?)
    ensures !stamp.Seconds? ==> r == Normalize(stamp, now, localOffset)
  {
    match stamp
    case Seconds(n) =>
      (match FromTimestamp(n * Second, localOffset)
       case Some(wall) => Ok(wall)
       case None => Err(OutOfRange))
    case _ => Normalize(stamp, now, localOffset)
  }

  /** `add` and `update` agree on every time `add` accepts; `update` also
      accepts numbers `add` rejects, when they read as milliseconds. */
  lemma AddAgreesWithUpdate(stamp: Stamp, now: int, localOffset: int)
    ensures AddNormalize(stamp, now, localOffset).Ok? ==>
      Normalize(stamp, now, localOffset) == AddNormalize(stamp, now, localOffset)
    ensures AddNormalize(stamp, now, localOffset).Err? && Normalize(stamp, now, localOffset).Ok? ==>
      stamp.Seconds? && Normalize(stamp, now, localOffset).value == stamp.n * Millisecond + localOffset
  {
  }

  /** With the host within a day of UTC, a number of seconds up to 2^37
      (past the year 6000) is read as seconds. */
  lemma SecondsAreSeconds(n: int, now: int, localOffset: int)
    requires 0 <= n <= 0x20_0000_0000
    requires -Day <= localOffset <= Day
    ensures Normalize(Seconds(n), now, localOffset) == Ok(n * Second + localOffset)
  {
    assert n * Second <= 0x20_0000_0000 * Second;
  }

  /** With the host within a day of UTC, a number of milliseconds from 2^40
      (the year 2004) up to 2^47 (past the year 6000) is read as
      milliseconds: `update` accepts the millisecond times Discord gives. */
  lemma MillisecondsAreMilliseconds(n: int, now: int, localOffset: int)
    requires 0x100_0000_0000 <= n <= 0x8000_0000_0000
    requires -Day <= localOffset <= Day
    ensures Normalize(Seconds(n), now, localOffset) == Ok(n * Millisecond + localOffset)
  {
    assert n * Second >= 0x100_0000_0000 * Second;
    assert n * Millisecond <= 0x8000_0000_0000 * Millisecond;
  }

  /** The table after a member is seen at `t`: the row is created, or
      moved to `t` when `t` is strictly later. */
  function Touched(seen: map<int, int>, member: int, t: int): (r: map<int, int>)
    ensures r.Keys == seen.Keys + {member}
    ensures forall m :: m in seen && m != member ==> r[m] == seen[m]
    ensures member !in seen ==> r[member] == t
    ensures member in seen ==> r[member] == (if t > seen[member] then t else seen[member])
  {
    if member !in seen || t > seen[member] then seen[member := t] else seen
  }

  /** No stored time ever goes back. */
  lemma TouchedNeverDecreases(seen: map<int, int>, member: int, t: int)
    ensures forall m :: m in seen ==> m in Touched(seen, member, t) && Touched(seen, member, t)[m] >= seen[m]
    ensures Touched(seen, member, t)[member] >= t
  {
  }

  /** An earlier or equal time changes nothing. */
  lemma EarlierChangesNothing(seen: map<int, int>, member: int, t: int)
    requires member in seen && t <= seen[member]
    ensures Touched(seen, member, t) == seen
  {
  }

  /** The order in which the times of a member arrive does not matter. */
  lemma TouchedCommutes(seen: map<int, int>, member: int, a: int, b: int)
    ensures Touched(Touched(seen, member, a), member, b) == Touched(Touched(seen, member, b), member, a)
  {
    var ab, ba := Touched(Touched(seen, member, a), member, b), Touched(Touched(seen, member, b), member, a);
    assert ab.Keys == ba.Keys;
    assert ab[member] == ba[member];
  }

  class ActivityTable {
    /** The `activity` table: the time each member was last seen. */
    var seen: map<int, int>

    constructor (seen: map<int, int>)
      ensures this.seen == seen
    {
      this.seen := seen;
    }

    /** `ActivityModel.add`: a new row. */
    method Add(member: int, stamp: Stamp, now: int, localOffset: int) returns (r: Result<int, TimeError>)
      requires member !in seen
      modifies this
      ensures r == AddNormalize(stamp, now, localOffset)
      ensures r.Ok? ==> seen == old(seen)[member := r.value]
      ensures r.Err? ==> seen == old(seen)
    {
      var t: int;
      match stamp {
        case Seconds(n) =>
          var wall := FromTimestamp(n * Second, localOffset);
          if wall.None? {
            return Err(OutOfRange);
          }
          t := wall.value;
        case Moment(wall, offset) =>
          t := wall - offset.GetOr(0);
        case Missing =>
          t := now;
      }
      seen := seen[member := t];
      r := Ok(t);
    }

    /** `ActivityModel.update`: the row is created, or moved forward to a
        strictly later time. The answer is the row's time afterwards. */
    method Update(member: int, stamp: Stamp, now: int, localOffset: int) returns (r: Result<int, TimeError>)
      modifies this
      ensures Normalize(stamp, now, localOffset).Err? ==>
        r == Normalize(stamp, now, localOffset) && seen == old(seen)
      ensures Normalize(stamp, now, localOffset).Ok? ==>
        seen == Touched(old(seen), member, Normalize(stamp, now, localOffset).value)
        && r == Ok(seen[member])
    {
      var t: int;
      match stamp {
        case Seconds(n) =>
          var wall := FromTimestamp(n * Second, localOffset);
          if wall.None? {
            wall := FromTimestamp(n * Millisecond, localOffset);
          }
          if wall.None? {
            return Err(OutOfRange);
          }
          t := wall.value;
        case Moment(wall, offset) =>
          t := wall - offset.GetOr(0);
        case Missing =>
          t := now;
      }
      if member !in seen {
        var _ := Add(member, Moment(t, Some(0)), now, localOffset);
      } else if t > seen[member] {
        seen := seen[member := t];
      }
      r := Ok(seen[member]);
    }
  }
}
