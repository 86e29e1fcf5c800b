/** Daily wall-clock recurrence under an arbitrary time zone. Instants are nanoseconds;
    civil dates are day numbers. */
module Recurrence {
  import opened Push

  const DAY_SECONDS: int := 86400

  // The start of the m-th UTC minute.
  function Instant(m: int): int {
    m * 60_000_000_000
  }

  // Whole seconds since the epoch.
  function Seconds(t: int): int {
    t / 1_000_000_000
  }

  // The offset from UTC, in seconds, at every instant; at most a day either way.
  datatype Offsets = Offsets(at: int -> int)

  ghost predicate Bounded(z: Offsets) {
    forall t: int :: -DAY_SECONDS <= z.at(t) <= DAY_SECONDS
  }

  type Zone = z: Offsets | Bounded(z) witness Offsets((t: int) => 0)

  // zone is None when the time zone name cannot be loaded.
  datatype Daily = Daily(localTime: int, zone: Option<Zone>)
  {
    predicate Valid() {
      0 <= localTime <= 2359 && localTime % 100 <= 59 && zone.Some?
    }
  }

  // The wall clock, as minutes since local day 0.
  function WallMinute(z: Zone, t: int): int {
    (Seconds(t) + z.at(t)) / 60
  }

  function LocalDate(z: Zone, t: int): int {
    WallMinute(z, t) / 1440
  }

  function Hhmm(z: Zone, t: int): int {
    var m := WallMinute(z, t) % 1440;
    m / 60 * 100 + m % 60
  }

  // The m-th UTC minute shows the given time on the given local date.
  predicate Matches(z: Zone, hhmm: int, date: int, m: int) {
    LocalDate(z, Instant(m)) == date && Hhmm(z, Instant(m)) == hhmm
  }

  // m is the first of all minutes that does.
  ghost predicate IsFirst(z: Zone, hhmm: int, date: int, m: int) {
    Matches(z, hhmm, date, m) && forall k :: k < m ==> !Matches(z, hhmm, date, k)
  }

  // The occurrence of a date: the instant of its first match.
  ghost predicate OccursAt(z: Zone, hhmm: int, date: int, t: int) {
    exists m :: IsFirst(z, hhmm, date, m) && t == Instant(m)
  }

  // The date's occurrence, if it has one, is not after the given instant.
  ghost predicate Missed(z: Zone, hhmm: int, date: int, after: int) {
    forall t :: OccursAt(z, hhmm, date, t) ==> t <= after
  }

  // What Next promises: the occurrence of the earliest of eight local dates whose
  // occurrence lies after the given instant.
  ghost predicate IsNext(d: Daily, after: int, r: Option<int>) {
    if !d.Valid() then r.None?
    else
      var z, hhmm, today := d.zone.value, d.localTime, LocalDate(d.zone.value, after);
      if r.None? then forall date :: today <= date < today + 8 ==> Missed(z, hhmm, date, after)
      else
        && r.value > after
        && today <= LocalDate(z, r.value) < today + 8
        && OccursAt(z, hhmm, LocalDate(z, r.value), r.value)
        && forall date :: today <= date < LocalDate(z, r.value) ==> Missed(z, hhmm, date, after)
  }

  lemma ValidIs(d: Daily)
    ensures d.Valid() <==> 0 <= d.localTime < 2400 && 0 <= d.localTime % 100 < 60 && d.zone.Some?
  {
  }

  lemma MinuteSeconds(m: int)
    ensures Seconds(Instant(m)) == 60 * m
  {
  }

  lemma MatchesAtOneMinute(z: Zone, hhmm: int, date: int, m: int)
    requires Matches(z, hhmm, date, m)
    ensures WallMinute(z, Instant(m)) == date * 1440 + hhmm / 100 * 60 + hhmm % 100
    ensures 0 <= hhmm / 100 * 60 + hhmm % 100 < 1440
    ensures 60 * WallMinute(z, Instant(m)) <= 60 * m + z.at(Instant(m)) < 60 * WallMinute(z, Instant(m)) + 60
    ensures LocalDate(z, Instant(m)) == date
  {
    MinuteSeconds(m);
  }

  // 36 hours on either side of noon hold every minute that can show the date.
  lemma WindowIsWideEnough(z: Zone, hhmm: int, date: int, m: int)
    requires Matches(z, hhmm, date, m)
    ensures date * 1440 - 1440 <= m < date * 1440 + 2880
  {
  }

  method FirstOn(z: Zone, hhmm: int, date: int) returns (m: Option<int>)
    ensures m.Some? ==> IsFirst(z, hhmm, date, m.value)
    ensures m.None? ==> forall k :: !IsFirst(z, hhmm, date, k)
  {
    hide Matches;
    var noon := date * 1440 + 720;
    var k := noon - 36 * 60;
    var end := noon + 36 * 60;
    forall j | j < k ensures !Matches(z, hhmm, date, j) {
      if Matches(z, hhmm, date, j) { WindowIsWideEnough(z, hhmm, date, j); }
    }
    while k < end
      invariant k <= end && forall j :: j < k ==> !Matches(z, hhmm, date, j)
    {
      if Matches(z, hhmm, date, k) {
        return Some(k);
      }
      k := k + 1;
    }
    forall j ensures !Matches(z, hhmm, date, j) {
      if Matches(z, hhmm, date, j) { WindowIsWideEnough(z, hhmm, date, j); }
    }
    m := None;
  }

  method Next(d: Daily, after: int) returns (r: Option<int>)
    ensures IsNext(d, after, r)
  {
    hide IsFirst, Matches, OccursAt, WallMinute, LocalDate, Hhmm, Instant;
    if !d.Valid() {
      return None;
    }
    var z := d.zone.value;
    var today := LocalDate(z, after);
    for day := 0 to 8
      invariant forall date :: today <= date < today + day ==> Missed(z, d.localTime, date, after)
    {
      var first := FirstOn(z, d.localTime, today + day);
      // Only the first match of a date counts: a repeated local hour is not sent twice.
      if first.Some? {
        OnlyOccurrence(z, d.localTime, today + day, first.value);
        if Instant(first.value) > after {
          return Some(Instant(first.value));
        }
      } else {
        NoOccurrence(z, d.localTime, today + day, after);
      }
    }
    r := None;
  }

  lemma NoOccurrence(z: Zone, hhmm: int, date: int, after: int)
    requires forall k :: !IsFirst(z, hhmm, date, k)
    ensures Missed(z, hhmm, date, after)
  {
  }

  lemma OnlyOccurrence(z: Zone, hhmm: int, date: int, m: int)
    requires IsFirst(z, hhmm, date, m)
    ensures OccursAt(z, hhmm, date, Instant(m)) && LocalDate(z, Instant(m)) == date
    ensures forall t :: OccursAt(z, hhmm, date, t) ==> t == Instant(m)
  {
  }

  lemma OccursOnce(z: Zone, hhmm: int, date: int, t1: int, t2: int)
    requires OccursAt(z, hhmm, date, t1) && OccursAt(z, hhmm, date, t2)
    ensures t1 == t2 && LocalDate(z, t1) == date
  {
  }

  lemma NextIsUnique(d: Daily, after: int, r1: Option<int>, r2: Option<int>)
    requires IsNext(d, after, r1) && IsNext(d, after, r2)
    ensures r1 == r2
  {
    hide OccursAt, LocalDate;
    if r1.Some? && r2.Some? {
      var z, hhmm := d.zone.value, d.localTime;
      var d1, d2 := LocalDate(z, r1.value), LocalDate(z, r2.value);
      assert d1 < d2 ==> Missed(z, hhmm, d1, after);
      assert d2 < d1 ==> Missed(z, hhmm, d2, after);
      OccursOnce(z, hhmm, d1, r1.value, r2.value);
    } else if r1.Some? {
      NextNotMissed(d, after, r1.value);
    } else if r2.Some? {
      NextNotMissed(d, after, r2.value);
    }
  }

  lemma NextNotMissed(d: Daily, after: int, t: int)
    requires IsNext(d, after, Some(t))
    ensures d.Valid() && !Missed(d.zone.value, d.localTime, LocalDate(d.zone.value, t), after)
  {
  }

  lemma {:induction false} FirstExists(z: Zone, hhmm: int, date: int, k: int) returns (m: Option<int>)
    requires k <= date * 1440 + 2880 && forall j :: j < k ==> !Matches(z, hhmm, date, j)
    ensures m.Some? ==> IsFirst(z, hhmm, date, m.value)
    ensures m.None? ==> forall j :: !IsFirst(z, hhmm, date, j)
    decreases date * 1440 + 2880 - k
  {
    hide Matches;
    if k == date * 1440 + 2880 {
      m := None;
      forall j ensures !Matches(z, hhmm, date, j) {
        if Matches(z, hhmm, date, j) { WindowIsWideEnough(z, hhmm, date, j); }
      }
    } else if Matches(z, hhmm, date, k) {
      m := Some(k);
    } else {
      m := FirstExists(z, hhmm, date, k + 1);
    }
  }

  lemma {:induction false} NextExists(d: Daily, after: int, day: nat) returns (r: Option<int>)
    requires d.Valid() && day <= 8
    requires forall date :: LocalDate(d.zone.value, after) <= date < LocalDate(d.zone.value, after) + day ==>
               Missed(d.zone.value, d.localTime, date, after)
    ensures IsNext(d, after, r)
    decreases 8 - day
  {
    hide IsFirst, Matches, OccursAt, WallMinute, LocalDate, Instant;
    var z := d.zone.value;
    var date := LocalDate(z, after) + day;
    if day == 8 {
      r := None;
    } else {
      forall j | j < date * 1440 - 1440 ensures !Matches(z, d.localTime, date, j) {
        if Matches(z, d.localTime, date, j) { WindowIsWideEnough(z, d.localTime, date, j); }
      }
      var first := FirstExists(z, d.localTime, date, date * 1440 - 1440);
      if first.None? {
        NoOccurrence(z, d.localTime, date, after);
        r := NextExists(d, after, day + 1);
      } else {
        OnlyOccurrence(z, d.localTime, date, first.value);
        if Instant(first.value) > after {
          r := Some(Instant(first.value));
        } else {
          r := NextExists(d, after, day + 1);
        }
      }
    }
  }

  // The result of Next, as a value.
  ghost function NextDue(d: Daily, after: int): (r: Option<int>)
    ensures IsNext(d, after, r)
  {
    assert exists r :: IsNext(d, after, r) by {
      if d.Valid() {
        var r := NextExists(d, after, 0);
      } else {
        assert IsNext(d, after, None);
      }
    }
    var r :| IsNext(d, after, r);
    r
  }

  // ---- Order of occurrences --------------------------------------------------------------

  // No two offsets between two instants are a whole day apart.
  ghost predicate OffsetsClose(z: Zone, from: int, to: int) {
    forall a: int, b: int :: from <= a <= to && from <= b <= to ==> z.at(a) - z.at(b) < DAY_SECONDS
  }

  // Matches of a later date come later: always when the dates are three or more apart, and
  // under close offsets when they are not.
  lemma LaterDateLater(z: Zone, hhmm: int, d1: int, m1: int, d2: int, m2: int, from: int, to: int)
    requires d1 < d2 && Matches(z, hhmm, d1, m1) && Matches(z, hhmm, d2, m2) && OffsetsClose(z, from, to)
    requires d2 < d1 + 3 ==> from <= Instant(m1) <= to && from <= Instant(m2) <= to
    ensures m1 < m2
  {
    hide WallMinute, LocalDate, Hhmm, Matches, Instant;
    if d2 < d1 + 3 {
      MatchesAtOneMinute(z, hhmm, d1, m1);
      MatchesAtOneMinute(z, hhmm, d2, m2);
      assert z.at(Instant(m1)) - z.at(Instant(m2)) < DAY_SECONDS;
    } else {
      WindowIsWideEnough(z, hhmm, d1, m1);
      WindowIsWideEnough(z, hhmm, d2, m2);
    }
  }

  // From three days before the local date of an instant to thirteen days after it.
  ghost predicate CloseAround(z: Zone, after: int) {
    var today := LocalDate(z, after);
    OffsetsClose(z, Instant((today - 3) * 1440), Instant((today + 13) * 1440))
  }

  lemma OldDatesPassed(z: Zone, hhmm: int, date: int, m: int, after: int)
    requires CloseAround(z, after) && Matches(z, hhmm, date, m) && date < LocalDate(z, after) - 1
    ensures Instant(m) <= after
  {
    WindowIsWideEnough(z, hhmm, date, m);
    if date == LocalDate(z, after) - 2 {
      assert z.at(after) - z.at(Instant(m)) < DAY_SECONDS;
    }
  }

  // Where an occurrence stands relative to the one Next has found.
  lemma Compare(d: Daily, after: int, t: int, date: int, u: int)
    requires d.Valid() && CloseAround(d.zone.value, after) && IsNext(d, after, Some(t))
    requires OccursAt(d.zone.value, d.localTime, date, u) && u > after
    ensures date >= LocalDate(d.zone.value, after) - 1
    ensures date < LocalDate(d.zone.value, t) ==> u < t && date == LocalDate(d.zone.value, after) - 1
    ensures date >= LocalDate(d.zone.value, t) ==> t <= u
  {
    hide LocalDate, Matches;
    var z, hhmm := d.zone.value, d.localTime;
    var today, found := LocalDate(z, after), LocalDate(z, t);
    var from, to := Instant((today - 3) * 1440), Instant((today + 13) * 1440);
    var mt :| IsFirst(z, hhmm, found, mt) && t == Instant(mt);
    var m :| IsFirst(z, hhmm, date, m) && u == Instant(m);
    WindowIsWideEnough(z, hhmm, found, mt);
    WindowIsWideEnough(z, hhmm, date, m);
    if date < today - 1 {
      OldDatesPassed(z, hhmm, date, m, after);
    }
    if date < found {
      LaterDateLater(z, hhmm, date, m, found, mt, from, to);
      assert today <= date ==> Missed(z, hhmm, date, after);
    } else if date > found {
      LaterDateLater(z, hhmm, found, mt, date, m, from, to);
    } else {
      OccursOnce(z, hhmm, date, t, u);
    }
  }

  // When the offsets in the searched window are less than a day apart, Next is the first
  // occurrence after the given instant over the searched dates.
  lemma FirstOverSearchedDates(d: Daily, after: int, t: int, date: int, u: int)
    requires d.Valid() && IsNext(d, after, Some(t))
    requires var today := LocalDate(d.zone.value, after);
             && OffsetsClose(d.zone.value, Instant((today - 1) * 1440), Instant((today + 9) * 1440))
             && today <= date < today + 8
    requires OccursAt(d.zone.value, d.localTime, date, u) && u > after
    ensures t <= u
  {
    hide LocalDate, Matches;
    var z, hhmm := d.zone.value, d.localTime;
    var today, found := LocalDate(z, after), LocalDate(z, t);
    var mt :| IsFirst(z, hhmm, found, mt) && t == Instant(mt);
    var m :| IsFirst(z, hhmm, date, m) && u == Instant(m);
    WindowIsWideEnough(z, hhmm, found, mt);
    WindowIsWideEnough(z, hhmm, date, m);
    if date > found {
      LaterDateLater(z, hhmm, found, mt, date, m, Instant((today - 1) * 1440), Instant((today + 9) * 1440));
    } else if date == found {
      OccursOnce(z, hhmm, date, t, u);
    }
    NotMissed(z, hhmm, date, u, after);
  }

  lemma NotMissed(z: Zone, hhmm: int, date: int, u: int, after: int)
    requires OccursAt(z, hhmm, date, u) && u > after
    ensures !Missed(z, hhmm, date, after)
  {
  }

  // Next is the first occurrence over the dates from today on, and over all dates exactly
  // when yesterday's occurrence is not still to come.
  lemma FirstOccurrenceOverall(d: Daily, after: int, t: int)
    requires d.Valid() && CloseAround(d.zone.value, after) && IsNext(d, after, Some(t))
    ensures forall date, u ::
              OccursAt(d.zone.value, d.localTime, date, u) && u > after && date >= LocalDate(d.zone.value, after) ==>
                t <= u
    ensures (forall date, u :: OccursAt(d.zone.value, d.localTime, date, u) && u > after ==> t <= u)
       <==> Missed(d.zone.value, d.localTime, LocalDate(d.zone.value, after) - 1, after)
  {
    hide LocalDate, OccursAt;
    forall date, u | OccursAt(d.zone.value, d.localTime, date, u) && u > after
      ensures date >= LocalDate(d.zone.value, after) - 1
      ensures date < LocalDate(d.zone.value, t) ==> u < t && date == LocalDate(d.zone.value, after) - 1
      ensures date >= LocalDate(d.zone.value, t) ==> t <= u
    {
      Compare(d, after, t, date, u);
    }
  }

  // Under a fixed offset of whole minutes a date has one occurrence, at its wall time.
  lemma FixedOffset(minutes: int, hhmm: int, date: int, t: int)
    requires -1440 <= minutes <= 1440 && 0 <= hhmm <= 2359 && hhmm % 100 <= 59
    ensures OccursAt(Fixed(minutes), hhmm, date, t) <==>
            t == (date * 1440 + hhmm / 100 * 60 + hhmm % 100 - minutes) * 60_000_000_000
  {
    var z := Fixed(minutes);
    var m := date * 1440 + hhmm / 100 * 60 + hhmm % 100 - minutes;
    FixedMatch(minutes, hhmm, date, m);
    forall k ensures Matches(z, hhmm, date, k) <==> k == m {
      FixedMatch(minutes, hhmm, date, k);
    }
  }

  lemma FixedMatch(minutes: int, hhmm: int, date: int, k: int)
    requires -1440 <= minutes <= 1440 && 0 <= hhmm <= 2359 && hhmm % 100 <= 59
    ensures Matches(Fixed(minutes), hhmm, date, k) <==> k == date * 1440 + hhmm / 100 * 60 + hhmm % 100 - minutes
  {
    MinuteSeconds(k);
    assert Fixed(minutes).at(Instant(k)) == minutes * 60;
    assert WallMinute(Fixed(minutes), Instant(k)) == k + minutes;
  }

  ghost function Fixed(minutes: int): Zone
    requires -1440 <= minutes <= 1440
  {
    Offsets((t: int) => minutes * 60)
  }

  // In such a zone Next is the wall time of today if it is still to come, and else of tomorrow.
  lemma NextUnderFixedOffset(minutes: int, hhmm: int, today: int, second: int, t: int)
    requires -1440 <= minutes <= 1440 && 0 <= hhmm <= 2359 && hhmm % 100 <= 59 && 0 <= second < 86_400
    requires var after := (today * 86_400 + second - minutes * 60) * 1_000_000_000;
             IsNext(Daily(hhmm, Some(Fixed(minutes))), after, Some(t))
    ensures var wall := hhmm / 100 * 60 + hhmm % 100;
            t == ((if second < wall * 60 then today else today + 1) * 1440 + wall - minutes) * 60_000_000_000
  {
    hide OccursAt;
    var z := Fixed(minutes);
    var after := (today * 86_400 + second - minutes * 60) * 1_000_000_000;
    var wall := hhmm / 100 * 60 + hhmm % 100;
    assert Seconds(after) == today * 86_400 + second - minutes * 60;
    assert WallMinute(z, after) == today * 1440 + second / 60;
    assert LocalDate(z, after) == today;
    FixedOffset(minutes, hhmm, LocalDate(z, t), t);
    FixedOffset(minutes, hhmm, today, (today * 1440 + wall - minutes) * 60_000_000_000);
    FixedOffset(minutes, hhmm, today + 1, ((today + 1) * 1440 + wall - minutes) * 60_000_000_000);
    if LocalDate(z, t) > today && second < wall * 60 {
      NotMissed(z, hhmm, today, (today * 1440 + wall - minutes) * 60_000_000_000, after);
    }
    if LocalDate(z, t) > today + 1 {
      NotMissed(z, hhmm, today + 1, ((today + 1) * 1440 + wall - minutes) * 60_000_000_000, after);
    }
  }

  // The first occurrence can be missed: a zone that jumps over 23:55 at 23:50, is on the
  // next date for two minutes and jumps back.
  lemma YesterdayStillToCome() returns (d: Daily, after: int, t: int)
    ensures d.Valid() && CloseAround(d.zone.value, after) && IsNext(d, after, Some(t))
    ensures !Missed(d.zone.value, d.localTime, LocalDate(d.zone.value, after) - 1, after)
  {
    var z := JumpingZone();
    d := Daily(2355, Some(z));
    after := Instant(1430);
    JumpsAt(after);
    assert WallMinute(z, after) == 1490 && LocalDate(z, after) == 1;
    JumpingZoneFirst(0);
    JumpingZoneFirst(1);
    t := Instant(2875);
    OnlyOccurrence(z, 2355, 0, 1435);
    OnlyOccurrence(z, 2355, 1, 2875);
  }

  ghost function JumpingZone(): Zone {
    Offsets((t: int) => if Instant(1430) <= t < Instant(1432) then 3600 else 0)
  }

  lemma JumpsAt(t: int)
    ensures JumpingZone().at(t) == if Instant(1430) <= t < Instant(1432) then 3600 else 0
  {
  }

  lemma JumpingZoneFirst(date: int)
    requires 0 <= date <= 1
    ensures IsFirst(JumpingZone(), 2355, date, date * 1440 + 1435)
  {
    var z := JumpingZone();
    forall k | k < date * 1440 + 1435 ensures !Matches(z, 2355, date, k) {
      if Matches(z, 2355, date, k) {
        MatchesAtOneMinute(z, 2355, date, k);
        JumpsAt(Instant(k));
      }
    }
    MinuteSeconds(date * 1440 + 1435);
    JumpsAt(Instant(date * 1440 + 1435));
  }

  // Occurrences at different instants are on different local dates.
  lemma OneOccurrencePerDate(z: Zone, hhmm: int, t1: int, t2: int)
    requires OccursAt(z, hhmm, LocalDate(z, t1), t1) && OccursAt(z, hhmm, LocalDate(z, t2), t2)
    ensures t1 == t2 <==> LocalDate(z, t1) == LocalDate(z, t2)
  {
  }
}
