/**
 * The usage statistics tracker of src/app/core/services/stats.service.ts: the counters as a
 * value with its transitions and its storage snapshot, then the service object itself.
 */
module StatsSpec {
  import opened Common

  datatype Stats = Stats(totalLogins: int, totalAttempts: int, totalTimeSpent: int, lastLoginDate: Option<string>)

  /** A parsed storage snapshot; `None` is a field that is missing or `null`. */
  datatype Snapshot = Snapshot(totalLogins: Option<int>, totalAttempts: Option<int>, totalTimeSpent: Option<int>, lastLoginDate: Option<string>)

  /** What the statistics storage key holds. */
  datatype StoredStats = NoStats | UnparsableStats | Saved(snapshot: Snapshot)

  const DefaultStats: Stats := Stats(0, 0, 0, None)

  /** `recordLogin()`, with `stamp` standing for `new Date().toISOString()`. */
  function RecordLogin(s: Stats, stamp: string): (r: Stats)
    ensures r.totalLogins == s.totalLogins + 1 && r.lastLoginDate == Some(stamp)
    ensures r.totalAttempts == s.totalAttempts && r.totalTimeSpent == s.totalTimeSpent
  {
    s.(totalLogins := s.totalLogins + 1, lastLoginDate := Some(stamp))
  }

  /** `recordAttempt()`. */
  function RecordAttempt(s: Stats): (r: Stats)
    ensures r == s.(totalAttempts := s.totalAttempts + 1)
  {
    s.(totalAttempts := s.totalAttempts + 1)
  }

  /** `addTimeSpent(seconds)`. */
  function AddTimeSpent(s: Stats, seconds: int): (r: Stats)
    ensures r == s.(totalTimeSpent := s.totalTimeSpent + seconds)
  {
    s.(totalTimeSpent := s.totalTimeSpent + seconds)
  }

  /** `resetStats()` zeroes the counters and forgets the last login: the defaults again. */
  function ResetStats(s: Stats): (r: Stats)
    ensures r == DefaultStats
    ensures r.totalLogins == 0 && r.totalAttempts == 0 && r.totalTimeSpent == 0 && r.lastLoginDate == None
  {
    Stats(0, 0, 0, None)
  }

  /** The object `saveToStorage` serialises. */
  function SnapshotOf(s: Stats): (snap: Snapshot)
    ensures snap.totalLogins.Some? && snap.totalAttempts.Some? && snap.totalTimeSpent.Some?
  {
    Snapshot(Some(s.totalLogins), Some(s.totalAttempts), Some(s.totalTimeSpent), s.lastLoginDate)
  }

  function OrZero(v: Option<int>): int
  {
    if v.Some? then v.value else 0
  }

  /**
   * `loadFromStorage`: a snapshot replaces every counter, a missing field reading as 0 (or `null`
   * for the date); no entry, or text that does not parse, leaves the counters as they were.
   */
  function LoadStats(s: Stats, stored: StoredStats): (r: Stats)
    ensures stored.Saved? ==> r == Stats(OrZero(stored.snapshot.totalLogins), OrZero(stored.snapshot.totalAttempts),
                                         OrZero(stored.snapshot.totalTimeSpent), stored.snapshot.lastLoginDate)
    ensures !stored.Saved? ==> r == s
  {
    match stored
    case Saved(snap) => Stats(OrZero(snap.totalLogins), OrZero(snap.totalAttempts), OrZero(snap.totalTimeSpent), snap.lastLoginDate)
    case _ => s
  }

  /** Save then load gives back exactly the counters that were saved, whatever was in memory before. */
  lemma SnapshotRoundTrip(s: Stats, before: Stats)
    ensures LoadStats(before, Saved(SnapshotOf(s))) == s
  {
  }

  /** A snapshot with every field missing loads as the defaults. */
  lemma EmptySnapshotLoadsDefaults(before: Stats)
    ensures LoadStats(before, Saved(Snapshot(None, None, None, None))) == DefaultStats
  {
  }

  /** `b` has no counter smaller than in `a`. */
  predicate NoCounterDecreased(a: Stats, b: Stats)
  {
    a.totalLogins <= b.totalLogins && a.totalAttempts <= b.totalAttempts && a.totalTimeSpent <= b.totalTimeSpent
  }

  /** Only `resetStats` can lower a counter: every other mutator (with a non-negative time) only grows them. */
  lemma MutatorsMonotone(s: Stats, stamp: string, seconds: int)
    requires seconds >= 0
    ensures NoCounterDecreased(s, RecordLogin(s, stamp))
    ensures NoCounterDecreased(s, RecordAttempt(s))
    ensures NoCounterDecreased(s, AddTimeSpent(s, seconds))
  {
  }

  /** A negative `seconds` is accepted and lowers the time counter. */
  lemma NegativeTimeLowersCounter(s: Stats, seconds: int)
    requires seconds < 0
    ensures !NoCounterDecreased(s, AddTimeSpent(s, seconds))
  {
  }

  // ---------------------------------------------------------------------------
  // formatTime
  // ---------------------------------------------------------------------------

  /** JavaScript's `%` for a positive divisor: the remainder takes the sign of the dividend. */
  function JsRem(a: int, b: int): (r: int)
    requires b > 0
    ensures a >= 0 ==> 0 <= r < b
    ensures a < 0 ==> -b < r <= 0
    ensures a == b * (if a >= 0 then a / b else -((-a) / b)) + r
  {
    if a >= 0 then a % b else -((-a) % b)
  }

  /** `Math.floor(seconds / 3600)` (Dafny's `/` by a positive divisor already rounds down). */
  function Hours(seconds: int): int
  {
    seconds / 3600
  }

  /** `Math.floor((seconds % 3600) / 60)`, with the JavaScript remainder. */
  function Minutes(seconds: int): int
  {
    JsRem(seconds, 3600) / 60
  }

  /** `formatTime()` on a number of seconds: `"<h>h <m>m"` when there is a whole hour, else `"<m>m"`. */
  function FormatDuration(seconds: int): string
  {
    var h := Hours(seconds);
    var m := Minutes(seconds);
    if h > 0 then IntToString(h) + "h " + IntToString(m) + "m" else IntToString(m) + "m"
  }

  /** For a non-negative time, `h` and `m` are the whole hours and the whole minutes left over. */
  lemma DurationParts(seconds: int)
    requires seconds >= 0
    ensures 0 <= Minutes(seconds) < 60 && Hours(seconds) >= 0
    ensures Hours(seconds) * 3600 + Minutes(seconds) * 60 <= seconds < Hours(seconds) * 3600 + Minutes(seconds) * 60 + 60
    ensures FormatDuration(seconds) ==
              if Hours(seconds) > 0 then NatToString(Hours(seconds)) + "h " + NatToString(Minutes(seconds)) + "m"
              else NatToString(Minutes(seconds)) + "m"
  {
    var h, q := seconds / 3600, seconds % 3600;
    assert seconds == h * 3600 + q;
    var m, r := q / 60, q % 60;
    assert q == m * 60 + r;
  }

  /** Going the other way: a duration built from `h` hours, `m < 60` minutes and `r < 60` seconds is shown as exactly those hours and minutes. */
  lemma {:induction false} FormatDurationOf(h: nat, m: nat, r: nat)
    requires m < 60 && r < 60
    ensures Hours(h * 3600 + m * 60 + r) == h && Minutes(h * 3600 + m * 60 + r) == m
    ensures FormatDuration(h * 3600 + m * 60 + r) ==
              if h > 0 then NatToString(h) + "h " + NatToString(m) + "m" else NatToString(m) + "m"
  {
    var s := h * 3600 + m * 60 + r;
    var q := m * 60 + r;
    assert 0 <= q < 3600;
    assert s / 3600 == h && s % 3600 == q;
    assert q / 60 == m;
  }

  /** A negative total never shows hours, and its minutes are negative or zero. */
  lemma NegativeDuration(seconds: int)
    requires seconds < 0
    ensures Hours(seconds) < 0 && Minutes(seconds) <= 0
    ensures Minutes(seconds) == -((-seconds) % 3600) / 60
    ensures FormatDuration(seconds) == IntToString(Minutes(seconds)) + "m"
  {
  }

  /** With the JavaScript remainder and floored division, -61 seconds shows as "-2m". */
  lemma MinusSixtyOneSeconds()
    ensures FormatDuration(-61) == "-2m"
  {
    assert Minutes(-61) == -2;
    assert NatToString(2) == "2";
  }
}

module StatsTracker {
  import opened Common
  import opened StatsSpec

  class StatsService {
    var totalLogins: int
    var totalAttempts: int
    var totalTimeSpent: int
    var lastLoginDate: Option<string>
    var stored: StoredStats

    function Current(): Stats
      reads this
    {
      Stats(totalLogins, totalAttempts, totalTimeSpent, lastLoginDate)
    }

    /** The storage entry mirrors the counters in memory. */
    predicate Persisted()
      reads this
    {
      stored == Saved(SnapshotOf(Current()))
    }

    /** Created with zeroed counters, which are then loaded from storage when running in a browser. */
    constructor (storedStats: StoredStats, isBrowser: bool)
      ensures stored == storedStats
      ensures Current() == if isBrowser then LoadStats(DefaultStats, storedStats) else DefaultStats
    {
      totalLogins, totalAttempts, totalTimeSpent, lastLoginDate := 0, 0, 0, None;
      stored := storedStats;
      new;
      if isBrowser {
        LoadFromStorage();
      }
    }

    method LoadFromStorage()
      modifies this
      ensures Current() == LoadStats(old(Current()), old(stored)) && stored == old(stored)
    {
      if stored.Saved? {
        var data := stored.snapshot;
        totalLogins := OrZero(data.totalLogins);
        totalAttempts := OrZero(data.totalAttempts);
        totalTimeSpent := OrZero(data.totalTimeSpent);
        lastLoginDate := data.lastLoginDate;
      }
    }

    method SaveToStorage()
      modifies this`stored
      ensures Persisted()
    {
      stored := Saved(Snapshot(Some(totalLogins), Some(totalAttempts), Some(totalTimeSpent), lastLoginDate));
    }

    method RecordLogin(stamp: string)
      modifies this
      ensures Current() == StatsSpec.RecordLogin(old(Current()), stamp) && Persisted()
    {
      totalLogins := totalLogins + 1;
      lastLoginDate := Some(stamp);
      SaveToStorage();
    }

    method RecordAttempt()
      modifies this
      ensures Current() == StatsSpec.RecordAttempt(old(Current())) && Persisted()
    {
      totalAttempts := totalAttempts + 1;
      SaveToStorage();
    }

    method AddTimeSpent(seconds: int)
      modifies this
      ensures Current() == StatsSpec.AddTimeSpent(old(Current()), seconds) && Persisted()
    {
      totalTimeSpent := totalTimeSpent + seconds;
      SaveToStorage();
    }

    method ResetStats()
      modifies this
      ensures Current() == DefaultStats && Persisted()
    {
      totalLogins := 0;
      totalAttempts := 0;
      totalTimeSpent := 0;
      lastLoginDate := None;
      SaveToStorage();
    }

    method FormatTime() returns (text: string)
      ensures text == FormatDuration(totalTimeSpent)
      ensures totalTimeSpent >= 0 && totalTimeSpent < 3600 ==> text == NatToString(totalTimeSpent / 60) + "m"
    {
      var seconds := totalTimeSpent;
      var hours := seconds / 3600;
      var minutes := JsRem(seconds, 3600) / 60;
      if hours > 0 {
        text := IntToString(hours) + "h " + IntToString(minutes) + "m";
      } else {
        text := IntToString(minutes) + "m";
      }
    }
  }
}
