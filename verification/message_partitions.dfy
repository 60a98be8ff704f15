/** Monthly partitions of the message table (app/services/message_partitions.py). */
module MessagePartitions {
  import opened Wrappers
  import opened CalendarMonths
  import opened PartitionNames

  /** The half-open span of days, given by month starts, that a partition covers. */
  datatype Bounds = Bounds(start: Date, end: Date)

  /** The partitions of the table by what their names read as; the default one and strangers have no bounds. */
  type Catalog = map<Name, Option<Bounds>>

  datatype Settings = Settings(retentionDays: int, monthsAhead: int, monthsBehind: int)

  // ---------- bounds ----------

  function PartitionBounds(d: Date): Option<Bounds>
    requires ValidDate(d)
  {
    var start := MonthStart(d);
    var end := AddMonths(start, 1);
    if end.None? then None else Some(Bounds(start, end.value))
  }

  predicate Covers(b: Bounds, day: nat) {
    ValidDate(b.start) && ValidDate(b.end) && DayNumber(b.start) <= day < DayNumber(b.end)
  }

  /** Consecutive partitions meet exactly, and a day lies in the partition of its own month and in no other. */
  lemma PartitionsTile(i: nat, day: nat)
    requires i + 2 < MONTHS
    ensures var b, c := PartitionBounds(MonthAt(i)), PartitionBounds(MonthAt(i + 1));
            && b.Some? && c.Some? && b.value.end == c.value.start
            && (Covers(b.value, day) <==> MonthOf(day) == i)
  {
    IndexOfMonthAt(i);
    IndexOfMonthAt(i + 1);
    AddMonthsIsShift(MonthAt(i), 1);
    AddMonthsIsShift(MonthAt(i + 1), 1);
    MonthIsUnique(day, i);
  }

  // ---------- what maintenance does ----------

  function AtLeast(x: int, low: int): int {
    if x < low then low else x
  }

  function BoundsAt(i: nat): Option<Bounds>
    requires i < MONTHS
  {
    IndexOfMonthAt(i);
    PartitionBounds(MonthAt(i))
  }

  /** The names of `n` months from month `i` on. */
  function Names(i: nat, n: nat): seq<Name> {
    seq(n, k requires 0 <= k < n => Monthly(i + k))
  }

  function WithMonth(c: Catalog, i: nat): Catalog
    requires i < MONTHS
  {
    if Monthly(i) in c then c else c[Monthly(i) := BoundsAt(i)]
  }

  /** A catalog with `n` months from month `i` on added where they were missing. */
  function WithMonths(c: Catalog, i: nat, n: nat): Catalog
    requires i + n <= MONTHS
  {
    if n == 0 then c else WithMonth(WithMonths(c, i, n - 1), i + n - 1)
  }

  lemma {:induction false} WithMonthsHas(c: Catalog, i: nat, n: nat, name: Name)
    requires i + n <= MONTHS
    ensures name in WithMonths(c, i, n) <==> name in c || (name.Monthly? && i <= name.i < i + n)
    ensures name in c ==> WithMonths(c, i, n)[name] == c[name]
    ensures name !in c && name in WithMonths(c, i, n) ==> WithMonths(c, i, n)[name] == BoundsAt(name.i)
  {
    if n == 0 {
    } else {
      WithMonthsHas(c, i, n - 1, name);
    }
  }

  function Missing(c: Catalog, i: nat, n: nat): seq<Name> {
    if n == 0 then []
    else Missing(c, i, n - 1) + (if Monthly(i + n - 1) in c then [] else [Monthly(i + n - 1)])
  }

  function WithDefault(c: Catalog): Catalog {
    if Default in c then c else c[Default := None]
  }

  /** First month kept and number of months kept, or nothing when the span or the month after it leaves the
      calendar. */
  function Span(today: Date, settings: Settings): Option<(nat, nat)> {
    var behind, ahead := AtLeast(settings.monthsBehind, 0), AtLeast(settings.monthsAhead, 0);
    var first, last := Index(today) - behind, Index(today) + ahead;
    if 0 <= first && last + 1 < MONTHS then Some((first, behind + ahead + 1)) else None
  }

  datatype EnsureResult = Ensured(ensured: seq<Name>, created: seq<Name>) | EnsureFailed

  datatype DropResult = Dropped(names: seq<Name>) | DropFailed

  function RetentionDays(settings: Settings): int {
    AtLeast(settings.retentionDays, 30)
  }

  /** A partition for a full month strictly before the cutoff month. */
  predicate Expired(name: Name, cutoffMonth: nat) {
    name.Monthly? && name.i < cutoffMonth
  }

  function ExpiredNames(listing: seq<Name>, cutoffMonth: nat): seq<Name> {
    if listing == [] then []
    else
      var n := |listing| - 1;
      ExpiredNames(listing[..n], cutoffMonth) + (if Expired(listing[n], cutoffMonth) then [listing[n]] else [])
  }

  function ExpiredSet(listing: seq<Name>, cutoffMonth: nat): set<Name> {
    set name | name in listing && Expired(name, cutoffMonth)
  }

  lemma NextExpired(listing: seq<Name>, k: nat, cutoffMonth: nat)
    requires k < |listing|
    ensures listing[..k + 1] == listing[..k] + [listing[k]]
    ensures ExpiredSet(listing[..k + 1], cutoffMonth)
            == ExpiredSet(listing[..k], cutoffMonth) + (if Expired(listing[k], cutoffMonth) then {listing[k]} else {})
    ensures ExpiredNames(listing[..k + 1], cutoffMonth)
            == ExpiredNames(listing[..k], cutoffMonth) + (if Expired(listing[k], cutoffMonth) then [listing[k]] else [])
  {
    assert listing[..k + 1] == listing[..k] + [listing[k]];
    assert listing[..k + 1][..k] == listing[..k];
  }

  lemma NextName(i: nat, k: nat)
    ensures Names(i, k + 1) == Names(i, k) + [Monthly(i + k)]
  {
  }

  class PartitionMaintenance {
    var catalog: Catalog

    constructor ()
      ensures catalog == map[]
    {
      catalog := map[];
    }

    /** create table if not exists; the last month of the calendar has no end and raises before. */
    method EnsureMonthPartition(d: Date, ghost i: nat) returns (ok: bool)
      requires MonthNumbered(d, i)
      modifies this
      ensures ok <==> i + 1 < MONTHS
      ensures catalog == if ok then WithMonth(old(catalog), i) else old(catalog)
    {
      BoundsOfMonth(d, i);
      CoversOwnMonth(i, 0);
      var bounds := PartitionBounds(d);
      if bounds.None? {
        return false;
      }
      if Monthly(Index(d)) !in catalog {
        catalog := catalog[Monthly(Index(d)) := bounds];
      }
      return true;
    }

    /** One turn of the loop: a month that `existing` lacks is created. */
    method KeepMonth(cursor: Date, existing: set<Name>, ghost i: nat) returns (name: Name, created: bool, ok: bool)
      requires MonthNumbered(cursor, i) && existing == catalog.Keys
      modifies this
      ensures name == Monthly(i) && (created <==> name !in old(catalog))
      ensures ok <==> i + 1 < MONTHS || !created
      ensures i < MONTHS && (ok ==> catalog == WithMonth(old(catalog), i) && catalog.Keys == existing + {name})
    {
      MonthAtIndex(cursor);
      name := Monthly(Index(cursor));
      created := name !in existing;
      ok := true;
      if created {
        ok := EnsureMonthPartition(cursor, i);
      }
    }

    /** Keeps the default partition and every month of the span. A step past the end of the calendar raises, and
        the transaction is rolled back. */
    method EnsureMessagePartitions(settings: Settings, today: Date) returns (result: EnsureResult)
      requires ValidDate(today)
      modifies this
      ensures var span := Span(today, settings);
              if span.None? then result == EnsureFailed && catalog == old(catalog)
              else
                var (i, n) := span.value;
                && result == Ensured(Names(i, n), Missing(WithDefault(old(catalog)), i, n))
                && catalog == WithMonths(WithDefault(old(catalog)), i, n)
    {
      var before := catalog;
      if Default !in catalog {
        catalog := catalog[Default := None];
      }
      var behind, ahead := AtLeast(settings.monthsBehind, 0), AtLeast(settings.monthsAhead, 0);
      var first := MonthsFrom(MonthStart(today), -behind);
      var last := MonthsFrom(MonthStart(today), ahead);
      if first.None? || last.None? {
        catalog := before;
        return EnsureFailed;
      }
      result := EnsureUpTo(first.value, last.value, Index(today) - behind, behind + ahead + 1);
      if result.EnsureFailed? {
        catalog := before;
      }
    }

    /** The loop over months, from the first to the last inclusive. */
    method EnsureUpTo(first: Date, last: Date, ghost i: nat, ghost n: nat) returns (result: EnsureResult)
      requires MonthNumbered(first, i) && MonthNumbered(last, i + n - 1) && n > 0 && i + n <= MONTHS
      modifies this
      ensures if i + n == MONTHS then result == EnsureFailed
              else
                && result == Ensured(Names(i, n), Missing(old(catalog), i, n))
                && catalog == WithMonths(old(catalog), i, n)
    {
      ghost var start, k: nat := catalog, 0;
      var cursor := first;
      var created: seq<Name>, ensured: seq<Name> := [], [];
      var existing := catalog.Keys;
      CursorPast(last, cursor, i + n - 1, i);
      while !Before(last, cursor)
        invariant k <= n && i + k < MONTHS && MonthNumbered(cursor, i + k)
        invariant Before(last, cursor) <==> k == n
        invariant ensured == Names(i, k)
        invariant created == Missing(start, i, k)
        invariant catalog == WithMonths(start, i, k) && existing == catalog.Keys
        decreases n - k
      {
        WithMonthsHas(start, i, k, Monthly(i + k));
        var name, isNew, ok := KeepMonth(cursor, existing, i + k);
        if !ok {
          return EnsureFailed;
        }
        ensured := ensured + [name];
        if isNew {
          created := created + [name];
          existing := existing + {name};
        }
        NextName(i, k);
        var next := MonthsFrom(cursor, 1);
        if next.None? {
          return EnsureFailed;
        }
        k := k + 1;
        cursor := next.value;
        CursorPast(last, cursor, i + n - 1, i + k);
      }
      return Ensured(ensured, created);
    }

    /** A name that looks like a month but is none raises, and nothing is dropped. */
    method DropExpiredMessagePartitions(settings: Settings, today: Date, listing: seq<Name>)
      returns (result: DropResult)
      requires ValidDate(today) && forall name :: name in listing <==> name in catalog
      modifies this
      ensures var cutoff := DayNumber(today) - RetentionDays(settings);
              if cutoff < 0 || exists name :: name in listing && name.NoSuchMonth?
              then result == DropFailed && catalog == old(catalog)
              else
                && result == Dropped(ExpiredNames(listing, MonthOf(cutoff)))
                && catalog == old(catalog) - ExpiredSet(listing, MonthOf(cutoff))
    {
      var before := catalog;
      var retentionDays := AtLeast(settings.retentionDays, 30);
      var cutoff := DayNumber(today) - retentionDays;
      if cutoff < 0 {
        return DropFailed;
      }
      var cutoffMonth := MonthOf(cutoff);
      var dropped: seq<Name> := [];
      for k := 0 to |listing|
        invariant dropped == ExpiredNames(listing[..k], cutoffMonth)
        invariant catalog == before - ExpiredSet(listing[..k], cutoffMonth)
        invariant forall name :: name in listing[..k] ==> !name.NoSuchMonth?
      {
        var name := listing[k];
        assert name in listing;
        NextExpired(listing, k, cutoffMonth);
        match name {
          case Default =>
          case Other(_) =>
          case NoSuchMonth(_, _) =>
            catalog := before;
            return DropFailed;
          case Monthly(month) =>
            if month < cutoffMonth {
              catalog := catalog - {name};
              dropped := dropped + [name];
            }
        }
      }
      assert listing[..|listing|] == listing;
      return Dropped(dropped);
    }
  }

  predicate MonthNumbered(d: Date, i: int) {
    ValidDate(d) && d.day == 1 && Index(d) == i
  }

  lemma CursorPast(last: Date, cursor: Date, a: int, b: int)
    requires MonthNumbered(last, a) && MonthNumbered(cursor, b)
    ensures Before(last, cursor) <==> a < b
  {
    BeforeIsIndexOrder(last, cursor);
  }

  method MonthsFrom(d: Date, months: int) returns (r: Option<Date>)
    requires ValidDate(d)
    ensures r.Some? <==> 0 <= Index(d) + months < MONTHS
    ensures r.Some? ==> MonthNumbered(r.value, Index(d) + months)
  {
    AddMonthsIsShift(d, months);
    r := AddMonths(d, months);
    if r.Some? {
      IndexOfMonthAt(Index(d) + months);
    }
  }

  lemma BoundsOfMonth(d: Date, i: nat)
    requires MonthNumbered(d, i)
    ensures i < MONTHS && BoundsAt(i) == PartitionBounds(d)
  {
    MonthAtIndex(d);
  }

  // ---------- what maintenance guarantees ----------

  lemma {:induction false} NothingMissing(c: Catalog, i: nat, n: nat)
    requires forall k: nat :: i <= k < i + n ==> Monthly(k) in c
    ensures Missing(c, i, n) == []
  {
    if n == 0 {
    } else {
      NothingMissing(c, i, n - 1);
    }
  }

  /** What maintenance leaves: the default partition, what was there before, unchanged, and every month from so many
      behind to so many ahead of this one, where a negative number counts as none; created are those of these months
      that were not there. It fails exactly when one of them, or the one after, lies outside the calendar. */
  lemma EnsureKeepsTheSpan(c: Catalog, today: Date, settings: Settings, name: Name)
    requires ValidDate(today)
    ensures var first := Index(today) - (if settings.monthsBehind > 0 then settings.monthsBehind else 0);
            var last := Index(today) + (if settings.monthsAhead > 0 then settings.monthsAhead else 0);
            && (Span(today, settings).None? <==> first < 0 || last >= 12 * 9999 - 1)
            && (Span(today, settings).Some? ==>
                  var (i, n) := Span(today, settings).value;
                  var c' := WithMonths(WithDefault(c), i, n);
                  var kept := name.Monthly? && first <= name.i <= last;
                  && n == last - first + 1
                  && (name in Names(i, n) <==> kept)
                  && (name in Missing(WithDefault(c), i, n) <==> kept && name !in c)
                  && (name in c' <==> name in c || name == Default || kept)
                  && (name in c ==> c'[name] == c[name]))
  {
    var span := Span(today, settings);
    if span.Some? {
      var (i, n) := span.value;
      WithMonthsHas(WithDefault(c), i, n, name);
      MissingAre(WithDefault(c), i, n, name);
      if name.Monthly? && i <= name.i < i + n {
        assert Names(i, n)[name.i - i] == name;
      }
    }
  }

  lemma {:induction false} MissingAre(c: Catalog, i: nat, n: nat, name: Name)
    ensures name in Missing(c, i, n) <==> name.Monthly? && i <= name.i < i + n && name !in c
  {
    if n == 0 {
    } else {
      MissingAre(c, i, n - 1, name);
    }
  }

  /** A run keeps `behind + ahead + 1` months, and a second run creates nothing and changes nothing. */
  lemma SecondEnsureCreatesNothing(c: Catalog, today: Date, settings: Settings)
    requires ValidDate(today) && Span(today, settings).Some?
    ensures var (i, n) := Span(today, settings).value;
            var c' := WithMonths(WithDefault(c), i, n);
            && n == AtLeast(settings.monthsBehind, 0) + AtLeast(settings.monthsAhead, 0) + 1
            && Missing(WithDefault(c'), i, n) == [] && WithMonths(WithDefault(c'), i, n) == c'
  {
    var (i, n) := Span(today, settings).value;
    var c' := WithMonths(WithDefault(c), i, n);
    WithMonthsHas(WithDefault(c), i, n, Default);
    forall k: nat | i <= k < i + n ensures Monthly(k) in c' {
      WithMonthsHas(WithDefault(c), i, n, Monthly(k));
    }
    NothingMissing(c', i, n);
    NothingAdded(c', i, n);
  }

  lemma {:induction false} NothingAdded(c: Catalog, i: nat, n: nat)
    requires i + n <= MONTHS && forall k: nat :: i <= k < i + n ==> Monthly(k) in c
    ensures WithMonths(c, i, n) == c
  {
    if n == 0 {
    } else {
      NothingAdded(c, i, n - 1);
    }
  }

  /** Every monthly partition covers the month of its name. */
  predicate WellNamed(c: Catalog) {
    forall name :: name in c && name.Monthly? ==> name.i < MONTHS && c[name] == BoundsAt(name.i)
  }

  lemma EnsureKeepsWellNamed(c: Catalog, i: nat, n: nat)
    requires i + n <= MONTHS && WellNamed(c)
    ensures WellNamed(WithMonths(WithDefault(c), i, n))
  {
    var c' := WithMonths(WithDefault(c), i, n);
    forall name | name in c' && name.Monthly? ensures name.i < MONTHS && c'[name] == BoundsAt(name.i) {
      WithMonthsHas(WithDefault(c), i, n, name);
    }
  }

  predicate CoveredBy(c: Catalog, name: Name, day: nat) {
    name in c && name.Monthly? && c[name].Some? && Covers(c[name].value, day)
  }

  /** Every day of a maintained month lies in exactly one monthly partition, the one named after its month. */
  lemma MaintainedDaysCoveredOnce(c: Catalog, i: nat, n: nat, day: nat, name: Name)
    requires WellNamed(c) && i + n < MONTHS && i <= MonthOf(day) < i + n
    ensures CoveredBy(WithMonths(WithDefault(c), i, n), name, day) <==> name == Monthly(MonthOf(day))
  {
    var c', m := WithMonths(WithDefault(c), i, n), MonthOf(day);
    EnsureKeepsWellNamed(c, i, n);
    WithMonthsHas(WithDefault(c), i, n, Monthly(m));
    if name in c' && name.Monthly? {
      CoversOwnMonth(name.i, day);
    }
  }

  /** The last month of the calendar has no end, so its bounds cannot be formed. */
  lemma BoundsAtAre(j: nat)
    requires j < MONTHS
    ensures BoundsAt(j) == if j + 1 < MONTHS then Some(Bounds(MonthAt(j), MonthAt(j + 1))) else None
  {
    IndexOfMonthAt(j);
    AddMonthsIsShift(MonthAt(j), 1);
  }

  lemma DayOfMonthStart(j: nat)
    requires j < MONTHS
    ensures ValidDate(MonthAt(j)) && DayNumber(MonthAt(j)) == StartDay(j)
  {
    IndexOfMonthAt(j);
  }

  lemma CoversBetween(b: Bounds, j: nat, day: nat)
    requires ValidDate(b.start) && ValidDate(b.end)
    requires DayNumber(b.start) == StartDay(j) && DayNumber(b.end) == StartDay(j + 1)
    ensures Covers(b, day) <==> MonthOf(day) == j
  {
    MonthIsUnique(day, j);
  }

  lemma CoversOwnMonth(j: nat, day: nat)
    requires j < MONTHS
    ensures BoundsAt(j).Some? <==> j + 1 < MONTHS
    ensures BoundsAt(j).Some? ==> (Covers(BoundsAt(j).value, day) <==> MonthOf(day) == j)
  {
    BoundsAtAre(j);
    if j + 1 < MONTHS {
      CoversFromStartToStart(j, day);
    }
  }

  lemma CoversFromStartToStart(j: nat, day: nat)
    requires j + 1 < MONTHS
    ensures Covers(Bounds(MonthAt(j), MonthAt(j + 1)), day) <==> MonthOf(day) == j
  {
    DayOfMonthStart(j);
    DayOfMonthStart(j + 1);
    CoversBetween(Bounds(MonthAt(j), MonthAt(j + 1)), j, day);
  }

  const DAY_SECONDS := 86_400

  /** No message younger than the configured retention, or than thirty days, is in a dropped partition. Instants are in
      seconds. */
  lemma DroppedRowsAreOldEnough(c: Catalog, settings: Settings, now: nat, today: Date, cutoff: nat, listing: seq<Name>,
                                name: Name, row: nat)
    requires WellNamed(c) && ValidDate(today) && DayNumber(today) == now / DAY_SECONDS
    requires cutoff == DayNumber(today) - RetentionDays(settings)
    requires name in ExpiredSet(listing, MonthOf(cutoff)) && CoveredBy(c, name, row / DAY_SECONDS)
    ensures row < now - settings.retentionDays * 86_400 && row < now - 30 * 86_400
  {
    DroppedDayIsOld(c, cutoff, name, row / DAY_SECONDS);
    WholeDaysApart(now, now / DAY_SECONDS - cutoff, row);
    OlderThanBoth(settings, now - row);
  }

  lemma OlderThanBoth(settings: Settings, age: int)
    requires age > RetentionDays(settings) * 86_400
    ensures age > settings.retentionDays * 86_400 && age > 30 * 86_400
  {
  }

  /** Dropped are exactly the listed months whose last day is more than the larger of the configured retention and
      thirty days ago. */
  lemma DroppedExactlyAfterRetention(settings: Settings, today: Date, listing: seq<Name>, name: Name)
    requires ValidDate(today) && DayNumber(today) >= RetentionDays(settings)
    ensures var larger := if settings.retentionDays > 30 then settings.retentionDays else 30;
            var dropped := ExpiredSet(listing, MonthOf(DayNumber(today) - RetentionDays(settings)));
            name in dropped
            <==> && name in listing && name.Monthly?
                 && DayNumber(today) - (StartDay(name.i + 1) - 1) > larger
    ensures var cutoffMonth := MonthOf(DayNumber(today) - RetentionDays(settings));
            name in ExpiredNames(listing, cutoffMonth) <==> name in ExpiredSet(listing, cutoffMonth)
  {
    var cutoff := DayNumber(today) - RetentionDays(settings);
    if name.Monthly? {
      MonthAtMost(cutoff, name.i);
    }
    NamesAreTheSet(listing, MonthOf(cutoff), name);
  }

  lemma {:induction false} NamesAreTheSet(listing: seq<Name>, cutoffMonth: nat, name: Name)
    ensures name in ExpiredNames(listing, cutoffMonth) <==> name in ExpiredSet(listing, cutoffMonth)
  {
    if listing == [] {
    } else {
      NamesAreTheSet(listing[..|listing| - 1], cutoffMonth, name);
    }
  }

  lemma DroppedDayIsOld(c: Catalog, cutoff: nat, name: Name, day: nat)
    requires WellNamed(c) && Expired(name, MonthOf(cutoff)) && CoveredBy(c, name, day)
    ensures day < cutoff
  {
    CoversOwnMonth(name.i, day);
    EarlierMonthIsEarlier(cutoff, day);
  }

  lemma EarlierMonthIsEarlier(cutoff: nat, day: nat)
    requires MonthOf(day) < MonthOf(cutoff)
    ensures day < cutoff
  {
    StartDaysGrow(MonthOf(day) + 1, MonthOf(cutoff));
  }

  lemma WholeDaysApart(now: nat, retention: int, row: nat)
    requires row / DAY_SECONDS < now / DAY_SECONDS - retention
    ensures now - row > retention * 86_400
  {
  }

  predicate SparesAll(names: seq<Name>, cutoffMonth: nat) {
    forall name :: name in names ==> !Expired(name, cutoffMonth)
  }

  /** Dropping spares the `n` maintained months from month `i` on exactly when the cutoff day lies before the end of the
      oldest. */
  lemma DropSparesMaintainedIff(settings: Settings, today: Date, i: nat, n: nat, cutoff: nat)
    requires ValidDate(today) && Span(today, settings) == Some((i, n))
    requires cutoff == DayNumber(today) - RetentionDays(settings)
    ensures SparesAll(Names(i, n), MonthOf(cutoff)) <==> cutoff < StartDay(i + 1)
  {
    SpanIsPositive(today, settings);
    SparesIff(i, n, cutoff);
  }

  lemma SpanIsPositive(today: Date, settings: Settings)
    requires Span(today, settings).Some?
    ensures Span(today, settings).value.1 > 0
  {
  }

  lemma SparesIff(i: nat, n: nat, cutoff: nat)
    requires n > 0
    ensures SparesAll(Names(i, n), MonthOf(cutoff)) <==> cutoff < StartDay(i + 1)
  {
    MonthAtMost(cutoff, i);
    OldestDecides(i, n, MonthOf(cutoff));
  }

  lemma OldestDecides(i: nat, n: nat, m: nat)
    requires n > 0
    ensures SparesAll(Names(i, n), m) <==> m <= i
  {
    assert Names(i, n)[0] == Monthly(i) && Monthly(i) in Names(i, n);
    assert Expired(Monthly(i), m) <==> i < m;
    forall name | name in Names(i, n) ensures name.Monthly? && i <= name.i {
      var k :| 0 <= k < n && Names(i, n)[k] == name;
    }
  }

  /** A retention of 31 days for each month kept behind is enough on every date. */
  lemma RetentionOf31DaysAMonthIsEnough(settings: Settings, today: Date)
    requires ValidDate(today) && Span(today, settings).Some?
    requires RetentionDays(settings) >= 31 * AtLeast(settings.monthsBehind, 0)
    ensures DayNumber(today) - RetentionDays(settings) < StartDay(Span(today, settings).value.0 + 1)
  {
    DayInMonth(today);
    EnoughDays(Index(today), AtLeast(settings.monthsBehind, 0), DayNumber(today), RetentionDays(settings));
  }

  lemma EnoughDays(month: nat, behind: nat, today: nat, retention: nat)
    requires behind <= month && retention >= 31 * behind && retention > 0
    requires StartDay(month) <= today < StartDay(month + 1) && today <= StartDay(month) + 30
    ensures today - retention < StartDay(month - behind + 1)
  {
    if behind > 0 {
      StartDaysSpread(month - behind + 1, month);
    }
  }

  lemma LastOfJanuary(year: int, january: nat)
    requires 2 <= year < MAX_YEAR && january == 12 * (year - 1)
    ensures var today := Date(year, 1, 31);
            ValidDate(today) && Index(today) == january && DayNumber(today) == StartDay(january) + 30
  {
  }

  /** Thirty days are not, even for one month: on the last of January the cutoff lies behind all of December, which is
      still maintained. */
  lemma ThirtyDaysAreNotEnough(year: int, december: nat)
    requires 2 <= year < MAX_YEAR && december == 12 * (year - 1) - 1
    ensures var settings, today := Settings(30, 0, 1), Date(year, 1, 31);
            && ValidDate(today) && Span(today, settings) == Some((december, 2))
            && DayNumber(today) - RetentionDays(settings) == StartDay(december + 1)
  {
    LastOfJanuary(year, december + 1);
  }
}
