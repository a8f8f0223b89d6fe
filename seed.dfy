/** BACKEND/seedSeasonalReminders.js: the built-in festival reminders and the
    seeding run that drops reminders of past months and inserts the entries
    active today whose season is not yet stored. */
module SeasonalSeed {
  import opened Common
  import opened SeasonalReminderController

  /** One entry of the seed data. `reminderMonthIndex` and `reminderDay` are the
      arguments of `new Date(today.getFullYear(), m, d)` (months from 0);
      `month` counts from 1; the entry is active on days activeFrom..activeTo. */
  datatype SeedEntry = SeedEntry(
    season: string, items: seq<string>, reminderMonthIndex: int, reminderDay: int,
    message: string, month: int, activeFrom: int, activeTo: int)

  const SEED: seq<SeedEntry> := [
    SeedEntry("Sinhala and Tamil New Year", ["Oil", "Sugar", "Flour"], 3, 1,
              "Sinhala and Tamil New Year is coming! Do you need more {item}?", 4, 1, 12),
    SeedEntry("Christmas", ["Cake", "Wine", "Decorations"], 11, 1,
              "Christmas is coming! Do you need more {item}?", 12, 1, 24),
    SeedEntry("Vesak", ["Lanterns", "Oil Lamps", "Candles", "Vesak Buckets"], 4, 10,
              "Vesak Festival is near! Do you need more {item}?", 5, 5, 15),
    SeedEntry("Poson", ["White Clothes", "Lamps", "Offerings"], 5, 1,
              "Poson Festival is near! Do you need more {item}?", 6, 1, 10),
    SeedEntry("Mahasivarathri", ["Incense", "Fruits", "Milk"], 1, 10,
              "Mahasivarathri is coming! Do you need more {item}?", 2, 5, 15),
    SeedEntry("Ramadan", ["Dates", "Milk", "Spices"], 2, 15,
              "Ramadan is near! Stock up on {item}.", 3, 10, 25),
    SeedEntry("Thai Pongal", ["Rice", "Jaggery", "Banana Leaves"], 0, 10,
              "Thai Pongal is near! Do you need more {item}?", 1, 5, 15),
    SeedEntry("Deepawali", ["Lamps", "Sweets", "Clothes"], 9, 15,
              "Deepawali is near! Time to shop for {item}.", 10, 10, 20),
    SeedEntry("Eid Festival", ["Meat", "New Clothes", "Sweets"], 3, 10,
              "Eid Festival is approaching! Need more {item}?", 4, 5, 15)
  ]

  predicate WellFormed(e: SeedEntry)
  {
    && 1 <= e.month <= 12
    && 1 <= e.activeFrom <= e.activeTo <= 31
    && e.reminderMonthIndex + 1 == e.month
    && e.items != []
  }

  /** Every built-in entry names a month 1..12, a non-empty day window, and a
      reminder date in that same month; no two entries share a season. */
  lemma SeedWellFormed()
    ensures |SEED| == 9
    ensures forall i :: 0 <= i < |SEED| ==> WellFormed(SEED[i])
    ensures forall i, j :: 0 <= i < j < |SEED| ==> SEED[i].season != SEED[j].season
  {
  }

  /** The filter of line 120: the month is the current one and today lies in
      the entry's window. */
  predicate IsActiveOn(e: SeedEntry, month: int, day: int)
  {
    e.month == month && e.activeFrom <= day <= e.activeTo
  }

  /** The entries of `entries` (the seed data) active on `month`/`day`. */
  function ActiveEntries(entries: seq<SeedEntry>, month: int, day: int): (r: seq<SeedEntry>)
    ensures forall e :: e in r <==> e in entries && IsActiveOn(e, month, day)
    ensures IsSubsequence(r, entries)
  {
    FilterIsSubsequence((e: SeedEntry) => IsActiveOn(e, month, day), entries);
    Filter((e: SeedEntry) => IsActiveOn(e, month, day), entries)
  }

  /** The active entries whose season is not among `existing`. */
  function NewEntries(active: seq<SeedEntry>, existing: seq<string>): (r: seq<SeedEntry>)
    ensures forall e :: e in r <==> e in active && e.season !in existing
    ensures IsSubsequence(r, active)
  {
    FilterIsSubsequence((e: SeedEntry) => e.season !in existing, active);
    Filter((e: SeedEntry) => e.season !in existing, active)
  }

  /** The stored document of an entry: the schema keeps no activeFrom/activeTo,
      `active` takes its default, and `reminderDate` is the instant `dateOf`
      gives for the entry's month index and day in the current year. */
  function ToReminder(e: SeedEntry, dateOf: (int, int) -> int): (r: SeasonalReminder)
    ensures r.season == e.season && r.items == e.items && r.message == e.message
    ensures r.month == e.month && r.active
    ensures r.reminderDate == dateOf(e.reminderMonthIndex, e.reminderDay)
  {
    SeasonalReminder(e.season, e.items, dateOf(e.reminderMonthIndex, e.reminderDay), e.message, e.month, true)
  }

  function Seasons(reminders: seq<SeasonalReminder>): (r: seq<string>)
    ensures |r| == |reminders|
    ensures forall i :: 0 <= i < |r| ==> r[i] == reminders[i].season
  {
    seq(|reminders|, i requires 0 <= i < |reminders| => reminders[i].season)
  }

  predicate DistinctSeasons(reminders: seq<SeasonalReminder>)
  {
    forall i, j :: 0 <= i < j < |reminders| ==> reminders[i].season != reminders[j].season
  }

  /** The documents insertMany stores for `added`, in order. */
  function Inserted(added: seq<SeedEntry>, dateOf: (int, int) -> int): (r: seq<SeasonalReminder>)
    ensures |r| == |added|
    ensures forall i :: 0 <= i < |r| ==> r[i] == ToReminder(added[i], dateOf)
  {
    seq(|added|, i requires 0 <= i < |added| => ToReminder(added[i], dateOf))
  }

  /** `deleteMany({ month: { $lt: currentMonth } })`. */
  function Kept(stored: seq<SeasonalReminder>, month: int): (r: seq<SeasonalReminder>)
    ensures forall x :: x in r <==> x in stored && x.month >= month
    ensures IsSubsequence(r, stored)
  {
    FilterIsSubsequence((x: SeasonalReminder) => x.month >= month, stored);
    Filter((x: SeasonalReminder) => x.month >= month, stored)
  }

  /** The stored reminders after a seeding run on `month`/`day`. */
  function SeedResult(entries: seq<SeedEntry>, stored: seq<SeasonalReminder>, month: int, day: int, dateOf: (int, int) -> int)
    : seq<SeasonalReminder>
  {
    var kept := Kept(stored, month);
    kept + Inserted(NewEntries(ActiveEntries(entries, month, day), Seasons(kept)), dateOf)
  }

  /** A seeding run keeps the stored reminders of the current and later months,
      deletes the others, and only adds reminders of the current month whose
      season was not stored; when nothing is active it only deletes. */
  lemma SeedEffect(entries: seq<SeedEntry>, stored: seq<SeasonalReminder>, month: int, day: int, dateOf: (int, int) -> int)
    ensures var after := SeedResult(entries, stored, month, day, dateOf);
      var kept := Kept(stored, month);
      && after[..|kept|] == kept
      && (forall x :: x in kept <==> x in stored && x.month >= month)
      && (forall i :: |kept| <= i < |after| ==>
            after[i].month == month && after[i].active && after[i].season !in Seasons(kept))
      && (ActiveEntries(entries, month, day) == [] ==> after == kept)
  {
    var kept := Kept(stored, month);
    var added := NewEntries(ActiveEntries(entries, month, day), Seasons(kept));
    var after := SeedResult(entries, stored, month, day, dateOf);
    forall i | |kept| <= i < |after|
      ensures after[i].month == month && after[i].active && after[i].season !in Seasons(kept)
    {
      assert after[i] == ToReminder(added[i - |kept|], dateOf);
      assert added[i - |kept|] in added;
    }
  }

  /** Seeding never stores a season twice: if the stored seasons and those of
      the seed data were distinct, the stored seasons still are. */
  lemma SeedKeepsSeasonsDistinct(entries: seq<SeedEntry>, stored: seq<SeasonalReminder>, month: int, day: int, dateOf: (int, int) -> int)
    requires DistinctSeasons(stored)
    requires forall i, j :: 0 <= i < j < |entries| ==> entries[i].season != entries[j].season
    ensures DistinctSeasons(SeedResult(entries, stored, month, day, dateOf))
  {
    var kept := Kept(stored, month);
    var active := ActiveEntries(entries, month, day);
    var added := NewEntries(active, Seasons(kept));
    SubsequenceKeepsDistinct(kept, stored);
    SubsequenceDistinctEntries(active, entries);
    SubsequenceDistinctEntries(added, active);
    AppendKeepsDistinct(kept, added, dateOf);
  }

  lemma AppendKeepsDistinct(kept: seq<SeasonalReminder>, added: seq<SeedEntry>, dateOf: (int, int) -> int)
    requires DistinctSeasons(kept)
    requires forall i, j :: 0 <= i < j < |added| ==> added[i].season != added[j].season
    requires forall e :: e in added ==> e.season !in Seasons(kept)
    ensures DistinctSeasons(kept + Inserted(added, dateOf))
  {
    var after := kept + Inserted(added, dateOf);
    forall i, j | 0 <= i < j < |after| ensures after[i].season != after[j].season {
      if j >= |kept| {
        assert after[j].season == added[j - |kept|].season;
        if i >= |kept| {
          assert after[i].season == added[i - |kept|].season;
        } else {
          assert added[j - |kept|] in added;
          assert Seasons(kept)[i] == after[i].season;
        }
      }
    }
  }

  lemma {:induction false} SubsequenceKeepsDistinct(a: seq<SeasonalReminder>, b: seq<SeasonalReminder>)
    requires IsSubsequence(a, b) && DistinctSeasons(b)
    ensures DistinctSeasons(a)
    decreases |b|
  {
    if a != [] && b != [] {
      assert DistinctSeasons(b[1..]) by {
        forall i, j | 0 <= i < j < |b[1..]| ensures b[1..][i].season != b[1..][j].season {
          assert b[1..][i] == b[i + 1] && b[1..][j] == b[j + 1];
        }
      }
      if a[0] == b[0] {
        SubsequenceKeepsDistinct(a[1..], b[1..]);
        SubsequenceMembers(a[1..], b[1..]);
        forall j | 0 < j < |a| ensures a[0].season != a[j].season {
          assert a[j] == a[1..][j - 1];
          assert a[j] in b[1..];
          var m :| 0 <= m < |b[1..]| && b[1..][m] == a[j];
          assert b[m + 1] == a[j];
        }
      } else {
        SubsequenceKeepsDistinct(a, b[1..]);
      }
    }
  }

  lemma {:induction false} SubsequenceDistinctEntries(a: seq<SeedEntry>, b: seq<SeedEntry>)
    requires IsSubsequence(a, b)
    requires forall i, j :: 0 <= i < j < |b| ==> b[i].season != b[j].season
    ensures forall i, j :: 0 <= i < j < |a| ==> a[i].season != a[j].season
    decreases |b|
  {
    if a != [] && b != [] {
      assert forall i, j :: 0 <= i < j < |b[1..]| ==> b[1..][i].season != b[1..][j].season by {
        forall i, j | 0 <= i < j < |b[1..]| ensures b[1..][i].season != b[1..][j].season {
          assert b[1..][i] == b[i + 1] && b[1..][j] == b[j + 1];
        }
      }
      if a[0] == b[0] {
        SubsequenceDistinctEntries(a[1..], b[1..]);
        SubsequenceMembers(a[1..], b[1..]);
        forall j | 0 < j < |a| ensures a[0].season != a[j].season {
          assert a[j] == a[1..][j - 1];
          assert a[j] in b[1..];
          var m :| 0 <= m < |b[1..]| && b[1..][m] == a[j];
          assert b[m + 1] == a[j];
        }
        forall i, j | 0 < i < j < |a| ensures a[i].season != a[j].season {
          assert a[i] == a[1..][i - 1] && a[j] == a[1..][j - 1];
        }
      } else {
        SubsequenceDistinctEntries(a, b[1..]);
      }
    }
  }

  /** Whatever a run on a valid day inserts is what getActiveSeasonalReminders
      answers that day, together with the kept reminders of the month. */
  lemma SeededAreShown(entries: seq<SeedEntry>, stored: seq<SeasonalReminder>, month: int, day: int, dateOf: (int, int) -> int)
    requires 1 <= day <= 31
    ensures var after := SeedResult(entries, stored, month, day, dateOf);
      forall x :: x in ActiveSeasonalReminders(after, month, day) <==> x in after && x.month == month
  {
  }

  /** The SeasonalReminder collection. */
  class SeasonalStore {
    var reminders: seq<SeasonalReminder>

    constructor ()
      ensures reminders == []
    {
      reminders := [];
    }

    /** seedReminders over the entries `entries`: deleteMany of past months,
        then insertMany of the new active entries; returns the number inserted. */
    method Seed(entries: seq<SeedEntry>, month: int, day: int, dateOf: (int, int) -> int) returns (inserted: nat)
      modifies this
      ensures reminders == SeedResult(entries, old(reminders), month, day, dateOf)
      ensures inserted == |reminders| - |Kept(old(reminders), month)|
      ensures ActiveEntries(entries, month, day) == [] ==> inserted == 0
    {
      reminders := Kept(reminders, month);
      var active := ActiveEntries(entries, month, day);
      if |active| == 0 {
        assert NewEntries(active, Seasons(reminders)) == [];
        assert reminders + Inserted([], dateOf) == reminders;
        return 0;
      }
      var added := NewEntries(active, Seasons(reminders));
      if |added| > 0 {
        reminders := reminders + Inserted(added, dateOf);
      } else {
        assert reminders + Inserted(added, dateOf) == reminders;
      }
      inserted := |added|;
    }
  }

  /** With the built-in data, a run never stores a season twice. */
  lemma SeedDataKeepsSeasonsDistinct(stored: seq<SeasonalReminder>, month: int, day: int, dateOf: (int, int) -> int)
    requires DistinctSeasons(stored)
    ensures DistinctSeasons(SeedResult(SEED, stored, month, day, dateOf))
  {
    SeedWellFormed();
    SeedKeepsSeasonsDistinct(SEED, stored, month, day, dateOf);
  }

  /** The script's run on today's `month` and `day`, with the built-in data. */
  method SeedReminders(store: SeasonalStore, month: int, day: int, dateOf: (int, int) -> int)
    returns (inserted: nat)
    modifies store
    ensures store.reminders == SeedResult(SEED, old(store.reminders), month, day, dateOf)
    ensures ActiveEntries(SEED, month, day) == [] ==> inserted == 0
  {
    inserted := store.Seed(SEED, month, day, dateOf);
  }
}
