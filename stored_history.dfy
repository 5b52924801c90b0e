/**
  The generator's history panel: the relative time shown on each card and
  the "Clear All" button, which empties the list and removes the stored key.
*/
module StoredHistory {
  import opened Strings
  import opened Elapsed
  import opened ScanHistory
  import opened Payloads

  /**
    The bucket `formatTime` picks for `diffMs` milliseconds: minutes, hours
    and days are each the floor of the elapsed milliseconds divided by the
    length of the unit.
  */
  function GeneratorAge(diffMs: int): (a: Age)
    ensures a.JustNow? <==> diffMs < 60000
    ensures a.MinutesAgo? <==> 60000 <= diffMs < 3600000
    ensures a.HoursAgo? <==> 3600000 <= diffMs < 86400000
    ensures a.DaysAgo? <==> 86400000 <= diffMs < 7 * 86400000
    ensures a.OnDate? <==> diffMs >= 7 * 86400000
    ensures a.MinutesAgo? ==> 1 <= a.minutes < 60 && a.minutes * 60000 <= diffMs < (a.minutes + 1) * 60000
    ensures a.HoursAgo? ==> 1 <= a.hours < 24 && a.hours * 3600000 <= diffMs < (a.hours + 1) * 3600000
    ensures a.DaysAgo? ==> 1 <= a.days < 7 && a.days * 86400000 <= diffMs < (a.days + 1) * 86400000
  {
    var mins := diffMs / 60000;
    var hours := diffMs / 3600000;
    var days := diffMs / 86400000;
    if mins < 1 then JustNow
    else if mins < 60 then MinutesAgo(mins)
    else if hours < 24 then HoursAgo(hours)
    else if days < 7 then DaysAgo(days)
    else OnDate
  }

  /** `formatTime`: minutes never take a plural, hours and days do; `localeDate` stands for `toLocaleDateString()`. */
  function FormatTime(diffMs: int, localeDate: string): (r: string)
    ensures GeneratorAge(diffMs).JustNow? ==> r == "Just now"
    ensures GeneratorAge(diffMs).MinutesAgo? ==> r == NatToString(GeneratorAge(diffMs).minutes) + " min ago"
    ensures GeneratorAge(diffMs).HoursAgo? ==>
      var n := GeneratorAge(diffMs).hours; r == NatToString(n) + (if n > 1 then " hours ago" else " hour ago")
    ensures GeneratorAge(diffMs).DaysAgo? ==>
      var n := GeneratorAge(diffMs).days; r == NatToString(n) + (if n > 1 then " days ago" else " day ago")
    ensures GeneratorAge(diffMs).OnDate? ==> r == localeDate
  {
    match GeneratorAge(diffMs)
    case JustNow => "Just now"
    case MinutesAgo(n) => NatToString(n) + " min ago"
    case HoursAgo(n) => PluralAgo(n, " hour")
    case DaysAgo(n) => PluralAgo(n, " day")
    case OnDate => localeDate
  }

  /** The count a card shows reads back as the bucket's count. */
  lemma FormatTimeShowsCount(diffMs: int, localeDate: string)
    requires 60000 <= diffMs < 7 * 86400000
    ensures Count(GeneratorAge(diffMs)) >= 1
    ensures StartsWith(FormatTime(diffMs, localeDate), NatToString(Count(GeneratorAge(diffMs))))
  {
    var n: nat := Count(GeneratorAge(diffMs));
    var t := FormatTime(diffMs, localeDate);
    var digits := NatToString(n);
    assert t[..|digits|] == digits;
  }

  /** A later moment never falls in an earlier bucket, and within one bucket the count never goes down. */
  lemma GeneratorAgeMonotone(d1: int, d2: int)
    requires d1 <= d2
    ensures Rank(GeneratorAge(d1)) <= Rank(GeneratorAge(d2))
    ensures Rank(GeneratorAge(d1)) == Rank(GeneratorAge(d2)) ==> Count(GeneratorAge(d1)) <= Count(GeneratorAge(d2))
  {
  }

  /** Whole minutes floored to hours are the floored hours. */
  lemma MinutesToHours(ms: int)
    ensures ms / 60000 / 60 == ms / 3600000
  {
    var m := ms / 60000;
    var x := m / 60;
    var h := ms / 3600000;
    assert m * 60000 <= ms < m * 60000 + 60000;
    assert x * 60 <= m < x * 60 + 60;
    assert h * 3600000 <= ms < h * 3600000 + 3600000;
    assert x * 3600000 <= m * 60000;
    assert m * 60000 + 60000 <= x * 3600000 + 3600000;
  }

  /** Whole hours floored to days are the floored days. */
  lemma HoursToDays(ms: int)
    ensures ms / 3600000 / 24 == ms / 86400000
  {
    var h := ms / 3600000;
    var x := h / 24;
    var d := ms / 86400000;
    assert h * 3600000 <= ms < h * 3600000 + 3600000;
    assert x * 24 <= h < x * 24 + 24;
    assert d * 86400000 <= ms < d * 86400000 + 86400000;
    assert x * 86400000 <= h * 3600000;
    assert h * 3600000 + 3600000 <= x * 86400000 + 86400000;
  }

  /** The generator's buckets and counts agree with the reader's, though its texts do not pluralise minutes. */
  lemma GeneratorAgeIsReaderAge(diffMs: int)
    ensures GeneratorAge(diffMs) == ReaderAge(diffMs)
  {
    MinutesToHours(diffMs);
    HoursToDays(diffMs);
  }

  /** The panel's view of the history and of storage. */
  class HistoryPanel {
    var history: seq<GeneratedItem>
    var store: map<string, GenBlob>

    constructor (history0: seq<GeneratedItem>, store0: map<string, GenBlob>)
      ensures history == history0 && store == store0
    {
      history := history0;
      store := store0;
    }

    /**
      `clearHistory`: nothing happens when the list is empty or the user
      declines; once confirmed the list is emptied and the key removed.
    */
    method ClearHistory(confirmed: bool)
      modifies this
      ensures old(history) == [] || !confirmed ==> history == old(history) && store == old(store)
      ensures old(history) != [] && confirmed ==> history == [] && store == old(store) - {GeneratorHistoryKey}
    {
      if |history| == 0 {
        return;
      }
      if confirmed {
        history := [];
        store := store - {GeneratorHistoryKey};
      }
    }
  }

  /**
    After the last item was deleted the stored list is stale, and "Clear All"
    can no longer remove it: the button sees an empty list and does nothing.
  */
  method ClearAfterLastDelete(item: GeneratedItem) returns (keyKept: bool, reloaded: seq<GeneratedItem>)
    ensures keyKept && reloaded == [item]
  {
    var store := map[GeneratorHistoryKey := GenRecords([item])];
    var remaining := RemoveGenerated([item], item.id);
    assert remaining == [] by {
      assert [item][1..] == [];
    }
    store := SaveGeneratedAsWritten(remaining, store);
    var panel := new HistoryPanel(remaining, store);
    panel.ClearHistory(true);
    keyKept := GeneratorHistoryKey in panel.store;
    reloaded := Reloaded(panel.store);
  }
}
