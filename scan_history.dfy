/**
  The scan reader's pure rules: the payload classifier, the newest-first
  history with its duplicate window and cap, removal by id, the record filter
  applied when the history is read back from storage, the persist step, the
  relative-time text and the "looks like a link" test.
*/
module ScanHistory {
  import opened Wrappers
  import opened Strings
  import opened Elapsed

  // ---- classification ----

  datatype QrType = Url | WiFi | Email | Phone | Contact | Text {
    /** The `type` string stored with each scan. */
    function Label(): string {
      match this
      case Url => "URL"
      case WiFi => "WiFi"
      case Email => "Email"
      case Phone => "Phone"
      case Contact => "Contact"
      case Text => "Text"
    }
  }

  /** `detectQRType`: case-sensitive prefix tests, the first that holds decides. */
  function DetectQrType(data: string): (t: QrType)
    ensures t == Url <==> StartsWith(data, "http://") || StartsWith(data, "https://")
    ensures t == WiFi ==> StartsWith(data, "WIFI:")
    ensures t == Email ==> StartsWith(data, "mailto:")
    ensures t == Phone ==> StartsWith(data, "tel:")
    ensures t == Contact ==> StartsWith(data, "BEGIN:VCARD")
    ensures t == Text <==>
      !(|| StartsWith(data, "http://") || StartsWith(data, "https://") || StartsWith(data, "WIFI:")
        || StartsWith(data, "mailto:") || StartsWith(data, "tel:") || StartsWith(data, "BEGIN:VCARD"))
  {
    if StartsWith(data, "http://") || StartsWith(data, "https://") then Url
    else if StartsWith(data, "WIFI:") then WiFi
    else if StartsWith(data, "mailto:") then Email
    else if StartsWith(data, "tel:") then Phone
    else if StartsWith(data, "BEGIN:VCARD") then Contact
    else Text
  }

  /** The classifier as a table of (prefixes, type) rules read top to bottom. */
  const TypeRules: seq<(seq<string>, QrType)> := [
    (["http://", "https://"], Url),
    (["WIFI:"], WiFi),
    (["mailto:"], Email),
    (["tel:"], Phone),
    (["BEGIN:VCARD"], Contact)
  ]

  predicate StartsWithAny(s: string, prefixes: seq<string>) {
    exists i :: 0 <= i < |prefixes| && StartsWith(s, prefixes[i])
  }

  /** The type of the first rule one of whose prefixes `s` starts with; Text when none does. */
  function FirstMatchingRule(s: string, rules: seq<(seq<string>, QrType)>): (t: QrType)
    ensures t == Text || exists i :: 0 <= i < |rules| && t == rules[i].1 && StartsWithAny(s, rules[i].0)
  {
    if rules == [] then Text
    else if StartsWithAny(s, rules[0].0) then rules[0].1
    else FirstMatchingRule(s, rules[1..])
  }

  /** `detectQRType` is the first-match reading of the rule table. */
  lemma DetectQrTypeIsFirstMatch(data: string)
    ensures DetectQrType(data) == FirstMatchingRule(data, TypeRules)
  {
    var r := TypeRules;
    assert r[0].0[0] == "http://" && r[0].0[1] == "https://";
    assert StartsWithAny(data, r[0].0) <==> StartsWith(data, "http://") || StartsWith(data, "https://");
    var r1 := r[1..];
    assert r1[0].0[0] == "WIFI:";
    assert StartsWithAny(data, r1[0].0) <==> StartsWith(data, "WIFI:");
    var r2 := r1[1..];
    assert r2[0].0[0] == "mailto:";
    assert StartsWithAny(data, r2[0].0) <==> StartsWith(data, "mailto:");
    var r3 := r2[1..];
    assert r3[0].0[0] == "tel:";
    assert StartsWithAny(data, r3[0].0) <==> StartsWith(data, "tel:");
    var r4 := r3[1..];
    assert r4[0].0[0] == "BEGIN:VCARD";
    assert StartsWithAny(data, r4[0].0) <==> StartsWith(data, "BEGIN:VCARD");
    assert r4[1..] == [];
    assert FirstMatchingRule(data, r4) == if StartsWith(data, "BEGIN:VCARD") then Contact else Text;
    assert FirstMatchingRule(data, r3) == if StartsWith(data, "tel:") then Phone else FirstMatchingRule(data, r4);
    assert FirstMatchingRule(data, r2) == if StartsWith(data, "mailto:") then Email else FirstMatchingRule(data, r3);
    assert FirstMatchingRule(data, r1) == if StartsWith(data, "WIFI:") then WiFi else FirstMatchingRule(data, r2);
  }

  /** The classification depends only on the first 11 characters (the longest prefix, `BEGIN:VCARD`). */
  lemma DetectQrTypeReadsOnlyPrefix(s: string, t: string)
    requires |s| >= 11
    ensures DetectQrType(s + t) == DetectQrType(s)
  {
    StartsWithExtend(s, t, "http://");
    StartsWithExtend(s, t, "https://");
    StartsWithExtend(s, t, "WIFI:");
    StartsWithExtend(s, t, "mailto:");
    StartsWithExtend(s, t, "tel:");
    StartsWithExtend(s, t, "BEGIN:VCARD");
  }

  lemma FirstCharDiffers(s: string, prefix: string)
    requires s != [] && prefix != [] && s[0] != prefix[0]
    ensures !StartsWith(s, prefix)
  {
  }

  /** The prefix tests are case-sensitive: upper-case schemes and a lower-case `wifi:` are plain text. */
  lemma DetectQrTypeIsCaseSensitive()
    ensures DetectQrType("HTTP://example.com") == Text
    ensures DetectQrType("wifi:S:x;;") == Text
    ensures DetectQrType("MAILTO:a@b") == Text
  {
    var prefixes := ["http://", "https://", "WIFI:", "mailto:", "tel:", "BEGIN:VCARD"];
    var samples := ["HTTP://example.com", "wifi:S:x;;", "MAILTO:a@b"];
    forall i, j | 0 <= i < |samples| && 0 <= j < |prefixes| ensures !StartsWith(samples[i], prefixes[j]) {
      FirstCharDiffers(samples[i], prefixes[j]);
    }
    assert samples[0] == "HTTP://example.com" && samples[1] == "wifi:S:x;;" && samples[2] == "MAILTO:a@b";
    assert prefixes[0] == "http://" && prefixes[1] == "https://" && prefixes[2] == "WIFI:";
    assert prefixes[3] == "mailto:" && prefixes[4] == "tel:" && prefixes[5] == "BEGIN:VCARD";
  }

  // ---- the history list ----

  /** One saved scan. `id` and `timestamp` are both the save time in milliseconds. */
  datatype ScanEntry = ScanEntry(id: int, data: string, kind: string, timestamp: int)

  const HistoryCapacity: nat := 20
  const DuplicateWindowMs: int := 60000

  function Min(a: nat, b: nat): nat {
    if a <= b then a else b
  }

  /** Some entry has the same data and was saved less than 60 s before `now`. */
  function IsRecentDuplicate(history: seq<ScanEntry>, data: string, now: int): (dup: bool)
    ensures dup ==> history != []
    ensures dup <==> exists e :: e in history && e.data == data && now - e.timestamp < DuplicateWindowMs
  {
    exists i :: 0 <= i < |history| && history[i].data == data && now - history[i].timestamp < DuplicateWindowMs
  }

  /** The entry `addToHistory` builds: id and timestamp are the same clock reading, the type comes from the classifier. */
  function NewScan(data: string, now: int): (e: ScanEntry)
    ensures e.id == e.timestamp == now && e.data == data
    ensures e.kind == DetectQrType(data).Label()
    ensures data != "" && now != 0 ==> IsSavable(e)
  {
    ScanEntry(now, data, DetectQrType(data).Label(), now)
  }

  /**
    `addToHistory(data)` at time `now`: empty data and recent duplicates leave
    the list as it is; anything else goes to the front and the list keeps at
    most 20 entries, dropping only the oldest.
  */
  function AddScan(history: seq<ScanEntry>, data: string, now: int): (r: seq<ScanEntry>)
    ensures data == "" ==> r == history
    ensures IsRecentDuplicate(history, data, now) ==> r == history
    ensures data != "" && !IsRecentDuplicate(history, data, now) ==>
      && |r| == Min(|history| + 1, HistoryCapacity)
      && r[0] == NewScan(data, now)
      && forall i :: 1 <= i < |r| ==> r[i] == history[i - 1]
  {
    if data == "" || IsRecentDuplicate(history, data, now) then history
    else ([NewScan(data, now)] + history)[..Min(|history| + 1, HistoryCapacity)]
  }

  /** The window is strict: the same data exactly 60 000 ms later is saved again, 1 ms earlier it is not. */
  lemma DuplicateWindowIsStrict(e: ScanEntry)
    requires e.data != ""
    ensures |AddScan([e], e.data, e.timestamp + 59999)| == 1
    ensures |AddScan([e], e.data, e.timestamp + 60000)| == 2
  {
    assert [e][0].data == e.data;
    assert !IsRecentDuplicate([e], e.data, e.timestamp + 60000);
  }

  /**
    `a` may stand before `b` in the list: `b` is no newer, and when both hold
    the same data they were saved at least 60 s apart.
  */
  predicate Before(a: ScanEntry, b: ScanEntry) {
    b.timestamp <= a.timestamp && (a.data == b.data ==> a.timestamp - b.timestamp >= DuplicateWindowMs)
  }

  /** Newest first, and no two entries with the same data less than 60 s apart. */
  predicate Ordered(h: seq<ScanEntry>) {
    forall i, j :: 0 <= i < j < |h| ==> Before(h[i], h[j])
  }

  /** The record passes the filter applied when the list is read back (truthy id and data). */
  predicate IsSavable(e: ScanEntry) {
    e.id != 0 && e.data != ""
  }

  /** The invariant of the scan history. */
  predicate HistoryInvariant(h: seq<ScanEntry>) {
    && |h| <= HistoryCapacity
    && Ordered(h)
    && forall e :: e in h ==> IsSavable(e)
  }

  lemma OrderedCons(x: ScanEntry, t: seq<ScanEntry>)
    ensures Ordered([x] + t) <==> Ordered(t) && forall e :: e in t ==> Before(x, e)
  {
    var h := [x] + t;
    if Ordered(h) {
      forall i, j | 0 <= i < j < |t| ensures Before(t[i], t[j]) {
        assert t[i] == h[i + 1] && t[j] == h[j + 1];
      }
      forall e | e in t ensures Before(x, e) {
        var k :| 0 <= k < |t| && t[k] == e;
        assert h[k + 1] == e && h[0] == x;
        assert Before(h[0], h[k + 1]);
      }
    }
    if Ordered(t) && forall e :: e in t ==> Before(x, e) {
      forall i, j | 0 <= i < j < |h| ensures Before(h[i], h[j]) {
        assert h[j] == t[j - 1];
        if i > 0 { assert h[i] == t[i - 1]; }
      }
    }
  }

  /** Adding at a time no earlier than the newest entry (and not at the epoch itself) keeps the invariant. */
  lemma AddScanKeepsInvariant(h: seq<ScanEntry>, data: string, now: int)
    requires HistoryInvariant(h)
    requires now != 0
    requires |h| > 0 ==> h[0].timestamp <= now
    ensures HistoryInvariant(AddScan(h, data, now))
  {
    var r := AddScan(h, data, now);
    if data != "" && !IsRecentDuplicate(h, data, now) {
      forall i, j | 0 <= i < j < |r| ensures Before(r[i], r[j]) {
        assert r[j] == h[j - 1];
        if i > 0 {
          assert r[i] == h[i - 1];
        } else {
          assert h[j - 1].timestamp <= h[0].timestamp;
          assert !(h[j - 1].data == data && now - h[j - 1].timestamp < DuplicateWindowMs);
        }
      }
      forall e | e in r ensures IsSavable(e) {
        var k :| 0 <= k < |r| && r[k] == e;
        if k > 0 { assert r[k] == h[k - 1]; }
      }
    }
  }

  /** `removeFromHistory(id)`: every entry with that id goes, the others stay in order. */
  function RemoveScan(h: seq<ScanEntry>, id: int): (r: seq<ScanEntry>)
    ensures forall e :: e in r <==> e in h && e.id != id
    ensures IsSubsequence(r, h)
    ensures (forall i :: 0 <= i < |h| ==> h[i].id != id) ==> r == h
    ensures |r| <= |h|
    ensures |r| == |h| - CountId(h, id)
  {
    if h == [] then []
    else if h[0].id == id then RemoveScan(h[1..], id)
    else [h[0]] + RemoveScan(h[1..], id)
  }

  /** How many entries carry this id. */
  function CountId(h: seq<ScanEntry>, id: int): (n: nat)
    ensures n <= |h|
    ensures n == 0 <==> forall i :: 0 <= i < |h| ==> h[i].id != id
  {
    if h == [] then 0 else (if h[0].id == id then 1 else 0) + CountId(h[1..], id)
  }

  /** Removing entries keeps the invariant. */
  lemma {:induction false} RemoveScanKeepsInvariant(h: seq<ScanEntry>, id: int)
    requires HistoryInvariant(h)
    ensures HistoryInvariant(RemoveScan(h, id))
  {
    if h != [] {
      var t := h[1..];
      assert h == [h[0]] + t;
      OrderedCons(h[0], t);
      RemoveScanKeepsInvariant(t, id);
      if h[0].id != id {
        OrderedCons(h[0], RemoveScan(t, id));
      }
    }
  }

  // ---- storage ----

  const ScanHistoryKey: string := "qrScanHistory"

  /** A record as read back from storage: any of its fields may be missing. */
  datatype StoredScan = StoredScan(id: Option<int>, data: Option<string>, kind: string, timestamp: Option<int>)

  /**
    The stored text: one that does not parse, or parses to something other than
    an array (`filter` then throws), or an array of records (`null` items as None).
  */
  datatype ScanBlob = Unparseable | Records(items: seq<Option<StoredScan>>)

  /** `item && item.id && item.data && item.timestamp`. */
  predicate IsTruthy(x: Option<StoredScan>) {
    && x.Some?
    && x.value.id.Some? && x.value.id.value != 0
    && x.value.data.Some? && x.value.data.value != ""
    && x.value.timestamp.Some?
  }

  function ToEntry(x: Option<StoredScan>): (e: ScanEntry)
    requires IsTruthy(x)
    ensures IsSavable(e)
  {
    ScanEntry(x.value.id.value, x.value.data.value, x.value.kind, x.value.timestamp.value)
  }

  function ToRecord(e: ScanEntry): Option<StoredScan> {
    Some(StoredScan(Some(e.id), Some(e.data), e.kind, Some(e.timestamp)))
  }

  /** The filter applied when loading: the truthy records, in their stored order. */
  function ValidRecords(items: seq<Option<StoredScan>>): (r: seq<ScanEntry>)
    ensures |r| <= |items|
    ensures forall i :: 0 <= i < |r| ==> IsSavable(r[i])
    ensures forall i :: 0 <= i < |items| && IsTruthy(items[i]) ==> ToEntry(items[i]) in r
    ensures (forall i :: 0 <= i < |items| ==> !IsTruthy(items[i])) ==> r == []
  {
    if items == [] then []
    else if IsTruthy(items[0]) then [ToEntry(items[0])] + ValidRecords(items[1..])
    else ValidRecords(items[1..])
  }

  /** The positions of the truthy records, in increasing order. */
  function TruthyPositions(items: seq<Option<StoredScan>>): (ps: seq<nat>)
    ensures forall k :: 0 <= k < |ps| ==> ps[k] < |items| && IsTruthy(items[ps[k]])
    ensures forall i :: 0 <= i < |items| && IsTruthy(items[i]) ==> i in ps
    ensures forall k, l :: 0 <= k < l < |ps| ==> ps[k] < ps[l]
  {
    if items == [] then []
    else
      var n := |items| - 1;
      assert forall i :: 0 <= i < n ==> items[..n][i] == items[i];
      TruthyPositions(items[..n]) + (if IsTruthy(items[n]) then [n] else [])
  }

  /** Filtering a concatenation filters each part. */
  lemma {:induction false} ValidRecordsAppend(a: seq<Option<StoredScan>>, b: seq<Option<StoredScan>>)
    ensures ValidRecords(a + b) == ValidRecords(a) + ValidRecords(b)
  {
    if a == [] {
      assert a + b == b;
    } else {
      assert (a + b)[0] == a[0] && (a + b)[1..] == a[1..] + b;
      ValidRecordsAppend(a[1..], b);
      if IsTruthy(a[0]) {
        assert [ToEntry(a[0])] + (ValidRecords(a[1..]) + ValidRecords(b)) == ([ToEntry(a[0])] + ValidRecords(a[1..])) + ValidRecords(b);
      }
    }
  }

  /**
    Loading keeps exactly the truthy records and keeps them in order: the
    k-th loaded entry is the record at the k-th truthy position.
  */
  lemma {:induction false} ValidRecordsIsFilter(items: seq<Option<StoredScan>>)
    ensures |ValidRecords(items)| == |TruthyPositions(items)|
    ensures forall k :: 0 <= k < |ValidRecords(items)| ==> ValidRecords(items)[k] == ToEntry(items[TruthyPositions(items)[k]])
  {
    if items != [] {
      var n := |items| - 1;
      var front := items[..n];
      assert items == front + [items[n]];
      ValidRecordsAppend(front, [items[n]]);
      ValidRecordsIsFilter(front);
      var tp, vr := TruthyPositions(front), ValidRecords(front);
      var last := if IsTruthy(items[n]) then [n] else [];
      assert TruthyPositions(items) == tp + last;
      assert ValidRecords(items) == vr + (if IsTruthy(items[n]) then [ToEntry(items[n])] else []);
      forall k | 0 <= k < |vr|
        ensures ValidRecords(items)[k] == ToEntry(items[TruthyPositions(items)[k]])
      {
        assert front[tp[k]] == items[tp[k]];
      }
    }
  }

  function ToRecords(h: seq<ScanEntry>): (items: seq<Option<StoredScan>>)
    ensures |items| == |h|
  {
    if h == [] then [] else [ToRecord(h[0])] + ToRecords(h[1..])
  }

  /**
    `loadHistoryFromStorage`: with no stored text nothing is loaded; a text that
    is not a JSON array removes the key and loads nothing; otherwise the
    filtered records are loaded. None means the current history is kept.
  */
  function LoadScans(store: map<string, ScanBlob>): (res: (Option<seq<ScanEntry>>, map<string, ScanBlob>))
    ensures res.0.Some? <==> ScanHistoryKey in store && store[ScanHistoryKey].Records?
    ensures res.0.Some? ==> res.0.value == ValidRecords(store[ScanHistoryKey].items) && res.1 == store
    ensures res.0.None? ==> res.1 == store - {ScanHistoryKey}
  {
    if ScanHistoryKey !in store then (None, store)
    else match store[ScanHistoryKey]
      case Unparseable => (None, store - {ScanHistoryKey})
      case Records(items) => (Some(ValidRecords(items)), store)
  }

  /** The persist step: a non-empty list is written, an empty one removes the key. */
  function PersistScans(h: seq<ScanEntry>, store: map<string, ScanBlob>): (s: map<string, ScanBlob>)
    ensures |h| > 0 ==> ScanHistoryKey in s && s[ScanHistoryKey] == Records(ToRecords(h))
    ensures |h| == 0 ==> ScanHistoryKey !in s
    ensures forall k :: k != ScanHistoryKey ==> (k in s <==> k in store) && (k in s ==> s[k] == store[k])
  {
    if |h| > 0 then store[ScanHistoryKey := Records(ToRecords(h))] else store - {ScanHistoryKey}
  }

  lemma {:induction false} ValidRecordsOfSaved(h: seq<ScanEntry>)
    requires forall i :: 0 <= i < |h| ==> IsSavable(h[i])
    ensures ValidRecords(ToRecords(h)) == h
  {
    if h != [] {
      ValidRecordsOfSaved(h[1..]);
      assert ToRecords(h)[1..] == ToRecords(h[1..]);
    }
  }

  /** A persisted non-empty list loads back unchanged; an empty one leaves no key, so nothing loads. */
  lemma PersistThenLoad(h: seq<ScanEntry>, store: map<string, ScanBlob>)
    requires forall i :: 0 <= i < |h| ==> IsSavable(h[i])
    ensures h != [] ==> LoadScans(PersistScans(h, store)).0 == Some(h)
    ensures h == [] ==> LoadScans(PersistScans(h, store)).0 == None
    ensures ScanHistoryKey !in PersistScans(h, store) <==> h == []
  {
    ValidRecordsOfSaved(h);
  }

  /** One well-formed record and one without a timestamp load as just the well-formed one. */
  lemma LoadDropsRecordWithoutTimestamp(good: ScanEntry, bad: StoredScan)
    requires IsSavable(good) && bad.timestamp.None?
    ensures LoadScans(map[ScanHistoryKey := Records([ToRecord(good), Some(bad)])]).0 == Some([good])
  {
    var items := [ToRecord(good), Some(bad)];
    var store := map[ScanHistoryKey := Records(items)];
    assert items[1..][1..] == [];
    assert ValidRecords(items[1..]) == [];
    assert ValidRecords(items) == [good];
    assert store[ScanHistoryKey] == Records(items);
  }

  // ---- display helpers ----

  /** `formatTimestamp`: minutes, hours and days each derived from the previous one by floor division. */
  function ReaderAge(diffMs: int): (a: Age)
    ensures a.JustNow? <==> diffMs < 60000
    ensures a.MinutesAgo? ==> 60000 <= diffMs < 3600000 && a.minutes == diffMs / 60000 && a.minutes >= 1
    ensures a.HoursAgo? ==> 3600000 <= diffMs < 86400000 && a.hours == diffMs / 3600000 && a.hours >= 1
    ensures a.DaysAgo? ==> 86400000 <= diffMs < 7 * 86400000 && a.days == diffMs / 86400000 && a.days >= 1
    ensures a.OnDate? <==> diffMs >= 7 * 86400000
  {
    var mins := diffMs / 60000;
    var hours := mins / 60;
    var days := hours / 24;
    if mins < 1 then JustNow
    else if mins < 60 then MinutesAgo(mins)
    else if hours < 24 then HoursAgo(hours)
    else if days < 7 then DaysAgo(days)
    else OnDate
  }

  /** The text `formatTimestamp` shows; `localeDate` stands for `toLocaleDateString()`. */
  function FormatTimestamp(diffMs: int, localeDate: string): (r: string)
    ensures ReaderAge(diffMs).OnDate? ==> r == localeDate
    ensures ReaderAge(diffMs).JustNow? ==> r == "Just now"
    ensures ReaderAge(diffMs).MinutesAgo? ==>
      var n := ReaderAge(diffMs).minutes; r == NatToString(n) + (if n > 1 then " mins ago" else " min ago")
    ensures ReaderAge(diffMs).HoursAgo? ==>
      var n := ReaderAge(diffMs).hours; r == NatToString(n) + (if n > 1 then " hours ago" else " hour ago")
    ensures ReaderAge(diffMs).DaysAgo? ==>
      var n := ReaderAge(diffMs).days; r == NatToString(n) + (if n > 1 then " days ago" else " day ago")
  {
    match ReaderAge(diffMs)
    case JustNow => "Just now"
    case MinutesAgo(n) => PluralAgo(n, " min")
    case HoursAgo(n) => PluralAgo(n, " hour")
    case DaysAgo(n) => PluralAgo(n, " day")
    case OnDate => localeDate
  }

  /** `${n} unit${n > 1 ? 's' : ''} ago`. */
  function PluralAgo(n: nat, unit: string): (r: string)
    ensures r == NatToString(n) + (if n > 1 then unit + "s ago" else unit + " ago")
  {
    var t := NatToString(n) + unit + (if n > 1 then "s" else "") + " ago";
    assert t == NatToString(n) + (unit + (if n > 1 then "s" else "") + " ago");
    t
  }

  const UrlSuffixes: seq<string> := [".com", ".net", ".org", ".io", ".app", ".dev", ".ai", ".co", ".in", ".us", ".uk"]

  /** `isURL`: non-empty data that starts like a web address or ends in one of the listed domains. */
  function IsUrl(qrData: Option<string>): (link: bool)
    ensures link ==> qrData.Some? && qrData.value != ""
    ensures qrData.Some? && (StartsWith(qrData.value, "www.") || EndsWith(qrData.value, ".com")) ==> link
    ensures qrData.Some? && DetectQrType(qrData.value) == Url ==> link
    ensures forall i :: 0 <= i < |UrlSuffixes| && qrData.Some? && EndsWith(qrData.value, UrlSuffixes[i]) ==> link
    ensures link <==> qrData.Some? && (|| DetectQrType(qrData.value) == Url || StartsWith(qrData.value, "www.")
                                      || exists i :: 0 <= i < |UrlSuffixes| && EndsWith(qrData.value, UrlSuffixes[i]))
  {
    assert UrlSuffixes[0] == ".com";
    && qrData.Some? && qrData.value != ""
    && (|| StartsWith(qrData.value, "http://") || StartsWith(qrData.value, "https://") || StartsWith(qrData.value, "www.")
        || exists i :: 0 <= i < |UrlSuffixes| && EndsWith(qrData.value, UrlSuffixes[i]))
  }

  /** Plain text is not offered as a link: "hello" has no scheme, no `www.` and no listed ending. */
  lemma PlainTextIsNotUrl()
    ensures !IsUrl(Some("hello"))
  {
    assert !StartsWith("hello", "www.") by { assert "hello"[..4][0] == 'h'; }
    assert DetectQrType("hello") != Url;
    forall i | 0 <= i < |UrlSuffixes| ensures !EndsWith("hello", UrlSuffixes[i]) {
      var s := UrlSuffixes[i];
      assert s[0] == '.';
      if |s| <= 5 {
        assert "hello"[5 - |s|..][0] == "hello"[5 - |s|];
      }
    }
  }

  /** Everything classified as a URL is also offered as a link. */
  lemma UrlTypeIsUrl(data: string)
    requires DetectQrType(data) == Url
    ensures IsUrl(Some(data))
  {
  }
}
