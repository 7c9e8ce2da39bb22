/** The attendance report of one worker: the worker's punches grouped into
    one row per day with its IN and OUT times, newest day first, the
    department fallback chain, and the guarded date-range filter. */
module WorkerAttendance {
  import opened Domain
  import opened Seqs
  import opened Text

  /** The populated worker of a punch. Absent or empty text fields are "";
      `department` is `worker.department.name`. */
  datatype AttendanceWorker = AttendanceWorker(
    id: Id,
    name: string,
    rfid: string,
    department: string,
    departmentName: string,
    photo: Option<string>)

  /** One punch. `date` is the ISO date-time text ("" when absent),
      `department` is `record.department.name`, and `createdAt` is carried
      through unread. */
  datatype AttendanceRecord = AttendanceRecord(
    date: string,
    time: string,
    presence: bool,
    worker: Option<AttendanceWorker>,
    department: string,
    departmentName: string,
    createdAt: string)

  /** A row of the report. */
  datatype Entry = Entry(
    date: string,
    name: string,
    rfid: string,
    departmentName: string,
    photo: Option<string>,
    inTimes: seq<string>,
    outTimes: seq<string>,
    createdAt: string)

  const Unknown: string := "Unknown"

  /** `v || 'Unknown'`. */
  function OrUnknown(v: string): (r: string)
    ensures v == "" ==> r == Unknown
    ensures v != "" ==> r == v
  {
    if v == "" then Unknown else v
  }

  // ---------------------------------------------------------------------
  // The department fallback chain

  /** The places `getDepartmentName` looks, in the order it looks. */
  function DepartmentCandidates(r: AttendanceRecord): (cs: seq<string>)
    ensures |cs| == 4
  {
    [ if r.worker.Some? then r.worker.value.department else "",
      r.department,
      if r.worker.Some? then r.worker.value.departmentName else "",
      r.departmentName ]
  }

  /** `getDepartmentName`: the first non-empty candidate, or "Unknown". */
  function DepartmentName(r: AttendanceRecord): (name: string)
    ensures name != ""
    ensures name == Unknown || name in DepartmentCandidates(r)
  {
    if r.worker.Some? && r.worker.value.department != "" then r.worker.value.department
    else if r.department != "" then r.department
    else if r.worker.Some? && r.worker.value.departmentName != "" then r.worker.value.departmentName
    else if r.departmentName != "" then r.departmentName
    else Unknown
  }

  /** `getDepartmentName` takes the first candidate that is present, and
      "Unknown" when none is. */
  lemma DepartmentNameFirstPresent(r: AttendanceRecord)
    ensures (forall i :: 0 <= i < 4 ==> DepartmentCandidates(r)[i] == "") ==> DepartmentName(r) == Unknown
    ensures forall i ::
      (0 <= i < 4 && DepartmentCandidates(r)[i] != "" && (forall j :: 0 <= j < i ==> DepartmentCandidates(r)[j] == ""))
      ==> DepartmentName(r) == DepartmentCandidates(r)[i]
  {
    var cs := DepartmentCandidates(r);
    assert cs[0] == (if r.worker.Some? then r.worker.value.department else "");
    assert cs[1] == r.department;
    assert cs[2] == (if r.worker.Some? then r.worker.value.departmentName else "");
    assert cs[3] == r.departmentName;
  }

  // ---------------------------------------------------------------------
  // Selecting the worker's punches

  /** `item.worker?._id === id`. */
  function OfWorker(id: Id): AttendanceRecord -> bool {
    (r: AttendanceRecord) => r.worker.Some? && r.worker.value.id == id
  }

  /** `fetchAttendanceData`: the punches of the route's worker, or nothing
      when the response holds no array. */
  function WorkerRecords(attendance: Option<seq<AttendanceRecord>>, id: Id): (r: seq<AttendanceRecord>)
    ensures attendance.None? ==> r == []
    ensures attendance.Some? ==> forall x :: x in r <==> x in attendance.value && x.worker.Some? && x.worker.value.id == id
    ensures attendance.Some? ==> forall x :: multiset(r)[x] == if x.worker.Some? && x.worker.value.id == id then multiset(attendance.value)[x] else 0
  {
    if attendance.None? then [] else Filter(attendance.value, OfWorker(id))
  }

  /** The selection keeps input order: it distributes over concatenation. */
  lemma WorkerRecordsConcat(a: seq<AttendanceRecord>, b: seq<AttendanceRecord>, id: Id)
    ensures WorkerRecords(Some(a + b), id) == WorkerRecords(Some(a), id) + WorkerRecords(Some(b), id)
  {
    FilterConcat(a, b, OfWorker(id));
  }

  // ---------------------------------------------------------------------
  // Grouping by day

  /** `s.split('T')[0]`: the text before the first 'T'. */
  function BeforeT(s: string): (r: string)
    ensures |r| <= |s| && r == s[..|r|]
    ensures 'T' !in r
    ensures |r| < |s| ==> s[|r|] == 'T'
  {
    if s == [] || s[0] == 'T' then [] else [s[0]] + BeforeT(s[1..])
  }

  /** The day a punch is grouped under. */
  function DateKey(r: AttendanceRecord): string {
    if r.date == "" then Unknown else BeforeT(r.date)
  }

  function KeySet(data: seq<AttendanceRecord>): set<string> {
    set r | r in data :: DateKey(r)
  }

  /** The days in order of first appearance. */
  function Keys(data: seq<AttendanceRecord>): seq<string> {
    if data == [] then []
    else
      var ks := Keys(data[..|data| - 1]);
      var k := DateKey(data[|data| - 1]);
      if k in ks then ks else ks + [k]
  }

  lemma {:induction false} KeysFacts(data: seq<AttendanceRecord>)
    ensures Distinct(Keys(data))
    ensures forall k :: k in Keys(data) <==> k in KeySet(data)
  {
    if data != [] {
      var n := |data| - 1;
      KeysFacts(data[..n]);
      assert data == data[..n] + [data[n]];
      assert KeySet(data) == KeySet(data[..n]) + {DateKey(data[n])};
    }
  }

  lemma KeysSnoc(data: seq<AttendanceRecord>, x: AttendanceRecord)
    ensures Keys(data + [x]) == if DateKey(x) in Keys(data) then Keys(data) else Keys(data) + [DateKey(x)]
  {
    assert (data + [x])[..|data|] == data;
  }

  lemma Overwrite<K, V>(m: map<K, V>, k: K, a: V, b: V)
    ensures m[k := a][k := b] == m[k := b]
  {
  }

  /** The first punch of day `k`. */
  function FirstWithKey(data: seq<AttendanceRecord>, k: string): (r: Option<AttendanceRecord>)
    ensures r.None? <==> forall x :: x in data ==> DateKey(x) != k
    ensures r.Some? ==> r.value in data && DateKey(r.value) == k
  {
    if data == [] then None
    else if DateKey(data[0]) == k then Some(data[0])
    else
      assert forall x :: x in data ==> x == data[0] || x in data[1..];
      FirstWithKey(data[1..], k)
  }

  lemma {:induction false} FirstWithKeySnoc(data: seq<AttendanceRecord>, x: AttendanceRecord, k: string)
    ensures FirstWithKey(data + [x], k) ==
      if FirstWithKey(data, k).Some? then FirstWithKey(data, k)
      else if DateKey(x) == k then Some(x) else None
  {
    if data == [] {
      assert [] + [x] == [x];
    } else {
      assert (data + [x])[1..] == data[1..] + [x];
      FirstWithKeySnoc(data[1..], x, k);
    }
  }

  /** The punches of day `k` that are IN (`presence`) or OUT (`!presence`),
      in input order. */
  function Selected(data: seq<AttendanceRecord>, k: string, presence: bool): seq<AttendanceRecord> {
    if data == [] then []
    else
      var x := data[|data| - 1];
      Selected(data[..|data| - 1], k, presence) + (if DateKey(x) == k && x.presence == presence then [x] else [])
  }

  lemma {:induction false} SelectedEmpty(data: seq<AttendanceRecord>, k: string, presence: bool)
    requires k !in KeySet(data)
    ensures Selected(data, k, presence) == []
  {
    if data != [] {
      assert data[|data| - 1] in data;
      assert k !in KeySet(data[..|data| - 1]);
      SelectedEmpty(data[..|data| - 1], k, presence);
    }
  }

  function OnDay(k: string): AttendanceRecord -> bool {
    (r: AttendanceRecord) => DateKey(r) == k
  }

  function TimesOf(rs: seq<AttendanceRecord>): (ts: seq<string>)
    ensures |ts| == |rs|
    ensures forall i :: 0 <= i < |rs| ==> ts[i] == rs[i].time
  {
    seq(|rs|, i requires 0 <= i < |rs| => rs[i].time)
  }

  /** Every punch of a day is an IN or an OUT time of that day. */
  lemma {:induction false} InPlusOut(data: seq<AttendanceRecord>, k: string)
    ensures |Selected(data, k, true)| + |Selected(data, k, false)| == Count(data, OnDay(k))
  {
    if data != [] {
      InPlusOut(data[..|data| - 1], k);
      CountOnDayLast(data, k);
    }
  }

  lemma CountOnDayLast(data: seq<AttendanceRecord>, k: string)
    requires data != []
    ensures Count(data, OnDay(k)) ==
      Count(data[..|data| - 1], OnDay(k)) + if DateKey(data[|data| - 1]) == k then 1 else 0
  {
    var n := |data| - 1;
    assert data == data[..n] + [data[n]];
    CountOnDaySnoc(data[..n], data[n], k);
  }

  lemma CountOnDaySnoc(data: seq<AttendanceRecord>, x: AttendanceRecord, k: string)
    ensures Count(data + [x], OnDay(k)) == Count(data, OnDay(k)) + if DateKey(x) == k then 1 else 0
  {
    FilterConcat(data, [x], OnDay(k));
    FilterSingle(x, OnDay(k));
  }

  /** A new row: the header fields of the day's first punch, no times yet. */
  function Header(r: AttendanceRecord, k: string): Entry {
    Entry(k,
      OrUnknown(if r.worker.Some? then r.worker.value.name else ""),
      OrUnknown(if r.worker.Some? then r.worker.value.rfid else ""),
      DepartmentName(r),
      if r.worker.Some? then r.worker.value.photo else None,
      [], [],
      r.createdAt)
  }

  /** The row of day `k` whose first punch is `first`: that punch's header
      and every IN and OUT time of the day in input order. */
  function EntryFor(data: seq<AttendanceRecord>, k: string, first: AttendanceRecord): (e: Entry)
    ensures e.date == k
  {
    Header(first, k).(inTimes := TimesOf(Selected(data, k, true)), outTimes := TimesOf(Selected(data, k, false)))
  }

  /** `e` is the row `processAttendanceData` owes day `e.date`. */
  predicate IsEntryOf(data: seq<AttendanceRecord>, e: Entry) {
    FirstWithKey(data, e.date).Some? && e == EntryFor(data, e.date, FirstWithKey(data, e.date).value)
  }

  /** What the loop has built after a prefix: a row for each day seen. */
  predicate Tracks(data: seq<AttendanceRecord>, grouped: map<string, Entry>) {
    forall k :: k in grouped ==> grouped[k].date == k && IsEntryOf(data, grouped[k])
  }

  lemma SelectedSnoc(data: seq<AttendanceRecord>, x: AttendanceRecord, k: string, presence: bool)
    ensures Selected(data + [x], k, presence) ==
      Selected(data, k, presence) + (if DateKey(x) == k && x.presence == presence then [x] else [])
  {
    assert (data + [x])[..|data|] == data;
  }

  /** The row after the loop pushes punch `x` into it. */
  function Punched(e: Entry, x: AttendanceRecord): Entry {
    if x.presence then e.(inTimes := e.inTimes + [x.time]) else e.(outTimes := e.outTimes + [x.time])
  }

  lemma FirstWithKeyKept(data: seq<AttendanceRecord>, x: AttendanceRecord, k: string)
    requires FirstWithKey(data, k).Some?
    ensures FirstWithKey(data + [x], k) == FirstWithKey(data, k)
  {
    FirstWithKeySnoc(data, x, k);
  }

  lemma FirstWithKeyOpened(data: seq<AttendanceRecord>, x: AttendanceRecord)
    requires DateKey(x) !in KeySet(data)
    ensures FirstWithKey(data + [x], DateKey(x)) == Some(x)
  {
    FirstWithKeySnoc(data, x, DateKey(x));
  }

  lemma SelectedOther(data: seq<AttendanceRecord>, x: AttendanceRecord, k: string, presence: bool)
    requires DateKey(x) != k
    ensures Selected(data + [x], k, presence) == Selected(data, k, presence)
  {
    SelectedSnoc(data, x, k, presence);
  }

  lemma SelectedSame(data: seq<AttendanceRecord>, x: AttendanceRecord)
    ensures Selected(data + [x], DateKey(x), x.presence) == Selected(data, DateKey(x), x.presence) + [x]
    ensures Selected(data + [x], DateKey(x), !x.presence) == Selected(data, DateKey(x), !x.presence)
  {
    SelectedSnoc(data, x, DateKey(x), x.presence);
    SelectedSnoc(data, x, DateKey(x), !x.presence);
  }

  lemma EntryForSameSelection(a: seq<AttendanceRecord>, b: seq<AttendanceRecord>, k: string, f: AttendanceRecord)
    requires Selected(a, k, true) == Selected(b, k, true)
    requires Selected(a, k, false) == Selected(b, k, false)
    ensures EntryFor(a, k, f) == EntryFor(b, k, f)
  {
  }

  /** A punch of another day leaves a row as it was. */
  lemma EntryUnaffected(data: seq<AttendanceRecord>, x: AttendanceRecord, e: Entry)
    requires IsEntryOf(data, e) && DateKey(x) != e.date
    ensures IsEntryOf(data + [x], e)
  {
    var k := e.date;
    FirstWithKeyKept(data, x, k);
    SelectedOther(data, x, k, true);
    SelectedOther(data, x, k, false);
    EntryForSameSelection(data + [x], data, k, FirstWithKey(data, k).value);
  }

  /** Appending to one list of times of a row. */
  lemma PunchedEntryFor(data: seq<AttendanceRecord>, x: AttendanceRecord, f: AttendanceRecord)
    ensures Punched(EntryFor(data, DateKey(x), f), x) == EntryFor(data + [x], DateKey(x), f)
  {
    var k := DateKey(x);
    SelectedSame(data, x);
    assert TimesOf(Selected(data, k, x.presence) + [x]) == TimesOf(Selected(data, k, x.presence)) + [x.time];
  }

  /** A punch of the row's day is appended to the row's IN or OUT times. */
  lemma EntryExtended(data: seq<AttendanceRecord>, x: AttendanceRecord, e: Entry)
    requires IsEntryOf(data, e) && DateKey(x) == e.date
    ensures IsEntryOf(data + [x], Punched(e, x))
  {
    FirstWithKeyKept(data, x, e.date);
    PunchedEntryFor(data, x, FirstWithKey(data, e.date).value);
  }

  /** The first punch of a day opens its row. */
  lemma EntryStarted(data: seq<AttendanceRecord>, x: AttendanceRecord)
    requires DateKey(x) !in KeySet(data)
    ensures IsEntryOf(data + [x], Punched(Header(x, DateKey(x)), x))
  {
    var k := DateKey(x);
    FirstWithKeyOpened(data, x);
    SelectedEmpty(data, k, true);
    SelectedEmpty(data, k, false);
    assert Header(x, k) == EntryFor(data, k, x);
    PunchedEntryFor(data, x, x);
  }

  /** One iteration of the grouping loop keeps `Tracks`. */
  lemma TracksStep(data: seq<AttendanceRecord>, x: AttendanceRecord, grouped: map<string, Entry>, e: Entry)
    requires Tracks(data, grouped)
    requires forall k :: k in grouped <==> k in KeySet(data)
    requires DateKey(x) in grouped ==> e == grouped[DateKey(x)]
    requires DateKey(x) !in grouped ==> e == Header(x, DateKey(x))
    ensures Tracks(data + [x], grouped[DateKey(x) := Punched(e, x)])
  {
    var g := grouped[DateKey(x) := Punched(e, x)];
    forall k | k in g ensures g[k].date == k && IsEntryOf(data + [x], g[k]) {
      TracksStepAt(data, x, grouped, e, k);
    }
  }

  lemma TracksStepAt(data: seq<AttendanceRecord>, x: AttendanceRecord, grouped: map<string, Entry>, e: Entry, k: string)
    requires Tracks(data, grouped)
    requires forall k :: k in grouped <==> k in KeySet(data)
    requires DateKey(x) in grouped ==> e == grouped[DateKey(x)]
    requires DateKey(x) !in grouped ==> e == Header(x, DateKey(x))
    requires k in grouped || k == DateKey(x)
    ensures var g := grouped[DateKey(x) := Punched(e, x)];
      g[k].date == k && IsEntryOf(data + [x], g[k])
  {
    if k != DateKey(x) {
      EntryUnaffected(data, x, grouped[k]);
    } else if k in grouped {
      EntryExtended(data, x, e);
    } else {
      EntryStarted(data, x);
    }
  }

  /** Sort key for "newest first": minus the date's numeric value. */
  function NewestFirstKey(e: Entry): int {
    -DateOrder(e.date)
  }

  /** The `groupedData` object after the loop has visited `data`. */
  function GroupedOf(data: seq<AttendanceRecord>): map<string, Entry> {
    if data == [] then map[]
    else
      var g := GroupedOf(data[..|data| - 1]);
      var x := data[|data| - 1];
      var e := if DateKey(x) in g then g[DateKey(x)] else Header(x, DateKey(x));
      g[DateKey(x) := Punched(e, x)]
  }

  /** The object holds one key per day seen, and each day's row is the one
      the day's punches call for. */
  lemma {:induction false} GroupedOfTracks(data: seq<AttendanceRecord>)
    ensures forall k :: k in GroupedOf(data) <==> k in KeySet(data)
    ensures Tracks(data, GroupedOf(data))
  {
    if data != [] {
      var n := |data| - 1;
      var g := GroupedOf(data[..n]);
      var x := data[n];
      GroupedOfTracks(data[..n]);
      assert data == data[..n] + [x];
      assert KeySet(data) == KeySet(data[..n]) + {DateKey(x)};
      TracksStep(data[..n], x, g, if DateKey(x) in g then g[DateKey(x)] else Header(x, DateKey(x)));
    }
  }

  /** The loop of `processAttendanceData` filling `groupedData`; `order` is
      the insertion order of its keys. */
  method GroupByDate(data: seq<AttendanceRecord>) returns (grouped: map<string, Entry>, order: seq<string>)
    ensures order == Keys(data)
    ensures forall k :: k in grouped <==> k in order
    ensures Tracks(data, grouped)
  {
    grouped := map[];
    order := [];
    for i := 0 to |data|
      invariant order == Keys(data[..i])
      invariant grouped == GroupedOf(data[..i])
    {
      ghost var before, seen := grouped, data[..i];
      var record := data[i];
      var date := DateKey(record);
      assert data[..i + 1] == seen + [record];
      assert (seen + [record])[..i] == seen;
      KeysFacts(seen);
      GroupedOfTracks(seen);
      if date !in grouped {
        grouped := grouped[date := Header(record, date)];
        order := order + [date];
      }
      var e := grouped[date];
      if record.presence {
        grouped := grouped[date := e.(inTimes := e.inTimes + [record.time])];
      } else {
        grouped := grouped[date := e.(outTimes := e.outTimes + [record.time])];
      }
      Overwrite(before, date, Header(record, date), Punched(e, record));
    }
    assert data[..|data|] == data;
    KeysFacts(data);
    GroupedOfTracks(data);
  }

  /** `processAttendanceData`: one row per distinct day, each built from the
      day's punches, ordered newest day first. */
  method ProcessAttendanceData(data: seq<AttendanceRecord>) returns (entries: seq<Entry>)
    ensures |entries| == |Keys(data)|
    ensures forall i :: 0 <= i < |entries| ==> IsEntryOf(data, entries[i])
    ensures forall i, j :: 0 <= i < j < |entries| ==> entries[i].date != entries[j].date
    ensures (set e | e in entries :: e.date) == KeySet(data)
    ensures forall i :: 0 <= i < |entries| ==>
      |entries[i].inTimes| + |entries[i].outTimes| == Count(data, OnDay(entries[i].date))
    ensures SortedBy(entries, NewestFirstKey)
    ensures forall i, j :: 0 <= i < j < |entries| && IsoDate(entries[i].date) && IsoDate(entries[j].date) ==>
      Le(entries[j].date, entries[i].date)
  {
    var grouped, order := GroupByDate(data);
    var values := seq(|order|, j requires 0 <= j < |order| => grouped[order[j]]);
    entries := SortBy(values, NewestFirstKey);
    KeysFacts(data);
    RowsFacts(data, order, grouped, values, entries);
    forall i | 0 <= i < |entries|
      ensures |entries[i].inTimes| + |entries[i].outTimes| == Count(data, OnDay(entries[i].date))
    {
      InPlusOut(data, entries[i].date);
    }
    forall i, j | 0 <= i < j < |entries| && IsoDate(entries[i].date) && IsoDate(entries[j].date)
      ensures Le(entries[j].date, entries[i].date)
    {
      NewestFirstIso(entries, i, j);
    }
  }

  /** A row is determined by its day. */
  lemma EntriesByDate(data: seq<AttendanceRecord>, rows: seq<Entry>)
    requires Distinct(rows) && forall i :: 0 <= i < |rows| ==> IsEntryOf(data, rows[i])
    ensures forall i, j :: 0 <= i < j < |rows| ==> rows[i].date != rows[j].date
  {
  }

  lemma SameElements<T>(a: seq<T>, b: seq<T>)
    requires multiset(a) == multiset(b)
    ensures forall x :: x in a <==> x in b
  {
    forall x ensures x in a <==> x in b {
      assert x in a <==> x in multiset(a);
      assert x in b <==> x in multiset(b);
    }
  }

  /** The rows taken from the map in day order, and any permutation of
      them, are one row per day. */
  lemma RowsFacts(data: seq<AttendanceRecord>, order: seq<string>, grouped: map<string, Entry>,
                  values: seq<Entry>, entries: seq<Entry>)
    requires Distinct(order) && (forall k :: k in order <==> k in KeySet(data))
    requires forall k :: k in grouped <==> k in order
    requires Tracks(data, grouped)
    requires |values| == |order| && forall j :: 0 <= j < |order| ==> values[j] == grouped[order[j]]
    requires multiset(entries) == multiset(values)
    ensures |entries| == |order|
    ensures forall i :: 0 <= i < |entries| ==> IsEntryOf(data, entries[i])
    ensures forall i, j :: 0 <= i < j < |entries| ==> entries[i].date != entries[j].date
    ensures (set e | e in entries :: e.date) == KeySet(data)
  {
    PermutationLength(entries, values);
    SameElements(entries, values);
    assert forall j :: 0 <= j < |values| ==> values[j].date == order[j];
    assert Distinct(values);
    DistinctPermutation(values, entries);
    assert forall i :: 0 <= i < |entries| ==> entries[i] in values;
    EntriesByDate(data, entries);
    forall k | k in KeySet(data) ensures k in (set e | e in entries :: e.date) {
      var j :| 0 <= j < |order| && order[j] == k;
      assert values[j] in entries;
    }
  }

  // ---------------------------------------------------------------------
  // Ordering by date

  predicate IsDigit(c: char) {
    '0' <= c <= '9'
  }

  /** A well-formed `YYYY-MM-DD` day. */
  predicate IsoDate(s: string) {
    |s| == 10 && s[4] == '-' && s[7] == '-' &&
    forall i :: 0 <= i < 10 && i != 4 && i != 7 ==> IsDigit(s[i])
  }

  function DigitValue(c: char): (v: nat)
    ensures v <= 9
  {
    if IsDigit(c) then c as int - '0' as int else 0
  }

  function Pow10(n: nat): (p: nat)
    ensures p >= 1
  {
    if n == 0 then 1 else 10 * Pow10(n - 1)
  }

  /** The characters read as decimal digits; a separator reads as 0. */
  function Digits(s: string): (v: nat)
    ensures v < Pow10(|s|)
  {
    if s == [] then 0
    else
      var d, p, rest := DigitValue(s[0]), Pow10(|s| - 1), Digits(s[1..]);
      DigitBound(d, p, rest);
      d * p + rest
  }

  lemma DigitBound(d: nat, p: nat, rest: nat)
    requires d <= 9 && rest < p
    ensures d * p + rest < 10 * p
  {
    assert 10 * p == d * p + (10 - d) * p;
    assert (10 - d) * p >= p by {
      assert 10 - d >= 1;
    }
  }

  /** The value `new Date(d)` orders days by; -1 for what is not a day. */
  function DateOrder(d: string): int {
    if IsoDate(d) then Digits(d) else -1
  }

  /** Two strings with digits in the same places and equal characters
      elsewhere. */
  predicate SameShape(a: string, b: string) {
    |a| == |b| && forall i :: 0 <= i < |a| ==> (IsDigit(a[i]) && IsDigit(b[i])) || a[i] == b[i]
  }

  lemma LeadingDigit(da: nat, db: nat, p: nat, x: nat, y: nat)
    requires da < db && x < p && y < p
    ensures da * p + x < db * p + y
  {
    assert db * p == da * p + (db - da) * p;
    assert (db - da) * p >= p by {
      assert db - da >= 1;
    }
  }

  /** For strings of the same shape, string order is numeric order. */
  lemma {:induction false} DigitsOrder(a: string, b: string)
    requires SameShape(a, b)
    ensures Lt(a, b) <==> Digits(a) < Digits(b)
  {
    if a != [] {
      var p := Pow10(|a| - 1);
      assert SameShape(a[1..], b[1..]) by {
        forall i | 0 <= i < |a| - 1 ensures (IsDigit(a[1..][i]) && IsDigit(b[1..][i])) || a[1..][i] == b[1..][i] {
          assert a[1..][i] == a[i + 1] && b[1..][i] == b[i + 1];
        }
      }
      if a[0] == b[0] {
        DigitsOrder(a[1..], b[1..]);
      } else {
        assert IsDigit(a[0]) && IsDigit(b[0]);
        if a[0] < b[0] {
          LeadingDigit(DigitValue(a[0]), DigitValue(b[0]), p, Digits(a[1..]), Digits(b[1..]));
        } else {
          LeadingDigit(DigitValue(b[0]), DigitValue(a[0]), p, Digits(b[1..]), Digits(a[1..]));
        }
      }
    }
  }

  lemma IsoSameShape(a: string, b: string)
    requires IsoDate(a) && IsoDate(b)
    ensures SameShape(a, b)
  {
  }

  /** Among well-formed days, the rows come newest first in the order the
      range filter compares them. */
  lemma NewestFirstIso(entries: seq<Entry>, i: nat, j: nat)
    requires SortedBy(entries, NewestFirstKey)
    requires i < j < |entries| && IsoDate(entries[i].date) && IsoDate(entries[j].date)
    ensures Le(entries[j].date, entries[i].date)
  {
    assert NewestFirstKey(entries[i]) <= NewestFirstKey(entries[j]);
    IsoSameShape(entries[i].date, entries[j].date);
    DigitsOrder(entries[i].date, entries[j].date);
  }

  /** Rows whose day is not a well-formed date sort after every dated row. */
  lemma UndatedLast(entries: seq<Entry>, i: nat, j: nat)
    requires SortedBy(entries, NewestFirstKey)
    requires i < j < |entries| && IsoDate(entries[j].date)
    ensures IsoDate(entries[i].date)
  {
    assert NewestFirstKey(entries[i]) <= NewestFirstKey(entries[j]);
  }

  // ---------------------------------------------------------------------
  // The date range

  /** The table's row predicate: inclusive bounds, where "" is no bound. */
  function InRange(date: string, from: string, to: string): (r: bool)
    ensures r <==> (from == "" || Le(from, date)) && (to == "" || Le(date, to))
  {
    if from == "" && to == "" then true
    else if from != "" && to != "" then Le(from, date) && Le(date, to)
    else if from != "" then Le(from, date)
    else Le(date, to)
  }

  /** Both bounds are kept. */
  lemma InRangeInclusive(from: string, to: string)
    requires Le(from, to)
    ensures InRange(from, from, to) && InRange(to, from, to)
  {
    LeTotalOrder(from, to, to);
    LeTotalOrder(to, from, from);
  }

  function InRangeOf(from: string, to: string): Entry -> bool {
    (e: Entry) => InRange(e.date, from, to)
  }

  /** The rows the table shows. */
  function RowsInRange(entries: seq<Entry>, from: string, to: string): (r: seq<Entry>)
    ensures forall e :: e in r <==> e in entries && InRange(e.date, from, to)
    ensures from == "" && to == "" ==> r == entries
  {
    UnboundedKeepsAll(entries, from, to);
    Filter(entries, InRangeOf(from, to))
  }

  lemma UnboundedKeepsAll(entries: seq<Entry>, from: string, to: string)
    ensures from == "" && to == "" ==> Filter(entries, InRangeOf(from, to)) == entries
  {
    if from == "" && to == "" {
      FilterKeepsAll(entries, InRangeOf(from, to));
    }
  }

  datatype DateRange = DateRange(from: string, to: string)

  /** Both bounds set implies they are in order. */
  predicate Ordered(r: DateRange) {
    r.from != "" && r.to != "" ==> Le(r.from, r.to)
  }

  /** `handleFromDateChange`: refused when the other bound is set and the
      new start would lie after it. */
  function FromChange(r: DateRange, newFrom: string): (s: DateRange)
    ensures s.to == r.to
    ensures s == r || s.from == newFrom
    ensures s.from == newFrom <==> r.to == "" || Le(newFrom, r.to) || newFrom == r.from
  {
    if r.to != "" && Lt(r.to, newFrom) then r else r.(from := newFrom)
  }

  /** `handleToDateChange`: refused when the other bound is set and the new
      end would lie before it. */
  function ToChange(r: DateRange, newTo: string): (s: DateRange)
    ensures s.from == r.from
    ensures s == r || s.to == newTo
    ensures s.to == newTo <==> r.from == "" || Le(r.from, newTo) || newTo == r.to
  {
    if r.from != "" && Lt(newTo, r.from) then r else r.(to := newTo)
  }

  /** `handleReset`: both bounds cleared. */
  function Reset(r: DateRange): (s: DateRange)
    ensures s.from == "" && s.to == ""
  {
    DateRange("", "")
  }

  /** Every handler keeps the bounds in order. */
  lemma HandlersKeepOrdered(r: DateRange, v: string)
    requires Ordered(r)
    ensures Ordered(FromChange(r, v)) && Ordered(ToChange(r, v)) && Ordered(Reset(r))
  {
  }

  /** After a reset the table shows every row again. */
  lemma ResetShowsAll(entries: seq<Entry>, r: DateRange)
    ensures RowsInRange(entries, Reset(r).from, Reset(r).to) == entries
  {
  }
}
