/** Departures (jadwalController): search, creation with the date-order
    check, partial update and deletion. Timestamps are integers: date
    strings are taken as already parsed. Creation, update and deletion are
    behind the `isPetugas` gate; search is public. */
module Schedules {
  import opened Common
  import opened Store
  import Sorting

  /** The date-order rule: departure strictly before arrival. */
  predicate Ordered(j: Schedule) {
    j.tanggalKeberangkatan < j.tanggalKedatangan
  }

  // ---------------------------------------------------------------------
  // searchJadwal
  // ---------------------------------------------------------------------

  /** The `where` clause: each truthy text parameter must occur in its
      column. */
  predicate MatchesRoute(j: Schedule, asal: Option<string>, tujuan: Option<string>) {
    && (Truthy(asal) ==> Contains(j.asalKeberangkatan, asal.value))
    && (Truthy(tujuan) ==> Contains(j.tujuanKeberangkatan, tujuan.value))
  }

  /** The class filter: the schedule's train exists and has this class. */
  predicate MatchesClass(st: Store, j: Schedule, kelas: string) {
    FindTrain(st, j.keretaId).Some? && FindTrain(st, j.keretaId).value.kelas == kelas
  }

  predicate Matches(st: Store, j: Schedule, asal: Option<string>, tujuan: Option<string>,
                    kelas: Option<string>) {
    MatchesRoute(j, asal, tujuan) && (Truthy(kelas) ==> MatchesClass(st, j, kelas.value))
  }

  function Departure(j: Schedule): int {
    j.tanggalKeberangkatan
  }

  /** `searchJadwal` without the `tanggal` day window: filter by route,
      order by departure, then keep the rows whose filtered train include
      survived. */
  function SearchJadwal(st: Store, asal: Option<string>, tujuan: Option<string>,
                        kelas: Option<string>): (r: seq<Schedule>)
    ensures Sorting.SortedBy(r, Departure)
    ensures multiset(r) == multiset(Filter(st.schedules, (j: Schedule) => Matches(st, j, asal, tujuan, kelas)))
  {
    var route := (j: Schedule) => MatchesRoute(j, asal, tujuan);
    var sorted := Sorting.SortBy(Filter(st.schedules, route), Departure);
    var r := if Truthy(kelas) then Filter(sorted, (j: Schedule) => MatchesClass(st, j, kelas.value)) else sorted;
    SearchFacts(st, asal, tujuan, kelas, sorted, r);
    r
  }

  lemma SearchFacts(st: Store, asal: Option<string>, tujuan: Option<string>, kelas: Option<string>,
                    sorted: seq<Schedule>, r: seq<Schedule>)
    requires sorted == Sorting.SortBy(Filter(st.schedules, (j: Schedule) => MatchesRoute(j, asal, tujuan)), Departure)
    requires r == if Truthy(kelas) then Filter(sorted, (j: Schedule) => MatchesClass(st, j, kelas.value)) else sorted
    ensures Sorting.SortedBy(r, Departure)
    ensures multiset(r) == multiset(Filter(st.schedules, (j: Schedule) => Matches(st, j, asal, tujuan, kelas)))
  {
    var routed := Filter(st.schedules, (j: Schedule) => MatchesRoute(j, asal, tujuan));
    if Truthy(kelas) {
      Sorting.FilterKeepsSorted(sorted, (j: Schedule) => MatchesClass(st, j, kelas.value), Departure);
      SearchMultiset(st, asal, tujuan, kelas, routed, sorted, r);
    } else {
      SearchWithoutClass(st, asal, tujuan, kelas);
    }
  }

  lemma SearchMultiset(st: Store, asal: Option<string>, tujuan: Option<string>, kelas: Option<string>,
                       routed: seq<Schedule>, sorted: seq<Schedule>, r: seq<Schedule>)
    requires Truthy(kelas)
    requires routed == Filter(st.schedules, (j: Schedule) => MatchesRoute(j, asal, tujuan))
    requires multiset(sorted) == multiset(routed)
    requires r == Filter(sorted, (j: Schedule) => MatchesClass(st, j, kelas.value))
    ensures multiset(r) == multiset(Filter(st.schedules, (j: Schedule) => Matches(st, j, asal, tujuan, kelas)))
  {
    var cls := (j: Schedule) => MatchesClass(st, j, kelas.value);
    var all := (j: Schedule) => Matches(st, j, asal, tujuan, kelas);
    FilterPermutation(sorted, routed, cls);
    forall x ensures multiset(Filter(routed, cls))[x] == multiset(Filter(st.schedules, all))[x] {
      FilterCount(routed, cls, x);
      FilterCount(st.schedules, (j: Schedule) => MatchesRoute(j, asal, tujuan), x);
      FilterCount(st.schedules, all, x);
    }
    assert multiset(Filter(routed, cls)) == multiset(Filter(st.schedules, all));
  }

  lemma SearchWithoutClass(st: Store, asal: Option<string>, tujuan: Option<string>, kelas: Option<string>)
    requires !Truthy(kelas)
    ensures Filter(st.schedules, (j: Schedule) => MatchesRoute(j, asal, tujuan)) ==
            Filter(st.schedules, (j: Schedule) => Matches(st, j, asal, tujuan, kelas))
  {
    FilterSame(st.schedules, (j: Schedule) => MatchesRoute(j, asal, tujuan),
               (j: Schedule) => Matches(st, j, asal, tujuan, kelas));
  }

  lemma {:induction false} FilterSame<T>(s: seq<T>, p: T -> bool, q: T -> bool)
    requires forall x | x in s :: p(x) == q(x)
    ensures Filter(s, p) == Filter(s, q)
  {
    if s != [] {
      assert s[0] in s;
      assert forall x | x in s[1..] :: x in s;
      FilterSame(s[1..], p, q);
    }
  }

  /** A schedule is listed exactly when it is stored and matches every
      supplied parameter. */
  lemma SearchMembers(st: Store, asal: Option<string>, tujuan: Option<string>,
                      kelas: Option<string>, j: Schedule)
    ensures j in SearchJadwal(st, asal, tujuan, kelas) <==>
            j in st.schedules && Matches(st, j, asal, tujuan, kelas)
  {
    var r := SearchJadwal(st, asal, tujuan, kelas);
    var f := Filter(st.schedules, (j: Schedule) => Matches(st, j, asal, tujuan, kelas));
    assert j in r <==> j in multiset(r);
    assert j in f <==> j in multiset(f);
  }

  /** With no parameters the search lists every schedule. */
  lemma SearchWithoutFiltersListsAll(st: Store)
    ensures multiset(SearchJadwal(st, None, None, None)) == multiset(st.schedules)
  {
    FilterAll(st.schedules, (j: Schedule) => Matches(st, j, None, None, None));
  }

  // ---------------------------------------------------------------------
  // createJadwal, updateJadwal, deleteJadwal
  // ---------------------------------------------------------------------

  /** The 400 answer to a departure not before the arrival. */
  const DatesMessage := "Tanggal kedatangan harus setelah tanggal keberangkatan"

  /** `createJadwal`: the train must exist, then departure must precede
      arrival. */
  function CreateJadwal(st: Store, asal: string, tujuan: string, berangkat: int, datang: int,
                        harga: int, keretaId: Id): (r: Outcome<Committed<Schedule>>)
    ensures FindTrain(st, keretaId).None? <==> r == Err(404, "Kereta tidak ditemukan")
    ensures r == Err(400, DatesMessage) <==>
      FindTrain(st, keretaId).Some? && berangkat >= datang
    ensures r.Ok? <==> FindTrain(st, keretaId).Some? && berangkat < datang
    ensures r.Ok? ==>
      var j := r.value.reply;
      && Ordered(j)
      && j == Schedule(st.nextId, asal, tujuan, berangkat, datang, harga, keretaId)
      && r.value.store.schedules == st.schedules + [j]
      && r.value.store.(schedules := st.schedules, nextId := st.nextId) == st
      && r.value.store.nextId > st.nextId
  {
    if FindTrain(st, keretaId).None? then Err(404, "Kereta tidak ditemukan")
    else if berangkat >= datang then Err(400, DatesMessage)
    else
      var j := Schedule(st.nextId, asal, tujuan, berangkat, datang, harga, keretaId);
      Ok(Committed(st.(schedules := st.schedules + [j], nextId := st.nextId + 1), j))
  }

  /** The body of an `updateJadwal` request. `Some` marks a text or date
      field sent truthy (dates already parsed), `harga` sent at all (so 0
      counts), and a truthy `keretaId`. */
  datatype ScheduleChange = ScheduleChange(asal: Option<string>, tujuan: Option<string>,
                                           berangkat: Option<int>, datang: Option<int>,
                                           harga: Option<int>, keretaId: Option<Id>)

  /** Both dates sent, and the arrival not after the departure. */
  predicate DatesInverted(c: ScheduleChange) {
    c.berangkat.Some? && c.datang.Some? && c.berangkat.value >= c.datang.value
  }

  /** The row an update writes: every supplied field replaced, the rest kept. */
  function Apply(j: Schedule, c: ScheduleChange): (r: Schedule)
    ensures r.id == j.id
  {
    j.(asalKeberangkatan := PickTruthy(c.asal, j.asalKeberangkatan),
       tujuanKeberangkatan := PickTruthy(c.tujuan, j.tujuanKeberangkatan),
       tanggalKeberangkatan := PickGiven(c.berangkat, j.tanggalKeberangkatan),
       tanggalKedatangan := PickGiven(c.datang, j.tanggalKedatangan),
       harga := PickGiven(c.harga, j.harga),
       keretaId := PickGiven(c.keretaId, j.keretaId))
  }

  /** `updateJadwal`: existence checks, the date-order check only when both
      dates are supplied, then a partial update of that one row. */
  function UpdateJadwal(st: Store, id: Id, c: ScheduleChange): (r: Outcome<Committed<Schedule>>)
    ensures FindSchedule(st, id).None? <==> r == Err(404, "Jadwal tidak ditemukan")
    ensures r == Err(404, "Kereta tidak ditemukan") <==>
      FindSchedule(st, id).Some? && c.keretaId.Some? && FindTrain(st, c.keretaId.value).None?
    ensures r == Err(400, DatesMessage) <==>
      && FindSchedule(st, id).Some? && (c.keretaId.None? || FindTrain(st, c.keretaId.value).Some?)
      && DatesInverted(c)
    ensures r.Ok? <==>
      && FindSchedule(st, id).Some? && (c.keretaId.None? || FindTrain(st, c.keretaId.value).Some?)
      && !DatesInverted(c)
    ensures r.Ok? ==>
      var prev := FindSchedule(st, id).value;
      var j := r.value.reply;
      && j.id == id
      && (Truthy(c.asal) ==> j.asalKeberangkatan == c.asal.value)
      && (!Truthy(c.asal) ==> j.asalKeberangkatan == prev.asalKeberangkatan)
      && (Truthy(c.tujuan) ==> j.tujuanKeberangkatan == c.tujuan.value)
      && (!Truthy(c.tujuan) ==> j.tujuanKeberangkatan == prev.tujuanKeberangkatan)
      && j.tanggalKeberangkatan == (if c.berangkat.Some? then c.berangkat.value else prev.tanggalKeberangkatan)
      && j.tanggalKedatangan == (if c.datang.Some? then c.datang.value else prev.tanggalKedatangan)
      && j.harga == (if c.harga.Some? then c.harga.value else prev.harga)
      && j.keretaId == (if c.keretaId.Some? then c.keretaId.value else prev.keretaId)
      && j in r.value.store.schedules
      && |r.value.store.schedules| == |st.schedules|
      && (forall k | 0 <= k < |st.schedules| && st.schedules[k].id != id ::
            r.value.store.schedules[k] == st.schedules[k])
      && r.value.store.(schedules := st.schedules) == st
  {
    match IndexOf(st.schedules, (j: Schedule) => j.id == id) {
      case None => Err(404, "Jadwal tidak ditemukan")
      case Some(i) =>
        if c.keretaId.Some? && FindTrain(st, c.keretaId.value).None? then
          Err(404, "Kereta tidak ditemukan")
        else if DatesInverted(c) then
          Err(400, DatesMessage)
        else
          var j := Apply(st.schedules[i], c);
          assert st.schedules[i := j][i] == j;
          Ok(Committed(st.(schedules := st.schedules[i := j]), j))
    }
  }

  /** When both dates are sent, an accepted update leaves them ordered. */
  lemma UpdateWithBothDatesIsOrdered(st: Store, id: Id, c: ScheduleChange)
    requires c.berangkat.Some? && c.datang.Some?
    requires UpdateJadwal(st, id, c).Ok?
    ensures Ordered(UpdateJadwal(st, id, c).value.reply)
  {
  }

  /** The schedule `UpdateWithOneDateCanInvert` edits. */
  function OneScheduleStore(): Store {
    Store([], [], [], [Train(1, "Argo", "", "eksekutif")], [], [],
          [Schedule(2, "Bandung", "Jakarta", 100, 200, 50000, 1)], [], [], 3)
  }

  /** With one date only, nothing is compared: moving the departure past
      the stored arrival is accepted and yields an unordered schedule. */
  lemma UpdateWithOneDateCanInvert()
    ensures var st := OneScheduleStore();
      var c := ScheduleChange(None, None, Some(300), None, None, None);
      && Ordered(st.schedules[0])
      && UpdateJadwal(st, 2, c).Ok?
      && !Ordered(UpdateJadwal(st, 2, c).value.reply)
  {
    var st := OneScheduleStore();
    assert IndexOf(st.schedules, (j: Schedule) => j.id == 2) == Some(0);
  }

  /** `deleteJadwal`: only the existence check; the row is removed. */
  function DeleteJadwal(st: Store, id: Id): (r: Outcome<Committed<()>>)
    ensures FindSchedule(st, id).None? <==> r == Err(404, "Jadwal tidak ditemukan")
    ensures r.Ok? <==> FindSchedule(st, id).Some?
    ensures r.Ok? ==>
      && multiset(r.value.store.schedules) == multiset(st.schedules) - multiset{FindSchedule(st, id).value}
      && r.value.store.(schedules := st.schedules) == st
  {
    match IndexOf(st.schedules, (j: Schedule) => j.id == id) {
      case None => Err(404, "Jadwal tidak ditemukan")
      case Some(i) =>
        RemoveOne(st.schedules, i);
        Ok(Committed(st.(schedules := RemoveAt(st.schedules, i)), ()))
    }
  }
}
