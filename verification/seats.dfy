/** Seat inventory: the free-seat walk ticket purchase uses
    (tiketController `createTicket`), and the seat queries of kursiController
    (`getAllKursi`, `getKursiById`, `getAvailableKursi`). The two compute
    availability differently; `ViewsAgreeOnSingleDetail` and
    `ViewsDisagreeOnSecondDetail` say exactly where they part. */
module Seats {
  import opened Common
  import opened Store
  import Sorting

  // ---------------------------------------------------------------------
  // The purchase-side walk: wagons of the train, then their seats, minus
  // the seats already bound under this schedule.
  // ---------------------------------------------------------------------

  /** `jadwal.kereta.gerbong`: the train's wagons, in table order. */
  function WagonsOf(ws: seq<Wagon>, keretaId: Id): seq<Wagon> {
    Filter(ws, (w: Wagon) => w.keretaId == keretaId)
  }

  /** `gerbong.kursi`: the wagon's seats, in table order. */
  function SeatsOf(ss: seq<Seat>, gerbongId: Id): seq<Seat> {
    Filter(ss, (s: Seat) => s.gerbongId == gerbongId)
  }

  /** The nested loop over wagons and then their seats, with no sorting. */
  function SeatWalk(ws: seq<Wagon>, ss: seq<Seat>): seq<Seat> {
    if ws == [] then [] else SeatsOf(ss, ws[0].id) + SeatWalk(ws[1..], ss)
  }

  /** `bookedSeatIds`: seat ids of details whose booking is for schedule `j`. */
  function BookedSeatIds(st: Store, j: Id): set<Id> {
    set d | d in st.details && ScheduleOf(st, d) == Some(j) :: d.kursiId
  }

  /** The seats whose id is not in `booked`, in their original order. */
  function Unbooked(ss: seq<Seat>, booked: set<Id>): (r: seq<Seat>)
    ensures forall s | s in r :: s in ss && s.id !in booked
    ensures forall s | s in ss && s.id !in booked :: s in r
    ensures |r| <= |ss|
  {
    if ss == [] then []
    else (if ss[0].id in booked then [] else [ss[0]]) + Unbooked(ss[1..], booked)
  }

  /** `availableSeats` of `createTicket` for schedule `jad`. */
  function FreeSeats(st: Store, jad: Schedule): seq<Seat> {
    Unbooked(SeatWalk(WagonsOf(st.wagons, jad.keretaId), st.seats), BookedSeatIds(st, jad.id))
  }

  /** A seat belongs to train `k` when some wagon of that train holds it. */
  predicate OnTrain(ws: seq<Wagon>, s: Seat, k: Id) {
    exists w | w in ws :: w.keretaId == k && w.id == s.gerbongId
  }

  /** Whether some booking detail for schedule `j` binds seat `seatId`. */
  predicate BookedUnder(st: Store, seatId: Id, j: Id) {
    exists d | d in st.details :: d.kursiId == seatId && ScheduleOf(st, d) == Some(j)
  }

  lemma {:induction false} SeatWalkMembers(ws: seq<Wagon>, ss: seq<Seat>, s: Seat)
    ensures s in SeatWalk(ws, ss) <==> s in ss && exists w | w in ws :: w.id == s.gerbongId
  {
    if ws != [] {
      SeatWalkMembers(ws[1..], ss, s);
      assert ws == [ws[0]] + ws[1..];
    }
  }

  /** The free seats are exactly the train's seats that no detail of this
      schedule binds. */
  lemma FreeSeatsMembers(st: Store, jad: Schedule, s: Seat)
    ensures s in FreeSeats(st, jad) <==>
      s in st.seats && OnTrain(st.wagons, s, jad.keretaId) && !BookedUnder(st, s.id, jad.id)
  {
    var ws := WagonsOf(st.wagons, jad.keretaId);
    SeatWalkMembers(ws, st.seats, s);
    if OnTrain(st.wagons, s, jad.keretaId) {
      var w :| w in st.wagons && w.keretaId == jad.keretaId && w.id == s.gerbongId;
      assert w in ws;
    }
  }

  /** The walk visits wagons in the order given: a seat of an earlier wagon
      never follows a seat of a later one. `rank` is the wagon's position
      in the train's wagon list. */
  lemma {:induction false} SeatWalkFollowsWagonOrder(ws: seq<Wagon>, ss: seq<Seat>, i: int, j: int)
    requires UniqueWagonIds(ws)
    requires 0 <= i < j < |SeatWalk(ws, ss)|
    ensures WagonRank(ws, SeatWalk(ws, ss)[i].gerbongId) <= WagonRank(ws, SeatWalk(ws, ss)[j].gerbongId)
  {
    var head := SeatsOf(ss, ws[0].id);
    var walk := SeatWalk(ws, ss);
    var rest := SeatWalk(ws[1..], ss);
    assert walk == head + rest;
    assert UniqueWagonIds(ws[1..]);
    if i < |head| {
      assert walk[i] in head;
      assert WagonRank(ws, walk[i].gerbongId) == 0;
    } else {
      assert walk[i] == rest[i - |head|] && walk[j] == rest[j - |head|];
      SeatWalkFollowsWagonOrder(ws[1..], ss, i - |head|, j - |head|);
      RankInTail(ws, ss, rest[i - |head|]);
      RankInTail(ws, ss, rest[j - |head|]);
    }
  }

  /** Position of the first wagon with id `g`, or `|ws|` when there is none. */
  function WagonRank(ws: seq<Wagon>, g: Id): nat {
    match IndexOf(ws, (w: Wagon) => w.id == g) {
      case None => |ws|
      case Some(i) => i
    }
  }

  lemma RankInTail(ws: seq<Wagon>, ss: seq<Seat>, s: Seat)
    requires ws != [] && UniqueWagonIds(ws)
    requires s in SeatWalk(ws[1..], ss)
    ensures WagonRank(ws, s.gerbongId) == 1 + WagonRank(ws[1..], s.gerbongId)
  {
    SeatWalkMembers(ws[1..], ss, s);
    var w :| w in ws[1..] && w.id == s.gerbongId;
    var k :| 0 <= k < |ws[1..]| && ws[1..][k] == w;
    assert ws[k + 1] == w;
    assert ws[0].id != s.gerbongId;
  }

  // ---------------------------------------------------------------------
  // Key uniqueness survives the walk, so the free list never offers one
  // seat twice.
  // ---------------------------------------------------------------------

  lemma UniqueSeatIdsConcat(a: seq<Seat>, b: seq<Seat>)
    requires UniqueSeatIds(a) && UniqueSeatIds(b)
    requires forall x, y | x in a && y in b :: x.id != y.id
    ensures UniqueSeatIds(a + b)
  {
    var c := a + b;
    forall i, j | 0 <= i < j < |c|
      ensures c[i].id != c[j].id
    {
      if j < |a| {
        assert c[i] == a[i] && c[j] == a[j];
      } else if i >= |a| {
        assert c[i] == b[i - |a|] && c[j] == b[j - |a|];
      } else {
        assert c[i] == a[i] && c[j] == b[j - |a|];
      }
    }
  }

  lemma {:induction false} FilterKeepsUniqueSeatIds(ss: seq<Seat>, p: Seat -> bool)
    requires UniqueSeatIds(ss)
    ensures UniqueSeatIds(Filter(ss, p))
  {
    if ss != [] {
      assert UniqueSeatIds(ss[1..]);
      FilterKeepsUniqueSeatIds(ss[1..], p);
      forall y | y in Filter(ss[1..], p)
        ensures ss[0].id != y.id
      {
        var k :| 0 <= k < |ss[1..]| && ss[1..][k] == y;
        assert ss[k + 1] == y;
      }
      UniqueSeatIdsConcat(if p(ss[0]) then [ss[0]] else [], Filter(ss[1..], p));
    }
  }

  lemma {:induction false} UnbookedKeepsUniqueSeatIds(ss: seq<Seat>, booked: set<Id>)
    requires UniqueSeatIds(ss)
    ensures UniqueSeatIds(Unbooked(ss, booked))
  {
    if ss != [] {
      assert UniqueSeatIds(ss[1..]);
      UnbookedKeepsUniqueSeatIds(ss[1..], booked);
      forall y | y in Unbooked(ss[1..], booked)
        ensures ss[0].id != y.id
      {
        var k :| 0 <= k < |ss[1..]| && ss[1..][k] == y;
        assert ss[k + 1] == y;
      }
      UniqueSeatIdsConcat(if ss[0].id in booked then [] else [ss[0]], Unbooked(ss[1..], booked));
    }
  }

  lemma {:induction false} FilterKeepsUniqueWagonIds(ws: seq<Wagon>, p: Wagon -> bool)
    requires UniqueWagonIds(ws)
    ensures UniqueWagonIds(Filter(ws, p))
  {
    if ws != [] {
      assert UniqueWagonIds(ws[1..]);
      FilterKeepsUniqueWagonIds(ws[1..], p);
      var h := if p(ws[0]) then [ws[0]] else [];
      var t := Filter(ws[1..], p);
      forall y | y in t
        ensures ws[0].id != y.id
      {
        var k :| 0 <= k < |ws[1..]| && ws[1..][k] == y;
        assert ws[k + 1] == y;
      }
      var c := h + t;
      forall i, j | 0 <= i < j < |c|
        ensures c[i].id != c[j].id
      {
        if i >= |h| {
          assert c[i] == t[i - |h|] && c[j] == t[j - |h|];
        } else {
          assert c[i] == ws[0] && c[j] == t[j - |h|];
        }
      }
    }
  }

  lemma {:induction false} SeatWalkUnique(ws: seq<Wagon>, ss: seq<Seat>)
    requires UniqueWagonIds(ws) && UniqueSeatIds(ss)
    ensures UniqueSeatIds(SeatWalk(ws, ss))
  {
    if ws != [] {
      var head := SeatsOf(ss, ws[0].id);
      var rest := SeatWalk(ws[1..], ss);
      assert UniqueWagonIds(ws[1..]);
      SeatWalkUnique(ws[1..], ss);
      FilterKeepsUniqueSeatIds(ss, (s: Seat) => s.gerbongId == ws[0].id);
      forall x, y | x in head && y in rest
        ensures x.id != y.id
      {
        SeatWalkMembers(ws[1..], ss, y);
        var w :| w in ws[1..] && w.id == y.gerbongId;
        var k :| 0 <= k < |ws[1..]| && ws[1..][k] == w;
        assert ws[k + 1] == w;
        assert ws[0].id != ws[k + 1].id;
        SeatKeyDeterminesRow(ss, x, y);
      }
      UniqueSeatIdsConcat(head, rest);
    }
  }

  /** The free list offers every seat at most once. */
  lemma FreeSeatsUnique(st: Store, jad: Schedule)
    requires Valid(st)
    ensures UniqueSeatIds(FreeSeats(st, jad))
  {
    FilterKeepsUniqueWagonIds(st.wagons, (w: Wagon) => w.keretaId == jad.keretaId);
    SeatWalkUnique(WagonsOf(st.wagons, jad.keretaId), st.seats);
    UnbookedKeepsUniqueSeatIds(SeatWalk(WagonsOf(st.wagons, jad.keretaId), st.seats), BookedSeatIds(st, jad.id));
  }

  /** Excluding two id sets is excluding one, then the other. */
  lemma {:induction false} UnbookedUnion(ss: seq<Seat>, a: set<Id>, b: set<Id>)
    ensures Unbooked(ss, a + b) == Unbooked(Unbooked(ss, a), b)
  {
    if ss != [] {
      UnbookedUnion(ss[1..], a, b);
      var u := Unbooked(ss, a);
      var tail := Unbooked(ss[1..], a);
      if ss[0].id in a {
        assert u == tail;
      } else {
        assert u == [ss[0]] + tail;
        assert u[0] == ss[0] && u[1..] == tail;
      }
    }
  }

  /** Excluding exactly the ids of the first `k` seats drops those seats. */
  lemma {:induction false} UnbookedPrefix(ss: seq<Seat>, booked: set<Id>, k: nat)
    requires k <= |ss|
    requires forall i :: 0 <= i < k ==> ss[i].id in booked
    requires forall i :: k <= i < |ss| ==> ss[i].id !in booked
    ensures Unbooked(ss, booked) == ss[k..]
  {
    if ss != [] {
      if k == 0 {
        UnbookedPrefix(ss[1..], booked, 0);
      } else {
        UnbookedPrefix(ss[1..], booked, k - 1);
      }
    }
  }

  // ---------------------------------------------------------------------
  // kursiController: each seat carries its booking detail as one optional
  // record, and status is derived from that record.
  // ---------------------------------------------------------------------

  datatype SeatStatus = Tersedia | Terpesan

  datatype TaggedSeat = TaggedSeat(seat: Seat, status: SeatStatus)

  /** `kursi.detailPembelianTiket` read as a single optional record: the
      first detail row bound to the seat. */
  function SeatDetail(st: Store, seatId: Id): Option<Detail> {
    Find(st.details, (d: Detail) => d.kursiId == seatId)
  }

  /** `detailPembelianTiket ? "terpesan" : "tersedia"`. */
  function StatusOf(st: Store, s: Seat): SeatStatus {
    if SeatDetail(st, s.id).Some? then Terpesan else Tersedia
  }

  function Tag(st: Store, ss: seq<Seat>): (r: seq<TaggedSeat>)
    ensures |r| == |ss|
    ensures forall i :: 0 <= i < |r| ==> r[i].seat == ss[i]
    ensures forall i :: 0 <= i < |r| ==>
      (r[i].status == Terpesan <==> exists d | d in st.details :: d.kursiId == ss[i].id)
  {
    seq(|ss|, i requires 0 <= i < |ss| => TaggedSeat(ss[i], StatusOf(st, ss[i])))
  }

  function Untag(ts: seq<TaggedSeat>): (r: seq<Seat>)
    ensures |r| == |ts|
    ensures forall i :: 0 <= i < |r| ==> r[i] == ts[i].seat
  {
    seq(|ts|, i requires 0 <= i < |ts| => ts[i].seat)
  }

  function NoKursi(s: Seat): int {
    s.noKursi
  }

  /** `getAllKursi`: every seat, or only the given wagon's seats when a
      `gerbongId` is supplied, ascending by seat number, each tagged
      "terpesan" exactly when some booking detail binds it. */
  function GetAllKursi(st: Store, gerbongId: Option<Id>): (r: seq<TaggedSeat>)
    ensures Sorting.SortedBy(Untag(r), NoKursi)
    ensures gerbongId.None? ==> multiset(Untag(r)) == multiset(st.seats)
    ensures gerbongId.Some? ==> multiset(Untag(r)) == multiset(SeatsOf(st.seats, gerbongId.value))
    ensures forall i :: 0 <= i < |r| ==>
      (r[i].status == Terpesan <==> exists d | d in st.details :: d.kursiId == r[i].seat.id)
  {
    var selected := if gerbongId.Some? then SeatsOf(st.seats, gerbongId.value) else st.seats;
    var sorted := Sorting.SortBy(selected, NoKursi);
    var r := Tag(st, sorted);
    assert Untag(r) == sorted;
    r
  }

  /** `getKursiById`. */
  function GetKursiById(st: Store, id: Id): (r: Outcome<TaggedSeat>)
    ensures r.Err? <==> forall s | s in st.seats :: s.id != id
    ensures r.Err? ==> r == Err(404, "Kursi tidak ditemukan")
    ensures r.Ok? ==> r.value.seat in st.seats && r.value.seat.id == id
    ensures r.Ok? ==>
      (r.value.status == Terpesan <==> exists d | d in st.details :: d.kursiId == id)
  {
    match FindSeat(st, id) {
      case None => Err(404, "Kursi tidak ditemukan")
      case Some(s) => Ok(TaggedSeat(s, StatusOf(st, s)))
    }
  }

  /** The `gerbong: { keretaId }` relation filter: the seat's own wagon
      row exists and belongs to train `k`. */
  predicate WagonOnTrain(st: Store, s: Seat, k: Id) {
    var w := FindWagon(st, s.gerbongId);
    w.Some? && w.value.keretaId == k
  }

  /** The availability filter of `getAvailableKursi`: a seat stays when it
      has no detail, or when its detail's booking, included only if it is
      for schedule `j`, comes back as null. */
  predicate KeptFor(st: Store, s: Seat, j: Id) {
    var d := SeatDetail(st, s.id);
    d.None? || ScheduleOf(st, d.value) != Some(j)
  }

  function AvailableView(st: Store, jad: Schedule): (r: seq<Seat>)
    ensures forall s | s in r :: s in st.seats && WagonOnTrain(st, s, jad.keretaId) && KeptFor(st, s, jad.id)
    ensures forall s | s in st.seats && WagonOnTrain(st, s, jad.keretaId) && KeptFor(st, s, jad.id) :: s in r
  {
    var candidates := Filter(st.seats, (s: Seat) => WagonOnTrain(st, s, jad.keretaId));
    Filter(candidates, (s: Seat) => KeptFor(st, s, jad.id))
  }

  /** Every seat of `ss`, tagged "tersedia". */
  function MarkTersedia(ss: seq<Seat>): (r: seq<TaggedSeat>)
    ensures forall t | t in r :: t.status == Tersedia && t.seat in ss
    ensures forall s | s in ss :: TaggedSeat(s, Tersedia) in r
  {
    if ss == [] then []
    else [TaggedSeat(ss[0], Tersedia)] + MarkTersedia(ss[1..])
  }

  /** `getAvailableKursi`. */
  function GetAvailableKursi(st: Store, jadwalId: Id): (r: Outcome<seq<TaggedSeat>>)
    ensures r.Err? <==> FindSchedule(st, jadwalId).None?
    ensures r.Err? ==> r == Err(404, "Jadwal tidak ditemukan")
    ensures r.Ok? ==> forall t | t in r.value :: t.status == Tersedia
    ensures r.Ok? ==> forall t | t in r.value ::
      t.seat in st.seats && WagonOnTrain(st, t.seat, FindSchedule(st, jadwalId).value.keretaId) &&
      KeptFor(st, t.seat, jadwalId)
    ensures r.Ok? ==> forall s | s in st.seats &&
      WagonOnTrain(st, s, FindSchedule(st, jadwalId).value.keretaId) && KeptFor(st, s, jadwalId) ::
      TaggedSeat(s, Tersedia) in r.value
  {
    match FindSchedule(st, jadwalId) {
      case None => Err(404, "Jadwal tidak ditemukan")
      case Some(jad) =>
        assert jad.id == jadwalId;
        var r := MarkTersedia(AvailableView(st, jad));
        Ok(r)
    }
  }

  // ---------------------------------------------------------------------
  // Where the two availability computations agree, and where they do not.
  // ---------------------------------------------------------------------

  predicate AtMostOneDetail(st: Store, seatId: Id) {
    forall i, j :: 0 <= i < j < |st.details| ==>
      !(st.details[i].kursiId == seatId && st.details[j].kursiId == seatId)
  }

  /** With wagon ids unique, the seat query's wagon lookup and the
      purchase walk's wagon filter name the same seats. */
  lemma WagonOnTrainIsOnTrain(st: Store, s: Seat, k: Id)
    requires Valid(st)
    ensures WagonOnTrain(st, s, k) <==> OnTrain(st.wagons, s, k)
  {
    var fw := FindWagon(st, s.gerbongId);
    if OnTrain(st.wagons, s, k) {
      var w :| w in st.wagons && w.keretaId == k && w.id == s.gerbongId;
      var a :| 0 <= a < |st.wagons| && st.wagons[a] == w;
      var b :| 0 <= b < |st.wagons| && st.wagons[b] == fw.value;
      assert a == b;
    }
    if fw.Some? {
      assert OnTrain(st.wagons, s, fw.value.keretaId);
    }
  }

  /** A seat with at most one detail is kept by the seat query exactly
      when it is not booked under the schedule. */
  lemma KeptForIsUnbooked(st: Store, s: Seat, j: Id)
    requires AtMostOneDetail(st, s.id)
    ensures KeptFor(st, s, j) <==> !BookedUnder(st, s.id, j)
  {
    var sd := SeatDetail(st, s.id);
    if BookedUnder(st, s.id, j) {
      var d :| d in st.details && d.kursiId == s.id && ScheduleOf(st, d) == Some(j);
      var m :| 0 <= m < |st.details| && st.details[m] == d;
      var f :| 0 <= f < |st.details| && st.details[f] == sd.value;
      assert f == m;
    }
  }

  /** For a seat bound by at most one detail, the seat query and the
      purchase walk agree on whether it is free under a schedule. */
  lemma ViewsAgreeOnSingleDetail(st: Store, jad: Schedule, s: Seat)
    requires Valid(st)
    requires s in st.seats && AtMostOneDetail(st, s.id)
    ensures s in AvailableView(st, jad) <==> s in FreeSeats(st, jad)
  {
    FreeSeatsMembers(st, jad, s);
    WagonOnTrainIsOnTrain(st, s, jad.keretaId);
    KeptForIsUnbooked(st, s, jad.id);
  }

  /** One seat (3) of train 1, bound by two details: the first for
      schedule 4, the second for schedule 5. */
  function TwoDetailStore(): Store {
    Store(
      [], [], [],
      [Train(1, "Argo", "", "eksekutif")],
      [Wagon(2, "G1", 1, 1)],
      [Seat(3, 1, 2)],
      [Schedule(4, "A", "B", 10, 20, 100, 1), Schedule(5, "A", "B", 30, 40, 100, 1)],
      [Booking(6, 0, 4, 0), Booking(7, 0, 5, 0)],
      [Detail(8, "n1", "p1", 6, 3), Detail(9, "n2", "p2", 7, 3)],
      10)
  }

  /** The two-detail store is a valid one in which seat 3 has two details. */
  lemma TwoDetailStoreValid()
    ensures Valid(TwoDetailStore()) && !AtMostOneDetail(TwoDetailStore(), 3)
  {
    var st := TwoDetailStore();
    assert st.details[0].kursiId == 3 && st.details[1].kursiId == 3;
  }

  /** The seat query keeps seat 3 for schedule 5: its first detail is
      schedule 4's. */
  lemma SecondScheduleKeepsSeat()
    ensures Seat(3, 1, 2) in AvailableView(TwoDetailStore(), Schedule(5, "A", "B", 30, 40, 100, 1))
  {
    var st := TwoDetailStore();
    var s := Seat(3, 1, 2);
    assert IndexOf(st.wagons, (w: Wagon) => w.id == 2) == Some(0);
    assert WagonOnTrain(st, s, 1);
    assert IndexOf(st.details, (d: Detail) => d.kursiId == 3) == Some(0);
    assert IndexOf(st.bookings, (b: Booking) => b.id == 6) == Some(0);
    assert ScheduleOf(st, st.details[0]) == Some(4);
    assert KeptFor(st, s, 5);
  }

  /** The purchase walk takes seat 3 as booked under schedule 5: its second
      detail is schedule 5's. */
  lemma SecondScheduleTakesSeat()
    ensures Seat(3, 1, 2) !in FreeSeats(TwoDetailStore(), Schedule(5, "A", "B", 30, 40, 100, 1))
  {
    var st := TwoDetailStore();
    assert IndexOf(st.bookings, (b: Booking) => b.id == 7) == Some(1);
    assert ScheduleOf(st, st.details[1]) == Some(5);
    assert BookedUnder(st, 3, 5);
    FreeSeatsMembers(st, Schedule(5, "A", "B", 30, 40, 100, 1), Seat(3, 1, 2));
  }

  /** With a second detail the views part: the seat query still offers
      seat 3 under schedule 5, because the seat's first detail belongs to
      schedule 4, while the purchase walk treats the seat as taken. */
  lemma ViewsDisagreeOnSecondDetail()
    ensures Valid(TwoDetailStore()) && !AtMostOneDetail(TwoDetailStore(), 3)
    ensures Seat(3, 1, 2) in AvailableView(TwoDetailStore(), Schedule(5, "A", "B", 30, 40, 100, 1))
    ensures Seat(3, 1, 2) !in FreeSeats(TwoDetailStore(), Schedule(5, "A", "B", 30, 40, 100, 1))
  {
    TwoDetailStoreValid();
    SecondScheduleKeepsSeat();
    SecondScheduleTakesSeat();
  }

  /** Booking the first `k` seats of a duplicate-free list leaves its tail. */
  lemma UniquePrefixTaken(free: seq<Seat>, k: nat)
    requires UniqueSeatIds(free) && k <= |free|
    ensures Unbooked(free, set i | 0 <= i < k :: free[i].id) == free[k..]
  {
    var taken := set i | 0 <= i < k :: free[i].id;
    assert forall i | k <= i < |free| :: free[i].id !in taken;
    UnbookedPrefix(free, taken, k);
  }
}
