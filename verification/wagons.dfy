/** Wagon administration (gerbongController): creating a wagon together
    with its seats, renaming or moving it, and deleting it while none of its
    seats is booked. Every handler here is behind the `isPetugas` gate. */
module Wagons {
  import opened Common
  import opened Store
  import opened Seats

  /** The request's `kuota` as JavaScript sees it: an integral number, or
      anything else (a fraction, a string, a missing field) for which
      `Number.isInteger` is false. */
  datatype Quota = Whole(n: int) | NotWhole

  /** A wagon with its seats, as the handlers answer it. */
  datatype WagonView = WagonView(wagon: Wagon, seats: seq<Seat>)

  /** `kuota` seat rows numbered 1..kuota, with consecutive fresh ids from
      `firstId`, all in wagon `g`. */
  function NewSeats(g: Id, firstId: Id, kuota: nat): (r: seq<Seat>)
    ensures |r| == kuota
    ensures forall i | 0 <= i < kuota :: r[i] == Seat(firstId + i, i + 1, g)
  {
    seq(kuota, i requires 0 <= i < kuota => Seat(firstId + i, i + 1, g))
  }

  /** Seat numbers of a freshly created wagon are pairwise distinct and
      cover exactly 1..kuota. */
  lemma NewSeatNumbers(g: Id, firstId: Id, kuota: nat)
    ensures forall i, j | 0 <= i < j < kuota :: NewSeats(g, firstId, kuota)[i].noKursi != NewSeats(g, firstId, kuota)[j].noKursi
    ensures forall s | s in NewSeats(g, firstId, kuota) :: 1 <= s.noKursi <= kuota
    ensures forall k | 1 <= k <= kuota :: Numbered(NewSeats(g, firstId, kuota), k)
  {
    var r := NewSeats(g, firstId, kuota);
    forall k | 1 <= k <= kuota
      ensures Numbered(r, k)
    {
      assert r[k - 1] in r;
    }
  }

  /** Some seat of `ss` carries number `k`. */
  predicate Numbered(ss: seq<Seat>, k: int) {
    exists s | s in ss :: s.noKursi == k
  }

  /** The 400 answer to a seat quota that is not a positive integer. */
  const QuotaMessage := "Kuota harus berupa angka bulat positif"

  /** `createGerbong`: the train must exist, then `kuota` must be a positive
      integer; the wagon and its seats are written in one transaction. */
  function CreateGerbong(st: Store, namaGerbong: string, kuota: Quota, keretaId: Id)
    : (r: Outcome<Committed<WagonView>>)
    ensures FindTrain(st, keretaId).None? <==> r == Err(404, "Kereta tidak ditemukan")
    ensures r == Err(400, QuotaMessage) <==>
      FindTrain(st, keretaId).Some? && (kuota.NotWhole? || kuota.n <= 0)
    ensures r.Ok? <==> FindTrain(st, keretaId).Some? && kuota.Whole? && kuota.n > 0
    ensures r.Ok? ==>
      var st' := r.value.store;
      var w := r.value.reply.wagon;
      var ss := r.value.reply.seats;
      && w == Wagon(st.nextId, namaGerbong, kuota.n, keretaId)
      && st'.wagons == st.wagons + [w]
      && st'.seats == st.seats + ss
      && |ss| == kuota.n
      && (forall i | 0 <= i < |ss| :: ss[i].noKursi == i + 1 && ss[i].gerbongId == w.id)
      && (forall s | s in ss :: st.nextId <= s.id < st'.nextId && s.id != w.id)
      && st'.(wagons := st.wagons, seats := st.seats, nextId := st.nextId) == st
      && st'.nextId > st.nextId
  {
    if FindTrain(st, keretaId).None? then Err(404, "Kereta tidak ditemukan")
    else if kuota.NotWhole? || kuota.n <= 0 then Err(400, QuotaMessage)
    else
      var g := st.nextId;
      var w := Wagon(g, namaGerbong, kuota.n, keretaId);
      var ss := NewSeats(g, g + 1, kuota.n);
      var st' := st.(wagons := st.wagons + [w], seats := st.seats + ss,
                     nextId := g + 1 + kuota.n);
      Ok(Committed(st', WagonView(w, ss)))
  }

  /** A new wagon keeps the store valid and leaves every booking as it was. */
  lemma CreateGerbongKeepsInvariant(st: Store, namaGerbong: string, kuota: Quota, keretaId: Id)
    requires Valid(st) && NoDoubleBooking(st)
    requires CreateGerbong(st, namaGerbong, kuota, keretaId).Ok?
    ensures Valid(CreateGerbong(st, namaGerbong, kuota, keretaId).value.store)
    ensures NoDoubleBooking(CreateGerbong(st, namaGerbong, kuota, keretaId).value.store)
  {
    var c := CreateGerbong(st, namaGerbong, kuota, keretaId).value;
    var st' := c.store;
    var ss := c.reply.seats;
    assert UniqueWagonIds(st'.wagons) by {
      forall i, j | 0 <= i < j < |st'.wagons| ensures st'.wagons[i].id != st'.wagons[j].id {
        if j == |st.wagons| {
          assert st'.wagons[i] in st.wagons;
        }
      }
    }
    assert UniqueSeatIds(st'.seats) by {
      forall i, j | 0 <= i < j < |st'.seats| ensures st'.seats[i].id != st'.seats[j].id {
        if i < |st.seats| && j >= |st.seats| {
          assert st'.seats[i] in st.seats;
          assert st'.seats[j] in ss;
        } else if i >= |st.seats| {
          assert st'.seats[i] == ss[i - |st.seats|] && st'.seats[j] == ss[j - |st.seats|];
        }
      }
    }
    assert forall d | d in st'.details :: ScheduleOf(st', d) == ScheduleOf(st, d);
  }

  /** The seats listed under the new wagon are exactly the created ones,
      already in seat-number order. */
  lemma CreatedWagonHoldsItsSeats(st: Store, namaGerbong: string, kuota: Quota, keretaId: Id)
    requires Valid(st)
    requires CreateGerbong(st, namaGerbong, kuota, keretaId).Ok?
    ensures var c := CreateGerbong(st, namaGerbong, kuota, keretaId).value;
      SeatsOf(c.store.seats, c.reply.wagon.id) == c.reply.seats
  {
    var c := CreateGerbong(st, namaGerbong, kuota, keretaId).value;
    var p := (s: Seat) => s.gerbongId == c.reply.wagon.id;
    FilterAppend(st.seats, c.reply.seats, p);
    FilterNone(st.seats, p);
    FilterAll(c.reply.seats, p);
  }

  /** Every seat of a new wagon is free under every schedule of its train. */
  lemma CreatedSeatsAreFree(st: Store, namaGerbong: string, kuota: Quota, keretaId: Id,
                            jad: Schedule, s: Seat)
    requires Valid(st)
    requires CreateGerbong(st, namaGerbong, kuota, keretaId).Ok?
    requires jad.keretaId == keretaId
    requires s in CreateGerbong(st, namaGerbong, kuota, keretaId).value.reply.seats
    ensures s in FreeSeats(CreateGerbong(st, namaGerbong, kuota, keretaId).value.store, jad)
  {
    var c := CreateGerbong(st, namaGerbong, kuota, keretaId).value;
    var st' := c.store;
    assert c.reply.wagon in st'.wagons;
    assert !BookedUnder(st', s.id, jad.id);
    FreeSeatsMembers(st', jad, s);
  }

  /** `updateGerbong`: only `namaGerbong` and `keretaId` may change, each
      only when truthy, and a given `keretaId` must name a train. */
  function UpdateGerbong(st: Store, id: Id, namaGerbong: Option<string>, keretaId: Option<Id>)
    : (r: Outcome<Committed<WagonView>>)
    ensures FindWagon(st, id).None? <==> r == Err(404, "Gerbong tidak ditemukan")
    ensures r == Err(404, "Kereta tidak ditemukan") <==>
      FindWagon(st, id).Some? && keretaId.Some? && FindTrain(st, keretaId.value).None?
    ensures r.Ok? <==>
      FindWagon(st, id).Some? && (keretaId.None? || FindTrain(st, keretaId.value).Some?)
    ensures r.Ok? ==>
      var prev := FindWagon(st, id).value;
      var w := r.value.reply.wagon;
      && w.id == id && w.kuota == prev.kuota
      && w.namaGerbong == PickTruthy(namaGerbong, prev.namaGerbong)
      && w.keretaId == PickGiven(keretaId, prev.keretaId)
      && w in r.value.store.wagons
      && |r.value.store.wagons| == |st.wagons|
      && (forall k | 0 <= k < |st.wagons| && st.wagons[k].id != id :: r.value.store.wagons[k] == st.wagons[k])
      && r.value.store.(wagons := st.wagons) == st
      && r.value.reply.seats == SeatsOf(st.seats, id)
  {
    match IndexOf(st.wagons, (w: Wagon) => w.id == id) {
      case None => Err(404, "Gerbong tidak ditemukan")
      case Some(i) =>
        if keretaId.Some? && FindTrain(st, keretaId.value).None? then Err(404, "Kereta tidak ditemukan")
        else
          var prev := st.wagons[i];
          var w := prev.(namaGerbong := PickTruthy(namaGerbong, prev.namaGerbong),
                        keretaId := PickGiven(keretaId, prev.keretaId));
          assert st.wagons[i := w][i] == w;
          Ok(Committed(st.(wagons := st.wagons[i := w]), WagonView(w, SeatsOf(st.seats, id))))
    }
  }

  /** Renaming or moving a wagon keeps the store valid and every booking. */
  lemma UpdateGerbongKeepsInvariant(st: Store, id: Id, namaGerbong: Option<string>, keretaId: Option<Id>)
    requires Valid(st) && NoDoubleBooking(st)
    requires UpdateGerbong(st, id, namaGerbong, keretaId).Ok?
    ensures Valid(UpdateGerbong(st, id, namaGerbong, keretaId).value.store)
    ensures NoDoubleBooking(UpdateGerbong(st, id, namaGerbong, keretaId).value.store)
  {
    var st' := UpdateGerbong(st, id, namaGerbong, keretaId).value.store;
    var i := IndexOf(st.wagons, (w: Wagon) => w.id == id).value;
    assert st'.wagons == st.wagons[i := st'.wagons[i]];
    assert forall w | w in st'.wagons :: w.id < st'.nextId by {
      forall w | w in st'.wagons ensures w.id < st'.nextId {
        var k :| 0 <= k < |st'.wagons| && st'.wagons[k] == w;
        assert st.wagons[k] in st.wagons;
      }
    }
    assert forall d | d in st'.details :: ScheduleOf(st', d) == ScheduleOf(st, d);
  }

  /** Some booking detail binds a seat (found by key) of wagon `g`. */
  predicate HasBookedSeat(st: Store, g: Id) {
    exists d | d in st.details ::
      FindSeat(st, d.kursiId).Some? && FindSeat(st, d.kursiId).value.gerbongId == g
  }

  /** The 400 answer to deleting a wagon with a booked seat. */
  const BookedSeatMessage := "Tidak dapat menghapus gerbong karena ada kursi yang sudah dipesan"

  /** `deleteGerbong`: refused while any seat of the wagon is booked. */
  function DeleteGerbong(st: Store, id: Id): (r: Outcome<Committed<()>>)
    ensures FindWagon(st, id).None? <==> r == Err(404, "Gerbong tidak ditemukan")
    ensures r == Err(400, BookedSeatMessage) <==>
      FindWagon(st, id).Some? && HasBookedSeat(st, id)
    ensures r.Ok? <==> FindWagon(st, id).Some? && !HasBookedSeat(st, id)
    ensures r.Ok? ==>
      && |r.value.store.wagons| == |st.wagons| - 1
      && (forall w | w in r.value.store.wagons :: w in st.wagons)
      && (forall w | w in st.wagons && w.id != id :: w in r.value.store.wagons)
      && r.value.store.(wagons := st.wagons) == st
  {
    match IndexOf(st.wagons, (w: Wagon) => w.id == id) {
      case None => Err(404, "Gerbong tidak ditemukan")
      case Some(i) =>
        if HasBookedSeat(st, id) then
          Err(400, BookedSeatMessage)
        else
          var st' := st.(wagons := RemoveAt(st.wagons, i));
          RemoveAtKeepsOthers(st.wagons, i);
          Ok(Committed(st', ()))
    }
  }

  /** A delete that goes through leaves every booked seat's wagon in place. */
  lemma DeleteGerbongKeepsBookedWagons(st: Store, id: Id, d: Detail)
    requires DeleteGerbong(st, id).Ok?
    requires d in st.details && FindSeat(st, d.kursiId).Some?
    requires FindWagon(st, FindSeat(st, d.kursiId).value.gerbongId).Some?
    ensures var st' := DeleteGerbong(st, id).value.store;
      FindWagon(st', FindSeat(st', d.kursiId).value.gerbongId).Some?
  {
    var st' := DeleteGerbong(st, id).value.store;
    var g := FindSeat(st, d.kursiId).value.gerbongId;
    assert g != id;
    assert FindWagon(st, g).value in st'.wagons;
  }

  /** Deleting a wagon keeps the store valid and every booking. */
  lemma DeleteGerbongKeepsInvariant(st: Store, id: Id)
    requires Valid(st) && NoDoubleBooking(st)
    requires DeleteGerbong(st, id).Ok?
    ensures Valid(DeleteGerbong(st, id).value.store)
    ensures NoDoubleBooking(DeleteGerbong(st, id).value.store)
  {
    var i := IndexOf(st.wagons, (w: Wagon) => w.id == id).value;
    var ws := RemoveAt(st.wagons, i);
    assert DeleteGerbong(st, id).value.store == st.(wagons := ws);
    RemoveWagonKeepsUnique(st.wagons, i);
    WagonSubsetKeepsInvariant(st, ws);
  }
}
