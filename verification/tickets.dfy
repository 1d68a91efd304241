/** Ticket purchase and the ticket queries of tiketController. */
module Tickets {
  import opened Common
  import opened Store
  import opened Seats
  import Decimal
  import Sorting

  /** One element of the request's `penumpang` array. */
  datatype Passenger = Passenger(nik: string, nama: string)

  /** What `createTicket` answers: the new booking with its details. */
  datatype Purchase = Purchase(booking: Booking, details: seq<Detail>)

  /** The capacity error's text before the count. */
  const CapacityPrefix := "Kursi yang tersedia tidak cukup. Hanya tersedia "

  /** The capacity error's message, carrying the exact free-seat count. */
  function CapacityMessage(free: nat): string {
    CapacityPrefix + Decimal.Show(free) + " kursi."
  }

  /** The message determines the count it reports. */
  lemma CapacityMessageInjective(a: nat, b: nat)
    requires CapacityMessage(a) == CapacityMessage(b)
    ensures a == b
  {
    var prefix := CapacityPrefix;
    var suffix := " kursi.";
    var ma := CapacityMessage(a);
    assert ma == prefix + Decimal.Show(a) + suffix;
    assert CapacityMessage(b) == prefix + Decimal.Show(b) + suffix;
    assert |Decimal.Show(a)| == |Decimal.Show(b)|;
    assert Decimal.Show(a) == ma[|prefix|..|ma| - |suffix|];
    assert Decimal.Show(b) == ma[|prefix|..|ma| - |suffix|];
    Decimal.ShowInjective(a, b);
  }

  /** Passenger `i` gets free seat `i`; detail ids follow `firstId`. */
  function Assign(free: seq<Seat>, ps: seq<Passenger>, bookingId: Id, firstId: Id): seq<Detail>
    requires |ps| <= |free|
  {
    seq(|ps|, i requires 0 <= i < |ps| =>
      Detail(firstId + i, ps[i].nik, ps[i].nama, bookingId, free[i].id))
  }

  /** `createTicket`, reached only by a caller whose token says
      "pelanggan" (the route's `isPelanggan` gate). `penumpang` is `None`
      when the body's field is not an array; `now` is the database's
      `createdAt` default. The availability read and the commit form one
      step here: the race between them under concurrent requests is not
      part of this model. */
  function CreateTicket(st: Store, caller: Claims, jadwalId: Id,
                        penumpang: Option<seq<Passenger>>, now: int): (r: Outcome<Committed<Purchase>>)
    requires caller.role == Pelanggan
    // Lookups first, each failing before anything else is looked at.
    ensures FindSchedule(st, jadwalId).None? ==> r == Err(404, "Jadwal tidak ditemukan")
    ensures FindSchedule(st, jadwalId).Some? && FindCustomerByUser(st, caller.id).None? ==>
      r == Err(404, "Pelanggan tidak ditemukan")
    ensures (FindSchedule(st, jadwalId).Some? && FindCustomerByUser(st, caller.id).Some? &&
             (penumpang.None? || |penumpang.value| == 0))
      ==> r == Err(400, "Data penumpang tidak valid")
    // The capacity check, with the exact count in the message.
    ensures (FindSchedule(st, jadwalId).Some? && FindCustomerByUser(st, caller.id).Some? &&
             penumpang.Some? && |penumpang.value| > 0 &&
             FindTrain(st, FindSchedule(st, jadwalId).value.keretaId).Some?)
      ==> (|FreeSeats(st, FindSchedule(st, jadwalId).value)| < |penumpang.value| <==>
       r == Err(400, CapacityMessage(|FreeSeats(st, FindSchedule(st, jadwalId).value)|)))
    ensures r.Ok? <==>
      FindSchedule(st, jadwalId).Some? && FindCustomerByUser(st, caller.id).Some? &&
      penumpang.Some? && |penumpang.value| > 0 &&
      FindTrain(st, FindSchedule(st, jadwalId).value.keretaId).Some? &&
      |penumpang.value| <= |FreeSeats(st, FindSchedule(st, jadwalId).value)|
    // One booking and one detail per passenger, nothing else.
    ensures r.Ok? ==>
      var st' := r.value.store;
      var b := r.value.reply.booking;
      && st'.(bookings := st.bookings, details := st.details, nextId := st.nextId) == st
      && st'.bookings == st.bookings + [b]
      && b.pelangganId == FindCustomerByUser(st, caller.id).value.id
      && b.jadwalId == jadwalId && b.createdAt == now
      && b.id == st.nextId && st'.nextId > b.id
      && st'.details == st.details + r.value.reply.details
    // Passenger i sits on free seat i, with nik and name copied.
    ensures r.Ok? ==>
      var ps := penumpang.value;
      var free := FreeSeats(st, FindSchedule(st, jadwalId).value);
      var ds := r.value.reply.details;
      && |ds| == |ps|
      && forall i :: 0 <= i < |ps| ==>
           && ds[i].kursiId == free[i].id
           && ds[i].nik == ps[i].nik
           && ds[i].namaPenumpang == ps[i].nama
           && ds[i].pembelianTiketId == r.value.reply.booking.id
           && ds[i].id >= st.nextId && ds[i].id < r.value.store.nextId
  {
    match FindSchedule(st, jadwalId) {
      case None => Err(404, "Jadwal tidak ditemukan")
      case Some(jad) =>
        match FindCustomerByUser(st, caller.id) {
          case None => Err(404, "Pelanggan tidak ditemukan")
          case Some(customer) =>
            if penumpang.None? || |penumpang.value| == 0 then
              Err(400, "Data penumpang tidak valid")
            else if FindTrain(st, jad.keretaId).None? then
              // `jadwal.kereta.gerbong` on a missing train throws.
              Err(500, "Gagal membuat tiket")
            else
              var ps := penumpang.value;
              var free := FreeSeats(st, jad);
              if |free| < |ps| then
                Err(400, CapacityMessage(|free|))
              else
                var b := Booking(st.nextId, customer.id, jadwalId, now);
                var ds := Assign(free, ps, b.id, st.nextId + 1);
                var st' := st.(bookings := st.bookings + [b],
                               details := st.details + ds,
                               nextId := st.nextId + 1 + |ps|);
                Ok(Committed(st', Purchase(b, ds)))
        }
    }
  }

  // ---------------------------------------------------------------------
  // What a successful purchase does to the seat inventory.
  // ---------------------------------------------------------------------

  /** Earlier details keep their schedule; the new ones are for the
      purchased schedule. */
  lemma PurchaseSchedules(st: Store, caller: Claims, jadwalId: Id,
                          penumpang: Option<seq<Passenger>>, now: int)
    requires caller.role == Pelanggan && Valid(st)
    requires CreateTicket(st, caller, jadwalId, penumpang, now).Ok?
    ensures var c := CreateTicket(st, caller, jadwalId, penumpang, now).value;
      && (forall d | d in st.details :: ScheduleOf(c.store, d) == ScheduleOf(st, d))
      && (forall d | d in c.reply.details :: ScheduleOf(c.store, d) == Some(jadwalId))
  {
    var c := CreateTicket(st, caller, jadwalId, penumpang, now).value;
    var b := c.reply.booking;
    assert c.store.bookings == st.(bookings := st.bookings + [b]).bookings;
    forall d | d in st.details
      ensures ScheduleOf(c.store, d) == ScheduleOf(st, d)
    {
      FindBookingAppend(st, b, d.pembelianTiketId);
    }
    forall d | d in c.reply.details
      ensures ScheduleOf(c.store, d) == Some(jadwalId)
    {
      FindBookingAppend(st, b, d.pembelianTiketId);
      assert FindBooking(st, b.id).None?;
    }
  }

  /** A purchase keeps every key below the id supply and every unique
      column unique. */
  lemma PurchaseKeepsValid(st: Store, caller: Claims, jadwalId: Id,
                           penumpang: Option<seq<Passenger>>, now: int)
    requires caller.role == Pelanggan && Valid(st)
    requires CreateTicket(st, caller, jadwalId, penumpang, now).Ok?
    ensures Valid(CreateTicket(st, caller, jadwalId, penumpang, now).value.store)
  {
    var c := CreateTicket(st, caller, jadwalId, penumpang, now).value;
    var st' := c.store;
    var ds := c.reply.details;
    var jad := FindSchedule(st, jadwalId).value;
    var free := FreeSeats(st, jad);
    forall i | 0 <= i < |ds| ensures ds[i].kursiId < st.nextId {
      assert free[i] in free;
      FreeSeatsMembers(st, jad, free[i]);
    }
    assert forall d | d in ds :: d.pembelianTiketId < st'.nextId && d.kursiId < st'.nextId;
    assert st'.details == st.details + ds;
  }

  /** The invariant step: a purchase keeps every seat bound at most once
      per schedule. The assigned seats were free under this schedule and
      are pairwise distinct. */
  lemma PurchaseKeepsNoDoubleBooking(st: Store, caller: Claims, jadwalId: Id,
                                     penumpang: Option<seq<Passenger>>, now: int)
    requires caller.role == Pelanggan
    requires Valid(st) && NoDoubleBooking(st)
    requires CreateTicket(st, caller, jadwalId, penumpang, now).Ok?
    ensures NoDoubleBooking(CreateTicket(st, caller, jadwalId, penumpang, now).value.store)
  {
    var c := CreateTicket(st, caller, jadwalId, penumpang, now).value;
    var ds := c.reply.details;
    var free := FreeSeats(st, FindSchedule(st, jadwalId).value);
    PurchaseSchedules(st, caller, jadwalId, penumpang, now);
    FreeSeatsUnique(st, FindSchedule(st, jadwalId).value);
    forall a | 0 <= a < |ds| ensures ds[a].kursiId !in BookedSeatIds(st, jadwalId) {
      assert free[a] in free;
    }
    AppendKeepsNoDoubleBooking(st, c.store, jadwalId, ds);
  }

  /** Appending details for schedule `j` on distinct seats not yet booked
      under `j` binds no seat twice, provided earlier details keep their
      schedule. */
  lemma AppendKeepsNoDoubleBooking(st: Store, st': Store, j: Id, ds: seq<Detail>)
    requires NoDoubleBooking(st)
    requires st'.details == st.details + ds
    requires forall d | d in st.details :: ScheduleOf(st', d) == ScheduleOf(st, d)
    requires forall d | d in ds :: ScheduleOf(st', d) == Some(j)
    requires forall a | 0 <= a < |ds| :: ds[a].kursiId !in BookedSeatIds(st, j)
    requires forall a, b | 0 <= a < b < |ds| :: ds[a].kursiId != ds[b].kursiId
    ensures NoDoubleBooking(st')
  {
    var n := |st.details|;
    forall i, k | 0 <= i < k < |st'.details| && ScheduleOf(st', st'.details[i]).Some? &&
                  ScheduleOf(st', st'.details[i]) == ScheduleOf(st', st'.details[k])
      ensures st'.details[i].kursiId != st'.details[k].kursiId
    {
      if k < n {
        assert st'.details[i] == st.details[i] && st'.details[k] == st.details[k];
        assert st.details[i] in st.details && st.details[k] in st.details;
      } else if i >= n {
        assert st'.details[i] == ds[i - n] && st'.details[k] == ds[k - n];
      } else {
        var di := st.details[i];
        assert st'.details[i] == di && di in st.details;
        assert st'.details[k] == ds[k - n] && ds[k - n] in ds;
        assert di.kursiId in BookedSeatIds(st, j);
      }
    }
  }

  /** Appending details `ds` for schedule `j`, detail `i` on seat
      `free[i]`, adds exactly those seats to the schedule's booked set. */
  lemma BookedGrowth(st: Store, st': Store, j: Id, ds: seq<Detail>, free: seq<Seat>)
    requires st'.details == st.details + ds && |ds| <= |free|
    requires forall i :: 0 <= i < |ds| ==> ds[i].kursiId == free[i].id
    requires forall d | d in st.details :: ScheduleOf(st', d) == ScheduleOf(st, d)
    requires forall d | d in ds :: ScheduleOf(st', d) == Some(j)
    ensures BookedSeatIds(st', j) == BookedSeatIds(st, j) + (set i | 0 <= i < |ds| :: free[i].id)
  {
    var taken := set i | 0 <= i < |ds| :: free[i].id;
    forall x | x in BookedSeatIds(st', j)
      ensures x in BookedSeatIds(st, j) + taken
    {
      var d :| d in st'.details && ScheduleOf(st', d) == Some(j) && d.kursiId == x;
      if d in st.details {
        assert x in BookedSeatIds(st, j);
      } else {
        var i :| 0 <= i < |ds| && ds[i] == d;
        assert x == free[i].id;
      }
    }
    forall x | x in BookedSeatIds(st, j) + taken
      ensures x in BookedSeatIds(st', j)
    {
      if x in BookedSeatIds(st, j) {
        var d :| d in st.details && ScheduleOf(st, d) == Some(j) && d.kursiId == x;
        assert d in st'.details;
      } else {
        var i :| 0 <= i < |ds| && free[i].id == x;
        assert ds[i] in ds;
        assert ds[i] in st'.details;
      }
    }
  }

  /** The next purchase on the same schedule continues where this one
      stopped: the free list loses exactly its first |penumpang| seats. */
  lemma PurchaseTakesLeadingFreeSeats(st: Store, caller: Claims, jadwalId: Id,
                                      penumpang: Option<seq<Passenger>>, now: int)
    requires caller.role == Pelanggan && Valid(st)
    requires CreateTicket(st, caller, jadwalId, penumpang, now).Ok?
    ensures var jad := FindSchedule(st, jadwalId).value;
      FreeSeats(CreateTicket(st, caller, jadwalId, penumpang, now).value.store, jad) ==
      FreeSeats(st, jad)[|penumpang.value|..]
  {
    var st' := CreateTicket(st, caller, jadwalId, penumpang, now).value.store;
    var jad := FindSchedule(st, jadwalId).value;
    var free := FreeSeats(st, jad);
    var k := |penumpang.value|;
    var walk := SeatWalk(WagonsOf(st.wagons, jad.keretaId), st.seats);
    var taken := set i | 0 <= i < k :: free[i].id;
    var ds := CreateTicket(st, caller, jadwalId, penumpang, now).value.reply.details;
    PurchaseSchedules(st, caller, jadwalId, penumpang, now);
    BookedGrowth(st, st', jad.id, ds, free);
    assert st'.wagons == st.wagons && st'.seats == st.seats;
    UnbookedUnion(walk, BookedSeatIds(st, jad.id), taken);
    FreeSeatsUnique(st, jad);
    UniquePrefixTaken(free, k);
  }

  /** Seats bought under one schedule stay free under every other. */
  lemma PurchaseLeavesOtherSchedules(st: Store, caller: Claims, jadwalId: Id,
                                     penumpang: Option<seq<Passenger>>, now: int, other: Schedule)
    requires caller.role == Pelanggan && Valid(st)
    requires CreateTicket(st, caller, jadwalId, penumpang, now).Ok?
    requires other.id != jadwalId
    ensures FreeSeats(CreateTicket(st, caller, jadwalId, penumpang, now).value.store, other) ==
            FreeSeats(st, other)
  {
    var c := CreateTicket(st, caller, jadwalId, penumpang, now).value;
    var st' := c.store;
    PurchaseSchedules(st, caller, jadwalId, penumpang, now);
    assert BookedSeatIds(st', other.id) == BookedSeatIds(st, other.id) by {
      forall x | x in BookedSeatIds(st', other.id)
        ensures x in BookedSeatIds(st, other.id)
      {
        var d :| d in st'.details && ScheduleOf(st', d) == Some(other.id) && d.kursiId == x;
        if d !in st.details {
          assert false;
        }
      }
      forall x | x in BookedSeatIds(st, other.id)
        ensures x in BookedSeatIds(st', other.id)
      {
        var d :| d in st.details && ScheduleOf(st, d) == Some(other.id) && d.kursiId == x;
        assert d in st'.details;
      }
    }
  }

  // ---------------------------------------------------------------------
  // Any run of purchases.
  // ---------------------------------------------------------------------

  /** One `POST /tiket` request by a pelanggan. */
  datatype PurchaseRequest = PurchaseRequest(caller: Claims, jadwalId: Id,
                                             penumpang: Option<seq<Passenger>>, now: int)

  predicate ByPelanggan(reqs: seq<PurchaseRequest>) {
    forall k | 0 <= k < |reqs| :: reqs[k].caller.role == Pelanggan
  }

  /** Serve the requests in order; a rejected request writes nothing. */
  /** One purchase attempt: the new store when it goes through, the old
      one when it is refused. */
  function Attempt(st: Store, q: PurchaseRequest): Store
    requires q.caller.role == Pelanggan
  {
    var o := CreateTicket(st, q.caller, q.jadwalId, q.penumpang, q.now);
    if o.Ok? then o.value.store else st
  }

  lemma AttemptKeepsNoDoubleBooking(st: Store, q: PurchaseRequest)
    requires q.caller.role == Pelanggan
    requires Valid(st) && NoDoubleBooking(st)
    ensures Valid(Attempt(st, q)) && NoDoubleBooking(Attempt(st, q))
  {
    if CreateTicket(st, q.caller, q.jadwalId, q.penumpang, q.now).Ok? {
      PurchaseKeepsValid(st, q.caller, q.jadwalId, q.penumpang, q.now);
      PurchaseKeepsNoDoubleBooking(st, q.caller, q.jadwalId, q.penumpang, q.now);
    }
  }

  function RunPurchases(st: Store, reqs: seq<PurchaseRequest>): Store
    requires ByPelanggan(reqs)
    decreases |reqs|
  {
    if reqs == [] then st else RunPurchases(Attempt(st, reqs[0]), reqs[1..])
  }

  /** The seat-allocation invariant: after any run of purchases from a
      valid store, no seat is bound twice under one schedule. */
  lemma {:induction false} RunKeepsNoDoubleBooking(st: Store, reqs: seq<PurchaseRequest>)
    requires ByPelanggan(reqs)
    requires Valid(st) && NoDoubleBooking(st)
    ensures Valid(RunPurchases(st, reqs)) && NoDoubleBooking(RunPurchases(st, reqs))
    decreases |reqs|
  {
    if reqs != [] {
      var st' := Attempt(st, reqs[0]);
      AttemptKeepsNoDoubleBooking(st, reqs[0]);
      assert ByPelanggan(reqs[1..]) by {
        forall k | 0 <= k < |reqs| - 1 ensures reqs[1..][k].caller.role == Pelanggan {
          assert reqs[1..][k] == reqs[k + 1];
        }
      }
      RunKeepsNoDoubleBooking(st', reqs[1..]);
      assert RunPurchases(st, reqs) == RunPurchases(st', reqs[1..]);
    }
  }

  // ---------------------------------------------------------------------
  // getTicketById
  // ---------------------------------------------------------------------

  /** A booking with its schedule (absent when the row is missing) and its
      details. */
  datatype TicketView = TicketView(booking: Booking, jadwal: Option<Schedule>, details: seq<Detail>)

  function DetailsOf(st: Store, id: Id): (r: seq<Detail>)
    ensures forall d | d in r :: d in st.details && d.pembelianTiketId == id
    ensures forall d | d in st.details && d.pembelianTiketId == id :: d in r
  {
    Filter(st.details, (d: Detail) => d.pembelianTiketId == id)
  }

  function ViewOf(st: Store, b: Booking): TicketView {
    TicketView(b, FindSchedule(st, b.jadwalId), DetailsOf(st, b.id))
  }

  /** The 403 answer to a pelanggan reading another customer's ticket. */
  const NotOwnerMessage := "Anda tidak memiliki akses ke tiket ini"

  /** `getTicketById`, for any authenticated caller. The ticket lookup comes
      first; only a pelanggan caller is then checked for ownership. */
  function GetTicketById(st: Store, caller: Claims, id: Id): (r: Outcome<TicketView>)
    ensures FindBooking(st, id).None? <==> r == Err(404, "Tiket tidak ditemukan")
    ensures r == Err(403, NotOwnerMessage) <==>
      && FindBooking(st, id).Some? && caller.role == Pelanggan
      && (FindCustomerByUser(st, caller.id).None? ||
          FindBooking(st, id).value.pelangganId != FindCustomerByUser(st, caller.id).value.id)
    ensures r.Err? ==> r.status == 404 || r.status == 403
    ensures r.Ok? <==>
      && FindBooking(st, id).Some?
      && (caller.role != Pelanggan ||
          (FindCustomerByUser(st, caller.id).Some? &&
           FindBooking(st, id).value.pelangganId == FindCustomerByUser(st, caller.id).value.id))
    ensures r.Ok? ==>
      && r.value.booking in st.bookings && r.value.booking.id == id
      && r.value.jadwal == FindSchedule(st, r.value.booking.jadwalId)
      && (caller.role == Pelanggan ==>
            exists c | c in st.customers :: c.userId == caller.id && c.id == r.value.booking.pelangganId)
      && (forall d | d in r.value.details :: d in st.details && d.pembelianTiketId == id)
      && (forall d | d in st.details && d.pembelianTiketId == id :: d in r.value.details)
  {
    match FindBooking(st, id) {
      case None => Err(404, "Tiket tidak ditemukan")
      case Some(t) =>
        if caller.role == Pelanggan && (FindCustomerByUser(st, caller.id).None? ||
                                        t.pelangganId != FindCustomerByUser(st, caller.id).value.id)
        then Err(403, NotOwnerMessage)
        else Ok(ViewOf(st, t))
    }
  }

  /** A pelanggan reads exactly the tickets of their own profile. */
  lemma OwnerReadsOwnTicket(st: Store, caller: Claims, id: Id)
    requires caller.role == Pelanggan
    requires FindBooking(st, id).Some? && FindCustomerByUser(st, caller.id).Some?
    ensures GetTicketById(st, caller, id).Ok? <==>
            FindBooking(st, id).value.pelangganId == FindCustomerByUser(st, caller.id).value.id
  {
  }

  // ---------------------------------------------------------------------
  // getAllTickets and its income sum
  // ---------------------------------------------------------------------

  datatype TicketList = TicketList(tickets: seq<TicketView>, totalIncome: int)

  /** The income one listed ticket contributes: price times passengers.
      A ticket without its schedule contributes nothing; the listing never
      holds one (`Views` gives `None` instead). */
  function Income(v: TicketView): int {
    if v.jadwal.Some? then v.jadwal.value.harga * |v.details| else 0
  }

  predicate AllPriced(vs: seq<TicketView>) {
    forall k | 0 <= k < |vs| :: vs[k].jadwal.Some?
  }

  /** The reference sum over a list of tickets. */
  function SumIncome(vs: seq<TicketView>): int {
    if vs == [] then 0 else Income(vs[0]) + SumIncome(vs[1..])
  }

  /** The left fold the handler performs (`reduce` from `acc`). */
  function Reduce(acc: int, vs: seq<TicketView>): int
    decreases |vs|
  {
    if vs == [] then acc else Reduce(acc + Income(vs[0]), vs[1..])
  }

  /** The fold computes the sum. */
  lemma {:induction false} ReduceIsSum(acc: int, vs: seq<TicketView>)
    ensures Reduce(acc, vs) == acc + SumIncome(vs)
    decreases |vs|
  {
    if vs != [] {
      ReduceIsSum(acc + Income(vs[0]), vs[1..]);
    }
  }

  lemma {:induction false} SumIncomeAppend(a: seq<TicketView>, b: seq<TicketView>)
    ensures SumIncome(a + b) == SumIncome(a) + SumIncome(b)
    decreases |a|
  {
    if a == [] {
      assert a + b == b;
    } else {
      assert (a + b)[0] == a[0];
      assert (a + b)[1..] == a[1..] + b;
      SumIncomeAppend(a[1..], b);
    }
  }

  /** Taking one ticket out of the list takes out exactly its income. */
  lemma {:induction false} SumIncomeAt(b: seq<TicketView>, i: nat)
    requires i < |b|
    ensures SumIncome(b) == Income(b[i]) + SumIncome(b[..i] + b[i + 1..])
    decreases i
  {
    if i == 0 {
      assert b[..0] + b[1..] == b[1..];
    } else {
      var tail := b[1..];
      SumIncomeAt(tail, i - 1);
      var rest := tail[..i - 1] + tail[i..];
      assert tail[i - 1] == b[i];
      assert b[..i] + b[i + 1..] == [b[0]] + rest;
      assert ([b[0]] + rest)[1..] == rest;
    }
  }

  lemma PricedPermutation(a: seq<TicketView>, b: seq<TicketView>)
    requires AllPriced(a) && multiset(a) == multiset(b)
    ensures AllPriced(b)
  {
    forall k | 0 <= k < |b| ensures b[k].jadwal.Some? {
      assert b[k] in multiset(a);
    }
  }

  /** The total does not depend on the order tickets are listed in. */
  lemma {:induction false} SumIncomePermutation(a: seq<TicketView>, b: seq<TicketView>)
    requires multiset(a) == multiset(b)
    ensures SumIncome(a) == SumIncome(b)
    decreases |a|
  {
    if a == [] {
      assert |b| == |multiset(b)| == 0;
    } else {
      var x := a[0];
      assert x in multiset(b);
      var i :| 0 <= i < |b| && b[i] == x;
      var rest := b[..i] + b[i + 1..];
      RemoveOne(b, i);
      assert a == [x] + a[1..];
      assert multiset(a[1..]) == multiset(rest);
      SumIncomePermutation(a[1..], rest);
      SumIncomeAt(b, i);
    }
  }

  /** Every booking with its schedule and details; `None` when some
      booking's schedule row is missing (`ticket.jadwal.harga` throws). */
  function Views(st: Store, bs: seq<Booking>): (r: Option<seq<TicketView>>)
    ensures r.Some? ==>
      && |r.value| == |bs| && AllPriced(r.value)
      && forall k | 0 <= k < |bs| :: r.value[k] == ViewOf(st, bs[k])
    ensures r.None? <==> exists k | 0 <= k < |bs| :: FindSchedule(st, bs[k].jadwalId).None?
  {
    if bs == [] then Some([])
    else
      var v := ViewOf(st, bs[0]);
      match Views(st, bs[1..]) {
        case None => None
        case Some(rest) =>
          if v.jadwal.None? then None
          else
            assert forall k | 1 <= k < |bs| :: bs[1..][k - 1] == bs[k];
            Some([v] + rest)
      }
  }

  /** Newest first. */
  function NewestFirst(v: TicketView): int {
    -v.booking.createdAt
  }

  /** The 500 answer of the ticket listing. */
  const ListingFailedMessage := "Gagal mendapatkan data pembelian tiket"

  /** `getAllTickets` without the date and month windows. */
  function GetAllTickets(st: Store, caller: Claims): (r: Outcome<TicketList>)
    requires caller.role == Petugas
    ensures r.Err? <==> exists k | 0 <= k < |st.bookings| :: FindSchedule(st, st.bookings[k].jadwalId).None?
    ensures r.Err? ==> r == Err(500, ListingFailedMessage)
    ensures r.Ok? ==>
      && Views(st, st.bookings).Some?
      && multiset(r.value.tickets) == multiset(Views(st, st.bookings).value)
      && Sorting.SortedBy(r.value.tickets, NewestFirst)
      && AllPriced(r.value.tickets)
      && r.value.totalIncome == SumIncome(r.value.tickets)
      && r.value.totalIncome == SumIncome(Views(st, st.bookings).value)
  {
    match Views(st, st.bookings) {
      case None => Err(500, ListingFailedMessage)
      case Some(vs) =>
        var sorted := Sorting.SortBy(vs, NewestFirst);
        PricedPermutation(vs, sorted);
        SumIncomePermutation(vs, sorted);
        ReduceIsSum(0, sorted);
        Ok(TicketList(sorted, Reduce(0, sorted)))
    }
  }

  /** A purchase leaves the details of every earlier booking as they were,
      and the new booking's details are exactly the purchased ones. */
  lemma PurchaseDetailsOf(st: Store, caller: Claims, jadwalId: Id,
                          penumpang: Option<seq<Passenger>>, now: int, id: Id)
    requires caller.role == Pelanggan && Valid(st)
    requires CreateTicket(st, caller, jadwalId, penumpang, now).Ok?
    ensures var c := CreateTicket(st, caller, jadwalId, penumpang, now).value;
      DetailsOf(c.store, id) ==
        (if id == c.reply.booking.id then c.reply.details else DetailsOf(st, id))
  {
    var c := CreateTicket(st, caller, jadwalId, penumpang, now).value;
    var ds := c.reply.details;
    var p := (d: Detail) => d.pembelianTiketId == id;
    FilterAppend(st.details, ds, p);
    if id == c.reply.booking.id {
      FilterNone(st.details, p);
      FilterAll(ds, p);
    } else {
      FilterNone(ds, p);
    }
  }

  /** Appending a priced booking whose predecessors still look the same
      adds exactly that booking's income. */
  lemma IncomeAfterAppend(st: Store, st': Store, b: Booking)
    requires st'.schedules == st.schedules && st'.bookings == st.bookings + [b]
    requires Views(st, st.bookings).Some? && FindSchedule(st, b.jadwalId).Some?
    requires forall k | 0 <= k < |st.bookings| :: ViewOf(st', st.bookings[k]) == ViewOf(st, st.bookings[k])
    ensures Views(st', st'.bookings).Some? && ViewOf(st', b).jadwal.Some?
    ensures SumIncome(Views(st', st'.bookings).value) ==
            SumIncome(Views(st, st.bookings).value) + Income(ViewOf(st', b))
  {
    var vs := Views(st, st.bookings).value;
    var vs' := vs + [ViewOf(st', b)];
    var n := |st.bookings|;
    forall k | 0 <= k < |st'.bookings| ensures FindSchedule(st', st'.bookings[k].jadwalId).Some? {
      if k < n {
        assert st'.bookings[k] == st.bookings[k];
      }
    }
    var ws := Views(st', st'.bookings).value;
    forall k | 0 <= k < |ws| ensures ws[k] == vs'[k] {
      if k < n {
        assert st'.bookings[k] == st.bookings[k];
      }
    }
    assert ws == vs';
    SumIncomeAppend(vs, [ViewOf(st', b)]);
  }

  /** A purchase raises the reported income by the schedule's price times
      the number of passengers. */
  lemma PurchaseAddsIncome(st: Store, caller: Claims, staff: Claims, jadwalId: Id,
                           penumpang: Option<seq<Passenger>>, now: int)
    requires caller.role == Pelanggan && staff.role == Petugas && Valid(st)
    requires CreateTicket(st, caller, jadwalId, penumpang, now).Ok?
    requires GetAllTickets(st, staff).Ok?
    ensures var st' := CreateTicket(st, caller, jadwalId, penumpang, now).value.store;
      && GetAllTickets(st', staff).Ok?
      && GetAllTickets(st', staff).value.totalIncome ==
         GetAllTickets(st, staff).value.totalIncome +
         FindSchedule(st, jadwalId).value.harga * |penumpang.value|
  {
    var c := CreateTicket(st, caller, jadwalId, penumpang, now).value;
    var st' := c.store;
    var b := c.reply.booking;
    forall k | 0 <= k < |st.bookings|
      ensures ViewOf(st', st.bookings[k]) == ViewOf(st, st.bookings[k])
    {
      assert st.bookings[k] in st.bookings;
      PurchaseDetailsOf(st, caller, jadwalId, penumpang, now, st.bookings[k].id);
    }
    PurchaseDetailsOf(st, caller, jadwalId, penumpang, now, b.id);
    IncomeAfterAppend(st, st', b);
  }
}
