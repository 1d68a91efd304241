/** The API's state-changing requests as one transition system. Each
    request is served by its handler; the route's gate is the request's
    precondition; a rejected request writes nothing. `updateKereta` is
    served as written (`Trains.UpdateKereta`) or with its class check
    corrected (`Trains.UpdateKeretaChecked`), as the `Build` says. */
module System {
  import opened Common
  import opened Store
  import Accounts
  import Customers
  import StaffAdmin
  import Profiles
  import Trains
  import Wagons
  import Schedules
  import Tickets

  /** A state-changing request, with the fields its handler reads. */
  datatype Action =
    | Register(username: string, password: string, nik: string, nama: string, alamat: string, telp: string)
    | RegisterPetugas(username: string, password: string, nama: string, alamat: string, telp: string)
    | UpdatePassword(oldPassword: string, newPassword: string)
    | UpdatePelanggan(id: Id, contact: Customers.ContactChange)
    | DeletePelanggan(id: Id)
    | UpdatePetugas(id: Id, contact: Customers.ContactChange)
    | DeletePetugas(id: Id)
    | CreateKereta(namaKereta: string, deskripsi: string, kelas: string)
    | UpdateKereta(id: Id, train: Trains.TrainChange)
    | DeleteKereta(id: Id)
    | CreateGerbong(namaGerbong: string, kuota: Wagons.Quota, keretaId: Id)
    | UpdateGerbong(id: Id, newName: Option<string>, newTrain: Option<Id>)
    | DeleteGerbong(id: Id)
    | CreateJadwal(asal: string, tujuan: string, berangkat: int, datang: int, harga: int, keretaId: Id)
    | UpdateJadwal(id: Id, schedule: Schedules.ScheduleChange)
    | DeleteJadwal(id: Id)
    | BuyTicket(jadwalId: Id, penumpang: Option<seq<Tickets.Passenger>>, now: int)

  /** A request with the claims of its bearer token. `register` is public,
      so its caller is whatever the client sends and is not looked at. */
  datatype Request = Request(caller: Claims, action: Action)

  /** The route gates: `isPelanggan` before a purchase, `isPetugas` before
      every administrative write, any valid token for a password change. */
  predicate Admitted(q: Request) {
    match q.action {
      case Register(_, _, _, _, _, _) => true
      case UpdatePassword(_, _) => true
      case BuyTicket(_, _, _) => q.caller.role == Pelanggan
      case _ => q.caller.role == Petugas
    }
  }

  /** Which `updateKereta` serves the route: the handler as written, or
      the one whose class check also rejects a falsy class. */
  datatype Build = AsWritten | Corrected

  /** What every reachable store satisfies: the keys and the id supply of
      `Store.Valid` and no seat bound twice under one schedule; with the
      corrected `updateKereta`, also every train class in the enum. */
  predicate Inv(b: Build, st: Store) {
    Valid(st) && NoDoubleBooking(st) && (b.Corrected? ==> Trains.ClassesValid(st))
  }

  function Commit<T>(o: Outcome<Committed<T>>): (r: Outcome<Store>)
    ensures r.Ok? <==> o.Ok?
    ensures o.Ok? ==> r.value == o.value.store
    ensures o.Err? ==> r == Err(o.status, o.msg)
  {
    match o {
      case Ok(c) => Ok(c.store)
      case Err(s, m) => Err(s, m)
    }
  }

  /** An account request: registration or a password change. */
  predicate AccountAction(a: Action) {
    a.Register? || a.RegisterPetugas? || a.UpdatePassword?
  }

  /** A customer or staff administration request. */
  predicate PeopleAction(a: Action) {
    a.UpdatePelanggan? || a.DeletePelanggan? || a.UpdatePetugas? || a.DeletePetugas?
  }

  /** A train or wagon request. */
  predicate TrainAction(a: Action) {
    || a.CreateKereta? || a.UpdateKereta? || a.DeleteKereta?
    || a.CreateGerbong? || a.UpdateGerbong? || a.DeleteGerbong?
  }

  /** A schedule request. */
  predicate ScheduleAction(a: Action) {
    a.CreateJadwal? || a.UpdateJadwal? || a.DeleteJadwal?
  }

  function AccountStep(st: Store, hash: string -> string, q: Request): (r: Outcome<Store>)
    requires Admitted(q) && AccountAction(q.action)
    ensures r.Ok? ==> r.value.nextId >= st.nextId
  {
    match q.action {
      case Register(u, p, nik, n, a, t) => Commit(Accounts.Register(st, hash, u, p, nik, n, a, t))
      case RegisterPetugas(u, p, n, a, t) => Commit(Accounts.RegisterPetugas(st, q.caller, hash, u, p, n, a, t))
      case UpdatePassword(o, n) => Commit(Profiles.UpdatePassword(st, q.caller, hash, o, n))
    }
  }

  function PeopleStep(st: Store, q: Request): (r: Outcome<Store>)
    requires Admitted(q) && PeopleAction(q.action)
    ensures r.Ok? ==> r.value.nextId >= st.nextId
  {
    match q.action {
      case UpdatePelanggan(id, c) => Commit(Customers.UpdatePelanggan(st, id, c))
      case DeletePelanggan(id) => Commit(Customers.DeletePelanggan(st, id))
      case UpdatePetugas(id, c) => Commit(StaffAdmin.UpdatePetugas(st, id, c))
      case DeletePetugas(id) => Commit(StaffAdmin.DeletePetugas(st, q.caller, id))
    }
  }

  function TrainStep(b: Build, st: Store, q: Request): (r: Outcome<Store>)
    requires Admitted(q) && TrainAction(q.action)
    ensures r.Ok? ==> r.value.nextId >= st.nextId
  {
    match q.action {
      case CreateKereta(n, d, k) => Commit(Trains.CreateKereta(st, n, d, k))
      case UpdateKereta(id, c) =>
        if b.Corrected? then Commit(Trains.UpdateKeretaChecked(st, id, c))
        else Commit(Trains.UpdateKereta(st, id, c))
      case DeleteKereta(id) => Commit(Trains.DeleteKereta(st, id))
      case CreateGerbong(n, k, t) => Commit(Wagons.CreateGerbong(st, n, k, t))
      case UpdateGerbong(id, n, t) => Commit(Wagons.UpdateGerbong(st, id, n, t))
      case DeleteGerbong(id) => Commit(Wagons.DeleteGerbong(st, id))
    }
  }

  function ScheduleStep(st: Store, q: Request): (r: Outcome<Store>)
    requires Admitted(q) && ScheduleAction(q.action)
    ensures r.Ok? ==> r.value.nextId >= st.nextId
  {
    match q.action {
      case CreateJadwal(a, t, dep, arr, h, k) => Commit(Schedules.CreateJadwal(st, a, t, dep, arr, h, k))
      case UpdateJadwal(id, c) => Commit(Schedules.UpdateJadwal(st, id, c))
      case DeleteJadwal(id) => Commit(Schedules.DeleteJadwal(st, id))
    }
  }

  /** Serve one admitted request. */
  function Step(b: Build, st: Store, hash: string -> string, q: Request): (r: Outcome<Store>)
    requires Admitted(q)
    ensures r.Ok? ==> r.value.nextId >= st.nextId
  {
    if AccountAction(q.action) then AccountStep(st, hash, q)
    else if PeopleAction(q.action) then PeopleStep(st, q)
    else if TrainAction(q.action) then TrainStep(b, st, q)
    else if ScheduleAction(q.action) then ScheduleStep(st, q)
    else Commit(Tickets.CreateTicket(st, q.caller, q.action.jadwalId, q.action.penumpang, q.action.now))
  }

  // ---------------------------------------------------------------------
  // One lemma per request kind.
  // ---------------------------------------------------------------------

  /** Rewriting the train table keeps the invariant, with classes from
      the enum where the build asks for them: nothing else refers to a
      train's columns. */
  lemma TrainsOnly(b: Build, st: Store, ts: seq<Train>, n: nat)
    requires Inv(b, st) && n >= st.nextId
    requires b.Corrected? ==> forall t | t in ts :: Trains.IsValidKelas(t.kelas)
    ensures Inv(b, st.(trains := ts, nextId := n))
  {
    var st' := st.(trains := ts, nextId := n);
    assert forall x | x in st'.details :: ScheduleOf(st', x) == ScheduleOf(st, x);
  }

  /** Likewise the schedule table: bookings name a schedule by id only. */
  lemma SchedulesOnly(b: Build, st: Store, js: seq<Schedule>, n: nat)
    requires Inv(b, st) && n >= st.nextId
    ensures Inv(b, st.(schedules := js, nextId := n))
  {
    var st' := st.(schedules := js, nextId := n);
    assert forall x | x in st'.details :: ScheduleOf(st', x) == ScheduleOf(st, x);
  }

  /** Likewise the customer table, while user references stay below the
      id supply. */
  lemma CustomersOnly(b: Build, st: Store, cs: seq<Customer>)
    requires Inv(b, st)
    requires forall c | c in cs :: c.userId < st.nextId
    ensures Inv(b, st.(customers := cs))
  {
    var st' := st.(customers := cs);
    assert forall x | x in st'.details :: ScheduleOf(st', x) == ScheduleOf(st, x);
  }

  lemma StaffOnly(b: Build, st: Store, ps: seq<Staff>)
    requires Inv(b, st)
    requires forall p | p in ps :: p.userId < st.nextId
    ensures Inv(b, st.(staff := ps))
  {
    var st' := st.(staff := ps);
    assert forall x | x in st'.details :: ScheduleOf(st', x) == ScheduleOf(st, x);
  }

  lemma RegisterKeepsInv(b: Build, st: Store, hash: string -> string, u: string, p: string,
                         nik: string, n: string, a: string, t: string)
    requires Inv(b, st)
    requires Accounts.Register(st, hash, u, p, nik, n, a, t).Ok?
    ensures Inv(b, Accounts.Register(st, hash, u, p, nik, n, a, t).value.store)
  {
    Accounts.RegisterKeepsInvariant(st, hash, u, p, nik, n, a, t);
  }

  lemma RegisterPetugasKeepsInv(b: Build, st: Store, caller: Claims, hash: string -> string, u: string,
                                p: string, n: string, a: string, t: string)
    requires caller.role == Petugas && Inv(b, st)
    requires Accounts.RegisterPetugas(st, caller, hash, u, p, n, a, t).Ok?
    ensures Inv(b, Accounts.RegisterPetugas(st, caller, hash, u, p, n, a, t).value.store)
  {
    Accounts.RegisterPetugasKeepsInvariant(st, caller, hash, u, p, n, a, t);
  }

  /** A password change keeps every key and every booking. */
  lemma UpdatePasswordKeepsInv(b: Build, st: Store, caller: Claims, hash: string -> string, o: string, n: string)
    requires Inv(b, st)
    requires Profiles.UpdatePassword(st, caller, hash, o, n).Ok?
    ensures Inv(b, Profiles.UpdatePassword(st, caller, hash, o, n).value.store)
  {
    var st' := Profiles.UpdatePassword(st, caller, hash, o, n).value.store;
    var i := IndexOf(st.users, (u: User) => u.id == caller.id).value;
    assert st'.users == st.users[i := st.users[i].(password := hash(n))];
    forall u | u in st'.users ensures u.id < st'.nextId {
      var k :| 0 <= k < |st'.users| && st'.users[k] == u;
      assert st.users[k] in st.users;
    }
    assert forall d | d in st'.details :: ScheduleOf(st', d) == ScheduleOf(st, d);
  }

  lemma UpdatePelangganKeepsInv(b: Build, st: Store, id: Id, c: Customers.ContactChange)
    requires Inv(b, st)
    requires Customers.UpdatePelanggan(st, id, c).Ok?
    ensures Inv(b, Customers.UpdatePelanggan(st, id, c).value.store)
  {
    var st' := Customers.UpdatePelanggan(st, id, c).value.store;
    var i := IndexOf(st.customers, (p: Customer) => p.id == id).value;
    assert st'.customers == st.customers[i := st'.customers[i]];
    forall x | x in st'.customers ensures x.userId < st.nextId {
      var k :| 0 <= k < |st'.customers| && st'.customers[k] == x;
      assert st.customers[k] in st.customers;
    }
    CustomersOnly(b, st, st'.customers);
    assert st' == st.(customers := st'.customers);
  }

  lemma DeletePelangganKeepsInv(b: Build, st: Store, id: Id)
    requires Inv(b, st)
    requires Customers.DeletePelanggan(st, id).Ok?
    ensures Inv(b, Customers.DeletePelanggan(st, id).value.store)
  {
    Customers.DeletePelangganKeepsInvariant(st, id);
  }

  lemma UpdatePetugasKeepsInv(b: Build, st: Store, id: Id, c: Customers.ContactChange)
    requires Inv(b, st)
    requires StaffAdmin.UpdatePetugas(st, id, c).Ok?
    ensures Inv(b, StaffAdmin.UpdatePetugas(st, id, c).value.store)
  {
    var st' := StaffAdmin.UpdatePetugas(st, id, c).value.store;
    var i := IndexOf(st.staff, (p: Staff) => p.id == id).value;
    assert st'.staff == st.staff[i := st'.staff[i]];
    forall x | x in st'.staff ensures x.userId < st.nextId {
      var k :| 0 <= k < |st'.staff| && st'.staff[k] == x;
      assert st.staff[k] in st.staff;
    }
    StaffOnly(b, st, st'.staff);
    assert st' == st.(staff := st'.staff);
  }

  lemma DeletePetugasKeepsInv(b: Build, st: Store, caller: Claims, id: Id)
    requires caller.role == Petugas && Inv(b, st)
    requires StaffAdmin.DeletePetugas(st, caller, id).Ok?
    ensures Inv(b, StaffAdmin.DeletePetugas(st, caller, id).value.store)
  {
    StaffAdmin.DeletePetugasKeepsInvariant(st, caller, id);
  }

  lemma CreateKeretaKeepsInv(b: Build, st: Store, n: string, d: string, k: string)
    requires Inv(b, st)
    requires Trains.CreateKereta(st, n, d, k).Ok?
    ensures Inv(b, Trains.CreateKereta(st, n, d, k).value.store)
  {
    var st' := Trains.CreateKereta(st, n, d, k).value.store;
    if b.Corrected? {
      Trains.CreateKeretaKeepsClassesValid(st, n, d, k);
    }
    TrainsOnly(b, st, st'.trains, st'.nextId);
    assert st' == st.(trains := st'.trains, nextId := st'.nextId);
  }

  /** `updateKereta` as written keeps the keys and the bookings; it may
      store a class outside the enum, so it is served by the as-written
      build only. */
  lemma UpdateKeretaKeepsInv(st: Store, id: Id, c: Trains.TrainChange)
    requires Inv(AsWritten, st)
    requires Trains.UpdateKereta(st, id, c).Ok?
    ensures Inv(AsWritten, Trains.UpdateKereta(st, id, c).value.store)
  {
    var st' := Trains.UpdateKereta(st, id, c).value.store;
    TrainsOnly(AsWritten, st, st'.trains, st.nextId);
    assert st' == st.(trains := st'.trains, nextId := st.nextId);
  }

  /** The corrected `updateKereta` keeps the whole invariant, classes
      included. */
  lemma UpdateKeretaCheckedKeepsInv(st: Store, id: Id, c: Trains.TrainChange)
    requires Inv(Corrected, st)
    requires Trains.UpdateKeretaChecked(st, id, c).Ok?
    ensures Inv(Corrected, Trains.UpdateKeretaChecked(st, id, c).value.store)
  {
    var st' := Trains.UpdateKeretaChecked(st, id, c).value.store;
    Trains.UpdateKeretaCheckedKeepsClassesValid(st, id, c);
    TrainsOnly(Corrected, st, st'.trains, st.nextId);
    assert st' == st.(trains := st'.trains, nextId := st.nextId);
  }

  /** Deleting a train leaves the other trains and every booking. */
  lemma DeleteKeretaKeepsInv(b: Build, st: Store, id: Id)
    requires Inv(b, st)
    requires Trains.DeleteKereta(st, id).Ok?
    ensures Inv(b, Trains.DeleteKereta(st, id).value.store)
  {
    var st' := Trains.DeleteKereta(st, id).value.store;
    var ts := st'.trains;
    assert forall t | t in ts :: t in multiset(st.trains);
    TrainsOnly(b, st, ts, st.nextId);
    assert st' == st.(trains := ts, nextId := st.nextId);
  }

  lemma CreateGerbongKeepsInv(b: Build, st: Store, n: string, k: Wagons.Quota, t: Id)
    requires Inv(b, st)
    requires Wagons.CreateGerbong(st, n, k, t).Ok?
    ensures Inv(b, Wagons.CreateGerbong(st, n, k, t).value.store)
  {
    Wagons.CreateGerbongKeepsInvariant(st, n, k, t);
  }

  lemma UpdateGerbongKeepsInv(b: Build, st: Store, id: Id, n: Option<string>, t: Option<Id>)
    requires Inv(b, st)
    requires Wagons.UpdateGerbong(st, id, n, t).Ok?
    ensures Inv(b, Wagons.UpdateGerbong(st, id, n, t).value.store)
  {
    Wagons.UpdateGerbongKeepsInvariant(st, id, n, t);
  }

  lemma DeleteGerbongKeepsInv(b: Build, st: Store, id: Id)
    requires Inv(b, st)
    requires Wagons.DeleteGerbong(st, id).Ok?
    ensures Inv(b, Wagons.DeleteGerbong(st, id).value.store)
  {
    Wagons.DeleteGerbongKeepsInvariant(st, id);
  }

  lemma CreateJadwalKeepsInv(b: Build, st: Store, a: string, t: string, dep: int, arr: int, h: int, k: Id)
    requires Inv(b, st)
    requires Schedules.CreateJadwal(st, a, t, dep, arr, h, k).Ok?
    ensures Inv(b, Schedules.CreateJadwal(st, a, t, dep, arr, h, k).value.store)
  {
    var st' := Schedules.CreateJadwal(st, a, t, dep, arr, h, k).value.store;
    SchedulesOnly(b, st, st'.schedules, st'.nextId);
    assert st' == st.(schedules := st'.schedules, nextId := st'.nextId);
  }

  lemma UpdateJadwalKeepsInv(b: Build, st: Store, id: Id, c: Schedules.ScheduleChange)
    requires Inv(b, st)
    requires Schedules.UpdateJadwal(st, id, c).Ok?
    ensures Inv(b, Schedules.UpdateJadwal(st, id, c).value.store)
  {
    var st' := Schedules.UpdateJadwal(st, id, c).value.store;
    SchedulesOnly(b, st, st'.schedules, st.nextId);
    assert st' == st.(schedules := st'.schedules, nextId := st.nextId);
  }

  lemma DeleteJadwalKeepsInv(b: Build, st: Store, id: Id)
    requires Inv(b, st)
    requires Schedules.DeleteJadwal(st, id).Ok?
    ensures Inv(b, Schedules.DeleteJadwal(st, id).value.store)
  {
    var st' := Schedules.DeleteJadwal(st, id).value.store;
    SchedulesOnly(b, st, st'.schedules, st.nextId);
    assert st' == st.(schedules := st'.schedules, nextId := st.nextId);
  }

  lemma BuyTicketKeepsInv(b: Build, st: Store, caller: Claims, j: Id, ps: Option<seq<Tickets.Passenger>>, now: int)
    requires caller.role == Pelanggan && Inv(b, st)
    requires Tickets.CreateTicket(st, caller, j, ps, now).Ok?
    ensures Inv(b, Tickets.CreateTicket(st, caller, j, ps, now).value.store)
  {
    Tickets.PurchaseKeepsValid(st, caller, j, ps, now);
    Tickets.PurchaseKeepsNoDoubleBooking(st, caller, j, ps, now);
  }

  /** Registration and password changes keep the invariant. */
  lemma AccountStepKeepsInv(b: Build, st: Store, hash: string -> string, q: Request)
    requires Admitted(q) && Inv(b, st) && AccountAction(q.action)
    requires AccountStep(st, hash, q).Ok?
    ensures Inv(b, AccountStep(st, hash, q).value)
  {
    match q.action {
      case Register(u, p, nik, n, a, t) => RegisterKeepsInv(b, st, hash, u, p, nik, n, a, t);
      case RegisterPetugas(u, p, n, a, t) => RegisterPetugasKeepsInv(b, st, q.caller, hash, u, p, n, a, t);
      case UpdatePassword(o, n) => UpdatePasswordKeepsInv(b, st, q.caller, hash, o, n);
    }
  }

  /** The customer and staff administration requests keep the invariant. */
  lemma PeopleStepKeepsInv(b: Build, st: Store, q: Request)
    requires Admitted(q) && Inv(b, st) && PeopleAction(q.action)
    requires PeopleStep(st, q).Ok?
    ensures Inv(b, PeopleStep(st, q).value)
  {
    match q.action {
      case UpdatePelanggan(id, c) => UpdatePelangganKeepsInv(b, st, id, c);
      case DeletePelanggan(id) => DeletePelangganKeepsInv(b, st, id);
      case UpdatePetugas(id, c) => UpdatePetugasKeepsInv(b, st, id, c);
      case DeletePetugas(id) => DeletePetugasKeepsInv(b, st, q.caller, id);
    }
  }

  /** The train and wagon requests keep the invariant. */
  lemma TrainStepKeepsInv(b: Build, st: Store, q: Request)
    requires Admitted(q) && Inv(b, st) && TrainAction(q.action)
    requires TrainStep(b, st, q).Ok?
    ensures Inv(b, TrainStep(b, st, q).value)
  {
    match q.action {
      case CreateKereta(n, d, k) => CreateKeretaKeepsInv(b, st, n, d, k);
      case UpdateKereta(id, c) =>
        if b.Corrected? {
          UpdateKeretaCheckedKeepsInv(st, id, c);
        } else {
          UpdateKeretaKeepsInv(st, id, c);
        }
      case DeleteKereta(id) => DeleteKeretaKeepsInv(b, st, id);
      case CreateGerbong(n, k, t) => CreateGerbongKeepsInv(b, st, n, k, t);
      case UpdateGerbong(id, n, t) => UpdateGerbongKeepsInv(b, st, id, n, t);
      case DeleteGerbong(id) => DeleteGerbongKeepsInv(b, st, id);
    }
  }

  /** The schedule and purchase requests keep the invariant. */
  lemma ScheduleStepKeepsInv(b: Build, st: Store, q: Request)
    requires Admitted(q) && Inv(b, st) && ScheduleAction(q.action)
    requires ScheduleStep(st, q).Ok?
    ensures Inv(b, ScheduleStep(st, q).value)
  {
    match q.action {
      case CreateJadwal(a, t, dep, arr, h, k) => CreateJadwalKeepsInv(b, st, a, t, dep, arr, h, k);
      case UpdateJadwal(id, c) => UpdateJadwalKeepsInv(b, st, id, c);
      case DeleteJadwal(id) => DeleteJadwalKeepsInv(b, st, id);
    }
  }

  /** Every admitted request that is accepted keeps the invariant. */
  lemma StepKeepsInv(b: Build, st: Store, hash: string -> string, q: Request)
    requires Admitted(q) && Inv(b, st)
    requires Step(b, st, hash, q).Ok?
    ensures Inv(b, Step(b, st, hash, q).value)
  {
    if AccountAction(q.action) {
      AccountStepKeepsInv(b, st, hash, q);
    } else if PeopleAction(q.action) {
      PeopleStepKeepsInv(b, st, q);
    } else if TrainAction(q.action) {
      TrainStepKeepsInv(b, st, q);
    } else if ScheduleAction(q.action) {
      ScheduleStepKeepsInv(b, st, q);
    } else {
      BuyTicketKeepsInv(b, st, q.caller, q.action.jadwalId, q.action.penumpang, q.action.now);
    }
  }

  /** A request's effect: the new store when it is accepted, the old one
      when it is refused. */
  function Next(b: Build, st: Store, hash: string -> string, q: Request): (r: Store)
    requires Admitted(q)
    ensures Step(b, st, hash, q).Ok? ==> r == Step(b, st, hash, q).value
    ensures Step(b, st, hash, q).Err? ==> r == st
  {
    var o := Step(b, st, hash, q);
    if o.Ok? then o.value else st
  }

  lemma NextKeepsInv(b: Build, st: Store, hash: string -> string, q: Request)
    requires Admitted(q) && Inv(b, st)
    ensures Inv(b, Next(b, st, hash, q))
  {
    if Step(b, st, hash, q).Ok? {
      StepKeepsInv(b, st, hash, q);
    }
  }

  predicate AllAdmitted(qs: seq<Request>) {
    forall k | 0 <= k < |qs| :: Admitted(qs[k])
  }

  /** Serve the requests in order; a rejected request leaves the store. */
  function Run(b: Build, st: Store, hash: string -> string, qs: seq<Request>): Store
    requires AllAdmitted(qs)
    decreases |qs|
  {
    if qs == [] then st
    else
      Run(b, Next(b, st, hash, qs[0]), hash, qs[1..])
  }

  /** From a store satisfying the invariant, any sequence of admitted
      requests, interleaved however, reaches only stores satisfying it: in
      particular no seat is ever bound twice under one schedule. */
  lemma {:induction false} RunKeepsInv(b: Build, st: Store, hash: string -> string, qs: seq<Request>)
    requires AllAdmitted(qs) && Inv(b, st)
    ensures Inv(b, Run(b, st, hash, qs))
    decreases |qs|
  {
    if qs != [] {
      var st' := Next(b, st, hash, qs[0]);
      NextKeepsInv(b, st, hash, qs[0]);
      assert AllAdmitted(qs[1..]) by {
        forall k | 0 <= k < |qs| - 1 ensures Admitted(qs[1..][k]) {
          assert qs[1..][k] == qs[k + 1];
        }
      }
      RunKeepsInv(b, st', hash, qs[1..]);
      assert Run(b, st, hash, qs) == Run(b, st', hash, qs[1..]);
    }
  }

  /** The store before the first request. */
  function EmptyStore(): Store {
    Store([], [], [], [], [], [], [], [], [], 0)
  }

  /** The empty store satisfies the invariant, so every store the program
      as written reaches from it has unique keys and no seat bound twice
      under one schedule. */
  lemma EmptyStoreReachesOnlyValid(hash: string -> string, qs: seq<Request>)
    requires AllAdmitted(qs)
    ensures var st := Run(AsWritten, EmptyStore(), hash, qs);
      Valid(st) && NoDoubleBooking(st)
  {
    RunKeepsInv(AsWritten, EmptyStore(), hash, qs);
  }

  /** With the corrected `updateKereta`, every reachable store also keeps
      every train class in the enum. */
  lemma CorrectedReachesOnlyValidClasses(hash: string -> string, qs: seq<Request>)
    requires AllAdmitted(qs)
    ensures var st := Run(Corrected, EmptyStore(), hash, qs);
      Valid(st) && NoDoubleBooking(st) && Trains.ClassesValid(st)
  {
    RunKeepsInv(Corrected, EmptyStore(), hash, qs);
  }
}
