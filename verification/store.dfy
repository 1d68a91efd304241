/** The relational state every controller reads and writes, as immutable
    values: one row sequence per database table, in the order the ORM
    returns rows, plus the supply of fresh ids that stands for `uuidv4()`. */
module Store {
  import opened Common

  /** A primary key. Keys are handed out by `Store.nextId`, so a key never
      collides with one already in use (what `uuidv4()` is trusted to do). */
  type Id = nat

  /** A role string other than the two the gates admit. */
  type OtherRoleName = s: string | s != "pelanggan" && s != "petugas" witness "admin"

  /** The `role` column of `User`, and the `role` claim of a token: the
      strings "pelanggan" and "petugas", or any other string. */
  datatype Role = Pelanggan | Petugas | OtherRole(name: OtherRoleName)

  datatype User = User(id: Id, username: string, password: string, role: Role)

  /** A customer profile (`Pelanggan`), owned by one `User`. */
  datatype Customer = Customer(id: Id, nik: string, namaPenumpang: string,
                               alamat: string, telp: string, userId: Id)

  /** A staff profile (`Petugas`), owned by one `User`. */
  datatype Staff = Staff(id: Id, namaPetugas: string, alamat: string, telp: string, userId: Id)

  /** A train (`Kereta`). */
  datatype Train = Train(id: Id, namaKereta: string, deskripsi: string, kelas: string)

  /** A wagon (`Gerbong`) of a train, with its seat quota. */
  datatype Wagon = Wagon(id: Id, namaGerbong: string, kuota: int, keretaId: Id)

  /** A seat (`Kursi`) of a wagon. */
  datatype Seat = Seat(id: Id, noKursi: int, gerbongId: Id)

  /** A departure (`Jadwal`) of a train; timestamps are integers. */
  datatype Schedule = Schedule(id: Id, asalKeberangkatan: string, tujuanKeberangkatan: string,
                               tanggalKeberangkatan: int, tanggalKedatangan: int,
                               harga: int, keretaId: Id)

  /** A ticket purchase (`PembelianTiket`) by a customer for one schedule. */
  datatype Booking = Booking(id: Id, pelangganId: Id, jadwalId: Id, createdAt: int)

  /** One passenger bound to one seat (`DetailPembelianTiket`). */
  datatype Detail = Detail(id: Id, nik: string, namaPenumpang: string,
                           pembelianTiketId: Id, kursiId: Id)

  datatype Store = Store(
    users: seq<User>,
    customers: seq<Customer>,
    staff: seq<Staff>,
    trains: seq<Train>,
    wagons: seq<Wagon>,
    seats: seq<Seat>,
    schedules: seq<Schedule>,
    bookings: seq<Booking>,
    details: seq<Detail>,
    nextId: nat)

  /** The claims a signed token carries: `{ id, role, username }`. */
  datatype Claims = Claims(id: Id, role: Role, username: string)

  /** A handler's successful write: the store after the (single, atomic)
      transaction and what the handler answers. A handler that answers an
      error returns no store at all, so an error never writes. */
  datatype Committed<+T> = Committed(store: Store, reply: T)

  // Lookups by primary key or by a column the schema declares unique.

  function FindUser(st: Store, id: Id): Option<User> {
    Find(st.users, (u: User) => u.id == id)
  }

  function FindUserByName(st: Store, name: string): Option<User> {
    Find(st.users, (u: User) => u.username == name)
  }

  function FindCustomer(st: Store, id: Id): Option<Customer> {
    Find(st.customers, (c: Customer) => c.id == id)
  }

  function FindCustomerByUser(st: Store, userId: Id): Option<Customer> {
    Find(st.customers, (c: Customer) => c.userId == userId)
  }

  function FindCustomerByNik(st: Store, nik: string): Option<Customer> {
    Find(st.customers, (c: Customer) => c.nik == nik)
  }

  function FindStaff(st: Store, id: Id): Option<Staff> {
    Find(st.staff, (s: Staff) => s.id == id)
  }

  function FindStaffByUser(st: Store, userId: Id): Option<Staff> {
    Find(st.staff, (s: Staff) => s.userId == userId)
  }

  function FindTrain(st: Store, id: Id): Option<Train> {
    Find(st.trains, (t: Train) => t.id == id)
  }

  function FindWagon(st: Store, id: Id): Option<Wagon> {
    Find(st.wagons, (w: Wagon) => w.id == id)
  }

  function FindSeat(st: Store, id: Id): Option<Seat> {
    Find(st.seats, (s: Seat) => s.id == id)
  }

  function FindSchedule(st: Store, id: Id): Option<Schedule> {
    Find(st.schedules, (j: Schedule) => j.id == id)
  }

  function FindBooking(st: Store, id: Id): Option<Booking> {
    Find(st.bookings, (b: Booking) => b.id == id)
  }

  /** Drop the row at index `i` (a `delete` by primary key). */
  function RemoveAt<T>(s: seq<T>, i: nat): (r: seq<T>)
    requires i < |s|
    ensures |r| == |s| - 1
    ensures forall x | x in r :: x in s
    ensures forall k | 0 <= k < i :: r[k] == s[k]
    ensures forall k | i < k < |s| :: r[k - 1] == s[k]
  {
    s[..i] + s[i + 1..]
  }

  /** Every row other than the removed one survives the removal. */
  lemma RemoveAtKeepsOthers<T>(s: seq<T>, i: nat)
    requires i < |s|
    ensures forall x | x in s && x != s[i] :: x in RemoveAt(s, i)
  {
    forall x | x in s && x != s[i] ensures x in RemoveAt(s, i) {
      var k :| 0 <= k < |s| && s[k] == x;
      if k < i {
        assert RemoveAt(s, i)[k] == x;
      } else {
        assert RemoveAt(s, i)[k - 1] == x;
      }
    }
  }

  /** The schedule a booking detail is for, through its booking. */
  function ScheduleOf(st: Store, d: Detail): Option<Id> {
    match FindBooking(st, d.pembelianTiketId) {
      case None => None
      case Some(b) => Some(b.jadwalId)
    }
  }

  /** The integrity property of seat allocation: within one schedule, no
      seat is bound to two booking details. */
  predicate NoDoubleBooking(st: Store) {
    forall i, j ::
      (0 <= i < j < |st.details| && ScheduleOf(st, st.details[i]).Some? &&
       ScheduleOf(st, st.details[i]) == ScheduleOf(st, st.details[j]))
      ==> st.details[i].kursiId != st.details[j].kursiId
  }

  predicate UniqueWagonIds(ws: seq<Wagon>) {
    forall i, j :: 0 <= i < j < |ws| ==> ws[i].id != ws[j].id
  }

  predicate UniqueSeatIds(ss: seq<Seat>) {
    forall i, j :: 0 <= i < j < |ss| ==> ss[i].id != ss[j].id
  }

  predicate UniqueUsernames(us: seq<User>) {
    forall i, j :: 0 <= i < j < |us| ==> us[i].username != us[j].username
  }

  /** What the database's key constraints and the id supply guarantee of
      every reachable state: primary keys of wagons and seats are unique,
      usernames are unique, and the keys of users, wagons, seats, bookings
      and details, with the user, wagon, booking and seat keys that rows
      refer to, lie below `nextId`. */
  predicate Valid(st: Store) {
    && (forall u | u in st.users :: u.id < st.nextId)
    && (forall c | c in st.customers :: c.userId < st.nextId)
    && (forall p | p in st.staff :: p.userId < st.nextId)
    && (forall w | w in st.wagons :: w.id < st.nextId)
    && (forall s | s in st.seats :: s.id < st.nextId && s.gerbongId < st.nextId)
    && (forall b | b in st.bookings :: b.id < st.nextId)
    && (forall d | d in st.details :: d.pembelianTiketId < st.nextId && d.kursiId < st.nextId)
    && UniqueWagonIds(st.wagons)
    && UniqueSeatIds(st.seats)
    && UniqueUsernames(st.users)
  }

  /** Two seat rows with the same primary key are the same row. */
  lemma SeatKeyDeterminesRow(ss: seq<Seat>, x: Seat, y: Seat)
    requires UniqueSeatIds(ss)
    requires x in ss && y in ss
    ensures x.id == y.id ==> x == y
  {
    var a :| 0 <= a < |ss| && ss[a] == x;
    var b :| 0 <= b < |ss| && ss[b] == y;
  }

  /** Appending a booking row leaves every earlier lookup as it was. */
  lemma FindBookingAppend(st: Store, b: Booking, id: Id)
    ensures FindBooking(st.(bookings := st.bookings + [b]), id) ==
      (if FindBooking(st, id).Some? then FindBooking(st, id) else if b.id == id then Some(b) else None)
  {
    FindAppend(st.bookings, [b], (x: Booking) => x.id == id);
  }

  /** Dropping a user row keeps usernames unique, and with unique names
      the dropped row's username is gone. */
  lemma RemoveUserKeepsUnique(us: seq<User>, i: nat)
    requires i < |us| && UniqueUsernames(us)
    ensures UniqueUsernames(RemoveAt(us, i))
    ensures forall x | x in RemoveAt(us, i) :: x.username != us[i].username
  {
    var r := RemoveAt(us, i);
    forall a, b | 0 <= a < b < |r| ensures r[a].username != r[b].username {
      var a' := if a < i then a else a + 1;
      var b' := if b < i then b else b + 1;
      assert r[a] == us[a'] && r[b] == us[b'];
    }
    forall x | x in r ensures x.username != us[i].username {
      var k :| 0 <= k < |r| && r[k] == x;
      var k' := if k < i then k else k + 1;
      assert x == us[k'];
    }
  }

  lemma RemoveWagonKeepsUnique(ws: seq<Wagon>, i: nat)
    requires i < |ws| && UniqueWagonIds(ws)
    ensures UniqueWagonIds(RemoveAt(ws, i))
  {
    var r := RemoveAt(ws, i);
    forall a, b | 0 <= a < b < |r| ensures r[a].id != r[b].id {
      var a' := if a < i then a else a + 1;
      var b' := if b < i then b else b + 1;
      assert r[a] == ws[a'] && r[b] == ws[b'];
    }
  }

  /** Narrowing the wagon table to some of its rows, ids still distinct,
      keeps the store valid and every booking as it was. */
  lemma WagonSubsetKeepsInvariant(st: Store, ws: seq<Wagon>)
    requires Valid(st) && NoDoubleBooking(st)
    requires UniqueWagonIds(ws) && forall w | w in ws :: w in st.wagons
    ensures Valid(st.(wagons := ws)) && NoDoubleBooking(st.(wagons := ws))
  {
    var st' := st.(wagons := ws);
    assert forall d | d in st'.details :: ScheduleOf(st', d) == ScheduleOf(st, d);
  }
}
