/** Customer administration (pelangganController): partial update of the
    contact fields and deletion together with the owning user. Both are
    behind the `isPetugas` gate. */
module Customers {
  import opened Common
  import opened Store
  import Accounts

  /** The contact fields an update may carry. */
  datatype ContactChange = ContactChange(nama: Option<string>, alamat: Option<string>, telp: Option<string>)

  predicate AnyTruthy(c: ContactChange) {
    Truthy(c.nama) || Truthy(c.alamat) || Truthy(c.telp)
  }

  function ApplyCustomer(p: Customer, c: ContactChange): (r: Customer)
    ensures r.id == p.id && r.nik == p.nik && r.userId == p.userId
  {
    p.(namaPenumpang := PickTruthy(c.nama, p.namaPenumpang),
       alamat := PickTruthy(c.alamat, p.alamat),
       telp := PickTruthy(c.telp, p.telp))
  }

  /** `updatePelanggan`: 404 for an unknown id, 400 when no field is
      truthy, otherwise only the truthy fields are written. */
  function UpdatePelanggan(st: Store, id: Id, c: ContactChange): (r: Outcome<Committed<Customer>>)
    ensures FindCustomer(st, id).None? <==> r == Err(404, "Pelanggan tidak ditemukan")
    ensures r == Err(400, "Tidak ada data yang diubah") <==> FindCustomer(st, id).Some? && !AnyTruthy(c)
    ensures r.Ok? <==> FindCustomer(st, id).Some? && AnyTruthy(c)
    ensures r.Ok? ==>
      var prev := FindCustomer(st, id).value;
      var p := r.value.reply;
      && p.id == id && p.nik == prev.nik && p.userId == prev.userId
      && (Truthy(c.nama) ==> p.namaPenumpang == c.nama.value)
      && (!Truthy(c.nama) ==> p.namaPenumpang == prev.namaPenumpang)
      && (Truthy(c.alamat) ==> p.alamat == c.alamat.value)
      && (!Truthy(c.alamat) ==> p.alamat == prev.alamat)
      && (Truthy(c.telp) ==> p.telp == c.telp.value)
      && (!Truthy(c.telp) ==> p.telp == prev.telp)
      && p in r.value.store.customers
      && |r.value.store.customers| == |st.customers|
      && (forall k | 0 <= k < |st.customers| && st.customers[k].id != id ::
            r.value.store.customers[k] == st.customers[k])
      && r.value.store.(customers := st.customers) == st
  {
    match IndexOf(st.customers, (p: Customer) => p.id == id) {
      case None => Err(404, "Pelanggan tidak ditemukan")
      case Some(i) =>
        if !AnyTruthy(c) then Err(400, "Tidak ada data yang diubah")
        else
          var p := ApplyCustomer(st.customers[i], c);
          assert st.customers[i := p][i] == p;
          Ok(Committed(st.(customers := st.customers[i := p]), p))
    }
  }

  /** Sending the same update twice changes nothing the first did not. */
  lemma UpdatePelangganIdempotent(st: Store, id: Id, c: ContactChange)
    requires UpdatePelanggan(st, id, c).Ok?
    ensures var st' := UpdatePelanggan(st, id, c).value.store;
      UpdatePelanggan(st', id, c).Ok? && UpdatePelanggan(st', id, c).value.store == st'
  {
    var st' := UpdatePelanggan(st, id, c).value.store;
    var i := IndexOf(st.customers, (p: Customer) => p.id == id).value;
    assert st'.customers == st.customers[i := st'.customers[i]];
    IndexOfAfterUpdate(st.customers, i, st'.customers[i], (p: Customer) => p.id == id);
  }

  /** The customer has at least one booking. */
  predicate HasBooking(st: Store, id: Id) {
    exists b | b in st.bookings :: b.pelangganId == id
  }

  /** The 400 answer to deleting a customer who holds a ticket. */
  const HasTicketsMessage := "Pelanggan memiliki tiket aktif dan tidak dapat dihapus"

  /** `deletePelanggan`: refused while the customer has a booking; the
      customer row and its user row go together. A missing user row makes
      the second delete throw, which rolls back the first. */
  function DeletePelanggan(st: Store, id: Id): (r: Outcome<Committed<()>>)
    ensures FindCustomer(st, id).None? <==> r == Err(404, "Pelanggan tidak ditemukan")
    ensures r == Err(400, HasTicketsMessage) <==>
      FindCustomer(st, id).Some? && HasBooking(st, id)
    ensures r == Err(500, "Gagal menghapus pelanggan") <==>
      FindCustomer(st, id).Some? && !HasBooking(st, id) && FindUser(st, FindCustomer(st, id).value.userId).None?
    ensures r.Ok? <==>
      FindCustomer(st, id).Some? && !HasBooking(st, id) && FindUser(st, FindCustomer(st, id).value.userId).Some?
    ensures r.Ok? ==>
      var p := FindCustomer(st, id).value;
      var u := FindUser(st, p.userId).value;
      && multiset(r.value.store.customers) == multiset(st.customers) - multiset{p}
      && multiset(r.value.store.users) == multiset(st.users) - multiset{u}
      && r.value.store.(customers := st.customers, users := st.users) == st
  {
    match IndexOf(st.customers, (p: Customer) => p.id == id) {
      case None => Err(404, "Pelanggan tidak ditemukan")
      case Some(i) =>
        if HasBooking(st, id) then Err(400, HasTicketsMessage)
        else
          match IndexOf(st.users, (u: User) => u.id == st.customers[i].userId) {
            case None => Err(500, "Gagal menghapus pelanggan")
            case Some(k) =>
              RemoveOne(st.customers, i);
              RemoveOne(st.users, k);
              Ok(Committed(st.(customers := RemoveAt(st.customers, i), users := RemoveAt(st.users, k)), ()))
          }
    }
  }

  lemma DeletePelangganKeepsInvariant(st: Store, id: Id)
    requires Valid(st) && NoDoubleBooking(st)
    requires DeletePelanggan(st, id).Ok?
    ensures Valid(DeletePelanggan(st, id).value.store)
    ensures NoDoubleBooking(DeletePelanggan(st, id).value.store)
  {
    var st' := DeletePelanggan(st, id).value.store;
    var p := FindCustomer(st, id).value;
    var k := IndexOf(st.users, (u: User) => u.id == p.userId).value;
    RemoveUserKeepsUnique(st.users, k);
    assert forall d | d in st'.details :: ScheduleOf(st', d) == ScheduleOf(st, d);
  }

  /** Once deleted, the customer's account can no longer log in. */
  lemma DeletedCustomerCannotLogin(st: Store, id: Id, hash: string -> string, password: string)
    requires Valid(st)
    requires DeletePelanggan(st, id).Ok?
    ensures var name := FindUser(st, FindCustomer(st, id).value.userId).value.username;
      Accounts.Login(DeletePelanggan(st, id).value.store, hash, name, password) ==
        Err(404, "Username atau password salah")
  {
    var st' := DeletePelanggan(st, id).value.store;
    var p := FindCustomer(st, id).value;
    var k := IndexOf(st.users, (u: User) => u.id == p.userId).value;
    RemoveUserKeepsUnique(st.users, k);
  }
}
