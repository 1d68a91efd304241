/** Staff administration (petugasController): partial update of the
    contact fields and deletion together with the owning user, never of
    the caller's own account. Both are behind the `isPetugas` gate. */
module StaffAdmin {
  import opened Common
  import opened Store
  import Customers

  function ApplyStaff(p: Staff, c: Customers.ContactChange): (r: Staff)
    ensures r.id == p.id && r.userId == p.userId
  {
    p.(namaPetugas := PickTruthy(c.nama, p.namaPetugas),
       alamat := PickTruthy(c.alamat, p.alamat),
       telp := PickTruthy(c.telp, p.telp))
  }

  /** `updatePetugas`: 404 for an unknown id, 400 when no field is truthy,
      otherwise only the truthy fields are written. */
  function UpdatePetugas(st: Store, id: Id, c: Customers.ContactChange): (r: Outcome<Committed<Staff>>)
    ensures FindStaff(st, id).None? <==> r == Err(404, "Petugas tidak ditemukan")
    ensures r == Err(400, "Tidak ada data yang diubah") <==>
      FindStaff(st, id).Some? && !Customers.AnyTruthy(c)
    ensures r.Ok? <==> FindStaff(st, id).Some? && Customers.AnyTruthy(c)
    ensures r.Ok? ==>
      var prev := FindStaff(st, id).value;
      var p := r.value.reply;
      && p.id == id && p.userId == prev.userId
      && (Truthy(c.nama) ==> p.namaPetugas == c.nama.value)
      && (!Truthy(c.nama) ==> p.namaPetugas == prev.namaPetugas)
      && (Truthy(c.alamat) ==> p.alamat == c.alamat.value)
      && (!Truthy(c.alamat) ==> p.alamat == prev.alamat)
      && (Truthy(c.telp) ==> p.telp == c.telp.value)
      && (!Truthy(c.telp) ==> p.telp == prev.telp)
      && p in r.value.store.staff
      && |r.value.store.staff| == |st.staff|
      && (forall k | 0 <= k < |st.staff| && st.staff[k].id != id :: r.value.store.staff[k] == st.staff[k])
      && r.value.store.(staff := st.staff) == st
  {
    match IndexOf(st.staff, (p: Staff) => p.id == id) {
      case None => Err(404, "Petugas tidak ditemukan")
      case Some(i) =>
        if !Customers.AnyTruthy(c) then Err(400, "Tidak ada data yang diubah")
        else
          var p := ApplyStaff(st.staff[i], c);
          assert st.staff[i := p][i] == p;
          Ok(Committed(st.(staff := st.staff[i := p]), p))
    }
  }

  /** Sending the same update twice changes nothing the first did not. */
  lemma UpdatePetugasIdempotent(st: Store, id: Id, c: Customers.ContactChange)
    requires UpdatePetugas(st, id, c).Ok?
    ensures var st' := UpdatePetugas(st, id, c).value.store;
      UpdatePetugas(st', id, c).Ok? && UpdatePetugas(st', id, c).value.store == st'
  {
    var st' := UpdatePetugas(st, id, c).value.store;
    var i := IndexOf(st.staff, (p: Staff) => p.id == id).value;
    assert st'.staff == st.staff[i := st'.staff[i]];
    IndexOfAfterUpdate(st.staff, i, st'.staff[i], (p: Staff) => p.id == id);
  }

  /** `deletePetugas`, reached only by a petugas caller: the staff row must
      exist and must not be the caller's own; it goes together with its
      user row, and a missing user row rolls both back. */
  function DeletePetugas(st: Store, caller: Claims, id: Id): (r: Outcome<Committed<()>>)
    requires caller.role == Petugas
    ensures FindStaff(st, id).None? <==> r == Err(404, "Petugas tidak ditemukan")
    ensures r == Err(400, "Anda tidak dapat menghapus akun sendiri") <==>
      FindStaff(st, id).Some? && FindStaff(st, id).value.userId == caller.id
    ensures r == Err(500, "Gagal menghapus petugas") <==>
      && FindStaff(st, id).Some? && FindStaff(st, id).value.userId != caller.id
      && FindUser(st, FindStaff(st, id).value.userId).None?
    ensures r.Ok? <==>
      && FindStaff(st, id).Some? && FindStaff(st, id).value.userId != caller.id
      && FindUser(st, FindStaff(st, id).value.userId).Some?
    ensures r.Ok? ==>
      var p := FindStaff(st, id).value;
      var u := FindUser(st, p.userId).value;
      && u.id != caller.id
      && multiset(r.value.store.staff) == multiset(st.staff) - multiset{p}
      && multiset(r.value.store.users) == multiset(st.users) - multiset{u}
      && r.value.store.(staff := st.staff, users := st.users) == st
  {
    match IndexOf(st.staff, (p: Staff) => p.id == id) {
      case None => Err(404, "Petugas tidak ditemukan")
      case Some(i) =>
        assert FindStaff(st, id) == Some(st.staff[i]);
        if st.staff[i].userId == caller.id then Err(400, "Anda tidak dapat menghapus akun sendiri")
        else
          match IndexOf(st.users, (u: User) => u.id == st.staff[i].userId) {
            case None =>
              assert FindUser(st, st.staff[i].userId).None?;
              Err(500, "Gagal menghapus petugas")
            case Some(k) =>
              assert FindUser(st, st.staff[i].userId) == Some(st.users[k]);
              RemoveOne(st.staff, i);
              RemoveOne(st.users, k);
              Ok(Committed(st.(staff := RemoveAt(st.staff, i), users := RemoveAt(st.users, k)), ()))
          }
    }
  }

  /** Whatever staff row is deleted, the caller's own user rows remain. */
  lemma CallerSurvivesDeletePetugas(st: Store, caller: Claims, id: Id, u: User)
    requires caller.role == Petugas
    requires DeletePetugas(st, caller, id).Ok?
    requires u in st.users && u.id == caller.id
    ensures u in DeletePetugas(st, caller, id).value.store.users
  {
    var removed := FindUser(st, FindStaff(st, id).value.userId).value;
    var users' := DeletePetugas(st, caller, id).value.store.users;
    assert u != removed;
    assert u in multiset(st.users);
    assert u in multiset(users');
  }

  lemma DeletePetugasKeepsInvariant(st: Store, caller: Claims, id: Id)
    requires caller.role == Petugas
    requires Valid(st) && NoDoubleBooking(st)
    requires DeletePetugas(st, caller, id).Ok?
    ensures Valid(DeletePetugas(st, caller, id).value.store)
    ensures NoDoubleBooking(DeletePetugas(st, caller, id).value.store)
  {
    var st' := DeletePetugas(st, caller, id).value.store;
    var p := FindStaff(st, id).value;
    var k := IndexOf(st.users, (u: User) => u.id == p.userId).value;
    RemoveUserKeepsUnique(st.users, k);
    assert forall d | d in st'.details :: ScheduleOf(st', d) == ScheduleOf(st, d);
  }
}
