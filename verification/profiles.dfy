/** The signed-in user's own account (userController): reading the profile
    and changing the password. Both need only a valid token. */
module Profiles {
  import opened Common
  import opened Store
  import Accounts

  /** The role-specific profile, under the key named by the role. */
  datatype RoleData =
    | CustomerData(pelanggan: Option<Customer>)
    | StaffData(petugas: Option<Staff>)
    | NoRoleData

  datatype ProfileView = ProfileView(user: Accounts.UserView, data: RoleData)

  /** `getProfile`: the user row by the token's id, then the profile row of
      the table its role names. */
  function GetProfile(st: Store, caller: Claims): (r: Outcome<ProfileView>)
    ensures FindUser(st, caller.id).None? <==> r == Err(404, "User tidak ditemukan")
    ensures r.Ok? <==> FindUser(st, caller.id).Some?
    ensures r.Ok? ==>
      var u := FindUser(st, caller.id).value;
      && r.value.user == Accounts.ViewUser(u)
      && (u.role == Pelanggan ==> r.value.data == CustomerData(FindCustomerByUser(st, caller.id)))
      && (u.role == Petugas ==> r.value.data == StaffData(FindStaffByUser(st, caller.id)))
      && (u.role.OtherRole? ==> r.value.data == NoRoleData)
  {
    match FindUser(st, caller.id) {
      case None => Err(404, "User tidak ditemukan")
      case Some(u) =>
        var data := match u.role {
          case Pelanggan => CustomerData(FindCustomerByUser(st, caller.id))
          case Petugas => StaffData(FindStaffByUser(st, caller.id))
          case OtherRole(_) => NoRoleData
        };
        Ok(ProfileView(Accounts.ViewUser(u), data))
    }
  }

  /** The profile a user sees right after registering is the customer row
      registration wrote. */
  lemma ProfileAfterRegister(st: Store, hash: string -> string, username: string, password: string,
                             nik: string, namaPenumpang: string, alamat: string, telp: string)
    requires Valid(st)
    requires Accounts.Register(st, hash, username, password, nik, namaPenumpang, alamat, telp).Ok?
    ensures var c := Accounts.Register(st, hash, username, password, nik, namaPenumpang, alamat, telp).value;
      var p := GetProfile(c.store, c.reply.token);
      && p.Ok?
      && p.value.data == CustomerData(Some(Customer(c.reply.pelanggan.id, nik, namaPenumpang, alamat, telp,
                                                    c.reply.user.id)))
  {
    var c := Accounts.Register(st, hash, username, password, nik, namaPenumpang, alamat, telp).value;
    var st' := c.store;
    var u := st'.users[|st.users|];
    FindAppend(st.users, [u], (x: User) => x.id == u.id);
    assert st'.users == st.users + [u];
    var cu := st'.customers[|st.customers|];
    FindAppend(st.customers, [cu], (x: Customer) => x.userId == u.id);
    assert st'.customers == st.customers + [cu];
  }

  /** `updatePassword`: the old password must match the stored hash; then
      only that user's password changes, to the new password's hash. */
  function UpdatePassword(st: Store, caller: Claims, hash: string -> string,
                          oldPassword: string, newPassword: string): (r: Outcome<Committed<()>>)
    ensures FindUser(st, caller.id).None? <==> r == Err(404, "User tidak ditemukan")
    ensures r == Err(401, "Password lama tidak sesuai") <==>
      FindUser(st, caller.id).Some? && !Accounts.Matches(hash, oldPassword, FindUser(st, caller.id).value.password)
    ensures r.Ok? <==>
      FindUser(st, caller.id).Some? && Accounts.Matches(hash, oldPassword, FindUser(st, caller.id).value.password)
    ensures r.Ok? ==>
      var u := FindUser(st, caller.id).value;
      && u.(password := hash(newPassword)) in r.value.store.users
      && |r.value.store.users| == |st.users|
      && (forall k | 0 <= k < |st.users| && st.users[k].id != caller.id ::
            r.value.store.users[k] == st.users[k])
      && r.value.store.(users := st.users) == st
  {
    match IndexOf(st.users, (u: User) => u.id == caller.id) {
      case None => Err(404, "User tidak ditemukan")
      case Some(i) =>
        var u := st.users[i];
        if !Accounts.Matches(hash, oldPassword, u.password) then Err(401, "Password lama tidak sesuai")
        else
          var u' := u.(password := hash(newPassword));
          assert st.users[i := u'][i] == u';
          Ok(Committed(st.(users := st.users[i := u']), ()))
    }
  }

  /** After a password change the new password logs in, and an old one
      whose hash differs from the new one's no longer does. */
  lemma UpdatePasswordThenLogin(st: Store, caller: Claims, hash: string -> string,
                                oldPassword: string, newPassword: string, other: string)
    requires Valid(st)
    requires UpdatePassword(st, caller, hash, oldPassword, newPassword).Ok?
    requires hash(other) != hash(newPassword)
    ensures var st' := UpdatePassword(st, caller, hash, oldPassword, newPassword).value.store;
      var name := FindUser(st, caller.id).value.username;
      && Accounts.Login(st', hash, name, newPassword).Ok?
      && Accounts.Login(st', hash, name, newPassword).value.token.id == caller.id
      && Accounts.Login(st', hash, name, other) == Err(401, "Username atau password salah")
  {
    var st' := UpdatePassword(st, caller, hash, oldPassword, newPassword).value.store;
    var i := IndexOf(st.users, (u: User) => u.id == caller.id).value;
    var u := st.users[i];
    assert st'.users == st.users[i := u.(password := hash(newPassword))];
    var byName := (x: User) => x.username == u.username;
    assert IndexOf(st.users, byName) == Some(i) by {
      assert forall k | 0 <= k < |st.users| && k != i :: st.users[k].username != u.username;
    }
    IndexOfAfterUpdate(st.users, i, st'.users[i], byName);
  }
}
