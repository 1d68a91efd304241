/** Accounts (authController): customer self-registration, staff
    registration by a staff member, and login. The password hash is the
    parameter `hash`; checking a password against a stored hash is
    `Matches`, which holds exactly when the stored string is the
    password's hash. So two facts are trusted of the hashing library: a
    password matches its own hash (`MatchesOwnHash`), and it matches no
    other stored string. A signed token is represented by the claims it
    carries. */
module Accounts {
  import opened Common
  import opened Store

  /** `bcrypt.compare(password, stored)`. */
  predicate Matches(hash: string -> string, password: string, stored: string) {
    hash(password) == stored
  }

  lemma MatchesOwnHash(hash: string -> string, password: string)
    ensures Matches(hash, password, hash(password))
  {
  }

  /** A user row as answered to the client: never the password. */
  datatype UserView = UserView(id: Id, username: string, role: Role)

  function ViewUser(u: User): (v: UserView)
    ensures v.id == u.id && v.username == u.username && v.role == u.role
  {
    UserView(u.id, u.username, u.role)
  }

  datatype CustomerBrief = CustomerBrief(id: Id, namaPenumpang: string, nik: string)
  datatype StaffBrief = StaffBrief(id: Id, namaPetugas: string)

  datatype Registered = Registered(user: UserView, pelanggan: CustomerBrief, token: Claims)

  /** `register`: the username must be free, then the NIK; the user (role
      pelanggan) and its customer row are written together. */
  function Register(st: Store, hash: string -> string, username: string, password: string,
                    nik: string, namaPenumpang: string, alamat: string, telp: string)
    : (r: Outcome<Committed<Registered>>)
    ensures FindUserByName(st, username).Some? <==> r == Err(400, "Username sudah terdaftar")
    ensures r == Err(400, "NIK sudah terdaftar") <==>
      FindUserByName(st, username).None? && FindCustomerByNik(st, nik).Some?
    ensures r.Ok? <==> FindUserByName(st, username).None? && FindCustomerByNik(st, nik).None?
    ensures r.Ok? ==>
      var st' := r.value.store;
      var u := User(st.nextId, username, hash(password), Pelanggan);
      var c := Customer(st.nextId + 1, nik, namaPenumpang, alamat, telp, u.id);
      && st'.users == st.users + [u]
      && st'.customers == st.customers + [c]
      && st'.(users := st.users, customers := st.customers, nextId := st.nextId) == st
      && st'.nextId > c.id
      && r.value.reply == Registered(ViewUser(u), CustomerBrief(c.id, namaPenumpang, nik),
                                     Claims(u.id, Pelanggan, username))
  {
    if FindUserByName(st, username).Some? then Err(400, "Username sudah terdaftar")
    else if FindCustomerByNik(st, nik).Some? then Err(400, "NIK sudah terdaftar")
    else
      var u := User(st.nextId, username, hash(password), Pelanggan);
      var c := Customer(st.nextId + 1, nik, namaPenumpang, alamat, telp, u.id);
      var st' := st.(users := st.users + [u], customers := st.customers + [c], nextId := st.nextId + 2);
      Ok(Committed(st', Registered(ViewUser(u), CustomerBrief(c.id, namaPenumpang, nik),
                                   Claims(u.id, Pelanggan, username))))
  }

  /** A new user row with a free username keeps usernames unique. */
  lemma AppendUserKeepsUnique(us: seq<User>, u: User)
    requires UniqueUsernames(us)
    requires forall x | x in us :: x.username != u.username
    ensures UniqueUsernames(us + [u])
  {
    forall i, j | 0 <= i < j < |us + [u]|
      ensures (us + [u])[i].username != (us + [u])[j].username
    {
      if j == |us| {
        assert (us + [u])[i] in us;
      }
    }
  }

  lemma RegisterKeepsInvariant(st: Store, hash: string -> string, username: string, password: string,
                               nik: string, namaPenumpang: string, alamat: string, telp: string)
    requires Valid(st) && NoDoubleBooking(st)
    requires Register(st, hash, username, password, nik, namaPenumpang, alamat, telp).Ok?
    ensures Valid(Register(st, hash, username, password, nik, namaPenumpang, alamat, telp).value.store)
    ensures NoDoubleBooking(Register(st, hash, username, password, nik, namaPenumpang, alamat, telp).value.store)
  {
    var st' := Register(st, hash, username, password, nik, namaPenumpang, alamat, telp).value.store;
    AppendUserKeepsUnique(st.users, st'.users[|st.users|]);
    assert st'.users == st.users + [st'.users[|st.users|]];
    assert forall d | d in st'.details :: ScheduleOf(st', d) == ScheduleOf(st, d);
  }

  datatype StaffRegistered = StaffRegistered(user: UserView, petugas: StaffBrief)

  /** `registerPetugas`, reached only by a petugas caller: the username
      must be free; the user (role petugas) and its staff row are written
      together. No token is issued. */
  function RegisterPetugas(st: Store, caller: Claims, hash: string -> string, username: string,
                           password: string, namaPetugas: string, alamat: string, telp: string)
    : (r: Outcome<Committed<StaffRegistered>>)
    requires caller.role == Petugas
    ensures FindUserByName(st, username).Some? <==> r.Err?
    ensures r.Err? ==> r == Err(400, "Username sudah terdaftar")
    ensures r.Ok? ==>
      var st' := r.value.store;
      var u := User(st.nextId, username, hash(password), Petugas);
      var p := Staff(st.nextId + 1, namaPetugas, alamat, telp, u.id);
      && st'.users == st.users + [u]
      && st'.staff == st.staff + [p]
      && st'.(users := st.users, staff := st.staff, nextId := st.nextId) == st
      && st'.nextId > p.id
      && r.value.reply == StaffRegistered(ViewUser(u), StaffBrief(p.id, namaPetugas))
  {
    if FindUserByName(st, username).Some? then Err(400, "Username sudah terdaftar")
    else
      var u := User(st.nextId, username, hash(password), Petugas);
      var p := Staff(st.nextId + 1, namaPetugas, alamat, telp, u.id);
      var st' := st.(users := st.users + [u], staff := st.staff + [p], nextId := st.nextId + 2);
      Ok(Committed(st', StaffRegistered(ViewUser(u), StaffBrief(p.id, namaPetugas))))
  }

  lemma RegisterPetugasKeepsInvariant(st: Store, caller: Claims, hash: string -> string, username: string,
                                      password: string, namaPetugas: string, alamat: string, telp: string)
    requires caller.role == Petugas
    requires Valid(st) && NoDoubleBooking(st)
    requires RegisterPetugas(st, caller, hash, username, password, namaPetugas, alamat, telp).Ok?
    ensures Valid(RegisterPetugas(st, caller, hash, username, password, namaPetugas, alamat, telp).value.store)
    ensures NoDoubleBooking(RegisterPetugas(st, caller, hash, username, password, namaPetugas, alamat, telp).value.store)
  {
    var st' := RegisterPetugas(st, caller, hash, username, password, namaPetugas, alamat, telp).value.store;
    AppendUserKeepsUnique(st.users, st'.users[|st.users|]);
    assert st'.users == st.users + [st'.users[|st.users|]];
    assert forall d | d in st'.details :: ScheduleOf(st', d) == ScheduleOf(st, d);
  }

  /** The role-specific part of a login answer, under the key named by the
      role. */
  datatype Profile =
    | AsPelanggan(pelanggan: Option<CustomerBrief>)
    | AsPetugas(petugas: Option<StaffBrief>)
    | NoProfile

  datatype LoggedIn = LoggedIn(user: UserView, profile: Profile, token: Claims)

  function LoginProfile(st: Store, u: User): (p: Profile)
    ensures u.role == Pelanggan <==> p.AsPelanggan?
    ensures u.role == Petugas <==> p.AsPetugas?
  {
    match u.role {
      case Pelanggan =>
        AsPelanggan(match FindCustomerByUser(st, u.id) {
          case None => None
          case Some(c) => Some(CustomerBrief(c.id, c.namaPenumpang, c.nik))
        })
      case Petugas =>
        AsPetugas(match FindStaffByUser(st, u.id) {
          case None => None
          case Some(p) => Some(StaffBrief(p.id, p.namaPetugas))
        })
      case OtherRole(_) => NoProfile
    }
  }

  /** `login`: an unknown username and a wrong password fail alike in
      wording, apart only in status. */
  function Login(st: Store, hash: string -> string, username: string, password: string)
    : (r: Outcome<LoggedIn>)
    ensures FindUserByName(st, username).None? <==> r == Err(404, "Username atau password salah")
    ensures r == Err(401, "Username atau password salah") <==>
      FindUserByName(st, username).Some? &&
      !Matches(hash, password, FindUserByName(st, username).value.password)
    ensures r.Err? ==> r.msg == "Username atau password salah"
    ensures r.Ok? <==>
      FindUserByName(st, username).Some? && Matches(hash, password, FindUserByName(st, username).value.password)
    ensures r.Ok? ==>
      var u := FindUserByName(st, username).value;
      && u in st.users && u.username == username
      && Matches(hash, password, u.password)
      && r.value.user == ViewUser(u)
      && r.value.token == Claims(u.id, u.role, u.username)
      && r.value.profile == LoginProfile(st, u)
  {
    match FindUserByName(st, username) {
      case None => Err(404, "Username atau password salah")
      case Some(u) =>
        if !Matches(hash, password, u.password) then Err(401, "Username atau password salah")
        else Ok(LoggedIn(ViewUser(u), LoginProfile(st, u), Claims(u.id, u.role, u.username)))
    }
  }

  /** A fresh customer can log straight in with the password they chose,
      and gets the same token claims and their customer profile. */
  lemma RegisterThenLogin(st: Store, hash: string -> string, username: string, password: string,
                          nik: string, namaPenumpang: string, alamat: string, telp: string)
    requires Valid(st)
    requires Register(st, hash, username, password, nik, namaPenumpang, alamat, telp).Ok?
    ensures var c := Register(st, hash, username, password, nik, namaPenumpang, alamat, telp).value;
      var l := Login(c.store, hash, username, password);
      && l.Ok?
      && l.value.token == c.reply.token
      && l.value.user == c.reply.user
      && l.value.profile == AsPelanggan(Some(c.reply.pelanggan))
  {
    var c := Register(st, hash, username, password, nik, namaPenumpang, alamat, telp).value;
    var st' := c.store;
    var u := st'.users[|st.users|];
    FindAppend(st.users, [u], (x: User) => x.username == username);
    assert st'.users == st.users + [u];
    var cu := st'.customers[|st.customers|];
    FindAppend(st.customers, [cu], (x: Customer) => x.userId == u.id);
    assert st'.customers == st.customers + [cu];
  }

  /** Likewise for a staff member registered by another. */
  lemma RegisterPetugasThenLogin(st: Store, caller: Claims, hash: string -> string, username: string,
                                 password: string, namaPetugas: string, alamat: string, telp: string)
    requires caller.role == Petugas && Valid(st)
    requires RegisterPetugas(st, caller, hash, username, password, namaPetugas, alamat, telp).Ok?
    ensures var c := RegisterPetugas(st, caller, hash, username, password, namaPetugas, alamat, telp).value;
      var l := Login(c.store, hash, username, password);
      && l.Ok?
      && l.value.token == Claims(c.reply.user.id, Petugas, username)
      && l.value.profile == AsPetugas(Some(c.reply.petugas))
  {
    var c := RegisterPetugas(st, caller, hash, username, password, namaPetugas, alamat, telp).value;
    var st' := c.store;
    var u := st'.users[|st.users|];
    FindAppend(st.users, [u], (x: User) => x.username == username);
    assert st'.users == st.users + [u];
    var p := st'.staff[|st.staff|];
    FindAppend(st.staff, [p], (x: Staff) => x.userId == u.id);
    assert st'.staff == st.staff + [p];
  }
}
