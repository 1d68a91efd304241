# kereta-api-2025 in Dafny

A model of the request handlers of the kereta-api-2025 train-ticketing REST
API, with proofs about them. The API has trains (`kereta`) with wagons
(`gerbong`) that hold seats (`kursi`), departures (`jadwal`), customer and
staff accounts (`pelanggan`, `petugas`), and ticket purchases
(`pembelianTiket`) with one booking detail (`detailPembelianTiket`) per
passenger. The heart of it is `createTicket`. It walks the train's wagons and
their seats, drops the seats already bound under the same departure, refuses
when there are fewer free seats than passengers, and gives passenger *i* the
*i*-th free seat, all in one transaction.

The database is a `Store` of tables, each a sequence of rows in table order.
A handler is a pure function from a store and the request's fields to
`Ok(Committed(store', reply))` or `Err(status, message)`. An error carries
no store, so an error never writes. A route's role gate (`isPelanggan`,
`isPetugas`) is the handler's `requires`. The modules:

- `Common`: option and outcome types, JavaScript truthiness, first-match search, filtering.
- `Store`: the tables and keys, the lookups, and the invariants `Valid` and `NoDoubleBooking`.
- `Seats`: the free-seat walk of `createTicket` and the kursiController queries.
- `Tickets`: `createTicket`, `getTicketById` and `getAllTickets` with its income sum.
- `Wagons`, `Schedules`, `Trains`: the gerbong, jadwal and kereta controllers.
- `Accounts`, `Customers`, `StaffAdmin`, `Profiles`: the auth, pelanggan, petugas and user controllers.
- `Middleware`: the `Authorization: Bearer` gate and the two role gates. The header check is the case-sensitive form of the Bearer scheme of section 2.1 of RFC 6750.
- `System`: every state-changing handler as one transition system, and the invariant over any sequence of requests. It is built twice: with `updateKereta` as written, and with its class check corrected.
- `Sorting` and `Decimal`: insertion sort by key, and `${n}` rendering of counts.

Conventions:

- Foreign services become parameters:
  - bcrypt is a function `hash`, and `compare(p, h)` is `hash(p) == h`: a password matches its own hash and no other stored string;
  - `jwt.verify` is a function `verify` from the token text to its result;
  - a signed token is represented by its claims `{id, role, username}`.
- uuid generation is the counter `Store.nextId`. Each create takes the next unused ids.
- Timestamps are integers.

## Model

| member | source | states |
|---|---|---|
| Seats.FreeSeatsMembers | src/controllers/tiketController.js:148-174 | a seat is offered for a departure iff it is a seat of a wagon of that departure's train and no booking detail for that departure binds it |
| Seats.SeatWalkFollowsWagonOrder | src/controllers/tiketController.js:163-174 | the seat walk visits wagons in the order they are listed: a seat of an earlier wagon never follows a seat of a later one, and nothing is sorted by wagon or seat number |
| Seats.FreeSeatsUnique | src/controllers/tiketController.js:159-174 | the free-seat list never offers the same seat twice |
| Seats.UniquePrefixTaken | src/controllers/tiketController.js:191-193 | marking the first k seats of a duplicate-free list as booked leaves exactly the rest of the list |
| Seats.GetAllKursi | src/controllers/kursiController.js:6-43 | all seats, or exactly the given wagon's seats when a gerbongId is sent, ascending by seat number, each "terpesan" iff some detail binds it |
| Seats.GetKursiById | src/controllers/kursiController.js:46-77 | 404 iff no seat has the id; otherwise that seat, "terpesan" iff some detail binds it |
| Seats.GetAvailableKursi | src/controllers/kursiController.js:80-134 | 404 iff the departure is missing; otherwise exactly the seats whose own wagon is on the departure's train and whose single detail is absent or belongs to another departure, all "tersedia" |
| Seats.ViewsAgreeOnSingleDetail | src/controllers/kursiController.js:118-121 | for a seat bound by at most one detail, the seat query and the purchase walk agree on whether it is free |
| Seats.WagonOnTrainIsOnTrain | src/controllers/kursiController.js:97-102 | with wagon ids unique, looking up a seat's own wagon and asking for some wagon of the train with the seat's wagon id select the same seats |
| Seats.KeptForIsUnbooked | src/controllers/kursiController.js:118-121 | a seat with at most one detail passes the availability filter iff no detail binds it under the departure |
| Seats.ViewsDisagreeOnSecondDetail | src/controllers/kursiController.js:104-121 | with a second detail they part: the seat query offers a seat that the purchase walk counts as booked |
| Seats.SecondScheduleKeepsSeat | src/controllers/kursiController.js:104-121 | in the two-detail store the seat query offers the seat for the second departure, because only the seat's first detail is looked at |
| Seats.SecondScheduleTakesSeat | src/controllers/tiketController.js:148-174 | in the same store the purchase walk counts the seat as booked under the second departure |
| Tickets.CreateTicket | src/controllers/tiketController.js:107-246 | check order is departure (404), customer (404), passenger list (400); then 400 with the exact free count iff there are fewer free seats than passengers; on success one booking and one detail per passenger, passenger i on free seat i with nik and name copied, and nothing else written |
| Tickets.CapacityMessageInjective | src/controllers/tiketController.js:177-183 | the capacity message determines the free-seat count it reports |
| Tickets.PurchaseSchedules | src/controllers/tiketController.js:205-218 | the new details belong to the bought departure, and earlier details keep theirs |
| Tickets.PurchaseKeepsValid | src/controllers/tiketController.js:185-218 | a purchase keeps every key unique and below the id supply |
| Tickets.PurchaseKeepsNoDoubleBooking | src/controllers/tiketController.js:159-202 | after a purchase no seat is bound by two details of one departure |
| Tickets.AppendKeepsNoDoubleBooking | src/controllers/tiketController.js:205-218 | appending details for one departure on pairwise distinct seats not yet booked under it binds no seat twice, if earlier details keep their departure |
| Tickets.PurchaseTakesLeadingFreeSeats | src/controllers/tiketController.js:191-202 | after a purchase of n seats, the departure's free list is the old one without its first n seats |
| Tickets.PurchaseLeavesOtherSchedules | src/controllers/tiketController.js:148-159 | a purchase leaves the free seats of every other departure unchanged |
| Tickets.RunKeepsNoDoubleBooking | src/controllers/tiketController.js:107-246 | after any sequence of purchase requests no seat is bound twice under one departure |
| Tickets.AttemptKeepsNoDoubleBooking | src/controllers/tiketController.js:107-246 | one purchase attempt, accepted or refused, keeps the keys and no seat bound twice under one departure |
| Tickets.GetTicketById | src/controllers/tiketController.js:54-104 | 404 iff the booking is missing; 403 iff the caller is a pelanggan without a profile or the booking is not theirs; success iff neither, so staff read any booking; the answer pairs the booking with its departure and exactly its details |
| Tickets.OwnerReadsOwnTicket | src/controllers/tiketController.js:88-97 | a pelanggan reads a booking iff it is one of their own |
| Tickets.ReduceIsSum | src/controllers/tiketController.js:310-312 | the handler's left fold equals the reference sum of price times passenger count |
| Tickets.SumIncomePermutation | src/controllers/tiketController.js:304-312 | the total income does not depend on the order the tickets are listed in |
| Tickets.SumIncomeAt | src/controllers/tiketController.js:310-312 | taking one ticket out of a list takes exactly its price times passenger count out of the total |
| Tickets.Views | src/controllers/tiketController.js:285-303 | each booking is listed with its departure and exactly its details; listing fails iff some booking's departure is missing |
| Tickets.GetAllTickets | src/controllers/tiketController.js:249-324 | every booking, newest first, with totalIncome the sum of price times passenger count; 500 iff some booking's departure row is missing |
| Tickets.PurchaseAddsIncome | src/controllers/tiketController.js:205-218 | a purchase raises the reported income by the departure's price times the number of passengers |
| Tickets.IncomeAfterAppend | src/controllers/tiketController.js:285-312 | appending a priced booking, earlier bookings listed as before, adds exactly that booking's income to the total |
| Wagons.CreateGerbong | src/controllers/gerbongController.js:54-113 | 404 iff the train is missing; then 400 unless kuota is a positive integer; on success the wagon and exactly kuota seats numbered 1..kuota in that wagon, with fresh ids, and nothing else written |
| Wagons.NewSeatNumbers | src/controllers/gerbongController.js:76-80 | the seat numbers of a new wagon are pairwise distinct and cover exactly 1..kuota |
| Wagons.CreateGerbongKeepsInvariant | src/controllers/gerbongController.js:83-97 | creating a wagon keeps keys unique and every existing booking as it was |
| Wagons.CreatedWagonHoldsItsSeats | src/controllers/gerbongController.js:76-97 | the new wagon's seats are exactly the created ones, in seat-number order |
| Wagons.CreatedSeatsAreFree | src/controllers/gerbongController.js:76-97 | every seat of a new wagon is free under every departure of its train |
| Wagons.UpdateGerbong | src/controllers/gerbongController.js:116-161 | 404 for a missing wagon or a sent but unknown keretaId; only namaGerbong and keretaId change, each only when truthy; kuota, seats and other wagons are untouched |
| Wagons.UpdateGerbongKeepsInvariant | src/controllers/gerbongController.js:144-154 | moving or renaming a wagon keeps keys unique and every booking |
| Wagons.DeleteGerbong | src/controllers/gerbongController.js:164-203 | 404 iff the wagon is missing; 400 iff some detail binds one of its seats; otherwise only that wagon row goes |
| Wagons.DeleteGerbongKeepsBookedWagons | src/controllers/gerbongController.js:177-192 | a delete that goes through never removes the wagon of a booked seat |
| Wagons.DeleteGerbongKeepsInvariant | src/controllers/gerbongController.js:194-196 | deleting a wagon keeps keys unique and every booking |
| Store.WagonSubsetKeepsInvariant | src/controllers/gerbongController.js:194-196 | narrowing the wagon table to some of its rows with distinct ids keeps the keys and every booking |
| Schedules.SearchJadwal | src/controllers/jadwalController.js:46-113 | the result is ordered by departure and holds exactly the stored schedules matching every sent filter, with each kept as often as it is stored |
| Schedules.SearchMembers | src/controllers/jadwalController.js:53-106 | a schedule is listed iff it is stored, contains each truthy origin and destination as a substring, and has a train of the truthy class |
| Schedules.SearchWithoutFiltersListsAll | src/controllers/jadwalController.js:46-113 | with no filters every schedule is listed |
| Schedules.CreateJadwal | src/controllers/jadwalController.js:116-161 | 404 iff the train is missing; then 400 iff departure >= arrival; success iff neither; a created schedule has departure before arrival and exactly the given fields |
| Schedules.UpdateJadwal | src/controllers/jadwalController.js:164-226 | 404 for a missing schedule or a sent but unknown train; 400 iff both dates are sent out of order; success iff none of these; truthy text and dates, any sent price (0 included) and a truthy keretaId are written, and nothing else changes |
| Schedules.UpdateWithBothDatesIsOrdered | src/controllers/jadwalController.js:197-204 | an accepted update that sends both dates leaves them ordered |
| Schedules.UpdateWithOneDateCanInvert | src/controllers/jadwalController.js:197-212 | an update sending one date is not checked and can leave departure after arrival |
| Schedules.DeleteJadwal | src/controllers/jadwalController.js:229-251 | 404 iff the schedule is missing, and success iff it exists; then exactly that row is removed |
| Trains.CreateKereta | src/controllers/keretaController.js:47-71 | 400 iff the class is not one of ekonomi, bisnis, eksekutif, luxury; otherwise the row stores exactly the given name, description and class |
| Trains.CreateKeretaKeepsClassesValid | src/controllers/keretaController.js:52-64 | creating trains never puts a class outside the enum into the table |
| Trains.UpdateKereta | src/controllers/keretaController.js:74-110 | as written: 404 iff the train is missing; 400 iff a truthy class is outside the enum; success iff neither; every sent field, truthy or not, is written |
| Trains.UpdateWithEmptyClassStoresIt | src/controllers/keretaController.js:89-103 | an update sending the empty class passes the check and stores a class outside the enum |
| Trains.UpdateKeretaChecked | src/controllers/keretaController.js:89-94 | corrected update: 404 iff the train is missing; 400 iff any sent class is outside the enum; success iff neither |
| Trains.UpdateKeretaCheckedKeepsClassesValid | src/controllers/keretaController.js:89-103 | the corrected update keeps every stored class in the enum |
| Trains.DeleteKereta | src/controllers/keretaController.js:113-135 | 404 iff the train is missing, and success iff it exists; then exactly that row is removed |
| Accounts.Register | src/controllers/authController.js:9-85 | 400 iff the username is taken, then 400 iff the NIK is taken; on success a pelanggan user with the hashed password and its customer row, written together, and a token with exactly id, role and username |
| Accounts.RegisterKeepsInvariant | src/controllers/authController.js:14-58 | registration keeps usernames unique and every key below the id supply |
| Accounts.RegisterPetugas | src/controllers/authController.js:156-213 | fails iff the username is taken; otherwise a petugas user with the hashed password and its staff row, written together |
| Accounts.RegisterPetugasKeepsInvariant | src/controllers/authController.js:161-195 | staff registration keeps usernames unique and every key below the id supply |
| Accounts.LoginProfile | src/controllers/authController.js:115-136 | the login answer carries the customer profile iff the role is pelanggan, and the staff profile iff it is petugas |
| Accounts.Login | src/controllers/authController.js:88-153 | 404 for an unknown username and 401 for a wrong password, with the same message; success iff the user exists and the password matches, with the user without the password and a token with exactly id, role and username |
| Accounts.RegisterThenLogin | src/controllers/authController.js:39-65 | a new customer logs in with the chosen password and gets the same claims and their customer profile |
| Accounts.RegisterPetugasThenLogin | src/controllers/authController.js:177-195 | a new staff member logs in with the chosen password and gets their staff profile |
| Customers.UpdatePelanggan | src/controllers/pelangganController.js:79-115 | 404 iff the customer is missing; 400 iff no contact field is truthy; success iff neither, and then only the truthy fields change, and nik, userId and other rows stay |
| Customers.UpdatePelangganIdempotent | src/controllers/pelangganController.js:99-108 | sending the same update again changes nothing more |
| Customers.DeletePelanggan | src/controllers/pelangganController.js:118-160 | 404 iff the customer is missing; 400 iff they have a booking; 500 iff their user row is missing, which rolls both deletes back; success iff none of these, and then the customer row and its user row go together |
| Customers.DeletePelangganKeepsInvariant | src/controllers/pelangganController.js:146-153 | deleting a customer keeps usernames unique and every booking |
| Customers.DeletedCustomerCannotLogin | src/controllers/pelangganController.js:146-153 | a deleted customer's username no longer logs in |
| StaffAdmin.UpdatePetugas | src/controllers/petugasController.js:58-94 | 404 iff the staff row is missing; 400 iff no contact field is truthy; success iff neither, and then only the truthy fields change |
| StaffAdmin.UpdatePetugasIdempotent | src/controllers/petugasController.js:78-87 | sending the same update again changes nothing more |
| StaffAdmin.DeletePetugas | src/controllers/petugasController.js:97-134 | 404 iff the staff row is missing; 400 iff it is the caller's own; 500 iff its user row is missing; success iff none of these, and then the staff row and its user row go together |
| StaffAdmin.CallerSurvivesDeletePetugas | src/controllers/petugasController.js:115-117 | whatever staff row is deleted, the caller's own user row stays |
| StaffAdmin.DeletePetugasKeepsInvariant | src/controllers/petugasController.js:120-127 | deleting a staff member keeps usernames unique and every booking |
| Profiles.GetProfile | src/controllers/userController.js:7-68 | 404 iff the user is missing, success otherwise; the profile comes from the customer table for pelanggan, the staff table for petugas, and is absent otherwise |
| Profiles.ProfileAfterRegister | src/controllers/userController.js:27-40 | right after registering, the profile is the customer row registration wrote |
| Profiles.UpdatePassword | src/controllers/userController.js:71-106 | 404 iff the user is missing; 401 iff the old password does not match; success iff neither, and then only that user's password changes, to the new password's hash |
| Profiles.UpdatePasswordThenLogin | src/controllers/userController.js:93-99 | after a change the new password logs in as the same user, and a password with a different hash does not |
| Middleware.Split | src/middlewares/auth.js:14 | splitting on single spaces gives at least one piece and no piece contains a space |
| Middleware.JoinSplit | src/middlewares/auth.js:14 | joining the pieces with spaces gives the header back |
| Middleware.SplitJoin | src/middlewares/auth.js:14 | space-free pieces come back unchanged from splitting their join |
| Middleware.SpaceSplits | src/middlewares/auth.js:10-14 | a header with a space in it has a second piece, so the token read always exists |
| Middleware.TokenOfBearer | src/middlewares/auth.js:10-14 | for `Bearer ` followed by a space-free token, the token read is exactly that token |
| Middleware.Auth | src/middlewares/auth.js:6-27 | 401 iff the header is missing or lacks the exact `Bearer ` prefix; 403 iff verification yields null, which covers every error `jwt.verify` raises; 401 iff something else in the `try` block throws; otherwise the request goes on with the decoded claims |
| Middleware.LowercaseSchemeRejected | src/middlewares/auth.js:10-11 | the scheme name is case-sensitive: `bearer` is refused |
| Middleware.BearerTokenAccepted | src/middlewares/auth.js:14-23 | a token the verifier accepts, sent as `Bearer` plus the token, passes with exactly its claims |
| Middleware.IsPelanggan | src/middlewares/auth.js:30-35 | passes iff the role is pelanggan, else 403 |
| Middleware.IsPetugas | src/middlewares/auth.js:38-43 | passes iff the role is petugas, else 403 |
| Middleware.GatesDisjoint | src/middlewares/auth.js:30-43 | no request passes both role gates |
| System.UpdatePasswordKeepsInv | src/controllers/userController.js:93-99 | a password change keeps usernames unique, the keys and every booking |
| System.UpdatePelangganKeepsInv | src/controllers/pelangganController.js:99-108 | a contact update keeps the invariant |
| System.UpdatePetugasKeepsInv | src/controllers/petugasController.js:78-87 | a staff contact update keeps the invariant |
| System.CreateJadwalKeepsInv | src/controllers/jadwalController.js:144-154 | a new schedule keeps the invariant |
| System.DeleteKeretaKeepsInv | src/controllers/keretaController.js:126-128 | deleting a train keeps every other train's class in the enum and every booking |
| System.AccountStepKeepsInv | src/app.js:28-29 | the requests of the auth and user routes (registration, staff registration, password change) keep the invariant |
| System.PeopleStepKeepsInv | src/app.js:30-31 | the write requests of the pelanggan and petugas routes (updates and deletes) keep the invariant |
| System.TrainStepKeepsInv | src/app.js:32-33 | the write requests of the kereta and gerbong routes keep the invariant, in both builds |
| System.ScheduleStepKeepsInv | src/controllers/jadwalController.js:116-251 | the schedule writes keep the invariant |
| System.StepKeepsInv | src/app.js:28-36 | every accepted write request of every mounted route keeps keys unique and no seat bound twice under one departure, and in the corrected build every class in the enum |
| System.NextKeepsInv | src/app.js:28-36 | a request to any mounted route, accepted or refused, leaves a store satisfying the invariant |
| System.RunKeepsInv | src/app.js:28-36 | from a store satisfying the invariant, any sequence of admitted requests to the mounted routes, interleaved in any way, reaches only stores satisfying it |
| System.EmptyStoreReachesOnlyValid | src/app.js:28-36 | with every handler as written, every store reachable from the empty database has unique keys and no seat bound twice under one departure |
| System.CorrectedReachesOnlyValidClasses | src/controllers/keretaController.js:89-103 | with the corrected `updateKereta`, every store reachable from the empty database also keeps every train class in the enum |
| System.UpdateKeretaKeepsInv | src/controllers/keretaController.js:96-103 | `updateKereta` as written keeps the keys and every booking |
| System.UpdateKeretaCheckedKeepsInv | src/controllers/keretaController.js:89-103 | the corrected `updateKereta` also keeps every class in the enum |
| Decimal.ValueOfShow | src/controllers/tiketController.js:181 | the rendered count reads back as the count |

## Left out

- The database and the HTTP layer are left out: Prisma calls, Express routing, `res.status().json` and the server start. Tables are sequences in the model, and the route gates are preconditions.
- bcrypt and jsonwebtoken are parameters. `compare(p, h)` is modelled as `hash(p) == h`. So two facts are assumed of bcrypt: a password matches its own hash (`Accounts.MatchesOwnHash`), and it matches no other stored string. The 401 answers of `Accounts.Login` and `Profiles.UpdatePassword`, and the last part of `Profiles.UpdatePasswordThenLogin`, rest on the second fact. Salting is not modelled, so the hash is deterministic. Token expiry is part of what `verify` answers.
- uuid generation is a counter. Fresh ids are the next unused numbers.
- Date parsing and the local-time windows are left out, because they depend on the JavaScript `Date` runtime and the timezone. This covers the `date`/`month` filters of `getAllTickets` and the `tanggal` filter of `searchJadwal`. Timestamps are integers compared with `<` and `>=`.
- The race between the free-seat read and the commit in `createTicket` is left out. Concurrency is out of scope, and each purchase is one atomic step.
- Console logging is left out. So are the generic 500 catch branches, except where the model names a throw: a departure whose train row is missing in `createTicket`, a missing departure row in `getAllTickets`, and a missing user row in the paired deletes.
- Foreign-key checks and cascades on delete are left out. They come from the database schema, which is not part of this model. Deleting a train, wagon or departure removes that row only.
- Read-only listings are left out: `getAllGerbong`, `getGerbongById`, `getAllJadwal`, `getJadwalById`, `getAllKereta`, `getKeretaById`, `getAllPelanggan`, `getPelangganById`, `getAllPetugas`, `getPetugasById` and `getMyTickets`. They have no guard logic beyond the 404 on a missing row. The `include`/`select` shaping of replies is also left out, apart from the password never appearing in a user reply.
- Request bodies are taken as well-typed. A missing required field, `null` values and non-string types reach the ORM and end in a 500, which is not modelled. The exceptions are `penumpang` not being an array, and `kuota` not being an integer.
- Schedules.UpdateJadwal: does not promise departure before arrival after an update, because the source compares the dates only when both are sent (`Schedules.UpdateWithOneDateCanInvert`).
- System.StepKeepsInv: the train-class part of the invariant is promised only for the corrected build, which serves `updateKereta` through `Trains.UpdateKeretaChecked` (see Findings). The as-written build gets keys and no double booking only.
- System.TrainStepKeepsInv: promises every class in the enum only for the corrected build, for the same reason.
- System.NextKeepsInv: promises every class in the enum only for the corrected build, for the same reason.
- System.RunKeepsInv: promises every class in the enum only for the corrected build, for the same reason.
- System.EmptyStoreReachesOnlyValid: is about the as-written build and leaves the classes out; `System.CorrectedReachesOnlyValidClasses` states them for the corrected build.

## Findings

| source | as written | input that shows it | evidently intended | confidence | as-written member | corrected member |
|---|---|---|---|---|---|---|
| src/controllers/keretaController.js:89-103 | the class is validated only when it is truthy, but every sent field is written | `PUT /kereta/:id` with body `{"kelas": ""}` passes the check and writes the class `""` | any sent class must be one of ekonomi, bisnis, eksekutif, luxury, as in `createKereta` | medium, not executed; a database-level enum, if the schema declares one, would turn the write into a 500 instead | Trains.UpdateWithEmptyClassStoresIt | Trains.UpdateKeretaCheckedKeepsClassesValid |
