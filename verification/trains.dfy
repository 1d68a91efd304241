/** Trains (keretaController): creation and update against the class enum,
    and deletion. All three are behind the `isPetugas` gate. */
module Trains {
  import opened Common
  import opened Store

  /** The four classes a train may have. */
  const ValidKelas: seq<string> := ["ekonomi", "bisnis", "eksekutif", "luxury"]

  predicate IsValidKelas(k: string) {
    k in ValidKelas
  }

  /** Every stored train has one of the four classes. */
  predicate ClassesValid(st: Store) {
    forall t | t in st.trains :: IsValidKelas(t.kelas)
  }

  /** `createKereta`: the class is checked first; the row stores exactly
      the given fields under a fresh id. */
  function CreateKereta(st: Store, namaKereta: string, deskripsi: string, kelas: string)
    : (r: Outcome<Committed<Train>>)
    ensures r.Err? <==> kelas !in ValidKelas
    ensures r.Err? ==> r == Err(400, "Kelas kereta tidak valid")
    ensures r.Ok? ==>
      && r.value.reply == Train(st.nextId, namaKereta, deskripsi, kelas)
      && r.value.store.trains == st.trains + [r.value.reply]
      && r.value.store.(trains := st.trains, nextId := st.nextId) == st
      && r.value.store.nextId > st.nextId
  {
    if !IsValidKelas(kelas) then Err(400, "Kelas kereta tidak valid")
    else
      var t := Train(st.nextId, namaKereta, deskripsi, kelas);
      Ok(Committed(st.(trains := st.trains + [t], nextId := st.nextId + 1), t))
  }

  /** A created train never breaks the class rule. */
  lemma CreateKeretaKeepsClassesValid(st: Store, namaKereta: string, deskripsi: string, kelas: string)
    requires ClassesValid(st)
    requires CreateKereta(st, namaKereta, deskripsi, kelas).Ok?
    ensures ClassesValid(CreateKereta(st, namaKereta, deskripsi, kelas).value.store)
  {
  }

  /** The body of an `updateKereta` request; `None` is a field left out
      (`undefined`, which the ORM ignores). Any other value is written, the
      empty string included. */
  datatype TrainChange = TrainChange(namaKereta: Option<string>, deskripsi: Option<string>,
                                     kelas: Option<string>)

  function ApplyTrain(t: Train, c: TrainChange): (r: Train)
    ensures r.id == t.id
  {
    t.(namaKereta := PickGiven(c.namaKereta, t.namaKereta),
       deskripsi := PickGiven(c.deskripsi, t.deskripsi),
       kelas := PickGiven(c.kelas, t.kelas))
  }

  /** Put `t` in place of row `i`. */
  function ReplaceTrain(st: Store, i: nat, t: Train): (r: Store)
    requires i < |st.trains|
    ensures r.(trains := st.trains) == st && |r.trains| == |st.trains|
    ensures r.trains[i] == t
    ensures forall k | 0 <= k < |st.trains| && k != i :: r.trains[k] == st.trains[k]
  {
    st.(trains := st.trains[i := t])
  }

  /** `updateKereta` as written: the class is validated only when it is
      truthy, and every supplied field is then written. */
  function UpdateKereta(st: Store, id: Id, c: TrainChange): (r: Outcome<Committed<Train>>)
    ensures FindTrain(st, id).None? <==> r == Err(404, "Kereta tidak ditemukan")
    ensures r == Err(400, "Kelas kereta tidak valid") <==>
      FindTrain(st, id).Some? && Truthy(c.kelas) && !IsValidKelas(c.kelas.value)
    ensures r.Ok? <==> FindTrain(st, id).Some? && !(Truthy(c.kelas) && !IsValidKelas(c.kelas.value))
    ensures r.Ok? ==>
      var prev := FindTrain(st, id).value;
      && r.value.reply.id == id
      && r.value.reply.namaKereta == (if c.namaKereta.Some? then c.namaKereta.value else prev.namaKereta)
      && r.value.reply.deskripsi == (if c.deskripsi.Some? then c.deskripsi.value else prev.deskripsi)
      && r.value.reply.kelas == (if c.kelas.Some? then c.kelas.value else prev.kelas)
      && r.value.reply in r.value.store.trains
      && r.value.store.(trains := st.trains) == st
      && |r.value.store.trains| == |st.trains|
      && (forall k | 0 <= k < |st.trains| && st.trains[k].id != id :: r.value.store.trains[k] == st.trains[k])
  {
    match IndexOf(st.trains, (t: Train) => t.id == id) {
      case None => Err(404, "Kereta tidak ditemukan")
      case Some(i) =>
        if Truthy(c.kelas) && !IsValidKelas(c.kelas.value) then Err(400, "Kelas kereta tidak valid")
        else
          var t := ApplyTrain(st.trains[i], c);
          Ok(Committed(ReplaceTrain(st, i, t), t))
    }
  }

  /** The store `UpdateWithEmptyClassStoresIt` edits. */
  function OneTrainStore(): Store {
    Store([], [], [], [Train(1, "Argo", "", "eksekutif")], [], [], [], [], [], 2)
  }

  /** An empty `kelas` is falsy, so it skips the enum check, yet it is not
      `undefined`, so it is written: the stored class leaves the enum. */
  lemma UpdateWithEmptyClassStoresIt()
    ensures ClassesValid(OneTrainStore())
    ensures var r := UpdateKereta(OneTrainStore(), 1, TrainChange(None, None, Some("")));
      r.Ok? && !ClassesValid(r.value.store) && r.value.reply.kelas == ""
  {
    var st := OneTrainStore();
    assert IndexOf(st.trains, (t: Train) => t.id == 1) == Some(0);
    assert "" != "ekonomi" && "" != "bisnis" && "" != "eksekutif" && "" != "luxury";
  }

  /** `updateKereta` with the class checked whenever it is supplied, which
      is what the comment on the check and `createKereta` evidently mean. */
  function UpdateKeretaChecked(st: Store, id: Id, c: TrainChange): (r: Outcome<Committed<Train>>)
    ensures FindTrain(st, id).None? <==> r == Err(404, "Kereta tidak ditemukan")
    ensures r == Err(400, "Kelas kereta tidak valid") <==>
      FindTrain(st, id).Some? && c.kelas.Some? && !IsValidKelas(c.kelas.value)
    ensures r.Ok? <==> FindTrain(st, id).Some? && (c.kelas.None? || IsValidKelas(c.kelas.value))
    ensures r.Ok? ==>
      && r.value.reply == ApplyTrain(FindTrain(st, id).value, c)
      && r.value.reply in r.value.store.trains
      && r.value.store.(trains := st.trains) == st
      && |r.value.store.trains| == |st.trains|
      && (forall k | 0 <= k < |st.trains| && st.trains[k].id != id :: r.value.store.trains[k] == st.trains[k])
  {
    match IndexOf(st.trains, (t: Train) => t.id == id) {
      case None => Err(404, "Kereta tidak ditemukan")
      case Some(i) =>
        if c.kelas.Some? && !IsValidKelas(c.kelas.value) then Err(400, "Kelas kereta tidak valid")
        else
          var t := ApplyTrain(st.trains[i], c);
          Ok(Committed(ReplaceTrain(st, i, t), t))
    }
  }

  /** The corrected update keeps every stored class in the enum. */
  lemma UpdateKeretaCheckedKeepsClassesValid(st: Store, id: Id, c: TrainChange)
    requires ClassesValid(st)
    requires UpdateKeretaChecked(st, id, c).Ok?
    ensures ClassesValid(UpdateKeretaChecked(st, id, c).value.store)
  {
    var st' := UpdateKeretaChecked(st, id, c).value.store;
    var i := IndexOf(st.trains, (t: Train) => t.id == id).value;
    forall t | t in st'.trains ensures IsValidKelas(t.kelas) {
      var k :| 0 <= k < |st'.trains| && st'.trains[k] == t;
      assert st.trains[k] in st.trains;
    }
  }

  /** `deleteKereta`: only the existence check; the row is removed. */
  function DeleteKereta(st: Store, id: Id): (r: Outcome<Committed<()>>)
    ensures FindTrain(st, id).None? <==> r == Err(404, "Kereta tidak ditemukan")
    ensures r.Ok? <==> FindTrain(st, id).Some?
    ensures r.Ok? ==>
      && multiset(r.value.store.trains) == multiset(st.trains) - multiset{FindTrain(st, id).value}
      && r.value.store.(trains := st.trains) == st
  {
    match IndexOf(st.trains, (t: Train) => t.id == id) {
      case None => Err(404, "Kereta tidak ditemukan")
      case Some(i) =>
        RemoveOne(st.trains, i);
        Ok(Committed(st.(trains := RemoveAt(st.trains, i)), ()))
    }
  }
}
