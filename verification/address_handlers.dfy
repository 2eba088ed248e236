/**
 * The address handlers of src/controllers/userController.js over the
 * store: the logged-in user's address book is edited and saved, and the save
 * re-checks the address schema's required fields.
 */
module AddressHandlers {
  import opened Wrappers
  import opened Users
  import opened Stores

  datatype AddressError = AddressNotFound | SaveRejected
  {
    function Status(): int {
      if this == AddressNotFound then 404 else 500
    }
  }

  /** The invariant every address book keeps: ids unique, at most one default, required fields present. */
  predicate BookValid(addrs: seq<Address>) {
    IdsUnique(addrs) && AtMostOneDefault(addrs) && AddressesValid(addrs)
  }

  predicate IdFresh(addrs: seq<Address>, id: nat) {
    forall i :: 0 <= i < |addrs| ==> addrs[i].id != id
  }

  /** A new address book saved for user `ui`, unless the schema rejects it. */
  function SaveBook(st: Store, ui: nat, book: seq<Address>): (out: (Result<seq<Address>, AddressError>, Store))
    requires ui < |st.users|
    ensures out.0.Err? <==> !AddressesValid(book)
    ensures out.0.Err? ==> out.0.error == SaveRejected && out.1 == st
    ensures out.0.Ok? ==> out.0.value == book && out.1 == st.(users := st.users[ui := st.users[ui].(addresses := book)])
  {
    if AddressesValid(book) then (Ok(book), st.(users := st.users[ui := st.users[ui].(addresses := book)]))
    else (Err(SaveRejected), st)
  }

  /** `addAddress` (userController.js:4-22) for the logged-in user `uid`; `newId` is the id the new subdocument gets. */
  function AddAddressHandler(st: Store, uid: nat, a: Address, newId: nat): (out: (Result<seq<Address>, AddressError>, Store))
    requires FindUser(st.users, uid) < |st.users|
    ensures var ui := FindUser(st.users, uid);
      var book0 := st.users[ui].addresses;
      && (AddressesValid(book0) ==> (out.0.Ok? <==> AddressValid(a)))
      && (out.0.Ok? ==> (|out.0.value| == |book0| + 1 && out.0.value[|book0|].id == newId
            && out.1 == st.(users := st.users[ui := st.users[ui].(addresses := out.0.value)])))
      && (out.0.Err? ==> out.1 == st)
    ensures var ui := FindUser(st.users, uid);
      (BookValid(st.users[ui].addresses) && IdFresh(st.users[ui].addresses, newId) && out.0.Ok?) ==> BookValid(out.0.value)
  {
    var ui := FindUser(st.users, uid);
    var book0 := st.users[ui].addresses;
    var book := AddAddress(book0, a.(id := newId));
    assert AddressesValid(book0) ==> (AddressesValid(book) <==> AddressValid(a)) by {
      if AddressesValid(book0) && AddressValid(a) {
        assert forall i :: 0 <= i < |book| ==> AddressValid(book[i]) by {
          assert forall i :: 0 <= i < |book0| ==> book[i].street == book0[i].street && book[i].city == book0[i].city && book[i].province == book0[i].province;
        }
      }
      if AddressesValid(book) { assert AddressValid(book[|book0|]); }
    }
    assert BookValid(book0) && IdFresh(book0, newId) ==> IdsUnique(book) by {
      assert forall i :: 0 <= i < |book0| ==> book[i].id == book0[i].id;
    }
    SaveBook(st, ui, book)
  }

  /** `updateAddress` (userController.js:32-62) for the logged-in user `uid`. */
  function UpdateAddressHandler(st: Store, uid: nat, id: nat, p: AddressPatch): (out: (Result<seq<Address>, AddressError>, Store))
    requires FindUser(st.users, uid) < |st.users|
    ensures var ui := FindUser(st.users, uid);
      var book0 := st.users[ui].addresses;
      && (out.0 == Err(AddressNotFound) <==> forall i :: 0 <= i < |book0| ==> book0[i].id != id)
      && (out.0.Ok? ==> (out.0.value == UpdateAddress(book0, id, p).value
            && out.1 == st.(users := st.users[ui := st.users[ui].(addresses := out.0.value)])))
      && (out.0.Err? ==> out.1 == st)
    ensures var ui := FindUser(st.users, uid);
      BookValid(st.users[ui].addresses) && out.0.Ok? ==> BookValid(out.0.value)
  {
    var ui := FindUser(st.users, uid);
    var book0 := st.users[ui].addresses;
    match UpdateAddress(book0, id, p)
    case None => (Err(AddressNotFound), st)
    case Some(book) =>
      UpdateKeepsBookValid(book0, id, p);
      SaveBook(st, ui, book)
  }

  /** An update keeps ids unique and at most one default. */
  lemma UpdateKeepsBookValid(book0: seq<Address>, id: nat, p: AddressPatch)
    requires UpdateAddress(book0, id, p).Some?
    ensures var book := UpdateAddress(book0, id, p).value;
      BookValid(book0) && AddressesValid(book) ==> BookValid(book)
  {
    var book := UpdateAddress(book0, id, p).value;
    if BookValid(book0) {
      UpdateAddressKeepsOneDefault(book0, id, p);
      assert forall i :: 0 <= i < |book| ==> book[i].id == book0[i].id;
    }
  }

  /** `deleteAddress` (userController.js:71-103) for the logged-in user `uid`. */
  function DeleteAddressHandler(st: Store, uid: nat, id: nat): (out: (Result<seq<Address>, AddressError>, Store))
    requires FindUser(st.users, uid) < |st.users|
    ensures var ui := FindUser(st.users, uid);
      var book0 := st.users[ui].addresses;
      && (out.0 == Err(AddressNotFound) <==> forall i :: 0 <= i < |book0| ==> book0[i].id != id)
      && (AddressesValid(book0) ==> out.0 != Err(SaveRejected))
      && (out.0.Ok? ==> (out.0.value == DeleteAddress(book0, id).value
            && out.1 == st.(users := st.users[ui := st.users[ui].(addresses := out.0.value)])))
      && (out.0.Err? ==> out.1 == st)
    ensures var ui := FindUser(st.users, uid);
      BookValid(st.users[ui].addresses) && out.0.Ok? ==> BookValid(out.0.value)
  {
    var ui := FindUser(st.users, uid);
    var book0 := st.users[ui].addresses;
    match DeleteAddress(book0, id)
    case None => (Err(AddressNotFound), st)
    case Some(book) =>
      DeleteKeepsBookValid(book0, id);
      SaveBook(st, ui, book)
  }

  /** A deletion keeps every invariant of the book, required fields included. */
  lemma DeleteKeepsBookValid(book0: seq<Address>, id: nat)
    requires DeleteAddress(book0, id).Some?
    ensures AddressesValid(book0) ==> AddressesValid(DeleteAddress(book0, id).value)
    ensures BookValid(book0) ==> BookValid(DeleteAddress(book0, id).value)
  {
    var book := DeleteAddress(book0, id).value;
    var i := FindAddress(book0, id);
    forall j | 0 <= j < |book|
      ensures book[j].id == book0[if j < i then j else j + 1].id
      ensures AddressValid(book[j]) <==> AddressValid(book0[if j < i then j else j + 1])
    {
    }
    if BookValid(book0) {
      DeleteAddressKeepsOneDefault(book0, id);
      forall a, b | 0 <= a < b < |book| ensures book[a].id != book[b].id {
        var a' := if a < i then a else a + 1;
        var b' := if b < i then b else b + 1;
        assert a' < b';
      }
    }
  }
}
