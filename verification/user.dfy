/**
 * The User record (src/models/User.js, used as a record shape) and the
 * address bookkeeping of src/controllers/userController.js, which keeps at
 * most one address marked default.
 */
module Users {
  import opened Wrappers
  import opened Seqs
  import opened Text

  datatype Role = Customer | Admin

  datatype Address = Address(
    id: nat,
    addressLabel: string,
    fullName: string,
    phone: string,
    street: string,
    city: string,
    province: string,
    country: string,
    isDefault: bool)

  /**
   * A stored user. The password is an opaque credential (hashing is not
   * modelled). `isBanned` is the flag the admin ban toggle maintains.
   */
  datatype User = User(
    id: nat,
    email: string,
    fullName: string,
    credential: string,
    role: Role,
    addresses: seq<Address>,
    loyaltyPoints: int,
    isGuestAccount: bool,
    isBanned: bool,
    createdAt: int)

  /** The address schema's required fields are present (non-empty). */
  predicate AddressValid(a: Address) {
    a.street != "" && a.city != "" && a.province != ""
  }

  predicate AddressesValid(addrs: seq<Address>) {
    forall i :: 0 <= i < |addrs| ==> AddressValid(addrs[i])
  }

  /** The bookkeeping invariant: at most one address is the default. */
  predicate AtMostOneDefault(addrs: seq<Address>) {
    forall i, j :: 0 <= i < j < |addrs| ==> !(addrs[i].isDefault && addrs[j].isDefault)
  }

  predicate IdsUnique(addrs: seq<Address>) {
    forall i, j :: 0 <= i < j < |addrs| ==> addrs[i].id != addrs[j].id
  }

  /** Index of the user with id `id` (`User.findById`); `|us|` when there is none. */
  function FindUser(us: seq<User>, id: nat): (r: nat)
    ensures r <= |us|
    ensures r < |us| ==> us[r].id == id
    ensures forall j :: 0 <= j < r ==> us[j].id != id
  {
    if |us| == 0 then 0
    else if us[0].id == id then 0
    else 1 + FindUser(us[1..], id)
  }

  /**
   * What the email path's `lowercase` and `trim` setters (User.js:17-23) make
   * of an address: Mongoose applies them when a user is saved and to the
   * `email` of a `findOne` filter, so stored and looked-up emails agree.
   */
  function NormalizeEmail(e: string): (n: string)
    ensures |n| <= |e|
    ensures forall i :: 0 <= i < |n| ==> !IsUpper(n[i])
    ensures |n| > 0 ==> !IsJsSpace(n[0]) && !IsJsSpace(n[|n| - 1])
  {
    var t := Trim(e);
    if |t| == 0 then ToLower(t)
    else
      LowerCharKeepsSpace(t[0]);
      LowerCharKeepsSpace(t[|t| - 1]);
      ToLower(t)
  }

  /** Normalizing a normalized email changes nothing. */
  lemma NormalizeEmailIdempotent(e: string)
    ensures NormalizeEmail(NormalizeEmail(e)) == NormalizeEmail(e)
  {
    var n := NormalizeEmail(e);
    TrimKeepsUnpadded(n);
    LowerKeepsNoUpper(n);
  }

  /** Index of the user with this email (`User.findOne({ email })`); `|us|` when there is none. */
  function FindUserByEmail(us: seq<User>, email: string): (r: nat)
    ensures r <= |us|
    ensures r < |us| ==> us[r].email == email
    ensures forall j :: 0 <= j < r ==> us[j].email != email
  {
    if |us| == 0 then 0
    else if us[0].email == email then 0
    else 1 + FindUserByEmail(us[1..], email)
  }

  /** Index of the address with id `id` (`user.addresses.id(id)`); `|addrs|` when there is none. */
  function FindAddress(addrs: seq<Address>, id: nat): (r: nat)
    ensures r <= |addrs|
    ensures r < |addrs| ==> addrs[r].id == id
    ensures forall j :: 0 <= j < r ==> addrs[j].id != id
  {
    if |addrs| == 0 then 0
    else if addrs[0].id == id then 0
    else 1 + FindAddress(addrs[1..], id)
  }

  /** `addresses.forEach(addr => addr.isDefault = false)`. */
  function ClearDefaults(addrs: seq<Address>): (r: seq<Address>)
    ensures |r| == |addrs|
    ensures forall i :: 0 <= i < |r| ==> r[i] == addrs[i].(isDefault := false)
  {
    seq(|addrs|, i requires 0 <= i < |addrs| => addrs[i].(isDefault := false))
  }

  /**
   * `addAddress` (userController.js:10-16): the first address, or one asked
   * to be default, becomes the only default; otherwise it is appended as it
   * came (not default) and the others are untouched.
   */
  function AddAddress(addrs: seq<Address>, a: Address): (r: seq<Address>)
    ensures |r| == |addrs| + 1
    ensures r[|addrs|] == a.(isDefault := |addrs| == 0 || a.isDefault)
    ensures |addrs| == 0 ==> r[0].isDefault
    ensures a.isDefault ==> r[|addrs|].isDefault && forall i :: 0 <= i < |addrs| ==> !r[i].isDefault
    ensures forall i :: 0 <= i < |addrs| ==> r[i].(isDefault := addrs[i].isDefault) == addrs[i]
    ensures !a.isDefault && |addrs| > 0 ==> r[..|addrs|] == addrs
    ensures AtMostOneDefault(addrs) ==> AtMostOneDefault(r)
  {
    if |addrs| == 0 || a.isDefault then ClearDefaults(addrs) + [a.(isDefault := true)]
    else addrs + [a]
  }

  /** The fields a request body may carry into `Object.assign(address, req.body)`. */
  datatype AddressPatch = AddressPatch(
    addressLabel: Option<string>,
    fullName: Option<string>,
    phone: Option<string>,
    street: Option<string>,
    city: Option<string>,
    province: Option<string>,
    country: Option<string>,
    isDefault: Option<bool>)

  function Pick<T>(o: Option<T>, current: T): T {
    match o
    case Some(v) => v
    case None => current
  }

  /** `Object.assign(address, patch)`: the supplied fields overwrite, the rest stay. */
  function ApplyPatch(a: Address, p: AddressPatch): (r: Address)
    ensures r.id == a.id
    ensures p.isDefault.Some? ==> r.isDefault == p.isDefault.value
    ensures p.isDefault.None? ==> r.isDefault == a.isDefault
    ensures p.street.None? && p.city.None? && p.province.None? ==> (AddressValid(r) <==> AddressValid(a))
  {
    Address(a.id, Pick(p.addressLabel, a.addressLabel), Pick(p.fullName, a.fullName), Pick(p.phone, a.phone),
      Pick(p.street, a.street), Pick(p.city, a.city), Pick(p.province, a.province),
      Pick(p.country, a.country), Pick(p.isDefault, a.isDefault))
  }

  /** Requests an address's default flag be set. */
  predicate SetsDefault(p: AddressPatch) {
    p.isDefault == Some(true)
  }

  /**
   * `updateAddress` (userController.js:35-54): `None` for an unknown id (404);
   * otherwise the patched address, and when the patch sets the default every
   * address with another id loses its flag.
   */
  function UpdateAddress(addrs: seq<Address>, id: nat, p: AddressPatch): (r: Option<seq<Address>>)
    ensures r.None? <==> forall i :: 0 <= i < |addrs| ==> addrs[i].id != id
    ensures r.Some? ==> |r.value| == |addrs|
    ensures r.Some? ==> var i := FindAddress(addrs, id);
      && r.value[i] == ApplyPatch(addrs[i], p)
      && forall j :: 0 <= j < |addrs| && j != i ==>
        r.value[j] == (if SetsDefault(p) && addrs[j].id != id then addrs[j].(isDefault := false) else addrs[j])
  {
    var i := FindAddress(addrs, id);
    if i == |addrs| then None
    else
      var patched := addrs[i := ApplyPatch(addrs[i], p)];
      if SetsDefault(p) then
        Some(seq(|patched|, j requires 0 <= j < |patched| =>
          if patched[j].id != id then patched[j].(isDefault := false) else patched[j]))
      else Some(patched)
  }

  /** With unique ids, updating an address keeps at most one default. */
  lemma UpdateAddressKeepsOneDefault(addrs: seq<Address>, id: nat, p: AddressPatch)
    requires IdsUnique(addrs) && AtMostOneDefault(addrs)
    requires UpdateAddress(addrs, id, p).Some?
    ensures AtMostOneDefault(UpdateAddress(addrs, id, p).value)
    ensures SetsDefault(p) ==> UpdateAddress(addrs, id, p).value[FindAddress(addrs, id)].isDefault
  {
    var r := UpdateAddress(addrs, id, p).value;
    var k := FindAddress(addrs, id);
    forall i, j | 0 <= i < j < |r| ensures !(r[i].isDefault && r[j].isDefault) {
      if SetsDefault(p) {
        assert i != k ==> addrs[i].id != id;
        assert j != k ==> addrs[j].id != id;
      }
    }
  }

  /**
   * `deleteAddress` (userController.js:74-89): `None` for an unknown id
   * (404); otherwise the address is removed and, when it was the default
   * and others remain, the first remaining address becomes the default.
   */
  function DeleteAddress(addrs: seq<Address>, id: nat): (r: Option<seq<Address>>)
    ensures r.None? <==> forall i :: 0 <= i < |addrs| ==> addrs[i].id != id
    ensures r.Some? ==> var i := FindAddress(addrs, id);
      && |r.value| == |addrs| - 1
      && (forall j :: 0 <= j < |r.value| ==> r.value[j].(isDefault := RemoveAt(addrs, i)[j].isDefault) == RemoveAt(addrs, i)[j])
      && (forall j :: 1 <= j < |r.value| ==> r.value[j] == RemoveAt(addrs, i)[j])
      && (addrs[i].isDefault && |r.value| > 0 ==> r.value[0].isDefault)
      && (!addrs[i].isDefault ==> r.value == RemoveAt(addrs, i))
  {
    var i := FindAddress(addrs, id);
    if i == |addrs| then None
    else
      var rest := RemoveAt(addrs, i);
      if addrs[i].isDefault && |rest| > 0 then Some(rest[0 := rest[0].(isDefault := true)])
      else Some(rest)
  }

  /** Deleting an address keeps at most one default. */
  lemma DeleteAddressKeepsOneDefault(addrs: seq<Address>, id: nat)
    requires AtMostOneDefault(addrs)
    requires DeleteAddress(addrs, id).Some?
    ensures AtMostOneDefault(DeleteAddress(addrs, id).value)
  {
    var i := FindAddress(addrs, id);
    var rest := RemoveAt(addrs, i);
    var r := DeleteAddress(addrs, id).value;
    if addrs[i].isDefault && |rest| > 0 {
      forall j | 0 <= j < |rest| ensures !rest[j].isDefault {
        var j' := if j < i then j else j + 1;
        assert rest[j] == addrs[j'] && j' != i;
      }
    } else {
      forall a, b | 0 <= a < b < |rest| ensures !(rest[a].isDefault && rest[b].isDefault) {
        var a' := if a < i then a else a + 1;
        var b' := if b < i then b else b + 1;
        assert rest[a] == addrs[a'] && rest[b] == addrs[b'];
      }
    }
  }
}
