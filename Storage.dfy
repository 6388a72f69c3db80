/**
 * The browser's localStorage as the demo uses it (src/utils/storage.ts, plus the
 * two session keys of src/context/AuthContext.tsx). Each key holds a value or is
 * absent (None); JSON encoding and decoding are taken as the identity, except
 * that the stored user may be text that does not parse.
 */
module Storage {
  import opened Types
  import MockData

  /** What `zenya_user` holds: a serialized user, or text JSON.parse rejects. */
  datatype StoredUser = UserJson(user: User) | Unparsable(text: string)

  /** Find-index over bookings by id: the first position, or -1 when there is none. */
  function IndexOfId(bs: seq<Booking>, id: string): (k: int)
    ensures -1 <= k < |bs|
    ensures k == -1 <==> !HasId(bs, id)
    ensures k >= 0 ==> bs[k].id == id && forall i :: 0 <= i < k ==> bs[i].id != id
    decreases |bs|
  {
    if bs == [] then -1
    else if bs[0].id == id then 0
    else
      var k := IndexOfId(bs[1..], id);
      assert forall i :: 1 <= i < |bs| ==> bs[i] == bs[1..][i - 1];
      if k == -1 then -1 else k + 1
  }

  /** `bookings.filter(b => b.id !== id)`. */
  function WithoutId(bs: seq<Booking>, id: string): (r: seq<Booking>)
    decreases |bs|
  {
    if bs == [] then []
    else if bs[0].id == id then WithoutId(bs[1..], id)
    else [bs[0]] + WithoutId(bs[1..], id)
  }

  /** The list a key yields on read: its value, or the empty list when absent. */
  function ListOrEmpty<T>(stored: Option<seq<T>>): seq<T>
  {
    if stored.None? then [] else stored.value
  }

  /** A key after the seeding of `initializeLocalStorage`: written only when absent. */
  function Seeded<T>(stored: Option<seq<T>>, seed: seq<T>): Option<seq<T>>
  {
    if stored.None? then Some(seed) else stored
  }

  /** The bookings key after `updateBooking(u)`: the first booking with u's id
      replaced, and no write at all when there is none. */
  function AfterUpdate(stored: Option<seq<Booking>>, u: Booking): Option<seq<Booking>>
  {
    var bs := ListOrEmpty(stored);
    var k := IndexOfId(bs, u.id);
    if k == -1 then stored else Some(bs[k := u])
  }

  class LocalStorage {
    var bookings: Option<seq<Booking>>   // zenya_bookings
    var services: Option<seq<Service>>   // zenya_services
    var users: Option<seq<User>>         // zenya_users
    var user: Option<StoredUser>         // zenya_user
    var token: Option<string>            // zenya_token

    /** A browser profile with none of the keys set. */
    constructor Empty()
      ensures bookings.None? && services.None? && users.None? && user.None? && token.None?
    {
      bookings, services, users, user, token := None, None, None, None, None;
    }

    /** `initializeLocalStorage`: seed each of the three collection keys that is absent. */
    method Initialize(generated: seq<Booking>)
      modifies this
      ensures bookings == Seeded(old(bookings), generated)
      ensures services == Seeded(old(services), MockData.Catalog)
      ensures users == Seeded(old(users), MockData.MockUsers)
      ensures user == old(user) && token == old(token)
      ensures GetBookings() == if old(bookings).Some? then old(bookings).value else generated
      ensures GetServices() == if old(services).Some? then old(services).value else MockData.Catalog
      ensures GetUsers() == if old(users).Some? then old(users).value else MockData.MockUsers
    {
      if bookings.None? {
        bookings := Some(generated);
      }
      if services.None? {
        services := Some(MockData.Catalog);
      }
      if users.None? {
        users := Some(MockData.MockUsers);
      }
    }

    /** The application start-up seeds twice (once in the entry point, once in the
        root component); the second call finds every key present and writes nothing. */
    method InitializeTwice(generated: seq<Booking>)
      modifies this
      ensures bookings == Seeded(old(bookings), generated)
      ensures services == Seeded(old(services), MockData.Catalog)
      ensures users == Seeded(old(users), MockData.MockUsers)
      ensures user == old(user) && token == old(token)
    {
      Initialize(generated);
      Initialize(generated);
    }

    function GetBookings(): seq<Booking>
      reads this
    {
      ListOrEmpty(bookings)
    }

    function GetServices(): seq<Service>
      reads this
    {
      ListOrEmpty(services)
    }

    function GetUsers(): seq<User>
      reads this
    {
      ListOrEmpty(users)
    }

    /** `addBooking`: read the list, push, write it back. */
    method AddBooking(b: Booking)
      modifies this
      ensures bookings == Some(old(GetBookings()) + [b])
      ensures services == old(services) && users == old(users)
      ensures user == old(user) && token == old(token)
      ensures GetBookings() == old(GetBookings()) + [b]
    {
      var list := GetBookings();
      list := list + [b];
      bookings := Some(list);
    }

    /** `updateBooking`: overwrite the first booking with the same id; no write when none has it. */
    method UpdateBooking(u: Booking)
      modifies this
      ensures bookings == AfterUpdate(old(bookings), u)
      ensures services == old(services) && users == old(users)
      ensures user == old(user) && token == old(token)
      ensures |GetBookings()| == |old(GetBookings())|
    {
      var list := GetBookings();
      var index := IndexOfId(list, u.id);
      if index != -1 {
        list := list[index := u];
        bookings := Some(list);
      }
    }

    /** `deleteBooking`: keep every booking with another id; always writes. */
    method DeleteBooking(id: string)
      modifies this
      ensures bookings == Some(WithoutId(old(GetBookings()), id))
      ensures services == old(services) && users == old(users)
      ensures user == old(user) && token == old(token)
      ensures GetBookings() == WithoutId(old(GetBookings()), id)
    {
      var list := GetBookings();
      bookings := Some(WithoutId(list, id));
    }

    /** `getServiceById`: the first stored service with that id. */
    function GetServiceById(id: string): (r: Option<Service>)
      reads this
      ensures r.None? <==> forall i :: 0 <= i < |GetServices()| ==> GetServices()[i].id != id
      ensures r.Some? ==> r.value.id == id && r.value in GetServices()
      ensures r.Some? ==> exists k :: 0 <= k < |GetServices()| && GetServices()[k] == r.value
                            && forall i :: 0 <= i < k ==> GetServices()[i].id != id
    {
      MockData.FindService(GetServices(), id)
    }

    /** `getCurrentUser`: the first admin, else the first user (undefined on an empty list). */
    function GetCurrentUser(): (r: Option<User>)
      reads this
      ensures r.None? <==> GetUsers() == []
      ensures r.Some? ==> r.value in GetUsers()
      ensures (exists i :: 0 <= i < |GetUsers()| && GetUsers()[i].role == Admin) <==> (r.Some? && r.value.role == Admin)
    {
      CurrentUserOf(GetUsers())
    }
  }

  /** `users.find(u => u.role === 'admin') || users[0]`. */
  function CurrentUserOf(users: seq<User>): (r: Option<User>)
    ensures r.None? <==> users == []
    ensures (exists i :: 0 <= i < |users| && users[i].role == Admin) ==>
              (r.Some? && r.value.role == Admin &&
               exists k :: 0 <= k < |users| && users[k] == r.value &&
                           forall i :: 0 <= i < k ==> users[i].role != Admin)
    ensures users != [] && (forall i :: 0 <= i < |users| ==> users[i].role != Admin) ==>
              r == Some(users[0])
  {
    var admin := FirstAdmin(users);
    if admin.Some? then admin
    else if users == [] then None
    else Some(users[0])
  }

  function FirstAdmin(users: seq<User>): (r: Option<User>)
    ensures r.None? <==> forall i :: 0 <= i < |users| ==> users[i].role != Admin
    ensures r.Some? ==> (r.value.role == Admin &&
              exists k :: 0 <= k < |users| && users[k] == r.value &&
                          forall i :: 0 <= i < k ==> users[i].role != Admin)
    decreases |users|
  {
    if users == [] then None
    else if users[0].role == Admin then Some(users[0])
    else
      var r := FirstAdmin(users[1..]);
      assert forall i :: 1 <= i < |users| ==> users[i] == users[1..][i - 1];
      assert r.Some? ==> exists k :: 0 <= k < |users| && users[k] == r.value &&
                          forall i :: 0 <= i < k ==> users[i].role != Admin by {
        if r.Some? {
          var k :| 0 <= k < |users[1..]| && users[1..][k] == r.value &&
                   forall i :: 0 <= i < k ==> users[1..][i].role != Admin;
          assert users[k + 1] == r.value;
        }
      }
      r
  }

  // ------------------------------------------------------------------ lemmas

  /** Seeding a second time writes nothing. */
  lemma SeedingIdempotent<T>(stored: Option<seq<T>>, seed: seq<T>)
    ensures Seeded(Seeded(stored, seed), seed) == Seeded(stored, seed)
  {
  }

  /** Updating replaces at most one element: length and every other position are
      kept, and the replaced one is the first with that id. */
  lemma UpdateReplacesFirstMatchOnly(stored: Option<seq<Booking>>, u: Booking)
    ensures var before, after := ListOrEmpty(stored), ListOrEmpty(AfterUpdate(stored, u));
      && |after| == |before|
      && (!HasId(before, u.id) ==> AfterUpdate(stored, u) == stored)
      && (HasId(before, u.id) ==>
            exists k :: 0 <= k < |before| && before[k].id == u.id && after[k] == u
              && (forall i :: 0 <= i < k ==> before[i].id != u.id)
              && (forall i :: 0 <= i < |before| && i != k ==> after[i] == before[i]))
  {
    var before := ListOrEmpty(stored);
    var k := IndexOfId(before, u.id);
    if k != -1 {
      assert ListOrEmpty(AfterUpdate(stored, u))[k] == u;
    }
  }

  /** Deleting keeps exactly the bookings with another id. */
  lemma {:induction false} WithoutIdMembers(bs: seq<Booking>, id: string)
    ensures forall b :: b in WithoutId(bs, id) <==> b in bs && b.id != id
    decreases |bs|
  {
    if bs != [] {
      WithoutIdMembers(bs[1..], id);
      assert forall b :: b in bs <==> b == bs[0] || b in bs[1..];
    }
  }

  /** Deleting keeps the survivors in their original order: filtering distributes over concatenation. */
  lemma {:induction false} WithoutIdAppend(xs: seq<Booking>, ys: seq<Booking>, id: string)
    ensures WithoutId(xs + ys, id) == WithoutId(xs, id) + WithoutId(ys, id)
    decreases |xs|
  {
    if xs == [] {
      assert xs + ys == ys;
    } else {
      assert (xs + ys)[0] == xs[0] && (xs + ys)[1..] == xs[1..] + ys;
      WithoutIdAppend(xs[1..], ys, id);
    }
  }

  /** Deleting an id no booking carries leaves the list as it was, and deleting twice is deleting once. */
  lemma {:induction false} WithoutIdIdempotent(bs: seq<Booking>, id: string)
    ensures WithoutId(WithoutId(bs, id), id) == WithoutId(bs, id)
    ensures !HasId(bs, id) ==> WithoutId(bs, id) == bs
    decreases |bs|
  {
    if bs != [] {
      WithoutIdIdempotent(bs[1..], id);
      if !HasId(bs, id) {
        assert !HasId(bs[1..], id) by {
          forall i | 0 <= i < |bs[1..]| ensures bs[1..][i].id != id {
            assert bs[1..][i] == bs[i + 1];
          }
        }
      }
    }
  }

  /** On the seeded store the current user is the catalog's admin. */
  lemma SeededCurrentUserIsAdmin()
    ensures CurrentUserOf(MockData.MockUsers) == Some(MockData.MockUsers[0])
  {
    assert MockData.MockUsers[0].role == Admin;
  }
}
