/**
 * The user registry of src/app/user/user.service.ts: three dictionaries from
 * a key to the one live `User` object for it (by lowercased email, by
 * lowercased id text, by room), a current-user slot, the push handler that
 * merges `extend` messages into the user of a room, and the subject `get`
 * returns, which serves a cached user or fetches one and turns caller-pushed
 * snapshots into field-level updates.
 *
 * The gateway (`ApiService.join`, `leave`, `query`, `mutate`) and the
 * observers of subjects are outside the model: every call into them is
 * appended to the service's `log`, in the order the source makes it.
 */
module Users {
  import opened Js
  import Api

  /** The selection set of every user query and of the login mutation. */
  const UserDataFields: string :=
    "\n    id\n    firstname\n    lastname\n    name\n    room\n    games {\n      name\n    }\n  "

  /** A call out of the registry, as it is made. */
  datatype Event =
    | JoinRoom(room: Value)
    | LeaveRoom(room: Value)
    | Query(name: string, parameters: Option<Props>, fields: Api.Fields)
    | Mutate(name: string, parameters: Option<Props>, fields: Api.Fields)
    | Emitted(subject: UserSubject, user: User?)

  /** A message from the socket: an action, a room and a property set. */
  datatype Message = Message(action: string, room: Value, properties: Props)

  /** `email.toLowerCase()` can be evaluated when `email` is tested truthy
      first: a truthy email is a string. */
  predicate EmailReadable(email: Value) {
    Truthy(email) ==> email.Str?
  }

  /** `email.toLowerCase()` */
  function EmailKey(email: Value): (r: string)
    requires email.Str?
    ensures |r| == |email.s|
    ensures forall i :: 0 <= i < |r| ==> r[i] == LowerChar(email.s[i])
    ensures Lower(r) == r
  {
    LowerIdempotent(email.s);
    Lower(email.s)
  }

  /** `(id + '').toLowerCase()` */
  function IdKey(id: Value): (r: string)
    ensures |r| == |ToText(id)|
    ensures forall i :: 0 <= i < |r| ==> r[i] == LowerChar(ToText(id)[i])
    ensures Lower(r) == r
  {
    LowerIdempotent(ToText(id));
    Lower(ToText(id))
  }

  /** `dict[room]` coerces the room to a string key. */
  function RoomKey(room: Value): (r: string)
    ensures room.Str? ==> r == room.s
    ensures Truthy(room) ==> r != ""
  {
    ToText(room)
  }

  /** The `join` call `registerUser` makes for a user's room. */
  function JoinEvents(room: Value): seq<Event> {
    if Truthy(room) then [JoinRoom(room)] else []
  }

  /** The `leave` call made when a user with this room is dropped. */
  function LeaveEvents(room: Value): seq<Event> {
    if Truthy(room) then [LeaveRoom(room)] else []
  }

  /** The keys `unregisterUser` deletes from the email dictionary: the raw
      email text (not lowercased) and the id text. */
  function DroppedEmailKeys(email: Value, id: Value): set<string> {
    (if Truthy(email) then {ToText(email)} else {}) + (if Truthy(id) then {ToText(id)} else {})
  }

  // ---------------------------------------------------------------------------
  // Field-level difference (the observer half of `get`)

  /** The entries of a pushed snapshot whose value is not `===` to the cached
      user's value for that key, in the snapshot's key order. */
  function Diff(snapshot: Props, current: map<string, Value>): (r: Props)
    ensures |r| <= |snapshot|
    ensures forall p :: p in r ==> p in snapshot && p.1 != Get(current, p.0)
  {
    if snapshot == [] then []
    else
      var init := snapshot[..|snapshot| - 1];
      var last := snapshot[|snapshot| - 1];
      assert forall p :: p in init ==> p in snapshot;
      Diff(init, current) + (if last.1 != Get(current, last.0) then [last] else [])
  }

  /** Every entry of the snapshot that differs from the cached value is part
      of the difference. */
  lemma {:induction false} DiffComplete(snapshot: Props, current: map<string, Value>, i: nat)
    requires i < |snapshot| && snapshot[i].1 != Get(current, snapshot[i].0)
    ensures snapshot[i] in Diff(snapshot, current)
  {
    if i < |snapshot| - 1 {
      DiffComplete(snapshot[..|snapshot| - 1], current, i);
    }
  }

  /** Every key of the difference is a key of the snapshot. */
  lemma DiffKeys(snapshot: Props, current: map<string, Value>)
    ensures forall j :: 0 <= j < |Diff(snapshot, current)| ==> HasKey(snapshot, Diff(snapshot, current)[j].0)
  {
    var d := Diff(snapshot, current);
    forall j | 0 <= j < |d|
      ensures HasKey(snapshot, d[j].0)
    {
      assert d[j] in d;
      var k :| 0 <= k < |snapshot| && snapshot[k] == d[j];
      assert snapshot[k].0 == d[j].0;
    }
  }

  lemma DistinctInit(snapshot: Props)
    requires snapshot != [] && DistinctKeys(snapshot)
    ensures DistinctKeys(snapshot[..|snapshot| - 1])
    ensures !HasKey(snapshot[..|snapshot| - 1], snapshot[|snapshot| - 1].0)
  {
    var init := snapshot[..|snapshot| - 1];
    forall i, j | 0 <= i < j < |init|
      ensures init[i].0 != init[j].0
    {
      assert init[i] == snapshot[i] && init[j] == snapshot[j];
    }
    forall j | 0 <= j < |init|
      ensures init[j].0 != snapshot[|snapshot| - 1].0
    {
      assert init[j] == snapshot[j];
    }
  }

  /** Once the difference has been merged into the cached user, the user
      holds every value of the snapshot. */
  lemma {:induction false} DiffThenMergeAgrees(snapshot: Props, current: map<string, Value>, i: nat)
    requires DistinctKeys(snapshot) && i < |snapshot|
    ensures Get(Merge(current, Diff(snapshot, current)), snapshot[i].0) == snapshot[i].1
  {
    var n := |snapshot|;
    var init := snapshot[..n - 1];
    var last := snapshot[n - 1];
    var key := snapshot[i].0;
    var merged := Merge(current, Diff(init, current));
    DistinctInit(snapshot);
    if i < n - 1 {
      assert init[i] == snapshot[i];
      DiffThenMergeAgrees(init, current, i);
      assert key != last.0;
    } else {
      DiffMissesKey(init, current, last.0);
      MergeGet(current, Diff(init, current), key);
    }
    MergeDiffSnoc(snapshot, current);
  }

  /** Merging the difference of a longer snapshot is merging the difference
      of the shorter one, then the last entry if it differs. */
  lemma MergeDiffSnoc(snapshot: Props, current: map<string, Value>)
    requires snapshot != []
    ensures var init, last := snapshot[..|snapshot| - 1], snapshot[|snapshot| - 1];
            Merge(current, Diff(snapshot, current))
            == if last.1 != Get(current, last.0)
               then Merge(current, Diff(init, current))[last.0 := last.1]
               else Merge(current, Diff(init, current))
  {
    var init, last := snapshot[..|snapshot| - 1], snapshot[|snapshot| - 1];
    var d := Diff(init, current);
    if last.1 != Get(current, last.0) {
      assert Diff(snapshot, current) == d + [last];
      MergeSnoc(current, d, last);
    } else {
      assert Diff(snapshot, current) == d;
    }
  }

  /** A key the snapshot does not have is not a key of the difference. */
  lemma DiffMissesKey(snapshot: Props, current: map<string, Value>, key: string)
    requires !HasKey(snapshot, key)
    ensures !HasKey(Diff(snapshot, current), key)
  {
    DiffKeys(snapshot, current);
  }

  /** A snapshot that agrees with the cached user on every key gives an empty
      difference. */
  lemma {:induction false} DiffOfAgreeing(snapshot: Props, current: map<string, Value>)
    requires forall i :: 0 <= i < |snapshot| ==> Get(current, snapshot[i].0) == snapshot[i].1
    ensures Diff(snapshot, current) == []
  {
    if snapshot != [] {
      var init := snapshot[..|snapshot| - 1];
      assert forall i :: 0 <= i < |init| ==> init[i] == snapshot[i];
      DiffOfAgreeing(init, current);
    }
  }

  /** Pushing the same snapshot again after its changes were applied changes
      nothing more: the second difference is empty, so no second update. */
  lemma ResubmitIsQuiet(snapshot: Props, current: map<string, Value>)
    requires DistinctKeys(snapshot)
    ensures Diff(snapshot, Merge(current, Diff(snapshot, current))) == []
  {
    forall i | 0 <= i < |snapshot|
      ensures Get(Merge(current, Diff(snapshot, current)), snapshot[i].0) == snapshot[i].1
    {
      DiffThenMergeAgrees(snapshot, current, i);
    }
    DiffOfAgreeing(snapshot, Merge(current, Diff(snapshot, current)));
  }

  /** The worked case: a cached `{id: 1, name: "A"}` and a pushed
      `{id: 1, name: "B"}` differ only in `name`. */
  lemma RenameExample()
    ensures Diff([("id", Num(1)), ("name", Str("B"))], map["id" := Num(1), "name" := Str("A")])
         == [("name", Str("B"))]
  {
    var snapshot := [("id", Num(1)), ("name", Str("B"))];
    var current := map["id" := Num(1), "name" := Str("A")];
    assert snapshot[..1] == [("id", Num(1))];
    assert [("id", Num(1))][..0] == [];
  }

  /** The `forEach` of `get`'s observer: collects the changed entries and
      whether any was found. */
  method ComputeDiff(snapshot: Props, current: map<string, Value>) returns (properties: Props, touched: bool)
    ensures properties == Diff(snapshot, current)
    ensures touched <==> properties != []
  {
    properties := [];
    touched := false;
    var i := 0;
    while i < |snapshot|
      invariant 0 <= i <= |snapshot|
      invariant properties == Diff(snapshot[..i], current)
      invariant touched <==> properties != []
    {
      var (key, value) := snapshot[i];
      assert snapshot[..i + 1][..i] == snapshot[..i];
      if value != Get(current, key) {
        properties := properties + [(key, value)];
        touched := true;
      }
      i := i + 1;
    }
    assert snapshot[..i] == snapshot;
  }

  // ---------------------------------------------------------------------------
  // Entities

  /** A user: its properties (`id`, `email`, `room` and the profile fields),
      whether it is still alive, and the observer it was fetched for. */
  class User {
    var props: map<string, Value>
    var alive: bool
    const subscription: UserSubject?

    constructor (data: Props, subscription: UserSubject?)
      ensures props == Merge(map[], data) && alive && this.subscription == subscription
      ensures forall key :: Field(key) == Prop(data, key)
    {
      props := Merge(map[], data);
      alive := true;
      this.subscription := subscription;
      new;
      forall key
        ensures Get(props, key) == Prop(data, key)
      {
        MergeGet(map[], data, key);
      }
    }

    /** `user[key]` */
    function Field(key: string): Value
      reads this
    {
      Get(props, key)
    }

    /** Merges a property set, last write wins per key; nothing is persisted. */
    method Extend(properties: Props)
      modifies this
      ensures props == Merge(old(props), properties) && alive == old(alive)
    {
      props := Merge(props, properties);
    }

    /** Marks the user dead; its properties stay. */
    method Kill()
      modifies this
      ensures !alive && props == old(props)
    {
      alive := false;
    }
  }

  class UserService {
    var currentUser: User?
    var usersByRoom: map<string, User>
    var usersById: map<string, User>
    var usersByEmail: map<string, User>
    ghost var log: seq<Event>

    /** Both lowercased dictionaries only ever hold lowercase keys. */
    ghost predicate Valid()
      reads this
    {
      && (forall k :: k in usersByEmail ==> Lower(k) == k)
      && (forall k :: k in usersById ==> Lower(k) == k)
    }

    constructor ()
      ensures Valid()
      ensures currentUser == null && usersByRoom == map[] && usersById == map[] && usersByEmail == map[]
      ensures log == []
    {
      currentUser := null;
      usersByRoom, usersById, usersByEmail := map[], map[], map[];
      log := [];
    }

    // --- lookup

    predicate CurrentHit(parameters: Props)
      reads this
    {
      Truthy(Prop(parameters, "current")) && currentUser != null
    }

    predicate EmailHit(parameters: Props)
      reads this
      requires EmailReadable(Prop(parameters, "email"))
    {
      var email := Prop(parameters, "email");
      Truthy(email) && EmailKey(email) in usersByEmail
    }

    predicate IdHit(parameters: Props)
      reads this
    {
      var id := Prop(parameters, "id");
      Truthy(id) && IdKey(id) in usersById
    }

    predicate RoomHit(parameters: Props)
      reads this
    {
      var room := Prop(parameters, "room");
      Truthy(room) && RoomKey(room) in usersByRoom
    }

    /** The registered user a parameter object designates: the current user
        if asked for and set, else the email match, else the id match, else
        the room match, else none. */
    function GetRegisteredUser(parameters: Props): (r: User?)
      reads this
      requires EmailReadable(Prop(parameters, "email"))
      ensures CurrentHit(parameters) ==> r == currentUser
      ensures !CurrentHit(parameters) && EmailHit(parameters)
              ==> r == usersByEmail[EmailKey(Prop(parameters, "email"))]
      ensures !CurrentHit(parameters) && !EmailHit(parameters) && IdHit(parameters)
              ==> r == usersById[IdKey(Prop(parameters, "id"))]
      ensures !CurrentHit(parameters) && !EmailHit(parameters) && !IdHit(parameters) && RoomHit(parameters)
              ==> r == usersByRoom[RoomKey(Prop(parameters, "room"))]
      ensures r == null <==>
              !CurrentHit(parameters) && !EmailHit(parameters) && !IdHit(parameters) && !RoomHit(parameters)
    {
      var current := Prop(parameters, "current");
      var email := Prop(parameters, "email");
      var id := Prop(parameters, "id");
      var room := Prop(parameters, "room");
      if Truthy(current) && currentUser != null then currentUser
      else if Truthy(email) && EmailKey(email) in usersByEmail then usersByEmail[EmailKey(email)]
      else if Truthy(id) && IdKey(id) in usersById then usersById[IdKey(id)]
      else if Truthy(room) && RoomKey(room) in usersByRoom then usersByRoom[RoomKey(room)]
      else null
    }

    /** A lookup by email alone finds the user stored under the lowercased
        email, or nothing. */
    lemma EmailLookup(e: string)
      requires e != ""
      ensures GetRegisteredUser([("email", Str(e))]) == if Lower(e) in usersByEmail then usersByEmail[Lower(e)] else null
    {
      var q := [("email", Str(e))];
      assert Prop(q, "current") == Undefined && Prop(q, "email") == Str(e);
      assert Prop(q, "id") == Undefined && Prop(q, "room") == Undefined;
    }

    /** A lookup by id alone finds the user stored under the lowercased id
        text, or nothing. */
    lemma IdLookup(id: Value)
      requires Truthy(id)
      ensures GetRegisteredUser([("id", id)]) == if IdKey(id) in usersById then usersById[IdKey(id)] else null
    {
      var q := [("id", id)];
      assert Prop(q, "current") == Undefined && Prop(q, "email") == Undefined;
      assert Prop(q, "id") == id && Prop(q, "room") == Undefined;
    }

    /** A lookup by room alone finds the user stored under the room, or
        nothing. */
    lemma RoomLookup(room: Value)
      requires Truthy(room)
      ensures GetRegisteredUser([("room", room)]) == if RoomKey(room) in usersByRoom then usersByRoom[RoomKey(room)] else null
    {
      var q := [("room", room)];
      assert Prop(q, "current") == Undefined && Prop(q, "email") == Undefined;
      assert Prop(q, "id") == Undefined && Prop(q, "room") == room;
    }

    // --- registration

    /** The registry after `registerUser(user, mark)`, compared with before. */
    twostate predicate Registered(new user: User, mark: Value): (r: bool)
      reads this, user
      requires EmailReadable(user.Field("email"))
      ensures r ==> var email := user.Field("email");
                    Truthy(email) ==> EmailKey(email) in usersByEmail && usersByEmail[EmailKey(email)] == user
      ensures r ==> var id := user.Field("id");
                    Truthy(id) ==> IdKey(id) in usersById && usersById[IdKey(id)] == user
      ensures r ==> var room := user.Field("room");
                    Truthy(room) ==> RoomKey(room) in usersByRoom && usersByRoom[RoomKey(room)] == user
    {
      var email, id, room := user.Field("email"), user.Field("id"), user.Field("room");
      && currentUser == (if Truthy(mark) then user else old(currentUser))
      && usersByEmail == (if Truthy(email) then old(usersByEmail)[EmailKey(email) := user] else old(usersByEmail))
      && usersById == (if Truthy(id) then old(usersById)[IdKey(id) := user] else old(usersById))
      && usersByRoom == (if Truthy(room) then old(usersByRoom)[RoomKey(room) := user] else old(usersByRoom))
    }

    method RegisterUser(user: User, markAsCurrentUser: Value)
      requires Valid() && EmailReadable(user.Field("email"))
      modifies this
      ensures Valid()
      ensures Registered(user, markAsCurrentUser)
      ensures log == old(log) + JoinEvents(user.Field("room"))
    {
      var email, id, room := user.Field("email"), user.Field("id"), user.Field("room");
      if Truthy(markAsCurrentUser) {
        currentUser := user;
      }
      StoreEmail(email, user);
      StoreId(id, user);
      StoreRoom(room, user);
      assert user.Field("email") == email && user.Field("id") == id && user.Field("room") == room;
    }

    /** `if (email) this.usersByEmail[email.toLowerCase()] = user` */
    method StoreEmail(email: Value, user: User)
      requires Valid() && EmailReadable(email)
      modifies this`usersByEmail
      ensures Valid()
      ensures usersByEmail == if Truthy(email) then old(usersByEmail)[EmailKey(email) := user] else old(usersByEmail)
    {
      if Truthy(email) {
        usersByEmail := usersByEmail[EmailKey(email) := user];
      }
    }

    /** `if (id) this.usersById[(id + '').toLowerCase()] = user` */
    method StoreId(id: Value, user: User)
      requires Valid()
      modifies this`usersById
      ensures Valid()
      ensures usersById == if Truthy(id) then old(usersById)[IdKey(id) := user] else old(usersById)
    {
      if Truthy(id) {
        usersById := usersById[IdKey(id) := user];
      }
    }

    /** `if (room) { this.usersByRoom[room] = user; this.api.join(user.room) }` */
    method StoreRoom(room: Value, user: User)
      modifies this`usersByRoom, this`log
      ensures usersByRoom == if Truthy(room) then old(usersByRoom)[RoomKey(room) := user] else old(usersByRoom)
      ensures log == old(log) + JoinEvents(room)
    {
      if Truthy(room) {
        usersByRoom := usersByRoom[RoomKey(room) := user];
        log := log + [JoinRoom(room)];
      }
    }

    /** A user held under its own email, id and room keys is what a lookup by
        any spelling of that email, by that id or by that room returns; this
        is the state `registerUser` leaves behind. */
    lemma RegisteredIsFound(user: User)
      requires EmailReadable(user.Field("email"))
      requires var email := user.Field("email");
               Truthy(email) ==> EmailKey(email) in usersByEmail && usersByEmail[EmailKey(email)] == user
      requires var id := user.Field("id");
               Truthy(id) ==> IdKey(id) in usersById && usersById[IdKey(id)] == user
      requires var room := user.Field("room");
               Truthy(room) ==> RoomKey(room) in usersByRoom && usersByRoom[RoomKey(room)] == user
      ensures var email := user.Field("email");
              Truthy(email) ==>
                forall e :: Lower(e) == EmailKey(email) ==> GetRegisteredUser([("email", Str(e))]) == user
      ensures Truthy(user.Field("id")) ==> GetRegisteredUser([("id", user.Field("id"))]) == user
      ensures Truthy(user.Field("room")) ==> GetRegisteredUser([("room", user.Field("room"))]) == user
    {
      var email, id, room := user.Field("email"), user.Field("id"), user.Field("room");
      forall e | Truthy(email) && Lower(e) == EmailKey(email)
        ensures GetRegisteredUser([("email", Str(e))]) == user
      {
        EmailLookup(e);
      }
      if Truthy(id) {
        IdLookup(id);
      }
      if Truthy(room) {
        RoomLookup(room);
      }
    }

    /** `unregisterUser` as written: the email entry is looked up under the
        raw email, the id text is deleted from the email dictionary, and the
        id dictionary is left alone. */
    method UnregisterUser(user: User)
      requires Valid()
      modifies this, user
      ensures Valid()
      ensures usersByEmail == old(usersByEmail) - DroppedEmailKeys(user.Field("email"), user.Field("id"))
      ensures usersById == old(usersById)
      ensures usersByRoom == old(usersByRoom) - (if Truthy(user.Field("room")) then {RoomKey(user.Field("room"))} else {})
      ensures currentUser == old(currentUser)
      ensures log == old(log) + LeaveEvents(user.Field("room"))
      ensures !user.alive && user.props == old(user.props)
    {
      var email, id, room := user.Field("email"), user.Field("id"), user.Field("room");
      ForgetRawKeys(email, id);
      ForgetUserRoom(room);
      user.Kill();
      assert user.Field("email") == email && user.Field("id") == id && user.Field("room") == room;
    }

    /** What `unregisterUser` evidently means to do: drop the user from each
        dictionary under the key `registerUser` stored it with. */
    method UnregisterUserAsIntended(user: User)
      requires Valid() && EmailReadable(user.Field("email"))
      modifies this, user
      ensures !user.alive && user.props == old(user.props)
      ensures Valid()
      ensures var email := user.Field("email");
              usersByEmail == old(usersByEmail) - (if Truthy(email) then {EmailKey(email)} else {})
      ensures var id := user.Field("id");
              usersById == old(usersById) - (if Truthy(id) then {IdKey(id)} else {})
      ensures var room := user.Field("room");
              usersByRoom == old(usersByRoom) - (if Truthy(room) then {RoomKey(room)} else {})
      ensures currentUser == old(currentUser)
      ensures log == old(log) + LeaveEvents(user.Field("room"))
    {
      var email, id, room := user.Field("email"), user.Field("id"), user.Field("room");
      ForgetUserEmail(email);
      ForgetUserId(id);
      ForgetUserRoom(room);
      user.Kill();
      assert user.Field("email") == email && user.Field("id") == id && user.Field("room") == room;
    }

    /** Once none of a user's own keys is in the dictionaries, no lookup by
        any spelling of its email, by its id or by its room finds anything. */
    lemma UnregisteredIsGone(user: User)
      requires EmailReadable(user.Field("email"))
      requires var email := user.Field("email"); Truthy(email) ==> EmailKey(email) !in usersByEmail
      requires var id := user.Field("id"); Truthy(id) ==> IdKey(id) !in usersById
      requires var room := user.Field("room"); Truthy(room) ==> RoomKey(room) !in usersByRoom
      ensures var email := user.Field("email");
              Truthy(email) ==> forall e :: Lower(e) == EmailKey(email) ==> GetRegisteredUser([("email", Str(e))]) == null
      ensures Truthy(user.Field("id")) ==> GetRegisteredUser([("id", user.Field("id"))]) == null
      ensures Truthy(user.Field("room")) ==> GetRegisteredUser([("room", user.Field("room"))]) == null
    {
      var email, id, room := user.Field("email"), user.Field("id"), user.Field("room");
      forall e | Truthy(email) && Lower(e) == EmailKey(email)
        ensures GetRegisteredUser([("email", Str(e))]) == null
      {
        EmailLookup(e);
      }
      if Truthy(id) {
        IdLookup(id);
      }
      if Truthy(room) {
        RoomLookup(room);
      }
    }

    /** The email dictionary holds only lowercase keys, so an email that
        lowercasing changes is never one of them: the raw-email delete of
        `unregisterUser` finds nothing to remove for such a user. */
    lemma MixedCaseIsNoKey(raw: string)
      requires Valid() && Lower(raw) != raw
      ensures raw !in usersByEmail
    {
    }

    /** `if (this.usersByEmail[key]) delete this.usersByEmail[key]` */
    method ForgetEmailKey(key: string)
      requires Valid()
      modifies this`usersByEmail
      ensures Valid()
      ensures usersByEmail == old(usersByEmail) - {key}
    {
      if key in usersByEmail {
        usersByEmail := usersByEmail - {key};
      }
    }

    /** The two deletions `unregisterUser` makes in the email dictionary:
        under the raw email text, then under the id text. */
    method ForgetRawKeys(email: Value, id: Value)
      requires Valid()
      modifies this`usersByEmail
      ensures Valid()
      ensures usersByEmail == old(usersByEmail) - DroppedEmailKeys(email, id)
    {
      if Truthy(email) {
        ForgetEmailKey(ToText(email));
      }
      if Truthy(id) {
        ForgetEmailKey(ToText(id));
      }
    }

    /** Deletes a user's email entry under the key it was stored with. */
    method ForgetUserEmail(email: Value)
      requires Valid() && EmailReadable(email)
      modifies this`usersByEmail
      ensures Valid()
      ensures usersByEmail == old(usersByEmail) - (if Truthy(email) then {EmailKey(email)} else {})
    {
      if Truthy(email) {
        ForgetEmailKey(EmailKey(email));
      }
    }

    /** Deletes a user's id entry under the key it was stored with. */
    method ForgetUserId(id: Value)
      requires Valid()
      modifies this`usersById
      ensures Valid()
      ensures usersById == old(usersById) - (if Truthy(id) then {IdKey(id)} else {})
    {
      if Truthy(id) && IdKey(id) in usersById {
        usersById := usersById - {IdKey(id)};
      }
    }

    /** `if (room) { if (this.usersByRoom[room]) delete this.usersByRoom[room];
        this.api.leave(user.room) }` */
    method ForgetUserRoom(room: Value)
      modifies this`usersByRoom, this`log
      ensures usersByRoom == old(usersByRoom) - (if Truthy(room) then {RoomKey(room)} else {})
      ensures log == old(log) + LeaveEvents(room)
    {
      if Truthy(room) {
        if RoomKey(room) in usersByRoom {
          usersByRoom := usersByRoom - {RoomKey(room)};
        }
        log := log + [LeaveRoom(room)];
      }
    }

    // --- current user

    /** Leaves the current user's room, if it has one, and clears the slot;
        the dictionaries keep the user. */
    method InvalidCurrentUser()
      requires currentUser != null
      modifies this
      ensures currentUser == null
      ensures usersByRoom == old(usersByRoom) && usersById == old(usersById) && usersByEmail == old(usersByEmail)
      ensures log == old(log) + LeaveEvents(old(currentUser.Field("room")))
    {
      var room := currentUser.Field("room");
      if Truthy(room) {
        log := log + [LeaveRoom(room)];
      }
      currentUser := null;
    }

    method Logout()
      requires currentUser != null
      modifies this
      ensures currentUser == null
      ensures usersByRoom == old(usersByRoom) && usersById == old(usersById) && usersByEmail == old(usersByEmail)
      ensures log == old(log) + LeaveEvents(old(currentUser.Field("room"))) + [Mutate("logout", None, Api.Absent)]
    {
      InvalidCurrentUser();
      log := log + [Mutate("logout", None, Api.Absent)];
    }

    /** Sends the `login` mutation; its answer is handled by `OnLoginResult`. */
    method Login(email: string, password: string, remember: Value)
      modifies this`log
      ensures log == old(log) + [Mutate("login", Some([("email", Str(email)), ("password", Str(password)),
                                                       ("remember", remember)]),
                                        Api.Text(UserDataFields))]
    {
      log := log + [Mutate("login", Some([("email", Str(email)), ("password", Str(password)),
                                          ("remember", remember)]),
                           Api.Text(UserDataFields))];
    }

    /** The answer to `login`: no user resolves `null` and registers nothing;
        a user is built without a subscription and registered as current. */
    method OnLoginResult(login: Option<Props>) returns (user: User?)
      requires Valid()
      requires login.Some? ==> EmailReadable(Prop(login.value, "email"))
      modifies this
      ensures Valid()
      ensures login.None? ==> user == null && unchanged(this)
      ensures login.Some? ==>
                && user != null && fresh(user)
                && user.props == Merge(map[], login.value) && user.alive && user.subscription == null
                && user.Field("email") == Prop(login.value, "email")
                && Registered(user, Bool(true))
                && currentUser == user
                && log == old(log) + JoinEvents(user.Field("room"))
    {
      if login.None? {
        return null;
      }
      user := new User(login.value, null);
      RegisterUser(user, Bool(true));
    }

    /** `user.update(properties)` for a user built by this service: merges the
        properties, then the persist callback sets `properties.id` to the
        user's id and sends the `updateUser` mutation. */
    method UpdateUser(user: User, properties: Props)
      modifies this`log, user
      ensures user.props == Merge(old(user.props), properties) && user.alive == old(user.alive)
      ensures log == old(log) + [Mutate("updateUser", Some(SetProp(properties, "id", user.Field("id"))),
                                        Api.Text("updated_at"))]
    {
      user.Extend(properties);
      log := log + [Mutate("updateUser", Some(SetProp(properties, "id", user.Field("id"))),
                           Api.Text("updated_at"))];
    }

    // --- push

    /** The socket subscription of the constructor: an `extend` message for a
        registered room is merged into that room's user, which is then
        emitted on its subscription if it has one; anything else is
        dropped. */
    method HandleMessage(message: Message)
      modifies this`log, usersByRoom.Values
      ensures var target := if message.action == "extend"
                            then old(GetRegisteredUser([("room", message.room)])) else null;
              && (target != null ==> target.props == Merge(old(target.props), message.properties))
              && (forall u :: u in usersByRoom.Values && u != target ==> u.props == old(u.props))
              && (forall u :: u in usersByRoom.Values ==> u.alive == old(u.alive))
              && log == old(log) + (if target != null && target.subscription != null
                                    then [Emitted(target.subscription, target)] else [])
    {
      if message.action == "extend" {
        var user := GetRegisteredUser([("room", message.room)]);
        if user != null {
          assert user in usersByRoom.Values;
          user.Extend(message.properties);
          if user.subscription != null {
            log := log + [Emitted(user.subscription, user)];
          }
        }
      }
    }

    // --- get

    /** `get(parameters)`: a subject that has not been subscribed to yet. */
    method Get(parameters: Props) returns (subject: UserSubject)
      ensures fresh(subject)
      ensures subject.service == this && subject.parameters == parameters
      ensures subject.user == null && !subject.querying
    {
      subject := new UserSubject(this, parameters);
    }
  }

  /** The subject `get` returns. `user` is the variable its callbacks share:
      it is set only when the users query answers with a user. */
  class UserSubject {
    const service: UserService
    const parameters: Props
    var user: User?
    var querying: bool

    constructor (service: UserService, parameters: Props)
      ensures this.service == service && this.parameters == parameters
      ensures user == null && !querying
    {
      this.service := service;
      this.parameters := parameters;
      user := null;
      querying := false;
    }

    /** Subscribing: a registered user is emitted at once, with no query;
        otherwise the `users` query is sent. */
    method Subscribe()
      requires EmailReadable(Prop(parameters, "email"))
      modifies this`querying, service`log
      ensures var hit := old(service.GetRegisteredUser(parameters));
              && (hit != null ==> service.log == old(service.log) + [Emitted(this, hit)] && querying == old(querying))
              && (hit == null ==> service.log == old(service.log) + [Query("users", Some(parameters), Api.Text(UserDataFields))]
                                  && querying)
    {
      var registeredUser := service.GetRegisteredUser(parameters);
      if registeredUser != null {
        service.log := service.log + [Emitted(this, registeredUser)];
        return;
      }
      service.log := service.log + [Query("users", Some(parameters), Api.Text(UserDataFields))];
      querying := true;
    }

    /** The answer to the `users` query, as its first user or none: none
        emits `null` and registers nothing; a user is built with this
        subject as its subscription, registered (as current iff the
        parameters ask for the current user) and emitted. */
    method OnUsersResult(first: Option<Props>)
      requires querying && service.Valid()
      requires first.Some? ==> EmailReadable(Prop(first.value, "email"))
      modifies this`user, service
      ensures service.Valid()
      ensures first.None? ==>
                && user == old(user)
                && unchanged(service`currentUser, service`usersByRoom, service`usersById, service`usersByEmail)
                && service.log == old(service.log) + [Emitted(this, null)]
      ensures first.Some? ==>
                && user != null && fresh(user)
                && user.props == Merge(map[], first.value) && user.alive && user.subscription == this
                && user.Field("email") == Prop(first.value, "email")
                && service.Registered(user, Prop(parameters, "current"))
                && service.log == old(service.log) + JoinEvents(user.Field("room")) + [Emitted(this, user)]
    {
      if first.None? {
        service.log := service.log + [Emitted(this, null)];
        return;
      }
      var fetched := new User(first.value, this);
      user := fetched;
      service.RegisterUser(fetched, Prop(parameters, "current"));
      service.log := service.log + [Emitted(this, fetched)];
    }

    /** A snapshot pushed by the caller: if this subject fetched its user, the
        entries that differ from it are sent as one update; otherwise, and
        when nothing differs, nothing happens. */
    method Next(snapshot: Props)
      modifies service`log, user
      ensures user == old(user)
      ensures user != null ==> user.alive == old(user.alive)
      ensures user == null ==> service.log == old(service.log)
      ensures user != null ==>
                var changed := Diff(snapshot, old(user.props));
                && user.props == Merge(old(user.props), changed)
                && service.log == old(service.log)
                   + (if changed == [] then []
                      else [Mutate("updateUser", Some(SetProp(changed, "id", user.Field("id"))), Api.Text("updated_at"))])
    {
      if user != null {
        var properties, touched := ComputeDiff(snapshot, user.props);
        if touched {
          service.UpdateUser(user, properties);
        }
      }
    }
  }

  /** A user registered under an id and a mixed-case email, then
      unregistered, is still what a lookup by that id and a lookup by that
      email return: the id entry is never deleted, and the email entry is
      looked for under the raw email rather than its lowercased key. */
  method RegisterThenUnregister(service: UserService, user: User) returns (byId: User?, byEmail: User?)
    requires service.Valid()
    requires var email, id := user.Field("email"), user.Field("id");
             && Truthy(id) && email.Str? && email.s != ""
             && Lower(email.s) != email.s && Lower(email.s) != ToText(id)
    modifies service, user
    ensures !user.alive
    ensures byId == user && byEmail == user
  {
    var email, id := user.Field("email"), user.Field("id");
    service.RegisterUser(user, Bool(false));
    assert IdKey(id) in service.usersById && service.usersById[IdKey(id)] == user;
    assert Lower(email.s) in service.usersByEmail && service.usersByEmail[Lower(email.s)] == user;
    ghost var byIdKey, byEmailKey := service.usersById, service.usersByEmail;
    service.MixedCaseIsNoKey(email.s);
    service.UnregisterUser(user);
    assert Lower(email.s) !in DroppedEmailKeys(email, id);
    assert service.usersById == byIdKey;
    assert service.usersByEmail[Lower(email.s)] == user;
    service.IdLookup(id);
    service.EmailLookup(email.s);
    byId := service.GetRegisteredUser([("id", id)]);
    byEmail := service.GetRegisteredUser([("email", email)]);
  }

  /** The user `{id: 7, email: "X@y.com"}` is such a user. */
  lemma MixedCaseEmailExample()
    ensures var email, id := Str("X@y.com"), Num(7);
            Lower(email.s) != email.s && Lower(email.s) != ToText(id)
  {
    assert Lower("X@y.com") == "x@y.com";
  }
}
