/** The user directory: the list of registered users and, for each of them, the number of shift
    records and the earnings stored under that user's email. */
module UsersDirectory {
  import opened Wrappers
  import opened ShiftBean
  import opened UserBean
  import opened Backend

  /** One child of the Users node: its key (the account uid) and the User it deserialises to,
      None when it deserialises to null. */
  datatype UserChild = UserChild(key: string, user: Option<UserData>)

  /** The user a non-null child is listed as: the stored fields with id set to the child's key. */
  function Keyed(child: UserChild): UserData
    requires child.user.Some?
  {
    child.user.value.(id := Some(child.key))
  }

  /** The value a record gives a property: the stored value when the key is present, the
      default null otherwise. */
  function Property(rec: Record, key: string): Option<string> {
    if key in rec then rec[key] else None
  }

  /** The User a record of string values deserialises to: a default User whose properties are set
      from the keys present. */
  function UserOfRecord(rec: Record): UserData {
    EmptyUser.(username := Property(rec, "username"), profileImage := Property(rec, "profileImage"),
               age := Property(rec, "age"), phoneNumber := Property(rec, "phoneNumber"),
               email := Property(rec, "email"))
  }

  /** A profile written at sign-up or at a first federated sign-in is listed with the values
      written, the account uid as id, no profile image, no shifts and no earnings (until its
      shift query is answered). */
  lemma ProfileReadBack(w: Write, uid: string, username: Option<string>, email: Option<string>,
                        age: Option<string>, phoneNumber: Option<string>)
    requires IsUserWrite(w, uid, username, email, age, phoneNumber)
    ensures Keyed(UserChild(w.path[1], Some(UserOfRecord(w.record))))
         == UserData(Some(uid), username, None, age, phoneNumber, email, 0, 0.0)
  {
    assert "profileImage" !in USER_KEYS;
  }

  /** The users the list holds after a snapshot: the non-null children, in snapshot order, each with
      its key as id. */
  function Listed(snapshot: seq<UserChild>): (r: seq<UserData>)
    ensures |r| <= |snapshot|
  {
    if snapshot == [] then []
    else
      var last := snapshot[|snapshot| - 1];
      Listed(snapshot[..|snapshot| - 1]) + (if last.user.Some? then [Keyed(last)] else [])
  }

  /** Every listed user is a non-null child with its key, and every non-null child is listed. */
  lemma {:induction false} ListedMembers(snapshot: seq<UserChild>)
    ensures forall i :: 0 <= i < |Listed(snapshot)| ==>
              exists j :: 0 <= j < |snapshot| && snapshot[j].user.Some? && Listed(snapshot)[i] == Keyed(snapshot[j])
    ensures forall j :: 0 <= j < |snapshot| && snapshot[j].user.Some? ==> Keyed(snapshot[j]) in Listed(snapshot)
    decreases |snapshot|
  {
    if snapshot != [] {
      var init, last := snapshot[..|snapshot| - 1], snapshot[|snapshot| - 1];
      ListedMembers(init);
      var tail := if last.user.Some? then [Keyed(last)] else [];
      assert Listed(snapshot) == Listed(init) + tail;
      forall i | 0 <= i < |Listed(snapshot)|
        ensures exists j :: 0 <= j < |snapshot| && snapshot[j].user.Some? && Listed(snapshot)[i] == Keyed(snapshot[j])
      {
        if i < |Listed(init)| {
          assert Listed(snapshot)[i] == Listed(init)[i];
          assert exists j :: 0 <= j < |init| && init[j].user.Some? && Listed(init)[i] == Keyed(init[j]);
          var j :| 0 <= j < |init| && init[j].user.Some? && Listed(init)[i] == Keyed(init[j]);
          assert init[j] == snapshot[j];
        } else {
          assert Listed(snapshot)[i] == Keyed(snapshot[|snapshot| - 1]);
        }
      }
      forall j | 0 <= j < |snapshot| && snapshot[j].user.Some?
        ensures Keyed(snapshot[j]) in Listed(snapshot)
      {
        if j < |init| {
          assert init[j] == snapshot[j];
        }
      }
    } else {
      assert Listed(snapshot) == [];
    }
  }

  /** Listing a concatenation lists the parts one after the other: the list keeps snapshot order. */
  lemma {:induction false} ListedAppend(a: seq<UserChild>, b: seq<UserChild>)
    ensures Listed(a + b) == Listed(a) + Listed(b)
    decreases |b|
  {
    if b == [] {
      assert a + b == a;
    } else {
      var b' := b[..|b| - 1];
      assert (a + b)[..|a + b| - 1] == a + b';
      ListedAppend(a, b');
    }
  }

  /** A snapshot of null children lists nobody. */
  lemma {:induction false} ListedOfNulls(snapshot: seq<UserChild>)
    requires forall j :: 0 <= j < |snapshot| ==> snapshot[j].user == None
    ensures Listed(snapshot) == []
  {
    if snapshot != [] {
      ListedOfNulls(snapshot[..|snapshot| - 1]);
    }
  }

  /** getValue(User.class): a new User whose fields are those stored in the record. */
  method ReadUser(d: UserData) returns (u: User)
    ensures fresh(u) && u.Data() == d
  {
    u := new User();
    u.SetId(d.id);
    u.SetUsername(d.username);
    u.SetProfileImage(d.profileImage);
    u.SetAge(d.age);
    u.SetPhoneNumber(d.phoneNumber);
    u.SetEmail(d.email);
    u.SetShiftsCount(d.shiftsCount);
    u.SetTotalEarnings(d.totalEarnings);
  }

  /** The user a non-null child is listed as: getValue, then setId with the child's key. */
  method ReadChild(child: UserChild) returns (u: User)
    requires child.user.Some?
    ensures fresh(u) && u.Data() == Keyed(child)
  {
    u := ReadUser(child.user.value);
    u.SetId(Some(child.key));
  }

  /** The figures fetchUserShiftsCount's query answer yields: the number of children, counting
      those that deserialise to null, and the sum of the earnings of the others. */
  method CountShifts(children: seq<Option<ShiftData>>) returns (count: nat, total: real)
    ensures count == |children|
    ensures total == SumEarnings(Somes(children))
  {
    count := |children|;
    total := 0.0;
    for i := 0 to |children|
      invariant total == SumEarnings(Somes(children[..i]))
    {
      assert children[..i + 1][..i] == children[..i];
      if children[i].Some? {
        var v := children[i].value;
        assert Somes(children[..i + 1]) == Somes(children[..i]) + [v];
        assert (Somes(children[..i]) + [v])[..|Somes(children[..i])|] == Somes(children[..i]);
        total := total + v.totalEarnings;
      } else {
        assert Somes(children[..i + 1]) == Somes(children[..i]) + [];
        assert Somes(children[..i]) + [] == Somes(children[..i]);
      }
    }
    assert children[..|children|] == children;
  }

  /** A child that deserialises to null adds one to the count and nothing to the earnings. */
  lemma NullChildAddsNothing(children: seq<Option<ShiftData>>)
    ensures |children + [None]| == |children| + 1
    ensures SumEarnings(Somes(children + [None])) == SumEarnings(Somes(children))
  {
    assert (children + [None])[..|children|] == children;
    assert Somes(children + [None]) == Somes(children) + [];
    assert Somes(children) + [] == Somes(children);
  }

  /** Splitting a query answer in two splits its earnings sum in two. */
  lemma EarningsSplit(a: seq<Option<ShiftData>>, b: seq<Option<ShiftData>>)
    ensures SumEarnings(Somes(a + b)) == SumEarnings(Somes(a)) + SumEarnings(Somes(b))
  {
    SomesAppend(a, b);
    SumEarningsAppend(Somes(a), Somes(b));
  }

  /** Shifts whose stored earnings are all non-negative sum to a non-negative total. */
  lemma {:induction false} EarningsNonNegative(children: seq<Option<ShiftData>>)
    requires forall i :: 0 <= i < |children| && children[i].Some? ==> children[i].value.totalEarnings >= 0.0
    ensures SumEarnings(Somes(children)) >= 0.0
    decreases |children|
  {
    if children != [] {
      var init := children[..|children| - 1];
      EarningsNonNegative(init);
      EarningsSplit(init, [children[|children| - 1]]);
      assert init + [children[|children| - 1]] == children;
    }
  }

  /** The Users screen's list. */
  class UsersScreen {
    var userList: seq<User>

    /** The listed users are distinct objects, so the answer for one user changes no other. */
    predicate Valid()
      reads this
    {
      forall i, j :: 0 <= i < j < |userList| ==> userList[i] != userList[j]
    }

    constructor ()
      ensures Valid() && userList == []
    {
      userList := [];
    }

    /** fetchUsers' onDataChange: clears the list and appends a new User per non-null child, in
        snapshot order, with id set to the child's key. For each appended user it issues the shift
        query on that user's email; queries lists those emails in the order they are issued. */
    method FetchUsers(snapshot: seq<UserChild>) returns (queries: seq<Option<string>>)
      modifies this
      ensures Valid()
      ensures |userList| == |Listed(snapshot)| && |queries| == |userList|
      ensures forall i :: 0 <= i < |userList| ==> fresh(userList[i])
      ensures forall i :: 0 <= i < |userList| ==> userList[i].Data() == Listed(snapshot)[i]
      ensures forall i :: 0 <= i < |queries| ==> queries[i] == Listed(snapshot)[i].email
    {
      userList := [];
      queries := [];
      for k := 0 to |snapshot|
        invariant Valid()
        invariant |userList| == |Listed(snapshot[..k])| && |queries| == |userList|
        invariant forall i :: 0 <= i < |userList| ==> fresh(userList[i])
        invariant forall i :: 0 <= i < |userList| ==> userList[i].Data() == Listed(snapshot[..k])[i]
        invariant forall i :: 0 <= i < |queries| ==> queries[i] == Listed(snapshot[..k])[i].email
      {
        assert snapshot[..k + 1] == snapshot[..k] + [snapshot[k]];
        ListedAppend(snapshot[..k], [snapshot[k]]);
        var child := snapshot[k];
        if child.user.Some? {
          var user := ReadChild(child);
          queries := queries + [user.GetEmail()];
          userList := userList + [user];
        }
      }
      assert snapshot[..|snapshot|] == snapshot;
    }

    /** fetchUserShiftsCount's onDataChange for user, given the children found under its email:
        only that user's shiftsCount (the count cast to int) and totalEarnings change. The list
        itself and every other listed user stay as they are. */
    method OnShiftsCounted(user: User, children: seq<Option<ShiftData>>)
      modifies user
      ensures user.Data() == old(user.Data()).(shiftsCount := LongToInt(|children|),
                                               totalEarnings := SumEarnings(Somes(children)))
      ensures forall i :: 0 <= i < |userList| && userList[i] != user ==> userList[i].Data() == old(userList[i].Data())
    {
      var count, total := CountShifts(children);
      user.SetShiftsCount(LongToInt(count));
      user.SetTotalEarnings(total);
    }
  }
}
