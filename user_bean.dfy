/** The User record: one registered user, with the two totals the user directory fills in. */
module UserBean {
  import opened Wrappers

  /** Java's int. */
  newtype int32 = x: int | -0x8000_0000 <= x < 0x8000_0000

  /** The cast (int) of a long: the low 32 bits, read as a two's-complement number. */
  function LongToInt(n: int): (r: int32)
    ensures (r as int - n) % 0x1_0000_0000 == 0
    ensures 0 <= n < 0x8000_0000 ==> r as int == n
  {
    ((n + 0x8000_0000) % 0x1_0000_0000 - 0x8000_0000) as int32
  }

  /** The value of a User's fields; a None string is a null reference. */
  datatype UserData = UserData(
    id: Option<string>,
    username: Option<string>,
    profileImage: Option<string>,
    age: Option<string>,
    phoneNumber: Option<string>,
    email: Option<string>,
    shiftsCount: int32,
    totalEarnings: real)

  /** The fields of a User created by the default constructor. */
  const EmptyUser := UserData(None, None, None, None, None, None, 0, 0.0)

  /** The mutable bean. */
  class User {
    var id: Option<string>
    var username: Option<string>
    var profileImage: Option<string>
    var age: Option<string>
    var phoneNumber: Option<string>
    var email: Option<string>
    var shiftsCount: int32
    var totalEarnings: real

    /** All eight fields as one value. */
    function Data(): UserData
      reads this
    {
      UserData(id, username, profileImage, age, phoneNumber, email, shiftsCount, totalEarnings)
    }

    /** The default constructor: every string null, the count 0 and the earnings 0.0. */
    constructor ()
      ensures Data() == EmptyUser
    {
      id, username, profileImage, age, phoneNumber, email := None, None, None, None, None, None;
      shiftsCount, totalEarnings := 0, 0.0;
    }

    // The getters are the field reads below; each setter's contract says the getter then returns
    // the stored value and that no other field changed.

    function GetId(): Option<string> reads this { id }
    function GetUsername(): Option<string> reads this { username }
    function GetProfileImage(): Option<string> reads this { profileImage }
    function GetAge(): Option<string> reads this { age }
    function GetPhoneNumber(): Option<string> reads this { phoneNumber }
    function GetEmail(): Option<string> reads this { email }
    function GetShiftsCount(): int32 reads this { shiftsCount }
    function GetTotalEarnings(): real reads this { totalEarnings }

    method SetId(v: Option<string>)
      modifies this
      ensures GetId() == v
      ensures Data() == old(Data()).(id := v)
    {
      id := v;
    }

    method SetUsername(v: Option<string>)
      modifies this
      ensures GetUsername() == v
      ensures Data() == old(Data()).(username := v)
    {
      username := v;
    }

    method SetProfileImage(v: Option<string>)
      modifies this
      ensures GetProfileImage() == v
      ensures Data() == old(Data()).(profileImage := v)
    {
      profileImage := v;
    }

    method SetAge(v: Option<string>)
      modifies this
      ensures GetAge() == v
      ensures Data() == old(Data()).(age := v)
    {
      age := v;
    }

    method SetPhoneNumber(v: Option<string>)
      modifies this
      ensures GetPhoneNumber() == v
      ensures Data() == old(Data()).(phoneNumber := v)
    {
      phoneNumber := v;
    }

    method SetEmail(v: Option<string>)
      modifies this
      ensures GetEmail() == v
      ensures Data() == old(Data()).(email := v)
    {
      email := v;
    }

    method SetShiftsCount(v: int32)
      modifies this
      ensures GetShiftsCount() == v
      ensures Data() == old(Data()).(shiftsCount := v)
    {
      shiftsCount := v;
    }

    method SetTotalEarnings(v: real)
      modifies this
      ensures GetTotalEarnings() == v
      ensures Data() == old(Data()).(totalEarnings := v)
    {
      totalEarnings := v;
    }
  }
}
