/** The Shift record: one worked shift as the database stores it. */
module ShiftBean {
  import opened Wrappers

  /** The value of a Shift's fields; a None string is a null reference. */
  datatype ShiftData = ShiftData(
    shiftId: Option<string>,
    fromDateTime: Option<string>,
    toDateTime: Option<string>,
    workplaceName: Option<string>,
    userEmail: Option<string>,
    totalEarnings: real)

  /** The fields of a Shift created by the no-argument constructor. */
  const EmptyShift := ShiftData(None, None, None, None, None, 0.0)

  /** The mutable bean. */
  class Shift {
    var shiftId: Option<string>
    var fromDateTime: Option<string>
    var toDateTime: Option<string>
    var workplaceName: Option<string>
    var userEmail: Option<string>
    var totalEarnings: real

    /** All six fields as one value. */
    function Data(): ShiftData
      reads this
    {
      ShiftData(shiftId, fromDateTime, toDateTime, workplaceName, userEmail, totalEarnings)
    }

    /** The no-argument constructor used when a record is read from the database: every string
        is null and the earnings are 0.0. */
    constructor ()
      ensures Data() == EmptyShift
    {
      shiftId, fromDateTime, toDateTime, workplaceName, userEmail := None, None, None, None, None;
      totalEarnings := 0.0;
    }

    /** The six-argument constructor stores each argument in its own field. */
    constructor Init(shiftId: Option<string>, fromDateTime: Option<string>, toDateTime: Option<string>,
                     workplaceName: Option<string>, userEmail: Option<string>, totalEarnings: real)
      ensures Data() == ShiftData(shiftId, fromDateTime, toDateTime, workplaceName, userEmail, totalEarnings)
    {
      this.shiftId := shiftId;
      this.fromDateTime := fromDateTime;
      this.toDateTime := toDateTime;
      this.workplaceName := workplaceName;
      this.userEmail := userEmail;
      this.totalEarnings := totalEarnings;
    }

    // The getters are the field reads below; each setter's contract says the getter then returns
    // the stored value and that no other field changed.

    function GetShiftId(): Option<string> reads this { shiftId }
    function GetFromDateTime(): Option<string> reads this { fromDateTime }
    function GetToDateTime(): Option<string> reads this { toDateTime }
    function GetWorkplaceName(): Option<string> reads this { workplaceName }
    function GetUserEmail(): Option<string> reads this { userEmail }
    function GetTotalEarnings(): real reads this { totalEarnings }

    method SetShiftId(v: Option<string>)
      modifies this
      ensures GetShiftId() == v
      ensures Data() == old(Data()).(shiftId := v)
    {
      shiftId := v;
    }

    method SetFromDateTime(v: Option<string>)
      modifies this
      ensures GetFromDateTime() == v
      ensures Data() == old(Data()).(fromDateTime := v)
    {
      fromDateTime := v;
    }

    method SetToDateTime(v: Option<string>)
      modifies this
      ensures GetToDateTime() == v
      ensures Data() == old(Data()).(toDateTime := v)
    {
      toDateTime := v;
    }

    method SetWorkplaceName(v: Option<string>)
      modifies this
      ensures GetWorkplaceName() == v
      ensures Data() == old(Data()).(workplaceName := v)
    {
      workplaceName := v;
    }

    method SetUserEmail(v: Option<string>)
      modifies this
      ensures GetUserEmail() == v
      ensures Data() == old(Data()).(userEmail := v)
    {
      userEmail := v;
    }

    method SetTotalEarnings(v: real)
      modifies this
      ensures GetTotalEarnings() == v
      ensures Data() == old(Data()).(totalEarnings := v)
    {
      totalEarnings := v;
    }
  }

  /** The sum of the stored earnings of the given shifts, in list order. */
  function SumEarnings(shifts: seq<ShiftData>): real {
    if shifts == [] then 0.0
    else SumEarnings(shifts[..|shifts| - 1]) + shifts[|shifts| - 1].totalEarnings
  }

  /** One more shift adds its stored earnings. */
  lemma SumEarningsSnoc(shifts: seq<ShiftData>, x: ShiftData)
    ensures SumEarnings(shifts + [x]) == SumEarnings(shifts) + x.totalEarnings
  {
    assert (shifts + [x])[..|shifts|] == shifts;
  }

  /** Summing a concatenation sums the parts. */
  lemma {:induction false} SumEarningsAppend(a: seq<ShiftData>, b: seq<ShiftData>)
    ensures SumEarnings(a + b) == SumEarnings(a) + SumEarnings(b)
    decreases |b|
  {
    if b == [] {
      assert a + b == a;
    } else {
      var b' := b[..|b| - 1];
      assert (a + b)[..|a + b| - 1] == a + b';
      SumEarningsAppend(a, b');
    }
  }
}
