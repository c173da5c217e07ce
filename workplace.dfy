/** The workplace screen: the eight-field form, its all-filled check and the workplace record it
    writes. */
module Workplace {
  import opened Wrappers
  import opened Text
  import opened Backend
  import ShiftCreation

  const FILL_ALL_FIELDS := "Please fill all the fields"
  const SAVED := "Workplace data saved successfully"
  const SAVE_FAILED := "Failed to save workplace data"

  /** The record keys of the eight inputs, in form order. */
  const FIELD_KEYS := ["workplaceName", "hourlyWage", "vacationPayments", "deductionPreShift",
                       "bonusesPreShift", "breakTime", "dailyTravelExpenses", "monthlyTravelExpenses"]

  /** The keys of a workplace record: the eight inputs and the owner's email. */
  const WORKPLACE_KEYS: set<string> := {"workplaceName", "hourlyWage", "vacationPayments", "deductionPreShift",
                                        "bonusesPreShift", "breakTime", "dailyTravelExpenses",
                                        "monthlyTravelExpenses", "userEmail"}

  /** Each input trimmed. */
  function TrimAll(texts: seq<string>): (r: seq<string>)
    ensures |r| == |texts|
    ensures forall i :: 0 <= i < |r| ==> r[i] == Trim(texts[i])
  {
    seq(|texts|, i requires 0 <= i < |texts| => Trim(texts[i]))
  }

  /** The check of saveWorkplaceData: no trimmed input is empty. */
  predicate AllFilled(values: seq<string>) {
    forall i :: 0 <= i < |values| ==> values[i] != []
  }

  /** The single boolean check agrees with the first-empty-field scan of the other forms: all are
      filled exactly when the scan runs off the end. */
  lemma AllFilledIsNoFirstEmpty(values: seq<string>)
    ensures AllFilled(values) <==> FirstEmpty(values) == |values|
  {
    var k := FirstEmpty(values);
    if k < |values| {
      assert values[k] == [];
    }
  }

  /** The form is filled exactly when no input is blank. */
  lemma AllFilledOfTrimmed(texts: seq<string>)
    ensures AllFilled(TrimAll(texts)) <==> forall i :: 0 <= i < |texts| ==> !IsBlank(texts[i])
  {
    var t := TrimAll(texts);
    if !AllFilled(t) {
      var i :| 0 <= i < |t| && t[i] == [];
      assert IsBlank(texts[i]);
    }
  }

  /** The record of saveWorkplaceData, by nine successive puts; the wage stays the string typed. */
  method PutWorkplaceData(values: seq<string>, userEmail: Option<string>) returns (m: Record)
    requires |values| == 8
    ensures m.Keys == WORKPLACE_KEYS
    ensures forall i :: 0 <= i < 8 ==> m[FIELD_KEYS[i]] == Some(values[i])
    ensures m["userEmail"] == userEmail
  {
    m := map[];
    m := m["workplaceName" := Some(values[0])];
    m := m["hourlyWage" := Some(values[1])];
    m := m["vacationPayments" := Some(values[2])];
    m := m["deductionPreShift" := Some(values[3])];
    m := m["bonusesPreShift" := Some(values[4])];
    m := m["breakTime" := Some(values[5])];
    m := m["dailyTravelExpenses" := Some(values[6])];
    m := m["monthlyTravelExpenses" := Some(values[7])];
    m := m["userEmail" := userEmail];
  }

  /** The wage is stored as the string typed; when that is a whole number, the shift screen's
      wage callback reads it back as that number. */
  lemma SavedWageIsRead(wage: string)
    requires wage != [] && AllDigits(wage)
    ensures ShiftCreation.WageOutcome(Some(wage)) == Some(Some(DigitsValue(wage) as real))
  {
    ParseDecimalOfDigits(wage);
  }

  /** What the Save button leads to: the fill-all toast, nothing (nobody signed in), an exception
      (the database gave no push key), or a write whose completion shows SAVED or SAVE_FAILED. */
  datatype SaveOutcome = Incomplete | NotSignedIn | Crash | Written(write: Write, succeeded: bool)

  /** The eight input fields of the screen, in form order. */
  class WorkplaceForm {
    var workplaceName: string
    var hourlyWage: string
    var vacationPayments: string
    var deductionPreShift: string
    var bonusesPreShift: string
    var breakTime: string
    var dailyTravelExpenses: string
    var monthlyTravelExpenses: string

    function Texts(): (r: seq<string>)
      reads this
      ensures |r| == 8
    {
      [workplaceName, hourlyWage, vacationPayments, deductionPreShift, bonusesPreShift, breakTime,
       dailyTravelExpenses, monthlyTravelExpenses]
    }

    /** A screen whose fields hold what the user typed. */
    constructor (texts: seq<string>)
      requires |texts| == 8
      ensures Texts() == texts
    {
      workplaceName, hourlyWage, vacationPayments, deductionPreShift := texts[0], texts[1], texts[2], texts[3];
      bonusesPreShift, breakTime, dailyTravelExpenses, monthlyTravelExpenses := texts[4], texts[5], texts[6], texts[7];
    }

    /** saveWorkplaceData, given the signed-in account, the push key and whether the write
        succeeds. Nothing is written unless all eight trimmed inputs are non-empty and somebody is
        signed in; the record holds the trimmed inputs and the account's email; only a successful
        write clears the form. */
    method SaveWorkplaceData(current: Option<Account>, workplaceId: Option<string>, writeSucceeds: bool)
      returns (r: SaveOutcome)
      modifies this
      ensures var values := TrimAll(old(Texts()));
        && (r == Incomplete <==> !AllFilled(values))
        && (r == NotSignedIn <==> AllFilled(values) && current.None?)
        && (r == Crash <==> AllFilled(values) && current.Some? && workplaceId.None?)
        && (r.Written? ==> && current.Some? && workplaceId.Some?
                           && r.write.path == ["Workplace", workplaceId.value]
                           && r.write.record.Keys == WORKPLACE_KEYS
                           && (forall i :: 0 <= i < 8 ==> r.write.record[FIELD_KEYS[i]] == Some(values[i]))
                           && r.write.record["userEmail"] == current.value.email
                           && r.succeeded == writeSucceeds)
      ensures r.Written? && r.succeeded ==> forall i :: 0 <= i < 8 ==> Texts()[i] == []
      ensures !(r.Written? && r.succeeded) ==> Texts() == old(Texts())
    {
      var values := TrimAll(Texts());
      if !AllFilled(values) {
        return Incomplete;
      }
      if current.None? {
        return NotSignedIn;
      }
      var userEmail := current.value.email;
      if workplaceId.None? {
        return Crash;
      }
      var workplaceData := PutWorkplaceData(values, userEmail);
      r := Written(Write(["Workplace", workplaceId.value], workplaceData), writeSucceeds);
      if writeSucceeds {
        ClearFields();
      }
    }

    /** clearFields: every input emptied. */
    method ClearFields()
      modifies this
      ensures forall i :: 0 <= i < 8 ==> Texts()[i] == []
    {
      workplaceName, hourlyWage, vacationPayments, deductionPreShift := "", "", "", "";
      bonusesPreShift, breakTime, dailyTravelExpenses, monthlyTravelExpenses := "", "", "", "";
    }
  }
}
