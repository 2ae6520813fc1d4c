/** The `App` component's state and event handlers: the dialog flag
    `openModal`, the list `tableData`, and the field messages the form shows
    after a submit attempt. */
module Page {
  import opened Validation
  import opened UserIds
  import opened UserList

  class App {
    var openModal: bool
    var tableData: seq<UserRecord>
    var errors: map<Field, string>

    /** Every listed record was admitted by the submit gate. */
    ghost predicate Valid()
      reads this
    {
      forall u | u in tableData :: Admitted(u)
    }

    /** The initial state: dialog closed, no records, no messages. */
    constructor ()
      ensures Valid()
      ensures !openModal && tableData == [] && errors == map[]
    {
      openModal := false;
      tableData := [];
      errors := map[];
    }

    /** "+ Add New User" opens the dialog. */
    method OpenAddDialog()
      requires Valid()
      modifies this
      ensures Valid() && openModal
      ensures tableData == old(tableData) && errors == old(errors)
    {
      openModal := true;
    }

    /** The dialog's `onHide` (its close button or the backdrop) closes it. */
    method OnHide()
      requires Valid()
      modifies this
      ensures Valid() && !openModal
      ensures tableData == old(tableData) && errors == old(errors)
    {
      openModal := false;
    }

    /** The Cancel button closes the dialog. */
    method Cancel()
      requires Valid()
      modifies this
      ensures Valid() && !openModal
      ensures tableData == old(tableData) && errors == old(errors)
    {
      openModal := false;
    }

    /** `onSubmit`: append the submitted values with a generated id, clear
        the form and close the dialog. `random` is the Math.random draw. */
    method OnSubmit(data: FormValues, random: real)
      requires Valid() && IsValidForm(data)
      requires 0.0 <= random < 1.0
      modifies this
      ensures Valid()
      ensures tableData == old(tableData) + [NewUser(data, GenerateUserId(random))]
      ensures !openModal && errors == map[]
    {
      var newUser := NewUser(data, GenerateUserId(random));
      tableData := tableData + [newUser];
      errors := map[];
      openModal := false;
    }

    /** `handleSubmit(onSubmit)`: run the field rules; on success call
        `onSubmit`, otherwise show the messages and change nothing else. */
    method HandleSubmit(data: FormValues, random: real) returns (accepted: bool)
      requires Valid()
      requires 0.0 <= random < 1.0
      modifies this
      ensures Valid()
      ensures accepted <==> IsValidForm(data)
      ensures accepted ==> && tableData == old(tableData) + [NewUser(data, GenerateUserId(random))]
                           && !openModal && errors == map[]
      ensures !accepted ==> && tableData == old(tableData) && openModal == old(openModal)
                            && errors == FormErrors(data)
    {
      var found := FormErrors(data);
      accepted := found == map[];
      if accepted {
        OnSubmit(data, random);
      } else {
        errors := found;
      }
    }

    /** `handleDelete`: keep every record whose index differs from `index`. */
    method HandleDelete(index: int)
      requires Valid()
      modifies this
      ensures Valid()
      ensures tableData == FilterIndex(old(tableData), index)
      ensures openModal == old(openModal) && errors == old(errors)
    {
      FilterIndexSubset(tableData, index);
      tableData := FilterIndex(tableData, index);
    }
  }
}
