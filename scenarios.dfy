/** Concrete inputs run through the rules and the page's handlers. */
module Scenarios {
  import opened Wrappers
  import opened Numerals
  import opened Validation
  import opened UserList
  import opened Page

  const Ann: FormValues :=
    FormValues("Ann", "Lee", "a@b.com", "role1", "active", "2025-01-01", "1234567", "100", "sup1")

  /** A complete, well-formed submission passes every rule. */
  lemma AnnIsValid()
    ensures IsValidForm(Ann)
  {
    var s := "a@b.com";
    assert s[..3] == "a@b";
    assert IndexOf("a@b", '@') == 1;
    assert EmailWithTld(s, 3);
    assert !BelowMinimum("100");
    assert FieldError(Email, s) == None;
    assert FieldError(MobileNumber, "1234567") == None;
    assert FieldError(PaymentLimit, "100") == None;
    assert forall f :: FieldError(f, Value(Ann, f)) == None;
  }

  /** Inputs each rule turns away, and the zero payment limit it lets
      through. */
  lemma RuleExamples()
    ensures !IsValidEmail("not-an-email")
    ensures !IsValidMobile("123")
    ensures !IsValidMobile("12345678901234567")
    ensures !IsValidMobile("12a4567")
    ensures BelowMinimum("-5")
    ensures !BelowMinimum("0") && !BelowMinimum("-0")
  {
    var e := "not-an-email";
    assert e[|e| - 3] != '.' && e[|e| - 4] != '.' && e[|e| - 5] != '.';
    assert "12a4567"[2] == 'a';
    assert "5"[..0] == [];
    assert DigitsValue("5") == 5;
    assert "0"[..0] == [];
    assert DigitsValue("0") == 0;
  }

  /** Open the dialog, add one record, delete out of range, then delete it. */
  method AddThenDelete(random: real)
    requires 0.0 <= random < 1.0
  {
    var page := new App();
    page.OpenAddDialog();
    assert page.openModal;
    AnnIsValid();
    var accepted := page.HandleSubmit(Ann, random);
    assert accepted && !page.openModal;
    assert |page.tableData| == 1 && FormOf(page.tableData[0]) == Ann;
    assert page.tableData[0].userId != "";
    var before := page.tableData;
    page.HandleDelete(5);
    assert page.tableData == before;
    page.HandleDelete(0);
    assert page.tableData == [];
  }

  /** A rejected submit leaves the dialog open and the list as it was. */
  method RejectedSubmit(random: real)
    requires 0.0 <= random < 1.0
  {
    var page := new App();
    page.OpenAddDialog();
    var blank := Ann.(email := "");
    EmptyFieldIsRequired(blank, Email);
    var accepted := page.HandleSubmit(blank, random);
    assert !accepted && page.openModal && page.tableData == [];
    assert page.errors[Email] == "Email is required";
    page.Cancel();
    assert !page.openModal;
  }
}
