/** The records the page lists: each is the submitted form values with a
    generated `userId` added, and the list changes only by appending a
    record and by dropping the record at an index. */
module UserList {
  import opened Validation
  import opened UserIds

  datatype UserRecord = UserRecord(
    firstName: string,
    lastName: string,
    email: string,
    userRole: string,
    status: string,
    expiryBy: string,
    mobileNumber: string,
    paymentLimit: string,
    supervisor: string,
    userId: string)

  /** The submitted values a record carries, without its id. */
  function FormOf(u: UserRecord): FormValues {
    FormValues(u.firstName, u.lastName, u.email, u.userRole, u.status,
               u.expiryBy, u.mobileNumber, u.paymentLimit, u.supervisor)
  }

  /** `{ ...data, userId }`: the submitted values, unaltered, plus the id. */
  function NewUser(data: FormValues, id: string): (u: UserRecord)
    ensures FormOf(u) == data && u.userId == id
  {
    UserRecord(data.firstName, data.lastName, data.email, data.userRole, data.status,
               data.expiryBy, data.mobileNumber, data.paymentLimit, data.supervisor, id)
  }

  /** What holds of every record in the list: its values passed every field
      rule when it was added, and its id has the generator's form. */
  predicate Admitted(u: UserRecord) {
    IsValidForm(FormOf(u)) && IsUserIdShape(u.userId)
  }

  /** `s.filter((_, i) => i !== index)`: the elements at every position
      other than `index`, in order. Dropping an index in range removes
      exactly that element and the others keep their order; dropping an
      index out of range changes nothing. */
  function FilterIndex<T>(s: seq<T>, index: int): (r: seq<T>)
    ensures 0 <= index < |s| ==> r == s[..index] + s[index + 1..]
    ensures index < 0 || index >= |s| ==> r == s
  {
    if s == [] then []
    else
      var p, last := s[..|s| - 1], s[|s| - 1];
      assert s == p + [last];
      if |s| - 1 == index then FilterIndex(p, index)
      else
        assert 0 <= index < |p| ==>
          && p[..index] == s[..index]
          && p[index + 1..] == s[index + 1..|s| - 1]
          && s[index + 1..] == s[index + 1..|s| - 1] + [last];
        FilterIndex(p, index) + [last]
  }

  /** After dropping an index in range the list is one shorter, the earlier
      records stay where they were and the later ones move down by one. */
  lemma FilterIndexPositions<T>(s: seq<T>, index: int)
    requires 0 <= index < |s|
    ensures |FilterIndex(s, index)| == |s| - 1
    ensures forall k | 0 <= k < index :: FilterIndex(s, index)[k] == s[k]
    ensures forall k | index <= k < |s| - 1 :: FilterIndex(s, index)[k] == s[k + 1]
  {
  }

  /** Dropping an index keeps only records that were in the list. */
  lemma FilterIndexSubset<T>(s: seq<T>, index: int)
    ensures forall x | x in FilterIndex(s, index) :: x in s
  {
    if 0 <= index < |s| {
      assert forall x | x in s[..index] + s[index + 1..] :: x in s;
    }
  }
}
