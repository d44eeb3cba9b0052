/** Pieces shared by the two employee dialogs: the required-field gate, the toast a
    submission raises, and the outcome of `parseFloat` on a text field. */
module Forms {

  /** The six fields both employee dialogs refuse to submit without. */
  datatype RequiredFields = RequiredFields(
    firstName: string,
    lastName: string,
    email: string,
    department: string,
    position: string,
    hireDate: string)

  /** The gate `!a || !b || ...` lets a submission through only when every required
      field is a non-empty string. */
  predicate Complete(r: RequiredFields) {
    && r.firstName != ""
    && r.lastName != ""
    && r.email != ""
    && r.department != ""
    && r.position != ""
    && r.hireDate != ""
  }

  /** The notification a submission raises. */
  datatype Toast =
    | ValidationError  // "Validation Error": "Please fill in all required fields"
    | Success          // "Success"
    | Failure          // "Error": the store rejected the write

  /** What `parseFloat` yields for a text field: a number or `NaN`. Amounts are whole
      currency units here. */
  datatype Parsed = NaN | Num(value: int)
}
