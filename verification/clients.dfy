/** The client record of the practice, as stored. */
module Clients {
  import opened Wrappers

  /** A client's status is one of exactly two values. */
  datatype Status = Active | Inactive

  /** The text a status is stored as. */
  function StatusText(s: Status): string {
    match s
    case Active => "active"
    case Inactive => "inactive"
  }

  /** A stored client. Optional fields are `None` when absent. Dates are
      kept as the text the database returns. */
  datatype Client = Client(
    id: string,
    userId: string,
    firstName: string,
    lastName: string,
    status: Status,
    inactiveDate: Option<string>,
    dateOfBirth: Option<string>,
    therapyStartDate: Option<string>,
    email: Option<string>,
    phone: Option<string>,
    address: Option<string>,
    emergencyContactName: Option<string>,
    emergencyContactPhone: Option<string>,
    emergencyContactRelationship: Option<string>,
    createdAt: string,
    updatedAt: string)
}
