/** The employee table as the query handler sees it, behind the generic repository. */
module EmployeeStore {
  import opened ValueTypes
  import opened Sequences

  /** An employee row, restricted to the fields the employee endpoint reads. */
  datatype Employee = Employee(
    businessEntityId: Int32,
    nationalIdNumber: string,
    loginId: string,
    organizationLevel: Wrappers.Option<Int16>,
    jobTitle: string,
    birthDate: DateOnly,
    maritalStatus: string,
    gender: string,
    hireDate: DateOnly,
    salariedFlag: bool,
    vacationHours: Int16,
    sickLeaveHours: Int16,
    currentFlag: bool,
    rowguid: Guid,
    modifiedDate: DateTime)

  /** The repository over the employee table. `queries` counts the calls that reach the
      store, so that a proof can say when a caller did not consult it. */
  class EmployeeRepository {
    var rows: seq<Employee>
    ghost var queries: nat

    constructor (rows: seq<Employee>)
      ensures this.rows == rows && queries == 0
    {
      this.rows := rows;
      queries := 0;
    }

    /** `FindAsync`: the rows that satisfy `matches`, in table order. */
    method FindAsync(matches: Employee -> bool) returns (found: seq<Employee>)
      modifies this`queries
      ensures found == Filter(rows, matches)
      ensures queries == old(queries) + 1
    {
      found := Filter(rows, matches);
      queries := queries + 1;
    }
  }
}
