/** The back end's two shapes of an employee record and the mapper between
    them. The `Employee` entity, the `EmployeeDto` and `EmployeeMapper` lie
    outside the two modelled files; they are modelled on the assumption
    that both classes hold the four properties the service uses (a nullable
    `Long` id, first name, last name, email) and that the mapper copies all
    four. */
module EmployeeEntities {
  import opened Wrappers

  /** The persisted entity; `id` is `None` until the repository assigns one. */
  datatype Employee = Employee(id: Option<int>, firstName: string, lastName: string, email: string)

  /** The transfer object the REST layer exchanges. */
  datatype EmployeeDto = EmployeeDto(id: Option<int>, firstName: string, lastName: string, email: string)

  /** `EmployeeMapper.mapToEmployee`. */
  function MapToEmployee(dto: EmployeeDto): Employee {
    Employee(dto.id, dto.firstName, dto.lastName, dto.email)
  }

  /** `EmployeeMapper.mapToEmployeeDto`. */
  function MapToEmployeeDto(e: Employee): EmployeeDto {
    EmployeeDto(e.id, e.firstName, e.lastName, e.email)
  }

  /** The two mappings are inverse to each other, so a record survives a
      trip through the REST layer unchanged. */
  lemma MapperRoundTrip(e: Employee, dto: EmployeeDto)
    ensures MapToEmployee(MapToEmployeeDto(e)) == e
    ensures MapToEmployeeDto(MapToEmployee(dto)) == dto
  {
  }
}
