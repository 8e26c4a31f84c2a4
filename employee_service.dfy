/** `EmployeeServiceImpl`: create, read, list, update and delete of employee
    records over the repository. A missing id is the service's one error,
    `ResourceNotFoundException`, modelled as a `Failure` result that leaves
    the repository as it was. */
module EmployeeService {
  import opened Wrappers
  import opened JavaLong
  import opened EmployeeEntities
  import opened Repository

  datatype ServiceError = ResourceNotFoundException(message: string)

  const NotFoundPrefix := "Employee is not exists with the given id : "

  /** The exception message: the fixed text followed by the id as Java
      renders a `Long`. */
  function NotFoundMessage(employeeId: int): string {
    NotFoundPrefix + LongToString(employeeId)
  }

  /** The message ends in the id itself: the text after the fixed prefix
      parses back to the id, so messages for different ids differ. */
  lemma NotFoundMessageNamesId(employeeId: int)
    ensures |NotFoundMessage(employeeId)| > |NotFoundPrefix|
    ensures NotFoundMessage(employeeId)[..|NotFoundPrefix|] == NotFoundPrefix
    ensures ParseLong(NotFoundMessage(employeeId)[|NotFoundPrefix|..]) == Some(employeeId)
  {
    var m := NotFoundMessage(employeeId);
    assert m[|NotFoundPrefix|..] == LongToString(employeeId);
    LongRoundTrip(employeeId);
  }

  /** The record as the service returns it after an update of `employeeId`
      from `dto`: the stored id with the DTO's three values. */
  function Updated(employeeId: int, dto: EmployeeDto): Employee {
    Employee(Some(employeeId), dto.firstName, dto.lastName, dto.email)
  }

  /** `stream().map(mapToEmployeeDto).collect(toList())`. */
  function MapToEmployeeDtos(employees: seq<Employee>): (r: seq<EmployeeDto>)
    ensures |r| == |employees|
    ensures forall i :: 0 <= i < |r| ==> r[i] == MapToEmployeeDto(employees[i])
  {
    if employees == [] then []
    else [MapToEmployeeDto(employees[0])] + MapToEmployeeDtos(employees[1..])
  }

  class EmployeeServiceImpl {
    const employeeRepository: EmployeeRepository

    ghost predicate Valid()
      reads this, employeeRepository
    {
      employeeRepository.Valid()
    }

    constructor (employeeRepository: EmployeeRepository)
      ensures this.employeeRepository == employeeRepository
    {
      this.employeeRepository := employeeRepository;
    }

    /** `createEmployee`: saves the mapped DTO and returns the saved record
        mapped back. A DTO without an id is stored under a fresh key and no
        existing record changes. */
    method CreateEmployee(employeeDto: EmployeeDto) returns (r: EmployeeDto)
      requires Valid()
      modifies employeeRepository
      ensures Valid()
      ensures r.id.Some? && r == employeeDto.(id := r.id)
      ensures employeeDto.id.None? ==> r.id.value !in old(employeeRepository.rows)
      ensures employeeDto.id.Some? ==> r.id == employeeDto.id
      ensures employeeRepository.rows == old(employeeRepository.rows)[r.id.value := MapToEmployee(r)]
      ensures employeeDto.id.None? ==>
                employeeRepository.order == old(employeeRepository.order) + [r.id.value]
    {
      var employee := MapToEmployee(employeeDto);
      var savedEmployee := employeeRepository.Save(employee);
      r := MapToEmployeeDto(savedEmployee);
    }

    /** `getEmployeeById`: the stored record, or `ResourceNotFoundException`
        naming the id when there is none. */
    method GetEmployeeById(employeeId: int) returns (r: Result<EmployeeDto, ServiceError>)
      requires Valid()
      ensures r.Failure? <==> employeeId !in employeeRepository.rows
      ensures r.Failure? ==> r.error == ResourceNotFoundException(NotFoundMessage(employeeId))
      ensures r.Success? ==> r.value == MapToEmployeeDto(employeeRepository.rows[employeeId])
      ensures r.Success? ==> r.value.id == Some(employeeId)
    {
      var employee := employeeRepository.FindById(employeeId);
      if employee.None? {
        return Failure(ResourceNotFoundException(NotFoundMessage(employeeId)));
      }
      r := Success(MapToEmployeeDto(employee.value));
    }

    /** `getAllEmployees`: one DTO per stored record, in the repository's
        order, and every stored record among them. */
    method GetAllEmployees() returns (r: seq<EmployeeDto>)
      requires Valid()
      ensures |r| == |employeeRepository.order| == |employeeRepository.rows|
      ensures forall i :: 0 <= i < |r| ==>
                && employeeRepository.order[i] in employeeRepository.rows
                && r[i] == MapToEmployeeDto(employeeRepository.rows[employeeRepository.order[i]])
      ensures forall k :: k in employeeRepository.rows ==>
                MapToEmployeeDto(employeeRepository.rows[k]) in r
    {
      var employees := employeeRepository.FindAll();
      r := MapToEmployeeDtos(employees);
      employeeRepository.FindAllCoversTable();
      forall k | k in employeeRepository.rows
        ensures MapToEmployeeDto(employeeRepository.rows[k]) in r
      {
        var i :| 0 <= i < |employeeRepository.order| && employeeRepository.order[i] == k;
        assert r[i] == MapToEmployeeDto(employeeRepository.rows[k]);
      }
    }

    /** `updateEmployee`: on a stored id, overwrites that record's first
        name, last name and email from the DTO, keeps its id and every other
        record, and returns the record as stored; on a missing id, raises
        `ResourceNotFoundException` and changes nothing. */
    method UpdateEmployee(employeeId: int, updatedEmployeeDto: EmployeeDto)
      returns (r: Result<EmployeeDto, ServiceError>)
      requires Valid()
      modifies employeeRepository
      ensures Valid()
      ensures r.Failure? <==> employeeId !in old(employeeRepository.rows)
      ensures r.Failure? ==> r.error == ResourceNotFoundException(NotFoundMessage(employeeId))
      ensures r.Failure? ==> employeeRepository.rows == old(employeeRepository.rows)
      ensures r.Success? ==>
                employeeRepository.rows ==
                  old(employeeRepository.rows)[employeeId := Updated(employeeId, updatedEmployeeDto)]
      ensures r.Success? ==> r.value == MapToEmployeeDto(employeeRepository.rows[employeeId])
      ensures employeeRepository.order == old(employeeRepository.order)
    {
      var found := employeeRepository.FindById(employeeId);
      if found.None? {
        return Failure(ResourceNotFoundException(NotFoundMessage(employeeId)));
      }
      var employee := found.value;
      employee := employee.(firstName := updatedEmployeeDto.firstName);
      employee := employee.(lastName := updatedEmployeeDto.lastName);
      employee := employee.(email := updatedEmployeeDto.email);

      var updatedEmployee := employeeRepository.Save(employee);

      r := Success(MapToEmployeeDto(updatedEmployee));
    }

    /** `deleteEmployee`: on a stored id, removes exactly that record; on a
        missing id, raises `ResourceNotFoundException` and changes nothing. */
    method DeleteEmployee(employeeId: int) returns (r: Result<(), ServiceError>)
      requires Valid()
      modifies employeeRepository
      ensures Valid()
      ensures r.Failure? <==> employeeId !in old(employeeRepository.rows)
      ensures r.Failure? ==> r.error == ResourceNotFoundException(NotFoundMessage(employeeId))
      ensures r.Failure? ==> employeeRepository.rows == old(employeeRepository.rows)
      ensures r.Failure? ==> employeeRepository.order == old(employeeRepository.order)
      ensures r.Success? ==> employeeRepository.rows == old(employeeRepository.rows) - {employeeId}
      ensures r.Success? ==> employeeRepository.order == Remove(old(employeeRepository.order), employeeId)
    {
      var found := employeeRepository.FindById(employeeId);
      if found.None? {
        return Failure(ResourceNotFoundException(NotFoundMessage(employeeId)));
      }
      employeeRepository.DeleteById(employeeId);
      r := Success(());
    }
  }

  /** A client of the service, using nothing but the contracts above: a
      created record can be read back, updated and deleted, after which it
      is gone. */
  method Scenario(service: EmployeeServiceImpl)
    requires service.Valid()
    modifies service.employeeRepository
  {
    var created := service.CreateEmployee(EmployeeDto(None, "Ada", "Lovelace", "ada@example.com"));
    var id := created.id.value;

    var fetched := service.GetEmployeeById(id);
    assert fetched == Success(EmployeeDto(Some(id), "Ada", "Lovelace", "ada@example.com"));

    var updated := service.UpdateEmployee(id, EmployeeDto(None, "Ada", "King", "ada@example.org"));
    assert updated == Success(EmployeeDto(Some(id), "Ada", "King", "ada@example.org"));

    var deleted := service.DeleteEmployee(id);
    assert deleted.Success?;

    var missing := service.GetEmployeeById(id);
    assert missing == Failure(ResourceNotFoundException(NotFoundMessage(id)));
    var again := service.DeleteEmployee(id);
    assert again.Failure?;
  }
}
