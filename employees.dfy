/**
 * The Employee schema (models/Employee.js) and routes/employee.js. The routes run
 * `Guards.EmployeeAuthenticate` first, except `GET /public-employee/:id`.
 */
module Employees {
  import opened Wrappers
  import opened Text
  import opened Calendar
  import opened Services
  import opened Http
  import opened Collections

  /** A stored employee document (`timestamps: true` adds the two times). */
  datatype Employee = Employee(
    id: Id, name: Option<string>, email: Option<string>, mobile: Option<string>,
    cargo: Option<string>, department: Option<string>, company: Option<string>,
    officeLocation: Option<string>, status: string, employeeId: Option<string>,
    qrCode: Option<string>, idCardExpirationDate: Option<Time>, photo: string,
    createdAt: Time, updatedAt: Time)

  /** A request body: any schema field may be given; others are dropped by strict mode. */
  datatype EmployeeBody = EmployeeBody(
    name: Option<string>, email: Option<string>, mobile: Option<string>,
    cargo: Option<string>, department: Option<string>, company: Option<string>,
    officeLocation: Option<string>, status: Option<string>, employeeId: Option<string>,
    qrCode: Option<string>, idCardExpirationDate: Option<Time>, photo: Option<string>)

  const DEFAULT_STATUS: string := "Active"
  const DEFAULT_PHOTO: string := "https://via.placeholder.com/150"
  const EMPLOYEE_ID_PREFIX: string := "EMP"

  function IdOf(e: Employee): Id { e.id }
  function CreatedAtOf(e: Employee): Time { e.createdAt }

  /** `Employee.findById(id)`. */
  function FindById(employees: seq<Employee>, id: Id): Option<nat> {
    Find(employees, IdOf, id)
  }

  /** `'EMP' + Date.now().toString().slice(-6)`. */
  function EmployeeCode(now: Time): string {
    EMPLOYEE_ID_PREFIX + LastChars(NumberString(now), 6)
  }

  /** Any clock reading past 100000 ms gives "EMP" and the clock's last six digits: nine characters. */
  lemma EmployeeCodeShape(now: Time)
    requires now >= 100000
    ensures |EmployeeCode(now)| == 9 && StartsWith(EmployeeCode(now), EMPLOYEE_ID_PREFIX)
    ensures EmployeeCode(now) == EMPLOYEE_ID_PREFIX + Padded(now, 6)
  {
    assert Pow10(5) == 100000;
    LastDigits(now, 6);
  }

  /** The code carries no more than the last six digits: creations 1000 seconds apart collide. */
  lemma EmployeeCodeRepeats(now: Time)
    requires now >= 100000
    ensures EmployeeCode(now) == EmployeeCode(now + 1000000)
  {
    EmployeeCodeShape(now);
    EmployeeCodeShape(now + 1000000);
    assert Pow10(6) == 1000000;
    PaddedPeriodic(now, 6);
  }

  /** The page a QR code points to (utils/generateQR.js). */
  function PublicUrl(id: Id): string {
    "http://localhost:3000/public-employee/" + id
  }

  /** `new Employee(body)` with `employeeId` and `qrCode` then assigned; `qr` renders a data URL. */
  function NewEmployee(b: EmployeeBody, id: Id, now: Time, qr: string -> string): (e: Employee)
    ensures e.id == id && e.employeeId == Some(EmployeeCode(now)) && e.qrCode == Some(qr(PublicUrl(id)))
    ensures e.status == b.status.GetOr(DEFAULT_STATUS) && e.photo == b.photo.GetOr(DEFAULT_PHOTO)
    ensures e.name == b.name && e.email == b.email && e.mobile == b.mobile && e.cargo == b.cargo
    ensures e.department == b.department && e.company == b.company && e.officeLocation == b.officeLocation
    ensures e.idCardExpirationDate == b.idCardExpirationDate
    ensures e.createdAt == now && e.updatedAt == now
  {
    Employee(id, b.name, b.email, b.mobile, b.cargo, b.department, b.company, b.officeLocation,
             b.status.GetOr(DEFAULT_STATUS), Some(EmployeeCode(now)), Some(qr(PublicUrl(id))),
             b.idCardExpirationDate, b.photo.GetOr(DEFAULT_PHOTO), now, now)
  }

  /** A field the update body gives replaces the stored one; an absent one keeps it. */
  function Override<T>(given: Option<T>, stored: Option<T>): (r: Option<T>)
    ensures given.Some? ==> r == given
    ensures given.None? ==> r == stored
  {
    if given.Some? then given else stored
  }

  /** `findByIdAndUpdate(id, body)`: every field the body gives is set, `employeeId` and `qrCode` included. */
  function Patched(e: Employee, b: EmployeeBody, now: Time): (v: Employee)
    ensures v.id == e.id && v.createdAt == e.createdAt && v.updatedAt == now
    ensures v.name == (if b.name.Some? then b.name else e.name)
    ensures v.email == (if b.email.Some? then b.email else e.email)
    ensures v.mobile == (if b.mobile.Some? then b.mobile else e.mobile)
    ensures v.cargo == (if b.cargo.Some? then b.cargo else e.cargo)
    ensures v.department == (if b.department.Some? then b.department else e.department)
    ensures v.company == (if b.company.Some? then b.company else e.company)
    ensures v.officeLocation == (if b.officeLocation.Some? then b.officeLocation else e.officeLocation)
    ensures v.status == (if b.status.Some? then b.status.value else e.status)
    ensures v.employeeId == (if b.employeeId.Some? then b.employeeId else e.employeeId)
    ensures v.qrCode == (if b.qrCode.Some? then b.qrCode else e.qrCode)
    ensures v.idCardExpirationDate == (if b.idCardExpirationDate.Some? then b.idCardExpirationDate else e.idCardExpirationDate)
    ensures v.photo == (if b.photo.Some? then b.photo.value else e.photo)
  {
    Employee(
      e.id, Override(b.name, e.name), Override(b.email, e.email), Override(b.mobile, e.mobile),
      Override(b.cargo, e.cargo), Override(b.department, e.department), Override(b.company, e.company),
      Override(b.officeLocation, e.officeLocation), b.status.GetOr(e.status),
      Override(b.employeeId, e.employeeId), Override(b.qrCode, e.qrCode),
      Override(b.idCardExpirationDate, e.idCardExpirationDate), b.photo.GetOr(e.photo),
      e.createdAt, now)
  }

  /** An empty body changes nothing but the update time. */
  lemma EmptyPatchKeepsFields(e: Employee, now: Time)
    ensures Patched(e, EmployeeBody(None, None, None, None, None, None, None, None, None, None, None, None), now)
            == e.(updatedAt := now)
  {
  }

  /** The `employeeId` assigned at creation is overwritten by any update whose body carries one. */
  lemma EmployeeIdNotFixed(e: Employee, b: EmployeeBody, now: Time)
    requires b.employeeId.Some?
    ensures Patched(e, b, now).employeeId == b.employeeId
  {
  }

  /** `GET /:id`: the employee, or `null` (still 200) for an unknown id. */
  function GetEmployee(employees: seq<Employee>, id: Id): (r: Reply<Option<Employee>>)
    ensures r.Success? && r.status == 200
    ensures r.value.None? <==> forall i :: 0 <= i < |employees| ==> employees[i].id != id
    ensures r.value.Some? ==> r.value.value in employees && r.value.value.id == id
  {
    match FindById(employees, id)
    case None => Success(200, None)
    case Some(i) => Success(200, Some(employees[i]))
  }

  /**
   * The public card. `position` is read from the document but the schema stores `cargo`, so it
   * is always absent.
   */
  datatype PublicCard = PublicCard(name: Option<string>, position: Option<string>,
                                   department: Option<string>, status: string, photo: string)

  /** `GET /public-employee/:id` (no token): the card, or 404 "Not found". */
  function PublicEmployee(employees: seq<Employee>, id: Id): (r: Reply<PublicCard>)
    ensures r.Failure? <==> forall i :: 0 <= i < |employees| ==> employees[i].id != id
    ensures r.Failure? ==> r == Failure(404, ErrorKey, "Not found")
    ensures r.Success? ==>
              r.status == 200 && r.value.position.None? &&
              exists i :: 0 <= i < |employees| && employees[i].id == id && r.value == CardOf(employees[i])
  {
    match FindById(employees, id)
    case None => Failure(404, ErrorKey, "Not found")
    case Some(i) => Success(200, CardOf(employees[i]))
  }

  function CardOf(e: Employee): PublicCard {
    PublicCard(e.name, None, e.department, e.status, e.photo)
  }

  /**
   * The card is a private-data boundary: employees agreeing on name, department, status and
   * photo show the same card whatever their email, mobile, cargo, company, codes or dates.
   */
  lemma CardRevealsOnlyPublicFields(e: Employee, f: Employee)
    requires e.name == f.name && e.department == f.department && e.status == f.status && e.photo == f.photo
    ensures CardOf(e) == CardOf(f)
  {
  }

  /** The employees collection. */
  class EmployeeStore {
    var employees: seq<Employee>

    ghost predicate Valid()
      reads this
    {
      Distinct(employees, IdOf)
    }

    constructor ()
      ensures Valid() && employees == []
    {
      employees := [];
    }

    /** `POST /`: adds exactly one employee and answers it (200). */
    method Create(b: EmployeeBody, newId: Id, now: Time, qr: string -> string) returns (r: Reply<Employee>)
      requires Valid() && FindById(employees, newId).None?
      modifies this
      ensures Valid()
      ensures employees == old(employees) + [NewEmployee(b, newId, now, qr)]
      ensures r == Success(200, NewEmployee(b, newId, now, qr))
    {
      var e := NewEmployee(b, newId, now, qr);
      AppendDistinct(employees, e, IdOf);
      employees := employees + [e];
      r := Success(200, e);
    }

    /** `PUT /:id`: applies the body and answers the result, or `null` (200, not 404) for an unknown id. */
    method Update(id: Id, b: EmployeeBody, now: Time) returns (r: Reply<Option<Employee>>)
      requires Valid()
      modifies this
      ensures Valid()
      ensures FindById(old(employees), id).None? ==> employees == old(employees) && r == Success(200, None)
      ensures FindById(old(employees), id).Some? ==>
                var i := FindById(old(employees), id).value;
                var v := Patched(old(employees)[i], b, now);
                employees == old(employees)[i := v] && r == Success(200, Some(v))
    {
      var found := FindById(employees, id);
      if found.None? {
        r := Success(200, None);
        return;
      }
      var i := found.value;
      var v := Patched(employees[i], b, now);
      ReplaceDistinct(employees, i, v, IdOf);
      employees := employees[i := v];
      r := Success(200, Some(v));
    }

    /** `DELETE /:id`: removes the employee with that id if any, and always answers "Deleted". */
    method Delete(id: Id) returns (r: Reply<string>)
      requires Valid()
      modifies this
      ensures Valid()
      ensures employees == Filter(old(employees), (e: Employee) => e.id != id)
      ensures r == Success(200, "Deleted")
    {
      FilterDistinct(employees, (e: Employee) => e.id != id, IdOf);
      employees := Filter(employees, (e: Employee) => e.id != id);
      r := Success(200, "Deleted");
    }
  }
}
