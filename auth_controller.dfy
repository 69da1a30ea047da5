/**
 * Registration and login for riders, drivers and administrators. bcrypt is
 * the pair of functions `hash` / `compare`, jwt signing the function `sign`;
 * both are parameters, so nothing is assumed about them.
 */
module AuthController {
  import opened Wrappers
  import opened Tables
  import opened Schema

  const UserKind := "user"
  const DriverKind := "driver"
  const AdminKind := "admin"

  const InvalidCredentials := "Invalid credentials"
  const PendingApproval := "Account pending approval"
  const NotActive := "Account not active. Contact admin."

  /** generateToken: a token signed over the account id and the account type. */
  function GenerateToken(id: Id, kind: string, sign: Claims -> string): string {
    sign(Claims(id, kind))
  }

  /**
   * A token carries the account it was issued for: whenever verification
   * inverts signing, it yields exactly that id and type, so tokens of two
   * different accounts never coincide.
   */
  lemma TokenIdentifiesAccount(id1: Id, kind1: string, id2: Id, kind2: string,
                               sign: Claims -> string, verify: string -> Option<Claims>)
    requires verify(sign(Claims(id1, kind1))) == Some(Claims(id1, kind1))
    requires verify(sign(Claims(id2, kind2))) == Some(Claims(id2, kind2))
    ensures verify(GenerateToken(id1, kind1, sign)) == Some(Claims(id1, kind1))
    ensures (id1, kind1) != (id2, kind2) ==> GenerateToken(id1, kind1, sign) != GenerateToken(id2, kind2, sign)
  {
  }

  /** The account id and token a successful registration or login returns. */
  datatype Issued = Issued(id: Id, token: string)

  /** The driver row a registration inserts: the table's defaults (status 'pending', not available, rating 5, no rides). */
  function NewDriver(name: string, email: string, phone: string, hashedPassword: string,
                     licenseNumber: string, vehicleType: string, vehicleModel: string,
                     vehiclePlate: string, vehicleColor: string): Driver {
    Driver(name, email, phone, hashedPassword, licenseNumber, vehicleType, vehicleModel,
           vehiclePlate, vehicleColor, Pending, false, 5.0, 0, None, None)
  }

  /** `email = ? OR phone = ?` against the users table. */
  function SameContact(email: string, phone: string): User -> bool {
    (u: User) => u.email == email || u.phone == phone
  }

  /** registerUser: refuses an email or phone already on file, stores the hashed password, signs a user token. */
  method RegisterUser(db: Database, name: string, email: string, phone: string, password: string,
                      hash: string -> string, sign: Claims -> string)
    returns (code: nat, issued: Option<Issued>)
    requires db.Valid()
    modifies db
    ensures db.Valid()
    ensures code == 400 <==>
      exists id :: id in old(db.users.rows) && (old(db.users.rows[id]).email == email || old(db.users.rows[id]).phone == phone)
    ensures code != 400 ==> code == 201
    ensures code == 400 ==> unchanged(db) && issued.None?
    ensures code == 201 ==>
      && db.users == old(db.users).Insert(User(name, email, phone, hash(password)))
      && issued == Some(Issued(old(db.users.next), GenerateToken(old(db.users.next), UserKind, sign)))
    ensures db.drivers == old(db.drivers) && db.rides == old(db.rides)
    ensures db.admins == old(db.admins) && db.transactions == old(db.transactions)
  {
    var existing := First(db.users, SameContact(email, phone));
    if existing.Some? {
      assert SameContact(email, phone)(db.users.rows[existing.value]);
      return 400, None;
    }
    assert forall id :: id in db.users.rows ==> !SameContact(email, phone)(db.users.rows[id]);
    var hashedPassword := hash(password);
    var id := db.users.next;
    db.users := db.users.Insert(User(name, email, phone, hashedPassword));
    code := 201;
    issued := Some(Issued(id, GenerateToken(id, UserKind, sign)));
  }

  /** `email = ? OR phone = ? OR license_number = ? OR vehicle_plate = ?` against the drivers table. */
  function SameDriverIdentity(email: string, phone: string, licenseNumber: string, vehiclePlate: string): Driver -> bool {
    (d: Driver) => d.email == email || d.phone == phone || d.licenseNumber == licenseNumber || d.vehiclePlate == vehiclePlate
  }

  /** The `driver` object of the registration response. */
  datatype DriverReceipt = DriverReceipt(id: Id, name: string, email: string, status: string)

  /** registerDriver: refuses a known email, phone, licence or plate; the new driver awaits approval. */
  method RegisterDriver(db: Database, name: string, email: string, phone: string, password: string,
                        licenseNumber: string, vehicleType: string, vehicleModel: string,
                        vehiclePlate: string, vehicleColor: string, hash: string -> string)
    returns (code: nat, receipt: Option<DriverReceipt>)
    requires db.Valid()
    modifies db
    ensures db.Valid()
    ensures code == 400 <==>
      exists id :: id in old(db.drivers.rows) &&
        SameDriverIdentity(email, phone, licenseNumber, vehiclePlate)(old(db.drivers.rows[id]))
    ensures code != 400 ==> code == 201
    ensures code == 400 ==> unchanged(db) && receipt.None?
    ensures code == 201 ==>
      && db.drivers == old(db.drivers).Insert(NewDriver(name, email, phone, hash(password), licenseNumber,
                                                        vehicleType, vehicleModel, vehiclePlate, vehicleColor))
      && receipt == Some(DriverReceipt(old(db.drivers.next), name, email, Pending))
      && db.drivers.rows[receipt.value.id].status == receipt.value.status
    ensures db.users == old(db.users) && db.rides == old(db.rides)
    ensures db.admins == old(db.admins) && db.transactions == old(db.transactions)
  {
    var existing := First(db.drivers, SameDriverIdentity(email, phone, licenseNumber, vehiclePlate));
    if existing.Some? {
      assert SameDriverIdentity(email, phone, licenseNumber, vehiclePlate)(db.drivers.rows[existing.value]);
      return 400, None;
    }
    assert forall id :: id in db.drivers.rows ==>
      !SameDriverIdentity(email, phone, licenseNumber, vehiclePlate)(db.drivers.rows[id]);
    var hashedPassword := hash(password);
    var id := db.drivers.next;
    db.drivers := db.drivers.Insert(NewDriver(name, email, phone, hashedPassword, licenseNumber,
                                              vehicleType, vehicleModel, vehiclePlate, vehicleColor));
    code := 201;
    receipt := Some(DriverReceipt(id, name, email, Pending));
  }

  function UserWithEmail(email: string): User -> bool {
    (u: User) => u.email == email
  }

  /** loginUser: the first user with that email, if the password matches its hash. */
  function LoginUser(users: Table<User>, email: string, password: string,
                     compare: (string, string) -> bool, sign: Claims -> string): (r: Result<Issued>)
    ensures r.Err? ==> r.code == 401 && r.message == InvalidCredentials
    ensures r.Ok? ==>
      && r.value.id in users.rows && users.rows[r.value.id].email == email
      && compare(password, users.rows[r.value.id].password)
      && r.value.token == GenerateToken(r.value.id, UserKind, sign)
    ensures users.Valid() && UniqueUsers(users) ==>
      (r.Ok? <==> exists id :: id in users.rows && users.rows[id].email == email && compare(password, users.rows[id].password))
  {
    match First(users, UserWithEmail(email))
    case None => Err(401, InvalidCredentials)
    case Some(id) =>
      assert UserWithEmail(email)(users.rows[id]);
      if !compare(password, users.rows[id].password) then Err(401, InvalidCredentials)
      else Ok(Issued(id, GenerateToken(id, UserKind, sign)))
  }

  function DriverWithEmail(email: string): Driver -> bool {
    (d: Driver) => d.email == email
  }

  /**
   * loginDriver: unknown email 401; a pending driver 403; a rejected or
   * suspended driver 403; a wrong password 401; otherwise a driver token.
   */
  function LoginDriver(drivers: Table<Driver>, email: string, password: string,
                       compare: (string, string) -> bool, sign: Claims -> string): (r: Result<Issued>)
    ensures drivers.Valid() && (forall id :: id in drivers.rows ==> drivers.rows[id].email != email) ==>
      r == Err(401, InvalidCredentials)
    ensures r.Ok? ==>
      && r.value.id in drivers.rows && drivers.rows[r.value.id].email == email
      && drivers.rows[r.value.id].status !in {Pending, Rejected, Suspended}
      && compare(password, drivers.rows[r.value.id].password)
      && r.value.token == GenerateToken(r.value.id, DriverKind, sign)
    ensures drivers.Valid() && UniqueDrivers(drivers) ==>
      (r.Ok? <==> exists id :: id in drivers.rows && drivers.rows[id].email == email
                             && drivers.rows[id].status !in {Pending, Rejected, Suspended}
                             && compare(password, drivers.rows[id].password))
    ensures r.Err? ==> r.code in {401, 403}
    ensures r.Err? && r.code == 401 ==> r.message == InvalidCredentials
    ensures r.Err? && r.code == 403 ==> r.message in {PendingApproval, NotActive}
    ensures r.Err? && r.code == 403 ==>
      exists id :: id in drivers.rows && drivers.rows[id].email == email && drivers.rows[id].status in {Pending, Rejected, Suspended}
  {
    match First(drivers, DriverWithEmail(email))
    case None => Err(401, InvalidCredentials)
    case Some(id) =>
      var driver := drivers.rows[id];
      assert DriverWithEmail(email)(driver);
      if driver.status == Pending then Err(403, PendingApproval)
      else if driver.status == Rejected || driver.status == Suspended then Err(403, NotActive)
      else if !compare(password, driver.password) then Err(401, InvalidCredentials)
      else Ok(Issued(id, GenerateToken(id, DriverKind, sign)))
  }

  /** With unique emails, the driver registered under an email is the one every lookup of that email finds. */
  lemma FoundDriver(drivers: Table<Driver>, email: string, id: Id)
    requires drivers.Valid() && UniqueDrivers(drivers)
    requires id in drivers.rows && drivers.rows[id].email == email
    ensures First(drivers, DriverWithEmail(email)) == Some(id)
  {
    assert DriverWithEmail(email)(drivers.rows[id]);
    var found := First(drivers, DriverWithEmail(email));
    assert DriverWithEmail(email)(drivers.rows[found.value]);
  }

  /**
   * The answer loginDriver gives the driver registered under the email:
   * 403 with the pending message, 403 with the inactive message, 401 for a
   * wrong password, and otherwise a driver token for that driver.
   */
  lemma LoginDriverByStatus(drivers: Table<Driver>, email: string, password: string,
                            compare: (string, string) -> bool, sign: Claims -> string, id: Id)
    requires drivers.Valid() && UniqueDrivers(drivers)
    requires id in drivers.rows && drivers.rows[id].email == email
    ensures var d, r := drivers.rows[id], LoginDriver(drivers, email, password, compare, sign);
      && (d.status == Pending ==> r == Err(403, PendingApproval))
      && (d.status == Rejected || d.status == Suspended ==> r == Err(403, NotActive))
      && (d.status !in {Pending, Rejected, Suspended} && !compare(password, d.password) ==> r == Err(401, InvalidCredentials))
      && (d.status !in {Pending, Rejected, Suspended} && compare(password, d.password) ==>
            r == Ok(Issued(id, GenerateToken(id, DriverKind, sign))))
  {
    FoundDriver(drivers, email, id);
  }

  /** The status gate runs before the password check: a blocked driver gets 403 whatever password is sent. */
  lemma StatusGateFirst(drivers: Table<Driver>, email: string, p1: string, p2: string,
                        compare: (string, string) -> bool, sign: Claims -> string)
    requires drivers.Valid() && UniqueDrivers(drivers)
    requires exists id :: (id in drivers.rows && drivers.rows[id].email == email &&
                           drivers.rows[id].status in {Pending, Rejected, Suspended})
    ensures LoginDriver(drivers, email, p1, compare, sign) == LoginDriver(drivers, email, p2, compare, sign)
    ensures LoginDriver(drivers, email, p1, compare, sign).Err? && LoginDriver(drivers, email, p1, compare, sign).code == 403
  {
    var id :| id in drivers.rows && drivers.rows[id].email == email && drivers.rows[id].status in {Pending, Rejected, Suspended};
    var found := First(drivers, DriverWithEmail(email));
    assert DriverWithEmail(email)(drivers.rows[id]);
    assert found.Some?;
    assert DriverWithEmail(email)(drivers.rows[found.value]);
    assert found.value == id;
  }

  function AdminWithEmail(email: string): Admin -> bool {
    (a: Admin) => a.email == email
  }

  /** loginAdmin: the first administrator with that email, if the password matches its hash. */
  function LoginAdmin(admins: Table<Admin>, email: string, password: string,
                      compare: (string, string) -> bool, sign: Claims -> string): (r: Result<Issued>)
    ensures r.Err? ==> r.code == 401 && r.message == InvalidCredentials
    ensures r.Ok? ==>
      && r.value.id in admins.rows && admins.rows[r.value.id].email == email
      && compare(password, admins.rows[r.value.id].password)
      && r.value.token == GenerateToken(r.value.id, AdminKind, sign)
    ensures admins.Valid() && UniqueAdmins(admins) ==>
      (r.Ok? <==> exists id :: id in admins.rows && admins.rows[id].email == email && compare(password, admins.rows[id].password))
  {
    match First(admins, AdminWithEmail(email))
    case None => Err(401, InvalidCredentials)
    case Some(id) =>
      assert AdminWithEmail(email)(admins.rows[id]);
      if !compare(password, admins.rows[id].password) then Err(401, InvalidCredentials)
      else Ok(Issued(id, GenerateToken(id, AdminKind, sign)))
  }
}
