/** The service's database and request handlers: four tables no handler
    deletes from, held by one object, the seed data of the first start-up,
    the handlers that change the tables and the read-only endpoints over
    them. */
module Portal {
  import opened Wrappers
  import opened Decimal
  import opened Time
  import opened Records
  import opened Auth
  import opened Queries
  import opened Lifecycle

  /** The reply body FastAPI sends for an unhandled database error. */
  const INTERNAL_ERROR := "Internal Server Error"

  function SeedUsers(stamp: string): seq<User> {
    [ User(1, "admin", Sha256("admin123"), ADMIN, Some("Admin User"), stamp),
      User(2, "worker1", Sha256("worker123"), WORKER, Some("John Worker"), stamp),
      User(3, "farmer1", Sha256("farmer123"), FARMER, Some("Ahmed Ben Salem"), stamp) ]
  }

  function SeedCertificates(): seq<Certificate> {
    [ Certificate(1, "CERT-2025-001", "Ahmed Ben Salem", "Green Valley Farm", "Gold", ACTIVE,
                  "2025-01-01", "2025-12-31", Some(3)),
      Certificate(2, "CERT-2025-002", "Fatima Khelifi", "Sunrise Orchards", "Gold", ACTIVE,
                  "2025-01-05", "2025-12-31", None) ]
  }

  function SeedComplaints(stamp: string): seq<Complaint> {
    [ Complaint(1, "CPL-001", Some(2), "Transportation", "Vehicle Overcrowding",
                "Too many workers in one vehicle", NEW, Some("Safety Risk - High Priority"), stamp, stamp) ]
  }

  /** The two seeded certificate numbers are the ones the generator would
      have produced for sequence numbers 1 and 2. */
  lemma SeedCertificatesAreSequenced()
    ensures Sequenced(SeedCertificates())
  {
    SeedCertNumber(1);
    SeedCertNumber(2);
  }

  lemma SeedCertNumber(n: nat)
    requires n == 1 || n == 2
    ensures CertSequence(SeedCertificates()[n - 1].certNumber) == Some(n)
  {
    SeedNumerals();
    assert SeedCertificates()[n - 1].certNumber == CertNumber(2025, n);
    CertNumberRoundTrip(2025, n);
  }


  /** The three seeded accounts log in with their demo passwords, each
      getting a token for its own id and role. */
  lemma SeedLogins(stamp: string, t: int)
    ensures Login(SeedUsers(stamp), "admin", "admin123", t)
            == Ok(LoginReply(CreateAccessToken(1, "admin", ADMIN, t), "bearer", ADMIN))
    ensures Login(SeedUsers(stamp), "worker1", "worker123", t)
            == Ok(LoginReply(CreateAccessToken(2, "worker1", WORKER, t), "bearer", WORKER))
    ensures Login(SeedUsers(stamp), "farmer1", "farmer123", t)
            == Ok(LoginReply(CreateAccessToken(3, "farmer1", FARMER, t), "bearer", FARMER))
  {
    SeedTablesValid(stamp);
    RightPasswordAccepted(SeedUsers(stamp), 0, "admin123", t);
    RightPasswordAccepted(SeedUsers(stamp), 1, "worker123", t);
    RightPasswordAccepted(SeedUsers(stamp), 2, "farmer123", t);
  }

  /** A token issued for a seeded account resolves, until it expires, to
      that account's row. */
  lemma SeedCallers(stamp: string, id: nat, t: int, now: int)
    requires 1 <= id <= 3 && now < t + TOKEN_LIFETIME_SECONDS
    ensures var u := SeedUsers(stamp)[id - 1];
            GetCurrentUser(SeedUsers(stamp), CreateAccessToken(id, u.username, u.role, t), now) == Ok(u)
  {
    var users := SeedUsers(stamp);
    assert users[1..] == [users[1], users[2]] && users[1..][1..] == [users[2]];
  }

  /** AUTOINCREMENT ids on a table nothing deletes from run 1, 2, ...;
      usernames are UNIQUE. */
  ghost predicate UsersValid(users: seq<User>) {
    && (forall i :: 0 <= i < |users| ==> users[i].id == i + 1)
    && UniqueUsernames(users)
  }

  /** Row ids run 1, 2, ...; row i carries sequence number i + 1 (so the
      numbers are UNIQUE); every status is Active or Revoked; an owner,
      when set, is an existing user. */
  ghost predicate CertificatesValid(users: seq<User>, certificates: seq<Certificate>) {
    && (forall i :: 0 <= i < |certificates| ==> certificates[i].id == i + 1)
    && Sequenced(certificates)
    && (forall i :: 0 <= i < |certificates| ==> certificates[i].status == ACTIVE || certificates[i].status == REVOKED)
    && (forall i :: 0 <= i < |certificates| && certificates[i].userId.Some? ==>
          FindUser(users, certificates[i].userId.value).Some?)
  }

  /** Row ids run 1, 2, ...; complaint ids are UNIQUE; the filer, when set,
      is an existing user. */
  ghost predicate ComplaintsValid(users: seq<User>, complaints: seq<Complaint>) {
    && (forall i :: 0 <= i < |complaints| ==> complaints[i].id == i + 1)
    && UniqueComplaintIds(complaints)
    && (forall i :: 0 <= i < |complaints| && complaints[i].userId.Some? ==>
          FindUser(users, complaints[i].userId.value).Some?)
  }

  /** Row ids run 1, 2, ...; every rater is an existing worker. */
  ghost predicate RatingsValid(users: seq<User>, ratings: seq<Rating>) {
    && (forall i :: 0 <= i < |ratings| ==> ratings[i].id == i + 1)
    && (forall i :: 0 <= i < |ratings| ==>
          FindUser(users, ratings[i].userId).Some? && FindUser(users, ratings[i].userId).value.role == WORKER)
  }

  lemma SetStatusKeepsComplaintsValid(users: seq<User>, complaints: seq<Complaint>, complaintId: string, status: string, stamp: string)
    requires ComplaintsValid(users, complaints)
    ensures ComplaintsValid(users, SetStatus(complaints, complaintId, status, stamp))
  {
    var r := SetStatus(complaints, complaintId, status, stamp);
    assert forall i :: 0 <= i < |r| ==>
      r[i].id == complaints[i].id && r[i].complaintId == complaints[i].complaintId && r[i].userId == complaints[i].userId;
  }

  /** Issuing appends an Active, unowned row with the next id and the next
      certificate number: the table invariant is kept and the number is
      new to the table. */
  lemma IssueKeepsCertificatesValid(users: seq<User>, certificates: seq<Certificate>, year: nat, row: Certificate)
    requires CertificatesValid(users, certificates) && 1 <= year <= 9999
    requires row.id == |certificates| + 1 && row.certNumber == NextCertNumber(certificates, year)
    requires row.status == ACTIVE && row.userId == None
    ensures CertificatesValid(users, certificates + [row])
    ensures forall c :: c in certificates ==> c.certNumber != row.certNumber
  {
    NextCertNumberIsFresh(certificates, year, row);
    var t := certificates + [row];
    assert forall i :: 0 <= i < |certificates| ==> t[i] == certificates[i];
  }

  lemma RevokeKeepsCertificatesValid(users: seq<User>, certificates: seq<Certificate>, certNumber: string)
    requires CertificatesValid(users, certificates)
    ensures CertificatesValid(users, Revoke(certificates, certNumber))
  {
    var r := Revoke(certificates, certNumber);
    assert forall i :: 0 <= i < |r| ==>
      r[i].id == certificates[i].id && r[i].certNumber == certificates[i].certNumber && r[i].userId == certificates[i].userId;
  }

  /** The seed rows of init_db satisfy the four table predicates. */
  lemma SeedTablesValid(stamp: string)
    ensures UsersValid(SeedUsers(stamp))
    ensures CertificatesValid(SeedUsers(stamp), SeedCertificates())
    ensures ComplaintsValid(SeedUsers(stamp), SeedComplaints(stamp))
    ensures RatingsValid(SeedUsers(stamp), [])
  {
    var users := SeedUsers(stamp);
    assert users[1..] == [users[1], users[2]] && users[1..][1..] == [users[2]];
    SeedCertificatesAreSequenced();
  }

  class FarmPortal {
    var users: seq<User>
    var certificates: seq<Certificate>
    var complaints: seq<Complaint>
    var ratings: seq<Rating>

    /** What the tables keep true (see the four table predicates). */
    ghost predicate Valid()
      reads this
    {
      && UsersValid(users)
      && CertificatesValid(users, certificates)
      && ComplaintsValid(users, complaints)
      && RatingsValid(users, ratings)
    }

    /** init_db on an empty database: three users, two certificates and one
        complaint, all stamped with the database's current time. */
    constructor (clock: Clock)
      requires clock.Valid()
      ensures Valid()
      ensures users == SeedUsers(TimestampText(clock.utc))
      ensures certificates == SeedCertificates()
      ensures complaints == SeedComplaints(TimestampText(clock.utc))
      ensures ratings == []
    {
      var stamp := TimestampText(clock.utc);
      users := SeedUsers(stamp);
      certificates := SeedCertificates();
      complaints := SeedComplaints(stamp);
      ratings := [];
      SeedTablesValid(stamp);
    }
    // -------------------------------------------------------------------
    // Read-only endpoints

    /** POST /auth/login. */
    function LoginAs(username: string, password: string, now: int): (r: Result<LoginReply>)
      reads this
      ensures r.Ok? <==> exists u :: u in users && u.username == username && u.password == Sha256(password)
      ensures r.Ok? ==> exists u :: u in users && u.username == username && u.password == Sha256(password)
                          && r.value == LoginReply(CreateAccessToken(u.id, u.username, u.role, now), "bearer", u.role)
      ensures r.Err? ==> r.error == Unauthorized("Invalid credentials")
    {
      Login(users, username, password, now)
    }

    /** GET /auth/me: the caller's own users row. */
    function Me(token: Token, now: int): (r: Result<User>)
      reads this
      ensures r.Ok? <==> token.Signed? && now < token.claims.exp
                         && exists i :: 0 <= i < |users| && users[i].id == token.claims.userId
      ensures r.Ok? ==> r.value in users && r.value.id == token.claims.userId
      ensures r.Err? ==> r.error.StatusCode() == 401
      ensures r.Err? ==> r.error == if token.Signed? && now < token.claims.exp then Unauthorized("User not found")
                                    else Unauthorized("Invalid token")
    {
      GetCurrentUser(users, token, now)
    }

    /** GET /complaints: any authenticated caller; an admin sees all
        complaints, anyone else only their own; newest first. */
    function GetComplaints(token: Token, now: int): (r: Result<seq<Complaint>>)
      reads this
      ensures r.Ok? <==> GetCurrentUser(users, token, now).Ok?
      ensures r.Err? ==> r == Err(GetCurrentUser(users, token, now).error) && r.error.StatusCode() == 401
      ensures r.Ok? && GetCurrentUser(users, token, now).value.role == ADMIN ==>
                |r.value| == |complaints|
                && forall i :: 0 <= i < |r.value| ==> r.value[i] == complaints[|complaints| - 1 - i]
      ensures r.Ok? ==>
                var admin := GetCurrentUser(users, token, now).value.role == ADMIN;
                && (forall c :: c in r.value <==> c in complaints && (admin || c.userId == Some(token.claims.userId)))
                && (forall c :: multiset(r.value)[c] ==
                      if admin || c.userId == Some(token.claims.userId) then multiset(complaints)[c] else 0)
    {
      match GetCurrentUser(users, token, now)
      case Err(e) => Err(e)
      case Ok(caller) => Ok(VisibleComplaints(complaints, caller))
    }

    /** GET /certificates: any authenticated caller; the Active rows. */
    function GetCertificates(token: Token, now: int): (r: Result<seq<Certificate>>)
      reads this
      ensures r.Ok? <==> GetCurrentUser(users, token, now).Ok?
      ensures r.Err? ==> r == Err(GetCurrentUser(users, token, now).error) && r.error.StatusCode() == 401
      ensures r.Ok? ==> forall c :: c in r.value <==> c in certificates && c.status == ACTIVE
      ensures r.Ok? ==> forall c :: multiset(r.value)[c] == if c.status == ACTIVE then multiset(certificates)[c] else 0
    {
      match GetCurrentUser(users, token, now)
      case Err(e) => Err(e)
      case Ok(_) => Ok(ActiveCertificates(certificates))
    }

    /** GET /certificates/{cert_number}: public; 404 exactly when no row has the number. */
    function VerifyCertificate(certNumber: string): (r: Result<Certificate>)
      reads this
      ensures r.Err? <==> forall c :: c in certificates ==> c.certNumber != certNumber
      ensures r.Ok? ==> r.value in certificates && r.value.certNumber == certNumber
      ensures r.Err? ==> r.error == NotFound("Certificate not found") && r.error.StatusCode() == 404
    {
      FindCertificate(certificates, certNumber)
    }

    /** GET /ratings/farmer/{farmer_id}: public. A farmer id outside the
        64-bit range cannot be bound into the query, which fails with 500. */
    function GetFarmerRatings(farmerId: int): (r: Result<RatingSummary>)
      reads this
      ensures r.Err? <==> !IsInt64(farmerId)
      ensures r.Err? ==> r.error == ServerError(INTERNAL_ERROR)
      ensures r.Ok? ==> SummaryOf(ratings, farmerId, r.value)
    {
      if !IsInt64(farmerId) then Err(ServerError(INTERNAL_ERROR))
      else Ok(FarmerSummary(ratings, farmerId))
    }

    /** GET /analytics/stats: admins only. */
    function GetAnalytics(token: Token, now: int): (r: Result<Stats>)
      reads this
      ensures r.Ok? <==> Authorize(users, token, now, ADMIN, "Only admins can view analytics").Ok?
      ensures GetCurrentUser(users, token, now).Err? ==> r == Err(GetCurrentUser(users, token, now).error)
      ensures GetCurrentUser(users, token, now).Ok? && GetCurrentUser(users, token, now).value.role != ADMIN ==>
                r == Err(Forbidden("Only admins can view analytics"))
      ensures r.Ok? ==> r.value.activeCertificates == |RowsWhere(certificates, IsActive)|
                        && r.value.totalWorkers == |RowsWhere(users, IsWorker)|
                        && r.value.pendingComplaints == |RowsWhere(complaints, IsPending)|
      ensures r.Ok? ==>
                var g := r.value.complaintsByCategory;
                && (forall i, j :: 0 <= i < j < |g| ==> g[i].category != g[j].category)
                && (forall c :: c in complaints ==> exists i :: 0 <= i < |g| && g[i].category == c.category)
                && (forall i :: 0 <= i < |g| ==> g[i].count == |InCategory(complaints, g[i].category)| && g[i].count > 0)
                && SumCounts(g) == |complaints|
    {
      match Authorize(users, token, now, ADMIN, "Only admins can view analytics")
      case Err(e) => Err(e)
      case Ok(_) => Ok(Statistics(users, certificates, complaints))
    }

    // -------------------------------------------------------------------
    // Handlers that change the tables

    /** POST /complaints: any authenticated caller files a complaint under
        their own id, with status New whatever they send, and an id made of
        the creation second. A second complaint in the same second breaks
        the UNIQUE constraint and the request fails with a server error. */
    method CreateComplaint(token: Token, clock: Clock, body: ComplaintCreate) returns (r: Result<ComplaintReceipt>)
      requires Valid() && clock.Valid()
      modifies this
      ensures Valid()
      ensures users == old(users) && certificates == old(certificates) && ratings == old(ratings)
      ensures GetCurrentUser(users, token, clock.epoch).Err? ==>
                r == Err(GetCurrentUser(users, token, clock.epoch).error)
      ensures GetCurrentUser(users, token, clock.epoch).Ok? && HasComplaintId(old(complaints), ComplaintId(clock.local)) ==>
                r == Err(ServerError(INTERNAL_ERROR))
      ensures r.Ok? <==> GetCurrentUser(users, token, clock.epoch).Ok? && !HasComplaintId(old(complaints), ComplaintId(clock.local))
      ensures r.Err? ==> complaints == old(complaints)
      ensures r.Ok? ==>
                var caller := GetCurrentUser(users, token, clock.epoch).value;
                var id := ComplaintId(clock.local);
                var stamp := TimestampText(clock.utc);
                && r.value == ComplaintReceipt(id, "submitted")
                && complaints == old(complaints)
                   + [Complaint(|old(complaints)| + 1, id, Some(caller.id), body.category, body.subject,
                                body.description, NEW, None, stamp, stamp)]
    {
      match GetCurrentUser(users, token, clock.epoch)
      case Err(e) =>
        r := Err(e);
      case Ok(caller) =>
        var id := ComplaintId(clock.local);
        if HasComplaintId(complaints, id) {
          r := Err(ServerError(INTERNAL_ERROR));
        } else {
          var stamp := TimestampText(clock.utc);
          var row := Complaint(|complaints| + 1, id, Some(caller.id), body.category, body.subject,
                               body.description, NEW, None, stamp, stamp);
          assert caller in users;
          complaints := complaints + [row];
          r := Ok(ComplaintReceipt(id, "submitted"));
        }
    }

    /** PATCH /complaints/{complaint_id}: admins only; sets the given status
        verbatim and refreshes updated_at on the matching rows, reporting
        success whether or not any row matched. */
    method UpdateComplaint(token: Token, clock: Clock, complaintId: string, status: string) returns (r: Result<Ack>)
      requires Valid()
      modifies this
      ensures Valid()
      ensures users == old(users) && certificates == old(certificates) && ratings == old(ratings)
      ensures var gate := Authorize(users, token, clock.epoch, ADMIN, "Only admins can update complaints");
              if gate.Err? then r == Err(gate.error) && complaints == old(complaints)
              else r == Ok(Ack("Complaint updated successfully"))
                   && complaints == SetStatus(old(complaints), complaintId, status, TimestampText(clock.utc))
    {
      match Authorize(users, token, clock.epoch, ADMIN, "Only admins can update complaints")
      case Err(e) =>
        r := Err(e);
      case Ok(_) =>
        SetStatusKeepsComplaintsValid(users, complaints, complaintId, status, TimestampText(clock.utc));
        complaints := SetStatus(complaints, complaintId, status, TimestampText(clock.utc));
        r := Ok(Ack("Complaint updated successfully"));
    }

    /** POST /certificates: admins only; issues number
        CERT-<year>-<count + 1, three digits at least>, Active, dated today. */
    method CreateCertificate(token: Token, clock: Clock, body: CertificateCreate) returns (r: Result<CertificateReceipt>)
      requires Valid() && clock.Valid()
      modifies this
      ensures Valid()
      ensures users == old(users) && complaints == old(complaints) && ratings == old(ratings)
      ensures var gate := Authorize(users, token, clock.epoch, ADMIN, "Only admins can issue certificates");
              if gate.Err? then r == Err(gate.error) && certificates == old(certificates)
              else
                var number := NextCertNumber(old(certificates), clock.local.year);
                && r == Ok(CertificateReceipt(number, "issued"))
                && certificates == old(certificates)
                   + [Certificate(|old(certificates)| + 1, number, body.farmerName, body.farmName, body.level,
                                  ACTIVE, DateText(clock.utc), body.validUntil, None)]
      ensures r.Ok? ==> forall c :: c in old(certificates) ==> c.certNumber != r.value.certNumber
    {
      match Authorize(users, token, clock.epoch, ADMIN, "Only admins can issue certificates")
      case Err(e) =>
        r := Err(e);
      case Ok(_) =>
        var number := NextCertNumber(certificates, clock.local.year);
        var row := Certificate(|certificates| + 1, number, body.farmerName, body.farmName, body.level,
                               ACTIVE, DateText(clock.utc), body.validUntil, None);
        IssueKeepsCertificatesValid(users, certificates, clock.local.year, row);
        certificates := certificates + [row];
        r := Ok(CertificateReceipt(number, "issued"));
    }

    /** DELETE /certificates/{cert_number}: admins only; marks the matching
        rows Revoked, reporting success whether or not any row matched. */
    method RevokeCertificate(token: Token, clock: Clock, certNumber: string) returns (r: Result<Ack>)
      requires Valid()
      modifies this
      ensures Valid()
      ensures users == old(users) && complaints == old(complaints) && ratings == old(ratings)
      ensures var gate := Authorize(users, token, clock.epoch, ADMIN, "Only admins can revoke certificates");
              if gate.Err? then r == Err(gate.error) && certificates == old(certificates)
              else r == Ok(Ack("Certificate revoked")) && certificates == Revoke(old(certificates), certNumber)
    {
      match Authorize(users, token, clock.epoch, ADMIN, "Only admins can revoke certificates")
      case Err(e) =>
        r := Err(e);
      case Ok(_) =>
        RevokeKeepsCertificatesValid(users, certificates, certNumber);
        certificates := Revoke(certificates, certNumber);
        r := Ok(Ack("Certificate revoked"));
    }

    /** POST /ratings: workers only; appends the rating under the caller's id.
        Neither the scores nor the farmer id are checked, but an integer
        outside the 64-bit range cannot be bound and the request fails
        with 500. */
    method CreateRating(token: Token, clock: Clock, body: RatingCreate) returns (r: Result<Ack>)
      requires Valid()
      modifies this
      ensures Valid()
      ensures users == old(users) && certificates == old(certificates) && complaints == old(complaints)
      ensures var gate := Authorize(users, token, clock.epoch, WORKER, "Only workers can submit ratings");
              if gate.Err? then r == Err(gate.error) && ratings == old(ratings)
              else if !body.Bindable() then r == Err(ServerError(INTERNAL_ERROR)) && ratings == old(ratings)
              else r == Ok(Ack("Rating submitted successfully"))
                   && ratings == old(ratings)
                      + [Rating(|old(ratings)| + 1, gate.value.id, body.farmerId, body.transport, body.conditions,
                                body.equipment, body.wages, body.comments, TimestampText(clock.utc))]
    {
      match Authorize(users, token, clock.epoch, WORKER, "Only workers can submit ratings")
      case Err(e) =>
        r := Err(e);
      case Ok(caller) =>
        if !body.Bindable() {
          r := Err(ServerError(INTERNAL_ERROR));
        } else {
          var row := Rating(|ratings| + 1, caller.id, body.farmerId, body.transport, body.conditions,
                            body.equipment, body.wages, body.comments, TimestampText(clock.utc));
          assert caller in users;
          ratings := ratings + [row];
          r := Ok(Ack("Rating submitted successfully"));
        }
    }
  }

  /** A worker's session on a freshly seeded portal: log in, list
      complaints, then file one. Before filing, the worker already sees the
      seeded complaint CPL-001, which was filed under the worker's user id. */
  method WorkerSession(clock: Clock, later: Clock)
    requires clock.Valid() && later.Valid()
    requires clock.epoch <= later.epoch < clock.epoch + TOKEN_LIFETIME_SECONDS
  {
    var portal := new FarmPortal(clock);
    var worker := portal.users[1];
    var token := SignInWorker(portal, clock.epoch, later.epoch);
    var seeded := portal.complaints[0];
    assert portal.complaints == [seeded] && seeded.userId == Some(worker.id) && seeded.status == NEW;
    SeedComplaintIdIsNotGenerated(later.local);
    assert !HasComplaintId(portal.complaints, ComplaintId(later.local));
    FileAndList(portal, token, later, worker, seeded);
  }

  /** Logging in as the seeded worker yields a token that resolves, within
      its lifetime, to the worker's users row, both for /auth/me and for
      any handler that authenticates its caller. */
  method SignInWorker(portal: FarmPortal, issuedAt: int, now: int) returns (token: Token)
    requires exists stamp :: portal.users == SeedUsers(stamp)
    requires issuedAt <= now < issuedAt + TOKEN_LIFETIME_SECONDS
    ensures portal.Me(token, now) == Ok(portal.users[1])
    ensures GetCurrentUser(portal.users, token, now) == Ok(portal.users[1]) && portal.users[1].role == WORKER
  {
    var stamp :| portal.users == SeedUsers(stamp);
    SeedLogins(stamp, issuedAt);
    var login := portal.LoginAs("worker1", "worker123", issuedAt);
    assert login.Ok? && login.value.role == WORKER;
    token := login.value.accessToken;
    SeedCallers(stamp, 2, issuedAt, now);
  }

  /** A non-admin caller whose one complaint is the whole table files a
      second one: the listing then holds exactly those two rows, both New,
      and nothing filed by anyone else. */
  method FileAndList(portal: FarmPortal, token: Token, clock: Clock, caller: User, own: Complaint)
    requires portal.Valid() && clock.Valid()
    requires GetCurrentUser(portal.users, token, clock.epoch) == Ok(caller) && caller.role != ADMIN
    requires portal.complaints == [own] && own.userId == Some(caller.id) && own.status == NEW
    requires !HasComplaintId(portal.complaints, ComplaintId(clock.local))
    modifies portal
  {
    OwnRowListed(portal, token, clock.epoch, caller, own);
    var row := FileOwn(portal, token, clock, caller, own);
    OwnPairListed(portal, token, clock.epoch, caller, own, row);
    var listed := portal.GetComplaints(token, clock.epoch);
    assert |listed.value| == 2 && own in listed.value && row in listed.value;
  }

  /** A non-admin caller's listing shows a complaint filed under the caller. */
  lemma OwnRowListed(portal: FarmPortal, token: Token, now: int, caller: User, own: Complaint)
    requires GetCurrentUser(portal.users, token, now) == Ok(caller) && caller.role != ADMIN
    requires own in portal.complaints && own.userId == Some(caller.id)
    ensures portal.GetComplaints(token, now).Ok? && own in portal.GetComplaints(token, now).value
  {
    assert caller.id == token.claims.userId;
  }

  /** Filing a complaint, with no id collision, as the caller who filed the
      table's only row: the reply is "submitted" and the table becomes that
      row followed by a New row under the caller's id with the generated id. */
  method FileOwn(portal: FarmPortal, token: Token, clock: Clock, caller: User, own: Complaint) returns (row: Complaint)
    requires portal.Valid() && clock.Valid()
    requires GetCurrentUser(portal.users, token, clock.epoch) == Ok(caller)
    requires portal.complaints == [own]
    requires !HasComplaintId(portal.complaints, ComplaintId(clock.local))
    modifies portal
    ensures portal.users == old(portal.users)
    ensures portal.complaints == [own, row]
    ensures row.complaintId == ComplaintId(clock.local) && row.status == NEW && row.userId == Some(caller.id)
  {
    var filed := portal.CreateComplaint(token, clock, ComplaintCreate("Transportation", "X", "Y"));
    assert filed == Ok(ComplaintReceipt(ComplaintId(clock.local), "submitted"));
    row := portal.complaints[1];
  }

  /** When the complaints table is two New rows of a non-admin caller, that
      caller's listing is exactly those two rows, both New. */
  lemma OwnPairListed(portal: FarmPortal, token: Token, now: int, caller: User, own: Complaint, row: Complaint)
    requires GetCurrentUser(portal.users, token, now) == Ok(caller) && caller.role != ADMIN
    requires portal.complaints == [own, row]
    requires own.userId == Some(caller.id) && row.userId == Some(caller.id)
    requires own.status == NEW && row.status == NEW
    ensures var listed := portal.GetComplaints(token, now);
            && listed.Ok? && |listed.value| == 2 && own in listed.value && row in listed.value
            && forall c :: c in listed.value ==> c.userId == Some(caller.id) && c.status == NEW
  {
    var listed := portal.GetComplaints(token, now);
    assert caller.id == token.claims.userId;
    OnlyOwnRows(listed.value, portal.complaints, caller.id);
  }

  /** A listing that keeps every row of the caller's, as often as the table
      has it, and no other row, is the whole table when every row is the
      caller's: it has the table's rows and length. */
  lemma OnlyOwnRows(listed: seq<Complaint>, table: seq<Complaint>, id: int)
    requires forall c :: multiset(listed)[c] == if c.userId == Some(id) then multiset(table)[c] else 0
    requires forall c :: c in table ==> c.userId == Some(id)
    ensures multiset(listed) == multiset(table) && |listed| == |table|
  {
    forall c ensures multiset(listed)[c] == multiset(table)[c] {
      if c.userId != Some(id) {
        assert c !in table;
      }
    }
    assert multiset(listed) == multiset(table);
    assert |multiset(listed)| == |listed| && |multiset(table)| == |table|;
  }

  /** An admin's session on a freshly seeded portal: log in, issue a
      certificate and look it up by its number, then revoke it twice. */
  method AdminSession(clock: Clock, later: Clock, body: CertificateCreate)
    requires clock.Valid() && later.Valid()
    requires clock.epoch <= later.epoch < clock.epoch + TOKEN_LIFETIME_SECONDS
  {
    var portal := new FarmPortal(clock);
    var admin := portal.users[0];
    SeedLogins(TimestampText(clock.utc), clock.epoch);
    var adminLogin := portal.LoginAs("admin", "admin123", clock.epoch);
    assert adminLogin.Ok? && adminLogin.value.role == ADMIN;
    var adminToken := adminLogin.value.accessToken;
    SeedCallers(TimestampText(clock.utc), 1, clock.epoch, later.epoch);
    assert portal.Me(adminToken, later.epoch) == Ok(admin);

    assert Authorize(portal.users, adminToken, later.epoch, ADMIN, "Only admins can issue certificates").Ok?;
    var number := IssueAndLookup(portal, adminToken, later, body);
    assert Authorize(portal.users, adminToken, later.epoch, ADMIN, "Only admins can revoke certificates").Ok?;
    RevokeTwice(portal, adminToken, later, number);
  }

  /** An admin issues a certificate: the receipt carries the next number in
      the year's sequence, and looking that number up returns the new Active
      row. */
  method IssueAndLookup(portal: FarmPortal, adminToken: Token, clock: Clock, body: CertificateCreate)
    returns (number: string)
    requires portal.Valid() && clock.Valid()
    requires Authorize(portal.users, adminToken, clock.epoch, ADMIN, "Only admins can issue certificates").Ok?
    modifies portal
    ensures portal.Valid() && portal.users == old(portal.users)
    ensures |portal.certificates| == |old(portal.certificates)| + 1
    ensures portal.certificates[|old(portal.certificates)|].certNumber == number
    ensures portal.certificates[|old(portal.certificates)|].status == ACTIVE
  {
    var before := portal.certificates;
    var issued := portal.CreateCertificate(adminToken, clock, body);
    number := CertNumber(clock.local.year, |before| + 1);
    assert issued == Ok(CertificateReceipt(number, "issued"));
    var row := portal.certificates[|before|];
    assert portal.certificates == before + [row] && row.certNumber == number && row.status == ACTIVE;
    LookupAfterIssue(before, row);
    var found := portal.VerifyCertificate(number);
    assert found == Ok(row);
  }

  /** An admin revokes the same certificate twice: both calls succeed, the
      second changes nothing, and the lookup then reports Revoked while the
      listing of Active certificates no longer shows it. */
  method RevokeTwice(portal: FarmPortal, adminToken: Token, clock: Clock, number: string)
    requires portal.Valid()
    requires Authorize(portal.users, adminToken, clock.epoch, ADMIN, "Only admins can revoke certificates").Ok?
    requires exists i :: 0 <= i < |portal.certificates| && portal.certificates[i].certNumber == number
    modifies portal
  {
    var first := portal.RevokeCertificate(adminToken, clock, number);
    var afterFirst := portal.certificates;
    var second := portal.RevokeCertificate(adminToken, clock, number);
    assert first == Ok(Ack("Certificate revoked")) && second == first;
    RevokeIdempotent(afterFirst, number);
    assert portal.certificates == afterFirst;
    RevokedCertificateIsWithdrawn(afterFirst, number);
    assert portal.VerifyCertificate(number).Ok? && portal.VerifyCertificate(number).value.status == REVOKED;
  }
}
