/** Identifiers the handlers generate and the UPDATE ... WHERE statements
    that move complaints and certificates through their statuses. */
module Lifecycle {
  import opened Wrappers
  import opened Decimal
  import opened Time
  import opened Records
  import opened Queries

  // ---------------------------------------------------------------------
  // Complaint ids

  /** 'CPL-' followed by strftime('%Y%m%d%H%M%S') of the creation time. */
  function ComplaintId(t: DateTime): string {
    "CPL-" + Compact(t)
  }

  function ParseComplaintId(s: string): Option<DateTime> {
    if |s| >= 4 && s[..4] == "CPL-" then ParseCompact(s[4..]) else None
  }

  /** A generated complaint id is 'CPL-' and fourteen digits, and it names
      its creation second. */
  lemma ComplaintIdRoundTrip(t: DateTime)
    requires t.Valid()
    ensures |ComplaintId(t)| == 18 && ComplaintId(t)[..4] == "CPL-" && AllDigits(ComplaintId(t)[4..])
    ensures ParseComplaintId(ComplaintId(t)) == Some(t)
  {
    CompactRoundTrip(t);
    assert ComplaintId(t)[4..] == Compact(t);
  }

  /** Two handler-made ids collide exactly when both complaints were made in the same second. */
  lemma ComplaintIdCollision(a: DateTime, b: DateTime)
    requires a.Valid() && b.Valid()
    ensures ComplaintId(a) == ComplaintId(b) <==> a == b
  {
    if ComplaintId(a) == ComplaintId(b) {
      ComplaintIdRoundTrip(a);
      ComplaintIdRoundTrip(b);
    }
  }

  /** The seeded complaint's id does not have the generated form, so no
      generated id can equal it. */
  lemma SeedComplaintIdIsNotGenerated(t: DateTime)
    requires t.Valid()
    ensures ParseComplaintId("CPL-001") == None
    ensures ComplaintId(t) != "CPL-001"
  {
    ComplaintIdRoundTrip(t);
  }

  predicate HasComplaintId(complaints: seq<Complaint>, complaintId: string) {
    exists i :: 0 <= i < |complaints| && complaints[i].complaintId == complaintId
  }

  predicate UniqueComplaintIds(complaints: seq<Complaint>) {
    forall i, j :: 0 <= i < j < |complaints| ==> complaints[i].complaintId != complaints[j].complaintId
  }

  // ---------------------------------------------------------------------
  // Certificate numbers

  /** 'CERT-' + strftime('%Y') + '-' + format(n, '03d'). */
  function CertNumber(year: nat, n: nat): string {
    "CERT-" + ZeroPad(year, 4) + "-" + ZeroPad(n, 3)
  }

  /** The sequence number a certificate number ends in, when it has the
      shape CERT-YYYY-ddd... */
  function CertSequence(s: string): Option<nat> {
    if |s| > 10 && s[..5] == "CERT-" && AllDigits(s[5..9]) && s[9] == '-' && AllDigits(s[10..])
    then Some(ValueOf(s[10..]))
    else None
  }

  lemma CertNumberRoundTrip(year: nat, n: nat)
    requires 1 <= year <= 9999
    ensures CertSequence(CertNumber(year, n)) == Some(n)
  {
    assert Pow10(4) == 10000;
    ZeroPadWidth(year, 4);
    ValueOfZeroPad(n, 3);
    var s := CertNumber(year, n);
    assert s[..5] == "CERT-" && s[5..9] == ZeroPad(year, 4) && s[9] == '-' && s[10..] == ZeroPad(n, 3);
  }

  /** Row i of the certificates table carries sequence number i + 1: the
      seed rows 001 and 002 do, and every issued row takes count + 1. */
  predicate Sequenced(certificates: seq<Certificate>) {
    forall i :: 0 <= i < |certificates| ==> CertSequence(certificates[i].certNumber) == Some(i + 1)
  }

  predicate UniqueCertNumbers(certificates: seq<Certificate>) {
    forall i, j :: 0 <= i < j < |certificates| ==> certificates[i].certNumber != certificates[j].certNumber
  }

  lemma SequencedNumbersAreUnique(certificates: seq<Certificate>)
    requires Sequenced(certificates)
    ensures UniqueCertNumbers(certificates)
  {
  }

  /** The number create_certificate gives the next certificate. */
  function NextCertNumber(certificates: seq<Certificate>, year: nat): string {
    CertNumber(year, |certificates| + 1)
  }

  /** Certificates are never deleted, so count + 1 exceeds every sequence
      number in use: the next number is fresh, and appending a row under it
      keeps the table sequenced (hence UNIQUE). */
  lemma NextCertNumberIsFresh(certificates: seq<Certificate>, year: nat, c: Certificate)
    requires Sequenced(certificates) && 1 <= year <= 9999
    requires c.certNumber == NextCertNumber(certificates, year)
    ensures forall i :: 0 <= i < |certificates| ==> certificates[i].certNumber != c.certNumber
    ensures Sequenced(certificates + [c]) && UniqueCertNumbers(certificates + [c])
  {
    CertNumberRoundTrip(year, |certificates| + 1);
    var t := certificates + [c];
    forall i | 0 <= i < |t| ensures CertSequence(t[i].certNumber) == Some(i + 1) {
      if i < |certificates| {
        assert t[i] == certificates[i];
      }
    }
  }

  /** A certificate issued under a fresh number is what the lookup by that
      number returns afterwards. */
  lemma LookupAfterIssue(certificates: seq<Certificate>, c: Certificate)
    requires forall i :: 0 <= i < |certificates| ==> certificates[i].certNumber != c.certNumber
    ensures FindCertificate(certificates + [c], c.certNumber) == Ok(c)
  {
    var t := certificates + [c];
    assert t[|certificates|] == c;
    var found := FindCertificate(t, c.certNumber).value;
    var k :| 0 <= k < |t| && t[k] == found;
    if k < |certificates| {
      assert t[k] == certificates[k];
    }
  }

  // ---------------------------------------------------------------------
  // Certificate revocation

  /** UPDATE certificates SET status = 'Revoked' WHERE cert_number = ?. */
  function Revoke(certificates: seq<Certificate>, certNumber: string): (r: seq<Certificate>)
    ensures |r| == |certificates|
    ensures forall i :: 0 <= i < |r| ==>
              r[i] == if certificates[i].certNumber == certNumber then certificates[i].(status := REVOKED)
                      else certificates[i]
  {
    if certificates == [] then []
    else
      var head := certificates[0];
      [if head.certNumber == certNumber then head.(status := REVOKED) else head]
        + Revoke(certificates[1..], certNumber)
  }

  /** Revoking twice is revoking once. */
  lemma RevokeIdempotent(certificates: seq<Certificate>, certNumber: string)
    ensures Revoke(Revoke(certificates, certNumber), certNumber) == Revoke(certificates, certNumber)
  {
  }

  /** Revoking a number no row has changes nothing (and still succeeds). */
  lemma RevokeUnknownIsNoOp(certificates: seq<Certificate>, certNumber: string)
    requires forall i :: 0 <= i < |certificates| ==> certificates[i].certNumber != certNumber
    ensures Revoke(certificates, certNumber) == certificates
  {
  }

  /** Every row bearing the revoked number is Revoked afterwards. */
  lemma RevokedRowsAreRevoked(certificates: seq<Certificate>, certNumber: string)
    ensures forall c :: c in Revoke(certificates, certNumber) && c.certNumber == certNumber ==> c.status == REVOKED
  {
    var r := Revoke(certificates, certNumber);
    forall c | c in r && c.certNumber == certNumber ensures c.status == REVOKED {
      var k :| 0 <= k < |r| && r[k] == c;
      assert r[k].certNumber == certificates[k].certNumber;
    }
  }

  /** After revocation the lookup by number reports Revoked and no row of
      that number is listed as Active any more. */
  lemma RevokedCertificateIsWithdrawn(certificates: seq<Certificate>, certNumber: string)
    requires exists i :: 0 <= i < |certificates| && certificates[i].certNumber == certNumber
    ensures FindCertificate(Revoke(certificates, certNumber), certNumber).Ok?
    ensures FindCertificate(Revoke(certificates, certNumber), certNumber).value.status == REVOKED
    ensures forall c :: c in ActiveCertificates(Revoke(certificates, certNumber)) ==> c.certNumber != certNumber
  {
    var r := Revoke(certificates, certNumber);
    var i :| 0 <= i < |certificates| && certificates[i].certNumber == certNumber;
    assert r[i].certNumber == certNumber;
    RevokedRowsAreRevoked(certificates, certNumber);
  }

  // ---------------------------------------------------------------------
  // Complaint status

  /** UPDATE complaints SET status = ?, updated_at = CURRENT_TIMESTAMP
      WHERE complaint_id = ?. Any status string is stored verbatim. */
  function SetStatus(complaints: seq<Complaint>, complaintId: string, status: string, stamp: string): (r: seq<Complaint>)
    ensures |r| == |complaints|
    ensures forall i :: 0 <= i < |r| ==>
              r[i] == if complaints[i].complaintId == complaintId
                      then complaints[i].(status := status, updatedAt := stamp)
                      else complaints[i]
  {
    if complaints == [] then []
    else
      var head := complaints[0];
      [if head.complaintId == complaintId then head.(status := status, updatedAt := stamp) else head]
        + SetStatus(complaints[1..], complaintId, status, stamp)
  }

  /** Updating an id no complaint has changes nothing (and still succeeds). */
  lemma SetStatusUnknownIsNoOp(complaints: seq<Complaint>, complaintId: string, status: string, stamp: string)
    requires !HasComplaintId(complaints, complaintId)
    ensures SetStatus(complaints, complaintId, status, stamp) == complaints
  {
  }

  /** The last update wins: a second update of the same complaint overrides the first. */
  lemma SetStatusLastWins(complaints: seq<Complaint>, complaintId: string, s1: string, t1: string, s2: string, t2: string)
    ensures SetStatus(SetStatus(complaints, complaintId, s1, t1), complaintId, s2, t2)
            == SetStatus(complaints, complaintId, s2, t2)
  {
  }
}
