/** Certificates of a tenant and their rotation (internal/manager/certificate.go). */
module Certificates {
  import opened Optional
  import opened Tables
  import P = Pagination

  type CertId = nat

  datatype Purpose = Generic | HyokManagement | RoleManagement | KeyManagement | Crypto

  /** SingletonCertificatePurposes */
  predicate Singleton(p: Purpose) { p == HyokManagement || p == RoleManagement || p == KeyManagement }

  datatype Cert = Cert(purpose: Purpose, created: nat, expires: nat, auto: bool, supersedes: Option<CertId>)

  /** The certificate table; a certificate's identifier is its place in it. `clock` is the date of the
    * youngest certificate: the issuer's dates strictly increase. */
  datatype Store = Store(certs: seq<Cert>, clock: nat, validity: nat)

  datatype Error = AlreadyExists | NotFound | NotIssued | CannotRotateOldCerts

  datatype Reply = Done | Refused(error: Error)

  // ---- queries ----

  /** First by descending creation date among the first `n` rows of a purpose (getCertificateByPurpose). */
  function Newest(certs: seq<Cert>, p: Purpose, n: nat): (r: Option<CertId>)
    requires n <= |certs|
    ensures r.Some? ==> r.value < n && certs[r.value].purpose == p
  {
    if n == 0 then None
    else
      var r := Newest(certs, p, n - 1);
      if certs[n - 1].purpose == p && (r.None? || certs[r.value].created < certs[n - 1].created) then Some(n - 1) else r
  }

  /** The youngest row of a purpose before row `n`, in order of insertion. */
  function Last(certs: seq<Cert>, p: Purpose, n: nat): (r: Option<CertId>)
    requires n <= |certs|
    ensures r.Some? ==> r.value < n && certs[r.value].purpose == p
  {
    if n == 0 then None else if certs[n - 1].purpose == p then Some(n - 1) else Last(certs, p, n - 1)
  }

  lemma {:induction false} NewestHasTheLatestDate(certs: seq<Cert>, p: Purpose, n: nat)
    requires n <= |certs|
    ensures forall i :: 0 <= i < n && certs[i].purpose == p ==>
      Newest(certs, p, n).Some? && certs[i].created <= certs[Newest(certs, p, n).value].created
  {
    if n > 0 { NewestHasTheLatestDate(certs, p, n - 1); }
  }

  lemma {:induction false} NothingAfterLast(certs: seq<Cert>, p: Purpose, n: nat)
    requires n <= |certs|
    ensures forall i :: 0 <= i < n && certs[i].purpose == p ==> Last(certs, p, n).Some? && i <= Last(certs, p, n).value
  {
    if n > 0 { NothingAfterLast(certs, p, n - 1); }
  }

  // ---- operations ----

  /** getNewCertificate: AutoRotate defaults to true. */
  function Issue(s: Store, p: Purpose, supersedes: Option<CertId>, delay: nat): Store {
    var date := s.clock + 1 + delay;
    s.(certs := s.certs + [Cert(p, date, date + s.validity, true, supersedes)], clock := date)
  }

  function RequestNew(s: Store, p: Purpose, issued: bool, delay: nat): (Store, Reply) {
    if exists i :: 0 <= i < |s.certs| && s.certs[i].purpose == p then (s, Refused(AlreadyExists))
    else if !issued then (s, Refused(NotIssued))
    else (Issue(s, p, None, delay), Done)
  }

  function SetAuto(s: Store, id: CertId, auto: bool): Store
    requires id < |s.certs|
  {
    s.(certs := s.certs[id := s.certs[id].(auto := auto)])
  }

  function Update(s: Store, id: CertId, auto: bool): (Store, Reply) {
    if id >= |s.certs| then (s, Refused(NotFound))
    else if auto && Newest(s.certs, s.certs[id].purpose, |s.certs|) != Some(id) then (s, Refused(CannotRotateOldCerts))
    else (SetAuto(s, id, auto), Done)
  }

  /** RotateCertificate: a new certificate, and then the superseded one stops rotating. */
  function Rotate(s: Store, id: CertId, issued: bool, delay: nat): (Store, Reply) {
    if id >= |s.certs| then (s, Refused(NotFound))
    else if !issued then (s, Refused(NotIssued))
    else Update(Issue(s, s.certs[id].purpose, Some(id), delay), id, false)
  }

  /** getDefaultHYOKClientCert */
  function DefaultHyok(s: Store, now: nat, issued: bool, delay: nat): (Store, Reply) {
    var newest := Newest(s.certs, HyokManagement, |s.certs|);
    if newest.None? then RequestNew(s, HyokManagement, issued, delay)
    else if s.certs[newest.value].expires < now then Rotate(s, newest.value, issued, delay)
    else (s, Done)
  }

  // ---- rotating what is about to expire ----

  function Indices(n: nat): seq<CertId> { if n == 0 then [] else Indices(n - 1) + [n - 1] }

  function Due(s: Store, limit: nat): set<CertId> {
    set i | 0 <= i < |s.certs| && s.certs[i].auto && Singleton(s.certs[i].purpose) && s.certs[i].expires < limit
  }

  function DueRows(s: Store, limit: nat): seq<CertId> { Select(Indices(|s.certs|), Due(s, limit)) }

  /** The callback's loop: it stops at the first rotation that fails. */
  function RotateSeq(s: Store, ids: seq<CertId>, failing: set<CertId>, delay: nat): (Store, Reply)
    decreases |ids|
  {
    if ids == [] then (s, Done)
    else
      var (s', reply) := Rotate(s, ids[0], ids[0] !in failing, delay);
      if reply.Refused? then (s', reply) else RotateSeq(s', ids[1..], failing, delay)
  }

  /** RotateExpiredCertificates, first batch. */
  function RotateDue(s: Store, limit: nat, failing: set<CertId>, delay: nat): (Store, Reply) {
    RotateSeq(s, P.Page(DueRows(s, limit), 0, P.DefaultLimit), failing, delay)
  }

  // ---- what every operation keeps ----

  predicate LinkOk(s: Store, p: Purpose, i: CertId)
    requires i < |s.certs|
  {
    s.certs[i].purpose == p ==>
      && s.certs[i].supersedes == Last(s.certs, p, i)
      && (s.certs[i].auto ==> Last(s.certs, p, |s.certs|) == Some(i))
  }

  predicate Dated(s: Store, p: Purpose) {
    && (forall i :: 0 <= i < |s.certs| && s.certs[i].purpose == p ==> s.certs[i].created <= s.clock)
    && (forall i, j :: 0 <= i < j < |s.certs| && s.certs[i].purpose == p && s.certs[j].purpose == p ==>
          s.certs[i].created < s.certs[j].created)
  }

  /** The certificates of one purpose form one chain: each supersedes the one before it, later ones
    * have later dates, and only the youngest may rotate. */
  ghost predicate Chain(s: Store, p: Purpose) {
    Dated(s, p) && forall i: nat {:trigger LinkOk(s, p, i)} :: i < |s.certs| ==> LinkOk(s, p, i)
  }

  ghost predicate Chains(s: Store) { forall p :: Singleton(p) ==> Chain(s, p) }

  /** `Last` looks only at the purposes of the rows before. */
  lemma {:induction false} LastOfPrefix(a: seq<Cert>, b: seq<Cert>, p: Purpose, n: nat)
    requires n <= |a| && n <= |b| && forall i :: 0 <= i < n ==> a[i].purpose == b[i].purpose
    ensures Last(a, p, n) == Last(b, p, n)
    decreases n
  {
    if n > 0 { LastOfPrefix(a, b, p, n - 1); }
  }

  /** With increasing dates the newest certificate is the last one. */
  lemma {:induction false} NewestIsLast(s: Store, p: Purpose, n: nat)
    requires Dated(s, p) && n <= |s.certs|
    ensures Newest(s.certs, p, n) == Last(s.certs, p, n)
    decreases n
  {
    if n > 0 {
      NewestIsLast(s, p, n - 1);
      var r := Newest(s.certs, p, n - 1);
      assert s.certs[n - 1].purpose == p && r.Some? ==> s.certs[r.value].created < s.certs[n - 1].created;
    }
  }

  lemma SetAutoKeepsChain(s: Store, id: CertId, auto: bool, p: Purpose)
    requires Chain(s, p) && id < |s.certs|
    requires auto && s.certs[id].purpose == p ==> Last(s.certs, p, |s.certs|) == Some(id)
    ensures Chain(SetAuto(s, id, auto), p)
  {
    var s' := SetAuto(s, id, auto);
    LastOfPrefix(s'.certs, s.certs, p, |s.certs|);
    forall i: nat | i < |s'.certs| ensures LinkOk(s', p, i) {
      assert LinkOk(s, p, i);
      LastOfPrefix(s'.certs, s.certs, p, i);
    }
  }

  lemma UpdateKeepsChain(s: Store, id: CertId, auto: bool, p: Purpose)
    requires Chain(s, p)
    ensures Chain(Update(s, id, auto).0, p)
  {
    if Update(s, id, auto).1.Done? {
      NewestIsLast(s, p, |s.certs|);
      SetAutoKeepsChain(s, id, auto, p);
    }
  }

  /** A certificate of another purpose, or the first of this one, or the successor of the last one
    * once that has stopped rotating. */
  lemma IssueKeepsChain(s: Store, q: Purpose, supersedes: Option<CertId>, delay: nat, p: Purpose)
    requires Chain(s, p)
    requires q == p ==> supersedes == Last(s.certs, p, |s.certs|)
    requires q == p ==> forall i :: 0 <= i < |s.certs| && s.certs[i].purpose == p ==> !s.certs[i].auto
    ensures Chain(Issue(s, q, supersedes, delay), p)
  {
    var s' := Issue(s, q, supersedes, delay);
    LastOfPrefix(s'.certs, s.certs, p, |s.certs|);
    forall i: nat | i < |s'.certs| ensures LinkOk(s', p, i) {
      if i < |s.certs| {
        assert LinkOk(s, p, i);
        LastOfPrefix(s'.certs, s.certs, p, i);
      }
    }
  }

  lemma OnlyLastIsAuto(s: Store, p: Purpose, id: CertId)
    requires Chain(s, p) && id < |s.certs| && Last(s.certs, p, |s.certs|) == Some(id)
    ensures forall i :: 0 <= i < |s.certs| && i != id && s.certs[i].purpose == p ==> !s.certs[i].auto
  {
    forall i | 0 <= i < |s.certs| && i != id && s.certs[i].purpose == p ensures !s.certs[i].auto {
      assert LinkOk(s, p, i);
    }
  }

  lemma RotatedIs(s: Store, id: CertId, delay: nat)
    requires id < |s.certs|
    ensures Rotate(s, id, true, delay) == (Issue(SetAuto(s, id, false), s.certs[id].purpose, Some(id), delay), Done)
  {
    var issued := Issue(s, s.certs[id].purpose, Some(id), delay);
    assert SetAuto(issued, id, false).certs == Issue(SetAuto(s, id, false), s.certs[id].purpose, Some(id), delay).certs;
  }

  lemma RotateKeepsChain(s: Store, id: CertId, issued: bool, delay: nat, p: Purpose)
    requires Chain(s, p)
    requires id < |s.certs| && s.certs[id].purpose == p ==> Last(s.certs, p, |s.certs|) == Some(id)
    ensures Chain(Rotate(s, id, issued, delay).0, p)
  {
    if id < |s.certs| && issued {
      var quiet := SetAuto(s, id, false);
      RotatedIs(s, id, delay);
      SetAutoKeepsChain(s, id, false, p);
      LastOfPrefix(quiet.certs, s.certs, p, |s.certs|);
      if s.certs[id].purpose == p { OnlyLastIsAuto(s, p, id); }
      IssueKeepsChain(quiet, s.certs[id].purpose, Some(id), delay, p);
    }
  }

  lemma RequestKeepsChain(s: Store, q: Purpose, issued: bool, delay: nat, p: Purpose)
    requires Chain(s, p)
    ensures Chain(RequestNew(s, q, issued, delay).0, p)
  {
    if RequestNew(s, q, issued, delay).1.Done? {
      if q == p { assert Last(s.certs, p, |s.certs|).None?; }
      IssueKeepsChain(s, q, None, delay, p);
    }
  }

  lemma DefaultHyokKeepsChain(s: Store, now: nat, issued: bool, delay: nat, p: Purpose)
    requires Chain(s, p)
    ensures Chain(DefaultHyok(s, now, issued, delay).0, p)
  {
    var newest := Newest(s.certs, HyokManagement, |s.certs|);
    if newest.None? {
      RequestKeepsChain(s, HyokManagement, issued, delay, p);
    } else {
      if p == HyokManagement { NewestIsLast(s, p, |s.certs|); }
      RotateKeepsChain(s, newest.value, issued, delay, p);
    }
  }

  predicate IsLast(s: Store, id: CertId) { id < |s.certs| && Last(s.certs, s.certs[id].purpose, |s.certs|) == Some(id) }

  predicate AllLast(s: Store, ids: seq<CertId>) {
    NoDuplicates(ids) && forall k :: 0 <= k < |ids| ==> IsLast(s, ids[k])
  }

  /** Rotating one certificate does not touch what is last for other purposes. */
  lemma RotateKeepsOthersLast(s: Store, id: CertId, other: CertId, delay: nat)
    requires IsLast(s, id) && IsLast(s, other) && id != other
    ensures IsLast(Rotate(s, id, true, delay).0, other)
  {
    RotatedIs(s, id, delay);
    var s', p := Rotate(s, id, true, delay).0, s.certs[other].purpose;
    assert s'.certs[other] == s.certs[other] && s'.certs[|s.certs|].purpose != p;
    assert Last(s'.certs, p, |s'.certs|) == Last(s'.certs, p, |s.certs|);
    LastOfPrefix(s'.certs, s.certs, p, |s.certs|);
  }

  lemma {:induction false} RotateSeqKeepsChain(s: Store, ids: seq<CertId>, failing: set<CertId>, delay: nat, p: Purpose)
    requires Chain(s, p) && AllLast(s, ids)
    ensures Chain(RotateSeq(s, ids, failing, delay).0, p)
    decreases |ids|
  {
    if ids != [] {
      assert IsLast(s, ids[0]);
      RotateKeepsChain(s, ids[0], ids[0] !in failing, delay, p);
      if ids[0] !in failing {
        RotatedIs(s, ids[0], delay);
        var s' := Rotate(s, ids[0], true, delay).0;
        forall k | 0 <= k < |ids[1..]| ensures IsLast(s', ids[1..][k]) {
          RotateKeepsOthersLast(s, ids[0], ids[k + 1], delay);
        }
        RotateSeqKeepsChain(s', ids[1..], failing, delay, p);
      }
    }
  }

  lemma {:induction false} IndicesAre(n: nat)
    ensures |Indices(n)| == n && forall i :: 0 <= i < n ==> Indices(n)[i] == i
  {
    if n > 0 { IndicesAre(n - 1); }
  }

  lemma DueAreLast(s: Store, limit: nat)
    requires Chains(s)
    ensures NoDuplicates(DueRows(s, limit))
    ensures forall id :: id in DueRows(s, limit) ==> IsLast(s, id) && Singleton(s.certs[id].purpose)
  {
    IndicesAre(|s.certs|);
    SelectMembers(Indices(|s.certs|), Due(s, limit));
    forall id | id in DueRows(s, limit) ensures IsLast(s, id) && Singleton(s.certs[id].purpose) {
      assert id in Due(s, limit);
      assert Chain(s, s.certs[id].purpose);
      assert LinkOk(s, s.certs[id].purpose, id);
    }
  }

  lemma DueDiffer(s: Store, limit: nat, i: nat, j: nat)
    requires Chains(s) && i < j < |DueRows(s, limit)|
    ensures var rows := DueRows(s, limit);
      && rows[i] < |s.certs| && Singleton(s.certs[rows[i]].purpose)
      && rows[j] < |s.certs| && Singleton(s.certs[rows[j]].purpose)
      && s.certs[rows[i]].purpose != s.certs[rows[j]].purpose
  {
    DueAreLast(s, limit);
    var rows := DueRows(s, limit);
    assert rows[i] in rows && rows[j] in rows;
  }

  /** There is at most one due certificate per singleton purpose, so the batch loop has one batch. */
  lemma AtMostThreeDue(s: Store, limit: nat)
    requires Chains(s)
    ensures |DueRows(s, limit)| <= 3
    ensures P.Page(DueRows(s, limit), 0, P.DefaultLimit) == DueRows(s, limit)
  {
    var rows := DueRows(s, limit);
    assert rows[0..] == rows;
    if |rows| > 3 {
      DueDiffer(s, limit, 0, 1);
      DueDiffer(s, limit, 0, 2);
      DueDiffer(s, limit, 0, 3);
      DueDiffer(s, limit, 1, 2);
      DueDiffer(s, limit, 1, 3);
      DueDiffer(s, limit, 2, 3);
      assert false;
    }
  }

  lemma RotateDueKeepsChain(s: Store, limit: nat, failing: set<CertId>, delay: nat, p: Purpose)
    requires Chains(s) && Chain(s, p)
    ensures Chain(RotateDue(s, limit, failing, delay).0, p)
  {
    AtMostThreeDue(s, limit);
    DueAreLast(s, limit);
    RotateSeqKeepsChain(s, DueRows(s, limit), failing, delay, p);
  }

  // ---- runs ----

  datatype Step =
    | Request(purpose: Purpose, issued: bool, delay: nat)
    | Default(now: nat, issued: bool, delay: nat)
    | RotateExpired(limit: nat, failing: set<CertId>, delay: nat)
    | UpdateAuto(id: CertId, auto: bool)

  function Next(s: Store, step: Step): Store {
    match step
    case Request(p, issued, delay) => RequestNew(s, p, issued, delay).0
    case Default(now, issued, delay) => DefaultHyok(s, now, issued, delay).0
    case RotateExpired(limit, failing, delay) => RotateDue(s, limit, failing, delay).0
    case UpdateAuto(id, auto) => Update(s, id, auto).0
  }

  function Run(s: Store, steps: seq<Step>): Store
    decreases |steps|
  {
    if steps == [] then s else Run(Next(s, steps[0]), steps[1..])
  }

  lemma StepKeepsChains(s: Store, step: Step)
    requires Chains(s)
    ensures Chains(Next(s, step))
  {
    forall p | Singleton(p) ensures Chain(Next(s, step), p) {
      match step
      case Request(q, issued, delay) => RequestKeepsChain(s, q, issued, delay, p);
      case Default(now, issued, delay) => DefaultHyokKeepsChain(s, now, issued, delay, p);
      case RotateExpired(limit, failing, delay) => RotateDueKeepsChain(s, limit, failing, delay, p);
      case UpdateAuto(id, auto) => UpdateKeepsChain(s, id, auto, p);
    }
  }

  lemma {:induction false} RunKeepsChains(s: Store, steps: seq<Step>)
    requires Chains(s)
    ensures Chains(Run(s, steps))
    decreases |steps|
  {
    if steps != [] {
      StepKeepsChains(s, steps[0]);
      RunKeepsChains(Next(s, steps[0]), steps[1..]);
    }
  }

  /** What the batch loop of an expiry rotation works on. */
  datatype Rotation = Rotation(s: Store, limit: nat, failing: set<CertId>, delay: nat)

  function RotationRows(r: Rotation): seq<CertId> { DueRows(r.s, r.limit) }

  function RotationSeq(r: Rotation, ids: seq<CertId>): (Rotation, bool) {
    var (s, reply) := RotateSeq(r.s, ids, r.failing, r.delay);
    (r.(s := s), reply.Done?)
  }

  /** The batch loop ends with its first batch, so it is `RotateDue`. */
  lemma RotationIsOneBatch(r: Rotation, listOk: nat -> bool, countOk: nat -> bool)
    requires Chains(r.s) && listOk(0)
    ensures var call := P.Call(RotationRows, RotationSeq, P.DefaultLimit, P.Normal, listOk, countOk);
      && !call.EndingAt(r, 0, 0).Continues?
      && call.PageAt(r, 0) == DueRows(r.s, r.limit)
      && call.After(r, 0).s == RotateDue(r.s, r.limit, r.failing, r.delay).0
  {
    AtMostThreeDue(r.s, r.limit);
    StepKeepsChains(r.s, RotateExpired(r.limit, r.failing, r.delay));
    AtMostThreeDue(RotateDue(r.s, r.limit, r.failing, r.delay).0, r.limit);
  }

  /** Following the supersedes references from a certificate. */
  function History(certs: seq<Cert>, id: CertId): seq<CertId>
    requires id < |certs|
    decreases id
  {
    if certs[id].supersedes.Some? && certs[id].supersedes.value < id
    then [id] + History(certs, certs[id].supersedes.value) else [id]
  }

  lemma {:induction false} HistoryIsEveryOlderCert(s: Store, p: Purpose, id: CertId)
    requires Chain(s, p) && id < |s.certs| && s.certs[id].purpose == p
    ensures forall i :: i in History(s.certs, id) <==> 0 <= i <= id && s.certs[i].purpose == p
    ensures forall i, j :: 0 <= i < j < |History(s.certs, id)| ==>
      && History(s.certs, id)[j] < History(s.certs, id)[i] < |s.certs|
      && s.certs[History(s.certs, id)[j]].created < s.certs[History(s.certs, id)[i]].created
    decreases id
  {
    assert LinkOk(s, p, id);
    NothingAfterLast(s.certs, p, id);
    var older := Last(s.certs, p, id);
    if older.Some? {
      HistoryIsEveryOlderCert(s, p, older.value);
      var h, rest := History(s.certs, id), History(s.certs, older.value);
      assert h == [id] + rest;
      assert forall j :: 0 <= j < |rest| ==> rest[j] in rest;
    }
  }

  /** After every run of requests, rotations, expiry rotations and updates, for each singleton purpose:
    * the newest certificate's history is all certificates of the purpose from the latest to the
    * earliest date, and no certificate but the newest auto-rotates. */
  lemma OneChainPerPurpose(clock: nat, validity: nat, steps: seq<Step>, p: Purpose)
    requires Singleton(p)
    ensures var s := Run(Store([], clock, validity), steps); var newest := Newest(s.certs, p, |s.certs|);
      && (newest.None? ==> forall i :: 0 <= i < |s.certs| ==> s.certs[i].purpose != p)
      && (newest.Some? ==>
            && (forall i :: i in History(s.certs, newest.value) <==> 0 <= i < |s.certs| && s.certs[i].purpose == p)
            && (forall i, j :: 0 <= i < j < |History(s.certs, newest.value)| ==>
                  && History(s.certs, newest.value)[j] < History(s.certs, newest.value)[i] < |s.certs|
                  && s.certs[History(s.certs, newest.value)[j]].created
                     < s.certs[History(s.certs, newest.value)[i]].created))
      && (forall i :: 0 <= i < |s.certs| && s.certs[i].purpose == p && s.certs[i].auto ==> newest == Some(i))
  {
    var s0 := Store([], clock, validity);
    assert Chains(s0);
    RunKeepsChains(s0, steps);
    var s := Run(s0, steps);
    assert Chain(s, p);
    NewestIsLast(s, p, |s.certs|);
    NothingAfterLast(s.certs, p, |s.certs|);
    var newest := Newest(s.certs, p, |s.certs|);
    if newest.Some? { HistoryIsEveryOlderCert(s, p, newest.value); }
    forall i | 0 <= i < |s.certs| && s.certs[i].purpose == p && s.certs[i].auto ensures newest == Some(i) {
      assert LinkOk(s, p, i);
    }
  }

  /** Auto-rotation can be switched on for the newest certificate of its purpose and for no other. */
  lemma UpdateAcceptedIff(s: Store, id: CertId)
    requires Chains(s) && id < |s.certs| && Singleton(s.certs[id].purpose)
    ensures Update(s, id, true).1.Done? <==>
      forall i :: id < i < |s.certs| ==> s.certs[i].purpose != s.certs[id].purpose
  {
    var p := s.certs[id].purpose;
    assert Chain(s, p);
    NewestIsLast(s, p, |s.certs|);
    NothingAfterLast(s.certs, p, |s.certs|);
  }

  /** Creating the successor and retiring the old certificate are two writes. Stopped between them, a
    * rotation of a certificate of a singleton purpose is harmless exactly when that certificate is the
    * newest of its purpose and was not rotating automatically. */
  lemma InterruptedRotationIsHarmlessIff(s: Store, id: CertId, delay: nat)
    requires Chains(s) && id < |s.certs| && Singleton(s.certs[id].purpose)
    ensures Chains(Issue(s, s.certs[id].purpose, Some(id), delay)) <==> IsLast(s, id) && !s.certs[id].auto
  {
    var half, p, n := Issue(s, s.certs[id].purpose, Some(id), delay), s.certs[id].purpose, |s.certs|;
    assert Chain(s, p);
    LastOfPrefix(half.certs, s.certs, p, n);
    if IsLast(s, id) && !s.certs[id].auto {
      OnlyLastIsAuto(s, p, id);
      forall q | Singleton(q) ensures Chain(half, q) { IssueKeepsChain(s, p, Some(id), delay, q); }
    } else if IsLast(s, id) {
      assert half.certs[id].auto && half.certs[n].purpose == p;
      assert !LinkOk(half, p, id);
      assert !Chain(half, p);
    } else {
      assert half.certs[n].supersedes == Some(id);
      assert !LinkOk(half, p, n);
      assert !Chain(half, p);
    }
  }

  /** Stopped at a certificate that does rotate, the old certificate becomes due again, and its next
    * rotation forks the chain. */
  lemma InterruptedRotationForks(s: Store, id: CertId, limit: nat, delay: nat)
    requires Chains(s) && IsLast(s, id) && Singleton(s.certs[id].purpose)
    requires s.certs[id].auto && s.certs[id].expires < limit
    ensures var half := Issue(s, s.certs[id].purpose, Some(id), delay);
      && id in Due(half, limit)
      && var t := Rotate(half, id, true, delay).0; var n := |s.certs|;
         && t.certs[n].supersedes == Some(id) && t.certs[n + 1].supersedes == Some(id)
         && !Chain(t, s.certs[id].purpose)
  {
    var half, p, n := Issue(s, s.certs[id].purpose, Some(id), delay), s.certs[id].purpose, |s.certs|;
    RotatedIs(half, id, delay);
    var t := Rotate(half, id, true, delay).0;
    assert t.certs[n].purpose == p && t.certs[n + 1].supersedes == Some(id);
    assert Last(t.certs, p, n + 1) == Some(n);
    assert !LinkOk(t, p, n + 1);
  }

  // ---- the manager, which changes the table row by row ----

  class CertificateManager {
    var certs: seq<Cert>
    var clock: nat
    const validity: nat

    function Snapshot(): Store
      reads this
    {
      Store(certs, clock, validity)
    }

    constructor (validity: nat, clock: nat)
      ensures Snapshot() == Store([], clock, validity)
    {
      this.validity := validity;
      this.clock := clock;
      certs := [];
    }

    method Create(purpose: Purpose, supersedes: Option<CertId>, delay: nat)
      modifies this
      ensures Snapshot() == Issue(old(Snapshot()), purpose, supersedes, delay)
    {
      clock := clock + 1 + delay;
      certs := certs + [Cert(purpose, clock, clock + validity, true, supersedes)];
    }

    method RequestNewCertificate(purpose: Purpose, issued: bool, delay: nat) returns (reply: Reply)
      modifies this
      ensures (Snapshot(), reply) == RequestNew(old(Snapshot()), purpose, issued, delay)
    {
      if exists i :: 0 <= i < |certs| && certs[i].purpose == purpose { return Refused(AlreadyExists); }
      if !issued { return Refused(NotIssued); }
      Create(purpose, None, delay);
      return Done;
    }

    method UpdateCertificate(id: CertId, autoRotate: bool) returns (reply: Reply)
      modifies this
      ensures (Snapshot(), reply) == Update(old(Snapshot()), id, autoRotate)
    {
      if id >= |certs| { return Refused(NotFound); }
      if autoRotate {
        var newest := Newest(certs, certs[id].purpose, |certs|);
        if newest != Some(id) { return Refused(CannotRotateOldCerts); }
      }
      certs := certs[id := certs[id].(auto := autoRotate)];
      return Done;
    }

    method RotateCertificate(id: CertId, issued: bool, delay: nat) returns (reply: Reply)
      modifies this
      ensures (Snapshot(), reply) == Rotate(old(Snapshot()), id, issued, delay)
    {
      if id >= |certs| { return Refused(NotFound); }
      if !issued { return Refused(NotIssued); }
      Create(certs[id].purpose, Some(id), delay);
      reply := UpdateCertificate(id, false);
    }

    method RotateExpiredCertificates(limit: nat, failing: set<CertId>, delay: nat) returns (reply: Reply)
      modifies this
      ensures (Snapshot(), reply) == RotateDue(old(Snapshot()), limit, failing, delay)
    {
      var page := P.Page(DueRows(Snapshot(), limit), 0, P.DefaultLimit);
      var i := 0;
      while i < |page|
        invariant 0 <= i <= |page|
        invariant RotateSeq(Snapshot(), page[i..], failing, delay) == RotateDue(old(Snapshot()), limit, failing, delay)
      {
        assert page[i..][0] == page[i] && page[i..][1..] == page[i + 1..];
        reply := RotateCertificate(page[i], page[i] !in failing, delay);
        if reply.Refused? { return; }
        i := i + 1;
      }
      return Done;
    }
  }
}
