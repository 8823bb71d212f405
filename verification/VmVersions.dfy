/** Virtual machines, their amendments, and which version of each is current. */
module VmVersions {
  import opened Wrappers

  type Hash = string

  datatype Kind = Instance | Program

  /** What a VM message says; its item hash identifies it. */
  datatype VmMessage = VmMessage(kind: Kind, allowAmend: bool, amends: Option<Hash>, time: real)

  /** A row of `instances` or `programs`. */
  datatype Vm = Vm(allowAmend: bool, amends: Option<Hash>, time: real)

  /** A row of `vm_versions`. */
  datatype Version = Version(current: Option<Hash>, updated: real)

  datatype Db = Db(instances: map<Hash, Vm>, programs: map<Hash, Vm>, versions: map<Hash, Version>)

  function TableOf(db: Db, kind: Kind): map<Hash, Vm> {
    if kind.Instance? then db.instances else db.programs
  }

  /** Whether the current version of `r` allows amendments; `None` when that cannot be told. */
  function AmendAllowed(db: Db, r: Hash): Option<bool> {
    if r !in db.versions then None
    else
      match db.versions[r].current
      case Some(c) =>
        if c in db.instances then Some(db.instances[c].allowAmend)
        else if c in db.programs then Some(db.programs[c].allowAmend)
        else None
      case None =>
        if r in db.instances then Some(db.instances[r].allowAmend)
        else if r in db.programs then Some(db.programs[r].allowAmend)
        else None
  }

  datatype Verdict = Allowed | VmNotFound | AmendsAnAmendment | AmendmentsForbidden | StatusUnknown

  function AmendmentVerdict(db: Db, kind: Kind, r: Hash): Verdict {
    if r !in TableOf(db, kind) then VmNotFound
    else if TableOf(db, kind)[r].amends.Some? then AmendsAnAmendment
    else
      match AmendAllowed(db, r)
      case Some(false) => AmendmentsForbidden
      case None => StatusUnknown
      case Some(true) => Allowed
  }

  /** The upsert: a later time wins, an equal one does not. */
  function Upserted(versions: map<Hash, Version>, vm: Hash, current: Hash, time: real): map<Hash, Version> {
    if vm !in versions || versions[vm].updated < time then versions[vm := Version(Some(current), time)] else versions
  }

  function Inserted(table: map<Hash, Vm>, h: Hash, m: VmMessage): map<Hash, Vm> {
    if h in table then table else table[h := Vm(m.allowAmend, m.amends, m.time)]
  }

  /** Validation, then processing; `otherwiseValid` stands for the checks that do not concern versions. */
  function Accepted(db: Db, h: Hash, m: VmMessage, otherwiseValid: bool): Db {
    if !otherwiseValid || (m.amends.Some? && !AmendmentVerdict(db, m.kind, m.amends.value).Allowed?) then db
    else
      Db(if m.kind.Instance? then Inserted(db.instances, h, m) else db.instances,
         if m.kind.Program? then Inserted(db.programs, h, m) else db.programs,
         Upserted(db.versions, if m.amends.Some? then m.amends.value else h, h, m.time))
  }

  function WithoutAmendments(table: map<Hash, Vm>, h: Hash): map<Hash, Vm> {
    map x | x in table && table[x].amends != Some(h) :: table[x]
  }

  /** Forgetting a VM message: its amendments go first, then its own rows. */
  function Forgotten(db: Db, h: Hash, kind: Kind): Db {
    var instances, programs := WithoutAmendments(db.instances, h), WithoutAmendments(db.programs, h);
    Db(if kind.Instance? then instances - {h} else instances,
       if kind.Program? then programs - {h} else programs,
       db.versions - {h})
  }

  class VmStore {
    var instances: map<Hash, Vm>
    var programs: map<Hash, Vm>
    var versions: map<Hash, Version>

    function Contents(): Db reads this { Db(instances, programs, versions) }

    constructor ()
      ensures Contents() == Db(map[], map[], map[])
    {
      instances, programs, versions := map[], map[], map[];
    }

    method ValidateAmendment(kind: Kind, r: Hash) returns (v: Verdict)
      ensures v == AmendmentVerdict(Contents(), kind, r)
    {
      var original := if kind.Instance? then (if r in instances then Some(instances[r]) else None)
                      else (if r in programs then Some(programs[r]) else None);
      if original.None? { return VmNotFound; }
      if original.value.amends.Some? { return AmendsAnAmendment; }
      match AmendAllowed(Contents(), r) {
        case Some(false) => return AmendmentsForbidden;
        case None => return StatusUnknown;
        case Some(true) => return Allowed;
      }
    }

    method Handle(h: Hash, m: VmMessage, otherwiseValid: bool) returns (processed: bool)
      modifies this
      ensures Contents() == Accepted(old(Contents()), h, m, otherwiseValid)
      ensures processed <==> otherwiseValid && (m.amends.Some? ==>
        AmendmentVerdict(old(Contents()), m.kind, m.amends.value).Allowed?)
    {
      if !otherwiseValid { return false; }
      if m.amends.Some? {
        var verdict := ValidateAmendment(m.kind, m.amends.value);
        if !verdict.Allowed? { return false; }
      }
      match m.kind {
        case Instance => instances := Inserted(instances, h, m);
        case Program => programs := Inserted(programs, h, m);
      }
      versions := Upserted(versions, if m.amends.Some? then m.amends.value else h, h, m.time);
      processed := true;
    }

    method Forget(h: Hash, kind: Kind)
      modifies this
      ensures Contents() == Forgotten(old(Contents()), h, kind)
    {
      instances := WithoutAmendments(instances, h);
      programs := WithoutAmendments(programs, h);
      match kind {
        case Instance => instances := instances - {h};
        case Program => programs := programs - {h};
      }
      versions := versions - {h};
    }
  }

  // ---- What every step keeps ----

  /** Hashes identify messages: `book` says which message a hash stands for. */
  type Book = Hash -> VmMessage

  function RowFor(m: VmMessage): Vm { Vm(m.allowAmend, m.amends, m.time) }

  predicate Stored(db: Db, book: Book, h: Hash) { h in TableOf(db, book(h).kind) }

  predicate InFamily(book: Book, x: Hash, r: Hash) { x == r || book(x).amends == Some(r) }

  /** Stored rows are the messages', in the table of their kind. */
  ghost predicate RowsMatch(db: Db, book: Book) {
    && (forall h :: h in db.instances ==> book(h).kind == Instance && db.instances[h] == RowFor(book(h)))
    && (forall h :: h in db.programs ==> book(h).kind == Program && db.programs[h] == RowFor(book(h)))
  }

  /** Every stored amendment's target is stored, of the same kind, and no amendment itself. */
  ghost predicate TargetsAreOriginals(db: Db, book: Book) {
    forall h :: Stored(db, book, h) && book(h).amends.Some? ==>
      var r := book(h).amends.value;
      Stored(db, book, r) && book(r).kind == book(h).kind && book(r).amends == None
  }

  /** Version rows belong to exactly the stored originals. */
  ghost predicate VersionsOfOriginals(db: Db, book: Book) {
    forall r :: r in db.versions <==> Stored(db, book, r) && book(r).amends == None
  }

  /** The version row names a member of the family, as old as it says, and no stored member is newer. */
  ghost predicate VersionIsLatest(db: Db, book: Book, r: Hash)
    requires r in db.versions
  {
    && db.versions[r].current.Some?
    && var c := db.versions[r].current.value;
    && InFamily(book, c, r) && book(c).time == db.versions[r].updated
    && (c == r ==> Stored(db, book, c))
    && forall x :: Stored(db, book, x) && InFamily(book, x, r) ==> book(x).time <= db.versions[r].updated
  }

  ghost predicate Inv(db: Db, book: Book) {
    && RowsMatch(db, book)
    && TargetsAreOriginals(db, book)
    && VersionsOfOriginals(db, book)
    && forall r :: r in db.versions ==> VersionIsLatest(db, book, r)
  }

  // ---- Accepting ----

  /** What acceptance needs beyond the invariant: an amendment's verdict was favourable. */
  ghost predicate MayEnter(db: Db, m: VmMessage) {
    m.amends.Some? ==> AmendmentVerdict(db, m.kind, m.amends.value).Allowed?
  }

  lemma AcceptKeepsRows(db: Db, book: Book, h: Hash)
    requires RowsMatch(db, book) && MayEnter(db, book(h))
    ensures RowsMatch(Accepted(db, h, book(h), true), book)
    ensures forall x :: Stored(Accepted(db, h, book(h), true), book, x) <==> Stored(db, book, x) || x == h
  {
  }

  /** The verdict admits only amendments of stored originals of the same kind. */
  lemma VerdictChecksTarget(db: Db, book: Book, m: VmMessage)
    requires RowsMatch(db, book) && MayEnter(db, m) && m.amends.Some?
    ensures var r := m.amends.value; Stored(db, book, r) && book(r).kind == m.kind && book(r).amends == None
  {
    assert TableOf(db, m.kind)[m.amends.value] == RowFor(book(m.amends.value));
  }

  lemma AcceptKeepsTargets(db: Db, book: Book, h: Hash)
    requires Inv(db, book) && MayEnter(db, book(h))
    ensures TargetsAreOriginals(Accepted(db, h, book(h), true), book)
    ensures VersionsOfOriginals(Accepted(db, h, book(h), true), book)
  {
    AcceptKeepsRows(db, book, h);
    if book(h).amends.Some? { VerdictChecksTarget(db, book, book(h)); }
  }

  /** A stored member's original has a version row. */
  lemma FamilyHasVersion(db: Db, book: Book, x: Hash, r: Hash)
    requires Inv(db, book) && Stored(db, book, x) && InFamily(book, x, r) && book(r).amends == None
    ensures r in db.versions
  {
  }

  lemma AcceptKeepsVersion(db: Db, book: Book, h: Hash, r: Hash)
    requires Inv(db, book) && MayEnter(db, book(h))
    requires r in Accepted(db, h, book(h), true).versions
    ensures VersionIsLatest(Accepted(db, h, book(h), true), book, r)
  {
    var u := Accepted(db, h, book(h), true);
    AcceptKeepsRows(db, book, h);
    AcceptKeepsTargets(db, book, h);
    if InFamily(book, h, r) && (r !in db.versions || db.versions[r].updated < book(h).time) {
      NewVersion(db, book, h, r);
    } else {
      OldVersion(db, book, h, r);
    }
  }

  /** The accepted message becomes the current version: it is newer than what was there. */
  lemma NewVersion(db: Db, book: Book, h: Hash, r: Hash)
    requires Inv(db, book) && MayEnter(db, book(h)) && InFamily(book, h, r)
    requires r in Accepted(db, h, book(h), true).versions && book(r).amends == None
    requires r !in db.versions || db.versions[r].updated < book(h).time
    ensures VersionIsLatest(Accepted(db, h, book(h), true), book, r)
  {
    var u := Accepted(db, h, book(h), true);
    AcceptKeepsRows(db, book, h);
    assert u.versions[r] == Version(Some(h), book(h).time);
    if r in db.versions { assert VersionIsLatest(db, book, r); }
    forall x | Stored(u, book, x) && InFamily(book, x, r) ensures book(x).time <= u.versions[r].updated {
      if x != h { FamilyHasVersion(db, book, x, r); }
    }
  }

  /** The accepted message is of another family, or not newer: the row stays and stays right. */
  lemma OldVersion(db: Db, book: Book, h: Hash, r: Hash)
    requires Inv(db, book) && MayEnter(db, book(h)) && r in Accepted(db, h, book(h), true).versions
    requires InFamily(book, h, r) ==> r in db.versions && book(h).time <= db.versions[r].updated
    ensures VersionIsLatest(Accepted(db, h, book(h), true), book, r)
  {
    AcceptKeepsRows(db, book, h);
    assert r in db.versions && Accepted(db, h, book(h), true).versions[r] == db.versions[r];
    assert VersionIsLatest(db, book, r);
  }

  lemma AcceptKeepsInv(db: Db, book: Book, h: Hash, otherwiseValid: bool)
    requires Inv(db, book)
    ensures Inv(Accepted(db, h, book(h), otherwiseValid), book)
  {
    if otherwiseValid && MayEnter(db, book(h)) {
      var u := Accepted(db, h, book(h), true);
      AcceptKeepsRows(db, book, h);
      AcceptKeepsTargets(db, book, h);
      forall r | r in u.versions ensures VersionIsLatest(u, book, r) { AcceptKeepsVersion(db, book, h, r); }
    }
  }

  // ---- Forgetting ----

  /** A table after forgetting `h`: its amendments are gone, and so is its `own` row if this is its table. */
  ghost predicate TableForgot(t: map<Hash, Vm>, u: map<Hash, Vm>, h: Hash, own: bool) {
    && (forall x :: x in u <==> x in t && t[x].amends != Some(h) && !(x == h && own))
    && (forall x :: x in u ==> u[x] == t[x])
  }

  lemma ForgetTables(db: Db, h: Hash, kind: Kind)
    ensures TableForgot(db.instances, Forgotten(db, h, kind).instances, h, kind.Instance?)
    ensures TableForgot(db.programs, Forgotten(db, h, kind).programs, h, kind.Program?)
  {
  }

  /** Forgetting a VM message takes its own row and those of its amendments, and nothing else. */
  lemma ForgetStored(db: Db, book: Book, h: Hash)
    requires Inv(db, book)
    ensures RowsMatch(Forgotten(db, h, book(h).kind), book)
    ensures forall x ::
      Stored(Forgotten(db, h, book(h).kind), book, x) <==> Stored(db, book, x) && x != h && book(x).amends != Some(h)
  {
    ForgetTables(db, h, book(h).kind);
    ForgetRows(db, Forgotten(db, h, book(h).kind), book, h);
  }

  lemma ForgetRows(db: Db, u: Db, book: Book, h: Hash)
    requires RowsMatch(db, book)
    requires TableForgot(db.instances, u.instances, h, book(h).kind.Instance?)
    requires TableForgot(db.programs, u.programs, h, book(h).kind.Program?)
    ensures RowsMatch(u, book)
    ensures forall x :: Stored(u, book, x) <==> Stored(db, book, x) && x != h && book(x).amends != Some(h)
  {
  }

  /** Forgetting an original takes its amendments and its version row along; forgetting an amendment leaves the row. */
  lemma ForgetKeepsInv(db: Db, book: Book, h: Hash)
    requires Inv(db, book)
    ensures Inv(Forgotten(db, h, book(h).kind), book)
  {
    ForgetStored(db, book, h);
    ForgetKeepsForm(db, Forgotten(db, h, book(h).kind), book, h);
  }

  /** All that the invariant needs to know about a forget. */
  lemma ForgetKeepsForm(db: Db, u: Db, book: Book, h: Hash)
    requires Inv(db, book) && RowsMatch(u, book) && u.versions == db.versions - {h}
    requires forall x :: Stored(u, book, x) <==> Stored(db, book, x) && x != h && book(x).amends != Some(h)
    ensures Inv(u, book)
  {
    forall r ensures r in u.versions <==> Stored(u, book, r) && book(r).amends == None { }
    forall r | r in u.versions ensures VersionIsLatest(u, book, r) {
      assert VersionIsLatest(db, book, r);
    }
  }

  // ---- Runs ----

  datatype Op = Accept(hash: Hash, otherwiseValid: bool) | Forget(hash: Hash)

  function Step(db: Db, book: Book, op: Op): Db {
    match op
    case Accept(h, valid) => Accepted(db, h, book(h), valid)
    case Forget(h) => Forgotten(db, h, book(h).kind)
  }

  function Run(db: Db, book: Book, ops: seq<Op>): Db {
    if ops == [] then db else Step(Run(db, book, ops[..|ops| - 1]), book, ops[|ops| - 1])
  }

  const EMPTY_DB: Db := Db(map[], map[], map[])

  /**
   * After any accepts and forgets: every stored amendment's target is a stored original of the same
   * kind, originals are exactly the VMs with a version row, and no stored version is newer than the
   * one its row names.
   */
  lemma {:induction false} RunKeepsInv(db: Db, book: Book, ops: seq<Op>)
    requires Inv(db, book)
    ensures Inv(Run(db, book, ops), book)
  {
    if ops != [] {
      RunKeepsInv(db, book, ops[..|ops| - 1]);
      match ops[|ops| - 1]
      case Accept(h, valid) => AcceptKeepsInv(Run(db, book, ops[..|ops| - 1]), book, h, valid);
      case Forget(h) => ForgetKeepsInv(Run(db, book, ops[..|ops| - 1]), book, h);
    }
  }

  lemma EmptyInv(book: Book)
    ensures Inv(EMPTY_DB, book)
  {
  }

  /** `c` is a stored member of the family of `r`, and no stored member is newer. */
  ghost predicate IsNewestMember(db: Db, book: Book, r: Hash, c: Hash) {
    && Stored(db, book, c) && InFamily(book, c, r)
    && forall x :: Stored(db, book, x) && InFamily(book, x, r) ==> book(x).time <= book(c).time
  }

  /** The row's current version is the newest stored member exactly when that version is still stored. */
  lemma CurrentIsNewestIff(db: Db, book: Book, r: Hash)
    requires Inv(db, book) && r in db.versions
    ensures db.versions[r].current.Some?
    ensures var c := db.versions[r].current.value; IsNewestMember(db, book, r, c) <==> Stored(db, book, c)
  {
    assert VersionIsLatest(db, book, r);
  }

  /** Every VM's current version is still stored. */
  ghost predicate AllCurrentStored(db: Db, book: Book) {
    forall r :: r in db.versions ==> db.versions[r].current.Some? && Stored(db, book, db.versions[r].current.value)
  }

  /** Every VM's current version is its newest stored member. */
  ghost predicate AllCurrentNewest(db: Db, book: Book) {
    forall r :: r in db.versions ==>
      db.versions[r].current.Some? && IsNewestMember(db, book, r, db.versions[r].current.value)
  }

  /** `h` is the current version of some VM other than itself: it is an amendment that won. */
  ghost predicate IsCurrentAmendment(db: Db, h: Hash) {
    exists r :: r in db.versions && r != h && db.versions[r].current == Some(h)
  }

  /** Given the invariant, stored and newest are the same thing for current versions. */
  lemma StoredIsNewest(db: Db, book: Book)
    requires Inv(db, book)
    ensures AllCurrentStored(db, book) <==> AllCurrentNewest(db, book)
  {
    forall r | r in db.versions ensures db.versions[r].current.Some?
      ensures IsNewestMember(db, book, r, db.versions[r].current.value)
        <==> Stored(db, book, db.versions[r].current.value)
    {
      CurrentIsNewestIff(db, book, r);
    }
  }

  /**
   * Forgetting `h` leaves the current version of every VM its newest member exactly when `h` is not
   * the current amendment of one.
   */
  lemma ForgetKeepsNewestIff(db: Db, book: Book, h: Hash)
    requires Inv(db, book) && AllCurrentNewest(db, book)
    ensures AllCurrentNewest(Forgotten(db, h, book(h).kind), book) <==> !IsCurrentAmendment(db, h)
  {
    var u := Forgotten(db, h, book(h).kind);
    StoredIsNewest(db, book);
    ForgetKeepsInv(db, book, h);
    StoredIsNewest(u, book);
    forall r | r in db.versions && r != h ensures KeepsCurrent(db, u, book, h, r) {
      ForgetOneVersion(db, book, h, r);
    }
    CurrentsLeft(db, u, book, h);
  }

  ghost predicate KeepsCurrent(db: Db, u: Db, book: Book, h: Hash, r: Hash) {
    && r in db.versions && r in u.versions && u.versions[r] == db.versions[r] && db.versions[r].current.Some?
    && (Stored(u, book, db.versions[r].current.value) <==> db.versions[r].current.value != h)
  }

  lemma CurrentsLeft(db: Db, u: Db, book: Book, h: Hash)
    requires u.versions.Keys == db.versions.Keys - {h}
    requires forall r :: r in db.versions && r != h ==> KeepsCurrent(db, u, book, h, r)
    ensures AllCurrentStored(u, book) <==> !IsCurrentAmendment(db, h)
  {
    forall r | r in u.versions ensures KeepsCurrent(db, u, book, h, r) { }
    if IsCurrentAmendment(db, h) {
      var r :| r in db.versions && r != h && db.versions[r].current == Some(h);
      assert KeepsCurrent(db, u, book, h, r);
    }
  }

  /** A VM other than the forgotten one keeps its row, and its current version unless that is what was forgotten. */
  lemma ForgetOneVersion(db: Db, book: Book, h: Hash, r: Hash)
    requires Inv(db, book) && r in db.versions && r != h
    requires db.versions[r].current.Some? && Stored(db, book, db.versions[r].current.value)
    ensures KeepsCurrent(db, Forgotten(db, h, book(h).kind), book, h, r)
  {
    assert VersionIsLatest(db, book, r);
    ForgetStored(db, book, h);
  }

  /** Accepting, whatever the verdict, keeps every current version the newest member. */
  lemma AcceptKeepsNewest(db: Db, book: Book, h: Hash, valid: bool)
    requires Inv(db, book) && AllCurrentNewest(db, book)
    ensures AllCurrentNewest(Accepted(db, h, book(h), valid), book)
  {
    var u := Accepted(db, h, book(h), valid);
    StoredIsNewest(db, book);
    AcceptKeepsInv(db, book, h, valid);
    forall r | r in u.versions ensures u.versions[r].current.Some? && Stored(u, book, u.versions[r].current.value) {
      AcceptStores(db, book, h, valid, r);
    }
    StoredIsNewest(u, book);
  }

  /** No step of the run forgets an amendment that is current at that moment. */
  ghost predicate SparesCurrent(db: Db, book: Book, ops: seq<Op>) {
    forall i :: 0 <= i < |ops| && ops[i].Forget? ==> !IsCurrentAmendment(Run(db, book, ops[..i]), ops[i].hash)
  }

  /** Over whole runs the current versions stay the newest members, through every forget of anything else. */
  lemma {:induction false} RunKeepsNewest(db: Db, book: Book, ops: seq<Op>)
    requires Inv(db, book) && AllCurrentNewest(db, book) && SparesCurrent(db, book, ops)
    ensures AllCurrentNewest(Run(db, book, ops), book)
  {
    if ops != [] {
      var init, op := ops[..|ops| - 1], ops[|ops| - 1];
      forall i | 0 <= i < |init| && init[i].Forget?
        ensures !IsCurrentAmendment(Run(db, book, init[..i]), init[i].hash)
      {
        assert init[..i] == ops[..i] && init[i] == ops[i];
      }
      RunKeepsNewest(db, book, init);
      RunKeepsInv(db, book, init);
      match op
      case Accept(h, valid) => AcceptKeepsNewest(Run(db, book, init), book, h, valid);
      case Forget(h) => ForgetKeepsNewestIff(Run(db, book, init), book, h);
    }
  }

  /** While nothing is forgotten, the current version of every VM is its newest member. */
  lemma {:induction false} CurrentIsNewestWithoutForgets(book: Book, ops: seq<Op>, r: Hash)
    requires forall i :: 0 <= i < |ops| ==> ops[i].Accept?
    requires r in Run(EMPTY_DB, book, ops).versions
    ensures var db := Run(EMPTY_DB, book, ops);
            db.versions[r].current.Some? && IsNewestMember(db, book, r, db.versions[r].current.value)
  {
    var init, op := ops[..|ops| - 1], ops[|ops| - 1];
    var before, db := Run(EMPTY_DB, book, init), Run(EMPTY_DB, book, ops);
    EmptyInv(book);
    RunKeepsInv(EMPTY_DB, book, init);
    RunKeepsInv(EMPTY_DB, book, ops);
    if r in before.versions { CurrentIsNewestWithoutForgets(book, init, r); }
    AcceptStores(before, book, op.hash, op.otherwiseValid, r);
    CurrentIsNewestIff(db, book, r);
  }

  /** Accepting keeps what is stored, and a version row that changes names the accepted, now stored, message. */
  lemma AcceptStores(db: Db, book: Book, h: Hash, valid: bool, r: Hash)
    requires Inv(db, book)
    ensures var u := Accepted(db, h, book(h), valid);
            && (forall x :: Stored(db, book, x) ==> Stored(u, book, x))
            && (r in u.versions && (r !in db.versions || u.versions[r] != db.versions[r]) ==>
                  u.versions[r].current == Some(h) && Stored(u, book, h))
  {
  }

  // ---- What the verdicts mean ----

  /** The VM's current version is stored, and its message allows amendments. */
  ghost predicate Amendable(db: Db, book: Book, r: Hash) {
    && r in db.versions && db.versions[r].current.Some?
    && Stored(db, book, db.versions[r].current.value) && book(db.versions[r].current.value).allowAmend
  }

  /** The flag that counts is the one in the current version's own message, while that version is stored. */
  lemma AmendAllowedIff(db: Db, book: Book, r: Hash)
    requires Inv(db, book) && r in db.versions
    ensures db.versions[r].current.Some?
    ensures AmendAllowed(db, r) == Some(true) <==> Amendable(db, book, r)
    ensures AmendAllowed(db, r) == None <==> !Stored(db, book, db.versions[r].current.value)
  {
    assert VersionIsLatest(db, book, r);
  }

  /** `r` is stored as a VM of this kind, and is no amendment. */
  predicate IsOriginal(db: Db, book: Book, kind: Kind, r: Hash) {
    Stored(db, book, r) && book(r).kind == kind && book(r).amends == None
  }

  /** Each verdict told from the messages, without the rows. */
  lemma VerdictIff(db: Db, book: Book, kind: Kind, r: Hash)
    requires Inv(db, book)
    ensures var v := AmendmentVerdict(db, kind, r);
      && (v == VmNotFound <==> !(Stored(db, book, r) && book(r).kind == kind))
      && (v == AmendsAnAmendment <==> Stored(db, book, r) && book(r).kind == kind && book(r).amends.Some?)
      && (v == Allowed <==> IsOriginal(db, book, kind, r) && Amendable(db, book, r))
      && (v == AmendmentsForbidden <==>
            IsOriginal(db, book, kind, r) && !Amendable(db, book, r) && Stored(db, book, db.versions[r].current.value))
  {
    if r in TableOf(db, kind) { assert TableOf(db, kind)[r] == RowFor(book(r)); }
    if IsOriginal(db, book, kind, r) { AmendAllowedIff(db, book, r); }
  }

  /** The VM that a message concerns: its own, or the one that it amends. */
  function Target(book: Book, h: Hash): Hash {
    if book(h).amends.Some? then book(h).amends.value else h
  }

  /** Valid, and as an amendment changing an amendable original of its kind. */
  ghost predicate Enters(db: Db, book: Book, h: Hash, valid: bool) {
    valid && (book(h).amends.Some? ==>
      IsOriginal(db, book, book(h).kind, Target(book, h)) && Amendable(db, book, Target(book, h)))
  }

  /**
   * What becomes of any message: entering stores it, and makes it current for its VM exactly if the VM is
   * new or its current version is strictly older. Nothing else moves, and without entering nothing does.
   */
  lemma AcceptMeans(db: Db, book: Book, h: Hash, valid: bool)
    requires Inv(db, book)
    ensures var u, m, vm := Accepted(db, h, book(h), valid), book(h), Target(book, h);
      if Enters(db, book, h, valid) then
        && (forall x :: Stored(u, book, x) <==> Stored(db, book, x) || x == h)
        && u.versions.Keys == db.versions.Keys + {vm}
        && (forall r :: r in db.versions && r != vm ==> u.versions[r] == db.versions[r])
        && u.versions[vm] == (if vm in db.versions && book(db.versions[vm].current.value).time >= m.time
                              then db.versions[vm] else Version(Some(h), m.time))
      else u == db
  {
    var vm := Target(book, h);
    EntersIff(db, book, h, valid);
    if Enters(db, book, h, valid) {
      AcceptKeepsRows(db, book, h);
      if vm in db.versions { CurrentTime(db, book, vm); }
    }
  }

  lemma EntersIff(db: Db, book: Book, h: Hash, valid: bool)
    requires Inv(db, book)
    ensures Enters(db, book, h, valid) <==> valid && MayEnter(db, book(h))
  {
    if book(h).amends.Some? { VerdictIff(db, book, book(h).kind, Target(book, h)); }
  }

  lemma CurrentTime(db: Db, book: Book, r: Hash)
    requires Inv(db, book) && r in db.versions
    ensures db.versions[r].current.Some? && book(db.versions[r].current.value).time == db.versions[r].updated
  {
    assert VersionIsLatest(db, book, r);
  }

  // ---- Frozen VMs ----

  /** No amendment of `r` can be accepted: the current version forbids it, or was forgotten. */
  ghost predicate Frozen(db: Db, r: Hash) {
    r in db.versions && AmendAllowed(db, r) != Some(true)
  }

  lemma FrozenIff(db: Db, book: Book, r: Hash)
    requires Inv(db, book) && r in db.versions
    ensures Frozen(db, r) <==> !Amendable(db, book, r)
  {
    AmendAllowedIff(db, book, r);
  }

  lemma FrozenRefuses(db: Db, book: Book, m: VmMessage, r: Hash)
    requires Frozen(db, r) && MayEnter(db, m)
    ensures m.amends != Some(r)
  {
  }

  lemma FrozenAccept(db: Db, book: Book, h: Hash, r: Hash)
    requires Inv(db, book) && Frozen(db, r) && MayEnter(db, book(h))
    ensures book(h).amends != Some(r)
    ensures var u := Accepted(db, h, book(h), true); Frozen(u, r) && u.versions[r] == db.versions[r]
  {
    assert VersionIsLatest(db, book, r);
    FrozenRefuses(db, book, book(h), r);
    FrozenRow(db, book, h, r);
    AcceptKeepsRows(db, book, h);
    var c := db.versions[r].current.value;
    assert h == c ==> Stored(db, book, c);
  }

  lemma FrozenRow(db: Db, book: Book, h: Hash, r: Hash)
    requires Inv(db, book) && r in db.versions && book(h).amends != Some(r)
    ensures Accepted(db, h, book(h), true).versions[r] == db.versions[r]
  {
    assert VersionIsLatest(db, book, r);
  }

  lemma FrozenForget(db: Db, book: Book, h: Hash, r: Hash)
    requires Inv(db, book) && Frozen(db, r) && h != r
    ensures var u := Forgotten(db, h, book(h).kind); Frozen(u, r) && u.versions[r] == db.versions[r]
  {
    assert VersionIsLatest(db, book, r);
    ForgetStored(db, book, h);
  }

  /**
   * One step other than forgetting `r` itself leaves a frozen VM frozen, with the same current version
   * and no new member.
   */
  lemma FrozenStep(db: Db, book: Book, op: Op, r: Hash)
    requires Inv(db, book) && Frozen(db, r) && op != Forget(r)
    ensures Frozen(Step(db, book, op), r) && Step(db, book, op).versions[r] == db.versions[r]
    ensures forall x :: Stored(Step(db, book, op), book, x) && InFamily(book, x, r) ==> Stored(db, book, x)
  {
    match op
    case Accept(h, valid) =>
      if valid && MayEnter(db, book(h)) {
        FrozenAccept(db, book, h, r);
        AcceptKeepsRows(db, book, h);
      }
    case Forget(h) =>
      FrozenForget(db, book, h, r);
      ForgetStored(db, book, h);
  }

  /**
   * Once the current version's message disallows amendments, or is forgotten, the VM keeps its current
   * version and gains no member until it is forgotten itself.
   */
  lemma {:induction false} FrozenForever(db: Db, book: Book, ops: seq<Op>, r: Hash)
    requires Inv(db, book) && r in db.versions && !Amendable(db, book, r)
    requires forall i :: 0 <= i < |ops| ==> ops[i] != Forget(r)
    ensures var u := Run(db, book, ops);
            && r in u.versions && u.versions[r] == db.versions[r] && !Amendable(u, book, r)
            && forall x :: Stored(u, book, x) && InFamily(book, x, r) ==> Stored(db, book, x)
  {
    if ops != [] {
      var before := Run(db, book, ops[..|ops| - 1]);
      FrozenForever(db, book, ops[..|ops| - 1], r);
      RunKeepsInv(db, book, ops);
      RunKeepsInv(db, book, ops[..|ops| - 1]);
      FrozenIff(before, book, r);
      FrozenStep(before, book, ops[|ops| - 1], r);
      FrozenIff(Run(db, book, ops), book, r);
    }
  }

  /** Forgetting the amendment that is current freezes the VM, whatever older versions would have allowed. */
  lemma ForgettingCurrentFreezes(db: Db, book: Book, r: Hash)
    requires Inv(db, book) && r in db.versions && db.versions[r].current.value != r
    ensures var c := db.versions[r].current.value;
            && Frozen(Forgotten(db, c, book(c).kind), r) && AmendAllowed(Forgotten(db, c, book(c).kind), r) == None
            && !Amendable(Forgotten(db, c, book(c).kind), book, r)
  {
    assert VersionIsLatest(db, book, r);
    var c := db.versions[r].current.value;
    ForgetStored(db, book, c);
    assert book(c).amends == Some(r);
  }
}
