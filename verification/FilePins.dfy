/**
 * Files and their pins: storing pins a file, forgetting the last STORE message leaves a pin with a
 * day of grace, and the sweep deletes files whose grace ran out.
 */
module FilePins {
  import opened Wrappers

  type Hash = string

  const GRACE_PERIOD: int := 24 * 60 * 60
  const SWEEP_LIMIT: nat := 100
  const ANONYMOUS: string := "anonymous"

  datatype PinType = Message | Tx | Content | GracePeriod

  datatype Pin = Pin(pinType: PinType, deleteBy: Option<int>, message: Option<Hash>)

  /** The primary key of `file_pins`: one pin per file and owner, whatever its type. */
  datatype PinKey = PinKey(file: Hash, owner: string)

  datatype Db = Db(files: set<Hash>, pins: map<PinKey, Pin>)

  predicate IsActive(db: Db, k: PinKey) { k in db.pins && !db.pins[k].pinType.GracePeriod? }

  predicate IsGrace(db: Db, k: PinKey) { k in db.pins && db.pins[k].pinType.GracePeriod? }

  function ActivePins(db: Db, f: Hash): set<PinKey> {
    set k | k in db.pins && k.file == f && IsActive(db, k)
  }

  // ---- Storing ----

  /**
   * The typed upsert replaces a pin of its own type; any other pin of the same file and owner violates
   * the primary key.
   */
  predicate StoreClashes(db: Db, f: Hash, owner: string) {
    PinKey(f, owner) in db.pins && !db.pins[PinKey(f, owner)].pinType.Message?
  }

  /** The files row is written first and stays even when the pin is refused. */
  function Stored(db: Db, h: Hash, f: Hash, owner: string): Db {
    Db(db.files + {f},
       if StoreClashes(db, f, owner) then db.pins else db.pins[PinKey(f, owner) := Pin(Message, None, Some(h))])
  }

  // ---- Forgetting ----

  function Unpinned(db: Db, h: Hash): Db {
    db.(pins := map k | k in db.pins && db.pins[k].message != Some(h) :: db.pins[k])
  }

  /**
   * `parsed` is the file named by the message's content, when that can still be read; else the message's
   * own hash stands in.
   */
  function Forgotten(db: Db, h: Hash, address: string, parsed: Option<Hash>, now: int): Db {
    var f := if parsed.Some? then parsed.value else h;
    var u := Unpinned(db, h);
    if ActivePins(u, f) != {} then u
    else u.(pins := u.pins[PinKey(f, address) := Graced(u, PinKey(f, address), now + GRACE_PERIOD)])
  }

  /** The grace pin written on key `k`: a new one, or the old one with its deadline moved. */
  function Graced(db: Db, k: PinKey, deleteBy: int): Pin {
    if k in db.pins then db.pins[k].(deleteBy := Some(deleteBy)) else Pin(GracePeriod, Some(deleteBy), None)
  }

  /**
   * Forgetting a hash that is not a STORE message's, a file hash for one: every pin on it goes, of
   * whatever type and owner.
   */
  function WithoutPins(db: Db, f: Hash): Db {
    db.(pins := map k | k in db.pins && k.file != f :: db.pins[k])
  }

  // ---- Uploading ----

  /** Content uploaded through the API: a pin of nobody's, and no files row. */
  function Uploaded(db: Db, f: Hash): Db {
    if PinKey(f, ANONYMOUS) in db.pins then db
    else db.(pins := db.pins[PinKey(f, ANONYMOUS) := Pin(Message, None, None)])
  }

  // ---- Sweeping ----

  predicate Expired(db: Db, k: PinKey, now: int) {
    IsGrace(db, k) && db.pins[k].deleteBy.Some? && db.pins[k].deleteBy.value < now
  }

  function ExpiredPins(db: Db, now: int): set<PinKey> {
    set k | k in db.pins && Expired(db, k, now)
  }

  /** Up to a hundred expired pins, in no particular order. */
  ghost predicate Selection(db: Db, now: int, selected: seq<PinKey>) {
    && (forall i :: 0 <= i < |selected| ==> selected[i] in ExpiredPins(db, now))
    && (forall i, j :: 0 <= i < j < |selected| ==> selected[i] != selected[j])
    && |selected| == if |ExpiredPins(db, now)| <= SWEEP_LIMIT then |ExpiredPins(db, now)| else SWEEP_LIMIT
  }

  function SweptOne(db: Db, k: PinKey): Db {
    if ActivePins(db, k.file) != {} then
      db.(pins := if IsGrace(db, k) then db.pins - {k} else db.pins)
    else
      Db(db.files - {k.file}, map j | j in db.pins && j.file != k.file :: db.pins[j])
  }

  function Swept(db: Db, selected: seq<PinKey>): Db {
    if selected == [] then db else SweptOne(Swept(db, selected[..|selected| - 1]), selected[|selected| - 1])
  }

  /** The number a sweep reports: the selected pins it found without an active pin beside them. */
  function Cleaned(db: Db, selected: seq<PinKey>): nat {
    if selected == [] then 0
    else
      var init, k := selected[..|selected| - 1], selected[|selected| - 1];
      Cleaned(db, init) + (if ActivePins(Swept(db, init), k.file) == {} then 1 else 0)
  }

  lemma SweptNext(db: Db, selected: seq<PinKey>, i: nat)
    requires i < |selected|
    ensures Swept(db, selected[..i + 1]) == SweptOne(Swept(db, selected[..i]), selected[i])
    ensures Cleaned(db, selected[..i + 1])
         == Cleaned(db, selected[..i]) + (if ActivePins(Swept(db, selected[..i]), selected[i].file) == {} then 1 else 0)
  {
    assert selected[..i + 1][..i] == selected[..i];
  }

  class FileStore {
    var files: set<Hash>
    var pins: map<PinKey, Pin>

    function Contents(): Db reads this { Db(files, pins) }

    constructor ()
      ensures Contents() == Db({}, map[])
    {
      files, pins := {}, map[];
    }

    method ProcessStore(h: Hash, f: Hash, owner: string) returns (ok: bool)
      modifies this
      ensures Contents() == Stored(old(Contents()), h, f, owner)
      ensures ok <==> !StoreClashes(old(Contents()), f, owner)
    {
      ok := !StoreClashes(Contents(), f, owner);
      files := files + {f};
      if ok {
        pins := pins[PinKey(f, owner) := Pin(Message, None, Some(h))];
      }
    }

    method ProcessStoreForget(h: Hash, address: string, parsed: Option<Hash>, now: int)
      modifies this
      ensures Contents() == Forgotten(old(Contents()), h, address, parsed, now)
    {
      var f := if parsed.Some? then parsed.value else h;
      pins := map k | k in pins && pins[k].message != Some(h) :: pins[k];
      if |ActivePins(Contents(), f)| == 0 {
        pins := pins[PinKey(f, address) := Graced(Contents(), PinKey(f, address), now + GRACE_PERIOD)];
      }
    }

    method RemoveFilePin(f: Hash)
      modifies `pins
      ensures Contents() == WithoutPins(old(Contents()), f)
    {
      pins := map k | k in pins && k.file != f :: pins[k];
    }

    method PinUpload(f: Hash)
      modifies `pins
      ensures Contents() == Uploaded(old(Contents()), f)
    {
      if PinKey(f, ANONYMOUS) !in pins {
        pins := pins[PinKey(f, ANONYMOUS) := Pin(Message, None, None)];
      }
    }

    /** One expired pin: it alone goes if the file has an active pin, otherwise the file goes with all its pins. */
    method CleanOne(k: PinKey) returns (deleted: bool)
      modifies this
      ensures Contents() == SweptOne(old(Contents()), k)
      ensures deleted <==> ActivePins(old(Contents()), k.file) == {}
    {
      deleted := |ActivePins(Contents(), k.file)| == 0;
      if !deleted {
        if IsGrace(Contents(), k) { pins := pins - {k}; }
      } else {
        pins := map j | j in pins && j.file != k.file :: pins[j];
        files := files - {k.file};
      }
    }

    method CleanExpiredGracePins(now: int, selected: seq<PinKey>) returns (cleaned: nat)
      requires Selection(Contents(), now, selected)
      modifies this
      ensures Contents() == Swept(old(Contents()), selected)
      ensures cleaned == Cleaned(old(Contents()), selected)
    {
      cleaned := CleanAll(selected);
    }

    /** One selected pin after the other. */
    method CleanAll(selected: seq<PinKey>) returns (cleaned: nat)
      modifies this
      ensures Contents() == Swept(old(Contents()), selected)
      ensures cleaned == Cleaned(old(Contents()), selected)
    {
      ghost var start := Contents();
      cleaned := 0;
      for i := 0 to |selected|
        invariant Contents() == Swept(start, selected[..i]) && cleaned == Cleaned(start, selected[..i])
      {
        SweptNext(start, selected, i);
        var deleted := CleanOne(selected[i]);
        if deleted { cleaned := cleaned + 1; }
      }
      assert selected[..|selected|] == selected;
    }
  }

  // ---- What the operations leave ----

  /** A message pins its file for good, unless a pin of another type stands in the same place. */
  lemma StoreMeans(db: Db, h: Hash, f: Hash, owner: string)
    ensures var u, k := Stored(db, h, f, owner), PinKey(f, owner);
      && u.files == db.files + {f}
      && (forall j :: j != k ==> (j in u.pins <==> j in db.pins) && (j in u.pins ==> u.pins[j] == db.pins[j]))
      && (if k in db.pins && db.pins[k].pinType != Message then u.pins[k] == db.pins[k]
          else IsActive(u, k) && u.pins[k].message == Some(h) && forall t :: !Expired(u, k, t))
  {
  }

  /** An upload leaves an active pin of nobody's, unless its grace pin stands there. */
  lemma UploadMeans(db: Db, f: Hash)
    ensures var u, k := Uploaded(db, f), PinKey(f, "anonymous");
      && u.files == db.files
      && (forall j :: j != k ==> (j in u.pins <==> j in db.pins) && (j in u.pins ==> u.pins[j] == db.pins[j]))
      && (if k in db.pins then u.pins[k] == db.pins[k] else IsActive(u, k) && u.pins[k].message == None)
  {
  }

  /** Another pin keeps the file: not a grace pin, and not made by the message. */
  ghost predicate KeptByOther(db: Db, f: Hash, h: Hash) {
    exists j :: j in db.pins && j.file == f && db.pins[j].message != Some(h) && db.pins[j].pinType != GracePeriod
  }

  /**
   * Forgetting takes the message's own pins away. If nothing else keeps the file, the address gets a
   * grace pin on it, which runs out after exactly one day; nothing else changes.
   */
  lemma ForgetMeans(db: Db, h: Hash, address: string, parsed: Option<Hash>, now: int)
    ensures var f := if parsed.Some? then parsed.value else h;
      var u, k := Forgotten(db, h, address, parsed, now), PinKey(f, address);
      && u.files == db.files
      && (forall j :: j != k || KeptByOther(db, f, h) ==>
            && (j in u.pins <==> j in db.pins && db.pins[j].message != Some(h))
            && (j in u.pins ==> u.pins[j] == db.pins[j]))
      && (!KeptByOther(db, f, h) ==> IsGrace(u, k) && forall t :: Expired(u, k, t) <==> t > now + 86400)
  {
    var f := if parsed.Some? then parsed.value else h;
    var u, k := Unpinned(db, h), PinKey(f, address);
    if KeptByOther(db, f, h) {
      var j :| j in db.pins && j.file == f && db.pins[j].message != Some(h) && db.pins[j].pinType != GracePeriod;
      assert j in ActivePins(u, f);
    } else {
      assert ActivePins(u, f) == {};
      assert k in u.pins ==> k !in ActivePins(u, f);
    }
  }

  /** What a sweep leaves: every pin but those of the doomed files and the grace pins selected. */
  lemma {:induction false} SweepLeaves(db: Db, selected: seq<PinKey>, j: PinKey)
    ensures j in Swept(db, selected).pins
      <==> j in db.pins && j.file !in Doomed(db, selected) && !(j in selected && IsGrace(db, j))
    ensures j in Swept(db, selected).pins ==> Swept(db, selected).pins[j] == db.pins[j]
  {
    if selected != [] {
      var init, last := selected[..|selected| - 1], selected[|selected| - 1];
      assert selected == init + [last];
      SweepLeaves(db, init, j);
      SweepKeepsActive(db, init, last.file);
      DoomedLast(db, selected);
    }
  }

  // ---- Every file is pinned ----

  /** `fileOf` says which file a STORE message is about. */
  type FileOf = Hash -> Hash

  ghost predicate Pinned(db: Db, f: Hash) { exists k :: k in db.pins && k.file == f }

  /** Pins made by messages are on the messages' files, and grace pins are made by none. */
  ghost predicate PinsMatch(db: Db, fileOf: FileOf) {
    forall k :: k in db.pins && db.pins[k].message.Some? ==>
      !IsGrace(db, k) && k.file == fileOf(db.pins[k].message.value)
  }

  ghost predicate AllPinned(db: Db) { forall f :: f in db.files ==> Pinned(db, f) }

  ghost predicate Inv(db: Db, fileOf: FileOf) { PinsMatch(db, fileOf) && AllPinned(db) }

  /** `f` is a stored file all of whose pins were made by the message `h`. */
  ghost predicate PinnedOnlyBy(db: Db, f: Hash, h: Hash) {
    f in db.files && forall k :: k in db.pins && k.file == f ==> db.pins[k].message == Some(h)
  }

  /**
   * Forgetting keeps every file pinned unless the content can no longer be read and the message was
   * its file's only pin: then the grace pin goes to the message's hash instead of the file.
   */
  lemma ForgetKeepsPinnedIff(db: Db, fileOf: FileOf, h: Hash, address: string, parsed: Option<Hash>, now: int)
    requires Inv(db, fileOf) && (parsed.Some? ==> parsed.value == fileOf(h))
    ensures PinsMatch(Forgotten(db, h, address, parsed, now), fileOf)
    ensures AllPinned(Forgotten(db, h, address, parsed, now))
       <==> parsed.Some? || fileOf(h) == h || !PinnedOnlyBy(db, fileOf(h), h)
  {
    var u := Forgotten(db, h, address, parsed, now);
    if parsed.None? && fileOf(h) != h && PinnedOnlyBy(db, fileOf(h), h) {
      assert !Pinned(u, fileOf(h));
    } else {
      forall f | f in u.files ensures Pinned(u, f) {
        ForgetLeavesPin(db, fileOf, h, address, parsed, now, f);
      }
    }
  }

  lemma ForgetLeavesPin(db: Db, fileOf: FileOf, h: Hash, address: string, parsed: Option<Hash>, now: int, f: Hash)
    requires Inv(db, fileOf) && f in db.files && (parsed.Some? ==> parsed.value == fileOf(h))
    requires f == fileOf(h) ==> parsed.Some? || fileOf(h) == h || !PinnedOnlyBy(db, f, h)
    ensures Pinned(Forgotten(db, h, address, parsed, now), f)
  {
    var u := Forgotten(db, h, address, parsed, now);
    assert Pinned(db, f);
    if f != fileOf(h) {
      var k :| k in db.pins && k.file == f;
      assert k in u.pins;
    } else if parsed.Some? || f == h {
      if ActivePins(Unpinned(db, h), f) != {} {
        var k :| k in ActivePins(Unpinned(db, h), f);
        assert k in u.pins;
      } else {
        assert PinKey(f, address) in u.pins;
      }
    } else {
      var k :| k in db.pins && k.file == f && db.pins[k].message != Some(h);
      assert k in u.pins;
    }
  }

  /** A sweep, whatever it selects, keeps every active pin and every file that has one. */
  lemma {:induction false} SweepSparesActive(db: Db, selected: seq<PinKey>, k: PinKey)
    requires IsActive(db, k)
    ensures IsActive(Swept(db, selected), k) && (k.file in db.files ==> k.file in Swept(db, selected).files)
  {
    if selected != [] {
      SweepSparesActive(db, selected[..|selected| - 1], k);
      assert k in ActivePins(Swept(db, selected[..|selected| - 1]), k.file);
    }
  }

  /** The selected files that have no active pin. */
  function Doomed(db: Db, selected: seq<PinKey>): set<Hash> {
    set i | 0 <= i < |selected| && ActivePins(db, selected[i].file) == {} :: selected[i].file
  }

  lemma {:induction false} SweepKeepsActive(db: Db, selected: seq<PinKey>, f: Hash)
    ensures ActivePins(Swept(db, selected), f) == ActivePins(db, f)
  {
    if selected != [] {
      var before, k := Swept(db, selected[..|selected| - 1]), selected[|selected| - 1];
      SweepKeepsActive(db, selected[..|selected| - 1], f);
      assert ActivePins(SweptOne(before, k), f) == ActivePins(before, f);
    }
  }

  lemma DoomedLast(db: Db, selected: seq<PinKey>)
    requires selected != []
    ensures var k := selected[|selected| - 1];
      Doomed(db, selected)
        == Doomed(db, selected[..|selected| - 1]) + (if ActivePins(db, k.file) == {} then {k.file} else {})
  {
    var init := selected[..|selected| - 1];
    forall f ensures f in Doomed(db, init) ==> f in Doomed(db, selected) {
      if f in Doomed(db, init) {
        var i :| 0 <= i < |init| && ActivePins(db, init[i].file) == {} && init[i].file == f;
        assert selected[i].file == f;
      }
    }
    forall f | f in Doomed(db, selected) ensures f in Doomed(db, init) || f == selected[|selected| - 1].file {
      var i :| 0 <= i < |selected| && ActivePins(db, selected[i].file) == {} && selected[i].file == f;
      if i < |init| { assert init[i].file == f; }
    }
  }

  /** A sweep deletes exactly the selected files without an active pin. */
  lemma {:induction false} SweepDeletesDoomed(db: Db, selected: seq<PinKey>)
    ensures Swept(db, selected).files == db.files - Doomed(db, selected)
  {
    if selected != [] {
      var init := selected[..|selected| - 1];
      SweepDeletesDoomed(db, init);
      SweepKeepsActive(db, init, selected[|selected| - 1].file);
      DoomedLast(db, selected);
    }
  }

  lemma CleanedLast(db: Db, selected: seq<PinKey>)
    requires selected != []
    ensures Cleaned(db, selected)
         == Cleaned(db, selected[..|selected| - 1])
          + (if ActivePins(db, selected[|selected| - 1].file) == {} then 1 else 0)
  {
    SweepKeepsActive(db, selected[..|selected| - 1], selected[|selected| - 1].file);
  }

  /** Each doomed file is counted, and more than once exactly when two of its pins are selected. */
  lemma {:induction false} CleanedCountsDoomed(db: Db, selected: seq<PinKey>)
    ensures Cleaned(db, selected) >= |Doomed(db, selected)|
    ensures Cleaned(db, selected) == |Doomed(db, selected)| <==> DoomedOnce(db, selected)
  {
    if selected != [] {
      var k := selected[|selected| - 1];
      CleanedCountsDoomed(db, selected[..|selected| - 1]);
      CleanedLast(db, selected);
      DoomedLast(db, selected);
      DoomedOnceLast(db, selected);
    }
  }

  /** No doomed file is selected through two of its pins. */
  ghost predicate DoomedOnce(db: Db, selected: seq<PinKey>) {
    forall i, j :: 0 <= i < j < |selected| && selected[i].file == selected[j].file ==>
      ActivePins(db, selected[i].file) != {}
  }

  lemma DoomedOnceLast(db: Db, selected: seq<PinKey>)
    requires selected != []
    ensures var init, k := selected[..|selected| - 1], selected[|selected| - 1];
      DoomedOnce(db, selected) <==>
        DoomedOnce(db, init) && (ActivePins(db, k.file) == {} ==> k.file !in Doomed(db, init))
  {
    var init, k := selected[..|selected| - 1], selected[|selected| - 1];
    forall i | 0 <= i < |init| ensures init[i] == selected[i] { }
    if ActivePins(db, k.file) == {} && k.file in Doomed(db, init) {
      var i :| 0 <= i < |init| && ActivePins(db, init[i].file) == {} && init[i].file == k.file;
      assert selected[i].file == selected[|selected| - 1].file;
    }
  }

  /**
   * The reported number is the number of files deleted exactly when no doomed file was selected twice
   * and none was gone already.
   */
  lemma CleanedCountsFilesIff(db: Db, selected: seq<PinKey>)
    ensures Cleaned(db, selected) >= |db.files| - |Swept(db, selected).files|
    ensures Cleaned(db, selected) == |db.files| - |Swept(db, selected).files|
       <==> DoomedOnce(db, selected) && Doomed(db, selected) <= db.files
  {
    SweepDeletesDoomed(db, selected);
    CleanedCountsDoomed(db, selected);
    Overlap(db.files, Doomed(db, selected));
  }

  lemma Overlap(a: set<Hash>, b: set<Hash>)
    ensures |a| - |a - b| <= |b|
    ensures |a| - |a - b| == |b| <==> b <= a
  {
    assert a == (a - b) + (a * b);
    assert b == (a * b) + (b - a);
    assert |a| == |a - b| + |a * b| && |b| == |a * b| + |b - a|;
    assert b <= a <==> b - a == {};
  }

  // ---- Runs ----

  datatype Op =
    | Store(hash: Hash, owner: string)
    | Forget(hash: Hash, address: string, now: int)
    | Sweep(now: int, selected: seq<PinKey>)
    | Unpin(file: Hash)
    | Upload(file: Hash)

  function Step(db: Db, fileOf: FileOf, op: Op): Db {
    match op
    case Store(h, owner) => Stored(db, h, fileOf(h), owner)
    case Forget(h, address, now) => Forgotten(db, h, address, Some(fileOf(h)), now)
    case Sweep(_, selected) => Swept(db, selected)
    case Unpin(f) => WithoutPins(db, f)
    case Upload(f) => Uploaded(db, f)
  }

  function Run(db: Db, fileOf: FileOf, ops: seq<Op>): Db {
    if ops == [] then db else Step(Run(db, fileOf, ops[..|ops| - 1]), fileOf, ops[|ops| - 1])
  }

  /** The file's own hash was forgotten, and no message about it and no upload of it came since. */
  predicate LetGo(fileOf: FileOf, ops: seq<Op>, f: Hash) {
    if ops == [] then false
    else
      var earlier := LetGo(fileOf, ops[..|ops| - 1], f);
      match ops[|ops| - 1]
      case Store(h, _) => fileOf(h) != f && earlier
      case Forget(h, _, _) => fileOf(h) != f && earlier
      case Sweep(_, _) => earlier
      case Unpin(g) => g == f || earlier
      case Upload(g) => g != f && earlier
  }

  lemma StepKeepsMatch(db: Db, fileOf: FileOf, op: Op)
    requires PinsMatch(db, fileOf)
    ensures PinsMatch(Step(db, fileOf, op), fileOf)
  {
    if op.Sweep? { SweepKeepsMatch(db, fileOf, op.selected); }
  }

  lemma {:induction false} SweepKeepsMatch(db: Db, fileOf: FileOf, selected: seq<PinKey>)
    requires PinsMatch(db, fileOf)
    ensures PinsMatch(Swept(db, selected), fileOf)
  {
    if selected != [] { SweepKeepsMatch(db, fileOf, selected[..|selected| - 1]); }
  }

  lemma {:induction false} RunKeepsMatch(db: Db, fileOf: FileOf, ops: seq<Op>)
    requires PinsMatch(db, fileOf)
    ensures PinsMatch(Run(db, fileOf, ops), fileOf)
  {
    if ops != [] {
      RunKeepsMatch(db, fileOf, ops[..|ops| - 1]);
      StepKeepsMatch(Run(db, fileOf, ops[..|ops| - 1]), fileOf, ops[|ops| - 1]);
    }
  }

  /** A sweep leaves every remaining file as pinned, or as unpinned, as it was. */
  lemma {:induction false} SweepKeepsPinned(db: Db, selected: seq<PinKey>, f: Hash)
    ensures f in Swept(db, selected).files ==> f in db.files && (Pinned(Swept(db, selected), f) <==> Pinned(db, f))
  {
    if selected != [] {
      var before, k := Swept(db, selected[..|selected| - 1]), selected[|selected| - 1];
      SweepKeepsPinned(db, selected[..|selected| - 1], f);
      if f in Swept(db, selected).files { SweepOneKeepsPinned(before, k, f); }
    }
  }

  lemma SweepOneKeepsPinned(db: Db, k: PinKey, f: Hash)
    requires f in SweptOne(db, k).files
    ensures Pinned(SweptOne(db, k), f) <==> Pinned(db, f)
  {
    if f == k.file {
      var j :| j in ActivePins(db, f);
      assert j in SweptOne(db, k).pins;
    } else if j :| j in db.pins && j.file == f {
      assert j in SweptOne(db, k).pins;
    }
  }

  /** A message about `f` leaves it pinned, whichever way; other messages leave it alone. */
  lemma ForgetPins(db: Db, fileOf: FileOf, h: Hash, address: string, now: int, f: Hash)
    requires PinsMatch(db, fileOf)
    ensures var u := Forgotten(db, h, address, Some(fileOf(h)), now);
      Pinned(u, f) <==> fileOf(h) == f || Pinned(db, f)
  {
    var u := Forgotten(db, h, address, Some(fileOf(h)), now);
    if fileOf(h) == f {
      if ActivePins(Unpinned(db, h), f) != {} {
        var k :| k in ActivePins(Unpinned(db, h), f);
        assert k in u.pins;
      } else {
        assert PinKey(f, address) in u.pins;
      }
    } else if k :| k in db.pins && k.file == f {
      assert k in u.pins;
    }
  }

  lemma StorePins(db: Db, h: Hash, file: Hash, owner: string, f: Hash)
    ensures Pinned(Stored(db, h, file, owner), f) <==> file == f || Pinned(db, f)
  {
    var u := Stored(db, h, file, owner);
    assert PinKey(file, owner) in u.pins;
    if k :| k in db.pins && k.file == f { assert k in u.pins; }
  }

  lemma UploadPins(db: Db, g: Hash, f: Hash)
    ensures Pinned(Uploaded(db, g), f) <==> g == f || Pinned(db, f)
  {
    assert PinKey(g, ANONYMOUS) in Uploaded(db, g).pins;
    if k :| k in db.pins && k.file == f { assert k in Uploaded(db, g).pins; }
  }

  lemma UnpinPins(db: Db, g: Hash, f: Hash)
    ensures Pinned(WithoutPins(db, g), f) <==> g != f && Pinned(db, f)
  {
    if k :| k in db.pins && k.file == f && f != g { assert k in WithoutPins(db, g).pins; }
  }

  /** Over any run, a files row has a pin exactly when the file was not let go. */
  lemma {:induction false} FilesPinnedIff(db: Db, fileOf: FileOf, ops: seq<Op>, f: Hash)
    requires Inv(db, fileOf) && f in Run(db, fileOf, ops).files
    ensures Pinned(Run(db, fileOf, ops), f) <==> !LetGo(fileOf, ops, f)
  {
    if ops != [] {
      var init, op := ops[..|ops| - 1], ops[|ops| - 1];
      var before := Run(db, fileOf, init);
      if f in before.files { FilesPinnedIff(db, fileOf, init, f); }
      RunKeepsMatch(db, fileOf, init);
      match op
      case Store(h, owner) => StorePins(before, h, fileOf(h), owner, f);
      case Forget(h, address, now) => ForgetPins(before, fileOf, h, address, now, f);
      case Sweep(_, selected) => SweepKeepsPinned(before, selected, f);
      case Unpin(g) => UnpinPins(before, g, f);
      case Upload(g) => UploadPins(before, g, f);
    }
  }

  /** Nobody forgets the file's own hash. */
  ghost predicate Spares(ops: seq<Op>, f: Hash) {
    forall i :: 0 <= i < |ops| && ops[i].Unpin? ==> ops[i].file != f
  }

  lemma {:induction false} SparedIsNotLetGo(fileOf: FileOf, ops: seq<Op>, f: Hash)
    requires Spares(ops, f)
    ensures !LetGo(fileOf, ops, f)
  {
    if ops != [] { SparedIsNotLetGo(fileOf, ops[..|ops| - 1], f); }
  }

  /** While only messages are forgotten, every files row has a pin, active or in its day of grace. */
  lemma FilesStayPinned(db: Db, fileOf: FileOf, ops: seq<Op>)
    requires Inv(db, fileOf) && forall f :: Spares(ops, f)
    ensures Inv(Run(db, fileOf, ops), fileOf)
  {
    RunKeepsMatch(db, fileOf, ops);
    forall f | f in Run(db, fileOf, ops).files ensures Pinned(Run(db, fileOf, ops), f) {
      SparedIsNotLetGo(fileOf, ops, f);
      FilesPinnedIff(db, fileOf, ops, f);
    }
  }

  // ---- One day of grace ----

  predicate InDay(op: Op, from: int) {
    match op
    case Store(_, _) => true
    case Forget(_, _, now) => from <= now <= from + GRACE_PERIOD
    case Sweep(now, _) => from <= now <= from + GRACE_PERIOD
    case _ => true
  }

  /** All forgets and sweeps happen within a day of `from`, and sweeps select what is expired then. */
  ghost predicate WithinDay(db: Db, fileOf: FileOf, ops: seq<Op>, from: int) {
    forall i :: 0 <= i < |ops| ==>
      InDay(ops[i], from) && (ops[i].Sweep? ==> Selection(Run(db, fileOf, ops[..i]), ops[i].now, ops[i].selected))
  }

  lemma WithinDayPrefix(db: Db, fileOf: FileOf, ops: seq<Op>, from: int)
    requires WithinDay(db, fileOf, ops, from) && ops != []
    ensures WithinDay(db, fileOf, ops[..|ops| - 1], from)
  {
    var init := ops[..|ops| - 1];
    forall i | 0 <= i < |init|
      ensures InDay(init[i], from)
      ensures init[i].Sweep? ==> Selection(Run(db, fileOf, init[..i]), init[i].now, init[i].selected)
    {
      assert ops[..i] == init[..i] && ops[i] == init[i];
    }
  }

  /** `f` is stored, and none of its grace pins runs out before `deadline`. */
  ghost predicate SafeUntil(db: Db, f: Hash, deadline: int) {
    && f in db.files
    && forall k :: IsGrace(db, k) && k.file == f && db.pins[k].deleteBy.Some? ==> db.pins[k].deleteBy.value >= deadline
  }

  lemma {:induction false} SweepSparesSafe(db: Db, selected: seq<PinKey>, f: Hash, deadline: int)
    requires SafeUntil(db, f, deadline) && forall i :: 0 <= i < |selected| ==> selected[i].file != f
    ensures SafeUntil(Swept(db, selected), f, deadline)
  {
    if selected != [] {
      SweepSparesSafe(db, selected[..|selected| - 1], f, deadline);
    }
  }

  lemma StepKeepsSafe(db: Db, fileOf: FileOf, op: Op, f: Hash, from: int)
    requires SafeUntil(db, f, from + GRACE_PERIOD) && InDay(op, from)
    requires op.Sweep? ==> Selection(db, op.now, op.selected)
    ensures SafeUntil(Step(db, fileOf, op), f, from + GRACE_PERIOD)
  {
    if op.Sweep? {
      forall i | 0 <= i < |op.selected| ensures op.selected[i].file != f {
        assert op.selected[i] in ExpiredPins(db, op.now);
      }
      SweepSparesSafe(db, op.selected, f, from + GRACE_PERIOD);
    }
  }

  lemma {:induction false} SafeStaysSafe(db: Db, fileOf: FileOf, ops: seq<Op>, f: Hash, from: int)
    requires SafeUntil(db, f, from + GRACE_PERIOD) && WithinDay(db, fileOf, ops, from)
    ensures SafeUntil(Run(db, fileOf, ops), f, from + GRACE_PERIOD)
  {
    if ops != [] {
      WithinDayPrefix(db, fileOf, ops, from);
      SafeStaysSafe(db, fileOf, ops[..|ops| - 1], f, from);
      StepKeepsSafe(Run(db, fileOf, ops[..|ops| - 1]), fileOf, ops[|ops| - 1], f, from);
    }
  }

  /** Some listing of at most `n` members of `keys` that includes `k`. */
  lemma {:induction false} ListingWith(keys: set<PinKey>, k: PinKey, n: nat) returns (s: seq<PinKey>)
    requires k in keys && n > 0
    ensures (forall i :: 0 <= i < |s| ==> s[i] in keys) && k in s
    ensures forall i, j :: 0 <= i < j < |s| ==> s[i] != s[j]
    ensures |s| == if |keys| <= n then |keys| else n
    decreases n
  {
    if n == 1 || keys == {k} {
      s := [k];
      assert keys != {k} ==> |keys - {k}| > 0;
    } else {
      assert keys - {k} != {};
      var other :| other in keys - {k};
      var t := ListingWith(keys - {other}, k, n - 1);
      s := t + [other];
    }
  }

  /** A sweep deletes the file of any selected pin that has no active pin. */
  lemma {:induction false} SweepDeletes(db: Db, selected: seq<PinKey>, k: PinKey)
    requires ActivePins(db, k.file) == {} && k in selected
    ensures k.file !in Swept(db, selected).files
  {
    var init, last := selected[..|selected| - 1], selected[|selected| - 1];
    assert selected == init + [last];
    StaysInactive(db, init, k.file);
    if k in init { SweepDeletes(db, init, k); }
  }

  lemma {:induction false} StaysInactive(db: Db, selected: seq<PinKey>, f: Hash)
    requires ActivePins(db, f) == {}
    ensures ActivePins(Swept(db, selected), f) == {}
  {
    if selected != [] {
      var before := Swept(db, selected[..|selected| - 1]);
      StaysInactive(db, selected[..|selected| - 1], f);
      forall k ensures k !in ActivePins(Swept(db, selected), f) {
        assert k !in ActivePins(before, f);
      }
    }
  }

  predicate RunsOutBefore(db: Db, k: PinKey, deadline: int)
    requires k in db.pins
  {
    db.pins[k].deleteBy.Some? && db.pins[k].deleteBy.value < deadline
  }

  /** Another owner's grace pin on `f` runs out before a day from `now`. */
  ghost predicate OldGrace(db: Db, f: Hash, address: string, now: int) {
    exists k :: IsGrace(db, k) && k.file == f && k.owner != address && RunsOutBefore(db, k, now + GRACE_PERIOD)
  }

  /**
   * A file that loses its last active pin survives every run of the next day exactly when no other
   * owner's grace pin on it runs out within that day: the sweep that meets such a pin finds no active
   * pin and deletes the file with all its pins, the new grace pin included.
   */
  lemma SurvivesTheDayIff(db: Db, fileOf: FileOf, h: Hash, address: string, now: int)
    requires Inv(db, fileOf) && fileOf(h) in db.files
    requires ActivePins(Unpinned(db, h), fileOf(h)) == {}
    ensures var u := Forgotten(db, h, address, Some(fileOf(h)), now);
            (forall ops :: WithinDay(u, fileOf, ops, now) ==> fileOf(h) in Run(u, fileOf, ops).files)
              <==> !OldGrace(db, fileOf(h), address, now)
  {
    var f, u := fileOf(h), Forgotten(db, h, address, Some(fileOf(h)), now);
    if OldGrace(db, f, address, now) {
      var ops := DeadlyDay(db, fileOf, h, address, now);
    } else {
      assert SafeUntil(u, f, now + GRACE_PERIOD);
      forall ops | WithinDay(u, fileOf, ops, now) ensures f in Run(u, fileOf, ops).files {
        SafeStaysSafe(u, fileOf, ops, f, now);
      }
    }
  }

  /** A day on which the sweep meets the old pin. */
  lemma DeadlyDay(db: Db, fileOf: FileOf, h: Hash, address: string, now: int) returns (ops: seq<Op>)
    requires ActivePins(Unpinned(db, h), fileOf(h)) == {} && OldGrace(db, fileOf(h), address, now)
    requires PinsMatch(db, fileOf)
    ensures var u := Forgotten(db, h, address, Some(fileOf(h)), now);
      WithinDay(u, fileOf, ops, now) && Spares(ops, fileOf(h)) && fileOf(h) !in Run(u, fileOf, ops).files
  {
    var f, u := fileOf(h), Forgotten(db, h, address, Some(fileOf(h)), now);
    var k :| IsGrace(db, k) && k.file == f && k.owner != address && RunsOutBefore(db, k, now + GRACE_PERIOD);
    assert IsGrace(u, k) && u.pins[k] == db.pins[k];
    NoActiveAfterForget(db, fileOf, h, address, now);
    ops := DeadlySweep(u, fileOf, k, now);
  }

  lemma NoActiveAfterForget(db: Db, fileOf: FileOf, h: Hash, address: string, now: int)
    requires ActivePins(Unpinned(db, h), fileOf(h)) == {}
    ensures ActivePins(Forgotten(db, h, address, Some(fileOf(h)), now), fileOf(h)) == {}
  {
    var v, u := Unpinned(db, h), Forgotten(db, h, address, Some(fileOf(h)), now);
    forall k ensures k !in ActivePins(u, fileOf(h)) {
      assert k !in ActivePins(v, fileOf(h));
    }
  }

  lemma DeadlySweep(u: Db, fileOf: FileOf, k: PinKey, now: int) returns (ops: seq<Op>)
    requires ActivePins(u, k.file) == {}
    requires IsGrace(u, k) && RunsOutBefore(u, k, now + GRACE_PERIOD)
    ensures WithinDay(u, fileOf, ops, now) && Spares(ops, k.file) && k.file !in Run(u, fileOf, ops).files
  {
    var selected := ListingWith(ExpiredPins(u, now + GRACE_PERIOD), k, SWEEP_LIMIT);
    ops := [Sweep(now + GRACE_PERIOD, selected)];
    assert ops[..0] == [] && Run(u, fileOf, []) == u;
    SweepDeletes(u, selected, k);
  }

  // ---- Storing again during the day ----

  /** While its owner's grace pin is on a file, storing the file again is refused: the pins stay as they are. */
  lemma StoreRefusedDuringGrace(db: Db, h: Hash, f: Hash, owner: string)
    requires IsGrace(db, PinKey(f, owner)) && f in db.files
    ensures Stored(db, h, f, owner) == db
  {
    assert db.files + {f} == db.files;
  }

  /** Nothing that happens within the day takes the grace pin away while the file is safe. */
  lemma StepKeepsGrace(db: Db, fileOf: FileOf, op: Op, k: PinKey, from: int)
    requires PinsMatch(db, fileOf) && SafeUntil(db, k.file, from + GRACE_PERIOD) && IsGrace(db, k)
    requires InDay(op, from) && op != Unpin(k.file) && (op.Sweep? ==> Selection(db, op.now, op.selected))
    ensures IsGrace(Step(db, fileOf, op), k)
  {
    match op
    case Store(h, owner) =>
    case Forget(h, address, now) =>
    case Unpin(f) =>
    case Upload(f) =>
    case Sweep(now, selected) =>
      forall i | 0 <= i < |selected| ensures selected[i].file != k.file {
        assert selected[i] in ExpiredPins(db, now);
      }
      SweepKeepsOthers(db, selected, k);
  }

  lemma {:induction false} SweepKeepsOthers(db: Db, selected: seq<PinKey>, k: PinKey)
    requires IsGrace(db, k) && forall i :: 0 <= i < |selected| ==> selected[i].file != k.file
    ensures IsGrace(Swept(db, selected), k)
  {
    if selected != [] { SweepKeepsOthers(db, selected[..|selected| - 1], k); }
  }

  lemma {:induction false} GraceStays(db: Db, fileOf: FileOf, ops: seq<Op>, k: PinKey, from: int)
    requires PinsMatch(db, fileOf) && SafeUntil(db, k.file, from + GRACE_PERIOD) && IsGrace(db, k)
    requires WithinDay(db, fileOf, ops, from) && Spares(ops, k.file)
    ensures IsGrace(Run(db, fileOf, ops), k)
  {
    if ops != [] {
      var init := ops[..|ops| - 1];
      WithinDayPrefix(db, fileOf, ops, from);
      GraceStays(db, fileOf, init, k, from);
      SafeStaysSafe(db, fileOf, init, k.file, from);
      RunKeepsMatch(db, fileOf, init);
      StepKeepsGrace(Run(db, fileOf, init), fileOf, ops[|ops| - 1], k, from);
    }
  }

  /** After the run, a STORE message about `f` from `owner` changes nothing. */
  ghost predicate StoreHasNoEffect(db: Db, f: Hash, owner: string) {
    forall h :: Stored(db, h, f, owner) == db
  }

  /** It changes nothing exactly when a pin of another type is in its way. */
  lemma StoreHasNoEffectIff(db: Db, f: Hash, owner: string)
    requires f in db.files
    ensures StoreHasNoEffect(db, f, owner) <==> StoreClashes(db, f, owner)
  {
    if StoreClashes(db, f, owner) {
      forall h ensures Stored(db, h, f, owner) == db { assert db.files + {f} == db.files; }
    } else {
      var k := PinKey(f, owner);
      var h := if k in db.pins && db.pins[k].message == Some("") then "-" else "";
      assert Stored(db, h, f, owner).pins[k].message == Some(h);
    }
  }

  /**
   * While nobody forgets the file's own hash, the owner who forgot its last STORE message cannot store
   * it again at any moment of the next day, exactly when no other owner's older grace pin runs out
   * within it: only the deletion of the file makes room for a new pin.
   */
  lemma RefusedAllDayIff(db: Db, fileOf: FileOf, h: Hash, address: string, now: int)
    requires Inv(db, fileOf) && fileOf(h) in db.files
    requires ActivePins(Unpinned(db, h), fileOf(h)) == {}
    ensures var u := Forgotten(db, h, address, Some(fileOf(h)), now);
            (forall ops :: WithinDay(u, fileOf, ops, now) && Spares(ops, fileOf(h)) ==>
               StoreHasNoEffect(Run(u, fileOf, ops), fileOf(h), address))
              <==> !OldGrace(db, fileOf(h), address, now)
  {
    var f, u := fileOf(h), Forgotten(db, h, address, Some(fileOf(h)), now);
    if OldGrace(db, f, address, now) {
      var ops := DeadlyDay(db, fileOf, h, address, now);
      assert f in Stored(Run(u, fileOf, ops), h, f, address).files;
      assert !StoreHasNoEffect(Run(u, fileOf, ops), f, address);
    } else {
      GraceAfterForget(db, fileOf, h, address, now);
      forall ops | WithinDay(u, fileOf, ops, now) && Spares(ops, f)
        ensures StoreHasNoEffect(Run(u, fileOf, ops), f, address)
      {
        GraceStays(u, fileOf, ops, PinKey(f, address), now);
        SafeStaysSafe(u, fileOf, ops, f, now);
        StoreHasNoEffectIff(Run(u, fileOf, ops), f, address);
      }
    }
  }

  /** Forgetting the file's own hash gives way at once, whatever came before. */
  lemma UnpinReleases(db: Db, fileOf: FileOf, ops: seq<Op>, f: Hash, owner: string)
    requires f in Run(db, fileOf, ops).files
    ensures !StoreHasNoEffect(Run(db, fileOf, ops + [Unpin(f)]), f, owner)
  {
    assert (ops + [Unpin(f)])[..|ops|] == ops;
    StoreHasNoEffectIff(Run(db, fileOf, ops + [Unpin(f)]), f, owner);
  }

  lemma GraceAfterForget(db: Db, fileOf: FileOf, h: Hash, address: string, now: int)
    requires Inv(db, fileOf) && fileOf(h) in db.files && !OldGrace(db, fileOf(h), address, now)
    requires ActivePins(Unpinned(db, h), fileOf(h)) == {}
    ensures var u := Forgotten(db, h, address, Some(fileOf(h)), now);
      Inv(u, fileOf) && SafeUntil(u, fileOf(h), now + GRACE_PERIOD) && IsGrace(u, PinKey(fileOf(h), address))
  {
    var k := PinKey(fileOf(h), address);
    ForgetKeepsPinnedIff(db, fileOf, h, address, Some(fileOf(h)), now);
    assert k !in ActivePins(Unpinned(db, h), fileOf(h));
  }
  // ---- The old grace pin is reachable ----

  /** Two owners store one file and forget it again, the second ten seconds after the first. */
  function TwoOwners(): seq<Op> {
    [Store("a", "A"), Forget("a", "A", 0), Store("b", "B")]
  }

  /** From the empty tables: B's forget leaves the file to be swept with A's grace pin, ten seconds too early. */
  lemma OldGraceIsReachable(fileOf: FileOf, f: Hash)
    requires forall h :: fileOf(h) == f
    ensures var db := Run(Db({}, map[]), fileOf, TwoOwners());
      Inv(db, fileOf) && f in db.files && ActivePins(Unpinned(db, "b"), f) == {} && OldGrace(db, f, "B", 10)
  {
    var ops := TwoOwners();
    var empty := Db({}, map[]);
    var first, second := Stored(empty, "a", f, "A"), Forgotten(Stored(empty, "a", f, "A"), "a", "A", Some(f), 0);
    assert ops[..2] == [ops[0], ops[1]] && ops[..2][..1] == [ops[0]] && [ops[0]][..0] == [];
    assert Run(empty, fileOf, [ops[0]]) == first;
    assert Run(empty, fileOf, ops[..2]) == second;
    FilesStayPinned(empty, fileOf, ops);
    var db := Run(empty, fileOf, ops);
    assert ActivePins(Unpinned(first, "a"), f) == {};
    assert db == Stored(second, "b", f, "B");
    assert db.pins[PinKey(f, "A")] == Pin(GracePeriod, Some(GRACE_PERIOD), None) && IsGrace(db, PinKey(f, "A"));
    forall k ensures k !in ActivePins(Unpinned(db, "b"), f) { }
  }
}
