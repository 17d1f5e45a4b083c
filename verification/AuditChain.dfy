/**
  The file-backed, hash-chained audit log of engine-rust/src/audit.rs.

  The log is a list in memory and a list of lines on disk.  `AuditLog` is the implementation;
  its methods are proved against the functions `Appended` and `Report`, and the theorems are
  about those: what the newest hash pins down (`HeadPinsHistory`), what verification detects
  (`VerifyDetects`) and what failed writes leave behind (`RunKeepsCount`, `VerifyAfterRun`,
  `ReopenAfterRun`).

  The hash is a parameter.  Where a result needs it to be collision free, only the records at hand
  are assumed not to collide: no function is injective on all byte strings and has 64-byte values.
 */
module AuditChain {
  import opened Octets
  import opened Wrappers

  /** hex(sha256(..)): any function from byte strings to byte strings. */
  type HashFn = Bytes -> Bytes

  /** n times the character '0'. */
  function Zeros(n: nat): (r: Bytes)
    ensures |r| == n && forall i | 0 <= i < n :: r[i] == 48
  {
    if n == 0 then [] else [48] + Zeros(n - 1)
  }

  const HASH_LENGTH: nat := 64
  const GENESIS_HASH: Bytes := Zeros(HASH_LENGTH)
  const U64_LIMIT: nat := 0x1_0000_0000_0000_0000

  /** Text fields hold UTF-8 bytes; the timestamp is its RFC 3339 text, the payload its JSON text. */
  datatype Entry = Entry(
    seqNo: nat, timestamp: Bytes, eventType: Bytes, subjectId: Bytes, payload: Bytes,
    prevHash: Bytes, hash: Bytes)

  /** What a caller of append supplies, with the clock reading. */
  datatype Draft = Draft(timestamp: Bytes, eventType: Bytes, subjectId: Bytes, payload: Bytes)

  /** The `width` low-order bytes of n, most significant first. */
  function BigEndian(n: nat, width: nat): (r: Bytes)
    ensures |r| == width
  {
    if width == 0 then [] else BigEndian(n / 256, width - 1) + [(n % 256) as byte]
  }

  /** The bytes that compute_hash feeds to the hash, in order and without separators. */
  function Material(e: Entry): Bytes {
    e.prevHash + BigEndian(e.seqNo, 8) + e.timestamp + e.eventType + e.subjectId + e.payload
  }

  /** The last four of them: what the caller of append supplied, run together. */
  function Content(e: Entry): Bytes {
    e.timestamp + e.eventType + e.subjectId + e.payload
  }

  lemma MaterialParts(e: Entry)
    ensures Material(e) == e.prevHash + BigEndian(e.seqNo, 8) + Content(e)
  {
    hide BigEndian;
    var p := e.prevHash + BigEndian(e.seqNo, 8);
    assert p + e.timestamp + e.eventType + e.subjectId + e.payload
        == p + (e.timestamp + e.eventType + e.subjectId + e.payload);
  }

  function HeadHash(es: seq<Entry>): Bytes {
    if es == [] then GENESIS_HASH else es[|es| - 1].hash
  }

  predicate Linked(h: HashFn, es: seq<Entry>, i: nat)
    requires i < |es|
  {
    es[i].seqNo == i + 1 && es[i].prevHash == HeadHash(es[..i]) && es[i].hash == h(Material(es[i]))
  }

  /** Every entry is numbered, linked to the one before and sealed with its own hash. */
  ghost predicate Chain(h: HashFn, es: seq<Entry>) {
    forall i: nat | i < |es| :: Linked(h, es, i)
  }

  ghost predicate IsDigest(h: HashFn) {
    forall m :: |h(m)| == HASH_LENGTH
  }

  function Materials(es: seq<Entry>): set<Bytes> {
    set i | 0 <= i < |es| :: Material(es[i])
  }

  /** No two different strings of `ms` have the same hash. */
  ghost predicate CollisionFree(h: HashFn, ms: set<Bytes>) {
    forall m, n | m in ms && n in ms && h(m) == h(n) :: m == n
  }

  // ---------------------------------------------------------------- what a hash pins down

  function Power256(k: nat): nat {
    if k == 0 then 1 else 256 * Power256(k - 1)
  }

  /** The number that bytes spell, most significant first. */
  function Spelled(bs: Bytes): nat {
    if bs == [] then 0 else 256 * Spelled(bs[..|bs| - 1]) + bs[|bs| - 1] as nat
  }

  lemma {:induction false} BigEndianSpells(n: nat, width: nat)
    requires n < Power256(width)
    ensures Spelled(BigEndian(n, width)) == n
  {
    if width > 0 {
      var bs := BigEndian(n, width);
      assert bs[..width - 1] == BigEndian(n / 256, width - 1) && bs[width - 1] == (n % 256) as byte;
      BigEndianSpells(n / 256, width - 1);
    }
  }

  /** Behind a full-length previous hash, the hashed bytes determine link, number and content. */
  lemma MaterialPins(e: Entry, f: Entry)
    requires |e.prevHash| == |f.prevHash| && e.seqNo < U64_LIMIT && f.seqNo < U64_LIMIT
    ensures Material(e) == Material(f) <==>
            e.prevHash == f.prevHash && e.seqNo == f.seqNo && Content(e) == Content(f)
  {
    if Material(e) == Material(f) {
      MaterialParts(e);
      MaterialParts(f);
      var m, n, k := Material(e), Material(f), |e.prevHash|;
      assert m[..k] == e.prevHash && n[..k] == f.prevHash;
      assert m[k..k + 8] == BigEndian(e.seqNo, 8) && n[k..k + 8] == BigEndian(f.seqNo, 8);
      assert m[k + 8..] == Content(e) && n[k + 8..] == Content(f);
      assert Power256(8) == U64_LIMIT;
      BigEndianSpells(e.seqNo, 8);
      BigEndianSpells(f.seqNo, 8);
    }
    if Content(e) == Content(f) {
      MaterialParts(e);
      MaterialParts(f);
    }
  }

  lemma ChainPrefix(h: HashFn, es: seq<Entry>, n: nat)
    requires Chain(h, es) && n <= |es|
    ensures Chain(h, es[..n])
  {
    forall i: nat | i < n ensures Linked(h, es[..n], i) {
      assert Linked(h, es, i);
      assert es[..n][..i] == es[..i];
    }
  }

  lemma PrevHashLength(h: HashFn, es: seq<Entry>, i: nat)
    requires IsDigest(h) && Chain(h, es) && i < |es|
    ensures |es[i].prevHash| == HASH_LENGTH
  {
    assert Linked(h, es, i);
    if i > 0 { assert Linked(h, es, i - 1); }
  }

  /** Same length, and at every position the same number, previous hash, hash and hashed bytes. */
  ghost predicate SameHistory(a: seq<Entry>, b: seq<Entry>) {
    && |a| == |b|
    && (forall i | 0 <= i < |a| ::
          a[i].seqNo == b[i].seqNo && a[i].prevHash == b[i].prevHash && a[i].hash == b[i].hash
          && Content(a[i]) == Content(b[i]))
  }

  /** Two sealed entries with the same hash, if their materials do not collide, carry the same. */
  lemma HashPinsEntry(h: HashFn, a: seq<Entry>, b: seq<Entry>, i: nat, j: nat)
    requires IsDigest(h) && Chain(h, a) && Chain(h, b)
    requires i < |a| < U64_LIMIT && j < |b| < U64_LIMIT
    requires CollisionFree(h, Materials(a) + Materials(b)) && a[i].hash == b[j].hash
    ensures i == j && a[i].prevHash == b[j].prevHash && Content(a[i]) == Content(b[j])
  {
    assert Linked(h, a, i) && Linked(h, b, j);
    assert Material(a[i]) in Materials(a) && Material(b[j]) in Materials(b);
    PrevHashLength(h, a, i);
    PrevHashLength(h, b, j);
    MaterialPins(a[i], b[j]);
  }

  lemma PrefixCollisionFree(h: HashFn, a: seq<Entry>, b: seq<Entry>, n: nat)
    requires n <= |a| && n <= |b| && CollisionFree(h, Materials(a) + Materials(b))
    ensures CollisionFree(h, Materials(a[..n]) + Materials(b[..n]))
  {
    assert Materials(a[..n]) <= Materials(a) && Materials(b[..n]) <= Materials(b);
  }

  /** Chains built by append from genesis with the same newest hash have the same history. */
  lemma {:induction false} HeadPinsHistory(h: HashFn, a: seq<Entry>, b: seq<Entry>)
    requires IsDigest(h) && Chain(h, a) && Chain(h, b)
    requires 0 < |a| < U64_LIMIT && 0 < |b| < U64_LIMIT
    requires CollisionFree(h, Materials(a) + Materials(b))
    requires HeadHash(a) == HeadHash(b)
    ensures SameHistory(a, b)
  {
    hide Content, Material, CollisionFree, IsDigest;
    var m := |a| - 1;
    HashPinsEntry(h, a, b, m, |b| - 1);
    assert Linked(h, a, m) && Linked(h, b, m);
    if m > 0 {
      var p, q := a[..m], b[..m];
      ChainPrefix(h, a, m);
      ChainPrefix(h, b, m);
      PrefixCollisionFree(h, a, b, m);
      HeadPinsHistory(h, p, q);
      assert forall i | 0 <= i < m :: a[i] == p[i] && b[i] == q[i];
    }
  }

  /** Conversely the contents, in order, determine every number and hash. */
  lemma {:induction false} ContentsFixHistory(h: HashFn, a: seq<Entry>, b: seq<Entry>)
    requires Chain(h, a) && Chain(h, b) && |a| == |b|
    requires forall i | 0 <= i < |a| :: Content(a[i]) == Content(b[i])
    ensures SameHistory(a, b)
  {
    var m := |a| - 1;
    if m >= 0 {
      ChainPrefix(h, a, m);
      ChainPrefix(h, b, m);
      ContentsFixHistory(h, a[..m], b[..m]);
      assert Linked(h, a, m) && Linked(h, b, m);
      MaterialParts(a[m]);
      MaterialParts(b[m]);
      if m > 0 {
        assert a[m - 1] == a[..m][m - 1] && b[m - 1] == b[..m][m - 1];
      }
      assert forall i | 0 <= i < m :: a[i] == a[..m][i] && b[i] == b[..m][i];
    }
  }

  // ---------------------------------------------------------------- the file and verification

  /** A line of the log file, as the readers see it. */
  datatype Line = Record(entry: Entry) | Blank | Garbled | NotUtf8

  /**
    The path: absent, present but impossible to open (no permission, say), or lines.  A file is
    `open` if its last line lacks the newline, so that the next write continues it.
   */
  datatype File = Missing | Unreadable | Lines(lines: seq<Line>, open: bool)

  datatype VerifyResponse = VerifyResponse(valid: bool, entriesChecked: nat, firstBrokenSeq: Option<nat>)

  function RecordLines(es: seq<Entry>): (ls: seq<Line>)
    ensures |ls| == |es| && forall i | 0 <= i < |es| :: ls[i] == Record(es[i])
  {
    if es == [] then [] else [Record(es[0])] + RecordLines(es[1..])
  }

  /** The entries of the lines, if every line holds one. */
  function Parsed(ls: seq<Line>): (r: Result<seq<Entry>>)
    ensures r.Success? <==> forall i | 0 <= i < |ls| :: ls[i].Record?
    ensures r.Success? ==> RecordLines(r.value) == ls
  {
    if ls == [] then Success([])
    else if !ls[0].Record? then Failure
    else match Parsed(ls[1..])
      case Failure => Failure
      case Success(rest) => Success([ls[0].entry] + rest)
  }

  /** The disk copy that verify reads; a missing file stands for an empty log only while memory is empty. */
  function DiskCopy(mem: seq<Entry>, f: File): Result<seq<Entry>> {
    match f
    case Missing => if mem == [] then Success([]) else Failure
    case Unreadable => Failure
    case Lines(ls, _) => Parsed(ls)
  }

  /** The test that verify applies to disk entry i. */
  predicate Agrees(h: HashFn, mem: seq<Entry>, disk: seq<Entry>, i: nat)
    requires i < |disk| == |mem|
  {
    Linked(h, disk, i) && disk[i].hash == mem[i].hash
  }

  /** The first position from `from` on that fails the test, or the length. */
  function FirstBroken(h: HashFn, mem: seq<Entry>, disk: seq<Entry>, from: nat): (k: nat)
    requires from <= |disk| == |mem|
    ensures from <= k <= |disk|
    ensures forall i | from <= i < k :: Agrees(h, mem, disk, i)
    ensures k < |disk| ==> !Agrees(h, mem, disk, k)
    decreases |disk| - from
  {
    if from == |disk| || !Agrees(h, mem, disk, from) then from else FirstBroken(h, mem, disk, from + 1)
  }

  /** The answer of verify for a memory list and a file. */
  function Report(h: HashFn, mem: seq<Entry>, f: File): VerifyResponse {
    match DiskCopy(mem, f)
    case Failure => VerifyResponse(false, 0, Some(1))
    case Success(disk) =>
      if |disk| != |mem| then
        VerifyResponse(false, |disk|, Some((if |disk| < |mem| then |disk| else |mem|) + 1))
      else
        var k := FirstBroken(h, mem, disk, 0);
        if k == |disk| then VerifyResponse(true, |mem|, None)
        else VerifyResponse(false, disk[k].seqNo, Some(disk[k].seqNo))
  }

  /** A disk entry that carries what memory carries, up to how its content bytes divide into fields. */
  predicate Matches(e: Entry, d: Entry) {
    && d.seqNo == e.seqNo && d.prevHash == e.prevHash && d.hash == e.hash
    && d.timestamp + d.eventType + d.subjectId + d.payload == e.timestamp + e.eventType + e.subjectId + e.payload
  }

  /** On a prefix that matches so far, verify's test at i is exactly a match at i. */
  lemma AgreesIsMatch(h: HashFn, mem: seq<Entry>, disk: seq<Entry>, i: nat)
    requires IsDigest(h) && Chain(h, mem) && i < |disk| == |mem| < U64_LIMIT
    requires CollisionFree(h, Materials(mem) + Materials(disk))
    requires forall j | 0 <= j < i :: Matches(mem[j], disk[j])
    ensures Agrees(h, mem, disk, i) <==> Matches(mem[i], disk[i])
  {
    assert Linked(h, mem, i);
    assert HeadHash(disk[..i]) == HeadHash(mem[..i]) by {
      if i > 0 { assert Matches(mem[i - 1], disk[i - 1]); }
    }
    assert Material(mem[i]) in Materials(mem) && Material(disk[i]) in Materials(disk);
    if disk[i].seqNo == i + 1 && disk[i].prevHash == mem[i].prevHash {
      MaterialPins(mem[i], disk[i]);
    }
  }

  lemma {:induction false} ParsedRecordLines(es: seq<Entry>)
    ensures Parsed(RecordLines(es)) == Success(es)
  {
    var p := Parsed(RecordLines(es));
    assert forall i | 0 <= i < |es| :: Record(p.value[i]) == Record(es[i]);
    assert p.value == es;
  }

  lemma {:induction false} AgreedPrefixMatches(h: HashFn, mem: seq<Entry>, disk: seq<Entry>, k: nat)
    requires IsDigest(h) && Chain(h, mem) && k <= |disk| == |mem| < U64_LIMIT
    requires CollisionFree(h, Materials(mem) + Materials(disk))
    requires forall i: nat | i < k :: Agrees(h, mem, disk, i)
    ensures forall i | 0 <= i < k :: Matches(mem[i], disk[i])
  {
    if k > 0 {
      AgreedPrefixMatches(h, mem, disk, k - 1);
      AgreesIsMatch(h, mem, disk, k - 1);
    }
  }

  /** The first entry that fails its test is the first that does not match. */
  lemma {:induction false} FirstBrokenMismatches(h: HashFn, mem: seq<Entry>, disk: seq<Entry>)
    requires IsDigest(h) && Chain(h, mem) && |disk| == |mem| < U64_LIMIT
    requires CollisionFree(h, Materials(mem) + Materials(disk))
    ensures var k := FirstBroken(h, mem, disk, 0);
            && (forall i | 0 <= i < k :: Matches(mem[i], disk[i]))
            && (k < |mem| ==> !Matches(mem[k], disk[k]) && mem[k].seqNo == k + 1)
  {
    var k := FirstBroken(h, mem, disk, 0);
    hide CollisionFree, Materials, IsDigest, Matches, Agrees;
    AgreedPrefixMatches(h, mem, disk, k);
    if k < |mem| {
      AgreesIsMatch(h, mem, disk, k);
      assert Linked(h, mem, k);
    }
  }

  /**
    With an honestly built memory list and any file, verify accepts exactly the files that parse, have
    memory's length and match everywhere.  A parsing copy of another length is reported behind the
    shorter of the two; one of the same length at the first entry that does not match, by that
    entry's own number, which is its position plus one if it is intact.
   */
  lemma {:induction false} VerifyDetects(h: HashFn, mem: seq<Entry>, f: File) returns (k: nat)
    requires IsDigest(h) && Chain(h, mem) && |mem| < U64_LIMIT
    requires var read := DiskCopy(mem, f);
             read.Success? ==> CollisionFree(h, Materials(mem) + Materials(read.value))
    ensures var r, read := Report(h, mem, f), DiskCopy(mem, f);
            && (r.valid <==> read.Success? && |read.value| == |mem|
                             && forall i | 0 <= i < |mem| :: Matches(mem[i], read.value[i]))
            && (r.valid ==> r == VerifyResponse(true, |mem|, None))
            && (read.Failure? ==> r == VerifyResponse(false, 0, Some(1)))
            && (read.Success? && |read.value| != |mem| ==>
                  r == VerifyResponse(false, |read.value|,
                                      Some((if |read.value| < |mem| then |read.value| else |mem|) + 1)))
    ensures var r, read := Report(h, mem, f), DiskCopy(mem, f);
            !r.valid && read.Success? && |read.value| == |mem| ==>
              var disk := read.value;
              && k < |mem| && !Matches(mem[k], disk[k]) && (forall i | 0 <= i < k :: Matches(mem[i], disk[i]))
              && r == VerifyResponse(false, disk[k].seqNo, Some(disk[k].seqNo))
              && (disk[k].seqNo == mem[k].seqNo ==> r.firstBrokenSeq == Some(k + 1))
  {
    k := 0;
    var read := DiskCopy(mem, f);
    hide CollisionFree, Materials, IsDigest, Matches, Chain, Agrees;
    if read.Success? && |read.value| == |mem| {
      k := FirstBroken(h, mem, read.value, 0);
      FirstBrokenMismatches(h, mem, read.value);
    }
  }

  /** A disk copy of another length, or one that does not parse, is never accepted. */
  lemma VerifyNeedsAllLines(h: HashFn, mem: seq<Entry>, f: File)
    requires Report(h, mem, f).valid
    ensures DiskCopy(mem, f).Success? && |DiskCopy(mem, f).value| == |mem|
    ensures f.Lines? || (f.Missing? && mem == [])
    ensures forall i: nat | i < |mem| :: Agrees(h, mem, DiskCopy(mem, f).value, i)
  {
    var disk := DiskCopy(mem, f).value;
    assert FirstBroken(h, mem, disk, 0) == |disk|;
  }

  /** The entries differ in one field and no other. */
  predicate OneFieldChanged(e: Entry, d: Entry) {
    && d != e
    && (|| d == e.(seqNo := d.seqNo) || d == e.(timestamp := d.timestamp) || d == e.(eventType := d.eventType)
        || d == e.(subjectId := d.subjectId) || d == e.(payload := d.payload)
        || d == e.(prevHash := d.prevHash) || d == e.(hash := d.hash))
  }

  lemma CancelMiddle(a: Bytes, x: Bytes, y: Bytes, b: Bytes)
    requires a + x + b == a + y + b
    ensures x == y
  {
    assert |x| == |y|;
    assert (a + x + b)[|a|..|a| + |x|] == x && (a + y + b)[|a|..|a| + |y|] == y;
  }

  /** A change of a hashed field that the caller supplied changes the hashed bytes. */
  lemma ChangedMaterial(e: Entry, d: Entry)
    requires OneFieldChanged(e, d) && d.seqNo == e.seqNo && d.prevHash == e.prevHash && d.hash == e.hash
    ensures Material(d) != Material(e)
  {
    hide BigEndian;
    var p := e.prevHash + BigEndian(e.seqNo, 8);
    if Material(d) == Material(e) {
      if d.timestamp != e.timestamp {
        var b := e.eventType + e.subjectId + e.payload;
        assert Material(d) == p + d.timestamp + b && Material(e) == p + e.timestamp + b;
        CancelMiddle(p, d.timestamp, e.timestamp, b);
      } else if d.eventType != e.eventType {
        var a, b := p + e.timestamp, e.subjectId + e.payload;
        assert Material(d) == a + d.eventType + b && Material(e) == a + e.eventType + b;
        CancelMiddle(a, d.eventType, e.eventType, b);
      } else if d.subjectId != e.subjectId {
        CancelMiddle(p + e.timestamp + e.eventType, d.subjectId, e.subjectId, e.payload);
      } else {
        var a := p + e.timestamp + e.eventType + e.subjectId;
        assert Material(d) == a + d.payload + [] && Material(e) == a + e.payload + [];
        CancelMiddle(a, d.payload, e.payload, []);
      }
    }
  }

  lemma ChangedEntryDisagrees(h: HashFn, mem: seq<Entry>, i: nat, d: Entry)
    requires Chain(h, mem) && i < |mem| && OneFieldChanged(mem[i], d)
    requires CollisionFree(h, {Material(mem[i]), Material(d)})
    ensures !Agrees(h, mem, mem[i := d], i) && mem[i].seqNo == i + 1
  {
    assert mem[i := d][..i] == mem[..i];
    assert Linked(h, mem, i);
    hide Material, Chain;
    if d.seqNo == mem[i].seqNo && d.prevHash == mem[i].prevHash && d.hash == mem[i].hash {
      ChangedMaterial(mem[i], d);
    }
  }

  lemma EarlierEntriesAgree(h: HashFn, mem: seq<Entry>, i: nat, d: Entry, j: nat)
    requires Chain(h, mem) && j < i < |mem|
    ensures Agrees(h, mem, mem[i := d], j)
  {
    assert Linked(h, mem, j);
    assert mem[i := d][..j] == mem[..j];
  }

  /**
    If any one field of any one entry is changed in the file, and the old and the new entry's hashed
    bytes do not collide, verify rejects the file and names that entry, by the number it now carries,
    which is its own unless the number was changed.
   */
  lemma ChangedFieldIsDetected(h: HashFn, mem: seq<Entry>, i: nat, d: Entry, open: bool)
    requires Chain(h, mem) && i < |mem| && OneFieldChanged(mem[i], d)
    requires CollisionFree(h, {Material(mem[i]), Material(d)})
    ensures Report(h, mem, Lines(RecordLines(mem[i := d]), open)) == VerifyResponse(false, d.seqNo, Some(d.seqNo))
    ensures d.seqNo == mem[i].seqNo ==> d.seqNo == i + 1
  {
    var disk := mem[i := d];
    hide Agrees, Chain, Material, RecordLines, Parsed, OneFieldChanged, CollisionFree;
    ParsedRecordLines(disk);
    forall j: nat | j < i ensures Agrees(h, mem, disk, j) {
      EarlierEntriesAgree(h, mem, i, d, j);
    }
    ChangedEntryDisagrees(h, mem, i, d);
    var k := FirstBroken(h, mem, disk, 0);
    assert k == i;
  }

  /** The entry with the first byte of its subject moved to the end of its event type. */
  function ByteMoved(e: Entry): Entry
    requires e.subjectId != []
  {
    e.(eventType := e.eventType + [e.subjectId[0]], subjectId := e.subjectId[1..])
  }

  /** The hash does not pin where one field ends: moving a byte across a boundary keeps the hashed bytes. */
  lemma FieldBoundariesAreNotPinned(e: Entry)
    requires e.subjectId != []
    ensures Material(ByteMoved(e)) == Material(e) && ByteMoved(e) != e
  {
    assert [e.subjectId[0]] + e.subjectId[1..] == e.subjectId;
    assert Content(ByteMoved(e)) == Content(e);
    assert |ByteMoved(e).eventType| != |e.eventType|;
  }

  lemma MovedByteAgrees(h: HashFn, mem: seq<Entry>, i: nat, k: nat)
    requires Chain(h, mem) && i < |mem| && k < |mem| && mem[i].subjectId != []
    ensures Agrees(h, mem, mem[i := ByteMoved(mem[i])], k)
  {
    FieldBoundariesAreNotPinned(mem[i]);
    var disk := mem[i := ByteMoved(mem[i])];
    assert Linked(h, mem, k);
    hide Chain, Material;
    assert HeadHash(disk[..k]) == HeadHash(mem[..k]);
  }

  /** So a log file changed in this way still verifies, whatever the hash. */
  lemma MovedByteVerifies(h: HashFn, mem: seq<Entry>, i: nat, open: bool)
    requires Chain(h, mem) && i < |mem| && mem[i].subjectId != []
    ensures var disk := mem[i := ByteMoved(mem[i])];
            disk != mem && Report(h, mem, Lines(RecordLines(disk), open)) == VerifyResponse(true, |mem|, None)
  {
    hide Agrees, Chain, Material, RecordLines, Parsed;
    var disk := mem[i := ByteMoved(mem[i])];
    FieldBoundariesAreNotPinned(mem[i]);
    assert disk[i] != mem[i];
    ParsedRecordLines(disk);
    forall k: nat | k < |mem| ensures Agrees(h, mem, disk, k) {
      MovedByteAgrees(h, mem, i, k);
    }
    assert FirstBroken(h, mem, disk, 0) == |mem|;
  }

  // ---------------------------------------------------------------- appends that may fail

  /** Where a write was cut short: before the newline, inside the record, or inside a multi-byte character of it. */
  datatype Cut = NoNewline | InRecord | InCharacter

  /**
    How persist ends: line written and synced; nothing written (the file may have been created
    empty); line written but sync failed; or a write cut short.
   */
  datatype Outcome = Stored | NotWritten(created: bool) | WrittenNotSynced | Torn(cut: Cut)

  datatype LogState = LogState(entries: seq<Entry>, file: File)

  function NextEntry(h: HashFn, mem: seq<Entry>, d: Draft): Entry {
    var e := Entry(|mem| + 1, d.timestamp, d.eventType, d.subjectId, d.payload, HeadHash(mem), []);
    e.(hash := h(Material(e)))
  }

  /** A line without a newline, continued by a record or part of one. */
  function Continued(l: Line, more: Line): Line {
    if l.NotUtf8? || more.NotUtf8? then NotUtf8 else if l.Blank? then more else Garbled
  }

  function DiskLines(f: File): seq<Line> {
    if f.Lines? then f.lines else []
  }

  /** The file lacks its last newline. */
  predicate CutShort(f: File) {
    f.Lines? && f.open && f.lines != []
  }

  /** The file after a write: a new line, or one that continues the last. */
  function Written(f: File, l: Line, open: bool): File
    requires !f.Unreadable?
  {
    var ls := DiskLines(f);
    if CutShort(f) then Lines(ls[|ls| - 1 := Continued(ls[|ls| - 1], l)], open) else Lines(ls + [l], open)
  }

  /** What a write shows of the record. */
  function Remnant(e: Entry, o: Outcome): Line {
    if !o.Torn? then Record(e)
    else match o.cut
      case NoNewline => Record(e)
      case InRecord => Garbled
      case InCharacter => NotUtf8
  }

  /** The file after persist; opening it fails while it is unreadable. */
  function Persisted(f: File, e: Entry, o: Outcome): File {
    if f.Unreadable? then f
    else if o.NotWritten? then if f.Missing? && o.created then Lines([], false) else f
    else Written(f, Remnant(e, o), o.Torn?)
  }

  /** The log after one append. */
  function Appended(h: HashFn, s: LogState, d: Draft, o: Outcome): LogState {
    var e := NextEntry(h, s.entries, d);
    LogState(if o.Stored? && !s.file.Unreadable? then s.entries + [e] else s.entries, Persisted(s.file, e, o))
  }

  /** The log after a run of appends. */
  function Run(h: HashFn, s: LogState, ops: seq<(Draft, Outcome)>): LogState {
    if ops == [] then s
    else
      var n := |ops| - 1;
      Appended(h, Run(h, s, ops[..n]), ops[n].0, ops[n].1)
  }

  function OpenedLines(ls: seq<Line>): Result<seq<Entry>> {
    if ls == [] || ls[0].NotUtf8? then Success([])
    else if ls[0].Garbled? then Failure
    else match OpenedLines(ls[1..])
      case Failure => Failure
      case Success(rest) => Success((if ls[0].Record? then [ls[0].entry] else []) + rest)
  }

  /** What AuditLog::open reads: lines up to one that is not UTF-8, without blanks; one bad record fails it. */
  function Opened(f: File): Result<seq<Entry>> {
    match f
    case Missing => Success([])
    case Unreadable => Failure
    case Lines(ls, _) => OpenedLines(ls)
  }

  /** Memory is a chain and the file holds exactly its lines, with or without the last newline. */
  ghost predicate Intact(h: HashFn, s: LogState) {
    && Chain(h, s.entries)
    && ((s.file.Lines? && s.file.lines == RecordLines(s.entries)) || (s.file.Missing? && s.entries == []))
  }

  predicate LeavesJunk(o: Outcome) {
    o.WrittenNotSynced? || o.Torn?
  }

  predicate WritesLine(o: Outcome) {
    o.Stored? || LeavesJunk(o)
  }

  function JunkCount(ops: seq<(Draft, Outcome)>): nat {
    if ops == [] then 0
    else JunkCount(ops[..|ops| - 1]) + if LeavesJunk(ops[|ops| - 1].1) then 1 else 0
  }

  ghost predicate NothingWritten(ops: seq<(Draft, Outcome)>, after: int) {
    forall j | 0 <= j < |ops| && after < j :: !WritesLine(ops[j].1)
  }

  lemma NothingWrittenStep(ops: seq<(Draft, Outcome)>, i: int)
    requires ops != [] && i < |ops| - 1
    ensures NothingWritten(ops, i) <==> NothingWritten(ops[..|ops| - 1], i) && !WritesLine(ops[|ops| - 1].1)
  {
    var p := ops[..|ops| - 1];
    assert forall j | 0 <= j < |p| :: p[j] == ops[j];
  }

  lemma ChainExtends(h: HashFn, mem: seq<Entry>, d: Draft)
    requires Chain(h, mem)
    ensures Chain(h, mem + [NextEntry(h, mem, d)])
  {
    var e := NextEntry(h, mem, d);
    var es := mem + [e];
    assert Material(e) == Material(e.(hash := []));
    forall i: nat | i < |es| ensures Linked(h, es, i) {
      assert es[..i] == mem[..i];
      assert i < |mem| ==> Linked(h, mem, i);
      assert mem[..|mem|] == mem;
    }
  }

  lemma {:induction false} RecordLinesAppend(es: seq<Entry>, e: Entry)
    ensures RecordLines(es + [e]) == RecordLines(es) + [Record(e)]
  {
  }

  /** A chain verifies against its own lines. */
  lemma {:induction false} ChainVerifies(h: HashFn, es: seq<Entry>, open: bool)
    ensures Report(h, es, Lines(RecordLines(es), open)).valid <==> Chain(h, es)
  {
    ParsedRecordLines(es);
    var k := FirstBroken(h, es, es, 0);
    assert k < |es| ==> !Linked(h, es, k);
    forall i: nat | i < k ensures Linked(h, es, i) {
      assert Agrees(h, es, es, i);
    }
  }

  lemma IntactVerifies(h: HashFn, s: LogState)
    requires Intact(h, s)
    ensures !s.file.Unreadable? && Report(h, s.entries, s.file).valid
  {
    hide Chain, RecordLines;
    if s.file.Lines? {
      ChainVerifies(h, s.entries, s.file.open);
      assert s.file == Lines(RecordLines(s.entries), s.file.open);
    }
  }

  lemma {:induction false} OpenedRecordLines(es: seq<Entry>)
    ensures OpenedLines(RecordLines(es)) == Success(es)
  {
    if es != [] {
      OpenedRecordLines(es[1..]);
      assert RecordLines(es)[1..] == RecordLines(es[1..]);
      assert [es[0]] + es[1..] == es;
    }
  }

  lemma {:induction false} ParsedIsOpened(ls: seq<Line>)
    requires Parsed(ls).Success?
    ensures OpenedLines(ls) == Parsed(ls)
  {
    OpenedRecordLines(Parsed(ls).value);
  }

  /** Intact is what a log is that has just been opened and verifies, and nothing else. */
  lemma OpenedAndValidIsIntact(h: HashFn, es: seq<Entry>, f: File)
    ensures Opened(f) == Success(es) && Report(h, es, f).valid <==> Intact(h, LogState(es, f))
  {
    if Intact(h, LogState(es, f)) {
      IntactVerifies(h, LogState(es, f));
      OpenedRecordLines(es);
    }
    if Opened(f) == Success(es) && Report(h, es, f).valid {
      VerifyNeedsAllLines(h, es, f);
      if f.Lines? {
        ParsedIsOpened(f.lines);
        assert f == Lines(RecordLines(es), f.open);
        ChainVerifies(h, es, f.open);
      } else {
        assert Chain(h, []);
      }
    }
  }

  // ---------------------------------------------------------------- verification in the process

  /** Lines as runs leave them. */
  ghost predicate Ordinary(ls: seq<Line>) {
    forall i | 0 <= i < |ls| :: !ls[i].Blank?
  }

  ghost predicate AllRecords(ls: seq<Line>) {
    forall i | 0 <= i < |ls| :: ls[i].Record?
  }

  /** The disk shows more lines than memory, or one that is no record. */
  ghost predicate Spoilt(t: LogState) {
    !AllRecords(DiskLines(t.file)) || |DiskLines(t.file)| > |t.entries|
  }

  /** A file with more lines than memory has, or with a line that is no record, does not verify. */
  lemma SpoiltIsInvalid(h: HashFn, t: LogState)
    requires Spoilt(t)
    ensures !Report(h, t.entries, t.file).valid
  {
    if Report(h, t.entries, t.file).valid {
      VerifyNeedsAllLines(h, t.entries, t.file);
    }
  }

  /** The append writes and then fails, or continues a line that lacks its newline. */
  predicate Spoils(f: File, o: Outcome) {
    WritesLine(o) && (LeavesJunk(o) || CutShort(f))
  }

  /** Memory is a chain; the log is intact while `good`, and else spoilt. */
  ghost predicate Standing(h: HashFn, t: LogState, good: bool) {
    && !t.file.Unreadable? && Chain(h, t.entries) && Ordinary(DiskLines(t.file))
    && (if good then Intact(h, t) else Spoilt(t))
  }

  lemma OrdinaryStays(f: File, e: Entry, o: Outcome)
    requires !f.Unreadable? && Ordinary(DiskLines(f))
    ensures !Persisted(f, e, o).Unreadable? && Ordinary(DiskLines(Persisted(f, e, o)))
  {
  }

  lemma {:induction false} FirstWrite(h: HashFn, t: LogState, d: Draft, o: Outcome)
    requires Intact(h, t)
    ensures var u := Appended(h, t, d, o);
            if Spoils(t.file, o) then Spoilt(u) else Intact(h, u)
  {
    ChainExtends(h, t.entries, d);
    hide Chain;
    RecordLinesAppend(t.entries, NextEntry(h, t.entries, d));
    var n, ms := |DiskLines(t.file)|, DiskLines(Appended(h, t, d, o).file);
    if CutShort(t.file) && WritesLine(o) {
      assert !ms[n - 1].Record?;
    }
  }

  /** What is spoilt stays so: a glued line is no record, and every new one is one more. */
  lemma SpoiltStays(t: LogState, e: Entry, o: Outcome)
    requires Spoilt(t) && !t.file.Unreadable? && Ordinary(DiskLines(t.file))
    ensures Spoilt(LogState(if o.Stored? then t.entries + [e] else t.entries, Persisted(t.file, e, o)))
  {
    var ls, ms := DiskLines(t.file), DiskLines(Persisted(t.file, e, o));
    if !AllRecords(ls) {
      var i :| 0 <= i < |ls| && !ls[i].Record?;
      assert !ms[i].Record?;
    } else if CutShort(t.file) && WritesLine(o) {
      assert !ms[|ls| - 1].Record?;
    }
  }

  lemma StandingStep(h: HashFn, t: LogState, good: bool, d: Draft, o: Outcome)
    requires Standing(h, t, good)
    ensures var u := Appended(h, t, d, o);
            Standing(h, u, good && !Spoils(t.file, o))
            && (!Spoils(t.file, o) ==> (CutShort(u.file) <==> CutShort(t.file)))
  {
    ChainExtends(h, t.entries, d);
    hide Chain, Spoilt, RecordLines, Intact;
    var e := NextEntry(h, t.entries, d);
    OrdinaryStays(t.file, e, o);
    if good { FirstWrite(h, t, d, o); } else { SpoiltStays(t, e, o); }
  }

  lemma {:induction false} RunStands(h: HashFn, s: LogState, ops: seq<(Draft, Outcome)>)
    requires Intact(h, s)
    ensures var t := Run(h, s, ops);
            var good := JunkCount(ops) == 0 && (CutShort(s.file) ==> NothingWritten(ops, -1));
            Standing(h, t, good) && (good ==> (CutShort(t.file) <==> CutShort(s.file)))
  {
    if ops == [] {
      assert Ordinary(DiskLines(s.file));
    } else {
      var n := |ops| - 1;
      var p, d, o := ops[..n], ops[n].0, ops[n].1;
      var t := Run(h, s, p);
      RunStands(h, s, p);
      NothingWrittenStep(ops, -1);
      assert Run(h, s, ops) == Appended(h, t, d, o);
      var good := JunkCount(p) == 0 && (CutShort(s.file) ==> NothingWritten(p, -1));
      StandingStep(h, t, good, d, o);
      hide Run, Appended, NothingWritten, CutShort, Intact, Spoilt, Ordinary, Chain;
    }
  }

  /**
    In the process that made them, verify says valid exactly if no append wrote its line or part of it
    and then failed, and, in case the log was opened with a last line that lacks its newline, if
    none wrote at all.
   */
  lemma {:induction false} VerifyAfterRun(h: HashFn, s: LogState, ops: seq<(Draft, Outcome)>)
    requires Intact(h, s)
    ensures var t := Run(h, s, ops);
            Report(h, t.entries, t.file).valid <==>
            JunkCount(ops) == 0 && (CutShort(s.file) ==> NothingWritten(ops, -1))
  {
    var t := Run(h, s, ops);
    RunStands(h, s, ops);
    hide Run, JunkCount, NothingWritten, Report, CutShort;
    if JunkCount(ops) == 0 && (CutShort(s.file) ==> NothingWritten(ops, -1)) {
      IntactVerifies(h, t);
    } else {
      SpoiltIsInvalid(h, t);
    }
  }

  lemma {:induction false} AppendedAgrees(h: HashFn, mem: seq<Entry>, disk: seq<Entry>, d: Draft, k: nat)
    requires k <= |mem| == |disk| && forall i: nat | i < |mem| :: Agrees(h, mem, disk, i)
    ensures var e := NextEntry(h, mem, d);
            Agrees(h, mem + [e], disk + [e], k)
  {
    var e := NextEntry(h, mem, d);
    assert Material(e) == Material(e.(hash := []));
    assert (disk + [e])[..k] == disk[..k];
    if k < |mem| {
      assert Agrees(h, mem, disk, k);
    } else if k > 0 {
      assert Agrees(h, mem, disk, k - 1);
      assert disk[..k] == disk;
    }
  }

  /**
    An append that reports success keeps a valid log valid exactly if the file's last line has its
    newline; else its record is glued to that line.
   */
  lemma {:induction false} StoredKeepsValid(h: HashFn, t: LogState, d: Draft)
    requires !t.file.Unreadable? && Report(h, t.entries, t.file).valid
    ensures var u := Appended(h, t, d, Stored);
            && u.entries == t.entries + [NextEntry(h, t.entries, d)]
            && (Report(h, u.entries, u.file).valid <==> !CutShort(t.file))
  {
    var u, e := Appended(h, t, d, Stored), NextEntry(h, t.entries, d);
    var ls, ms := DiskLines(t.file), DiskLines(u.file);
    VerifyNeedsAllLines(h, t.entries, t.file);
    var disk := DiskCopy(t.entries, t.file).value;
    if CutShort(t.file) {
      assert !ms[|ls| - 1].Record?;
      SpoiltIsInvalid(h, u);
    } else {
      forall k: nat | k <= |disk| ensures Agrees(h, u.entries, disk + [e], k) {
        AppendedAgrees(h, t.entries, disk, d, k);
      }
      hide Agrees, NextEntry;
      assert ls == RecordLines(disk);
      RecordLinesAppend(disk, e);
      ParsedRecordLines(disk + [e]);
      assert FirstBroken(h, u.entries, disk + [e], 0) == |disk| + 1;
    }
  }

  // ---------------------------------------------------------------- lines on disk and entries in memory

  ghost predicate NoTorn(ops: seq<(Draft, Outcome)>) {
    forall i | 0 <= i < |ops| :: !ops[i].1.Torn?
  }

  /** The last write left its line unfinished; `cut` says it of the file before the run. */
  predicate Unfinished(cut: bool, ops: seq<(Draft, Outcome)>) {
    if ops == [] then cut
    else
      var n := |ops| - 1;
      if WritesLine(ops[n].1) then ops[n].1.Torn? else Unfinished(cut, ops[..n])
  }

  /** How many writes continued an unfinished line instead of adding one. */
  function GluedCount(cut: bool, ops: seq<(Draft, Outcome)>): nat {
    if ops == [] then 0
    else
      var n := |ops| - 1;
      GluedCount(cut, ops[..n]) + if WritesLine(ops[n].1) && Unfinished(cut, ops[..n]) then 1 else 0
  }

  lemma CountStep(h: HashFn, t: LogState, d: Draft, o: Outcome)
    requires !t.file.Unreadable?
    ensures var u := Appended(h, t, d, o);
            && !u.file.Unreadable?
            && (CutShort(u.file) <==> if WritesLine(o) then o.Torn? else CutShort(t.file))
            && |u.entries| == |t.entries| + (if o.Stored? then 1 else 0)
            && |DiskLines(u.file)| == |DiskLines(t.file)| + if WritesLine(o) && !CutShort(t.file) then 1 else 0
  {
  }

  /**
    Each append that wrote its line or part of it and then failed leaves the disk one line ahead of
    memory, but for the writes that continue an unfinished line.
   */
  lemma {:induction false} RunKeepsCount(h: HashFn, s: LogState, ops: seq<(Draft, Outcome)>)
    requires Intact(h, s)
    ensures var t, cut := Run(h, s, ops), CutShort(s.file);
            && !t.file.Unreadable? && (CutShort(t.file) <==> Unfinished(cut, ops))
            && |DiskLines(t.file)| + GluedCount(cut, ops) == |t.entries| + JunkCount(ops)
            && (NoTorn(ops) && !cut ==> GluedCount(cut, ops) == 0 && !CutShort(t.file))
  {
    if ops == [] {
      assert |DiskLines(s.file)| == |s.entries|;
    } else {
      var n := |ops| - 1;
      RunKeepsCount(h, s, ops[..n]);
      assert NoTorn(ops) ==> NoTorn(ops[..n]) && !ops[n].1.Torn?;
      CountStep(h, Run(h, s, ops[..n]), ops[n].0, ops[n].1);
      hide Appended, NoTorn, CutShort;
    }
  }

  // ---------------------------------------------------------------- what reopening finds

  /** The write was cut in the middle, so that its line cannot be a record. */
  predicate Mangled(o: Outcome) {
    o.Torn? && !o.cut.NoNewline?
  }

  /** Nothing was written after a write that went bad, and of a torn line only the newline is missing. */
  ghost predicate EndsClean(ops: seq<(Draft, Outcome)>) {
    forall i | 0 <= i < |ops| && LeavesJunk(ops[i].1) :: !Mangled(ops[i].1) && NothingWritten(ops, i)
  }

  /** Some line is not a record that carries its own position. */
  ghost predicate Misnumbered(ls: seq<Line>) {
    exists k | 0 <= k < |ls| :: !(ls[k].Record? && ls[k].entry.seqNo == k + 1)
  }

  /** A chain: memory itself or, once `sealed`, unfinished at the end or with one record more. */
  ghost predicate CleanLines(h: HashFn, t: LogState, ls: seq<Line>, sealed: bool) {
    && Parsed(ls).Success?
    && var es := Parsed(ls).value;
    && Chain(h, es)
    && (if sealed then CutShort(t.file) || |es| == |t.entries| + 1 else es == t.entries && !CutShort(t.file))
  }

  /** The lines that a run leaves; once `sealed`, any further write makes them unclean. */
  ghost predicate LinesFit(h: HashFn, t: LogState, sealed: bool, clean: bool) {
    var ls := DiskLines(t.file);
    && !t.file.Unreadable? && Chain(h, t.entries) && Ordinary(ls)
    && (if clean then CleanLines(h, t, ls, sealed) else sealed && Misnumbered(ls))
  }

  lemma {:induction false} EmptyRunFits(h: HashFn, s: LogState)
    requires Intact(h, s)
    ensures LinesFit(h, s, CutShort(s.file), true) && JunkCount([]) == 0 && EndsClean([]) && NothingWritten([], -1)
  {
    ParsedRecordLines(s.entries);
    assert Parsed([]) == Success([]);
  }

  /** A first write on a clean log. */
  lemma CleanWrite(h: HashFn, t: LogState, d: Draft, o: Outcome)
    requires LinesFit(h, t, false, true) && WritesLine(o)
    ensures LinesFit(h, Appended(h, t, d, o), LeavesJunk(o), !Mangled(o))
  {
    var e := NextEntry(h, t.entries, d);
    ChainExtends(h, t.entries, d);
    var ls := DiskLines(t.file);
    assert ls == RecordLines(t.entries);
    RecordLinesAppend(t.entries, e);
    ParsedRecordLines(t.entries + [e]);
    if Mangled(o) {
      assert !DiskLines(Appended(h, t, d, o).file)[|ls|].Record?;
    }
  }

  lemma CleanLength(h: HashFn, t: LogState, ls: seq<Line>)
    requires CleanLines(h, t, ls, true) && !CutShort(t.file)
    ensures |ls| == |t.entries| + 1
  {
    assert |Parsed(ls).value| == |ls|;
  }

  /** A write on a sealed log. */
  lemma SealedWrite(h: HashFn, t: LogState, clean: bool, d: Draft, o: Outcome)
    requires LinesFit(h, t, true, clean) && WritesLine(o)
    ensures LinesFit(h, Appended(h, t, d, o), true, false)
  {
    var e := NextEntry(h, t.entries, d);
    ChainExtends(h, t.entries, d);
    OrdinaryStays(t.file, e, o);
    hide Chain, CleanLines, Parsed;
    var ls, ms := DiskLines(t.file), DiskLines(Persisted(t.file, e, o));
    if CutShort(t.file) {
      assert !ms[|ls| - 1].Record?;
    } else if clean {
      CleanLength(h, t, ls);
      assert ms[|ls|].Record? ==> ms[|ls|].entry.seqNo == |ls|;
    } else {
      var k :| 0 <= k < |ls| && !(ls[k].Record? && ls[k].entry.seqNo == k + 1);
      assert ms[k] == ls[k];
    }
  }

  lemma QuietAppend(h: HashFn, t: LogState, sealed: bool, clean: bool, d: Draft, o: Outcome)
    requires LinesFit(h, t, sealed, clean) && !WritesLine(o)
    ensures LinesFit(h, Appended(h, t, d, o), sealed, clean)
  {
    hide Chain;
  }

  lemma {:induction false} JunkMeansSome(ops: seq<(Draft, Outcome)>)
    ensures JunkCount(ops) > 0 <==> exists i | 0 <= i < |ops| :: LeavesJunk(ops[i].1)
  {
    if ops != [] {
      var n := |ops| - 1;
      JunkMeansSome(ops[..n]);
      assert forall i | 0 <= i < n :: ops[..n][i] == ops[i];
    }
  }

  /** How one more append changes whether a run ends clean. */
  lemma {:induction false} CleanStep(ops: seq<(Draft, Outcome)>)
    requires ops != []
    ensures var p, o := ops[..|ops| - 1], ops[|ops| - 1].1;
            && (JunkCount(ops) > 0 <==> JunkCount(p) > 0 || LeavesJunk(o))
            && (NothingWritten(ops, -1) <==> NothingWritten(p, -1) && !WritesLine(o))
            && (EndsClean(ops) <==> EndsClean(p) && !(JunkCount(p) > 0 && WritesLine(o)) && !Mangled(o))
  {
    var n := |ops| - 1;
    var p, o := ops[..n], ops[n].1;
    assert forall i | 0 <= i < n :: p[i] == ops[i];
    JunkMeansSome(p);
    forall i: int | i < n ensures NothingWritten(ops, i) <==> NothingWritten(p, i) && !WritesLine(o) {
      NothingWrittenStep(ops, i);
    }
    assert NothingWritten(ops, n);
    hide NothingWritten, WritesLine;
    assert EndsClean(ops) <==>
           && (forall i | 0 <= i < n && LeavesJunk(p[i].1) :: !Mangled(p[i].1) && NothingWritten(ops, i))
           && (LeavesJunk(o) ==> !Mangled(o));
  }

  /** After any run the lines are clean exactly if the run ends clean and continued no unfinished line. */
  lemma {:induction false} LinesOfRun(h: HashFn, s: LogState, ops: seq<(Draft, Outcome)>)
    requires Intact(h, s)
    ensures var cut := CutShort(s.file);
            LinesFit(h, Run(h, s, ops), cut || JunkCount(ops) > 0,
                     EndsClean(ops) && (cut ==> NothingWritten(ops, -1)))
  {
    if ops == [] {
      EmptyRunFits(h, s);
    } else {
      var n, cut := |ops| - 1, CutShort(s.file);
      var p, d, o := ops[..n], ops[n].0, ops[n].1;
      var t := Run(h, s, p);
      assert Run(h, s, ops) == Appended(h, t, d, o);
      CleanStep(ops);
      LinesOfRun(h, s, p);
      hide Run, Appended, JunkCount, EndsClean, NothingWritten, CleanLines, Misnumbered, Chain, CutShort;
      var sealed, clean := cut || JunkCount(p) > 0, EndsClean(p) && (cut ==> NothingWritten(p, -1));
      if !WritesLine(o) {
        QuietAppend(h, t, sealed, clean, d, o);
      } else if sealed {
        SealedWrite(h, t, clean, d, o);
      } else {
        CleanWrite(h, t, d, o);
      }
    }
  }

  lemma OpenedFile(f: File)
    requires !f.Unreadable?
    ensures Opened(f) == OpenedLines(DiskLines(f))
  {
  }

  lemma ValidIsNumbered(h: HashFn, mem: seq<Entry>, f: File, k: nat)
    requires Report(h, mem, f).valid && k < |DiskLines(f)|
    ensures DiskLines(f)[k].Record? && DiskLines(f)[k].entry.seqNo == k + 1
  {
    VerifyNeedsAllLines(h, mem, f);
    var disk := DiskCopy(mem, f).value;
    assert RecordLines(disk)[k] == Record(disk[k]);
    assert Agrees(h, mem, disk, k);
  }

  lemma MisnumberedIsInvalid(h: HashFn, mem: seq<Entry>, f: File)
    requires Misnumbered(DiskLines(f))
    ensures !Report(h, mem, f).valid
  {
    hide Report;
    var ls := DiskLines(f);
    var k :| 0 <= k < |ls| && !(ls[k].Record? && ls[k].entry.seqNo == k + 1);
    if Report(h, mem, f).valid {
      ValidIsNumbered(h, mem, f, k);
    }
  }

  /**
    Reopened after any run, the log opens and verifies exactly when nothing was written after a write
    that went bad, of a torn line only the newline is missing, and no write continued a line that was
    unfinished from the start.
   */
  lemma {:induction false} ReopenAfterRun(h: HashFn, s: LogState, ops: seq<(Draft, Outcome)>)
    requires Intact(h, s)
    ensures var f := Run(h, s, ops).file;
            Opened(f).Success? && Report(h, Opened(f).value, f).valid <==>
            EndsClean(ops) && (CutShort(s.file) ==> NothingWritten(ops, -1))
  {
    var f := Run(h, s, ops).file;
    var ls := DiskLines(f);
    LinesOfRun(h, s, ops);
    OpenedFile(f);
    hide Run, EndsClean, NothingWritten, JunkCount, OpenedLines, Intact, CutShort;
    if EndsClean(ops) && (CutShort(s.file) ==> NothingWritten(ops, -1)) {
      var es := Parsed(ls).value;
      OpenedRecordLines(es);
      if f.Missing? {
        assert es == [];
      } else {
        ChainVerifies(h, es, f.open);
        assert f == Lines(RecordLines(es), f.open);
      }
    } else if Opened(f).Success? {
      MisnumberedIsInvalid(h, Opened(f).value, f);
    }
  }

  // ---------------------------------------------------------------- when the log opens again

  /** The first line that is no record. */
  function FirstBad(ls: seq<Line>): (k: nat)
    ensures k <= |ls| && (forall i | 0 <= i < k :: ls[i].Record?) && (k < |ls| ==> !ls[k].Record?)
  {
    if ls == [] || !ls[0].Record? then 0 else 1 + FirstBad(ls[1..])
  }

  lemma {:induction false} OpensUnlessGarbled(ls: seq<Line>)
    requires Ordinary(ls)
    ensures OpenedLines(ls).Success? <==> FirstBad(ls) == |ls| || ls[FirstBad(ls)].NotUtf8?
  {
    if ls != [] {
      OpensUnlessGarbled(ls[1..]);
    }
  }

  /**
    What stands at the first line that is no record, if there is one: all records, finished or not; an
    unfinished line that does not parse; a finished one; or one that is not UTF-8, behind which
    nothing is read.
   */
  datatype Tail = Finished | Dangling | Ragged | Broken | Truncated

  function TailIn(f: File): Tail {
    var ls := DiskLines(f);
    var k := FirstBad(ls);
    if k == |ls| then if CutShort(f) then Dangling else Finished
    else if ls[k].NotUtf8? then Truncated
    else if k == |ls| - 1 && CutShort(f) then Ragged
    else Broken
  }

  /** How a write changes it. */
  function TailAfter(q: Tail, o: Outcome): Tail {
    if !WritesLine(o) then q
    else match q
      case Broken => Broken
      case Truncated => Truncated
      case Finished =>
        if !o.Torn? then Finished
        else (match o.cut case NoNewline => Dangling case InRecord => Ragged case InCharacter => Truncated)
      case _ =>
        if !o.Torn? then Broken
        else if o.cut.InCharacter? then Truncated
        else Ragged
  }

  function TailOfRun(q: Tail, ops: seq<(Draft, Outcome)>): Tail {
    if ops == [] then q else TailAfter(TailOfRun(q, ops[..|ops| - 1]), ops[|ops| - 1].1)
  }

  predicate Opens(q: Tail) {
    q.Finished? || q.Dangling? || q.Truncated?
  }

  lemma {:induction false} FirstBadIs(ls: seq<Line>, k: nat)
    requires k <= |ls| && (forall i | 0 <= i < k :: ls[i].Record?) && (k < |ls| ==> !ls[k].Record?)
    ensures FirstBad(ls) == k
  {
  }

  lemma TailStep(f: File, e: Entry, o: Outcome)
    requires !f.Unreadable? && Ordinary(DiskLines(f))
    ensures TailIn(Persisted(f, e, o)) == TailAfter(TailIn(f), o)
  {
    hide FirstBad;
    var ls, ms := DiskLines(f), DiskLines(Persisted(f, e, o));
    var k := FirstBad(ls);
    if !WritesLine(o) {
      assert ms == ls;
    } else if CutShort(f) {
      assert ms[|ls| - 1] == Continued(ls[|ls| - 1], Remnant(e, o));
      FirstBadIs(ms, if k == |ls| then |ls| - 1 else k);
    } else {
      assert ms[|ls|] == Remnant(e, o);
      FirstBadIs(ms, if k == |ls| && Remnant(e, o).Record? then |ls| + 1 else k);
    }
  }

  lemma {:induction false} TailOfRunFits(h: HashFn, s: LogState, ops: seq<(Draft, Outcome)>)
    requires Intact(h, s)
    ensures var f := Run(h, s, ops).file;
            !f.Unreadable? && Ordinary(DiskLines(f)) && TailIn(f) == TailOfRun(TailIn(s.file), ops)
  {
    if ops != [] {
      var n := |ops| - 1;
      var t := Run(h, s, ops[..n]);
      TailOfRunFits(h, s, ops[..n]);
      var e, o := NextEntry(h, t.entries, ops[n].0), ops[n].1;
      assert Run(h, s, ops).file == Persisted(t.file, e, o);
      hide Run, Persisted, TailIn, TailAfter, Ordinary;
      OrdinaryStays(t.file, e, o);
      TailStep(t.file, e, o);
    }
  }

  lemma IntactTail(h: HashFn, s: LogState)
    requires Intact(h, s)
    ensures TailIn(s.file) == if CutShort(s.file) then Dangling else Finished
  {
    FirstBadIs(DiskLines(s.file), |DiskLines(s.file)|);
  }

  /**
    The log opens again after a run exactly if, by its writes, no unfinished line was continued and
    none cut inside its record, or the first such line was cut inside a character.
   */
  lemma {:induction false} TornBlocksReopening(h: HashFn, s: LogState, ops: seq<(Draft, Outcome)>)
    requires Intact(h, s)
    ensures Opened(Run(h, s, ops).file).Success? <==>
            Opens(TailOfRun(if CutShort(s.file) then Dangling else Finished, ops))
  {
    IntactTail(h, s);
    TailOfRunFits(h, s, ops);
    hide Run, TailOfRun, OpenedLines;
    var f := Run(h, s, ops).file;
    OpenedFile(f);
    OpensUnlessGarbled(DiskLines(f));
  }

  /** Every torn write lacks only its newline and is the last write. */
  ghost predicate TornOnlyAtEnd(ops: seq<(Draft, Outcome)>) {
    forall i | 0 <= i < |ops| && ops[i].1.Torn? :: ops[i].1.cut.NoNewline? && NothingWritten(ops, i)
  }

  lemma {:induction false} TornOpsStep(ops: seq<(Draft, Outcome)>)
    requires ops != []
    ensures var p, o := ops[..|ops| - 1], ops[|ops| - 1].1;
            && (NoTorn(ops) <==> NoTorn(p) && !o.Torn?)
            && (NothingWritten(ops, -1) <==> NothingWritten(p, -1) && !WritesLine(o))
            && (TornOnlyAtEnd(ops) <==> TornOnlyAtEnd(p) && !(!NoTorn(p) && WritesLine(o)) && !Mangled(o))
  {
    var n := |ops| - 1;
    var p, o := ops[..n], ops[n].1;
    assert forall i | 0 <= i < n :: p[i] == ops[i];
    forall i: int | i < n ensures NothingWritten(ops, i) <==> NothingWritten(p, i) && !WritesLine(o) {
      NothingWrittenStep(ops, i);
    }
    assert NothingWritten(ops, n);
    hide NothingWritten, WritesLine;
    assert TornOnlyAtEnd(ops) <==>
           && (forall i | 0 <= i < n && p[i].1.Torn? :: p[i].1.cut.NoNewline? && NothingWritten(ops, i))
           && (o.Torn? ==> o.cut.NoNewline?);
  }

  /** If no write is cut inside a character: exactly if each torn one lacks only its newline and nothing follows it. */
  lemma {:induction false} WholeCharactersReopen(cut: bool, ops: seq<(Draft, Outcome)>)
    requires forall i | 0 <= i < |ops| && ops[i].1.Torn? :: !ops[i].1.cut.InCharacter?
    ensures var q := TailOfRun(if cut then Dangling else Finished, ops);
            && !q.Truncated?
            && (Opens(q) <==> TornOnlyAtEnd(ops) && (cut ==> NothingWritten(ops, -1)))
            && (q.Dangling? <==> Opens(q) && (cut || !NoTorn(ops)))
  {
    if ops != [] {
      var n := |ops| - 1;
      assert forall i | 0 <= i < n :: ops[..n][i] == ops[i];
      WholeCharactersReopen(cut, ops[..n]);
      TornOpsStep(ops);
      hide NothingWritten, TornOnlyAtEnd, NoTorn;
    }
  }

  lemma {:induction false} OpenedUpTo(es: seq<Entry>, ls: seq<Line>)
    requires |es| < |ls| && ls[|es|] == NotUtf8 && forall i | 0 <= i < |es| :: ls[i] == Record(es[i])
    ensures OpenedLines(ls) == Success(es)
  {
    if es != [] {
      assert ls[0] == Record(es[0]);
      OpenedUpTo(es[1..], ls[1..]);
      assert [es[0]] + es[1..] == es;
    }
  }

  /** Once lines are cut off by one that is not UTF-8, they stay so. */
  lemma {:induction false} CutOffStays(h: HashFn, s: LogState, es: seq<Entry>, ops: seq<(Draft, Outcome)>)
    requires !s.file.Unreadable? && RecordLines(es) + [NotUtf8] <= DiskLines(s.file)
    ensures var f := Run(h, s, ops).file;
            !f.Unreadable? && RecordLines(es) + [NotUtf8] <= DiskLines(f)
  {
    if ops != [] {
      var n := |ops| - 1;
      CutOffStays(h, s, es, ops[..n]);
      var t := Run(h, s, ops[..n]);
      var e, o := NextEntry(h, t.entries, ops[n].0), ops[n].1;
      assert Run(h, s, ops).file == Persisted(t.file, e, o);
      hide Run, RecordLines;
      var ls, ms := DiskLines(t.file), DiskLines(Persisted(t.file, e, o));
      assert ls[|es|] == NotUtf8;
      assert ms[..|es| + 1] == ls[..|es| + 1];
    }
  }

  /**
    After a write cut inside a character the log still opens, whatever is appended then, but only
    with what was there before: every later record, also of appends that reported success, is dropped.
   */
  lemma {:induction false} CutCharacterDropsTheRest(h: HashFn, s: LogState, d: Draft, ops: seq<(Draft, Outcome)>)
    requires Intact(h, s) && !CutShort(s.file)
    ensures Opened(Run(h, Appended(h, s, d, Torn(InCharacter)), ops).file) == Success(s.entries)
  {
    var u := Appended(h, s, d, Torn(InCharacter));
    assert DiskLines(u.file) == RecordLines(s.entries) + [NotUtf8];
    CutOffStays(h, u, s.entries, ops);
    var f := Run(h, u, ops).file;
    OpenedFile(f);
    assert forall i | 0 <= i < |s.entries| :: DiskLines(f)[i] == RecordLines(s.entries)[i];
    OpenedUpTo(s.entries, DiskLines(f));
  }

  lemma {:induction false} OneAppendReopens(h: HashFn, s: LogState, d: Draft)
    requires Intact(h, s)
    ensures Opened(Appended(h, s, d, Stored).file).Success? <==> !CutShort(s.file)
  {
    var ops, q := [(d, Stored)], if CutShort(s.file) then Dangling else Finished;
    assert ops[..0] == [];
    assert Run(h, s, ops) == Appended(h, s, d, Stored) by { assert Run(h, s, []) == s; }
    assert TailOfRun(q, ops) == TailAfter(q, Stored) by { assert TailOfRun(q, []) == q; }
    hide Run, TailOfRun, Appended, Intact, OpenedLines, CutShort;
    TornBlocksReopening(h, s, ops);
  }

  /**
    On a log opened with an unfinished last line the next append, though it reports success, glues its
    record to that line: the log then neither verifies nor opens.  On any other it does both.
   */
  lemma {:induction false} UnfinishedLineSwallowsNext(h: HashFn, s: LogState, d: Draft)
    requires Intact(h, s)
    ensures var u := Appended(h, s, d, Stored);
            && u.entries == s.entries + [NextEntry(h, s.entries, d)]
            && (Report(h, u.entries, u.file).valid <==> !CutShort(s.file))
            && (Opened(u.file).Success? <==> !CutShort(s.file))
  {
    hide Report, Appended, OpenedLines, Chain, RecordLines;
    IntactVerifies(h, s);
    StoredKeepsValid(h, s, d);
    OneAppendReopens(h, s, d);
  }

  /** Blank lines do not matter when the log is opened. */
  lemma {:induction false} BlankLinesAreSkipped(ls: seq<Line>, k: nat)
    requires k <= |ls|
    ensures OpenedLines(ls[..k] + [Blank] + ls[k..]) == OpenedLines(ls)
  {
    var ms := ls[..k] + [Blank] + ls[k..];
    if k == 0 {
      assert ms[1..] == ls;
      if OpenedLines(ls).Success? { assert [] + OpenedLines(ls).value == OpenedLines(ls).value; }
    } else {
      BlankLinesAreSkipped(ls[1..], k - 1);
      assert ms[0] == ls[0] && ms[1..] == ls[1..][..k - 1] + [Blank] + ls[1..][k - 1..];
    }
  }

  /** Opening fails exactly on a line that does not parse, with none before it that is not UTF-8. */
  lemma {:induction false} OpensExactly(ls: seq<Line>)
    ensures OpenedLines(ls).Success? <==>
            forall i | 0 <= i < |ls| && ls[i].Garbled? :: exists j :: 0 <= j < i && ls[j].NotUtf8?
  {
    if ls != [] {
      OpensExactly(ls[1..]);
      if OpenedLines(ls).Success? && !ls[0].NotUtf8? {
        forall i | 0 <= i < |ls| && ls[i].Garbled? ensures exists j :: 0 <= j < i && ls[j].NotUtf8? {
          var j :| 0 <= j < i - 1 && ls[1..][j].NotUtf8?;
          assert ls[j + 1].NotUtf8?;
        }
      }
      if OpenedLines(ls).Failure? && !ls[0].Garbled? {
        var i :| 0 <= i < |ls[1..]| && ls[1..][i].Garbled? && forall j | 0 <= j < i :: !ls[1..][j].NotUtf8?;
        assert ls[i + 1].Garbled?;
        forall j | 0 <= j < i + 1 ensures !ls[j].NotUtf8? {
          if j > 0 { assert !ls[1..][j - 1].NotUtf8?; }
        }
      }
    }
  }

  // ---------------------------------------------------------------- the log object

  /** The shared log; one lock is held over the whole of Append and the whole of Verify. */
  class AuditLog {
    var entries: seq<Entry>
    var file: File
    const hash: HashFn

    ghost function State(): LogState
      reads this
    {
      LogState(entries, file)
    }

    constructor Load(hash: HashFn, entries: seq<Entry>, file: File)
      ensures State() == LogState(entries, file) && this.hash == hash
    {
      this.hash, this.entries, this.file := hash, entries, file;
    }

    static method Open(hash: HashFn, file: File) returns (r: Result<AuditLog>)
      ensures r.Success? <==> Opened(file).Success?
      ensures r.Success? ==>
                fresh(r.value) && r.value.hash == hash && r.value.State() == LogState(Opened(file).value, file)
    {
      var read := Opened(file);
      if read.Failure? {
        return Failure;
      }
      var log := new AuditLog.Load(hash, read.value, file);
      return Success(log);
    }

    /** One write, which continues the last line if that lacks its newline. */
    method WriteLine(l: Line, open: bool)
      requires !file.Unreadable?
      modifies this`file
      ensures file == Written(old(file), l, open)
    {
      if CutShort(file) {
        var n := |file.lines| - 1;
        file := Lines(file.lines[..n] + [Continued(file.lines[n], l)], open);
      } else {
        file := Lines((if file.Lines? then file.lines else []) + [l], open);
      }
    }

    method Persist(entry: Entry, o: Outcome) returns (ok: bool)
      modifies this`file
      ensures ok <==> !old(file).Unreadable? && o.Stored?
      ensures file == Persisted(old(file), entry, o)
      ensures !old(file).Unreadable? && !CutShort(old(file)) ==>
                var ls := if old(file).Lines? then old(file.lines) else [];
                match o
                case Stored => file == Lines(ls + [Record(entry)], false)
                case WrittenNotSynced => file == Lines(ls + [Record(entry)], false)
                case Torn(NoNewline) => file == Lines(ls + [Record(entry)], true)
                case Torn(InRecord) => file == Lines(ls + [Garbled], true)
                case Torn(InCharacter) => file == Lines(ls + [NotUtf8], true)
                case NotWritten(created) =>
                  file == if old(file).Missing? && created then Lines([], false) else old(file)
    {
      if file.Unreadable? {
        return false;
      }
      match o
      case NotWritten(created) =>
        if file.Missing? && created {
          file := Lines([], false);
        }
        return false;
      case Torn(_) =>
        WriteLine(Remnant(entry, o), true);
        return false;
      case WrittenNotSynced =>
        WriteLine(Record(entry), false);
        return false;
      case Stored =>
        WriteLine(Record(entry), false);
        return true;
    }

    /** Writes the line first; memory advances only if the line was written and synced. */
    method Append(d: Draft, o: Outcome) returns (r: Result<Entry>)
      modifies this
      ensures State() == Appended(hash, old(State()), d, o)
      ensures r.Success? <==> o.Stored? && !old(file).Unreadable?
      ensures r.Success? ==>
                var e, n := r.value, |old(entries)|;
                && e == Entry(n + 1, d.timestamp, d.eventType, d.subjectId, d.payload, e.prevHash, e.hash)
                && e.prevHash == (if n == 0 then Zeros(64) else old(entries)[n - 1].hash)
                && e.hash == hash(e.prevHash + BigEndian(n + 1, 8)
                                  + d.timestamp + d.eventType + d.subjectId + d.payload)
                && entries == old(entries) + [e]
      ensures r.Failure? ==> entries == old(entries)
    {
      var prevHash := if |entries| > 0 then entries[|entries| - 1].hash else GENESIS_HASH;
      var entry := Entry(|entries| + 1, d.timestamp, d.eventType, d.subjectId, d.payload, prevHash, []);
      entry := entry.(hash := hash(Material(entry)));
      var written := Persist(entry, o);
      if !written {
        return Failure;
      }
      entries := entries + [entry];
      return Success(entry);
    }

    method Verify() returns (r: VerifyResponse)
      ensures r == Report(hash, entries, file)
    {
      var read := DiskCopy(entries, file);
      if read.Failure? {
        return VerifyResponse(false, 0, Some(1));
      }
      var disk := read.value;
      if |disk| != |entries| {
        var shorter := if |disk| < |entries| then |disk| else |entries|;
        return VerifyResponse(false, |disk|, Some(shorter + 1));
      }
      var expectedPrev := GENESIS_HASH;
      for index := 0 to |disk|
        invariant expectedPrev == HeadHash(disk[..index])
        invariant FirstBroken(hash, entries, disk, 0) == FirstBroken(hash, entries, disk, index)
      {
        var entry := disk[index];
        if || entry.seqNo != index + 1
           || entry.prevHash != expectedPrev
           || hash(Material(entry)) != entry.hash
           || entry.hash != entries[index].hash
        {
          return VerifyResponse(false, entry.seqNo, Some(entry.seqNo));
        }
        expectedPrev := entry.hash;
      }
      return VerifyResponse(true, |entries|, None);
    }
  }
}
