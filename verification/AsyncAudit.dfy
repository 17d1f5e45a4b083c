/**
  The in-process audit chain of dashboard-web/src/lib/audit.ts.

  appendAuditEntry reads the end of the list, awaits the hash and then pushes.  The await is an
  interleaving point, so an append is two atomic steps, Start and Finish, and a run is any
  sequence of such steps of any number of appends.  `ShowcaseLog` is the implementation,
  `Stepped` and `Report` are what it is proved against.
 */
module AsyncAudit {
  import opened Wrappers
  import opened Text

  /** sha256Hex: any function from strings to strings. */
  type HashFn = string -> string

  function Zeros(n: nat): (s: string)
    ensures |s| == n && forall i | 0 <= i < n :: s[i] == '0'
  {
    if n == 0 then [] else ['0'] + Zeros(n - 1)
  }

  const GENESIS_LENGTH: nat := 70
  const GENESIS_HASH: string := Zeros(GENESIS_LENGTH)

  /** The payload is its JSON text. */
  datatype Entry = Entry(
    seqNo: nat, timestamp: string, eventType: string, subjectId: string, payload: string,
    prevHash: string, hash: string)

  datatype Draft = Draft(timestamp: string, eventType: string, subjectId: string, payload: string)

  function Fields(e: Entry): string {
    Decimal(e.seqNo) + "|" + e.timestamp + "|" + e.eventType + "|" + e.subjectId + "|" + e.payload
  }

  /** The string that computeHash hashes. */
  function Material(e: Entry): string {
    e.prevHash + "|" + Fields(e)
  }

  function HeadHash(es: seq<Entry>): string {
    if es == [] then GENESIS_HASH else es[|es| - 1].hash
  }

  /** The test that verifyAuditChain applies to entry i; it does not look at the number. */
  predicate Linked(h: HashFn, es: seq<Entry>, i: nat)
    requires i < |es|
  {
    es[i].prevHash == HeadHash(es[..i]) && h(Material(es[i])) == es[i].hash
  }

  ghost predicate Chain(h: HashFn, es: seq<Entry>) {
    forall i: nat | i < |es| :: Linked(h, es, i)
  }

  /** 64 hexadecimal characters, in particular no '|'. */
  ghost predicate IsHexDigest(h: HashFn) {
    forall m :: |h(m)| == 64 && '|' !in h(m)
  }

  function Materials(es: seq<Entry>): set<string> {
    set i | 0 <= i < |es| :: Material(es[i])
  }

  ghost predicate CollisionFree(h: HashFn, ms: set<string>) {
    forall m, n | m in ms && n in ms && h(m) == h(n) :: m == n
  }

  // ---------------------------------------------------------------- verification

  datatype VerifyResult = VerifyResult(valid: bool, entriesChecked: nat, firstBrokenSeq: Option<nat>)

  function FirstBroken(h: HashFn, es: seq<Entry>, from: nat): (k: nat)
    requires from <= |es|
    ensures from <= k <= |es|
    ensures forall i | from <= i < k :: Linked(h, es, i)
    ensures k < |es| ==> !Linked(h, es, k)
    decreases |es| - from
  {
    if from == |es| || !Linked(h, es, from) then from else FirstBroken(h, es, from + 1)
  }

  function Report(h: HashFn, es: seq<Entry>): (r: VerifyResult)
    ensures r.valid <==> Chain(h, es)
    ensures r.valid ==> r.entriesChecked == |es| && r.firstBrokenSeq.None?
    ensures !r.valid ==> exists k: nat :: k < |es| && !Linked(h, es, k) && (forall i: nat | i < k :: Linked(h, es, i))
                                          && r.entriesChecked == es[k].seqNo && r.firstBrokenSeq == Some(es[k].seqNo)
  {
    var k := FirstBroken(h, es, 0);
    if k == |es| then VerifyResult(true, |es|, None)
    else VerifyResult(false, es[k].seqNo, Some(es[k].seqNo))
  }

  // ---------------------------------------------------------------- runs

  datatype Step = Start(id: nat, draft: Draft) | Finish(id: nat)

  /** The pushed entries, and what each append that is still waiting will push. */
  datatype State = State(entries: seq<Entry>, waiting: map<nat, Entry>)

  predicate Enabled(s: State, step: Step) {
    match step
    case Start(id, _) => id !in s.waiting
    case Finish(id) => id in s.waiting
  }

  function NextEntry(h: HashFn, es: seq<Entry>, d: Draft): Entry {
    var e := Entry(|es| + 1, d.timestamp, d.eventType, d.subjectId, d.payload, HeadHash(es), []);
    e.(hash := h(Material(e)))
  }

  function Stepped(h: HashFn, s: State, step: Step): State
    requires Enabled(s, step)
  {
    match step
    case Start(id, d) => s.(waiting := s.waiting[id := NextEntry(h, s.entries, d)])
    case Finish(id) => State(s.entries + [s.waiting[id]], s.waiting - {id})
  }

  /** Can the steps happen one after the other, and to what state do they lead? */
  function Run(h: HashFn, steps: seq<Step>): Option<State> {
    if steps == [] then Some(State([], map[]))
    else
      var n := |steps| - 1;
      match Run(h, steps[..n])
      case None => None
      case Some(s) => if Enabled(s, steps[n]) then Some(Stepped(h, s, steps[n])) else None
  }

  /** No append reads the log while an earlier one has yet to push. */
  ghost predicate OneAtATime(h: HashFn, steps: seq<Step>)
    requires Run(h, steps).Some?
  {
    steps == [] ||
    var n := |steps| - 1;
    OneAtATime(h, steps[..n]) && (steps[n].Start? ==> Run(h, steps[..n]).value.waiting == map[])
  }

  /** A waiting append holds the number and head hash of the list as it read it. */
  ghost predicate ReadSometime(h: HashFn, es: seq<Entry>, w: Entry) {
    && 1 <= w.seqNo <= |es| + 1
    && w.prevHash == HeadHash(es[..w.seqNo - 1])
    && w.hash == h(Material(w))
  }

  /** The list has grown since the append read it. */
  predicate Stale(es: seq<Entry>, w: Entry) {
    w.seqNo <= |es|
  }

  // ---------------------------------------------------------------- heads never repeat

  function BeforeBar(s: string): string {
    if s == [] || s[0] == '|' then [] else [s[0]] + BeforeBar(s[1..])
  }

  lemma {:induction false} BeforeBarIsPrefix(a: string, s: string)
    requires '|' !in a
    ensures BeforeBar(a + ("|" + s)) == a
  {
    if a == [] {
      assert a + ("|" + s) == "|" + s;
    } else {
      BeforeBarIsPrefix(a[1..], s);
      assert (a + ("|" + s))[1..] == a[1..] + ("|" + s);
    }
  }

  lemma MaterialStartsWithPrev(e: Entry)
    requires '|' !in e.prevHash
    ensures BeforeBar(Material(e)) == e.prevHash
  {
    hide Fields, BeforeBar;
    BeforeBarIsPrefix(e.prevHash, Fields(e));
    assert Material(e) == e.prevHash + ("|" + Fields(e));
  }

  lemma MaterialPinsPrev(e: Entry, f: Entry)
    requires '|' !in e.prevHash && '|' !in f.prevHash && Material(e) == Material(f)
    ensures e.prevHash == f.prevHash
  {
    hide Material, BeforeBar;
    MaterialStartsWithPrev(e);
    MaterialStartsWithPrev(f);
  }

  lemma HeadShape(h: HashFn, es: seq<Entry>, p: nat)
    requires IsHexDigest(h) && Chain(h, es) && p <= |es|
    ensures '|' !in HeadHash(es[..p])
    ensures |HeadHash(es[..p])| == if p == 0 then GENESIS_LENGTH else 64
  {
    if p > 0 { assert Linked(h, es, p - 1); }
  }

  lemma SameHashSamePrev(h: HashFn, es: seq<Entry>, i: nat, j: nat)
    requires IsHexDigest(h) && Chain(h, es) && CollisionFree(h, Materials(es))
    requires i < |es| && j < |es| && es[i].hash == es[j].hash
    ensures HeadHash(es[..i]) == HeadHash(es[..j])
  {
    assert Linked(h, es, i) && Linked(h, es, j);
    assert Material(es[i]) in Materials(es) && Material(es[j]) in Materials(es);
    HeadShape(h, es, i);
    HeadShape(h, es, j);
    MaterialPinsPrev(es[i], es[j]);
  }

  /** In a valid chain no two prefixes end in the same hash; the genesis value is longer than any digest. */
  lemma {:induction false} HeadsDiffer(h: HashFn, es: seq<Entry>, p: nat, q: nat)
    requires IsHexDigest(h) && Chain(h, es) && CollisionFree(h, Materials(es))
    requires p < q <= |es|
    ensures HeadHash(es[..p]) != HeadHash(es[..q])
  {
    if p == 0 {
      HeadShape(h, es, p);
      HeadShape(h, es, q);
    } else if HeadHash(es[..p]) == HeadHash(es[..q]) {
      SameHashSamePrev(h, es, p - 1, q - 1);
      HeadsDiffer(h, es, p - 1, q - 1);
    }
  }

  lemma ChainPush(h: HashFn, es: seq<Entry>, w: Entry)
    ensures Chain(h, es + [w]) <==> Chain(h, es) && w.prevHash == HeadHash(es) && w.hash == h(Material(w))
  {
    var fs := es + [w];
    forall i: nat | i < |es| ensures Linked(h, fs, i) <==> Linked(h, es, i) {
      assert fs[..i] == es[..i];
    }
    assert fs[..|es|] == es;
    assert Chain(h, fs) ==> Linked(h, fs, |es|);
    assert Chain(h, fs) ==> forall i: nat | i < |es| :: Linked(h, fs, i);
  }

  /** Pushing what a stale append read breaks the chain. */
  lemma StalePushBreaks(h: HashFn, es: seq<Entry>, w: Entry)
    requires IsHexDigest(h) && CollisionFree(h, Materials(es)) && ReadSometime(h, es, w)
    ensures Chain(h, es + [w]) <==> Chain(h, es) && !Stale(es, w)
  {
    ChainPush(h, es, w);
    assert es[..|es|] == es;
    if Chain(h, es) && Stale(es, w) {
      HeadsDiffer(h, es, w.seqNo - 1, |es|);
    }
  }

  // ---------------------------------------------------------------- the main theorem

  ghost predicate AllReads(h: HashFn, s: State) {
    forall id | id in s.waiting :: ReadSometime(h, s.entries, s.waiting[id])
  }

  lemma ReadLasts(h: HashFn, es: seq<Entry>, e: Entry, w: Entry)
    requires ReadSometime(h, es, w)
    ensures ReadSometime(h, es + [e], w)
  {
    assert (es + [e])[..w.seqNo - 1] == es[..w.seqNo - 1];
  }

  lemma ReadNow(h: HashFn, es: seq<Entry>, d: Draft)
    ensures ReadSometime(h, es, NextEntry(h, es, d))
  {
    var e := NextEntry(h, es, d);
    assert es[..|es|] == es;
    assert Material(e) == Material(e.(hash := []));
  }

  lemma AllReadsStep(h: HashFn, s: State, step: Step)
    requires AllReads(h, s) && Enabled(s, step)
    ensures AllReads(h, Stepped(h, s, step))
  {
    match step
    case Start(_, d) =>
      ReadNow(h, s.entries, d);
    case Finish(id) =>
      forall j | j in s.waiting ensures ReadSometime(h, s.entries + [s.waiting[id]], s.waiting[j]) {
        ReadLasts(h, s.entries, s.waiting[id], s.waiting[j]);
      }
  }

  /** A break of the chain has happened or cannot be avoided any more. */
  ghost predicate Doomed(h: HashFn, s: State) {
    || !Chain(h, s.entries)
    || (exists id :: id in s.waiting && Stale(s.entries, s.waiting[id]))
    || (exists i, j :: i in s.waiting && j in s.waiting && i != j)
  }

  lemma DoomStep(h: HashFn, s: State, step: Step)
    requires IsHexDigest(h) && AllReads(h, s) && Enabled(s, step)
    requires CollisionFree(h, Materials(s.entries))
    ensures Doomed(h, Stepped(h, s, step)) <==> Doomed(h, s) || (step.Start? && s.waiting != map[])
  {
    hide Chain, CollisionFree, Materials, IsHexDigest;
    var t := Stepped(h, s, step);
    match step
    case Start(id, d) =>
      assert t.waiting[id].seqNo == |s.entries| + 1;
      assert forall j | j in s.waiting :: j in t.waiting && t.waiting[j] == s.waiting[j] && j != id;
      if s.waiting != map[] {
        var j :| j in s.waiting;
        assert j in t.waiting && id in t.waiting && j != id;
      }
    case Finish(id) =>
      var w := s.waiting[id];
      assert ReadSometime(h, s.entries, w);
      StalePushBreaks(h, s.entries, w);
      assert forall j | j in t.waiting :: j in s.waiting && t.waiting[j] == s.waiting[j] && j != id;
      forall j | j in s.waiting && j != id ensures j in t.waiting && Stale(t.entries, t.waiting[j]) {
        assert ReadSometime(h, s.entries, s.waiting[j]);
      }
  }

  lemma {:induction false} DoomedUnlessSerial(h: HashFn, steps: seq<Step>)
    requires IsHexDigest(h) && Run(h, steps).Some?
    requires CollisionFree(h, Materials(Run(h, steps).value.entries))
    ensures AllReads(h, Run(h, steps).value)
    ensures Doomed(h, Run(h, steps).value) <==> !OneAtATime(h, steps)
  {
    if steps != [] {
      var n := |steps| - 1;
      var s, t := Run(h, steps[..n]).value, Run(h, steps).value;
      assert Materials(s.entries) <= Materials(t.entries) by {
        assert forall i | 0 <= i < |s.entries| :: s.entries[i] == t.entries[i];
      }
      DoomedUnlessSerial(h, steps[..n]);
      AllReadsStep(h, s, steps[n]);
      DoomStep(h, s, steps[n]);
    }
  }

  /**
    Once every append has finished, verifyAuditChain accepts exactly when no append read the log
    before an earlier one had pushed.
   */
  lemma {:induction false} ValidIffOneAtATime(h: HashFn, steps: seq<Step>)
    requires IsHexDigest(h) && Run(h, steps).Some? && Run(h, steps).value.waiting == map[]
    requires CollisionFree(h, Materials(Run(h, steps).value.entries))
    ensures Report(h, Run(h, steps).value.entries).valid <==> OneAtATime(h, steps)
  {
    DoomedUnlessSerial(h, steps);
  }

  /** Two appends that both read the empty log: the run is possible and its log is rejected. */
  lemma OverlapExample(h: HashFn, d: Draft, e: Draft)
    requires IsHexDigest(h)
    ensures var r := Run(h, [Start(0, d), Start(1, e), Finish(0), Finish(1)]);
            r.Some? && r.value.waiting == map[] &&
            Report(h, r.value.entries).firstBrokenSeq == Some(1) && |r.value.entries| == 2
  {
    var steps := [Start(0, d), Start(1, e), Finish(0), Finish(1)];
    assert steps[..3] == [Start(0, d), Start(1, e), Finish(0)];
    assert steps[..3][..2] == [Start(0, d), Start(1, e)];
    assert steps[..3][..2][..1] == [Start(0, d)];
    assert steps[..3][..2][..1][..0] == [];
    var w, x := NextEntry(h, [], d), NextEntry(h, [], e);
    assert Run(h, [Start(0, d)]) == Some(State([], map[0 := w]));
    assert Run(h, [Start(0, d), Start(1, e)]) == Some(State([], map[0 := w, 1 := x]));
    assert Run(h, [Start(0, d), Start(1, e), Finish(0)]).value.entries == [w];
    var es := Run(h, steps).value.entries;
    assert es == [w, x];
    assert es[..0] == [] && es[..1] == [w];
    assert |w.hash| == 64 && |x.prevHash| == GENESIS_LENGTH;
    assert Material(w) == Material(w.(hash := []));
    assert Linked(h, es, 0) && !Linked(h, es, 1);
  }

  // ---------------------------------------------------------------- what verification detects

  /** The entries differ in one field and no other. */
  predicate OneFieldChanged(e: Entry, d: Entry) {
    && d != e
    && (|| d == e.(seqNo := d.seqNo) || d == e.(timestamp := d.timestamp) || d == e.(eventType := d.eventType)
        || d == e.(subjectId := d.subjectId) || d == e.(payload := d.payload)
        || d == e.(prevHash := d.prevHash) || d == e.(hash := d.hash))
  }

  /** The parts of the hashed text. */
  function Parts(e: Entry): seq<string> {
    [e.prevHash, Decimal(e.seqNo), e.timestamp, e.eventType, e.subjectId, e.payload]
  }

  lemma MaterialIsJoined(e: Entry)
    ensures Material(e) == Join(Parts(e), "|")
  {
    JoinSix(e.prevHash, Decimal(e.seqNo), e.timestamp, e.eventType, e.subjectId, e.payload, "|");
    hide Join, Decimal;
  }

  lemma ChangedMaterial(e: Entry, d: Entry)
    requires OneFieldChanged(e, d) && d.hash == e.hash && d.prevHash == e.prevHash
    ensures Material(d) != Material(e)
  {
    MaterialIsJoined(e);
    MaterialIsJoined(d);
    DecimalReadsBack(e.seqNo);
    DecimalReadsBack(d.seqNo);
    hide Join, Decimal, Numeral, Material;
    var k := if d.seqNo != e.seqNo then 1 else if d.timestamp != e.timestamp then 2
             else if d.eventType != e.eventType then 3 else if d.subjectId != e.subjectId then 4 else 5;
    assert Parts(d) == Parts(e)[k := Parts(d)[k]];
    if Material(d) == Material(e) {
      JoinTellsOneField(Parts(e), k, Parts(d)[k], "|");
    }
  }

  /**
    If any one field of any one entry of a chain is changed, its number included, and the old and the new
    entry's hashed texts do not collide, verifyAuditChain rejects the list and names that entry.
   */
  lemma ChangedFieldIsDetected(h: HashFn, es: seq<Entry>, i: nat, d: Entry)
    requires Chain(h, es) && i < |es| && OneFieldChanged(es[i], d)
    requires CollisionFree(h, {Material(es[i]), Material(d)})
    ensures Report(h, es[i := d]) == VerifyResult(false, d.seqNo, Some(d.seqNo))
  {
    var fs := es[i := d];
    forall j: nat | j < i ensures Linked(h, fs, j) {
      assert Linked(h, es, j) && fs[..j] == es[..j];
    }
    assert !Linked(h, fs, i) by {
      assert Linked(h, es, i) && fs[..i] == es[..i];
      hide Material, Chain;
      if d.prevHash == es[i].prevHash && d.hash == es[i].hash {
        ChangedMaterial(es[i], d);
      }
    }
    hide Linked, Material, Chain, OneFieldChanged;
    var k := FirstBroken(h, fs, 0);
    assert k == i;
  }

  // ---------------------------------------------------------------- the log object

  /** The module-level list, with the appends that wait for their hash. */
  class ShowcaseLog {
    var entries: seq<Entry>
    var waiting: map<nat, Entry>
    const hash: HashFn

    ghost function Now(): State
      reads this
    {
      State(entries, waiting)
    }

    constructor (hash: HashFn)
      ensures Now() == State([], map[]) && this.hash == hash
    {
      this.hash, entries, waiting := hash, [], map[];
    }

    /** appendAuditEntry up to its await. */
    method BeginAppend(id: nat, d: Draft)
      requires id !in waiting
      modifies this
      ensures Now() == Stepped(hash, old(Now()), Start(id, d))
      ensures entries == old(entries) && waiting == old(waiting)[id := waiting[id]]
      ensures var e, n := waiting[id], |entries|;
              && e == Entry(n + 1, d.timestamp, d.eventType, d.subjectId, d.payload, e.prevHash, e.hash)
              && e.prevHash == (if n == 0 then Zeros(70) else entries[n - 1].hash)
              && e.hash == hash(e.prevHash + "|" + (Decimal(n + 1) + "|" + d.timestamp + "|" + d.eventType + "|"
                                                    + d.subjectId + "|" + d.payload))
    {
      var prevHash := if |entries| > 0 then entries[|entries| - 1].hash else GENESIS_HASH;
      var entry := Entry(|entries| + 1, d.timestamp, d.eventType, d.subjectId, d.payload, prevHash, []);
      waiting := waiting[id := entry.(hash := hash(Material(entry)))];
    }

    /** appendAuditEntry from its await on. */
    method CompleteAppend(id: nat) returns (entry: Entry)
      requires id in waiting
      modifies this
      ensures Now() == Stepped(hash, old(Now()), Finish(id)) && entry == old(waiting[id])
      ensures entries == old(entries) + [entry] && waiting == old(waiting) - {id}
    {
      entry := waiting[id];
      entries, waiting := entries + [entry], waiting - {id};
    }

    method VerifyAuditChain() returns (r: VerifyResult)
      ensures r == Report(hash, entries)
    {
      var expectedPrev := GENESIS_HASH;
      for index := 0 to |entries|
        invariant expectedPrev == HeadHash(entries[..index])
        invariant FirstBroken(hash, entries, 0) == FirstBroken(hash, entries, index)
      {
        var entry := entries[index];
        if entry.prevHash != expectedPrev || hash(Material(entry)) != entry.hash {
          return VerifyResult(false, entry.seqNo, Some(entry.seqNo));
        }
        expectedPrev := entry.hash;
      }
      return VerifyResult(true, |entries|, None);
    }
  }
}
