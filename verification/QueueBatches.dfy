/** Where the commands of one `addBatch` go in a run: to one connection at most, in their order and behind
    one another (packages/client/lib/client/commands-queue.ts:522-560, 811-856, 898-922). */
module QueueBatches {
  import opened Collections
  import opened QueueSpec
  import opened QueueBlocks
  import opened QueueRuns
  import opened QueueGuarantees

  // What went over every connection, the current one last.
  function Connections(s: System): seq<seq<Command>> { s.past + [s.wire] }

  // ---------------------------------------------------------------- a command is written once

  ghost predicate WrittenOnce(s: System) {
    && (forall w <- Connections(s) :: Distinct(Ids(w)))
    && (forall k, l :: 0 <= k < l < |Connections(s)| ==> Apart(Connections(s)[k], Connections(s)[l]))
  }

  // No id is in both.
  ghost predicate Apart(v: seq<Command>, w: seq<Command>) { forall c <- v, d <- w :: c.id != d.id }

  // A command that waits to be written was not written before.
  lemma QueuedIsUnwritten(s: System)
    requires Inv(s) && s.q.toWrite != []
    ensures forall w <- Connections(s), c <- w :: c.id != s.q.toWrite[0].id
  {
    QueuedIsElsewhereNot(s.q, s.out, s.admitted, 0);
    forall w <- Connections(s), c <- w ensures Answerable(s.q, c.id) {}
  }

  lemma AppendIsOnce(conns: seq<seq<Command>>, past: seq<seq<Command>>, wire: seq<Command>, c: Command)
    requires conns == past + [wire] && (forall w <- conns :: Distinct(Ids(w)))
    requires forall k, l :: 0 <= k < l < |conns| ==> Apart(conns[k], conns[l])
    requires forall w <- conns, d <- w :: d.id != c.id
    ensures var conns' := past + [wire + [c]];
            && (forall w <- conns' :: Distinct(Ids(w)))
            && (forall k, l :: 0 <= k < l < |conns'| ==> Apart(conns'[k], conns'[l]))
  {
    var conns' := past + [wire + [c]];
    forall i | 0 <= i < |wire| ensures Ids(wire + [c])[i] == Ids(wire)[i] && Ids(wire)[i] != c.id {
      assert wire[i] in wire && wire in conns;
    }
    assert Distinct(Ids(wire)) by { assert wire in conns; }
    forall w <- conns' ensures Distinct(Ids(w)) {
      if w in past { assert w in conns; }
    }
    forall k, l | 0 <= k < l < |conns'| ensures Apart(conns'[k], conns'[l]) {
      assert conns'[k] == conns[k] && conns[k] in conns;
      assert Apart(conns[k], conns[l]);
    }
  }

  lemma StepWritesOnce(s: System, op: Op)
    requires Inv(s) && InPlace(s.wire, s.q) && WrittenOnce(s)
    ensures WrittenOnce(Step(s, op))
  {
    hide Inv, InPlace, Apart, Ids, Mains;
    var s' := Step(s, op);
    if op == WriteNext && s.q.toWrite != [] {
      WriteInPlace(s.wire, s.q);
      QueuedIsUnwritten(s);
      AppendIsOnce(Connections(s), s.past, s.wire, s.q.toWrite[0]);
    } else if op == Lose || op == Flush {
      NewConnectionIsOnce(Connections(s));
      assert Connections(s') == Connections(s) + [[]];
    } else {
      if op == WriteNext { WriteInPlace(s.wire, s.q); }
      assert Connections(s') == Connections(s);
    }
  }

  lemma NewConnectionIsOnce(conns: seq<seq<Command>>)
    requires (forall w <- conns :: Distinct(Ids(w)))
    requires forall k, l :: 0 <= k < l < |conns| ==> Apart(conns[k], conns[l])
    ensures forall w <- conns + [[]] :: Distinct(Ids(w))
    ensures forall k, l :: 0 <= k < l < |conns + [[]]| ==> Apart((conns + [[]])[k], (conns + [[]])[l])
  {
    var conns' := conns + [[]];
    forall k, l | 0 <= k < l < |conns'| ensures Apart(conns'[k], conns'[l]) {
      if l < |conns| { assert Apart(conns[k], conns[l]); }
    }
  }

  // ---------------------------------------------------------------- the commands of one batch

  /** `c` is the command that `addBatch` made of one of these ids. */
  predicate IsOf(ids: seq<nat>, c: Command) {
    c.batch && |ids| > 0 && c.head == ids[0] && c.size == |ids| && c.index < |ids| && c.id == ids[c.index]
  }

  // Whatever has one of the ids, or the head, of the batch is of the batch.
  ghost predicate Proper(ids: seq<nat>, s: seq<Command>) {
    forall c <- s :: c.id in ids || (|ids| > 0 && c.head == ids[0]) ==> IsOf(ids, c)
  }

  /** Commands that come back from another client come back as they were. */
  ghost predicate Genuine(ids: seq<nat>, op: Op) { op.Arrive? ==> Proper(ids, op.cs) }

  ghost predicate Tracked(ids: seq<nat>, s: System) {
    && (forall id <- ids :: id in s.admitted)
    && Proper(ids, s.q.toWrite) && forall w <- Connections(s) :: Proper(ids, w)
  }

  // What a step queues.
  function Entering(q: Queue, op: Op): seq<Command> {
    match op
    case Add(c, _, _, _) => [c]
    case Subscribe(c, _) => [c]
    case AddMany(b, _) => Block(b, AdmittedCount(q, b), AdmittedCount(q, b))
    case Arrive(cs, _) => cs
    case _ => []
  }

  lemma PrependOneQueues(q: Queue, c: Command, fired: set<Listener>)
    ensures forall d <- PrependOne(q, c, fired).toWrite :: d in q.toWrite || d == c
  {
    hide Settle, Ids, Deafen, MemberRun, ChainRun;
    var k := FrontIndex(q);
    forall d <- InsertAt(q.toWrite, k, c) ensures d in q.toWrite || d == c {}
  }

  lemma {:induction false} PrependQueues(q: Queue, cs: seq<Command>, fired: set<Listener>)
    ensures forall d <- Prepend(q, cs, fired).toWrite :: d in q.toWrite || d in cs
    decreases |cs|
  {
    hide PrependOne;
    if cs != [] {
      PrependQueues(q, cs[1..], fired);
      PrependOneQueues(Prepend(q, cs[1..], fired), cs[0], fired);
    }
  }

  lemma StepQueues(s: System, op: Op)
    requires InPlace(s.wire, s.q)
    ensures forall c <- Step(s, op).q.toWrite :: c in s.q.toWrite || c in Entering(s.q, op)
  {
    hide Ids, Mains, Settle, Deafen, Write, Prepend, InPlace, MemberRun, ChainRun, Block;
    match op
    case WriteNext => WriteInPlace(s.wire, s.q);
    case ExtractSlots(slots) =>
      var n := Reach(s.q.toWrite, slots, s.q.chainInExecution);
      SelectSubset(s.q.toWrite[..n], slots, false);
    case Arrive(cs, fired) => PrependQueues(s.q, cs, fired);
    case _ =>
  }

  // New commands have new ids, and so have their heads.
  lemma EnteringIsProper(ids: seq<nat>, s: System, op: Op)
    requires (forall id <- ids :: id in s.admitted) && Legal(s, op) && Genuine(ids, op)
    ensures Proper(ids, Entering(s.q, op))
  {
    hide Whole, Ids;
    match op
    case AddMany(b, _) =>
      var n := AdmittedCount(s.q, b);
      forall c <- Block(b, n, n) ensures c.id !in ids && (|ids| > 0 ==> c.head != ids[0]) {
        assert c.id in b.ids && c.head in b.ids;
      }
    case _ =>
  }

  lemma StepTracks(ids: seq<nat>, s: System, op: Op)
    requires InPlace(s.wire, s.q) && Legal(s, op) && Genuine(ids, op) && Tracked(ids, s)
    ensures Tracked(ids, Step(s, op))
  {
    StepQueues(s, op);
    EnteringIsProper(ids, s, op);
    WriteInPlace(s.wire, s.q);
    hide InPlace, IsOf, Legal, Entering, Prepend, Write, Fire, AddBatch, Extract, Ids, Mains, Settle;
    var s' := Step(s, op);
    assert s.admitted <= s'.admitted;
    assert Proper(ids, s'.q.toWrite);
    forall w <- Connections(s') ensures Proper(ids, w) {
      if w !in Connections(s) {
        assert s.wire in Connections(s);
        assert w == [] || w == s.wire + [s.q.toWrite[0]];
      }
    }
  }

  // ---------------------------------------------------------------- where the batch starts

  // In what a connection carried, a command has the start of its batch `index` places in front of it.
  lemma {:induction false} StartBefore(w: seq<Command>, i: nat)
    requires Unsplit(w) && i < |w|
    ensures w[i].index <= i && w[i - w[i].index].index == 0 && w[i - w[i].index].head == w[i].head
    ensures w[i - w[i].index].id == w[i].head
    decreases i
  {
    assert NotSplitAt(w, i);
    if w[i].index > 0 { StartBefore(w, i - 1); }
  }

  // From its start on, the batch goes on to its end or to that of the connection.
  lemma {:induction false} GoesOn(w: seq<Command>, h: nat, i: nat)
    requires Unsplit(w) && h <= i < |w| && w[h].index == 0 && i - h < w[h].size
    ensures w[i].index == i - h && w[i].head == w[h].head && w[i].size == w[h].size
    decreases i
  {
    if i > h {
      GoesOn(w, h, i - 1);
      assert NotSplitAt(w, i - 1);
    }
  }

  lemma HeadsAreAdmitted(s: System)
    requires Inv(s) && Blocks(s)
    ensures forall c <- s.q.toWrite :: c.head in s.admitted && c.id in s.admitted
    ensures forall w <- Connections(s), c <- w :: c.head in s.admitted && c.id in s.admitted
  {
    forall w <- Connections(s), c <- w ensures c.head in s.admitted && c.id in s.admitted {
      assert Unsplit(w) by { InPlaceWire(s.wire, s.q); }
      var i :| 0 <= i < |w| && w[i] == c;
      StartBefore(w, i);
      WrittenIsAdmitted(s, w, w[i - w[i].index]);
      WrittenIsAdmitted(s, w, c);
    }
    var all := s.wire + s.q.toWrite;
    assert Whole(all);
    assert all + [] == all;
    WireIsUnsplit(all, []);
    forall c <- s.q.toWrite ensures c.head in s.admitted && c.id in s.admitted {
      var j :| 0 <= j < |s.q.toWrite| && s.q.toWrite[j] == c;
      assert all[|s.wire| + j] == c;
      StartBefore(all, |s.wire| + j);
      var first := all[|s.wire| + j - c.index];
      QueuedIsAdmitted(s, c);
      if first in s.wire { WrittenIsAdmitted(s, s.wire, first); } else { QueuedIsAdmitted(s, first); }
    }
  }

  lemma QueuedIsAdmitted(s: System, c: Command)
    requires Inv(s) && c in s.q.toWrite
    ensures c.id in s.admitted
  {
    InIds(s.q.toWrite);
    assert c.id in Places(s.q, s.out);
  }

  lemma WrittenIsAdmitted(s: System, w: seq<Command>, c: Command)
    requires Inv(s) && w in Connections(s) && c in w
    ensures c.id in s.admitted
  {
    assert Answerable(s.q, c.id);
    assert c.id in Places(s.q, s.out);
  }

  // ---------------------------------------------------------------- one batch over a whole run

  // The ids that `addBatch` admits.
  function AdmittedIds(s: System, b: Batch): seq<nat> { b.ids[..AdmittedCount(s.q, b)] }

  lemma BlockIsProper(b: Batch, n: nat, queuedBefore: seq<Command>, queued: seq<Command>, admitted: set<nat>)
    requires n <= |b.ids| && forall id <- b.ids :: id !in admitted
    requires forall c <- queuedBefore :: c.head in admitted && c.id in admitted
    requires forall c <- queued :: c in queuedBefore || c in Block(b, n, n)
    ensures Proper(b.ids[..n], queued)
  {
    var ids := b.ids[..n];
    assert forall id <- ids :: id in b.ids && id !in admitted;
    assert n > 0 ==> ids[0] == b.ids[0] && ids[0] in ids;
    forall c <- queued | c.id in ids || (|ids| > 0 && c.head == ids[0]) ensures IsOf(ids, c) {
      assert c in Block(b, n, n);
    }
  }

  lemma AddedIsTracked(s: System, b: Batch, armFails: bool)
    requires Inv(s) && Blocks(s) && Legal(s, AddMany(b, armFails))
    ensures Tracked(AdmittedIds(s, b), Step(s, AddMany(b, armFails)))
  {
    HeadsAreAdmitted(s);
    StepQueues(s, AddMany(b, armFails));
    hide Inv, Blocks, InPlace, AddBatch, Block, Proper;
    var n, s' := AdmittedCount(s.q, b), Step(s, AddMany(b, armFails));
    BlockIsProper(b, n, s.q.toWrite, s'.q.toWrite, s.admitted);
    forall w <- Connections(s') ensures Proper(b.ids[..n], w) {
      assert w in Connections(s);
      BlockIsProper(b, n, w, w, s.admitted);
    }
  }

  ghost predicate AllGenuine(ids: seq<nat>, ops: seq<Op>) { forall i :: 0 <= i < |ops| ==> Genuine(ids, ops[i]) }

  lemma {:induction false} RunTracks(ids: seq<nat>, s: System, ops: seq<Op>)
    requires Inv(s) && Blocks(s) && WrittenOnce(s) && Tracked(ids, s)
    requires LegalRun(s, ops) && AllGenuine(ids, ops) && forall i :: 0 <= i < |ops| ==> Encodable(ops[i])
    ensures Blocks(Run(s, ops)) && WrittenOnce(Run(s, ops)) && Tracked(ids, Run(s, ops))
    decreases |ops|
  {
    if ops != [] {
      StepKeepsInv(s, ops[0]);
      StepKeepsBlocks(s, ops[0]);
      StepWritesOnce(s, ops[0]);
      StepTracks(ids, s, ops[0]);
      hide Inv, Blocks, WrittenOnce, Tracked, Step, Legal, Genuine;
      RunTracks(ids, Step(s, ops[0]), ops[1..]);
    }
  }

  lemma {:induction false} RunWritesOnce(s: System, ops: seq<Op>)
    requires Inv(s) && Blocks(s) && WrittenOnce(s)
    requires LegalRun(s, ops) && forall i :: 0 <= i < |ops| ==> Encodable(ops[i])
    ensures Inv(Run(s, ops)) && Blocks(Run(s, ops)) && WrittenOnce(Run(s, ops))
    decreases |ops|
  {
    if ops != [] {
      StepKeepsInv(s, ops[0]);
      StepKeepsBlocks(s, ops[0]);
      StepWritesOnce(s, ops[0]);
      hide Inv, Blocks, WrittenOnce, Step, Legal;
      RunWritesOnce(Step(s, ops[0]), ops[1..]);
    }
  }

  ghost predicate Carries(w: seq<Command>, ids: seq<nat>) { exists c <- w :: c.id in ids }

  /** The connection carried the first `m` of the ids, in order and behind one another, and no other of
      them; it carried fewer than all only if it carried nothing after them. */
  ghost predicate CarriesAt(w: seq<Command>, ids: seq<nat>, p: nat, m: nat) {
    && 0 < m <= |ids| && p + m <= |w| && Ids(w[p..p + m]) == ids[..m]
    && (m < |ids| ==> p + m == |w|)
    && forall i :: 0 <= i < |w| && !(p <= i < p + m) ==> w[i].id !in ids
  }

  lemma SameId(w: seq<Command>, i: nat, j: nat)
    requires Distinct(Ids(w)) && i < |w| && j < |w| && w[i].id == w[j].id
    ensures i == j
  {
    assert Ids(w)[i] == Ids(w)[j];
  }

  lemma CarriedInOnePiece(ids: seq<nat>, w: seq<Command>)
    requires Unsplit(w) && Distinct(Ids(w)) && Proper(ids, w) && Carries(w, ids)
    ensures exists p, m :: CarriesAt(w, ids, p, m)
  {
    var c :| c in w && c.id in ids;
    var i :| 0 <= i < |w| && w[i] == c;
    StartBefore(w, i);
    var p := i - w[i].index;
    StartIsOf(ids, w, i);
    var m := if p + |ids| <= |w| then |ids| else |w| - p;
    forall j | p <= j < p + m ensures w[j].id == ids[j - p] {
      GoesOn(w, p, j);
      assert w[j] in w;
    }
    forall j | 0 <= j < |w| && w[j].id in ids ensures p <= j < p + m {
      StartBefore(w, j);
      StartIsOf(ids, w, j);
      SameId(w, p, j - w[j].index);
    }
    assert CarriesAt(w, ids, p, m);
  }

  lemma StartIsOf(ids: seq<nat>, w: seq<Command>, i: nat)
    requires Unsplit(w) && Proper(ids, w) && i < |w| && w[i].id in ids
    requires w[i].index <= i && w[i - w[i].index].head == w[i].head && w[i - w[i].index].index == 0
    ensures w[i].index < |ids| && w[i - w[i].index].id == ids[0] && w[i - w[i].index].size == |ids|
  {
    assert w[i] in w && w[i - w[i].index] in w;
  }

  // Connections that both carry some of the batch both carry its start.
  lemma CarriedByBoth(ids: seq<nat>, v: seq<Command>, w: seq<Command>)
    requires Unsplit(v) && Proper(ids, v) && Carries(v, ids)
    requires Unsplit(w) && Proper(ids, w) && Carries(w, ids)
    ensures !Apart(v, w)
  {
    StartCarried(ids, v);
    StartCarried(ids, w);
    var c :| c in v && c.id == ids[0];
    var d :| d in w && d.id == ids[0];
  }

  lemma CarriedOnce(ids: seq<nat>, s: System, k: nat, l: nat)
    requires k < l < |Connections(s)| && WrittenOnce(s) && Tracked(ids, s)
    requires Unsplit(Connections(s)[k]) && Unsplit(Connections(s)[l])
    ensures !(Carries(Connections(s)[k], ids) && Carries(Connections(s)[l], ids))
  {
    var v, w := Connections(s)[k], Connections(s)[l];
    assert Apart(v, w);
    if Carries(v, ids) && Carries(w, ids) { CarriedByBoth(ids, v, w); }
  }

  lemma StartCarried(ids: seq<nat>, w: seq<Command>)
    requires Unsplit(w) && Proper(ids, w) && Carries(w, ids)
    ensures |ids| > 0 && exists c <- w :: c.id == ids[0]
  {
    var c :| c in w && c.id in ids;
    var i :| 0 <= i < |w| && w[i] == c;
    StartBefore(w, i);
    StartIsOf(ids, w, i);
    assert w[i - w[i].index] in w;
  }

  /** In every run with encodable arguments, whatever comes before and after it, the commands that one
      `addBatch` admits reach at most one connection, the first ones of them in order and behind one another,
      and all of them unless the connection carried nothing after them. */
  lemma BatchReachesOneConnection(maxLength: nat, before: seq<Op>, b: Batch, armFails: bool, after: seq<Op>)
    requires LegalRun(Init(maxLength), before + [AddMany(b, armFails)] + after)
    requires forall i :: 0 <= i < |before| ==> Encodable(before[i])
    requires b.unencodable == {} && forall i :: 0 <= i < |after| ==> Encodable(after[i])
    requires AllGenuine(AdmittedIds(Run(Init(maxLength), before), b), after)
    ensures var ids := AdmittedIds(Run(Init(maxLength), before), b);
            var conns := Connections(Run(Init(maxLength), before + [AddMany(b, armFails)] + after));
            && (forall w <- conns :: Carries(w, ids) ==> exists p, m :: CarriesAt(w, ids, p, m))
            && forall k, l :: 0 <= k < l < |conns| ==> !(Carries(conns[k], ids) && Carries(conns[l], ids))
  {
    var add, s0 := AddMany(b, armFails), Run(Init(maxLength), before);
    RunAppend(Init(maxLength), before + [add], after);
    RunAppend(Init(maxLength), before, [add]);
    RunOfOne(s0, add);
    InitHasInv(maxLength);
    RunWritesOnce(Init(maxLength), before);
    var s1, ids := Step(s0, add), AdmittedIds(s0, b);
    AddedIsTracked(s0, b, armFails);
    StepKeepsInv(s0, add);
    StepKeepsBlocks(s0, add);
    StepWritesOnce(s0, add);
    RunTracks(ids, s1, after);
    var s := Run(s1, after);
    hide Run, LegalRun, Inv, Tracked, WrittenOnce, Legal, Step, InPlace, Unsplit, Carries, CarriesAt, AllGenuine, Encodable;
    AllCarried(ids, s);
  }

  lemma AllCarried(ids: seq<nat>, s: System)
    requires Blocks(s) && WrittenOnce(s) && Tracked(ids, s)
    ensures forall w <- Connections(s) :: Carries(w, ids) ==> exists p, m :: CarriesAt(w, ids, p, m)
    ensures forall k, l :: 0 <= k < l < |Connections(s)| ==>
      !(Carries(Connections(s)[k], ids) && Carries(Connections(s)[l], ids))
  {
    InPlaceWire(s.wire, s.q);
    assert forall w <- Connections(s) :: Unsplit(w);
    hide Unsplit, InPlace, Carries, CarriesAt, Apart;
    forall w <- Connections(s) | Carries(w, ids) ensures exists p, m :: CarriesAt(w, ids, p, m) {
      CarriedInOnePiece(ids, w);
    }
    forall k, l | 0 <= k < l < |Connections(s)|
      ensures !(Carries(Connections(s)[k], ids) && Carries(Connections(s)[l], ids))
    {
      assert Connections(s)[k] in Connections(s) && Connections(s)[l] in Connections(s);
      CarriedOnce(ids, s, k, l);
    }
  }

  // ---------------------------------------------------------------- a batch that does not encode

  function Encoded(s: seq<Command>): seq<Command> {
    if s == [] then [] else (if s[0].encodable then [s[0]] else []) + Encoded(s[1..])
  }

  lemma {:induction false} EncodedConcat(s: seq<Command>, t: seq<Command>)
    ensures Encoded(s + t) == Encoded(s) + Encoded(t)
  {
    if s == [] {
      assert s + t == t;
    } else {
      assert (s + t)[1..] == s[1..] + t;
      EncodedConcat(s[1..], t);
    }
  }

  lemma {:induction false} EncodedIsAll(s: seq<Command>)
    ensures |Encoded(s)| <= |s| && (Encoded(s) == s <==> forall c <- s :: c.encodable)
  {
    if s != [] {
      EncodedIsAll(s[1..]);
      assert s == [s[0]] + s[1..];
      if s[0].encodable { assert Encoded(s)[1..] == Encoded(s[1..]); }
    }
  }

  lemma {:induction false} WriteTakesEncoded(q: Queue)
    ensures var (q', c) := Write(q);
            && Encoded(q.toWrite) == (if c.None? then [] else [c.value]) + Encoded(q'.toWrite)
            && |q'.toWrite| <= |q.toWrite| && (q.toWrite != [] ==> |q'.toWrite| < |q.toWrite|)
    decreases |q.toWrite|
  {
    if q.toWrite != [] && !q.toWrite[0].encodable {
      WriteTakesEncoded(q.(toWrite := q.toWrite[1..], settled := Settle(q.settled, [q.toWrite[0].id], Unencodable)));
    }
  }

  lemma {:induction false} WritesTakeEncoded(s: System, k: nat)
    requires |s.q.toWrite| <= k
    ensures Run(s, Writes(k)).wire == s.wire + Encoded(s.q.toWrite)
    decreases k
  {
    if k > 0 {
      assert Writes(k)[0] == WriteNext && Writes(k)[1..] == Writes(k - 1);
      hide Step, Encoded;
      WriteNextTakesEncoded(s);
      WritesTakeEncoded(Step(s, WriteNext), k - 1);
    }
  }

  lemma WriteNextTakesEncoded(s: System)
    ensures var s' := Step(s, WriteNext);
            && s'.wire + Encoded(s'.q.toWrite) == s.wire + Encoded(s.q.toWrite)
            && |s'.q.toWrite| <= |s.q.toWrite| && (s.q.toWrite != [] ==> |s'.q.toWrite| < |s.q.toWrite|)
  {
    WriteTakesEncoded(s.q);
    hide Write, Owed, Encoded;
  }

  /** A batch goes out, behind what is queued, without the commands that do not encode: in any state, it is
      written whole exactly when every command of it that was admitted encodes. */
  lemma BatchIsWrittenWholeExactlyWhenItEncodes(s: System, b: Batch, k: nat)
    requires |Step(s, AddMany(b, false)).q.toWrite| <= k
    ensures var n := AdmittedCount(s.q, b);
            && Run(Step(s, AddMany(b, false)), Writes(k)).wire
                == s.wire + Encoded(s.q.toWrite) + Encoded(Block(b, n, n))
            && (Encoded(Block(b, n, n)) == Block(b, n, n) <==> forall i :: 0 <= i < n ==> i !in b.unencodable)
  {
    var n, s' := AdmittedCount(s.q, b), Step(s, AddMany(b, false));
    var block := Block(b, n, n);
    assert s'.wire == s.wire && s'.q.toWrite == s.q.toWrite + block;
    EncodedConcat(s.q.toWrite, block);
    EncodedIsAll(block);
    assert forall i :: 0 <= i < n ==> block[i].encodable == (i !in b.unencodable);
    assert (forall c <- block :: c.encodable) <==> forall i :: 0 <= i < n ==> block[i].encodable;
    WritesTakeEncoded(s', k);
  }
}
