// The three threads of doSwap on every rank of a communicator, as a state
// machine: a producer that fills buffers, a thread that calls all_to_all, a
// consumer that writes back, and three bounded queues that pass four recycled
// buffers around.

module Pipeline {
  import opened Sequences
  import opened Bits
  import opened QubitSwap
  import opened Complexes
  import opened DistributedSwap

  // ----- states -----------------------------------------------------------

  // One exchange: chunks of n rows in so many rounds, with a pool of buffers
  // that hold `capacity` amplitudes each.
  datatype Setup = Setup(n: nat, rounds: nat, buffers: nat, capacity: nat, m: nat, ls: seq<nat>, lp: seq<nat>) {
    // The size of the communicator.
    ghost function Size(): nat { Pow2(|lp|) }

    ghost predicate Ok() {
      && n > 0 && buffers > 0 && IsTable(ls, lp) && |ls| <= m && n * rounds == Pow2(m - |ls|)
      && n * Size() <= capacity
      && forall i :: 0 <= i < |ls| ==> ls[i] < m
    }
  }

  datatype Buffer = Buffer(svalues: seq<Complex>, rvalues: seq<Complex>, indices: seq<nat>)

  // What a queue holds: a buffer, or nullptr.
  datatype Item = Item(buf: nat) | Null

  datatype Producer = Pulling | Filling(buf: nat, row: nat, block: nat) | ProducerDone
  datatype Exchanger = Waiting | Calling(buf: nat) | Returned(buf: nat) | Ending | ExchangerDone
  datatype Consumer = Idle | Writing(buf: nat, block: nat, row: nat) | ConsumerDone

  // filled is fresh_arrays, exchanged is fresh_arrays2, spare is old_arrays; next counts
  // the rounds the producer has pushed.
  datatype Rank = Rank(vec: seq<Complex>, bufs: seq<Buffer>, spare: seq<nat>, filled: seq<Item>, exchanged: seq<Item>,
                       producer: Producer, next: nat, exchanger: Exchanger, consumer: Consumer)

  datatype Act = PullOld | FillNext | PushFresh | PushNull
               | PullFresh | PushFresh2 | PushNull2
               | PullFresh2 | WriteNext | PushOld

  // ----- steps ------------------------------------------------------------

  // A pull waits for an item, a push for room.
  ghost predicate Enabled(s: Setup, a: Rank, act: Act) {
    match act
    case PullOld => a.producer.Pulling? && a.next < s.rounds && a.spare != []
    case FillNext => a.producer.Filling? && a.producer.row < s.n
    case PushFresh => a.producer.Filling? && a.producer.row >= s.n && |a.filled| < s.buffers
    case PushNull => a.producer.Pulling? && a.next >= s.rounds && |a.filled| < s.buffers
    case PullFresh => a.exchanger.Waiting? && a.filled != []
    case PushFresh2 => a.exchanger.Returned? && |a.exchanged| < s.buffers
    case PushNull2 => a.exchanger.Ending? && |a.exchanged| < s.buffers
    case PullFresh2 => a.consumer.Idle? && a.exchanged != []
    case WriteNext => a.consumer.Writing? && a.consumer.block < s.Size()
    case PushOld => a.consumer.Writing? && a.consumer.block >= s.Size() && |a.spare| < s.buffers
  }

  ghost function Apply(s: Setup, own: nat, a: Rank, act: Act): Rank
    requires Enabled(s, a, act)
  {
    match act
    case PullOld => a.(spare := a.spare[1..], producer := Filling(a.spare[0], 0, 0))
    case FillNext => Fill(s, a)
    case PushFresh => a.(filled := a.filled + [Item(a.producer.buf)], producer := Pulling, next := a.next + 1)
    case PushNull => a.(filled := a.filled + [Null], producer := ProducerDone)
    case PullFresh =>
      a.(filled := a.filled[1..], exchanger := if a.filled[0].Null? then Ending else Calling(a.filled[0].buf))
    case PushFresh2 => a.(exchanged := a.exchanged + [Item(a.exchanger.buf)], exchanger := Waiting)
    case PushNull2 => a.(exchanged := a.exchanged + [Null], exchanger := ExchangerDone)
    case PullFresh2 =>
      a.(exchanged := a.exchanged[1..], consumer := if a.exchanged[0].Null? then ConsumerDone else Writing(a.exchanged[0].buf, 0, 0))
    case WriteNext => Write(s, own, a)
    case PushOld => a.(spare := a.spare + [a.consumer.buf], consumer := Idle)
  }

  // The producer's next slot: one read of the state vector.
  ghost function Fill(s: Setup, a: Rank): Rank
    requires a.producer.Filling?
  {
    var Filling(b, row, block) := a.producer;
    if block >= s.Size() then a.(producer := Filling(b, row + 1, 0)) else
    var x, slot := Cell(s.ls, s.lp, s.n * a.next + row, block), Slot(s.n, block, row);
    if b < |a.bufs| && x < |a.vec| && slot < |a.bufs[b].svalues| && slot < |a.bufs[b].indices| then
      var buf := a.bufs[b].(svalues := a.bufs[b].svalues[slot := a.vec[x]], indices := a.bufs[b].indices[slot := x]);
      a.(bufs := a.bufs[b := buf], producer := Filling(b, row, block + 1))
    else a
  }

  // The consumer's next slot: one write to the state vector, unless the block
  // is the rank's own.
  ghost function Write(s: Setup, own: nat, a: Rank): Rank
    requires a.consumer.Writing?
  {
    var Writing(b, block, row) := a.consumer;
    if block == own || row >= s.n then a.(consumer := Writing(b, block + 1, 0)) else
    var slot := Slot(s.n, block, row);
    if b < |a.bufs| && slot < |a.bufs[b].rvalues| && slot < |a.bufs[b].indices| && a.bufs[b].indices[slot] < |a.vec| then
      a.(vec := a.vec[a.bufs[b].indices[slot] := a.bufs[b].rvalues[slot]], consumer := Writing(b, block, row + 1))
    else a
  }

  // all_to_all completes when every rank has called it: block c of rank d goes
  // to block d of rank c.
  ghost predicate AllCalling(w: seq<Rank>) {
    w != [] && forall c :: 0 <= c < |w| ==> w[c].exchanger.Calling? && w[c].exchanger.buf < |w[c].bufs|
  }

  ghost function SentBuffers(w: seq<Rank>): (sent: seq<seq<Complex>>)
    requires AllCalling(w)
    ensures |sent| == |w|
  {
    seq(|w|, d requires 0 <= d < |w| => w[d].bufs[w[d].exchanger.buf].svalues)
  }

  // The first entries of a receive buffer are overwritten, the rest is left.
  ghost function Overwritten(rvalues: seq<Complex>, received: seq<Complex>): seq<Complex> {
    received + if |received| <= |rvalues| then rvalues[|received|..] else []
  }

  ghost function Exchange(s: Setup, w: seq<Rank>, c: nat): Rank
    requires AllCalling(w) && c < |w|
  {
    var b := w[c].exchanger.buf;
    var sent := SentBuffers(w);
    var everyone := seq(|w|, d requires 0 <= d => d);
    var received := Received(sent, everyone, c, s.n, ZERO);
    w[c].(bufs := w[c].bufs[b := w[c].bufs[b].(rvalues := Overwritten(w[c].bufs[b].rvalues, received))], exchanger := Returned(b))
  }

  ghost function ExchangeAll(s: Setup, w: seq<Rank>): seq<Rank>
    requires AllCalling(w)
  {
    seq(|w|, c requires 0 <= c < |w| => Exchange(s, w, c))
  }

  // One step of one thread of one rank, or an exchange.
  ghost predicate ThreadStep(s: Setup, w: seq<Rank>, w': seq<Rank>, c: nat, act: Act) {
    c < |w| && Enabled(s, w[c], act) && w' == w[c := Apply(s, c, w[c], act)]
  }

  ghost predicate Next(s: Setup, w: seq<Rank>, w': seq<Rank>) {
    || (exists c: nat, act :: ThreadStep(s, w, w', c, act))
    || (AllCalling(w) && w' == ExchangeAll(s, w))
  }

  ghost predicate Initial(s: Setup, vec0: seq<seq<Complex>>, w: seq<Rank>) {
    && |w| == |vec0|
    && forall c :: 0 <= c < |w| ==> InitialRank(s, vec0[c], w[c])
  }

  ghost predicate InitialRank(s: Setup, vec: seq<Complex>, a: Rank) {
    && a.vec == vec && RingOk(a.spare, s.buffers) && a.filled == [] && a.exchanged == []
    && a.producer == Pulling && a.next == 0 && a.exchanger == Waiting && a.consumer == Idle
    && |a.bufs| == s.buffers
    && forall b :: 0 <= b < s.buffers ==> BufferFits(s, a.bufs[b])
  }

  ghost predicate BufferFits(s: Setup, b: Buffer) {
    && |b.svalues| == |b.indices| >= s.capacity && |b.rvalues| >= s.capacity
    && s.n * s.Size() <= s.capacity
  }

  ghost predicate Final(w: seq<Rank>) {
    forall c :: 0 <= c < |w| ==> w[c].producer.ProducerDone? && w[c].exchanger.ExchangerDone? && w[c].consumer.ConsumerDone?
  }

  // ----- where the buffers are --------------------------------------------

  ghost function Bufs(q: seq<Item>): seq<nat> {
    if q == [] then [] else (if q[0].Null? then [] else [q[0].buf]) + Bufs(q[1..])
  }

  lemma {:induction false} BufsAppend(q: seq<Item>, x: Item)
    ensures Bufs(q + [x]) == Bufs(q) + if x.Null? then [] else [x.buf]
  {
    var r := q + [x];
    if q == [] {
      assert r[1..] == [];
    } else {
      assert r[0] == q[0] && r[1..] == q[1..] + [x];
      BufsAppend(q[1..], x);
      assert Bufs(r) == (if q[0].Null? then [] else [q[0].buf]) + Bufs(r[1..]);
    }
  }

  // With the consumer, or on the way to it: received, not yet written back.
  ghost function Front(a: Rank): seq<nat> {
    (if a.consumer.Writing? then [a.consumer.buf] else []) + Bufs(a.exchanged)
    + (if a.exchanger.Returned? then [a.exchanger.buf] else [])
  }

  // Waiting to be exchanged.
  ghost function Back(a: Rank): seq<nat> {
    (if a.exchanger.Calling? then [a.exchanger.buf] else []) + Bufs(a.filled)
  }

  ghost function Held(a: Rank): seq<nat> {
    if a.producer.Filling? then [a.producer.buf] else []
  }

  // All buffers, in the order they will come free.
  ghost function Ring(a: Rank): seq<nat> {
    Front(a) + Back(a) + Held(a) + a.spare
  }

  ghost predicate RingOk(ring: seq<nat>, k: nat) {
    |ring| == k && Distinct(ring) && forall i :: 0 <= i < |ring| ==> ring[i] < k
  }

  ghost predicate BuffersFit(s: Setup, bufs: seq<Buffer>) {
    |bufs| == s.buffers && forall b :: 0 <= b < |bufs| ==> BufferFits(s, bufs[b])
  }

  // Every buffer is in exactly one place.
  ghost predicate EachOnce(s: Setup, a: Rank) {
    RingOk(Ring(a), s.buffers) && BuffersFit(s, a.bufs)
  }

  // Rounds written back, and rounds exchanged.
  ghost function Done(a: Rank): int { a.next - |Front(a)| - |Back(a)| }
  ghost function Calls(a: Rank): int { a.next - |Back(a)| }

  // What a step does to the ring: it leaves it alone, or takes its head to its tail.
  ghost predicate RingMoved(a: Rank, a': Rank, act: Act) {
    && Ring(a') == (if act.PushOld? && Ring(a) != [] then Ring(a)[1..] + [Ring(a)[0]] else Ring(a))
    && Front(a') == (if act.PushOld? && Front(a) != [] then Front(a)[1..] else Front(a))
    && Back(a') == (if act.PushFresh? then Back(a) + Held(a) else Back(a))
  }

  lemma RingStep(s: Setup, own: nat, a: Rank, act: Act)
    requires Enabled(s, a, act)
    ensures RingMoved(a, Apply(s, own, a, act), act)
    ensures act.PushOld? ==> Front(a) != [] && Front(a)[0] == a.consumer.buf
    ensures act.PushFresh? ==> Held(a) == [a.producer.buf]
  {
    match act
    case PullOld => PullOldRing(s, own, a);
    case FillNext => SameRing(a, Fill(s, a), act);
    case PushFresh => PushFreshRing(s, own, a);
    case PushNull => PushNullRing(s, own, a, act);
    case PullFresh => PullFreshRing(s, own, a);
    case PushFresh2 => PushFresh2Ring(s, own, a);
    case PushNull2 => PushNullRing(s, own, a, act);
    case PullFresh2 => PullFresh2Ring(s, own, a);
    case WriteNext => SameRing(a, Write(s, own, a), act);
    case PushOld => PushOldRing(s, own, a);
  }

  lemma QueuesStep(s: Setup, own: nat, a: Rank, act: Act)
    requires Enabled(s, a, act)
    ensures var a' := Apply(s, own, a, act);
            && Front(a') == (if act.PushOld? && Front(a) != [] then Front(a)[1..] else Front(a))
            && Back(a') == (if act.PushFresh? then Back(a) + Held(a) else Back(a))
    ensures act.PushOld? ==> Front(a) != [] && Front(a)[0] == a.consumer.buf
    ensures act.PushFresh? ==> Held(a) == [a.producer.buf]
  {
    RingStep(s, own, a, act);
  }

  lemma SameRing(a: Rank, a': Rank, act: Act)
    requires Front(a') == Front(a) && Back(a') == Back(a) && Held(a') == Held(a) && a'.spare == a.spare
    requires !act.PushOld? && !act.PushFresh?
    ensures RingMoved(a, a', act)
  {
  }

  lemma PullOldRing(s: Setup, own: nat, a: Rank)
    requires Enabled(s, a, PullOld)
    ensures RingMoved(a, Apply(s, own, a, PullOld), PullOld)
  {
    var a' := Apply(s, own, a, PullOld);
    assert Held(a') + a'.spare == Held(a) + a.spare;
    assert Ring(a') == Front(a') + Back(a') + (Held(a') + a'.spare);
    assert Ring(a) == Front(a) + Back(a) + (Held(a) + a.spare);
  }

  lemma PushNullRing(s: Setup, own: nat, a: Rank, act: Act)
    requires Enabled(s, a, act) && (act.PushNull? || act.PushNull2?)
    ensures RingMoved(a, Apply(s, own, a, act), act)
  {
    BufsAppend(a.filled, Null);
    BufsAppend(a.exchanged, Null);
    SameRing(a, Apply(s, own, a, act), act);
  }

  lemma PushFreshRing(s: Setup, own: nat, a: Rank)
    requires Enabled(s, a, PushFresh)
    ensures RingMoved(a, Apply(s, own, a, PushFresh), PushFresh)
  {
    var b := a.producer.buf;
    BufsAppend(a.filled, Item(b));
    var a' := Apply(s, own, a, PushFresh);
    assert Back(a') == Back(a) + [b];
    assert Front(a) + (Back(a) + [b]) + [] + a.spare == Front(a) + Back(a) + [b] + a.spare;
  }

  lemma PullFreshRing(s: Setup, own: nat, a: Rank)
    requires Enabled(s, a, PullFresh)
    ensures RingMoved(a, Apply(s, own, a, PullFresh), PullFresh)
  {
    var a' := Apply(s, own, a, PullFresh);
    assert Back(a') == Back(a) && Front(a') == Front(a) && Held(a') == Held(a);
  }

  lemma PushFresh2Ring(s: Setup, own: nat, a: Rank)
    requires Enabled(s, a, PushFresh2)
    ensures RingMoved(a, Apply(s, own, a, PushFresh2), PushFresh2)
  {
    BufsAppend(a.exchanged, Item(a.exchanger.buf));
    var a' := Apply(s, own, a, PushFresh2);
    assert Back(a') == Back(a) && Front(a') == Front(a) && Held(a') == Held(a);
  }

  lemma PullFresh2Ring(s: Setup, own: nat, a: Rank)
    requires Enabled(s, a, PullFresh2)
    ensures RingMoved(a, Apply(s, own, a, PullFresh2), PullFresh2)
  {
    var a' := Apply(s, own, a, PullFresh2);
    assert Back(a') == Back(a) && Front(a') == Front(a) && Held(a') == Held(a);
  }

  lemma PushOldRing(s: Setup, own: nat, a: Rank)
    requires Enabled(s, a, PushOld)
    ensures RingMoved(a, Apply(s, own, a, PushOld), PushOld)
    ensures Front(a) != [] && Front(a)[0] == a.consumer.buf
  {
    var a', b := Apply(s, own, a, PushOld), a.consumer.buf;
    assert Front(a) == [b] + Front(a');
    assert Back(a') == Back(a) && Held(a') == Held(a);
    HeadToTail(b, Front(a'), Back(a) + Held(a) + a.spare);
    assert Ring(a) == ([b] + Front(a')) + (Back(a) + Held(a) + a.spare);
    assert Ring(a') == Front(a') + (Back(a) + Held(a) + a.spare) + [b];
  }

  lemma HeadToTail(b: nat, s: seq<nat>, t: seq<nat>)
    ensures ([b] + s)[1..] == s && ([b] + s)[0] == b
    ensures (([b] + s) + t)[1..] + [(([b] + s) + t)[0]] == s + t + [b]
  {
  }

  lemma RingKept(s: Setup, own: nat, a: Rank, act: Act)
    requires Enabled(s, a, act) && EachOnce(s, a)
    ensures EachOnce(s, Apply(s, own, a, act))
  {
    RingStep(s, own, a, act);
    if act.PushOld? {
      assert Ring(a) != [];
      RotationDistinct(Ring(a), s.buffers);
    }
    BuffersKept(s, own, a, act);
  }

  lemma BuffersKept(s: Setup, own: nat, a: Rank, act: Act)
    requires Enabled(s, a, act) && BuffersFit(s, a.bufs)
    ensures BuffersFit(s, Apply(s, own, a, act).bufs)
  {
  }

  lemma RotationDistinct(r: seq<nat>, k: nat)
    requires r != [] && RingOk(r, k)
    ensures RingOk(r[1..] + [r[0]], k)
  {
    var q := r[1..] + [r[0]];
    assert forall i :: 0 <= i < |r| - 1 ==> q[i] == r[i + 1];
  }

  // ----- the end marks ----------------------------------------------------

  ghost predicate NoNull(q: seq<Item>) {
    forall i :: 0 <= i < |q| ==> q[i].Item?
  }

  ghost predicate EndsWithNull(q: seq<Item>) {
    q != [] && q[|q| - 1].Null? && NoNull(q[..|q| - 1])
  }

  // nullptr is pushed once, after the last round, and is the last thing to
  // pass through each queue.
  ghost predicate MarksOk(s: Setup, a: Rank) {
    && a.next <= s.rounds
    && (a.producer.Filling? ==> a.next < s.rounds)
    && (a.producer.ProducerDone? ==> a.next == s.rounds)
    && match a.exchanger {
         case ExchangerDone =>
           && a.producer.ProducerDone? && a.filled == []
           && if a.consumer.ConsumerDone? then a.exchanged == [] else EndsWithNull(a.exchanged)
         case Ending => a.producer.ProducerDone? && a.filled == [] && NoNull(a.exchanged) && !a.consumer.ConsumerDone?
         case _ =>
           && NoNull(a.exchanged) && !a.consumer.ConsumerDone?
           && if a.producer.ProducerDone? then EndsWithNull(a.filled) else NoNull(a.filled)
       }
  }

  lemma TailOfMarked(q: seq<Item>)
    requires q != []
    ensures NoNull(q) ==> NoNull(q[1..]) && q[0].Item?
    ensures EndsWithNull(q) ==> if q[0].Null? then q[1..] == [] else EndsWithNull(q[1..])
  {
    if EndsWithNull(q) && !q[0].Null? {
      assert q[1..][..|q[1..]| - 1] == q[..|q| - 1][1..];
    } else if EndsWithNull(q) && |q| > 1 {
      assert q[..|q| - 1][0] == q[0];
    }
  }

  lemma MarksKept(s: Setup, own: nat, a: Rank, act: Act)
    requires Enabled(s, a, act) && MarksOk(s, a)
    ensures MarksOk(s, Apply(s, own, a, act))
  {
    match act
    case PullFresh => TailOfMarked(a.filled);
    case PullFresh2 => TailOfMarked(a.exchanged);
    case PushNull => PushMark(a.filled);
    case PushNull2 => PushMark(a.exchanged);
    case _ =>
  }

  lemma PushMark(q: seq<Item>)
    requires NoNull(q)
    ensures EndsWithNull(q + [Null])
  {
    assert (q + [Null])[..|q|] == q;
  }

  // ----- what the buffers hold --------------------------------------------

  ghost predicate IsStart(s: Setup, vec0: seq<seq<Complex>>) {
    s.Ok() && |vec0| == s.Size() && forall c :: 0 <= c < |vec0| ==> |vec0[c]| == Pow2(s.m)
  }

  ghost predicate Sent(s: Setup, vec: seq<Complex>, b: Buffer, round: nat) {
    Filled(vec, b.svalues, b.indices, s.n, s.n * round, s.ls, s.lp)
  }

  ghost predicate SlotReceived(s: Setup, vec0: seq<seq<Complex>>, own: nat, rvalues: seq<Complex>, round: nat, i: nat, d: nat) {
    var slot, x := Slot(s.n, d, i), Cell(s.ls, s.lp, s.n * round + i, own);
    && d < |vec0| && slot < |rvalues| && x < |vec0[d]|
    && rvalues[slot] == vec0[d][x]
  }

  ghost predicate IsReceived(s: Setup, vec0: seq<seq<Complex>>, own: nat, b: Buffer, round: nat) {
    && Addressed(b.indices, s.n, s.n * round, s.ls, s.lp)
    && forall i, d :: 0 <= i < s.n && 0 <= d < s.Size() ==> SlotReceived(s, vec0, own, b.rvalues, round, i, d)
  }

  ghost predicate FrontHolds(s: Setup, vec0: seq<seq<Complex>>, own: nat, bufs: seq<Buffer>, front: seq<nat>, round: nat) {
    forall j :: 0 <= j < |front| ==> front[j] < |bufs| && IsReceived(s, vec0, own, bufs[front[j]], round + j)
  }

  ghost predicate BackHolds(s: Setup, vec: seq<Complex>, bufs: seq<Buffer>, back: seq<nat>, round: nat) {
    forall j :: 0 <= j < |back| ==> back[j] < |bufs| && Sent(s, vec, bufs[back[j]], round + j)
  }

  ghost predicate HeldHolds(s: Setup, vec: seq<Complex>, a: Rank) {
    a.producer.Filling? ==>
      && a.producer.row <= s.n && a.producer.block <= s.Size() && a.producer.buf < |a.bufs|
      && (a.producer.row == s.n ==> a.producer.block == 0)
      && var b := a.bufs[a.producer.buf];
         FilledUpTo(vec, b.svalues, b.indices, s.n, s.n * a.next, s.ls, s.lp, a.producer.row, a.producer.block)
  }

  // The buffers on their way hold consecutive rounds, oldest first.
  ghost predicate ContentsOk(s: Setup, vec0: seq<seq<Complex>>, own: nat, a: Rank) {
    && own < |vec0| && 0 <= Done(a)
    && FrontHolds(s, vec0, own, a.bufs, Front(a), Done(a))
    && BackHolds(s, vec0[own], a.bufs, Back(a), Calls(a))
    && HeldHolds(s, vec0[own], a)
  }

  // ----- what the arrays hold ---------------------------------------------

  ghost function BlockOf(a: Rank): nat { if a.consumer.Writing? then a.consumer.block else 0 }
  ghost function RowOf(a: Rank): nat { if a.consumer.Writing? then a.consumer.row else 0 }

  ghost predicate IsWritten(n: nat, start: nat, block: nat, row: nat, free: nat, d: nat) {
    free < start || (free < start + n && (d < block || (d == block && free - start < row)))
  }

  // A cell has its new amplitude once the consumer has passed it, its old one before.
  ghost predicate CellNow(s: Setup, vec0: seq<seq<Complex>>, own: nat, vec: seq<Complex>, start: nat, block: nat, row: nat,
                          free: nat, d: nat) {
    var x, x' := Cell(s.ls, s.lp, free, d), Cell(s.ls, s.lp, free, own);
    && own < |vec0| && d < |vec0| && x < |vec| && x < |vec0[own]| && x' < |vec0[d]|
    && vec[x] == if IsWritten(s.n, start, block, row, free, d) then vec0[d][x'] else vec0[own][x]
  }

  ghost predicate VecNow(s: Setup, vec0: seq<seq<Complex>>, own: nat, vec: seq<Complex>, start: nat, block: nat, row: nat) {
    && |vec| == Pow2(s.m)
    && forall free, d {:trigger CellNow(s, vec0, own, vec, start, block, row, free, d)} ::
         0 <= free < s.n * s.rounds && 0 <= d < s.Size() ==> CellNow(s, vec0, own, vec, start, block, row, free, d)
  }

  ghost predicate VecOk(s: Setup, vec0: seq<seq<Complex>>, own: nat, a: Rank) {
    && 0 <= Done(a)
    && (a.consumer.Writing? ==> a.consumer.row <= s.n && a.consumer.block <= s.Size())
    && VecNow(s, vec0, own, a.vec, s.n * Done(a), BlockOf(a), RowOf(a))
  }

  ghost predicate RankOk(s: Setup, vec0: seq<seq<Complex>>, own: nat, a: Rank) {
    EachOnce(s, a) && MarksOk(s, a) && ContentsOk(s, vec0, own, a) && VecOk(s, vec0, own, a)
  }

  // The invariant of every run. Ranks call all_to_all for the same round.
  ghost predicate Inv(s: Setup, vec0: seq<seq<Complex>>, w: seq<Rank>) {
    && IsStart(s, vec0) && |w| == |vec0|
    && (forall c :: 0 <= c < |w| ==> RankOk(s, vec0, c, w[c]))
    && forall c, d :: 0 <= c < |w| && 0 <= d < |w| ==> Calls(w[c]) == Calls(w[d])
  }

  // ----- the invariant is kept --------------------------------------------

  lemma InitialOk(s: Setup, vec0: seq<seq<Complex>>, w: seq<Rank>)
    requires IsStart(s, vec0) && Initial(s, vec0, w)
    ensures Inv(s, vec0, w)
  {
    forall c | 0 <= c < |w| ensures RankOk(s, vec0, c, w[c]) {
      InitialRankOk(s, vec0, c, w[c]);
    }
  }

  lemma InitialRankOk(s: Setup, vec0: seq<seq<Complex>>, c: nat, a: Rank)
    requires IsStart(s, vec0) && c < |vec0| && InitialRank(s, vec0[c], a)
    ensures RankOk(s, vec0, c, a)
  {
    assert Ring(a) == a.spare;
    InitialVec(s, vec0, c);
  }

  lemma InitialVec(s: Setup, vec0: seq<seq<Complex>>, c: nat)
    requires IsStart(s, vec0) && c < |vec0|
    ensures VecNow(s, vec0, c, vec0[c], 0, 0, 0)
  {
    forall free, d | 0 <= free < s.n * s.rounds && 0 <= d < s.Size() ensures CellNow(s, vec0, c, vec0[c], 0, 0, 0, free, d) {
      CellBound(s.ls, s.lp, free, d, s.m);
      CellBound(s.ls, s.lp, free, c, s.m);
    }
  }

  // Steps that leave arrays and buffers alone.
  lemma PassingKeeps(s: Setup, vec0: seq<seq<Complex>>, own: nat, a: Rank, act: Act)
    requires Enabled(s, a, act) && ContentsOk(s, vec0, own, a)
    requires act in {PushNull, PullFresh, PushFresh2, PushNull2, PullFresh2}
    ensures ContentsOk(s, vec0, own, Apply(s, own, a, act))
  {
    QueuesStep(s, own, a, act);
    var a' := Apply(s, own, a, act);
    assert Done(a') == Done(a) && Calls(a') == Calls(a) && a'.bufs == a.bufs;
  }

  lemma PullOldKeeps(s: Setup, vec0: seq<seq<Complex>>, own: nat, a: Rank)
    requires Enabled(s, a, PullOld) && ContentsOk(s, vec0, own, a) && s.n > 0
    requires a.spare[0] < |a.bufs|
    ensures ContentsOk(s, vec0, own, Apply(s, own, a, PullOld))
  {
    var a' := Apply(s, own, a, PullOld);
    assert Front(a') == Front(a) && Back(a') == Back(a);
    var b := a.bufs[a.spare[0]];
    assert FilledUpTo(vec0[own], b.svalues, b.indices, s.n, s.n * a.next, s.ls, s.lp, 0, 0);
  }

  lemma SpareInRange(s: Setup, a: Rank)
    requires EachOnce(s, a) && a.spare != []
    ensures a.spare[0] < |a.bufs|
  {
    assert Ring(a)[|Front(a)| + |Back(a)| + |Held(a)|] == a.spare[0];
  }

  // Only writing and giving back a buffer change what the array is to hold.
  lemma ArrayStays(s: Setup, vec0: seq<seq<Complex>>, own: nat, a: Rank, act: Act)
    requires Enabled(s, a, act) && VecOk(s, vec0, own, a) && !act.WriteNext? && !act.PushOld?
    ensures VecOk(s, vec0, own, Apply(s, own, a, act))
  {
    QueuesStep(s, own, a, act);
    var a' := Apply(s, own, a, act);
    assert Done(a') == Done(a) && a'.vec == a.vec && BlockOf(a') == BlockOf(a) && RowOf(a') == RowOf(a);
  }

  lemma BackGrows(s: Setup, v: seq<Complex>, bufs: seq<Buffer>, back: seq<nat>, round: nat, b: nat)
    requires BackHolds(s, v, bufs, back, round) && b < |bufs| && Sent(s, v, bufs[b], round + |back|)
    ensures BackHolds(s, v, bufs, back + [b], round)
  {
  }

  lemma HeldIsSent(s: Setup, v: seq<Complex>, a: Rank)
    requires HeldHolds(s, v, a) && a.producer.Filling? && a.producer.row >= s.n
    ensures a.producer.buf < |a.bufs| && Sent(s, v, a.bufs[a.producer.buf], a.next)
  {
    var b := a.bufs[a.producer.buf];
    forall i, d | 0 <= i < s.n && 0 <= d < s.Size()
      ensures SlotFilled(v, b.svalues, b.indices, s.n, s.n * a.next, s.ls, s.lp, i, d)
    {
    }
  }

  lemma PushFreshKeeps(s: Setup, vec0: seq<seq<Complex>>, own: nat, a: Rank)
    requires Enabled(s, a, PushFresh) && ContentsOk(s, vec0, own, a)
    ensures ContentsOk(s, vec0, own, Apply(s, own, a, PushFresh))
  {
    PushFreshQueues(s, own, a);
    HeldIsSent(s, vec0[own], a);
    BackGrows(s, vec0[own], a.bufs, Back(a), Calls(a), a.producer.buf);
  }

  lemma PushFreshQueues(s: Setup, own: nat, a: Rank)
    requires Enabled(s, a, PushFresh)
    ensures var a' := Apply(s, own, a, PushFresh);
            && Back(a') == Back(a) + [a.producer.buf] && Front(a') == Front(a)
            && Done(a') == Done(a) && Calls(a') == Calls(a)
  {
    QueuesStep(s, own, a, PushFresh);
  }

  // ----- filling ----------------------------------------------------------

  // The producer reads an amplitude that no consumer step has reached.
  lemma ReadsOld(s: Setup, vec0: seq<seq<Complex>>, own: nat, a: Rank)
    requires IsStart(s, vec0) && own < |vec0| && VecOk(s, vec0, own, a) && MarksOk(s, a)
    requires a.producer.Filling? && a.producer.row < s.n && a.producer.block < s.Size()
    ensures var x := Cell(s.ls, s.lp, s.n * a.next + a.producer.row, a.producer.block);
            x < |a.vec| && x < |vec0[own]| && a.vec[x] == vec0[own][x]
  {
    var free, d := s.n * a.next + a.producer.row, a.producer.block;
    NextMultiple(s.n, a.next, s.rounds);
    DoneBehind(s, a);
    assert CellNow(s, vec0, own, a.vec, s.n * Done(a), BlockOf(a), RowOf(a), free, d);
  }

  lemma DoneBehind(s: Setup, a: Rank)
    requires 0 <= Done(a)
    ensures s.n * Done(a) <= s.n * a.next
    ensures a.consumer.Writing? ==> s.n * Done(a) + s.n <= s.n * a.next
  {
    MultiplesGrow(s.n, Done(a), a.next);
    if a.consumer.Writing? {
      assert |Front(a)| >= 1;
      NextMultiple(s.n, Done(a), a.next);
    }
  }

  lemma OtherBuffersKept(s: Setup, vec0: seq<seq<Complex>>, own: nat, a: Rank, b: nat, buf: Buffer)
    requires own < |vec0| && 0 <= Done(a) && b < |a.bufs| && b !in Front(a) && b !in Back(a)
    requires FrontHolds(s, vec0, own, a.bufs, Front(a), Done(a)) && BackHolds(s, vec0[own], a.bufs, Back(a), Calls(a))
    ensures FrontHolds(s, vec0, own, a.bufs[b := buf], Front(a), Done(a))
    ensures BackHolds(s, vec0[own], a.bufs[b := buf], Back(a), Calls(a))
  {
  }

  lemma HeldIsApart(s: Setup, a: Rank)
    requires EachOnce(s, a) && a.producer.Filling?
    ensures a.producer.buf < |a.bufs| && a.producer.buf !in Front(a) && a.producer.buf !in Back(a)
  {
    var r, k := Ring(a), |Front(a)| + |Back(a)|;
    assert r[k] == a.producer.buf;
    forall j | 0 <= j < |Front(a)| ensures Front(a)[j] != a.producer.buf {
      assert r[j] == Front(a)[j];
    }
    forall j | 0 <= j < |Back(a)| ensures Back(a)[j] != a.producer.buf {
      assert r[|Front(a)| + j] == Back(a)[j];
    }
  }

  lemma FillKeeps(s: Setup, vec0: seq<seq<Complex>>, own: nat, a: Rank)
    requires IsStart(s, vec0) && Enabled(s, a, FillNext)
    requires EachOnce(s, a) && MarksOk(s, a) && ContentsOk(s, vec0, own, a) && VecOk(s, vec0, own, a)
    ensures ContentsOk(s, vec0, own, Apply(s, own, a, FillNext))
  {
    if a.producer.block >= s.Size() {
      FillRowDone(s, vec0, own, a);
    } else {
      ReadsOld(s, vec0, own, a);
      HeldIsApart(s, a);
      FillOneSlot(s, vec0, own, a);
    }
  }

  lemma FillRowDone(s: Setup, vec0: seq<seq<Complex>>, own: nat, a: Rank)
    requires Enabled(s, a, FillNext) && a.producer.block >= s.Size()
    requires ContentsOk(s, vec0, own, a)
    ensures ContentsOk(s, vec0, own, Apply(s, own, a, FillNext))
  {
    var Filling(b, row, block) := a.producer;
    NextRow(vec0[own], a.bufs[b], s.n, s.n * a.next, s.ls, s.lp, row);
    FilledMore(s, vec0, own, a, Apply(s, own, a, FillNext));
  }

  lemma FillOneSlot(s: Setup, vec0: seq<seq<Complex>>, own: nat, a: Rank)
    requires Enabled(s, a, FillNext) && a.producer.block < s.Size()
    requires BuffersFit(s, a.bufs) && ContentsOk(s, vec0, own, a)
    requires a.producer.buf < |a.bufs| && a.producer.buf !in Front(a) && a.producer.buf !in Back(a)
    requires var x := Cell(s.ls, s.lp, s.n * a.next + a.producer.row, a.producer.block);
             x < |a.vec| && x < |vec0[own]| && a.vec[x] == vec0[own][x]
    ensures ContentsOk(s, vec0, own, Apply(s, own, a, FillNext))
  {
    var Filling(b, row, block) := a.producer;
    var x, slot := Cell(s.ls, s.lp, s.n * a.next + row, block), Slot(s.n, block, row);
    SlotBound(s.n, block, row, s.Size());
    FillSlot(vec0[own], a.bufs[b].svalues, a.bufs[b].indices, s.n, s.n * a.next, s.ls, s.lp, row, block);
    var buf := a.bufs[b].(svalues := a.bufs[b].svalues[slot := a.vec[x]], indices := a.bufs[b].indices[slot := x]);
    OtherBuffersKept(s, vec0, own, a, b, buf);
    var a' := Apply(s, own, a, FillNext);
    assert a' == a.(bufs := a.bufs[b := buf], producer := Filling(b, row, block + 1));
    FilledMore(s, vec0, own, a, a');
  }

  lemma FilledMore(s: Setup, vec0: seq<seq<Complex>>, own: nat, a: Rank, a': Rank)
    requires ContentsOk(s, vec0, own, a)
    requires a.producer.Filling? && a'.producer.Filling? && a' == a.(bufs := a'.bufs, producer := a'.producer)
    requires FrontHolds(s, vec0, own, a'.bufs, Front(a), Done(a)) && BackHolds(s, vec0[own], a'.bufs, Back(a), Calls(a))
    requires HeldHolds(s, vec0[own], a')
    ensures ContentsOk(s, vec0, own, a')
  {
    assert Front(a') == Front(a) && Back(a') == Back(a);
  }

  lemma NextRow(v: seq<Complex>, b: Buffer, n: nat, start: nat, ls: seq<nat>, lp: seq<nat>, row: nat)
    requires FilledUpTo(v, b.svalues, b.indices, n, start, ls, lp, row, Pow2(|lp|))
    ensures FilledUpTo(v, b.svalues, b.indices, n, start, ls, lp, row + 1, 0)
  {
  }

  // ----- writing back -----------------------------------------------------

  lemma WriteOneCell(s: Setup, vec0: seq<seq<Complex>>, own: nat, vec: seq<Complex>, start: nat, block: nat, row: nat)
    requires IsStart(s, vec0) && own < |vec0| && VecNow(s, vec0, own, vec, start, block, row)
    requires block < s.Size() && row < s.n && start + s.n <= s.n * s.rounds
    ensures var x, x' := Cell(s.ls, s.lp, start + row, block), Cell(s.ls, s.lp, start + row, own);
            && x < |vec| && x' < |vec0[block]|
            && VecNow(s, vec0, own, vec[x := vec0[block][x']], start, block, row + 1)
  {
    assert CellNow(s, vec0, own, vec, start, block, row, start + row, block);
    var x, x', rows := Cell(s.ls, s.lp, start + row, block), Cell(s.ls, s.lp, start + row, own), row + 1;
    var now := vec[x := vec0[block][x']];
    forall free, d | 0 <= free < s.n * s.rounds && 0 <= d < s.Size() ensures CellNow(s, vec0, own, now, start, block, rows, free, d) {
      assert CellNow(s, vec0, own, vec, start, block, row, free, d);
      if Cell(s.ls, s.lp, free, d) == x {
        CellInjective(s.ls, s.lp, free, d, start + row, block);
      }
    }
  }

  // A finished block, or the rank's own: on to the next one.
  lemma NextBlockNow(s: Setup, vec0: seq<seq<Complex>>, own: nat, vec: seq<Complex>, start: nat, block: nat, row: nat)
    requires VecNow(s, vec0, own, vec, start, block, row) && (row >= s.n || block == own)
    ensures VecNow(s, vec0, own, vec, start, block + 1, 0)
  {
    var next := block + 1;
    forall free, d | 0 <= free < s.n * s.rounds && 0 <= d < s.Size() ensures CellNow(s, vec0, own, vec, start, next, 0, free, d) {
      assert CellNow(s, vec0, own, vec, start, block, row, free, d);
    }
  }

  // A finished buffer: on to the next round.
  lemma NextRoundNow(s: Setup, vec0: seq<seq<Complex>>, own: nat, vec: seq<Complex>, start: nat, block: nat, row: nat)
    requires VecNow(s, vec0, own, vec, start, block, row) && block >= s.Size()
    ensures VecNow(s, vec0, own, vec, start + s.n, 0, 0)
  {
    var next := start + s.n;
    forall free, d | 0 <= free < s.n * s.rounds && 0 <= d < s.Size() ensures CellNow(s, vec0, own, vec, next, 0, 0, free, d) {
      assert CellNow(s, vec0, own, vec, start, block, row, free, d);
    }
  }

  lemma ConsumerBuffer(a: Rank)
    requires a.consumer.Writing?
    ensures Front(a) != [] && Front(a)[0] == a.consumer.buf
  {
  }

  lemma WriteKeeps(s: Setup, vec0: seq<seq<Complex>>, own: nat, a: Rank)
    requires IsStart(s, vec0) && Enabled(s, a, WriteNext) && a.next <= s.rounds
    requires BuffersFit(s, a.bufs) && ContentsOk(s, vec0, own, a) && VecOk(s, vec0, own, a)
    ensures VecOk(s, vec0, own, Apply(s, own, a, WriteNext))
  {
    var Writing(b, block, row) := a.consumer;
    var start := s.n * Done(a);
    if block == own || row >= s.n {
      NextBlockNow(s, vec0, own, a.vec, start, block, row);
      ConsumerMoved(s, vec0, own, a, a.vec, block + 1, 0);
    } else {
      DoneBehind(s, a);
      MultiplesGrow(s.n, a.next, s.rounds);
      SlotInBuffer(s, vec0, own, a);
      WriteOneCell(s, vec0, own, a.vec, start, block, row);
      var x, x' := Cell(s.ls, s.lp, start + row, block), Cell(s.ls, s.lp, start + row, own);
      ConsumerMoved(s, vec0, own, a, a.vec[x := vec0[block][x']], block, row + 1);
    }
  }

  lemma WriteKeepsContents(s: Setup, vec0: seq<seq<Complex>>, own: nat, a: Rank)
    requires Enabled(s, a, WriteNext) && ContentsOk(s, vec0, own, a)
    ensures ContentsOk(s, vec0, own, Apply(s, own, a, WriteNext))
  {
    SameContents(s, vec0, own, a, Apply(s, own, a, WriteNext));
  }

  lemma SameContents(s: Setup, vec0: seq<seq<Complex>>, own: nat, a: Rank, a': Rank)
    requires ContentsOk(s, vec0, own, a) && a' == a.(vec := a'.vec, consumer := a'.consumer)
    requires a.consumer.Writing? && a'.consumer.Writing? && a'.consumer.buf == a.consumer.buf
    ensures ContentsOk(s, vec0, own, a')
  {
    assert Front(a') == Front(a) && Back(a') == Back(a);
  }

  // What the consumer finds in the slot it writes back next.
  lemma SlotInBuffer(s: Setup, vec0: seq<seq<Complex>>, own: nat, a: Rank)
    requires a.consumer.Writing? && a.consumer.block < s.Size() && a.consumer.row < s.n
    requires ContentsOk(s, vec0, own, a)
    ensures var slot := Slot(s.n, a.consumer.block, a.consumer.row);
            var x := Cell(s.ls, s.lp, s.n * Done(a) + a.consumer.row, a.consumer.block);
            var x' := Cell(s.ls, s.lp, s.n * Done(a) + a.consumer.row, own);
            && a.consumer.buf < |a.bufs| && a.consumer.block < |vec0| && x' < |vec0[a.consumer.block]|
            && slot < |a.bufs[a.consumer.buf].indices| && slot < |a.bufs[a.consumer.buf].rvalues|
            && a.bufs[a.consumer.buf].indices[slot] == x
            && a.bufs[a.consumer.buf].rvalues[slot] == vec0[a.consumer.block][x']
  {
    ConsumerBuffer(a);
    assert IsReceived(s, vec0, own, a.bufs[Front(a)[0]], Done(a) + 0);
    var buf := a.bufs[a.consumer.buf];
    assert SlotAddressed(buf.indices, s.n, s.n * Done(a), s.ls, s.lp, a.consumer.row, a.consumer.block);
    assert SlotReceived(s, vec0, own, buf.rvalues, Done(a), a.consumer.row, a.consumer.block);
  }

  lemma ConsumerMoved(s: Setup, vec0: seq<seq<Complex>>, own: nat, a: Rank, vec: seq<Complex>, block: nat, row: nat)
    requires 0 <= Done(a) && a.consumer.Writing? && row <= s.n && block <= s.Size()
    requires VecNow(s, vec0, own, vec, s.n * Done(a), block, row)
    ensures VecOk(s, vec0, own, a.(vec := vec, consumer := Writing(a.consumer.buf, block, row)))
  {
    var a' := a.(vec := vec, consumer := Writing(a.consumer.buf, block, row));
    assert Front(a') == Front(a) && Back(a') == Back(a);
  }

  lemma PushOldQueues(s: Setup, own: nat, a: Rank)
    requires Enabled(s, a, PushOld)
    ensures var a' := Apply(s, own, a, PushOld);
            && Front(a) == [a.consumer.buf] + Front(a') && Back(a') == Back(a)
            && Done(a') == Done(a) + 1 && Calls(a') == Calls(a)
  {
  }

  lemma PushOldKeeps(s: Setup, vec0: seq<seq<Complex>>, own: nat, a: Rank)
    requires Enabled(s, a, PushOld) && VecOk(s, vec0, own, a)
    ensures VecOk(s, vec0, own, Apply(s, own, a, PushOld))
  {
    PushOldQueues(s, own, a);
    NextRoundNow(s, vec0, own, a.vec, s.n * Done(a), a.consumer.block, a.consumer.row);
    NextMultipleIs(s.n, Done(a));
  }

  lemma NextMultipleIs(n: nat, k: nat)
    ensures n * k + n == n * (k + 1)
  {
  }

  lemma PushOldKeepsContents(s: Setup, vec0: seq<seq<Complex>>, own: nat, a: Rank)
    requires Enabled(s, a, PushOld) && ContentsOk(s, vec0, own, a)
    ensures ContentsOk(s, vec0, own, Apply(s, own, a, PushOld))
  {
    PushOldQueues(s, own, a);
    FrontShrinks(s, vec0, own, a.bufs, a.consumer.buf, Front(Apply(s, own, a, PushOld)), Done(a));
  }

  lemma FrontShrinks(s: Setup, vec0: seq<seq<Complex>>, own: nat, bufs: seq<Buffer>, b: nat, rest: seq<nat>, round: nat)
    requires FrontHolds(s, vec0, own, bufs, [b] + rest, round)
    ensures FrontHolds(s, vec0, own, bufs, rest, round + 1)
  {
    var next := round + 1;
    forall j | 0 <= j < |rest| ensures rest[j] < |bufs| && IsReceived(s, vec0, own, bufs[rest[j]], next + j) {
      assert rest[j] == ([b] + rest)[j + 1];
      assert IsReceived(s, vec0, own, bufs[([b] + rest)[j + 1]], round + (j + 1));
    }
  }

  // ----- the exchange -----------------------------------------------------

  lemma ThreadStepKeeps(s: Setup, vec0: seq<seq<Complex>>, own: nat, a: Rank, act: Act)
    requires IsStart(s, vec0) && Enabled(s, a, act) && RankOk(s, vec0, own, a)
    ensures RankOk(s, vec0, own, Apply(s, own, a, act)) && Calls(Apply(s, own, a, act)) == Calls(a)
  {
    RingKept(s, own, a, act);
    MarksKept(s, own, a, act);
    CallsKept(s, own, a, act);
    ContentsKept(s, vec0, own, a, act);
    ArrayKept(s, vec0, own, a, act);
  }

  lemma ContentsKept(s: Setup, vec0: seq<seq<Complex>>, own: nat, a: Rank, act: Act)
    requires IsStart(s, vec0) && Enabled(s, a, act) && RankOk(s, vec0, own, a)
    ensures ContentsOk(s, vec0, own, Apply(s, own, a, act))
  {
    match act
    case PullOld =>
      SpareInRange(s, a);
      PullOldKeeps(s, vec0, own, a);
    case FillNext => FillKeeps(s, vec0, own, a);
    case PushFresh => PushFreshKeeps(s, vec0, own, a);
    case WriteNext => WriteKeepsContents(s, vec0, own, a);
    case PushOld => PushOldKeepsContents(s, vec0, own, a);
    case _ => PassingKeeps(s, vec0, own, a, act);
  }

  lemma ArrayKept(s: Setup, vec0: seq<seq<Complex>>, own: nat, a: Rank, act: Act)
    requires IsStart(s, vec0) && Enabled(s, a, act) && RankOk(s, vec0, own, a)
    ensures VecOk(s, vec0, own, Apply(s, own, a, act))
  {
    match act
    case WriteNext => WriteKeeps(s, vec0, own, a);
    case PushOld => PushOldKeeps(s, vec0, own, a);
    case _ => ArrayStays(s, vec0, own, a, act);
  }

  lemma CallsKept(s: Setup, own: nat, a: Rank, act: Act)
    requires Enabled(s, a, act)
    ensures Calls(Apply(s, own, a, act)) == Calls(a)
  {
    QueuesStep(s, own, a, act);
  }

  // The buffer a calling rank offers is the oldest one not yet exchanged, and
  // all ranks offer the same round.
  lemma CallingBuffer(s: Setup, vec0: seq<seq<Complex>>, own: nat, a: Rank)
    requires ContentsOk(s, vec0, own, a) && a.exchanger.Calling?
    ensures Back(a) != [] && Back(a)[0] == a.exchanger.buf < |a.bufs|
    ensures Sent(s, vec0[own], a.bufs[a.exchanger.buf], Calls(a))
  {
    assert Back(a)[0] == a.exchanger.buf;
    assert Sent(s, vec0[own], a.bufs[Back(a)[0]], Calls(a) + 0);
  }

  lemma ReceivedFromAll(s: Setup, vec0: seq<seq<Complex>>, w: seq<Rank>, c: nat)
    requires Inv(s, vec0, w) && AllCalling(w) && c < |w|
    ensures 0 <= Calls(w[c])
    ensures IsReceived(s, vec0, c, Exchange(s, w, c).bufs[w[c].exchanger.buf], Calls(w[c]))
  {
    var a, a', b := w[c], Exchange(s, w, c), w[c].exchanger.buf;
    CallingBuffer(s, vec0, c, a);
    FilledIsAddressed(vec0[c], a.bufs[b].svalues, a.bufs[b].indices, s.n, s.n * Calls(a), s.ls, s.lp);
    forall i, d | 0 <= i < s.n && 0 <= d < s.Size() ensures SlotReceived(s, vec0, c, a'.bufs[b].rvalues, Calls(a), i, d) {
      assert RankOk(s, vec0, d, w[d]);
      OneReceived(s, vec0, w, c, i, d);
    }
  }

  lemma OneReceived(s: Setup, vec0: seq<seq<Complex>>, w: seq<Rank>, c: nat, i: nat, d: nat)
    requires AllCalling(w) && |w| == s.Size() == |vec0| && c < |w| && i < s.n && d < |w|
    requires ContentsOk(s, vec0, d, w[d]) && 0 <= Calls(w[c]) == Calls(w[d])
    ensures SlotReceived(s, vec0, c, Exchange(s, w, c).bufs[w[c].exchanger.buf].rvalues, Calls(w[c]), i, d)
  {
    CallingBuffer(s, vec0, d, w[d]);
    SentSlot(s, vec0[d], w[d].bufs[w[d].exchanger.buf], Calls(w[d]), i, c);
    var everyone := seq(|w|, k requires 0 <= k => k);
    ReceivedSlot(SentBuffers(w), everyone, c, s.n, ZERO, d, i);
  }

  lemma SentSlot(s: Setup, v: seq<Complex>, b: Buffer, round: nat, i: nat, d: nat)
    requires Sent(s, v, b, round) && i < s.n && d < s.Size()
    ensures var slot, x := Slot(s.n, d, i), Cell(s.ls, s.lp, s.n * round + i, d);
            slot < |b.svalues| && x < |v| && b.svalues[slot] == v[x]
  {
    assert SlotFilled(v, b.svalues, b.indices, s.n, s.n * round, s.ls, s.lp, i, d);
  }

  // What the exchange does to one rank.
  lemma ExchangeRing(s: Setup, w: seq<Rank>, c: nat)
    requires AllCalling(w) && c < |w|
    ensures var a, a' := w[c], Exchange(s, w, c);
            && Back(a) == [a.exchanger.buf] + Back(a') && Front(a') == Front(a) + [a.exchanger.buf]
            && Ring(a') == Ring(a) && Held(a') == Held(a) && Done(a') == Done(a) && Calls(a') == Calls(a) + 1
  {
    var a, a', b := w[c], Exchange(s, w, c), w[c].exchanger.buf;
    assert Front(a') == Front(a) + [b];
    assert Back(a) == [b] + Back(a');
    assert Front(a) + ([b] + Back(a')) == (Front(a) + [b]) + Back(a');
  }

  lemma ExchangeKeepsBuffers(s: Setup, vec0: seq<seq<Complex>>, w: seq<Rank>, c: nat)
    requires Inv(s, vec0, w) && AllCalling(w) && c < |w|
    ensures EachOnce(s, Exchange(s, w, c)) && MarksOk(s, Exchange(s, w, c))
  {
    ExchangeRing(s, w, c);
    assert RankOk(s, vec0, c, w[c]);
  }

  lemma ExchangeKeepsArray(s: Setup, vec0: seq<seq<Complex>>, w: seq<Rank>, c: nat)
    requires AllCalling(w) && c < |w| && VecOk(s, vec0, c, w[c])
    ensures VecOk(s, vec0, c, Exchange(s, w, c))
  {
    ExchangeRing(s, w, c);
  }

  lemma ExchangeKeepsContents(s: Setup, vec0: seq<seq<Complex>>, w: seq<Rank>, c: nat)
    requires AllCalling(w) && c < |w| && EachOnce(s, w[c]) && ContentsOk(s, vec0, c, w[c])
    requires 0 <= Calls(w[c]) && IsReceived(s, vec0, c, Exchange(s, w, c).bufs[w[c].exchanger.buf], Calls(w[c]))
    ensures ContentsOk(s, vec0, c, Exchange(s, w, c))
  {
    var a, a', b := w[c], Exchange(s, w, c), w[c].exchanger.buf;
    ExchangeRing(s, w, c);
    CallingIsApart(s, a, Back(a'));
    FrontGrows(s, vec0, c, a.bufs, Front(a), Done(a), b, a'.bufs[b]);
    BackShrinks(s, vec0[c], a.bufs, b, Back(a'), Calls(a), a'.bufs[b]);
    HeldStays(s, vec0[c], a, a');
  }

  lemma CallingIsApart(s: Setup, a: Rank, rest: seq<nat>)
    requires EachOnce(s, a) && a.exchanger.Calling? && Back(a) == [a.exchanger.buf] + rest
    ensures a.exchanger.buf !in Front(a) && a.exchanger.buf !in rest
    ensures a.producer.Filling? ==> a.producer.buf != a.exchanger.buf
  {
    var r, b, k := Ring(a), a.exchanger.buf, |Front(a)|;
    assert r[k] == b;
    forall j | 0 <= j < |Front(a)| ensures Front(a)[j] != b {
      assert r[j] == Front(a)[j];
    }
    forall j | 0 <= j < |rest| ensures rest[j] != b {
      assert r[k + 1 + j] == rest[j];
    }
    if a.producer.Filling? {
      assert r[k + |Back(a)|] == a.producer.buf;
    }
  }

  lemma FrontGrows(s: Setup, vec0: seq<seq<Complex>>, own: nat, bufs: seq<Buffer>, front: seq<nat>, round: nat, b: nat, buf: Buffer)
    requires FrontHolds(s, vec0, own, bufs, front, round) && b < |bufs| && b !in front
    requires IsReceived(s, vec0, own, buf, round + |front|)
    ensures FrontHolds(s, vec0, own, bufs[b := buf], front + [b], round)
  {
  }

  lemma BackShrinks(s: Setup, v: seq<Complex>, bufs: seq<Buffer>, b: nat, rest: seq<nat>, round: nat, buf: Buffer)
    requires BackHolds(s, v, bufs, [b] + rest, round) && b < |bufs| && b !in rest
    ensures BackHolds(s, v, bufs[b := buf], rest, round + 1)
  {
    var now, next := bufs[b := buf], round + 1;
    forall j | 0 <= j < |rest| ensures rest[j] < |now| && Sent(s, v, now[rest[j]], next + j) {
      assert rest[j] == ([b] + rest)[j + 1];
      assert Sent(s, v, bufs[([b] + rest)[j + 1]], round + (j + 1));
    }
  }

  lemma HeldStays(s: Setup, v: seq<Complex>, a: Rank, a': Rank)
    requires HeldHolds(s, v, a) && a'.producer == a.producer && a'.next == a.next && |a'.bufs| == |a.bufs|
    requires a.producer.Filling? ==> a.producer.buf < |a.bufs| && a'.bufs[a.producer.buf] == a.bufs[a.producer.buf]
    ensures HeldHolds(s, v, a')
  {
  }

  // ----- the invariant of every run ---------------------------------------

  lemma ExchangeKeeps(s: Setup, vec0: seq<seq<Complex>>, w: seq<Rank>)
    requires Inv(s, vec0, w) && AllCalling(w)
    ensures Inv(s, vec0, ExchangeAll(s, w))
  {
    var w' := ExchangeAll(s, w);
    forall c | 0 <= c < |w'| ensures RankOk(s, vec0, c, w'[c]) && Calls(w'[c]) == Calls(w[c]) + 1 {
      RankExchanges(s, vec0, w, c);
      assert w'[c] == Exchange(s, w, c);
    }
  }

  lemma RankExchanges(s: Setup, vec0: seq<seq<Complex>>, w: seq<Rank>, c: nat)
    requires Inv(s, vec0, w) && AllCalling(w) && c < |w|
    ensures RankOk(s, vec0, c, Exchange(s, w, c)) && Calls(Exchange(s, w, c)) == Calls(w[c]) + 1
  {
    assert RankOk(s, vec0, c, w[c]);
    ReceivedFromAll(s, vec0, w, c);
    ExchangeRing(s, w, c);
    ExchangeKeepsBuffers(s, vec0, w, c);
    ExchangeKeepsArray(s, vec0, w, c);
    ExchangeKeepsContents(s, vec0, w, c);
  }

  // Whatever step comes next, the invariant holds after it.
  lemma StepKeeps(s: Setup, vec0: seq<seq<Complex>>, w: seq<Rank>, w': seq<Rank>)
    requires Inv(s, vec0, w) && Next(s, w, w')
    ensures Inv(s, vec0, w')
  {
    if AllCalling(w) && w' == ExchangeAll(s, w) {
      ExchangeKeeps(s, vec0, w);
    } else {
      var c: nat, act :| ThreadStep(s, w, w', c, act);
      OneRankKeeps(s, vec0, w, w', c, act);
    }
  }

  lemma OneRankKeeps(s: Setup, vec0: seq<seq<Complex>>, w: seq<Rank>, w': seq<Rank>, c: nat, act: Act)
    requires Inv(s, vec0, w) && ThreadStep(s, w, w', c, act)
    ensures Inv(s, vec0, w')
  {
    assert RankOk(s, vec0, c, w[c]);
    ThreadStepKeeps(s, vec0, c, w[c], act);
    forall d | 0 <= d < |w'| ensures RankOk(s, vec0, d, w'[d]) && Calls(w'[d]) == Calls(w[d]) {
      assert RankOk(s, vec0, d, w[d]);
    }
  }

  // ----- no deadlock ------------------------------------------------------

  ghost predicate RankFinal(a: Rank) {
    a.producer.ProducerDone? && a.exchanger.ExchangerDone? && a.consumer.ConsumerDone?
  }

  lemma RingSize(s: Setup, a: Rank)
    requires EachOnce(s, a)
    ensures |Front(a)| + |Back(a)| + |Held(a)| + |a.spare| == s.buffers
  {
  }

  // A rank that is neither finished nor waiting for the others can go on.
  lemma RankCanMove(s: Setup, a: Rank) returns (act: Act)
    requires EachOnce(s, a) && MarksOk(s, a) && s.buffers > 0 && !RankFinal(a) && !a.exchanger.Calling?
    ensures Enabled(s, a, act)
  {
    RingSize(s, a);
    if a.consumer.Writing? {
      act := if a.consumer.block < s.Size() then WriteNext else PushOld;
    } else if a.consumer.Idle? && a.exchanged != [] {
      act := PullFresh2;
    } else if a.exchanger.Returned? {
      act := PushFresh2;
    } else if a.exchanger.Ending? {
      act := PushNull2;
    } else if a.filled != [] {
      act := PullFresh;
    } else if a.producer.Filling? {
      act := if a.producer.row < s.n then FillNext else PushFresh;
    } else {
      act := if a.next < s.rounds then PullOld else PushNull;
    }
  }

  lemma FinalCalls(s: Setup, a: Rank)
    requires MarksOk(s, a)
    ensures RankFinal(a) ==> Calls(a) == s.rounds && Done(a) == s.rounds
  {
  }

  // No reachable state is stuck before every thread has finished.
  lemma NoDeadlock(s: Setup, vec0: seq<seq<Complex>>, w: seq<Rank>) returns (w': seq<Rank>)
    requires Inv(s, vec0, w) && !Final(w)
    ensures Next(s, w, w')
  {
    if c: nat :| c < |w| && !RankFinal(w[c]) && !w[c].exchanger.Calling? {
      assert RankOk(s, vec0, c, w[c]);
      var act := RankCanMove(s, w[c]);
      w' := w[c := Apply(s, c, w[c], act)];
      assert ThreadStep(s, w, w', c, act);
    } else {
      var c :| 0 <= c < |w| && !RankFinal(w[c]);
      forall d | 0 <= d < |w| ensures w[d].exchanger.Calling? && w[d].exchanger.buf < |w[d].bufs| {
        AllCall(s, vec0, w, c, d);
      }
      w' := ExchangeAll(s, w);
    }
  }

  lemma AllCall(s: Setup, vec0: seq<seq<Complex>>, w: seq<Rank>, c: nat, d: nat)
    requires Inv(s, vec0, w) && c < |w| && d < |w| && w[c].exchanger.Calling?
    requires RankFinal(w[d]) || w[d].exchanger.Calling?
    ensures w[d].exchanger.Calling? && w[d].exchanger.buf < |w[d].bufs|
  {
    assert RankOk(s, vec0, c, w[c]) && RankOk(s, vec0, d, w[d]) && Calls(w[c]) == Calls(w[d]);
    CallingIsBehind(s, vec0, c, w[c]);
    CallingIsBehind(s, vec0, d, w[d]);
    FinalCalls(s, w[d]);
  }

  lemma CallingIsBehind(s: Setup, vec0: seq<seq<Complex>>, own: nat, a: Rank)
    requires ContentsOk(s, vec0, own, a) && MarksOk(s, a)
    ensures a.exchanger.Calling? ==> Calls(a) < s.rounds && a.exchanger.buf < |a.bufs|
  {
    if a.exchanger.Calling? {
      CallingBuffer(s, vec0, own, a);
    }
  }

  // ----- termination ------------------------------------------------------

  ghost function Times(k: nat, a: nat): nat {
    if k == 0 then 0 else a + Times(k - 1, a)
  }

  lemma {:induction false} TimesGrows(k: nat, k': nat, a: nat)
    requires k <= k'
    ensures Times(k, a) <= Times(k', a)
  {
    if k < k' { TimesGrows(k, k' - 1, a); }
  }

  ghost function Left(s: Setup, done: int): nat {
    if done <= s.rounds then s.rounds - done else 0
  }

  // Upper bounds on the steps each thread has left: so many a round, less
  // what has been done of the current one.
  ghost function ProducerWork(s: Setup, p: Producer, next: nat): int {
    var perRound := Times(s.n + 1, s.Size() + 1) + 2;
    match p
    case Pulling => Times(Left(s, next), perRound) + 1
    case Filling(_, row, block) => Times(Left(s, next), perRound) - (Times(row, s.Size() + 1) + block)
    case ProducerDone => 0
  }

  ghost function ExchangerWork(s: Setup, x: Exchanger, calls: int): int {
    match x
    case Waiting => 3 * Left(s, calls) + 2
    case Calling(_) => 3 * Left(s, calls) + 1
    case Returned(_) => 3 * Left(s, calls) + 3
    case Ending => 1
    case ExchangerDone => 0
  }

  ghost function ConsumerWork(s: Setup, c: Consumer, done: int): int {
    var perRound := Times(s.Size() + 1, s.n + 1) + 2;
    match c
    case Idle => Times(Left(s, done), perRound) + 1
    case Writing(_, block, row) => Times(Left(s, done), perRound) - (Times(block, s.n + 1) + row)
    case ConsumerDone => 0
  }

  ghost function RankWork(s: Setup, a: Rank): int {
    ProducerWork(s, a.producer, a.next) + ExchangerWork(s, a.exchanger, Calls(a)) + ConsumerWork(s, a.consumer, Done(a))
  }

  ghost function Work(s: Setup, w: seq<Rank>): int {
    if w == [] then 0 else Work(s, w[..|w| - 1]) + RankWork(s, w[|w| - 1])
  }

  lemma Progress(rows: nat, cols: nat, row: nat, col: nat)
    requires row <= rows && col <= cols
    ensures Times(row, cols + 1) + col < Times(rows + 1, cols + 1)
  {
    TimesGrows(row + 1, rows + 1, cols + 1);
  }

  lemma WorkIsNatural(s: Setup, vec0: seq<seq<Complex>>, own: nat, a: Rank)
    requires RankOk(s, vec0, own, a)
    ensures RankWork(s, a) >= 0
  {
    if a.producer.Filling? {
      Progress(s.n, s.Size(), a.producer.row, a.producer.block);
    }
    if a.consumer.Writing? {
      ConsumerBuffer(a);
      Progress(s.Size(), s.n, a.consumer.block, a.consumer.row);
    }
  }

  // ----- every step is one of the steps left ------------------------------

  ghost predicate ProducerOnly(a: Rank, a': Rank) {
    a'.exchanger == a.exchanger && Calls(a') == Calls(a) && a'.consumer == a.consumer && Done(a') == Done(a)
  }

  ghost predicate ExchangerOnly(a: Rank, a': Rank) {
    a'.producer == a.producer && a'.next == a.next && a'.consumer == a.consumer && Done(a') == Done(a)
  }

  ghost predicate ConsumerOnly(a: Rank, a': Rank) {
    a'.producer == a.producer && a'.next == a.next && a'.exchanger == a.exchanger && Calls(a') == Calls(a)
  }

  lemma WhoMoves(s: Setup, own: nat, a: Rank, act: Act)
    requires Enabled(s, a, act)
    ensures act in {PullOld, FillNext, PushFresh, PushNull} ==> ProducerOnly(a, Apply(s, own, a, act))
    ensures act in {PullFresh, PushFresh2, PushNull2} ==> ExchangerOnly(a, Apply(s, own, a, act))
    ensures act in {PullFresh2, WriteNext, PushOld} ==> ConsumerOnly(a, Apply(s, own, a, act))
    ensures Calls(Apply(s, own, a, act)) == Calls(a)
    ensures Done(Apply(s, own, a, act)) == Done(a) + if act.PushOld? then 1 else 0
  {
    QueuesStep(s, own, a, act);
  }

  lemma FillAdvances(s: Setup, vec0: seq<seq<Complex>>, own: nat, a: Rank)
    requires IsStart(s, vec0) && own < |vec0| && Enabled(s, a, FillNext) && RankOk(s, vec0, own, a)
    ensures var b, row, block := a.producer.buf, a.producer.row, a.producer.block;
            Apply(s, own, a, FillNext).producer == if block >= s.Size() then Filling(b, row + 1, 0) else Filling(b, row, block + 1)
  {
    if a.producer.block < s.Size() {
      ReadsOld(s, vec0, own, a);
      SlotBound(s.n, a.producer.block, a.producer.row, s.Size());
    }
  }

  lemma WriteAdvances(s: Setup, vec0: seq<seq<Complex>>, own: nat, a: Rank)
    requires IsStart(s, vec0) && own < |vec0| && Enabled(s, a, WriteNext) && a.next <= s.rounds
    requires ContentsOk(s, vec0, own, a) && VecOk(s, vec0, own, a)
    ensures var b, block, row := a.consumer.buf, a.consumer.block, a.consumer.row;
            Apply(s, own, a, WriteNext).consumer
            == if block == own || row >= s.n then Writing(b, block + 1, 0) else Writing(b, block, row + 1)
  {
    if a.consumer.block != own && a.consumer.row < s.n {
      SlotInBuffer(s, vec0, own, a);
      TargetInRange(s, vec0, own, a);
    }
  }

  lemma TargetInRange(s: Setup, vec0: seq<seq<Complex>>, own: nat, a: Rank)
    requires IsStart(s, vec0) && a.consumer.Writing? && a.next <= s.rounds && VecOk(s, vec0, own, a)
    requires a.consumer.block < s.Size() && a.consumer.row < s.n
    ensures Cell(s.ls, s.lp, s.n * Done(a) + a.consumer.row, a.consumer.block) < |a.vec|
  {
    DoneBehind(s, a);
    MultiplesGrow(s.n, a.next, s.rounds);
    CellBound(s.ls, s.lp, s.n * Done(a) + a.consumer.row, a.consumer.block, s.m);
  }

  lemma ProducerWorks(s: Setup, vec0: seq<seq<Complex>>, own: nat, a: Rank, act: Act)
    requires IsStart(s, vec0) && own < |vec0| && Enabled(s, a, act) && RankOk(s, vec0, own, a)
    requires act in {PullOld, FillNext, PushFresh, PushNull}
    ensures var a' := Apply(s, own, a, act); ProducerWork(s, a'.producer, a'.next) < ProducerWork(s, a.producer, a.next)
  {
    if act.FillNext? {
      FillAdvances(s, vec0, own, a);
    } else if act.PushFresh? {
      Progress(s.n, s.Size(), a.producer.row, a.producer.block);
    }
  }

  lemma ConsumerWorks(s: Setup, vec0: seq<seq<Complex>>, own: nat, a: Rank, act: Act)
    requires IsStart(s, vec0) && own < |vec0| && Enabled(s, a, act) && RankOk(s, vec0, own, a)
    requires act in {PullFresh2, WriteNext, PushOld}
    ensures var a' := Apply(s, own, a, act); ConsumerWork(s, a'.consumer, Done(a')) < ConsumerWork(s, a.consumer, Done(a))
  {
    WhoMoves(s, own, a, act);
    if act.WriteNext? {
      WriteAdvances(s, vec0, own, a);
    } else if act.PushOld? {
      ConsumerBuffer(a);
      Progress(s.Size(), s.n, a.consumer.block, a.consumer.row);
    }
  }

  // Every step of a thread is one of the steps it has left.
  lemma StepWorks(s: Setup, vec0: seq<seq<Complex>>, own: nat, a: Rank, act: Act)
    requires IsStart(s, vec0) && own < |vec0| && Enabled(s, a, act) && RankOk(s, vec0, own, a)
    ensures RankWork(s, Apply(s, own, a, act)) < RankWork(s, a)
  {
    WhoMoves(s, own, a, act);
    if act in {PullOld, FillNext, PushFresh, PushNull} {
      ProducerWorks(s, vec0, own, a, act);
    } else if act in {PullFresh2, WriteNext, PushOld} {
      ConsumerWorks(s, vec0, own, a, act);
    }
  }

  lemma ExchangeWorks(s: Setup, vec0: seq<seq<Complex>>, w: seq<Rank>, c: nat)
    requires Inv(s, vec0, w) && AllCalling(w) && c < |w|
    ensures RankWork(s, Exchange(s, w, c)) < RankWork(s, w[c])
  {
    assert RankOk(s, vec0, c, w[c]);
    ExchangeRing(s, w, c);
    CallingIsBehind(s, vec0, c, w[c]);
  }

  lemma {:induction false} WorkUpdate(s: Setup, w: seq<Rank>, c: nat, a: Rank)
    requires c < |w|
    ensures Work(s, w[c := a]) == Work(s, w) - RankWork(s, w[c]) + RankWork(s, a)
  {
    var k := |w| - 1;
    if c == k {
      assert w[c := a][..k] == w[..k];
    } else {
      WorkUpdate(s, w[..k], c, a);
      assert w[c := a][..k] == w[..k][c := a];
    }
  }

  lemma {:induction false} WorkLess(s: Setup, w: seq<Rank>, w': seq<Rank>)
    requires |w| == |w'| && forall c :: 0 <= c < |w| ==> RankWork(s, w'[c]) < RankWork(s, w[c])
    ensures Work(s, w') <= Work(s, w) && (w != [] ==> Work(s, w') < Work(s, w))
  {
    if w != [] {
      WorkLess(s, w[..|w| - 1], w'[..|w| - 1]);
    }
  }

  lemma {:induction false} WorkNatural(s: Setup, w: seq<Rank>)
    requires forall c :: 0 <= c < |w| ==> RankWork(s, w[c]) >= 0
    ensures Work(s, w) >= 0
  {
    if w != [] {
      WorkNatural(s, w[..|w| - 1]);
    }
  }

  // Every step, of a thread or of all ranks together, uses up work.
  lemma NextWorks(s: Setup, vec0: seq<seq<Complex>>, w: seq<Rank>, w': seq<Rank>)
    requires Inv(s, vec0, w) && Next(s, w, w')
    ensures Work(s, w') < Work(s, w)
  {
    if AllCalling(w) && w' == ExchangeAll(s, w) {
      forall c | 0 <= c < |w| ensures RankWork(s, w'[c]) < RankWork(s, w[c]) {
        ExchangeWorks(s, vec0, w, c);
      }
      WorkLess(s, w, w');
    } else {
      var c: nat, act :| ThreadStep(s, w, w', c, act);
      assert RankOk(s, vec0, c, w[c]);
      StepWorks(s, vec0, c, w[c], act);
      WorkUpdate(s, w, c, Apply(s, c, w[c], act));
    }
  }

  // ----- runs -------------------------------------------------------------

  ghost predicate IsRun(s: Setup, vec0: seq<seq<Complex>>, run: seq<seq<Rank>>) {
    && run != [] && IsStart(s, vec0) && Initial(s, vec0, run[0])
    && forall i :: 0 < i < |run| ==> Next(s, run[i - 1], run[i])
  }

  // Every state of a run satisfies the invariant.
  lemma {:induction false} RunInvariant(s: Setup, vec0: seq<seq<Complex>>, run: seq<seq<Rank>>, k: nat)
    requires IsRun(s, vec0, run) && k < |run|
    ensures Inv(s, vec0, run[k]) && Work(s, run[k]) + k <= Work(s, run[0])
  {
    if k == 0 {
      InitialOk(s, vec0, run[0]);
    } else {
      RunInvariant(s, vec0, run, k - 1);
      StepKeeps(s, vec0, run[k - 1], run[k]);
      NextWorks(s, vec0, run[k - 1], run[k]);
    }
  }

  // No run is longer than the work at its start.
  lemma RunsEnd(s: Setup, vec0: seq<seq<Complex>>, run: seq<seq<Rank>>)
    requires IsRun(s, vec0, run)
    ensures |run| <= Work(s, run[0]) + 1
  {
    var last := |run| - 1;
    RunInvariant(s, vec0, run, last);
    forall c | 0 <= c < |run[last]| ensures RankWork(s, run[last][c]) >= 0 {
      WorkIsNatural(s, vec0, c, run[last][c]);
    }
    WorkNatural(s, run[last]);
  }

  // What a rank's array holds when its threads have finished.
  lemma FinalArray(s: Setup, vec0: seq<seq<Complex>>, w: seq<Rank>, c: nat, free: nat, d: nat)
    requires Inv(s, vec0, w) && Final(w) && c < |w| && free < s.n * s.rounds && d < s.Size()
    ensures var x, x' := Cell(s.ls, s.lp, free, d), Cell(s.ls, s.lp, free, c);
            && x < |w[c].vec| && x' < |vec0[d]|
            && w[c].vec[x] == vec0[d][x']
  {
    var a := w[c];
    assert RankOk(s, vec0, c, a);
    FinalCalls(s, a);
    assert CellNow(s, vec0, c, a.vec, s.n * Done(a), 0, 0, free, d);
  }

  // The pool outlives an exchange: at the end every buffer is back in the queue
  // of spare ones, rotated, and the next exchange may start from there.
  lemma FinalPool(s: Setup, vec0: seq<seq<Complex>>, w: seq<Rank>, c: nat)
    requires Inv(s, vec0, w) && Final(w) && c < |w|
    ensures RingOk(w[c].spare, s.buffers) && w[c].filled == [] && w[c].exchanged == []
    ensures |w[c].bufs| == s.buffers && forall b :: 0 <= b < s.buffers ==> BufferFits(s, w[c].bufs[b])
  {
    assert RankOk(s, vec0, c, w[c]);
    assert Ring(w[c]) == w[c].spare;
  }

  // A rank at the start of an exchange, with the pool it has.
  ghost function Restarted(a: Rank, vec: seq<Complex>): Rank {
    a.(vec := vec, producer := Pulling, next := 0, exchanger := Waiting, consumer := Idle)
  }

  // So the end of one exchange is the start of the next, whichever qubits that
  // one swaps and whatever has happened to the arrays in between.
  lemma EndIsStart(s: Setup, vec0: seq<seq<Complex>>, w: seq<Rank>, c: nat, s': Setup, vec: seq<Complex>)
    requires Inv(s, vec0, w) && Final(w) && c < |w|
    requires s'.Ok() && s'.buffers == s.buffers && s'.capacity == s.capacity
    ensures InitialRank(s', vec, Restarted(w[c], vec))
  {
    FinalPool(s, vec0, w, c);
  }

  ghost predicate Stuck(s: Setup, w: seq<Rank>) {
    forall w' :: !Next(s, w, w')
  }

  // A run that cannot be continued.
  ghost predicate IsMaximal(s: Setup, vec0: seq<seq<Complex>>, run: seq<seq<Rank>>) {
    IsRun(s, vec0, run) && Stuck(s, run[|run| - 1])
  }

  // Such a run has finished every thread, and has moved block c of rank d to
  // block d of rank c in every row.
  lemma MaximalRunIsComplete(s: Setup, vec0: seq<seq<Complex>>, run: seq<seq<Rank>>)
    requires IsMaximal(s, vec0, run)
    ensures var w := run[|run| - 1];
            && Inv(s, vec0, w) && Final(w)
            && forall c, free, d :: 0 <= c < |w| && 0 <= free < s.n * s.rounds && 0 <= d < s.Size() ==>
                 BlockMoved(s, vec0, w, c, free, d)
  {
    var w := run[|run| - 1];
    RunInvariant(s, vec0, run, |run| - 1);
    if !Final(w) {
      var w' := NoDeadlock(s, vec0, w);
    }
    forall c, free, d | 0 <= c < |w| && 0 <= free < s.n * s.rounds && 0 <= d < s.Size() ensures BlockMoved(s, vec0, w, c, free, d) {
      FinalArray(s, vec0, w, c, free, d);
    }
  }

  ghost predicate BlockMoved(s: Setup, vec0: seq<seq<Complex>>, w: seq<Rank>, c: nat, free: nat, d: nat) {
    var x, x' := Cell(s.ls, s.lp, free, d), Cell(s.ls, s.lp, free, c);
    && c < |w| && d < |vec0| && x < |w[c].vec| && x' < |vec0[d]|
    && w[c].vec[x] == vec0[d][x']
  }

  // ----- the same as round after round ------------------------------------

  // The arrays of the members of a rank's communicator.
  ghost function MembersOf(vec: seq<seq<Complex>>, r: nat, gs: seq<nat>): seq<seq<Complex>>
    requires forall c :: 0 <= c < Pow2(|gs|) ==> Member(r, gs, c) < |vec|
  {
    seq(Pow2(|gs|), c requires 0 <= c < Pow2(|gs|) => vec[Member(r, gs, c)])
  }

  // Every interleaving ends with the arrays that the ranks get when they work
  // chunk by chunk in lock-step.
  lemma SameAsSequential(s: Setup, vec: seq<seq<Complex>>, vec': seq<seq<Complex>>, r: nat, gs: seq<nat>, run: seq<seq<Rank>>, c: nat)
    requires s.Ok() && Increasing(gs) && |gs| == |s.lp| && c < Pow2(|gs|)
    requires Exchanged(vec, vec', s.m, gs, s.ls, s.lp)
    requires forall i :: 0 <= i < Pow2(|gs|) ==> Member(r, gs, i) < |vec|
    requires IsMaximal(s, MembersOf(vec, r, gs), run)
    ensures c < |run[|run| - 1]| && run[|run| - 1][c].vec == vec'[Member(r, gs, c)]
  {
    var vec0, w, q := MembersOf(vec, r, gs), run[|run| - 1], Member(r, gs, c);
    MaximalRunIsComplete(s, vec0, run);
    assert RankOk(s, vec0, c, w[c]);
    forall x | 0 <= x < Pow2(s.m) ensures x < |vec'[q]| && w[c].vec[x] == vec'[q][x] {
      SameIndexed(s, vec, vec', r, gs, vec0, w, c, x);
    }
  }

  lemma SameIndexed(s: Setup, vec: seq<seq<Complex>>, vec': seq<seq<Complex>>, r: nat, gs: seq<nat>,
                    vec0: seq<seq<Complex>>, w: seq<Rank>, c: nat, x: nat)
    requires s.Ok() && Increasing(gs) && |gs| == |s.lp| && c < Pow2(|gs|) && x < Pow2(s.m) && c < |w|
    requires Exchanged(vec, vec', s.m, gs, s.ls, s.lp)
    requires forall i :: 0 <= i < Pow2(|gs|) ==> Member(r, gs, i) < |vec|
    requires vec0 == MembersOf(vec, r, gs)
    requires forall free, d :: 0 <= free < s.n * s.rounds && 0 <= d < s.Size() ==> BlockMoved(s, vec0, w, c, free, d)
    ensures x < |w[c].vec| && x < |vec'[Member(r, gs, c)]| && w[c].vec[x] == vec'[Member(r, gs, c)][x]
  {
    var free, d := CellCovers(s.ls, s.lp, x, s.m);
    assert BlockMoved(s, vec0, w, c, free, d);
    SequentialCell(s, vec, vec', r, gs, c, free, d);
  }

  lemma SequentialCell(s: Setup, vec: seq<seq<Complex>>, vec': seq<seq<Complex>>, r: nat, gs: seq<nat>, c: nat, free: nat, d: nat)
    requires s.Ok() && Increasing(gs) && |gs| == |s.lp| && c < Pow2(|gs|) && d < Pow2(|gs|) && free < s.n * s.rounds
    requires Exchanged(vec, vec', s.m, gs, s.ls, s.lp)
    requires forall i :: 0 <= i < Pow2(|gs|) ==> Member(r, gs, i) < |vec|
    ensures var q, x, x' := Member(r, gs, c), Cell(s.ls, s.lp, free, d), Cell(s.ls, s.lp, free, c);
            && x < |vec'[q]| && x' < |vec[Member(r, gs, d)]|
            && vec'[q][x] == vec[Member(r, gs, d)][x']
  {
    var q := Member(r, gs, c);
    assert CellExchanged(vec, vec', gs, s.ls, s.lp, q, free, d);
    GatherOfMember(r, gs, c);
    MemberColor(r, gs, c);
  }
}
