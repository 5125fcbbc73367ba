/** The path of a complete spectrum through src/zmq_receiver.cpp: validation, the eight byte-limited
    write queues, and the writer threads. A queue is used under its lock, so each use is one step. */
module SpectrumWriters {
  import opened Wrappers
  import opened Bits

  const SPECTRUM_MAGIC: nat := 0x534C_5231
  const SPECTRUM_VERSION: nat := 3
  const MAX_GLOBAL_SUBBAND_ID: nat := 31
  const MAX_SPECTRUM_CHANNELS: nat := 65536 * 256
  const WRITER_COUNT: nat := 8
  const QUEUE_BYTES: nat := 256 * 1024 * 1024
  const FLOAT_BYTES: nat := 4

  /** The header fields that matter here; a NaN or infinite floating-point field is `None`. */
  datatype Header = Header(
    magic: nat, version: nat, timestamp: nat, start: nat, obsId: nat, subband: nat, window: nat, beam: nat,
    startFreq: Option<real>, channelBw: Option<real>, nChannels: nat, pktId: nat, totalPkt: nat, exposure: Option<real>)

  datatype Mode = Spectral | Continuum

  /** `validate_header`. */
  predicate ValidateHeader(h: Header, payloadBytes: nat, obsId: nat, mode: Mode) {
    && h.magic == SPECTRUM_MAGIC && h.version == SPECTRUM_VERSION && h.pktId == 0 && h.timestamp >= h.start
    && h.totalPkt == 1 && h.subband <= MAX_GLOBAL_SUBBAND_ID && h.beam <= 1 && h.nChannels != 0
    && h.obsId == obsId && h.nChannels <= MAX_SPECTRUM_CHANNELS
    && h.startFreq.Some? && h.channelBw.Some? && h.channelBw.value > 0.0 && h.exposure.Some? && h.exposure.value > 0.0
    && (if mode == Continuum then h.window == 0 && payloadBytes == FLOAT_BYTES
        else payloadBytes == h.nChannels * 4 * FLOAT_BYTES)
  }

  /** The largest payload let through is exactly the byte budget of a queue. */
  lemma PayloadFits(h: Header, payloadBytes: nat, obsId: nat)
    requires ValidateHeader(h, payloadBytes, obsId, Spectral)
    ensures 0 < payloadBytes <= QUEUE_BYTES
    ensures payloadBytes == QUEUE_BYTES <==> h.nChannels == MAX_SPECTRUM_CHANNELS
  {
  }

  datatype Job = Job(header: Header, server: nat, sequence: nat, payloadBytes: nat)

  /** What names an output file. */
  datatype BandKey = BandKey(
    subband: nat, window: nat, beam: nat, fStart: real, fStop: real, channelBw: real, nChannels: nat)

  function Real(x: Option<real>): real { if x.Some? then x.value else 0.0 }

  function KeyOf(h: Header): BandKey {
    var fStart, bw := Real(h.startFreq), Real(h.channelBw);
    BandKey(h.subband, h.window, h.beam, fStart, fStart + bw * h.nChannels as real, bw, h.nChannels)
  }

  /** `spectrum_writer_index`. */
  function WriterIndex(subband: nat, window: nat, beam: nat): (i: nat)
    ensures i < WRITER_COUNT
  {
    BitXor(BitXor(subband * 1315423911, window * 2654435761), beam * 2246822519) % WRITER_COUNT
  }

  function IndexOf(j: Job): (i: nat)
    ensures i < WRITER_COUNT
  {
    WriterIndex(j.header.subband, j.header.window, j.header.beam)
  }

  // ---- Spreading over the writers -----------------------------------------------------------

  lemma XorUnfold(x: nat, y: nat)
    ensures BitXor(x, y) == 2 * BitXor(x / 2, y / 2) + (if x % 2 == y % 2 then 0 else 1)
  {
  }

  lemma ModHalf(x: nat, h: nat)
    requires h >= 1
    ensures x % (2 * h) / 2 == x / 2 % h && x % (2 * h) % 2 == x % 2
  {
    ModDouble(x, h);
  }

  lemma {:induction false} XorMod(x: nat, y: nat, m: nat)
    requires IsPow2(m)
    ensures BitXor(x, y) % m == BitXor(x % m, y % m)
    decreases m
  {
    hide BitXor;
    if m == 1 {
      XorUnfold(0, 0);
    } else {
      var h := m / 2;
      XorMod(x / 2, y / 2, h);
      ModHalf(x, h);
      ModHalf(y, h);
      XorUnfold(x, y);
      XorUnfold(x % m, y % m);
      ModDouble(BitXor(x, y), h);
      XorHalf(x, y);
    }
  }

  lemma XorHalf(x: nat, y: nat)
    ensures BitXor(x, y) / 2 == BitXor(x / 2, y / 2) && BitXor(x, y) % 2 == if x % 2 == y % 2 then 0 else 1
  {
    XorUnfold(x, y);
  }

  lemma {:induction false} XorInjective(x: nat, y: nat, z: nat)
    ensures BitXor(x, z) == BitXor(y, z) <==> x == y
    decreases x + y + z
  {
    if x + y + z > 0 {
      XorHalf(x, z);
      XorHalf(y, z);
      XorInjective(x / 2, y / 2, z / 2);
    }
  }

  lemma MulMod(s: nat)
    ensures (s * 1315423911) % 8 == (8 - s % 8) % 8
  {
    var q, r := s / 8, s % 8;
    assert s * 1315423911 == 8 * (q * 1315423911 + r * 164427988) + r * 7;
    ModUnique(s * 1315423911, 8, q * 1315423911 + r * 164427988 + r * 7 / 8, r * 7 % 8);
  }

  /** The subbands of one window and beam share a writer exactly when they are 8 apart. */
  lemma WriterSpread(s: nat, t: nat, window: nat, beam: nat)
    ensures WriterIndex(s, window, beam) == WriterIndex(t, window, beam) <==> s % 8 == t % 8
  {
    hide BitXor;
    var w, b := window * 2654435761, beam * 2246822519;
    var x, y := s * 1315423911, t * 1315423911;
    XorMod(BitXor(x, w), b, 8);
    XorMod(BitXor(y, w), b, 8);
    XorMod(x, w, 8);
    XorMod(y, w, 8);
    XorInjective(BitXor(x % 8, w % 8), BitXor(y % 8, w % 8), b % 8);
    XorInjective(x % 8, y % 8, w % 8);
    MulMod(s);
    MulMod(t);
  }

  // ---- One queue ----------------------------------------------------------------------------

  datatype Queue = Queue(jobs: seq<Job>, queuedBytes: nat)

  function Payloads(jobs: seq<Job>): nat {
    if jobs == [] then 0 else jobs[0].payloadBytes + Payloads(jobs[1..])
  }

  /** The jobs are valid ones and the byte count is their sum, within the budget. */
  ghost predicate QueueOk(q: Queue) {
    && q.queuedBytes == Payloads(q.jobs) <= QUEUE_BYTES
    && forall i :: 0 <= i < |q.jobs| ==> q.jobs[i].payloadBytes <= QUEUE_BYTES
  }

  /** Whether `enqueue_spectrum_write` drops the job. An empty queue takes any job. */
  predicate Refuses(q: Queue, j: Job) { q.jobs != [] && q.queuedBytes + j.payloadBytes > QUEUE_BYTES }

  function Offer(q: Queue, j: Job): Queue {
    if Refuses(q, j) then q else Queue(q.jobs + [j], q.queuedBytes + j.payloadBytes)
  }

  /** The byte count as it is after the subtraction of `spectrum_writer_worker`, on 64 bits. */
  function Pop(q: Queue): Queue
    requires q.jobs != []
  {
    Queue(q.jobs[1..], (q.queuedBytes - q.jobs[0].payloadBytes) % WORD)
  }

  lemma {:induction false} PayloadsAppend(a: seq<Job>, j: Job)
    ensures Payloads(a + [j]) == Payloads(a) + j.payloadBytes
    decreases |a|
  {
    if a == [] {
      assert a + [j] == [j];
    } else {
      assert (a + [j])[1..] == a[1..] + [j];
      PayloadsAppend(a[1..], j);
    }
  }

  lemma OfferOk(q: Queue, j: Job)
    requires QueueOk(q) && j.payloadBytes <= QUEUE_BYTES
    ensures QueueOk(Offer(q, j))
  {
    PayloadsAppend(q.jobs, j);
  }

  /** The subtraction never underflows. */
  lemma PopOk(q: Queue)
    requires QueueOk(q) && q.jobs != []
    ensures q.queuedBytes >= q.jobs[0].payloadBytes && QueueOk(Pop(q))
  {
  }

  /** A `SpectrumWriteQueue`; each method is what happens between taking and giving back its lock. */
  class SpectrumWriteQueue {
    var jobs: seq<Job>
    var queuedBytes: nat

    ghost function View(): Queue
      reads this
    {
      Queue(jobs, queuedBytes)
    }

    ghost predicate Valid()
      reads this
    {
      QueueOk(View())
    }

    constructor ()
      ensures Valid() && View() == Queue([], 0)
    {
      jobs, queuedBytes := [], 0;
    }

    /** Lines 373-391. */
    method Enqueue(j: Job) returns (taken: bool)
      requires Valid() && j.payloadBytes <= QUEUE_BYTES
      modifies this
      ensures Valid() && View() == Offer(old(View()), j) && taken == !Refuses(old(View()), j)
      ensures taken ==> jobs == old(jobs) + [j]
      ensures !taken ==> jobs == old(jobs) != [] && Payloads(old(jobs)) + j.payloadBytes > QUEUE_BYTES
    {
      OfferOk(View(), j);
      if jobs != [] && queuedBytes + j.payloadBytes > QUEUE_BYTES {
        return false;
      }
      queuedBytes := queuedBytes + j.payloadBytes;
      jobs := jobs + [j];
      taken := true;
    }

    /** Lines 405-409, once the queue is not empty. */
    method Dequeue() returns (j: Job)
      requires Valid() && jobs != []
      modifies this
      ensures Valid() && View() == Pop(old(View())) && old(jobs) == [j] + jobs
      ensures queuedBytes == old(queuedBytes) - j.payloadBytes
    {
      PopOk(View());
      j := jobs[0];
      jobs := jobs[1..];
      queuedBytes := queuedBytes - j.payloadBytes;
    }
  }

  // ---- Receivers and writers -----------------------------------------------------------------

  /** The queues, the job each writer thread has taken and not finished, and as history every job
      not dropped, in the order of their enqueuing, and every write attempt with its writer. */
  datatype State = State(
    queues: seq<Queue>, inFlight: seq<Option<Job>>, accepted: seq<Job>, attempts: seq<(nat, Job)>)

  function Init(): State {
    State(seq(WRITER_COUNT, _ => Queue([], 0)), seq(WRITER_COUNT, _ => None), [], [])
  }

  /** A receiver enqueues a job; a writer takes one from its queue, or attempts to write the one it has. */
  datatype Action = Enqueue(job: Job) | Take(writer: nat) | Attempt(writer: nat)

  ghost predicate Sized(s: State) { |s.queues| == |s.inFlight| == WRITER_COUNT }

  function Next(s: State, a: Action): State
    requires Sized(s)
  {
    match a
    case Enqueue(j) =>
      var i := IndexOf(j);
      if Refuses(s.queues[i], j) then s
      else s.(queues := s.queues[i := Offer(s.queues[i], j)], accepted := s.accepted + [j])
    case Take(i) =>
      if i < WRITER_COUNT && s.inFlight[i].None? && s.queues[i].jobs != [] then
        s.(queues := s.queues[i := Pop(s.queues[i])], inFlight := s.inFlight[i := Some(s.queues[i].jobs[0])])
      else s
    case Attempt(i) =>
      if i < WRITER_COUNT && s.inFlight[i].Some? then
        s.(inFlight := s.inFlight[i := None], attempts := s.attempts + [(i, s.inFlight[i].value)])
      else s
  }

  /** The jobs of `s` for writer `i`, in order. */
  function ForWriter(s: seq<Job>, i: nat): seq<Job> {
    if s == [] then []
    else ForWriter(s[..|s| - 1], i) + (if IndexOf(s[|s| - 1]) == i then [s[|s| - 1]] else [])
  }

  function ForKey(s: seq<Job>, k: BandKey): seq<Job> {
    if s == [] then []
    else ForKey(s[..|s| - 1], k) + (if KeyOf(s[|s| - 1].header) == k then [s[|s| - 1]] else [])
  }

  /** The jobs writer `i` has attempted to write, in order. */
  function By(attempts: seq<(nat, Job)>, i: nat): seq<Job> {
    if attempts == [] then []
    else By(attempts[..|attempts| - 1], i)
         + (if attempts[|attempts| - 1].0 == i then [attempts[|attempts| - 1].1] else [])
  }

  function Jobs(attempts: seq<(nat, Job)>): seq<Job> {
    if attempts == [] then [] else Jobs(attempts[..|attempts| - 1]) + [attempts[|attempts| - 1].1]
  }

  function Held(o: Option<Job>): seq<Job> { if o.Some? then [o.value] else [] }

  /** Writer `i` has attempted, holds and has yet to take exactly the jobs accepted for it, in order. */
  ghost predicate Lane(s: State, i: nat)
    requires Sized(s) && i < WRITER_COUNT
  {
    && QueueOk(s.queues[i])
    && ForWriter(s.accepted, i) == By(s.attempts, i) + Held(s.inFlight[i]) + s.queues[i].jobs
  }

  ghost predicate Inv(s: State) {
    && Sized(s) && (forall i :: 0 <= i < WRITER_COUNT ==> Lane(s, i))
    && (forall k :: 0 <= k < |s.attempts| ==> s.attempts[k].0 == IndexOf(s.attempts[k].1))
    && (forall i :: 0 <= i < WRITER_COUNT && s.inFlight[i].Some? ==> IndexOf(s.inFlight[i].value) == i)
    && (forall i, k :: 0 <= i < WRITER_COUNT && 0 <= k < |s.queues[i].jobs| ==> IndexOf(s.queues[i].jobs[k]) == i)
  }

  lemma Snoc(s: seq<Job>, j: Job, i: nat, k: BandKey)
    ensures ForWriter(s + [j], i) == ForWriter(s, i) + (if IndexOf(j) == i then [j] else [])
    ensures ForKey(s + [j], k) == ForKey(s, k) + (if KeyOf(j.header) == k then [j] else [])
  {
    assert (s + [j])[..|s|] == s;
  }

  lemma BySnoc(a: seq<(nat, Job)>, w: nat, j: Job, i: nat)
    ensures By(a + [(w, j)], i) == By(a, i) + (if w == i then [j] else [])
    ensures Jobs(a + [(w, j)]) == Jobs(a) + [j]
  {
    assert (a + [(w, j)])[..|a|] == a;
  }

  lemma EnqueueOk(s: State, j: Job)
    requires Inv(s) && j.payloadBytes <= QUEUE_BYTES
    ensures Inv(Next(s, Enqueue(j)))
  {
    hide KeyOf, QueueOk, ForWriter, WriterIndex, IndexOf, Refuses;
    var i := IndexOf(j);
    assert Lane(s, i);
    OfferOk(s.queues[i], j);
    if !Refuses(s.queues[i], j) {
      var t := Next(s, Enqueue(j));
      forall m | 0 <= m < WRITER_COUNT ensures Lane(t, m) {
        Snoc(s.accepted, j, m, KeyOf(j.header));
        assert Lane(s, m);
        if m != i { assert ForWriter(t.accepted, m) == ForWriter(s.accepted, m); }
      }
    }
  }

  lemma TakeOk(s: State, i: nat)
    requires Inv(s)
    ensures Inv(Next(s, Take(i)))
  {
    hide KeyOf, QueueOk, ForWriter, WriterIndex, IndexOf, By;
    if i < WRITER_COUNT && s.inFlight[i].None? && s.queues[i].jobs != [] {
      var q := s.queues[i];
      assert Lane(s, i);
      PopOk(q);
      assert q.jobs == [q.jobs[0]] + q.jobs[1..];
      var t := Next(s, Take(i));
      forall m | 0 <= m < WRITER_COUNT ensures Lane(t, m) {
        assert Lane(s, m);
      }
    }
  }

  lemma AttemptOk(s: State, i: nat)
    requires Inv(s)
    ensures Inv(Next(s, Attempt(i)))
  {
    hide KeyOf, QueueOk, ForWriter, WriterIndex, IndexOf, By;
    if i < WRITER_COUNT && s.inFlight[i].Some? {
      var t := Next(s, Attempt(i));
      forall m | 0 <= m < WRITER_COUNT ensures Lane(t, m) {
        assert Lane(s, m);
        BySnoc(s.attempts, i, s.inFlight[i].value, m);
      }
    }
  }

  function Run(s: State, actions: seq<Action>): (r: State)
    requires Sized(s)
    ensures Sized(r)
    decreases |actions|
  {
    if actions == [] then s else Next(Run(s, actions[..|actions| - 1]), actions[|actions| - 1])
  }

  /** Only jobs that passed `validate_header` are enqueued. */
  ghost predicate Validated(actions: seq<Action>, obsId: nat) {
    forall i :: 0 <= i < |actions| && actions[i].Enqueue? ==>
      ValidateHeader(actions[i].job.header, actions[i].job.payloadBytes, obsId, Spectral)
  }

  lemma {:induction false} RunOk(actions: seq<Action>, obsId: nat)
    requires Validated(actions, obsId)
    ensures Inv(Run(Init(), actions))
    decreases |actions|
  {
    hide Lane, IndexOf, ValidateHeader;
    if actions == [] {
      InitOk();
    } else {
      RunOk(actions[..|actions| - 1], obsId);
      var s := Run(Init(), actions[..|actions| - 1]);
      match actions[|actions| - 1]
      case Enqueue(j) =>
        PayloadFits(j.header, j.payloadBytes, obsId);
        EnqueueOk(s, j);
      case Take(i) => TakeOk(s, i);
      case Attempt(i) => AttemptOk(s, i);
    }
  }

  lemma InitOk()
    ensures Inv(Init())
  {
    hide IndexOf, KeyOf;
  }

  // ---- What the run keeps ----------------------------------------------------------------------

  /** The writer of a file is determined by its key. */
  function WriterOf(k: BandKey): nat { WriterIndex(k.subband, k.window, k.beam) }

  lemma {:induction false} KeyInLane(s: seq<Job>, k: BandKey)
    ensures ForKey(ForWriter(s, WriterOf(k)), k) == ForKey(s, k)
    decreases |s|
  {
    hide WriterIndex;
    if s != [] {
      var t, j := s[..|s| - 1], s[|s| - 1];
      KeyInLane(t, k);
      assert s == t + [j];
      Snoc(t, j, WriterOf(k), k);
      Snoc(ForWriter(t, WriterOf(k)), j, 0, k);
      assert ForWriter(t, WriterOf(k)) + [] == ForWriter(t, WriterOf(k));
      assert ForKey(t, k) + [] == ForKey(t, k);
    }
  }

  lemma {:induction false} KeyAppend(a: seq<Job>, b: seq<Job>, k: BandKey)
    ensures ForKey(a + b, k) == ForKey(a, k) + ForKey(b, k)
    decreases |b|
  {
    hide KeyOf;
    if b == [] {
      assert a + b == a;
    } else {
      assert (a + b)[..|a + b| - 1] == a + b[..|b| - 1];
      KeyAppend(a, b[..|b| - 1], k);
    }
  }

  /** Only the writer of a key attempts its jobs. */
  lemma {:induction false} KeyByWriter(attempts: seq<(nat, Job)>, k: BandKey)
    requires forall i :: 0 <= i < |attempts| ==> attempts[i].0 == IndexOf(attempts[i].1)
    ensures ForKey(By(attempts, WriterOf(k)), k) == ForKey(Jobs(attempts), k)
    decreases |attempts|
  {
    hide WriterIndex;
    if attempts != [] {
      var t := attempts[..|attempts| - 1];
      var (w, j) := attempts[|attempts| - 1];
      KeyByWriter(t, k);
      assert attempts == t + [(w, j)];
      BySnoc(t, w, j, WriterOf(k));
      Snoc(By(t, WriterOf(k)), j, 0, k);
      Snoc(Jobs(t), j, 0, k);
      assert By(t, WriterOf(k)) + [] == By(t, WriterOf(k));
      assert ForKey(Jobs(t), k) + [] == ForKey(Jobs(t), k);
    }
  }

  /** Under every interleaving of any number of receivers and the eight writers: for each file, the
      jobs attempted, then the one in flight, then those queued are exactly the jobs accepted for
      it, in the order of acceptance; every attempt is made by the one writer of the file; and the
      byte count of every queue is the sum of its payloads and within the budget. */
  lemma WritersKeepOrder(actions: seq<Action>, obsId: nat, k: BandKey)
    requires Validated(actions, obsId)
    ensures var s := Run(Init(), actions); var i := WriterOf(k);
      && ForKey(s.accepted, k) ==
           ForKey(Jobs(s.attempts), k) + ForKey(Held(s.inFlight[i]), k) + ForKey(s.queues[i].jobs, k)
      && (forall n :: 0 <= n < |s.attempts| && KeyOf(s.attempts[n].1.header) == k ==> s.attempts[n].0 == i)
      && (forall m :: 0 <= m < WRITER_COUNT ==> QueueOk(s.queues[m]))
  {
    hide ForKey, ForWriter, By, Jobs, Run, QueueOk, Held, WriterIndex;
    RunOk(actions, obsId);
    var s, i := Run(Init(), actions), WriterOf(k);
    assert Lane(s, i) && forall m :: 0 <= m < WRITER_COUNT ==> Lane(s, m);
    KeyInLane(s.accepted, k);
    KeyAppend(By(s.attempts, i) + Held(s.inFlight[i]), s.queues[i].jobs, k);
    KeyAppend(By(s.attempts, i), Held(s.inFlight[i]), k);
    KeyByWriter(s.attempts, k);
    assert ForKey(s.accepted, k) ==
      ForKey(Jobs(s.attempts), k) + ForKey(Held(s.inFlight[i]), k) + ForKey(s.queues[i].jobs, k);
    forall m | 0 <= m < WRITER_COUNT ensures QueueOk(s.queues[m]) { assert Lane(s, m); }
    forall n | 0 <= n < |s.attempts| && KeyOf(s.attempts[n].1.header) == k ensures s.attempts[n].0 == i {
      assert s.attempts[n].0 == IndexOf(s.attempts[n].1);
    }
  }

  /** After every run: an offered job is accepted, and goes to the end of its writer's queue, exactly
      when that queue is empty or the payloads in it and this one are at most 256 MiB; otherwise it
      is dropped and nothing changes. A writer takes its oldest job, and attempts the one it has. */
  lemma ActionExact(actions: seq<Action>, obsId: nat, a: Action)
    requires Validated(actions, obsId)
    ensures var s, t := Run(Init(), actions), Next(Run(Init(), actions), a);
      match a
      case Enqueue(j) =>
        var i := IndexOf(j);
        if s.queues[i].jobs == [] || Payloads(s.queues[i].jobs) + j.payloadBytes <= 268_435_456 then
          && t.accepted == s.accepted + [j] && t.attempts == s.attempts && t.inFlight == s.inFlight
          && t.queues[i].jobs == s.queues[i].jobs + [j]
          && forall m :: 0 <= m < WRITER_COUNT && m != i ==> t.queues[m] == s.queues[m]
        else t == s
      case Take(i) =>
        if i < WRITER_COUNT && s.inFlight[i].None? && s.queues[i].jobs != [] then
          && t.accepted == s.accepted && t.attempts == s.attempts
          && t.inFlight == s.inFlight[i := Some(s.queues[i].jobs[0])] && t.queues[i].jobs == s.queues[i].jobs[1..]
          && forall m :: 0 <= m < WRITER_COUNT && m != i ==> t.queues[m] == s.queues[m]
        else t == s
      case Attempt(i) =>
        if i < WRITER_COUNT && s.inFlight[i].Some? then
          && t.accepted == s.accepted && t.queues == s.queues
          && t.attempts == s.attempts + [(i, s.inFlight[i].value)] && t.inFlight == s.inFlight[i := None]
        else t == s
  {
    hide ForWriter, By, Run, IndexOf, WriterIndex, ValidateHeader;
    RunOk(actions, obsId);
    var s := Run(Init(), actions);
    match a
    case Enqueue(j) => assert Lane(s, IndexOf(j));
    case Take(i) =>
    case Attempt(i) =>
  }
}
