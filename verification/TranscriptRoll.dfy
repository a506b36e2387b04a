/** Many recorders, one bounded uploader and its shutdown drain, as a state machine over their interleaved steps.
    A recorder is the state of an `S3StreamingRecorder`, which takes the same steps. */
module TranscriptRoll {
  import opened Wrappers
  import opened Settlement
  import opened SettleEntries
  import opened TranscriptStore
  import opened TranscriptStream

  const UPLOAD_BUDGET_CHUNKS: nat := 512
  const UPLOAD_WORKERS: nat := 32

  /** How far a `finish` call has come. */
  datatype Finishing = PuttingTail | Counting | Sealing(manifest: Manifest)

  /** The matches: their recorders, the tails being put, those put and those that failed, and all chunks ever cut. */
  datatype Sessions = Sessions(
    recorders: map<string, Recorder>,
    tails: seq<ChunkUpload>,
    kept: seq<ChunkUpload>,
    missed: seq<ChunkUpload>,
    finishing: map<string, Finishing>,
    manifests: map<string, Manifest>,
    cut: seq<ChunkUpload>)

  /** The dispatcher: pulling work, emptying the queue after the signal, waiting for the puts, ended. */
  datatype Phase = Looping | Draining | Waiting | Done

  /** The uploader: producers blocked on a full queue, the queue, the chunk being dispatched, the puts under way and
      what became of the others. `roll` is what the uploader had accepted when the signal came. */
  datatype Uploader = Uploader(
    outbox: seq<ChunkUpload>,
    queue: seq<ChunkUpload>,
    hand: seq<ChunkUpload>,
    puts: seq<ChunkUpload>,
    stored: seq<ChunkUpload>,
    failed: seq<ChunkUpload>,
    lost: seq<ChunkUpload>,
    phase: Phase,
    signalled: bool,
    roll: seq<ChunkUpload>)

  /** Where an object lives; distinct slots have distinct keys (`ChunkKeys.ChunkKeyInjective`). */
  datatype Slot = Slot(tunnelId: string, n: nat)

  type Bucket = map<Slot, Bytes>

  datatype State = State(sessions: Sessions, uploader: Uploader, bucket: Bucket)

  datatype SessionAction =
    | Open(t: string)
    | Buffer(t: string, e: SettleEntry)
    | BufferAndCut(t: string, e: SettleEntry)
    | StartFinish(t: string)
    | TailReturns(k: nat, landed: bool, ok: bool)
    | Count(t: string, root: Option<string>)
    | SealReturns(t: string, landed: bool)

  datatype UploadAction =
    | Send(k: nat)
    | Receive
    | Signal
    | EnterDrain
    | TryReceive
    | Launch
    | PutReturns(k: nat, landed: bool, ok: bool)
    | QueueEmpty
    | AllReturned

  datatype Action = InSession(session: SessionAction) | InUploader(upload: UploadAction)

  const INITIAL := State(Sessions(map[], [], [], [], map[], map[], []),
                         Uploader([], [], [], [], [], [], [], Looping, false, []),
                         map[])

  function RemoveAt<T>(s: seq<T>, k: nat): seq<T>
    requires k < |s|
  {
    s[..k] + s[k + 1..]
  }

  function Landed(bucket: Bucket, u: ChunkUpload, landed: bool): Bucket {
    if landed then bucket[Slot(u.tunnelId, u.n) := u.bytes] else bucket
  }

  // ---- The matches ----

  predicate SessionEnabled(s: Sessions, a: SessionAction) {
    match a
    case Open(t) => t !in s.recorders
    case Buffer(t, _) => t in s.recorders
    case BufferAndCut(t, _) => t in s.recorders
    case StartFinish(t) => t in s.recorders && t !in s.finishing
    // A put that returned without error stored its chunk; one that failed may have.
    case TailReturns(k, landed, ok) => k < |s.tails| && (ok ==> landed)
    case Count(t, _) => t in s.recorders && t in s.finishing && s.finishing[t] == Counting
    case SealReturns(t, _) => t in s.finishing && s.finishing[t].Sealing?
  }

  /** Close the buffer of `t`, holding `entries`, as its next chunk. */
  function Cut(s: Sessions, t: string, entries: seq<SettleEntry>): Sessions
    requires t in s.recorders
  {
    var r := s.recorders[t].(current := entries);
    s.(recorders := s.recorders[t := CutOff(r)], cut := s.cut + [ChunkOf(t, r)])
  }

  function SessionNext(s: Sessions, a: SessionAction): (s': Sessions)
    requires SessionEnabled(s, a)
    ensures a.BufferAndCut? ==> |s'.cut| == |s.cut| + 1
  {
    match a
    case Open(t) => s.(recorders := s.recorders[t := Recorder([], [])])
    case Buffer(t, e) =>
      s.(recorders := s.recorders[t := Buffered(s.recorders[t], e)])
    case BufferAndCut(t, e) => Cut(s, t, Buffered(s.recorders[t], e).current)
    case StartFinish(t) =>
      if s.recorders[t].current == [] then s.(finishing := s.finishing[t := Counting])
      else
        var closed := Cut(s, t, s.recorders[t].current);
        closed.(tails := s.tails + [closed.cut[|s.cut|]], finishing := s.finishing[t := PuttingTail])
    case TailReturns(k, _, ok) =>
      var u := s.tails[k];
      var returned := s.(tails := RemoveAt(s.tails, k), finishing := s.finishing[u.tunnelId := Counting]);
      if ok then returned.(kept := s.kept + [u]) else returned.(missed := s.missed + [u])
    case Count(t, root) =>
      var groups := s.recorders[t].groups;
      if groups == [] || root.None? then s.(finishing := s.finishing - {t})
      else
        s.(finishing := s.finishing[t := Sealing(
             Manifest(|groups|, TotalLength(Chunks(groups)), root.value, SETTLE_VERSION))])
    case SealReturns(t, landed) =>
      var done := s.(finishing := s.finishing - {t});
      if landed then done.(manifests := s.manifests[t := s.finishing[t].manifest]) else done
  }

  // ---- The uploader ----

  predicate UploadEnabled(s: Uploader, a: UploadAction) {
    match a
    case Send(k) => k < |s.outbox| && (s.phase == Done || |s.queue| < UPLOAD_BUDGET_CHUNKS)
    // The signal wins over waiting work; a chunk being dispatched occupies the dispatcher.
    case Receive => s.phase == Looping && !s.signalled && s.hand == [] && s.queue != []
    case Signal => !s.signalled
    case EnterDrain => s.phase == Looping && s.signalled && s.hand == []
    case TryReceive => s.phase == Draining && s.hand == [] && s.queue != []
    case Launch => s.hand != [] && |s.puts| < UPLOAD_WORKERS
    case PutReturns(k, landed, ok) => k < |s.puts| && (ok ==> landed)
    case QueueEmpty => s.phase == Draining && s.hand == [] && s.queue == []
    case AllReturned => s.phase == Waiting && s.puts == []
  }

  function UploadNext(s: Uploader, a: UploadAction): Uploader
    requires UploadEnabled(s, a)
  {
    match a
    case Send(k) =>
      if s.phase == Done then
        s.(outbox := RemoveAt(s.outbox, k), lost := s.lost + [s.outbox[k]])
      else
        s.(outbox := RemoveAt(s.outbox, k), queue := s.queue + [s.outbox[k]])
    case Receive => s.(hand := [s.queue[0]], queue := s.queue[1..])
    case Signal => s.(signalled := true, roll := s.queue + s.hand + s.puts + s.stored + s.failed)
    case EnterDrain => s.(phase := Draining)
    case TryReceive => s.(hand := [s.queue[0]], queue := s.queue[1..])
    case Launch => s.(hand := s.hand[1..], puts := s.puts + [s.hand[0]])
    case PutReturns(k, _, ok) =>
      var u := s.puts[k];
      if ok then s.(puts := RemoveAt(s.puts, k), stored := s.stored + [u])
      else s.(puts := RemoveAt(s.puts, k), failed := s.failed + [u])
    case QueueEmpty => s.(phase := Waiting)
    // The receiver is dropped with whatever was sent while the dispatcher waited.
    case AllReturned => s.(phase := Done, queue := [], lost := s.lost + s.queue)
  }

  // ---- Both ----

  predicate Enabled(s: State, a: Action) {
    match a
    case InSession(b) => SessionEnabled(s.sessions, b)
    case InUploader(b) => UploadEnabled(s.uploader, b)
  }

  /** A chunk cut during play goes to the producers' side of the uploader; puts that land change the bucket. */
  function Next(s: State, a: Action): State
    requires Enabled(s, a)
  {
    match a
    case InSession(b) =>
      var sessions := SessionNext(s.sessions, b);
      State(sessions,
            if b.BufferAndCut? then s.uploader.(outbox := s.uploader.outbox + [sessions.cut[|s.sessions.cut|]])
            else s.uploader,
            if b.TailReturns? then Landed(s.bucket, s.sessions.tails[b.k], b.landed) else s.bucket)
    case InUploader(b) =>
      State(s.sessions,
            UploadNext(s.uploader, b),
            if b.PutReturns? then Landed(s.bucket, s.uploader.puts[b.k], b.landed) else s.bucket)
  }

  ghost predicate Steps(s: State, s': State) {
    exists a :: Enabled(s, a) && Next(s, a) == s'
  }

  /** A run: states from the initial one, each reached from the one before by an enabled action. */
  ghost predicate IsRun(run: seq<State>) {
    && run != []
    && run[0] == INITIAL
    && forall i | 0 < i < |run| :: Steps(run[i - 1], run[i])
  }

  // ---- What every step keeps ----

  ghost function Copies(us: seq<ChunkUpload>, u: ChunkUpload): nat {
    multiset(us)[u]
  }

  ghost function WithSessions(s: Sessions, u: ChunkUpload): nat {
    Copies(s.tails, u) + Copies(s.kept, u) + Copies(s.missed, u)
  }

  ghost function WithUploader(s: Uploader, u: ChunkUpload): nat {
    Copies(s.outbox, u) + Copies(s.queue, u) + Copies(s.hand, u) + Copies(s.puts, u)
    + Copies(s.stored, u) + Copies(s.failed, u) + Copies(s.lost, u)
  }

  /** Every chunk cut is in exactly one place. */
  ghost predicate Conserved(s: State) {
    forall u :: Copies(s.sessions.cut, u) == WithSessions(s.sessions, u) + WithUploader(s.uploader, u)
  }

  ghost predicate IsChunkOf(recorders: map<string, Recorder>, t: string, n: nat, bytes: Bytes) {
    t in recorders && n < |recorders[t].groups| && bytes == EncodeAll(recorders[t].groups[n])
  }

  /** The chunks cut are the groups of the recorders, each cut once. */
  ghost predicate CutsExact(s: Sessions) {
    && (forall u | u in s.cut :: IsChunkOf(s.recorders, u.tunnelId, u.n, u.bytes))
    && (forall t, n: nat | t in s.recorders && n < |s.recorders[t].groups| ::
          ChunkUpload(t, n, EncodeAll(s.recorders[t].groups[n])) in s.cut)
    && (forall i, j | 0 <= i < j < |s.cut| :: s.cut[i] != s.cut[j])
  }

  /** Whatever the bucket holds is a chunk of its recorder. */
  ghost predicate Genuine(bucket: Bucket, recorders: map<string, Recorder>) {
    forall k | k in bucket :: IsChunkOf(recorders, k.tunnelId, k.n, bucket[k])
  }

  /** What was put without an error is in the bucket. */
  ghost predicate Holds(bucket: Bucket, us: seq<ChunkUpload>) {
    forall u | u in us :: Slot(u.tunnelId, u.n) in bucket
  }

  ghost predicate BucketExact(s: State) {
    && Genuine(s.bucket, s.sessions.recorders)
    && Holds(s.bucket, s.sessions.kept)
    && Holds(s.bucket, s.uploader.stored)
  }

  /** A manifest describes a non-empty prefix of its recorder's chunks. */
  ghost predicate Describes(m: Manifest, recorders: map<string, Recorder>, t: string) {
    && t in recorders
    && 0 < m.chunkCount <= |recorders[t].groups|
    && m.totalBytes == TotalLength(Chunks(recorders[t].groups[..m.chunkCount]))
  }

  ghost predicate ManifestsExact(s: Sessions) {
    && (forall t | t in s.manifests :: Describes(s.manifests[t], s.recorders, t))
    && (forall t | t in s.finishing && s.finishing[t].Sealing? :: Describes(s.finishing[t].manifest, s.recorders, t))
  }

  /** A tail being put belongs to a `finish` in that phase; no tunnel has two. */
  ghost predicate TailsOwned(s: Sessions) {
    && (forall u | u in s.tails :: u.tunnelId in s.finishing && s.finishing[u.tunnelId] == PuttingTail)
    && (forall i, j | 0 <= i < j < |s.tails| :: s.tails[i].tunnelId != s.tails[j].tunnelId)
  }

  /** Memory is bounded, and nothing is dropped before the dispatcher ends. */
  ghost predicate Bounded(s: Uploader) {
    && |s.queue| <= UPLOAD_BUDGET_CHUNKS && |s.hand| <= 1 && |s.puts| <= UPLOAD_WORKERS
    && (s.phase != Looping ==> s.signalled)
    && (s.phase.Waiting? || s.phase.Done? ==> s.hand == [])
    && (s.phase == Done ==> s.queue == [] && s.puts == [])
    && (s.phase != Done ==> s.lost == [])
    && (!s.signalled ==> s.roll == [])
  }

  /** Whatever the uploader had accepted at the signal is on its way, and put before the dispatcher ends. */
  ghost predicate RollKept(s: Uploader) {
    forall u | u in s.roll :: OnItsWay(s, u)
  }

  ghost predicate OnItsWay(s: Uploader, u: ChunkUpload) {
    || u in s.stored || u in s.failed
    || (s.phase != Done && u in s.puts)
    || ((s.phase.Looping? || s.phase.Draining?) && (u in s.queue || u in s.hand))
  }

  ghost predicate Inv(s: State) {
    && Conserved(s) && CutsExact(s.sessions) && BucketExact(s) && ManifestsExact(s.sessions)
    && TailsOwned(s.sessions) && Bounded(s.uploader) && RollKept(s.uploader)
  }

  // ---- What later states keep of earlier ones ----

  ghost predicate GroupsGrow(before: map<string, Recorder>, after: map<string, Recorder>) {
    forall t | t in before :: t in after && before[t].groups <= after[t].groups
  }

  ghost predicate UploaderGrows(s: Uploader, s': Uploader) {
    && (forall u | u in s.stored :: u in s'.stored)
    && (forall u | u in s.failed :: u in s'.failed)
    && (s.signalled ==> s'.signalled && s'.roll == s.roll)
  }

  ghost predicate BucketGrows(before: Bucket, after: Bucket) {
    forall k | k in before :: k in after
  }

  ghost predicate Grows(s: State, s': State) {
    && GroupsGrow(s.sessions.recorders, s'.sessions.recorders)
    && UploaderGrows(s.uploader, s'.uploader)
    && BucketGrows(s.bucket, s'.bucket)
  }
}
