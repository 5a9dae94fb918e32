/** Downloading a file from an agent: the agent's chunk stream, the server's bounded queue, and the HTTP response. */
module FileDownload {
  import opened Text
  import opened Json
  import JsonText

  type Bytes = seq<bv8>

  // ----- the agent -----

  datatype ReadStatus = More | Eof | Failed(error: string)

  /** What one call of File.Read returned: the bytes, and nil, io.EOF or another error. */
  datatype Read = Read(data: Bytes, status: ReadStatus)

  /** Messages carry bytes; base64 (section 4 of RFC 4648) and JSON are taken as lossless. */
  datatype Message = Chunk(data: Bytes, eof: bool) | Error(text: string)

  const DEFAULT_CHUNK := 256 * 1024
  const MAX_CHUNK := 1024 * 1024

  function ChunkSize(requested: int): (size: nat)
    ensures 0 < size <= MAX_CHUNK
  {
    if requested <= 0 || requested > MAX_CHUNK then DEFAULT_CHUNK else requested
  }

  /** The messages that a file read in this way gives rise to. */
  function Stream(rs: seq<Read>): seq<Message> {
    if rs == [] then []
    else
      var r := rs[0];
      if r.data != [] then [Chunk(r.data, r.status.Eof?)] + if r.status.Eof? then [] else Stream(rs[1..])
      else
        match r.status
        case Eof => [Chunk([], true)]
        case Failed(e) => [Error(e)]
        case More => Stream(rs[1..])
  }

  /** What the next read adds to the stream, and whether it ends it. */
  function NextMessages(r: Read): seq<Message> {
    if r.data != [] then [Chunk(r.data, r.status.Eof?)]
    else match r.status case Eof => [Chunk([], true)] case Failed(e) => [Error(e)] case More => []
  }

  predicate Last(r: Read) { r.status.Eof? || (r.data == [] && r.status.Failed?) }

  lemma {:induction false} StreamStep(rs: seq<Read>, i: nat)
    requires i < |rs|
    ensures Stream(rs[i..]) == NextMessages(rs[i]) + if Last(rs[i]) then [] else Stream(rs[i + 1..])
  {
    assert rs[i..][1..] == rs[i + 1..];
  }

  /** The messages that arrive when the write of one of them fails. */
  function Arriving(all: seq<Message>, writeFailsAt: Option<nat>): seq<Message> {
    if writeFailsAt.Some? && writeFailsAt.value < |all| then all[..writeFailsAt.value] else all
  }

  lemma {:induction false} SentSoFar(all: seq<Message>, sent: seq<Message>, next: seq<Message>, rest: seq<Message>)
    requires all == sent + (next + rest)
    ensures all == (sent + next) + rest && |sent| <= |all| && all[..|sent|] == sent
  {
  }

  /** The loop of runFsDownload. A failed write ends it; the message whose write fails does not arrive. */
  method SendChunks(rs: seq<Read>, writeFailsAt: Option<nat>) returns (sent: seq<Message>)
    ensures sent == Arriving(Stream(rs), writeFailsAt)
  {
    ghost var all, rest := Stream(rs), Stream(rs);
    assert rs[0..] == rs;
    sent := [];
    for i := 0 to |rs|
      invariant rest == Stream(rs[i..]) && all == sent + rest
      invariant writeFailsAt.Some? ==> writeFailsAt.value >= |sent|
    {
      var next := NextMessages(rs[i]);
      StreamStep(rs, i);
      rest := if Last(rs[i]) then [] else Stream(rs[i + 1..]);
      SentSoFar(all, sent, next, rest);
      if next != [] && writeFailsAt == Some(|sent|) {
        return;
      }
      sent := sent + next;
      if Last(rs[i]) {
        return;
      }
    }
  }

  lemma {:induction false} ChunksFit(rs: seq<Read>, size: nat)
    requires forall r | r in rs :: |r.data| <= size
    ensures forall m | m in Stream(rs) && m.Chunk? :: |m.data| <= size
  {
    if rs != [] {
      assert rs[0] in rs;
      ChunksFit(rs[1..], size);
    }
  }

  /** runFsDownload: the reads go into a buffer of the chunk size. */
  method RunFsDownload(requested: int, openError: Option<string>, rs: seq<Read>, writeFailsAt: Option<nat>)
    returns (sent: seq<Message>)
    requires forall r | r in rs :: |r.data| <= if 0 < requested <= 1048576 then requested else 262144
    ensures sent == Arriving(if openError.Some? then [Error(openError.value)] else Stream(rs), writeFailsAt)
    ensures forall m | m in sent && m.Chunk? :: |m.data| <= if 0 < requested <= 1048576 then requested else 262144
  {
    if openError.Some? {
      sent := if writeFailsAt == Some(0) then [] else [Error(openError.value)];
    } else {
      ChunksFit(rs, ChunkSize(requested));
      sent := SendChunks(rs, writeFailsAt);
    }
  }

  /** The reads reach the end of the file. */
  predicate EndsInEof(rs: seq<Read>) {
    rs != [] &&
    (rs[0].status.Eof? || (!(rs[0].data == [] && rs[0].status.Failed?) && EndsInEof(rs[1..])))
  }

  /** The bytes up to the last read: the file, if the reads reach its end. */
  function Content(rs: seq<Read>): Bytes {
    if rs == [] then [] else rs[0].data + if Last(rs[0]) then [] else Content(rs[1..])
  }

  function Payload(ms: seq<Message>): Bytes {
    if ms == [] then [] else (if ms[0].Chunk? then ms[0].data else []) + Payload(ms[1..])
  }

  /** A well-formed stream: data chunks, then one last message that alone says eof. */
  predicate Complete(ms: seq<Message>) {
    && ms != []
    && (forall i | 0 <= i < |ms| :: ms[i].Chunk? && (ms[i].eof <==> i == |ms| - 1))
  }

  /** A stream that broke off: data chunks, then one last message that alone is an error. */
  predicate Broken(ms: seq<Message>) {
    && ms != []
    && (forall i | 0 <= i < |ms| :: ms[i].Error? <==> i == |ms| - 1)
    && (forall i | 0 <= i < |ms| - 1 :: ms[i].Chunk? && !ms[i].eof)
  }

  /** The chunks of a file that is read to its end are the file, with eof on the last one and nowhere else. */
  lemma {:induction false} StreamIsTheFile(rs: seq<Read>)
    requires EndsInEof(rs)
    ensures Complete(Stream(rs)) && Payload(Stream(rs)) == Content(rs)
  {
    var r := rs[0];
    if !r.status.Eof? {
      StreamIsTheFile(rs[1..]);
      if r.data != [] {
        assert Stream(rs)[1..] == Stream(rs[1..]);
      }
    } else {
      assert Stream(rs)[1..] == [];
    }
  }

  predicate EndsInError(rs: seq<Read>) {
    rs != [] && !rs[0].status.Eof? &&
    ((rs[0].data == [] && rs[0].status.Failed?) || EndsInError(rs[1..]))
  }

  /** The error of the first read that returns nothing else. */
  function FailureOf(rs: seq<Read>): string
    requires EndsInError(rs)
  {
    if rs[0].data == [] && rs[0].status.Failed? then rs[0].status.error else FailureOf(rs[1..])
  }

  /** A file that cannot be read to its end is announced by exactly one, final, error: that of the read that failed. */
  lemma {:induction false} FailedReadIsAnnounced(rs: seq<Read>)
    requires EndsInError(rs)
    ensures Broken(Stream(rs)) && Payload(Stream(rs)) == Content(rs)
    ensures Stream(rs)[|Stream(rs)| - 1] == Error(FailureOf(rs))
  {
    var r := rs[0];
    if !(r.data == [] && r.status.Failed?) {
      FailedReadIsAnnounced(rs[1..]);
      if r.data != [] {
        assert Stream(rs)[1..] == Stream(rs[1..]);
      }
    }
  }

  // ----- the server -----

  const QUEUE_DEPTH := 8

  /** What travels from the hub to the HTTP handler; an empty err means none. */
  datatype FileChunk = FileChunk(data: Bytes, eof: bool, err: string)

  function ToFileChunk(m: Message): FileChunk {
    match m
    case Chunk(d, e) => FileChunk(d, e, "")
    case Error(t) => FileChunk([], false, TrimSpace(t))
  }

  /** U+001E */
  const SEPARATOR := 30 as char

  function WaitKey(certSerial: string, requestId: string): string {
    TrimSpace(certSerial) + [SEPARATOR] + TrimSpace(requestId)
  }

  lemma {:induction false} LastCut(a: string, b: string, x: string, y: string, c: char)
    requires a + [c] + x == b + [c] + y && c !in x && c !in y
    ensures a == b && x == y
  {
    var t := a + [c] + x;
    assert t[|a|] == c && t[|b|] == c;
    assert forall i | |a| < i < |t| :: t[i] == x[i - |a| - 1] && t[i] in x;
    assert forall i | |b| < i < |t| :: t[i] == y[i - |b| - 1] && t[i] in y;
    assert a == t[..|a|] && b == t[..|b|];
    assert x == t[|a| + 1..] && y == t[|b| + 1..];
  }

  /** Waiters of different certificates or requests have different keys: it is enough that the serials, which are decimal
      numbers, do not hold the separator, or that the request ids do not. */
  lemma {:induction false} WaitKeysDistinct(c: string, r: string, d: string, s: string)
    requires (SEPARATOR !in TrimSpace(c) && SEPARATOR !in TrimSpace(d))
          || (SEPARATOR !in TrimSpace(r) && SEPARATOR !in TrimSpace(s))
    requires WaitKey(c, r) == WaitKey(d, s)
    ensures TrimSpace(c) == TrimSpace(d) && TrimSpace(r) == TrimSpace(s)
  {
    if SEPARATOR !in TrimSpace(r) && SEPARATOR !in TrimSpace(s) {
      LastCut(TrimSpace(c), TrimSpace(d), TrimSpace(r), TrimSpace(s), SEPARATOR);
    } else {
      JsonText.CutUnique(TrimSpace(c), TrimSpace(d), TrimSpace(r), TrimSpace(s), SEPARATOR);
    }
  }

  /** What the hub takes a frame of a download for: a message of the agent, a frame it cannot decode, or the explicit end. */
  datatype Frame = Sent(message: Message) | Undecodable(error: string) | Done

  function Decoded(f: Frame): FileChunk {
    match f
    case Sent(m) => ToFileChunk(m)
    case Undecodable(e) => FileChunk([], false, e)
    case Done => FileChunk([], true, "")
  }

  /** The chunk says what the frame says: data and end as sent, an error without the white space around it, a frame that
      cannot be decoded as an error, and the explicit end as an end without data. */
  predicate Says(c: FileChunk, f: Frame) {
    match f
    case Sent(Chunk(data, eof)) => c == FileChunk(data, eof, "")
    case Sent(Error(text)) => c == FileChunk([], false, TrimSpace(text))
    case Undecodable(e) => c == FileChunk([], false, e)
    case Done => c == FileChunk([], true, "")
  }

  class Hub {
    /** the queue of every registered waiter */
    var waiters: map<string, seq<FileChunk>>

    ghost predicate Valid()
      reads this
    {
      forall k | k in waiters :: |waiters[k]| <= QUEUE_DEPTH
    }

    constructor ()
      ensures Valid() && waiters == map[]
    {
      waiters := map[];
    }

    /** RegisterFSDownloadWaiter */
    method Register(certSerial: string, requestId: string) returns (key: string)
      requires Valid()
      modifies this
      ensures Valid() && key == WaitKey(certSerial, requestId) && waiters == old(waiters)[key := []]
    {
      key := WaitKey(certSerial, requestId);
      waiters := waiters[key := []];
    }

    /** the cancel function it returns */
    method Cancel(key: string)
      requires Valid()
      modifies this
      ensures Valid() && waiters == old(waiters) - {key}
    {
      waiters := waiters - {key};
    }

    /** The handler's read from its channel. */
    method Receive(key: string) returns (c: FileChunk)
      requires Valid() && key in waiters && waiters[key] != []
      modifies this
      ensures Valid() && c == old(waiters)[key][0] && waiters == old(waiters)[key := old(waiters)[key][1..]]
    {
      c := waiters[key][0];
      waiters := waiters[key := waiters[key][1..]];
    }

    /** deliverFSDownload and trySendFSDownload: a frame for no waiter is ignored, one that finds the queue full
        is dropped, and no other waiter notices. */
    method Deliver(certSerial: string, requestId: string, f: Frame) returns (enqueued: bool)
      requires Valid()
      modifies this
      ensures Valid()
      ensures var key := WaitKey(certSerial, requestId);
              && enqueued == (key in old(waiters) && |old(waiters)[key]| < 8)
              && (enqueued ==> key in waiters && |waiters[key]| == |old(waiters)[key]| + 1
                               && Says(waiters[key][|old(waiters)[key]|], f))
              && waiters == if enqueued then old(waiters)[key := old(waiters)[key] + [Decoded(f)]] else old(waiters)
    {
      var key := WaitKey(certSerial, requestId);
      if key !in waiters { return false; }
      var c;
      match f {
        case Sent(m) => c := ToFileChunk(m);
        case Undecodable(e) => c := FileChunk([], false, e);
        case Done => c := FileChunk([], true, "");
      }
      enqueued := |waiters[key]| < QUEUE_DEPTH;
      if enqueued {
        waiters := waiters[key := waiters[key] + [c]];
      }
    }
  }

  // ----- one download, over every interleaving of deliveries and reads -----

  /** `coming` is what the agent has still to send, `response` what the client has got, `lost` the bytes of dropped
      chunks and `drops` their number; `done` says how the handler's loop has ended. */
  datatype Outcome = Running | Finished | Aborted | GaveUp

  datatype Transfer = Transfer(coming: seq<Message>, queue: seq<FileChunk>, response: Bytes, lost: Bytes, drops: nat, done: Outcome)

  /** A message arrives, the handler takes one from the queue, or it gives up: its time is over, or the client is gone. */
  datatype Move = Arrive | Take | GiveUp

  /** One turn of the handler's loop. */
  function TakeOne(t: Transfer): Transfer
    requires t.queue != []
  {
    var c := t.queue[0];
    var u := t.(queue := t.queue[1..]);
    if c.err != "" then u.(done := Aborted)
    else u.(response := t.response + c.data, done := if c.eof then Finished else Running)
  }

  function Advance(t: Transfer, m: Move): Transfer {
    match m
    case Arrive =>
      if t.coming == [] then t
      else
        var c, u := t.coming[0], t.(coming := t.coming[1..]);
        if t.done != Running then u
        else if |t.queue| < QUEUE_DEPTH then u.(queue := t.queue + [ToFileChunk(c)])
        else u.(lost := t.lost + Payload([c]), drops := t.drops + 1)
    case Take => if t.queue == [] || t.done != Running then t else TakeOne(t)
    case GiveUp => if t.done != Running then t else t.(done := GaveUp)
  }

  function Transferred(t: Transfer, moves: seq<Move>): Transfer {
    if moves == [] then t else Advance(Transferred(t, moves[..|moves| - 1]), moves[|moves| - 1])
  }

  function Begin(ms: seq<Message>): Transfer { Transfer(ms, [], [], [], 0, Running) }

  function QueuedBytes(q: seq<FileChunk>): Bytes {
    if q == [] then [] else q[0].data + QueuedBytes(q[1..])
  }

  lemma {:induction false} QueuedAppend(q: seq<FileChunk>, c: FileChunk)
    ensures QueuedBytes(q + [c]) == QueuedBytes(q) + c.data
  {
    if q == [] {
      assert q + [c] == [c] && [c][1..] == [];
    } else {
      assert (q + [c])[1..] == q[1..] + [c];
      QueuedAppend(q[1..], c);
      assert q[0].data + (QueuedBytes(q[1..]) + c.data) == q[0].data + QueuedBytes(q[1..]) + c.data;
    }
  }

  predicate IsFinal(m: Message) { m.Error? || m.eof }

  /** The tail of a stream that ends with `final`. */
  predicate Remaining(ms: seq<Message>, final: Message) {
    && (forall i | 0 <= i < |ms| :: IsFinal(ms[i]) <==> i == |ms| - 1)
    && (ms != [] ==> ms[|ms| - 1] == final)
  }

  predicate EndsLoop(c: FileChunk) { c.eof || c.err != "" }

  /** What every interleaving keeps about the end of the stream. */
  predicate EndKept(t: Transfer, final: Message) {
    && Remaining(t.coming, final) && IsFinal(final) && |t.queue| <= QUEUE_DEPTH
    && (forall i | 0 <= i < |t.queue| && EndsLoop(t.queue[i]) ::
          t.coming == [] && i == |t.queue| - 1 && t.queue[i] == ToFileChunk(final))
    && (t.done == Finished ==> final.Chunk? && t.coming == [] && t.queue == [])
    && (t.done == Aborted ==> final.Error? && TrimSpace(final.text) != "" && t.coming == [] && t.queue == [])
    && (t.drops == 0 && t.done == Running && t.coming == [] ==>
          if t.queue == [] then !EndsLoop(ToFileChunk(final)) else t.queue[|t.queue| - 1] == ToFileChunk(final))
  }

  /** What every interleaving keeps about the bytes. */
  predicate BytesKept(t: Transfer, file: Bytes) {
    && (t.drops == 0 ==> t.lost == [])
    && (t.done != GaveUp ==> |t.response| + |QueuedBytes(t.queue)| + |Payload(t.coming)| + |t.lost| == |file|)
    && (t.done != GaveUp && t.lost == [] ==> t.response + QueuedBytes(t.queue) + Payload(t.coming) == file)
    && |t.response| + |t.lost| <= |file|
    && (t.lost == [] ==> t.response <= file)
  }

  lemma {:induction false} ArriveKeepsEnd(t: Transfer, final: Message)
    requires EndKept(t, final) && t.coming != []
    ensures EndKept(Advance(t, Arrive), final)
  {
    assert IsFinal(t.coming[0]) <==> |t.coming| == 1;
  }

  lemma {:induction false} TakeKeepsEnd(t: Transfer, final: Message)
    requires EndKept(t, final) && t.queue != [] && t.done == Running
    ensures EndKept(Advance(t, Take), final)
  {
    if EndsLoop(t.queue[0]) { assert t.queue[1..] == []; }
  }

  lemma {:induction false} ArriveKeepsBytes(t: Transfer, file: Bytes, final: Message)
    requires BytesKept(t, file) && t.coming != [] && EndKept(t, final)
    ensures BytesKept(Advance(t, Arrive), file)
  {
    ArrivingBytes(t);
    if t.done == Running {
      if |t.queue| < QUEUE_DEPTH { EnqueueKeepsBytes(t, file); } else { DropKeepsBytes(t, file); }
    }
  }

  lemma {:induction false} EnqueueKeepsBytes(t: Transfer, file: Bytes)
    requires BytesKept(t, file) && t.coming != [] && t.done == Running && |t.queue| < QUEUE_DEPTH
    ensures BytesKept(Advance(t, Arrive), file)
  {
    ArrivingBytes(t);
    Regroup(t.response, QueuedBytes(t.queue), Payload([t.coming[0]]), Payload(t.coming[1..]));
  }

  lemma {:induction false} DropKeepsBytes(t: Transfer, file: Bytes)
    requires BytesKept(t, file) && t.coming != [] && t.done == Running && |t.queue| >= QUEUE_DEPTH
    ensures BytesKept(Advance(t, Arrive), file)
  {
    ArrivingBytes(t);
    var p := Payload([t.coming[0]]);
    if t.lost + p == [] { assert p == [] && t.lost == [] && [] + Payload(t.coming[1..]) == Payload(t.coming[1..]); }
  }

  lemma {:induction false} Regroup(r: Bytes, q: Bytes, c: Bytes, p: Bytes)
    ensures r + (q + c) + p == r + q + (c + p)
  {
  }

  lemma {:induction false} ArrivingBytes(t: Transfer)
    requires t.coming != []
    ensures Payload(t.coming) == Payload([t.coming[0]]) + Payload(t.coming[1..])
    ensures QueuedBytes(t.queue + [ToFileChunk(t.coming[0])]) == QueuedBytes(t.queue) + Payload([t.coming[0]])
  {
    var c := t.coming[0];
    assert [c][1..] == [] && Payload([c]) == ToFileChunk(c).data;
    QueuedAppend(t.queue, ToFileChunk(c));
  }

  lemma {:induction false} TakeKeepsBytes(t: Transfer, file: Bytes, final: Message)
    requires BytesKept(t, file) && t.queue != [] && t.done == Running && EndKept(t, final)
    ensures BytesKept(Advance(t, Take), file)
  {
    var c := t.queue[0];
    assert QueuedBytes(t.queue) == c.data + QueuedBytes(t.queue[1..]);
    if c.err != "" { assert c == ToFileChunk(final) && c.data == []; }
    var r, q, p := t.response, QueuedBytes(t.queue[1..]), Payload(t.coming);
    assert r + c.data + q + p == r + (c.data + q) + p;
    assert r + c.data + q + p == (r + c.data) + (q + p);
  }

  lemma {:induction false} TransferKeeps(ms: seq<Message>, moves: seq<Move>, final: Message)
    requires ms != [] && Remaining(ms, final)
    ensures EndKept(Transferred(Begin(ms), moves), final) && BytesKept(Transferred(Begin(ms), moves), Payload(ms))
    decreases |moves|
  {
    if moves == [] {
      assert [] + [] + Payload(ms) == Payload(ms);
    } else {
      TransferKeeps(ms, moves[..|moves| - 1], final);
      AdvanceKeeps(Transferred(Begin(ms), moves[..|moves| - 1]), moves[|moves| - 1], Payload(ms), final);
    }
  }

  lemma {:induction false} AdvanceKeeps(t: Transfer, m: Move, file: Bytes, final: Message)
    requires EndKept(t, final) && BytesKept(t, file)
    ensures EndKept(Advance(t, m), final) && BytesKept(Advance(t, m), file)
  {
    if m == Arrive && t.coming != [] {
      ArriveKeepsEnd(t, final);
      ArriveKeepsBytes(t, file, final);
    } else if m == Take && t.queue != [] && t.done == Running {
      TakeKeepsEnd(t, final);
      TakeKeepsBytes(t, file, final);
    }
  }

  // ----- the handler takes these moves -----

  /** A download request in progress. */
  class Handler {
    const hub: Hub
    const certSerial: string
    const requestId: string
    var response: Bytes
    var done: Outcome

    /** Registers for the chunks of this request. */
    constructor (hub: Hub, certSerial: string, requestId: string)
      requires hub.Valid()
      modifies hub
      ensures this.hub == hub && this.certSerial == certSerial && this.requestId == requestId
      ensures hub.Valid() && hub.waiters == old(hub.waiters)[WaitKey(certSerial, requestId) := []]
      ensures forall ms :: IsAt(Begin(ms))
    {
      this.hub, this.certSerial, this.requestId := hub, certSerial, requestId;
      response, done := [], Running;
      new;
      var _ := hub.Register(certSerial, requestId);
    }

    function Key(): string { WaitKey(certSerial, requestId) }

    /** The handler and its waiter are where the transfer is. */
    ghost predicate IsAt(t: Transfer)
      reads this, hub
    {
      && response == t.response && done == t.done
      && (done == Running ==> Key() in hub.waiters && hub.waiters[Key()] == t.queue)
    }

    /** One turn of the loop, with a chunk from the queue. */
    method Turn(ghost t: Transfer)
      requires hub.Valid() && IsAt(t) && done == Running && hub.waiters[Key()] != []
      modifies this, hub
      ensures hub.Valid() && IsAt(Advance(t, Take)) && OthersAlone(old(hub.waiters))
    {
      var c := hub.Receive(Key());
      if c.err != "" {
        Return(Aborted);
        return;
      }
      response := response + c.data;
      if c.eof { Return(Finished); }
    }

    /** The loop ends: the request's time is over, the client is gone, or the last chunk came. */
    method Return(how: Outcome)
      requires hub.Valid() && how != Running
      modifies this`done, hub
      ensures hub.Valid() && done == how && OthersAlone(old(hub.waiters))
    {
      done := how;
      hub.Cancel(Key());
    }

    ghost predicate OthersAlone(before: map<string, seq<FileChunk>>)
      reads hub
    {
      forall k | k != Key() :: (k in hub.waiters <==> k in before) && (k in before ==> hub.waiters[k] == before[k])
    }

    /** The loop, in any interleaving with the messages of the agent: it goes through the moves of the transfer. */
    method Serve(ms: seq<Message>, moves: seq<Move>)
      requires hub.Valid() && IsAt(Begin(ms))
      modifies this, hub
      ensures hub.Valid() && IsAt(Transferred(Begin(ms), moves)) && OthersAlone(old(hub.waiters))
    {
      ghost var t := Begin(ms);
      var next := 0;
      for i := 0 to |moves|
        invariant hub.Valid() && OthersAlone(old(hub.waiters))
        invariant IsAt(t) && t == Transferred(Begin(ms), moves[..i])
        invariant next <= |ms| && t.coming == ms[next..]
      {
        assert moves[..i + 1] == moves[..i] + [moves[i]];
        TransferredSnoc(Begin(ms), moves[..i], moves[i]);
        match moves[i] {
          case Arrive =>
            if next < |ms| {
              assert ms[next..][0] == ms[next] && ms[next..][1..] == ms[next + 1..];
              var _ := hub.Deliver(certSerial, requestId, Sent(ms[next]));
              next := next + 1;
            }
          case Take =>
            if done == Running && hub.waiters[Key()] != [] { Turn(t); }
          case GiveUp =>
            if done == Running { Return(GaveUp); }
        }
        t := Advance(t, moves[i]);
      }
      assert moves[..|moves|] == moves;
    }
  }

  // ----- a drop shows in the response -----

  predicate FullButLast(ms: seq<Message>) { forall i | 0 <= i < |ms| - 1 :: ms[i].Chunk? && ms[i].data != [] }

  /** If something was dropped but no byte was lost, it was the end of the stream, and the response never finishes. */
  predicate DropsKept(t: Transfer) {
    && FullButLast(t.coming)
    && (t.drops > 0 && t.lost == [] ==>
          t.coming == [] && t.done != Finished && forall i | 0 <= i < |t.queue| :: !EndsLoop(t.queue[i]))
  }

  lemma {:induction false} ArriveKeepsDrops(t: Transfer, final: Message)
    requires EndKept(t, final) && DropsKept(t) && t.coming != []
    ensures DropsKept(Advance(t, Arrive))
  {
    var c := t.coming[0];
    if c.Chunk? && c.data != [] { assert Payload([c]) == c.data + Payload([c][1..]); }
    assert IsFinal(t.coming[0]) <==> |t.coming| == 1;
  }

  lemma {:induction false} TakeKeepsDrops(t: Transfer)
    requires DropsKept(t) && t.queue != [] && t.done == Running
    ensures DropsKept(Advance(t, Take))
  {
  }

  lemma {:induction false} AdvanceKeepsDrops(t: Transfer, m: Move, final: Message)
    requires EndKept(t, final) && DropsKept(t)
    ensures DropsKept(Advance(t, m))
  {
    if m == Arrive && t.coming != [] { ArriveKeepsDrops(t, final); }
    if m == Take && t.queue != [] && t.done == Running { TakeKeepsDrops(t); }
  }

  lemma {:induction false} TransferKeepsDrops(ms: seq<Message>, moves: seq<Move>, final: Message)
    requires ms != [] && Remaining(ms, final) && FullButLast(ms)
    ensures DropsKept(Transferred(Begin(ms), moves))
    decreases |moves|
  {
    if moves != [] {
      TransferKeepsDrops(ms, moves[..|moves| - 1], final);
      TransferKeeps(ms, moves[..|moves| - 1], final);
      AdvanceKeepsDrops(Transferred(Begin(ms), moves[..|moves| - 1]), moves[|moves| - 1], final);
    }
  }

  /** In every interleaving of a file that is read to its end: while nothing was lost the response is a prefix of the
      file, and a finished response is the file exactly if no send found the queue full. If none did, then once everything
      has arrived and been taken, the response is finished, unless the handler gave up. */
  lemma {:induction false} DownloadFidelity(rs: seq<Read>, moves: seq<Move>)
    requires EndsInEof(rs)
    ensures var t := Transferred(Begin(Stream(rs)), moves);
            && t.done != Aborted
            && (t.lost == [] ==> t.response <= Content(rs))
            && (t.done == Finished ==> (t.response == Content(rs) <==> t.drops == 0))
            && |t.response| + |t.lost| <= |Content(rs)|
            && (t.drops == 0 && t.coming == [] && t.queue == [] && t.done != GaveUp ==>
                  t.done == Finished && t.response == Content(rs))
  {
    StreamIsTheFile(rs);
    TransferKeeps(Stream(rs), moves, Stream(rs)[|Stream(rs)| - 1]);
    ChunksHoldBytes(rs);
    TransferKeepsDrops(Stream(rs), moves, Stream(rs)[|Stream(rs)| - 1]);
    var t := Transferred(Begin(Stream(rs)), moves);
    if t.coming == [] && t.queue == [] { assert t.response + [] + [] == t.response; }
  }

  /** In every interleaving of a file that cannot be read to its end: the response never finishes, and while nothing was
      lost it is a prefix of the bytes read. If no send found the queue full, then once everything has arrived and been
      taken, it is those bytes, and the handler has returned because of the error, unless it gave up or the error has no
      text, when it still waits. */
  lemma {:induction false} BrokenDownload(rs: seq<Read>, moves: seq<Move>)
    requires EndsInError(rs)
    ensures var t, ms := Transferred(Begin(Stream(rs)), moves), Stream(rs);
            && t.done != Finished
            && (t.lost == [] ==> t.response <= Content(rs))
            && |t.response| + |t.lost| <= |Content(rs)|
            && ms != [] && ms[|ms| - 1].Error?
            && (t.drops == 0 && t.coming == [] && t.queue == [] && t.done != GaveUp ==>
                  t.response == Content(rs)
                  && (t.done == Aborted <==> TrimSpace(ms[|ms| - 1].text) != ""))
  {
    FailedReadIsAnnounced(rs);
    TransferKeeps(Stream(rs), moves, Stream(rs)[|Stream(rs)| - 1]);
    var t := Transferred(Begin(Stream(rs)), moves);
    if t.coming == [] && t.queue == [] { assert t.response + [] + [] == t.response; }
  }

  /** What the client can tell: the status line was sent before the first chunk, so only the bytes, and whether the handler
      has returned. */
  function Seen(t: Transfer): (Bytes, bool) { (t.response, t.done != Running) }

  /** An observation on what the handler's return tells: whatever a transfer ends in, the client sees what it would see of a complete download of just those bytes. */
  lemma {:induction false} EndLooksComplete(t: Transfer)
    requires t.done != Running
    ensures var rs := [Read(t.response, Eof)];
      EndsInEof(rs) && Content(rs) == t.response
      && Transferred(Begin(Stream(rs)), [Arrive] + [Take]).done == Finished
      && Seen(Transferred(Begin(Stream(rs)), [Arrive] + [Take])) == Seen(t)
  {
    var ms := Stream([Read(t.response, Eof)]);
    assert ms == [Chunk(t.response, true)];
    TransferredSnoc(Begin(ms), [], Arrive);
    TransferredSnoc(Begin(ms), [Arrive], Take);
    assert [] + [Arrive] == [Arrive] && ms[1..] == [];
    var u := Transferred(Begin(ms), [Arrive]);
    assert u == Advance(Begin(ms), Arrive) && u.queue == [] + [FileChunk(t.response, true, "")];
    assert u.response + t.response == t.response;
  }

  // ----- a lost chunk goes unnoticed -----

  function Repeat(m: Move, n: nat): seq<Move> { seq(n, _ => m) }

  lemma {:induction false} TransferredSnoc(t: Transfer, moves: seq<Move>, m: Move)
    ensures Transferred(t, moves + [m]) == Advance(Transferred(t, moves), m)
  {
    assert (moves + [m])[..|moves|] == moves;
  }

  lemma {:induction false} RepeatSnoc(m: Move, n: nat)
    ensures Repeat(m, n + 1) == Repeat(m, n) + [m]
  {
  }

  /** Messages that arrive while nobody reads fill the queue and are then dropped. */
  lemma {:induction false} OnlyArrivals(ms: seq<Message>, n: nat)
    requires n <= |ms|
    ensures var t := Transferred(Begin(ms), Repeat(Arrive, n));
            && t.done == Running && t.response == [] && t.coming == ms[n..]
            && |t.queue| == (if n < QUEUE_DEPTH then n else QUEUE_DEPTH)
            && (forall i | 0 <= i < |t.queue| :: t.queue[i] == ToFileChunk(ms[i]))
            && (n > QUEUE_DEPTH ==> |t.lost| >= |Payload([ms[QUEUE_DEPTH]])|)
  {
    if n > 0 {
      OnlyArrivals(ms, n - 1);
      RepeatSnoc(Arrive, n - 1);
      TransferredSnoc(Begin(ms), Repeat(Arrive, n - 1), Arrive);
      assert ms[n - 1..][1..] == ms[n..] && ms[n - 1..][0] == ms[n - 1];
    }
  }

  lemma {:induction false} OnlyTakes(t: Transfer, moves: seq<Move>, n: nat)
    requires var u := Transferred(t, moves);
             && u.done == Running && n <= |u.queue|
             && forall i | 0 <= i < n :: u.queue[i].err == "" && !u.queue[i].eof
    ensures var u, v := Transferred(t, moves), Transferred(t, moves + Repeat(Take, n));
            v.done == Running && v.queue == u.queue[n..] && v.coming == u.coming && v.lost == u.lost
  {
    var u := Transferred(t, moves);
    if n == 0 {
      assert moves + Repeat(Take, 0) == moves;
    } else {
      OnlyTakes(t, moves, n - 1);
      RepeatSnoc(Take, n - 1);
      assert moves + Repeat(Take, n) == moves + Repeat(Take, n - 1) + [Take];
      TransferredSnoc(t, moves + Repeat(Take, n - 1), Take);
      assert u.queue[n - 1..][0] == u.queue[n - 1] && u.queue[n - 1..][1..] == u.queue[n..];
    }
  }

  /** From a state with nothing queued and only the eof message to come, the download finishes. */
  lemma {:induction false} LastMessageFinishes(t: Transfer, moves: seq<Move>, last: Message)
    requires var u := Transferred(t, moves); u.done == Running && u.coming == [last] && u.queue == []
    requires last.Chunk? && last.eof
    ensures var v := Transferred(t, moves + [Arrive] + [Take]);
            v.done == Finished && v.lost == Transferred(t, moves).lost
  {
    TransferredSnoc(t, moves, Arrive);
    TransferredSnoc(t, moves + [Arrive], Take);
    assert Transferred(t, moves + [Arrive]).queue == [ToFileChunk(last)];
  }

  lemma {:induction false} LosingMoves(ms: seq<Message>) returns (moves: seq<Move>)
    requires Complete(ms) && |ms| > QUEUE_DEPTH + 1 && ms[QUEUE_DEPTH].data != []
    ensures var t := Transferred(Begin(ms), moves); t.done == Finished && t.lost != []
  {
    var n := |ms| - 1;
    OnlyArrivals(ms, n);
    OnlyTakes(Begin(ms), Repeat(Arrive, n), QUEUE_DEPTH);
    assert ms[n..] == [ms[n]];
    var drained := Repeat(Arrive, n) + Repeat(Take, QUEUE_DEPTH);
    LastMessageFinishes(Begin(ms), drained, ms[n]);
    moves := drained + [Arrive] + [Take];
    assert Payload([ms[QUEUE_DEPTH]]) == ms[QUEUE_DEPTH].data + Payload([ms[QUEUE_DEPTH]][1..]);
  }

  lemma {:induction false} ChunksHoldBytes(rs: seq<Read>)
    ensures forall i | 0 <= i < |Stream(rs)| - 1 :: Stream(rs)[i].Chunk? && Stream(rs)[i].data != []
  {
    if rs != [] {
      ChunksHoldBytes(rs[1..]);
      var r := rs[0];
      if r.data != [] && !r.status.Eof? { assert Stream(rs) == [Chunk(r.data, false)] + Stream(rs[1..]); }
    }
  }

  /** With nine messages or fewer, a drop takes the last one: the handler then waits until it gives up. */
  predicate FewKept(t: Transfer, final: Message) {
    && EndKept(t, final)
    && |t.queue| + t.drops + |t.coming| <= QUEUE_DEPTH + 1
    && (t.drops > 0 ==> t.coming == [] && t.done != Finished && forall i | 0 <= i < |t.queue| :: !EndsLoop(t.queue[i]))
  }

  lemma {:induction false} FewAdvance(t: Transfer, m: Move, final: Message)
    requires FewKept(t, final) && EndKept(Advance(t, m), final)
    ensures FewKept(Advance(t, m), final)
  {
  }

  lemma {:induction false} FewMessages(ms: seq<Message>, moves: seq<Move>, final: Message)
    requires ms != [] && Remaining(ms, final) && |ms| <= QUEUE_DEPTH + 1
    ensures FewKept(Transferred(Begin(ms), moves), final)
    decreases |moves|
  {
    TransferKeeps(ms, moves, final);
    if moves != [] {
      FewMessages(ms, moves[..|moves| - 1], final);
      FewAdvance(Transferred(Begin(ms), moves[..|moves| - 1]), moves[|moves| - 1], final);
    }
  }

  /** Some interleaving ends in a finished response that is not the file, and nothing tells the client, exactly if the
      stream has more than nine messages: more than the queue holds, and the one that says eof. */
  lemma {:induction false} LossGoesUnnoticedIff(rs: seq<Read>)
    requires EndsInEof(rs)
    ensures (exists moves :: var t := Transferred(Begin(Stream(rs)), moves); t.done == Finished && t.response != Content(rs))
       <==> |Stream(rs)| > 9
  {
    StreamIsTheFile(rs);
    var ms := Stream(rs);
    if |ms| > QUEUE_DEPTH + 1 {
      ChunksHoldBytes(rs);
      var moves := LosingMoves(ms);
      DownloadFidelity(rs, moves);
    } else {
      forall moves ensures var t := Transferred(Begin(ms), moves); t.done == Finished ==> t.response == Content(rs) {
        FewMessages(ms, moves, ms[|ms| - 1]);
        TransferKeeps(ms, moves, ms[|ms| - 1]);
        DownloadFidelity(rs, moves);
      }
    }
  }
}
