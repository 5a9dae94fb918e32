/** Uploading files to an agent: its table of upload sessions, and the server loop that feeds one session. */
module FileUpload {
  import opened Json

  type Bytes = seq<bv8>

  const MAX_UPLOAD := 512 * 1024 * 1024

  /** An open file: where its bytes go and how far it has got. */
  datatype File = File(path: string, offset: nat)

  datatype UploadResult = UploadResult(rid: string, ok: bool)

  datatype Agent = Agent(
    files: map<string, File>,      // open file of every session, by request id
    written: map<string, nat>,     // bytes written by every session
    disk: map<string, Bytes>,
    replies: seq<UploadResult>)

  const IDLE := Agent(map[], map[], map[], [])

  /** Commands as handled, with the outcome of the system calls they make. Paths are sanitised and trimmed; a chunk
      whose base64 text is invalid carries None. */
  datatype Command =
    | Begin(rid: string, path: string, openOk: bool)
    | Chunk(rid: string, data: Option<Bytes>, write: WriteOutcome)
    | Finish(rid: string, syncOk: bool, closeOk: bool)
    | Abort(rid: string)

  datatype WriteOutcome = Wrote | Short(n: nat)

  /** Bytes put at an offset, over what was there; a gap is filled with zeros. Writing nothing changes nothing. */
  function WriteAt(content: Bytes, offset: nat, data: Bytes): Bytes {
    if data == [] then content
    else if offset + |data| <= |content| then content[..offset] + data + content[offset + |data|..]
    else if offset <= |content| then content[..offset] + data
    else content + seq(offset - |content|, _ => 0) + data
  }

  function ContentOf(disk: map<string, Bytes>, path: string): Bytes {
    if path in disk then disk[path] else []
  }

  function Write(a: Agent, rid: string, data: Bytes): Agent
    requires rid in a.files
  {
    var f := a.files[rid];
    a.(files := a.files[rid := File(f.path, f.offset + |data|)],
       disk := a.disk[f.path := WriteAt(ContentOf(a.disk, f.path), f.offset, data)])
  }

  function Drop(a: Agent, rid: string): Agent { a.(files := a.files - {rid}, written := a.written - {rid}) }

  function Answer(a: Agent, rid: string, ok: bool): Agent { a.(replies := a.replies + [UploadResult(rid, ok)]) }

  /** The part of a chunk that reaches the file. */
  function Landed(data: Bytes, w: WriteOutcome): Bytes {
    match w case Wrote => data case Short(n) => if n < |data| then data[..n] else data
  }

  /** One handled command. */
  function Step(a: Agent, c: Command): Agent {
    match c
    case Begin(rid, path, openOk) =>
      if rid == "" || path == "" || rid in a.files || !openOk then Answer(a, rid, false)
      else a.(files := a.files[rid := File(path, 0)], written := a.written[rid := 0], disk := a.disk[path := []])
    case Chunk(rid, data, w) =>
      if data.None? then Answer(Drop(a, rid), rid, false)
      else if rid !in a.files then Answer(Drop(a, rid), rid, false)
      else
        var b := Write(a, rid, Landed(data.value, w));
        if w.Short? then Answer(Drop(b, rid), rid, false)
        else if rid in a.written && a.written[rid] + |data.value| > MAX_UPLOAD then Answer(Drop(b, rid), rid, false)
        else b.(written := b.written[rid := (if rid in a.written then a.written[rid] else 0) + |data.value|])
    case Finish(rid, syncOk, closeOk) =>
      if rid !in a.files then Answer(a, rid, false) else Answer(Drop(a, rid), rid, syncOk && closeOk)
    case Abort(rid) => if rid in a.files then Drop(a, rid) else a
  }

  /** A chunk is kept if its text can be decoded, its session is open, it is written whole, and the session stays within
      512 MiB. */
  predicate Keeps(a: Agent, c: Command) {
    && c.Chunk? && c.data.Some? && c.rid in a.files && c.write.Wrote?
    && c.rid in a.written && a.written[c.rid] + |c.data.value| <= 536870912
  }

  /** What a command answers, and which sessions are open afterwards. Nothing is said to a begin that is accepted, a chunk
      that is kept, and an abort; a finish succeeds if the session was open and could be flushed and closed; all else has
      failed. */
  predicate Answers(a: Agent, c: Command, b: Agent) {
    && (c.Begin? ==>
          var ok := c.rid != "" && c.path != "" && c.rid !in a.files && c.openOk;
          && b.replies == (if ok then a.replies else a.replies + [UploadResult(c.rid, false)])
          && b.files.Keys == (if ok then a.files.Keys + {c.rid} else a.files.Keys))
    && (c.Chunk? ==>
          && b.replies == (if Keeps(a, c) then a.replies else a.replies + [UploadResult(c.rid, false)])
          && b.files.Keys == (if Keeps(a, c) then a.files.Keys else a.files.Keys - {c.rid}))
    && (c.Finish? ==>
          && b.replies == a.replies + [UploadResult(c.rid, c.rid in a.files && c.syncOk && c.closeOk)]
          && b.files.Keys == a.files.Keys - {c.rid})
    && (c.Abort? ==> b.replies == a.replies && b.files.Keys == a.files.Keys - {c.rid})
  }

  lemma {:induction false} StepAnswers(a: Agent, c: Command)
    requires a.files.Keys == a.written.Keys
    ensures Answers(a, c, Step(a, c))
  {
    assert c.rid !in a.files ==> a.files.Keys - {c.rid} == a.files.Keys;
    assert Drop(a, c.rid).files.Keys == a.files.Keys - {c.rid};
    if c.Chunk? && c.data.Some? && c.rid in a.files {
      var b := Write(a, c.rid, Landed(c.data.value, c.write));
      assert b.files.Keys == a.files.Keys && Drop(b, c.rid).files.Keys == a.files.Keys - {c.rid};
    }
  }

  class UploadState {
    var files: map<string, File>
    var written: map<string, nat>
    var disk: map<string, Bytes>
    var replies: seq<UploadResult>

    /** Both tables have the same sessions. */
    ghost predicate Valid()
      reads this
    {
      files.Keys == written.Keys
    }

    function State(): Agent
      reads this
    {
      Agent(files, written, disk, replies)
    }

    constructor ()
      ensures Valid() && State() == IDLE
    {
      files, written, disk, replies := map[], map[], map[], [];
    }

    method Reply(rid: string, ok: bool)
      modifies this`replies
      ensures State() == Answer(old(State()), rid, ok)
    {
      replies := replies + [UploadResult(rid, ok)];
    }

    /** fsUploadState.begin */
    method BeginSession(rid: string, path: string, openOk: bool) returns (ok: bool)
      requires Valid()
      modifies this
      ensures Valid() && replies == old(replies) && ok == (rid !in old(files) && openOk)
      ensures ok ==> files == old(files)[rid := File(path, 0)] && written == old(written)[rid := 0]
                     && disk == old(disk)[path := []]
      ensures !ok ==> State() == old(State())
    {
      if rid in files || !openOk { return false; }
      disk := disk[path := []];
      files := files[rid := File(path, 0)];
      written := written[rid := 0];
      return true;
    }

    /** fsUploadState.chunk: the bytes are written first and counted after. */
    method AppendChunk(rid: string, data: Bytes, w: WriteOutcome) returns (ok: bool)
      requires Valid()
      modifies this
      ensures Valid() && replies == old(replies)
      ensures ok == (rid in old(files) && w.Wrote? && old(written)[rid] + |data| <= MAX_UPLOAD)
      ensures rid !in old(files) ==> State() == old(State())
      ensures rid in old(files) ==>
        var b := Write(old(State()), rid, Landed(data, w));
        files == b.files && disk == b.disk
        && written == if w.Wrote? then old(written)[rid := old(written)[rid] + |data|] else old(written)
    {
      if rid !in files { return false; }
      var f, landed := files[rid], Landed(data, w);
      disk := disk[f.path := WriteAt(ContentOf(disk, f.path), f.offset, landed)];
      files := files[rid := File(f.path, f.offset + |landed|)];
      if w.Short? { return false; }
      written := written[rid := written[rid] + |data|];
      return written[rid] <= MAX_UPLOAD;
    }

    /** fsUploadState.finish */
    method FinishSession(rid: string, syncOk: bool, closeOk: bool) returns (ok: bool)
      requires Valid()
      modifies this
      ensures Valid() && replies == old(replies) && disk == old(disk) && ok == (rid in old(files) && syncOk && closeOk)
      ensures files == old(files) - {rid} && written == old(written) - {rid}
    {
      if rid !in files { return false; }
      files, written := files - {rid}, written - {rid};
      return syncOk && closeOk;
    }

    /** fsUploadState.abort */
    method AbortSession(rid: string)
      requires Valid()
      modifies this
      ensures Valid() && State() == Drop(old(State()), rid)
    {
      if rid in files {
        files, written := files - {rid}, written - {rid};
      }
    }

    /** The command handlers. */
    method Handle(c: Command)
      requires Valid()
      modifies this
      ensures Valid() && State() == Step(old(State()), c) && Answers(old(State()), c, State())
    {
      StepAnswers(State(), c);
      match c
      case Begin(rid, path, openOk) =>
        if rid == "" || path == "" {
          Reply(rid, false);
          return;
        }
        var ok := BeginSession(rid, path, openOk);
        if !ok { Reply(rid, false); }
      case Chunk(rid, data, w) =>
        if data.None? {
          AbortSession(rid);
          Reply(rid, false);
          return;
        }
        var ok := AppendChunk(rid, data.value, w);
        if !ok {
          AbortSession(rid);
          Reply(rid, false);
        }
      case Finish(rid, syncOk, closeOk) =>
        var ok := FinishSession(rid, syncOk, closeOk);
        Reply(rid, ok);
      case Abort(rid) =>
        AbortSession(rid);
    }
  }

  // ----- runs -----

  function After(run: seq<Command>, n: nat): Agent
    requires n <= |run|
  {
    if n == 0 then IDLE else Step(After(run, n - 1), run[n - 1])
  }

  predicate Accepts(a: Agent, c: Command) {
    c.Begin? && c.rid != "" && c.path != "" && c.rid !in a.files && c.openOk
  }

  /** The bytes a command carries for a request id. */
  function OwnPart(c: Command, rid: string): Bytes {
    if c.Chunk? && c.rid == rid && c.data.Some? then c.data.value else []
  }

  /** The bytes of the chunks of one request id among the commands b, b + 1, ..., n - 1. */
  function OwnBytes(run: seq<Command>, rid: string, b: nat, n: nat): Bytes
    requires b <= n <= |run|
    decreases n
  {
    if n == b then [] else OwnBytes(run, rid, b, n - 1) + OwnPart(run[n - 1], rid)
  }

  /** The session of a request id was begun by command b and is still open before command n. */
  predicate SessionSince(run: seq<Command>, rid: string, b: nat, n: nat)
    requires b < n <= |run|
    decreases n
  {
    && rid in After(run, n).files
    && if n == b + 1 then run[b].rid == rid && Accepts(After(run, b), run[b]) else SessionSince(run, rid, b, n - 1)
  }

  // ----- the byte count of a session; other sessions do not matter -----

  lemma {:induction false} TablesAgree(run: seq<Command>, n: nat)
    requires n <= |run|
    ensures After(run, n).files.Keys == After(run, n).written.Keys
    decreases n
  {
    if n > 0 {
      TablesAgree(run, n - 1);
      FailedSessionIsGone(After(run, n - 1), run[n - 1]);
    }
  }

  /** An open session has written `count` bytes to its path, and is within the limit. */
  predicate Counts(a: Agent, rid: string, path: string, count: nat) {
    && rid in a.files && a.files[rid] == File(path, count)
    && rid in a.written && a.written[rid] == count <= MAX_UPLOAD
  }

  lemma {:induction false} StepCounts(a: Agent, c: Command, rid: string, path: string, count: nat)
    requires Counts(a, rid, path, count) && rid in Step(a, c).files
    ensures Counts(Step(a, c), rid, path, count + |OwnPart(c, rid)|)
  {
  }

  lemma {:induction false} BeginCounts(a: Agent, c: Command)
    requires Accepts(a, c)
    ensures Counts(Step(a, c), c.rid, c.path, 0)
  {
  }

  lemma {:induction false} SessionCounts(run: seq<Command>, rid: string, b: nat, n: nat)
    requires b < n <= |run| && SessionSince(run, rid, b, n)
    ensures run[b].Begin? && Counts(After(run, n), rid, run[b].path, |OwnBytes(run, rid, b + 1, n)|)
    decreases n
  {
    if n == b + 1 {
      BeginCounts(After(run, b), run[b]);
    } else {
      SessionCounts(run, rid, b, n - 1);
      StepCounts(After(run, n - 1), run[n - 1], rid, run[b].path, |OwnBytes(run, rid, b + 1, n - 1)|);
    }
  }

  // ----- the file of a session -----

  /** One write to a file. */
  datatype Put = Put(offset: nat, data: Bytes)

  /** What a command writes to a path. */
  function PutBy(a: Agent, c: Command, path: string): seq<Put> {
    if c.Chunk? && c.data.Some? && c.rid in a.files && a.files[c.rid].path == path
    then [Put(a.files[c.rid].offset, Landed(c.data.value, c.write))] else []
  }

  /** A command of another session destroys what this one has written to its path: it writes there, or it is begun there
      when something has been written. */
  predicate Disturbs(a: Agent, c: Command, rid: string, path: string, own: Bytes) {
    || (Accepts(a, c) && c.path == path && own != [])
    || (c.rid != rid && exists p | p in PutBy(a, c, path) :: p.data != [])
  }

  /** From its begin, command b, until before command n, nothing disturbed the session. */
  predicate Undisturbed(run: seq<Command>, rid: string, b: nat, n: nat)
    requires b < n <= |run| && run[b].Begin?
    decreases n
  {
    n == b + 1
    || (!Disturbs(After(run, n - 1), run[n - 1], rid, run[b].path, OwnBytes(run, rid, b + 1, n - 1))
        && Undisturbed(run, rid, b, n - 1))
  }

  predicate FileIs(a: Agent, path: string, content: Bytes) { path in a.disk && a.disk[path] == content }

  lemma {:induction false} StepKeepsFile(a: Agent, c: Command, rid: string, path: string, own: Bytes)
    requires Counts(a, rid, path, |own|) && rid in Step(a, c).files && FileIs(a, path, own)
    requires !Disturbs(a, c, rid, path, own)
    ensures FileIs(Step(a, c), path, own + OwnPart(c, rid))
  {
    if c.Chunk? && c.rid == rid && c.data.Some? {
      if c.data.value != [] { assert WriteAt(own, |own|, c.data.value) == own + c.data.value; }
    } else {
      assert own + [] == own;
      if PutBy(a, c, path) != [] { assert PutBy(a, c, path)[0] in PutBy(a, c, path); }
    }
  }

  lemma {:induction false} SessionFile(run: seq<Command>, rid: string, b: nat, n: nat)
    requires b < n <= |run| && SessionSince(run, rid, b, n) && run[b].Begin? && Undisturbed(run, rid, b, n)
    ensures FileIs(After(run, n), run[b].path, OwnBytes(run, rid, b + 1, n))
    decreases n
  {
    if n > b + 1 {
      SessionFile(run, rid, b, n - 1);
      SessionCounts(run, rid, b, n - 1);
      StepKeepsFile(After(run, n - 1), run[n - 1], rid, run[b].path, OwnBytes(run, rid, b + 1, n - 1));
    }
  }

  // ----- what a file holds, whoever writes to it -----

  predicate Covers(p: Put, k: nat) { p.offset <= k < p.offset + |p.data| }

  /** The writes to a path before command n, by any session, since a session on it was begun last, which empties it. */
  function PutsSince(run: seq<Command>, n: nat, path: string): seq<Put>
    requires n <= |run|
  {
    if n == 0 then []
    else
      var a, c := After(run, n - 1), run[n - 1];
      if Accepts(a, c) && c.path == path then [] else PutsSince(run, n - 1, path) + PutBy(a, c, path)
  }

  /** The byte that the last write covering a place put there, or zero. */
  function ByteAt(puts: seq<Put>, k: nat): bv8 {
    if puts == [] then 0
    else
      var p := puts[|puts| - 1];
      if Covers(p, k) then p.data[k - p.offset] else ByteAt(puts[..|puts| - 1], k)
  }

  /** Where the farthest write ends. */
  function EndOf(puts: seq<Put>): nat {
    if puts == [] then 0
    else
      var p, end := puts[|puts| - 1], EndOf(puts[..|puts| - 1]);
      if p.data != [] && p.offset + |p.data| > end then p.offset + |p.data| else end
  }

  /** The content is, byte by byte, what the last write covering each place put there. */
  predicate WrittenBy(content: Bytes, puts: seq<Put>) {
    |content| == EndOf(puts) && forall k | 0 <= k < |content| :: content[k] == ByteAt(puts, k)
  }

  lemma {:induction false} NothingBeyondEnd(puts: seq<Put>, k: nat)
    requires k >= EndOf(puts)
    ensures ByteAt(puts, k) == 0
  {
    if puts != [] { NothingBeyondEnd(puts[..|puts| - 1], k); }
  }

  lemma {:induction false} WriteAtBytes(content: Bytes, offset: nat, data: Bytes)
    requires data != []
    ensures var w := WriteAt(content, offset, data);
      && |w| == (if offset + |data| > |content| then offset + |data| else |content|)
      && forall k | 0 <= k < |w| ::
           w[k] == if offset <= k < offset + |data| then data[k - offset] else if k < |content| then content[k] else 0
  {
  }

  lemma {:induction false} OneMorePut(content: Bytes, puts: seq<Put>, p: Put)
    requires WrittenBy(content, puts)
    ensures WrittenBy(WriteAt(content, p.offset, p.data), puts + [p])
  {
    var all, w := puts + [p], WriteAt(content, p.offset, p.data);
    assert all[..|all| - 1] == puts;
    if p.data != [] { WriteAtBytes(content, p.offset, p.data); }
    forall k | 0 <= k < |w| ensures w[k] == ByteAt(all, k) {
      if k >= |content| { NothingBeyondEnd(puts, k); }
    }
  }

  predicate FileIsWritten(run: seq<Command>, n: nat, path: string)
    requires n <= |run|
  {
    WrittenBy(ContentOf(After(run, n).disk, path), PutsSince(run, n, path))
  }

  /** In every run, however many sessions share a path: its file holds, byte by byte, what the last write covering each
      place put there since the file was emptied last. */
  lemma {:induction false} FileByLastWrites(run: seq<Command>, n: nat, path: string)
    requires n <= |run|
    ensures FileIsWritten(run, n, path)
  {
    if n == 0 {
      assert ContentOf(After(run, 0).disk, path) == [] && PutsSince(run, 0, path) == [];
    } else {
      FileByLastWrites(run, n - 1, path);
      WritesNext(run, n, path);
    }
  }

  lemma {:induction false} WritesNext(run: seq<Command>, n: nat, path: string)
    requires 0 < n <= |run| && FileIsWritten(run, n - 1, path)
    ensures FileIsWritten(run, n, path)
  {
    var a, c, puts := After(run, n - 1), run[n - 1], PutsSince(run, n - 1, path);
    StepWrites(a, c, path, puts);
  }

  lemma {:induction false} StepWrites(a: Agent, c: Command, path: string, puts: seq<Put>)
    requires WrittenBy(ContentOf(a.disk, path), puts)
    ensures WrittenBy(ContentOf(Step(a, c).disk, path),
                      if Accepts(a, c) && c.path == path then [] else puts + PutBy(a, c, path))
  {
    if PutBy(a, c, path) == [] {
      assert puts + [] == puts;
    } else {
      OneMorePut(ContentOf(a.disk, path), puts, PutBy(a, c, path)[0]);
    }
  }

  lemma {:induction false} WrittenOnce(x: Bytes, y: Bytes, puts: seq<Put>)
    requires WrittenBy(x, puts)
    ensures WrittenBy(y, puts) <==> x == y
  {
  }

  lemma {:induction false} SessionStarts(run: seq<Command>, rid: string, n: nat) returns (b: nat)
    requires n <= |run| && rid in After(run, n).files
    ensures b < n && SessionSince(run, rid, b, n)
    decreases n
  {
    var a, c := After(run, n - 1), run[n - 1];
    if rid in a.files {
      b := SessionStarts(run, rid, n - 1);
    } else {
      b := n - 1;
    }
  }

  lemma {:induction false} FileIsThere(run: seq<Command>, rid: string, b: nat, n: nat)
    requires b < n <= |run| && SessionSince(run, rid, b, n)
    ensures run[b].Begin? && run[b].path in After(run, n).disk
    decreases n
  {
    if n > b + 1 { FileIsThere(run, rid, b, n - 1); }
  }

  lemma {:induction false} FinishStep(a: Agent, c: Command)
    requires c.Finish? && Step(a, c).replies == a.replies + [UploadResult(c.rid, true)]
    ensures c.rid in a.files && Step(a, c).disk == a.disk && c.rid !in Step(a, c).files
  {
    assert Step(a, c).replies[|a.replies|] == UploadResult(c.rid, true);
  }

  /** Upload isolation, under every interleaving with other sessions: a session that is finished successfully was begun
      by some command, is gone, and wrote at most 512 MiB. Its file holds exactly its own chunks in order if and only if
      these are what the last writes to the path left, byte by byte, since it was emptied last; in particular if no other
      session wrote to the path, or was begun on it after this one's first byte. */
  lemma {:induction false} FinishedUploadIsOwnChunks(run: seq<Command>, n: nat) returns (b: nat)
    requires n < |run| && run[n].Finish?
    requires After(run, n + 1).replies == After(run, n).replies + [UploadResult(run[n].rid, true)]
    ensures b < n && SessionSince(run, run[n].rid, b, n) && run[b].Begin?
    ensures run[n].rid !in After(run, n + 1).files && |OwnBytes(run, run[n].rid, b + 1, n)| <= 536870912
    ensures FileIs(After(run, n + 1), run[b].path, OwnBytes(run, run[n].rid, b + 1, n))
       <==> WrittenBy(OwnBytes(run, run[n].rid, b + 1, n), PutsSince(run, n, run[b].path))
    ensures Undisturbed(run, run[n].rid, b, n) ==>
      FileIs(After(run, n + 1), run[b].path, OwnBytes(run, run[n].rid, b + 1, n))
  {
    FinishStep(After(run, n), run[n]);
    b := SessionStarts(run, run[n].rid, n);
    SessionCounts(run, run[n].rid, b, n);
    FileIsThere(run, run[n].rid, b, n);
    FileByLastWrites(run, n, run[b].path);
    var path := run[b].path;
    WrittenOnce(ContentOf(After(run, n).disk, path), OwnBytes(run, run[n].rid, b + 1, n), PutsSince(run, n, path));
    if Undisturbed(run, run[n].rid, b, n) { SessionFile(run, run[n].rid, b, n); }
  }

  /** On a shared path the bytes of a finished session can be lost: beginning another session on it empties the file,
      and nothing keeps that from happening. */
  lemma {:induction false} SharedPathLosesBytes(path: string, r: string, s: string, x: Bytes)
    requires path != "" && r != "" && s != "" && r != s && x != [] && |x| <= MAX_UPLOAD
    ensures var run := [Begin(r, path, true), Chunk(r, Some(x), Wrote), Begin(s, path, true), Finish(r, true, true)];
      After(run, 4).replies == [UploadResult(r, true)] && FileIs(After(run, 4), path, [])
  {
    var run := [Begin(r, path, true), Chunk(r, Some(x), Wrote), Begin(s, path, true), Finish(r, true, true)];
    assert After(run, 0) == IDLE;
    assert After(run, 1) == Step(IDLE, run[0]);
    assert After(run, 2) == Step(After(run, 1), run[1]);
    assert After(run, 3) == Step(After(run, 2), run[2]);
    assert After(run, 4) == Step(After(run, 3), run[3]);
  }

  /** A session that is told of a failure, or aborted, is gone; both tables always have the same sessions. */
  lemma {:induction false} FailedSessionIsGone(a: Agent, c: Command)
    requires a.files.Keys == a.written.Keys
    ensures Step(a, c).files.Keys == Step(a, c).written.Keys
    ensures c.Abort? || c.Finish? || (c.Chunk? && |Step(a, c).replies| > |a.replies|) ==> c.rid !in Step(a, c).files
  {
  }

  /** A chunk is refused for its size exactly if it takes the session over the limit, whatever other sessions do. */
  lemma {:induction false} SizeRefusal(run: seq<Command>, rid: string, b: nat, n: nat)
    requires b < n < |run| && SessionSince(run, rid, b, n)
    requires run[n].Chunk? && run[n].rid == rid && run[n].data.Some? && run[n].write.Wrote?
    ensures rid in After(run, n + 1).files <==> |OwnBytes(run, rid, b + 1, n + 1)| <= 536870912
  {
    SessionCounts(run, rid, b, n);
  }

  // ----- the server -----

  datatype BodyStatus = More | Eof | Failed

  datatype BodyRead = BodyRead(data: Bytes, status: BodyStatus)

  datatype Sent = SentBegin | SentChunk(data: Bytes) | SentFinish | SentAbort

  function SentBytes(cs: seq<Sent>): Bytes {
    if cs == [] then []
    else SentBytes(cs[..|cs| - 1]) + if cs[|cs| - 1].SentChunk? then cs[|cs| - 1].data else []
  }

  /** The request body as far as it is read: up to its end, or up to an error. */
  function Body(rs: seq<BodyRead>): Bytes {
    if rs == [] then [] else rs[0].data + if rs[0].status.More? then Body(rs[1..]) else []
  }

  predicate BodyEnds(rs: seq<BodyRead>) {
    rs != [] && (rs[0].status.Eof? || (rs[0].status.More? && BodyEnds(rs[1..])))
  }

  lemma {:induction false} SentSnoc(cs: seq<Sent>, c: Sent)
    ensures SentBytes(cs + [c]) == SentBytes(cs) + if c.SentChunk? then c.data else []
  {
    assert (cs + [c])[..|cs|] == cs;
  }

  predicate BodyStops(rs: seq<BodyRead>) { exists r | r in rs :: !r.status.More? }

  lemma {:induction false} BodyStep(rs: seq<BodyRead>, i: nat)
    requires i < |rs|
    ensures Body(rs[i..]) == rs[i].data + if rs[i].status.More? then Body(rs[i + 1..]) else []
    ensures BodyEnds(rs[i..]) <==> rs[i].status.Eof? || (rs[i].status.More? && BodyEnds(rs[i + 1..]))
  {
    assert rs[i..][1..] == rs[i + 1..];
  }

  lemma {:induction false} Joined(body: Bytes, done: Bytes, data: Bytes, rest: Bytes)
    requires body == done + (data + rest)
    ensures body == (done + data) + rest && |body| >= |done| + |data|
  {
  }

  /** handleUpload after the begin command was dispatched; the dispatch that fails, if any, is the one after
      `fails` earlier ones. An upload is accepted, that is finished, only with its whole body sent on and within the
      limit; if no dispatch fails it is accepted exactly then, and otherwise aborted. */
  method ServeUpload(rs: seq<BodyRead>, fails: Option<nat>) returns (sent: seq<Sent>, accepted: bool)
    ensures sent != [] && sent[0] == SentBegin && |SentBytes(sent)| <= 536870912 && SentBytes(sent) <= Body(rs)
    ensures accepted ==> sent[|sent| - 1] == SentFinish && BodyEnds(rs) && SentBytes(sent) == Body(rs)
    ensures SentFinish in sent ==> accepted
    ensures fails.None? ==> (accepted <==> BodyEnds(rs) && |Body(rs)| <= 536870912)
    ensures fails.None? && !accepted && BodyStops(rs) ==> sent[|sent| - 1] == SentAbort
  {
    ghost var body, rest, done := Body(rs), Body(rs), [];
    sent, accepted := [SentBegin], false;
    SentSnoc([], SentBegin);
    assert [] + [SentBegin] == [SentBegin] && rs[0..] == rs;
    var total := 0;
    for i := 0 to |rs|
      invariant SentFinish !in sent && sent != [] && sent[0] == SentBegin && done == SentBytes(sent) && total == |done| <= MAX_UPLOAD
      invariant rest == Body(rs[i..]) && body == done + rest
      invariant BodyEnds(rs) <==> BodyEnds(rs[i..])
      invariant forall k | 0 <= k < i :: rs[k].status.More?
    {
      var r := rs[i];
      BodyStep(rs, i);
      rest := if r.status.More? then Body(rs[i + 1..]) else [];
      Joined(body, done, r.data, rest);
      if r.data != [] {
        if |r.data| > MAX_UPLOAD - total {
          sent := SendLast(sent, SentAbort);
          return;
        }
        if fails == Some(|sent|) { return; }
        total := total + |r.data|;
        sent := SendChunk(sent, r.data);
      }
      done := done + r.data;
      if r.status.Eof? {
        if fails == Some(|sent|) { return; }
        sent := SendLast(sent, SentFinish);
        accepted := true;
        return;
      }
      if r.status.Failed? {
        sent := SendLast(sent, SentAbort);
        return;
      }
    }
  }

  method SendChunk(sent: seq<Sent>, data: Bytes) returns (all: seq<Sent>)
    ensures all == sent + [SentChunk(data)] && SentBytes(all) == SentBytes(sent) + data
    ensures SentFinish in all <==> SentFinish in sent
  {
    all := sent + [SentChunk(data)];
    SentSnoc(sent, SentChunk(data));
  }

  method SendLast(sent: seq<Sent>, c: Sent) returns (all: seq<Sent>)
    requires !c.SentChunk?
    ensures all == sent + [c] && SentBytes(all) == SentBytes(sent)
  {
    all := sent + [c];
    SentSnoc(sent, c);
  }

  lemma {:induction false} OwnBytesGrow(run: seq<Command>, rid: string, b: nat, m: nat, n: nat)
    requires b <= m <= n <= |run|
    ensures |OwnBytes(run, rid, b, m)| <= |OwnBytes(run, rid, b, n)|
    decreases n
  {
    if m < n { OwnBytesGrow(run, rid, b, m, n - 1); }
  }

  lemma {:induction false} SmallChunkIsKept(run: seq<Command>, rid: string, b: nat, n: nat, own: Bytes)
    requires b < n < |run| && SessionSince(run, rid, b, n)
    requires run[n].Chunk? && run[n].rid == rid && run[n].data.Some? && run[n].write.Wrote?
    requires own == OwnBytes(run, rid, b + 1, n + 1) && |own| <= MAX_UPLOAD
    ensures rid in After(run, n + 1).files
  {
    SizeRefusal(run, rid, b, n);
  }

  lemma {:induction false} PartOfServed(run: seq<Command>, rid: string, b: nat, n: nat, served: Bytes)
    returns (own: Bytes)
    requires b <= n <= |run| && OwnBytes(run, rid, b, |run|) <= served
    ensures own == OwnBytes(run, rid, b, n) && |own| <= |served|
  {
    own := OwnBytes(run, rid, b, n);
    OwnBytesGrow(run, rid, b, n, |run|);
  }

  /** No chunk the server sends on is refused by the agent for its size: what ServeUpload sends, of which the agent sees
      a beginning, stays within the limit that the agent applies at every command of the session, in every
      interleaving with other sessions. */
  lemma {:induction false} ServedChunksAreKept(run: seq<Command>, rid: string, b: nat, n: nat, served: Bytes)
    requires b < n < |run| && SessionSince(run, rid, b, n)
    requires OwnBytes(run, rid, b + 1, |run|) <= served && |served| <= MAX_UPLOAD
    requires run[n].Chunk? && run[n].rid == rid && run[n].data.Some? && run[n].write.Wrote?
    ensures rid in After(run, n + 1).files
  {
    var own := PartOfServed(run, rid, b + 1, n + 1, served);
    SmallChunkIsKept(run, rid, b, n, own);
  }
}
