/** Bounded capture of a child's pipes and bounded delivery of its input (`host_admin_native.rs`).
    The pipe hands over its bytes in arbitrary pieces, interleaved with empty polls, interrupts and a
    monotone clock; only a zero-length read is the kernel's end-of-file. */
module StreamCapture {
  import opened Common
  import AdminJournal

  const PREVIEW_LIMIT: nat := 64 * 1024
  const CAPTURE_LIMIT: nat := 16 * 1024 * 1024
  const POST_EXIT_DRAIN: nat := 2000

  // -------------------------------------------------------------------------
  // Reading

  /** What one turn of a pipe loop meets: the exit flag and clock it sees, then what the pipe gives. */
  datatype Turn<R> = Turn(childExited: bool, now: nat, ready: R)

  type ReadTurn = Turn<Ready>
  datatype Ready = PollInterrupted | PollFailed | NotReady | ReadFailed | ReadOk(bytes: seq<byte>)

  datatype Ending = RealEof | TimeCut | Failed | Waiting

  /** Everything a reader gets from the turns ahead, and how it ends; piece boundaries do not show. */
  datatype Stream = Stream(bytes: seq<byte>, ending: Ending)

  /** The clock of the bounded drain starts at the first turn that sees the child gone. */
  function Start<R>(t: Turn<R>, started: Option<nat>): Option<nat> {
    if t.childExited && started.None? then Some(t.now) else started
  }

  predicate Expired<R>(t: Turn<R>, started: Option<nat>) {
    t.childExited && Start(t, started).Some? && t.now >= Start(t, started).value + POST_EXIT_DRAIN
  }

  /** When the drain clock stands started after these turns. */
  function Began<R>(turns: seq<Turn<R>>, started: Option<nat>): Option<nat> {
    if turns == [] then started else Began(turns[1..], Start(turns[0], started))
  }

  ghost function Drain(turns: seq<ReadTurn>, started: Option<nat>): Stream {
    if turns == [] then Stream([], Waiting)
    else if Expired(turns[0], started) then Stream([], TimeCut)
    else
      var rest := Drain(turns[1..], Start(turns[0], started));
      match turns[0].ready
      case PollInterrupted => rest
      case NotReady => rest
      case PollFailed => Stream([], Failed)
      case ReadFailed => Stream([], Failed)
      case ReadOk(bytes) => if bytes == [] then Stream([], RealEof) else rest.(bytes := bytes + rest.bytes)
  }

  datatype ReadResult = Bytes(bytes: seq<byte>) | IoError | Blocked

  /** `ExitBoundedPipe`: ends on its own two seconds after the child exits, and says so. */
  class ExitBoundedPipe {
    var turns: seq<ReadTurn>
    var postExitStarted: Option<nat>
    var observedEof: bool

    constructor (turns: seq<ReadTurn>)
      ensures this.turns == turns && postExitStarted == None && !observedEof
    {
      this.turns, postExitStarted, observedEof := turns, None, false;
    }

    ghost function Ahead(): Stream
      reads this
    {
      Drain(turns, postExitStarted)
    }

    method Read() returns (r: ReadResult)
      modifies this
      ensures r.Bytes? && r.bytes != [] ==>
        && old(Ahead()) == Stream(r.bytes + Ahead().bytes, Ahead().ending)
        && observedEof == old(observedEof)
        && |turns| < |old(turns)|
      ensures r.Bytes? && r.bytes == [] ==>
        && old(Ahead()).bytes == []
        && (old(Ahead()).ending.RealEof? || old(Ahead()).ending.TimeCut?)
        && observedEof == (old(observedEof) || old(Ahead()).ending.RealEof?)
      ensures !r.Bytes? ==> observedEof == old(observedEof) && old(Ahead()).bytes == []
      ensures r.IoError? <==> old(Ahead()).bytes == [] && old(Ahead()).ending.Failed?
      ensures r.Blocked? <==> old(Ahead()).bytes == [] && old(Ahead()).ending.Waiting?
    {
      while turns != []
        invariant |turns| <= |old(turns)|
        invariant Ahead() == old(Ahead())
        invariant observedEof == old(observedEof)
        decreases |turns|
      {
        var t := turns[0];
        if t.childExited {
          if postExitStarted.None? {
            postExitStarted := Some(t.now);
          }
          if t.now >= postExitStarted.value + POST_EXIT_DRAIN {
            return Bytes([]);
          }
        }
        turns := turns[1..];
        match t.ready
        case PollInterrupted =>
        case NotReady =>
        case PollFailed => return IoError;
        case ReadFailed => return IoError;
        case ReadOk(bytes) =>
          if bytes == [] {
            observedEof := true;
          }
          return Bytes(bytes);
      }
      r := Blocked;
    }
  }

  /** `hashed` stands for the bytes fed to SHA-256. */
  datatype Captured = Captured(hashed: seq<byte>, totalBytes: nat, preview: seq<byte>, captureBytes: nat)

  datatype CaptureResult = Done(stream: Captured, saved: seq<byte>) | CaptureFailed | StillOpen

  function Prefix(s: seq<byte>, limit: nat): seq<byte> {
    s[..Min(|s|, limit)]
  }

  /** The evidence kept of a stream, as a function of its bytes alone. */
  ghost function Evidence(data: seq<byte>, withSpool: bool): (r: (Captured, seq<byte>))
    ensures |r.1| == r.0.captureBytes
  {
    var saved := if withSpool then Prefix(data, CAPTURE_LIMIT) else [];
    (Captured(data, Min(|data|, U64_MAX), Prefix(data, PREVIEW_LIMIT), |saved|), saved)
  }

  lemma PrefixGrows(data: seq<byte>, more: seq<byte>, limit: nat)
    ensures Prefix(data, limit) + more[..Min(limit - |Prefix(data, limit)|, |more|)] == Prefix(data + more, limit)
  {
  }

  /** `capture_stream_with_file`.  A spool write or sync can fail unless `spoolReliable`. */
  method CaptureStream(input: ExitBoundedPipe, withSpool: bool, spoolReliable: bool) returns (r: CaptureResult)
    modifies input
    ensures r.Done? ==>
      && (old(input.Ahead()).ending.RealEof? || old(input.Ahead()).ending.TimeCut?)
      && input.observedEof == (old(input.observedEof) || old(input.Ahead()).ending.RealEof?)
      && (r.stream, r.saved) == Evidence(old(input.Ahead()).bytes, withSpool)
    ensures r.StillOpen? ==> old(input.Ahead()).ending.Waiting?
    ensures old(input.Ahead()).ending.Failed? ==> !r.Done?
    ensures (spoolReliable || !withSpool) && (old(input.Ahead()).ending.RealEof? || old(input.Ahead()).ending.TimeCut?) ==> r.Done?
  {
    var hashed: seq<byte>, total, preview: seq<byte>, saved: seq<byte> := [], 0, [], [];
    while true
      invariant old(input.Ahead()) == Stream(hashed + input.Ahead().bytes, input.Ahead().ending)
      invariant input.observedEof == old(input.observedEof)
      invariant total == Min(|hashed|, U64_MAX)
      invariant preview == Prefix(hashed, PREVIEW_LIMIT)
      invariant saved == if withSpool then Prefix(hashed, CAPTURE_LIMIT) else []
      decreases |input.turns|
    {
      ghost var ahead := input.Ahead();
      var chunk := input.Read();
      if chunk.IoError? { return CaptureFailed; }
      if chunk.Blocked? { return StillOpen; }
      var bytes := chunk.bytes;
      if bytes == [] {
        assert hashed + ahead.bytes == hashed;
        break;
      }
      total := Min(total + |bytes|, U64_MAX);
      var retain := Min(PREVIEW_LIMIT - |preview|, |bytes|);
      PrefixGrows(hashed, bytes, PREVIEW_LIMIT);
      preview := preview + bytes[..retain];
      if withSpool {
        var save := Min(CAPTURE_LIMIT - |saved|, |bytes|);
        PrefixGrows(hashed, bytes, CAPTURE_LIMIT);
        if save > 0 {
          var written := SpoolCall(spoolReliable);
          if !written { return CaptureFailed; }
        }
        saved := saved + bytes[..save];
      }
      hashed := hashed + bytes;
    }
    if withSpool {
      var synced := SpoolCall(spoolReliable);
      if !synced { return CaptureFailed; }
    }
    r := Done(Captured(hashed, total, preview, |saved|), saved);
  }

  method SpoolCall(reliable: bool) returns (ok: bool)
    ensures reliable ==> ok
  {
    ok := *;
    ok := ok || reliable;
  }

  // -------------------------------------------------------------------------
  // Writing

  type WriteTurn = Turn<WriteReady>
  datatype WriteReady =
    | WritePollInterrupted | WritePollFailed | WriteNotReady
    | Accepted(count: nat) | WriteInterrupted | WouldBlock | BrokenPipe | WriteFailed

  datatype WriteResult = Written(count: nat) | WriteError | WriteBlocked

  /** How a delivery of `size` bytes goes on once `written` of them are accepted, and how many are in the end. */
  ghost function Delivery(turns: seq<WriteTurn>, size: nat, started: Option<nat>, written: nat): (r: (WriteResult, nat))
    ensures written <= size ==> written <= r.1 <= size
    ensures r.0.Written? ==> r.0.count == r.1
    decreases |turns|
  {
    if written >= size then (Written(written), written)
    else if turns == [] then (WriteBlocked, written)
    else
      var t := turns[0];
      var began := Start(t, started);
      if Expired(t, started) then (Written(written), written)
      else
        match t.ready
        case WritePollFailed => (WriteError, written)
        case WriteFailed => (WriteError, written)
        case BrokenPipe => (Written(written), written)
        case Accepted(count) =>
          if count == 0 then (WriteError, written)
          else Delivery(turns[1..], size, began, written + Min(count, size - written))
        case _ => Delivery(turns[1..], size, began, written)
  }

  /** What the pipe has been offered and taken in these turns. */
  ghost function Taken(turns: seq<WriteTurn>): nat {
    if turns == [] then 0 else (if turns[0].ready.Accepted? then turns[0].ready.count else 0) + Taken(turns[1..])
  }

  /** The reader has closed the pipe, or the drain is over: the delivery stops here, short but known. */
  predicate CutHere(t: WriteTurn, started: Option<nat>) {
    Expired(t, started) || t.ready.BrokenPipe?
  }

  /** The poll or the write fails, or the pipe takes nothing: the delivery stops here, and is unknown. */
  predicate FailsHere(t: WriteTurn, started: Option<nat>) {
    !Expired(t, started) && (t.ready.WritePollFailed? || t.ready.WriteFailed? || t.ready == Accepted(0))
  }

  /** Turn `k` is the first at which the delivery is complete, cut or failed, and this is what comes of it. */
  ghost predicate DeliveredAt(turns: seq<WriteTurn>, size: nat, started: Option<nat>, written: nat, k: nat, r: (WriteResult, nat)) {
    && k <= |turns|
    && (forall i :: 0 <= i < k ==>
          && written + Taken(turns[..i]) < size
          && !CutHere(turns[i], Began(turns[..i], started)) && !FailsHere(turns[i], Began(turns[..i], started)))
    && r.1 == Min(size, written + Taken(turns[..k]))
    && (if r.1 == size then r.0 == Written(size)
        else if k == |turns| then r.0 == WriteBlocked
        else if CutHere(turns[k], Began(turns[..k], started)) then r.0 == Written(r.1)
        else FailsHere(turns[k], Began(turns[..k], started)) && r.0 == WriteError)
  }

  ghost predicate DeliveryEnded(turns: seq<WriteTurn>, size: nat, r: (WriteResult, nat)) {
    exists k: nat :: DeliveredAt(turns, size, None, 0, k, r)
  }

  /** A delivery ends at the first turn that ends it; interrupts, empty polls and a full pipe never do. */
  lemma {:induction false} DeliveryEnds(turns: seq<WriteTurn>, size: nat, started: Option<nat>, written: nat) returns (k: nat)
    requires written <= size
    ensures DeliveredAt(turns, size, started, written, k, Delivery(turns, size, started, written))
    decreases |turns|
  {
    if written == size || turns == [] || CutHere(turns[0], started) || FailsHere(turns[0], started) {
      k := 0;
      DeliveryNow(turns, size, started, written);
    } else {
      var count := if turns[0].ready.Accepted? then turns[0].ready.count else 0;
      var j := DeliveryEnds(turns[1..], size, Start(turns[0], started), written + Min(count, size - written));
      k := j + 1;
      DeliveryLater(turns, size, started, written, count, j, Delivery(turns, size, started, written));
    }
  }

  lemma DeliveryNow(turns: seq<WriteTurn>, size: nat, started: Option<nat>, written: nat)
    requires written <= size
    requires written == size || turns == [] || CutHere(turns[0], started) || FailsHere(turns[0], started)
    ensures DeliveredAt(turns, size, started, written, 0, Delivery(turns, size, started, written))
  {
    assert turns[..0] == [];
  }

  lemma DeliveryDoesEnd(turns: seq<WriteTurn>, size: nat)
    ensures DeliveryEnded(turns, size, Delivery(turns, size, None, 0))
  {
    var k := DeliveryEnds(turns, size, None, 0);
  }

  lemma DeliveryLater(turns: seq<WriteTurn>, size: nat, started: Option<nat>, written: nat, count: nat, j: nat, r: (WriteResult, nat))
    requires turns != [] && written < size && !CutHere(turns[0], started) && !FailsHere(turns[0], started)
    requires count == if turns[0].ready.Accepted? then turns[0].ready.count else 0
    requires DeliveredAt(turns[1..], size, Start(turns[0], started), written + Min(count, size - written), j, r)
    ensures DeliveredAt(turns, size, started, written, j + 1, r)
  {
    var rest := turns[1..];
    LaterTurns(turns, started);
    forall i | 0 < i <= |turns| ensures Taken(turns[..i]) == count + Taken(rest[..i - 1]) {
      assert turns[..i][1..] == rest[..i - 1];
    }
    assert turns[..0] == [] && rest[..0] == [];
    forall i | 0 <= i < j + 1
      ensures written + Taken(turns[..i]) < size
      ensures !CutHere(turns[i], Began(turns[..i], started)) && !FailsHere(turns[i], Began(turns[..i], started))
    {
      assert i > 0 ==> turns[i] == rest[i - 1];
    }
  }

  /** What earlier turns mean for the ones after the first. */
  lemma LaterTurns<R>(turns: seq<Turn<R>>, started: Option<nat>)
    requires turns != []
    ensures forall i :: 0 < i <= |turns| ==> Began(turns[..i], started) == Began(turns[1..][..i - 1], Start(turns[0], started))
  {
    forall i | 0 < i <= |turns| ensures Began(turns[..i], started) == Began(turns[1..][..i - 1], Start(turns[0], started)) {
      assert turns[..i][1..] == turns[1..][..i - 1];
    }
  }

  /** The child's input pipe; `received` is what it has accepted so far. */
  class StdinPipe {
    var turns: seq<WriteTurn>
    var received: seq<byte>

    constructor (turns: seq<WriteTurn>)
      ensures this.turns == turns && received == []
    {
      this.turns, received := turns, [];
    }

    /** `write_stdin_bounded`.  The kernel never accepts more than it was offered. */
    method WriteBounded(input: seq<byte>) returns (r: WriteResult)
      modifies this
      ensures r.Written? ==> r.count <= |input| && received == old(received) + input[..r.count]
      ensures r == Delivery(old(turns), |input|, None, 0).0
      ensures var n := Delivery(old(turns), |input|, None, 0).1; n <= |input| && received == old(received) + input[..n]
      ensures DeliveryEnded(old(turns), |input|, (r, |received| - |old(received)|))
    {
      DeliveryDoesEnd(turns, |input|);
      var written: nat := 0;
      var started: Option<nat> := None;
      while written < |input|
        invariant written <= |input|
        invariant received == old(received) + input[..written]
        invariant Delivery(old(turns), |input|, None, 0) == Delivery(turns, |input|, started, written)
        decreases |turns|
      {
        if turns == [] {
          return WriteBlocked;
        }
        var t := turns[0];
        if t.childExited {
          if started.None? {
            started := Some(t.now);
          }
          if t.now >= started.value + POST_EXIT_DRAIN {
            return Written(written);
          }
        }
        turns := turns[1..];
        match t.ready
        case WritePollInterrupted =>
        case WriteNotReady =>
        case WriteInterrupted =>
        case WouldBlock =>
        case WritePollFailed => return WriteError;
        case WriteFailed => return WriteError;
        case BrokenPipe =>
          return Written(written);
        case Accepted(count) =>
          if count == 0 { return WriteError; }
          var n := Min(count, |input| - written);
          received := received + input[written..written + n];
          assert input[..written] + input[written..written + n] == input[..written + n];
          written := written + n;
      }
      assert input[..written] == input;
      r := Written(written);
    }
  }

  // -------------------------------------------------------------------------
  // What counts as a complete execution

  datatype Receipt = Receipt(
    finish: AdminJournal.Finish,
    stdinBytesWritten: nat,
    stdout: Captured,
    stderr: Captured,
    stdoutTruncated: bool,
    stderrTruncated: bool,
    stdoutCaptureComplete: bool,
    stderrCaptureComplete: bool
  )

  /** The stream came to its end, or to the end of its time. */
  predicate Ended(ending: Ending) {
    ending.RealEof? || ending.TimeCut?
  }

  /** What a receipt needs of the three pipes: the input was delivered or cut short, and both streams ended. */
  ghost predicate Collectable(writes: seq<WriteTurn>, size: nat, stdout: Ending, stderr: Ending) {
    Delivery(writes, size, None, 0).0.Written? && Ended(stdout) && Ended(stderr)
  }

  /** The joins after `child.wait()`, the receipt they fill in and the spool files they leave. */
  method CollectExecution(
    exitCode: Option<int>, input: seq<byte>, stdin: StdinPipe, stdout: ExitBoundedPipe, stderr: ExitBoundedPipe,
    spoolReliable: bool
  )
    returns (r: Result<Receipt>, outSpool: seq<byte>, errSpool: seq<byte>)
    requires stdout != stderr && !stdout.observedEof && !stderr.observedEof && stdin.received == []
    modifies stdin, stdout, stderr
    ensures r.Ok? ==>
      && (r.value.finish.processExited <==> exitCode.Some?)
      && (r.value.finish.inputComplete <==> stdin.received == input)
      && (r.value.finish.stdoutEof <==> old(stdout.Ahead()).ending.RealEof?)
      && (r.value.finish.stderrEof <==> old(stderr.Ahead()).ending.RealEof?)
      && (r.value.stdout, outSpool) == Evidence(old(stdout.Ahead()).bytes, true)
      && (r.value.stderr, errSpool) == Evidence(old(stderr.Ahead()).bytes, true)
      && (r.value.stdoutTruncated <==> r.value.stdout.preview != old(stdout.Ahead()).bytes)
      && (r.value.stderrTruncated <==> r.value.stderr.preview != old(stderr.Ahead()).bytes)
      && (r.value.stdoutCaptureComplete <==> outSpool == old(stdout.Ahead()).bytes)
      && (r.value.stderrCaptureComplete <==> errSpool == old(stderr.Ahead()).bytes)
    ensures r.Ok? ==> Collectable(old(stdin.turns), |input|, old(stdout.Ahead()).ending, old(stderr.Ahead()).ending)
    ensures spoolReliable && Collectable(old(stdin.turns), |input|, old(stdout.Ahead()).ending, old(stderr.Ahead()).ending) ==> r.Ok?
    ensures r == Err("HOST_ADMIN_STDIN_IO_UNKNOWN_NO_REPLAY") <==> !Delivery(old(stdin.turns), |input|, None, 0).0.Written?
    ensures r == Err("HOST_ADMIN_STDERR_IO_UNKNOWN_NO_REPLAY") ==> Ended(old(stdout.Ahead()).ending)
  {
    outSpool, errSpool := [], [];
    var written := stdin.WriteBounded(input);
    if !written.Written? {
      return Err("HOST_ADMIN_STDIN_IO_UNKNOWN_NO_REPLAY"), outSpool, errSpool;
    }
    var out := CaptureStream(stdout, true, spoolReliable);
    if !out.Done? {
      return Err("HOST_ADMIN_STDOUT_IO_UNKNOWN_NO_REPLAY"), outSpool, errSpool;
    }
    var err := CaptureStream(stderr, true, spoolReliable);
    if !err.Done? {
      return Err("HOST_ADMIN_STDERR_IO_UNKNOWN_NO_REPLAY"), outSpool, errSpool;
    }
    outSpool, errSpool := out.saved, err.saved;
    var inputComplete := written.count == |input|;
    assert input[..|input|] == input;
    var finish := AdminJournal.Finish(exitCode.Some?, inputComplete, stdout.observedEof, stderr.observedEof);
    FlagsExact(old(stdout.Ahead()).bytes);
    FlagsExact(old(stderr.Ahead()).bytes);
    r := Ok(Receipt(
      finish, written.count, out.stream, err.stream,
      out.stream.totalBytes > PREVIEW_LIMIT, err.stream.totalBytes > PREVIEW_LIMIT,
      out.stream.captureBytes == out.stream.totalBytes, err.stream.captureBytes == err.stream.totalBytes));
  }

  /** The counter comparisons decide truncation and completeness exactly, saturation of the total included. */
  lemma FlagsExact(data: seq<byte>)
    ensures
      var (c, saved) := Evidence(data, true);
      && (c.totalBytes > PREVIEW_LIMIT <==> c.preview != data)
      && (c.captureBytes == c.totalBytes <==> saved == data)
      && c.preview <= saved <= data
  {
    assert |data| <= PREVIEW_LIMIT ==> Prefix(data, PREVIEW_LIMIT) == data;
    assert |data| <= CAPTURE_LIMIT ==> Prefix(data, CAPTURE_LIMIT) == data;
    assert |data| > CAPTURE_LIMIT ==> |Prefix(data, CAPTURE_LIMIT)| == CAPTURE_LIMIT;
  }

  // -------------------------------------------------------------------------
  // Where a stream ends

  /** Nothing but what a turn delivers, in order. */
  ghost function Delivered(turns: seq<ReadTurn>): seq<byte> {
    if turns == [] then []
    else (if turns[0].ready.ReadOk? then turns[0].ready.bytes else []) + Delivered(turns[1..])
  }

  /** How a turn ends the stream, if it does. */
  function EndHere(t: ReadTurn, started: Option<nat>): Option<Ending> {
    if Expired(t, started) then Some(TimeCut)
    else if t.ready.PollFailed? || t.ready.ReadFailed? then Some(Failed)
    else if t.ready == ReadOk([]) then Some(RealEof)
    else None
  }

  /** Turn `k` is the first to end the stream, and ends it this way. */
  ghost predicate EndsAt(turns: seq<ReadTurn>, started: Option<nat>, k: nat, ending: Ending) {
    && k <= |turns|
    && (forall i :: 0 <= i < k ==> EndHere(turns[i], Began(turns[..i], started)).None?)
    && (if k < |turns| then EndHere(turns[k], Began(turns[..k], started)) == Some(ending) else ending.Waiting?)
  }

  /** The reader gets every byte delivered before the first turn that ends the stream: a zero-length read, a failure,
      or a turn two seconds after the child was first seen gone. */
  lemma {:induction false} DrainIsWholePrefix(turns: seq<ReadTurn>, started: Option<nat>) returns (k: nat)
    ensures EndsAt(turns, started, k, Drain(turns, started).ending)
    ensures Drain(turns, started).bytes == Delivered(turns[..k])
  {
    if turns == [] || EndHere(turns[0], started).Some? {
      k := 0;
      assert turns[..0] == [];
    } else {
      var rest, began := turns[1..], Start(turns[0], started);
      var j := DrainIsWholePrefix(rest, began);
      k := j + 1;
      assert turns[..k][1..] == rest[..j];
      forall i | 0 <= i < |turns| ensures i > 0 ==> Began(turns[..i], started) == Began(rest[..i - 1], began) {
        assert i > 0 ==> turns[..i][1..] == rest[..i - 1];
      }
      forall i | 0 <= i < k ensures EndHere(turns[i], Began(turns[..i], started)).None? {
        assert i > 0 ==> turns[i] == rest[i - 1];
      }
    }
  }

  // -------------------------------------------------------------------------
  // Neither pipe can hold the lock for ever

  /** The clock never runs backwards. */
  ghost predicate Monotone<R>(turns: seq<Turn<R>>) {
    forall i, j :: 0 <= i < j < |turns| ==> turns[i].now <= turns[j].now
  }

  /** Some turn sees the child gone, and one at least two seconds later still does. */
  ghost predicate DrainOver<R>(turns: seq<Turn<R>>) {
    exists i, j :: 0 <= i < j < |turns| && turns[i].childExited && OverAt(turns, j, turns[i].now)
  }

  ghost predicate StartedBefore<R>(turns: seq<Turn<R>>, started: Option<nat>) {
    started.Some? ==> forall i :: 0 <= i < |turns| ==> started.value <= turns[i].now
  }

  /** After its first turn, what is left either still holds both turns or is about to expire. */
  ghost predicate Overdue<R>(turns: seq<Turn<R>>, started: Option<nat>) {
    && Monotone(turns) && StartedBefore(turns, started)
    && (DrainOver(turns) || (started.Some? && exists j :: OverAt(turns, j, started.value)))
  }

  lemma TailInOrder<R>(turns: seq<Turn<R>>, started: Option<nat>)
    requires turns != [] && Monotone(turns) && StartedBefore(turns, started)
    ensures Monotone(turns[1..]) && StartedBefore(turns[1..], Start(turns[0], started))
  {
    var rest := turns[1..];
    forall i | 0 <= i < |rest| ensures turns[0].now <= rest[i].now && rest[i] == turns[i + 1] {
    }
  }

  /** A later turn at which the drain is over, measured from `from`. */
  ghost predicate OverAt<R>(turns: seq<Turn<R>>, j: int, from: nat) {
    0 <= j < |turns| && turns[j].childExited && turns[j].now >= from + POST_EXIT_DRAIN
  }

  lemma OverdueLater<R>(turns: seq<Turn<R>>, started: Option<nat>)
    requires Overdue(turns, started) && !Expired(turns[0], started)
    ensures Overdue(turns[1..], Start(turns[0], started))
  {
    var rest := turns[1..];
    TailInOrder(turns, started);
    if DrainOver(turns) {
      var i, j :| 0 <= i < j < |turns| && turns[i].childExited && OverAt(turns, j, turns[i].now);
      if i == 0 {
        assert OverAt(rest, j - 1, Start(turns[0], started).value);
      } else {
        assert rest[i - 1] == turns[i] && OverAt(rest, j - 1, rest[i - 1].now);
      }
    } else {
      var j :| OverAt(turns, j, started.value);
      assert OverAt(rest, j - 1, started.value);
    }
  }

  /** Once two turns that see the child gone lie two seconds apart, the reader does not wait any more. */
  lemma {:induction false} ReaderEnds(turns: seq<ReadTurn>, started: Option<nat>)
    requires Overdue(turns, started)
    ensures !Drain(turns, started).ending.Waiting?
  {
    if !Expired(turns[0], started) && EndHere(turns[0], started).None? {
      OverdueLater(turns, started);
      ReaderEnds(turns[1..], Start(turns[0], started));
    }
  }

  /** Nor does the writer. */
  lemma {:induction false} WriterEnds(turns: seq<WriteTurn>, size: nat, started: Option<nat>, written: nat)
    requires Overdue(turns, started)
    ensures !Delivery(turns, size, started, written).0.WriteBlocked?
    decreases |turns|
  {
    if written < size && !Expired(turns[0], started) {
      OverdueLater(turns, started);
      WriterEnds(turns[1..], size, Start(turns[0], started), written);
      if turns[0].ready.Accepted? {
        WriterEnds(turns[1..], size, Start(turns[0], started), written + Min(turns[0].ready.count, size - written));
      }
    }
  }

  /** So once every pipe has been drained for two seconds after the exit, the joins return: no pipe a descendant keeps
      open holds the lock. */
  lemma NoPipeHoldsTheLock(writes: seq<WriteTurn>, size: nat, out: seq<ReadTurn>, err: seq<ReadTurn>)
    requires Monotone(writes) && DrainOver(writes) && Monotone(out) && DrainOver(out) && Monotone(err) && DrainOver(err)
    ensures !Delivery(writes, size, None, 0).0.WriteBlocked?
    ensures !Drain(out, None).ending.Waiting? && !Drain(err, None).ending.Waiting?
    ensures Collectable(writes, size, Drain(out, None).ending, Drain(err, None).ending)
       <==> !Delivery(writes, size, None, 0).0.WriteError? && !Drain(out, None).ending.Failed? && !Drain(err, None).ending.Failed?
  {
    WriterEnds(writes, size, None, 0);
    ReaderEnds(out, None);
    ReaderEnds(err, None);
  }

  // -------------------------------------------------------------------------
  // Chunking

  /** Cutting one read in two, with an empty poll or an interrupt between the pieces, changes nothing a reader
      can tell, wherever in the stream it happens; so no way of cutting the same bytes into reads does. */
  lemma {:induction false} SplitReadDoesNotShow(
    before: seq<ReadTurn>, t: ReadTurn, x: seq<byte>, y: seq<byte>, idle: Ready, after: seq<ReadTurn>, started: Option<nat>
  )
    requires x != [] && y != []
    requires idle.PollInterrupted? || idle.NotReady?
    ensures Drain(before + [t.(ready := ReadOk(x + y))] + after, started)
         == Drain(before + [t.(ready := ReadOk(x)), t.(ready := idle), t.(ready := ReadOk(y))] + after, started)
  {
    var whole := [t.(ready := ReadOk(x + y))] + after;
    var cut := [t.(ready := ReadOk(x)), t.(ready := idle), t.(ready := ReadOk(y))] + after;
    if before == [] {
      SplitFirstRead(t, x, y, idle, after, started);
      assert before + [t.(ready := ReadOk(x + y))] + after == whole;
      assert before + [t.(ready := ReadOk(x)), t.(ready := idle), t.(ready := ReadOk(y))] + after == cut;
    } else {
      SplitReadDoesNotShow(before[1..], t, x, y, idle, after, Start(before[0], started));
      assert (before + [t.(ready := ReadOk(x + y))] + after)[1..] == before[1..] + [t.(ready := ReadOk(x + y))] + after;
      assert (before + [t.(ready := ReadOk(x)), t.(ready := idle), t.(ready := ReadOk(y))] + after)[1..]
          == before[1..] + [t.(ready := ReadOk(x)), t.(ready := idle), t.(ready := ReadOk(y))] + after;
    }
  }

  lemma SplitFirstRead(t: ReadTurn, x: seq<byte>, y: seq<byte>, idle: Ready, after: seq<ReadTurn>, started: Option<nat>)
    requires x != [] && y != []
    requires idle.PollInterrupted? || idle.NotReady?
    ensures Drain([t.(ready := ReadOk(x + y))] + after, started)
         == Drain([t.(ready := ReadOk(x)), t.(ready := idle), t.(ready := ReadOk(y))] + after, started)
  {
    var last := [t.(ready := ReadOk(y))] + after;
    var middle := [t.(ready := idle)] + last;
    assert [t.(ready := ReadOk(x)), t.(ready := idle), t.(ready := ReadOk(y))] + after == [t.(ready := ReadOk(x))] + middle;
    var began := Start(t, started);
    var rest := Drain(after, began);
    assert ([t.(ready := ReadOk(x + y))] + after)[1..] == after;
    assert last[1..] == after && middle[1..] == last && ([t.(ready := ReadOk(x))] + middle)[1..] == middle;
    if !Expired(t, started) {
      assert Drain(last, began).bytes == y + rest.bytes;
      assert Drain(middle, began) == Drain(last, began);
      assert (x + y) + rest.bytes == x + (y + rest.bytes);
    }
  }
}
