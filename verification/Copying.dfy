/** The bounded, hashing copy under every archive read and blob write. */
module Copying {
  import opened Wrappers

  newtype byte = x: int | 0 <= x < 256
  type Bytes = seq<byte>

  const COPY_BUFFER_SIZE: nat := 32768
  const EMPTY_READ_LIMIT: nat := 100

  /** How a source answers one Read: hand over up to `count` bytes (possibly
      reporting the end together with the last of them), nothing at all, or fail
      after `count` bytes. */
  datatype Response = Deliver(count: nat, early: bool) | Stall | Break(count: nat)

  /** What a source holds, and how it answers. After the plan runs out it hands over
      all that is asked for. */
  datatype Source = Source(content: Bytes, plan: seq<Response>)

  /** The answer to call `j` brings nothing, whatever the source has left. */
  predicate Idle(plan: seq<Response>, j: int) {
    0 <= j < |plan| && (plan[j].Stall? || (plan[j].Deliver? && plan[j].count == 0))
  }

  predicate Stalls(plan: seq<Response>, j: int) {
    0 <= j < |plan| && plan[j].Stall?
  }

  predicate Breaks(plan: seq<Response>, j: int) {
    0 <= j < |plan| && plan[j].Break?
  }

  /** A hundred answers in a row, from call `i` on, bring nothing. */
  ghost predicate Barren(plan: seq<Response>, i: int) {
    forall j :: i <= j < i + 100 ==> Idle(plan, j)
  }

  ghost predicate Stalled(plan: seq<Response>, i: int) {
    forall j :: i <= j < i + 100 ==> Stalls(plan, j)
  }

  /** A source that does not fail and never brings nothing a hundred times in a row,
      whatever its chunking. */
  ghost predicate Smooth(source: Source) {
    && (forall j :: 0 <= j < |source.plan| ==> !Breaks(source.plan, j))
    && (forall i :: 0 <= i < |source.plan| ==> !Barren(source.plan, i))
  }

  datatype Signal = Quiet | EndOfFile | Broken

  function Min(a: nat, b: nat): nat {
    if a <= b then a else b
  }

  /** io.Reader over a source. */
  class Reader {
    const source: Source
    var position: nat
    var calls: nat

    constructor (source: Source)
      ensures this.source == source && Valid() && Rest() == source.content
    {
      this.source := source;
      position, calls := 0, 0;
    }

    ghost predicate Valid()
      reads this
    {
      position <= |source.content|
    }

    /** What has not been handed over yet. */
    ghost function Rest(): Bytes
      requires Valid()
      reads this
    {
      source.content[position..]
    }

    method Read(n: nat) returns (data: Bytes, signal: Signal)
      requires Valid() && n > 0
      modifies this
      ensures Valid() && |data| <= n && old(Rest()) == data + Rest()
      ensures signal.EndOfFile? ==> Rest() == []
      ensures calls == old(calls) + 1
      ensures signal.Broken? ==> Breaks(source.plan, old(calls))
      ensures signal.Quiet? && data == [] ==> Idle(source.plan, old(calls))
      ensures Stalls(source.plan, old(calls)) ==> signal.Quiet? && data == []
    {
      var response := if calls < |source.plan| then source.plan[calls] else Deliver(n, false);
      calls := calls + 1;
      var left := |source.content| - position;
      match response
      case Deliver(count, early) =>
        var c := Min(Min(count, n), left);
        data := source.content[position..position + c];
        signal := if c == left && (early || c == 0) then EndOfFile else Quiet;
        position := position + c;
      case Stall =>
        data, signal := [], Quiet;
      case Break(count) =>
        var c := Min(Min(count, n), left);
        data := source.content[position..position + c];
        signal := Broken;
        position := position + c;
    }
  }

  /** How a destination takes one Write: whole, or only `count` bytes, with an error
      or with a silent short count. */
  datatype WriteResponse = Whole | Fail(count: nat) | Short(count: nat)

  /** io.Writer over a growing file. */
  class Sink {
    const plan: seq<WriteResponse>
    var data: Bytes
    var calls: nat

    constructor (plan: seq<WriteResponse>)
      ensures this.plan == plan && data == []
    {
      this.plan := plan;
      data, calls := [], 0;
    }

    method Write(chunk: Bytes) returns (count: nat, error: bool)
      modifies this
      ensures count <= |chunk| && data == old(data) + chunk[..count]
      ensures calls == old(calls) + 1
      ensures error ==> Refuses(plan, old(calls))
      ensures !error && count < |chunk| ==> Shortens(plan, old(calls))
    {
      var response := if calls < |plan| then plan[calls] else Whole;
      calls := calls + 1;
      count := if response.Whole? then |chunk| else Min(response.count, |chunk|);
      error := response.Fail?;
      data := data + chunk[..count];
    }
  }

  predicate Refuses(plan: seq<WriteResponse>, j: int) {
    0 <= j < |plan| && plan[j].Fail?
  }

  predicate Shortens(plan: seq<WriteResponse>, j: int) {
    0 <= j < |plan| && plan[j].Short?
  }

  predicate Reliable(plan: seq<WriteResponse>) {
    forall i :: 0 <= i < |plan| ==> plan[i].Whole?
  }

  /** The digest is that of some prefix of what landed. */
  ghost predicate HashesPrefix(digest: string, hash: Bytes -> string, landed: Bytes) {
    exists k :: 0 <= k <= |landed| && digest == hash(landed[..k])
  }

  datatype CopyError =
    NegativeLimit | Cancelled | LimitExceeded | ReadFailed | WriteFailed | ShortWrite | NoProgress

  /** CopyResult together with the error; no error is success. */
  datatype Copied = Copied(size: nat, digest: string, error: Option<CopyError>)

  /** What a copy of `rest` under a limit may report. */
  ghost predicate Accounts(r: Copied, rest: Bytes, maxBytes: int, hash: Bytes -> string) {
    // What landed is a prefix of the source no longer than the limit.
    && r.size <= |rest|
    && (maxBytes >= 0 ==> r.size <= maxBytes)
    && (maxBytes < 0 <==> r.error == Some(NegativeLimit))
    // Success is the whole source, sized and hashed.
    && (r.error.None? ==> r.size == |rest|)
    // The limit error means the source really is longer, and the limit was filled.
    && (r.error == Some(LimitExceeded) ==> |rest| > maxBytes && r.size == maxBytes)
    // The digest describes what landed, except that a failed write is not hashed.
    && (r.error == Some(WriteFailed) || r.error == Some(ShortWrite) ==>
          HashesPrefix(r.digest, hash, rest[..r.size]))
    && (maxBytes >= 0 && r.error != Some(WriteFailed) && r.error != Some(ShortWrite) ==>
          r.digest == hash(rest[..r.size]))
  }

  /** After `calls` reads, the first of them `first`, the loop goes on with this count
      of empty reads. */
  ghost predicate Tally(plan: seq<Response>, first: nat, calls: nat, emptyReads: nat, cancelled: nat -> bool) {
    && first + emptyReads <= calls
    && (forall k: nat :: k < calls - first ==> !cancelled(k))
    && (forall j :: calls - emptyReads <= j < calls ==> Idle(plan, j))
    && (calls - emptyReads == first || !Stalls(plan, calls - emptyReads - 1))
    && (forall i :: first <= i && i + 100 <= calls ==> !Stalled(plan, i))
  }

  lemma TallyMoved(plan: seq<Response>, first: nat, calls: nat, emptyReads: nat, cancelled: nat -> bool)
    requires Tally(plan, first, calls, emptyReads, cancelled)
    requires !cancelled(calls - first) && !Stalls(plan, calls)
    ensures Tally(plan, first, calls + 1, 0, cancelled)
  {
  }

  lemma TallyEmpty(plan: seq<Response>, first: nat, calls: nat, emptyReads: nat, cancelled: nat -> bool)
    requires Tally(plan, first, calls, emptyReads, cancelled) && emptyReads < 99
    requires !cancelled(calls - first) && Idle(plan, calls)
    ensures Tally(plan, first, calls + 1, emptyReads + 1, cancelled)
  {
  }

  /** Every error has its cause, and a copy reads no further than the context and the
      patience with empty reads let it: it makes one check before each read, so a
      context that is done at check k leaves at most k reads. */
  ghost predicate Blames(
    error: Option<CopyError>, plan: seq<Response>, first: nat, calls: nat,
    writes: seq<WriteResponse>, written: nat, cancelled: nat -> bool)
  {
    && first <= calls
    && (forall k: nat :: k < calls - first ==> !cancelled(k))
    && (forall i :: first <= i && i + 100 < calls ==> !Stalled(plan, i))
    && (error == Some(Cancelled) ==> cancelled(calls - first))
    && (error == Some(NoProgress) ==> first + 100 <= calls && Barren(plan, calls - 100))
    && (error == Some(ReadFailed) ==> Breaks(plan, calls - 1))
    && (error == Some(WriteFailed) ==> Refuses(writes, written - 1))
    && (error == Some(ShortWrite) ==> Shortens(writes, written - 1))
  }

  lemma TallyEnds(
    error: Option<CopyError>, plan: seq<Response>, first: nat, calls: nat, emptyReads: nat,
    writes: seq<WriteResponse>, written: nat, cancelled: nat -> bool)
    requires Tally(plan, first, calls, emptyReads, cancelled)
    requires !cancelled(calls - first)
    requires error != Some(Cancelled)
    requires error == Some(NoProgress) ==> emptyReads == 99 && Idle(plan, calls)
    requires error == Some(ReadFailed) ==> Breaks(plan, calls)
    requires error == Some(WriteFailed) ==> Refuses(writes, written - 1)
    requires error == Some(ShortWrite) ==> Shortens(writes, written - 1)
    ensures Blames(error, plan, first, calls + 1, writes, written, cancelled)
  {
  }

  /** With nothing going wrong the outcome is decided by the length alone. */
  lemma LengthDecides(
    r: Copied, rest: Bytes, maxBytes: int, hash: Bytes -> string, source: Source, first: nat, calls: nat,
    writes: seq<WriteResponse>, written: nat, cancelled: nat -> bool)
    requires maxBytes >= 0 && Accounts(r, rest, maxBytes, hash)
    requires Blames(r.error, source.plan, first, calls, writes, written, cancelled)
    requires Smooth(source) && Reliable(writes) && (forall k :: !cancelled(k))
    ensures r.error == if |rest| <= maxBytes then None else Some(LimitExceeded)
  {
    match r.error
    case None =>
    case Some(error) =>
      assert Barren(source.plan, calls - 100) ==> Idle(source.plan, calls - 100);
      match error {
        case NoProgress =>
        case _ =>
      }
  }

  /** How one turn of the copy loop ends. */
  datatype Turn = Moved | Empty | Finished | Stopped(error: CopyError)

  /** A turn is one read, and its outcome is that of the answer to it. */
  ghost predicate Answered(plan: seq<Response>, before: nat, after: nat, turn: Turn) {
    && after == before + 1
    && (turn.Empty? ==> Idle(plan, before))
    && (turn.Moved? ==> !Stalls(plan, before))
    && (turn == Stopped(ReadFailed) ==> Breaks(plan, before))
  }

  /** The read at the boundary, which tells a source that ends exactly at the limit
      from one that goes on. */
  method Probe(src: Reader) returns (turn: Turn)
    requires src.Valid()
    modifies src
    ensures src.Valid()
    ensures turn.Finished? ==> old(src.Rest()) == []
    ensures turn == Stopped(LimitExceeded) ==> old(src.Rest()) != []
    ensures turn.Empty? || turn.Finished? ==> src.Rest() == old(src.Rest())
    ensures turn.Finished? || turn.Empty? || turn == Stopped(LimitExceeded) || turn == Stopped(ReadFailed)
    ensures Answered(src.source.plan, old(src.calls), src.calls, turn)
  {
    var probe, signal := src.Read(1);
    if |probe| > 0 {
      return Stopped(LimitExceeded);
    }
    assert old(src.Rest()) == src.Rest();
    match signal
    case EndOfFile => return Finished;
    case Broken => return Stopped(ReadFailed);
    case Quiet => return Empty;
  }

  /** One read and the write of what it brought. `landed` is what reached the
      destination. */
  method Pump(dst: Sink, src: Reader, n: nat) returns (landed: Bytes, turn: Turn)
    requires src.Valid() && n > 0
    modifies dst, src
    ensures src.Valid() && |landed| <= n && landed <= old(src.Rest())
    ensures dst.data == old(dst.data) + landed
    ensures turn.Moved? || turn.Empty? || turn.Finished? || turn == Stopped(ReadFailed) ==>
              old(src.Rest()) == landed + src.Rest()
    ensures turn.Finished? ==> src.Rest() == []
    ensures turn.Empty? ==> landed == []
    ensures turn.Moved? ==> landed != []
    ensures turn.Stopped? ==> turn.error == ReadFailed || turn.error == WriteFailed || turn.error == ShortWrite
    ensures Answered(src.source.plan, old(src.calls), src.calls, turn)
    ensures turn == Stopped(WriteFailed) ==> Refuses(dst.plan, dst.calls - 1)
    ensures turn == Stopped(ShortWrite) ==> Shortens(dst.plan, dst.calls - 1)
  {
    var data, signal := src.Read(n);
    landed := data;
    if |data| > 0 {
      var count, error := dst.Write(data);
      landed := data[..count];
      if error {
        return landed, Stopped(WriteFailed);
      }
      if count != |data| {
        return landed, Stopped(ShortWrite);
      }
      assert landed == data;
    }
    match signal
    case EndOfFile => return landed, Finished;
    case Broken => return landed, Stopped(ReadFailed);
    case Quiet => return landed, if |data| == 0 then Empty else Moved;
  }

  /** A report and its cause. */
  ghost predicate Reports(
    r: Copied, rest: Bytes, maxBytes: nat, hash: Bytes -> string, plan: seq<Response>, first: nat, calls: nat,
    writes: seq<WriteResponse>, written: nat, cancelled: nat -> bool)
  {
    && Accounts(r, rest, maxBytes, hash)
    && Blames(r.error, plan, first, calls, writes, written, cancelled)
  }

  /** What is reported of a loop that ends with `landed` of the remaining `tail`. */
  lemma TurnAccounts(
    error: Option<CopyError>, hashed: Bytes, landed: Bytes, tail: Bytes, rest: Bytes, maxBytes: nat,
    hash: Bytes -> string)
    requires rest == hashed + tail && landed <= tail && |hashed| + |landed| <= maxBytes
    requires error != Some(NegativeLimit)
    requires error.None? ==> landed == tail
    requires error == Some(LimitExceeded) ==> |hashed| + |landed| == maxBytes && landed < tail
    ensures rest[..|hashed| + |landed|] == hashed + landed
    ensures var failed := error == Some(WriteFailed) || error == Some(ShortWrite);
            var digest := hash(if failed then hashed else hashed + landed);
            Accounts(Copied(|hashed| + |landed|, digest, error), rest, maxBytes, hash)
  {
    assert rest[..|hashed| + |landed|] == hashed + landed;
    assert (hashed + landed)[..|hashed|] == hashed;
  }

  lemma Reassociate(done: Bytes, landed: Bytes, tail: Bytes)
    ensures done + (landed + tail) == (done + landed) + tail
    ensures done + [] == done
  {
  }

  /** What a turn with `room` bytes left under the limit did to the `tail` of the
      source: `landed` arrived and `after` is left. */
  ghost predicate TurnMeans(turn: Turn, landed: Bytes, tail: Bytes, after: Bytes, room: nat) {
    && |landed| <= room && landed <= tail
    && (turn.Moved? || turn.Empty? || turn.Finished? ==> tail == landed + after)
    && (turn.Finished? ==> landed == tail)
    && (turn.Empty? ==> landed == [])
    && (turn.Moved? ==> landed != [])
    && (turn.Stopped? ==> turn.error !in {NegativeLimit, Cancelled, NoProgress})
    && (turn == Stopped(LimitExceeded) ==> room == 0 && landed < tail)
  }

  ghost predicate WriteMeans(turn: Turn, writes: seq<WriteResponse>, written: nat) {
    && (turn == Stopped(WriteFailed) ==> Refuses(writes, written - 1))
    && (turn == Stopped(ShortWrite) ==> Shortens(writes, written - 1))
  }

  method TakeTurn(dst: Sink, src: Reader, room: nat) returns (landed: Bytes, turn: Turn)
    requires src.Valid()
    modifies dst, src
    ensures src.Valid()
    ensures dst.data == old(dst.data) + landed
    ensures TurnMeans(turn, landed, old(src.Rest()), src.Rest(), room)
    ensures Answered(src.source.plan, old(src.calls), src.calls, turn)
    ensures WriteMeans(turn, dst.plan, dst.calls)
  {
    if room == 0 {
      landed := [];
      turn := Probe(src);
      assert landed + src.Rest() == src.Rest();
    } else {
      landed, turn := Pump(dst, src, Min(COPY_BUFFER_SIZE, room));
      assert landed + [] == landed;
    }
  }

  /** What the loop does after a turn: go on with a count of empty reads, or end. */
  datatype Decision = GoOn(emptyReads: nat) | Over(result: Copied)

  function Decided(turn: Turn, hashed: Bytes, landed: Bytes, emptyReads: nat, hash: Bytes -> string): Decision {
    var size := |hashed| + |landed|;
    match turn
    case Stopped(error) =>
      Over(Copied(size, hash(if error.WriteFailed? || error.ShortWrite? then hashed else hashed + landed), Some(error)))
    case Finished => Over(Copied(size, hash(hashed + landed), None))
    case Moved => GoOn(0)
    case Empty =>
      if emptyReads + 1 >= EMPTY_READ_LIMIT then Over(Copied(size, hash(hashed + landed), Some(NoProgress)))
      else GoOn(emptyReads + 1)
  }

  lemma DecidedAccounts(
    turn: Turn, hashed: Bytes, landed: Bytes, tail: Bytes, after: Bytes, rest: Bytes, maxBytes: nat,
    emptyReads: nat, hash: Bytes -> string)
    requires |hashed| <= maxBytes && TurnMeans(turn, landed, tail, after, maxBytes - |hashed|)
    requires rest == hashed + tail && emptyReads < EMPTY_READ_LIMIT
    ensures var next := Decided(turn, hashed, landed, emptyReads, hash);
            && |hashed + landed| <= maxBytes
            && (next.GoOn? ==> rest == hashed + landed + after && next.emptyReads < EMPTY_READ_LIMIT)
            && (next.GoOn? && landed == [] ==> next.emptyReads == emptyReads + 1)
            && (next.Over? ==>
                  && Accounts(next.result, rest, maxBytes, hash)
                  && next.result.size == |hashed + landed|
                  && rest[..next.result.size] == hashed + landed)
  {
    match turn
    case Stopped(error) => TurnAccounts(Some(error), hashed, landed, tail, rest, maxBytes, hash);
    case Finished => TurnAccounts(None, hashed, landed, tail, rest, maxBytes, hash);
    case Empty => TurnAccounts(Some(NoProgress), hashed, landed, tail, rest, maxBytes, hash);
    case Moved =>
    if !turn.Stopped? {
      Reassociate(hashed, landed, after);
    }
  }

  lemma DecidedBlames(
    turn: Turn, hashed: Bytes, landed: Bytes, tail: Bytes, after: Bytes, room: nat, emptyReads: nat,
    hash: Bytes -> string, plan: seq<Response>, first: nat, calls: nat,
    writes: seq<WriteResponse>, written: nat, cancelled: nat -> bool)
    requires TurnMeans(turn, landed, tail, after, room) && emptyReads < EMPTY_READ_LIMIT
    requires Tally(plan, first, calls, emptyReads, cancelled) && !cancelled(calls - first)
    requires Answered(plan, calls, calls + 1, turn) && WriteMeans(turn, writes, written)
    ensures var next := Decided(turn, hashed, landed, emptyReads, hash);
            && (next.GoOn? ==> Tally(plan, first, calls + 1, next.emptyReads, cancelled))
            && (next.Over? ==> Blames(next.result.error, plan, first, calls + 1, writes, written, cancelled))
  {
    match turn
    case Stopped(error) => TallyEnds(Some(error), plan, first, calls, emptyReads, writes, written, cancelled);
    case Finished => TallyEnds(None, plan, first, calls, emptyReads, writes, written, cancelled);
    case Moved => TallyMoved(plan, first, calls, emptyReads, cancelled);
    case Empty =>
      if emptyReads < 99 {
        TallyEmpty(plan, first, calls, emptyReads, cancelled);
      } else {
        TallyEnds(Some(NoProgress), plan, first, calls, emptyReads, writes, written, cancelled);
      }
  }

  /** One turn and the decision after it, when the context is not done. */
  method Go(dst: Sink, src: Reader, maxBytes: nat, hashed: Bytes, emptyReads: nat, hash: Bytes -> string,
            ghost rest: Bytes, ghost first: nat, ghost cancelled: nat -> bool)
    returns (landed: Bytes, decision: Decision)
    requires src.Valid() && |hashed| <= maxBytes && rest == hashed + src.Rest() && emptyReads < EMPTY_READ_LIMIT
    requires Tally(src.source.plan, first, src.calls, emptyReads, cancelled) && !cancelled(src.calls - first)
    modifies dst, src
    ensures src.Valid() && src.calls == old(src.calls) + 1
    ensures dst.data == old(dst.data) + landed && |hashed + landed| <= maxBytes
    ensures decision.GoOn? ==>
              && rest == hashed + landed + src.Rest() && decision.emptyReads < EMPTY_READ_LIMIT
              && (landed == [] ==> decision.emptyReads == emptyReads + 1)
              && Tally(src.source.plan, first, src.calls, decision.emptyReads, cancelled)
    ensures decision.Over? ==>
              && Reports(decision.result, rest, maxBytes, hash, src.source.plan, first, src.calls,
                         dst.plan, dst.calls, cancelled)
              && rest[..decision.result.size] == hashed + landed
  {
    ghost var tail, calls := src.Rest(), src.calls;
    var turn: Turn;
    landed, turn := TakeTurn(dst, src, maxBytes - |hashed|);
    DecidedAccounts(turn, hashed, landed, tail, src.Rest(), rest, maxBytes, emptyReads, hash);
    DecidedBlames(turn, hashed, landed, tail, src.Rest(), maxBytes - |hashed|, emptyReads, hash,
                  src.source.plan, first, calls, dst.plan, dst.calls, cancelled);
    decision := Decided(turn, hashed, landed, emptyReads, hash);
  }

  /** The loop of the copy. */
  method CopyLoop(dst: Sink, src: Reader, maxBytes: nat, cancelled: nat -> bool, hash: Bytes -> string)
    returns (r: Copied)
    requires src.Valid()
    modifies dst, src
    ensures src.Valid()
    ensures Reports(r, old(src.Rest()), maxBytes, hash, src.source.plan, old(src.calls), src.calls,
                    dst.plan, dst.calls, cancelled)
    ensures dst.data == old(dst.data) + old(src.Rest())[..r.size]
  {
    ghost var rest, before, first := src.Rest(), dst.data, src.calls;
    var hashed: Bytes := [];
    var emptyReads: nat := 0;
    var checks: nat := 0;
    Reassociate(before, [], []);
    while true
      invariant src.Valid() && |hashed| <= maxBytes
      invariant rest == hashed + src.Rest()
      invariant dst.data == before + hashed
      invariant emptyReads < EMPTY_READ_LIMIT && checks == src.calls - first
      invariant Tally(src.source.plan, first, src.calls, emptyReads, cancelled)
      decreases maxBytes - |hashed|, EMPTY_READ_LIMIT - emptyReads
    {
      if cancelled(checks) {
        Reassociate(hashed, [], []);
        TurnAccounts(Some(Cancelled), hashed, [], src.Rest(), rest, maxBytes, hash);
        return Copied(|hashed|, hash(hashed), Some(Cancelled));
      }
      checks := checks + 1;
      var landed, decision := Go(dst, src, maxBytes, hashed, emptyReads, hash, rest, first, cancelled);
      Reassociate(before, hashed, landed);
      match decision
      case Over(result) => return result;
      case GoOn(count) =>
        emptyReads := count;
        hashed := hashed + landed;
    }
  }

  /** CopyAndHashContext. `cancelled(k)` is whether the context is done at the k-th
      check and `hash` stands for SHA-256 in hexadecimal. */
  method CopyAndHash(dst: Sink, src: Reader, maxBytes: int, cancelled: nat -> bool, hash: Bytes -> string)
    returns (r: Copied)
    requires src.Valid()
    modifies dst, src
    ensures src.Valid()
    ensures Accounts(r, old(src.Rest()), maxBytes, hash)
    ensures dst.data == old(dst.data) + old(src.Rest())[..r.size]
    ensures Blames(r.error, src.source.plan, old(src.calls), src.calls, dst.plan, dst.calls, cancelled)
    ensures maxBytes >= 0 && Smooth(src.source) && Reliable(dst.plan) && (forall k :: !cancelled(k)) ==>
              r.error == if |old(src.Rest())| <= maxBytes then None else Some(LimitExceeded)
  {
    if maxBytes < 0 {
      return Copied(0, "", Some(NegativeLimit));
    }
    ghost var first, rest := src.calls, src.Rest();
    r := CopyLoop(dst, src, maxBytes, cancelled, hash);
    if Smooth(src.source) && Reliable(dst.plan) && (forall k :: !cancelled(k)) {
      LengthDecides(r, rest, maxBytes, hash, src.source, first, src.calls, dst.plan, dst.calls, cancelled);
    }
  }
}
