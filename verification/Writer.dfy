/** Copying through the limiter: `limitedWriter.Write` and the per-connection counters. */
module Writing {
  import opened Domain
  import opened Bandwidth

  newtype Byte = b: int | 0 <= b < 256

  datatype WriteError = NoError | LimiterClosed | SinkFailed | ShortWrite

  /** What the destination does with one chunk: how much it takes, and whether it fails. */
  datatype Response = Response(count: nat, fails: bool)

  lemma NextPart(before: seq<Byte>, buffer: seq<Byte>, written: nat, count: nat)
    requires written + count <= |buffer|
    ensures before + buffer[..written] + buffer[written..][..count] == before + buffer[..written + count]
    ensures buffer[written..][count..] == buffer[written + count..]
  {
    assert buffer[..written] + buffer[written..written + count] == buffer[..written + count];
  }

  class Connection {
    var bytesIn: nat
    var bytesOut: nat
    var sent: seq<Byte>

    method Record(inbound: bool, count: nat)
      modifies this`bytesIn, this`bytesOut
      ensures bytesIn == old(bytesIn) + (if inbound then count else 0)
      ensures bytesOut == old(bytesOut) + (if inbound then 0 else count)
    {
      if inbound {
        bytesIn := bytesIn + count;
      } else {
        bytesOut := bytesOut + count;
      }
    }

    /** The wrapped destination: it accepts a prefix of the chunk. */
    method Deliver(chunk: seq<Byte>, response: Response) returns (count: nat, failed: bool)
      modifies this`sent
      ensures count <= |chunk| && sent == old(sent) + chunk[..count]
      ensures failed == response.fails && count == if response.count < |chunk| then response.count else |chunk|
    {
      count := if response.count <= |chunk| then response.count else |chunk|;
      failed := response.fails;
      sent := sent + chunk[..count];
    }

    /** One round: a chunk the bucket can hold is waited for, sent and recorded; the error names its cause. */
    method SendChunk(rest: seq<Byte>, inbound: bool, limiter: BandwidthLimiter, now: real, world: seq<Wake>,
                     answer: Option<Response>)
      returns (count: nat, error: WriteError, end: real, ghost size: nat)
      requires rest != [] && limiter.Valid() && limiter.last <= now
      requires forall k :: 0 <= k < |world| ==> Plausible(world[k])
      modifies this, limiter
      ensures limiter.Valid() && limiter.last <= end && now <= end && 0 < size <= |rest|
      ensures limiter.closed ==> old(limiter.closed) || GivenUp(world)
      ensures error == LimiterClosed ==> count == 0 && (old(limiter.closed) || GivenUp(world))
      ensures error != LimiterClosed ==> count == if answer.Some? && answer.value.count < size then answer.value.count else size
      ensures error == SinkFailed ==> answer.Some? && answer.value.fails
      ensures error == ShortWrite ==> answer.Some? && !answer.value.fails && answer.value.count < size
      ensures error == NoError ==> Taken(answer, size) && count == size
      ensures sent == old(sent) + rest[..count]
      ensures bytesIn == old(bytesIn) + (if inbound then count else 0)
      ensures bytesOut == old(bytesOut) + (if inbound then 0 else count)
    {
      hide Plausible;
      var chunkSize := limiter.MaxChunkSize(|rest|);
      size := chunkSize;
      var ok, at, _, _ := limiter.Wait(chunkSize, now, world);
      end := at;
      if !ok {
        return 0, LimiterClosed, end, size;
      }
      var failed;
      count, failed := Deliver(rest[..chunkSize], if answer.Some? then answer.value else Response(chunkSize, false));
      assert rest[..chunkSize][..count] == rest[..count];
      Record(inbound, count);
      error := if failed then SinkFailed else if count != chunkSize then ShortWrite else NoError;
    }

    /**
     Send a buffer in chunks the bucket can hold. Whatever happens, what arrived is exactly
     the first `written` bytes, in order, once each, and exactly that much is recorded. Every
     round before an error sends at least one byte. `chunks` are the sizes of the chunks that
     were taken whole, `size` is that of the one that was not. The error names its cause, and
     without a cause there is none: a chunk failed, or was taken short; or the limiter was closed,
     or the caller gave up.
     */
    method Write(buffer: seq<Byte>, inbound: bool, limiter: BandwidthLimiter, now: real,
                 worlds: seq<seq<Wake>>, responses: seq<Response>)
      returns (written: nat, error: WriteError, end: real, ghost chunks: seq<nat>, ghost size: nat)
      requires limiter.Valid() && limiter.last <= now && forall i :: 0 <= i < |worlds| ==> AllPlausible(worlds[i])
      modifies this, limiter
      ensures limiter.Valid() && now <= end
      ensures written <= |buffer| && sent == old(sent) + buffer[..written]
      ensures bytesIn == old(bytesIn) + (if inbound then written else 0)
      ensures bytesOut == old(bytesOut) + (if inbound then 0 else written)
      ensures |chunks| <= written && AllTaken(responses, chunks, |buffer|) && size <= |buffer|
      ensures error == NoError ==> written == |buffer|
      ensures error == SinkFailed ==> |chunks| < |responses| && responses[|chunks|].fails
      ensures error == ShortWrite ==>
                |chunks| < |responses| && !responses[|chunks|].fails && responses[|chunks|].count < size
      ensures error == LimiterClosed ==> written < |buffer| && (old(limiter.closed) || GivenUpWithin(worlds, |chunks| + 1))
      ensures !old(limiter.closed) && Undisturbed(worlds) && Takes(responses, |buffer|) ==> error == NoError
    {
      hide *;
      written, end, chunks, size, error := 0, now, [], 0, NoError;
      NothingYet(worlds, responses, |buffer|);
      var rest, rounds := buffer, 0;
      while |rest| > 0
        invariant limiter.Valid() && limiter.last <= end && now <= end && error == NoError
        invariant written <= |buffer| && rest == buffer[written..] && rounds == |chunks| <= written
        invariant sent == old(sent) + buffer[..written]
        invariant bytesIn == old(bytesIn) + (if inbound then written else 0)
        invariant bytesOut == old(bytesOut) + (if inbound then 0 else written)
        invariant AllTaken(responses, chunks, |buffer|) && size <= |buffer|
        invariant limiter.closed ==> old(limiter.closed) || GivenUpWithin(worlds, rounds)
        decreases |rest|
      {
        var count;
        var world := if rounds < |worlds| then worlds[rounds] else [];
        WorldOf(worlds, rounds);
        count, error, end, size := SendChunk(rest, inbound, limiter, end, world, AnswerTo(responses, rounds));
        OneRound(responses, chunks, size, |buffer|);
        NextPart(old(sent), buffer, written, count);
        written := written + count;
        rest := rest[count..];
        if error != NoError {
          return;
        }
        chunks := chunks + [size];
        rounds := rounds + 1;
      }
    }
  }

  // ---------- What the outside does ----------

  /** How the destination answers the i-th chunk; it takes everything beyond what is given. */
  function AnswerTo(responses: seq<Response>, i: nat): Option<Response> {
    if i < |responses| then Some(responses[i]) else None
  }

  /** The destination takes the whole chunk and does not fail. */
  predicate Taken(answer: Option<Response>, size: nat) {
    answer.Some? ==> !answer.value.fails && answer.value.count >= size
  }

  /** During this wait the limiter was closed or the caller gave up. */
  ghost predicate GivenUp(world: seq<Wake>) {
    exists k :: 0 <= k < |world| && (world[k].Closed? || world[k].Cancelled?)
  }

  ghost predicate AllPlausible(world: seq<Wake>) {
    forall k :: 0 <= k < |world| ==> Plausible(world[k])
  }

  /** Every chunk so far was a proper one and was taken whole. */
  ghost predicate AllTaken(responses: seq<Response>, chunks: seq<nat>, most: nat) {
    forall i :: 0 <= i < |chunks| ==> 0 < chunks[i] <= most && Taken(AnswerTo(responses, i), chunks[i])
  }

  ghost predicate GivenUpWithin(worlds: seq<seq<Wake>>, n: nat) {
    exists i :: 0 <= i < n && i < |worlds| && GivenUp(worlds[i])
  }

  /** Nothing but timers and changes of the limit. */
  ghost predicate Undisturbed(worlds: seq<seq<Wake>>) {
    forall i, k :: 0 <= i < |worlds| && 0 <= k < |worlds[i]| ==> worlds[i][k].Timer? || worlds[i][k].Retuned?
  }

  /** A destination that never fails and takes chunks up to this size whole. */
  ghost predicate Takes(responses: seq<Response>, size: nat) {
    forall i :: 0 <= i < |responses| ==> !responses[i].fails && responses[i].count >= size
  }

  lemma NothingYet(worlds: seq<seq<Wake>>, responses: seq<Response>, most: nat)
    ensures AllTaken(responses, [], most)
    ensures Undisturbed(worlds) ==> forall n :: !GivenUpWithin(worlds, n)
    ensures Takes(responses, most) ==> forall i :: 0 <= i < |responses| ==> !responses[i].fails && responses[i].count >= most
  {
  }

  lemma WorldOf(worlds: seq<seq<Wake>>, i: nat)
    requires forall i :: 0 <= i < |worlds| ==> AllPlausible(worlds[i])
    ensures var world := if i < |worlds| then worlds[i] else [];
            && (forall k :: 0 <= k < |world| ==> Plausible(world[k]))
            && (GivenUp(world) ==> GivenUpWithin(worlds, i + 1))
    ensures GivenUpWithin(worlds, i) ==> GivenUpWithin(worlds, i + 1)
  {
    assert i < |worlds| ==> AllPlausible(worlds[i]);
  }

  lemma OneRound(responses: seq<Response>, chunks: seq<nat>, size: nat, most: nat)
    requires AllTaken(responses, chunks, most) && 0 < size <= most
    ensures Taken(AnswerTo(responses, |chunks|), size) ==> AllTaken(responses, chunks + [size], most)
    ensures AnswerTo(responses, |chunks|).Some? <==> |chunks| < |responses|
    ensures |chunks| < |responses| ==> AnswerTo(responses, |chunks|).value == responses[|chunks|]
  {
  }
}
