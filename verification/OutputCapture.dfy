/**
 The host runner drains a command's output stream, keeping only its first
 `limit` bytes. What is kept does not depend on how the stream was cut into reads.
 */
module OutputCapture {
  type Bytes = seq<bv8>

  /** Everything the stream delivers: a read of nothing, or a failed read, ends it. */
  function Delivered(chunks: seq<Bytes>): Bytes {
    if chunks == [] || chunks[0] == [] then [] else chunks[0] + Delivered(chunks[1..])
  }

  /** The first `limit` bytes. */
  function Kept(seen: Bytes, limit: nat): Bytes {
    if |seen| <= limit then seen else seen[..limit]
  }

  lemma KeptMore(seen: Bytes, chunk: Bytes, limit: nat)
    ensures var kept := Kept(seen, limit); var remaining := if |kept| < limit then limit - |kept| else 0;
      Kept(seen + chunk, limit) == (if remaining > 0 then kept + chunk[..if |chunk| < remaining then |chunk| else remaining] else kept) &&
      (|seen| > limit || |chunk| > remaining <==> |seen + chunk| > limit)
  {
  }

  lemma KeptNothing(limit: nat)
    ensures Kept([], limit) == []
  {
  }

  method CaptureOutput(chunks: seq<Bytes>, limit: nat) returns (captured: Bytes, truncated: bool)
    ensures captured == Kept(Delivered(chunks), limit)
    ensures truncated <==> |Delivered(chunks)| > limit
  {
    hide Kept;
    captured, truncated := [], false;
    KeptNothing(limit);
    ghost var seen: Bytes := [];
    var next := 0;
    while next < |chunks| && chunks[next] != []
      invariant 0 <= next <= |chunks|
      invariant Delivered(chunks) == seen + Delivered(chunks[next..])
      invariant captured == Kept(seen, limit)
      invariant truncated <==> |seen| > limit
    {
      var chunk := chunks[next];
      var remaining := if |captured| < limit then limit - |captured| else 0;
      if remaining > 0 {
        captured := captured + chunk[..if |chunk| < remaining then |chunk| else remaining];
      }
      if |chunk| > remaining {
        truncated := true;
      }
      KeptMore(seen, chunk, limit);
      DeliveredStep(chunks, next, seen);
      seen := seen + chunk;
      next := next + 1;
    }
    assert Delivered(chunks[next..]) == [] && seen + [] == seen;
  }

  lemma DeliveredStep(chunks: seq<Bytes>, next: nat, seen: Bytes)
    requires next < |chunks| && chunks[next] != []
    ensures seen + Delivered(chunks[next..]) == seen + chunks[next] + Delivered(chunks[next + 1..])
  {
    assert chunks[next..][1..] == chunks[next + 1..];
    assert chunks[next..][0] == chunks[next];
  }

  /** Cutting one read in two makes no difference. */
  lemma {:induction false} DeliveredCut(before: seq<Bytes>, a: Bytes, b: Bytes, after: seq<Bytes>)
    requires a != [] && b != []
    ensures Delivered(before + [a + b] + after) == Delivered(before + [a, b] + after)
    decreases |before|
  {
    if before == [] {
      assert ([a + b] + after)[1..] == after && ([a, b] + after)[1..] == [b] + after;
      assert ([b] + after)[1..] == after;
      assert [] + [a + b] + after == [a + b] + after && [] + [a, b] + after == [a, b] + after;
      assert (a + b) + Delivered(after) == a + (b + Delivered(after));
    } else {
      DeliveredCut(before[1..], a, b, after);
      assert (before + [a + b] + after)[1..] == before[1..] + [a + b] + after;
      assert (before + [a, b] + after)[1..] == before[1..] + [a, b] + after;
    }
  }
}
