/** agent-computer/src/shell.ts: what is kept of a command's output, for text of one byte a character. */
module ShellOutputs {

  type Bytes = seq<bv8>

  const MAX_OUTPUT_BYTES: nat := 64 * 1024

  /** `subarray(-n)`: the last `n` bytes, or everything when there are fewer. */
  function LastOf(s: Bytes, n: nat): (r: Bytes)
    ensures |r| == if |s| < n then |s| else n
    ensures forall i :: 0 <= i < |r| ==> r[i] == s[|s| - |r| + i]
  {
    if |s| <= n then s else s[|s| - n..]
  }

  function Clamp(text: Bytes): (Bytes, bool) {
    if |text| <= MAX_OUTPUT_BYTES then (text, false) else (LastOf(text, MAX_OUTPUT_BYTES), true)
  }

  /** Everything a stream has carried, chunk by chunk. */
  function Whole(chunks: seq<Bytes>): Bytes {
    if chunks == [] then [] else Whole(chunks[..|chunks| - 1]) + chunks[|chunks| - 1]
  }

  /** The buffer of one stream: trimmed while it fills, and remembering that it was. */
  class Collector {
    var text: Bytes
    var dropped: bool

    constructor ()
      ensures text == [] && !dropped
    {
      text, dropped := [], false;
    }

    /** How the buffer stands to everything the stream has carried so far. */
    predicate Keeps(total: Bytes)
      reads this
    {
      && |text| <= 2 * MAX_OUTPUT_BYTES
      && |text| <= |total| && text == total[|total| - |text|..]
      && (dropped ==> |text| >= MAX_OUTPUT_BYTES && |total| > MAX_OUTPUT_BYTES)
      && (!dropped ==> text == total)
    }

    method Add(chunk: Bytes, ghost total: Bytes)
      requires Keeps(total)
      modifies this
      ensures Keeps(total + chunk)
    {
      text := text + chunk;
      if |text| <= 2 * MAX_OUTPUT_BYTES {
        return;
      }
      text := LastOf(text, MAX_OUTPUT_BYTES);
      dropped := true;
    }
  }

  /** Cutting a suffix that is long enough is cutting the whole. */
  lemma LastOfSuffix(total: Bytes, text: Bytes, n: nat)
    requires n <= |text| <= |total| && text == total[|total| - |text|..]
    ensures LastOf(text, n) == LastOf(total, n)
  {
  }

  /**
   One stream of a command, through its buffer and the final cut: the last 64 KiB of everything it
   carried, however it was chunked, and marked as cut exactly when it carried more.
   */
  method Collect(chunks: seq<Bytes>) returns (text: Bytes, truncated: bool)
    ensures text == LastOf(Whole(chunks), MAX_OUTPUT_BYTES)
    ensures truncated <==> |Whole(chunks)| > MAX_OUTPUT_BYTES
  {
    var buffer := new Collector();
    for i := 0 to |chunks|
      invariant buffer.Keeps(Whole(chunks[..i]))
    {
      buffer.Add(chunks[i], Whole(chunks[..i]));
      assert chunks[..i + 1][..i] == chunks[..i];
    }
    assert chunks[..|chunks|] == chunks;
    var cut, over := Clamp(buffer.text).0, Clamp(buffer.text).1;
    if buffer.dropped {
      LastOfSuffix(Whole(chunks), buffer.text, MAX_OUTPUT_BYTES);
    }
    return cut, over || buffer.dropped;
  }

  /** The two streams' part of the result: `truncated` is one flag for both. */
  method Assemble(out: seq<Bytes>, err: seq<Bytes>) returns (stdout: Bytes, stderr: Bytes, truncated: bool)
    ensures stdout == LastOf(Whole(out), MAX_OUTPUT_BYTES)
    ensures stderr == LastOf(Whole(err), MAX_OUTPUT_BYTES)
    ensures truncated <==> |Whole(out)| > MAX_OUTPUT_BYTES || |Whole(err)| > MAX_OUTPUT_BYTES
  {
    var outCut, errCut: bool;
    stdout, outCut := Collect(out);
    stderr, errCut := Collect(err);
    truncated := outCut || errCut;
  }

  /** How a stream is split into chunks does not matter. */
  lemma {:induction false} WholeOfAppend(a: seq<Bytes>, b: seq<Bytes>)
    ensures Whole(a + b) == Whole(a) + Whole(b)
    decreases |b|
  {
    if b == [] {
      assert a + b == a;
    } else {
      assert (a + b)[..|a + b| - 1] == a + b[..|b| - 1];
      WholeOfAppend(a, b[..|b| - 1]);
    }
  }
}
