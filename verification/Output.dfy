/** Captured output: tail truncation, then redaction (pkg/executor/output.go and the steps 8
    and 9 of executeJob). */
module Output {
  import opened Redaction
  import opened RedactionProofs
  import opened RedactionLimits

  /** At most the last `maxBytes` bytes, and whether anything was dropped.  A negative bound
      would slice out of range. */
  function TruncateTail(data: string, maxBytes: int): (r: (string, bool))
    requires 0 <= maxBytes
    ensures |r.0| <= |data| && r.0 == data[|data| - |r.0|..]
    ensures r.1 <==> |data| > maxBytes
    ensures |r.0| == if r.1 then maxBytes else |data|
  {
    if |data| <= maxBytes then (data, false) else (data[|data| - maxBytes..], true)
  }

  function CaptureOutput(stdout: string, stderr: string, maxBytes: int): (r: (string, string, bool, bool))
    requires 0 <= maxBytes
  {
    var (outStr, outTruncated) := TruncateTail(stdout, maxBytes);
    var (errStr, errTruncated) := TruncateTail(stderr, maxBytes);
    (outStr, errStr, outTruncated, errTruncated)
  }

  /** What becomes of one raw stream. */
  function Published(raw: string, maxBytes: int, secrets: seq<Secret>): string
    requires 0 <= maxBytes
  {
    Redact(TruncateTail(raw, maxBytes).0, secrets, PLACEHOLDER)
  }

  /** MAIN RESULT.  A published stream is the exact tail of the raw one with secrets cut out,
      contains none of them, and is at most a placeholder's length per byte kept. */
  lemma PublishedIsClean(raw: string, maxBytes: int, secrets: seq<Secret>)
    requires 0 <= maxBytes && AllOverlapFree(secrets, PLACEHOLDER)
    ensures Clean(Published(raw, maxBytes, secrets), secrets)
    ensures exists ps: seq<Piece> ::
              && Shown(ps, PLACEHOLDER) == Published(raw, maxBytes, secrets)
              && |Original(ps)| == (if |raw| > maxBytes then maxBytes else |raw|)
              && Original(ps) == raw[|raw| - |Original(ps)|..]
              && forall q | q in ps :: q.Cut? ==> IsSecretCut(q, secrets)
    ensures |Published(raw, maxBytes, secrets)| <= |PLACEHOLDER| * maxBytes
  {
    var tail := TruncateTail(raw, maxBytes).0;
    RedactionIsExact(tail, secrets, PLACEHOLDER);
    RedactionSize(tail, secrets, PLACEHOLDER);
    assert Original(PiecesOf(tail, secrets)) == tail;
    assert |PLACEHOLDER| * |tail| <= |PLACEHOLDER| * maxBytes;
  }

  /** Whatever the secrets are, the size is bounded by one factor per non-empty secret. */
  lemma PublishedSize(raw: string, maxBytes: int, secrets: seq<Secret>)
    requires 0 <= maxBytes
    ensures |Published(raw, maxBytes, secrets)| <= Power(|PLACEHOLDER|, NonEmpty(secrets)) * maxBytes
  {
    var tail, f := TruncateTail(raw, maxBytes).0, Power(|PLACEHOLDER|, NonEmpty(secrets));
    RedactionSizeGeneral(tail, secrets, PLACEHOLDER);
    Scale(f, |tail|, 1, maxBytes);
  }
}
