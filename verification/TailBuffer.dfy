/** tailBuffer of internal/proxy/proxy.go: the last `cap` bytes written to it. */
module TailBuffer {

  const CAPTURE_MAX := 2 * 1024 * 1024

  /** The last min(n, |s|) bytes of s. */
  function Last(s: string, n: nat): (r: string)
    ensures |r| <= n
  {
    if |s| <= n then s else s[|s| - n..]
  }

  function Concat(chunks: seq<string>): string {
    if chunks == [] then "" else Concat(chunks[..|chunks| - 1]) + chunks[|chunks| - 1]
  }

  /** Forgetting the front early does not show in the window. */
  lemma LastOfLast(a: string, b: string, n: nat)
    ensures Last(Last(a, n) + b, n) == Last(a + b, n)
  {
  }

  class Tail {
    const cap: nat
    var buf: string

    constructor (cap: nat)
      ensures this.cap == cap && buf == ""
    {
      this.cap, buf := cap, "";
    }

    method Write(p: string) returns (n: nat)
      modifies this
      ensures buf == Last(old(buf) + p, cap)
      ensures n == |p|
    {
      buf := buf + p;
      if |buf| > cap {
        buf := buf[|buf| - cap..];
      }
      n := |p|;
    }
  }

  /** streamResponse's copy loop: whatever the sizes of the chunks, the window is the end of the whole body. */
  method StreamResponse(chunks: seq<string>) returns (tail: Tail)
    ensures fresh(tail)
    ensures tail.buf == Last(Concat(chunks), CAPTURE_MAX)
  {
    tail := new Tail(CAPTURE_MAX);
    for i := 0 to |chunks|
      invariant fresh(tail) && tail.cap == CAPTURE_MAX
      invariant tail.buf == Last(Concat(chunks[..i]), CAPTURE_MAX)
    {
      LastOfLast(Concat(chunks[..i]), chunks[i], CAPTURE_MAX);
      var _ := tail.Write(chunks[i]);
      assert chunks[..i + 1][..i] == chunks[..i];
    }
    assert chunks[..|chunks|] == chunks;
  }

  /** The buffer after a list of writes, one Write after the other. */
  function WriteAll(cap: nat, chunks: seq<string>): string {
    if chunks == [] then "" else Last(WriteAll(cap, chunks[..|chunks| - 1]) + chunks[|chunks| - 1], cap)
  }

  /** Tail window refinement: independent of the chunking, for every capacity. */
  lemma {:induction false} WindowIsTheEnd(cap: nat, chunks: seq<string>)
    ensures WriteAll(cap, chunks) == Last(Concat(chunks), cap)
  {
    if chunks != [] {
      var n := |chunks| - 1;
      WindowIsTheEnd(cap, chunks[..n]);
      LastOfLast(Concat(chunks[..n]), chunks[n], cap);
    }
  }
}
