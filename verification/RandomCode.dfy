/** Short-code generation: rejection sampling from random bytes. */
module RandomCode {
  import opened Common

  type byte = b: int | 0 <= b < 256

  const MAX_ACCEPTABLE := 248 // largest multiple of 62 below 256

  /** The i-th character of a-z, A-Z, 0-9. */
  function SymbolAt(i: nat): char
    requires i < ALPHABET_SIZE
  {
    if i < 26 then ('a' as int + i) as char
    else if i < 52 then ('A' as int + (i - 26)) as char
    else ('0' as int + (i - 52)) as char
  }

  const ALPHABET_SIZE := 62

  function Symbol(b: byte): char {
    SymbolAt(b % ALPHABET_SIZE)
  }

  /** The accepted bytes of a stream, mapped into the alphabet, in order. */
  function Accepted(bytes: seq<byte>): string {
    if bytes == [] then []
    else
      var last := bytes[|bytes| - 1];
      Accepted(bytes[..|bytes| - 1]) + (if last < MAX_ACCEPTABLE then [Symbol(last)] else [])
  }

  /** The stream that a sequence of filled buffers delivers. */
  function Stream(buffers: seq<seq<byte>>): seq<byte> {
    if buffers == [] then [] else Stream(buffers[..|buffers| - 1]) + buffers[|buffers| - 1]
  }

  function FirstOf(s: string, n: nat): string {
    if n <= |s| then s[..n] else s
  }

  /** The loop's step on one byte. */
  lemma AcceptOne(bytes: seq<byte>, b: byte, n: nat)
    ensures
      var out := FirstOf(Accepted(bytes), n);
      FirstOf(Accepted(bytes + [b]), n) ==
      if b < MAX_ACCEPTABLE && |out| < n then out + [Symbol(b)] else out
  {
    assert (bytes + [b])[..|bytes|] == bytes;
  }

  /** Later bytes never change what was accepted before. */
  lemma {:induction false} AcceptedGrows(bytes: seq<byte>, more: seq<byte>)
    ensures Accepted(bytes) <= Accepted(bytes + more)
  {
    if more == [] {
      assert bytes + more == bytes;
    } else {
      var init := more[..|more| - 1];
      AcceptedGrows(bytes, init);
      assert (bytes + more)[..|bytes + more| - 1] == bytes + init;
    }
  }

  lemma {:induction false} StreamGrows(buffers: seq<seq<byte>>, i: nat)
    requires i <= |buffers|
    ensures Accepted(Stream(buffers[..i])) <= Accepted(Stream(buffers))
    decreases |buffers|
  {
    if i == |buffers| {
      assert buffers[..i] == buffers;
    } else {
      var init := buffers[..|buffers| - 1];
      assert buffers[..i] == init[..i];
      StreamGrows(init, i);
      AcceptedGrows(Stream(init), buffers[|buffers| - 1]);
    }
  }

  /** randomCode over the buffers the random source fills; asking for one more
      is a read error. Wherever the buffers end, the code is the first n
      accepted bytes of the stream, and the call fails exactly when the stream
      holds fewer than n. */
  method RandomCode(n: nat, buffers: seq<seq<byte>>) returns (r: Result<string>)
    ensures r.Ok? <==> n <= |Accepted(Stream(buffers))|
    ensures r.Ok? ==> r.value == Accepted(Stream(buffers))[..n]
    ensures r.Err? ==> r.error == Internal
  {
    var out, filled := "", 0;
    while |out| < n
      invariant 0 <= filled <= |buffers|
      invariant out == FirstOf(Accepted(Stream(buffers[..filled])), n)
      decreases |buffers| - filled
    {
      if filled == |buffers| {
        assert buffers[..filled] == buffers;
        return Err(Internal);
      }
      out := TakeFrom(Stream(buffers[..filled]), out, buffers[filled], n);
      assert buffers[..filled + 1][..filled] == buffers[..filled];
      filled := filled + 1;
    }
    StreamGrows(buffers, filled);
    return Ok(out);
  }

  /** randomCode's inner loop over one buffer. */
  method TakeFrom(ghost before: seq<byte>, sofar: string, buf: seq<byte>, n: nat) returns (out: string)
    requires sofar == FirstOf(Accepted(before), n)
    ensures out == FirstOf(Accepted(before + buf), n)
  {
    out := sofar;
    assert before + buf[..0] == before;
    for k := 0 to |buf|
      invariant out == FirstOf(Accepted(before + buf[..k]), n)
    {
      assert before + buf[..k + 1] == before + buf[..k] + [buf[k]];
      AcceptOne(before + buf[..k], buf[k], n);
      if buf[k] < MAX_ACCEPTABLE && |out| < n {
        out := out + [SymbolAt(buf[k] % ALPHABET_SIZE)];
      }
    }
    assert buf[..|buf|] == buf;
  }

  /** Each byte counts for itself: below 248 it is one symbol, else nothing. */
  lemma {:induction false} AcceptedConcat(a: seq<byte>, b: seq<byte>)
    ensures Accepted(a + b) == Accepted(a) + Accepted(b)
    ensures |a| == 1 ==> Accepted(a) == if a[0] < 248 then [SymbolAt(a[0] % 62)] else []
  {
    if b == [] {
      assert a + b == a;
    } else {
      assert (a + b)[..|a + b| - 1] == a + b[..|b| - 1];
      AcceptedConcat(a, b[..|b| - 1]);
    }
    if |a| == 1 { assert a[..0] == []; }
  }

  predicate IsBase62(s: string) {
    forall i :: 0 <= i < |s| ==> IsAlphanumeric(s[i])
  }

  /** Everything accepted is base62. */
  lemma {:induction false} AcceptedIsBase62(bytes: seq<byte>)
    ensures IsBase62(Accepted(bytes))
  {
    if bytes != [] {
      AcceptedIsBase62(bytes[..|bytes| - 1]);
      assert IsAlphanumeric(Symbol(bytes[|bytes| - 1]));
    }
  }

  /** The accepted byte values that yield a symbol. */
  ghost function Preimage(c: char): set<int> {
    set b: int | 0 <= b < MAX_ACCEPTABLE && Symbol(b) == c
  }

  lemma PreimageOf(i: nat)
    requires i < ALPHABET_SIZE
    ensures Preimage(SymbolAt(i)) == {i, i + 62, i + 124, i + 186}
  {
    forall b | 0 <= b < MAX_ACCEPTABLE
      ensures Symbol(b) == SymbolAt(i) <==> b == i || b == i + 62 || b == i + 124 || b == i + 186
    {
      Distinct(b % ALPHABET_SIZE, i);
    }
  }

  lemma Distinct(i: nat, j: nat)
    requires i < ALPHABET_SIZE && j < ALPHABET_SIZE
    ensures SymbolAt(i) == SymbolAt(j) ==> i == j
  {
    assert SymbolAt(i) as int == if i < 26 then 97 + i else if i < 52 then 39 + i else i - 4;
    assert SymbolAt(j) as int == if j < 26 then 97 + j else if j < 52 then 39 + j else j - 4;
  }

  /** No modulo bias: each of the 62 symbols comes from exactly four accepted
      byte values, no two symbols share one, and four times 62 is all of them. */
  lemma Unbiased(i: nat, j: nat)
    requires i < j < ALPHABET_SIZE
    ensures |Preimage(SymbolAt(i))| == 4 && |Preimage(SymbolAt(j))| == 4
    ensures Preimage(SymbolAt(i)) !! Preimage(SymbolAt(j))
    ensures 4 * ALPHABET_SIZE == MAX_ACCEPTABLE
  {
    PreimageOf(i);
    PreimageOf(j);
  }
}
