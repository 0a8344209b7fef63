/**
 Weighted choice of a request builder and random payloads. Random draws are parameters:
 a number in [0, sum of shares) for the choice, a stream of bytes for the payload.
 */
module RandomChoice {
  import opened Ints

  datatype Result<T> = Ok(value: T) | Panic

  // ---------------------------------------------------------------- randomPick

  function Total(shares: seq<nat>): nat {
    if shares == [] then 0 else shares[0] + Total(shares[1..])
  }

  lemma {:induction false} TotalSplit(shares: seq<nat>, i: nat)
    requires i <= |shares|
    ensures Total(shares) == Total(shares[..i]) + Total(shares[i..])
  {
    if i == 0 {
      assert shares[..0] == [] && shares[0..] == shares;
    } else {
      TotalSplit(shares[1..], i - 1);
      assert shares[..i][1..] == shares[1..][..i - 1] && shares[1..][i - 1..] == shares[i..];
    }
  }

  /** The draws that belong to entry i: a half-open interval as long as its share. */
  predicate Selects(shares: seq<nat>, draw: int, i: nat)
    requires i < |shares|
  {
    Total(shares[..i]) <= draw < Total(shares[..i]) + shares[i]
  }

  /**
   The pick loop. `draw` is what rand.Int returned; rand.Int itself panics when the sum is 0,
   which Validate does not exclude.
   */
  method RandomPick(shares: seq<nat>, draw: nat) returns (r: Result<nat>)
    requires Total(shares) > 0 ==> draw < Total(shares)
    ensures r.Panic? <==> Total(shares) == 0
    ensures r.Ok? ==> r.value < |shares| && Selects(shares, draw, r.value)
  {
    var sum := 0;
    for i := 0 to |shares|
      invariant sum == Total(shares[..i])
    {
      TotalSplit(shares[..i + 1], i);
      assert shares[..i + 1][..i] == shares[..i] && shares[..i + 1][i..] == [shares[i]];
      sum := sum + shares[i];
    }
    assert shares[..|shares|] == shares;
    if sum == 0 {
      return Panic;
    }
    var rnd := draw;
    for i := 0 to |shares|
      invariant rnd == draw - Total(shares[..i])
    {
      TotalSplit(shares[..i + 1], i);
      assert shares[..i + 1][..i] == shares[..i] && shares[..i + 1][i..] == [shares[i]];
      if rnd < shares[i] {
        return Ok(i);
      }
      rnd := rnd - shares[i];
    }
    assert false;  // the final panic is unreachable
  }

  function Interval(lo: int, n: nat): set<int> {
    if n == 0 then {} else Interval(lo, n - 1) + {lo + n - 1}
  }

  lemma {:induction false} IntervalSize(lo: int, n: nat)
    ensures |Interval(lo, n)| == n
    ensures forall d :: d in Interval(lo, n) <==> lo <= d < lo + n
  {
    if n == 0 {
    } else {
      IntervalSize(lo, n - 1);
    }
  }

  /** Of the draws in [0, sum), exactly shares[i] select entry i, and no draw selects two entries. */
  lemma PickIsExact(shares: seq<nat>, i: nat)
    requires i < |shares|
    ensures |set d | 0 <= d < Total(shares) && Selects(shares, d, i)| == shares[i]
    ensures forall d, j :: 0 <= j < |shares| && j != i && Selects(shares, d, i) ==> !Selects(shares, d, j)
  {
    var lo := Total(shares[..i]);
    TotalSplit(shares, i);
    IntervalSize(lo, shares[i]);
    assert (set d | 0 <= d < Total(shares) && Selects(shares, d, i)) == Interval(lo, shares[i]);
    forall d, j | 0 <= j < |shares| && j != i && Selects(shares, d, i)
      ensures !Selects(shares, d, j)
    {
      if i < j { PrefixOrder(shares, i, j); } else { PrefixOrder(shares, j, i); }
    }
  }

  lemma PrefixOrder(shares: seq<nat>, i: nat, j: nat)
    requires i < j <= |shares|
    ensures Total(shares[..i]) + shares[i] <= Total(shares[..j])
  {
    TotalSplit(shares[..j], i);
    assert shares[..j][..i] == shares[..i] && shares[..j][i..][0] == shares[i];
  }

  // ---------------------------------------------------------------- randomPayload

  const LOWER := "abcdefghijklmnopqrstuvwxyz"
  const UPPER := "ABCDEFGHIJKLMNOPQRSTUVWXYZ"
  const DIGITS := "0123456789"
  const ALPHABET := LOWER + UPPER + DIGITS
  const THRESHOLD := 256 - 256 % |ALPHABET|
  const MAX_BUFFER := 4096

  /** Rejection sampling: bytes below the threshold are accepted and reduced to a letter. */
  datatype Sampler = Sampler(alphabet: string, threshold: nat) {
    predicate Accepts(b: Byte) { b < threshold }

    function Letter(b: Byte): char {
      if alphabet == "" then ' ' else alphabet[b % |alphabet|]
    }
  }

  const ALNUM := Sampler(ALPHABET, THRESHOLD)

  /** The accepted bytes of a stream, mapped through the alphabet: no buffers, no bound. */
  function Letters(m: Sampler, stream: seq<Byte>): string {
    if stream == [] then ""
    else (if m.Accepts(stream[0]) then [m.Letter(stream[0])] else "") + Letters(m, stream[1..])
  }

  lemma {:induction false} LettersConcat(m: Sampler, a: seq<Byte>, b: seq<Byte>)
    ensures Letters(m, a + b) == Letters(m, a) + Letters(m, b)
  {
    if a == [] {
      assert a + b == b;
    } else {
      assert (a + b)[1..] == a[1..] + b;
      LettersConcat(m, a[1..], b);
    }
  }

  /** How many of n bytes can be consumed in whole buffers. */
  function Whole(n: nat, size: nat): (w: nat)
    requires size > 0
    ensures n - size < w <= n
  {
    if n < size then 0 else size + Whole(n - size, size)
  }

  /** The inner loop: append the letters of one buffer to out[..start], stopping when out is full. */
  method FillFrom(m: Sampler, buf: seq<Byte>, out: array<char>, start: nat) returns (i: nat)
    requires start < out.Length
    modifies out
    ensures start <= i <= out.Length
    ensures i - start == if |Letters(m, buf)| <= out.Length - start then |Letters(m, buf)| else out.Length - start
    ensures out[..i] == old(out[..start]) + Letters(m, buf)[..i - start]
  {
    i := start;
    for k := 0 to |buf|
      invariant start <= i < out.Length
      invariant out[..i] == old(out[..start]) + Letters(m, buf[..k])
    {
      LetterStep(m, buf, k);
      if m.Accepts(buf[k]) {
        out[i] := m.Letter(buf[k]);
        i := i + 1;
        if i == out.Length {
          LettersPrefix(m, buf, k + 1);
          return;
        }
      }
    }
    assert buf[..|buf|] == buf;
  }

  /**
   Fill n bytes by rejection sampling through a buffer. `stream` is what the random source will
   deliver; a read past its end is the read error that makes the caller panic.
   */
  method RandomPayload(n: int, stream: seq<Byte>) returns (r: Result<string>)
    ensures n <= 0 ==> r == Ok("")
    ensures n > 0 ==>
              && (r.Ok? <==> |Letters(ALNUM, stream[..Whole(|stream|, BufferSize(n))])| >= n)
              && (r.Ok? ==> |Letters(ALNUM, stream)| >= n && r.value == Letters(ALNUM, stream)[..n])
  {
    if n <= 0 {
      return Ok("");
    }
    r := Sample(ALNUM, n, BufferSize(n), stream);
  }

  /** As much as is needed, but at most four kilobytes. */
  function BufferSize(n: int): (size: int)
    ensures size <= n && size <= 4096 && (size == n || size == 4096)
  {
    if n > MAX_BUFFER then MAX_BUFFER else n
  }

  /** The outer loop, for any alphabet and any buffer size: the result does not depend on the chunks. */
  method Sample(m: Sampler, n: nat, size: nat, stream: seq<Byte>) returns (r: Result<string>)
    requires size > 0
    ensures r.Ok? <==> |Letters(m, stream[..Whole(|stream|, size)])| >= n
    ensures r.Ok? ==> |Letters(m, stream)| >= n && r.value == Letters(m, stream)[..n]
  {
    var out := new char[n](_ => ' ');
    var i := 0;
    ghost var pos := 0;
    var rest := stream;
    while i < n
      invariant 0 <= pos <= |stream| && rest == stream[pos..]
      invariant Whole(|stream|, size) == pos + Whole(|rest|, size)
      invariant 0 <= i <= n && i <= |Letters(m, stream[..pos])|
      invariant out[..i] == Letters(m, stream[..pos])[..i]
      invariant i < n ==> i == |Letters(m, stream[..pos])|
      decreases |rest|
    {
      if |rest| < size {
        return Panic;
      }
      ChunkLetters(m, stream, pos, size);
      i := FillFrom(m, rest[..size], out, i);
      pos, rest := pos + size, rest[size..];
    }
    PrefixOfPrefix(m, stream, pos, Whole(|stream|, size));
    assert out[..] == out[..n];
    r := Ok(out[..]);
  }

  /** The letters of one more buffer. */
  lemma ChunkLetters(m: Sampler, stream: seq<Byte>, pos: nat, size: nat)
    requires pos + size <= |stream|
    ensures Letters(m, stream[..pos + size]) == Letters(m, stream[..pos]) + Letters(m, stream[pos..][..size])
    ensures stream[pos..][size..] == stream[pos + size..]
  {
    assert stream[..pos + size] == stream[..pos] + stream[pos..][..size];
    LettersConcat(m, stream[..pos], stream[pos..][..size]);
  }

  lemma PrefixOfPrefix(m: Sampler, stream: seq<Byte>, i: nat, j: nat)
    requires i <= j <= |stream|
    ensures Letters(m, stream[..i]) <= Letters(m, stream[..j]) <= Letters(m, stream)
  {
    LettersPrefix(m, stream[..j], i);
    assert stream[..j][..i] == stream[..i];
    LettersPrefix(m, stream, j);
  }

  lemma LetterStep(m: Sampler, stream: seq<Byte>, k: nat)
    requires k < |stream|
    ensures Letters(m, stream[..k + 1])
         == Letters(m, stream[..k]) + if m.Accepts(stream[k]) then [m.Letter(stream[k])] else ""
  {
    assert stream[..k + 1] == stream[..k] + [stream[k]];
    LettersConcat(m, stream[..k], [stream[k]]);
  }

  lemma LettersPrefix(m: Sampler, stream: seq<Byte>, k: nat)
    requires k <= |stream|
    ensures Letters(m, stream[..k]) <= Letters(m, stream)
  {
    assert stream == stream[..k] + stream[k..];
    LettersConcat(m, stream[..k], stream[k..]);
  }

  /** n consecutive characters. */
  ghost predicate Consecutive(s: string, first: char, n: nat) {
    |s| == n && forall i :: 0 <= i < n ==> s[i] as int == first as int + i
  }

  lemma Ranges()
    ensures Consecutive(LOWER, 'a', 26) && Consecutive(UPPER, 'A', 26) && Consecutive(DIGITS, '0', 10)
  {
  }

  lemma InRanges(lower: string, upper: string, digits: string, c: char)
    requires Consecutive(lower, 'a', 26) && Consecutive(upper, 'A', 26) && Consecutive(digits, '0', 10)
    ensures var all := lower + upper + digits;
            && |all| == 62 && (forall i, j :: 0 <= i < j < 62 ==> all[i] != all[j])
            && (c in all <==> 'a' <= c <= 'z' || 'A' <= c <= 'Z' || '0' <= c <= '9')
  {
    var all := lower + upper + digits;
    if 'a' <= c <= 'z' {
      assert all[c as int - 'a' as int] == c;
    } else if 'A' <= c <= 'Z' {
      assert all[26 + (c as int - 'A' as int)] == c;
    } else if '0' <= c <= '9' {
      assert all[52 + (c as int - '0' as int)] == c;
    }
  }

  /** The letters are a-z, A-Z and 0-9, each once. */
  lemma AlphabetIsAlnum(c: char)
    ensures |ALPHABET| == 62 && forall i, j :: 0 <= i < j < 62 ==> ALPHABET[i] != ALPHABET[j]
    ensures c in ALPHABET <==> 'a' <= c <= 'z' || 'A' <= c <= 'Z' || '0' <= c <= '9'
  {
    Ranges();
    InRanges(LOWER, UPPER, DIGITS, c);
  }

  /** Every letter comes from exactly four accepted byte values, so letters are equally likely. */
  lemma LetterIsUniform(j: nat)
    requires j < 62
    ensures |ALPHABET| == 62
    ensures |set b: Byte | ALNUM.Accepts(b) && b % 62 == j| == 4
    ensures forall b: Byte :: ALNUM.Accepts(b) && b % 62 == j ==> ALNUM.Letter(b) == ALPHABET[j]
  {
    assert THRESHOLD == 248;
    var four: set<Byte> := {j, j + 62, j + 124, j + 186};
    assert (set b: Byte | ALNUM.Accepts(b) && b % 62 == j) == four;
  }
}
