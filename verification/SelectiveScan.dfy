/** The selective-scan recurrence on its own: out of place, one token after the
    other, on exactly `dstate` lanes. Everything the kernel computes is stated
    against these definitions. Arithmetic is over the reals; `exp` and `log`
    are parameters. */
module SelectiveScan {
  import opened Arithmetic
  import opened Wrappers

  datatype Math = Math(exp: real -> real, log: real -> real)

  /** The one fact about `exp` the kernel needs: the gate never divides by zero. */
  ghost predicate Positive(m: Math) {
    forall x: real :: m.exp(x) > 0.0
  }

  function Softplus(m: Math, x: real): real {
    if x <= 20.0 then m.log(m.exp(x) + 1.0) else x
  }

  /** The constants of one channel: a row of A, and the optional D and bias. */
  datatype Channel = Channel(A: seq<real>, D: Option<real>, bias: Option<real>, softplus: bool)

  /** The inputs of one position, with one B and one C value per lane. */
  datatype Token = Token(u: real, delta: real, B: seq<real>, C: seq<real>, z: real)

  ghost predicate Shaped(ch: Channel, t: Token) {
    |t.B| == |ch.A| && |t.C| == |ch.A|
  }

  ghost predicate AllShaped(ch: Channel, ts: seq<Token>) {
    forall i :: 0 <= i < |ts| ==> Shaped(ch, ts[i])
  }

  function EffectiveDelta(m: Math, ch: Channel, delta: real): real {
    var biased := if ch.bias.Some? then delta + ch.bias.value else delta;
    if ch.softplus then Softplus(m, biased) else biased
  }

  function Lane(m: Math, d: real, a: real, x: real, u: real, b: real): real {
    m.exp(d * a) * x + d * u * b
  }

  /** state' = exp(delta * A) * state + delta * u * B, lane by lane. */
  function Advance(m: Math, ch: Channel, state: seq<real>, t: Token): (r: seq<real>)
    requires |state| == |ch.A| && Shaped(ch, t)
    ensures |r| == |state|
  {
    var d := EffectiveDelta(m, ch, t.delta);
    seq(|state|, i requires 0 <= i < |state| => Lane(m, d, ch.A[i], state[i], t.u, t.B[i]))
  }

  function Dot(a: seq<real>, b: seq<real>): real
    requires |a| == |b|
  {
    if |a| == 0 then 0.0
    else Dot(a[..|a|-1], b[..|b|-1]) + a[|a|-1] * b[|b|-1]
  }

  /** The output of a position, read off the state after that position. */
  function Output(ch: Channel, state: seq<real>, t: Token): real
    requires |state| == |t.C|
  {
    Dot(state, t.C) + (if ch.D.Some? then ch.D.value * t.u else 0.0)
  }

  function Gate(m: Math, out: real, z: real): real
    requires Positive(m)
  {
    out * z / (1.0 + m.exp(-z))
  }

  function Zeros(n: nat): (r: seq<real>)
    ensures |r| == n && forall i :: 0 <= i < n ==> r[i] == 0.0
  {
    seq(n, i => 0.0)
  }

  /** The plain one-pass recurrence: the state after every token of `ts`. */
  function Scan(m: Math, ch: Channel, s0: seq<real>, ts: seq<Token>): (r: seq<real>)
    requires |s0| == |ch.A| && AllShaped(ch, ts)
    ensures |r| == |s0|
  {
    if |ts| == 0 then s0
    else Advance(m, ch, Scan(m, ch, s0, ts[..|ts|-1]), ts[|ts|-1])
  }

  /** The output of position `k` of the plain recurrence. */
  function OutputAt(m: Math, ch: Channel, s0: seq<real>, ts: seq<Token>, k: nat): real
    requires |s0| == |ch.A| && AllShaped(ch, ts) && k < |ts|
  {
    Output(ch, Scan(m, ch, s0, ts[..k+1]), ts[k])
  }

  /** Scanning a prefix and then the rest from the state reached is one scan. */
  lemma {:induction false} ScanSplit(m: Math, ch: Channel, s0: seq<real>, a: seq<Token>, b: seq<Token>)
    requires |s0| == |ch.A| && AllShaped(ch, a) && AllShaped(ch, b)
    ensures AllShaped(ch, a + b)
    ensures Scan(m, ch, s0, a + b) == Scan(m, ch, Scan(m, ch, s0, a), b)
  {
    if |b| == 0 {
      assert a + b == a;
    } else {
      var b' := b[..|b|-1];
      ScanSplit(m, ch, s0, a, b');
      assert (a + b)[..|a + b|-1] == a + b';
    }
  }

  /** Outputs of the rest, computed from the state the prefix left, are the
      outputs of the whole sequence. */
  lemma OutputSplit(m: Math, ch: Channel, s0: seq<real>, a: seq<Token>, b: seq<Token>, k: nat)
    requires |s0| == |ch.A| && AllShaped(ch, a) && AllShaped(ch, b) && k < |b|
    ensures AllShaped(ch, a + b)
    ensures OutputAt(m, ch, Scan(m, ch, s0, a), b, k) == OutputAt(m, ch, s0, a + b, |a| + k)
  {
    hide Scan, Output;
    ScanSplit(m, ch, s0, a, b[..k+1]);
    assert (a + b)[..|a| + k + 1] == a + b[..k+1];
    assert (a + b)[|a| + k] == b[k];
  }

  // ---- Padding to a power of two ------------------------------------------

  function NextPowerOfTwo(n: nat): (r: nat)
    ensures r >= n
  {
    NextPowerFrom(n, 1)
  }

  /** Doubling from r until n is reached. */
  function NextPowerFrom(n: nat, r: nat): (p: nat)
    requires r >= 1
    ensures p >= n
    decreases n - r
  {
    if n <= r then r else NextPowerFrom(n, 2 * r)
  }

  lemma {:induction false} Pow2Monotone(a: nat, b: nat)
    requires a <= b
    ensures Pow2(a) <= Pow2(b)
    decreases b
  {
    if a < b { Pow2Monotone(a, b - 1); }
  }

  /** The width is a power of two, and the least one that holds n lanes. */
  lemma NextPowerIsLeast(n: nat, k: nat)
    ensures exists e: nat :: NextPowerOfTwo(n) == Pow2(e)
    ensures n <= Pow2(k) ==> NextPowerOfTwo(n) <= Pow2(k)
  {
    NextPowerFromIsLeast(n, 0, k);
  }

  lemma {:induction false} NextPowerFromIsLeast(n: nat, e: nat, k: nat)
    requires e > 0 ==> Pow2(e - 1) < n
    ensures exists e': nat :: NextPowerFrom(n, Pow2(e)) == Pow2(e')
    ensures n <= Pow2(k) ==> NextPowerFrom(n, Pow2(e)) <= Pow2(k)
    decreases n - Pow2(e)
  {
    if n <= Pow2(e) {
      if k >= e { Pow2Monotone(e, k); } else { Pow2Monotone(k, e - 1); }
    } else {
      assert Pow2(e + 1) == 2 * Pow2(e);
      NextPowerFromIsLeast(n, e + 1, k);
    }
  }

  /** The lanes a masked vector load yields: the real ones, then zeros. */
  function Pad(s: seq<real>, width: nat): (r: seq<real>)
    requires |s| <= width
    ensures |r| == width && r[..|s|] == s
    ensures forall i :: |s| <= i < width ==> r[i] == 0.0
  {
    s + Zeros(width - |s|)
  }

  function PadChannel(ch: Channel, width: nat): Channel
    requires |ch.A| <= width
  {
    ch.(A := Pad(ch.A, width))
  }

  function PadToken(t: Token, width: nat): Token
    requires |t.B| <= width && |t.C| <= width
  {
    t.(B := Pad(t.B, width), C := Pad(t.C, width))
  }

  lemma {:induction false} DotPad(a: seq<real>, b: seq<real>, width: nat)
    requires |a| == |b| <= width
    ensures Dot(Pad(a, width), Pad(b, width)) == Dot(a, b)
    decreases width
  {
    hide Pad;
    if width > |a| {
      DotPad(a, b, width - 1);
      PadLess(a, width);
      PadLess(b, width);
    } else {
      PadNone(a);
      PadNone(b);
    }
  }

  lemma PadLess(s: seq<real>, width: nat)
    requires |s| < width
    ensures Pad(s, width)[..width-1] == Pad(s, width-1) && Pad(s, width)[width-1] == 0.0
  {
    var n := width - |s|;
    assert Zeros(n)[..n-1] == Zeros(n - 1);
    assert (s + Zeros(n))[..width-1] == s + Zeros(n)[..n-1];
  }

  lemma PadNone(s: seq<real>)
    ensures Pad(s, |s|) == s
  {
    assert Zeros(0) == [];
  }

  /** Padding lanes stay zero, and the real lanes are those of the unpadded step. */
  lemma AdvancePad(m: Math, ch: Channel, state: seq<real>, t: Token, width: nat)
    requires |state| == |ch.A| <= width && Shaped(ch, t)
    ensures Advance(m, PadChannel(ch, width), Pad(state, width), PadToken(t, width))
         == Pad(Advance(m, ch, state, t), width)
  {
    var p := Advance(m, PadChannel(ch, width), Pad(state, width), PadToken(t, width));
    var q := Pad(Advance(m, ch, state, t), width);
    var d := EffectiveDelta(m, ch, t.delta);
    forall i | 0 <= i < width ensures p[i] == q[i] {
      var a, x, b := Pad(ch.A, width)[i], Pad(state, width)[i], Pad(t.B, width)[i];
      assert p[i] == Lane(m, d, a, x, t.u, b);
      if i < |state| {
        assert a == ch.A[i] && x == state[i] && b == t.B[i];
      } else {
        assert x == 0.0 && b == 0.0 && q[i] == 0.0;
      }
    }
  }

  /** The padded sum is the real sum. */
  lemma OutputPad(ch: Channel, state: seq<real>, t: Token, width: nat)
    requires |state| == |ch.A| <= width && Shaped(ch, t)
    ensures Output(PadChannel(ch, width), Pad(state, width), PadToken(t, width)) == Output(ch, state, t)
  {
    hide Pad;
    DotPad(state, t.C, width);
  }
}
