/** The recurrence written out: every state and output as an explicit sum of decayed
    inputs. None of these formulas mentions the step function. */
module ScanUnrolled {
  import opened Wrappers
  import opened SelectiveScan

  /** What a step of size d leaves of a lane. */
  ghost function Fade(m: Math, a: real, d: real): real { m.exp(d * a) }

  /** The product of exp(ds[j] * a) over j from k on. */
  ghost function Decay(m: Math, a: real, ds: seq<real>, k: nat): real
    requires k <= |ds|
    decreases |ds| - k
  {
    if k == |ds| then 1.0 else Fade(m, a, ds[k]) * Decay(m, a, ds, k + 1)
  }

  /** The inputs ds[j] * us[j] * bs[j] of the positions before k, each decayed by all
      later positions. */
  ghost function Taken(m: Math, a: real, ds: seq<real>, us: seq<real>, bs: seq<real>, k: nat): real
    requires k <= |ds| == |us| == |bs|
  {
    if k == 0 then 0.0
    else Taken(m, a, ds, us, bs, k - 1) + ds[k-1] * us[k-1] * bs[k-1] * Decay(m, a, ds, k)
  }

  /** A lane after all positions: the decayed start and the decayed inputs. */
  ghost function LaneAfter(m: Math, a: real, x0: real, ds: seq<real>, us: seq<real>, bs: seq<real>): real
    requires |ds| == |us| == |bs|
  {
    x0 * Decay(m, a, ds, 0) + Taken(m, a, ds, us, bs, |ds|)
  }

  /** `d` is the step size for input x: shifted by the bias, and below the cut
      replaced by log(exp(x) + 1). */
  ghost predicate IsDelta(m: Math, bias: Option<real>, softplus: bool, x: real, d: real) {
    var y := if bias.Some? then x + bias.value else x;
    d == if softplus && y <= 20.0 then m.log(m.exp(y) + 1.0) else y
  }

  /** With log the inverse of exp, the smoothed step size is the one whose exponential
      is exp(x) + 1; above the cut it is x itself. */
  lemma SoftplusLaw(m: Math, x: real)
    requires forall y: real :: y > 0.0 ==> m.exp(m.log(y)) == y
    requires Positive(m)
    ensures x <= 20.0 ==> m.exp(Softplus(m, x)) == m.exp(x) + 1.0
    ensures x > 20.0 ==> Softplus(m, x) == x
  {
    assert m.exp(x) + 1.0 > 0.0;
  }

  // ---- One more position ----------------------------------------------------------------

  lemma {:induction false} DecayNext(m: Math, a: real, ds: seq<real>, d: real, k: nat)
    requires k <= |ds|
    ensures Decay(m, a, ds + [d], k) == Decay(m, a, ds, k) * Fade(m, a, d)
    decreases |ds| - k
  {
    hide Fade;
    if k < |ds| {
      DecayNext(m, a, ds, d, k + 1);
      Regroup(Fade(m, a, ds[k]), Decay(m, a, ds, k + 1), Fade(m, a, d));
    } else {
      assert (ds + [d])[k] == d && Decay(m, a, ds + [d], k + 1) == 1.0 && Decay(m, a, ds, k) == 1.0;
    }
  }

  lemma Regroup(x: real, y: real, z: real)
    ensures x * (y * z) == (x * y) * z
  {}

  lemma {:induction false} TakenNext(m: Math, a: real, ds: seq<real>, us: seq<real>, bs: seq<real>, d: real, u: real, b: real, k: nat)
    requires k <= |ds| == |us| == |bs|
    ensures Taken(m, a, ds + [d], us + [u], bs + [b], k) == Taken(m, a, ds, us, bs, k) * Fade(m, a, d)
  {
    hide Decay, Fade;
    if k > 0 {
      TakenNext(m, a, ds, us, bs, d, u, b, k - 1);
      DecayNext(m, a, ds, d, k);
      var t, w, e := Taken(m, a, ds, us, bs, k - 1), ds[k-1] * us[k-1] * bs[k-1], Fade(m, a, d);
      Spread(t, w, Decay(m, a, ds, k), e);
    }
  }

  lemma Spread(t: real, w: real, y: real, e: real)
    ensures t * e + w * (y * e) == (t + w * y) * e
  {}

  lemma LaneNext(m: Math, a: real, x0: real, ds: seq<real>, us: seq<real>, bs: seq<real>, d: real, u: real, b: real)
    requires |ds| == |us| == |bs|
    ensures LaneAfter(m, a, x0, ds + [d], us + [u], bs + [b]) == Fade(m, a, d) * LaneAfter(m, a, x0, ds, us, bs) + d * u * b
  {
    hide Decay, Fade;
    DecayNext(m, a, ds, d, 0);
    TakenNext(m, a, ds, us, bs, d, u, b, |ds|);
    NoDecay(m, a, ds + [d]);
    var y, t, e := Decay(m, a, ds, 0), Taken(m, a, ds, us, bs, |ds|), Fade(m, a, d);
    Gather(x0, y, t, e);
  }

  lemma NoDecay(m: Math, a: real, ds: seq<real>)
    ensures Decay(m, a, ds, |ds|) == 1.0
  {}

  lemma Gather(x0: real, y: real, t: real, e: real)
    ensures x0 * (y * e) + t * e == e * (x0 * y + t)
  {}

  // ---- The recurrence unrolled ------------------------------------------------------------

  ghost function Us(ts: seq<Token>): (r: seq<real>)
    ensures |r| == |ts|
  {
    seq(|ts|, k requires 0 <= k < |ts| => ts[k].u)
  }

  ghost function Bs(ts: seq<Token>, n: nat): (r: seq<real>)
    requires forall k :: 0 <= k < |ts| ==> n < |ts[k].B|
    ensures |r| == |ts|
  {
    seq(|ts|, k requires 0 <= k < |ts| => ts[k].B[n])
  }

  ghost predicate AreDeltas(m: Math, ch: Channel, ts: seq<Token>, ds: seq<real>) {
    |ds| == |ts| && forall k :: 0 <= k < |ts| ==> IsDelta(m, ch.bias, ch.softplus, ts[k].delta, ds[k])
  }

  /** Every lane of the state is the explicit sum. */
  lemma {:induction false} ScanUnrolls(m: Math, ch: Channel, s0: seq<real>, ts: seq<Token>, ds: seq<real>, n: nat)
    requires |s0| == |ch.A| && AllShaped(ch, ts) && AreDeltas(m, ch, ts, ds) && n < |s0|
    ensures Scan(m, ch, s0, ts)[n] == LaneAfter(m, ch.A[n], s0[n], ds, Us(ts), Bs(ts, n))
  {
    hide LaneAfter, Advance, IsDelta, Fade;
    if |ts| == 0 {
      EmptyLane(m, ch.A[n], s0[n], ds, Us(ts), Bs(ts, n));
    } else {
      var k := |ts| - 1;
      ScanUnrolls(m, ch, s0, ts[..k], ds[..k], n);
      LaneNext(m, ch.A[n], s0[n], ds[..k], Us(ts[..k]), Bs(ts[..k], n), ds[k], ts[k].u, ts[k].B[n]);
      assert ds == ds[..k] + [ds[k]] && Us(ts) == Us(ts[..k]) + [ts[k].u] && Bs(ts, n) == Bs(ts[..k], n) + [ts[k].B[n]];
      AdvanceAt(m, ch, Scan(m, ch, s0, ts[..k]), ts[k], ds[k], n);
    }
  }

  lemma EmptyLane(m: Math, a: real, x0: real, ds: seq<real>, us: seq<real>, bs: seq<real>)
    requires |ds| == |us| == |bs| == 0
    ensures LaneAfter(m, a, x0, ds, us, bs) == x0
  {}

  lemma AdvanceAt(m: Math, ch: Channel, state: seq<real>, t: Token, d: real, n: nat)
    requires |state| == |ch.A| && Shaped(ch, t) && IsDelta(m, ch.bias, ch.softplus, t.delta, d) && n < |state|
    ensures Advance(m, ch, state, t)[n] == Fade(m, ch.A[n], d) * state[n] + d * t.u * t.B[n]
  {
    hide Lane, Fade;
    assert d == EffectiveDelta(m, ch, t.delta);
    LaneIs(m, d, ch.A[n], state[n], t.u, t.B[n]);
  }

  lemma LaneIs(m: Math, d: real, a: real, x: real, u: real, b: real)
    ensures Lane(m, d, a, x, u, b) == Fade(m, a, d) * x + d * u * b
  {}

  /** The sum over the first n lanes of cs[i] * xs[i]. */
  ghost function LaneSum(cs: seq<real>, xs: seq<real>, n: nat): real
    requires n <= |cs| == |xs|
  {
    if n == 0 then 0.0 else LaneSum(cs, xs, n - 1) + cs[n-1] * xs[n-1]
  }

  lemma {:induction false} DotIsLaneSum(a: seq<real>, b: seq<real>, n: nat)
    requires |a| == |b| && n <= |a|
    ensures Dot(a[..n], b[..n]) == LaneSum(b, a, n)
  {
    if n > 0 {
      DotIsLaneSum(a, b, n - 1);
      assert a[..n][..n-1] == a[..n-1] && b[..n][..n-1] == b[..n-1];
    }
  }

  /** Every output is D * u plus the sum over lanes of C times the explicit state. */
  lemma OutputUnrolls(m: Math, ch: Channel, s0: seq<real>, ts: seq<Token>, ds: seq<real>, t: nat, xs: seq<real>)
    requires |s0| == |ch.A| == |xs| && AllShaped(ch, ts) && AreDeltas(m, ch, ts, ds) && t < |ts|
    requires forall n :: 0 <= n < |xs| ==> xs[n] == LaneAfter(m, ch.A[n], s0[n], ds[..t+1], Us(ts[..t+1]), Bs(ts[..t+1], n))
    ensures OutputAt(m, ch, s0, ts, t)
         == LaneSum(ts[t].C, xs, |xs|) + (if ch.D.Some? then ch.D.value * ts[t].u else 0.0)
  {
    hide LaneAfter, Scan;
    var state := Scan(m, ch, s0, ts[..t+1]);
    forall n | 0 <= n < |xs| ensures state[n] == xs[n] { ScanUnrolls(m, ch, s0, ts[..t+1], ds[..t+1], n); }
    assert state == xs;
    DotIsLaneSum(xs, ts[t].C, |xs|);
    assert xs[..|xs|] == xs && ts[t].C[..|xs|] == ts[t].C;
  }

  // ---- The gate ---------------------------------------------------------------------------

  /** The gate is out * z times a weight: 0 at z = 0, and the weights at z and -z add
      up to one. */
  lemma GateLaws(m: Math, out: real, z: real)
    requires Positive(m) && m.exp(z) * m.exp(-z) == 1.0
    ensures Gate(m, out, 0.0) == 0.0
    ensures Gate(m, out, z) - Gate(m, out, -z) == out * z
    ensures Gate(m, out, z) * (1.0 + m.exp(-z)) == out * z
  {
    assert -(-z) == z;
    GateHalves(out * z, m.exp(z), m.exp(-z));
    assert out * (-z) == -(out * z);
    assert out * 0.0 == 0.0;
    ZeroOver(1.0 + m.exp(-0.0));
  }

  lemma ZeroOver(x: real)
    requires x > 0.0
    ensures 0.0 / x == 0.0
  {}

  lemma GateHalves(w: real, e: real, f: real)
    requires e > 0.0 && f > 0.0 && e * f == 1.0
    ensures w / (1.0 + f) - (-w) / (1.0 + e) == w
    ensures w / (1.0 + f) * (1.0 + f) == w
  {
    var x, y := w / (1.0 + f), (-w) / (1.0 + e);
    assert x * (1.0 + f) == w && y * (1.0 + e) == -w;
    assert x * (1.0 + f) * e == x * e + x * (f * e);
    assert w * e == x * (1.0 + e);
    assert (x - y) * (1.0 + e) == w * (1.0 + e);
    Cancel(x - y, w, 1.0 + e);
  }

  lemma Cancel(x: real, y: real, c: real)
    requires c > 0.0 && x * c == y * c
    ensures x == y
  {
    assert (x - y) * c == 0.0;
  }
}
