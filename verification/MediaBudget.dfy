/** One byte budget shared by any number of concurrent downloads, each of which
    may retry. `charge` runs under a lock, so it is one step; checking a chunk
    and appending it to the chunk list are steps of their own. */
module MediaBudget {
  import opened Wrappers

  type Bytes = seq<bv8>

  /** One download: the chunk list of its current attempt, a chunk that was
      charged but not yet appended, the bytes appended so far by all its
      attempts, and the number of attempts started. */
  datatype Download = Download(
    maxBytes: Option<int>,
    chunks: seq<Bytes>,
    received: nat,
    inflight: Option<Bytes>,
    appended: nat,
    attempts: nat)

  datatype System = System(used: nat, downloads: seq<Download>)

  datatype Action =
    | Accept(i: nat, chunk: Bytes)
    | RejectSize(i: nat, chunk: Bytes)
    | RejectBudget(i: nat, chunk: Bytes)
    | Append(i: nat)
    | Restart(i: nat)

  predicate WithinMax(d: Download, chunk: Bytes) {
    d.maxBytes.Some? ==> d.received + |chunk| <= d.maxBytes.value
  }

  /** A chunk is offered to a download: size check, then the charge. */
  ghost predicate Offered(s: System, i: nat, chunk: Bytes) {
    i < |s.downloads| && s.downloads[i].inflight.None? && |chunk| > 0
  }

  ghost predicate Next(limit: nat, s: System, a: Action, s': System) {
    match a
    case Accept(i, chunk) =>
      && Offered(s, i, chunk) && WithinMax(s.downloads[i], chunk) && s.used + |chunk| <= limit
      && s' == System(s.used + |chunk|,
                      s.downloads[i := s.downloads[i].(received := s.downloads[i].received + |chunk|, inflight := Some(chunk))])
    case RejectSize(i, chunk) =>
      Offered(s, i, chunk) && !WithinMax(s.downloads[i], chunk) && s' == s
    case RejectBudget(i, chunk) =>
      Offered(s, i, chunk) && WithinMax(s.downloads[i], chunk) && s.used + |chunk| > limit && s' == s
    case Append(i) =>
      && i < |s.downloads| && s.downloads[i].inflight.Some?
      && s' == s.(downloads := s.downloads[i := Appended(s.downloads[i])])
    case Restart(i) =>
      && i < |s.downloads| && s.downloads[i].inflight.None?
      && s' == s.(downloads := s.downloads[i := s.downloads[i].(chunks := [], received := 0, attempts := s.downloads[i].attempts + 1)])
  }

  function Appended(d: Download): Download
    requires d.inflight.Some?
  {
    d.(chunks := d.chunks + [d.inflight.value], inflight := None, appended := d.appended + |d.inflight.value|)
  }

  // ---- What a run keeps -------------------------------------------------------------

  function Pending(d: Download): nat { if d.inflight.Some? then |d.inflight.value| else 0 }

  /** Bytes charged by all downloads and all their attempts. */
  function Charged(ds: seq<Download>): nat {
    if |ds| == 0 then 0 else Charged(ds[..|ds|-1]) + ds[|ds|-1].appended + Pending(ds[|ds|-1])
  }

  /** Bytes appended to chunk lists by all downloads and all their attempts. */
  function TotalAppended(ds: seq<Download>): nat {
    if |ds| == 0 then 0 else TotalAppended(ds[..|ds|-1]) + ds[|ds|-1].appended
  }

  function Length(chunks: seq<Bytes>): nat {
    if |chunks| == 0 then 0 else Length(chunks[..|chunks|-1]) + |chunks[|chunks|-1]|
  }

  ghost predicate DownloadOk(d: Download) {
    && d.received == Length(d.chunks) + Pending(d)
    && (d.maxBytes.Some? && d.received > 0 ==> d.received <= d.maxBytes.value)
    && Length(d.chunks) <= d.appended
  }

  ghost predicate Inv(limit: nat, s: System) {
    && s.used == Charged(s.downloads) <= limit
    && forall i :: 0 <= i < |s.downloads| ==> DownloadOk(s.downloads[i])
  }

  lemma {:induction false} ChargedUpdate(ds: seq<Download>, i: nat, d: Download)
    requires i < |ds|
    ensures Charged(ds[i := d]) == Charged(ds) - ds[i].appended - Pending(ds[i]) + d.appended + Pending(d)
  {
    var n := |ds| - 1;
    if i < n {
      ChargedUpdate(ds[..n], i, d);
      assert ds[i := d][..n] == ds[..n][i := d];
    } else {
      assert ds[i := d][..n] == ds[..n];
    }
  }

  lemma LengthSnoc(chunks: seq<Bytes>, c: Bytes)
    ensures Length(chunks + [c]) == Length(chunks) + |c|
  {
    assert (chunks + [c])[..|chunks|] == chunks;
  }

  lemma StepKeeps(limit: nat, s: System, a: Action, s': System)
    requires Inv(limit, s) && Next(limit, s, a, s')
    ensures Inv(limit, s') && s.used <= s'.used
  {
    hide Charged, Length;
    match a {
      case Accept(i, chunk) => ChargedUpdate(s.downloads, i, s'.downloads[i]);
      case Append(i) =>
        ChargedUpdate(s.downloads, i, s'.downloads[i]);
        LengthSnoc(s.downloads[i].chunks, s.downloads[i].inflight.value);
      case Restart(i) =>
        ChargedUpdate(s.downloads, i, s'.downloads[i]);
        assert Length([]) == 0 by { EmptyLength(); }
      case _ =>
    }
  }

  lemma EmptyLength()
    ensures Length([]) == 0
  {}

  /** A run: states linked by actions of any downloads in any order. */
  ghost predicate Run(limit: nat, states: seq<System>, actions: seq<Action>) {
    && |states| == |actions| + 1
    && forall k :: 0 <= k < |actions| ==> Next(limit, states[k], actions[k], states[k+1])
  }

  ghost predicate Fresh(s: System) {
    && s.used == 0
    && forall i :: 0 <= i < |s.downloads| ==>
      s.downloads[i] == Download(s.downloads[i].maxBytes, [], 0, None, 0, 1)
  }

  lemma {:induction false} FreshCharged(ds: seq<Download>)
    requires forall i :: 0 <= i < |ds| ==> ds[i] == Download(ds[i].maxBytes, [], 0, None, 0, 1)
    ensures Charged(ds) == 0
  {
    if |ds| > 0 { FreshCharged(ds[..|ds|-1]); }
  }

  lemma {:induction false} RunKeeps(limit: nat, states: seq<System>, actions: seq<Action>, j: nat, k: nat)
    requires Run(limit, states, actions) && Fresh(states[0]) && j <= k < |states|
    ensures Inv(limit, states[k]) && states[j].used <= states[k].used
    decreases k
  {
    hide Inv, Next, Fresh;
    if k == 0 {
      FreshInv(limit, states[0]);
    } else {
      RunKeeps(limit, states, actions, if j < k then j else k - 1, k - 1);
      StepKeeps(limit, states[k-1], actions[k-1], states[k]);
    }
  }

  lemma FreshInv(limit: nat, s: System)
    requires Fresh(s)
    ensures Inv(limit, s)
  {
    FreshCharged(s.downloads);
  }

  lemma {:induction false} QuietCharged(ds: seq<Download>)
    requires forall i :: 0 <= i < |ds| ==> ds[i].inflight.None?
    ensures Charged(ds) == TotalAppended(ds)
  {
    if |ds| > 0 { QuietCharged(ds[..|ds|-1]); }
  }

  /** In every interleaving the budget is never exceeded and never given back,
      and whenever no download is between its charge and its append, it equals
      the bytes appended by all downloads and all attempts, retried ones included. */
  lemma BudgetOverRuns(limit: nat, states: seq<System>, actions: seq<Action>, j: nat, k: nat)
    requires Run(limit, states, actions) && Fresh(states[0]) && j <= k < |states|
    ensures states[j].used <= states[k].used <= limit
    ensures (forall i :: 0 <= i < |states[k].downloads| ==> states[k].downloads[i].inflight.None?) ==>
      states[k].used == TotalAppended(states[k].downloads)
  {
    RunKeeps(limit, states, actions, j, k);
    if forall i :: 0 <= i < |states[k].downloads| ==> states[k].downloads[i].inflight.None? {
      QuietCharged(states[k].downloads);
    }
  }
}
