/** The hash-chained history of the loop ledger: each entry carries the hash of the entry before it. */
module HistoryChain {
  import opened Common

  const GENESIS := "genesis"

  /** A SHA-256 digest in hexadecimal. */
  type Digest = s: string | |s| == 64 witness seq(64, _ => '0')

  datatype Action =
    | OracleRun(task: string, passed: bool, signature: string)
    | AttestedPass(target: string, sha: string, signer: string, note: string)
    | AttestedFail(target: string, note: string)
    | MarkedWontFix(target: string, reason: string, fileSha: Option<string>)
    | Refreshed(promoted: nat)
    | WasReset(task: string)

  /** An entry without its own hash. */
  datatype Body = Body(ts: string, prevHash: string, action: Action)

  datatype Entry = Entry(body: Body, hash: string)

  /** The hash function and the canonical JSON encoding; nothing is assumed of either. */
  datatype Hasher = Hasher(sha256: string -> Digest, json: Body -> string)

  function Seal(h: Hasher, b: Body): Digest {
    h.sha256(b.prevHash + h.json(b))
  }

  function PrevOf(hist: seq<Entry>, i: nat): string
    requires i <= |hist|
  {
    if i == 0 then GENESIS else hist[i - 1].hash
  }

  predicate Linked(h: Hasher, hist: seq<Entry>, i: nat)
    requires i < |hist|
  {
    hist[i].body.prevHash == PrevOf(hist, i) && hist[i].hash == Seal(h, hist[i].body)
  }

  predicate Verified(h: Hasher, hist: seq<Entry>) {
    forall i | 0 <= i < |hist| :: Linked(h, hist, i)
  }

  /** The history after `log` has appended an action. */
  function Logged(h: Hasher, hist: seq<Entry>, ts: string, a: Action): seq<Entry> {
    var b := Body(ts, PrevOf(hist, |hist|), a);
    hist + [Entry(b, Seal(h, b))]
  }

  /** Recomputes the chain; on failure `at` is the first entry that does not fit. */
  method VerifyHistoryChain(h: Hasher, hist: seq<Entry>) returns (ok: bool, at: nat)
    ensures ok <==> Verified(h, hist)
    ensures at <= |hist| && Verified(h, hist[..at])
    ensures !ok ==> at < |hist| && !Linked(h, hist, at)
  {
    var prev := GENESIS;
    at := 0;
    while at < |hist|
      invariant at <= |hist| && prev == PrevOf(hist, at)
      invariant forall i | 0 <= i < at :: Linked(h, hist, i)
    {
      var e := hist[at];
      if e.body.prevHash != prev || e.hash != h.sha256(prev + h.json(e.body)) {
        assert !Linked(h, hist, at);
        PrefixLinks(h, hist, at);
        return false, at;
      }
      prev := e.hash;
      at := at + 1;
    }
    assert hist[..at] == hist;
    ok := true;
  }

  lemma PrefixLinks(h: Hasher, hist: seq<Entry>, n: nat)
    requires n <= |hist| && forall i | 0 <= i < n :: Linked(h, hist, i)
    ensures Verified(h, hist[..n])
  {
    forall i | 0 <= i < n ensures Linked(h, hist[..n], i) { assert Linked(h, hist, i); }
  }

  /** Logging keeps a verified history verified and leaves everything already in it in place. */
  lemma LogKeepsVerified(h: Hasher, hist: seq<Entry>, ts: string, a: Action)
    ensures var next := Logged(h, hist, ts, a);
            && |next| == |hist| + 1 && hist <= next && next[|hist|].body.action == a
            && (Verified(h, hist) <==> Verified(h, next))
  {
    var next := Logged(h, hist, ts, a);
    if Verified(h, hist) {
      forall i | 0 <= i < |next| ensures Linked(h, next, i) {
        if i < |hist| { assert Linked(h, hist, i); }
      }
    }
    if Verified(h, next) {
      PrefixLinks(h, next, |hist|);
      assert next[..|hist|] == hist;
    }
  }

  /** The limit of the chain: cutting off the tail of a verified history goes unnoticed. */
  lemma TruncationVerifies(h: Hasher, hist: seq<Entry>, n: nat)
    requires Verified(h, hist) && n <= |hist|
    ensures Verified(h, hist[..n])
  {
    PrefixLinks(h, hist, n);
  }

  /** Two entries of the histories with different bodies and the same digest. */
  ghost predicate Collide(h: Hasher, a: seq<Entry>, b: seq<Entry>) {
    exists i, j :: 0 <= i < |a| && 0 <= j < |b| && a[i].body != b[j].body && Seal(h, a[i].body) == Seal(h, b[j].body)
  }

  lemma GenesisIsNoDigest(h: Hasher, hist: seq<Entry>, i: nat)
    requires Verified(h, hist) && i < |hist|
    ensures |PrevOf(hist, i)| == 64 <==> i > 0
  {
    if i > 0 { assert Linked(h, hist, i - 1); }
  }

  /** Two verified histories that end in the same hash are the same history, entry by entry, or hold a
      hash collision; histories of different lengths always hold one. */
  lemma {:induction false} SameHeadSameHistory(h: Hasher, a: seq<Entry>, b: seq<Entry>)
    requires Verified(h, a) && Verified(h, b) && a != [] && b != []
    requires a[|a| - 1].hash == b[|b| - 1].hash
    ensures a == b || Collide(h, a, b)
    decreases |a|
  {
    var m, n := |a| - 1, |b| - 1;
    assert Linked(h, a, m) && Linked(h, b, n);
    if a[m].body == b[n].body {
      var a', b' := a[..m], b[..n];
      GenesisIsNoDigest(h, a, m);
      GenesisIsNoDigest(h, b, n);
      if m > 0 && n > 0 {
        TruncationVerifies(h, a, m);
        TruncationVerifies(h, b, n);
        SameHeadSameHistory(h, a', b');
        if Collide(h, a', b') {
          var i, j :| 0 <= i < m && 0 <= j < n && a'[i].body != b'[j].body && Seal(h, a'[i].body) == Seal(h, b'[j].body);
          assert a[i].body != b[j].body && Seal(h, a[i].body) == Seal(h, b[j].body);
        }
      }
      assert a == a[..m] + [a[m]] && b == b[..n] + [b[n]];
    }
  }

  /** A recorded head pins the past: any verified history with an entry of that hash starts with the
      recorded history, or a collision can be read off the two. */
  lemma HeadPinsThePast(h: Hasher, a: seq<Entry>, b: seq<Entry>, n: nat)
    requires Verified(h, a) && Verified(h, b) && a != [] && n < |b|
    requires b[n].hash == a[|a| - 1].hash
    ensures a <= b || Collide(h, a, b)
  {
    TruncationVerifies(h, b, n + 1);
    SameHeadSameHistory(h, a, b[..n + 1]);
    if Collide(h, a, b[..n + 1]) {
      var i, j :| 0 <= i < |a| && 0 <= j < n + 1 && a[i].body != b[..n + 1][j].body
                  && Seal(h, a[i].body) == Seal(h, b[..n + 1][j].body);
      assert a[i].body != b[j].body && Seal(h, a[i].body) == Seal(h, b[j].body);
    }
  }
}
