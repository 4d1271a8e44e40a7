/**
 * The "send only once" rule the bots share: a pass over a stream of keys skips every key already
 * recorded, sends the others, and records a key after a successful send (or after any send, when
 * the sender swallows its own errors). Send outcomes are an input: each send may fail.
 */
module Delivery {
  import opened Store

  /** What a pass did: the keys it sent, in order, the ones whose send succeeded, and the records after it. */
  datatype Pass<K> = Pass(attempted: seq<K>, delivered: seq<K>, recorded: set<K>)

  /**
   * One pass over `keys`, `ok[i]` being the outcome the send of `keys[i]` would have. A key found in
   * the records is skipped; a failed send is recorded only when `recordFailed`.
   */
  function Deliver<K(==)>(recorded: set<K>, keys: seq<K>, ok: seq<bool>, recordFailed: bool): Pass<K>
    requires |ok| == |keys|
    decreases |keys|
  {
    if keys == [] then Pass([], [], recorded)
    else
      var n := |keys| - 1;
      var p := Deliver(recorded, keys[..n], ok[..n], recordFailed);
      if keys[n] in p.recorded then p
      else Pass(p.attempted + [keys[n]],
                if ok[n] then p.delivered + [keys[n]] else p.delivered,
                if ok[n] || recordFailed then p.recorded + {keys[n]} else p.recorded)
  }

  /** A pass over one more key is the pass so far followed by that key's step. */
  lemma DeliverSnoc<K>(recorded: set<K>, keys: seq<K>, ok: seq<bool>, key: K, b: bool, recordFailed: bool)
    requires |ok| == |keys|
    ensures var p := Deliver(recorded, keys, ok, recordFailed);
      Deliver(recorded, keys + [key], ok + [b], recordFailed) ==
        if key in p.recorded then p
        else Pass(p.attempted + [key], if b then p.delivered + [key] else p.delivered,
                  if b || recordFailed then p.recorded + {key} else p.recorded)
  {
    assert (keys + [key])[..|keys|] == keys;
    assert (ok + [b])[..|keys|] == ok;
  }

  /**
   * The records only grow, by exactly the keys delivered (or attempted, when failures are recorded);
   * nothing already recorded is sent; no key is delivered twice, nor attempted twice when failures
   * are recorded; only given keys are sent, and delivered keys were attempted.
   */
  lemma {:induction false} DeliverFacts<K>(recorded: set<K>, keys: seq<K>, ok: seq<bool>, recordFailed: bool)
    requires |ok| == |keys|
    ensures var p := Deliver(recorded, keys, ok, recordFailed);
      var kept := if recordFailed then p.attempted else p.delivered;
      && p.recorded == recorded + (set k | k in kept)
      && (forall k | k in p.attempted :: k !in recorded && k in keys)
      && (forall k | k in p.delivered :: k in p.attempted)
      && NoDuplicates(p.delivered)
      && (recordFailed ==> NoDuplicates(p.attempted))
    decreases |keys|
  {
    if keys != [] {
      var n := |keys| - 1;
      DeliverFacts(recorded, keys[..n], ok[..n], recordFailed);
      assert forall k | k in keys[..n] :: k in keys;
    }
  }

  /** A failure does not stop the pass: every key whose own send would succeed ends up recorded. */
  lemma {:induction false} DeliverReaches<K>(recorded: set<K>, keys: seq<K>, ok: seq<bool>, recordFailed: bool, i: nat)
    requires |ok| == |keys| && i < |keys| && ok[i]
    ensures keys[i] in Deliver(recorded, keys, ok, recordFailed).recorded
    decreases |keys|
  {
    var n := |keys| - 1;
    if i < n {
      DeliverReaches(recorded, keys[..n], ok[..n], recordFailed, i);
    }
  }

  /** Every given key that was not recorded gets at least one send. */
  lemma {:induction false} DeliverTries<K>(recorded: set<K>, keys: seq<K>, ok: seq<bool>, recordFailed: bool, k: K)
    requires |ok| == |keys| && k in keys && k !in recorded
    ensures k in Deliver(recorded, keys, ok, recordFailed).attempted
    decreases |keys|
  {
    var n := |keys| - 1;
    var p := Deliver(recorded, keys[..n], ok[..n], recordFailed);
    if k in keys[..n] {
      DeliverTries(recorded, keys[..n], ok[..n], recordFailed, k);
    } else {
      assert k == keys[n];
      DeliverFacts(recorded, keys[..n], ok[..n], recordFailed);
    }
  }

  /** A pass over two stretches of keys is the second stretch's pass from the first one's records. */
  lemma {:induction false} DeliverConcat<K>(recorded: set<K>, a: seq<K>, oa: seq<bool>, b: seq<K>, ob: seq<bool>, recordFailed: bool)
    requires |oa| == |a| && |ob| == |b|
    ensures var p := Deliver(recorded, a, oa, recordFailed);
      var q := Deliver(p.recorded, b, ob, recordFailed);
      Deliver(recorded, a + b, oa + ob, recordFailed) ==
        Pass(p.attempted + q.attempted, p.delivered + q.delivered, q.recorded)
    decreases |b|
  {
    if b == [] {
      assert a + b == a && oa + ob == oa;
    } else {
      var n := |b| - 1;
      var p := Deliver(recorded, a, oa, recordFailed);
      var q := Deliver(p.recorded, b[..n], ob[..n], recordFailed);
      DeliverConcat(recorded, a, oa, b[..n], ob[..n], recordFailed);
      var ab, oab := a + b, oa + ob;
      assert ab[..|a| + n] == a + b[..n] && ab[|a| + n] == b[n];
      assert oab[..|a| + n] == oa + ob[..n] && oab[|a| + n] == ob[n];
      var r := Deliver(recorded, ab[..|a| + n], oab[..|a| + n], recordFailed);
      assert r == Pass(p.attempted + q.attempted, p.delivered + q.delivered, q.recorded);
      if b[n] !in q.recorded {
        assert (p.attempted + q.attempted) + [b[n]] == p.attempted + (q.attempted + [b[n]]);
        assert (p.delivered + q.delivered) + [b[n]] == p.delivered + (q.delivered + [b[n]]);
      }
    }
  }

  /** A second pass over keys whose every send succeeded the first time sends nothing. */
  lemma RedeliverNothing<K>(recorded: set<K>, keys: seq<K>, ok: seq<bool>, again: seq<bool>, recordFailed: bool)
    requires |ok| == |keys| && |again| == |keys|
    requires forall i | 0 <= i < |ok| :: ok[i]
    ensures var p := Deliver(recorded, keys, ok, recordFailed);
      Deliver(p.recorded, keys, again, recordFailed) == Pass([], [], p.recorded)
  {
    var p := Deliver(recorded, keys, ok, recordFailed);
    forall i | 0 <= i < |keys| ensures keys[i] in p.recorded {
      DeliverReaches(recorded, keys, ok, recordFailed, i);
    }
    AllRecordedSkipped(p.recorded, keys, again, recordFailed);
  }

  /** A pass over keys that are all recorded changes nothing. */
  lemma {:induction false} AllRecordedSkipped<K>(recorded: set<K>, keys: seq<K>, ok: seq<bool>, recordFailed: bool)
    requires |ok| == |keys|
    requires forall i | 0 <= i < |keys| :: keys[i] in recorded
    ensures Deliver(recorded, keys, ok, recordFailed) == Pass([], [], recorded)
    decreases |keys|
  {
    if keys != [] {
      var n := |keys| - 1;
      AllRecordedSkipped(recorded, keys[..n], ok[..n], recordFailed);
    }
  }
}
